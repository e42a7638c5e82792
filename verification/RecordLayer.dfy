/** The record layer below the DTLS message receiver: epochs, replays and content types (dtls_record.cc,
    dtls_method.cc and the first half of dtls1_open_handshake). Decryption is an oracle. */
module RecordLayer {
  import opened Bytes
  import opened DtlsWire
  import opened FlightSpec
  import RecordNumbers
  import ReceiverSpec
  import DtlsReceiver
  import ReplayWindow

  const MAX_PLAIN_LENGTH := 16384

  datatype Outcome = Discarded | Processed | Fatal

  /** What reading needs: the messages, the replay window of the current epoch, a ChangeCipherSpec that has
      arrived and not been asked for, and whether the read cipher is still the null cipher. */
  datatype Reader = Reader(inc: ReceiverSpec.Incoming, window: ReplayWindow.Window, hasCcs: bool, plain: bool)

  datatype Opened = Opened(reader: Reader, outcome: Outcome)

  /** The eight bytes of a record's epoch and number as the replay window reads them. */
  function SequenceOf(r: Record): ReplayWindow.u64
    requires OnWire(r)
  {
    r.epoch * RecordNumbers.NUM_MODULUS + r.number
  }

  /** The fields fit the record header. */
  predicate OnWire(r: Record) {
    r.epoch < RecordNumbers.EPOCH_MODULUS && r.number < RecordNumbers.NUM_MODULUS
  }

  /** Whether dtls_open_record lets the record through to the bitmap. */
  predicate Passes(s: Reader, r: Record, authentic: bool)
    requires OnWire(r)
  {
    && r.epoch == s.inc.readEpoch && !ReplayWindow.ShouldDiscard(s.window, SequenceOf(r)) && authentic
    && |r.payload| <= MAX_PLAIN_LENGTH
  }

  /** dtls1_open_handshake. */
  function Opening(s: Reader, r: Record, authentic: bool): Opened
    requires OnWire(r) && |s.inc.ring| == MAX_FLIGHT
  {
    if r.epoch != s.inc.readEpoch || ReplayWindow.ShouldDiscard(s.window, SequenceOf(r)) || !authentic then
      Opened(s, Discarded)
    else if |r.payload| > MAX_PLAIN_LENGTH then Opened(s, Fatal)
    else
      var s := s.(window := ReplayWindow.Record(s.window, SequenceOf(r)));
      match r.typ
      case ApplicationData => Opened(s, if s.plain then Fatal else Discarded)
      case ChangeCipherSpec =>
        if !s.plain || r.payload != CCS_BODY then Opened(s, Fatal) else Opened(s.(hasCcs := true), Processed)
      case Handshake =>
        var next := s.inc.AcceptAll(r.payload);
        if next.None? then Opened(s, Fatal) else Opened(s.(inc := next.value), Processed)
  }

  /** dtls1_set_read_state: None while data of the old epoch is left. */
  function KeyChange(s: Reader, hasMessage: bool): Option<Reader>
    requires |s.inc.ring| == MAX_FLIGHT
  {
    if s.hasCcs || s.inc.Unprocessed(hasMessage) then None
    else
      var inc := s.inc.(readEpoch := (s.inc.readEpoch + 1) % RecordNumbers.EPOCH_MODULUS);
      Some(Reader(inc, ReplayWindow.EmptyWindow, s.hasCcs, false))
  }

  class Connection {
    const receiver: DtlsReceiver.Receiver
    var bitmap: ReplayWindow.Bitmap
    var hasCcs: bool
    var plain: bool

    ghost predicate Valid()
      reads this, receiver, receiver.Repr, bitmap
    {
      && receiver.Valid() && this !in receiver.Repr && bitmap !in receiver.Repr
      && bitmap.Valid()
    }

    ghost function View(): Reader
      reads this, receiver, bitmap
    {
      Reader(receiver.view, bitmap.window, hasCcs, plain)
    }

    constructor (maxLen: nat)
      ensures Valid() && View() == Start(maxLen)
    {
      receiver := new DtlsReceiver.Receiver(maxLen);
      bitmap := new ReplayWindow.Bitmap();
      hasCcs, plain := false, true;
    }

    /** dtls1_open_handshake on a record whose decryption has succeeded or failed. */
    method OpenHandshake(r: Record, authentic: bool) returns (outcome: Outcome)
      requires Valid() && OnWire(r)
      modifies this, receiver.Repr, bitmap
      ensures Valid() && fresh(receiver.Repr - old(receiver.Repr)) && bitmap == old(bitmap)
      ensures outcome == Opening(old(View()), r, authentic).outcome
      ensures !outcome.Fatal? ==> View() == Opening(old(View()), r, authentic).reader
    {
      hide ReplayWindow.Tracks, ReplayWindow.Record;
      var discard := bitmap.ShouldDiscardNumber(SequenceOf(r));
      if r.epoch != receiver.readEpoch || discard || !authentic {
        return Discarded;
      }
      if |r.payload| > MAX_PLAIN_LENGTH {
        return Fatal;
      }
      bitmap.RecordNumber(SequenceOf(r));
      match r.typ {
        case ApplicationData =>
          return if plain then Fatal else Discarded;
        case ChangeCipherSpec =>
          if !plain || r.payload != CCS_BODY {
            return Fatal;
          }
          hasCcs := true;
          return Processed;
        case Handshake =>
          var ok := receiver.OpenHandshake(r.payload);
          return if ok then Processed else Fatal;
      }
    }

    /** dtls1_open_change_cipher_spec, when handshake processing has not met an error: whether one had arrived. */
    method TakeChangeCipherSpec() returns (taken: bool)
      requires Valid()
      modifies this
      ensures Valid() && bitmap == old(bitmap)
      ensures taken == old(hasCcs) && View() == old(View()).(hasCcs := false)
    {
      taken := hasCcs;
      hasCcs := false;
    }

    /** dtls1_set_read_state. */
    method SetReadState() returns (ok: bool)
      requires Valid()
      modifies this, receiver
      ensures Valid()
      ensures ok <==> KeyChange(old(View()), old(receiver.hasMessage)).Some?
      ensures View() == if ok then KeyChange(old(View()), old(receiver.hasMessage)).value
                        else old(View())
    {
      if hasCcs {
        return false;
      }
      var left := receiver.HasUnprocessed();
      if left {
        return false;
      }
      receiver.AdvanceEpoch();
      bitmap := new ReplayWindow.Bitmap();
      plain := false;
      return true;
    }
  }

  // Runs.

  datatype Event = Open(record: Record, authentic: bool) | Read | TakeCcs | ChangeKeys(hasMessage: bool)

  /** A reader, the records it has let through so far, how often its keys have changed, and whether it has met a fatal
      error. */
  datatype Track = Track(reader: Reader, log: seq<Record>, changes: nat, dead: bool)

  function Start(maxLen: nat): Reader {
    Reader(ReceiverSpec.Incoming(seq(MAX_FLIGHT, _ => None), 0, 0, maxLen), ReplayWindow.EmptyWindow,
           false, true)
  }

  /** A fatal error ends the run. */
  predicate Enabled(t: Track, e: Event) {
    && |t.reader.inc.ring| == MAX_FLIGHT && !t.dead
    && match e
       case Open(r, authentic) => OnWire(r)
       case Read => t.reader.inc.CurrentComplete()
       case TakeCcs => t.reader.hasCcs
       case ChangeKeys(hasMessage) => KeyChange(t.reader, hasMessage).Some?
  }

  function Step(t: Track, e: Event): Track
    requires Enabled(t, e)
  {
    match e
    case Open(r, authentic) =>
      var o := Opening(t.reader, r, authentic);
      if o.outcome.Fatal? then t.(dead := true)
      else t.(reader := o.reader, log := if Passes(t.reader, r, authentic) then t.log + [r] else t.log)
    case Read => t.(reader := t.reader.(inc := t.reader.inc.Next()))
    case TakeCcs => t.(reader := t.reader.(hasCcs := false))
    case ChangeKeys(hasMessage) =>
      t.(reader := KeyChange(t.reader, hasMessage).value, changes := t.changes + 1)
  }

  predicate Possible(maxLen: nat, run: seq<Event>)
    decreases |run|, 0
  {
    run == [] || (Possible(maxLen, run[..|run| - 1]) && Enabled(After(maxLen, run[..|run| - 1]), run[|run| - 1]))
  }

  function After(maxLen: nat, run: seq<Event>): Track
    requires Possible(maxLen, run)
    decreases |run|, 1
  {
    if run == [] then Track(Start(maxLen), [], 0, false) else Step(After(maxLen, run[..|run| - 1]), run[|run| - 1])
  }

  /** The numbers processed in an epoch, as the window sees them. */
  ghost function Seen(log: seq<Record>, epoch: nat): set<ReplayWindow.u64>
    requires forall r | r in log :: OnWire(r)
  {
    set r | r in log && r.epoch == epoch :: SequenceOf(r)
  }

  ghost predicate Once(log: seq<Record>) {
    forall i, j | 0 <= i < j < |log| :: (log[i].epoch, log[i].number) != (log[j].epoch, log[j].number)
  }

  /** While the epoch has not wrapped, the window knows the numbers of its epoch. */
  ghost predicate Inv(t: Track) {
    && t.reader.inc.readEpoch == t.changes < RecordNumbers.EPOCH_MODULUS
    && (forall r | r in t.log :: OnWire(r) && r.epoch <= t.changes)
    && ReplayWindow.Tracks(t.reader.window, Seen(t.log, t.changes))
    && Once(t.log)
  }

  lemma AppendSeen(log: seq<Record>, r: Record)
    requires OnWire(r) && forall x | x in log :: OnWire(x)
    ensures forall x | x in log + [r] :: OnWire(x)
    ensures Seen(log + [r], r.epoch) == Seen(log, r.epoch) + {SequenceOf(r)}
  {
    var log' := log + [r];
    assert forall x :: x in log' <==> x in log || x == r;
    forall q | q in Seen(log, r.epoch) + {SequenceOf(r)} ensures q in Seen(log', r.epoch) {
      if q == SequenceOf(r) {
        assert r in log';
      }
    }
  }

  lemma AppendOnce(log: seq<Record>, r: Record)
    requires Once(log) && OnWire(r) && (forall x | x in log :: OnWire(x)) && SequenceOf(r) !in Seen(log, r.epoch)
    ensures Once(log + [r])
  {
    forall i | 0 <= i < |log| ensures (log[i].epoch, log[i].number) != (r.epoch, r.number) {
      if log[i].epoch == r.epoch {
        assert SequenceOf(log[i]) in Seen(log, r.epoch);
      }
    }
  }

  lemma OpenInv(t: Track, r: Record, authentic: bool)
    requires Inv(t) && Enabled(t, Open(r, authentic))
    ensures Inv(Step(t, Open(r, authentic)))
  {
    hide ReplayWindow.Tracks, ReplayWindow.ShouldDiscard, ReplayWindow.Record;
    EpochKept(t.reader, r, authentic);
    if Passes(t.reader, r, authentic) {
      var seen := Seen(t.log, r.epoch);
      ReplayWindow.RecordTracks(t.reader.window, seen, SequenceOf(r));
      ReplayWindow.DiscardIff(t.reader.window, seen, SequenceOf(r));
      ReplayWindow.AcceptsFresh(t.reader.window, seen, SequenceOf(r));
      AppendSeen(t.log, r);
      AppendOnce(t.log, r);
    }
  }

  /** Opening a record leaves the epoch alone, and moves the window exactly for the records it lets through. */
  lemma EpochKept(s: Reader, r: Record, authentic: bool)
    requires OnWire(r) && |s.inc.ring| == MAX_FLIGHT
    ensures var s' := Opening(s, r, authentic).reader;
            && s'.inc.readEpoch == s.inc.readEpoch
            && s'.window == if Passes(s, r, authentic) then ReplayWindow.Record(s.window, SequenceOf(r)) else s.window
  {
    hide ReplayWindow.Record, ReplayWindow.ShouldDiscard;
    if r.typ == Handshake && s.inc.AcceptAll(r.payload).Some? {
      ReceiverSpec.AcceptAllFrame(s.inc, r.payload);
    }
  }

  lemma ChangeInv(t: Track, e: Event)
    requires Inv(t) && Enabled(t, e) && e.ChangeKeys? && t.changes + 1 < RecordNumbers.EPOCH_MODULUS
    ensures Inv(Step(t, e))
  {
    assert Seen(t.log, t.changes + 1) == {};
    ReplayWindow.EmptyTracks();
  }

  lemma {:induction false} RunInv(maxLen: nat, run: seq<Event>)
    requires Possible(maxLen, run) && After(maxLen, run).changes < RecordNumbers.EPOCH_MODULUS
    ensures Inv(After(maxLen, run))
  {
    if run == [] {
      ReplayWindow.EmptyTracks();
      assert Seen([], 0) == {};
    } else {
      var before, e := After(maxLen, run[..|run| - 1]), run[|run| - 1];
      RunInv(maxLen, run[..|run| - 1]);
      match e {
        case Open(r, authentic) => OpenInv(before, r, authentic);
        case Read =>
        case TakeCcs =>
        case ChangeKeys(_) => ChangeInv(before, e);
      }
    }
  }

  /** In every run with at most n key changes, no epoch and number is processed twice. */
  ghost predicate AlwaysOnce(n: nat) {
    forall maxLen: nat, run | Possible(maxLen, run) && After(maxLen, run).changes <= n :: Once(After(maxLen, run).log)
  }

  /** No epoch and number is processed twice, whatever records open, exactly as long as the sixteen bits of the epoch do
      not wrap. */
  lemma ProcessedOnce(n: nat)
    ensures AlwaysOnce(n) <==> n < 65536
  {
    if n < RecordNumbers.EPOCH_MODULUS {
      forall maxLen: nat, run | Possible(maxLen, run) && After(maxLen, run).changes <= n
        ensures Once(After(maxLen, run).log)
      {
        RunInv(maxLen, run);
      }
    } else {
      var run := ReplayRun();
      var log := After(0, run).log;
      assert (log[0].epoch, log[0].number) == (log[1].epoch, log[1].number);
    }
  }

  // What each record does.

  /** The read cipher is the null cipher until the first change of keys, which takes place only when no ChangeCipherSpec
      is left to be asked for; and the epoch counts the changes. */
  predicate Counts(t: Track) {
    && |t.reader.inc.ring| == MAX_FLIGHT
    && (t.reader.plain <==> t.changes == 0)
    && (t.reader.hasCcs ==> t.changes == 0)
    && t.reader.inc.readEpoch == t.changes % RecordNumbers.EPOCH_MODULUS
  }

  lemma CountsStep(t: Track, e: Event)
    requires Counts(t) && Enabled(t, e)
    ensures Counts(Step(t, e))
  {
    hide ReplayWindow.Record, ReplayWindow.ShouldDiscard;
    match e {
      case Open(r, authentic) => OpenKeeps(t.reader, r, authentic);
      case Read =>
      case TakeCcs =>
      case ChangeKeys(_) => NextEpoch(t.changes);
    }
  }

  lemma NextEpoch(n: nat)
    ensures (n % RecordNumbers.EPOCH_MODULUS + 1) % RecordNumbers.EPOCH_MODULUS
         == (n + 1) % RecordNumbers.EPOCH_MODULUS
  {
  }

  lemma OpenKeeps(s: Reader, r: Record, authentic: bool)
    requires OnWire(r) && |s.inc.ring| == MAX_FLIGHT
    ensures var s' := Opening(s, r, authentic).reader;
            && |s'.inc.ring| == MAX_FLIGHT && s'.plain == s.plain && s'.inc.readEpoch == s.inc.readEpoch
            && (s'.hasCcs ==> s.hasCcs || s.plain)
  {
    EpochKept(s, r, authentic);
    hide ReplayWindow.Record, ReplayWindow.ShouldDiscard;
    if r.typ == Handshake && s.inc.AcceptAll(r.payload).Some? {
      ReceiverSpec.AcceptAllFrame(s.inc, r.payload);
    }
  }

  lemma {:induction false} RunCounts(maxLen: nat, run: seq<Event>)
    requires Possible(maxLen, run)
    ensures Counts(After(maxLen, run))
  {
    if run != [] {
      RunCounts(maxLen, run[..|run| - 1]);
      hide Counts, Step, Enabled;
      CountsStep(After(maxLen, run[..|run| - 1]), run[|run| - 1]);
    }
  }

  /** A record of another epoch, one that the window refuses and one that does not open change nothing at all. */
  predicate Refused(t: Track, r: Record, authentic: bool)
    requires OnWire(r)
  {
    || r.epoch != t.changes % 65536
    || ReplayWindow.ShouldDiscard(t.reader.window, SequenceOf(r))
    || !authentic
  }

  /** After any run that has not met a fatal error: no ChangeCipherSpec is left from before a change of keys, and what
      is refused changes nothing. Application data that is let through is an error under the null cipher, and afterwards
      it only moves the window. A ChangeCipherSpec is taken note of just if it is one byte 1 and the cipher is the null
      cipher, and is an error otherwise; and so is a record of more than 16384 bytes. */
  lemma RecordOpened(maxLen: nat, run: seq<Event>, r: Record, authentic: bool)
    requires Possible(maxLen, run) && !After(maxLen, run).dead && OnWire(r)
    ensures var t := After(maxLen, run);
            && Enabled(t, Open(r, authentic)) && (t.reader.hasCcs ==> t.changes == 0)
            && var t' := Step(t, Open(r, authentic));
               var passed := t.(reader := t.reader.(window := ReplayWindow.Record(t.reader.window, SequenceOf(r))),
                                log := t.log + [r]);
               if Refused(t, r, authentic) then t' == t
               else if |r.payload| > 16384 then t'.dead
               else
                 match r.typ
                 case ApplicationData => if t.changes == 0 then t'.dead else t' == passed
                 case ChangeCipherSpec =>
                   if t.changes == 0 && r.payload == [1] then
                     t' == passed.(reader := passed.reader.(hasCcs := true))
                   else t'.dead
                 case Handshake =>
                   var next := t.reader.inc.AcceptAll(r.payload);
                   if next.None? then t'.dead else t' == passed.(reader := passed.reader.(inc := next.value))
  {
    RunCounts(maxLen, run);
    hide ReplayWindow.Record, ReplayWindow.ShouldDiscard, After, Possible;
  }

  // The run that shows the bound is sharp: one record, 65536 key changes, and the record again.

  /** A handshake record without a fragment in it, which is read without an error. */
  function NoFragments(): Record {
    Record(Handshake, 0, 0, [])
  }

  lemma RunExtends(maxLen: nat, run: seq<Event>, e: Event)
    requires Possible(maxLen, run) && Enabled(After(maxLen, run), e)
    ensures Possible(maxLen, run + [e]) && After(maxLen, run + [e]) == Step(After(maxLen, run), e)
  {
    hide Step, Enabled;
    assert (run + [e])[..|run|] == run;
  }

  /** After the one record and k changes of keys. */
  ghost predicate Changed(t: Track, k: nat) {
    && t.changes == k && t.log == [NoFragments()]
    && t.reader.inc == Start(0).inc.(readEpoch := k % RecordNumbers.EPOCH_MODULUS)
    && !t.reader.hasCcs && !t.dead
    && (k > 0 ==> t.reader.window == ReplayWindow.EmptyWindow)
  }

  lemma FirstRecord()
    ensures Enabled(After(0, []), Open(NoFragments(), true))
    ensures Changed(Step(After(0, []), Open(NoFragments(), true)), 0)
  {
    hide ReplayWindow.Record;
    ReplayWindow.EmptyAccepts();
  }

  lemma OneChange(t: Track, k: nat)
    requires Changed(t, k)
    ensures Enabled(t, ChangeKeys(false)) && Changed(Step(t, ChangeKeys(false)), k + 1)
  {
    hide ReplayWindow.Record;
  }

  lemma {:induction false} ChangesRun(k: nat) returns (run: seq<Event>)
    ensures Possible(0, run) && Changed(After(0, run), k)
  {
    if k == 0 {
      run := [];
      assert Possible(0, run);
      FirstRecord();
      hide Changed, Step, Enabled, After, Possible;
      RunExtends(0, run, Open(NoFragments(), true));
      run := run + [Open(NoFragments(), true)];
    } else {
      hide Changed, Step, Enabled, After, Possible;
      run := ChangesRun(k - 1);
      OneChange(After(0, run), k - 1);
      RunExtends(0, run, ChangeKeys(false));
      run := run + [ChangeKeys(false)];
    }
  }

  lemma ReplayRun() returns (run: seq<Event>)
    ensures Possible(0, run) && After(0, run).changes == RecordNumbers.EPOCH_MODULUS
    ensures After(0, run).log == [NoFragments(), NoFragments()]
  {
    run := ChangesRun(RecordNumbers.EPOCH_MODULUS);
    var e := Open(NoFragments(), true);
    ReplayWindow.EmptyAccepts();
    RunExtends(0, run, e);
    run := run + [e];
  }
}
