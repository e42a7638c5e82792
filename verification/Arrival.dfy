/** When a message can be read: the other half of the end-to-end story. */
module Arrival {
  import opened Bytes
  import opened DtlsWire
  import opened Reassembly
  import opened ReceiverSpec
  import opened FlightSpec
  import opened EndToEnd
  import RecordLayer
  import ReplayWindow

  // What has arrived of a message, from the events of a run alone.

  /** The event delivers a handshake record of message k that the record layer lets through, without an error, while the
      message is awaited. */
  ghost predicate Brings(s: Sys, e: Event, k: nat) {
    && e.Deliver? && |s.reader.inc.ring| == MAX_FLIGHT && RecordLayer.OnWire(e.wire.record)
    && e.wire.record.typ == Handshake && e.wire.msg == k && Awaited(|s.taken|, k)
    && RecordLayer.Passes(s.reader, e.wire.record, e.wire.keys == s.readKeys)
    && !RecordLayer.Opening(s.reader, e.wire.record, e.wire.keys == s.readKeys).outcome.Fatal?
  }

  /** What comes before any event of a run is a run. */
  lemma {:induction false} PossiblePrefix(start: Sys, run: seq<Event>, j: nat)
    requires Possible(start, run) && j <= |run|
    ensures Possible(start, run[..j])
  {
    hide Enabled;
    if j == |run| {
      assert run[..j] == run;
    } else {
      PossiblePrefix(start, run[..|run| - 1], j);
      assert run[..|run| - 1][..j] == run[..j];
    }
  }

  ghost predicate BringsAt(start: Sys, run: seq<Event>, j: nat, k: nat) {
    j < |run| && Possible(start, run[..j]) && Brings(After(start, run[..j]), run[j], k)
  }

  /** Some record of message k arrived while it was awaited. */
  ghost predicate Begun(start: Sys, run: seq<Event>, k: nat) {
    exists j: nat :: BringsAt(start, run, j, k)
  }

  ghost predicate BringsByte(start: Sys, run: seq<Event>, j: nat, k: nat, i: nat) {
    BringsAt(start, run, j, k) && i in Carries(run[j].wire.record.payload)
  }

  /** Byte i of message k arrived while the message was awaited, at whatever time and in whatever fragment. */
  ghost predicate HasArrived(start: Sys, run: seq<Event>, k: nat, i: nat) {
    exists j: nat :: BringsByte(start, run, j, k, i)
  }

  lemma BringsBefore(start: Sys, run: seq<Event>, e: Event, j: nat, k: nat)
    requires j < |run|
    ensures BringsAt(start, run + [e], j, k) <==> BringsAt(start, run, j, k)
  {
    hide Brings;
    assert (run + [e])[..j] == run[..j];
  }

  lemma BringsLast(start: Sys, run: seq<Event>, e: Event, k: nat)
    requires Possible(start, run)
    ensures BringsAt(start, run + [e], |run|, k) <==> Brings(After(start, run), e, k)
  {
    hide Brings;
    assert (run + [e])[..|run|] == run;
  }

  /** One event more. */
  lemma BegunNext(start: Sys, run: seq<Event>, e: Event, k: nat)
    requires Possible(start, run)
    ensures Begun(start, run + [e], k) <==> Begun(start, run, k) || Brings(After(start, run), e, k)
  {
    BringsLast(start, run, e, k);
    forall j: nat | j < |run| ensures BringsAt(start, run + [e], j, k) <==> BringsAt(start, run, j, k) {
      BringsBefore(start, run, e, j, k);
    }
    assert forall j: nat :: BringsAt(start, run + [e], j, k) ==> j < |run| || j == |run|;
    assert forall j: nat :: BringsAt(start, run, j, k) ==> j < |run|;
    hide Brings, BringsAt;
  }

  lemma HasArrivedNext(start: Sys, run: seq<Event>, e: Event, k: nat, i: nat)
    requires Possible(start, run)
    ensures HasArrived(start, run + [e], k, i) <==>
            || HasArrived(start, run, k, i)
            || (Brings(After(start, run), e, k) && i in Carries(e.wire.record.payload))
  {
    BringsLast(start, run, e, k);
    forall j: nat | j < |run| ensures BringsByte(start, run + [e], j, k, i) <==> BringsByte(start, run, j, k, i) {
      BringsBefore(start, run, e, j, k);
      hide Brings, BringsAt, Carries;
    }
    assert forall j: nat :: BringsAt(start, run + [e], j, k) ==> j < |run| || j == |run|;
    assert forall j: nat :: BringsAt(start, run, j, k) ==> j < |run|;
    assert BringsByte(start, run + [e], |run|, k, i)
      <==> Brings(After(start, run), e, k) && i in Carries(e.wire.record.payload) by {
      hide BringsAt, Carries;
    }
    assert forall j: nat :: BringsByte(start, run + [e], j, k, i) ==> j < |run| || j == |run|;
    assert forall j: nat :: BringsByte(start, run, j, k, i) ==> j < |run|;
    hide Brings, BringsAt, BringsByte, Carries;
  }

  /** What an event does to the history of arrivals in the state. */
  lemma StepArrived(s: Sys, e: Event, k: nat)
    requires Enabled(s, e)
    ensures var a, b := s.arrived, Step(s, e).arrived;
            if Brings(s, e, k) then
              k in b && b[k] == (if k in a then a[k] else {}) + Carries(e.wire.record.payload)
            else (k in a <==> k in b) && (k in a ==> a[k] == b[k])
  {
    hide RecordLayer.Passes, RecordLayer.Opening, Carries, Awaited;
  }

  /** The history of arrivals in the state is that of the run. */
  ghost predicate Recorded(arrived: map<nat, set<nat>>, start: Sys, run: seq<Event>, k: nat) {
    && (k in arrived <==> Begun(start, run, k))
    && (forall i: nat :: (k in arrived && i in arrived[k]) <==> HasArrived(start, run, k, i))
  }

  lemma RecordedNext(start: Sys, run: seq<Event>, e: Event, k: nat, a: map<nat, set<nat>>, b: map<nat, set<nat>>)
    requires Possible(start, run) && Recorded(a, start, run, k)
    requires if Brings(After(start, run), e, k) then
               k in b && b[k] == (if k in a then a[k] else {}) + Carries(e.wire.record.payload)
             else (k in a <==> k in b) && (k in a ==> a[k] == b[k])
    ensures Recorded(b, start, run + [e], k)
  {
    BegunNext(start, run, e, k);
    hide Brings, Begun, HasArrived, After, Possible, Carries;
    forall i: nat ensures (k in b && i in b[k]) <==> HasArrived(start, run + [e], k, i) {
      HasArrivedNext(start, run, e, k, i);
    }
  }

  lemma {:induction false} RunRecorded(start: Sys, run: seq<Event>, k: nat)
    requires Possible(start, run) && start.arrived == map[]
    ensures Recorded(After(start, run).arrived, start, run, k)
  {
    if run != [] {
      var before, e := run[..|run| - 1], run[|run| - 1];
      RunRecorded(start, before, k);
      var s := After(start, before);
      StepArrived(s, e, k);
      assert run == before + [e];
      hide Brings, Recorded, Enabled, Step, Carries;
      RecordedNext(start, before, e, k, s.arrived, After(start, run).arrived);
    }
  }

  // What the receiver makes of it.

  /** The slot for a message in the window is there exactly when a record of the message has arrived, and it holds
      exactly the bytes that have, whichever fragments brought them. */
  lemma SlotHolds(s: Sys, start: Sys, run: seq<Event>, k: nat)
    requires SlotsOk(s) && Awaited(|s.taken|, k) && Recorded(s.arrived, start, run, k)
    ensures var slot := s.reader.inc.ring[s.reader.inc.Index(k % SEQ_MODULUS)];
            && (slot.Some? <==> Begun(start, run, k))
            && (slot.Some? ==>
                  && k < |s.hist| && slot.value.msgLen == |s.hist[k].body|
                  && forall i: nat :: i in slot.value.got <==> HasArrived(start, run, k, i))
  {
    hide Begun, HasArrived;
    var inc := s.reader.inc;
    AwaitedNumber(|s.taken|, k);
    if inc.ring[inc.Index(k % SEQ_MODULUS)].Some? {
      SameNumber(inc, k % SEQ_MODULUS);
      assert SlotOk(s, inc.ring[inc.Index(k % SEQ_MODULUS)].value);
    }
  }

  /** A message can be read exactly when a record of it has arrived and every byte of its body has, in fragments of any
      sizes, of any transmissions, in any order, with any repeats, and however many messages were read and keys changed
      in between. */
  lemma CompleteIff(aead: Aead, maxLen: nat, lead: nat, run: seq<Event>)
    requires aead.Ok() && lead <= SEQ_MODULUS && Possible(Start(aead, maxLen, lead), run)
    ensures var start := Start(aead, maxLen, lead);
            var s := After(start, run);
            && |s.reader.inc.ring| == MAX_FLIGHT
            && (s.reader.inc.CurrentComplete() <==>
                  && Begun(start, run, |s.taken|) && |s.taken| < |s.hist|
                  && forall i: nat | i < |s.hist[|s.taken|].body| :: HasArrived(start, run, |s.taken|, i))
  {
    var start := Start(aead, maxLen, lead);
    var s := After(start, run);
    var k := |s.taken|;
    SafeRun(aead, maxLen, lead, run);
    RunRecorded(start, run, k);
    SlotHolds(s, start, run, k);
    var slot := s.reader.inc.ring[s.reader.inc.Index(s.reader.inc.readSeq)];
    if slot.Some? {
      assert slot.value.got.Keys <= Range(0, slot.value.msgLen);
      hide Begun, HasArrived, After, Possible, Safe;
      assert slot.value.Complete() <==> forall i: nat | i < slot.value.msgLen :: i in slot.value.got;
    }
  }

  // No message is put together of fragments under different keys.

  /** When the keys for reading are changed, a message that was handed over is complete (dtls1_get_message). */
  ghost predicate HandsOver(start: Sys, run: seq<Event>)
    requires Possible(start, run)
  {
    run == [] ||
    var before := run[..|run| - 1];
    && HandsOver(start, before)
    && (run[|run| - 1] == ChangeReadKeys(true) ==> After(start, before).reader.inc.CurrentComplete())
  }

  /** Message k has come in whole. */
  predicate InWhole(s: Sys, k: nat)
    requires |s.reader.inc.ring| == MAX_FLIGHT
  {
    var slot := s.reader.inc.ring[s.reader.inc.Index(k % SEQ_MODULUS)];
    slot.Some? && slot.value.Complete()
  }

  lemma WholeDelivered(s: Sys, w: Wire, k: nat)
    requires |s.reader.inc.ring| == MAX_FLIGHT && RecordLayer.OnWire(w.record) && InWhole(s, k)
    ensures var s' := Delivered(s, w);
            |s'.reader.inc.ring| == MAX_FLIGHT && InWhole(s', k) && s'.taken == s.taken && s'.readKeys == s.readKeys
  {
    var i, inc := s.reader.inc.Index(k % SEQ_MODULUS), s.reader.inc;
    hide ReplayWindow.Record, ReplayWindow.ShouldDiscard;
    if w.record.typ == Handshake && inc.AcceptAll(w.record.payload).Some? {
      CompleteStays(inc, w.record.payload, i);
    }
  }

  /** Keys are changed only when every message that has begun is complete. */
  lemma WholeAtChange(s: Sys, hasMessage: bool, k: nat)
    requires SlotsOk(s) && RecordLayer.KeyChange(s.reader, hasMessage).Some?
    requires hasMessage ==> s.reader.inc.CurrentComplete()
    requires Awaited(|s.taken|, k) && k in s.arrived
    ensures InWhole(s, k)
  {
    var inc := s.reader.inc;
    AwaitedNumber(|s.taken|, k);
    var i := inc.Index(k % SEQ_MODULUS);
    assert inc.ring[i].Some?;
    assert hasMessage && i == inc.Index(inc.readSeq);
  }

  lemma SlotAfterRead(s: Sys, k: nat)
    requires SlotsOk(s) && ArrivedOk(s, k) && Awaited(|s.taken| + 1, k)
    ensures Awaited(|s.taken|, k)
    ensures var i := s.reader.inc.Index(k % SEQ_MODULUS); s.reader.inc.Next().ring[i] == s.reader.inc.ring[i]
  {
    AwaitedNext(s, k);
    OtherIndex(|s.taken|, k);
  }

  /** While a message is awaited and not complete its keys stay. */
  lemma KeysStay(s: Sys, e: Event, k: nat)
    requires Safe(s) && Enabled(s, e) && (e == ChangeReadKeys(true) ==> s.reader.inc.CurrentComplete())
    requires k in s.arrived && Awaited(|Step(s, e).taken|, k)
    requires |Step(s, e).reader.inc.ring| == MAX_FLIGHT && !InWhole(Step(s, e), k)
    ensures Awaited(|s.taken|, k) && !InWhole(s, k) && Step(s, e).readKeys == s.readKeys
  {
    hide Awaited, Traced, Counted, HistoryOk, OutOk, NetOk, TakenOk;
    assert ArrivedOk(s, k);
    match e {
      case Read => SlotAfterRead(s, k);
      case Deliver(w) =>
        hide SlotsOk, ReaderOk;
        DeliverTakes(s, w);
        if InWhole(s, k) {
          WholeDelivered(s, w, k);
        }
      case ChangeReadKeys(hasMessage) =>
        WholeAtChange(s, hasMessage, k);
      case Send(_, _) =>
      case SendCcs =>
      case SendData(_) =>
      case FlushFlight(_, _) =>
      case Resend(_, _) =>
      case ChangeWriteKeys(_) =>
      case TakeCcs =>
    }
  }

  lemma DeliverTakes(s: Sys, w: Wire)
    requires |s.reader.inc.ring| == MAX_FLIGHT && RecordLayer.OnWire(w.record)
    ensures Delivered(s, w).taken == s.taken && Delivered(s, w).readKeys == s.readKeys
  {
    hide ReplayWindow.Record, ReplayWindow.ShouldDiscard, RecordLayer.Opening;
  }

  /** What has arrived so far of a message that is not complete has arrived under the keys of now: fragments under
      different keys never make up one message. */
  lemma {:induction false} KeysUnmixed(aead: Aead, maxLen: nat, lead: nat, run: seq<Event>, j: nat, k: nat)
    requires aead.Ok() && lead <= SEQ_MODULUS && Possible(Start(aead, maxLen, lead), run)
    requires HandsOver(Start(aead, maxLen, lead), run) && BringsAt(Start(aead, maxLen, lead), run, j, k)
    requires var s := After(Start(aead, maxLen, lead), run);
             Awaited(|s.taken|, k) && |s.reader.inc.ring| == MAX_FLIGHT && !InWhole(s, k)
    ensures run[j].wire.keys == After(Start(aead, maxLen, lead), run).readKeys
  {
    var start, before, e := Start(aead, maxLen, lead), run[..|run| - 1], run[|run| - 1];
    var s := After(start, before);
    hide After, Safe, Step, Enabled, Brings, InWhole, Awaited;
    assert j < |run|;
    LastEvent(start, run);
    hide Possible, HandsOver, BringsAt;
    SafeRun(aead, maxLen, lead, before);
    if j < |before| {
      BringsBefore(start, before, e, j, k);
      BegunThen(start, before, j, k);
      KeysStay(s, e, k);
      RingLength(s);
      KeysUnmixed(aead, maxLen, lead, before, j, k);
    } else {
      BringsLast(start, before, e, k);
      KeysNow(s, e, k);
    }
  }

  lemma LastEvent(start: Sys, run: seq<Event>)
    requires Possible(start, run) && HandsOver(start, run) && run != []
    ensures var before, e := run[..|run| - 1], run[|run| - 1];
            && run == before + [e] && Possible(start, before) && HandsOver(start, before)
            && Enabled(After(start, before), e) && After(start, run) == Step(After(start, before), e)
            && (e == ChangeReadKeys(true) ==> After(start, before).reader.inc.CurrentComplete())
  {
    hide Enabled, Step;
  }

  lemma RingLength(s: Sys)
    requires Safe(s)
    ensures |s.reader.inc.ring| == MAX_FLIGHT
  {
  }

  lemma BegunThen(start: Sys, run: seq<Event>, j: nat, k: nat)
    requires Possible(start, run) && start.arrived == map[] && BringsAt(start, run, j, k)
    ensures k in After(start, run).arrived
  {
    RunRecorded(start, run, k);
    hide BringsAt, After;
    assert Begun(start, run, k);
  }

  lemma KeysNow(s: Sys, e: Event, k: nat)
    requires Enabled(s, e) && Brings(s, e, k)
    ensures e.wire.keys == s.readKeys == Step(s, e).readKeys
  {
    DeliverTakes(s, e.wire);
    hide Delivered, RecordLayer.Opening, ReplayWindow.ShouldDiscard;
  }

  // Which fragments end the handshake.

  /** A record of the sender's that the record layer lets through ends the handshake exactly when it is longer than a
      record may be, its message is longer than the reader accepts, the first encrypted epoch is being read and the
      message is not the one awaited, or the message's number is that just behind the window. */
  ghost predicate Unwelcome(s: Sys, w: Wire)
    requires w.msg < |s.hist|
  {
    var inc, seqNo := s.reader.inc, w.msg % SEQ_MODULUS;
    || |w.record.payload| > RecordLayer.MAX_PLAIN_LENGTH
    || |s.hist[w.msg].body| > inc.maxLen
    || (inc.readEpoch == 1 && seqNo != inc.readSeq)
    || seqNo == inc.readSeq + MAX_FLIGHT
  }

  lemma NoConflict(s: Sys, k: nat, h: Header)
    requires SlotsOk(s) && k < |s.hist| <= |s.taken| + SEQ_MODULUS && |s.taken| < k + 455
    requires h.typ == s.hist[k].typ && h.msgLen == |s.hist[k].body| && h.seqNo == k % SEQ_MODULUS
    requires s.reader.inc.readSeq <= h.seqNo < s.reader.inc.readSeq + MAX_FLIGHT
    ensures !s.reader.inc.Conflicts(h)
  {
    var inc := s.reader.inc;
    InWindow(|s.taken|, k);
    if inc.ring[inc.Index(h.seqNo)].Some? {
      SameNumber(inc, h.seqNo);
      assert SlotOk(s, inc.ring[inc.Index(h.seqNo)].value);
    }
  }

  lemma AcceptNone(s: Sys, w: Wire, off: nat, n: nat)
    requires SlotsOk(s) && w.msg < |s.hist| <= |s.taken| + SEQ_MODULUS && |s.taken| < w.msg + 455
    requires off + n <= |s.hist[w.msg].body| && |w.record.payload| <= RecordLayer.MAX_PLAIN_LENGTH
    ensures var h := HeaderOf(s.hist, w.msg).(fragOff := off, fragLen := n);
            s.reader.inc.Accept(h, s.hist[w.msg].body[off..off + n]).None? <==> Unwelcome(s, w)
  {
    var inc, h := s.reader.inc, HeaderOf(s.hist, w.msg).(fragOff := off, fragLen := n);
    if inc.readSeq <= h.seqNo < inc.readSeq + MAX_FLIGHT {
      NoConflict(s, w.msg, h);
    }
  }

  lemma FatalIff(s: Sys, w: Wire)
    requires Safe(s) && s.lead <= SEQ_MODULUS && Enabled(s, Deliver(w)) && w.record.typ == Handshake
    ensures w.msg < |s.hist|
    ensures Delivered(s, w).dead <==>
            && w.keys == s.readKeys && !ReplayWindow.ShouldDiscard(s.reader.window, RecordLayer.SequenceOf(w.record))
            && Unwelcome(s, w)
  {
    assert Counted(s, w) && Traced(s, w);
    var discard := ReplayWindow.ShouldDiscard(s.reader.window, RecordLayer.SequenceOf(w.record));
    if w.keys == s.readKeys && !discard && |w.record.payload| <= RecordLayer.MAX_PLAIN_LENGTH {
      NotStale(s, w);
      var off: nat, n: nat :| IsFragment(s.hist, w.record.payload, w.msg, off, n);
      FragmentAccepted(s.hist, s.reader.inc, w.record.payload, w.msg, off, n);
      AcceptNone(s, w, off, n);
      assert s.reader.inc.AcceptAll(w.record.payload).None? <==> Unwelcome(s, w);
    }
    hide ReplayWindow.ShouldDiscard, ReplayWindow.Record, Traced, NetOk, SlotsOk, ReaderOk;
    assert w.keys == s.readKeys ==> w.record.epoch == s.reader.inc.readEpoch;
  }

  // Records of other types.

  /** Application data is on the wire only under keys that were changed, and a ChangeCipherSpec is one byte 1. */
  predicate ContentOk(w: Wire) {
    && (w.record.typ == ApplicationData ==> w.keys > 0 && |w.record.payload| <= RecordLayer.MAX_PLAIN_LENGTH)
    && (w.record.typ == ChangeCipherSpec ==> w.record.payload == [1])
  }

  ghost predicate Contents(s: Sys) {
    (s.reader.plain <==> s.readKeys == 0) && forall w | w in s.net :: ContentOk(w)
  }

  lemma {:induction false} WalkContents(s: Sys, msgs: seq<OutMsg>, w: nat, o: nat, records: seq<Record>)
    requires Walk(msgs, w, o, records).Some?
    ensures forall r | r in records :: ContentOk(Emit(s, r))
    decreases |records|
  {
    if records != [] {
      var next := Advance(msgs, w, o, records[0]).value;
      hide ParseFragment, Source;
      WalkContents(s, msgs, next.0, next.1, records[1..]);
      assert forall r | r in records :: r == records[0] || r in records[1..];
    }
  }

  lemma FlightContents(s: Sys, out: Outgoing, mtu: nat, bio: seq<int>)
    requires out.Ok() && Contents(s)
    ensures var r := SendFlight(out, mtu, bio);
            Contents(s.(out := r.state, net := s.net + Emitted(s, r.packets)))
  {
    SentWalks(out, mtu, bio);
    var r := SendFlight(out, mtu, bio);
    WalkContents(s, out.msgs, out.written, out.offset, Flatten(r.packets));
    hide SendFlight, Walk, ContentOk, Emit, Flatten;
  }

  lemma StepContents(s: Sys, e: Event)
    requires Contents(s) && Enabled(s, e)
    ensures Contents(Step(s, e))
  {
    match e {
      case FlushFlight(mtu, bio) =>
        hide SendFlight, Contents;
        FlightContents(s, s.out.(complete := true), mtu, bio);
      case Resend(mtu, bio) =>
        hide SendFlight, Contents;
        FlightContents(s, s.out.(written := 0, offset := 0), mtu, bio);
      case Deliver(w) =>
        RecordLayer.OpenKeeps(s.reader, w.record, w.keys == s.readKeys);
        hide RecordLayer.Opening, RecordLayer.Passes, ContentOk;
      case SendData(data) => hide Source;
      case Send(_, _) =>
      case SendCcs =>
      case ChangeWriteKeys(_) =>
      case ChangeReadKeys(_) =>
      case Read =>
      case TakeCcs =>
    }
  }

  lemma {:induction false} RunContents(aead: Aead, maxLen: nat, lead: nat, run: seq<Event>)
    requires Possible(Start(aead, maxLen, lead), run)
    ensures Contents(After(Start(aead, maxLen, lead), run))
  {
    if run != [] {
      RunContents(aead, maxLen, lead, run[..|run| - 1]);
      hide Contents, Step, Enabled;
      StepContents(After(Start(aead, maxLen, lead), run[..|run| - 1]), run[|run| - 1]);
    }
  }

  /** Of the sender's other records, in every run: application data never ends the handshake, whenever it arrives, and
      only moves the replay window; a ChangeCipherSpec ends it just if it is let through under keys that were changed,
      and is taken note of if it is let through before. */
  lemma OthersFatalIff(aead: Aead, maxLen: nat, lead: nat, run: seq<Event>, w: Wire)
    requires Possible(Start(aead, maxLen, lead), run)
    requires Enabled(After(Start(aead, maxLen, lead), run), Deliver(w)) && w.record.typ != Handshake
    ensures var s := After(Start(aead, maxLen, lead), run);
            var passes := RecordLayer.Passes(s.reader, w.record, w.keys == s.readKeys);
            var s' := Delivered(s, w);
            && (s'.dead <==> passes && w.record.typ == ChangeCipherSpec && s.readKeys > 0)
            && (!s'.dead ==>
                  && s' == s.(reader := s'.reader, accepted := s'.accepted)
                  && s'.reader == s.reader.(window := s'.reader.window, hasCcs := s'.reader.hasCcs)
                  && (s'.reader.hasCcs <==> s.reader.hasCcs || (passes && w.record.typ == ChangeCipherSpec)))
  {
    RunContents(aead, maxLen, lead, run);
    hide ReplayWindow.Record, ReplayWindow.ShouldDiscard, After, Possible;
  }

  // Which cipher a record is sealed with.

  /** The write ciphers, from the first on. */
  function Ciphers(first: Aead, run: seq<Event>): seq<Aead> {
    if run == [] then [first]
    else
      var e := run[|run| - 1];
      Ciphers(first, run[..|run| - 1]) + if e.ChangeWriteKeys? then [e.aead] else []
  }

  lemma AeadKept(s: Sys, e: Event)
    requires Enabled(s, e) && !e.ChangeWriteKeys?
    ensures var out := Step(s, e).out;
            out.aead == s.out.aead && out.lastAead == s.out.lastAead && Step(s, e).keys == s.keys
  {
    match e {
      case FlushFlight(mtu, bio) =>
        SendFrame(s.out.(complete := true), mtu, bio);
        hide SendFlight;
      case Resend(mtu, bio) =>
        SendFrame(s.out.(written := 0, offset := 0), mtu, bio);
        hide SendFlight;
      case Deliver(_) => hide RecordLayer.Opening, RecordLayer.Passes;
      case Send(_, _) =>
      case SendCcs =>
      case SendData(_) =>
      case ChangeReadKeys(_) =>
      case Read =>
      case TakeCcs =>
    }
  }

  /** The cipher of the current epoch is the last that was set, and that kept for the previous epoch the one before. */
  ghost predicate HasCiphers(s: Sys, ciphers: seq<Aead>) {
    && |ciphers| == s.keys + 1 && s.out.aead == ciphers[s.keys]
    && (s.keys > 0 ==> s.out.lastAead == ciphers[s.keys - 1])
  }

  lemma CiphersStep(s: Sys, e: Event, ciphers: seq<Aead>)
    requires Enabled(s, e) && HasCiphers(s, ciphers)
    ensures HasCiphers(Step(s, e), ciphers + if e.ChangeWriteKeys? then [e.aead] else [])
  {
    if !e.ChangeWriteKeys? {
      hide Step, Enabled;
      AeadKept(s, e);
      assert ciphers + [] == ciphers;
    }
  }

  /** So it is after any number of changes of keys: messages of the previous epoch are retransmitted with its cipher. */
  lemma {:induction false} CiphersKept(aead: Aead, maxLen: nat, lead: nat, run: seq<Event>)
    requires Possible(Start(aead, maxLen, lead), run)
    ensures HasCiphers(After(Start(aead, maxLen, lead), run), Ciphers(aead, run))
  {
    if run != [] {
      hide Step, Enabled, HasCiphers;
      CiphersKept(aead, maxLen, lead, run[..|run| - 1]);
      CiphersStep(After(Start(aead, maxLen, lead), run[..|run| - 1]), run[|run| - 1], Ciphers(aead, run[..|run| - 1]));
    }
  }

  // One complete transmission is enough.

  /** A walk over the flight has a record with byte i of message j, if it did not begin behind it. */
  lemma {:induction false} WalkCovers(hist: seq<Msg>, msgs: seq<OutMsg>, w: nat, o: nat, records: seq<Record>,
                                      j: nat, k: nat, i: nat)
    returns (r: Record, off: nat, n: nat)
    requires j < |msgs| && k < |hist| && |hist[k].body| < 0x100_0000
    requires !msgs[j].isCcs && msgs[j].data == Whole(hist, k)
    requires Walk(msgs, w, o, records) == Some((|msgs|, 0))
    requires w <= j && (w == j ==> o <= i) && i < |hist[k].body|
    ensures r in records && r.typ == Handshake && IsFragment(hist, r.payload, k, off, n) && off <= i < off + n
    decreases |records|
  {
    WholeParses(hist, k);
    var next := Advance(msgs, w, o, records[0]).value;
    if w == j && i < o + |records[0].payload| - HM_HEADER_LENGTH {
      return records[0], o, |records[0].payload| - HM_HEADER_LENGTH;
    }
    r, off, n := WalkCovers(hist, msgs, next.0, next.1, records[1..], j, k, i);
  }

  /** ... and at least one record of message j, also when its body is empty. */
  lemma {:induction false} WalkReaches(hist: seq<Msg>, msgs: seq<OutMsg>, w: nat, o: nat, records: seq<Record>,
                                       j: nat, k: nat)
    returns (r: Record, off: nat, n: nat)
    requires j < |msgs| && k < |hist| && |hist[k].body| < 0x100_0000
    requires !msgs[j].isCcs && msgs[j].data == Whole(hist, k)
    requires Walk(msgs, w, o, records) == Some((|msgs|, 0)) && w <= j
    ensures r in records && r.typ == Handshake && IsFragment(hist, r.payload, k, off, n)
    decreases |records|
  {
    WholeParses(hist, k);
    if w == j {
      return records[0], o, |records[0].payload| - HM_HEADER_LENGTH;
    }
    var next := Advance(msgs, w, o, records[0]).value;
    r, off, n := WalkReaches(hist, msgs, next.0, next.1, records[1..], j, k);
  }

  ghost predicate BringsRecord(start: Sys, run: seq<Event>, j: nat, k: nat, r: Record) {
    BringsAt(start, run, j, k) && run[j].wire.record == r
  }

  /** The record arrived as one of message k while the message was awaited. */
  ghost predicate RecordArrived(start: Sys, run: seq<Event>, k: nat, r: Record) {
    exists j: nat :: BringsRecord(start, run, j, k, r)
  }

  lemma FragmentArrives(hist: seq<Msg>, start: Sys, run: seq<Event>, k: nat, r: Record, off: nat, n: nat)
    requires RecordArrived(start, run, k, r)
    requires IsFragment(hist, r.payload, k, off, n) && |hist[k].body| < 0x100_0000
    ensures Begun(start, run, k)
    ensures forall i: nat | off <= i < off + n :: HasArrived(start, run, k, i)
  {
    FragmentParses(hist, r.payload, k, off, n);
    hide IsFragment, BringsAt, Carries;
    var j: nat :| BringsRecord(start, run, j, k, r);
    assert BringsAt(start, run, j, k);
    forall i: nat | off <= i < off + n ensures HasArrived(start, run, k, i) {
      assert BringsByte(start, run, j, k, i);
    }
  }

  /** If the records of one complete transmission of its flight, cut at whatever sizes, arrive while the message is
      awaited, then it can be read. */
  lemma TransmissionSuffices(aead: Aead, maxLen: nat, lead: nat, run: seq<Event>, msgs: seq<OutMsg>, sent: seq<Record>,
                             j: nat)
    requires aead.Ok() && lead <= SEQ_MODULUS && Possible(Start(aead, maxLen, lead), run)
    requires var s := After(Start(aead, maxLen, lead), run);
             && |s.taken| < |s.hist| && j < |msgs| && !msgs[j].isCcs && msgs[j].data == Whole(s.hist, |s.taken|)
             && Walk(msgs, 0, 0, sent) == Some((|msgs|, 0))
             && forall r, off: nat, n: nat |
                  r in sent && r.typ == Handshake && IsFragment(s.hist, r.payload, |s.taken|, off, n) ::
                  RecordArrived(Start(aead, maxLen, lead), run, |s.taken|, r)
    ensures var s := After(Start(aead, maxLen, lead), run);
            |s.reader.inc.ring| == MAX_FLIGHT && s.reader.inc.CurrentComplete()
  {
    var start := Start(aead, maxLen, lead);
    var s := After(start, run);
    var k := |s.taken|;
    SafeRun(aead, maxLen, lead, run);
    CompleteIff(aead, maxLen, lead, run);
    hide Possible, After, IsFragment, RecordArrived, Begun, HasArrived, Walk;
    var r, off, n := WalkReaches(s.hist, msgs, 0, 0, sent, j, k);
    FragmentArrives(s.hist, start, run, k, r, off, n);
    forall i: nat | i < |s.hist[k].body| ensures HasArrived(start, run, k, i) {
      var r, off, n := WalkCovers(s.hist, msgs, 0, 0, sent, j, k, i);
      FragmentArrives(s.hist, start, run, k, r, off, n);
    }
  }

  /** What a flush or a retransmission of a whole flight sends is such a transmission. */
  lemma FlushTransmits(s: Outgoing, mtu: nat, bio: seq<int>)
    requires s.Ok() && s.written == 0 && s.offset == 0 && SendFlight(s, mtu, bio).result.Flushed?
    ensures Walk(s.msgs, 0, 0, Flatten(SendFlight(s, mtu, bio).packets)) == Some((|s.msgs|, 0))
  {
    SendWalks(s, mtu, bio);
    SendFrame(s, mtu, bio);
    hide SendFlight, Walk;
  }
}
