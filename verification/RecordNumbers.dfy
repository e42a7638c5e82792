/** Record sequence numbers on the sending side (dtls_record.cc, dtls_method.cc, tls_record.cc). */
module RecordNumbers {
  import opened Bytes

  const NUM_MODULUS := 0x1_0000_0000_0000
  const EPOCH_MODULUS := 0x1_0000

  /** The write epoch, the next sequence number in it, and the one kept for the previous epoch. */
  datatype Writer = Writer(epoch: nat, cur: nat, last: nat)
  {
    ghost predicate Ok() {
      epoch < EPOCH_MODULUS && cur < NUM_MODULUS && last < NUM_MODULUS
    }

    function Number(previous: bool): nat {
      if previous then last else cur
    }

    /** The epoch a record is sealed in; the previous epoch exists only once there has been a change. */
    function SealEpoch(previous: bool): nat
      requires previous ==> epoch >= 1
    {
      if previous then epoch - 1 else epoch
    }

    /** ssl_record_sequence_update fails, after the increment, when the 48 bits wrap. */
    predicate Wraps(previous: bool) {
      Number(previous) + 1 == NUM_MODULUS
    }

    function Bump(previous: bool): Writer {
      var next := (Number(previous) + 1) % NUM_MODULUS;
      if previous then this.(last := next) else this.(cur := next)
    }

    /** dtls1_set_write_state. */
    function NextEpoch(): Writer {
      Writer((epoch + 1) % EPOCH_MODULUS, 0, cur)
    }
  }

  /** ssl_record_sequence_update: a big-endian increment in place, false on wraparound. */
  method SequenceUpdate(a: array<byte>, from: nat) returns (ok: bool)
    requires from < a.Length
    modifies a
    ensures a[..from] == old(a[..from])
    ensures ok <==> old(GetBe(a[from..])) + 1 < Pow256(a.Length - from)
    ensures GetBe(a[from..]) == if ok then old(GetBe(a[from..])) + 1 else 0
  {
    ghost var was := a[from..];
    var i := a.Length;
    while i > from
      invariant from <= i <= a.Length
      invariant a[..i] == old(a[..i])
      invariant forall j | i <= j < a.Length :: a[j] == 0 && old(a[j]) == 255
    {
      i := i - 1;
      var b: int := a[i];
      a[i] := (b + 1) % 256;
      if a[i] != 0 {
        ghost var now := a[from..];
        assert a[..i] == old(a[..i]);
        assert was[..i - from] == old(a[..i])[from..] && now[..i - from] == a[..i][from..];
        CarryStops(was, now, i - from);
        return true;
      }
    }
    ghost var now := a[from..];
    CarryOut(was, now);
    return false;
  }

  lemma {:induction false} CarryStops(was: seq<byte>, now: seq<byte>, i: nat)
    requires |was| == |now| && i < |was| && was[..i] == now[..i]
    requires was[i] < 255 && now[i] == was[i] + 1
    requires forall j | i < j < |was| :: was[j] == 255 && now[j] == 0
    ensures GetBe(now) == GetBe(was) + 1 < Pow256(|was|)
  {
    var n := |was| - 1;
    GetBound(now);
    if i == n {
      assert was[..n] == now[..n];
    } else {
      assert was[..n][..i] == was[..i] == now[..i] == now[..n][..i];
      CarryStops(was[..n], now[..n], i);
    }
  }

  lemma {:induction false} CarryOut(was: seq<byte>, now: seq<byte>)
    requires |was| == |now| > 0
    requires forall j | 0 <= j < |was| :: was[j] == 255 && now[j] == 0
    ensures GetBe(now) == 0 && GetBe(was) + 1 == Pow256(|was|)
  {
    var n := |was| - 1;
    if n > 0 {
      CarryOut(was[..n], now[..n]);
    } else {
      assert was[..n] == [] == now[..n];
    }
  }

  /** w_epoch, write_sequence and last_write_sequence; a sequence number is the last six of eight bytes. */
  class SequenceState {
    var epoch: nat
    const writeSequence: array<byte>
    const lastWriteSequence: array<byte>

    ghost predicate Valid()
      reads this, writeSequence, lastWriteSequence
    {
      && writeSequence != lastWriteSequence
      && writeSequence.Length == lastWriteSequence.Length == 8
      && epoch < EPOCH_MODULUS
    }

    ghost function View(): (w: Writer)
      requires Valid()
      reads this, writeSequence, lastWriteSequence
    {
      Writer(epoch, GetBe(writeSequence[2..]), GetBe(lastWriteSequence[2..]))
    }

    lemma ViewOk()
      requires Valid()
      ensures View().Ok()
    {
      GetBound(writeSequence[2..]);
      GetBound(lastWriteSequence[2..]);
      Pow256Values();
    }

    constructor ()
      ensures Valid() && fresh(writeSequence) && fresh(lastWriteSequence)
      ensures View() == Writer(0, 0, 0)
    {
      epoch := 0;
      var a: array<byte>, b: array<byte> := new byte[8](_ => 0), new byte[8](_ => 0);
      writeSequence, lastWriteSequence := a, b;
      new;
      ZeroBytes(writeSequence[2..]);
      ZeroBytes(lastWriteSequence[2..]);
    }

    /** The numbering part of dtls_seal_record: the number goes on the record, and then it is bumped. */
    method TakeNumber(previous: bool) returns (ok: bool, sealEpoch: nat, number: nat)
      requires Valid() && (previous ==> epoch >= 1)
      modifies writeSequence, lastWriteSequence
      ensures Valid() && View() == old(View()).Bump(previous)
      ensures ok <==> !old(View()).Wraps(previous)
      ensures sealEpoch == old(View()).SealEpoch(previous) && number == old(View()).Number(previous)
    {
      ViewOk();
      Pow256Values();
      sealEpoch := if previous then epoch - 1 else epoch;
      if previous {
        number := GetBe(lastWriteSequence[2..]);
        ok := SequenceUpdate(lastWriteSequence, 2);
      } else {
        number := GetBe(writeSequence[2..]);
        ok := SequenceUpdate(writeSequence, 2);
      }
    }

    /** dtls1_set_write_state. */
    method SetWriteState()
      requires Valid()
      modifies this, writeSequence, lastWriteSequence
      ensures Valid() && View() == old(View()).NextEpoch()
    {
      epoch := (epoch + 1) % EPOCH_MODULUS;
      forall i | 0 <= i < 8 {
        lastWriteSequence[i] := writeSequence[i];
      }
      forall i | 0 <= i < 8 {
        writeSequence[i] := 0;
      }
      assert lastWriteSequence[2..] == old(writeSequence[2..]);
      ZeroBytes(writeSequence[2..]);
    }
  }

  lemma {:induction false} ZeroBytes(s: seq<byte>)
    requires forall i | 0 <= i < |s| :: s[i] == 0
    ensures GetBe(s) == 0
  {
    if s != [] {
      ZeroBytes(s[..|s| - 1]);
    }
  }

  // Runs of the sealing side.

  datatype Event = Seal(previous: bool) | NewState

  /** What a run leaves: the writer, how often its keys have changed, every record that was produced in order, with the
      count of key changes whose keys it was sealed with and its number, and whether each live counter has wrapped since
      its epoch began. */
  datatype Track = Track(writer: Writer, changes: nat, log: seq<(nat, nat)>, curWrapped: bool, lastWrapped: bool)

  function Start(): Track {
    Track(Writer(0, 0, 0), 0, [], false, false)
  }

  predicate Enabled(t: Track, e: Event) {
    e == Seal(true) ==> t.writer.epoch >= 1 && t.changes >= 1
  }

  /** The keys, counted from the first, and the number that sealing uses. */
  function Next(t: Track, previous: bool): (nat, nat)
    requires previous ==> t.changes >= 1
  {
    (if previous then t.changes - 1 else t.changes, t.writer.Number(previous))
  }

  function Step(t: Track, e: Event): Track
    requires Enabled(t, e)
  {
    match e
    case Seal(previous) =>
      var t' := t.(writer := t.writer.Bump(previous));
      if t.writer.Wraps(previous) then
        if previous then t'.(lastWrapped := true) else t'.(curWrapped := true)
      else
        t'.(log := t.log + [Next(t, previous)])
    case NewState =>
      Track(t.writer.NextEpoch(), t.changes + 1, t.log, false, t.curWrapped)
  }

  predicate Possible(run: seq<Event>)
    decreases |run|, 0
  {
    run == [] || (Possible(run[..|run| - 1]) && Enabled(After(run[..|run| - 1]), run[|run| - 1]))
  }

  function After(run: seq<Event>): Track
    requires Possible(run)
    decreases |run|, 1
  {
    if run == [] then Start() else Step(After(run[..|run| - 1]), run[|run| - 1])
  }

  /** The epoch and number that a record carries: the epoch has sixteen bits. */
  function OnRecord(x: (nat, nat)): (nat, nat) {
    (x.0 % EPOCH_MODULUS, x.1)
  }

  /** The numbers used with the keys: those below the counter, or all but the last once it has wrapped. */
  ghost predicate Used(log: seq<(nat, nat)>, keys: nat, counter: nat, wrapped: bool) {
    forall n: nat :: (keys, n) in log <==> n < (if wrapped then NUM_MODULUS - 1 else counter)
  }

  ghost predicate Inv(t: Track) {
    && t.writer.Ok() && t.writer.epoch == t.changes % EPOCH_MODULUS
    && (forall x | x in t.log :: x.0 <= t.changes && (x.0, 0) in t.log)
    && Used(t.log, t.changes, t.writer.cur, t.curWrapped)
    && (t.changes >= 1 ==> Used(t.log, t.changes - 1, t.writer.last, t.lastWrapped))
  }

  /** The epoch that dtls_seal_record takes is that of the keys. */
  lemma SealEpochIs(t: Track, previous: bool)
    requires Inv(t) && Enabled(t, Seal(previous))
    ensures t.writer.SealEpoch(previous) == OnRecord(Next(t, previous)).0
  {
    if previous {
      EpochBefore(t.changes);
    }
    hide Used;
  }

  lemma EpochBefore(n: nat)
    requires n >= 1 && n % EPOCH_MODULUS >= 1
    ensures (n - 1) % EPOCH_MODULUS == n % EPOCH_MODULUS - 1
  {
  }

  lemma EpochAfter(n: nat)
    ensures (n % EPOCH_MODULUS + 1) % EPOCH_MODULUS == (n + 1) % EPOCH_MODULUS
  {
  }

  lemma AppendUsed(log: seq<(nat, nat)>, x: (nat, nat), keys: nat, counter: nat, wrapped: bool)
    requires Used(log, keys, counter, wrapped) && (x.0 == keys ==> x.1 == counter)
    requires x.0 == keys && wrapped ==> x.1 < NUM_MODULUS - 1
    ensures Used(log + [x], keys, if x.0 == keys then counter + 1 else counter, wrapped)
  {
    forall y: (nat, nat) ensures y in log + [x] <==> y in log || y == x {
    }
  }

  lemma AppendFirst(log: seq<(nat, nat)>, x: (nat, nat), keys: nat)
    requires forall y | y in log :: y.0 <= keys && (y.0, 0) in log
    requires x.0 <= keys && (x.1 == 0 || (x.0, 0) in log)
    ensures forall y | y in log + [x] :: y.0 <= keys && (y.0, 0) in log + [x]
  {
    forall y | y in log + [x] ensures y.0 <= keys && (y.0, 0) in log + [x] {
      if y in log || x.1 != 0 {
        var first := (y.0, 0);
        assert first in log;
      }
    }
  }

  lemma SealInv(t: Track, previous: bool)
    requires Inv(t) && Enabled(t, Seal(previous)) && !t.writer.Wraps(previous)
    ensures Inv(Step(t, Seal(previous)))
  {
    var x := Next(t, previous);
    assert x.1 == 0 || (x.0, 0) in t.log;
    hide Used;
    AppendUsed(t.log, x, t.changes, t.writer.cur, t.curWrapped);
    if t.changes >= 1 {
      AppendUsed(t.log, x, t.changes - 1, t.writer.last, t.lastWrapped);
    }
    AppendFirst(t.log, x, t.changes);
  }

  lemma WrapInv(t: Track, previous: bool)
    requires Inv(t) && Enabled(t, Seal(previous)) && t.writer.Wraps(previous)
    ensures Inv(Step(t, Seal(previous)))
  {
  }

  lemma NewStateInv(t: Track)
    requires Inv(t)
    ensures Inv(Step(t, NewState))
  {
    EpochAfter(t.changes);
    var keys := t.changes + 1;
    assert forall n: nat :: (keys, n) !in t.log;
    assert Used(t.log, keys, 0, false);
  }

  lemma StepInv(t: Track, e: Event)
    requires Inv(t) && Enabled(t, e)
    ensures Inv(Step(t, e))
  {
    hide Inv, Step;
    match e {
      case Seal(previous) =>
        if t.writer.Wraps(previous) {
          WrapInv(t, previous);
        } else {
          SealInv(t, previous);
        }
      case NewState => NewStateInv(t);
    }
  }

  lemma {:induction false} RunInv(run: seq<Event>)
    requires Possible(run)
    ensures Inv(After(run))
  {
    if run == [] {
      assert Used([], 0, 0, false);
    } else {
      RunInv(run[..|run| - 1]);
      hide Inv, Enabled, Step;
      StepInv(After(run[..|run| - 1]), run[|run| - 1]);
    }
  }

  /** Whether sealing in state t produces a record although its counter has wrapped. */
  predicate SealsPastWrap(t: Track, e: Event) {
    e.Seal? && !t.writer.Wraps(e.previous) && (if e.previous then t.lastWrapped else t.curWrapped)
  }

  predicate NeverSealsPastWrap(run: seq<Event>)
    requires Possible(run)
  {
    run == [] ||
    (NeverSealsPastWrap(run[..|run| - 1]) && !SealsPastWrap(After(run[..|run| - 1]), run[|run| - 1]))
  }

  /** No two keys that both sealed something have the same sixteen bits of epoch. */
  ghost predicate EpochsFresh(log: seq<(nat, nat)>) {
    forall x, y | x in log && y in log && x.0 != y.0 :: x.0 % EPOCH_MODULUS != y.0 % EPOCH_MODULUS
  }

  ghost predicate Distinct(log: seq<(nat, nat)>) {
    forall i, j | 0 <= i < j < |log| :: log[i] != log[j]
  }

  /** All records carry different epochs and numbers. */
  ghost predicate AllDiffer(log: seq<(nat, nat)>) {
    forall i, j | 0 <= i < j < |log| :: OnRecord(log[i]) != OnRecord(log[j])
  }

  /** With the same keys no number is used twice, as long as nothing is sealed once their 48-bit counter has wrapped. */
  lemma {:induction false} DistinctIff(run: seq<Event>)
    requires Possible(run)
    ensures Distinct(After(run).log) <==> NeverSealsPastWrap(run)
  {
    if run != [] {
      var before, e := After(run[..|run| - 1]), run[|run| - 1];
      DistinctIff(run[..|run| - 1]);
      RunInv(run[..|run| - 1]);
      if e.Seal? && !before.writer.Wraps(e.previous) {
        SealDistinct(before, e);
      }
      hide Distinct, Inv, Enabled, Next;
    }
  }

  lemma SealDistinct(t: Track, e: Event)
    requires Inv(t) && e.Seal? && Enabled(t, e) && !t.writer.Wraps(e.previous)
    ensures Distinct(t.log + [Next(t, e.previous)]) <==> Distinct(t.log) && !SealsPastWrap(t, e)
  {
    var x := Next(t, e.previous);
    assert x in t.log <==> SealsPastWrap(t, e);
    hide Distinct, Used, Next;
    AppendDistinct(t.log, x);
  }

  lemma AppendDistinct(log: seq<(nat, nat)>, x: (nat, nat))
    ensures Distinct(log + [x]) <==> Distinct(log) && x !in log
  {
    var log' := log + [x];
    if Distinct(log') {
      assert forall i | 0 <= i < |log| :: log'[i] == log[i];
      assert log'[|log|] == x;
    }
  }

  lemma AllDifferIff(log: seq<(nat, nat)>)
    requires forall x | x in log :: (x.0, 0) in log
    ensures AllDiffer(log) <==> Distinct(log) && EpochsFresh(log)
  {
    if AllDiffer(log) {
      forall i, j | 0 <= i < j < |log| ensures log[i] != log[j] {
        assert OnRecord(log[i]) != OnRecord(log[j]);
      }
      forall x, y | x in log && y in log && x.0 != y.0 ensures x.0 % EPOCH_MODULUS != y.0 % EPOCH_MODULUS {
        var a: (nat, nat), b: (nat, nat) := (x.0, 0), (y.0, 0);
        assert a in log && b in log;
        var i, j :| 0 <= i < |log| && 0 <= j < |log| && log[i] == a && log[j] == b;
        assert OnRecord(log[i]) != OnRecord(log[j]);
      }
    }
  }

  /** Over any interleaving of sealing in the current epoch, retransmission in the previous one, and changes of keys,
      all records carry different epochs and numbers exactly when nothing is sealed after its 48-bit counter has
      wrapped, and no two keys in use are a multiple of 65536 changes apart. */
  lemma NumbersNeverRepeat(run: seq<Event>)
    requires Possible(run)
    ensures AllDiffer(After(run).log) <==> NeverSealsPastWrap(run) && EpochsFresh(After(run).log)
  {
    RunInv(run);
    hide AllDiffer, Distinct, EpochsFresh, Used;
    DistinctIff(run);
    AllDifferIff(After(run).log);
  }

  /** Whether no run with at most n changes of keys repeats a number, unless it seals past a wrap of the counter. */
  ghost predicate AlwaysDiffer(n: nat) {
    forall run | Possible(run) && After(run).changes <= n && NeverSealsPastWrap(run) :: AllDiffer(After(run).log)
  }

  lemma {:induction false} ChangesRun(k: nat) returns (run: seq<Event>)
    ensures Possible(run) && NeverSealsPastWrap(run)
    ensures After(run) == Track(Writer(k % EPOCH_MODULUS, if k == 0 then 1 else 0, if k == 1 then 1 else 0),
                                k, [(0, 0)], false, false)
  {
    if k == 0 {
      run := [Seal(false)];
      assert run[..0] == [];
    } else {
      var before := ChangesRun(k - 1);
      run := before + [NewState];
      assert run[..|before|] == before;
      EpochAfter(k - 1);
    }
  }

  /** One record, 65536 changes of keys, and one record more: both are number 0 of epoch 0. */
  lemma RepeatingRun() returns (run: seq<Event>)
    ensures Possible(run) && After(run).changes == EPOCH_MODULUS && NeverSealsPastWrap(run)
    ensures After(run).log == [(0, 0), (EPOCH_MODULUS, 0)] && !AllDiffer(After(run).log)
  {
    var before := ChangesRun(EPOCH_MODULUS);
    run := before + [Seal(false)];
    assert run[..|before|] == before;
    var log := After(run).log;
    assert OnRecord(log[0]) == OnRecord(log[1]);
  }

  lemma SmallFresh(log: seq<(nat, nat)>, n: nat)
    requires n < EPOCH_MODULUS && forall x | x in log :: x.0 <= n
    ensures EpochsFresh(log)
  {
  }

  /** So the sixteen bits of the epoch are enough for 65535 changes of keys, and for no more. */
  lemma DifferWithinEpochs(n: nat)
    ensures AlwaysDiffer(n) <==> n < 65536
  {
    if n < EPOCH_MODULUS {
      forall run | Possible(run) && After(run).changes <= n && NeverSealsPastWrap(run)
        ensures AllDiffer(After(run).log)
      {
        RunInv(run);
        SmallFresh(After(run).log, n);
        NumbersNeverRepeat(run);
        hide NeverSealsPastWrap, AllDiffer, EpochsFresh, Inv;
      }
    } else {
      var run := RepeatingRun();
    }
  }
}
