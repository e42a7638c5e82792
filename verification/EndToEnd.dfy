/** One direction of a DTLS handshake: a sender, which may send application data too, a receiver with its record layer,
    and a network that loses, reorders, duplicates and delays records. A record opens under the keys it was sealed with,
    and under no others. */
module EndToEnd {
  import opened Bytes
  import opened DtlsWire
  import opened Reassembly
  import opened ReceiverSpec
  import opened FlightSpec
  import opened RecordNumbers
  import FlightNumbers
  import RecordLayer
  import ReplayWindow

  /** A message that was queued, and how often the write keys had changed by then. */
  datatype Msg = Msg(typ: byte, body: seq<byte>, keys: nat)

  /** The serialisation of message k of a history; the wire has room for 16 bits of its number. */
  function Whole(hist: seq<Msg>, k: nat): seq<byte>
    requires k < |hist|
  {
    PutHeader(HeaderOf(hist, k)) + hist[k].body
  }

  function HeaderOf(hist: seq<Msg>, k: nat): Header
    requires k < |hist|
  {
    WholeHeader(hist[k].typ, k % SEQ_MODULUS, |hist[k].body|)
  }

  /** A record on the wire: the keys it was sealed with, counted from the first, and the message it is of. */
  datatype Wire = Wire(record: Record, keys: nat, msg: nat)

  /** Everything there is. The two ends: the flight that is sent, and the reader, each with the number of its changes of
      keys; whether the reader has met a fatal error; and how far the sender may be ahead of it. What has happened: the
      records put on the wire, the messages the sender was given and those the receiver has read, the records its record
      layer let through, and of each message the bytes that arrived while it was awaited. */
  datatype Sys = Sys(out: Outgoing, keys: nat, reader: RecordLayer.Reader, readKeys: nat, dead: bool, lead: nat,
    net: set<Wire>, hist: seq<Msg>, taken: seq<seq<byte>>, accepted: set<Wire>, arrived: map<nat, set<nat>>)

  datatype Event =
    | Send(typ: byte, body: seq<byte>)
    | SendCcs
    | SendData(data: seq<byte>)
    | FlushFlight(mtu: nat, bio: seq<int>)
    | Resend(mtu: nat, bio: seq<int>)
    | ChangeWriteKeys(aead: Aead)
    | ChangeReadKeys(hasMessage: bool)
    | Deliver(wire: Wire)
    | Read
    | TakeCcs

  function Start(aead: Aead, maxLen: nat, lead: nat): Sys {
    var out := Outgoing([], 0, 0, false, 0, Writer(0, 0, 0), aead, aead);
    Sys(out, 0, RecordLayer.Start(maxLen), 0, false, lead, {}, [], [], {}, map[])
  }

  /** The bytes dtls1_get_message hands over for a complete slot. */
  function Raw(s: Slot): seq<byte>
    requires s.Complete()
  {
    PutHeader(WholeHeader(s.typ, s.seqNo, s.msgLen)) + seq(s.msgLen, i requires 0 <= i < s.msgLen => s.got[i])
  }

  /** No counter of record numbers wraps, the reader stops at a fatal error, and the sender gets no further ahead than
      it may. Sealing may fail for other reasons, and what is sent after that may lack messages. */
  ghost predicate Enabled(s: Sys, e: Event) {
    && s.out.Ok() && |s.reader.inc.ring| == MAX_FLIGHT
    && match e
       case Send(_, body) => |body| < 0x100_0000 && |s.hist| < |s.taken| + s.lead
       case SendCcs => true
       case SendData(data) =>
         && s.keys > 0 && 0 < |data| <= RecordLayer.MAX_PLAIN_LENGTH
         && FlightNumbers.Grows(s.out.writer, SealData(s.out, data).state.writer)
       case FlushFlight(mtu, bio) => !FlightNumbers.FlightWraps(s.out.(complete := true), mtu, bio)
       case Resend(mtu, bio) => !FlightNumbers.FlightWraps(s.out.(written := 0, offset := 0), mtu, bio)
       case ChangeWriteKeys(aead) => aead.Ok()
       case ChangeReadKeys(hasMessage) => !s.dead && RecordLayer.KeyChange(s.reader, hasMessage).Some?
       case Deliver(wire) => !s.dead && wire in s.net && RecordLayer.OnWire(wire.record)
       case Read => !s.dead && s.reader.inc.CurrentComplete()
       case TakeCcs => !s.dead && s.reader.hasCcs
  }

  /** dtls1_write_app_data: one record under the current keys. */
  function SealData(out: Outgoing, data: seq<byte>): Sealed {
    SealRecord(out, ApplicationData, data, false, true)
  }

  ghost function Records(packets: seq<seq<Record>>): set<Record> {
    set r | r in Flatten(packets)
  }

  /** The last message with the number in a fragment's header: the one it is of, since a flight's are the last. */
  function Source(count: nat, payload: seq<byte>): nat {
    var p := ParseFragment(payload);
    if p.None? || count == 0 then 0
    else
      var last := count - 1;
      var back := (last + SEQ_MODULUS - p.value.header.seqNo % SEQ_MODULUS) % SEQ_MODULUS;
      if back <= last then last - back else 0
  }

  /** What a record becomes on the wire. */
  function Emit(s: Sys, r: Record): Wire {
    Wire(r, if r.epoch == s.out.writer.epoch || s.keys == 0 then s.keys else s.keys - 1, Source(|s.hist|, r.payload))
  }

  ghost function Emitted(s: Sys, packets: seq<seq<Record>>): set<Wire> {
    set r | r in Records(packets) :: Emit(s, r)
  }

  /** Message k is in the window in front of the reader; the window ends where the 16-bit numbers wrap. */
  predicate Awaited(taken: nat, k: nat) {
    taken <= k < taken + MAX_FLIGHT && taken % SEQ_MODULUS + (k - taken) < SEQ_MODULUS
  }

  /** The body bytes that a fragment carries. */
  function Carries(payload: seq<byte>): set<nat> {
    var p := ParseFragment(payload);
    if p.None? then {} else Range(p.value.header.fragOff, p.value.header.fragOff + p.value.header.fragLen)
  }

  function Arrives(arrived: map<nat, set<nat>>, taken: nat, w: Wire): map<nat, set<nat>> {
    if w.record.typ == Handshake && Awaited(taken, w.msg) then
      arrived[w.msg := (if w.msg in arrived then arrived[w.msg] else {}) + Carries(w.record.payload)]
    else arrived
  }

  ghost function Step(s: Sys, e: Event): Sys
    requires Enabled(s, e)
  {
    match e
    case Send(typ, body) =>
      var next := AddOutgoing(s.out, false, Serialise(s.out, typ, body));
      if next.None? then s else s.(out := next.value, hist := s.hist + [Msg(typ, body, s.keys)])
    case SendCcs =>
      var next := AddOutgoing(s.out, true, []);
      if next.None? then s else s.(out := next.value)
    case SendData(data) =>
      var r := SealData(s.out, data);
      s.(out := r.state, net := s.net + if r.result.Progress? then {Emit(s, r.result.record)} else {})
    case FlushFlight(mtu, bio) =>
      var r := Flush(s.out, mtu, bio);
      s.(out := r.state, net := s.net + Emitted(s, r.packets))
    case Resend(mtu, bio) =>
      var r := Retransmit(s.out, mtu, bio);
      s.(out := r.state, net := s.net + Emitted(s, r.packets))
    case ChangeWriteKeys(aead) => s.(out := SetWriteState(s.out, aead), keys := s.keys + 1)
    case ChangeReadKeys(hasMessage) =>
      s.(reader := RecordLayer.KeyChange(s.reader, hasMessage).value, readKeys := s.readKeys + 1)
    case Deliver(w) => Delivered(s, w)
    case Read =>
      var inc := s.reader.inc;
      s.(reader := s.reader.(inc := inc.Next()), taken := s.taken + [Raw(inc.ring[inc.Index(inc.readSeq)].value)])
    case TakeCcs => s.(reader := s.reader.(hasCcs := false))
  }

  ghost function Delivered(s: Sys, w: Wire): Sys
    requires |s.reader.inc.ring| == MAX_FLIGHT && RecordLayer.OnWire(w.record)
  {
    var authentic := w.keys == s.readKeys;
    var o := RecordLayer.Opening(s.reader, w.record, authentic);
    if o.outcome.Fatal? then s.(dead := true)
    else if !RecordLayer.Passes(s.reader, w.record, authentic) then s.(reader := o.reader)
    else
      s.(reader := o.reader, accepted := s.accepted + {w}, arrived := Arrives(s.arrived, |s.taken|, w))
  }

  ghost predicate Possible(start: Sys, run: seq<Event>)
    decreases |run|, 0
  {
    run == [] || (Possible(start, run[..|run| - 1]) && Enabled(After(start, run[..|run| - 1]), run[|run| - 1]))
  }

  ghost function After(start: Sys, run: seq<Event>): Sys
    requires Possible(start, run)
    decreases |run|, 1
  {
    if run == [] then start else Step(After(start, run[..|run| - 1]), run[|run| - 1])
  }

  // Invariants of the sender and the network.

  ghost predicate IsFragment(hist: seq<Msg>, payload: seq<byte>, k: nat, off: nat, n: nat) {
    && k < |hist| && off + n <= |hist[k].body|
    && payload == FragmentBytes(HeaderOf(hist, k), hist[k].body, off, n)
  }

  ghost predicate FragmentOf(hist: seq<Msg>, payload: seq<byte>, k: nat) {
    exists off: nat, n: nat :: IsFragment(hist, payload, k, off, n)
  }

  ghost predicate HistoryOk(s: Sys) {
    forall k: nat | k < |s.hist| :: |s.hist[k].body| < 0x100_0000 && s.hist[k].keys <= s.keys
  }

  /** The i-th message of a flight is the k-th of the history, and no more have come since than the flight has. */
  ghost predicate IsMsg(hist: seq<Msg>, msgs: seq<OutMsg>, i: nat, k: nat) {
    && i < |msgs| && k < |hist|
    && msgs[i].data == Whole(hist, k)
    && |hist| - k <= |msgs| - i
    && msgs[i].epoch == hist[k].keys % EPOCH_MODULUS
  }

  ghost predicate MsgOk(hist: seq<Msg>, msgs: seq<OutMsg>, i: nat)
    requires i < |msgs|
  {
    msgs[i].isCcs || exists k: nat :: IsMsg(hist, msgs, i, k)
  }

  ghost predicate OutOk(s: Sys) {
    && s.out.Ok() && s.out.writer.Ok()
    && s.out.writer.epoch == s.keys % EPOCH_MODULUS
    && s.out.writeSeq == |s.hist| % SEQ_MODULUS
    && |s.out.msgs| <= MAX_FLIGHT
    && forall i: nat | i < |s.out.msgs| :: MsgOk(s.hist, s.out.msgs, i)
  }

  /** The counters are ahead of every number that was used with their keys. */
  ghost predicate Counted(s: Sys, w: Wire) {
    && RecordLayer.OnWire(w.record)
    && w.keys <= s.keys
    && w.record.epoch == w.keys % EPOCH_MODULUS
    && (w.keys == s.keys ==> w.record.number < s.out.writer.cur)
    && (w.keys + 1 == s.keys ==> w.record.number < s.out.writer.last)
  }

  /** A record is a fragment of its message, and was sealed with keys no older than those when the message was queued,
      but no younger than those when the seventh message after it was. */
  ghost predicate Traced(s: Sys, w: Wire) {
    w.record.typ == Handshake ==>
      && FragmentOf(s.hist, w.record.payload, w.msg)
      && w.msg < |s.hist| && s.hist[w.msg].keys <= w.keys
      && forall k: nat | w.msg + MAX_FLIGHT <= k < |s.hist| :: w.keys <= s.hist[k].keys
  }

  /** Messages seven apart are never sent at the same time: the later one has later numbers. */
  ghost predicate Ordered(w: Wire, w': Wire) {
    w.record.typ == Handshake && w'.record.typ == Handshake && w.msg + MAX_FLIGHT <= w'.msg ==>
      w.keys < w'.keys || (w.keys == w'.keys && w.record.number < w'.record.number)
  }

  ghost predicate NetOk(s: Sys) {
    && (forall w | w in s.net :: Counted(s, w) && Traced(s, w))
    && forall w, w' | w in s.net && w' in s.net :: Ordered(w, w')
  }

  // Invariants of the receiver.

  /** The message that a number in the window stands for. */
  function Target(taken: nat, seqNo: nat): nat {
    if seqNo < taken % SEQ_MODULUS then 0 else taken + (seqNo - taken % SEQ_MODULUS)
  }

  /** A slot holds those bytes of its message that have arrived. */
  ghost predicate SlotOk(s: Sys, slot: Slot) {
    var k := Target(|s.taken|, slot.seqNo);
    && k < |s.hist| && k in s.arrived
    && slot.typ == s.hist[k].typ && slot.msgLen == |s.hist[k].body|
    && slot.got.Keys == s.arrived[k]
    && forall i | i in slot.got :: i < slot.msgLen && slot.got[i] == s.hist[k].body[i]
  }

  ghost predicate SlotsOk(s: Sys) {
    && s.reader.inc.RingOk()
    && s.reader.inc.readSeq == |s.taken| % SEQ_MODULUS
    && (forall i: nat | i < MAX_FLIGHT && s.reader.inc.ring[i].Some? :: SlotOk(s, s.reader.inc.ring[i].value))
    && (forall k: nat | Awaited(|s.taken|, k) && k in s.arrived ::
          s.reader.inc.ring[k % SEQ_MODULUS % MAX_FLIGHT].Some?)
  }

  /** The numbers let through under the current keys, as the replay window sees them. */
  ghost function Seen(accepted: set<Wire>, readKeys: nat): set<ReplayWindow.u64> {
    set w | w in accepted && w.keys == readKeys && RecordLayer.OnWire(w.record) :: RecordLayer.SequenceOf(w.record)
  }

  /** Some record of message k was let through. */
  ghost predicate Witnessed(accepted: set<Wire>, k: nat) {
    exists w :: w in accepted && w.record.typ == Handshake && w.msg == k
  }

  /** What has arrived of a message was let through while it was in a window that has not moved behind it. */
  ghost predicate ArrivedOk(s: Sys, k: nat) {
    && k < |s.taken| + MAX_FLIGHT && k / SEQ_MODULUS <= |s.taken| / SEQ_MODULUS
    && Witnessed(s.accepted, k)
  }

  ghost predicate ReaderOk(s: Sys) {
    && s.reader.inc.readEpoch == s.readKeys % EPOCH_MODULUS
    && s.accepted <= s.net
    && (forall w | w in s.accepted :: w.keys <= s.readKeys)
    && ReplayWindow.Tracks(s.reader.window, Seen(s.accepted, s.readKeys))
    && (forall k | k in s.arrived :: ArrivedOk(s, k))
  }

  ghost predicate TakenOk(s: Sys) {
    && |s.taken| <= |s.hist| <= |s.taken| + s.lead
    && (forall i: nat | i < |s.taken| :: s.taken[i] == Whole(s.hist, i))
    && (forall i: nat | i < |s.taken| :: Witnessed(s.accepted, i))
  }

  ghost predicate Safe(s: Sys) {
    HistoryOk(s) && OutOk(s) && NetOk(s) && SlotsOk(s) && ReaderOk(s) && TakenOk(s)
  }

  // Sending keeps the invariants.

  lemma WholeParses(hist: seq<Msg>, k: nat)
    requires k < |hist| && |hist[k].body| < 0x100_0000
    ensures ParseFragment(Whole(hist, k)) == Some(Parsed(HeaderOf(hist, k), hist[k].body, []))
  {
    ParsePut(HeaderOf(hist, k), hist[k].body, []);
    assert Whole(hist, k) + [] == Whole(hist, k);
  }

  lemma FragmentParses(hist: seq<Msg>, payload: seq<byte>, k: nat, off: nat, n: nat)
    requires IsFragment(hist, payload, k, off, n) && |hist[k].body| < 0x100_0000
    ensures var h := HeaderOf(hist, k).(fragOff := off, fragLen := n);
            h.Fits() && ParseFragment(payload) == Some(Parsed(h, hist[k].body[off..off + n], []))
    ensures Carries(payload) == Range(off, off + n)
  {
    var h := HeaderOf(hist, k).(fragOff := off, fragLen := n);
    var part := hist[k].body[off..off + n];
    ParsePut(h, part, []);
    assert PutHeader(h) + part + [] == payload;
  }

  lemma Remainder(k: nat, d: nat)
    requires d < SEQ_MODULUS
    ensures (k + d + SEQ_MODULUS - k % SEQ_MODULUS) % SEQ_MODULUS == d
  {
    var q := k / SEQ_MODULUS;
    assert k + d + SEQ_MODULUS - k % SEQ_MODULUS == SEQ_MODULUS * (q + 1) + d;
  }

  /** A fragment of one of the last messages is told apart by sixteen bits. */
  lemma SourceIs(hist: seq<Msg>, payload: seq<byte>, k: nat)
    requires FragmentOf(hist, payload, k) && k < |hist| <= k + MAX_FLIGHT && |hist[k].body| < 0x100_0000
    ensures Source(|hist|, payload) == k
  {
    var off: nat, n: nat :| IsFragment(hist, payload, k, off, n);
    FragmentParses(hist, payload, k, off, n);
    Remainder(k, |hist| - 1 - k);
    assert k % SEQ_MODULUS % SEQ_MODULUS == k % SEQ_MODULUS;
    hide ParseFragment, IsFragment, FragmentOf;
  }

  /** A handshake record of a flight is a fragment of one of its messages, in that message's epoch. */
  ghost predicate FromFlight(hist: seq<Msg>, msgs: seq<OutMsg>, r: Record) {
    r.typ == Handshake ==>
      exists i: nat, k: nat :: IsMsg(hist, msgs, i, k) && FragmentOf(hist, r.payload, k) && r.epoch == msgs[i].epoch
  }

  ghost predicate MsgsOk(hist: seq<Msg>, msgs: seq<OutMsg>) {
    && (forall k: nat | k < |hist| :: |hist[k].body| < 0x100_0000)
    && forall i: nat | i < |msgs| :: MsgOk(hist, msgs, i)
  }

  lemma AdvanceGenuine(hist: seq<Msg>, msgs: seq<OutMsg>, w: nat, o: nat, r: Record)
    requires MsgsOk(hist, msgs) && Advance(msgs, w, o, r).Some?
    ensures FromFlight(hist, msgs, r)
  {
    assert MsgOk(hist, msgs, w);
    if !msgs[w].isCcs {
      var k: nat :| IsMsg(hist, msgs, w, k);
      WholeParses(hist, k);
      var n := |r.payload| - HM_HEADER_LENGTH;
      hide ParseFragment;
      assert IsFragment(hist, r.payload, k, o, n);
      assert FragmentOf(hist, r.payload, k);
    }
  }

  lemma {:induction false} WalkGenuine(hist: seq<Msg>, msgs: seq<OutMsg>, w: nat, o: nat, records: seq<Record>)
    requires MsgsOk(hist, msgs) && Walk(msgs, w, o, records).Some?
    ensures forall r | r in records :: FromFlight(hist, msgs, r)
    decreases |records|
  {
    hide MsgsOk, Advance, FromFlight;
    if records != [] {
      AdvanceGenuine(hist, msgs, w, o, records[0]);
      var next := Advance(msgs, w, o, records[0]).value;
      WalkGenuine(hist, msgs, next.0, next.1, records[1..]);
      assert forall r | r in records :: r == records[0] || r in records[1..];
    }
  }

  /** Sending leaves the messages alone. */
  lemma {:induction false} SendFrame(s: Outgoing, mtu: nat, bio: seq<int>)
    requires s.Ok()
    ensures var r := SendFlight(s, mtu, bio);
            && r.state == s.(writer := r.state.writer, written := r.state.written, offset := r.state.offset)
            && r.state.Ok()
    decreases |s.msgs| - s.written, s.Left()
  {
    if s.written < |s.msgs| {
      var p := SealPacket(s, mtu, false);
      if p.records.Some? && Answer(bio) > 0 {
        SendFrame(p.state, mtu, bio[1..]);
      }
    }
  }

  /** What one record of a flight is on the wire. */
  lemma EmitOk(s: Sys, s': Sys, r: Record)
    requires HistoryOk(s) && OutOk(s) && FromFlight(s.hist, s.out.msgs, r)
    requires FlightNumbers.Numbered(s.out.writer, s'.out.writer, r)
    requires FlightNumbers.Grows(s.out.writer, s'.out.writer) && s' == s.(out := s'.out, net := s'.net)
    ensures Counted(s', Emit(s, r)) && Traced(s', Emit(s, r))
    ensures r.typ == Handshake ==> |s.hist| <= Emit(s, r).msg + MAX_FLIGHT
    ensures var w := Emit(s, r);
            || (w.keys == s.keys && s.out.writer.cur <= r.number)
            || (w.keys + 1 == s.keys && s.out.writer.last <= r.number)
  {
    EmitCounted(s, s', r);
    if r.typ == Handshake {
      EmitTraced(s, s', r);
    }
    hide HistoryOk, OutOk, FromFlight, Counted, Traced;
  }

  lemma EmitCounted(s: Sys, s': Sys, r: Record)
    requires OutOk(s) && FlightNumbers.Numbered(s.out.writer, s'.out.writer, r)
    requires FlightNumbers.Grows(s.out.writer, s'.out.writer) && s' == s.(out := s'.out, net := s'.net)
    ensures Counted(s', Emit(s, r))
    ensures var w := Emit(s, r);
            || (w.keys == s.keys && s.out.writer.cur <= r.number)
            || (w.keys + 1 == s.keys && s.out.writer.last <= r.number)
  {
    if s.keys > 0 && r.epoch != s.out.writer.epoch {
      Before(s.keys);
    }
  }

  lemma Before(keys: nat)
    requires keys % EPOCH_MODULUS >= 1
    ensures keys >= 1 && (keys - 1) % EPOCH_MODULUS == keys % EPOCH_MODULUS - 1
  {
  }

  lemma EmitTraced(s: Sys, s': Sys, r: Record)
    requires HistoryOk(s) && OutOk(s) && FromFlight(s.hist, s.out.msgs, r) && r.typ == Handshake
    requires FlightNumbers.Numbered(s.out.writer, s'.out.writer, r)
    requires s' == s.(out := s'.out, net := s'.net)
    ensures Traced(s', Emit(s, r)) && |s.hist| <= Emit(s, r).msg + MAX_FLIGHT
  {
    var i: nat, k: nat :| IsMsg(s.hist, s.out.msgs, i, k) && FragmentOf(s.hist, r.payload, k)
                          && r.epoch == s.out.msgs[i].epoch;
    SourceIs(s.hist, r.payload, k);
    hide Source, FragmentOf;
    assert s.hist[k].keys <= s.keys;
    assert s.hist[k].keys == s.keys ==> r.epoch == s.out.writer.epoch;
  }

  /** Records of a flight on the wire come after those of messages that are no longer in it. */
  lemma EmitOrdered(s: Sys, r: Record, w: Wire)
    requires Traced(s, w) && Counted(s, w) && |s.hist| <= Emit(s, r).msg + MAX_FLIGHT
    requires r.typ == Handshake ==> Emit(s, r).msg < |s.hist| && s.hist[Emit(s, r).msg].keys <= Emit(s, r).keys
    requires var e := Emit(s, r);
             || (e.keys == s.keys && s.out.writer.cur <= r.number)
             || (e.keys + 1 == s.keys && s.out.writer.last <= r.number)
    ensures Ordered(w, Emit(s, r)) && Ordered(Emit(s, r), w)
  {
    hide Source, FragmentOf;
  }

  /** What was on the wire stays as it was while the counters grow. */
  lemma CountedLater(s: Sys, s': Sys, w: Wire)
    requires Counted(s, w) && Traced(s, w) && s' == s.(out := s'.out, net := s'.net)
    requires FlightNumbers.Grows(s.out.writer, s'.out.writer)
    ensures Counted(s', w) && Traced(s', w)
  {
    hide FragmentOf;
  }

  lemma NetGrows(s: Sys, s': Sys, records: set<Record>)
    requires HistoryOk(s) && OutOk(s) && NetOk(s)
    requires forall r | r in records :: FromFlight(s.hist, s.out.msgs, r)
    requires forall r | r in records :: FlightNumbers.Numbered(s.out.writer, s'.out.writer, r)
    requires FlightNumbers.Grows(s.out.writer, s'.out.writer)
    requires s' == s.(out := s'.out, net := s.net + set r | r in records :: Emit(s, r))
    ensures NetOk(s')
  {
    hide HistoryOk, OutOk, FromFlight, Counted, Traced, Ordered, Emit, FlightNumbers.Numbered, FlightNumbers.Grows;
    forall w | w in s'.net ensures Counted(s', w) && Traced(s', w) {
      if w in s.net {
        CountedLater(s, s', w);
      } else {
        var r :| r in records && w == Emit(s, r);
        EmitOk(s, s', r);
      }
    }
    forall w, w' | w in s'.net && w' in s'.net ensures Ordered(w, w') {
      OrderedGrown(s, s', records, w, w');
    }
  }

  lemma OrderedGrown(s: Sys, s': Sys, records: set<Record>, w: Wire, w': Wire)
    requires HistoryOk(s) && OutOk(s) && NetOk(s)
    requires forall r | r in records :: FromFlight(s.hist, s.out.msgs, r)
    requires forall r | r in records :: FlightNumbers.Numbered(s.out.writer, s'.out.writer, r)
    requires FlightNumbers.Grows(s.out.writer, s'.out.writer) && s' == s.(out := s'.out, net := s'.net)
    requires w in s.net || exists r :: r in records && w == Emit(s, r)
    requires w' in s.net || exists r :: r in records && w' == Emit(s, r)
    ensures Ordered(w, w')
  {
    if w !in s.net || w' !in s.net {
      var r :| r in records && Emit(s, r) == if w' in s.net then w else w';
      NewOrdered(s, s', r);
      if w in s.net || w' in s.net {
        EmitOrderedWith(s, s', r, if w' in s.net then w' else w);
      } else {
        var r0 :| r0 in records && Emit(s, r0) == w;
        NewOrdered(s, s', r0);
      }
    }
  }

  /** A new handshake record is of one of the last messages. */
  lemma NewOrdered(s: Sys, s': Sys, r: Record)
    requires HistoryOk(s) && OutOk(s) && FromFlight(s.hist, s.out.msgs, r)
    requires FlightNumbers.Numbered(s.out.writer, s'.out.writer, r)
    requires FlightNumbers.Grows(s.out.writer, s'.out.writer) && s' == s.(out := s'.out, net := s'.net)
    ensures r.typ == Handshake ==> Emit(s, r).msg < |s.hist| <= Emit(s, r).msg + MAX_FLIGHT
    ensures Emit(s, r).record == r
  {
    EmitOk(s, s', r);
  }

  lemma EmitOrderedWith(s: Sys, s': Sys, r: Record, w: Wire)
    requires HistoryOk(s) && OutOk(s) && NetOk(s) && FromFlight(s.hist, s.out.msgs, r) && w in s.net
    requires FlightNumbers.Numbered(s.out.writer, s'.out.writer, r)
    requires FlightNumbers.Grows(s.out.writer, s'.out.writer) && s' == s.(out := s'.out, net := s'.net)
    ensures Ordered(w, Emit(s, r)) && Ordered(Emit(s, r), w)
  {
    EmitOk(s, s', r);
    if r.typ == Handshake {
      EmitOrdered(s, r, w);
    }
  }

  /** send_flight from any place of the flight. */
  lemma FlightSends(s: Sys, out: Outgoing, mtu: nat, bio: seq<int>)
    requires Safe(s) && out.Ok() && !FlightNumbers.FlightWraps(out, mtu, bio)
    requires out == s.out.(complete := out.complete, written := out.written, offset := out.offset)
    ensures var r := SendFlight(out, mtu, bio);
            Safe(s.(out := r.state, net := s.net + Emitted(s, r.packets)))
  {
    var r := SendFlight(out, mtu, bio);
    SentWalks(out, mtu, bio);
    FlightNumbers.SendNumbers(out, mtu, bio);
    SendFrame(out, mtu, bio);
    assert MsgsOk(s.hist, s.out.msgs);
    WalkGenuine(s.hist, s.out.msgs, out.written, out.offset, Flatten(r.packets));
    var s' := s.(out := r.state, net := s.net + Emitted(s, r.packets));
    hide SendFlight, Walk, FromFlight, FlightNumbers.Numbered, Emit, Flatten;
    NetGrows(s, s', Records(r.packets));
    hide NetOk, SlotsOk, HistoryOk, TakenOk;
    SameReader(s, s');
  }

  /** The reader's invariants do not depend on what is sent. */
  lemma SameReader(s: Sys, s': Sys)
    requires SlotsOk(s) && ReaderOk(s) && TakenOk(s) && HistoryOk(s)
    requires s' == s.(out := s'.out, net := s'.net) && s.net <= s'.net
    ensures SlotsOk(s') && ReaderOk(s') && TakenOk(s') && HistoryOk(s')
  {
    assert forall slot :: SlotOk(s, slot) ==> SlotOk(s', slot);
    assert forall k | k in s.arrived :: ArrivedOk(s, k) ==> ArrivedOk(s', k);
    hide SlotOk, ArrivedOk, Witnessed, Seen, ReplayWindow.Tracks;
  }

  lemma FlightStep(s: Sys, e: Event)
    requires Safe(s) && Enabled(s, e) && (e.FlushFlight? || e.Resend?)
    ensures Safe(Step(s, e))
  {
    hide SendFlight, Safe;
    match e {
      case FlushFlight(mtu, bio) => FlightSends(s, s.out.(complete := true), mtu, bio);
      case Resend(mtu, bio) => FlightSends(s, s.out.(written := 0, offset := 0), mtu, bio);
    }
  }

  // Queueing keeps them.

  /** History only grows, and growing it keeps what was said about its old messages. */
  lemma GrowHistory(hist: seq<Msg>, m: Msg)
    ensures forall k: nat | k < |hist| :: Whole(hist + [m], k) == Whole(hist, k)
    ensures forall payload, k: nat :: FragmentOf(hist, payload, k) ==> FragmentOf(hist + [m], payload, k)
  {
    forall payload, k: nat | FragmentOf(hist, payload, k) ensures FragmentOf(hist + [m], payload, k) {
      var off: nat, n: nat :| IsFragment(hist, payload, k, off, n);
      assert IsFragment(hist + [m], payload, k, off, n);
    }
  }

  /** One more message in the flight, of the handshake or a ChangeCipherSpec. */
  lemma MsgsGrow(hist: seq<Msg>, hist': seq<Msg>, msgs: seq<OutMsg>, m: OutMsg, i: nat)
    requires i < |msgs| && MsgOk(hist, msgs, i)
    requires hist' == hist || (|hist'| == |hist| + 1 && hist'[..|hist|] == hist)
    ensures MsgOk(hist', msgs + [m], i)
  {
    if !msgs[i].isCcs {
      var k: nat :| IsMsg(hist, msgs, i, k);
      if hist' != hist {
        assert hist' == hist + [hist'[|hist|]];
        GrowHistory(hist, hist'[|hist|]);
      }
      assert IsMsg(hist', msgs + [m], i, k);
    }
  }

  lemma QueueOut(s: Sys, isCcs: bool, typ: byte, body: seq<byte>)
    requires HistoryOk(s) && OutOk(s)
    requires AddOutgoing(s.out, isCcs, if isCcs then [] else Serialise(s.out, typ, body)).Some?
    ensures var next := AddOutgoing(s.out, isCcs, if isCcs then [] else Serialise(s.out, typ, body)).value;
            OutOk(s.(out := next, hist := if isCcs then s.hist else s.hist + [Msg(typ, body, s.keys)]))
  {
    var data := if isCcs then [] else Serialise(s.out, typ, body);
    var next := AddOutgoing(s.out, isCcs, data).value;
    var hist' := if isCcs then s.hist else s.hist + [Msg(typ, body, s.keys)];
    var kept := if s.out.complete then [] else s.out.msgs;
    var m := OutMsg(data, s.out.writer.epoch, isCcs);
    assert next.msgs == kept + [m];
    forall i: nat | i < |next.msgs| ensures MsgOk(hist', next.msgs, i) {
      if i < |kept| {
        MsgsGrow(s.hist, hist', kept, m, i);
      } else if !isCcs {
        assert Serialise(s.out, typ, body) == Whole(hist', |s.hist|);
        assert IsMsg(hist', next.msgs, i, |s.hist|);
      }
    }
    Succeeding(|s.hist|);
    hide MsgOk;
  }

  lemma Succeeding(n: nat)
    ensures (n % SEQ_MODULUS + 1) % SEQ_MODULUS == (n + 1) % SEQ_MODULUS
  {
  }

  lemma SendNet(s: Sys, s': Sys, m: Msg)
    requires HistoryOk(s) && NetOk(s) && m.keys == s.keys && |m.body| < 0x100_0000
    requires s' == s.(out := s'.out, hist := s.hist + [m]) && s'.out.writer == s.out.writer
    ensures NetOk(s') && HistoryOk(s')
  {
    GrowHistory(s.hist, m);
    hide FragmentOf;
    forall w | w in s'.net ensures Counted(s', w) && Traced(s', w) {
      assert Counted(s, w) && Traced(s, w);
    }
  }

  lemma SendReader(s: Sys, s': Sys, m: Msg)
    requires SlotsOk(s) && ReaderOk(s) && TakenOk(s) && |s.hist| < |s.taken| + s.lead
    requires s' == s.(out := s'.out, hist := s.hist + [m])
    ensures SlotsOk(s') && ReaderOk(s') && TakenOk(s')
  {
    GrowHistory(s.hist, m);
    assert forall slot :: SlotOk(s, slot) ==> SlotOk(s', slot);
    assert forall k | k in s.arrived :: ArrivedOk(s, k) ==> ArrivedOk(s', k);
    hide SlotOk, ArrivedOk, Witnessed, Seen, ReplayWindow.Tracks, Whole;
  }

  lemma SendStep(s: Sys, typ: byte, body: seq<byte>)
    requires Safe(s) && Enabled(s, Send(typ, body))
    ensures Safe(Step(s, Send(typ, body)))
  {
    var next := AddOutgoing(s.out, false, Serialise(s.out, typ, body));
    if next.Some? {
      var m := Msg(typ, body, s.keys);
      var s' := s.(out := next.value, hist := s.hist + [m]);
      assert next.value.writer == s.out.writer;
      hide HistoryOk, OutOk, NetOk, SlotsOk, ReaderOk, TakenOk;
      QueueOut(s, false, typ, body);
      SendNet(s, s', m);
      SendReader(s, s', m);
    }
  }

  lemma CcsStep(s: Sys)
    requires Safe(s) && Enabled(s, SendCcs)
    ensures Safe(Step(s, SendCcs))
  {
    var next := AddOutgoing(s.out, true, []);
    if next.Some? {
      var s' := s.(out := next.value);
      assert next.value.writer == s.out.writer;
      QueueOut(s, true, 0, []);
      assert forall w | w in s.net :: Counted(s, w) && Traced(s, w) ==> Counted(s', w) && Traced(s', w);
      hide OutOk, SlotsOk, ReaderOk, TakenOk, Counted, Traced, Ordered;
      SameReader(s, s');
    }
  }

  /** Application data is a record of its own, with the next number. */
  lemma DataStep(s: Sys, data: seq<byte>)
    requires Safe(s) && Enabled(s, SendData(data))
    ensures Safe(Step(s, SendData(data)))
  {
    var r := SealData(s.out, data);
    var s' := Step(s, SendData(data));
    var records := if r.result.Progress? then {r.result.record} else {};
    if r.result.Progress? {
      FlightNumbers.SealRecordNumbers(s.out, ApplicationData, data, false, true);
    }
    assert OutOk(s') by {
      assert forall i: nat | i < |s.out.msgs| :: MsgOk(s.hist, s.out.msgs, i);
      hide MsgOk;
    }
    hide OutOk, SealData, SlotsOk, ReaderOk, TakenOk, HistoryOk, Emit;
    assert s'.net == s.net + set x | x in records :: Emit(s, x);
    NetGrows(s, s', records);
    hide NetOk;
    SameReader(s, s');
  }

  lemma WriteKeysStep(s: Sys, aead: Aead)
    requires Safe(s) && Enabled(s, ChangeWriteKeys(aead))
    ensures Safe(Step(s, ChangeWriteKeys(aead)))
  {
    var s' := s.(out := SetWriteState(s.out, aead), keys := s.keys + 1);
    assert forall w | w in s.net :: Counted(s, w) && Traced(s, w) ==> Counted(s', w) && Traced(s', w) by {
      hide FragmentOf;
    }
    KeysNext(s.keys);
    assert forall i: nat | i < |s.out.msgs| :: MsgOk(s.hist, s.out.msgs, i);
    hide SlotsOk, ReaderOk, TakenOk, Counted, Traced, Ordered, MsgOk;
    SameReaderKeys(s, s');
  }

  lemma KeysNext(n: nat)
    ensures (n % EPOCH_MODULUS + 1) % EPOCH_MODULUS == (n + 1) % EPOCH_MODULUS
  {
  }

  lemma SameReaderKeys(s: Sys, s': Sys)
    requires SlotsOk(s) && ReaderOk(s) && TakenOk(s)
    requires s' == s.(out := s'.out, keys := s'.keys)
    ensures SlotsOk(s') && ReaderOk(s') && TakenOk(s')
  {
    assert forall slot :: SlotOk(s, slot) ==> SlotOk(s', slot);
    assert forall k | k in s.arrived :: ArrivedOk(s, k) ==> ArrivedOk(s', k);
    hide SlotOk, ArrivedOk, Witnessed, Seen, ReplayWindow.Tracks;
  }

  // Receiving keeps them.

  /** Messages seven apart that were let through under the same keys have numbers that grow. */
  lemma {:induction false} Chain(s: Sys, w: Wire, m: nat) returns (last: Wire)
    requires NetOk(s) && ReaderOk(s) && TakenOk(s)
    requires w in s.net && w.record.typ == Handshake && w.keys == s.readKeys
    requires w.msg + MAX_FLIGHT * m < |s.taken|
    ensures last in s.net && last.record.typ == Handshake && last.keys == s.readKeys
    ensures last.msg == w.msg + MAX_FLIGHT * m && last.record.number >= w.record.number + m
    ensures m > 0 ==> last in s.accepted
  {
    if m == 0 {
      last := w;
    } else {
      var before := Chain(s, w, m - 1);
      assert Witnessed(s.accepted, w.msg + MAX_FLIGHT * m);
      last :| last in s.accepted && last.record.typ == Handshake && last.msg == w.msg + MAX_FLIGHT * m;
      assert Ordered(before, last);
    }
  }

  /** A record of a message that was read long ago, under the same keys, has been left behind by the replay window. */
  lemma LateDiscarded(s: Sys, w: Wire)
    requires NetOk(s) && ReaderOk(s) && TakenOk(s)
    requires w in s.net && w.record.typ == Handshake && w.keys == s.readKeys && RecordLayer.OnWire(w.record)
    requires |s.taken| >= w.msg + 455
    ensures ReplayWindow.ShouldDiscard(s.reader.window, RecordLayer.SequenceOf(w.record))
  {
    var last := Chain(s, w, 64);
    assert Counted(s, last) && Counted(s, w);
    assert RecordLayer.SequenceOf(last.record) in Seen(s.accepted, s.readKeys);
  }

  /** So a record that is let through is of a message that was not read, or less than 455 messages ago. */
  lemma NotStale(s: Sys, w: Wire)
    requires NetOk(s) && ReaderOk(s) && TakenOk(s)
    requires w in s.net && w.record.typ == Handshake && w.keys == s.readKeys && RecordLayer.OnWire(w.record)
    requires !ReplayWindow.ShouldDiscard(s.reader.window, RecordLayer.SequenceOf(w.record))
    ensures |s.taken| < w.msg + 455
  {
    if |s.taken| >= w.msg + 455 {
      LateDiscarded(s, w);
    }
  }

  /** A number in the window stands for one message only, if neither an older nor a newer one can come. */
  lemma InWindow(taken: nat, k: nat)
    requires taken < k + 455 && k < taken + SEQ_MODULUS
    requires taken % SEQ_MODULUS <= k % SEQ_MODULUS < taken % SEQ_MODULUS + MAX_FLIGHT
    ensures Awaited(taken, k) && Target(taken, k % SEQ_MODULUS) == k
  {
    var d := k / SEQ_MODULUS - taken / SEQ_MODULUS;
    assert k - taken == SEQ_MODULUS * d + (k % SEQ_MODULUS - taken % SEQ_MODULUS);
  }

  lemma AwaitedNumber(taken: nat, k: nat)
    requires Awaited(taken, k)
    ensures k % SEQ_MODULUS == taken % SEQ_MODULUS + (k - taken)
    ensures Target(taken, k % SEQ_MODULUS) == k && k / SEQ_MODULUS == taken / SEQ_MODULUS
  {
    var q := taken / SEQ_MODULUS;
    assert k == SEQ_MODULUS * q + (taken % SEQ_MODULUS + (k - taken));
  }

  lemma AcceptOne(inc: Incoming, h: Header, body: seq<byte>)
    requires |inc.ring| == MAX_FLIGHT && h.Fits() && |body| == h.fragLen
    ensures inc.AcceptAll(PutHeader(h) + body) == inc.Accept(h, body)
  {
    ParsePut(h, body, []);
    assert PutHeader(h) + body + [] == PutHeader(h) + body;
  }

  lemma FragmentAccepted(hist: seq<Msg>, inc: Incoming, payload: seq<byte>, k: nat, off: nat, n: nat)
    requires |inc.ring| == MAX_FLIGHT && IsFragment(hist, payload, k, off, n) && |hist[k].body| < 0x100_0000
    ensures var h := HeaderOf(hist, k).(fragOff := off, fragLen := n);
            h.Fits() && inc.AcceptAll(payload) == inc.Accept(h, hist[k].body[off..off + n])
  {
    var h := HeaderOf(hist, k).(fragOff := off, fragLen := n);
    AcceptOne(inc, h, hist[k].body[off..off + n]);
  }

  /** Bytes of its message into a slot. */
  lemma ReceiveOk(s: Sys, slot: Slot, k: nat, off: nat, n: nat, arrived: map<nat, set<nat>>)
    requires k < |s.hist| && off + n <= |s.hist[k].body| && k == Target(|s.taken|, slot.seqNo)
    requires slot.typ == s.hist[k].typ && slot.msgLen == |s.hist[k].body|
    requires forall i | i in slot.got :: i < slot.msgLen && slot.got[i] == s.hist[k].body[i]
    requires k in arrived && arrived[k] == slot.got.Keys + Range(off, off + n)
    ensures SlotOk(s.(arrived := arrived), slot.Receive(off, s.hist[k].body[off..off + n]))
  {
    var part := s.hist[k].body[off..off + n];
    if slot.Complete() {
      assert slot.got.Keys + Range(off, off + n) == slot.got.Keys;
    } else {
      assert slot.Receive(off, part).got.Keys == slot.got.Keys + Range(off, off + n);
    }
  }

  /** The slot that message k has, or gets. */
  function SlotFor(s: Sys, k: nat): Slot
    requires |s.reader.inc.ring| == MAX_FLIGHT && k < |s.hist|
  {
    var i := s.reader.inc.Index(k % SEQ_MODULUS);
    if s.reader.inc.ring[i].Some? then s.reader.inc.ring[i].value
    else NewSlot(s.hist[k].typ, k % SEQ_MODULUS, |s.hist[k].body|)
  }

  lemma OtherSlot(s: Sys, s': Sys, slot: Slot, k: nat)
    requires SlotOk(s, slot) && Target(|s.taken|, slot.seqNo) != k
    requires s' == s.(reader := s'.reader, arrived := s'.arrived) && k in s'.arrived
    requires s'.arrived == s.arrived[k := s'.arrived[k]]
    ensures SlotOk(s', slot)
  {
  }

  /** Different numbers in the window stand for different messages. */
  lemma OtherTarget(taken: nat, a: nat, b: nat)
    requires taken % SEQ_MODULUS <= a && taken % SEQ_MODULUS <= b && a != b
    ensures Target(taken, a) != Target(taken, b)
  {
  }

  lemma SlotForOk(s: Sys, k: nat, off: nat, n: nat, arrived: map<nat, set<nat>>)
    requires SlotsOk(s) && Awaited(|s.taken|, k) && k < |s.hist| && off + n <= |s.hist[k].body| < 0x100_0000
    requires arrived == s.arrived[k := (if k in s.arrived then s.arrived[k] else {}) + Range(off, off + n)]
    ensures SlotOk(s.(arrived := arrived), SlotFor(s, k).Receive(off, s.hist[k].body[off..off + n]))
    ensures SlotFor(s, k).seqNo == k % SEQ_MODULUS
  {
    AwaitedNumber(|s.taken|, k);
    var slot := SlotFor(s, k);
    if s.reader.inc.ring[s.reader.inc.Index(k % SEQ_MODULUS)].Some? {
      SameNumber(s.reader.inc, k % SEQ_MODULUS);
      assert SlotOk(s, slot);
    } else {
      assert slot.got.Keys == {};
    }
    ReceiveOk(s, slot, k, off, n, arrived);
  }

  /** A fragment of an awaited message goes into its slot. */
  lemma PlaceOk(s: Sys, k: nat, off: nat, n: nat, arrived: map<nat, set<nat>>)
    requires SlotsOk(s) && Awaited(|s.taken|, k) && k < |s.hist| && off + n <= |s.hist[k].body| < 0x100_0000
    requires arrived == s.arrived[k := (if k in s.arrived then s.arrived[k] else {}) + Range(off, off + n)]
    ensures var inc := s.reader.inc;
            var slot := SlotFor(s, k).Receive(off, s.hist[k].body[off..off + n]);
            var inc' := inc.(ring := inc.ring[inc.Index(k % SEQ_MODULUS) := Some(slot)]);
            inc'.RingOk() ==> SlotsOk(s.(reader := s.reader.(inc := inc'), arrived := arrived))
  {
    var inc := s.reader.inc;
    var at := inc.Index(k % SEQ_MODULUS);
    AwaitedNumber(|s.taken|, k);
    SlotForOk(s, k, off, n, arrived);
    var slot' := SlotFor(s, k).Receive(off, s.hist[k].body[off..off + n]);
    var inc' := inc.(ring := inc.ring[at := Some(slot')]);
    var s' := s.(reader := s.reader.(inc := inc'), arrived := arrived);
    if inc'.RingOk() {
      forall i: nat | i < MAX_FLIGHT && inc'.ring[i].Some? ensures SlotOk(s', inc'.ring[i].value) {
        if i != at {
          var other := inc.ring[i].value;
          assert SlotOk(s, other) && inc.Index(other.seqNo) == i;
          OtherTarget(|s.taken|, other.seqNo, k % SEQ_MODULUS);
          OtherSlot(s, s', other, k);
        }
      }
      hide SlotOk, SlotFor, Target;
    }
  }

  /** What the reader's handling of a fragment has to keep. */
  lemma AcceptStep(s: Sys, w: Wire)
    requires HistoryOk(s) && NetOk(s) && SlotsOk(s) && ReaderOk(s) && TakenOk(s) && s.lead <= SEQ_MODULUS
    requires w in s.net && w.record.typ == Handshake && w.keys == s.readKeys && RecordLayer.OnWire(w.record)
    requires !ReplayWindow.ShouldDiscard(s.reader.window, RecordLayer.SequenceOf(w.record))
    requires s.reader.inc.AcceptAll(w.record.payload).Some?
    ensures var next := s.reader.inc.AcceptAll(w.record.payload).value;
            SlotsOk(s.(reader := s.reader.(inc := next), arrived := Arrives(s.arrived, |s.taken|, w)))
  {
    NotStale(s, w);
    assert Traced(s, w);
    var k := w.msg;
    var off: nat, n: nat :| IsFragment(s.hist, w.record.payload, k, off, n);
    hide NetOk, ReaderOk, Traced, Counted, Ordered, ReplayWindow.ShouldDiscard;
    FragmentParses(s.hist, w.record.payload, k, off, n);
    FragmentAccepted(s.hist, s.reader.inc, w.record.payload, k, off, n);
    FragmentStep(s, w, off, n);
  }

  lemma FragmentStep(s: Sys, w: Wire, off: nat, n: nat)
    requires SlotsOk(s) && |s.hist| <= |s.taken| + SEQ_MODULUS && |s.taken| < w.msg + 455 && w.record.typ == Handshake
    requires w.msg < |s.hist| && off + n <= |s.hist[w.msg].body| < 0x100_0000
    requires Carries(w.record.payload) == Range(off, off + n)
    requires var h := HeaderOf(s.hist, w.msg).(fragOff := off, fragLen := n);
             s.reader.inc.Accept(h, s.hist[w.msg].body[off..off + n]).Some?
    ensures var h := HeaderOf(s.hist, w.msg).(fragOff := off, fragLen := n);
            var next := s.reader.inc.Accept(h, s.hist[w.msg].body[off..off + n]).value;
            SlotsOk(s.(reader := s.reader.(inc := next), arrived := Arrives(s.arrived, |s.taken|, w)))
  {
    var k, inc := w.msg, s.reader.inc;
    var h := HeaderOf(s.hist, k).(fragOff := off, fragLen := n);
    var part := s.hist[k].body[off..off + n];
    AcceptRingOk(inc, h, part);
    if inc.OutOfWindow(h) {
      if Awaited(|s.taken|, k) {
        AwaitedNumber(|s.taken|, k);
      }
      assert inc.Accept(h, part) == Some(inc);
      assert s.(reader := s.reader.(inc := inc), arrived := s.arrived) == s;
    } else {
      InWindow(|s.taken|, k);
      var arrived := Arrives(s.arrived, |s.taken|, w);
      PlaceOk(s, k, off, n, arrived);
      assert inc.Accept(h, part)
          == Some(inc.(ring := inc.ring[inc.Index(k % SEQ_MODULUS) := Some(SlotFor(s, k).Receive(off, part))]));
    }
  }

  /** What passes the record layer is in its window afterwards. */
  lemma WindowStep(s: Sys, w: Wire)
    requires ReplayWindow.Tracks(s.reader.window, Seen(s.accepted, s.readKeys))
    requires w.keys == s.readKeys && RecordLayer.OnWire(w.record)
    requires !ReplayWindow.ShouldDiscard(s.reader.window, RecordLayer.SequenceOf(w.record))
    ensures var q := RecordLayer.SequenceOf(w.record);
            && Seen(s.accepted + {w}, s.readKeys) == Seen(s.accepted, s.readKeys) + {q}
            && ReplayWindow.Tracks(ReplayWindow.Record(s.reader.window, q), Seen(s.accepted + {w}, s.readKeys))
  {
    var q := RecordLayer.SequenceOf(w.record);
    hide ReplayWindow.Tracks, ReplayWindow.Record, ReplayWindow.ShouldDiscard, ArrivedOk;
    ReplayWindow.RecordTracks(s.reader.window, Seen(s.accepted, s.readKeys), q);
    assert w in s.accepted + {w};
    assert Seen(s.accepted + {w}, s.readKeys) == Seen(s.accepted, s.readKeys) + {q};
  }

  lemma ArrivedStep(s: Sys, w: Wire, k: nat)
    requires forall j | j in s.arrived :: ArrivedOk(s, j)
    requires k in Arrives(s.arrived, |s.taken|, w)
    ensures ArrivedOk(s.(accepted := s.accepted + {w}), k)
  {
    if k in s.arrived {
      assert ArrivedOk(s, k);
      var x :| x in s.accepted && x.record.typ == Handshake && x.msg == k;
      assert x in s.accepted + {w};
    } else {
      AwaitedNumber(|s.taken|, k);
      assert w in s.accepted + {w};
    }
  }

  /** The reader's own invariants after a record was let through. */
  lemma ReaderStep(s: Sys, w: Wire, s': Sys)
    requires ReaderOk(s) && TakenOk(s) && w in s.net && w.keys == s.readKeys && RecordLayer.OnWire(w.record)
    requires !ReplayWindow.ShouldDiscard(s.reader.window, RecordLayer.SequenceOf(w.record))
    requires s' == s.(reader := s'.reader, accepted := s.accepted + {w}, arrived := s'.arrived)
    requires s'.arrived == Arrives(s.arrived, |s.taken|, w) || s'.arrived == s.arrived
    requires s'.reader.window == ReplayWindow.Record(s.reader.window, RecordLayer.SequenceOf(w.record))
    requires s'.reader.inc.readEpoch == s.reader.inc.readEpoch
    ensures ReaderOk(s') && TakenOk(s')
  {
    WindowStep(s, w);
    forall k | k in s'.arrived ensures ArrivedOk(s', k) {
      if k in Arrives(s.arrived, |s.taken|, w) {
        ArrivedStep(s, w, k);
        assert ArrivedOk(s.(accepted := s.accepted + {w}), k);
      }
    }
    forall i: nat | i < |s.taken| ensures Witnessed(s'.accepted, i) {
      assert Witnessed(s.accepted, i);
      var x :| x in s.accepted && x.record.typ == Handshake && x.msg == i;
      assert x in s'.accepted;
    }
    hide ReplayWindow.Tracks, ReplayWindow.Record, Seen, Arrives, Witnessed, ArrivedOk, Whole;
  }

  /** The invariants look at neither the reader's flags nor its end. */
  lemma Frame(s: Sys, s': Sys)
    requires Safe(s) && s' == s.(dead := s'.dead, reader := s.reader.(hasCcs := s'.reader.hasCcs))
    ensures Safe(s')
  {
    assert forall w | w in s.net :: Counted(s, w) && Traced(s, w) ==> Counted(s', w) && Traced(s', w) by {
      hide FragmentOf;
    }
    hide Counted, Traced, Ordered, MsgOk;
    assert NetOk(s');
    SlotsFrame(s, s');
    ReaderFrame(s, s');
  }

  lemma SlotsFrame(s: Sys, s': Sys)
    requires SlotsOk(s) && s'.reader.inc == s.reader.inc
    requires s'.taken == s.taken && s'.hist == s.hist && s'.arrived == s.arrived
    ensures SlotsOk(s')
  {
    assert forall slot :: SlotOk(s, slot) ==> SlotOk(s', slot);
    hide SlotOk;
  }

  lemma ReaderFrame(s: Sys, s': Sys)
    requires ReaderOk(s) && TakenOk(s) && s'.reader == s.reader.(hasCcs := s'.reader.hasCcs)
    requires s' == s.(dead := s'.dead, reader := s'.reader)
    ensures ReaderOk(s') && TakenOk(s')
  {
    assert forall k | k in s.arrived :: ArrivedOk(s, k) ==> ArrivedOk(s', k);
    hide ArrivedOk, Witnessed, Seen, ReplayWindow.Tracks, Whole;
  }

  /** The sender's invariants do not depend on the reader. */
  lemma SenderFrame(s: Sys, s': Sys)
    requires HistoryOk(s) && OutOk(s) && NetOk(s)
    requires s'.out == s.out && s'.keys == s.keys && s'.net == s.net && s'.hist == s.hist
    ensures HistoryOk(s') && OutOk(s') && NetOk(s')
  {
    assert forall w | w in s.net :: Counted(s, w) && Traced(s, w) ==> Counted(s', w) && Traced(s', w) by {
      hide FragmentOf;
    }
    hide Counted, Traced, Ordered, MsgOk;
  }

  lemma DeliverStep(s: Sys, w: Wire)
    requires Safe(s) && Enabled(s, Deliver(w)) && s.lead <= SEQ_MODULUS
    ensures Safe(Delivered(s, w))
  {
    var authentic := w.keys == s.readKeys;
    var o := RecordLayer.Opening(s.reader, w.record, authentic);
    var s' := Delivered(s, w);
    if o.outcome.Fatal? {
      Frame(s, s');
    } else if RecordLayer.Passes(s.reader, w.record, authentic) {
      Passed(s, w);
    } else {
      assert s'.reader == s.reader by {
        hide ReplayWindow.Record;
      }
      assert s' == s;
    }
  }

  lemma Passed(s: Sys, w: Wire)
    requires Safe(s) && Enabled(s, Deliver(w)) && s.lead <= SEQ_MODULUS
    requires RecordLayer.Passes(s.reader, w.record, w.keys == s.readKeys)
    requires !RecordLayer.Opening(s.reader, w.record, w.keys == s.readKeys).outcome.Fatal?
    ensures Safe(Delivered(s, w))
  {
    var s' := Delivered(s, w);
    var inc := s'.reader.inc;
    PassedReader(s, w);
    hide RecordLayer.Opening, RecordLayer.Passes, ReplayWindow.ShouldDiscard;
    hide HistoryOk, OutOk, NetOk, SlotsOk, ReaderOk, TakenOk;
    SenderFrame(s, s');
    ReaderStep(s, w, s');
    if w.record.typ == Handshake {
      AcceptStep(s, w);
      SlotsFrame(s.(reader := s.reader.(inc := inc), arrived := Arrives(s.arrived, |s.taken|, w)), s');
    } else {
      SlotsFrame(s, s');
    }
  }

  /** What the record layer does with a record that passes. */
  lemma PassedReader(s: Sys, w: Wire)
    requires Enabled(s, Deliver(w)) && RecordLayer.Passes(s.reader, w.record, w.keys == s.readKeys)
    requires !RecordLayer.Opening(s.reader, w.record, w.keys == s.readKeys).outcome.Fatal?
    ensures w.keys == s.readKeys && !ReplayWindow.ShouldDiscard(s.reader.window, RecordLayer.SequenceOf(w.record))
    ensures var s' := Delivered(s, w);
            && s' == s.(reader := s'.reader, accepted := s.accepted + {w}, arrived := Arrives(s.arrived, |s.taken|, w))
            && s'.reader.window == ReplayWindow.Record(s.reader.window, RecordLayer.SequenceOf(w.record))
            && s'.reader.inc.readEpoch == s.reader.inc.readEpoch
            && (if w.record.typ == Handshake then s.reader.inc.AcceptAll(w.record.payload) == Some(s'.reader.inc)
                else s'.reader.inc == s.reader.inc)
  {
    RecordLayer.EpochKept(s.reader, w.record, w.keys == s.readKeys);
    hide ReplayWindow.Record, ReplayWindow.ShouldDiscard;
  }

  // Reading keeps them.

  lemma RawIsWhole(s: Sys, slot: Slot)
    requires SlotOk(s, slot) && slot.Complete() && slot.seqNo == |s.taken| % SEQ_MODULUS
    ensures |s.taken| < |s.hist| && Raw(slot) == Whole(s.hist, |s.taken|)
  {
    assert seq(slot.msgLen, i requires 0 <= i < slot.msgLen => slot.got[i]) == s.hist[|s.taken|].body;
  }

  lemma TargetNext(taken: nat, seqNo: nat)
    requires taken % SEQ_MODULUS < seqNo < SEQ_MODULUS
    ensures Target(taken + 1, seqNo) == Target(taken, seqNo)
  {
    Succeeding(taken);
  }

  /** A message that is newly awaited has not been let through before. */
  lemma AwaitedNext(s: Sys, k: nat)
    requires ArrivedOk(s, k) && Awaited(|s.taken| + 1, k)
    ensures Awaited(|s.taken|, k) && k != |s.taken|
  {
    AwaitedNumber(|s.taken| + 1, k);
    var q, r := |s.taken| / SEQ_MODULUS, |s.taken| % SEQ_MODULUS;
    assert |s.taken| == SEQ_MODULUS * q + r && k / SEQ_MODULUS <= q;
    assert k < SEQ_MODULUS * (q + 1);
  }

  lemma OtherIndex(taken: nat, k: nat)
    requires Awaited(taken, k) && k != taken
    ensures k % SEQ_MODULUS % MAX_FLIGHT != taken % SEQ_MODULUS % MAX_FLIGHT
  {
    AwaitedNumber(taken, k);
  }

  lemma SlotNext(s: Sys, s': Sys, slot: Slot)
    requires SlotOk(s, slot) && |s.taken| % SEQ_MODULUS < slot.seqNo < SEQ_MODULUS && |s'.taken| == |s.taken| + 1
    requires s'.hist == s.hist && s'.arrived == s.arrived
    ensures SlotOk(s', slot)
  {
    TargetNext(|s.taken|, slot.seqNo);
    hide Target;
  }

  /** The ring behind the message that was read: only later messages are left in it. */
  lemma RingNext(inc: Incoming, i: nat)
    requires inc.RingOk() && i < MAX_FLIGHT && inc.Next().ring[i].Some?
    ensures inc.Next().ring[i] == inc.ring[i] && inc.readSeq < inc.ring[i].value.seqNo < SEQ_MODULUS
  {
  }

  /** A message that has begun and is still awaited has its slot. */
  lemma ReadArrived(s: Sys, k: nat)
    requires SlotsOk(s) && ArrivedOk(s, k) && k in s.arrived && Awaited(|s.taken| + 1, k)
    ensures s.reader.inc.Next().ring[k % SEQ_MODULUS % MAX_FLIGHT].Some?
  {
    AwaitedNext(s, k);
    OtherIndex(|s.taken|, k);
    hide ArrivedOk, SlotOk;
  }

  lemma ReadSlot(s: Sys, s': Sys, i: nat)
    requires SlotsOk(s) && |s'.taken| == |s.taken| + 1 && s'.hist == s.hist && s'.arrived == s.arrived
    requires i < MAX_FLIGHT && s.reader.inc.Next().ring[i].Some?
    ensures SlotOk(s', s.reader.inc.Next().ring[i].value)
  {
    RingNext(s.reader.inc, i);
    hide SlotOk;
    SlotNext(s, s', s.reader.inc.ring[i].value);
  }

  lemma ReadSlots(s: Sys, s': Sys)
    requires SlotsOk(s) && ReaderOk(s) && |s'.taken| == |s.taken| + 1
    requires s' == s.(reader := s.reader.(inc := s.reader.inc.Next()), taken := s'.taken)
    ensures SlotsOk(s')
  {
    var inc, inc' := s.reader.inc, s'.reader.inc;
    NextRingOk(inc);
    Succeeding(|s.taken|);
    assert forall k | k in s.arrived :: ArrivedOk(s, k);
    hide ArrivedOk, SlotOk, Awaited, Seen, ReplayWindow.Tracks, Incoming.Next;
    forall i: nat | i < MAX_FLIGHT && inc'.ring[i].Some? ensures SlotOk(s', inc'.ring[i].value) {
      ReadSlot(s, s', i);
    }
    forall k: nat | Awaited(|s'.taken|, k) && k in s'.arrived ensures inc'.ring[k % SEQ_MODULUS % MAX_FLIGHT].Some? {
      ReadArrived(s, k);
    }
  }

  lemma ReadReader(s: Sys, s': Sys)
    requires ReaderOk(s) && TakenOk(s) && |s.taken| < |s.hist| && |s.taken| in s.arrived
    requires |s.reader.inc.ring| == MAX_FLIGHT
    requires s' == s.(reader := s.reader.(inc := s.reader.inc.Next()), taken := s.taken + [Whole(s.hist, |s.taken|)])
    ensures ReaderOk(s') && TakenOk(s')
  {
    assert ArrivedOk(s, |s.taken|);
    forall k | k in s.arrived ensures ArrivedOk(s', k) {
      assert ArrivedOk(s, k);
    }
    hide ArrivedOk, Witnessed, Seen, ReplayWindow.Tracks, Whole;
  }

  lemma ReadStep(s: Sys)
    requires Safe(s) && Enabled(s, Read)
    ensures Safe(Step(s, Read))
  {
    var inc := s.reader.inc;
    var slot := inc.ring[inc.Index(inc.readSeq)].value;
    SameNumber(inc, inc.readSeq);
    assert SlotOk(s, slot);
    RawIsWhole(s, slot);
    var s' := Step(s, Read);
    ReadSlots(s, s');
    hide SlotsOk, ReaderOk, TakenOk, HistoryOk, OutOk, NetOk, Raw, Whole;
    SenderFrame(s, s');
    ReadReader(s, s');
  }

  lemma NewKeys(s: Sys, s': Sys)
    requires SlotsOk(s) && ReaderOk(s) && TakenOk(s)
    requires s' == s.(reader := s'.reader, readKeys := s.readKeys + 1)
    requires s'.reader.inc == s.reader.inc.(readEpoch := (s.reader.inc.readEpoch + 1) % EPOCH_MODULUS)
    requires s'.reader.window == ReplayWindow.EmptyWindow
    ensures SlotsOk(s') && ReaderOk(s') && TakenOk(s')
  {
    KeysNext(s.readKeys);
    assert Seen(s.accepted, s.readKeys + 1) == {};
    ReplayWindow.EmptyTracks();
    assert forall slot :: SlotOk(s, slot) ==> SlotOk(s', slot);
    assert forall k | k in s.arrived :: ArrivedOk(s, k) ==> ArrivedOk(s', k);
    hide SlotOk, ArrivedOk, Witnessed, Seen, ReplayWindow.Tracks, Whole;
  }

  lemma ReadKeysStep(s: Sys, hasMessage: bool)
    requires Safe(s) && Enabled(s, ChangeReadKeys(hasMessage))
    ensures Safe(Step(s, ChangeReadKeys(hasMessage)))
  {
    var s' := Step(s, ChangeReadKeys(hasMessage));
    assert s'.reader.inc == s.reader.inc.(readEpoch := (s.reader.inc.readEpoch + 1) % EPOCH_MODULUS);
    hide HistoryOk, OutOk, NetOk, SlotsOk, ReaderOk, TakenOk;
    SenderFrame(s, s');
    NewKeys(s, s');
  }

  // Runs.

  lemma SafeStep(s: Sys, e: Event)
    requires Safe(s) && Enabled(s, e) && s.lead <= SEQ_MODULUS
    ensures Safe(Step(s, e)) && Step(s, e).lead == s.lead
  {
    hide Safe;
    match e {
      case Send(typ, body) => SendStep(s, typ, body);
      case SendCcs => CcsStep(s);
      case SendData(data) => DataStep(s, data);
      case FlushFlight(_, _) => FlightStep(s, e);
      case Resend(_, _) => FlightStep(s, e);
      case ChangeWriteKeys(aead) => WriteKeysStep(s, aead);
      case ChangeReadKeys(hasMessage) => ReadKeysStep(s, hasMessage);
      case Deliver(w) => DeliverStep(s, w);
      case Read => ReadStep(s);
      case TakeCcs => Frame(s, Step(s, e));
    }
  }

  lemma StartSafe(aead: Aead, maxLen: nat, lead: nat)
    requires aead.Ok()
    ensures Safe(Start(aead, maxLen, lead))
  {
    ReplayWindow.EmptyTracks();
    assert Seen({}, 0) == {};
  }

  lemma {:induction false} SafeRun(aead: Aead, maxLen: nat, lead: nat, run: seq<Event>)
    requires aead.Ok() && Possible(Start(aead, maxLen, lead), run) && lead <= SEQ_MODULUS
    ensures Safe(After(Start(aead, maxLen, lead), run)) && After(Start(aead, maxLen, lead), run).lead == lead
  {
    hide Safe, Enabled, Step;
    if run == [] {
      StartSafe(aead, maxLen, lead);
    } else {
      SafeRun(aead, maxLen, lead, run[..|run| - 1]);
      SafeStep(After(Start(aead, maxLen, lead), run[..|run| - 1]), run[|run| - 1]);
    }
  }

  /** The replay window knows what was let through under the current keys, however far ahead the sender is. */
  ghost predicate Windowed(s: Sys) {
    && (forall w | w in s.accepted :: w.keys <= s.readKeys && RecordLayer.OnWire(w.record))
    && ReplayWindow.Tracks(s.reader.window, Seen(s.accepted, s.readKeys))
  }

  lemma WindowedDeliver(s: Sys, w: Wire)
    requires Windowed(s) && Enabled(s, Deliver(w))
    ensures Windowed(Delivered(s, w))
  {
    var authentic := w.keys == s.readKeys;
    var o := RecordLayer.Opening(s.reader, w.record, authentic);
    if !o.outcome.Fatal? && RecordLayer.Passes(s.reader, w.record, authentic) {
      PassedReader(s, w);
      WindowStep(s, w);
    } else {
      RecordLayer.EpochKept(s.reader, w.record, authentic);
    }
    hide ReplayWindow.Tracks, ReplayWindow.Record, RecordLayer.Opening, RecordLayer.Passes, Seen;
  }

  lemma WindowedStep(s: Sys, e: Event)
    requires Windowed(s) && Enabled(s, e)
    ensures Windowed(Step(s, e))
  {
    match e {
      case Deliver(w) => WindowedDeliver(s, w);
      case ChangeReadKeys(_) =>
        ReplayWindow.EmptyTracks();
        assert Seen(s.accepted, s.readKeys + 1) == {};
      case Send(_, _) => hide ReplayWindow.Tracks, Seen;
      case SendCcs => hide ReplayWindow.Tracks, Seen;
      case SendData(_) => hide ReplayWindow.Tracks, Seen;
      case FlushFlight(_, _) => hide ReplayWindow.Tracks, Seen;
      case Resend(_, _) => hide ReplayWindow.Tracks, Seen;
      case ChangeWriteKeys(_) => hide ReplayWindow.Tracks, Seen;
      case Read => hide ReplayWindow.Tracks, Seen;
      case TakeCcs => hide ReplayWindow.Tracks, Seen;
    }
  }

  lemma {:induction false} WindowedRun(aead: Aead, maxLen: nat, lead: nat, run: seq<Event>)
    requires Possible(Start(aead, maxLen, lead), run)
    ensures Windowed(After(Start(aead, maxLen, lead), run))
  {
    hide Enabled, Step;
    if run == [] {
      ReplayWindow.EmptyTracks();
      assert Seen({}, 0) == {};
    } else {
      WindowedRun(aead, maxLen, lead, run[..|run| - 1]);
      hide Windowed;
      WindowedStep(After(Start(aead, maxLen, lead), run[..|run| - 1]), run[|run| - 1]);
    }
  }

  /** A record that was let through once is never let through again, in any run, however often the keys have changed: it
      opens under its own keys only, and while those are in use the window knows it. */
  lemma LetThroughOnce(aead: Aead, maxLen: nat, lead: nat, run: seq<Event>, w: Wire)
    requires Possible(Start(aead, maxLen, lead), run)
    ensures var s := After(Start(aead, maxLen, lead), run);
            w in s.accepted ==>
              RecordLayer.OnWire(w.record) && !RecordLayer.Passes(s.reader, w.record, w.keys == s.readKeys)
  {
    var s := After(Start(aead, maxLen, lead), run);
    WindowedRun(aead, maxLen, lead, run);
    if w in s.accepted && w.keys == s.readKeys {
      assert RecordLayer.SequenceOf(w.record) in Seen(s.accepted, s.readKeys);
    }
  }

  /** What the receiver has read is what the sender was given, from the first message on. */
  ghost predicate InOrder(s: Sys) {
    |s.taken| <= |s.hist| && forall i: nat | i < |s.taken| :: s.taken[i] == Whole(s.hist, i)
  }

  /** Every run in which the sender is never more than so many messages ahead reads them in order. */
  ghost predicate AlwaysInOrder(lead: nat) {
    forall aead: Aead, maxLen: nat, run | aead.Ok() && Possible(Start(aead, maxLen, lead), run) ::
      InOrder(After(Start(aead, maxLen, lead), run))
  }

  /** However long the run and whatever the network does, each message is read whole, once and in order, as long as the
      sender stays within the range of the 16-bit numbers. */
  lemma StaysInOrder(lead: nat)
    requires lead <= SEQ_MODULUS
    ensures AlwaysInOrder(lead)
  {
    forall aead: Aead, maxLen: nat, run | aead.Ok() && Possible(Start(aead, maxLen, lead), run)
      ensures InOrder(After(Start(aead, maxLen, lead), run))
    {
      SafeRun(aead, maxLen, lead, run);
    }
  }

  lemma RunExtends(start: Sys, run: seq<Event>, e: Event)
    requires Possible(start, run) && Enabled(After(start, run), e)
    ensures Possible(start, run + [e]) && After(start, run + [e]) == Step(After(start, run), e)
  {
    hide Enabled, Step;
    assert (run + [e])[..|run|] == run;
  }
}
