/** What the fragments on the wire add up to, and what a failure while sealing does to the flight's cursor. */
module Tiling {
  import opened Bytes
  import opened DtlsWire
  import opened FlightSpec
  import opened RecordNumbers

  /** The body bytes that records carry for the message with a given number, in the order of the records. */
  function Carried(records: seq<Record>, seqNo: nat): seq<byte> {
    Flatten(Parts(records, seqNo))
  }

  function Parts(records: seq<Record>, seqNo: nat): seq<seq<byte>> {
    seq(|records|, i requires 0 <= i < |records| => CarriedBy(records[i], seqNo))
  }

  lemma CarriedFirst(a: seq<Record>, seqNo: nat)
    requires a != []
    ensures Carried(a, seqNo) == CarriedBy(a[0], seqNo) + Carried(a[1..], seqNo)
  {
    assert Parts(a, seqNo)[1..] == Parts(a[1..], seqNo);
  }

  function CarriedBy(r: Record, seqNo: nat): seq<byte> {
    var p := ParseFragment(r.payload);
    if r.typ == Handshake && p.Some? && p.value.header.seqNo == seqNo then p.value.body else []
  }

  function NumberOf(m: OutMsg): Option<nat> {
    if m.isCcs || ParseFragment(m.data).None? then None else Some(ParseFragment(m.data).value.header.seqNo)
  }

  function BodyOf(m: OutMsg): seq<byte> {
    if NumberOf(m).None? then [] else ParseFragment(m.data).value.body
  }

  ghost predicate DistinctNumbers(msgs: seq<OutMsg>) {
    forall i, j | 0 <= i < j < |msgs| && NumberOf(msgs[i]).Some? :: NumberOf(msgs[i]) != NumberOf(msgs[j])
  }

  /** The part of message j's body between two cursors. */
  function Between(msgs: seq<OutMsg>, j: nat, w: nat, o: nat, w': nat, o': nat): Option<seq<byte>>
    requires j < |msgs|
  {
    var body := BodyOf(msgs[j]);
    var from := if w < j then 0 else if w == j then o else |body|;
    var to := if w' < j then 0 else if w' == j then o' else |body|;
    if from <= to <= |body| then Some(body[from..to]) else None
  }

  /** The records a walk takes are fragments of the message at the cursor. */
  lemma AdvanceParses(msgs: seq<OutMsg>, w: nat, o: nat, r: Record)
    requires Advance(msgs, w, o, r).Some? && !msgs[w].isCcs
    ensures NumberOf(msgs[w]).Some? && |r.payload| >= HM_HEADER_LENGTH
    ensures var n := |r.payload| - HM_HEADER_LENGTH;
            && o + n <= |BodyOf(msgs[w])|
            && CarriedBy(r, NumberOf(msgs[w]).value) == BodyOf(msgs[w])[o..o + n]
            && (forall k: nat | Some(k) != NumberOf(msgs[w]) :: CarriedBy(r, k) == [])
  {
    var p := ParseFragment(msgs[w].data).value;
    PutParse(msgs[w].data);
    FragmentParses(p.header, p.body, o, |r.payload| - HM_HEADER_LENGTH);
  }

  lemma AdvanceCarries(msgs: seq<OutMsg>, w: nat, o: nat, r: Record, j: nat)
    requires Advance(msgs, w, o, r).Some? && j < |msgs| && NumberOf(msgs[j]).Some? && DistinctNumbers(msgs)
    ensures var next := Advance(msgs, w, o, r).value;
            Between(msgs, j, w, o, next.0, next.1) == Some(CarriedBy(r, NumberOf(msgs[j]).value))
  {
    var body := BodyOf(msgs[j]);
    assert body[|body|..|body|] == [] && body[0..0] == [];
    if !msgs[w].isCcs {
      AdvanceParses(msgs, w, o, r);
      assert w != j ==> NumberOf(msgs[w]) != NumberOf(msgs[j]);
    }
  }

  lemma FragmentParses(h: Header, body: seq<byte>, off: nat, n: nat)
    requires h.Fits() && |body| == h.fragLen && off + n <= |body|
    ensures ParseFragment(FragmentBytes(h, body, off, n))
         == Some(Parsed(Header(h.typ, h.msgLen, h.seqNo, off, n), body[off..off + n], []))
  {
    var g := Header(h.typ, h.msgLen, h.seqNo, off, n);
    ParsePut(g, body[off..off + n], []);
    assert FragmentBytes(h, body, off, n) == PutHeader(g) + body[off..off + n] + [];
  }

  lemma Slices(s: seq<byte>, a: nat, b: nat, c: nat)
    requires a <= b <= c <= |s|
    ensures s[a..b] + s[b..c] == s[a..c]
  {
  }

  lemma BetweenJoins(msgs: seq<OutMsg>, j: nat, w: nat, o: nat, m: (nat, nat), e: (nat, nat))
    requires j < |msgs| && Between(msgs, j, w, o, m.0, m.1).Some? && Between(msgs, j, m.0, m.1, e.0, e.1).Some?
    ensures Between(msgs, j, w, o, e.0, e.1)
         == Some(Between(msgs, j, w, o, m.0, m.1).value + Between(msgs, j, m.0, m.1, e.0, e.1).value)
  {
    var body := BodyOf(msgs[j]);
    var from := if w < j then 0 else if w == j then o else |body|;
    var mid := if m.0 < j then 0 else if m.0 == j then m.1 else |body|;
    var to := if e.0 < j then 0 else if e.0 == j then e.1 else |body|;
    Slices(body, from, mid, to);
  }

  /** Fragments tile: between any two cursors of a walk, the records carry exactly the bytes of each
      message's body that lie between them, in order. */
  lemma {:induction false} WalkTiles(msgs: seq<OutMsg>, w: nat, o: nat, records: seq<Record>, j: nat)
    requires Walk(msgs, w, o, records).Some? && j < |msgs| && NumberOf(msgs[j]).Some? && DistinctNumbers(msgs)
    requires w == j ==> o <= |BodyOf(msgs[j])|
    ensures var e := Walk(msgs, w, o, records).value;
            Between(msgs, j, w, o, e.0, e.1) == Some(Carried(records, NumberOf(msgs[j]).value))
    decreases |records|
  {
    if records == [] {
      var body := BodyOf(msgs[j]);
      assert body[|body|..|body|] == [] && body[..0] == [] && (w == j ==> body[o..o] == []);
    } else {
      var next := Advance(msgs, w, o, records[0]).value;
      AdvanceCarries(msgs, w, o, records[0], j);
      WalkTiles(msgs, next.0, next.1, records[1..], j);
      CarriedFirst(records, NumberOf(msgs[j]).value);
      BetweenJoins(msgs, j, w, o, next, Walk(msgs, w, o, records).value);
    }
  }

  /** Flushing a flight from its start, over any number of calls that were blocked and resumed, carries
      every message's body exactly once. */
  lemma {:induction false} FlushesTile(s: Outgoing, mtus: seq<nat>, bios: seq<seq<int>>, j: nat)
    requires s.Ok() && |mtus| == |bios| && j < |s.msgs| && NumberOf(s.msgs[j]).Some? && DistinctNumbers(s.msgs)
    requires s.written == j ==> s.offset <= |BodyOf(s.msgs[j])|
    requires NoneFails(s, mtus, bios)
    ensures var last := Flushes(s, mtus, bios);
            Between(s.msgs, j, s.written, s.offset, last.state.written, last.state.offset)
            == Some(Carried(Flatten(last.packets), NumberOf(s.msgs[j]).value))
    decreases |mtus|
  {
    if mtus == [] {
      var body := BodyOf(s.msgs[j]);
      assert body[|body|..|body|] == [] && body[0..0] == [] && (s.written == j ==> body[s.offset..s.offset] == []);
    } else {
      SendOk(s.(complete := true), mtus[0], bios[0]);
      var first := Flush(s, mtus[0], bios[0]);
      var rest := Flushes(first.state, mtus[1..], bios[1..]);
      SendWalks(s.(complete := true), mtus[0], bios[0]);
      WalkTiles(s.msgs, s.written, s.offset, Flatten(first.packets), j);
      FlushesTile(first.state, mtus[1..], bios[1..], j);
      BetweenJoins(s.msgs, j, s.written, s.offset, (first.state.written, first.state.offset),
                   (rest.state.written, rest.state.offset));
      FlattenAppend(first.packets, rest.packets);
      CarriedAppend(Flatten(first.packets), Flatten(rest.packets), NumberOf(s.msgs[j]).value);
    }
  }

  datatype Total = Total(state: Outgoing, packets: seq<seq<Record>>)

  /** dtls1_flush_flight called again and again, each time with its own MTU and transport results. */
  function Flushes(s: Outgoing, mtus: seq<nat>, bios: seq<seq<int>>): Total
    requires s.Ok() && |mtus| == |bios|
    decreases |mtus|
  {
    if mtus == [] then Total(s, [])
    else
      SendOk(s.(complete := true), mtus[0], bios[0]);
      var first := Flush(s, mtus[0], bios[0]);
      var rest := Flushes(first.state, mtus[1..], bios[1..]);
      Total(rest.state, first.packets + rest.packets)
  }

  ghost predicate NoneFails(s: Outgoing, mtus: seq<nat>, bios: seq<seq<int>>)
    requires s.Ok() && |mtus| == |bios|
    decreases |mtus|
  {
    mtus == [] ||
    (SendOk(s.(complete := true), mtus[0], bios[0]);
     var first := Flush(s, mtus[0], bios[0]);
     !first.result.Failed? && NoneFails(first.state, mtus[1..], bios[1..]))
  }

  lemma {:induction false} SendOk(s: Outgoing, mtu: nat, bio: seq<int>)
    requires s.Ok()
    ensures SendFlight(s, mtu, bio).state.Ok()
    decreases |s.msgs| - s.written, s.Left()
  {
    if s.written < |s.msgs| {
      var p := SealPacket(s, mtu, false);
      if p.records.Some? && Answer(bio) > 0 {
        SendOk(p.state, mtu, bio[1..]);
      }
    }
  }

  lemma Assoc<T>(a: seq<T>, b: seq<T>, c: seq<T>)
    ensures (a + b) + c == a + (b + c)
  {
  }

  lemma {:induction false} FlattenAppend<T>(a: seq<seq<T>>, b: seq<seq<T>>)
    ensures Flatten(a + b) == Flatten(a) + Flatten(b)
  {
    if a == [] {
      assert a + b == b;
    } else {
      FlattenAppend(a[1..], b);
      assert (a + b)[1..] == a[1..] + b;
      Assoc(a[0], Flatten(a[1..]), Flatten(b));
    }
  }

  lemma CarriedAppend(a: seq<Record>, b: seq<Record>, seqNo: nat)
    ensures Carried(a + b, seqNo) == Carried(a, seqNo) + Carried(b, seqNo)
  {
    hide CarriedBy, Flatten;
    assert Parts(a + b, seqNo) == Parts(a, seqNo) + Parts(b, seqNo);
    FlattenAppend(Parts(a, seqNo), Parts(b, seqNo));
  }

  // When sealing fails.

  /** The state in which the last packet of a call was begun. */
  function LastPacketStart(s: Outgoing, mtu: nat, bio: seq<int>): Outgoing
    requires s.Ok()
    decreases |s.msgs| - s.written, s.Left()
  {
    if s.written == |s.msgs| then s
    else
      var p := SealPacket(s, mtu, false);
      if p.records.None? || Answer(bio) <= 0 then s else LastPacketStart(p.state, mtu, bio[1..])
  }

  lemma FailedPacket(s: Outgoing, mtu: nat)
    requires s.Ok() && s.written < |s.msgs| && SealPacket(s, mtu, false).records.None?
    ensures var p := SealPacket(s, mtu, false);
            (p.state.written == s.written && p.state.offset == s.offset) <==> !SealNextMessage(s, mtu).result.Progress?
  {
  }

  /** Whether the message at the cursor can be sealed: its keys are there, their counter is not at its last number, the
      AEAD does not fail, and the next bytes fit the room and the record's length field. */
  ghost predicate Sealable(s: Outgoing, mtu: nat)
    requires s.written < |s.msgs|
  {
    var m := s.msgs[s.written];
    var previous := m.epoch + 1 == s.writer.epoch;
    var aead := if previous then s.lastAead else s.aead;
    var overhead, prefix := RT_HEADER_LENGTH + aead.maxOverhead, RT_HEADER_LENGTH + aead.nonceLen;
    && (previous || m.epoch == s.writer.epoch)
    && s.writer.Number(previous) + 1 != NUM_MODULUS
    && if m.isCcs then 1 + overhead <= mtu && Seals(aead, s.writer.Number(previous), 1)
       else
         && WholeMessage(m) && s.offset <= |BodyOf(m)|
         && HM_HEADER_LENGTH + 1 + overhead <= mtu && prefix <= mtu
         && var n := HM_HEADER_LENGTH + Least(|BodyOf(m)| - s.offset, mtu - HM_HEADER_LENGTH - overhead);
            Seals(aead, s.writer.Number(previous), n)
  }

  /** The AEAD seals n bytes, and the record's length field has room for what comes of it. */
  predicate Seals(aead: Aead, number: nat, n: nat) {
    aead.cost(number, n).Some? && n + aead.cost(number, n).value < 0x1_0000
  }

  function Least(a: nat, b: nat): nat {
    if a > b then b else a
  }

  /** The message is one fragment that is all of it. */
  predicate WholeMessage(m: OutMsg) {
    var p := ParseFragment(m.data);
    p.Some? && p.value.header.fragOff == 0 && p.value.header.msgLen == |p.value.body| && p.value.rest == []
  }

  lemma SealableIff(s: Outgoing, mtu: nat)
    requires s.Ok() && s.written < |s.msgs|
    ensures SealNextMessage(s, mtu).result.Progress? <==> Sealable(s, mtu)
  {
    hide ParseFragment;
  }

  /** After a failure the transport has everything up to where the failed packet began. The cursor still stands there
      exactly when the first record of that packet could not be sealed; otherwise it has moved past messages that were
      sealed but never written. */
  lemma {:induction false} FailedCursor(s: Outgoing, mtu: nat, bio: seq<int>)
    requires s.Ok() && SendFlight(s, mtu, bio).result.Failed?
    ensures var r := SendFlight(s, mtu, bio);
            var f := LastPacketStart(s, mtu, bio);
            && r.state.msgs == f.msgs == s.msgs && r.state.Ok() && f.Ok() && f.written < |f.msgs|
            && Walk(s.msgs, s.written, s.offset, Flatten(r.packets)) == Some((f.written, f.offset))
            && ((r.state.written == f.written && r.state.offset == f.offset) <==> !Sealable(f, mtu))
    decreases |s.msgs| - s.written, s.Left()
  {
    hide Sealable, SealNextMessage;
    var p := SealPacket(s, mtu, false);
    if p.records.None? {
      SealableIff(s, mtu);
      FailedPacket(s, mtu);
    } else {
      PacketWalks(s, mtu, false);
      FailedCursor(p.state, mtu, bio[1..]);
      var rest := SendFlight(p.state, mtu, bio[1..]);
      WalkAppend(s.msgs, s.written, s.offset, p.records.value, Flatten(rest.packets));
      assert ([p.records.value] + rest.packets)[1..] == rest.packets;
    }
  }

  /** What the cursor has moved past is lost to later flushes: of a message behind the cursor, all that the failed call
      and any flushes after it carry is what the failed call had carried before its last packet. */
  lemma SkippedIsLost(s: Outgoing, mtu: nat, bio: seq<int>, mtus: seq<nat>, bios: seq<seq<int>>, j: nat)
    requires s.Ok() && SendFlight(s, mtu, bio).result.Failed? && DistinctNumbers(s.msgs)
    requires j < |s.msgs| && s.written <= j < SendFlight(s, mtu, bio).state.written && NumberOf(s.msgs[j]).Some?
    requires s.written == j ==> s.offset <= |BodyOf(s.msgs[j])|
    requires SendFlight(s, mtu, bio).state.Ok() && |mtus| == |bios|
    requires NoneFails(SendFlight(s, mtu, bio).state, mtus, bios)
    ensures var r := SendFlight(s, mtu, bio);
            var f := LastPacketStart(s, mtu, bio);
            Some(Carried(Flatten(r.packets + Flushes(r.state, mtus, bios).packets), NumberOf(s.msgs[j]).value))
            == Between(s.msgs, j, s.written, s.offset, f.written, f.offset)
  {
    var r := SendFlight(s, mtu, bio);
    var seqNo := NumberOf(s.msgs[j]).value;
    FailedCursor(s, mtu, bio);
    hide SendFlight, LastPacketStart, NoneFails, Flushes, Walk, Sealable, NumberOf, BodyOf, Carried, Between;
    WalkTiles(s.msgs, s.written, s.offset, Flatten(r.packets), j);
    LaterNothing(r.state, mtus, bios, j);
    var later := Flushes(r.state, mtus, bios).packets;
    FlattenAppend(r.packets, later);
    CarriedAppend(Flatten(r.packets), Flatten(later), seqNo);
    assert Carried(Flatten(r.packets), seqNo) + [] == Carried(Flatten(r.packets), seqNo);
  }

  lemma LaterNothing(s: Outgoing, mtus: seq<nat>, bios: seq<seq<int>>, j: nat)
    requires s.Ok() && |mtus| == |bios| && NoneFails(s, mtus, bios) && DistinctNumbers(s.msgs)
    requires j < |s.msgs| && j < s.written && NumberOf(s.msgs[j]).Some?
    ensures Carried(Flatten(Flushes(s, mtus, bios).packets), NumberOf(s.msgs[j]).value) == []
  {
    hide NoneFails, Flushes, NumberOf, BodyOf, Carried, Between;
    var last := Flushes(s, mtus, bios);
    FlushesTile(s, mtus, bios, j);
    NothingBetween(s.msgs, j, s.written, s.offset, last.state.written, last.state.offset);
  }

  lemma NothingBetween(msgs: seq<OutMsg>, j: nat, w: nat, o: nat, w': nat, o': nat)
    requires j < |msgs| && j < w && Between(msgs, j, w, o, w', o').Some?
    ensures Between(msgs, j, w, o, w', o').value == []
  {
  }

  // A flight that loses a message: two short messages in one packet, when the counter has two numbers left.

  function Short(seqNo: nat): OutMsg {
    OutMsg(PutHeader(WholeHeader(20, seqNo, 1)) + [7], 0, false)
  }

  function NearlyWrapped(): Outgoing {
    var plain := Aead(0, 0, (_, _) => Some(0));
    Outgoing([Short(0), Short(1)], 0, 0, false, 2, Writer(0, NUM_MODULUS - 2, 0), plain, plain)
  }

  lemma ShortParses(seqNo: nat)
    requires seqNo < SEQ_MODULUS
    ensures ParseFragment(Short(seqNo).data) == Some(Parsed(WholeHeader(20, seqNo, 1), [7], []))
    ensures FragmentBytes(WholeHeader(20, seqNo, 1), [7], 0, 1) == Short(seqNo).data
    ensures |Short(seqNo).data| == 13
  {
    ParsePut(WholeHeader(20, seqNo, 1), [7], []);
    assert Short(seqNo).data + [] == Short(seqNo).data;
    assert [7][0..1] == [7];
  }

  lemma ShortSeals(s: Outgoing, mtu: nat)
    requires s.Ok() && s.written < |s.msgs| && s.offset == 0 && s.writer.epoch == 0 && s.aead == NearlyWrapped().aead
    requires mtu >= 26 && s.written < 2 && s.msgs[s.written] == Short(s.written)
    ensures SealNextMessage(s, mtu) ==
            if s.writer.cur + 1 == NUM_MODULUS then Sealed(s.(writer := s.writer.Bump(false)), SealError)
            else Sealed(s.(writer := s.writer.Bump(false)),
                        Progress(Record(Handshake, 0, s.writer.cur, Short(s.written).data), 26, true))
  {
    ShortParses(s.written);
  }

  /** The first flush fails and puts nothing on the wire; the second succeeds, and still message 0 is not sent. */
  lemma MessageSkipped()
    ensures var s := NearlyWrapped();
            var first := Flush(s, 100, [1, 1]);
            && s.Ok() && NumberOf(s.msgs[0]) == Some(0) && BodyOf(s.msgs[0]) == [7]
            && first.result.Failed? && first.packets == [] && first.state.Ok()
            && var second := Flush(first.state, 100, [1, 1]);
               && second.result.Flushed? && Carried(Flatten(second.packets), 0) == []
               && Carried(Flatten(second.packets), 1) == [7]
  {
    var s := NearlyWrapped();
    var skipped := s.(complete := true, written := 1, writer := Writer(0, 0, 0));
    ShortParses(0);
    FirstFlush(s.(complete := true));
    SecondFlush(skipped);
    hide SendFlight, ParseFragment, PutHeader;
  }

  lemma FailedSeal(s: Outgoing, maxOut: nat, progress: bool)
    requires s.Ok() && s.written < |s.msgs| && SealNextMessage(s, maxOut).result.SealError?
    ensures SealPacket(s, maxOut, progress) == Packet(SealNextMessage(s, maxOut).state, None, 0)
  {
    hide SealNextMessage;
  }

  lemma WholeSeal(s: Outgoing, maxOut: nat, progress: bool, r: Sealed)
    requires s.Ok() && s.written < |s.msgs| && SealNextMessage(s, maxOut) == r
    requires r.result.Progress? && r.result.whole
    ensures var rest := SealPacket(r.state.(written := s.written + 1), maxOut - r.result.wireLen, true);
            SealPacket(s, maxOut, progress)
            == if rest.records.None? then rest
               else Packet(rest.state, Some([r.result.record] + rest.records.value), r.result.wireLen + rest.wireLen)
  {
    hide SealNextMessage;
  }

  lemma FirstFlush(s: Outgoing)
    requires s == NearlyWrapped().(complete := true) && s.Ok()
    ensures SendFlight(s, 100, [1, 1]) == Sent(s.(written := 1, writer := Writer(0, 0, 0)), [], Failed)
  {
    hide SealNextMessage, SealPacket, Short, ParseFragment, PutHeader, FragmentBytes, UsePrevious;
    ShortSeals(s, 100);
    WholeSeal(s, 100, false, SealNextMessage(s, 100));
    var s1 := s.(written := 1, writer := Writer(0, NUM_MODULUS - 1, 0));
    ShortSeals(s1, 74);
    FailedSeal(s1, 74, true);
  }

  lemma SecondFlush(s: Outgoing)
    requires s == NearlyWrapped().(complete := true, written := 1, writer := Writer(0, 0, 0)) && s.Ok()
    ensures var second := Flush(s, 100, [1, 1]);
            && second.result.Flushed? && Carried(Flatten(second.packets), 0) == []
            && Carried(Flatten(second.packets), 1) == [7]
  {
    var r := Record(Handshake, 0, 0, Short(1).data);
    SecondSend(s, r);
    ShortParses(1);
    hide SendFlight, ParseFragment, PutHeader;
    assert Flatten([[r]]) == [r] + Flatten([]) == [r];
    CarriedFirst([r], 0);
    CarriedFirst([r], 1);
    assert [r][1..] == [] && Parts([], 0) == [] && Parts([], 1) == [];
  }

  lemma SecondSend(s: Outgoing, r: Record)
    requires s == NearlyWrapped().(complete := true, written := 1, writer := Writer(0, 0, 0)) && s.Ok()
    requires r == Record(Handshake, 0, 0, Short(1).data)
    ensures SendFlight(s, 100, [1, 1]).result.Flushed? && SendFlight(s, 100, [1, 1]).packets == [[r]]
  {
    hide SealNextMessage, SealPacket, Short;
    ShortSeals(s, 100);
    WholeSeal(s, 100, false, SealNextMessage(s, 100));
    var end := s.(written := 2, writer := Writer(0, 1, 0));
    EndPacket(end, 74);
    assert [r] + [] == [r] && [1, 1][1..] == [1];
    assert SendFlight(end, 100, [1]) == Sent(end, [], Flushed);
  }

  lemma EndPacket(s: Outgoing, maxOut: nat)
    requires s.Ok() && s.written == |s.msgs|
    ensures SealPacket(s, maxOut, true) == Packet(s, Some([]), 0)
  {
  }
}
