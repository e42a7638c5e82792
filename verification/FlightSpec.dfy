/** The sending half of the DTLS handshake transport as functions on values (d1_both.cc). */
module FlightSpec {
  import opened Bytes
  import opened DtlsWire
  import opened RecordNumbers

  const RT_HEADER_LENGTH := 13

  datatype ContentType = ChangeCipherSpec | Handshake | ApplicationData

  const CCS_BODY: seq<byte> := [1]

  /** A record that has been opened, or is about to be: its plaintext with the epoch and number it carries. */
  datatype Record = Record(typ: ContentType, epoch: nat, number: nat, payload: seq<byte>)

  /** The lengths of an AEAD: its explicit nonce, its MaxOverhead, and what sealing a record with a given number and so
      many bytes really adds, unless it fails. */
  datatype Aead = Aead(nonceLen: nat, maxOverhead: nat, cost: (nat, nat) -> Option<nat>)
  {
    ghost predicate Ok() {
      && nonceLen <= maxOverhead
      && forall number: nat, n: nat | cost(number, n).Some? :: cost(number, n).value <= maxOverhead
    }
  }

  /** DTLS_OUTGOING_MESSAGE. */
  datatype OutMsg = OutMsg(data: seq<byte>, epoch: nat, isCcs: bool)

  /** The send fields of DTLS1_STATE, with the record numbers and the two write ciphers. */
  datatype Outgoing = Outgoing(msgs: seq<OutMsg>, written: nat, offset: nat, complete: bool, writeSeq: nat,
                               writer: Writer, aead: Aead, lastAead: Aead)
  {
    /** The cursor stands in the flight, and inside a message only if that is not a ChangeCipherSpec;
        MaxOverhead bounds what both ciphers add. */
    ghost predicate Ok() {
      && written <= |msgs|
      && (offset > 0 ==> written < |msgs| && !msgs[written].isCcs)
      && aead.Ok() && lastAead.Ok()
    }

    /** Bytes of the next message that have not been written; with messages left, the measure of a flight. */
    function Left(): nat {
      if written < |msgs| && offset < |msgs[written].data| then |msgs[written].data| - offset else 0
    }
  }

  datatype SealResult = SealError | NoProgress | Progress(record: Record, wireLen: nat, whole: bool)

  datatype Sealed = Sealed(state: Outgoing, result: SealResult)

  /** Which epoch's keys a message needs; None if they are gone. */
  function UsePrevious(s: Outgoing, msg: OutMsg): (r: Option<bool>)
    ensures r == Some(true) ==> s.writer.epoch >= 1
  {
    if s.writer.epoch >= 1 && msg.epoch == s.writer.epoch - 1 then Some(true)
    else if msg.epoch != s.writer.epoch then None
    else Some(false)
  }

  /** dtls_seal_record: fails when the AEAD does; and when the record number wraps or the ciphertext's length needs 17
      bits, but has used up the number by then. */
  function SealRecord(s: Outgoing, typ: ContentType, payload: seq<byte>, previous: bool, whole: bool): (r: Sealed)
    requires previous ==> s.writer.epoch >= 1
    ensures r.result.Progress? && s.Ok() ==>
              r.result.wireLen <= RT_HEADER_LENGTH + |payload| + (if previous then s.lastAead else s.aead).maxOverhead
  {
    var aead := if previous then s.lastAead else s.aead;
    var cost := aead.cost(s.writer.Number(previous), |payload|);
    if cost.None? then Sealed(s, SealError)
    else
      var len := |payload| + cost.value;
      var s' := s.(writer := s.writer.Bump(previous));
      if s.writer.Wraps(previous) || len >= 0x1_0000 then Sealed(s', SealError)
      else
        Sealed(s', Progress(Record(typ, s.writer.SealEpoch(previous), s.writer.Number(previous), payload),
                            RT_HEADER_LENGTH + len, whole))
  }

  /** The fragment of a message that carries n body bytes from off. */
  function FragmentBytes(h: Header, body: seq<byte>, off: nat, n: nat): seq<byte>
    requires off + n <= |body|
  {
    PutHeader(Header(h.typ, h.msgLen, h.seqNo, off, n)) + body[off..off + n]
  }

  /** What sealing the next message can leave: only the record number and the cursor move. */
  ghost predicate SealOk(s: Outgoing, maxOut: nat, r: Sealed)
    requires s.written < |s.msgs|
  {
    && r.state == s.(writer := r.state.writer, offset := r.state.offset)
    && r.state.Ok()
    && (r.result.NoProgress? ==> r.state == s)
    && (r.result.Progress? ==>
          && r.result.wireLen <= maxOut
          && if r.result.whole then r.state.offset == 0
             else s.offset < r.state.offset < |s.msgs[s.written].data|)
  }

  /** seal_next_message. */
  function SealNextMessage(s: Outgoing, maxOut: nat): (r: Sealed)
    requires s.written < |s.msgs| && s.Ok()
    ensures SealOk(s, maxOut, r)
  {
    var msg := s.msgs[s.written];
    var use := UsePrevious(s, msg);
    if use.None? then Sealed(s, SealError)
    else
      var aead := if use.value then s.lastAead else s.aead;
      var overhead, prefix := RT_HEADER_LENGTH + aead.maxOverhead, RT_HEADER_LENGTH + aead.nonceLen;
      if msg.isCcs then
        if maxOut < 1 + overhead then Sealed(s, NoProgress)
        else
          SealRecord(s, ChangeCipherSpec, CCS_BODY, use.value, true)
      else
        var p := ParseFragment(msg.data);
        if p.None? || p.value.header.fragOff != 0 || p.value.header.msgLen != |p.value.body|
           || s.offset > |p.value.body| || p.value.rest != []
        then Sealed(s, SealError)
        else if maxOut < HM_HEADER_LENGTH + 1 + overhead || maxOut < prefix then Sealed(s, NoProgress)
        else SealFragment(s, p.value.header, p.value.body, maxOut - HM_HEADER_LENGTH - overhead, use.value)
  }

  /** As many of the body's remaining bytes as there is room for, as one fragment. */
  function SealFragment(s: Outgoing, h: Header, body: seq<byte>, room: nat, previous: bool): (r: Sealed)
    requires room >= 1 && s.offset <= |body| && (previous ==> s.writer.epoch >= 1) && s.Ok()
    ensures r.state == s.(writer := r.state.writer, offset := r.state.offset)
    ensures r.result.Progress? ==>
              && r.result.wireLen <= RT_HEADER_LENGTH + (if previous then s.lastAead else s.aead).maxOverhead
                                     + HM_HEADER_LENGTH + room
              && if r.result.whole then r.state.offset == 0 else s.offset < r.state.offset < |body|
  {
    var left := |body| - s.offset;
    var todo := if left > room then room else left;
    var r := SealRecord(s, Handshake, FragmentBytes(h, body, s.offset, todo), previous, todo == left);
    if !r.result.Progress? then r
    else r.(state := r.state.(offset := if todo == left then 0 else s.offset + todo))
  }

  /** What seal_next_packet and send_flight leave: None stands for failure. */
  datatype Packet = Packet(state: Outgoing, records: Option<seq<Record>>, wireLen: nat)

  /** What filling a packet can leave: it fits, and a packet with records has moved the cursor on. */
  ghost predicate PacketOk(s: Outgoing, maxOut: nat, progress: bool, r: Packet)
    requires s.written <= |s.msgs|
  {
    && r.state.Ok()
    && r.state == s.(writer := r.state.writer, offset := r.state.offset, written := r.state.written)
    && s.written <= r.state.written <= |s.msgs|
    && (r.records.Some? && r.state.written == s.written ==>
          || (r.state.offset == s.offset && r.records.value == [])
          || (s.written < |s.msgs| && s.offset < r.state.offset < |s.msgs[s.written].data|))
    && (r.records == Some([]) ==> progress)
    && r.wireLen <= maxOut && (r.records.None? ==> r.wireLen == 0)
  }

  /** seal_next_packet; progress says whether an earlier turn has put something in the packet. */
  function SealPacket(s: Outgoing, maxOut: nat, progress: bool): (r: Packet)
    requires s.Ok()
    ensures PacketOk(s, maxOut, progress, r)
    decreases |s.msgs| - s.written, 1
  {
    if s.written == |s.msgs| then
      Packet(s, if progress then Some([]) else None, 0)
    else
      AddToPacket(s, SealNextMessage(s, maxOut), maxOut, progress)
  }

  /** The switch of seal_next_packet on what sealing the next message gave. */
  function AddToPacket(s: Outgoing, r: Sealed, maxOut: nat, progress: bool): (p: Packet)
    requires s.written < |s.msgs| && s.Ok() && SealOk(s, maxOut, r)
    ensures PacketOk(s, maxOut, progress, p)
    decreases |s.msgs| - s.written, 0
  {
    match r.result
    case SealError => Packet(r.state, None, 0)
    case NoProgress => Packet(s, if progress then Some([]) else None, 0)
    case Progress(record, len, whole) =>
      if !whole then Packet(r.state, Some([record]), len)
      else
        var rest := SealPacket(r.state.(written := s.written + 1), maxOut - len, true);
        if rest.records.None? then rest
        else Packet(rest.state, Some([record] + rest.records.value), len + rest.wireLen)
  }

  /** The return value of send_flight: flushed, stopped by the transport with its result, or failed. */
  datatype SendResult = Flushed | Blocked(ret: int) | Failed

  /** The packets that the transport took, in order. */
  datatype Sent = Sent(state: Outgoing, packets: seq<seq<Record>>, result: SendResult)

  /** The next result of the transport; a transport with nothing more to say fails. */
  function Answer(bio: seq<int>): int {
    if bio == [] then -1 else bio[0]
  }

  /** send_flight, with the transport's results in the order of the calls. */
  function SendFlight(s: Outgoing, mtu: nat, bio: seq<int>): Sent
    requires s.Ok()
    decreases |s.msgs| - s.written, s.Left()
  {
    if s.written == |s.msgs| then Sent(s, [], if Answer(bio) <= 0 then Blocked(-1) else Flushed)
    else
      var p := SealPacket(s, mtu, false);
      if p.records.None? then Sent(p.state, [], Failed)
      else if Answer(bio) <= 0 then
        Sent(p.state.(written := s.written, offset := s.offset), [], Blocked(Answer(bio)))
      else
        var rest := SendFlight(p.state, mtu, bio[1..]);
        rest.(packets := [p.records.value] + rest.packets)
  }

  /** dtls1_flush_flight. */
  function Flush(s: Outgoing, mtu: nat, bio: seq<int>): Sent
    requires s.Ok()
  {
    SendFlight(s.(complete := true), mtu, bio)
  }

  /** dtls1_retransmit_outgoing_messages. */
  function Retransmit(s: Outgoing, mtu: nat, bio: seq<int>): Sent
    requires s.Ok()
  {
    SendFlight(s.(written := 0, offset := 0), mtu, bio)
  }

  /** add_outgoing: None when the flight already holds seven messages. */
  function AddOutgoing(s: Outgoing, isCcs: bool, data: seq<byte>): (r: Option<Outgoing>)
  {
    var s := if s.complete then s.(msgs := [], written := 0, offset := 0, complete := false) else s;
    if |s.msgs| >= MAX_FLIGHT then None
    else
      Some(s.(msgs := s.msgs + [OutMsg(data, s.writer.epoch, isCcs)],
              writeSeq := if isCcs then s.writeSeq else (s.writeSeq + 1) % SEQ_MODULUS))
  }

  /** dtls1_init_message and dtls1_finish_message: the message as one fragment. */
  function Serialise(s: Outgoing, typ: byte, body: seq<byte>): seq<byte> {
    PutHeader(WholeHeader(typ, s.writeSeq, |body|)) + body
  }

  /** dtls1_set_write_state. */
  function SetWriteState(s: Outgoing, aead: Aead): Outgoing {
    s.(writer := s.writer.NextEpoch(), aead := aead, lastAead := s.aead)
  }

  // The flight cursor.

  /** The cursor after a record that carries the next bytes of the flight; None if it carries anything else. */
  function Advance(msgs: seq<OutMsg>, written: nat, offset: nat, r: Record): Option<(nat, nat)>
  {
    if written >= |msgs| || r.epoch != msgs[written].epoch then None
    else if msgs[written].isCcs then
      if r.typ == ChangeCipherSpec && r.payload == CCS_BODY then Some((written + 1, 0)) else None
    else
      var p := ParseFragment(msgs[written].data);
      if p.None? || |r.payload| < HM_HEADER_LENGTH then None
      else
        var n := |r.payload| - HM_HEADER_LENGTH;
        var end := offset + n;
        if r.typ != Handshake || end > |p.value.body|
           || r.payload != FragmentBytes(p.value.header, p.value.body, offset, n) then None
        else if end == |p.value.body| then Some((written + 1, 0))
        else if n == 0 then None
        else Some((written, end))
  }

  function Walk(msgs: seq<OutMsg>, written: nat, offset: nat, records: seq<Record>): Option<(nat, nat)>
    decreases |records|
  {
    if records == [] then Some((written, offset))
    else
      var next := Advance(msgs, written, offset, records[0]);
      if next.None? then None else Walk(msgs, next.value.0, next.value.1, records[1..])
  }

  function Flatten<T>(parts: seq<seq<T>>): seq<T> {
    if parts == [] then [] else parts[0] + Flatten(parts[1..])
  }

  lemma {:induction false} WalkAppend(msgs: seq<OutMsg>, w: nat, o: nat, a: seq<Record>, b: seq<Record>)
    requires Walk(msgs, w, o, a).Some?
    ensures var m := Walk(msgs, w, o, a).value; Walk(msgs, w, o, a + b) == Walk(msgs, m.0, m.1, b)
    decreases |a|
  {
    hide Advance;
    if a == [] {
      assert a + b == b;
    } else {
      assert (a + b)[1..] == a[1..] + b;
      var next := Advance(msgs, w, o, a[0]).value;
      WalkAppend(msgs, next.0, next.1, a[1..], b);
    }
  }

  lemma WalkStep(msgs: seq<OutMsg>, w: nat, o: nat, r: Record, rest: seq<Record>)
    requires Advance(msgs, w, o, r).Some?
    ensures var next := Advance(msgs, w, o, r).value;
            Walk(msgs, w, o, [r] + rest) == Walk(msgs, next.0, next.1, rest)
  {
    assert ([r] + rest)[1..] == rest;
  }

  lemma SealAdvances(s: Outgoing, maxOut: nat)
    requires s.written < |s.msgs| && s.Ok()
    requires SealNextMessage(s, maxOut).result.Progress?
    ensures var r := SealNextMessage(s, maxOut);
            Advance(s.msgs, s.written, s.offset, r.result.record)
            == Some(if r.result.whole then (s.written + 1, 0) else (s.written, r.state.offset))
  {
  }

  lemma {:induction false} PacketWalks(s: Outgoing, maxOut: nat, progress: bool)
    requires s.Ok()
    requires SealPacket(s, maxOut, progress).records.Some?
    ensures var p := SealPacket(s, maxOut, progress);
            Walk(s.msgs, s.written, s.offset, p.records.value) == Some((p.state.written, p.state.offset))
    decreases |s.msgs| - s.written, 1
  {
    hide SealNextMessage, Advance;
    if s.written < |s.msgs| {
      var r := SealNextMessage(s, maxOut);
      if r.result.Progress? {
        SealAdvances(s, maxOut);
      }
      AddWalks(s, r, maxOut, progress);
    }
  }

  lemma {:induction false} AddWalks(s: Outgoing, r: Sealed, maxOut: nat, progress: bool)
    requires s.written < |s.msgs| && s.Ok() && SealOk(s, maxOut, r)
    requires r.result.Progress? ==>
               Advance(s.msgs, s.written, s.offset, r.result.record)
               == Some(if r.result.whole then (s.written + 1, 0) else (s.written, r.state.offset))
    requires AddToPacket(s, r, maxOut, progress).records.Some?
    ensures var p := AddToPacket(s, r, maxOut, progress);
            Walk(s.msgs, s.written, s.offset, p.records.value) == Some((p.state.written, p.state.offset))
    decreases |s.msgs| - s.written, 0
  {
    hide SealNextMessage, Advance;
    if r.result.Progress? {
      var rest: seq<Record> := [];
      if r.result.whole {
        var next, room := r.state.(written := s.written + 1), maxOut - r.result.wireLen;
        PacketWalks(next, room, true);
        rest := SealPacket(next, room, true).records.value;
      }
      WalkStep(s.msgs, s.written, s.offset, r.result.record, rest);
      assert [r.result.record] + [] == [r.result.record];
    }
  }

  /** Whatever the transport does, as long as sealing does not fail, the records it took carry the flight's
      bytes from the cursor where the call began to the cursor where it ended: in order, without a gap
      or a repeat. A blocked call therefore resumes exactly where it stopped. */
  lemma {:induction false} SendWalks(s: Outgoing, mtu: nat, bio: seq<int>)
    requires s.Ok()
    requires !SendFlight(s, mtu, bio).result.Failed?
    ensures var r := SendFlight(s, mtu, bio);
            && r.state.msgs == s.msgs
            && Walk(s.msgs, s.written, s.offset, Flatten(r.packets)) == Some((r.state.written, r.state.offset))
            && (r.result.Flushed? ==> r.state.written == |s.msgs|)
    decreases |s.msgs| - s.written, s.Left()
  {
    if s.written < |s.msgs| {
      var p := SealPacket(s, mtu, false);
      PacketWalks(s, mtu, false);
      if Answer(bio) > 0 {
        SendWalks(p.state, mtu, bio[1..]);
        var rest := SendFlight(p.state, mtu, bio[1..]);
        WalkAppend(s.msgs, s.written, s.offset, p.records.value, Flatten(rest.packets));
        assert ([p.records.value] + rest.packets)[1..] == rest.packets;
      }
    }
  }

  /** Also when sealing fails, what the transport has taken is a walk over the flight. */
  lemma {:induction false} SentWalks(s: Outgoing, mtu: nat, bio: seq<int>)
    requires s.Ok()
    ensures Walk(s.msgs, s.written, s.offset, Flatten(SendFlight(s, mtu, bio).packets)).Some?
    decreases |s.msgs| - s.written, s.Left()
  {
    if s.written < |s.msgs| {
      var p := SealPacket(s, mtu, false);
      if p.records.Some? && Answer(bio) > 0 {
        PacketWalks(s, mtu, false);
        SentWalks(p.state, mtu, bio[1..]);
        var rest := SendFlight(p.state, mtu, bio[1..]);
        WalkAppend(s.msgs, s.written, s.offset, p.records.value, Flatten(rest.packets));
        assert ([p.records.value] + rest.packets)[1..] == rest.packets;
      }
    }
  }

  // What goes into a packet.

  /** A fragment that is not the rest of its message takes all the room there is, so that only the last one of a message
      is short: header, fragment and the most that sealing can add fill the packet. */
  lemma FragmentFills(s: Outgoing, maxOut: nat)
    requires s.written < |s.msgs| && s.Ok()
    ensures var r := SealNextMessage(s, maxOut).result;
            r.Progress? && !r.whole ==>
              13 + |r.record.payload| + (if r.record.epoch == s.writer.epoch then s.aead else s.lastAead).maxOverhead
                == maxOut
  {
    hide ParseFragment;
  }

  /** The length of the records of a datagram: each has a header of 13 bytes, its fragment, and what sealing added. */
  function Octets(s: Outgoing, records: seq<Record>): nat {
    if records == [] then 0
    else
      var r := records[0];
      var cost := (if r.epoch == s.writer.epoch then s.aead else s.lastAead).cost(r.number, |r.payload|);
      13 + |r.payload| + (if cost.Some? then cost.value else 0) + Octets(s, records[1..])
  }

  lemma {:induction false} OctetsSame(s: Outgoing, s': Outgoing, records: seq<Record>)
    requires s'.writer.epoch == s.writer.epoch && s'.aead == s.aead && s'.lastAead == s.lastAead
    ensures Octets(s', records) == Octets(s, records)
  {
    if records != [] {
      OctetsSame(s, s', records[1..]);
    }
  }

  lemma RecordLength(s: Outgoing, maxOut: nat)
    requires s.written < |s.msgs| && s.Ok() && SealNextMessage(s, maxOut).result.Progress?
    ensures var r := SealNextMessage(s, maxOut);
            && r.result.wireLen == Octets(s, [r.result.record])
            && r.state.writer.epoch == s.writer.epoch
  {
    hide ParseFragment;
    assert Octets(s, []) == 0;
  }

  /** What is counted of a datagram is its length, which is within the MTU. */
  lemma {:induction false} PacketLength(s: Outgoing, maxOut: nat, progress: bool)
    requires s.Ok() && SealPacket(s, maxOut, progress).records.Some?
    ensures var p := SealPacket(s, maxOut, progress);
            p.wireLen == Octets(s, p.records.value) <= maxOut
    decreases |s.msgs| - s.written
  {
    hide SealNextMessage;
    if s.written < |s.msgs| {
      var r := SealNextMessage(s, maxOut);
      if r.result.Progress? {
        RecordLength(s, maxOut);
        var one := [r.result.record];
        if r.result.whole {
          var next, room := r.state.(written := s.written + 1), maxOut - r.result.wireLen;
          PacketLength(next, room, true);
          var rest := SealPacket(next, room, true).records.value;
          OctetsSame(s, next, rest);
          assert (one + rest)[1..] == rest;
        }
      }
    }
  }
}
