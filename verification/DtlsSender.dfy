/** The sending half of the DTLS handshake transport in place: DTLS1_STATE's outgoing flight. */
module DtlsSender {
  import opened Bytes
  import opened DtlsWire
  import opened FlightSpec
  import opened RecordNumbers

  class Sender {
    const messages: array<OutMsg>
    var len: nat
    var written: nat
    var offset: nat
    var complete: bool
    var writeSeq: nat
    var aead: Aead
    var lastAead: Aead
    const numbers: SequenceState
    ghost const Repr: set<object>

    ghost predicate Valid()
      reads this, Repr
      ensures Valid() ==> this in Repr
    {
      && Repr == {this, messages, numbers, numbers.writeSequence, numbers.lastWriteSequence}
      && messages.Length == MAX_FLIGHT && len <= MAX_FLIGHT
      && numbers.Valid()
    }

    ghost function View(): Outgoing
      requires Valid()
      reads this, Repr
    {
      Outgoing(messages[..len], written, offset, complete, writeSeq, numbers.View(), aead, lastAead)
    }

    constructor (aead: Aead)
      requires aead.Ok()
      ensures Valid() && fresh(Repr) && View().Ok()
      ensures View() == Outgoing([], 0, 0, false, 0, Writer(0, 0, 0), aead, aead)
    {
      var ms := new OutMsg[MAX_FLIGHT](_ => OutMsg([], 0, false));
      var ns := new SequenceState();
      messages, numbers := ms, ns;
      len, written, offset, complete, writeSeq := 0, 0, 0, false, 0;
      this.aead, this.lastAead := aead, aead;
      Repr := {this, ms, ns, ns.writeSequence, ns.lastWriteSequence};
    }

    /** add_outgoing. */
    method AddOutgoing(isCcs: bool, data: seq<byte>) returns (ok: bool)
      requires Valid()
      modifies Repr
      ensures Valid()
      ensures ok <==> FlightSpec.AddOutgoing(old(View()), isCcs, data).Some?
      ensures ok ==> View() == FlightSpec.AddOutgoing(old(View()), isCcs, data).value
    {
      if complete {
        len, written, offset, complete := 0, 0, 0, false;
      }
      if len >= MAX_FLIGHT {
        return false;
      }
      if !isCcs {
        writeSeq := (writeSeq + 1) % SEQ_MODULUS;
      }
      messages[len] := OutMsg(data, numbers.epoch, isCcs);
      len := len + 1;
      assert messages[..len] == (if old(complete) then [] else old(messages[..len])) + [messages[len - 1]];
      return true;
    }

    /** dtls_seal_record. */
    method SealRecord(typ: ContentType, payload: seq<byte>, previous: bool, whole: bool) returns (r: SealResult)
      requires Valid() && (previous ==> numbers.epoch >= 1)
      modifies numbers.writeSequence, numbers.lastWriteSequence
      ensures Valid() && Sealed(View(), r) == FlightSpec.SealRecord(old(View()), typ, payload, previous, whole)
    {
      var seq8 := if previous then numbers.lastWriteSequence else numbers.writeSequence;
      var cost := (if previous then lastAead else aead).cost(GetBe(seq8[2..]), |payload|);
      if cost.None? {
        return SealError;
      }
      var ok, sealEpoch, number := numbers.TakeNumber(previous);
      var total := |payload| + cost.value;
      if !ok || total >= 0x1_0000 {
        return SealError;
      }
      return Progress(Record(typ, sealEpoch, number, payload), RT_HEADER_LENGTH + total, whole);
    }

    /** seal_next_message. */
    method SealNextMessage(maxOut: nat) returns (r: SealResult)
      requires Valid() && View().Ok() && written < len
      modifies this`offset, numbers.writeSequence, numbers.lastWriteSequence
      ensures Valid() && Sealed(View(), r) == FlightSpec.SealNextMessage(old(View()), maxOut)
    {
      hide FlightSpec.SealFragment, FlightSpec.SealRecord;
      var msg := messages[written];
      var previous := numbers.epoch >= 1 && msg.epoch == numbers.epoch - 1;
      if !previous && msg.epoch != numbers.epoch {
        return SealError;
      }
      var cipher := if previous then lastAead else aead;
      var overhead, prefix := RT_HEADER_LENGTH + cipher.maxOverhead, RT_HEADER_LENGTH + cipher.nonceLen;
      if msg.isCcs {
        if maxOut < 1 + overhead {
          return NoProgress;
        }
        r := SealRecord(ChangeCipherSpec, CCS_BODY, previous, true);
        return;
      }
      var p := ParseFragment(msg.data);
      if p.None? || p.value.header.fragOff != 0 || p.value.header.msgLen != |p.value.body|
         || offset > |p.value.body| || p.value.rest != []
      {
        return SealError;
      }
      if maxOut < HM_HEADER_LENGTH + 1 + overhead || maxOut < prefix {
        return NoProgress;
      }
      r := SealFragment(p.value.header, p.value.body, maxOut - HM_HEADER_LENGTH - overhead, previous);
    }

    /** The end of seal_next_message: as much of the body as there is room for. */
    method SealFragment(h: Header, body: seq<byte>, room: nat, previous: bool) returns (r: SealResult)
      requires Valid() && View().Ok() && room >= 1 && offset <= |body| && (previous ==> numbers.epoch >= 1)
      modifies this`offset, numbers.writeSequence, numbers.lastWriteSequence
      ensures Valid() && Sealed(View(), r) == FlightSpec.SealFragment(old(View()), h, body, room, previous)
    {
      var left := |body| - offset;
      var todo := left;
      if todo > room {
        todo := room;
      }
      r := SealRecord(Handshake, FragmentBytes(h, body, offset, todo), previous, todo == left);
      if r.Progress? {
        offset := if todo == left then 0 else offset + todo;
      }
    }

    /** What a packet is once some of its records have been sealed and the rest is known. */
    static ghost function Prepend(records: seq<Record>, total: nat, rest: Packet): Packet {
      if rest.records.None? then rest
      else Packet(rest.state, Some(records + rest.records.value), total + rest.wireLen)
    }

    static lemma PrependTurn(records: seq<Record>, total: nat, record: Record, n: nat, rest: Packet)
      ensures Prepend(records, total, Prepend([record], n, rest)) == Prepend(records + [record], total + n, rest)
    {
      if rest.records.Some? {
        assert records + ([record] + rest.records.value) == records + [record] + rest.records.value;
      }
    }

    static lemma PrependNone(s: Outgoing, progress: bool, records: seq<Record>, total: nat)
      requires !progress ==> records == [] && total == 0
      ensures Prepend(records, total, Packet(s, if progress then Some([]) else None, 0))
           == Packet(s, if progress then Some(records) else None, total)
    {
      assert records + [] == records;
    }

    /** One turn of seal_next_packet's loop, with the step to the next message. */
    method PacketTurn(room: nat, progress: bool) returns (r: SealResult)
      requires Valid() && View().Ok() && written < len
      modifies this`written, this`offset, numbers.writeSequence, numbers.lastWriteSequence
      ensures Valid() && View().Ok()
      ensures r.Progress? ==> r.wireLen <= room && (r.whole ==> written > old(written))
      ensures SealPacket(old(View()), room, progress) ==
              match r
              case SealError => Packet(View(), None, 0)
              case NoProgress => Packet(View(), if progress then Some([]) else None, 0)
              case Progress(record, n, whole) =>
                if whole then Prepend([record], n, SealPacket(View(), room - n, true))
                else Packet(View(), Some([record]), n)
    {
      hide FlightSpec.SealNextMessage;
      ghost var s := View();
      r := SealNextMessage(room);
      assert SealPacket(s, room, progress) == AddToPacket(s, Sealed(View(), r), room, progress);
      ghost var mid := View();
      if r.Progress? && r.whole {
        written := written + 1;
        assert View() == mid.(written := mid.written + 1);
      }
    }

    /** seal_next_packet. */
    method SealNextPacket(maxOut: nat) returns (ok: bool, packet: seq<Record>, outLen: nat)
      requires Valid() && View().Ok() && written < len
      modifies this`written, this`offset, numbers.writeSequence, numbers.lastWriteSequence
      ensures Valid() && View().Ok()
      ensures Packet(View(), if ok then Some(packet) else None, outLen) == SealPacket(old(View()), maxOut, false)
    {
      hide FlightSpec.SealNextMessage, FlightSpec.AddToPacket, FlightSpec.SealOk;
      var room: nat, progress := maxOut, false;
      packet, outLen := [], 0;
      ghost var goal := SealPacket(View(), maxOut, false);
      ghost var rest := goal;
      PrependNothing(goal);
      while written < len
        invariant Valid() && View().Ok()
        invariant !progress ==> packet == [] && outLen == 0
        invariant rest == SealPacket(View(), room, progress)
        invariant goal == Prepend(packet, outLen, rest)
        decreases len - written
      {
        var r := PacketTurn(room, progress);
        match r {
          case SealError =>
            return false, packet, 0;
          case NoProgress =>
            PrependNone(View(), progress, packet, outLen);
            return progress, packet, outLen;
          case Progress(record, n, whole) =>
            if whole {
              rest := SealPacket(View(), room - n, true);
              PrependTurn(packet, outLen, record, n, rest);
            }
            room, outLen, packet, progress := room - n, outLen + n, packet + [record], true;
            if !whole {
              return true, packet, outLen;
            }
        }
      }
      PrependNone(View(), progress, packet, outLen);
      return progress, packet, outLen;
    }

    static lemma PrependNothing(p: Packet)
      ensures Prepend([], 0, p) == p
    {
      assert p.records.Some? ==> [] + p.records.value == p.records.value;
    }

    static lemma SendTurn(s: Outgoing, mtu: nat, bio: seq<int>)
      requires s.Ok()
      ensures FlightSpec.SendFlight(s, mtu, bio) ==
              if s.written == |s.msgs| then Sent(s, [], if Answer(bio) <= 0 then Blocked(-1) else Flushed)
              else
                var p := SealPacket(s, mtu, false);
                if p.records.None? then Sent(p.state, [], Failed)
                else if Answer(bio) <= 0 then
                  Sent(p.state.(written := s.written, offset := s.offset), [], Blocked(Answer(bio)))
                else Behind([p.records.value], FlightSpec.SendFlight(p.state, mtu, bio[1..]))
    {
      hide SealPacket;
    }

    /** What a call has sent once some packets were taken and the rest is known. */
    static ghost function Behind(packets: seq<seq<Record>>, rest: Sent): Sent {
      rest.(packets := packets + rest.packets)
    }

    static lemma BehindTurn(packets: seq<seq<Record>>, packet: seq<Record>, rest: Sent)
      ensures Behind(packets, Behind([packet], rest)) == Behind(packets + [packet], rest)
    {
      assert packets + ([packet] + rest.packets) == packets + [packet] + rest.packets;
    }

    static lemma BehindNothing(packets: seq<seq<Record>>, s: Outgoing, result: SendResult)
      ensures Behind(packets, Sent(s, [], result)) == Sent(s, packets, result)
    {
      assert packets + [] == packets;
    }

    static lemma NothingBehind(rest: Sent)
      ensures Behind([], rest) == rest
    {
      assert [] + rest.packets == rest.packets;
    }

    /** send_flight; bio holds the transport's answers, the last of them to the flush. */
    method SendFlight(mtu: nat, bio: seq<int>) returns (packets: seq<seq<Record>>, result: SendResult)
      requires Valid() && View().Ok()
      modifies this`written, this`offset, numbers.writeSequence, numbers.lastWriteSequence
      ensures Valid() && View().Ok()
      ensures Sent(View(), packets, result) == FlightSpec.SendFlight(old(View()), mtu, bio)
    {
      hide SealPacket, PacketOk, FlightSpec.SendFlight, Behind;
      var answers := bio;
      packets := [];
      ghost var goal := FlightSpec.SendFlight(View(), mtu, bio);
      NothingBehind(goal);
      while written < len
        invariant Valid() && View().Ok()
        invariant goal == Behind(packets, FlightSpec.SendFlight(View(), mtu, answers))
        decreases len - written, View().Left()
      {
        ghost var s := View();
        var oldWritten, oldOffset := written, offset;
        SendTurn(s, mtu, answers);
        Progresses(s, mtu);
        var ok, packet, packetLen := SealNextPacket(mtu);
        if !ok {
          BehindNothing(packets, View(), Failed);
          return packets, Failed;
        }
        if Answer(answers) <= 0 {
          ghost var p := View();
          written, offset := oldWritten, oldOffset;
          assert View() == p.(written := oldWritten, offset := oldOffset);
          BehindNothing(packets, View(), Blocked(Answer(answers)));
          return packets, Blocked(Answer(answers));
        }
        answers := answers[1..];
        BehindTurn(packets, packet, FlightSpec.SendFlight(View(), mtu, answers));
        packets := packets + [packet];
      }
      SendTurn(View(), mtu, answers);
      result := if Answer(answers) <= 0 then Blocked(-1) else Flushed;
      BehindNothing(packets, View(), result);
    }

    /** A packet moves the cursor on, by the measure that ends send_flight's loop. */
    static lemma Progresses(s: Outgoing, mtu: nat)
      requires s.Ok() && s.written < |s.msgs|
      ensures var p := SealPacket(s, mtu, false);
              && p.state.msgs == s.msgs && p.state.Ok()
              && (p.records.Some? ==>
                    || p.state.written > s.written
                    || (p.state.written == s.written && p.state.Left() < s.Left()))
    {
    }

    /** dtls1_flush_flight. */
    method FlushFlight(mtu: nat, bio: seq<int>) returns (packets: seq<seq<Record>>, result: SendResult)
      requires Valid() && View().Ok()
      modifies Repr
      ensures Valid() && View().Ok()
      ensures Sent(View(), packets, result) == FlightSpec.Flush(old(View()), mtu, bio)
    {
      hide FlightSpec.SendFlight;
      complete := true;
      assert View() == old(View()).(complete := true);
      packets, result := SendFlight(mtu, bio);
    }

    /** dtls1_retransmit_outgoing_messages. */
    method Retransmit(mtu: nat, bio: seq<int>) returns (packets: seq<seq<Record>>, result: SendResult)
      requires Valid() && View().Ok()
      modifies Repr
      ensures Valid() && View().Ok()
      ensures Sent(View(), packets, result) == FlightSpec.Retransmit(old(View()), mtu, bio)
    {
      hide FlightSpec.SendFlight;
      written, offset := 0, 0;
      assert View() == old(View()).(written := 0, offset := 0);
      packets, result := SendFlight(mtu, bio);
    }

    /** dtls1_set_write_state. */
    method SetWriteState(cipher: Aead)
      requires Valid() && View().Ok() && cipher.Ok()
      modifies Repr
      ensures Valid() && View().Ok() && View() == FlightSpec.SetWriteState(old(View()), cipher)
    {
      numbers.SetWriteState();
      aead, lastAead := cipher, aead;
    }
  }
}
