/** How far a DTLS sender may be ahead of its receiver: exactly as far as the 16-bit message numbers tell messages
    apart. */
module RunAhead {
  import opened Bytes
  import opened DtlsWire
  import opened Reassembly
  import opened ReceiverSpec
  import opened FlightSpec
  import FlightNumbers
  import RecordNumbers
  import opened EndToEnd
  import RecordLayer
  import ReplayWindow

  // The run that shows the bound is sharp: 65536 empty messages that are all lost, and one more of another type that
  // arrives, and is read as the first.

  function Plain(): Aead {
    Aead(0, 0, (_, _) => Some(0))
  }

  function Payload(typ: byte, k: nat): seq<byte> {
    PutHeader(WholeHeader(typ, k % SEQ_MODULUS, 0))
  }

  function EmptyRecord(typ: byte, k: nat): Record {
    Record(Handshake, 0, k, Payload(typ, k))
  }

  /** k empty messages have been sent and lost. */
  ghost predicate Idle(s: Sys, k: nat, lead: nat) {
    && s.out.Ok() && (s.out.complete || s.out.msgs == []) && (s.out.msgs == [] ==> s.out.offset == s.out.written == 0)
    && s.out.writeSeq == k % SEQ_MODULUS
    && s.out.writer == RecordNumbers.Writer(0, k, 0) && s.out.aead == s.out.lastAead == Plain()
    && s.keys == 0 && s.reader == RecordLayer.Start(0) && s.readKeys == 0 && !s.dead && s.lead == lead
    && s.hist == seq(k, _ => Msg(0, [], 0)) && s.taken == []
  }

  lemma EmptyFragment(s: Outgoing, typ: byte, k: nat)
    requires k + 1 < RecordNumbers.NUM_MODULUS && s.writer == RecordNumbers.Writer(0, k, 0)
    requires s.aead == s.lastAead == Plain()
    requires s.written == 0 && s.offset == 0 && s.msgs == [OutMsg(Payload(typ, k), 0, false)]
    ensures SealNextMessage(s, 100)
         == Sealed(s.(writer := RecordNumbers.Writer(0, k + 1, 0)), Progress(EmptyRecord(typ, k), 25, true))
  {
    var h := WholeHeader(typ, k % SEQ_MODULUS, 0);
    ParsePut(h, [], []);
    assert PutHeader(h) + [] + [] == PutHeader(h);
    assert FragmentBytes(h, [], 0, 0) == PutHeader(h);
  }

  lemma EmptyPacket(s: Outgoing, typ: byte, k: nat)
    requires k + 1 < RecordNumbers.NUM_MODULUS && s.writer == RecordNumbers.Writer(0, k, 0)
    requires s.aead == s.lastAead == Plain()
    requires s.written == 0 && s.offset == 0 && s.msgs == [OutMsg(Payload(typ, k), 0, false)]
    ensures SealPacket(s, 100, false)
         == Packet(s.(written := 1, writer := RecordNumbers.Writer(0, k + 1, 0)), Some([EmptyRecord(typ, k)]), 25)
  {
    EmptyFragment(s, typ, k);
    var r := SealNextMessage(s, 100);
    hide SealNextMessage;
    var next := r.state.(written := 1);
    assert SealPacket(next, 75, true) == Packet(next, Some([]), 0);
    assert AddToPacket(s, r, 100, false) == Packet(next, Some([EmptyRecord(typ, k)]), 25) by {
      assert [EmptyRecord(typ, k)] + [] == [EmptyRecord(typ, k)];
    }
  }

  /** A flight of one message that the transport does not take, or takes. */
  lemma EmptyFlight(s: Outgoing, typ: byte, k: nat)
    requires k + 1 < RecordNumbers.NUM_MODULUS && s.writer == RecordNumbers.Writer(0, k, 0)
    requires s.aead == s.lastAead == Plain()
    requires s.written == 0 && s.offset == 0 && s.msgs == [OutMsg(Payload(typ, k), 0, false)]
    ensures SendFlight(s, 100, []) == Sent(s.(writer := RecordNumbers.Writer(0, k + 1, 0)), [], Blocked(-1))
    ensures SendFlight(s, 100, [1, 1])
         == Sent(s.(written := 1, writer := RecordNumbers.Writer(0, k + 1, 0)), [[EmptyRecord(typ, k)]], Flushed)
  {
    EmptyPacket(s, typ, k);
    hide SealPacket;
    var next := s.(written := 1, writer := RecordNumbers.Writer(0, k + 1, 0));
    assert SendFlight(next, 100, [1]) == Sent(next, [], Flushed);
    assert [1, 1][1..] == [1];
  }

  lemma RoundSend(s: Sys, typ: byte, k: nat, lead: nat)
    requires Idle(s, k, lead) && k < lead
    ensures Enabled(s, Send(typ, []))
    ensures Step(s, Send(typ, [])) == s.(
              out := s.out.(msgs := [OutMsg(Payload(typ, k), 0, false)], written := 0, offset := 0,
                            complete := false, writeSeq := (k + 1) % SEQ_MODULUS),
              hist := s.hist + [Msg(typ, [], 0)])
  {
    assert Serialise(s.out, typ, []) == Payload(typ, k);
    Succeeding(k);
  }

  /** One more message is queued and lost. */
  lemma RoundLost(s: Sys, k: nat, lead: nat, run: seq<Event>) returns (run': seq<Event>)
    requires k + 1 < RecordNumbers.NUM_MODULUS && k < lead && Idle(s, k, lead)
    requires Possible(Start(Plain(), 0, lead), run) && s == After(Start(Plain(), 0, lead), run)
    ensures Possible(Start(Plain(), 0, lead), run') && Idle(After(Start(Plain(), 0, lead), run'), k + 1, lead)
  {
    hide EndToEnd.Step, EndToEnd.Enabled, Possible, After;
    var start := Start(Plain(), 0, lead);
    RoundSend(s, 0, k, lead);
    RunExtends(start, run, Send(0, []));
    var s1 := EndToEnd.Step(s, Send(0, []));
    LostFlush(s1, k);
    RunExtends(start, run + [Send(0, [])], FlushFlight(100, []));
    run' := run + [Send(0, [])] + [FlushFlight(100, [])];
    OneMoreLost(s.hist, k);
  }

  lemma OneMoreLost(hist: seq<Msg>, k: nat)
    requires hist == seq(k, _ => Msg(0, [], 0))
    ensures hist + [Msg(0, [], 0)] == seq(k + 1, _ => Msg(0, [], 0))
  {
  }

  lemma LostFlush(s: Sys, k: nat)
    requires k + 1 < RecordNumbers.NUM_MODULUS && s.out.writer == RecordNumbers.Writer(0, k, 0)
    requires s.out.aead == s.out.lastAead == Plain() && s.out.written == 0 && s.out.offset == 0
    requires s.out.msgs == [OutMsg(Payload(0, k), 0, false)] && |s.reader.inc.ring| == MAX_FLIGHT
    ensures EndToEnd.Enabled(s, FlushFlight(100, []))
    ensures EndToEnd.Step(s, FlushFlight(100, []))
         == s.(out := s.out.(complete := true, writer := RecordNumbers.Writer(0, k + 1, 0)))
  {
    EmptyFlight(s.out.(complete := true), 0, k);
    FlightNumbers.SentFlight(s.out.(complete := true), 100, []);
    assert Emitted(s, []) == {};
  }

  lemma {:induction false} IdleRun(k: nat, lead: nat) returns (run: seq<Event>)
    requires k < RecordNumbers.NUM_MODULUS && k <= lead
    ensures Possible(Start(Plain(), 0, lead), run) && Idle(After(Start(Plain(), 0, lead), run), k, lead)
  {
    if k == 0 {
      run := [];
      assert Start(Plain(), 0, lead).hist == seq(0, _ => Msg(0, [], 0));
    } else {
      run := IdleRun(k - 1, lead);
      run := RoundLost(After(Start(Plain(), 0, lead), run), k - 1, lead, run);
    }
  }

  /** The last message, of type 1, as it is on the wire: number 65536 again looks like number 0. */
  function LastWire(): Wire {
    Wire(EmptyRecord(1, SEQ_MODULUS), 0, SEQ_MODULUS)
  }

  lemma LastFlush(s: Sys)
    requires s.out.writer == RecordNumbers.Writer(0, SEQ_MODULUS, 0)
    requires s.out.aead == s.out.lastAead == Plain() && s.out.written == 0 && s.out.offset == 0
    requires s.out.msgs == [OutMsg(Payload(1, SEQ_MODULUS), 0, false)] && |s.reader.inc.ring| == MAX_FLIGHT
    requires s.keys == 0 && |s.hist| == SEQ_MODULUS + 1
    ensures EndToEnd.Enabled(s, FlushFlight(100, [1, 1]))
    ensures var s' := EndToEnd.Step(s, FlushFlight(100, [1, 1]));
            s' == s.(out := s'.out, net := s'.net) && s'.out.Ok() && LastWire() in s'.net
  {
    EmptyFlight(s.out.(complete := true), 1, SEQ_MODULUS);
    FlightNumbers.SentFlight(s.out.(complete := true), 100, [1, 1]);
    var r := EmptyRecord(1, SEQ_MODULUS);
    OneRecord(r);
    LastSource();
    hide SendFlight, Source, Records, EmptyRecord;
    assert Emit(s, r) == LastWire();
  }

  lemma OneRecord(r: Record)
    ensures r in Records([[r]])
  {
    assert Flatten([[r]]) == [r] + Flatten([]) == [r];
  }

  lemma LastSource()
    ensures Source(SEQ_MODULUS + 1, EmptyRecord(1, SEQ_MODULUS).payload) == SEQ_MODULUS
  {
    var h := WholeHeader(1, 0, 0);
    ParsePut(h, [], []);
    assert PutHeader(h) + [] + [] == PutHeader(h);
    hide ParseFragment, PutHeader;
  }

  lemma LastDeliver(s: Sys)
    requires s.out.Ok() && s.reader == RecordLayer.Start(0) && s.readKeys == 0 && !s.dead
    requires LastWire() in s.net && s.taken == []
    ensures EndToEnd.Enabled(s, Deliver(LastWire()))
    ensures var s' := EndToEnd.Step(s, Deliver(LastWire()));
            var inc := s'.reader.inc;
            && s' == s.(reader := s'.reader, accepted := s'.accepted, arrived := s'.arrived)
            && |inc.ring| == MAX_FLIGHT && inc.readSeq == 0 && inc.ring[0] == Some(NewSlot(1, 0, 0))
  {
    var w := LastWire();
    var h := WholeHeader(1, 0, 0);
    assert NewSlot(1, 0, 0).Complete();
    AcceptOne(s.reader.inc, h, []);
    assert PutHeader(h) + [] == PutHeader(h);
    HeaderShort(h);
    assert !ReplayWindow.ShouldDiscard(s.reader.window, RecordLayer.SequenceOf(w.record));
    hide ReplayWindow.Record, ReplayWindow.ShouldDiscard, Arrives;
  }

  lemma HeaderShort(h: Header)
    ensures |PutHeader(h)| == HM_HEADER_LENGTH
  {
  }

  lemma LastRead(s: Sys)
    requires s.out.Ok() && !s.dead && |s.reader.inc.ring| == MAX_FLIGHT && s.reader.inc.readSeq == 0
    requires s.reader.inc.ring[0] == Some(NewSlot(1, 0, 0)) && s.taken == []
    requires |s.hist| > 0 && s.hist[0] == Msg(0, [], 0)
    ensures EndToEnd.Enabled(s, Read) && !InOrder(EndToEnd.Step(s, Read))
  {
    var slot := NewSlot(1, 0, 0);
    assert slot.Complete();
    assert Raw(slot)[0] == 1;
    assert Whole(s.hist, 0)[0] == 0;
    var s' := EndToEnd.Step(s, Read);
    assert s'.taken == [Raw(slot)];
  }

  lemma OvertakenRun(lead: nat) returns (run: seq<Event>)
    requires lead > SEQ_MODULUS
    ensures Possible(Start(Plain(), 0, lead), run) && !InOrder(After(Start(Plain(), 0, lead), run))
  {
    var start := Start(Plain(), 0, lead);
    run := IdleRun(SEQ_MODULUS, lead);
    var s := After(start, run);
    RoundSend(s, 1, SEQ_MODULUS, lead);
    RunExtends(start, run, Send(1, []));
    var s1, run1 := EndToEnd.Step(s, Send(1, [])), run + [Send(1, [])];
    LastFlush(s1);
    RunExtends(start, run1, FlushFlight(100, [1, 1]));
    var s2, run2 := EndToEnd.Step(s1, FlushFlight(100, [1, 1])), run1 + [FlushFlight(100, [1, 1])];
    hide EndToEnd.Step, EndToEnd.Enabled, Possible, After;
    LastDeliver(s2);
    RunExtends(start, run2, Deliver(LastWire()));
    var s3, run3 := EndToEnd.Step(s2, Deliver(LastWire())), run2 + [Deliver(LastWire())];
    LastRead(s3);
    RunExtends(start, run3, Read);
    run := run3 + [Read];
  }

  /** The message and record layers deliver each message whole, once and in order, in every run and whatever the network
      does, exactly as long as the sender is never more than 65536 messages ahead of what has been read. There is no
      bound on how many messages there are. */
  lemma InOrderDelivery(lead: nat)
    ensures AlwaysInOrder(lead) <==> lead <= 65536
  {
    if lead <= SEQ_MODULUS {
      StaysInOrder(lead);
    } else {
      var run := OvertakenRun(lead);
      assert Plain().Ok();
    }
  }
}
