/** The record numbers that sending a flight uses. */
module FlightNumbers {
  import opened Bytes
  import opened DtlsWire
  import opened FlightSpec
  import opened RecordNumbers

  /** From one state of the writer to a later one of the same epochs. */
  ghost predicate Grows(w: Writer, w': Writer) {
    w.Ok() && w'.Ok() && w'.epoch == w.epoch && w.cur <= w'.cur && w.last <= w'.last
  }

  /** The record was numbered between these states, in the current epoch or the previous one. */
  ghost predicate Numbered(w: Writer, w': Writer, r: Record) {
    || (r.epoch == w.epoch && w.cur <= r.number < w'.cur)
    || (w.epoch >= 1 && r.epoch == w.epoch - 1 && w.last <= r.number < w'.last)
  }

  lemma SealRecordNumbers(s: Outgoing, typ: ContentType, payload: seq<byte>, previous: bool, whole: bool)
    requires (previous ==> s.writer.epoch >= 1) && s.writer.Ok()
    requires SealRecord(s, typ, payload, previous, whole).result.Progress?
    ensures var r := SealRecord(s, typ, payload, previous, whole);
            Grows(s.writer, r.state.writer) && Numbered(s.writer, r.state.writer, r.result.record)
  {
  }

  lemma SealNumbers(s: Outgoing, maxOut: nat)
    requires s.written < |s.msgs| && s.Ok() && s.writer.Ok() && !SealNextMessage(s, maxOut).result.SealError?
    ensures var r := SealNextMessage(s, maxOut);
            && Grows(s.writer, r.state.writer)
            && (r.result.Progress? ==> Numbered(s.writer, r.state.writer, r.result.record))
  {
    hide SealRecord, Grows, Numbered, ParseFragment, FragmentBytes;
    assert Grows(s.writer, s.writer) by { Stays(s.writer); }
    forall typ, payload, previous, whole |
      (previous ==> s.writer.epoch >= 1) && SealRecord(s, typ, payload, previous, whole).result.Progress?
      ensures var r := SealRecord(s, typ, payload, previous, whole);
              Grows(s.writer, r.state.writer) && Numbered(s.writer, r.state.writer, r.result.record)
    {
      SealRecordNumbers(s, typ, payload, previous, whole);
    }
  }

  lemma Stays(w: Writer)
    requires w.Ok()
    ensures Grows(w, w)
  {
  }

  lemma NumberedLater(w: Writer, w1: Writer, w': Writer, r: Record)
    requires Grows(w, w1) && Grows(w1, w')
    ensures Grows(w, w')
    ensures Numbered(w, w1, r) || Numbered(w1, w', r) ==> Numbered(w, w', r)
  {
  }

  /** Sealing a packet takes a counter past its end, and fails. */
  ghost predicate PacketWraps(s: Outgoing, maxOut: nat)
    requires s.Ok()
    decreases |s.msgs| - s.written
  {
    s.written < |s.msgs| &&
    var r := SealNextMessage(s, maxOut);
    || !Grows(s.writer, r.state.writer)
    || (r.result.Progress? && r.result.whole
        && PacketWraps(r.state.(written := s.written + 1), maxOut - r.result.wireLen))
  }

  /** A call of send_flight does. */
  ghost predicate FlightWraps(s: Outgoing, mtu: nat, bio: seq<int>)
    requires s.Ok()
    decreases |s.msgs| - s.written, s.Left()
  {
    s.written < |s.msgs| &&
    var p := SealPacket(s, mtu, false);
    || PacketWraps(s, mtu)
    || (p.records.Some? && Answer(bio) > 0 && FlightWraps(p.state, mtu, bio[1..]))
  }

  /** One turn of sealing a packet. */
  lemma PacketTurn(s: Outgoing, maxOut: nat, progress: bool, r: Sealed)
    requires s.Ok() && s.written < |s.msgs| && r == SealNextMessage(s, maxOut)
    ensures r.result.SealError? ==> SealPacket(s, maxOut, progress) == Packet(r.state, None, 0)
    ensures r.result.NoProgress? ==>
              SealPacket(s, maxOut, progress) == Packet(s, if progress then Some([]) else None, 0)
    ensures r.result.Progress? && !r.result.whole ==>
              SealPacket(s, maxOut, progress) == Packet(r.state, Some([r.result.record]), r.result.wireLen)
    ensures r.result.Progress? && r.result.whole ==>
              var rest := SealPacket(r.state.(written := s.written + 1), maxOut - r.result.wireLen, true);
              SealPacket(s, maxOut, progress)
              == if rest.records.None? then rest
                 else Packet(rest.state, Some([r.result.record] + rest.records.value), r.result.wireLen + rest.wireLen)
  {
    hide SealNextMessage;
  }

  lemma WrapsTurn(s: Outgoing, maxOut: nat, r: Sealed)
    requires s.Ok() && s.written < |s.msgs| && r == SealNextMessage(s, maxOut)
    ensures PacketWraps(s, maxOut) <==>
            || !Grows(s.writer, r.state.writer)
            || (r.result.Progress? && r.result.whole
                && PacketWraps(r.state.(written := s.written + 1), maxOut - r.result.wireLen))
  {
    hide SealNextMessage, Grows;
  }

  /** A packet that was sealed has not wrapped a counter. */
  lemma {:induction false} SealedPacket(s: Outgoing, maxOut: nat, progress: bool)
    requires s.Ok() && s.writer.Ok() && SealPacket(s, maxOut, progress).records.Some?
    ensures !PacketWraps(s, maxOut)
    decreases |s.msgs| - s.written
  {
    if s.written < |s.msgs| {
      hide SealNextMessage, Numbered, Grows, SealPacket, PacketWraps;
      var r := SealNextMessage(s, maxOut);
      PacketTurn(s, maxOut, progress, r);
      WrapsTurn(s, maxOut, r);
      SealNumbers(s, maxOut);
      if r.result.Progress? && r.result.whole {
        GrownOk(s.writer, r.state.writer);
        SealedPacket(r.state.(written := s.written + 1), maxOut - r.result.wireLen, true);
      }
    }
  }

  lemma GrownOk(w: Writer, w': Writer)
    requires Grows(w, w')
    ensures w'.Ok()
  {
  }

  /** So a call that does not fail has not either. */
  lemma {:induction false} SentFlight(s: Outgoing, mtu: nat, bio: seq<int>)
    requires s.Ok() && s.writer.Ok() && !SendFlight(s, mtu, bio).result.Failed?
    ensures !FlightWraps(s, mtu, bio)
    decreases |s.msgs| - s.written, s.Left()
  {
    hide PacketWraps, Grows;
    if s.written < |s.msgs| {
      SealedPacket(s, mtu, false);
      var p := SealPacket(s, mtu, false);
      if Answer(bio) > 0 {
        PacketNumbers(s, mtu, false);
        GrownOk(s.writer, p.state.writer);
        SentFlight(p.state, mtu, bio[1..]);
      }
    }
  }

  /** The records of a packet are numbered from where the counters stood on. */
  ghost predicate PacketNumbered(s: Outgoing, p: Packet) {
    && Grows(s.writer, p.state.writer)
    && (p.records.Some? ==> forall r | r in p.records.value :: Numbered(s.writer, p.state.writer, r))
  }

  /** A packet that has at most the one record, or failed. */
  lemma PartNumbered(s: Outgoing, maxOut: nat, progress: bool)
    requires s.Ok() && s.writer.Ok() && !PacketWraps(s, maxOut) && s.written < |s.msgs|
    requires var r := SealNextMessage(s, maxOut).result; !r.Progress? || !r.whole
    ensures PacketNumbered(s, SealPacket(s, maxOut, progress))
  {
    var r := SealNextMessage(s, maxOut);
    hide SealNextMessage, Numbered, Grows, SealPacket, PacketWraps;
    PacketTurn(s, maxOut, progress, r);
    WrapsTurn(s, maxOut, r);
    if !r.result.SealError? {
      SealNumbers(s, maxOut);
    }
  }

  lemma EndNumbered(s: Outgoing, maxOut: nat, progress: bool)
    requires s.Ok() && s.writer.Ok() && s.written == |s.msgs|
    ensures PacketNumbered(s, SealPacket(s, maxOut, progress))
  {
    Stays(s.writer);
    hide Numbered, Grows;
  }

  lemma {:induction false} PacketNumbers(s: Outgoing, maxOut: nat, progress: bool)
    requires s.Ok() && s.writer.Ok() && !PacketWraps(s, maxOut)
    ensures PacketNumbered(s, SealPacket(s, maxOut, progress))
    decreases |s.msgs| - s.written
  {
    hide SealNextMessage, Numbered, Grows, SealPacket, PacketWraps, PacketNumbered;
    if s.written == |s.msgs| {
      EndNumbered(s, maxOut, progress);
    } else if !SealNextMessage(s, maxOut).result.Progress? || !SealNextMessage(s, maxOut).result.whole {
      PartNumbered(s, maxOut, progress);
    } else {
      var r := SealNextMessage(s, maxOut);
      PacketTurn(s, maxOut, progress, r);
      WrapsTurn(s, maxOut, r);
      SealNumbers(s, maxOut);
      var next := r.state.(written := s.written + 1);
      GrownOk(s.writer, next.writer);
      PacketNumbers(next, maxOut - r.result.wireLen, true);
      WholeNumbered(s, next, r.result.record, SealPacket(next, maxOut - r.result.wireLen, true),
                    SealPacket(s, maxOut, progress));
    }
  }

  lemma WholeNumbered(s: Outgoing, next: Outgoing, record: Record, rest: Packet, p: Packet)
    requires Grows(s.writer, next.writer) && Numbered(s.writer, next.writer, record) && PacketNumbered(next, rest)
    requires p.state == rest.state && p.records.Some? == rest.records.Some?
    requires p.records.Some? ==> p.records.value == [record] + rest.records.value
    ensures PacketNumbered(s, p)
  {
    hide Numbered, Grows;
    GrowsOn(s.writer, next.writer, rest.state.writer);
    if p.records.Some? {
      Joined(s.writer, next.writer, rest.state.writer, [record], rest.records.value);
    }
  }

  lemma GrowsOn(w: Writer, w1: Writer, w': Writer)
    requires Grows(w, w1) && Grows(w1, w')
    ensures Grows(w, w')
  {
  }

  lemma Joined(w: Writer, w1: Writer, w': Writer, a: seq<Record>, b: seq<Record>)
    requires Grows(w, w1) && Grows(w1, w')
    requires (forall r | r in a :: Numbered(w, w1, r)) && forall r | r in b :: Numbered(w1, w', r)
    ensures Grows(w, w') && forall r | r in a + b :: Numbered(w, w', r)
  {
    forall r | r in a + b ensures Numbered(w, w', r) {
      NumberedLater(w, w1, w', r);
    }
  }

  /** Unless a counter wraps, the records of a flight are numbered from where the counters stood on, also if sealing
      fails for another reason. */
  lemma {:induction false} SendNumbers(s: Outgoing, mtu: nat, bio: seq<int>)
    requires s.Ok() && s.writer.Ok() && !FlightWraps(s, mtu, bio)
    ensures var r := SendFlight(s, mtu, bio);
            && Grows(s.writer, r.state.writer)
            && forall x | x in Flatten(r.packets) :: Numbered(s.writer, r.state.writer, x)
    decreases |s.msgs| - s.written, s.Left()
  {
    hide Numbered, PacketWraps;
    if s.written < |s.msgs| {
      var p := SealPacket(s, mtu, false);
      PacketNumbers(s, mtu, false);
      if p.records.Some? && Answer(bio) > 0 {
        SendNumbers(p.state, mtu, bio[1..]);
        var rest := SendFlight(p.state, mtu, bio[1..]);
        Joined(s.writer, p.state.writer, rest.state.writer, p.records.value, Flatten(rest.packets));
        assert ([p.records.value] + rest.packets)[1..] == rest.packets;
      }
    }
  }
}
