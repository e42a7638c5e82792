/** The receiving half of the DTLS handshake transport as a function on values (d1_both.cc). */
module ReceiverSpec {
  import opened Bytes
  import opened DtlsWire
  import opened Reassembly

  /** The receive fields of DTLS1_STATE: the ring of messages, the number of the next message to read,
      the read epoch, and the length limit of ssl_max_handshake_message_len. */
  datatype Incoming = Incoming(ring: seq<Option<Slot>>, readSeq: nat, readEpoch: nat, maxLen: nat)
  {
    function Index(seqNo: nat): (i: nat)
      ensures i < MAX_FLIGHT
    {
      seqNo % MAX_FLIGHT
    }

    /** Every occupied slot i holds a message with number i mod 7 in [readSeq, readSeq + 7). */
    ghost predicate RingOk() {
      && |ring| == MAX_FLIGHT
      && readSeq < SEQ_MODULUS
      && forall i: nat | i < MAX_FLIGHT && ring[i].Some? ::
           && Index(ring[i].value.seqNo) == i
           && readSeq <= ring[i].value.seqNo < readSeq + MAX_FLIGHT
           && ring[i].value.seqNo < SEQ_MODULUS
           && ring[i].value.msgLen < 0x100_0000
           && ring[i].value.got.Keys <= Range(0, ring[i].value.msgLen)
    }

    /** dtls1_is_current_message_complete. */
    predicate CurrentComplete()
      requires |ring| == MAX_FLIGHT
    {
      var s := ring[Index(readSeq)];
      s.Some? && s.value.Complete()
    }

    /** dtls_has_unprocessed_handshake_data, but for its ChangeCipherSpec flag: a message other than the one
        that has been handed over. */
    predicate Unprocessed(hasMessage: bool)
      requires |ring| == MAX_FLIGHT
    {
      exists i: nat :: i < MAX_FLIGHT && ring[i].Some? && !(hasMessage && i == Index(readSeq))
    }

    /** Whether dtls1_open_handshake drops the fragment without looking at the ring. */
    predicate OutOfWindow(h: Header) {
      h.seqNo < readSeq || h.seqNo > readSeq + MAX_FLIGHT
    }

    /** The bounds checks and the single-message rule of the encrypted epoch. */
    predicate Rejects(h: Header) {
      || h.fragOff > h.msgLen
      || h.fragOff + h.fragLen > h.msgLen
      || h.msgLen > maxLen
      || (readEpoch == 1 && h.seqNo != readSeq)
    }

    /** Whether dtls1_get_incoming_message fails: one past the window, or a mismatch with what is there. */
    predicate Conflicts(h: Header)
      requires |ring| == MAX_FLIGHT
    {
      || h.seqNo < readSeq
      || h.seqNo - readSeq >= MAX_FLIGHT
      || (var s := ring[Index(h.seqNo)];
          s.Some? && (s.value.typ != h.typ || s.value.msgLen != h.msgLen))
    }

    /** One fragment; None is a fatal error. */
    function Accept(h: Header, body: seq<byte>): Option<Incoming>
      requires |ring| == MAX_FLIGHT
    {
      if Rejects(h) then None
      else if OutOfWindow(h) then Some(this)
      else if Conflicts(h) then None
      else
        var i := Index(h.seqNo);
        var slot := if ring[i].Some? then ring[i].value else NewSlot(h.typ, h.seqNo, h.msgLen);
        Some(this.(ring := ring[i := Some(slot.Receive(h.fragOff, body))]))
    }

    /** Every fragment of a handshake record in turn. */
    function AcceptAll(bytes: seq<byte>): Option<Incoming>
      requires |ring| == MAX_FLIGHT
      decreases |bytes|
    {
      if bytes == [] then Some(this)
      else
        var p := ParseFragment(bytes);
        if p.None? then None
        else
          var next := Accept(p.value.header, p.value.body);
          if next.None? then None else next.value.AcceptAll(p.value.rest)
    }

    /** dtls1_next_message; handshake_read_seq is a uint16_t. */
    function Next(): Incoming
      requires |ring| == MAX_FLIGHT
    {
      this.(ring := ring[Index(readSeq) := None], readSeq := (readSeq + 1) % SEQ_MODULUS)
    }
  }

  /** The slot for a number in the window, if occupied, is that number's: the assertion of
      dtls1_get_incoming_message. */
  lemma SameNumber(r: Incoming, seqNo: nat)
    requires r.RingOk() && r.readSeq <= seqNo < r.readSeq + MAX_FLIGHT
    requires r.ring[r.Index(seqNo)].Some?
    ensures r.ring[r.Index(seqNo)].value.seqNo == seqNo
  {
  }

  lemma ReceiveKeys(s: Slot, off: nat, body: seq<byte>)
    requires s.got.Keys <= Range(0, s.msgLen) && off + |body| <= s.msgLen
    ensures s.Receive(off, body).got.Keys <= Range(0, s.msgLen)
  {
  }

  lemma ReceiveRingOk(r: Incoming, i: nat, off: nat, body: seq<byte>)
    requires r.RingOk() && i < MAX_FLIGHT && r.ring[i].Some? && off + |body| <= r.ring[i].value.msgLen
    ensures r.(ring := r.ring[i := Some(r.ring[i].value.Receive(off, body))]).RingOk()
  {
    ReceiveKeys(r.ring[i].value, off, body);
  }

  lemma AcceptRingOk(r: Incoming, h: Header, body: seq<byte>)
    requires r.RingOk() && h.Fits() && |body| == h.fragLen && r.Accept(h, body).Some?
    ensures r.Accept(h, body).value.RingOk()
  {
    if !r.OutOfWindow(h) {
      var i := r.Index(h.seqNo);
      if r.ring[i].Some? {
        SameNumber(r, h.seqNo);
        ReceiveKeys(r.ring[i].value, h.fragOff, body);
      } else {
        ReceiveKeys(NewSlot(h.typ, h.seqNo, h.msgLen), h.fragOff, body);
      }
    }
  }

  /** Where a fragment that is not an error goes: one whose number is before the current one or more than seven ahead is
      dropped, and every other one is of the same type and length as its message, within it, and is then there. */
  lemma AcceptPlaces(r: Incoming, h: Header, body: seq<byte>)
    requires r.RingOk() && h.Fits() && |body| == h.fragLen && r.Accept(h, body).Some?
    ensures var next := r.Accept(h, body).value;
            if h.seqNo < r.readSeq || h.seqNo > r.readSeq + 7 then next == r
            else
              var slot := next.ring[h.seqNo % 7];
              && h.seqNo < r.readSeq + 7 && h.fragOff + h.fragLen <= h.msgLen <= r.maxLen
              && slot.Some? && slot.value.typ == h.typ && slot.value.seqNo == h.seqNo && slot.value.msgLen == h.msgLen
              && (forall i | h.fragOff <= i < h.fragOff + h.fragLen :: i in slot.value.got)
              && next == r.(ring := r.ring[h.seqNo % 7 := slot])
  {
    if r.readSeq <= h.seqNo < r.readSeq + 7 {
      if r.ring[r.Index(h.seqNo)].Some? {
        SameNumber(r, h.seqNo);
      }
    }
  }

  lemma {:induction false} AcceptAllRingOk(r: Incoming, bytes: seq<byte>)
    requires r.RingOk() && r.AcceptAll(bytes).Some?
    ensures r.AcceptAll(bytes).value.RingOk()
    decreases |bytes|
  {
    if bytes != [] {
      var p := ParseFragment(bytes).value;
      PutParse(bytes);
      AcceptRingOk(r, p.header, p.body);
      AcceptAllRingOk(r.Accept(p.header, p.body).value, p.rest);
    }
  }

  lemma {:induction false} AcceptAllFrame(r: Incoming, bytes: seq<byte>)
    requires |r.ring| == MAX_FLIGHT && r.AcceptAll(bytes).Some?
    ensures var next := r.AcceptAll(bytes).value;
            next == r.(ring := next.ring) && |next.ring| == MAX_FLIGHT
    decreases |bytes|
  {
    if bytes != [] {
      var p := ParseFragment(bytes).value;
      AcceptAllFrame(r.Accept(p.header, p.body).value, p.rest);
    }
  }

  /** A complete message stays as it is. */
  lemma {:induction false} CompleteStays(r: Incoming, bytes: seq<byte>, i: nat)
    requires |r.ring| == MAX_FLIGHT && i < MAX_FLIGHT && r.ring[i].Some? && r.ring[i].value.Complete()
    requires r.AcceptAll(bytes).Some?
    ensures |r.AcceptAll(bytes).value.ring| == MAX_FLIGHT && r.AcceptAll(bytes).value.ring[i] == r.ring[i]
    decreases |bytes|
  {
    if bytes != [] {
      var p := ParseFragment(bytes).value;
      CompleteStays(r.Accept(p.header, p.body).value, p.rest, i);
    }
  }

  /** The ring stays consistent when handshake_read_seq advances, also when it wraps from 65535 to 0,
      where the slots of consecutive messages are not neighbours. */
  lemma NextRingOk(r: Incoming)
    requires r.RingOk()
    ensures r.Next().RingOk()
  {
    forall i: nat | i < MAX_FLIGHT && r.Next().ring[i].Some?
      ensures r.readSeq < r.ring[i].value.seqNo
    {
    }
  }
}
