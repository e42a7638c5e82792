/** The receiving half of the DTLS handshake transport in place: DTLS1_STATE's ring of incoming messages. */
module DtlsReceiver {
  import opened Bytes
  import opened DtlsWire
  import opened Reassembly
  import opened ReceiverSpec

  /** SSLMessage: type, body and the whole serialised message. */
  datatype Message = Message(typ: byte, body: seq<byte>, raw: seq<byte>)

  class Receiver {
    const incoming: array<Fragment?>
    var readSeq: nat
    var readEpoch: nat
    const maxLen: nat
    var hasMessage: bool

    ghost var view: Incoming
    ghost var Repr: set<object>

    ghost predicate SlotValid(i: nat)
      requires incoming.Length == MAX_FLIGHT == |view.ring| && i < MAX_FLIGHT
      reads this, Repr, incoming
    {
      if incoming[i] == null then view.ring[i] == None
      else
        && incoming[i] in Repr && incoming[i].Repr <= Repr && this !in incoming[i].Repr && incoming !in incoming[i].Repr
        && incoming[i].Valid()
        && view.ring[i] == Some(incoming[i].view)
    }

    ghost predicate Valid()
      reads this, Repr
      ensures Valid() ==> this in Repr
    {
      && this in Repr && incoming in Repr
      && incoming.Length == MAX_FLIGHT
      && view.RingOk()
      && view.readSeq == readSeq && view.readEpoch == readEpoch && view.maxLen == maxLen
      && (forall i: nat | i < MAX_FLIGHT :: SlotValid(i))
      && (forall i: nat, j: nat | i < j < MAX_FLIGHT && incoming[i] != null && incoming[j] != null ::
            incoming[i].Repr !! incoming[j].Repr)
    }

    constructor (maxLen: nat)
      ensures Valid() && fresh(Repr)
      ensures view == Incoming(seq(MAX_FLIGHT, _ => None), 0, 0, maxLen) && !hasMessage
    {
      incoming := new Fragment?[MAX_FLIGHT](_ => null);
      readSeq, readEpoch, hasMessage := 0, 0, false;
      this.maxLen := maxLen;
      view := Incoming(seq(MAX_FLIGHT, _ => None), 0, 0, maxLen);
      Repr := {this, incoming};
    }

    /** dtls1_get_incoming_message: null is a fatal error. */
    method GetIncomingMessage(h: Header) returns (f: Fragment?)
      requires Valid() && h.Fits()
      modifies Repr
      ensures Valid() && fresh(Repr - old(Repr))
      ensures readSeq == old(readSeq) && hasMessage == old(hasMessage)
      ensures f == null <==> old(view).Conflicts(h)
      ensures f == null ==> view == old(view)
      ensures f != null ==>
                var i := view.Index(h.seqNo);
                && f == incoming[i] && f.msgLen == h.msgLen
                && view == old(view).(ring := old(view).ring[i := Some(f.view)])
                && f.view == if old(view).ring[i].Some? then old(view).ring[i].value
                             else NewSlot(h.typ, h.seqNo, h.msgLen)
    {
      if h.seqNo < readSeq || h.seqNo - readSeq >= MAX_FLIGHT {
        return null;
      }
      var i := h.seqNo % MAX_FLIGHT;
      f := incoming[i];
      assert SlotValid(i);
      if f != null {
        SameNumber(view, h.seqNo);
        assert f.seqNo == h.seqNo;
        if f.typ != h.typ || f.msgLen != h.msgLen {
          return null;
        }
        assert view.ring == view.ring[i := Some(f.view)];
        return;
      }
      f := new Fragment(h.typ, h.seqNo, h.msgLen);
      incoming[i] := f;
      view := view.(ring := view.ring[i := Some(f.view)]);
      Repr := Repr + f.Repr;
      forall j: nat | j < MAX_FLIGHT ensures SlotValid(j) {
        assert j != i ==> old(SlotValid(j));
      }
    }

    /** Delivers a fragment's bytes to the message at slot i. */
    method ReceiveAt(i: nat, off: nat, body: seq<byte>)
      requires Valid() && i < MAX_FLIGHT && incoming[i] != null && view.ring[i].Some?
      requires off + |body| <= incoming[i].msgLen
      modifies Repr
      ensures Valid() && Repr == old(Repr)
      ensures readSeq == old(readSeq) && hasMessage == old(hasMessage)
      ensures view == old(view).(ring := old(view).ring[i := Some(old(view).ring[i].value.Receive(off, body))])
    {
      assert SlotValid(i);
      var f := incoming[i];
      ReceiveRingOk(view, i, off, body);
      forall j: nat | j < MAX_FLIGHT && j != i && incoming[j] != null ensures incoming[j].Repr !! f.Repr {
        assert i < j || j < i;
      }
      f.Receive(off, body);
      view := view.(ring := view.ring[i := Some(f.view)]);
      assert SlotValid(i);
      forall j: nat | j < MAX_FLIGHT && j != i ensures SlotValid(j) {
        assert old(SlotValid(j));
        assert incoming[j] != null ==> incoming[j].Repr !! f.Repr;
      }
    }

    /** One turn of dtls1_open_handshake's fragment loop. */
    method AcceptFragment(h: Header, body: seq<byte>) returns (ok: bool)
      requires Valid() && h.Fits() && |body| == h.fragLen
      modifies Repr
      ensures Valid() && fresh(Repr - old(Repr))
      ensures readSeq == old(readSeq) && hasMessage == old(hasMessage)
      ensures ok <==> old(view).Accept(h, body).Some?
      ensures view == if ok then old(view).Accept(h, body).value else old(view)
    {
      if h.fragOff > h.msgLen || h.fragOff + h.fragLen > h.msgLen || h.msgLen > maxLen {
        return false;
      }
      if readEpoch == 1 && h.seqNo != readSeq {
        return false;
      }
      if h.seqNo < readSeq || h.seqNo > readSeq + MAX_FLIGHT {
        return true;
      }
      var f := GetIncomingMessage(h);
      if f == null {
        return false;
      }
      ReceiveAt(h.seqNo % MAX_FLIGHT, h.fragOff, body);
      return true;
    }

    /** dtls1_open_handshake on the plaintext of a handshake record. */
    method OpenHandshake(record: seq<byte>) returns (ok: bool)
      requires Valid()
      modifies Repr
      ensures Valid() && fresh(Repr - old(Repr))
      ensures readSeq == old(readSeq) && hasMessage == old(hasMessage)
      ensures ok <==> old(view).AcceptAll(record).Some?
      ensures ok ==> view == old(view).AcceptAll(record).value
    {
      var cbs := record;
      while |cbs| > 0
        invariant Valid() && fresh(Repr - old(Repr))
        invariant readSeq == old(readSeq) && hasMessage == old(hasMessage)
        invariant old(view).AcceptAll(record) == view.AcceptAll(cbs)
        decreases |cbs|
      {
        var p := ParseFragment(cbs);
        if p.None? {
          return false;
        }
        PutParse(cbs);
        ok := AcceptFragment(p.value.header, p.value.body);
        if !ok {
          return;
        }
        cbs := p.value.rest;
      }
      return true;
    }

    /** dtls1_get_message: the current message, once every byte of it has arrived. */
    method GetMessage() returns (msg: Option<Message>)
      requires Valid()
      modifies this`hasMessage
      ensures Valid() && hasMessage == (old(hasMessage) || msg.Some?)
      ensures msg.Some? <==> view.CurrentComplete()
      ensures msg.Some? ==>
                var s := view.ring[view.Index(readSeq)].value;
                && |msg.value.body| == s.msgLen
                && (forall i: nat | i < s.msgLen :: msg.value.body[i] == s.got[i])
                && msg.value == Message(s.typ, msg.value.body,
                                        PutHeader(WholeHeader(s.typ, s.seqNo, s.msgLen)) + msg.value.body)
    {
      var i := readSeq % MAX_FLIGHT;
      assert SlotValid(i);
      var f := incoming[i];
      if f == null || f.reassembly != null {
        if f != null {
          assert f.view.got.Keys == f.Marked();
        }
        return None;
      }
      assert f.view.got.Keys == Range(0, f.msgLen);
      msg := Some(Message(f.typ, f.data[HM_HEADER_LENGTH..], f.data[..]));
      hasMessage := true;
      forall j: nat | j < MAX_FLIGHT ensures SlotValid(j) {
        assert old(SlotValid(j));
      }
      assert f.data[..] == f.data[..HM_HEADER_LENGTH] + f.data[HM_HEADER_LENGTH..];
    }

    /** dtls1_next_message; its two assertions are what it asks of its caller. */
    method NextMessage()
      requires Valid() && hasMessage && view.CurrentComplete()
      modifies this, incoming
      ensures Valid() && Repr == old(Repr) && !hasMessage
      ensures view == old(view).Next()
    {
      NextRingOk(view);
      var i := readSeq % MAX_FLIGHT;
      incoming[i] := null;
      readSeq := (readSeq + 1) % SEQ_MODULUS;
      hasMessage := false;
      view := view.Next();
      forall j: nat | j < MAX_FLIGHT ensures SlotValid(j) {
        assert j != i ==> old(SlotValid(j));
      }
    }

    /** The ring part of dtls_has_unprocessed_handshake_data. */
    method HasUnprocessed() returns (left: bool)
      requires Valid()
      ensures left == view.Unprocessed(hasMessage)
    {
      var current := readSeq % MAX_FLIGHT;
      for i := 0 to MAX_FLIGHT
        invariant forall j: nat | j < i :: view.ring[j].None? || (hasMessage && j == current)
      {
        assert SlotValid(i);
        if !(hasMessage && i == current) && incoming[i] != null {
          return true;
        }
      }
      return false;
    }

    /** The epoch change of dtls1_set_read_state. */
    method AdvanceEpoch()
      requires Valid()
      modifies this
      ensures Valid() && Repr == old(Repr) && hasMessage == old(hasMessage)
      ensures view == old(view).(readEpoch := (old(view).readEpoch + 1) % SEQ_MODULUS)
    {
      readEpoch := (readEpoch + 1) % SEQ_MODULUS;
      view := view.(readEpoch := readEpoch);
      forall j: nat | j < MAX_FLIGHT ensures SlotValid(j) {
        assert old(SlotValid(j));
      }
    }
  }
}
