/** Reassembly of one DTLS handshake message from its fragments (d1_both.cc). */
module Reassembly {
  import opened Bytes
  import opened BitMask
  import opened DtlsWire

  /** A partly received message: which body bytes have arrived, and their values. */
  datatype Slot = Slot(typ: byte, seqNo: nat, msgLen: nat, got: map<nat, byte>)
  {
    predicate Complete() {
      got.Keys == Range(0, msgLen)
    }

    /** Receipt of body bytes [off, off + |body|): complete messages ignore it, later bytes win. */
    function Receive(off: nat, body: seq<byte>): Slot {
      if Complete() then this
      else this.(got := got + Place(off, body))
    }
  }

  /** The bytes of body at positions off, off + 1, ... */
  function Place(off: nat, body: seq<byte>): (m: map<nat, byte>)
    ensures m.Keys == Range(off, off + |body|)
    ensures forall i: nat | i in m :: m[i] == body[i - off]
  {
    var r := Range(off, off + |body|);
    map i | i in r :: body[i - off]
  }

  function NewSlot(typ: byte, seqNo: nat, msgLen: nat): Slot {
    Slot(typ, seqNo, msgLen, map[])
  }

  /** The slot that a set of received positions and a message buffer stand for. */
  function SlotOf(typ: byte, seqNo: nat, marked: set<nat>, data: seq<byte>): Slot
    requires |data| >= HM_HEADER_LENGTH
    requires forall i | i in marked :: i < |data| - HM_HEADER_LENGTH
  {
    Slot(typ, seqNo, |data| - HM_HEADER_LENGTH, map i | i in marked :: data[HM_HEADER_LENGTH + i])
  }

  lemma NoneSet(mask: seq<bv8>, n: nat)
    requires n <= 8 * |mask| && forall k | 0 <= k < |mask| :: mask[k] == 0
    ensures Positions(mask, n) == {} && (n > 0 ==> Positions(mask, n) != Range(0, n))
  {
    assert forall i: nat | i < 8 * |mask| :: !At(mask, i);
    assert n > 0 ==> 0 in Range(0, n);
  }

  lemma NothingYet(typ: byte, seqNo: nat, data: seq<byte>)
    requires |data| >= HM_HEADER_LENGTH
    ensures SlotOf(typ, seqNo, {}, data) == NewSlot(typ, seqNo, |data| - HM_HEADER_LENGTH)
  {
  }

  lemma ReceiveBytes(typ: byte, seqNo: nat, marked: set<nat>, data: seq<byte>, off: nat, body: seq<byte>)
    requires HM_HEADER_LENGTH + off + |body| <= |data|
    requires forall i | i in marked :: i < |data| - HM_HEADER_LENGTH
    requires marked != Range(0, |data| - HM_HEADER_LENGTH)
    ensures var data' := data[..HM_HEADER_LENGTH + off] + body + data[HM_HEADER_LENGTH + off + |body|..];
            SlotOf(typ, seqNo, marked + Range(off, off + |body|), data')
            == SlotOf(typ, seqNo, marked, data).Receive(off, body)
  {
    var was := SlotOf(typ, seqNo, marked, data);
    assert was.got.Keys == marked;
    var data' := data[..HM_HEADER_LENGTH + off] + body + data[HM_HEADER_LENGTH + off + |body|..];
    assert SlotOf(typ, seqNo, marked + Range(off, off + |body|), data').got == was.got + Place(off, body);
  }

  /** The marking half of dtls1_hm_fragment_mark. */
  method SetBits(mask: array<bv8>, start: nat, end: nat)
    requires start < end <= 8 * mask.Length
    modifies mask
    ensures forall i: nat | i < 8 * mask.Length ::
              At(mask[..], i) <==> old(At(mask[..], i)) || start <= i < end
  {
    ghost var was := mask[..];
    if start / 8 == end / 8 {
      mask[start / 8] := mask[start / 8] | BitRange(start % 8, end % 8);
      assert mask[..] == was[start / 8 := was[start / 8] | BitRange(start % 8, end % 8)];
      forall i: nat | i < 8 * |was| ensures At(mask[..], i) <==> At(was, i) || start <= i < end {
        OrRange(was, start / 8, start % 8, end % 8, i);
      }
      return;
    }
    mask[start / 8] := mask[start / 8] | BitRange(start % 8, 8);
    for i := start / 8 + 1 to end / 8
      invariant forall j | 0 <= j < i :: mask[j] == Filled(was, start, end, j)
      invariant forall j | i <= j < mask.Length :: mask[j] == was[j]
    {
      mask[i] := 0xff;
    }
    if end % 8 != 0 {
      mask[end / 8] := mask[end / 8] | BitRange(0, end % 8);
    } else if end / 8 < mask.Length {
      EmptyRange(was[end / 8]);
    }
    ghost var now := mask[..];
    assert forall j | 0 <= j < |was| :: now[j] == Filled(was, start, end, j);
    forall i: nat | i < 8 * |was| ensures At(now, i) <==> At(was, i) || start <= i < end {
      FilledAt(was, now, start, end, i);
    }
  }

  /** memcpy. */
  method Overwrite(data: array<byte>, at: nat, body: seq<byte>)
    requires at + |body| <= data.Length
    modifies data
    ensures data[..] == old(data[..at]) + body + old(data[at + |body|..])
  {
    for i := 0 to |body|
      invariant data[..] == old(data[..at]) + body[..i] + old(data[at + i..])
    {
      data[at + i] := body[i];
    }
  }

  /** The completeness test of dtls1_hm_fragment_mark. */
  method AllSet(mask: array<bv8>, n: nat) returns (all: bool)
    requires n > 0 && mask.Length == (n + 7) / 8
    requires TailClear(mask[..], n)
    ensures all <==> Positions(mask[..], n) == Range(0, n)
  {
    CompleteIff(mask[..], n);
    assert Positions(mask[..], n) == Range(0, n) <==> forall i | 0 <= i < n :: At(mask[..], i);
    for i := 0 to n / 8
      invariant forall j | 0 <= j < i :: mask[j] == 0xff
    {
      if mask[i] != 0xff {
        assert mask[..][i] != 0xff;
        return false;
      }
    }
    if n % 8 != 0 && mask[n / 8] != BitRange(0, n % 8) {
      return false;
    }
    return true;
  }

  /** hm_fragment: the message buffer and, until it is complete, the bitmask of received bytes. */
  class Fragment {
    const typ: byte
    const seqNo: nat
    const msgLen: nat
    const data: array<byte>
    var reassembly: array?<bv8>
    ghost var view: Slot
    ghost const Repr: set<object>

    /** The buffer holds the header and the mask fits the message; the mask is kept only while it has gaps. */
    ghost predicate Shape()
      reads this, data, reassembly
    {
      && data.Length == HM_HEADER_LENGTH + msgLen
      && data[..HM_HEADER_LENGTH] == PutHeader(WholeHeader(typ, seqNo, msgLen))
      && (reassembly != null ==>
            && msgLen > 0
            && (reassembly as object) != data
            && reassembly.Length == (msgLen + 7) / 8
            && TailClear(reassembly[..], msgLen)
            && Positions(reassembly[..], msgLen) != Range(0, msgLen))
    }

    ghost predicate Valid()
      reads this, Repr
      ensures Valid() ==> this in Repr && data in Repr
    {
      && this in Repr && data in Repr && (reassembly != null ==> reassembly in Repr)
      && Shape() && view == SlotOf(typ, seqNo, Marked(), data[..])
    }

    /** The body bytes received so far: the set that the bitmask stands for. */
    ghost function Marked(): set<nat>
      requires reassembly != null ==> msgLen <= 8 * reassembly.Length
      reads this, reassembly
    {
      if reassembly == null then Range(0, msgLen) else Positions(reassembly[..], msgLen)
    }

    constructor (typ: byte, seqNo: nat, msgLen: nat)
      ensures Valid() && fresh(Repr)
      ensures view == NewSlot(typ, seqNo, msgLen)
    {
      this.typ, this.seqNo, this.msgLen := typ, seqNo, msgLen;
      var h := PutHeader(WholeHeader(typ, seqNo, msgLen));
      data := new byte[HM_HEADER_LENGTH + msgLen](i => if 0 <= i < HM_HEADER_LENGTH then h[i] else 0);
      Repr := {this, data};
      if msgLen > 0 {
        var mask := new bv8[(msgLen + 7) / 8](_ => 0);
        reassembly := mask;
        Repr := {this, data, mask};
      } else {
        reassembly := null;
      }
      view := NewSlot(typ, seqNo, msgLen);
      new;
      if reassembly != null {
        NoneSet(reassembly[..], msgLen);
      }
      NothingYet(typ, seqNo, data[..]);
      assert data[..HM_HEADER_LENGTH] == PutHeader(WholeHeader(typ, seqNo, msgLen));
    }

    /** dtls1_hm_fragment_mark. */
    method Mark(start: nat, end: nat)
      requires Shape() && reassembly != null && start <= end <= msgLen
      modifies this`reassembly, reassembly
      ensures Shape() && data[..] == old(data[..])
      ensures reassembly == null || reassembly == old(reassembly)
      ensures Marked() == old(Marked()) + Range(start, end)
    {
      if start == end {
        return;
      }
      SetBits(reassembly, start, end);
      assert Marked() == old(Marked()) + Range(start, end);
      var complete := AllSet(reassembly, msgLen);
      if complete {
        reassembly := null;
      }
    }

    /** The memcpy into the message body. */
    method Copy(off: nat, body: seq<byte>)
      requires Shape() && off + |body| <= msgLen
      modifies data
      ensures Shape() && Marked() == old(Marked())
      ensures data[..] == old(data[..HM_HEADER_LENGTH + off]) + body + old(data[HM_HEADER_LENGTH + off + |body|..])
    {
      ghost var was := data[..];
      Overwrite(data, HM_HEADER_LENGTH + off, body);
      assert data[..HM_HEADER_LENGTH] == was[..HM_HEADER_LENGTH];
    }

    /** What dtls1_open_handshake does with a fragment of this message. */
    method Receive(off: nat, body: seq<byte>)
      requires Valid() && off + |body| <= msgLen
      modifies Repr
      ensures Valid()
      ensures view == old(view).Receive(off, body)
    {
      if reassembly == null {
        assert view.got.Keys == Range(0, msgLen);
        return;
      }
      ghost var marked, was := Marked(), view;
      ghost var d := data[..];
      Copy(off, body);
      ghost var d' := data[..];
      assert d' == d[..HM_HEADER_LENGTH + off] + body + d[HM_HEADER_LENGTH + off + |body|..];
      Mark(off, off + |body|);
      ReceiveBytes(typ, seqNo, marked, d, off, body);
      view := SlotOf(typ, seqNo, Marked(), data[..]);
      assert view == was.Receive(off, body) by {
        assert data[..] == d';
        assert Marked() == marked + Range(off, off + |body|);
      }
    }
  }
}
