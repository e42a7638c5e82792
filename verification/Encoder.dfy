/** The encoder of nanopb (pb_encode.c), writing to streams what Encoding says. */
module Encoder {
  import opened Bytes
  import opened Varints
  import opened Descriptors
  import opened Scalars
  import opened Encoding
  import opened OutStream
  import opened FieldIter

  /** value & 0x7F and value >> 7, value & 0xFF and value >> 8. */
  function Low7(n: nat): (r: nat)
    ensures r < 128
  {
    n % 128
  }

  function Shr7(n: nat): (r: nat)
    ensures n > 0 ==> r < n
  {
    n / 128
  }

  function Low8(n: nat): (r: nat)
    ensures r < 256
  {
    n % 256
  }

  function Shr8(n: nat): nat {
    n / 256
  }

  lemma PutTurn(n: nat)
    ensures if n < 128 then Put(n) == [n] && Low7(n) == n && Shr7(n) == 0
            else Put(n) == [Low7(n) + 128] + Put(Shr7(n)) && Shr7(n) > 0
  {
  }

  lemma LeTurn(x: nat, n: nat)
    ensures if n == 0 then PutLe(x, n) == [] else PutLe(x, n) == [Low8(x)] + PutLe(Shr8(x), n - 1)
  {
  }

  /** After the groups in head, one more. */
  lemma GroupTurn(head: seq<byte>, left: nat, whole: seq<byte>)
    requires head + Put(left) == whole
    ensures |head| < |whole|
    ensures if left < 128 then Shr7(left) == 0 && head + [Low7(left)] == whole
            else Shr7(left) > 0 && head + [Low7(left) + 128] + Put(Shr7(left)) == whole
  {
    PutTurn(left);
  }

  lemma TenGroups(value: nat)
    requires value < TWO_64
    ensures |Put(value)| <= 10
  {
    GetPut64(value, []);
  }

  /** The loop of pb_encode_varint: at most ten groups. */
  method FillGroups(value: nat) returns (buffer: array<byte>, i: nat)
    requires 0x7F < value < TWO_64
    ensures i <= buffer.Length && buffer[..i] == Put(value)
    ensures fresh(buffer)
  {
    TenGroups(value);
    hide Put, Low7, Shr7;
    buffer := new byte[10];
    i := 0;
    var left := value;
    while left != 0
      invariant 0 <= i <= |Put(value)|
      invariant left > 0 ==> buffer[..i] + Put(left) == Put(value)
      invariant left == 0 ==> i > 0 && buffer[i - 1] >= 128 && buffer[..i - 1] + [buffer[i - 1] - 128] == Put(value)
      decreases left
    {
      GroupTurn(buffer[..i], left, Put(value));
      buffer[i] := Low7(left) + 128;
      left := Shr7(left);
      i := i + 1;
      assert buffer[..i] == buffer[..i - 1] + [buffer[i - 1]];
    }
    buffer[i - 1] := buffer[i - 1] - 128;
    assert buffer[..i] == buffer[..i - 1] + [buffer[i - 1]];
  }

  /** pb_encode_varint. */
  method EncodeVarint(s: OStream, value: nat) returns (ok: bool)
    requires s.Valid() && value < TWO_64
    modifies s, s.buffer
    ensures Wrote(old(s.Now()), Some(Put(value)), ok, s.Now())
  {
    if value <= 0x7F {
      ok := s.Write([value], 1);
    } else {
      var buffer, i := FillGroups(value);
      ok := s.Write(buffer[..i], i);
    }
  }

  /** pb_encode_string. */
  method EncodeString(s: OStream, b: seq<byte>) returns (ok: bool)
    requires s.Valid() && |b| < TWO_64
    modifies s, s.buffer
    ensures Wrote(old(s.Now()), Chunk(Some(b)), ok, s.Now())
  {
    ghost var before := s.Now();
    ok := EncodeVarint(s, |b|);
    if !ok {
      Stopped(before, Some(Put(|b|)), s.Now(), Some(b));
      return;
    }
    ghost var between := s.Now();
    ok := s.Write(b, |b|);
    InTurn(before, Some(Put(|b|)), between, Some(b), ok, s.Now());
  }

  /** pb_encode_tag. */
  method EncodeTag(s: OStream, wire: nat, tag: nat) returns (ok: bool)
    requires s.Valid() && tag < TWO_32 && wire < 8
    modifies s, s.buffer
    ensures Wrote(old(s.Now()), Some(Tag(tag, wire)), ok, s.Now())
  {
    ok := EncodeVarint(s, 8 * tag + wire);
  }

  /** The bytes of a fixed-width number, the low one first. */
  method FillFixed(val: nat, n: nat) returns (bytes: array<byte>)
    ensures bytes.Length == n && bytes[..] == PutLe(val, n)
    ensures fresh(bytes)
  {
    hide PutLe, Low8, Shr8;
    bytes := new byte[n];
    var i, left := 0, val;
    while i < n
      invariant 0 <= i <= n && bytes[..i] + PutLe(left, n - i) == PutLe(val, n)
    {
      LeTurn(left, n - i);
      label Byte:
      bytes[i] := Low8(left);
      left := Shr8(left);
      i := i + 1;
      assert bytes[..i - 1] == old@Byte(bytes[..i - 1]);
      assert bytes[..i] == bytes[..i - 1] + [bytes[i - 1]];
    }
    LeTurn(left, 0);
    assert bytes[..] == bytes[..n] + [];
  }

  /** pb_encode_fixed32 and pb_encode_fixed64: of four bytes or eight. */
  method EncodeFixed(s: OStream, val: nat, n: nat) returns (ok: bool)
    requires s.Valid() && (n == 4 || n == 8)
    modifies s, s.buffer
    ensures Wrote(old(s.Now()), Some(PutLe(val, n)), ok, s.Now())
  {
    var bytes := FillFixed(val, n);
    ok := s.Write(bytes[..], n);
  }

  /** pb_enc_varint and the other scalar encoders. */
  method EncodeScalar(s: OStream, f: Field, v: Value) returns (ok: bool)
    requires s.Valid() && f.dataSize < TWO_32 && TypedValue(f, v) && !f.ltype.Submessage?
    modifies s, s.buffer
    ensures Wrote(old(s.Now()), EncScalar(f, v), ok, s.Now())
  {
    ok := false;
    match f.ltype {
      case Varint =>
        if IntSize(f.dataSize) {
          ok := EncodeVarint(s, v.n % TWO_64);
        }
      case Uvarint =>
        if IntSize(f.dataSize) {
          ok := EncodeVarint(s, v.n);
        }
      case Svarint =>
        if IntSize(f.dataSize) {
          ok := EncodeVarint(s, Zigzag(v.n));
        }
      case Fixed32 => ok := EncodeFixed(s, v.n, 4);
      case Fixed64 => ok := EncodeFixed(s, v.n, 8);
      case Blob =>
        if |v.b| + 4 <= f.dataSize {
          ok := EncodeString(s, v.b);
        }
      case Text | FixedBlob => ok := EncodeString(s, v.b);
    }
  }

  // Arrays, fields and messages.

  /** pb_encode_tag_for_field and the field's encoder. */
  method EncodeTagged(s: OStream, f: Field, v: Value) returns (ok: bool)
    requires s.Valid() && f.tag < TWO_32 && f.dataSize < TWO_32 && TypedValue(f, v)
    modifies s, s.buffer
    ensures Wrote(old(s.Now()), EncTagged(f, v), ok, s.Now())
    decreases f, 1, 0
  {
    ghost var before, tag := s.Now(), Some(Tag(f.tag, f.Wire()));
    ok := EncodeTag(s, f.Wire(), f.tag);
    ghost var between := s.Now();
    if !ok {
      Stopped(before, tag, between, EncValue(f, v));
      return;
    }
    ok := EncodeValue(s, f, v);
    InTurn(before, tag, between, EncValue(f, v), ok, s.Now());
  }

  method EncodeValue(s: OStream, f: Field, v: Value) returns (ok: bool)
    requires s.Valid() && f.dataSize < TWO_32 && TypedValue(f, v)
    modifies s, s.buffer
    ensures Wrote(old(s.Now()), EncValue(f, v), ok, s.Now())
    decreases f, 0, 0
  {
    if f.ltype.Submessage? {
      ok := EncodeSubmessage(s, f.ltype.fields, v.slots);
    } else {
      ok := EncodeScalar(s, f, v);
    }
  }

  /** pb_encode_submessage: the message is first counted, then written through a substream of just that size. */
  method EncodeSubmessage(s: OStream, fields: seq<Field>, m: seq<Slot>) returns (ok: bool)
    requires s.Valid() && Typed(fields, m)
    modifies s, s.buffer
    ensures Wrote(old(s.Now()), Chunk(EncMsg(fields, m)), ok, s.Now())
    decreases fields, 2
  {
    ghost var before := s.Now();
    var counter := new OStream.Sizing();
    ok := EncodeMessage(counter, fields, m);
    if !ok || counter.bytesWritten >= TWO_64 {
      return false;
    }
    var size := counter.bytesWritten;
    ghost var e := EncMsg(fields, m).value;
    ok := EncodeVarint(s, size);
    ghost var between := s.Now();
    if !ok {
      Stopped(before, Some(Put(size)), between, Some(e));
      return;
    }
    ok := EncodeBody(s, fields, m, size);
    InTurn(before, Some(Put(size)), between, Some(e), ok, s.Now());
  }

  /** The message itself: the check that its size has not changed in between never fails. */
  method EncodeBody(s: OStream, fields: seq<Field>, m: seq<Slot>, size: nat) returns (ok: bool)
    requires s.Valid() && Typed(fields, m)
    requires EncMsg(fields, m).Some? && size == |EncMsg(fields, m).value|
    modifies s, s.buffer
    ensures Wrote(old(s.Now()), EncMsg(fields, m), ok, s.Now())
    decreases fields, 1
  {
    if s.buffer == null {
      ok := s.Write([], size);
      return;
    }
    if s.bytesWritten + size > s.maxSize {
      return false;
    }
    ghost var before := s.Now();
    var substream := new OStream.At(s.buffer, s.state, size);
    ok := EncodeMessage(substream, fields, m);
    Within(before, EncMsg(fields, m).value, substream.Now());
    s.bytesWritten := s.bytesWritten + substream.bytesWritten;
    s.state := substream.state;
    if substream.bytesWritten != size {
      return false;
    }
  }

  /** The elements of an array without tags, as encode_array counts and writes them. */
  method EncodePacked(s: OStream, f: Field, items: seq<Value>) returns (ok: bool)
    requires s.Valid() && f.dataSize < TWO_32 && !f.ltype.Submessage? && forall v | v in items :: TypedValue(f, v)
    modifies s, s.buffer
    ensures Wrote(old(s.Now()), EncPacked(f, items), ok, s.Now())
  {
    ghost var before := s.Now();
    ghost var done: Output := Some([]);
    Nothing(before);
    EndOfItems(items);
    var i := 0;
    while i < |items|
      invariant 0 <= i <= |items| && s.Valid()
      invariant done.Some? && Wrote(before, done, true, s.Now())
      invariant Then(done, EncPacked(f, items[i..])) == EncPacked(f, items)
    {
      ghost var between, e, more := s.Now(), EncScalar(f, items[i]), EncPacked(f, items[i + 1..]);
      assert items[i..][0] == items[i] && items[i..][1..] == items[i + 1..];
      ThenThen(done, e, more);
      ok := EncodeScalar(s, f, items[i]);
      Onward(before, done, between, e, ok, s.Now(), more);
      if !ok {
        return;
      }
      done := Then(done, e);
      i := i + 1;
    }
    ok := true;
  }

  lemma EndOfItems(items: seq<Value>)
    ensures items[0..] == items && items[|items|..] == []
    ensures forall done: Output :: Then(done, Some([])) == done && Then(Some([]), done) == done
  {
    forall done: Output ensures Then(done, Some([])) == done && Then(Some([]), done) == done {
      if done.Some? {
        assert done.value + [] == done.value == [] + done.value;
      }
    }
  }

  /** The elements of an array, each with its tag. */
  method EncodeEach(s: OStream, f: Field, items: seq<Value>) returns (ok: bool)
    requires s.Valid() && f.tag < TWO_32 && f.dataSize < TWO_32 && forall v | v in items :: TypedValue(f, v)
    modifies s, s.buffer
    ensures Wrote(old(s.Now()), EncEach(f, items), ok, s.Now())
    decreases f, 2, 0
  {
    ghost var before := s.Now();
    ghost var done: Output := Some([]);
    Nothing(before);
    EndOfItems(items);
    var i := 0;
    while i < |items|
      invariant 0 <= i <= |items| && s.Valid()
      invariant done.Some? && Wrote(before, done, true, s.Now())
      invariant Then(done, EncEach(f, items[i..])) == EncEach(f, items)
    {
      ghost var between, e, more := s.Now(), EncTagged(f, items[i]), EncEach(f, items[i + 1..]);
      assert items[i..][0] == items[i] && items[i..][1..] == items[i + 1..];
      ThenThen(done, e, more);
      ok := EncodeTagged(s, f, items[i]);
      Onward(before, done, between, e, ok, s.Now(), more);
      if !ok {
        return;
      }
      done := Then(done, e);
      i := i + 1;
    }
    ok := true;
  }

  lemma {:induction false} FixedSize(f: Field, items: seq<Value>)
    requires (f.ltype.Fixed32? || f.ltype.Fixed64?) && forall v | v in items :: TypedValue(f, v)
    ensures EncPacked(f, items).Some?
    ensures |EncPacked(f, items).value| == (if f.ltype.Fixed32? then 4 else 8) * |items|
  {
    if items != [] {
      assert TypedValue(f, items[0]);
      FixedSize(f, items[1..]);
    }
  }

  /** encode_array. The size of a packed array is computed or counted first. */
  method EncodeArray(s: OStream, f: Field, items: seq<Value>) returns (ok: bool)
    requires s.Valid() && f.tag < TWO_32 && f.dataSize < TWO_32 && forall v | v in items :: TypedValue(f, v)
    modifies s, s.buffer
    ensures Wrote(old(s.Now()), EncArray(f, items), ok, s.Now())
    decreases f, 3, 0
  {
    if items == [] {
      Nothing(s.Now());
      return true;
    }
    if |items| > f.arraySize {
      return false;
    }
    if f.Packable() {
      ok := EncodePackedArray(s, f, items);
    } else {
      ok := EncodeEach(s, f, items);
    }
  }

  method EncodePackedArray(s: OStream, f: Field, items: seq<Value>) returns (ok: bool)
    requires s.Valid() && f.tag < TWO_32 && f.dataSize < TWO_32 && f.Packable()
    requires forall v | v in items :: TypedValue(f, v)
    modifies s, s.buffer
    ensures Wrote(old(s.Now()), Then(Some(Tag(f.tag, 2)), Chunk(EncPacked(f, items))), ok, s.Now())
  {
    ghost var before, tag, e := s.Now(), Some(Tag(f.tag, 2)), EncPacked(f, items);
    ok := EncodeTag(s, 2, f.tag);
    ghost var tagged := s.Now();
    if !ok {
      Stopped(before, tag, tagged, Chunk(e));
      return;
    }
    var size;
    if f.ltype.Fixed32? || f.ltype.Fixed64? {
      FixedSize(f, items);
      size := (if f.ltype.Fixed32? then 4 else 8) * |items|;
    } else {
      var counter := new OStream.Sizing();
      ok := EncodePacked(counter, f, items);
      if !ok {
        InTurn(before, tag, tagged, Chunk(e), false, s.Now());
        return;
      }
      size := counter.bytesWritten;
    }
    ok := EncodeSized(s, f, items, size);
    InTurn(before, tag, tagged, Chunk(e), ok, s.Now());
  }

  /** The size of a packed array, and its elements. */
  method EncodeSized(s: OStream, f: Field, items: seq<Value>, size: nat) returns (ok: bool)
    requires s.Valid() && f.dataSize < TWO_32 && f.Packable() && forall v | v in items :: TypedValue(f, v)
    requires EncPacked(f, items).Some? && size == |EncPacked(f, items).value|
    modifies s, s.buffer
    ensures Wrote(old(s.Now()), Chunk(EncPacked(f, items)), ok, s.Now())
  {
    if size >= TWO_64 {
      return false;
    }
    ghost var before, e := s.Now(), EncPacked(f, items);
    ok := EncodeVarint(s, size);
    ghost var between := s.Now();
    if !ok {
      Stopped(before, Some(Put(size)), between, e);
      return;
    }
    if s.buffer == null {
      ok := s.Write([], size);
    } else {
      ok := EncodePacked(s, f, items);
    }
    InTurn(before, Some(Put(size)), between, e, ok, s.Now());
  }

  /** encode_basic_field. */
  method EncodeField(s: OStream, f: Field, m: seq<Slot>) returns (ok: bool)
    requires s.Valid() && TypedAt(f, m)
    modifies s, s.buffer
    ensures Wrote(old(s.Now()), EncField(f, m), ok, s.Now())
    decreases f, 4, 0
  {
    var slot := m[f.slot];
    assert EncField(f, m) == EncSlot(f, slot);
    Nothing(s.Now());
    ok := true;
    match f.rule {
      case Required =>
        ok := EncodeTagged(s, f, slot.v);
      case Optional =>
        if slot.has {
          ok := EncodeTagged(s, f, slot.v);
        }
      case Singular =>
        if !IsDefault(f, slot) {
          ok := EncodeTagged(s, f, slot.v);
        }
      case Repeated | FixedCount =>
        ok := EncodeArray(s, f, slot.items);
      case Oneof =>
        if slot.which == f.tag {
          ok := EncodeTagged(s, f, slot.v);
        }
    }
  }

  /** pb_encode: all fields, as the iterator comes to them. */
  method EncodeMessage(s: OStream, fields: seq<Field>, m: seq<Slot>) returns (ok: bool)
    requires s.Valid() && Typed(fields, m)
    modifies s, s.buffer
    ensures Wrote(old(s.Now()), EncMsg(fields, m), ok, s.Now())
    decreases fields, 0
  {
    Nothing(s.Now());
    if fields == [] {
      return true;
    }
    var iter := new FieldIter(fields);
    ghost var before := s.Now();
    ghost var done: Output := Some([]);
    assert fields[0..] == fields;
    ThenNothing();
    var more := true;
    while more
      invariant s.Valid() && iter.Valid() && iter.fields == fields
      invariant done.Some? && Wrote(before, done, true, s.Now())
      invariant if more then Then(done, EncMsg(fields[iter.pos..], m)) == EncMsg(fields, m)
                else done == EncMsg(fields, m)
      decreases if more then |fields| - iter.pos else 0
    {
      var f := fields[iter.pos];
      ghost var between, e, rest := s.Now(), EncField(f, m), EncMsg(fields[iter.pos + 1..], m);
      assert fields[iter.pos..][0] == f && fields[iter.pos..][1..] == fields[iter.pos + 1..];
      ThenThen(done, e, rest);
      assert TypedAt(f, m);
      ok := EncodeField(s, f, m);
      Onward(before, done, between, e, ok, s.Now(), rest);
      if !ok {
        return;
      }
      done := Then(done, e);
      more := iter.Next();
    }
    ok := true;
  }

  lemma ThenNothing()
    ensures forall done: Output :: Then(done, Some([])) == done && Then(Some([]), done) == done
  {
    EndOfItems([]);
  }

  /** pb_get_encoded_size. */
  method GetEncodedSize(fields: seq<Field>, m: seq<Slot>) returns (ok: bool, size: nat)
    requires Typed(fields, m)
    ensures ok == EncMsg(fields, m).Some?
    ensures ok ==> size == |EncMsg(fields, m).value|
  {
    var s := new OStream.Sizing();
    ok := EncodeMessage(s, fields, m);
    size := s.bytesWritten;
  }

  /** Encoding into a buffer succeeds just if the size that is counted first is within its capacity, and then writes as
      many bytes and no others; otherwise too it stays within the buffer. */
  method EncodeToBuffer(fields: seq<Field>, m: seq<Slot>, buffer: array<byte>, capacity: nat)
    returns (ok: bool, written: nat)
    requires Typed(fields, m) && capacity <= buffer.Length
    modifies buffer
    ensures ok == (EncMsg(fields, m).Some? && |EncMsg(fields, m).value| <= capacity)
    ensures ok ==> written == |EncMsg(fields, m).value| && buffer[..written] == EncMsg(fields, m).value
    ensures buffer[capacity..] == old(buffer[capacity..])
  {
    var s := new OStream.At(buffer, 0, capacity);
    ok := EncodeMessage(s, fields, m);
    written := s.bytesWritten;
  }
}
