/** What pb_encode writes (pb_encode.c), as a function of the descriptor and the struct. */
module Encoding {
  import opened Bytes
  import opened Varints
  import opened Descriptors
  import opened Scalars

  type Output = Option<seq<byte>>

  /** One output after the other, if both succeed. */
  function Then(a: Output, b: Output): Output {
    if a.None? || b.None? then None else Some(a.value + b.value)
  }

  /** An output with its length before it. A length that size_t does not hold counts as an error. */
  function Chunk(e: Output): Output {
    if e.None? || |e.value| >= TWO_64 then None else Some(Put(|e.value|) + e.value)
  }

  /** pb_encode_tag. */
  function Tag(tag: nat, wire: nat): seq<byte> {
    Put(8 * tag + wire)
  }

  function EncValue(f: Field, v: Value): Output
    decreases f, 0, 0
  {
    if f.ltype.Submessage? then
      if v.Struct? then Chunk(EncMsg(f.ltype.fields, v.slots)) else None
    else EncScalar(f, v)
  }

  function EncTagged(f: Field, v: Value): Output
    decreases f, 1, 0
  {
    Then(Some(Tag(f.tag, f.Wire())), EncValue(f, v))
  }

  function EncEach(f: Field, items: seq<Value>): Output
    decreases f, 2, |items|
  {
    if items == [] then Some([]) else Then(EncTagged(f, items[0]), EncEach(f, items[1..]))
  }

  function EncPacked(f: Field, items: seq<Value>): Output {
    if items == [] then Some([]) else Then(EncScalar(f, items[0]), EncPacked(f, items[1..]))
  }

  /** encode_array: packed if the type allows it. */
  function EncArray(f: Field, items: seq<Value>): Output
    decreases f, 3, 0
  {
    if items == [] then Some([])
    else if |items| > f.arraySize then None
    else if f.Packable() then Then(Some(Tag(f.tag, 2)), Chunk(EncPacked(f, items)))
    else EncEach(f, items)
  }

  /** encode_basic_field. */
  function EncSlot(f: Field, s: Slot): Output
    requires Holds(f, s)
    decreases f, 4, 0
  {
    match f.rule
    case Required => EncTagged(f, s.v)
    case Optional => if s.has then EncTagged(f, s.v) else Some([])
    case Singular => if IsDefault(f, s) then Some([]) else EncTagged(f, s.v)
    case Repeated => EncArray(f, s.items)
    case FixedCount => if |s.items| == f.arraySize then EncArray(f, s.items) else None
    case Oneof => if s.which == f.tag then EncTagged(f, s.v) else Some([])
  }

  function EncField(f: Field, m: seq<Slot>): Output
    decreases f, 5, 0
  {
    if f.slot < |m| && Holds(f, m[f.slot]) then EncSlot(f, m[f.slot]) else None
  }

  /** pb_encode: the fields in the descriptor's order. */
  function EncMsg(fields: seq<Field>, m: seq<Slot>): Output
    decreases fields
  {
    if fields == [] then Some([]) else Then(EncField(fields[0], m), EncMsg(fields[1..], m))
  }

  // Structs of the descriptor's C type.

  predicate TypedValue(f: Field, v: Value)
    decreases f, 0
  {
    match f.ltype
    case Varint | Svarint => v.Num? && -TWO_63 <= v.n < TWO_63
    case Uvarint | Fixed64 => v.Num? && 0 <= v.n < TWO_64
    case Fixed32 => v.Num? && 0 <= v.n < TWO_32
    case Blob => v.Data? && |v.b| < TWO_32
    case Text => v.Data? && |v.b| <= f.dataSize
    case FixedBlob => v.Data? && |v.b| == f.dataSize
    case Submessage(sub) => v.Struct? && Typed(sub, v.slots)
  }

  predicate TypedAt(f: Field, m: seq<Slot>)
    decreases f, 1
  {
    && f.tag < TWO_32 && f.dataSize < TWO_32
    && (f.rule.Singular? && f.ltype.Submessage? ==> WordsKnown(f.ltype.fields))
    && f.slot < |m|
    && Holds(f, m[f.slot])
    && match f.rule
       case Required | Optional | Singular => TypedValue(f, m[f.slot].v)
       case Repeated => forall v | v in m[f.slot].items :: TypedValue(f, v)
       case FixedCount => |m[f.slot].items| == f.arraySize && forall v | v in m[f.slot].items :: TypedValue(f, v)
       case Oneof => m[f.slot].which == f.tag ==> TypedValue(f, m[f.slot].v)
  }

  predicate Typed(fields: seq<Field>, m: seq<Slot>)
    decreases fields
  {
    forall i | 0 <= i < |fields| :: TypedAt(fields[i], m)
  }

  // What can be encoded and read back.

  /** The length of a chunk is read as a 32-bit number. */
  predicate Short(e: Output) {
    e.Some? && |e.value| < TWO_32
  }

  predicate FitsValue(f: Field, v: Value)
    decreases f, 0
  {
    if f.ltype.Submessage? then
      v.Struct? && FitsMsg(f.ltype.fields, v.slots) && Short(EncMsg(f.ltype.fields, v.slots))
    else FitsScalar(f, v)
  }

  predicate FitsItems(f: Field, items: seq<Value>)
    decreases f, 1
  {
    && |items| <= f.arraySize
    && (forall v | v in items :: FitsValue(f, v))
    && (f.Packable() ==> Short(EncPacked(f, items)))
  }

  predicate FitsField(f: Field, m: seq<Slot>)
    decreases f, 2
  {
    && f.slot < |m|
    && Holds(f, m[f.slot])
    && match f.rule
       case Required | Singular => FitsValue(f, m[f.slot].v)
       case Optional => m[f.slot].has ==> FitsValue(f, m[f.slot].v)
       case Repeated => FitsItems(f, m[f.slot].items)
       case FixedCount => FitsItems(f, m[f.slot].items) && |m[f.slot].items| == f.arraySize
       case Oneof => m[f.slot].which == f.tag ==> FitsValue(f, m[f.slot].v)
  }

  /** A struct of this descriptor with values in range, strings that end, counts within the arrays and chunks whose
      length takes 32 bits. */
  predicate FitsMsg(fields: seq<Field>, m: seq<Slot>)
    decreases fields
  {
    forall i | 0 <= i < |fields| :: FitsField(fields[i], m)
  }
}
