/** The descriptors and message structs of nanopb (pb.h), with 32-bit sizes. A struct is its sequence of slots, one for
    each member; the members of a union share one. */
module Descriptors {
  import opened Bytes

  /** PB_LTYPE. */
  datatype LType =
    | Varint
    | Uvarint
    | Svarint
    | Fixed32
    | Fixed64
    | Blob
    | Text
    | FixedBlob
    | Submessage(fields: seq<Field>)

  /** PB_HTYPE, with the forms that size_offset distinguishes: an optional member with or without its has flag, an
      array with or without its count. */
  datatype Rule = Required | Optional | Singular | Repeated | FixedCount | Oneof

  /** pb_field_t. Entries are numbered by their slots; the entries of a oneof have the same slot. The offsets are those
      of the C struct: of the member from the end of the one before, and of its has flag or count from the member. */
  datatype Field = Field(tag: nat, slot: nat, rule: Rule, ltype: LType, dataOffset: nat, sizeOffset: int,
    dataSize: nat, arraySize: nat)
  {
    predicate Packable() {
      ltype.Varint? || ltype.Uvarint? || ltype.Svarint? || ltype.Fixed32? || ltype.Fixed64?
    }

    predicate Array() {
      rule.Repeated? || rule.FixedCount?
    }

    /** The wire type: pb_encode_tag_for_field. */
    function Wire(): nat {
      match ltype
      case Varint | Uvarint | Svarint => 0
      case Fixed64 => 1
      case Fixed32 => 5
      case _ => 2
    }
  }

  /** What a member holds: a number, bytes (of a string, those before its NUL) or a struct. */
  datatype Value = Num(n: int) | Data(b: seq<byte>) | Struct(slots: seq<Slot>)

  /** A member with its has flag, its count or the tag of the union's active member. */
  datatype Slot = One(v: Value) | Opt(has: bool, v: Value) | Many(items: seq<Value>) | Union(which: nat, v: Value)

  /** The slot has the form that the field's rule declares. */
  predicate Holds(f: Field, s: Slot) {
    match f.rule
    case Required | Singular => s.One?
    case Optional => s.Opt?
    case Repeated | FixedCount => s.Many?
    case Oneof => s.Union?
  }

  function Zeros(n: nat): (s: seq<byte>)
    ensures |s| == n && forall i :: 0 <= i < n ==> s[i] == 0
  {
    seq(n, _ => 0)
  }

  // pb_message_set_to_defaults, for fields without default values of their own.

  function DefaultValue(f: Field): Value
    decreases f, 0
  {
    match f.ltype
    case Blob | Text => Data([])
    case FixedBlob => Data(Zeros(f.dataSize))
    case Submessage(fields) => Struct(Defaults(fields))
    case _ => Num(0)
  }

  /** An array's elements and a union's member are not initialised: they count as absent. */
  function DefaultSlot(f: Field): (s: Slot)
    ensures Holds(f, s)
    decreases f, 1
  {
    match f.rule
    case Required | Singular => One(DefaultValue(f))
    case Optional => Opt(false, DefaultValue(f))
    case Repeated | FixedCount => Many([])
    case Oneof => Union(0, Num(0))
  }

  function Defaults(fields: seq<Field>): seq<Slot>
    decreases fields
  {
    if fields == [] then []
    else
      var before, last := Defaults(fields[..|fields| - 1]), fields[|fields| - 1];
      if last.slot == |before| then before + [DefaultSlot(last)] else before
  }

  // pb_check_proto3_default_value.

  /** An element as it is in memory, as far as its value determines that: the lowest byte of a number comes first, and
      the size of a byte string comes before it. */
  function InMemory(f: Field, v: Value): seq<byte> {
    match v
    case Num(n) => PutLe(n % Pow256(f.dataSize), f.dataSize)
    case Data(b) => if f.ltype.Blob? then PutLe(|b|, 4) else b
    case Struct(_) => []
  }

  function Memory(f: Field, items: seq<Value>): seq<byte> {
    if items == [] then [] else InMemory(f, items[0]) + Memory(f, items[1..])
  }

  /** The first 32 bits of an array that has no count, where the check looks for one. */
  predicate FirstWordZero(f: Field, items: seq<Value>) {
    var m := Memory(f, items);
    |m| >= 4 && m[..4] == [0, 0, 0, 0]
  }

  /** The sizes of the C integer types. */
  predicate IntSize(d: nat) {
    d == 1 || d == 2 || d == 4 || d == 8
  }

  /** The values of the array's elements determine its first word. The bytes behind the NUL of a string, the padding of
      a struct, and what is in memory behind an array of less than four bytes do not come from a value. */
  predicate WordKnown(f: Field) {
    && f.dataSize * f.arraySize >= 4
    && match f.ltype
       case Varint | Uvarint | Svarint => IntSize(f.dataSize)
       case Fixed32 => f.dataSize == 4
       case Fixed64 => f.dataSize == 8
       case Blob | FixedBlob => true
       case Text | Submessage(_) => false
  }

  predicate WordsKnown(fields: seq<Field>) {
    forall i | 0 <= i < |fields| :: fields[i].rule.FixedCount? ==> WordKnown(fields[i])
  }

  predicate IsDefault(f: Field, s: Slot)
    requires Holds(f, s)
    decreases f
  {
    match f.rule
    case Required => false
    case Repeated => s.items == []
    case FixedCount => FirstWordZero(f, s.items)
    case Oneof => s.which == 0
    case Optional => !s.has
    case Singular =>
      match f.ltype
      case Blob | Text => s.v == Data([])
      case FixedBlob => f.dataSize == 0
      case Submessage(fields) => s.v.Struct? && AllDefault(fields, s.v.slots)
      case _ => s.v == Num(0)
  }

  predicate AllDefault(fields: seq<Field>, m: seq<Slot>)
    decreases fields
  {
    forall i | 0 <= i < |fields| :: var f := fields[i];
      f.slot < |m| && Holds(f, m[f.slot]) && IsDefault(f, m[f.slot])
  }

  // What a program can see of a struct.

  predicate SameValue(f: Field, v: Value, w: Value)
    decreases f, 0, 0
  {
    if f.ltype.Submessage? then v.Struct? && w.Struct? && Same(f.ltype.fields, v.slots, w.slots) else v == w
  }

  /** Equal has flags, and equal values where a value is present; equal arrays; the same active member of a union. */
  predicate SameSlot(f: Field, s: Slot, t: Slot)
    decreases f, 1
  {
    && Holds(f, s)
    && Holds(f, t)
    && match f.rule
       case Required | Singular => SameValue(f, s.v, t.v)
       case Optional => s.has == t.has && (s.has ==> SameValue(f, s.v, t.v))
       case Repeated | FixedCount => SameItems(f, s.items, t.items)
       case Oneof => (s.which == f.tag <==> t.which == f.tag) && (s.which == f.tag ==> SameValue(f, s.v, t.v))
  }

  predicate SameItems(f: Field, s: seq<Value>, t: seq<Value>)
    decreases f, 0, 1
  {
    |s| == |t| && forall k | 0 <= k < |s| :: SameValue(f, s[k], t[k])
  }

  predicate SameAt(f: Field, m: seq<Slot>, m': seq<Slot>)
    decreases f, 2
  {
    f.slot < |m| && f.slot < |m'| && SameSlot(f, m[f.slot], m'[f.slot])
  }

  predicate Same(fields: seq<Field>, m: seq<Slot>, m': seq<Slot>)
    decreases fields
  {
    forall i | 0 <= i < |fields| :: SameAt(fields[i], m, m')
  }

  // What survives the default check.

  predicate KeptValue(f: Field, v: Value)
    decreases f, 0, 0
  {
    f.ltype.Submessage? ==> v.Struct? && Kept(f.ltype.fields, v.slots)
  }

  predicate KeptItems(f: Field, items: seq<Value>)
    decreases f, 0, 1
  {
    forall k | 0 <= k < |items| :: KeptValue(f, items[k])
  }

  /** A struct without has flag that the default check takes for empty has no array without a count. */
  predicate KeptSlot(f: Field, s: Slot)
    requires Holds(f, s)
    decreases f, 1
  {
    match f.rule
    case Required => KeptValue(f, s.v)
    case Singular =>
      && KeptValue(f, s.v)
      && (f.ltype.Submessage? && IsDefault(f, s) ==> NoFixedCount(f.ltype.fields))
    case Optional => s.has ==> KeptValue(f, s.v)
    case Repeated | FixedCount => KeptItems(f, s.items)
    case Oneof => s.which == f.tag ==> KeptValue(f, s.v)
  }

  predicate KeptAt(f: Field, m: seq<Slot>)
    decreases f, 2
  {
    f.slot < |m| && Holds(f, m[f.slot]) && KeptSlot(f, m[f.slot])
  }

  predicate Kept(fields: seq<Field>, m: seq<Slot>)
    decreases fields
  {
    forall i | 0 <= i < |fields| :: KeptAt(fields[i], m)
  }

  // Well-formed descriptors.

  /** How many slots a struct has. */
  function Slots(fields: seq<Field>): nat {
    if fields == [] then 0 else fields[|fields| - 1].slot + 1
  }

  /** Every entry has the next slot, or as a further member of a oneof the slot of the entry before. */
  predicate Laid(fields: seq<Field>) {
    && (fields != [] ==> fields[0].slot == 0)
    && forall i | 0 < i < |fields| :: Follows(fields, i)
  }

  predicate Follows(fields: seq<Field>, i: nat)
    requires 0 < i < |fields|
  {
    var f, g := fields[i - 1], fields[i];
    g.slot == f.slot + 1 || (g.slot == f.slot && f.rule.Oneof? && g.rule.Oneof?)
  }

  predicate DistinctTags(fields: seq<Field>) {
    forall i, j | 0 <= i < j < |fields| :: fields[i].tag != fields[j].tag
  }

  predicate NoFixedCount(fields: seq<Field>) {
    forall i | 0 <= i < |fields| :: !fields[i].rule.FixedCount?
  }

  /** What the generator sees to; and of the arrays in a struct without has flag, which the default check looks into,
      the values determine the first word. */
  predicate WellFormed(fields: seq<Field>)
    decreases fields
  {
    && Laid(fields)
    && DistinctTags(fields)
    && forall i | 0 <= i < |fields| :: WellFormedField(fields[i])
  }

  predicate WellFormedField(f: Field)
    decreases f
  {
    && 1 <= f.tag < 0x2000_0000
    && f.dataSize < 0x1_0000_0000
    && f.arraySize < 0x1_0000_0000
    && (f.ltype.Submessage? ==> WellFormed(f.ltype.fields) && (f.rule.Singular? ==> WordsKnown(f.ltype.fields)))
  }
}
