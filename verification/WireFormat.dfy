/** The bytes that pb_encode writes, in the terms of the format alone (Protocol Buffers Encoding: Message Structure),
    and what a decoder that does not know a field makes of them. */
module WireFormat {
  import opened Bytes
  import opened Varints
  import opened Descriptors
  import opened Scalars
  import opened Encoding
  import opened Decoding
  import Trip = CodecRoundTrip
  import Laws = DecoderLaws

  // The format.

  /** s is the varint of n and no more. */
  predicate IsVarint(s: seq<byte>, n: nat) {
    Length(s) == Some(|s|) && Number(s) == n
  }

  /** s is b behind its length. */
  predicate IsChunk(s: seq<byte>, b: seq<byte>) {
    |b| < |s| && IsVarint(s[..|s| - |b|], |b|) && s[|s| - |b|..] == b
  }

  /** s is the rest behind a tag: eight times the field's number, and the wire type. */
  predicate Tags(s: seq<byte>, tag: nat, wire: nat, rest: seq<byte>) {
    |rest| < |s| && IsVarint(s[..|s| - |rest|], 8 * tag + wire) && s[|s| - |rest|..] == rest
  }

  /** Wire type 0 is in front of an integer, 1 and 5 in front of eight bytes and four, and 2 in front of a length. */
  function WireType(f: Field): nat {
    match f.ltype
    case Fixed32 => 5
    case Fixed64 => 1
    case Varint | Uvarint | Svarint => 0
    case Blob | Text | FixedBlob => 2
    case Submessage(_) => 2
  }

  /** Four bytes, the lowest first. */
  function Word(s: seq<byte>): nat
    requires |s| == 4
  {
    s[0] as nat + 0x100 * s[1] as nat + 0x1_0000 * s[2] as nat + 0x100_0000 * s[3] as nat
  }

  /** A value: integers are varints, signed ones in 64 bits or in zigzag order, fixed-width numbers have their lowest
      byte first, and strings and messages their length. */
  ghost predicate IsValue(f: Field, v: Value, s: seq<byte>)
    decreases f, 0
  {
    match f.ltype
    case Varint => v.Num? && IsVarint(s, v.n % 0x1_0000_0000_0000_0000)
    case Uvarint => v.Num? && v.n >= 0 && IsVarint(s, v.n)
    case Svarint => v.Num? && IsVarint(s, if v.n < 0 then -2 * v.n - 1 else 2 * v.n)
    case Fixed32 => v.Num? && |s| == 4 && Word(s) == v.n % 0x1_0000_0000
    case Fixed64 =>
      v.Num? && |s| == 8 && Word(s[..4]) + 0x1_0000_0000 * Word(s[4..]) == v.n % 0x1_0000_0000_0000_0000
    case Submessage(fields) => v.Struct? && exists b :: IsChunk(s, b) && IsMessage(fields, v.slots, b)
    case Blob | Text | FixedBlob => v.Data? && IsChunk(s, v.b)
  }

  ghost predicate IsTagged(f: Field, v: Value, s: seq<byte>)
    decreases f, 1
  {
    exists rest :: Tags(s, f.tag, WireType(f), rest) && IsValue(f, v, rest)
  }

  /** The elements of a packed array, and of another. */
  ghost predicate AreValues(f: Field, items: seq<Value>, s: seq<byte>)
    decreases f, 1, |items|
  {
    if items == [] then s == []
    else exists a, b :: s == a + b && IsValue(f, items[0], a) && AreValues(f, items[1..], b)
  }

  ghost predicate AreTagged(f: Field, items: seq<Value>, s: seq<byte>)
    decreases f, 2, |items|
  {
    if items == [] then s == []
    else exists a, b :: s == a + b && IsTagged(f, items[0], a) && AreTagged(f, items[1..], b)
  }

  /** No more elements than the array has; numbers are packed: one tag of wire type 2 in front of all of them. */
  ghost predicate IsArray(f: Field, items: seq<Value>, s: seq<byte>)
    decreases f, 3
  {
    if items == [] then s == []
    else if |items| > f.arraySize then false
    else if WireType(f) == 2 then AreTagged(f, items, s)
    else exists rest, b :: Tags(s, f.tag, 2, rest) && IsChunk(rest, b) && AreValues(f, items, b)
  }

  /** A member without has flag is left out if it is zero or empty. */
  predicate LeftOut(f: Field, v: Value) {
    match f.ltype
    case Submessage(fields) => v.Struct? && AllDefault(fields, v.slots)
    case FixedBlob => f.dataSize == 0
    case Blob | Text => v == Data([])
    case Varint | Uvarint | Svarint => v == Num(0)
    case Fixed32 | Fixed64 => v == Num(0)
  }

  ghost predicate IsField(f: Field, m: seq<Slot>, s: seq<byte>)
    decreases f, 4
  {
    && Has(f, m)
    && var slot := m[f.slot];
       match f.rule
       case Required => IsTagged(f, slot.v, s)
       case Optional => if slot.has then IsTagged(f, slot.v, s) else s == []
       case Singular => if LeftOut(f, slot.v) then s == [] else IsTagged(f, slot.v, s)
       case Repeated => IsArray(f, slot.items, s)
       case FixedCount => |slot.items| == f.arraySize && IsArray(f, slot.items, s)
       case Oneof => if slot.which == f.tag then IsTagged(f, slot.v, s) else s == []
  }

  /** The fields in the descriptor's order. */
  ghost predicate IsMessage(fields: seq<Field>, m: seq<Slot>, s: seq<byte>)
    decreases fields
  {
    if fields == [] then s == []
    else exists a, b :: s == a + b && IsField(fields[0], m, a) && IsMessage(fields[1..], m, b)
  }

  // What is written has it.

  lemma VarintPut(n: nat)
    ensures IsVarint(Put(n), n)
  {
    LengthPut(n, []);
    assert Put(n) + [] == Put(n);
  }

  lemma ChunkPut(b: seq<byte>)
    ensures IsChunk(Put(|b|) + b, b)
  {
    VarintPut(|b|);
    hide Put, IsVarint;
    var s := Put(|b|) + b;
    assert s[..|s| - |b|] == Put(|b|) && s[|s| - |b|..] == b;
  }

  lemma TagsPut(tag: nat, wire: nat, rest: seq<byte>)
    ensures Tags(Tag(tag, wire) + rest, tag, wire, rest)
  {
    VarintPut(8 * tag + wire);
    hide Put, IsVarint;
    var s := Tag(tag, wire) + rest;
    assert s[..|s| - |rest|] == Tag(tag, wire) && s[|s| - |rest|..] == rest;
  }

  /** The low bytes of a number are its remainder. */
  lemma {:induction false} LeRemainder(x: nat, n: nat)
    ensures GetLe(PutLe(x, n)) == x % Pow256(n)
  {
    if n > 0 {
      LeRemainder(x / 256, n - 1);
      DigitRemainder(x, Pow256(n - 1));
    }
  }

  lemma DigitRemainder(x: nat, p: nat)
    requires p >= 1
    ensures x % 256 + 256 * (x / 256 % p) == x % (256 * p)
  {
    var low, y := x % 256, x / 256;
    var q, r := y / p, y % p;
    assert x == 256 * y + low && y == p * q + r;
    assert x == 256 * p * q + (256 * r + low) by {
      assert 256 * (p * q) == 256 * p * q;
    }
    Remainder(x, 256 * p, q, 256 * r + low);
  }

  lemma Remainder(x: nat, m: nat, q: nat, r: nat)
    requires r < m && x == m * q + r
    ensures x % m == r
  {
    assert x == m * (x / m) + x % m;
    Multiples(m, x / m, q);
    Multiples(m, q, x / m);
  }

  lemma Multiples(m: nat, a: nat, b: nat)
    ensures a < b ==> m * a + m <= m * b
  {
    if a < b {
      assert m * b >= m * (a + 1) == m * a + m;
    }
  }

  lemma WordIs(s: seq<byte>)
    ensures |s| == 4 ==> GetLe(s) == Word(s)
    ensures |s| == 8 ==> GetLe(s) == Word(s[..4]) + 0x1_0000_0000 * Word(s[4..])
  {
    assert GetLe([]) == 0;
    hide GetLe, Word;
    if |s| == 4 {
      FourBytes(s, []);
      assert s == s + [];
    } else if |s| == 8 {
      FourBytes(s[..4], s[4..]);
      FourBytes(s[4..], []);
      assert s == s[..4] + s[4..] && s[4..] == s[4..] + [];
    }
  }

  lemma FourBytes(s: seq<byte>, rest: seq<byte>)
    requires |s| == 4
    ensures GetLe(s + rest) == Word(s) + 0x1_0000_0000 * GetLe(rest)
  {
    assert s + rest == [s[0]] + ([s[1]] + ([s[2]] + ([s[3]] + rest)));
    FirstByte(s[3], rest);
    FirstByte(s[2], [s[3]] + rest);
    FirstByte(s[1], [s[2]] + ([s[3]] + rest));
    FirstByte(s[0], [s[1]] + ([s[2]] + ([s[3]] + rest)));
    hide GetLe;
  }

  lemma FirstByte(b: byte, rest: seq<byte>)
    ensures GetLe([b] + rest) == b + 256 * GetLe(rest)
  {
    assert ([b] + rest)[1..] == rest;
  }

  lemma ScalarFormat(f: Field, v: Value)
    requires EncScalar(f, v).Some?
    ensures IsValue(f, v, EncScalar(f, v).value)
  {
    match f.ltype {
      case Varint => VarintPut(v.n % TWO_64);
      case Uvarint => VarintPut(v.n);
      case Svarint =>
        ZigzagAlternates(v.n);
        VarintPut(Zigzag(v.n));
      case Fixed32 =>
        LeRemainder(v.n, 4);
        WordIs(PutLe(v.n, 4));
        Pow4();
        hide PutLe, GetLe, Word;
      case Fixed64 =>
        LeRemainder(v.n, 8);
        WordIs(PutLe(v.n, 8));
        Pow256Values();
        hide PutLe, GetLe, Word;
      case Blob | Text | FixedBlob => ChunkPut(v.b);
    }
  }

  lemma {:induction false} ValueFormat(f: Field, v: Value)
    requires EncValue(f, v).Some?
    ensures IsValue(f, v, EncValue(f, v).value)
    decreases f, 0
  {
    if f.ltype.Submessage? {
      var b := EncMsg(f.ltype.fields, v.slots).value;
      ChunkPut(b);
      MessageFormat(f.ltype.fields, v.slots);
      hide IsChunk, IsMessage, EncMsg;
    } else {
      ScalarFormat(f, v);
      hide IsValue, EncScalar;
    }
  }

  lemma {:induction false} TaggedFormat(f: Field, v: Value)
    requires EncTagged(f, v).Some?
    ensures IsTagged(f, v, EncTagged(f, v).value)
    decreases f, 1
  {
    ValueFormat(f, v);
    TagsPut(f.tag, WireType(f), EncValue(f, v).value);
    assert f.Wire() == WireType(f);
    hide Tags, IsValue, Tag, EncValue;
  }

  lemma {:induction false} ValuesFormat(f: Field, items: seq<Value>)
    requires f.Packable() && EncPacked(f, items).Some?
    ensures AreValues(f, items, EncPacked(f, items).value)
    decreases f, 1, |items|
  {
    if items != [] {
      ScalarFormat(f, items[0]);
      ValuesFormat(f, items[1..]);
      hide IsValue, EncScalar;
    }
  }

  lemma {:induction false} EachFormat(f: Field, items: seq<Value>)
    requires EncEach(f, items).Some?
    ensures AreTagged(f, items, EncEach(f, items).value)
    decreases f, 2, |items|
  {
    if items != [] {
      TaggedFormat(f, items[0]);
      EachFormat(f, items[1..]);
      hide IsTagged, EncTagged;
    }
  }

  lemma {:induction false} ArrayFormat(f: Field, items: seq<Value>)
    requires EncArray(f, items).Some?
    ensures IsArray(f, items, EncArray(f, items).value)
    decreases f, 3
  {
    assert f.Packable() <==> WireType(f) != 2;
    hide AreValues, AreTagged, EncPacked, EncEach, Tags, IsChunk, Tag;
    if items != [] && f.Packable() {
      var b := EncPacked(f, items).value;
      ValuesFormat(f, items);
      ChunkPut(b);
      TagsPut(f.tag, 2, Put(|b|) + b);
    } else if items != [] {
      EachFormat(f, items);
    }
  }

  lemma {:induction false} FieldFormat(f: Field, m: seq<Slot>)
    requires EncField(f, m).Some?
    ensures IsField(f, m, EncField(f, m).value)
    decreases f, 4
  {
    var slot := m[f.slot];
    hide IsTagged, IsArray, EncTagged, EncArray, AllDefault;
    if f.Array() {
      ArrayFormat(f, slot.items);
    } else if EncTagged(f, slot.v).Some? {
      TaggedFormat(f, slot.v);
    }
  }

  /** Everything that pb_encode writes is a message in the format, with the values of the struct. */
  lemma {:induction false} MessageFormat(fields: seq<Field>, m: seq<Slot>)
    requires EncMsg(fields, m).Some?
    ensures IsMessage(fields, m, EncMsg(fields, m).value)
    decreases fields
  {
    if fields != [] {
      FieldFormat(fields[0], m);
      MessageFormat(fields[1..], m);
      hide IsField, EncField;
    }
  }
  /** And it is read as such: the tag of a value has its field's number and the wire type of its kind. */
  lemma TaggedRead(f: Field, v: Value) returns (rest: seq<byte>)
    requires 1 <= f.tag < 0x2000_0000 && EncTagged(f, v).Some?
    ensures GetTag(EncTagged(f, v).value) == Some(Tagged(f.tag, WireType(f), rest)) && IsValue(f, v, rest)
  {
    rest := EncValue(f, v).value;
    ValueFormat(f, v);
    assert f.Wire() == WireType(f);
    hide EncValue, IsValue;
    Trip.TagTrip(f.tag, WireType(f), rest);
  }

  /** The tag of a packed array has wire type 2, and what follows is the chunk of its elements and nothing else. */
  lemma PackedRead(f: Field, items: seq<Value>) returns (rest: seq<byte>, b: seq<byte>)
    requires 1 <= f.tag < 0x2000_0000 && WireType(f) != 2 && items != [] && EncArray(f, items).Some?
    ensures GetTag(EncArray(f, items).value) == Some(Tagged(f.tag, 2, rest)) && IsChunk(rest, b)
    ensures AreValues(f, items, b) && (|b| < TWO_32 ==> GetChunk(rest) == Some((b, [])))
  {
    b := EncPacked(f, items).value;
    rest := Put(|b|) + b;
    ValuesFormat(f, items);
    ChunkPut(b);
    hide AreValues, EncPacked, Put, IsChunk;
    Trip.TagTrip(f.tag, 2, rest);
    if |b| < TWO_32 {
      Trip.ChunkTrip(b, []);
      assert rest + [] == rest;
    }
  }

  // The bytes of a varint.

  lemma Quotient(x: nat, m: nat, q: nat, r: nat)
    requires r < m && x == m * q + r
    ensures x / m == q
  {
    assert x == m * (x / m) + x % m;
    Multiples(m, x / m, q);
    Multiples(m, q, x / m);
  }

  lemma QuotientTwice(x: nat, p: nat)
    requires p >= 1
    ensures x / 128 / p == x / (128 * p)
  {
    var low, y := x % 128, x / 128;
    var q, r := y / p, y % p;
    assert x == 128 * y + low && y == p * q + r;
    assert x == 128 * p * q + (128 * r + low) by {
      assert 128 * (p * q) == 128 * p * q;
    }
    Quotient(x, 128 * p, q, 128 * r + low);
  }

  /** Byte i of a varint has bits 7i to 7i + 6 of the number, and its high bit if another byte follows. */
  lemma {:induction false} VarintBytes(n: nat, i: nat)
    requires i < |Put(n)|
    ensures Shl(1, 7 * i) >= 1
    ensures Put(n)[i] == n / Shl(1, 7 * i) % 128 + if i + 1 < |Put(n)| then 128 else 0
  {
    ShlGrows(1, 0, 7 * i);
    if i == 0 {
      assert Shl(1, 0) == 1;
    } else {
      VarintBytes(n / 128, i - 1);
      Shl7(1, 7 * (i - 1));
      QuotientTwice(n, Shl(1, 7 * (i - 1)));
    }
  }

  lemma TaggedNotEmpty(f: Field, v: Value)
    requires EncTagged(f, v).Some?
    ensures EncTagged(f, v) != Some([])
  {
    hide EncValue;
    assert |EncTagged(f, v).value| == |Tag(f.tag, f.Wire())| + |EncValue(f, v).value|;
  }

  lemma ArrayNotEmpty(f: Field, items: seq<Value>)
    requires items != [] && EncArray(f, items).Some?
    ensures EncArray(f, items) != Some([])
  {
    if f.Packable() {
      hide EncPacked;
    } else {
      TaggedNotEmpty(f, items[0]);
      hide EncTagged;
      assert EncEach(f, items) == Then(EncTagged(f, items[0]), EncEach(f, items[1..]));
    }
  }

  lemma FieldEmpty(f: Field, m: seq<Slot>)
    requires EncField(f, m).Some? && !f.rule.FixedCount?
    ensures EncField(f, m) == Some([]) <==>
            if f.rule.Oneof? then m[f.slot].which != f.tag else IsDefault(f, m[f.slot])
  {
    var slot := m[f.slot];
    hide EncTagged, EncArray, AllDefault;
    if f.rule.Repeated? {
      if slot.items != [] {
        ArrayNotEmpty(f, slot.items);
      } else {
        assert EncArray(f, []) == Some([]) by {
          NoElements(f);
        }
      }
    } else if EncTagged(f, slot.v).Some? {
      TaggedNotEmpty(f, slot.v);
    }
  }

  lemma NoElements(f: Field)
    ensures EncArray(f, []) == Some([])
  {
  }

  lemma {:induction false} MessageEmpty(fields: seq<Field>, m: seq<Slot>)
    requires EncMsg(fields, m).Some?
    ensures EncMsg(fields, m) == Some([]) <==> forall f | f in fields :: EncField(f, m) == Some([])
    ensures forall f | f in fields :: EncField(f, m).Some?
  {
    hide EncField;
    if fields != [] {
      MessageEmpty(fields[1..], m);
      assert forall f :: f in fields <==> f == fields[0] || f in fields[1..];
      var a, b := EncField(fields[0], m).value, EncMsg(fields[1..], m).value;
      assert a + b == [] <==> a == [] && b == [];
    }
  }

  /** A struct counts as empty, so that it is left out where it has no has flag, exactly when nothing at all would be
      written for its members and no union in it has a member's tag, known or not; arrays without a count aside. */
  lemma EmptyIff(fields: seq<Field>, m: seq<Slot>)
    requires EncMsg(fields, m).Some? && NoFixedCount(fields) && forall f | f in fields :: f.tag != 0
    ensures AllDefault(fields, m) <==>
            && EncMsg(fields, m) == Some([])
            && forall f | f in fields && f.rule.Oneof? :: Has(f, m) && m[f.slot].which == 0
  {
    MessageEmpty(fields, m);
    forall f | f in fields
      ensures Has(f, m)
      ensures EncField(f, m) == Some([])
              <==> if f.rule.Oneof? then m[f.slot].which != f.tag else IsDefault(f, m[f.slot])
    {
      var i :| 0 <= i < |fields| && fields[i] == f;
      FieldEmpty(f, m);
    }
    hide EncMsg, EncField;
  }

  // What a decoder that does not know the field makes of it.

  lemma SkipFixed(n: nat, s: seq<byte>, rest: seq<byte>)
    requires |s| == n
    ensures (s + rest)[n..] == rest
  {
  }

  lemma SkipValue(f: Field, v: Value, rest: seq<byte>)
    requires f.dataSize < TWO_32 && FitsValue(f, v) && EncValue(f, v).Some?
    ensures Skip(f.Wire(), EncValue(f, v).value + rest) == Some(rest)
  {
    var e := EncValue(f, v).value;
    hide Length, GetChunk, Put, Zigzag, PutLe, EncMsg;
    match f.ltype {
      case Varint => SkipVarint(v.n % TWO_64, rest);
      case Uvarint => SkipVarint(v.n, rest);
      case Svarint => SkipVarint(Zigzag(v.n), rest);
      case Fixed32 => SkipFixed(4, e, rest);
      case Fixed64 => SkipFixed(8, e, rest);
      case Blob | Text | FixedBlob => Trip.ChunkTrip(v.b, rest);
      case Submessage(fields) => Trip.ChunkTrip(EncMsg(fields, v.slots).value, rest);
    }
  }

  lemma SkipVarint(n: nat, rest: seq<byte>)
    ensures Skip(0, Put(n) + rest) == Some(rest)
  {
    LengthPut(n, rest);
    SkipFixed(|Put(n)|, Put(n), rest);
    hide Length, Put;
  }

  /** A tag that is not known, and what is skipped behind it. */
  lemma SkipsPast(known: seq<Field>, st: State, tag: nat, wire: nat, e: seq<byte>, rest: seq<byte>)
    requires 1 <= tag < 0x2000_0000 && wire < 8 && Find(known, tag).None? && Skip(wire, e + rest) == Some(rest)
    ensures Decode(known, st, Tag(tag, wire) + e + rest) == Decode(known, st, rest)
  {
    hide Skip, Find, Tag, GetTag, Decode, DecodeField;
    assert Tag(tag, wire) + e + rest == Tag(tag, wire) + (e + rest);
    Trip.TagTrip(tag, wire, e + rest);
    Laws.UnknownStep(known, st, Tagged(tag, wire, e + rest), rest);
    Laws.TagTurn(known, st, Tag(tag, wire) + (e + rest));
  }

  lemma TaggedSkipped(known: seq<Field>, st: State, f: Field, v: Value, rest: seq<byte>)
    requires WellFormedField(f) && FitsValue(f, v) && Find(known, f.tag).None?
    ensures EncTagged(f, v).Some?
    ensures Decode(known, st, EncTagged(f, v).value + rest) == Decode(known, st, rest)
  {
    Trip.ValueSome(f, v);
    SkipValue(f, v, rest);
    hide Decode, Skip, EncValue, FitsValue;
    SkipsPast(known, st, f.tag, f.Wire(), EncValue(f, v).value, rest);
  }

  lemma {:induction false} EachSkipped(known: seq<Field>, st: State, f: Field, items: seq<Value>, rest: seq<byte>)
    requires WellFormedField(f) && (forall v | v in items :: FitsValue(f, v)) && Find(known, f.tag).None?
    ensures EncEach(f, items).Some?
    ensures Decode(known, st, EncEach(f, items).value + rest) == Decode(known, st, rest)
    decreases |items|
  {
    hide Decode, EncTagged, FitsValue, WellFormedField, Find;
    if items == [] {
      assert EncEach(f, items) == Some([]);
      assert [] + rest == rest;
    } else {
      EachSkipped(known, st, f, items[1..], rest);
      var more := EncEach(f, items[1..]).value;
      TaggedSkipped(known, st, f, items[0], more + rest);
      assert EncEach(f, items) == Then(EncTagged(f, items[0]), EncEach(f, items[1..]));
      assert EncTagged(f, items[0]).value + more + rest == EncTagged(f, items[0]).value + (more + rest);
    }
  }

  lemma PackedSkipped(known: seq<Field>, st: State, f: Field, items: seq<Value>, rest: seq<byte>)
    requires WellFormedField(f) && f.Packable() && items != [] && FitsItems(f, items) && Find(known, f.tag).None?
    ensures EncArray(f, items).Some?
    ensures Decode(known, st, EncArray(f, items).value + rest) == Decode(known, st, rest)
  {
    var b := EncPacked(f, items).value;
    Trip.ChunkTrip(b, rest);
    hide Decode, GetChunk, Put, EncPacked, FitsValue;
    SkipsPast(known, st, f.tag, 2, Put(|b|) + b, rest);
  }

  /** A decoder that does not have the field skips exactly what was written for it, whatever its type and rule. */
  lemma FieldSkipped(known: seq<Field>, st: State, f: Field, m: seq<Slot>, rest: seq<byte>)
    requires WellFormedField(f) && FitsField(f, m) && Find(known, f.tag).None?
    ensures EncField(f, m).Some?
    ensures Decode(known, st, EncField(f, m).value + rest) == Decode(known, st, rest)
  {
    var s := m[f.slot];
    Trip.FieldOutput(f, m);
    Trip.FieldSome(f, m);
    hide Decode, EncField, EncTagged, FitsValue, WellFormedField, EncPacked;
    if Trip.Silent(f, s) {
      assert [] + rest == rest;
    } else if f.Array() {
      if f.Packable() {
        PackedSkipped(known, st, f, s.items, rest);
      } else {
        EachSkipped(known, st, f, s.items, rest);
      }
    } else {
      TaggedSkipped(known, st, f, s.v, rest);
    }
  }

  lemma {:induction false} FieldsSkipped(known: seq<Field>, st: State, fields: seq<Field>, m: seq<Slot>)
    requires forall f | f in fields :: WellFormedField(f) && FitsField(f, m) && Find(known, f.tag).None?
    ensures EncMsg(fields, m).Some? && Decode(known, st, EncMsg(fields, m).value) == Some(Done(st, [], false))
  {
    if fields != [] {
      FieldsSkipped(known, st, fields[1..], m);
      hide Decode, EncField;
      FieldSkipped(known, st, fields[0], m, EncMsg(fields[1..], m).value);
    }
  }

  lemma {:induction false} MessageAppends(a: seq<Field>, b: seq<Field>, m: seq<Slot>)
    requires EncMsg(a, m).Some? && EncMsg(b, m).Some?
    ensures EncMsg(a + b, m) == Some(EncMsg(a, m).value + EncMsg(b, m).value)
  {
    hide EncField;
    if a == [] {
      assert a + b == b && EncMsg(a, m) == Some([]);
      assert [] + EncMsg(b, m).value == EncMsg(b, m).value;
    } else {
      MessageAppends(a[1..], b, m);
      assert (a + b)[0] == a[0] && (a + b)[1..] == a[1..] + b;
      var x, y, z := EncField(a[0], m).value, EncMsg(a[1..], m).value, EncMsg(b, m).value;
      assert x + y + z == x + (y + z);
    }
  }

  /** Fields that are added to a message do not disturb a program that was built without them: it reads the new message
      as it would read the one without the new fields. */
  lemma ForwardCompatible(known: seq<Field>, added: seq<Field>, m: seq<Slot>)
    requires WellFormed(known) && FitsMsg(known, m)
    requires forall f | f in added :: WellFormedField(f) && FitsField(f, m) && Find(known, f.tag).None?
    ensures EncMsg(known, m).Some? && EncMsg(known + added, m).Some?
    ensures DecodeMsg(known, EncMsg(known + added, m).value) == DecodeMsg(known, EncMsg(known, m).value)
    ensures DecodeMsg(known, EncMsg(known, m).value).Some?
  {
    Trip.RoundTrip(known, m);
    Trip.NothingYet(known, m);
    assert known[0..] == known;
    var start := Start(Defaults(known));
    var done := Trip.FieldsTrip(known, m, start, 0);
    FieldsSkipped(known, done.st, added, m);
    MessageAppends(known, added, m);
    hide Decode, EncMsg, WellFormed, FitsMsg, WellFormedField, FitsField, Complete;
    Laws.DecodeFold(known, start, EncMsg(known, m).value, EncMsg(added, m).value);
  }
}
