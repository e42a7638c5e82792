/** What the decoder accepts, and what of it has to be refused. */
module Acceptance {
  import opened Bytes
  import opened Varints
  import opened Descriptors
  import opened Scalars
  import opened Encoding
  import opened Decoding
  import Trip = CodecRoundTrip
  import Laws = DecoderLaws

  // Integers.

  /** The number that a varint stands for in a member: signed ones are zigzag numbers or, in members of up to four
      bytes, the low 32 bits of it, and else its 64 bits. */
  function Meant(f: Field, u: nat): int {
    if f.ltype.Uvarint? then u
    else if f.ltype.Svarint? then (if u % 2 == 0 then u / 2 else -((u + 1) / 2))
    else if f.dataSize == 8 then (if u < 0x8000_0000_0000_0000 then u else u - 0x1_0000_0000_0000_0000)
    else
      var low := u % 0x1_0000_0000;
      if low < 0x8000_0000 then low else low - 0x1_0000_0000
  }

  /** What the member's type can hold. */
  predicate InRange(f: Field, n: int) {
    var full := if f.dataSize == 1 then 0x100 else if f.dataSize == 2 then 0x1_0000
                else if f.dataSize == 4 then 0x1_0000_0000 else 0x1_0000_0000_0000_0000;
    if f.ltype.Uvarint? then 0 <= n < full else -(full / 2) <= n < full / 2
  }

  lemma UnzigzagIs(u: nat)
    requires u < TWO_64
    ensures Unzigzag(u) == if u % 2 == 0 then u / 2 else -((u + 1) / 2)
  {
  }

  lemma CastIff(n: int, d: nat)
    requires IntSize(d)
    ensures Cast(n, d) == n <==> -(Full(d) / 2) <= n < Full(d) / 2
  {
    Laws.CastRange(n, d);
    if -(Full(d) / 2) <= n < Full(d) / 2 {
      CastSmall(n, d);
    }
  }

  /** An integer is taken just if the member can hold it, and is then what it stands for: "integer too large". */
  lemma IntegerAccepted(f: Field, s: seq<byte>)
    requires IntSize(f.dataSize) && (f.ltype.Varint? || f.ltype.Uvarint? || f.ltype.Svarint?)
    ensures DecScalar(f, s)
         == if Get64(s).None? || !InRange(f, Meant(f, Get64(s).value.value)) then None
            else Some(Got(Num(Meant(f, Get64(s).value.value)), Get64(s).value.rest))
  {
    hide Get64, Unzigzag, Cast, Meant, InRange, Clamped;
    if Get64(s).Some? {
      var u, rest := Get64(s).value.value, Get64(s).value.rest;
      if f.ltype.Varint? {
        VarintClamped(f, u, rest);
      } else if f.ltype.Uvarint? {
        UvarintClamped(f, u, rest);
      } else {
        SvarintClamped(f, u, rest);
      }
    }
  }

  lemma VarintClamped(f: Field, u: nat, rest: seq<byte>)
    requires IntSize(f.dataSize) && f.ltype.Varint? && u < TWO_64
    ensures var n := Cast(u, if f.dataSize == 8 then 8 else 4);
            Clamped(f, n, Cast(n, f.dataSize), rest)
              == if InRange(f, Meant(f, u)) then Some(Got(Num(Meant(f, u)), rest)) else None
  {
    CastLow(u);
    CastIff(Meant(f, u), f.dataSize);
    hide Cast;
  }

  lemma CastLow(u: nat)
    requires u < TWO_64
    ensures Cast(u, 8) == if u < 0x8000_0000_0000_0000 then u else u - 0x1_0000_0000_0000_0000
    ensures var low := u % 0x1_0000_0000; Cast(u, 4) == if low < 0x8000_0000 then low else low - 0x1_0000_0000
  {
  }

  lemma UvarintClamped(f: Field, u: nat, rest: seq<byte>)
    requires IntSize(f.dataSize) && f.ltype.Uvarint? && u < TWO_64
    ensures Clamped(f, u, u % Full(f.dataSize), rest)
         == if InRange(f, Meant(f, u)) then Some(Got(Num(Meant(f, u)), rest)) else None
  {
    if u < Full(f.dataSize) {
      Mod(u, Full(f.dataSize));
    }
  }

  lemma SvarintClamped(f: Field, u: nat, rest: seq<byte>)
    requires IntSize(f.dataSize) && f.ltype.Svarint? && u < TWO_64
    ensures Clamped(f, Unzigzag(u), Cast(Unzigzag(u), f.dataSize), rest)
         == if InRange(f, Meant(f, u)) then Some(Got(Num(Meant(f, u)), rest)) else None
  {
    UnzigzagIs(u);
    CastIff(Meant(f, u), f.dataSize);
    hide Cast, Unzigzag;
  }

  // Strings and bytes.

  lemma {:induction false} NulPrefix(b: seq<byte>)
    ensures UpToNul(b) <= b && 0 !in UpToNul(b) && (|UpToNul(b)| < |b| ==> b[|UpToNul(b)|] == 0)
  {
    if b != [] && b[0] != 0 {
      NulPrefix(b[1..]);
      assert b == [b[0]] + b[1..];
    }
  }

  /** Bytes are taken just if they fit the member: those with their count in it, a string with its NUL, of which it
      keeps what is before the first NUL, and inline bytes of just their length; those of length 0 are zeros. */
  lemma BytesAccepted(f: Field, b: seq<byte>, rest: seq<byte>)
    requires |b| < TWO_32 && (f.ltype.Blob? || f.ltype.Text? || f.ltype.FixedBlob?)
    ensures DecScalar(f, Put(|b|) + b + rest)
         == match f.ltype
            case Blob => if |b| + 4 <= f.dataSize then Some(Got(Data(b), rest)) else None
            case Text => if |b| < f.dataSize then Some(Got(Data(UpToNul(b)), rest)) else None
            case _ => if |b| == f.dataSize then Some(Got(Data(b), rest))
                      else if |b| == 0 then Some(Got(Data(Zeros(f.dataSize)), rest)) else None
    ensures UpToNul(b) <= b && 0 !in UpToNul(b) && (|UpToNul(b)| < |b| ==> b[|UpToNul(b)|] == 0)
  {
    NulPrefix(b);
    assert Put(|b|) + b + rest == Put(|b|) + (b + rest);
    GetPut32(|b|, b + rest);
    hide Get32, Put, UpToNul;
    assert (b + rest)[..|b|] == b && (b + rest)[|b|..] == rest;
    if |b| == 0 {
      assert b == Zeros(0) && b + rest == rest;
    }
  }

  // Unknown fields.

  /** There are no fields of wire types 3, 4, 6 and 7. */
  lemma BadWireRefused(fields: seq<Field>, st: State, tag: nat, wire: nat, rest: seq<byte>)
    requires 1 <= tag < 0x2000_0000 && Find(fields, tag).None?
    requires wire == 3 || wire == 4 || wire == 6 || wire == 7
    ensures Decode(fields, st, Tag(tag, wire) + rest).None?
  {
    Trip.TagTrip(tag, wire, rest);
    hide Find, GetTag, Tag;
    assert DecodeField(fields, st, Tagged(tag, wire, rest)).None?;
    hide DecodeField;
  }

  // Packed or not.

  /** One element of an array of numbers, outside the packed form. */
  lemma ElementTurn(fields: seq<Field>, st: State, i: nat, v: Value, rest: seq<byte>)
    requires WellFormed(fields) && i < |fields|
    requires var f := fields[i];
             && f.Array() && f.Packable() && Has(f, st.msg) && Enter(fields, st, i) == Some(st) && FitsScalar(f, v)
             && Count(f, st) < f.arraySize
    ensures EncTagged(fields[i], v).Some?
    ensures Decode(fields, st, EncTagged(fields[i], v).value + rest)
         == Decode(fields, Append(fields[i], st, [v]), rest)
  {
    var f := fields[i];
    assert WellFormedField(f);
    ScalarTrip(f, v, rest);
    var e := EncScalar(f, v).value;
    assert f.Wire() != 2;
    hide EncScalar, DecScalar, FitsScalar, WellFormed;
    assert Tag(f.tag, f.Wire()) + e + rest == Tag(f.tag, f.Wire()) + (e + rest);
    Trip.Turn(fields, st, i, f.Wire(), e + rest);
    hide Decode, Tag;
    ElementStep(fields, st, i, f.Wire(), e + rest, v, rest);
  }

  lemma ElementStep(fields: seq<Field>, st: State, i: nat, wire: nat, s: seq<byte>, v: Value, rest: seq<byte>)
    requires i < |fields| && Find(fields, fields[i].tag) == Some(i) && wire != 2
    requires var f := fields[i];
             && f.Array() && f.Packable() && Has(f, st.msg) && Enter(fields, st, i) == Some(st)
             && Room(f, st) > 0 && DecScalar(f, s) == Some(Got(v, rest))
    ensures DecodeField(fields, st, Tagged(fields[i].tag, wire, s)) == Some(Step(Append(fields[i], st, [v]), rest))
  {
    hide Find, Enter, DecScalar, Append, Room;
  }

  /** The elements one by one. */
  lemma {:induction false} ElementsTurn(fields: seq<Field>, st: State, i: nat, items: seq<Value>, rest: seq<byte>)
    requires WellFormed(fields) && i < |fields|
    requires var f := fields[i];
             && f.Array() && f.Packable() && Has(f, st.msg) && Enter(fields, st, i) == Some(st)
             && Count(f, st) == |st.msg[f.slot].items|
             && Count(f, st) + |items| <= f.arraySize && forall v | v in items :: FitsScalar(f, v)
    ensures EncEach(fields[i], items).Some?
    ensures Decode(fields, st, EncEach(fields[i], items).value + rest)
         == Decode(fields, Append(fields[i], st, items), rest)
    decreases |items|
  {
    var f := fields[i];
    hide Decode, WellFormed, FitsScalar, EncTagged;
    if items == [] {
      assert EncEach(f, items) == Some([]) && [] + rest == rest;
      Trip.AppendTwice(f, st, Num(0), []);
    } else {
      var v, tail := items[0], items[1..];
      Trip.AppendTwice(f, st, v, tail);
      var next := Append(f, st, [v]);
      EnteredNext(fields, st, i, v);
      hide Append, Enter, Count;
      ElementsTurn(fields, next, i, tail, rest);
      var more := EncEach(f, tail).value;
      ElementTurn(fields, st, i, v, more + rest);
      assert EncEach(f, items) == Then(EncTagged(f, v), EncEach(f, tail));
      assert EncTagged(f, v).value + more + rest == EncTagged(f, v).value + (more + rest);
      assert [v] + tail == items;
    }
  }

  lemma EnteredNext(fields: seq<Field>, st: State, i: nat, v: Value)
    requires i < |fields| && fields[i].Array() && Has(fields[i], st.msg) && Enter(fields, st, i) == Some(st)
    ensures Has(fields[i], Append(fields[i], st, [v]).msg)
    ensures Enter(fields, Append(fields[i], st, [v]), i) == Some(Append(fields[i], st, [v]))
  {
    hide RequiredCount;
  }

  /** An array of numbers is read the same whether it comes packed or element by element. */
  lemma PackedOrNot(fields: seq<Field>, st: State, i: nat, items: seq<Value>, rest: seq<byte>)
    requires WellFormed(fields) && i < |fields|
    requires var f := fields[i];
             && f.Array() && f.Packable() && Has(f, st.msg) && FitsItems(f, items) && items != []
             && (f.rule.FixedCount? ==> st.open == Some(i) && st.filled == |st.msg[f.slot].items|)
             && |st.msg[f.slot].items| + |items| <= f.arraySize
    ensures EncEach(fields[i], items).Some? && EncArray(fields[i], items).Some?
    ensures Decode(fields, st, EncEach(fields[i], items).value + rest)
         == Decode(fields, st, EncArray(fields[i], items).value + rest)
  {
    var f := fields[i];
    assert forall v | v in items :: FitsValue(f, v) && FitsScalar(f, v);
    Trip.PackTrip(fields, st, i, items, rest);
    hide Decode, WellFormed, FitsScalar, Tag, EncPacked, FitsItems, RequiredCount;
    ElementsTurn(fields, st, i, items, rest);
  }

  lemma {:induction false} TooMany(f: Field, items: seq<Value>, room: nat)
    requires f.Packable() && f.dataSize < TWO_32 && |items| > room && forall v | v in items :: FitsScalar(f, v)
    ensures EncPacked(f, items).Some? && DecPacked(f, room, EncPacked(f, items).value).None?
  {
    var tail := items[1..];
    Trip.PackedTrip(f, tail, |tail|);
    var more := EncPacked(f, tail).value;
    ScalarTrip(f, items[0], more);
    Trip.ScalarSome(f, items[0]);
    if room > 0 {
      TooMany(f, tail, room - 1);
    }
    hide EncScalar, DecScalar, FitsScalar;
    assert EncScalar(f, items[0]).value + more != [];
  }

  /** A packed array with more elements than there is room for is refused: "array overflow". */
  lemma OverflowRefused(fields: seq<Field>, st: State, i: nat, items: seq<Value>, rest: seq<byte>)
    requires WellFormed(fields) && i < |fields|
    requires var f := fields[i];
             && f.Array() && f.Packable() && Has(f, st.msg) && (forall v | v in items :: FitsScalar(f, v))
             && (f.rule.FixedCount? ==> st.open == Some(i) && st.filled == |st.msg[f.slot].items|)
             && |st.msg[f.slot].items| + |items| > f.arraySize && |st.msg[f.slot].items| <= f.arraySize
             && Short(EncPacked(f, items))
    ensures Decode(fields, st, Tag(fields[i].tag, 2) + Chunk(EncPacked(fields[i], items)).value + rest).None?
  {
    var f := fields[i];
    assert WellFormedField(f);
    TooMany(f, items, Room(f, st));
    var e := EncPacked(f, items).value;
    Trip.ChunkTrip(e, rest);
    var chunk := Put(|e|) + e;
    hide Decode, WellFormed, Tag, DecPacked, EncPacked, GetChunk, Put, Append, RequiredCount, DecodeField;
    assert Tag(f.tag, 2) + chunk + rest == Tag(f.tag, 2) + (chunk + rest);
    Trip.Turn(fields, st, i, 2, chunk + rest);
    OverflowStep(fields, st, i, chunk + rest);
  }

  lemma OverflowStep(fields: seq<Field>, st: State, i: nat, s: seq<byte>)
    requires i < |fields| && Find(fields, fields[i].tag) == Some(i) && GetChunk(s).Some?
    requires var f := fields[i];
             && f.Array() && f.Packable() && Has(f, st.msg) && Enter(fields, st, i) == Some(st)
             && DecPacked(f, Room(f, st), GetChunk(s).value.0).None?
    ensures DecodeField(fields, st, Tagged(fields[i].tag, 2, s)).None?
  {
    hide Find, Enter, DecPacked, Append, Room, GetChunk;
  }

  // Arrays without a count.

  predicate WholeValue(f: Field, v: Value)
    decreases f, 0, 0
  {
    f.ltype.Submessage? && v.Struct? ==> Whole(f.ltype.fields, v.slots)
  }

  /** An array without a count has all its elements or, if there was no field of it, none. */
  predicate WholeSlot(f: Field, s: Slot)
    decreases f, 1, 0
  {
    && ValuesWhole(f, s)
    && (f.rule.FixedCount? && s.Many? ==> s.items == [] || |s.items| == f.arraySize)
  }

  predicate ValuesWhole(f: Field, s: Slot)
    decreases f, 0, 1
  {
    match s
    case One(v) => WholeValue(f, v)
    case Opt(_, v) => WholeValue(f, v)
    case Many(items) => forall k | 0 <= k < |items| :: WholeValue(f, items[k])
    case Union(which, v) => which == f.tag ==> WholeValue(f, v)
  }

  predicate Whole(fields: seq<Field>, m: seq<Slot>)
    decreases fields
  {
    forall i | 0 <= i < |fields| :: fields[i].slot < |m| ==> WholeSlot(fields[i], m[fields[i].slot])
  }

  /** While a message is read: the array that was begun last has as many elements as were counted. */
  predicate WholeAt(f: Field, st: State, current: bool) {
    f.slot < |st.msg| ==>
      var s := st.msg[f.slot];
      if current && f.rule.FixedCount? && s.Many? then ValuesWhole(f, s) && |s.items| == st.filled else WholeSlot(f, s)
  }

  predicate Reading(fields: seq<Field>, st: State) {
    forall i | 0 <= i < |fields| :: WholeAt(fields[i], st, st.open == Some(i))
  }

  lemma {:induction false} DefaultWhole(f: Field)
    requires WellFormedField(f)
    ensures WholeValue(f, DefaultValue(f)) && WholeSlot(f, DefaultSlot(f))
    decreases f, 0
  {
    if f.ltype.Submessage? {
      DefaultsWhole(f.ltype.fields);
    }
  }

  lemma {:induction false} DefaultsWhole(fields: seq<Field>)
    requires WellFormed(fields)
    ensures Whole(fields, Defaults(fields))
    decreases fields
  {
    Trip.DefaultsFresh(fields);
    forall i | 0 <= i < |fields| ensures WholeSlot(fields[i], Defaults(fields)[fields[i].slot]) {
      assert Trip.HasDefault(fields[i], Defaults(fields)) && WellFormedField(fields[i]);
      DefaultWhole(fields[i]);
    }
  }

  lemma WholeStart(fields: seq<Field>, m: seq<Slot>)
    requires Whole(fields, m)
    ensures Reading(fields, Start(m))
  {
    hide WholeSlot, ValuesWhole;
  }

  /** Nothing is left unfinished at the end. */
  lemma WholeEnd(fields: seq<Field>, st: State)
    requires Reading(fields, st) && Complete(fields, st)
    ensures Whole(fields, st.msg)
  {
    hide ValuesWhole, AllSeen;
    forall i | 0 <= i < |fields| && fields[i].slot < |st.msg| ensures WholeSlot(fields[i], st.msg[fields[i].slot]) {
      assert WholeAt(fields[i], st, st.open == Some(i));
    }
  }

  /** What field i gets leaves the others as they are. */
  lemma WholePut(fields: seq<Field>, st: State, st1: State, i: nat, s: Slot, filled: nat)
    requires Laid(fields) && DistinctTags(fields) && i < |fields| && Reading(fields, st) && Has(fields[i], st.msg)
    requires Enter(fields, st, i) == Some(st1) && Holds(fields[i], s) && ValuesWhole(fields[i], s)
    requires fields[i].rule.Oneof? ==> s.which == fields[i].tag
    requires if fields[i].rule.FixedCount? then |s.items| == filled else filled == st1.filled
    ensures Reading(fields, st1.(msg := st.msg[fields[i].slot := s], filled := filled))
  {
    var st' := st1.(msg := st.msg[fields[i].slot := s], filled := filled);
    hide RequiredCount;
    forall j | 0 <= j < |fields| ensures WholeAt(fields[j], st', st'.open == Some(j)) {
      var g := fields[j];
      assert WholeAt(g, st, st.open == Some(j));
      if j < i {
        Trip.SlotsApart(fields, j, i);
      } else if i < j {
        Trip.SlotsApart(fields, i, j);
      }
      hide WholeValue;
      if j == i {
        assert WholeAt(g, st', st'.open == Some(j));
      } else if g.slot == fields[i].slot {
        assert g.tag != fields[i].tag;
        assert ValuesWhole(g, s);
      } else if g.slot < |st.msg| {
        assert st'.msg[g.slot] == st.msg[g.slot];
        if st.open == Some(j) {
          assert st'.open == Some(j) ==> st'.filled == st.filled;
          assert WholeAt(g, st', st'.open == Some(j));
        } else {
          assert WholeAt(g, st', st'.open == Some(j));
        }
      }
    }
  }

  /** The elements that an array has afterwards. */
  lemma WholeAppend(f: Field, st: State, st1: State, vs: seq<Value>, current: bool)
    requires Has(f, st.msg) && f.Array() && WholeAt(f, st, current) && st1.msg == st.msg
    requires f.rule.FixedCount? ==> st1.filled == if current then st.filled else 0
    requires forall k | 0 <= k < |vs| :: WholeValue(f, vs[k])
    ensures var s := Append(f, st1, vs).msg[f.slot];
            && Append(f, st1, vs) == st1.(msg := st.msg[f.slot := s], filled := Append(f, st1, vs).filled)
            && s.Many? && ValuesWhole(f, s)
            && (if f.rule.FixedCount? then |s.items| == Append(f, st1, vs).filled
                else Append(f, st1, vs).filled == st1.filled)
  {
    hide WholeValue;
    var before, items := st.msg[f.slot].items, Staying(f, st1) + vs;
    assert ValuesWhole(f, st.msg[f.slot]);
    assert forall k | 0 <= k < |before| :: WholeValue(f, before[k]);
    forall k | 0 <= k < |items| ensures WholeValue(f, items[k]) {
      assert if k < |Staying(f, st1)| then items[k] == before[k] else items[k] == vs[k - |Staying(f, st1)|];
    }
    assert Append(f, st1, vs).msg[f.slot] == Many(items);
    assert ValuesWhole(f, Many(items));
  }

  lemma BaseWhole(f: Field, st: State, current: bool)
    requires WellFormedField(f) && f.ltype.Submessage? && Has(f, st.msg) && WholeAt(f, st, current)
    ensures Whole(f.ltype.fields, Base(f, st))
  {
    DefaultsWhole(f.ltype.fields);
    NoneWhole(f.ltype.fields);
    assert ValuesWhole(f, st.msg[f.slot]);
    hide Whole, Defaults;
  }

  lemma NoneWhole(fields: seq<Field>)
    ensures Whole(fields, [])
  {
  }

  lemma {:induction false} ValueWhole(f: Field, st: State, current: bool, s: seq<byte>) returns (got: Got)
    requires WellFormedField(f) && Has(f, st.msg) && WholeAt(f, st, current)
    requires if f.ltype.Submessage? then DecSub(f, Base(f, st), s).Some? else DecScalar(f, s).Some?
    ensures Some(got) == if f.ltype.Submessage? then DecSub(f, Base(f, st), s) else DecScalar(f, s)
    ensures WholeValue(f, got.v)
    decreases |s|, 0
  {
    if f.ltype.Submessage? {
      got := DecSub(f, Base(f, st), s).value;
      BaseWhole(f, st, current);
      var sub, start := f.ltype.fields, Start(Base(f, st));
      hide Whole, Base, Complete, WholeAt, GetChunk, Decode, WellFormed;
      WholeStart(sub, start.msg);
      DecodeWhole(sub, start, GetChunk(s).value.0);
      WholeEnd(sub, Decode(sub, start, GetChunk(s).value.0).value.st);
    } else {
      got := DecScalar(f, s).value;
    }
  }

  lemma {:induction false} StepWhole(fields: seq<Field>, st: State, t: Tagged)
    requires WellFormed(fields) && Reading(fields, st) && DecodeField(fields, st, t).Some?
    ensures Reading(fields, DecodeField(fields, st, t).value.st)
    decreases |t.rest|, 1
  {
    var i := Find(fields, t.tag);
    if i.Some? {
      var f, current := fields[i.value], st.open == i;
      assert WellFormedField(f) && WholeAt(f, st, current);
      var st1 := Enter(fields, st, i.value).value;
      assert st1.msg == st.msg && (f.rule.FixedCount? ==> st1.filled == if current then st.filled else 0);
      assert f.ltype.Submessage? ==> Base(f, st1) == Base(f, st);
      hide Find, Enter, GetChunk, DecPacked, DecScalar, Append, Room, Base, Skip, Reading, WellFormed, WholeAt,
        WellFormedField, ValuesWhole, WholeValue, DecSub;
      if f.Array() && f.Packable() && t.wire == 2 {
        var vs := DecPacked(f, Room(f, st1), GetChunk(t.rest).value.0).value;
        NumbersWhole(f, vs);
        WholeAppend(f, st, st1, vs, current);
        var st' := Append(f, st1, vs);
        WholePut(fields, st, st1, i.value, st'.msg[f.slot], st'.filled);
      } else {
        var got := ValueWhole(f, st, current, t.rest);
        DeliverWhole(f, st, st1, got.v, current);
        var st' := Deliver(f, st1, got.v);
        WholePut(fields, st, st1, i.value, st'.msg[f.slot], st'.filled);
      }
    }
  }

  lemma NumbersWhole(f: Field, vs: seq<Value>)
    requires f.Packable()
    ensures forall k | 0 <= k < |vs| :: WholeValue(f, vs[k])
  {
  }

  lemma DeliverWhole(f: Field, st: State, st1: State, v: Value, current: bool)
    requires Has(f, st.msg) && WholeAt(f, st, current) && st1.msg == st.msg && WholeValue(f, v)
    requires f.rule.FixedCount? ==> st1.filled == if current then st.filled else 0
    ensures var st' := Deliver(f, st1, v);
            var s := st'.msg[f.slot];
            && st' == st1.(msg := st.msg[f.slot := s], filled := st'.filled)
            && Holds(f, s) && ValuesWhole(f, s) && (f.rule.Oneof? ==> s.which == f.tag)
            && (if f.rule.FixedCount? then |s.items| == st'.filled else st'.filled == st1.filled)
  {
    hide WholeValue, Append;
    if f.Array() {
      WholeAppend(f, st, st1, [v], current);
    }
  }

  lemma {:induction false} DecodeWhole(fields: seq<Field>, st: State, s: seq<byte>)
    requires WellFormed(fields) && Reading(fields, st) && Decode(fields, st, s).Some?
    ensures Reading(fields, Decode(fields, st, s).value.st)
    decreases |s|, 2
  {
    if s != [] {
      var t := GetTag(s).value;
      hide GetTag, DecodeField, WellFormed, Reading;
      if t.tag != 0 || t.wire != 0 {
        StepWhole(fields, st, t);
        var n := DecodeField(fields, st, t).value;
        DecodeWhole(fields, n.st, n.rest);
      }
    }
  }

  /** On any input: an accepted message has every array without a count in full or, where no field of it came, not at
      all; in its submessages too. */
  lemma ArraysWhole(fields: seq<Field>, s: seq<byte>)
    requires WellFormed(fields) && DecodeMsg(fields, s).Some?
    ensures Whole(fields, DecodeMsg(fields, s).value.0)
  {
    DefaultsWhole(fields);
    hide Whole, Reading, Decode, WellFormed, Complete;
    var start := Start(Defaults(fields));
    WholeStart(fields, start.msg);
    DecodeWhole(fields, start, s);
    WholeEnd(fields, Decode(fields, start, s).value.st);
  }
}
