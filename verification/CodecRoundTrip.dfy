/** Decoding gives back the visible struct that was encoded. */
module CodecRoundTrip {
  import opened Bytes
  import opened Varints
  import opened Descriptors
  import opened Scalars
  import opened Encoding
  import opened Decoding

  // Slots.

  /** Slots are numbered upwards, and only members of one oneof share a slot. */
  lemma {:induction false} SlotsApart(fields: seq<Field>, i: nat, j: nat)
    requires Laid(fields) && i < j < |fields|
    ensures fields[i].slot <= fields[j].slot
    ensures fields[i].slot == fields[j].slot ==> fields[i].rule.Oneof? && fields[j].rule.Oneof?
  {
    assert Follows(fields, j);
    if i < j - 1 {
      SlotsApart(fields, i, j - 1);
    }
  }

  /** The member is as it was at the start. */
  predicate HasDefault(f: Field, m: seq<Slot>) {
    Has(f, m) && m[f.slot] == DefaultSlot(f)
  }

  /** And so is a union none of whose earlier members was set. */
  predicate Fresh(f: Field, m: seq<Slot>) {
    if f.rule.Oneof? then Has(f, m) && m[f.slot].which != f.tag else HasDefault(f, m)
  }

  /** A struct that was set to defaults has every member, with its default. */
  lemma {:induction false} DefaultsFresh(fields: seq<Field>)
    requires Laid(fields)
    ensures |Defaults(fields)| == Slots(fields)
    ensures forall j | 0 <= j < |fields| :: HasDefault(fields[j], Defaults(fields))
  {
    if fields != [] {
      var n := |fields| - 1;
      var before, last := fields[..n], fields[n];
      forall i | 0 < i < |before| ensures Follows(before, i) {
        assert Follows(fields, i);
      }
      DefaultsFresh(before);
      if n > 0 {
        assert Follows(fields, n);
        assert HasDefault(before[n - 1], Defaults(before));
      }
      hide DefaultSlot;
      forall j | 0 <= j < |fields| ensures HasDefault(fields[j], Defaults(fields)) {
        assert j < n ==> HasDefault(before[j], Defaults(before));
      }
    }
  }

  // How far the struct is filled in.

  /** The member looks the same, just if it survives the default check. */
  predicate Agrees(f: Field, s: Slot, t: Slot) {
    && Holds(f, s)
    && Holds(f, t)
    && (SameSlot(f, s, t) <==> KeptSlot(f, s))
  }

  /** Before field i the struct agrees with m; from field i on it is as at the start. */
  predicate At(fields: seq<Field>, m: seq<Slot>, got: seq<Slot>, i: nat, j: nat)
    requires j < |fields|
  {
    var f := fields[j];
    if j < i then f.slot < |m| && f.slot < |got| && Agrees(f, m[f.slot], got[f.slot]) else Fresh(f, got)
  }

  predicate Filled(fields: seq<Field>, m: seq<Slot>, got: seq<Slot>, i: nat) {
    forall j | 0 <= j < |fields| :: At(fields, m, got, i, j)
  }

  /** The required fields before i were seen, and every array without a count that was begun is complete. */
  predicate Booked(fields: seq<Field>, st: State, i: nat) {
    && (forall j: nat | j < i && j < |fields| && fields[j].rule.Required? ::
          RequiredCount(fields[..j]) < PB_MAX_REQUIRED_FIELDS ==> RequiredCount(fields[..j]) in st.seen)
    && (st.open.Some? ==>
          st.open.value < i && st.open.value < |fields| && st.filled == fields[st.open.value].arraySize)
  }

  predicate Progress(fields: seq<Field>, m: seq<Slot>, st: State, i: nat) {
    Filled(fields, m, st.msg, i) && Booked(fields, st, i)
  }

  /** Setting the member of field i to what m has, as its active member if it is one of a union. */
  lemma Placed(fields: seq<Field>, m: seq<Slot>, got: seq<Slot>, i: nat, s: Slot)
    requires Laid(fields) && DistinctTags(fields) && i < |fields| && Filled(fields, m, got, i)
    requires var f := fields[i];
             f.slot < |m| && Agrees(f, m[f.slot], s)
             && (f.rule.Oneof? ==> m[f.slot].which == f.tag && s.which == f.tag)
    ensures fields[i].slot < |got| && Filled(fields, m, got[fields[i].slot := s], i + 1)
  {
    var f := fields[i];
    assert At(fields, m, got, i, i);
    var got' := got[f.slot := s];
    hide SameSlot, KeptSlot, DefaultSlot;
    var i' := i + 1;
    forall j | 0 <= j < |fields| ensures At(fields, m, got', i', j) {
      assert At(fields, m, got, i, j);
      if j < i {
        SlotsApart(fields, j, i);
        if fields[j].slot == f.slot {
          OtherMember(f, fields[j], m[f.slot], s);
        }
      } else if i < j {
        SlotsApart(fields, i, j);
      }
    }
  }

  lemma OtherMember(f: Field, g: Field, s: Slot, t: Slot)
    requires g.rule.Oneof? && g.tag != f.tag && s.Union? && t.Union? && s.which == f.tag == t.which
    ensures Agrees(g, s, t)
  {
  }

  /** Nothing to set: the member is as at the start on both sides. */
  lemma Skipped(fields: seq<Field>, m: seq<Slot>, got: seq<Slot>, i: nat)
    requires i < |fields| && Filled(fields, m, got, i)
    requires var f := fields[i];
             f.slot < |m| && f.slot < |got| && Agrees(f, m[f.slot], got[f.slot])
    ensures Filled(fields, m, got, i + 1)
  {
    hide Agrees, Fresh;
    var i' := i + 1;
    forall j | 0 <= j < |fields| ensures At(fields, m, got, i', j) {
      assert At(fields, m, got, i, j);
    }
  }

  // Members that are not written.

  /** A member that the default check leaves out looks like one that was set to its default, unless it hides an array
      without a count. */
  lemma {:induction false} DefaultSame(f: Field, m: seq<Slot>)
    requires WellFormedField(f) && FitsField(f, m) && IsDefault(f, m[f.slot]) && !f.rule.FixedCount?
    ensures Agrees(f, m[f.slot], DefaultSlot(f))
    decreases f, 0
  {
    if f.rule.Singular? {
      var v := m[f.slot].v;
      if f.ltype.Submessage? {
        var sub := f.ltype.fields;
        AllDefaultSame(sub, v.slots);
        assert DefaultValue(f) == Struct(Defaults(sub));
      } else {
        assert v == DefaultValue(f);
      }
    }
  }

  /** An array whose first word is zero has elements that are not in the default. */
  lemma ArrayLost(f: Field, m: seq<Slot>)
    requires f.rule.FixedCount? && Has(f, m) && IsDefault(f, m[f.slot])
    ensures !SameSlot(f, m[f.slot], DefaultSlot(f))
  {
  }

  lemma {:induction false} AllDefaultSame(fields: seq<Field>, m: seq<Slot>)
    requires WellFormed(fields) && FitsMsg(fields, m) && AllDefault(fields, m)
    ensures Same(fields, m, Defaults(fields)) <==> Kept(fields, m) && NoFixedCount(fields)
    decreases fields
  {
    DefaultsFresh(fields);
    var d := Defaults(fields);
    forall i | 0 <= i < |fields|
      ensures SameAt(fields[i], m, d) <==> KeptAt(fields[i], m) && !fields[i].rule.FixedCount?
    {
      var f := fields[i];
      assert FitsField(f, m) && WellFormedField(f) && HasDefault(f, d);
      if f.rule.FixedCount? {
        ArrayLost(f, m);
      } else {
        DefaultSame(f, m);
      }
    }
  }

  // Values.

  /** The value that a fresh member gets. */
  function DecValue(f: Field, s: seq<byte>): Option<Got> {
    if f.ltype.Submessage? then DecSub(f, Defaults(f.ltype.fields), s) else DecScalar(f, s)
  }

  lemma ChunkTrip(e: seq<byte>, rest: seq<byte>)
    requires |e| < TWO_32
    ensures GetChunk(Put(|e|) + e + rest) == Some((e, rest))
  {
    GetPut32(|e|, e + rest);
    hide Get32, Put;
    assert Put(|e|) + e + rest == Put(|e|) + (e + rest);
    ChunkOf(Put(|e|) + e + rest, e, rest);
  }

  lemma ChunkOf(s: seq<byte>, e: seq<byte>, rest: seq<byte>)
    requires Get32(s) == Some(Read(|e|, e + rest))
    ensures GetChunk(s) == Some((e, rest))
  {
    hide Get32;
    assert (e + rest)[..|e|] == e && (e + rest)[|e|..] == rest;
  }

  lemma {:induction false} PackedTrip(f: Field, items: seq<Value>, room: nat)
    requires f.Packable() && f.dataSize < TWO_32 && |items| <= room && forall v | v in items :: FitsScalar(f, v)
    ensures EncPacked(f, items).Some? && DecPacked(f, room, EncPacked(f, items).value) == Some(items)
  {
    if items != [] {
      var tail := items[1..];
      PackedTrip(f, tail, room - 1);
      var more := EncPacked(f, tail).value;
      ScalarTrip(f, items[0], more);
      ScalarSome(f, items[0]);
      hide EncScalar, DecScalar, FitsScalar;
      var e := EncScalar(f, items[0]).value;
      assert e + more != [];
      assert [items[0]] + tail == items;
    }
  }

  lemma ScalarSome(f: Field, v: Value)
    requires EncScalar(f, v).Some? && f.Packable()
    ensures EncScalar(f, v).value != []
  {
  }

  // What fits is encoded.

  lemma ValueSome(f: Field, v: Value)
    requires f.dataSize < TWO_32 && FitsValue(f, v)
    ensures EncValue(f, v).Some?
  {
    if !f.ltype.Submessage? {
      ScalarTrip(f, v, []);
    }
  }

  lemma {:induction false} EachSome(f: Field, items: seq<Value>)
    requires f.dataSize < TWO_32 && forall v | v in items :: FitsValue(f, v)
    ensures EncEach(f, items).Some?
  {
    if items != [] {
      ValueSome(f, items[0]);
      EachSome(f, items[1..]);
    }
  }

  /** A member with nothing to write. */
  predicate Silent(f: Field, s: Slot)
    requires Holds(f, s)
  {
    match f.rule
    case Required => false
    case Optional => !s.has
    case Singular => IsDefault(f, s)
    case Repeated | FixedCount => s.items == []
    case Oneof => s.which != f.tag
  }

  /** The three ways of encode_basic_field. */
  lemma FieldOutput(f: Field, m: seq<Slot>)
    requires Has(f, m) && (f.rule.FixedCount? ==> |m[f.slot].items| == f.arraySize)
    ensures EncField(f, m)
         == var s := m[f.slot];
            if Silent(f, s) then Some([]) else if f.Array() then EncArray(f, s.items) else EncTagged(f, s.v)
  {
    var s := m[f.slot];
    assert EncField(f, m) == EncSlot(f, s);
    assert EncArray(f, []) == Some([]);
    hide IsDefault, EncArray, EncTagged;
  }

  lemma FieldSome(f: Field, m: seq<Slot>)
    requires f.dataSize < TWO_32 && FitsField(f, m)
    ensures EncField(f, m).Some?
  {
    var s := m[f.slot];
    FieldOutput(f, m);
    if f.Array() {
      assert FitsItems(f, s.items);
      EachSome(f, s.items);
    } else if !Silent(f, s) {
      ValueSome(f, s.v);
    }
  }

  /** Everything that fits is encoded. */
  lemma {:induction false} EncodeSucceeds(fields: seq<Field>, m: seq<Slot>)
    requires (forall f | f in fields :: f.dataSize < TWO_32 && FitsField(f, m))
    ensures EncMsg(fields, m).Some?
  {
    if fields != [] {
      FieldSome(fields[0], m);
      EncodeSucceeds(fields[1..], m);
    }
  }

  // Fields.

  lemma {:induction false} FindAt(fields: seq<Field>, i: nat)
    requires DistinctTags(fields) && i < |fields|
    ensures Find(fields, fields[i].tag) == Some(i)
  {
    if i > 0 {
      assert fields[0].tag != fields[i].tag;
      var rest := fields[1..];
      assert DistinctTags(rest) by {
        forall a, b | 0 <= a < b < |rest| ensures rest[a].tag != rest[b].tag {
          assert fields[a + 1].tag != fields[b + 1].tag;
        }
      }
      FindAt(rest, i - 1);
    }
  }

  lemma TagTrip(tag: nat, wire: nat, rest: seq<byte>)
    requires 1 <= tag < 0x2000_0000 && wire < 8
    ensures Tag(tag, wire) != [] && GetTag(Tag(tag, wire) + rest) == Some(Tagged(tag, wire, rest))
  {
    GetPut32(8 * tag + wire, rest);
    hide Get32, Put;
  }

  /** The tag of a field leads the loop to it. */
  lemma Turn(fields: seq<Field>, st: State, i: nat, wire: nat, rest: seq<byte>)
    requires WellFormed(fields) && i < |fields| && wire < 8
    ensures Find(fields, fields[i].tag) == Some(i)
    ensures var next := DecodeField(fields, st, Tagged(fields[i].tag, wire, rest));
            Decode(fields, st, Tag(fields[i].tag, wire) + rest)
              == if next.None? then None else Decode(fields, next.value.st, next.value.rest)
  {
    assert WellFormedField(fields[i]);
    FindAt(fields, i);
    TagTrip(fields[i].tag, wire, rest);
    hide DecodeField, GetTag, Find, Tag, WellFormed;
  }

  /** A member that is as at the start, or an array with room, gets the value. */
  lemma OneStep(fields: seq<Field>, st: State, i: nat, s: seq<byte>, w: Value, rest: seq<byte>)
    requires i < |fields| && Find(fields, fields[i].tag) == Some(i)
    requires var f := fields[i];
             && Has(f, st.msg)
             && Enter(fields, st, i).Some?
             && (f.Array() ==> !f.Packable() && Room(f, Enter(fields, st, i).value) > 0)
             && (f.ltype.Submessage? ==> Base(f, st) == Defaults(f.ltype.fields))
             && DecValue(f, s) == Some(Got(w, rest))
    ensures var f := fields[i];
            DecodeField(fields, st, Tagged(f.tag, f.Wire(), s))
              == Some(Step(Deliver(f, Enter(fields, st, i).value, w), rest))
  {
    var f := fields[i];
    var st' := Enter(fields, st, i).value;
    assert f.ltype.Submessage? ==> Base(f, st') == Base(f, st);
    hide Find, Enter, DecSub, DecScalar, Deliver, Room, Base, Defaults;
  }

  /** One value with its tag. */
  lemma TaggedTurn(fields: seq<Field>, st: State, i: nat, e: seq<byte>, w: Value, rest: seq<byte>)
    requires WellFormed(fields) && i < |fields|
    requires var f := fields[i];
             && Has(f, st.msg)
             && Enter(fields, st, i).Some?
             && (f.Array() ==> !f.Packable() && Room(f, Enter(fields, st, i).value) > 0)
             && (f.ltype.Submessage? ==> Base(f, st) == Defaults(f.ltype.fields))
             && DecValue(f, e + rest) == Some(Got(w, rest))
    ensures var f := fields[i];
            Decode(fields, st, Tag(f.tag, f.Wire()) + e + rest)
              == Decode(fields, Deliver(f, Enter(fields, st, i).value, w), rest)
  {
    var f := fields[i];
    Turn(fields, st, i, f.Wire(), e + rest);
    hide Decode, DecodeField, WellFormed, Find, Tag, Enter, DecValue, Deliver, Room, Base, Defaults;
    OneStep(fields, st, i, e + rest, w, rest);
    assert Tag(f.tag, f.Wire()) + e + rest == Tag(f.tag, f.Wire()) + (e + rest);
  }

  /** What a field's output starts from. */
  lemma FreshBase(f: Field, st: State)
    requires Fresh(f, st.msg) && f.ltype.Submessage?
    ensures Base(f, st) == Defaults(f.ltype.fields)
  {
    assert DefaultValue(f) == Struct(Defaults(f.ltype.fields));
  }

  lemma EnterMsg(fields: seq<Field>, st: State, i: nat)
    requires i < |fields| && Booked(fields, st, i)
    ensures Enter(fields, st, i).Some? && Enter(fields, st, i).value.msg == st.msg
  {
  }

  /** A value and its field's tag are read back as a value that looks the same. */
  lemma {:induction false} ValueTrip(f: Field, v: Value, rest: seq<byte>) returns (w: Value)
    requires WellFormedField(f) && FitsValue(f, v)
    ensures EncValue(f, v).Some? && (SameValue(f, v, w) <==> KeptValue(f, v))
    ensures DecValue(f, EncValue(f, v).value + rest) == Some(Got(w, rest))
    decreases f, 0
  {
    if f.ltype.Submessage? {
      var sub := f.ltype.fields;
      var done := MsgTrip(sub, v.slots);
      w := Struct(done.st.msg);
      var e := EncMsg(sub, v.slots).value;
      ChunkTrip(e, rest);
      hide Decode, Complete, GetChunk, EncMsg, Put;
    } else {
      ScalarTrip(f, v, rest);
      w := v;
    }
  }

  lemma AppendTwice(f: Field, st: State, w: Value, ws: seq<Value>)
    requires Has(f, st.msg) && f.Array() && Count(f, st) == |st.msg[f.slot].items|
    ensures Append(f, Append(f, st, [w]), ws) == Append(f, st, [w] + ws)
    ensures Append(f, st, []) == st
    ensures Count(f, Append(f, st, [w])) == |Append(f, st, [w]).msg[f.slot].items| == Count(f, st) + 1
  {
    var items := st.msg[f.slot].items;
    assert items + [w] + ws == items + ([w] + ws) && items + [] == items;
    assert st.msg[f.slot := Many(items)] == st.msg;
    assert st.msg[f.slot := Many(items + [w])][f.slot := Many(items + [w] + ws)]
        == st.msg[f.slot := Many(items + [w] + ws)];
  }

  lemma SameHead(f: Field, s: seq<Value>, t: seq<Value>)
    requires |s| == |t| > 0
    ensures SameItems(f, s, t) <==> SameValue(f, s[0], t[0]) && SameItems(f, s[1..], t[1..])
  {
    hide SameValue;
    if SameValue(f, s[0], t[0]) && SameItems(f, s[1..], t[1..]) {
      forall k | 0 <= k < |s| ensures SameValue(f, s[k], t[k]) {
        assert k > 0 ==> s[1..][k - 1] == s[k] && t[1..][k - 1] == t[k];
      }
    }
  }

  lemma KeptHead(f: Field, s: seq<Value>)
    requires s != []
    ensures KeptItems(f, s) <==> KeptValue(f, s[0]) && KeptItems(f, s[1..])
  {
    hide KeptValue;
    if KeptValue(f, s[0]) && KeptItems(f, s[1..]) {
      forall k | 0 <= k < |s| ensures KeptValue(f, s[k]) {
        assert k > 0 ==> s[1..][k - 1] == s[k];
      }
    }
  }

  lemma EachFirst(fields: seq<Field>, st: State, i: nat, e: seq<byte>, w: Value, rest: seq<byte>)
    requires WellFormed(fields) && i < |fields|
    requires var f := fields[i];
             && f.Array() && !f.Packable() && Has(f, st.msg) && Enter(fields, st, i) == Some(st)
             && Count(f, st) == |st.msg[f.slot].items|
             && Count(f, st) < f.arraySize
             && DecValue(f, e + rest) == Some(Got(w, rest))
    ensures var f := fields[i];
            var st1 := Append(f, st, [w]);
            && Decode(fields, st, Tag(f.tag, f.Wire()) + e + rest) == Decode(fields, st1, rest)
            && Has(f, st1.msg) && Enter(fields, st1, i) == Some(st1)
            && Count(f, st1) == |st1.msg[f.slot].items| == Count(f, st) + 1
  {
    TaggedTurn(fields, st, i, e, w, rest);
    hide Decode, WellFormed, DecValue, Tag;
    AppendTwice(fields[i], st, w, []);
  }

  lemma EachOutput(f: Field, items: seq<Value>, rest: seq<byte>)
    requires items != [] && EncValue(f, items[0]).Some? && EncEach(f, items[1..]).Some?
    ensures EncEach(f, items).Some?
    ensures var e, more := EncValue(f, items[0]).value, EncEach(f, items[1..]).value;
            EncEach(f, items).value + rest == Tag(f.tag, f.Wire()) + e + (more + rest)
  {
    assert EncEach(f, items) == Then(EncTagged(f, items[0]), EncEach(f, items[1..]));
    assert EncTagged(f, items[0]) == Then(Some(Tag(f.tag, f.Wire())), EncValue(f, items[0]));
    var a, e, more := Tag(f.tag, f.Wire()), EncValue(f, items[0]).value, EncEach(f, items[1..]).value;
    hide *;
    assert (a + e + more) + rest == a + e + (more + rest);
  }

  /** The elements of an array, each with its tag. */
  lemma {:induction false} EachTrip(fields: seq<Field>, st: State, i: nat, items: seq<Value>, rest: seq<byte>)
    returns (ws: seq<Value>)
    requires WellFormed(fields) && i < |fields|
    requires var f := fields[i];
             && f.Array() && !f.Packable() && Has(f, st.msg) && Enter(fields, st, i) == Some(st)
             && Count(f, st) == |st.msg[f.slot].items|
             && Count(f, st) + |items| <= f.arraySize
             && forall v | v in items :: FitsValue(f, v)
    ensures var f := fields[i];
            && EncEach(f, items).Some? && |ws| == |items| && (SameItems(f, items, ws) <==> KeptItems(f, items))
            && Decode(fields, st, EncEach(f, items).value + rest) == Decode(fields, Append(f, st, ws), rest)
    decreases fields[i], 2, |items|
  {
    var f := fields[i];
    assert WellFormedField(f);
    hide Decode, Append, SameValue, KeptValue, SameItems, KeptItems, Enter, EncEach, WellFormed, EncValue, Tag,
      DecValue, FitsValue, Count, EncTagged;
    if items == [] {
      ws := [];
      NoItems(f, rest);
      AppendTwice(f, st, Num(0), []);
    } else {
      var v, tail := items[0], items[1..];
      EachSome(f, tail);
      var more := EncEach(f, tail).value;
      var w := ValueTrip(f, v, more + rest);
      EachOutput(f, items, rest);
      EachFirst(fields, st, i, EncValue(f, v).value, w, more + rest);
      var ws' := EachTrip(fields, Append(f, st, [w]), i, tail, rest);
      ws := [w] + ws';
      AppendTwice(f, st, w, ws');
      AgreeHead(f, items, w, ws');
    }
  }

  lemma NoItems(f: Field, rest: seq<byte>)
    ensures EncEach(f, []) == Some([]) && [] + rest == rest
    ensures SameItems(f, [], []) && KeptItems(f, [])
  {
  }

  lemma AgreeHead(f: Field, items: seq<Value>, w: Value, ws: seq<Value>)
    requires |items| == |ws| + 1
    requires SameValue(f, items[0], w) <==> KeptValue(f, items[0])
    requires SameItems(f, items[1..], ws) <==> KeptItems(f, items[1..])
    ensures SameItems(f, items, [w] + ws) <==> KeptItems(f, items)
  {
    hide SameValue, KeptValue, SameItems, KeptItems;
    assert ([w] + ws)[1..] == ws;
    SameHead(f, items, [w] + ws);
    KeptHead(f, items);
  }

  // The fields of a message.

  lemma QuietSame(f: Field, s: Slot, t: Slot)
    requires Holds(f, s) && Holds(f, t) && !f.rule.Singular? && Silent(f, s) && Silent(f, t)
    ensures Agrees(f, s, t)
  {
  }

  lemma SilentTrip(fields: seq<Field>, m: seq<Slot>, st: State, i: nat)
    requires WellFormed(fields) && i < |fields| && FitsField(fields[i], m) && Progress(fields, m, st, i)
    requires Silent(fields[i], m[fields[i].slot])
    ensures EncField(fields[i], m) == Some([]) && Progress(fields, m, st, i + 1)
  {
    var f := fields[i];
    assert At(fields, m, st.msg, i, i) && WellFormedField(f);
    FieldOutput(f, m);
    if f.rule.Singular? {
      DefaultSame(f, m);
    } else {
      QuietSame(f, m[f.slot], st.msg[f.slot]);
    }
    Skipped(fields, m, st.msg, i);
  }

  /** The bookkeeping for one more field: its place among the required ones, or its array. */
  lemma BookedNext(fields: seq<Field>, st: State, i: nat, st': State)
    requires i < |fields| && Booked(fields, st, i)
    requires var e := Enter(fields, st, i);
             e.Some? && st'.seen == e.value.seen && st'.open == e.value.open
             && (if fields[i].rule.FixedCount? then st'.filled == fields[i].arraySize else st'.filled == st.filled)
    ensures Booked(fields, st', i + 1)
  {
    hide RequiredCount;
  }

  predicate Single(f: Field, s: Slot)
    requires Holds(f, s)
  {
    !f.Array() && !Silent(f, s)
  }

  /** The members that a value with its tag is written for. */
  lemma {:induction false} SingleTrip(fields: seq<Field>, m: seq<Slot>, st: State, i: nat, rest: seq<byte>)
    returns (st': State)
    requires WellFormed(fields) && i < |fields| && FitsField(fields[i], m) && Progress(fields, m, st, i)
    requires Single(fields[i], m[fields[i].slot])
    ensures EncField(fields[i], m).Some?
    ensures Decode(fields, st, EncField(fields[i], m).value + rest) == Decode(fields, st', rest)
    ensures Progress(fields, m, st', i + 1)
    decreases fields[i], 3, 0
  {
    var f, s := fields[i], m[fields[i].slot];
    assert At(fields, m, st.msg, i, i) && WellFormedField(f);
    FieldOutput(f, m);
    assert EncTagged(f, s.v) == Then(Some(Tag(f.tag, f.Wire())), EncValue(f, s.v));
    EnterMsg(fields, st, i);
    if f.ltype.Submessage? {
      FreshBase(f, st);
    }
    var w := ValueTrip(f, s.v, rest);
    TaggedTurn(fields, st, i, EncValue(f, s.v).value, w, rest);
    st' := Deliver(f, Enter(fields, st, i).value, w);
    BookedNext(fields, st, i, st');
    hide Decode, DecValue, EncValue, SameValue, Booked, Enter, WellFormed;
    Placed(fields, m, st.msg, i, st'.msg[f.slot]);
  }

  lemma ArrayHead(f: Field, items: seq<Value>) returns (wire: nat, more: seq<byte>)
    requires items != [] && EncArray(f, items).Some?
    ensures wire < 8 && EncArray(f, items).value == Tag(f.tag, wire) + more
  {
    hide Tag, EncPacked, EncValue, Chunk;
    if f.Packable() {
      wire, more := 2, Chunk(EncPacked(f, items)).value;
    } else {
      wire := f.Wire();
      assert EncEach(f, items) == Then(EncTagged(f, items[0]), EncEach(f, items[1..]));
      more := EncValue(f, items[0]).value + EncEach(f, items[1..]).value;
    }
  }

  lemma EnterStays(fields: seq<Field>, st: State, i: nat)
    requires i < |fields| && Booked(fields, st, i) && fields[i].Array()
    ensures Enter(fields, st, i).Some?
    ensures Enter(fields, Enter(fields, st, i).value, i) == Enter(fields, st, i)
    ensures Enter(fields, st, i).value.msg == st.msg
  {
    hide RequiredCount;
  }

  /** Entering an array is done once. */
  lemma EnteredStep(fields: seq<Field>, st: State, st1: State, i: nat, t: Tagged)
    requires i < |fields| && Find(fields, t.tag) == Some(i)
    requires Enter(fields, st, i) == Some(st1) == Enter(fields, st1, i) && st1.msg == st.msg
    ensures DecodeField(fields, st, t) == DecodeField(fields, st1, t)
  {
    hide Find, Enter, GetChunk, DecPacked, DecScalar, DecSub, Append, Deliver, Room, Base, Has;
  }

  /** The first tag of an array: the decoder turns to it. */
  lemma EnterTwice(fields: seq<Field>, st: State, i: nat, wire: nat, rest: seq<byte>)
    requires WellFormed(fields) && i < |fields| && wire < 8 && Booked(fields, st, i) && fields[i].Array()
    ensures var st1 := Enter(fields, st, i).value;
            && Enter(fields, st1, i) == Some(st1)
            && Decode(fields, st, Tag(fields[i].tag, wire) + rest)
               == Decode(fields, st1, Tag(fields[i].tag, wire) + rest)
  {
    EnterStays(fields, st, i);
    hide Decode, DecodeField, Tag, WellFormed, Find, Enter, Booked;
    var st1 := Enter(fields, st, i).value;
    Turn(fields, st, i, wire, rest);
    Turn(fields, st1, i, wire, rest);
    EnteredStep(fields, st, st1, i, Tagged(fields[i].tag, wire, rest));
  }

  /** A packed array. */
  lemma PackTrip(fields: seq<Field>, st: State, i: nat, items: seq<Value>, rest: seq<byte>)
    requires WellFormed(fields) && i < |fields|
    requires var f := fields[i];
             && f.Array() && f.Packable() && Has(f, st.msg) && Enter(fields, st, i) == Some(st)
             && Count(f, st) + |items| <= f.arraySize && FitsItems(f, items)
    ensures var f := fields[i];
            var e := EncPacked(f, items);
            && e.Some?
            && Decode(fields, st, Tag(f.tag, 2) + Chunk(e).value + rest) == Decode(fields, Append(f, st, items), rest)
  {
    var f := fields[i];
    assert WellFormedField(f);
    assert forall v | v in items :: FitsValue(f, v) && FitsScalar(f, v);
    PackedTrip(f, items, Room(f, st));
    var e := EncPacked(f, items).value;
    ChunkTrip(e, rest);
    var chunk := Put(|e|) + e;
    Turn(fields, st, i, 2, chunk + rest);
    assert Tag(f.tag, 2) + chunk + rest == Tag(f.tag, 2) + (chunk + rest);
    hide Decode, WellFormed, Tag, Enter, DecPacked, EncPacked, GetChunk, Put, Append, Room, FitsItems, Count;
  }

  /** The elements of an array that has none yet. */
  lemma {:induction false} ElementsTrip(fields: seq<Field>, st: State, i: nat, items: seq<Value>, rest: seq<byte>)
    returns (ws: seq<Value>)
    requires WellFormed(fields) && i < |fields| && items != []
    requires var f := fields[i];
             && f.Array() && Has(f, st.msg) && Enter(fields, st, i) == Some(st)
             && Count(f, st) == |st.msg[f.slot].items| == 0 && FitsItems(f, items)
    ensures var f := fields[i];
            && EncArray(f, items).Some? && |ws| == |items| && (SameItems(f, items, ws) <==> KeptItems(f, items))
            && Decode(fields, st, EncArray(f, items).value + rest) == Decode(fields, Append(f, st, ws), rest)
    decreases fields[i], 3, 0
  {
    var f := fields[i];
    hide Decode, Append, Enter, WellFormed, EncEach, EncPacked, Tag, Put;
    if f.Packable() {
      PackTrip(fields, st, i, items, rest);
      ws := items;
    } else {
      ws := EachTrip(fields, st, i, items, rest);
    }
  }

  lemma ArraySame(f: Field, items: seq<Value>, ws: seq<Value>)
    requires f.Array() && (SameItems(f, items, ws) <==> KeptItems(f, items))
    ensures Agrees(f, Many(items), Many(ws))
  {
    hide SameItems, KeptItems;
  }

  lemma {:induction false} ArrayTrip(fields: seq<Field>, m: seq<Slot>, st: State, i: nat, rest: seq<byte>)
    returns (st': State)
    requires WellFormed(fields) && i < |fields| && FitsField(fields[i], m) && Progress(fields, m, st, i)
    requires fields[i].Array() && m[fields[i].slot].items != []
    ensures EncField(fields[i], m).Some?
    ensures Decode(fields, st, EncField(fields[i], m).value + rest) == Decode(fields, st', rest)
    ensures Progress(fields, m, st', i + 1)
    decreases fields[i], 4, 0
  {
    var f, items := fields[i], m[fields[i].slot].items;
    assert At(fields, m, st.msg, i, i) && WellFormedField(f);
    EnterMsg(fields, st, i);
    var st1 := Enter(fields, st, i).value;
    FieldOutput(f, m);
    var ws := ElementsTrip(fields, st1, i, items, rest);
    var wire, more := ArrayHead(f, items);
    var e := EncArray(f, items).value;
    assert e + rest == Tag(f.tag, wire) + (more + rest);
    EnterTwice(fields, st, i, wire, more + rest);
    st' := Append(f, st1, ws);
    assert Staying(f, st1) == [] && [] + ws == ws;
    ArraySame(f, items, ws);
    BookedNext(fields, st, i, st');
    hide Decode, EncArray, SameSlot, KeptSlot, Booked, Enter, WellFormed;
    Placed(fields, m, st.msg, i, st'.msg[f.slot]);
  }

  /** A field is read back, whatever follows it. */
  lemma {:induction false} FieldTrip(fields: seq<Field>, m: seq<Slot>, st: State, i: nat, rest: seq<byte>)
    returns (st': State)
    requires WellFormed(fields) && i < |fields| && FitsField(fields[i], m) && Progress(fields, m, st, i)
    ensures EncField(fields[i], m).Some?
    ensures Decode(fields, st, EncField(fields[i], m).value + rest) == Decode(fields, st', rest)
    ensures Progress(fields, m, st', i + 1)
    decreases fields[i], 5, 0
  {
    var f := fields[i];
    assert f.slot < |m| && Holds(f, m[f.slot]);
    hide Progress, EncField, FitsField, Decode, WellFormed;
    if Silent(f, m[f.slot]) {
      SilentTrip(fields, m, st, i);
      st' := st;
      assert [] + rest == rest;
    } else if f.Array() {
      st' := ArrayTrip(fields, m, st, i, rest);
    } else {
      st' := SingleTrip(fields, m, st, i, rest);
    }
  }

  /** The fields from the i-th on. */
  lemma {:induction false} FieldsTrip(fields: seq<Field>, m: seq<Slot>, st: State, i: nat) returns (done: Done)
    requires WellFormed(fields) && i <= |fields| && FitsMsg(fields, m) && Progress(fields, m, st, i)
    ensures EncMsg(fields[i..], m).Some?
    ensures Decode(fields, st, EncMsg(fields[i..], m).value) == Some(done)
    ensures done.rest == [] && !done.zero && Progress(fields, m, done.st, |fields|)
    decreases fields, 0, |fields| - i
  {
    if i == |fields| {
      assert fields[i..] == [];
      done := Done(st, [], false);
    } else {
      var tail := fields[i + 1..];
      assert fields[i..][0] == fields[i] && fields[i..][1..] == tail;
      forall f | f in tail ensures f.dataSize < TWO_32 && FitsField(f, m) {
        var j :| i + 1 <= j < |fields| && fields[j] == f;
        assert WellFormedField(fields[j]) && FitsField(fields[j], m);
      }
      EncodeSucceeds(tail, m);
      var more := EncMsg(tail, m).value;
      assert FitsField(fields[i], m);
      hide Progress, EncField, FitsField, Decode, WellFormed, FitsMsg;
      var st' := FieldTrip(fields, m, st, i, more);
      done := FieldsTrip(fields, m, st', i + 1);
    }
  }

  lemma {:induction false} RequiredAt(fields: seq<Field>, k: nat) returns (j: nat)
    requires k < RequiredCount(fields)
    ensures j < |fields| && fields[j].rule.Required? && RequiredCount(fields[..j]) == k
  {
    var n := |fields| - 1;
    if k == RequiredCount(fields[..n]) {
      j := n;
    } else {
      j := RequiredAt(fields[..n], k);
      assert fields[..n][..j] == fields[..j];
    }
  }

  lemma AllBooked(fields: seq<Field>, st: State)
    requires Booked(fields, st, |fields|)
    ensures Complete(fields, st)
  {
    forall k: nat | k < RequiredCount(fields) && k < PB_MAX_REQUIRED_FIELDS ensures k in st.seen {
      var j := RequiredAt(fields, k);
    }
  }

  lemma NothingYet(fields: seq<Field>, m: seq<Slot>)
    requires WellFormed(fields)
    ensures Progress(fields, m, Start(Defaults(fields)), 0)
  {
    DefaultsFresh(fields);
    forall j | 0 <= j < |fields| ensures At(fields, m, Defaults(fields), 0, j) {
      assert HasDefault(fields[j], Defaults(fields)) && WellFormedField(fields[j]);
    }
  }

  /** A whole message, as the top level or a chunk. */
  lemma {:induction false} MsgTrip(fields: seq<Field>, m: seq<Slot>) returns (done: Done)
    requires WellFormed(fields) && FitsMsg(fields, m)
    ensures EncMsg(fields, m).Some?
    ensures Decode(fields, Start(Defaults(fields)), EncMsg(fields, m).value) == Some(done)
    ensures done.rest == [] && Complete(fields, done.st) && (Same(fields, m, done.st.msg) <==> Kept(fields, m))
    decreases fields, 1
  {
    NothingYet(fields, m);
    assert fields[0..] == fields;
    done := FieldsTrip(fields, m, Start(Defaults(fields)), 0);
    AllBooked(fields, done.st);
    forall j | 0 <= j < |fields| ensures SameAt(fields[j], m, done.st.msg) <==> KeptAt(fields[j], m) {
      assert At(fields, m, done.st.msg, |fields|, j);
    }
  }

  /** pb_decode of what pb_encode wrote succeeds and takes the whole of it. The struct looks the same just if no struct
      that the default check takes for empty hides an array without a count. */
  lemma RoundTrip(fields: seq<Field>, m: seq<Slot>)
    requires WellFormed(fields) && FitsMsg(fields, m)
    ensures EncMsg(fields, m).Some?
    ensures var r := DecodeMsg(fields, EncMsg(fields, m).value);
            r.Some? && r.value.1 == [] && (Same(fields, m, r.value.0) <==> Kept(fields, m))
  {
    var done := MsgTrip(fields, m);
  }

  // An array that is lost: its elements begin with four zero bytes, and its struct has no has flag.

  const LOST_ARRAY := Field(1, 0, FixedCount, Uvarint, 0, 0, 1, 5)
  const LOST_ITEMS: seq<Value> := [Num(0), Num(0), Num(0), Num(0), Num(5)]

  lemma OnePacked(f: Field, n: byte, rest: seq<Value>)
    requires f.ltype.Uvarint? && f.dataSize == 1 && n < 128
    ensures EncPacked(f, [Num(n)] + rest) == Then(Some([n]), EncPacked(f, rest))
  {
    assert ([Num(n)] + rest)[1..] == rest;
    assert Put(n) == [n];
  }

  lemma OneInMemory(f: Field, n: byte, rest: seq<Value>)
    requires f.dataSize == 1
    ensures Memory(f, [Num(n)] + rest) == [n] + Memory(f, rest)
  {
    assert ([Num(n)] + rest)[1..] == rest;
    assert Pow256(1) == 256 && PutLe(n, 1) == [n] + PutLe(0, 0);
  }

  lemma LostItems()
    ensures EncPacked(LOST_ARRAY, LOST_ITEMS) == Some([0, 0, 0, 0, 5])
    ensures FirstWordZero(LOST_ARRAY, LOST_ITEMS)
  {
    var f, zero, five := LOST_ARRAY, Num(0), Num(5);
    hide EncPacked, Memory;
    assert EncPacked(f, []) == Some([]) && Memory(f, []) == [] by {
      LostNone();
    }
    var one, two, three, four := [five], [zero, five], [zero, zero, five], [zero, zero, zero, five];
    assert one == [five] + [] && two == [zero] + one && three == [zero] + two && four == [zero] + three;
    assert LOST_ITEMS == [zero] + four;
    OnePacked(f, 5, []);
    OnePacked(f, 0, one);
    OnePacked(f, 0, two);
    OnePacked(f, 0, three);
    OnePacked(f, 0, four);
    OneInMemory(f, 5, []);
    OneInMemory(f, 0, one);
    OneInMemory(f, 0, two);
    OneInMemory(f, 0, three);
    OneInMemory(f, 0, four);
    assert Memory(f, LOST_ITEMS) == [0, 0, 0, 0, 5];
    assert EncPacked(f, LOST_ITEMS).value == [0, 0, 0, 0, 5];
  }

  lemma LostNone()
    ensures EncPacked(LOST_ARRAY, []) == Some([]) && Memory(LOST_ARRAY, []) == []
  {
  }

  lemma LostFits(m: seq<Slot>)
    requires m == [Many(LOST_ITEMS)]
    ensures FitsMsg([LOST_ARRAY], m) && Short(EncMsg([LOST_ARRAY], m))
  {
    var f := LOST_ARRAY;
    LostItems();
    hide EncPacked, Memory;
    assert forall v | v in LOST_ITEMS :: FitsValue(f, v);
    assert FitsField(f, m);
    var chunk := EncPacked(f, LOST_ITEMS);
    assert Put(5) == [5] && Tag(1, 2) == [10] by {
      assert Put(10) == [10];
    }
    var out: seq<byte> := [10] + ([5] + chunk.value);
    assert EncField(f, m) == Then(Some([10]), Chunk(chunk)) == Some(out);
    assert [f][1..] == [];
    assert EncMsg([f], m) == Then(EncField(f, m), EncMsg([], m));
    assert EncMsg([], m) == Some([]);
  }

  /** Five numbers of one byte, of which the last is not zero, are not sent, and come back as none. */
  lemma ZeroFirst()
    ensures var fields := [Field(1, 0, Singular, Submessage([LOST_ARRAY]), 0, 0, 5, 0)];
            var m := [One(Struct([Many(LOST_ITEMS)]))];
            && WellFormed(fields) && FitsMsg(fields, m) && EncMsg(fields, m) == Some([])
            && DecodeMsg(fields, []) == Some((Defaults(fields), [])) && !Same(fields, m, Defaults(fields))
  {
    var arr, inner := LOST_ARRAY, [Many(LOST_ITEMS)];
    var f := Field(1, 0, Singular, Submessage([arr]), 0, 0, 5, 0);
    var fields, m := [f], [One(Struct(inner))];
    hide EncMsg, DecodeMsg, Same, KeptSlot;
    assert WordKnown(arr);
    assert WellFormedField(arr) && WellFormed([arr]);
    assert WellFormedField(f) && WellFormed(fields);
    OuterFits(f, inner);
    LostHidden(f, inner);
    hide FitsField, IsDefault, WellFormed;
    NothingWritten(f, m);
    NothingRead(fields);
    RoundTrip(fields, m);
    assert !KeptAt(fields[0], m);
  }

  lemma OuterFits(f: Field, inner: seq<Slot>)
    requires f.rule.Singular? && f.slot == 0 && f.ltype == Submessage([LOST_ARRAY]) && inner == [Many(LOST_ITEMS)]
    ensures FitsMsg([f], [One(Struct(inner))])
  {
    LostFits(inner);
    hide EncMsg, EncPacked, FitsItems;
    var m := [One(Struct(inner))];
    assert FitsValue(f, Struct(inner));
    assert FitsField(f, m);
  }

  lemma LostHidden(f: Field, inner: seq<Slot>)
    requires f.rule.Singular? && f.ltype == Submessage([LOST_ARRAY]) && inner == [Many(LOST_ITEMS)]
    ensures IsDefault(f, One(Struct(inner))) && !KeptSlot(f, One(Struct(inner)))
  {
    LostItems();
    hide Memory, EncPacked;
    var fields := [LOST_ARRAY];
    assert IsDefault(LOST_ARRAY, Many(LOST_ITEMS));
    hide FirstWordZero;
    assert AllDefault(fields, inner);
    assert !NoFixedCount(fields) by { assert fields[0].rule.FixedCount?; }
  }

  lemma NothingWritten(f: Field, m: seq<Slot>)
    requires f.rule.Singular? && f.slot < |m| && m[f.slot].One? && IsDefault(f, m[f.slot])
    ensures EncMsg([f], m) == Some([])
  {
    hide IsDefault;
    assert [f][1..] == [];
    assert EncMsg([f], m) == Then(EncField(f, m), EncMsg([], m));
    assert EncField(f, m) == Some([]) == EncMsg([], m);
    ThenNothing();
  }

  lemma ThenNothing()
    ensures Then(Some([]), Some([])) == Some([])
  {
    var e: seq<byte> := [];
    assert e + e == e;
  }

  /** A struct with no required fields comes of no input as its defaults. */
  lemma NothingRead(fields: seq<Field>)
    requires RequiredCount(fields) == 0
    ensures DecodeMsg(fields, []) == Some((Defaults(fields), []))
  {
    hide Defaults, RequiredCount;
  }
}
