/** What a field that occurs more than once leaves behind (Protocol Buffers Encoding: Last One Wins): structs are
    merged, elements are added, and of everything else the last one stays. */
module Merging {
  import opened Bytes
  import opened Varints
  import opened Descriptors
  import opened Scalars
  import opened Encoding
  import opened Decoding
  import Trip = CodecRoundTrip
  import Laws = DecoderLaws

  /** A submessage on the wire: its field's tag, its length and its bytes. */
  function Piece(f: Field, a: seq<byte>): seq<byte> {
    Tag(f.tag, 2) + Put(|a|) + a
  }

  /** Decoding a into a struct that is m before, as a message of its own: the struct afterwards. */
  function Into(sub: seq<Field>, m: seq<Slot>, a: seq<byte>): Option<seq<Slot>> {
    var d := Decode(sub, Start(m), a);
    if d.None? || !Complete(sub, d.value.st) then None else Some(d.value.st.msg)
  }

  /** A member that is there once. */
  predicate Once(f: Field) {
    f.rule.Required? || f.rule.Optional? || f.rule.Singular?
  }

  /** The member with a value. */
  function Present(f: Field, v: Value): Slot
    requires Once(f)
  {
    if f.rule.Optional? then Opt(true, v) else One(v)
  }

  lemma PieceRead(f: Field, a: seq<byte>, rest: seq<byte>)
    requires |a| < TWO_32
    ensures Piece(f, a) + rest == Tag(f.tag, 2) + (Put(|a|) + a + rest)
    ensures GetChunk(Put(|a|) + a + rest) == Some((a, rest))
  {
    Trip.ChunkTrip(a, rest);
    hide *;
    Regroup(Tag(f.tag, 2), Put(|a|), a, rest);
    assert Piece(f, a) == Tag(f.tag, 2) + Put(|a|) + a by {
      PieceIs(f, a);
    }
  }

  lemma PieceIs(f: Field, a: seq<byte>)
    ensures Piece(f, a) == Tag(f.tag, 2) + Put(|a|) + a
  {
    hide Tag, Put;
  }

  lemma Regroup(x: seq<byte>, y: seq<byte>, z: seq<byte>, w: seq<byte>)
    ensures x + y + z + w == x + (y + z + w)
  {
  }

  /** One turn of the decoder on a submessage, from the struct that it is decoded into. */
  lemma StructTurn(fields: seq<Field>, st: State, st1: State, i: nat, base: seq<Slot>, a: seq<byte>, rest: seq<byte>)
    requires WellFormed(fields) && i < |fields| && fields[i].ltype.Submessage? && |a| < TWO_32
    requires Has(fields[i], st.msg) && Enter(fields, st, i) == Some(st1) && st1.msg == st.msg
    requires fields[i].Array() ==> Room(fields[i], st1) > 0
    requires Base(fields[i], st1) == base
    ensures var f, got := fields[i], Into(fields[i].ltype.fields, base, a);
            Decode(fields, st, Piece(f, a) + rest)
              == if got.None? then None else Decode(fields, Deliver(f, st1, Struct(got.value)), rest)
  {
    var f := fields[i];
    PieceRead(f, a, rest);
    var s := Put(|a|) + a + rest;
    hide Decode, WellFormed, Tag, Put, GetChunk, Complete, Enter, Find, Room, Base, Deliver, Piece;
    Trip.Turn(fields, st, i, 2, s);
    StructStep(fields, st, st1, i, base, s);
  }

  lemma StructStep(fields: seq<Field>, st: State, st1: State, i: nat, base: seq<Slot>, s: seq<byte>)
    requires i < |fields| && fields[i].ltype.Submessage? && Find(fields, fields[i].tag) == Some(i)
    requires Has(fields[i], st.msg) && Enter(fields, st, i) == Some(st1) && st1.msg == st.msg
    requires (fields[i].Array() ==> Room(fields[i], st1) > 0) && Base(fields[i], st1) == base && GetChunk(s).Some?
    ensures var f, got := fields[i], Into(fields[i].ltype.fields, base, GetChunk(s).value.0);
            DecodeField(fields, st, Tagged(f.tag, 2, s))
              == if got.None? then None
                 else Some(Step(Deliver(f, st1, Struct(got.value)), GetChunk(s).value.1))
  {
    hide Decode, GetChunk, Complete, Enter, Find, Room, Base, Deliver;
  }

  /** A struct that is there once is merged: what comes is decoded into what the member holds. */
  lemma MergesInto(fields: seq<Field>, st: State, i: nat, held: seq<Slot>, a: seq<byte>, rest: seq<byte>)
    returns (st': State)
    requires WellFormed(fields) && i < |fields| && fields[i].ltype.Submessage? && Once(fields[i]) && |a| < TWO_32
    requires Has(fields[i], st.msg) && st.msg[fields[i].slot].v == Struct(held)
    ensures var f, got := fields[i], Into(fields[i].ltype.fields, held, a);
            && Decode(fields, st, Piece(f, a) + rest) == (if got.None? then None else Decode(fields, st', rest))
            && (got.Some? ==> st'.msg == st.msg[f.slot := Present(f, Struct(got.value))])
            && st'.open == st.open && st'.filled == st.filled
  {
    var f := fields[i];
    var st1 := Enter(fields, st, i).value;
    hide RequiredCount;
    StructTurn(fields, st, st1, i, held, a, rest);
    hide Decode, Into, Piece, WellFormed;
    var got := Into(f.ltype.fields, held, a);
    st' := if got.None? then st else Deliver(f, st1, Struct(got.value));
  }

  /** Two pieces of it in a row: the second goes into what the first has left. */
  lemma MergesTwice(fields: seq<Field>, st: State, i: nat, held: seq<Slot>, a: seq<byte>, b: seq<byte>,
      rest: seq<byte>)
    returns (st': State)
    requires WellFormed(fields) && i < |fields| && fields[i].ltype.Submessage? && Once(fields[i])
    requires |a| < TWO_32 && |b| < TWO_32 && Has(fields[i], st.msg) && st.msg[fields[i].slot].v == Struct(held)
    ensures var f, sub := fields[i], fields[i].ltype.fields;
            var first := Into(sub, held, a);
            var both := if first.None? then None else Into(sub, first.value, b);
            && Decode(fields, st, Piece(f, a) + Piece(f, b) + rest)
               == (if both.None? then None else Decode(fields, st', rest))
            && (both.Some? ==> st'.msg == st.msg[f.slot := Present(f, Struct(both.value))])
  {
    var f := fields[i];
    var first := Into(f.ltype.fields, held, a);
    hide Decode, Into, Piece, WellFormed;
    Two(Piece(f, a), Piece(f, b), rest);
    st' := MergesInto(fields, st, i, held, a, Piece(f, b) + rest);
    if first.Some? {
      st' := MergesInto(fields, st', i, first.value, b, rest);
    }
  }

  lemma Two(x: seq<byte>, y: seq<byte>, z: seq<byte>)
    ensures x + y + z == x + (y + z)
  {
  }

  // Two pieces as one.

  lemma {:induction false} SeenGrows(fields: seq<Field>, st: State, s: seq<byte>)
    requires Decode(fields, st, s).Some?
    ensures st.seen <= Decode(fields, st, s).value.st.seen
    decreases |s|
  {
    if s != [] {
      hide GetTag, DecodeField;
      var t := GetTag(s).value;
      if t.tag != 0 || t.wire != 0 {
        Laws.SeenStep(fields, st, t);
        var n := DecodeField(fields, st, t).value;
        SeenGrows(fields, n.st, n.rest);
      }
    }
  }

  lemma OpenStep(fields: seq<Field>, st: State, t: Tagged)
    requires NoFixedCount(fields) && DecodeField(fields, st, t).Some?
    ensures DecodeField(fields, st, t).value.st.open == st.open
  {
    hide Find, RequiredCount, Decode, GetChunk, DecPacked, DecScalar, DecSub, Skip, Room, Base;
  }

  lemma {:induction false} OpenKept(fields: seq<Field>, st: State, s: seq<byte>)
    requires NoFixedCount(fields) && Decode(fields, st, s).Some?
    ensures Decode(fields, st, s).value.st.open == st.open
    decreases |s|
  {
    if s != [] {
      hide GetTag, DecodeField, NoFixedCount;
      var t := GetTag(s).value;
      if t.tag != 0 || t.wire != 0 {
        OpenStep(fields, st, t);
        var n := DecodeField(fields, st, t).value;
        OpenKept(fields, n.st, n.rest);
      }
    }
  }

  /** Merging two pieces is decoding the two as one, if neither is ended by a zero tag and arrays have their counts. */
  lemma MergeIsConcatenation(sub: seq<Field>, held: seq<Slot>, a: seq<byte>, b: seq<byte>)
    requires NoFixedCount(sub) && Into(sub, held, a).Some? && Into(sub, Into(sub, held, a).value, b).Some?
    requires !Decode(sub, Start(held), a).value.zero
    ensures Into(sub, held, a + b) == Into(sub, Into(sub, held, a).value, b)
  {
    var first := Decode(sub, Start(held), a).value;
    Laws.DecodeFold(sub, Start(held), a, b);
    Laws.DecodeTwice(sub, held, a, b);
    SeenGrows(sub, first.st, b);
    OpenKept(sub, Start(held), a + b);
    hide Decode, NoFixedCount, RequiredCount;
  }

  // What is not merged.

  /** An element of an array is a struct of its own; one more than the array has room for is an error. */
  lemma ElementsAreFresh(fields: seq<Field>, st: State, i: nat, a: seq<byte>, rest: seq<byte>)
    requires WellFormed(fields) && i < |fields| && fields[i].ltype.Submessage? && fields[i].Array()
    requires |a| < TWO_32 && Has(fields[i], st.msg)
    requires fields[i].rule.FixedCount? ==> st.open == Some(i) && st.filled == |st.msg[fields[i].slot].items|
    ensures var f, items := fields[i], st.msg[fields[i].slot].items;
            var got := Into(f.ltype.fields, Defaults(f.ltype.fields), a);
            Decode(fields, st, Piece(f, a) + rest)
              == if got.None? || |items| >= f.arraySize then None
                 else
                   var st' := st.(msg := st.msg[f.slot := Many(items + [Struct(got.value)])]);
                   Decode(fields, if f.rule.FixedCount? then st'.(filled := |items| + 1) else st', rest)
  {
    var f := fields[i];
    ArrayAt(fields, st, i);
    hide Decode, Into, Piece, WellFormed, Defaults, DecodeField, Tag, Put, Enter, Room, Base, Deliver;
    if |st.msg[f.slot].items| < f.arraySize {
      StructTurn(fields, st, st, i, Defaults(f.ltype.fields), a, rest);
    } else {
      PieceRead(f, a, rest);
      var s := Put(|a|) + a + rest;
      Trip.Turn(fields, st, i, 2, s);
      NoRoom(fields, st, i, s);
    }
  }

  /** An array that is being read. */
  lemma ArrayAt(fields: seq<Field>, st: State, i: nat)
    requires i < |fields| && fields[i].Array() && fields[i].ltype.Submessage? && Has(fields[i], st.msg)
    requires fields[i].rule.FixedCount? ==> st.open == Some(i) && st.filled == |st.msg[fields[i].slot].items|
    ensures var f, items := fields[i], st.msg[fields[i].slot].items;
            && Enter(fields, st, i) == Some(st)
            && Base(f, st) == Defaults(f.ltype.fields)
            && (|items| >= f.arraySize <==> Room(f, st) == 0)
            && forall v :: Deliver(f, st, v)
                 == var st' := st.(msg := st.msg[f.slot := Many(items + [v])]);
                    if f.rule.FixedCount? then st'.(filled := |items| + 1) else st'
  {
    hide Defaults, RequiredCount;
  }

  /** "array overflow". */
  lemma NoRoom(fields: seq<Field>, st: State, i: nat, s: seq<byte>)
    requires i < |fields| && Find(fields, fields[i].tag) == Some(i) && Has(fields[i], st.msg)
    requires fields[i].Array() && !fields[i].Packable() && Enter(fields, st, i) == Some(st) && Room(fields[i], st) == 0
    ensures DecodeField(fields, st, Tagged(fields[i].tag, 2, s)).None?
  {
    hide Find, GetChunk, DecPacked, DecScalar, DecSub, Base, Enter, Room;
  }

  lemma MembersAreFresh(fields: seq<Field>, st: State, i: nat, a: seq<byte>, rest: seq<byte>)
    requires WellFormed(fields) && i < |fields| && fields[i].ltype.Submessage? && fields[i].rule.Oneof?
    requires |a| < TWO_32 && Has(fields[i], st.msg)
    ensures var f := fields[i];
            var got := Into(f.ltype.fields, Defaults(f.ltype.fields), a);
            Decode(fields, st, Piece(f, a) + rest)
              == if got.None? then None
                 else Decode(fields, st.(msg := st.msg[f.slot := Union(f.tag, Struct(got.value))]), rest)
  {
    var f := fields[i];
    StructTurn(fields, st, st, i, Defaults(f.ltype.fields), a, rest);
    hide Decode, Into, Piece, WellFormed;
  }

  /** A number or a string replaces what the member holds, and so does the member of a union whichever was active. */
  lemma Replaces(fields: seq<Field>, st: State, i: nat, v: Value, rest: seq<byte>) returns (st': State)
    requires WellFormed(fields) && i < |fields| && !fields[i].Array() && FitsScalar(fields[i], v)
    requires Has(fields[i], st.msg)
    ensures var f := fields[i];
            && EncTagged(f, v).Some?
            && Decode(fields, st, EncTagged(f, v).value + rest) == Decode(fields, st', rest)
            && st'.msg == st.msg[f.slot := if f.rule.Oneof? then Union(f.tag, v) else Present(f, v)]
            && st'.open == st.open && st'.filled == st.filled
  {
    var f := fields[i];
    assert WellFormedField(f);
    ScalarTrip(f, v, rest);
    var e := EncScalar(f, v).value;
    var st1 := Enter(fields, st, i).value;
    hide RequiredCount, EncScalar, DecScalar;
    Trip.TaggedTurn(fields, st, i, e, v, rest);
    hide Decode, WellFormed, Tag;
    st' := Deliver(f, st1, v);
  }
}
