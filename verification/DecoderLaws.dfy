/** Laws of the decoder on all inputs: it is a fold over fields, skips what the descriptor does not know, and never
    puts into a struct what does not fit it. */
module DecoderLaws {
  import opened Bytes
  import opened Varints
  import opened Descriptors
  import opened Scalars
  import opened Encoding
  import opened Decoding
  import Trip = CodecRoundTrip

  // A fold over fields.

  lemma TagMore(s: seq<byte>, more: seq<byte>)
    requires GetTag(s).Some?
    ensures GetTag(s + more) == Some(GetTag(s).value.(rest := GetTag(s).value.rest + more))
  {
    Get32More(s, more);
    hide Get32;
  }

  lemma SkipMore(wire: nat, s: seq<byte>, more: seq<byte>)
    requires Skip(wire, s).Some?
    ensures Skip(wire, s + more) == Some(Skip(wire, s).value + more)
  {
    if wire == 0 {
      LengthMore(s, more);
      hide Length;
      SplitMore(s, more, Length(s).value);
    } else if wire == 2 {
      ChunkMore(s, more);
      hide GetChunk;
    } else {
      SplitMore(s, more, if wire == 1 then 8 else 4);
    }
  }

  lemma SubMore(f: Field, base: seq<Slot>, s: seq<byte>, more: seq<byte>)
    requires f.ltype.Submessage? && DecSub(f, base, s).Some?
    ensures DecSub(f, base, s + more) == Some(Got(DecSub(f, base, s).value.v, DecSub(f, base, s).value.rest + more))
  {
    ChunkMore(s, more);
    hide GetChunk, Decode, Complete;
  }

  /** One field is decoded the same whatever follows. */
  lemma StepMore(fields: seq<Field>, st: State, t: Tagged, more: seq<byte>)
    requires DecodeField(fields, st, t).Some?
    ensures var n := DecodeField(fields, st, t).value;
            DecodeField(fields, st, t.(rest := t.rest + more)) == Some(n.(rest := n.rest + more))
  {
    var i := Find(fields, t.tag);
    assert i.Some? ==> Enter(fields, st, i.value).Some? && Enter(fields, st, i.value).value.msg == st.msg;
    hide Find, Enter, Decode, GetChunk, DecPacked, DecScalar, DecSub, Append, Deliver, Room, Base, Skip;
    if i.None? {
      SkipMore(t.wire, t.rest, more);
    } else {
      var f := fields[i.value];
      var st' := Enter(fields, st, i.value).value;
      if f.Array() && f.Packable() && t.wire == 2 {
        ChunkMore(t.rest, more);
      } else if f.ltype.Submessage? {
        SubMore(f, Base(f, st'), t.rest, more);
      } else {
        ScalarMore(f, t.rest, more);
      }
    }
  }

  /** Decoding one input after another is decoding the two as one, unless a zero tag ends the first. */
  lemma {:induction false} DecodeFold(fields: seq<Field>, st: State, a: seq<byte>, b: seq<byte>)
    requires Decode(fields, st, a).Some?
    ensures var d := Decode(fields, st, a).value;
            Decode(fields, st, a + b)
              == if d.zero then Some(d.(rest := d.rest + b)) else Decode(fields, d.st, b)
    decreases |a|
  {
    if a == [] {
      assert a + b == b;
    } else {
      TagMore(a, b);
      var t := GetTag(a).value;
      assert a + b != [];
      hide GetTag, DecodeField;
      if t.tag != 0 || t.wire != 0 {
        StepMore(fields, st, t, b);
        var n := DecodeField(fields, st, t).value;
        DecodeFold(fields, n.st, n.rest, b);
      }
    }
  }

  /** Without arrays that have no count, only the struct decides what becomes of it. */
  lemma BlindStep(fields: seq<Field>, st: State, st': State, t: Tagged)
    requires NoFixedCount(fields) && st.msg == st'.msg
    ensures var a, b := DecodeField(fields, st, t), DecodeField(fields, st', t);
            a.Some? == b.Some? && (a.Some? ==> a.value.st.msg == b.value.st.msg && a.value.rest == b.value.rest)
  {
    hide Find, RequiredCount, Decode, GetChunk, DecPacked, DecScalar, DecSub, Skip;
  }

  lemma {:induction false} Blind(fields: seq<Field>, st: State, st': State, s: seq<byte>)
    requires NoFixedCount(fields) && st.msg == st'.msg
    ensures var a, b := Decode(fields, st, s), Decode(fields, st', s);
            && a.Some? == b.Some?
            && (a.Some? ==>
                  a.value.st.msg == b.value.st.msg && a.value.rest == b.value.rest && a.value.zero == b.value.zero)
    decreases |s|
  {
    if s != [] && GetTag(s).Some? {
      var t := GetTag(s).value;
      hide GetTag, DecodeField, NoFixedCount;
      BlindStep(fields, st, st', t);
      if (t.tag != 0 || t.wire != 0) && DecodeField(fields, st, t).Some? {
        var n, n' := DecodeField(fields, st, t).value, DecodeField(fields, st', t).value;
        Blind(fields, n.st, n'.st, n.rest);
      }
    }
  }

  /** Two inputs in turn into the same struct, or both at once: except for required fields, it is the same. */
  lemma DecodeTwice(fields: seq<Field>, m: seq<Slot>, a: seq<byte>, b: seq<byte>)
    requires NoFixedCount(fields) && Decode(fields, Start(m), a).Some? && !Decode(fields, Start(m), a).value.zero
    ensures var first := Decode(fields, Start(m), a).value;
            var both, apart := Decode(fields, Start(m), a + b), Decode(fields, Start(first.st.msg), b);
            && both.Some? == apart.Some?
            && (both.Some? ==> both.value.st.msg == apart.value.st.msg && both.value.rest == apart.value.rest)
  {
    var first := Decode(fields, Start(m), a).value;
    DecodeFold(fields, Start(m), a, b);
    Blind(fields, first.st, Start(first.st.msg), b);
  }

  /** A field that the descriptor does not have can stand anywhere between two others, and changes nothing. */
  lemma UnknownIgnored(fields: seq<Field>, st: State, a: seq<byte>, tag: nat, wire: nat, payload: seq<byte>,
      b: seq<byte>)
    requires Decode(fields, st, a).Some? && !Decode(fields, st, a).value.zero
    requires 1 <= tag < 0x2000_0000 && wire < 8 && Find(fields, tag).None? && Skip(wire, payload) == Some([])
    ensures Decode(fields, st, a + (Tag(tag, wire) + payload + b)) == Decode(fields, st, a + b)
  {
    hide Skip, Find, Tag, GetTag, Decode, DecodeField;
    var d := Decode(fields, st, a).value;
    var s := Tag(tag, wire) + payload + b;
    DecodeFold(fields, st, a, s);
    DecodeFold(fields, st, a, b);
    assert s == Tag(tag, wire) + (payload + b);
    Trip.TagTrip(tag, wire, payload + b);
    SkipMore(wire, payload, b);
    assert [] + b == b;
    UnknownStep(fields, d.st, Tagged(tag, wire, payload + b), b);
    TagTurn(fields, d.st, s);
  }

  lemma UnknownStep(fields: seq<Field>, st: State, t: Tagged, rest: seq<byte>)
    requires Find(fields, t.tag).None? && Skip(t.wire, t.rest) == Some(rest) && t.tag != 0
    ensures DecodeField(fields, st, t) == Some(Step(st, rest))
  {
    hide Skip, Find;
  }

  lemma TagTurn(fields: seq<Field>, st: State, s: seq<byte>)
    requires s != [] && GetTag(s).Some? && GetTag(s).value.tag != 0 && DecodeField(fields, st, GetTag(s).value).Some?
    ensures var n := DecodeField(fields, st, GetTag(s).value).value;
            |n.rest| < |s| && Decode(fields, st, s) == Decode(fields, n.st, n.rest)
  {
    hide GetTag, DecodeField;
  }

  // A decoder advances by what it has read, and looks at nothing else.

  /** rest is what follows the first |s| - |rest| bytes of s. */
  predicate Tail(s: seq<byte>, rest: seq<byte>) {
    |rest| <= |s| && s[|s| - |rest|..] == rest
  }

  function Front(s: seq<byte>, rest: seq<byte>): seq<byte>
    requires |rest| <= |s|
  {
    s[..|s| - |rest|]
  }

  lemma TailTail(s: seq<byte>, mid: seq<byte>, rest: seq<byte>)
    requires Tail(s, mid) && Tail(mid, rest)
    ensures Tail(s, rest) && Front(s, rest) == Front(s, mid) + Front(mid, rest)
  {
    assert s == Front(s, mid) + mid;
  }

  lemma {:induction false} LengthCut(s: seq<byte>)
    requires Length(s).Some?
    ensures var n := Length(s).value;
            Length(s[..n]) == Some(n) && Number(s[..n]) == Number(s)
  {
    var n := Length(s).value;
    if s[0] >= 128 {
      LengthCut(s[1..]);
      assert s[..n][1..] == s[1..][..n - 1];
    }
  }

  lemma Get64Cut(s: seq<byte>)
    requires Get64(s).Some?
    ensures var r := Get64(s).value;
            Tail(s, r.rest) && Get64(Front(s, r.rest)) == Some(Read(r.value, []))
  {
    LengthCut(s);
    hide Length, Number;
  }

  lemma {:induction false} Get32FromCut(s: seq<byte>, result: nat, bitpos: nat)
    requires Get32From(s, result, bitpos).Some?
    ensures var r := Get32From(s, result, bitpos).value;
            Tail(s, r.rest) && Get32From(Front(s, r.rest), result, bitpos) == Some(Read(r.value, []))
  {
    hide Or, Shl, Low32;
    var rest := Get32From(s, result, bitpos).value.rest;
    if s[0] >= 128 {
      var result' := if bitpos >= 32 then result else Or(result, Low32(Shl(s[0] % 128, bitpos)));
      Get32FromCut(s[1..], result', (bitpos + 7) % 256);
      assert Front(s, rest)[1..] == Front(s[1..], rest);
    } else {
      assert Front(s, rest) == [s[0]];
    }
  }

  lemma Get32Cut(s: seq<byte>)
    requires Get32(s).Some?
    ensures var r := Get32(s).value;
            Tail(s, r.rest) && Get32(Front(s, r.rest)) == Some(Read(r.value, []))
  {
    var rest := Get32(s).value.rest;
    if s[0] >= 128 {
      Get32FromCut(s[1..], s[0] % 128, 7);
      assert Front(s, rest)[1..] == Front(s[1..], rest);
    } else {
      assert Front(s, rest) == [s[0]];
    }
    hide Get32From;
  }

  /** A number and n bytes after it. */
  lemma Get32Then(s: seq<byte>, n: nat)
    requires Get32(s).Some? && n <= |Get32(s).value.rest|
    ensures var r := Get32(s).value;
            var rest := r.rest[n..];
            Tail(s, rest) && Get32(Front(s, rest)) == Some(Read(r.value, r.rest[..n]))
  {
    var r := Get32(s).value;
    Get32Cut(s);
    var head := Front(s, r.rest);
    hide Get32;
    TailTail(s, r.rest, r.rest[n..]);
    Get32More(head, r.rest[..n]);
    assert [] + r.rest[..n] == r.rest[..n] == Front(r.rest, r.rest[n..]);
  }

  lemma ChunkCut(s: seq<byte>)
    requires GetChunk(s).Some?
    ensures var c := GetChunk(s).value;
            Tail(s, c.1) && GetChunk(Front(s, c.1)) == Some((c.0, []))
  {
    var r := Get32(s).value;
    Get32Then(s, r.value);
    hide Get32;
    assert r.rest[..r.value] + [] == r.rest[..r.value];
    Trip.ChunkOf(Front(s, r.rest[r.value..]), r.rest[..r.value], []);
  }

  lemma TagCut(s: seq<byte>)
    requires GetTag(s).Some?
    ensures var t := GetTag(s).value;
            Tail(s, t.rest) && GetTag(Front(s, t.rest)) == Some(t.(rest := []))
  {
    Get32Cut(s);
    hide Get32;
  }

  lemma ScalarCut(f: Field, s: seq<byte>)
    requires DecScalar(f, s).Some?
    ensures var got := DecScalar(f, s).value;
            Tail(s, got.rest) && DecScalar(f, Front(s, got.rest)) == Some(Got(got.v, []))
  {
    hide Get32, Get64, GetLe, Cast, Unzigzag, UpToNul;
    match f.ltype {
      case Varint | Uvarint | Svarint => Get64Cut(s);
      case Fixed32 | Fixed64 =>
        var n := if f.ltype.Fixed32? then 4 else 8;
        assert Front(s, s[n..]) == s[..n] && s[..n][..n] == s[..n] && s[..n][n..] == [];
      case Blob | Text | FixedBlob =>
        var size := Get32(s).value;
        var n := if f.ltype.FixedBlob? && size.value == 0 then 0 else size.value;
        Get32Then(s, n);
        assert size.rest[0..] == size.rest;
        var part := size.rest[..n];
        assert part[..n] == part && part[n..] == [];
        assert n == 0 ==> part == [];
    }
  }

  lemma SkipCut(wire: nat, s: seq<byte>)
    requires Skip(wire, s).Some?
    ensures Tail(s, Skip(wire, s).value) && Skip(wire, Front(s, Skip(wire, s).value)) == Some([])
  {
    if wire == 0 {
      LengthCut(s);
      hide Length;
    } else if wire == 2 {
      ChunkCut(s);
      hide GetChunk;
    }
  }

  lemma StepCut(fields: seq<Field>, st: State, t: Tagged)
    requires DecodeField(fields, st, t).Some?
    ensures var n := DecodeField(fields, st, t).value;
            Tail(t.rest, n.rest)
            && DecodeField(fields, st, t.(rest := Front(t.rest, n.rest))) == Some(n.(rest := []))
  {
    var i := Find(fields, t.tag);
    assert i.Some? ==> Enter(fields, st, i.value).Some? && Enter(fields, st, i.value).value.msg == st.msg;
    hide Find, Enter, Decode, GetChunk, DecPacked, DecScalar, Append, Deliver, Room, Base, Skip, Tail, Front;
    if i.None? {
      SkipCut(t.wire, t.rest);
    } else {
      var f := fields[i.value];
      if f.Array() && f.Packable() && t.wire == 2 {
        ChunkCut(t.rest);
      } else if f.ltype.Submessage? {
        ChunkCut(t.rest);
      } else {
        ScalarCut(f, t.rest);
      }
    }
  }

  /** What one turn of the loop has read is by itself an input that takes the same turn. */
  lemma TurnCut(fields: seq<Field>, st: State, s: seq<byte>)
    requires s != [] && GetTag(s).Some? && !(GetTag(s).value.tag == 0 && GetTag(s).value.wire == 0)
    requires DecodeField(fields, st, GetTag(s).value).Some?
    ensures var n := DecodeField(fields, st, GetTag(s).value).value;
            Tail(s, n.rest) && Decode(fields, st, Front(s, n.rest)) == Some(Done(n.st, [], false))
  {
    var t := GetTag(s).value;
    var n := DecodeField(fields, st, t).value;
    TagCut(s);
    StepCut(fields, st, t);
    var head, part := Front(s, t.rest), Front(t.rest, n.rest);
    TailTail(s, t.rest, n.rest);
    TagMore(head, part);
    assert [] + part == part;
    hide GetTag, DecodeField;
    assert head + part != [];
  }

  /** The input goes on exactly where the decoder stopped. */
  lemma {:induction false} Advance(fields: seq<Field>, st: State, s: seq<byte>)
    requires Decode(fields, st, s).Some?
    ensures Tail(s, Decode(fields, st, s).value.rest)
    decreases |s|
  {
    if s != [] {
      TagCut(s);
      hide GetTag, DecodeField;
      var t := GetTag(s).value;
      if t.tag != 0 || t.wire != 0 {
        TurnCut(fields, st, s);
        var n := DecodeField(fields, st, t).value;
        Advance(fields, n.st, n.rest);
        TailTail(s, n.rest, Decode(fields, st, s).value.rest);
      }
    }
  }

  /** After k bytes, at the end of a field, the decoder reads this tag. */
  predicate ReadAt(fields: seq<Field>, st: State, s: seq<byte>, tag: nat, k: nat) {
    && k < |s|
    && Decode(fields, st, s[..k]).Some?
    && !Decode(fields, st, s[..k]).value.zero
    && GetTag(s[k..]).Some?
    && GetTag(s[k..]).value.tag == tag
  }

  lemma ReadLater(fields: seq<Field>, st: State, s: seq<byte>, tag: nat, n: Step, k: nat)
    requires Tail(s, n.rest) && Decode(fields, st, Front(s, n.rest)) == Some(Done(n.st, [], false))
    requires ReadAt(fields, n.st, n.rest, tag, k)
    ensures ReadAt(fields, st, s, tag, |s| - |n.rest| + k)
  {
    hide GetTag, Decode, Front;
    FrontMore(s, n.rest, k, |s| - |n.rest| + k);
    DecodeFold(fields, st, Front(s, n.rest), n.rest[..k]);
  }

  lemma FrontMore(s: seq<byte>, rest: seq<byte>, k: nat, k': nat)
    requires Tail(s, rest) && k <= |rest| && k' == |s| - |rest| + k
    ensures s[..k'] == Front(s, rest) + rest[..k] && s[k'..] == rest[k..]
  {
    SliceSlice(s, |s| - |rest|, k);
  }

  lemma SliceSlice(s: seq<byte>, a: nat, k: nat)
    requires a + k <= |s|
    ensures s[..a + k] == s[..a] + s[a..][..k] && s[a + k..] == s[a..][k..]
  {
  }

  lemma ReadNow(fields: seq<Field>, st: State, s: seq<byte>)
    requires GetTag(s).Some? && s != []
    ensures ReadAt(fields, st, s, GetTag(s).value.tag, 0)
  {
    assert s[..0] == [] && s[0..] == s;
    assert Decode(fields, st, []) == Some(Done(st, [], false));
    hide GetTag;
  }

  lemma SeenNow(fields: seq<Field>, st: State, s: seq<byte>, index: nat) returns (i: nat)
    requires s != [] && GetTag(s).Some? && DecodeField(fields, st, GetTag(s).value).Some?
    requires index in DecodeField(fields, st, GetTag(s).value).value.st.seen && index !in st.seen
    ensures i < |fields| && fields[i].rule.Required? && RequiredCount(fields[..i]) == index
    ensures ReadAt(fields, st, s, fields[i].tag, 0)
  {
    var t := GetTag(s).value;
    hide Decode, DecodeField, GetTag, RequiredCount;
    SeenStep(fields, st, t);
    i := Find(fields, t.tag).value;
    ReadNow(fields, st, s);
  }

  lemma DecodeTurn(fields: seq<Field>, st: State, s: seq<byte>)
    requires Decode(fields, st, s).Some? && Decode(fields, st, s).value.st.seen != st.seen
    ensures s != [] && GetTag(s).Some? && DecodeField(fields, st, GetTag(s).value).Some?
    ensures !(GetTag(s).value.tag == 0 && GetTag(s).value.wire == 0)
    ensures var n := DecodeField(fields, st, GetTag(s).value).value;
            |n.rest| < |s| && Decode(fields, st, s) == Decode(fields, n.st, n.rest)
  {
    hide GetTag, DecodeField;
  }

  /** A required field counts as seen only if its tag was read. */
  lemma {:induction false} SeenRead(fields: seq<Field>, st: State, s: seq<byte>, index: nat) returns (i: nat, k: nat)
    requires Decode(fields, st, s).Some? && index in Decode(fields, st, s).value.st.seen && index !in st.seen
    ensures i < |fields| && fields[i].rule.Required? && RequiredCount(fields[..i]) == index
    ensures ReadAt(fields, st, s, fields[i].tag, k)
    decreases |s|
  {
    hide Decode, DecodeField, GetTag, RequiredCount;
    DecodeTurn(fields, st, s);
    var n := DecodeField(fields, st, GetTag(s).value).value;
    if index in n.st.seen {
      i := SeenNow(fields, st, s, index);
      k := 0;
    } else {
      TurnCut(fields, st, s);
      i, k := SeenRead(fields, n.st, n.rest, index);
      ReadLater(fields, st, s, fields[i].tag, n, k);
      k := |s| - |n.rest| + k;
    }
  }

  lemma SeenStep(fields: seq<Field>, st: State, t: Tagged)
    requires DecodeField(fields, st, t).Some?
    ensures var n, i := DecodeField(fields, st, t).value, Find(fields, t.tag);
            n.st.seen == st.seen
            || (i.Some? && fields[i.value].rule.Required?
                && n.st.seen == st.seen + {RequiredCount(fields[..i.value])})
  {
    hide Find, RequiredCount, Decode, GetChunk, DecPacked, DecScalar, DecSub, Room, Base, Skip;
  }

  lemma {:induction false} RequiredGrows(fields: seq<Field>, i: nat, j: nat)
    requires i < j <= |fields|
    ensures RequiredCount(fields[..i]) + (if fields[i].rule.Required? then 1 else 0) <= RequiredCount(fields[..j])
  {
    assert fields[..j][..j - 1] == fields[..j - 1];
    if i < j - 1 {
      RequiredGrows(fields, i, j - 1);
    }
  }

  /** When a message is accepted, each of its first 64 required fields was read. */
  lemma RequiredRead(fields: seq<Field>, m: seq<Slot>, s: seq<byte>, i: nat) returns (k: nat)
    requires DecodeNoinit(fields, m, s).Some?
    requires i < |fields| && fields[i].rule.Required? && RequiredCount(fields[..i]) < 64
    ensures ReadAt(fields, Start(m), s, fields[i].tag, k)
  {
    var index := RequiredCount(fields[..i]);
    RequiredGrows(fields, i, |fields|);
    assert fields[..|fields|] == fields;
    var j;
    j, k := SeenRead(fields, Start(m), s, index);
    if i < j {
      RequiredGrows(fields, i, j);
    } else if j < i {
      RequiredGrows(fields, j, i);
    }
  }

  // What is decoded fits.

  /** Sizes that the generator gives: of the C integers, of strings with their NUL, of bytes with their count. */
  predicate Sized(fields: seq<Field>)
    decreases fields
  {
    forall i | 0 <= i < |fields| :: SizedField(fields[i])
  }

  predicate SizedField(f: Field)
    decreases f
  {
    match f.ltype
    case Varint | Uvarint | Svarint => IntSize(f.dataSize)
    case Text => f.dataSize >= 1
    case Blob => f.dataSize >= 4
    case Submessage(sub) => Sized(sub)
    case _ => true
  }

  predicate SoundValue(f: Field, v: Value)
    decreases f, 0
  {
    if f.ltype.Submessage? then v.Struct? && Sound(f.ltype.fields, v.slots) else FitsScalar(f, v)
  }

  /** A member within its memory: numbers of its type, strings with room for their NUL, bytes within their array, no
      more elements than the array has. */
  predicate SoundSlot(f: Field, s: Slot)
    decreases f, 1
  {
    && Holds(f, s)
    && match f.rule
       case Required | Singular | Optional => SoundValue(f, s.v)
       case Repeated | FixedCount =>
         |s.items| <= f.arraySize && forall k | 0 <= k < |s.items| :: SoundValue(f, s.items[k])
       case Oneof => s.which == f.tag ==> SoundValue(f, s.v)
  }

  predicate SoundAt(f: Field, m: seq<Slot>)
    decreases f, 2
  {
    f.slot < |m| && SoundSlot(f, m[f.slot])
  }

  predicate Sound(fields: seq<Field>, m: seq<Slot>)
    decreases fields
  {
    forall i | 0 <= i < |fields| :: SoundAt(fields[i], m)
  }

  lemma {:induction false} DefaultSound(f: Field)
    requires WellFormedField(f) && SizedField(f)
    ensures SoundValue(f, DefaultValue(f)) && SoundSlot(f, DefaultSlot(f))
    decreases f, 0
  {
    if f.ltype.Submessage? {
      DefaultsSound(f.ltype.fields);
    }
  }

  lemma {:induction false} DefaultsSound(fields: seq<Field>)
    requires WellFormed(fields) && Sized(fields)
    ensures Sound(fields, Defaults(fields))
    decreases fields
  {
    Trip.DefaultsFresh(fields);
    forall i | 0 <= i < |fields| ensures SoundAt(fields[i], Defaults(fields)) {
      assert Trip.HasDefault(fields[i], Defaults(fields)) && WellFormedField(fields[i]) && SizedField(fields[i]);
      DefaultSound(fields[i]);
    }
  }

  lemma SoundUpdate(fields: seq<Field>, m: seq<Slot>, i: nat, s: Slot)
    requires Laid(fields) && DistinctTags(fields) && i < |fields| && Sound(fields, m)
    requires SoundSlot(fields[i], s) && (fields[i].rule.Oneof? ==> s.which == fields[i].tag)
    ensures fields[i].slot < |m| && Sound(fields, m[fields[i].slot := s])
  {
    var f := fields[i];
    assert SoundAt(f, m);
    var m' := m[f.slot := s];
    hide SoundValue, FitsScalar;
    forall j | 0 <= j < |fields| ensures SoundAt(fields[j], m') {
      assert SoundAt(fields[j], m);
      if j < i {
        Trip.SlotsApart(fields, j, i);
      } else if i < j {
        Trip.SlotsApart(fields, i, j);
      }
    }
  }

  lemma CastRange(n: int, d: nat)
    requires IntSize(d)
    ensures -(Full(d) / 2) <= Cast(n, d) < Full(d) / 2 && 0 <= n % Full(d) < Full(d)
  {
  }

  lemma {:induction false} LeBound(s: seq<byte>)
    ensures GetLe(s) < Pow256(|s|)
  {
    if s != [] {
      LeBound(s[1..]);
    }
  }

  lemma {:induction false} NulBound(b: seq<byte>)
    ensures |UpToNul(b)| <= |b| && 0 !in UpToNul(b)
  {
    if b != [] {
      NulBound(b[1..]);
    }
  }

  /** A scalar decoder stays within the member. */
  lemma ScalarSound(f: Field, s: seq<byte>)
    requires SizedField(f) && DecScalar(f, s).Some?
    ensures FitsScalar(f, DecScalar(f, s).value.v)
  {
    hide Get32, Get64, Unzigzag;
    match f.ltype {
      case Varint | Uvarint | Svarint =>
        CastRange(DecScalar(f, s).value.v.n, f.dataSize);
        hide Cast;
      case Fixed32 =>
        Pow4();
        LeBound(s[..4]);
      case Fixed64 =>
        Pow256Values();
        LeBound(s[..8]);
      case Blob | Text | FixedBlob =>
        var size := Get32(s).value;
        if size.value <= |size.rest| {
          NulBound(size.rest[..size.value]);
        }
    }
  }

  lemma {:induction false} PackedSound(f: Field, room: nat, s: seq<byte>)
    requires SizedField(f) && f.Packable() && DecPacked(f, room, s).Some?
    ensures var vs := DecPacked(f, room, s).value;
            |vs| <= room && forall k | 0 <= k < |vs| :: SoundValue(f, vs[k])
    decreases room
  {
    if s != [] {
      ScalarSound(f, s);
      hide DecScalar, FitsScalar;
      PackedSound(f, room - 1, DecScalar(f, s).value.rest);
    }
  }

  lemma AppendSound(f: Field, st: State, vs: seq<Value>)
    requires Has(f, st.msg) && f.Array() && SoundSlot(f, st.msg[f.slot])
    requires |vs| <= Room(f, st) && forall k | 0 <= k < |vs| :: SoundValue(f, vs[k])
    ensures Append(f, st, vs).msg == st.msg[f.slot := Append(f, st, vs).msg[f.slot]]
    ensures SoundSlot(f, Append(f, st, vs).msg[f.slot])
  {
    hide SoundValue;
  }

  lemma DeliverSound(f: Field, st: State, v: Value)
    requires Has(f, st.msg) && SoundSlot(f, st.msg[f.slot]) && SoundValue(f, v) && (f.Array() ==> Room(f, st) > 0)
    ensures Deliver(f, st, v).msg == st.msg[f.slot := Deliver(f, st, v).msg[f.slot]]
    ensures var s := Deliver(f, st, v).msg[f.slot];
            SoundSlot(f, s) && (f.rule.Oneof? ==> s.which == f.tag)
  {
    if f.Array() {
      AppendSound(f, st, [v]);
    }
    hide SoundValue;
  }

  lemma BaseSound(f: Field, st: State)
    requires WellFormedField(f) && SizedField(f) && f.ltype.Submessage?
    requires Has(f, st.msg) && SoundSlot(f, st.msg[f.slot])
    ensures Sound(f.ltype.fields, Base(f, st))
  {
    DefaultsSound(f.ltype.fields);
  }

  lemma {:induction false} StepSound(fields: seq<Field>, st: State, t: Tagged)
    requires WellFormed(fields) && Sized(fields) && Sound(fields, st.msg) && DecodeField(fields, st, t).Some?
    ensures Sound(fields, DecodeField(fields, st, t).value.st.msg)
    decreases |t.rest|, 1
  {
    var i := Find(fields, t.tag);
    if i.Some? {
      var f := fields[i.value];
      assert WellFormedField(f) && SizedField(f) && SoundAt(f, st.msg);
      var st' := Enter(fields, st, i.value).value;
      assert st'.msg == st.msg;
      hide Find, Enter, GetChunk, DecPacked, DecScalar, Append, Deliver, Room, Base, Skip, Sound, WellFormed, Sized,
        SoundSlot, SoundValue, WellFormedField, SizedField, SoundAt;
      if f.Array() && f.Packable() && t.wire == 2 {
        var vs := DecPacked(f, Room(f, st'), GetChunk(t.rest).value.0).value;
        PackedSound(f, Room(f, st'), GetChunk(t.rest).value.0);
        AppendSound(f, st', vs);
        PutSound(fields, st, i.value, Append(f, st', vs));
      } else {
        var got := OneSound(f, st', t.rest);
        DeliverSound(f, st', got.v);
        PutSound(fields, st, i.value, Deliver(f, st', got.v));
      }
    }
  }

  lemma PutSound(fields: seq<Field>, st: State, i: nat, st': State)
    requires WellFormed(fields) && i < |fields| && Sound(fields, st.msg) && fields[i].slot < |st.msg| == |st'.msg|
    requires var f := fields[i];
             && st'.msg == st.msg[f.slot := st'.msg[f.slot]]
             && SoundSlot(f, st'.msg[f.slot]) && (f.rule.Oneof? ==> st'.msg[f.slot].which == f.tag)
    ensures Sound(fields, st'.msg)
  {
    hide SoundSlot;
    SoundUpdate(fields, st.msg, i, st'.msg[fields[i].slot]);
  }

  lemma {:induction false} OneSound(f: Field, st: State, s: seq<byte>) returns (got: Got)
    requires WellFormedField(f) && SizedField(f) && Has(f, st.msg) && SoundSlot(f, st.msg[f.slot])
    requires if f.ltype.Submessage? then DecSub(f, Base(f, st), s).Some? else DecScalar(f, s).Some?
    ensures Some(got) == if f.ltype.Submessage? then DecSub(f, Base(f, st), s) else DecScalar(f, s)
    ensures SoundValue(f, got.v)
    decreases |s|, 0
  {
    if f.ltype.Submessage? {
      got := DecSub(f, Base(f, st), s).value;
      BaseSound(f, st);
      DecodeSound(f.ltype.fields, Start(Base(f, st)), GetChunk(s).value.0);
    } else {
      got := DecScalar(f, s).value;
      ScalarSound(f, s);
    }
  }

  /** Whatever the input, what the decoder puts into a struct stays within it, at every depth. */
  lemma {:induction false} DecodeSound(fields: seq<Field>, st: State, s: seq<byte>)
    requires WellFormed(fields) && Sized(fields) && Sound(fields, st.msg) && Decode(fields, st, s).Some?
    ensures Sound(fields, Decode(fields, st, s).value.st.msg)
    decreases |s|, 2
  {
    if s != [] {
      var t := GetTag(s).value;
      hide GetTag, DecodeField, WellFormed, Sized, Sound;
      if t.tag != 0 || t.wire != 0 {
        StepSound(fields, st, t);
        var n := DecodeField(fields, st, t).value;
        DecodeSound(fields, n.st, n.rest);
      }
    }
  }

  /** pb_decode on arbitrary bytes: an accepted message fits its struct, and the stream is where it was read to. */
  lemma DecodeSafe(fields: seq<Field>, s: seq<byte>)
    requires WellFormed(fields) && Sized(fields) && DecodeMsg(fields, s).Some?
    ensures Sound(fields, DecodeMsg(fields, s).value.0) && Tail(s, DecodeMsg(fields, s).value.1)
  {
    DefaultsSound(fields);
    DecodeSound(fields, Start(Defaults(fields)), s);
    Advance(fields, Start(Defaults(fields)), s);
  }
}
