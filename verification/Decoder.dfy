/** The decoder of nanopb (pb_decode.c), reading from streams what Decoding says. */
module Decoder {
  import opened Bytes
  import opened Varints
  import opened Descriptors
  import opened Scalars
  import opened Decoding
  import opened InStream
  import opened FieldIter
  import Laws = DecoderLaws
  import Trip = CodecRoundTrip

  /** pb_dec_varint, pb_dec_uvarint and pb_dec_svarint. */
  method DecodeInteger(s: IStream, f: Field) returns (ok: bool, v: Value)
    requires s.Valid() && (f.ltype.Varint? || f.ltype.Uvarint? || f.ltype.Svarint?)
    modifies s
    ensures s.Valid() && s.End() == old(s.End()) && ok == DecScalar(f, old(s.Rest())).Some?
    ensures ok ==> DecScalar(f, old(s.Rest())) == Some(Got(v, s.Rest()))
  {
    hide Get64;
    var value;
    v := Num(0);
    ok, value := s.DecodeVarint();
    if !ok {
      return;
    }
    var n, clamped: int;
    if f.ltype.Varint? {
      n := Cast(value, if f.dataSize == 8 then 8 else 4);
      clamped := Cast(n, f.dataSize);
    } else if f.ltype.Uvarint? {
      n := value;
      clamped := value % Full(f.dataSize);
    } else {
      n := Unzigzag(value);
      clamped := Cast(n, f.dataSize);
    }
    if !IntSize(f.dataSize) {
      return false, v;
    }
    v := Num(clamped);
    ok := clamped == n;
  }

  /** pb_decode_fixed32 and pb_decode_fixed64. */
  method DecodeFixed(s: IStream, n: nat) returns (ok: bool, v: Value)
    requires s.Valid()
    modifies s
    ensures s.Valid() && s.End() == old(s.End()) && ok == DecFixed(old(s.Rest()), n).Some?
    ensures ok ==> DecFixed(old(s.Rest()), n) == Some(Got(v, s.Rest()))
  {
    var bytes;
    ok, bytes := s.ReadBytes(n);
    v := Num(GetLe(bytes));
  }

  /** pb_dec_bytes, pb_dec_string and pb_dec_fixed_length_bytes. */
  method DecodeBytes(s: IStream, f: Field) returns (ok: bool, v: Value)
    requires s.Valid() && (f.ltype.Blob? || f.ltype.Text? || f.ltype.FixedBlob?)
    modifies s
    ensures s.Valid() && s.End() == old(s.End()) && ok == DecBytes(f, old(s.Rest())).Some?
    ensures ok ==> DecBytes(f, old(s.Rest())) == Some(Got(v, s.Rest()))
  {
    hide Get32;
    var size, eof, bytes;
    v := Data([]);
    ok, size, eof := s.DecodeVarint32();
    if !ok {
      return;
    }
    match f.ltype {
      case Blob =>
        if size + 4 > f.dataSize {
          return false, v;
        }
        ok, bytes := s.ReadBytes(size);
        v := Data(bytes);
      case Text =>
        if size + 1 > f.dataSize {
          return false, v;
        }
        ok, bytes := s.ReadBytes(size);
        v := Data(UpToNul(bytes));
      case FixedBlob =>
        if size == 0 {
          return true, Data(Zeros(f.dataSize));
        }
        if size != f.dataSize {
          return false, v;
        }
        ok, bytes := s.ReadBytes(f.dataSize);
        v := Data(bytes);
    }
  }

  /** The scalar decoders. */
  method DecodeScalar(s: IStream, f: Field) returns (ok: bool, v: Value)
    requires s.Valid() && !f.ltype.Submessage?
    modifies s
    ensures s.Valid() && s.End() == old(s.End()) && ok == DecScalar(f, old(s.Rest())).Some?
    ensures ok ==> DecScalar(f, old(s.Rest())) == Some(Got(v, s.Rest()))
  {
    match f.ltype {
      case Varint | Uvarint | Svarint => ok, v := DecodeInteger(s, f);
      case Fixed32 => ok, v := DecodeFixed(s, 4);
      case Fixed64 => ok, v := DecodeFixed(s, 8);
      case Blob | Text | FixedBlob => ok, v := DecodeBytes(s, f);
    }
  }

  /** The elements of a packed array after those that were read. */
  function PackedFrom(vs: seq<Value>, f: Field, room: nat, s: seq<byte>): Option<seq<Value>>
    decreases room
  {
    if s == [] then Some(vs)
    else if room == 0 then None
    else
      var got := DecScalar(f, s);
      if got.None? then None else PackedFrom(vs + [got.value.v], f, room - 1, got.value.rest)
  }

  lemma PackedTurn(vs: seq<Value>, f: Field, room: nat, s: seq<byte>)
    ensures PackedFrom(vs, f, room, s)
         == if s == [] then Some(vs)
            else if room == 0 || DecScalar(f, s).None? then None
            else PackedFrom(vs + [DecScalar(f, s).value.v], f, room - 1, DecScalar(f, s).value.rest)
  {
    hide DecScalar;
  }

  lemma {:induction false} PackedFromAll(vs: seq<Value>, f: Field, room: nat, s: seq<byte>)
    ensures var all := DecPacked(f, room, s);
            PackedFrom(vs, f, room, s) == if all.None? then None else Some(vs + all.value)
    decreases room
  {
    hide DecScalar;
    assert vs + [] == vs;
    if s != [] && room > 0 && DecScalar(f, s).Some? {
      var got := DecScalar(f, s).value;
      PackedFromAll(vs + [got.v], f, room - 1, got.rest);
      var more := DecPacked(f, room - 1, got.rest);
      assert more.Some? ==> vs + ([got.v] + more.value) == vs + [got.v] + more.value;
    }
  }

  lemma PackedFromNone(f: Field, room: nat, s: seq<byte>)
    ensures PackedFrom([], f, room, s) == DecPacked(f, room, s)
  {
    PackedFromAll([], f, room, s);
    var all := DecPacked(f, room, s);
    assert all.Some? ==> [] + all.value == all.value;
  }

  lemma LeftIsRest(s: IStream)
    requires s.Valid()
    ensures |s.Rest()| == s.bytesLeft
  {
  }

  /** One more element of a packed array that has room for it. */
  method DecodeElement(s: IStream, f: Field, vs: seq<Value>, room: nat) returns (ok: bool, vs': seq<Value>)
    requires s.Valid() && f.Packable() && s.bytesLeft > 0 && room > 0
    modifies s
    ensures s.Valid() && s.End() == old(s.End()) && |vs'| == |vs| + 1
    ensures PackedFrom(vs, f, room, old(s.Rest())) == if ok then PackedFrom(vs', f, room - 1, s.Rest()) else None
  {
    hide DecScalar, PackedFrom;
    var v;
    PackedTurn(vs, f, room, s.Rest());
    LeftIsRest(s);
    ok, v := DecodeScalar(s, f);
    vs' := vs + [v];
  }

  /** The elements of a packed array, while there is input and room: "array overflow" if input is left. */
  method DecodePacked(s: IStream, f: Field, room: nat) returns (ok: bool, vs: seq<Value>)
    requires s.Valid() && f.Packable()
    modifies s
    ensures s.Valid() && s.End() == old(s.End()) && ok == DecPacked(f, room, old(s.Rest())).Some?
    ensures ok ==> vs == DecPacked(f, room, old(s.Rest())).value
  {
    vs := [];
    var status := true;
    ghost var whole := DecPacked(f, room, s.Rest());
    hide DecPacked, DecScalar, PackedFrom;
    PackedFromNone(f, room, s.Rest());
    while status && s.bytesLeft > 0 && |vs| < room
      invariant s.Valid() && s.End() == old(s.End()) && |vs| <= room
      invariant whole == if status then PackedFrom(vs, f, room - |vs|, s.Rest()) else None
      decreases status, room - |vs|
    {
      status, vs := DecodeElement(s, f, vs, room - |vs|);
    }
    LeftIsRest(s);
    if status {
      PackedTurn(vs, f, room - |vs|, s.Rest());
    }
    ok := status && s.bytesLeft == 0;
  }

  // Fields and messages.

  /** What decode_static_field does, once the bookkeeping is done. */
  function Static(f: Field, st: State, wire: nat, s: seq<byte>): Option<Step>
    requires Has(f, st.msg)
  {
    if f.Array() && f.Packable() && wire == 2 then
      var chunk := GetChunk(s);
      if chunk.None? then None
      else
        var vs := DecPacked(f, Room(f, st), chunk.value.0);
        if vs.None? then None else Some(Step(Append(f, st, vs.value), chunk.value.1))
    else if f.Array() && Room(f, st) == 0 then None
    else
      var got := Value(f, st, s);
      if got.None? then None else Some(Step(Deliver(f, st, got.value.v), got.value.rest))
  }

  function Value(f: Field, st: State, s: seq<byte>): Option<Got>
    requires Has(f, st.msg)
  {
    if f.ltype.Submessage? then DecSub(f, Base(f, st), s) else DecScalar(f, s)
  }

  lemma StaticStep(fields: seq<Field>, st: State, i: nat, st': State, t: Tagged)
    requires i < |fields| && Find(fields, t.tag) == Some(i) && Enter(fields, st, i) == Some(st')
    requires Has(fields[i], st.msg) && st'.msg == st.msg
    ensures DecodeField(fields, st, t) == Static(fields[i], st', t.wire, t.rest)
  {
    hide Find, Enter, Decode, GetChunk, DecPacked, DecScalar, DecSub, Append, Deliver, Room, Base;
  }

  /** A member that can be decoded into: its descriptor is well formed and what it holds fits. */
  predicate Ready(f: Field, m: seq<Slot>) {
    WellFormedField(f) && Laws.SizedField(f) && Has(f, m) && Laws.SoundSlot(f, m[f.slot])
  }

  /** What a field's decoder makes of a member's memory: a struct is merged into, but an array element is first set to
      defaults. */
  function Merge(f: Field, dest: Value, s: seq<byte>): Option<Got>
    requires f.ltype.Submessage? && !f.Array() ==> dest.Struct?
  {
    if !f.ltype.Submessage? then DecScalar(f, s)
    else DecSub(f, if f.Array() then Defaults(f.ltype.fields) else dest.slots, s)
  }

  /** pb_dec_submessage. */
  method DecodeSubmessage(s: IStream, f: Field, base: seq<Slot>) returns (ok: bool, v: Value)
    requires s.Valid() && f.ltype.Submessage? && WellFormedField(f) && Laws.SizedField(f)
    requires Laws.Sound(f.ltype.fields, base)
    modifies s
    ensures s.Valid() && s.End() == old(s.End()) && ok == DecSub(f, base, old(s.Rest())).Some?
    ensures ok ==> DecSub(f, base, old(s.Rest())) == Some(Got(v, s.Rest()))
    decreases s.bytesLeft, 0
  {
    var sub, m;
    v := Struct(base);
    hide GetChunk, Decode, Complete;
    ok, sub := s.Open();
    if !ok {
      return;
    }
    ok, m := DecodeMessage(sub, f.ltype.fields, base);
    s.Close(sub);
    v := Struct(m);
  }

  /** The field's decoder. The elements of arrays are set to defaults first (pb_decode). */
  method DecodeValue(s: IStream, f: Field, dest: Value) returns (ok: bool, v: Value)
    requires s.Valid() && WellFormedField(f) && Laws.SizedField(f)
    requires f.ltype.Submessage? && !f.Array() ==> Laws.SoundValue(f, dest)
    modifies s
    ensures s.Valid() && s.End() == old(s.End()) && ok == Merge(f, dest, old(s.Rest())).Some?
    ensures ok ==> Merge(f, dest, old(s.Rest())) == Some(Got(v, s.Rest()))
    decreases s.bytesLeft, 1
  {
    hide DecScalar, DecSub, Defaults;
    if !f.ltype.Submessage? {
      ok, v := DecodeScalar(s, f);
    } else if f.Array() {
      Laws.DefaultsSound(f.ltype.fields);
      ok, v := DecodeSubmessage(s, f, Defaults(f.ltype.fields));
    } else {
      ok, v := DecodeSubmessage(s, f, dest.slots);
    }
  }

  /** The packed form of an array. */
  method DecodePackedArray(s: IStream, f: Field, room: nat) returns (ok: bool, vs: seq<Value>)
    requires s.Valid() && f.Packable()
    modifies s
    ensures s.Valid() && s.End() == old(s.End())
    ensures var chunk := GetChunk(old(s.Rest()));
            && ok == (chunk.Some? && DecPacked(f, room, chunk.value.0).Some?)
            && (ok ==> vs == DecPacked(f, room, chunk.value.0).value && s.Rest() == chunk.value.1)
  {
    var sub;
    vs := [];
    ok, sub := s.Open();
    if !ok {
      return;
    }
    ok, vs := DecodePacked(sub, f, room);
    s.Close(sub);
  }

  /** decode_static_field for an array: the new elements, or "array overflow". */
  method DecodeElements(s: IStream, f: Field, wire: nat, room: nat) returns (ok: bool, vs: seq<Value>)
    requires s.Valid() && f.Array() && WellFormedField(f) && Laws.SizedField(f)
    modifies s
    ensures s.Valid() && s.End() == old(s.End()) && ok == Elements(f, wire, room, old(s.Rest())).Some?
    ensures ok ==> Elements(f, wire, room, old(s.Rest())) == Some((vs, s.Rest()))
    decreases s.bytesLeft, 2
  {
    hide GetChunk, DecPacked, Merge;
    vs := [];
    if wire == 2 && f.Packable() {
      ok, vs := DecodePackedArray(s, f, room);
    } else if room == 0 {
      ok := false;
    } else {
      var v;
      ok, v := DecodeValue(s, f, Num(0));
      vs := [v];
    }
  }

  function Elements(f: Field, wire: nat, room: nat, s: seq<byte>): Option<(seq<Value>, seq<byte>)>
    requires f.Array()
  {
    if wire == 2 && f.Packable() then
      var chunk := GetChunk(s);
      if chunk.None? || DecPacked(f, room, chunk.value.0).None? then None
      else Some((DecPacked(f, room, chunk.value.0).value, chunk.value.1))
    else if room == 0 then None
    else
      var got := Merge(f, Num(0), s);
      if got.None? then None else Some(([got.value.v], got.value.rest))
  }

  /** decode_static_field: the struct, and the count of the array without one that is being read. */
  method DecodeStaticField(s: IStream, f: Field, wire: nat, m: seq<Slot>, filled: nat,
      ghost open: Option<nat>, ghost seen: set<nat>) returns (ok: bool, m': seq<Slot>, filled': nat)
    requires s.Valid() && Ready(f, m)
    modifies s
    ensures s.Valid() && s.End() == old(s.End())
    ensures Static(f, State(m, open, filled, seen), wire, old(s.Rest()))
         == if ok then Some(Step(State(m', open, filled', seen), s.Rest())) else None
    decreases s.bytesLeft, 3
  {
    m', filled' := m, filled;
    var v;
    hide GetChunk, DecPacked, DecScalar, DecSub, Defaults;
    match f.rule {
      case Required | Singular =>
        ok, v := DecodeValue(s, f, m[f.slot].v);
        m' := m[f.slot := One(v)];
      case Optional =>
        ok, v := DecodeValue(s, f, m[f.slot].v);
        m' := m[f.slot := Opt(true, v)];
      case Repeated =>
        var vs;
        var items := m[f.slot].items;
        ok, vs := DecodeElements(s, f, wire, if |items| < f.arraySize then f.arraySize - |items| else 0);
        m' := m[f.slot := Many(items + vs)];
      case FixedCount =>
        var vs;
        var items := m[f.slot].items;
        ok, vs := DecodeElements(s, f, wire, if filled < f.arraySize then f.arraySize - filled else 0);
        m' := m[f.slot := Many((if filled < |items| then items[..filled] else items) + vs)];
        filled' := filled + |vs|;
      case Oneof =>
        var dest := m[f.slot].v;
        if f.ltype.Submessage? {
          Laws.DefaultsSound(f.ltype.fields);
          dest := Struct(Defaults(f.ltype.fields));
        }
        ok, v := DecodeValue(s, f, dest);
        m' := m[f.slot := Union(f.tag, v)];
    }
  }

  /** A word of fields_seen is the set of its bits: bit b of word w stands for the required field 32 * w + b. */
  ghost predicate Words(words: seq<set<nat>>, seen: set<nat>) {
    && |words| == 2
    && (forall k: nat | k < 32 :: k in words[0] <==> k in seen)
    && (forall k: nat | k < 32 :: k in words[1] <==> k + 32 in seen)
    && (forall k | k in words[0] :: k < 32)
    && (forall k | k in words[1] :: k < 32)
  }

  /** The bit of one more required field. */
  lemma SetBit(words: seq<set<nat>>, seen: set<nat>, index: nat)
    requires Words(words, seen) && index < PB_MAX_REQUIRED_FIELDS
    ensures Words(words[index / 32 := words[index / 32] + {index % 32}], seen + {index})
  {
    assert index / 32 == if index < 32 then 0 else 1;
  }

  /** Comparing whole words and the remaining bits is asking for all required fields. */
  lemma WordsAll(words: seq<set<nat>>, seen: set<nat>, count: nat)
    requires Words(words, seen) && count <= PB_MAX_REQUIRED_FIELDS
    requires forall k | k in seen :: k < count
    ensures (forall k: nat | k < count :: k in seen) <==>
            (if count < 32 then words[0] == Range(0, count)
             else words[0] == Range(0, 32) && words[1] == Range(0, count - 32))
  {
    if forall k: nat | k < count :: k in seen {
      assert count < 32 ==> words[0] == Range(0, count);
      assert count >= 32 ==> words[0] == Range(0, 32);
      forall k: nat ensures k in words[1] <==> k < count - 32 {
        assert k in words[1] ==> k + 32 in seen;
      }
      assert count >= 32 ==> words[1] == Range(0, count - 32);
    } else {
      var k: nat :| k < count && k !in seen;
      assert k >= 32 ==> k - 32 !in words[1];
    }
  }

  /** The iterator goes on to the end to count the required fields. */
  method CountRequired(iter: FieldIter) returns (count: nat)
    requires iter.Valid()
    modifies iter
    ensures count == RequiredCount(iter.fields)
  {
    ghost var fields := iter.fields;
    count := 0;
    var last, more := Required, true;
    while more
      invariant iter.Valid() && iter.fields == fields
      invariant !more && fields != [] ==>
                  count == RequiredCount(fields[..|fields| - 1]) && last == fields[|fields| - 1].rule
      invariant !more && fields == [] ==> count == 0
      decreases if more then 1 + |fields| - iter.pos else 0
    {
      count := iter.requiredFieldIndex;
      last := if iter.fields == [] then Required else iter.fields[iter.pos].rule;
      more := iter.Next();
    }
    if last.Required? && iter.fields != [] {
      count := count + 1;
    }
  }

  /** The check at the end of pb_decode_noinit that all required fields were present. */
  method CheckRequired(iter: FieldIter, words: array<set<nat>>, ghost seen: set<nat>) returns (ok: bool)
    requires iter.Valid() && words.Length == 2 && Words(words[..], seen)
    requires forall k | k in seen :: k < RequiredCount(iter.fields) && k < PB_MAX_REQUIRED_FIELDS
    modifies iter
    ensures ok == AllSeen(iter.fields, seen)
  {
    hide RequiredCount;
    var count := CountRequired(iter);
    if count > PB_MAX_REQUIRED_FIELDS {
      count := PB_MAX_REQUIRED_FIELDS;
    }
    WordsAll(words[..], seen, count);
    var i := 0;
    while i < count / 32
      invariant 0 <= i <= count / 32
      invariant forall k | 0 <= k < i :: words[k] == Range(0, 32)
    {
      if words[i] != Range(0, 32) {
        return false;
      }
      i := i + 1;
    }
    if count % 32 != 0 && words[count / 32] != Range(0, count % 32) {
      return false;
    }
    ok := true;
  }

  /** How far the loop of pb_decode_noinit has come. */
  ghost predicate Running(fields: seq<Field>, st: State) {
    && WellFormed(fields) && Laws.Sized(fields) && Laws.Sound(fields, st.msg)
    && forall k | k in st.seen :: k < RequiredCount(fields) && k < PB_MAX_REQUIRED_FIELDS
  }

  lemma IsReady(f: Field, m: seq<Slot>)
    requires WellFormedField(f) && Laws.SizedField(f) && Laws.SoundAt(f, m)
    ensures Ready(f, m)
  {
    assert Laws.SoundSlot(f, m[f.slot]);
  }

  /** The loop meets a field of the descriptor. */
  lemma Meets(fields: seq<Field>, st: State, i: nat, t: Tagged)
    requires Running(fields, st) && i < |fields| && fields[i].tag == t.tag
    ensures Ready(fields[i], st.msg)
    ensures Enter(fields, st, i).Some? ==>
              var st' := Enter(fields, st, i).value;
              && st'.msg == st.msg
              && DecodeField(fields, st, t) == Static(fields[i], st', t.wire, t.rest)
              && (DecodeField(fields, st, t).Some? ==> Running(fields, DecodeField(fields, st, t).value.st))
    ensures Enter(fields, st, i).None? ==> DecodeField(fields, st, t).None?
  {
    assert WellFormed(fields);
    assert DistinctTags(fields);
    Trip.FindAt(fields, i);
    assert WellFormedField(fields[i]) && Laws.SizedField(fields[i]) && Laws.SoundAt(fields[i], st.msg);
    IsReady(fields[i], st.msg);
    assert Enter(fields, st, i).Some? ==> Enter(fields, st, i).value.msg == st.msg;
    hide WellFormed, Laws.Sized, Laws.Sound, WellFormedField, Laws.SizedField, Laws.SoundSlot;
    if Enter(fields, st, i).Some? {
      var st' := Enter(fields, st, i).value;
      StaticStep(fields, st, i, st', t);
      if DecodeField(fields, st, t).Some? {
        Laws.StepSound(fields, st, t);
        Laws.SeenStep(fields, st, t);
        Laws.RequiredGrows(fields, i, |fields|);
        assert fields[..|fields|] == fields;
        StaticSeen(fields[i], st', t.wire, t.rest);
      }
    }
  }

  lemma StaticSeen(f: Field, st: State, wire: nat, s: seq<byte>)
    requires Has(f, st.msg) && Static(f, st, wire, s).Some?
    ensures Static(f, st, wire, s).value.st.seen == st.seen
  {
    hide GetChunk, DecPacked, Value, Room;
  }

  /** The bookkeeping before a field is decoded: of arrays without a count, and of required fields. */
  method EnterField(iter: FieldIter, fixed: Option<nat>, filled: nat, words: array<set<nat>>, ghost st: State)
    returns (ok: bool, fixed': Option<nat>, filled': nat)
    requires iter.Valid() && iter.fields != [] && words.Length == 2
    requires Words(words[..], st.seen) && st.open == fixed && st.filled == filled
    modifies words
    ensures ok == Enter(iter.fields, st, iter.pos).Some?
    ensures ok ==> var st' := Enter(iter.fields, st, iter.pos).value;
                   Words(words[..], st'.seen) && st'.open == fixed' && st'.filled == filled'
  {
    hide RequiredCount;
    var f := iter.fields[iter.pos];
    fixed', filled' := fixed, filled;
    ok := true;
    if f.rule.FixedCount? {
      if fixed != Some(iter.pos) {
        if fixed.Some? && fixed.value < |iter.fields| && filled != iter.fields[fixed.value].arraySize {
          return false, fixed, filled;
        }
        fixed', filled' := Some(iter.pos), 0;
      }
    }
    if f.rule.Required? && iter.requiredFieldIndex < PB_MAX_REQUIRED_FIELDS {
      var index := iter.requiredFieldIndex;
      SetBit(words[..], st.seen, index);
      words[index / 32] := words[index / 32] + {index % 32};
    }
  }

  /** One turn of the loop, for a tag that was read: a field of the descriptor, or one to skip. */
  method DecodeTurn(s: IStream, iter: FieldIter, tag: nat, wire: nat, m: seq<Slot>, fixed: Option<nat>, filled: nat,
      words: array<set<nat>>, ghost st: State)
    returns (ok: bool, m': seq<Slot>, fixed': Option<nat>, filled': nat)
    requires s.Valid() && iter.Valid() && words.Length == 2
    requires st == State(m, fixed, filled, st.seen) && Words(words[..], st.seen) && Running(iter.fields, st)
    modifies s, iter, words
    ensures s.Valid() && s.End() == old(s.End()) && iter.Valid()
    ensures var n := DecodeField(iter.fields, st, Tagged(tag, wire, old(s.Rest())));
            && ok == n.Some?
            && (ok ==>
                  && n.value.rest == s.Rest()
                  && n.value.st == State(m', fixed', filled', n.value.st.seen)
                  && Words(words[..], n.value.st.seen)
                  && Running(iter.fields, n.value.st))
    decreases s.bytesLeft, 4
  {
    hide Static, Enter, DecodeField, WellFormed, Laws.Sized, Laws.Sound, Words;
    m', fixed', filled' := m, fixed, filled;
    ghost var fields, t := iter.fields, Tagged(tag, wire, s.Rest());
    var found := iter.Find(tag);
    if !found {
      SkipStep(fields, st, t);
      ok := s.SkipField(wire);
    } else if iter.fields == [] {
      NoField(st, t);
      var _, _ := s.DecodeVarint();
      ok := false;
    } else {
      Meets(fields, st, iter.pos, t);
      ok, fixed', filled' := EnterField(iter, fixed, filled, words, st);
      if ok {
        ghost var st' := Enter(fields, st, iter.pos).value;
        ok, m', filled' := DecodeStaticField(s, iter.fields[iter.pos], wire, m, filled', fixed', st'.seen);
      }
    }
  }

  /** The checks at the end of pb_decode_noinit. */
  method Finish(iter: FieldIter, fixed: Option<nat>, filled: nat, words: array<set<nat>>, ghost st: State)
    returns (ok: bool)
    requires iter.Valid() && words.Length == 2 && Words(words[..], st.seen) && Running(iter.fields, st)
    requires st.open == fixed && st.filled == filled
    modifies iter
    ensures ok == Complete(iter.fields, st)
  {
    if fixed.Some? && fixed.value < |iter.fields| && filled != iter.fields[fixed.value].arraySize {
      return false;
    }
    ok := CheckRequired(iter, words, st.seen);
  }

  /** One tag and its field, or the end at a zero tag. */
  method DecodeNext(s: IStream, iter: FieldIter, m: seq<Slot>, fixed: Option<nat>, filled: nat,
      words: array<set<nat>>, ghost st: State)
    returns (ok: bool, over: bool, m': seq<Slot>, fixed': Option<nat>, filled': nat, ghost st': State)
    requires s.Valid() && s.Rest() != [] && iter.Valid() && words.Length == 2
    requires st == State(m, fixed, filled, st.seen) && Words(words[..], st.seen) && Running(iter.fields, st)
    modifies s, iter, words
    ensures s.Valid() && s.End() == old(s.End()) && iter.Valid()
    ensures ok ==> s.bytesLeft < old(s.bytesLeft)
    ensures ok ==>
              st' == State(m', fixed', filled', st'.seen) && Words(words[..], st'.seen) && Running(iter.fields, st')
    ensures Decode(iter.fields, st, old(s.Rest()))
         == if !ok then None
            else if over then Some(Done(st', s.Rest(), true)) else Decode(iter.fields, st', s.Rest())
    decreases s.bytesLeft, 5
  {
    hide GetTag, Decode, DecodeField, Words, Running;
    m', fixed', filled', st' := m, fixed, filled, st;
    Unfold(iter.fields, st, s.Rest());
    var tag, wire;
    ok, wire, tag, over := s.DecodeTag();
    if ok {
      ghost var n := DecodeField(iter.fields, st, Tagged(tag, wire, s.Rest()));
      ok, m', fixed', filled' := DecodeTurn(s, iter, tag, wire, m, fixed, filled, words, st);
      if ok {
        st' := n.value.st;
      }
      over := false;
    } else {
      ok := over;
    }
    assert |s.Rest()| == s.bytesLeft && |old(s.Rest())| == old(s.bytesLeft);
  }

  /** pb_decode_noinit. */
  method DecodeMessage(s: IStream, fields: seq<Field>, m: seq<Slot>) returns (ok: bool, msg: seq<Slot>)
    requires s.Valid() && WellFormed(fields) && Laws.Sized(fields) && Laws.Sound(fields, m)
    modifies s
    ensures s.Valid() && s.End() == old(s.End()) && ok == DecodeNoinit(fields, m, old(s.Rest())).Some?
    ensures ok ==> DecodeNoinit(fields, m, old(s.Rest())) == Some((msg, s.Rest()))
    decreases s.bytesLeft, 6
  {
    var iter := new FieldIter(fields);
    var words := new set<nat>[2](_ => {});
    var fixed: Option<nat>, filled := None, 0;
    msg := m;
    var over := false;
    ghost var st, whole := Start(m), Decode(fields, Start(m), s.Rest());
    hide WellFormed, Laws.Sized, Laws.Sound, Decode, Complete;
    while !over && s.bytesLeft > 0
      invariant s.Valid() && s.End() == old(s.End()) && s.bytesLeft <= old(s.bytesLeft)
      invariant iter.Valid() && iter.fields == fields && words.Length == 2
      invariant st == State(msg, fixed, filled, st.seen) && Words(words[..], st.seen)
      invariant Running(fields, st)
      invariant whole == if over then Some(Done(st, s.Rest(), true)) else Decode(fields, st, s.Rest())
      decreases s.bytesLeft
    {
      ok, over, msg, fixed, filled, st := DecodeNext(s, iter, msg, fixed, filled, words, st);
      if !ok {
        return;
      }
    }
    Unfold(fields, st, []);
    ok := Finish(iter, fixed, filled, words, st);
  }

  lemma Unfold(fields: seq<Field>, st: State, s: seq<byte>)
    ensures s == [] ==> Decode(fields, st, s) == Some(Done(st, [], false))
    ensures var t := GetTag(s);
            s != [] ==>
              Decode(fields, st, s)
                == if t.None? then None
                   else if t.value.tag == 0 && t.value.wire == 0 then Some(Done(st, t.value.rest, true))
                   else
                     var n := DecodeField(fields, st, t.value);
                     if n.None? then None else Decode(fields, n.value.st, n.value.rest)
  {
    hide GetTag, DecodeField;
  }

  lemma SkipStep(fields: seq<Field>, st: State, t: Tagged)
    requires (forall f | f in fields :: f.tag != t.tag) && (fields == [] ==> t.tag != 0)
    ensures DecodeField(fields, st, t)
         == if Skip(t.wire, t.rest).None? then None else Some(Step(st, Skip(t.wire, t.rest).value))
  {
    hide Skip;
  }

  lemma NoField(st: State, t: Tagged)
    requires t.tag == 0
    ensures DecodeField([], st, t).None?
  {
    hide Skip;
  }

  /** pb_decode: a message read into a struct that was set to defaults. What is accepted fits the struct. */
  method DecodeFresh(s: IStream, fields: seq<Field>) returns (ok: bool, msg: seq<Slot>)
    requires s.Valid() && WellFormed(fields) && Laws.Sized(fields)
    modifies s
    ensures s.Valid() && s.End() == old(s.End()) && ok == DecodeMsg(fields, old(s.Rest())).Some?
    ensures ok ==> DecodeMsg(fields, old(s.Rest())) == Some((msg, s.Rest())) && Laws.Sound(fields, msg)
  {
    Laws.DefaultsSound(fields);
    ok, msg := DecodeMessage(s, fields, Defaults(fields));
    if ok {
      Laws.DecodeSafe(fields, old(s.Rest()));
    }
  }
}
