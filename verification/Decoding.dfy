/** What pb_decode makes of its input (pb_decode.c), as a function of the descriptor, the struct and the bytes. */
module Decoding {
  import opened Bytes
  import opened Varints
  import opened Descriptors
  import opened Scalars

  const PB_MAX_REQUIRED_FIELDS := 64

  /** The struct that is being filled in; the array without a count that was begun last and how much of it has come
      (fixed_count_field, fixed_count_size); the required fields that were seen (fields_seen). */
  datatype State = State(msg: seq<Slot>, open: Option<nat>, filled: nat, seen: set<nat>)

  function Start(msg: seq<Slot>): State {
    State(msg, None, 0, {})
  }

  /** A tag that was read: the field's number and its wire type. */
  datatype Tagged = Tagged(tag: nat, wire: nat, rest: seq<byte>)

  /** After a field, or at the end: of the input, or at a zero tag. */
  datatype Step = Step(st: State, rest: seq<byte>)
  datatype Done = Done(st: State, rest: seq<byte>, zero: bool)

  /** pb_field_iter_find: tags are distinct, so it does not matter where the search begins. */
  function Find(fields: seq<Field>, tag: nat): (r: Option<nat>)
    ensures r.Some? ==> r.value < |fields| && fields[r.value].tag == tag
    ensures r.None? ==> forall f | f in fields :: f.tag != tag
  {
    if fields == [] then None
    else if fields[0].tag == tag then Some(0)
    else
      var r := Find(fields[1..], tag);
      if r.None? then None else Some(r.value + 1)
  }

  /** The number of required fields: the iterator's required_field_index at the end of these fields. */
  function RequiredCount(fields: seq<Field>): nat {
    if fields == [] then 0
    else RequiredCount(fields[..|fields| - 1]) + if fields[|fields| - 1].rule.Required? then 1 else 0
  }

  /** pb_skip_field. */
  function Skip(wire: nat, s: seq<byte>): (r: Option<seq<byte>>)
    ensures r.Some? ==> |r.value| <= |s|
  {
    if wire == 0 then
      var n := Length(s);
      if n.None? then None else Some(s[n.value..])
    else if wire == 1 then if |s| < 8 then None else Some(s[8..])
    else if wire == 2 then
      var chunk := GetChunk(s);
      if chunk.None? then None else Some(chunk.value.1)
    else if wire == 5 then if |s| < 4 then None else Some(s[4..])
    else None
  }

  /** An array without a count was begun and has not all its elements: "wrong size for fixed count field". */
  predicate Unfinished(fields: seq<Field>, st: State) {
    st.open.Some? && st.open.value < |fields| && st.filled != fields[st.open.value].arraySize
  }

  /** The bookkeeping before field i is decoded. */
  function Enter(fields: seq<Field>, st: State, i: nat): Option<State>
    requires i < |fields|
  {
    var index := RequiredCount(fields[..i]);
    if fields[i].rule.FixedCount? && st.open != Some(i) then
      if Unfinished(fields, st) then None else Some(st.(open := Some(i), filled := 0))
    else if fields[i].rule.Required? && index < PB_MAX_REQUIRED_FIELDS then Some(st.(seen := st.seen + {index}))
    else Some(st)
  }

  /** The struct has the member that the field describes. */
  predicate Has(f: Field, m: seq<Slot>) {
    f.slot < |m| && Holds(f, m[f.slot])
  }

  /** How many elements the array has so far. */
  function Count(f: Field, st: State): nat
    requires Has(f, st.msg)
  {
    if f.rule.FixedCount? then st.filled else if f.rule.Repeated? then |st.msg[f.slot].items| else 0
  }

  function Room(f: Field, st: State): nat
    requires Has(f, st.msg)
  {
    if Count(f, st) < f.arraySize then f.arraySize - Count(f, st) else 0
  }

  /** The elements that stay in front of a new one. */
  function Staying(f: Field, st: State): seq<Value>
    requires Has(f, st.msg) && f.Array()
  {
    var items := st.msg[f.slot].items;
    if f.rule.FixedCount? && st.filled < |items| then items[..st.filled] else items
  }

  /** New elements of an array. */
  function Append(f: Field, st: State, vs: seq<Value>): State
    requires Has(f, st.msg) && f.Array()
  {
    var st' := st.(msg := st.msg[f.slot := Many(Staying(f, st) + vs)]);
    if f.rule.FixedCount? then st'.(filled := st.filled + |vs|) else st'
  }

  /** decode_static_field with the value that its decoder read. */
  function Deliver(f: Field, st: State, v: Value): State
    requires Has(f, st.msg)
  {
    match f.rule
    case Required | Singular => st.(msg := st.msg[f.slot := One(v)])
    case Optional => st.(msg := st.msg[f.slot := Opt(true, v)])
    case Repeated | FixedCount => Append(f, st, [v])
    case Oneof => st.(msg := st.msg[f.slot := Union(f.tag, v)])
  }

  /** What a submessage is merged into: array elements and union members start from the defaults. */
  function Base(f: Field, st: State): seq<Slot>
    requires Has(f, st.msg) && f.ltype.Submessage?
  {
    match st.msg[f.slot]
    case One(v) => if v.Struct? then v.slots else []
    case Opt(_, v) => if v.Struct? then v.slots else []
    case _ => Defaults(f.ltype.fields)
  }

  /** The elements of a packed array, as long as there is room: "array overflow". */
  function DecPacked(f: Field, room: nat, s: seq<byte>): Option<seq<Value>>
    decreases room
  {
    if s == [] then Some([])
    else if room == 0 then None
    else
      var got := DecScalar(f, s);
      if got.None? then None
      else
        var more := DecPacked(f, room - 1, got.value.rest);
        if more.None? then None else Some([got.value.v] + more.value)
  }

  /** The required fields, as far as they are tracked, were all seen. */
  predicate AllSeen(fields: seq<Field>, seen: set<nat>) {
    forall k: nat | k < RequiredCount(fields) && k < PB_MAX_REQUIRED_FIELDS :: k in seen
  }

  /** The checks at the end of pb_decode_noinit. */
  predicate Complete(fields: seq<Field>, st: State) {
    !Unfinished(fields, st) && AllSeen(fields, st.seen)
  }

  /** pb_decode_tag. A zero tag is given as such. */
  function GetTag(s: seq<byte>): (r: Option<Tagged>)
    ensures r.Some? ==> |r.value.rest| < |s|
  {
    var t := Get32(s);
    if t.None? then None else Some(Tagged(t.value.value / 8, t.value.value % 8, t.value.rest))
  }

  lemma ScalarRest(f: Field, s: seq<byte>)
    ensures DecScalar(f, s).Some? ==> |DecScalar(f, s).value.rest| <= |s|
  {
  }

  /** The loop of pb_decode_noinit. */
  function Decode(fields: seq<Field>, st: State, s: seq<byte>): (r: Option<Done>)
    ensures r.Some? ==> |r.value.rest| <= |s|
    decreases |s|, 2
  {
    if s == [] then Some(Done(st, [], false))
    else
      var t := GetTag(s);
      if t.None? then None
      else if t.value.tag == 0 && t.value.wire == 0 then Some(Done(st, t.value.rest, true))
      else
        var next := DecodeField(fields, st, t.value);
        if next.None? then None else Decode(fields, next.value.st, next.value.rest)
  }

  /** One turn of it: a field of the descriptor, or one that is skipped. The terminator of an empty descriptor has tag
      0, and a size that no number has. */
  function DecodeField(fields: seq<Field>, st: State, t: Tagged): (r: Option<Step>)
    ensures r.Some? ==> |r.value.rest| <= |t.rest|
    decreases |t.rest|, 1
  {
    var i := Find(fields, t.tag);
    if i.None? then
      var rest := Skip(t.wire, t.rest);
      if rest.None? || (fields == [] && t.tag == 0) then None else Some(Step(st, rest.value))
    else
      var f := fields[i.value];
      var st' := Enter(fields, st, i.value);
      if st'.None? || !Has(f, st.msg) then None
      else if f.Array() && f.Packable() && t.wire == 2 then
        var chunk := GetChunk(t.rest);
        if chunk.None? then None
        else
          var vs := DecPacked(f, Room(f, st'.value), chunk.value.0);
          if vs.None? then None else Some(Step(Append(f, st'.value, vs.value), chunk.value.1))
      else if f.Array() && Room(f, st'.value) == 0 then None
      else
        ScalarRest(f, t.rest);
        var got := if f.ltype.Submessage? then DecSub(f, Base(f, st'.value), t.rest) else DecScalar(f, t.rest);
        if got.None? then None else Some(Step(Deliver(f, st'.value, got.value.v), got.value.rest))
  }

  /** pb_dec_submessage: the chunk is a message of its own, and is read to its end or to a zero tag. */
  function DecSub(f: Field, base: seq<Slot>, s: seq<byte>): (r: Option<Got>)
    requires f.ltype.Submessage?
    ensures r.Some? ==> |r.value.rest| <= |s|
    decreases |s|, 0
  {
    var chunk := GetChunk(s);
    if chunk.None? then None
    else
      var done := Decode(f.ltype.fields, Start(base), chunk.value.0);
      if done.None? || !Complete(f.ltype.fields, done.value.st) then None
      else Some(Got(Struct(done.value.st.msg), chunk.value.1))
  }

  /** pb_decode_noinit: the struct, and what is left of the input. */
  function DecodeNoinit(fields: seq<Field>, m: seq<Slot>, s: seq<byte>): Option<(seq<Slot>, seq<byte>)> {
    var done := Decode(fields, Start(m), s);
    if done.None? || !Complete(fields, done.value.st) then None else Some((done.value.st.msg, done.value.rest))
  }

  /** pb_decode. */
  function DecodeMsg(fields: seq<Field>, s: seq<byte>): Option<(seq<Slot>, seq<byte>)> {
    DecodeNoinit(fields, Defaults(fields), s)
  }
}
