/** The scalar field encoders and decoders of nanopb (pb_encode.c, pb_decode.c). */
module Scalars {
  import opened Bytes
  import opened Varints
  import opened Descriptors

  /** A value that was decoded, and what follows it. */
  datatype Got = Got(v: Value, rest: seq<byte>)

  function Full(d: nat): nat {
    if d == 1 then 0x100 else if d == 2 then 0x1_0000 else if d == 4 then TWO_32 else TWO_64
  }

  /** The signed number of d bytes with the low bits of x: a cast. */
  function Cast(x: int, d: nat): int {
    var low := x % Full(d);
    if low >= Full(d) / 2 then low - Full(d) else low
  }

  // pb_enc_varint and the other scalar encoders.

  function EncScalar(f: Field, v: Value): Option<seq<byte>> {
    match f.ltype
    case Varint => if v.Num? && IntSize(f.dataSize) then Some(Put(v.n % TWO_64)) else None
    case Uvarint => if v.Num? && v.n >= 0 && IntSize(f.dataSize) then Some(Put(v.n)) else None
    case Svarint =>
      if v.Num? && -TWO_63 <= v.n < TWO_63 && IntSize(f.dataSize) then Some(Put(Zigzag(v.n))) else None
    case Fixed32 => if v.Num? && v.n >= 0 then Some(PutLe(v.n, 4)) else None
    case Fixed64 => if v.Num? && v.n >= 0 then Some(PutLe(v.n, 8)) else None
    case Blob => if v.Data? && |v.b| + 4 <= f.dataSize then Some(Put(|v.b|) + v.b) else None
    case Text => if v.Data? && |v.b| <= f.dataSize then Some(Put(|v.b|) + v.b) else None
    case FixedBlob => if v.Data? && |v.b| == f.dataSize then Some(Put(|v.b|) + v.b) else None
    case Submessage(_) => None
  }

  // pb_dec_varint and the other scalar decoders.

  /** A number that the member's type must be able to hold: "integer too large". */
  function Clamped(f: Field, n: int, clamped: int, rest: seq<byte>): Option<Got> {
    if IntSize(f.dataSize) && clamped == n then Some(Got(Num(n), rest)) else None
  }

  /** The number of bytes that precedes a string. */
  function GetChunk(s: seq<byte>): (r: Option<(seq<byte>, seq<byte>)>)
    ensures r.Some? ==> |r.value.0| + |r.value.1| < |s|
  {
    var size := Get32(s);
    if size.None? || |size.value.rest| < size.value.value then None
    else Some((size.value.rest[..size.value.value], size.value.rest[size.value.value..]))
  }

  /** A C string ends at its first NUL. */
  function UpToNul(b: seq<byte>): seq<byte> {
    if b == [] || b[0] == 0 then [] else [b[0]] + UpToNul(b[1..])
  }

  function DecVarint(f: Field, s: seq<byte>): Option<Got> {
    var got := Get64(s);
    if got.None? then None
    else
      var n := Cast(got.value.value, if f.dataSize == 8 then 8 else 4);
      Clamped(f, n, Cast(n, f.dataSize), got.value.rest)
  }

  function DecUvarint(f: Field, s: seq<byte>): Option<Got> {
    var got := Get64(s);
    if got.None? then None
    else Clamped(f, got.value.value, got.value.value % Full(f.dataSize), got.value.rest)
  }

  function DecSvarint(f: Field, s: seq<byte>): Option<Got> {
    var got := Get64(s);
    if got.None? then None
    else
      var n := Unzigzag(got.value.value);
      Clamped(f, n, Cast(n, f.dataSize), got.value.rest)
  }

  function DecFixed(s: seq<byte>, n: nat): Option<Got> {
    if |s| < n then None else Some(Got(Num(GetLe(s[..n])), s[n..]))
  }

  function DecBytes(f: Field, s: seq<byte>): Option<Got> {
    var size := Get32(s);
    if size.None? then None
    else
      var n, rest := size.value.value, size.value.rest;
      match f.ltype
      case Blob => if n + 4 > f.dataSize || |rest| < n then None else Some(Got(Data(rest[..n]), rest[n..]))
      case Text => if n + 1 > f.dataSize || |rest| < n then None else Some(Got(Data(UpToNul(rest[..n])), rest[n..]))
      case _ =>
        if n == 0 then Some(Got(Data(Zeros(f.dataSize)), rest))
        else if n != f.dataSize || |rest| < n then None
        else Some(Got(Data(rest[..n]), rest[n..]))
  }

  function DecScalar(f: Field, s: seq<byte>): Option<Got> {
    match f.ltype
    case Varint => DecVarint(f, s)
    case Uvarint => DecUvarint(f, s)
    case Svarint => DecSvarint(f, s)
    case Fixed32 => DecFixed(s, 4)
    case Fixed64 => DecFixed(s, 8)
    case Submessage(_) => None
    case _ => DecBytes(f, s)
  }

  // Round trips.

  /** What a member of the field's type can hold; strings end with a NUL that is not part of the value. */
  predicate FitsScalar(f: Field, v: Value) {
    match f.ltype
    case Varint | Svarint => v.Num? && IntSize(f.dataSize) && -(Full(f.dataSize) / 2) <= v.n < Full(f.dataSize) / 2
    case Uvarint => v.Num? && IntSize(f.dataSize) && 0 <= v.n < Full(f.dataSize)
    case Fixed32 => v.Num? && 0 <= v.n < TWO_32
    case Fixed64 => v.Num? && 0 <= v.n < TWO_64
    case Blob => v.Data? && |v.b| + 4 <= f.dataSize
    case Text => v.Data? && |v.b| < f.dataSize && 0 !in v.b
    case FixedBlob => v.Data? && |v.b| == f.dataSize
    case Submessage(_) => false
  }

  lemma CastSmall(n: int, d: nat)
    requires IntSize(d) && -(Full(d) / 2) <= n < Full(d) / 2
    ensures Cast(n, d) == n
  {
    Mod(n, Full(d));
  }

  lemma Mod(n: int, full: nat)
    requires full > 0 && -(full as int) <= n < full
    ensures n % full == if n < 0 then n + full else n
  {
  }

  /** A signed number survives as its 64 bits. */
  lemma CastBits(n: int, d: nat)
    requires (d == 4 || d == 8) && -(Full(d) / 2) <= n < Full(d) / 2
    ensures Cast(n % TWO_64, d) == n
  {
    Mod(n, TWO_64);
    if n < 0 && d == 4 {
      assert n + TWO_64 == TWO_32 * (TWO_32 - 1) + (n + TWO_32);
      LowOf(TWO_32 - 1, n + TWO_32);
    }
  }

  lemma VarintTrip(f: Field, v: Value, rest: seq<byte>)
    requires f.ltype.Varint? && FitsScalar(f, v)
    ensures DecVarint(f, Put(v.n % TWO_64) + rest) == Some(Got(v, rest))
  {
    GetPut64(v.n % TWO_64, rest);
    CastBits(v.n, if f.dataSize == 8 then 8 else 4);
    CastSmall(v.n, f.dataSize);
    hide Get64, Put, Cast;
  }

  lemma UvarintTrip(f: Field, v: Value, rest: seq<byte>)
    requires f.ltype.Uvarint? && FitsScalar(f, v)
    ensures DecUvarint(f, Put(v.n) + rest) == Some(Got(v, rest))
  {
    GetPut64(v.n, rest);
    Mod(v.n, Full(f.dataSize));
    hide Get64, Put;
  }

  lemma SvarintTrip(f: Field, v: Value, rest: seq<byte>)
    requires f.ltype.Svarint? && FitsScalar(f, v)
    ensures DecSvarint(f, Put(Zigzag(v.n)) + rest) == Some(Got(v, rest))
  {
    ZigzagBijection(v.n, 0);
    GetPut64(Zigzag(v.n), rest);
    CastSmall(v.n, f.dataSize);
    hide Get64, Put, Cast, Zigzag, Unzigzag;
  }

  lemma FixedTrip(x: nat, n: nat, rest: seq<byte>)
    requires x < Pow256(n)
    ensures DecFixed(PutLe(x, n) + rest, n) == Some(Got(Num(x), rest))
  {
    GetPutLe(x, n);
    hide PutLe, GetLe;
    assert (PutLe(x, n) + rest)[..n] == PutLe(x, n) && (PutLe(x, n) + rest)[n..] == rest;
  }

  lemma {:induction false} NoNul(b: seq<byte>)
    requires 0 !in b
    ensures UpToNul(b) == b
  {
    if b != [] {
      NoNul(b[1..]);
    }
  }

  lemma BytesTrip(f: Field, b: seq<byte>, rest: seq<byte>)
    requires f.ltype.Blob? || f.ltype.Text? || f.ltype.FixedBlob?
    requires FitsScalar(f, Data(b)) && f.dataSize < TWO_32
    ensures DecBytes(f, Put(|b|) + b + rest) == Some(Got(Data(b), rest))
  {
    assert Put(|b|) + b + rest == Put(|b|) + (b + rest);
    GetPut32(|b|, b + rest);
    hide Get32, Put;
    assert (b + rest)[..|b|] == b && (b + rest)[|b|..] == rest;
    if f.ltype.Text? {
      NoNul(b);
    } else if f.ltype.FixedBlob? && |b| == 0 {
      assert b == Zeros(0);
    }
  }

  /** Whatever a scalar member can hold is written, and read back as it was. */
  lemma ScalarTrip(f: Field, v: Value, rest: seq<byte>)
    requires FitsScalar(f, v) && f.dataSize < TWO_32
    ensures EncScalar(f, v).Some? && DecScalar(f, EncScalar(f, v).value + rest) == Some(Got(v, rest))
  {
    hide DecVarint, DecUvarint, DecSvarint, DecFixed, DecBytes, Put, PutLe, Zigzag;
    match f.ltype {
      case Varint => VarintTrip(f, v, rest);
      case Uvarint => UvarintTrip(f, v, rest);
      case Svarint => SvarintTrip(f, v, rest);
      case Fixed32 =>
        Pow4();
        FixedTrip(v.n, 4, rest);
      case Fixed64 =>
        Pow256Values();
        FixedTrip(v.n, 8, rest);
      case Blob | Text | FixedBlob => BytesTrip(f, v.b, rest);
    }
  }

  lemma Pow4()
    ensures Pow256(4) == TWO_32
  {
    Pow256Values();
    assert Pow256(4) == 256 * Pow256(3);
  }

  // A decoder reads no further than its value.

  lemma {:induction false} LengthMore(s: seq<byte>, t: seq<byte>)
    requires Length(s).Some?
    ensures Length(s + t) == Length(s) && Number(s + t) == Number(s)
  {
    if s[0] >= 128 {
      LengthMore(s[1..], t);
      assert (s + t)[1..] == s[1..] + t;
    }
  }

  lemma Get64More(s: seq<byte>, t: seq<byte>)
    requires Get64(s).Some?
    ensures Get64(s + t) == Some(Read(Get64(s).value.value, Get64(s).value.rest + t))
  {
    LengthMore(s, t);
    var n := Length(s).value;
    hide Length, Number;
    assert (s + t)[n..] == s[n..] + t;
  }

  lemma {:induction false} Get32FromMore(s: seq<byte>, t: seq<byte>, result: nat, bitpos: nat)
    requires Get32From(s, result, bitpos).Some?
    ensures var r := Get32From(s, result, bitpos).value;
            Get32From(s + t, result, bitpos) == Some(Read(r.value, r.rest + t))
  {
    assert (s + t)[0] == s[0] && (s + t)[1..] == s[1..] + t;
    hide Or, Shl, Low32;
    if s[0] >= 128 {
      var result' := if bitpos >= 32 then result else Or(result, Low32(Shl(s[0] % 128, bitpos)));
      Get32FromMore(s[1..], t, result', (bitpos + 7) % 256);
    }
  }

  lemma Get32More(s: seq<byte>, t: seq<byte>)
    requires Get32(s).Some?
    ensures Get32(s + t) == Some(Read(Get32(s).value.value, Get32(s).value.rest + t))
  {
    assert (s + t)[0] == s[0] && (s + t)[1..] == s[1..] + t;
    if s[0] >= 128 {
      Get32FromMore(s[1..], t, s[0] % 128, 7);
    }
    hide Get32From;
  }

  lemma SplitMore(s: seq<byte>, t: seq<byte>, n: nat)
    requires n <= |s|
    ensures (s + t)[..n] == s[..n] && (s + t)[n..] == s[n..] + t
  {
  }

  lemma ChunkMore(s: seq<byte>, t: seq<byte>)
    requires GetChunk(s).Some?
    ensures GetChunk(s + t) == Some((GetChunk(s).value.0, GetChunk(s).value.1 + t))
  {
    Get32More(s, t);
    hide Get32;
    SplitMore(Get32(s).value.rest, t, Get32(s).value.value);
  }

  lemma ScalarMore(f: Field, s: seq<byte>, t: seq<byte>)
    requires DecScalar(f, s).Some?
    ensures var got := DecScalar(f, s).value;
            DecScalar(f, s + t) == Some(Got(got.v, got.rest + t))
  {
    hide Get32, Get64, GetLe, Cast, Unzigzag, UpToNul;
    match f.ltype {
      case Varint | Uvarint | Svarint => Get64More(s, t);
      case Fixed32 => SplitMore(s, t, 4);
      case Fixed64 => SplitMore(s, t, 8);
      case Blob | Text | FixedBlob =>
        Get32More(s, t);
        var size := Get32(s).value;
        if size.value <= |size.rest| {
          SplitMore(size.rest, t, size.value);
        }
    }
  }
}
