/** nanopb's input streams and the readers of varints, tags and unknown fields (pb_decode.c). */
module InStream {
  import opened Bytes
  import opened Varints
  import opened Descriptors
  import opened Scalars
  import opened Decoding

  function Low64(x: nat): nat {
    x % TWO_64
  }

  /** result |= (byte & 0x7F) << bitpos, in the 64 bits of the result. */
  function Put64(result: nat, b: byte, bitpos: nat): nat {
    Or(result, Low64(Shl(b % 128, bitpos)))
  }

  /** The loop of pb_decode_varint, from the byte at bit position bitpos. */
  function Get64From(s: seq<byte>, result: nat, bitpos: nat): (r: Option<Read>)
    ensures r.Some? ==> |r.value.rest| < |s|
    decreases |s|
  {
    if bitpos >= 64 || s == [] then None
    else if s[0] >= 128 then Get64From(s[1..], Put64(result, s[0], bitpos), bitpos + 7)
    else Some(Read(Put64(result, s[0], bitpos), s[1..]))
  }

  /** Of the tenth group only one bit fits. */
  lemma LowTop(c: nat, result: nat)
    requires c < 128 && result < Shl(1, 63)
    ensures Put64(result, c, 63) == Low64(result + Shl(c, 63))
  {
    hide Shl, Or, Low64;
    Shl63(1);
    Shl63(c);
    var q, b := Halves(c);
    Shl63(b);
    TopBit(q, b, 0);
    TopBit(q, b, result);
    OrAdds(result, b, 63);
    PutSmall(result, c, 63);
  }

  lemma PutSmall(result: nat, c: nat, p: nat)
    requires c < 128
    ensures Put64(result, c, p) == Or(result, Low64(Shl(c, p)))
  {
    hide Shl, Or, Low64;
  }

  lemma Halves(c: nat) returns (q: nat, b: nat)
    ensures b < 2 && c == 2 * q + b
  {
    q, b := c / 2, c % 2;
  }

  lemma TopBit(q: nat, b: nat, result: nat)
    requires result < TWO_63 && b < 2
    ensures Low64(result + TWO_63 * (2 * q + b)) == result + TWO_63 * b
  {
    Mod64(q, result + TWO_63 * b);
  }

  lemma Mod64(q: nat, r: nat)
    requires r < TWO_64
    ensures Low64(TWO_64 * q + r) == r
  {
  }

  lemma Shl63(c: nat)
    ensures Shl(c, 63) == TWO_63 * c
  {
    Shl28(c);
    Shl7(c, 35);
    Shl7(c, 42);
    Shl7(c, 49);
    Shl7(c, 56);
  }

  /** One group before the tenth: it fits. */
  lemma GroupFits(c: nat, result: nat, p: nat)
    requires c < 128 && p <= 56 && result < Shl(1, p)
    ensures Put64(result, c, p) == result + Shl(c, p) < Shl(1, p + 7) <= TWO_64
  {
    GroupBound(c, p);
    OrAdds(result, c, p);
    ShlGrows(1, p + 7, 63);
    Shl63(1);
    hide Shl, Or, Low64;
    Mod64(0, Shl(c, p));
  }

  /** After i groups: the loop takes what is left of a number of at most ten. */
  lemma {:induction false} GroupsLeft(s: seq<byte>, result: nat, i: nat, p: nat)
    requires i <= 9 && p == 7 * i && result < Shl(1, p)
    ensures var n := Length(s);
            Get64From(s, result, p)
              == if n.None? || n.value + i > 10 then None
                 else Some(Read(Low64(result + Shl(Number(s), p)), s[n.value..]))
    decreases |s|
  {
    if s != [] {
      var c := if s[0] < 128 then s[0] else s[0] - 128;
      if s[0] < 128 {
        LastGroup(s, result, i, p);
      } else if i == 9 {
        assert Get64From(s[1..], Put64(result, s[0], p), 70).None?;
      } else {
        MoreGroups(s, c, result, i, p);
      }
    }
  }

  lemma LastGroup(s: seq<byte>, result: nat, i: nat, p: nat)
    requires i <= 9 && p == 7 * i && result < Shl(1, p) && s != [] && s[0] < 128
    ensures Get64From(s, result, p) == Some(Read(Low64(result + Shl(s[0], p)), s[1..]))
  {
    if i == 9 {
      LowTop(s[0], result);
    } else {
      GroupFits(s[0], result, p);
      hide Shl, Put64, Low64;
      Mod64(0, result + Shl(s[0], p));
    }
  }

  lemma Turn64(s: seq<byte>, result: nat, p: nat)
    requires p < 64 && s != []
    ensures Get64From(s, result, p)
         == if s[0] >= 128 then Get64From(s[1..], Put64(result, s[0], p), p + 7)
            else Some(Read(Put64(result, s[0], p), s[1..]))
  {
    hide Put64;
  }

  lemma SameGroup(result: nat, c: nat, p: nat)
    requires c < 128
    ensures Put64(result, c + 128, p) == Put64(result, c, p)
  {
    assert (c + 128) % 128 == c % 128;
    hide Shl, Or, Low64;
  }

  lemma MoreGroups(s: seq<byte>, c: nat, result: nat, i: nat, p: nat)
    requires i < 9 && p == 7 * i && result < Shl(1, p) && s != [] && s[0] == c + 128
    ensures var n := Length(s);
            Get64From(s, result, p)
              == if n.None? || n.value + i > 10 then None
                 else Some(Read(Low64(result + Shl(Number(s), p)), s[n.value..]))
    decreases |s|, 0
  {
    GroupThenMore(s, c);
    GroupFits(c, result, p);
    ShlMore(c, Number(s[1..]), p);
    hide Shl, Put64, Get64From, Length, Number, Low64;
    Turn64(s, result, p);
    SameGroup(result, c, p);
    GroupsLeft(s[1..], result + Shl(c, p), i + 1, p + 7);
    var n := Length(s);
    assert n.Some? ==> s[1..][n.value - 1..] == s[n.value..];
  }

  lemma ShlMore(c: nat, more: nat, p: nat)
    ensures Shl(c + 128 * more, p) == Shl(c, p) + Shl(more, p + 7)
  {
    ShlAdd(c, 128 * more, p);
    ShlScale(more, p);
    Shl7(more, p);
  }

  lemma GroupThenMore(s: seq<byte>, c: nat)
    requires s != [] && s[0] == c + 128
    ensures Number(s) == c + 128 * Number(s[1..])
    ensures Length(s) == if Length(s[1..]).None? then None else Some(Length(s[1..]).value + 1)
  {
    assert s[0] % 128 == c;
  }

  /** The loop computes what Get64 says. */
  lemma Get64Loop(s: seq<byte>)
    ensures Get64(s) == Get64From(s, 0, 0)
  {
    GroupsLeft(s, 0, 0, 0);
    hide Get64From, Number, Length;
    assert Shl(Number(s), 0) == Number(s);
  }

  /** pb_istream_t: so many bytes from some place in a buffer. */
  class IStream {
    const buf: array<byte>
    var state: nat
    var bytesLeft: nat

    ghost predicate Valid()
      reads this
    {
      state + bytesLeft <= buf.Length
    }

    /** Where the stream ends in its buffer. */
    ghost function End(): nat
      reads this
    {
      state + bytesLeft
    }

    /** What is left to read. */
    ghost function Rest(): seq<byte>
      requires Valid()
      reads this, buf
    {
      buf[state..state + bytesLeft]
    }

    /** pb_istream_from_buffer, and a substream. */
    constructor (buf: array<byte>, state: nat, bytesLeft: nat)
      requires state + bytesLeft <= buf.Length
      ensures Valid() && this.buf == buf && this.state == state && this.bytesLeft == bytesLeft
      ensures Rest() == buf[state..state + bytesLeft]
    {
      this.buf, this.state, this.bytesLeft := buf, state, bytesLeft;
    }

    /** pb_read: the bytes that would be copied, or skipped. */
    method ReadBytes(count: nat) returns (ok: bool, bytes: seq<byte>)
      requires Valid()
      modifies this
      ensures Valid() && End() == old(End()) && ok == (count <= |old(Rest())|)
      ensures if ok then bytes == old(Rest())[..count] && Rest() == old(Rest())[count..] else Rest() == old(Rest())
    {
      assert |Rest()| == bytesLeft;
      if bytesLeft < count {
        return false, [];
      }
      bytes := buf[state..state + count];
      state := state + count;
      bytesLeft := bytesLeft - count;
      ok := true;
    }

    /** pb_readbyte. */
    method ReadByte() returns (ok: bool, b: byte)
      requires Valid()
      modifies this
      ensures Valid() && End() == old(End()) && ok == (old(Rest()) != [])
      ensures if ok then b == old(Rest())[0] && Rest() == old(Rest())[1..] else Rest() == []
    {
      if bytesLeft == 0 {
        return false, 0;
      }
      b := buf[state];
      state := state + 1;
      bytesLeft := bytesLeft - 1;
      ok := true;
    }

    /** pb_decode_varint32_eof. */
    method DecodeVarint32() returns (ok: bool, dest: nat, eof: bool)
      requires Valid()
      modifies this
      ensures Valid() && End() == old(End()) && ok == Get32(old(Rest())).Some? && eof == (old(Rest()) == [])
      ensures ok ==> Get32(old(Rest())) == Some(Read(dest, Rest()))
    {
      var b;
      eof := false;
      ok, b := ReadByte();
      if !ok {
        return false, 0, bytesLeft == 0;
      }
      if b < 128 {
        return true, b, false;
      }
      var bitpos := 7;
      dest := b % 128;
      var more := true;
      while more
        invariant Valid() && End() == old(End()) && 0 <= bitpos < 256
        invariant if more then Get32(old(Rest())) == Get32From(Rest(), dest, bitpos)
                  else Get32(old(Rest())) == if bitpos == 35 && b / 16 % 8 != 0 then None else Some(Read(dest, Rest()))
        decreases more, bytesLeft
      {
        ok, b := ReadByte();
        if !ok {
          return;
        }
        if bitpos >= 32 {
          var sign := if bitpos < 63 then 0xFF else 0x01;
          if b % 128 != 0 && (dest < TWO_31 || b != sign) {
            return false, dest, false;
          }
        } else {
          dest := Or(dest, Low32(Shl(b % 128, bitpos)));
        }
        bitpos := (bitpos + 7) % 256;
        more := b >= 128;
      }
      if bitpos == 35 && b / 16 % 8 != 0 {
        return false, dest, false;
      }
      ok := true;
    }

    /** pb_decode_varint. */
    method DecodeVarint() returns (ok: bool, dest: nat)
      requires Valid()
      modifies this
      ensures Valid() && End() == old(End()) && ok == Get64(old(Rest())).Some?
      ensures ok ==> Get64(old(Rest())) == Some(Read(dest, Rest()))
    {
      var b, bitpos := 0, 0;
      dest := 0;
      var more := true;
      ghost var s := Rest();
      Get64Loop(s);
      hide Put64, Get64;
      while more
        invariant Valid() && End() == old(End()) && 0 <= bitpos <= 70
        invariant if more then Get64(s) == Get64From(Rest(), dest, bitpos)
                  else Get64(s) == Some(Read(dest, Rest()))
        decreases more, bytesLeft
      {
        if bitpos >= 64 {
          return false, dest;
        }
        ghost var was := Rest();
        ok, b := ReadByte();
        if !ok {
          return;
        }
        Turn64(was, dest, bitpos);
        dest := Put64(dest, b, bitpos);
        bitpos := bitpos + 7;
        more := b >= 128;
      }
      ok := true;
    }

    /** pb_skip_varint: of any length. */
    method SkipVarint() returns (ok: bool)
      requires Valid()
      modifies this
      ensures Valid() && End() == old(End()) && ok == Length(old(Rest())).Some?
      ensures ok ==> Rest() == old(Rest())[Length(old(Rest())).value..]
    {
      var byte := [];
      ghost var n: nat, s := 0, Rest();
      PassesNone(s);
      hide Length, Passes;
      var more := true;
      while more
        invariant Valid() && End() == old(End()) && n <= |s| && Rest() == s[n..]
        invariant if more then Passes(s, n) else Length(s) == Some(n)
        decreases more, bytesLeft
      {
        PassesTurn(s, n);
        ok, byte := ReadBytes(1);
        if !ok {
          return;
        }
        more := byte[0] >= 128;
        n := n + 1;
      }
      ok := true;
    }

    /** pb_skip_string. */
    method SkipString() returns (ok: bool)
      requires Valid()
      modifies this
      ensures Valid() && End() == old(End()) && ok == GetChunk(old(Rest())).Some?
      ensures ok ==> Rest() == GetChunk(old(Rest())).value.1
    {
      var length, eof, bytes;
      ok, length, eof := DecodeVarint32();
      if ok {
        ok, bytes := ReadBytes(length);
      }
    }

    /** pb_skip_field. */
    method SkipField(wire: nat) returns (ok: bool)
      requires Valid()
      modifies this
      ensures Valid() && End() == old(End()) && ok == Skip(wire, old(Rest())).Some?
      ensures ok ==> Rest() == Skip(wire, old(Rest())).value
    {
      var bytes;
      if wire == 0 {
        ok := SkipVarint();
      } else if wire == 1 {
        ok, bytes := ReadBytes(8);
      } else if wire == 2 {
        ok := SkipString();
      } else if wire == 5 {
        ok, bytes := ReadBytes(4);
      } else {
        ok := false;
      }
    }

    /** pb_decode_tag: a zero tag counts as the end. */
    method DecodeTag() returns (ok: bool, wire: nat, tag: nat, eof: bool)
      requires Valid() && Rest() != []
      modifies this
      ensures Valid() && End() == old(End())
      ensures var t := GetTag(old(Rest()));
              && ok == (t.Some? && !(t.value.tag == 0 && t.value.wire == 0))
              && (ok ==> t == Some(Tagged(tag, wire, Rest())))
              && (!ok ==> eof == t.Some? && (eof ==> t.value.rest == Rest()))
    {
      wire, tag := 0, 0;
      var temp;
      ok, temp, eof := DecodeVarint32();
      if !ok {
        return;
      }
      if temp == 0 {
        eof := true;
        return false, wire, tag, eof;
      }
      tag := temp / 8;
      wire := temp % 8;
    }

    /** pb_make_string_substream. Until the substream is closed, this stream stands before it. */
    method Open() returns (ok: bool, sub: IStream)
      requires Valid()
      modifies this
      ensures Valid() && sub.Valid() && fresh(sub) && sub.buf == buf && ok == GetChunk(old(Rest())).Some?
      ensures !ok ==> End() == old(End())
      ensures ok ==> sub.Rest() == GetChunk(old(Rest())).value.0
      ensures ok ==> sub.End() + bytesLeft == old(End()) && buf[sub.End()..old(End())] == GetChunk(old(Rest())).value.1
    {
      var size, eof;
      hide Get32, GetChunk;
      ghost var s, end := Rest(), End();
      ChunkTurn(s);
      ok, size, eof := DecodeVarint32();
      assert |Rest()| == bytesLeft;
      ok := ok && size <= bytesLeft;
      sub := new IStream(buf, state, if ok then size else 0);
      if ok {
        SplitSlice(buf[..], state, size, bytesLeft - size);
        bytesLeft := bytesLeft - size;
        assert sub.End() + bytesLeft == end;
      }
    }

    /** pb_close_string_substream: what was not read is skipped. */
    method Close(sub: IStream)
      requires Valid() && sub.Valid() && sub != this && sub.buf == buf && sub.End() + bytesLeft <= buf.Length
      modifies this, sub
      ensures Valid() && state == old(sub.End()) && bytesLeft == old(bytesLeft)
    {
      if sub.bytesLeft != 0 {
        var _, _ := sub.ReadBytes(sub.bytesLeft);
      }
      state := sub.state;
    }
  }

  lemma ChunkTurn(s: seq<byte>)
    ensures GetChunk(s) == if Get32(s).None? || |Get32(s).value.rest| < Get32(s).value.value then None
                           else Some((Get32(s).value.rest[..Get32(s).value.value],
                                      Get32(s).value.rest[Get32(s).value.value..]))
  {
  }

  lemma SplitSlice(s: seq<byte>, a: nat, n: nat, m: nat)
    requires a + n + m <= |s|
    ensures s[a..a + n + m][..n] == s[a..a + n] && s[a..a + n + m][n..] == s[a + n..a + n + m]
  {
  }

  /** The first n bytes of s all go on. */
  ghost predicate Passes(s: seq<byte>, n: nat)
    requires n <= |s|
  {
    Length(s) == if Length(s[n..]).None? then None else Some(Length(s[n..]).value + n)
  }

  lemma PassesNone(s: seq<byte>)
    ensures Passes(s, 0)
  {
    assert s[0..] == s;
  }

  lemma PassesTurn(s: seq<byte>, n: nat)
    requires n <= |s| && Passes(s, n)
    ensures if n == |s| then Length(s).None?
            else if s[n] >= 128 then Passes(s, n + 1) else Length(s) == Some(n + 1)
  {
    hide Length;
    LengthTurn(s[n..]);
    TailTurn(s, n);
  }

  lemma TailTurn(s: seq<byte>, n: nat)
    requires n <= |s|
    ensures s[n..] == [] <==> n == |s|
    ensures n < |s| ==> s[n..][0] == s[n] && s[n..][1..] == s[n + 1..]
  {
  }

  lemma LengthTurn(s: seq<byte>)
    ensures Length(s) == if s == [] then None else if s[0] < 128 then Some(1)
                         else if Length(s[1..]).None? then None else Some(Length(s[1..]).value + 1)
  {
  }
}
