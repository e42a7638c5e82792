/** Base 128 varints and zigzag integers as nanopb writes and reads them (pb_encode.c, pb_decode.c). The machine
    integers are numbers with their bounds; masks are remainders. */
module Varints {
  import opened Bytes

  const TWO_31 := 0x8000_0000
  const TWO_32 := 0x1_0000_0000
  const TWO_63 := 0x8000_0000_0000_0000

  /** x << k, without a width. */
  function Shl(x: nat, k: nat): nat {
    if k == 0 then x else 2 * Shl(x, k - 1)
  }

  function Low32(x: nat): nat {
    x % TWO_32
  }

  /** a | b. */
  function Or(a: nat, b: nat): nat {
    if a == 0 then b else if b == 0 then a
    else 2 * Or(a / 2, b / 2) + if a % 2 == 1 || b % 2 == 1 then 1 else 0
  }

  /** The encoding of n: seven bits a byte, the lowest first. */
  function Put(n: nat): (s: seq<byte>)
    ensures |s| >= 1
  {
    if n < 128 then [n] else [n % 128 + 128] + Put(n / 128)
  }

  /** How many bytes the varint at the start of s takes, if it ends. */
  function Length(s: seq<byte>): (r: Option<nat>)
    ensures r.Some? ==> 1 <= r.value <= |s|
  {
    if s == [] then None
    else if s[0] < 128 then Some(1)
    else
      var rest := Length(s[1..]);
      if rest.None? then None else Some(rest.value + 1)
  }

  /** The number that its groups of seven bits spell. */
  function Number(s: seq<byte>): nat {
    if s == [] then 0 else if s[0] < 128 then s[0] else s[0] % 128 + 128 * Number(s[1..])
  }

  /** A number that was read, and what follows it. */
  datatype Read = Read(value: nat, rest: seq<byte>)

  /** pb_decode_varint: at most ten bytes, and 64 bits of the result. */
  function Get64(s: seq<byte>): (r: Option<Read>)
    ensures r.Some? ==> r.value.value < TWO_64 && |r.value.rest| < |s|
  {
    var n := Length(s);
    if n.None? || n.value > 10 then None else Some(Read(Number(s) % TWO_64, s[n.value..]))
  }

  lemma {:induction false} LengthPut(n: nat, rest: seq<byte>)
    ensures Length(Put(n) + rest) == Some(|Put(n)|) && Number(Put(n) + rest) == n
  {
    if n >= 128 {
      LengthPut(n / 128, rest);
      assert (Put(n) + rest)[1..] == Put(n / 128) + rest;
    }
  }

  // Arithmetic of shifts.

  lemma {:induction false} ShlAdd(a: nat, b: nat, k: nat)
    ensures Shl(a + b, k) == Shl(a, k) + Shl(b, k)
  {
    if k > 0 {
      ShlAdd(a, b, k - 1);
    }
  }

  lemma {:induction false} ShlScale(x: nat, k: nat)
    ensures Shl(128 * x, k) == 128 * Shl(x, k)
  {
    if k > 0 {
      ShlScale(x, k - 1);
    }
  }

  lemma Shl7(x: nat, k: nat)
    ensures Shl(x, k + 7) == 128 * Shl(x, k)
  {
    assert Shl(x, k + 2) == 4 * Shl(x, k);
    assert Shl(x, k + 4) == 4 * Shl(x, k + 2);
    assert Shl(x, k + 6) == 4 * Shl(x, k + 4);
  }

  lemma {:induction false} ShlMono(a: nat, b: nat, k: nat)
    requires a <= b
    ensures Shl(a, k) <= Shl(b, k)
  {
    if k > 0 {
      ShlMono(a, b, k - 1);
    }
  }

  lemma {:induction false} ShlGrows(a: nat, k: nat, k': nat)
    requires k <= k'
    ensures Shl(a, k) <= Shl(a, k')
  {
    if k < k' {
      ShlGrows(a, k, k' - 1);
    }
  }

  /** A group is less than the next one's unit. */
  lemma GroupBound(c: nat, k: nat)
    requires c < 128
    ensures Shl(c, k) + Shl(1, k) <= Shl(1, k + 7)
  {
    ShlAdd(c, 1, k);
    ShlMono(c + 1, 128, k);
    ShlScale(1, k);
    Shl7(1, k);
  }

  lemma Shl28(c: nat)
    ensures Shl(c, 0) == c && Shl(c, 7) == 0x80 * c && Shl(c, 14) == 0x4000 * c && Shl(c, 21) == 0x20_0000 * c
    ensures Shl(c, 28) == 0x1000_0000 * c && Shl(c, 35) == 8 * TWO_32 * c
  {
    Shl7(c, 0);
    Shl7(c, 7);
    Shl7(c, 14);
    Shl7(c, 21);
    Shl7(c, 28);
  }

  lemma Shl70()
    ensures Shl(1, 70) == 64 * TWO_64
  {
    Shl28(1);
    Shl7(1, 35);
    Shl7(1, 42);
    Shl7(1, 49);
    Shl7(1, 56);
    Shl7(1, 63);
  }

  /** The lowest bit comes from one side, the rest from both. */
  lemma OrTurn(a: nat, r: nat, b: nat)
    requires r < 2
    ensures Or(2 * a + r, 2 * b) == r + 2 * Or(a, b)
  {
    if (a == 0 && r == 0) || b == 0 {
      OrZero(a);
      OrZero(b);
    }
  }

  lemma OrZero(a: nat)
    ensures Or(a, 0) == a && Or(0, a) == a
  {
  }

  lemma Halved(a: nat) returns (h: nat, r: nat)
    ensures r < 2 && a == 2 * h + r
  {
    h, r := a / 2, a % 2;
  }

  /** Bits that do not overlap are added. */
  lemma {:induction false} OrAdds(a: nat, c: nat, k: nat)
    requires a < Shl(1, k)
    ensures Or(a, Shl(c, k)) == a + Shl(c, k)
  {
    if k == 0 {
      OrZero(c);
    } else {
      var h, r := Halved(a);
      hide Or;
      OrAdds(h, c, k - 1);
      OrTurn(h, r, Shl(c, k - 1));
    }
  }

  // pb_encode_varint and pb_decode_varint are inverse.

  /** n takes as many bytes as it has groups of seven bits, but at least one. */
  lemma {:induction false} PutSize(n: nat, k: nat)
    requires k >= 1
    ensures |Put(n)| <= k <==> n < Shl(1, 7 * k)
  {
    Shl7(1, 7 * (k - 1));
    ShlGrows(1, 0, 7 * (k - 1));
    if k > 1 && n >= 128 {
      PutSize(n / 128, k - 1);
    }
  }

  /** Every 64-bit number is encoded in at most ten bytes and read back. */
  lemma GetPut64(n: nat, rest: seq<byte>)
    requires n < TWO_64
    ensures |Put(n)| <= 10 && Get64(Put(n) + rest) == Some(Read(n, rest))
  {
    PutSize(n, 10);
    LengthPut(n, rest);
    hide Shl, Put, Length, Number;
    Shl70();
    assert (Put(n) + rest)[|Put(n)|..] == rest;
  }

  /** Of eleven groups and more the 64-bit reader takes none, whatever they are; of ten the last counts with one bit. */
  lemma TenGroups(s: seq<byte>)
    requires Length(s).Some?
    ensures Get64(s).Some? <==> Length(s).value <= 10
    ensures Get64(s).Some? ==> Get64(s).value.value == Number(s) % 0x1_0000_0000_0000_0000
  {
  }

  // pb_decode_varint32_eof.

  /** The loop for numbers of several bytes, from the byte at bit position bitpos, an eight-bit counter. */
  function Get32From(s: seq<byte>, result: nat, bitpos: nat): (r: Option<Read>)
    ensures r.Some? ==> |r.value.rest| < |s|
  {
    if s == [] then None
    else
      var b := s[0];
      if bitpos >= 32 && b % 128 != 0 && (result < TWO_31 || b != (if bitpos < 63 then 0xFF else 0x01)) then None
      else
        var result' := if bitpos >= 32 then result else Or(result, Low32(Shl(b % 128, bitpos)));
        var bitpos' := (bitpos + 7) % 256;
        if b >= 128 then Get32From(s[1..], result', bitpos')
        else if bitpos' == 35 && b / 16 % 8 != 0 then None
        else Some(Read(result', s[1..]))
  }

  function Get32(s: seq<byte>): (r: Option<Read>)
    ensures r.Some? ==> |r.value.rest| < |s|
  {
    if s == [] then None
    else if s[0] < 128 then Some(Read(s[0], s[1..]))
    else Get32From(s[1..], s[0] % 128, 7)
  }

  /** The bit positions whose groups fill the 32 bits. */
  predicate Early(p: nat) {
    p == 7 || (7 < p <= 28 && Early(p - 7))
  }

  lemma EarlyCases(p: nat)
    requires Early(p)
    ensures p == 7 || p == 14 || p == 21 || p == 28
  {
    assert p > 7 ==> p - 7 == 7 || Early(p - 7 - 7);
    assert p > 14 ==> p - 14 == 7 || Early(p - 14 - 7);
  }

  lemma EarlyNext(p: nat)
    requires Early(p) && p != 28
    ensures Early(p + 7)
  {
    EarlyCases(p);
  }

  /** Of the fifth group only four bits fit. */
  lemma CutGroup(c: nat, p: nat)
    requires Early(p) && c < 128
    ensures Low32(Shl(c, p)) == Shl(if p == 28 then c % 16 else c, p)
  {
    EarlyCases(p);
    Shl28(c);
    Shl28(c % 16);
    hide Shl, Early;
    if p == 28 {
      CutTop(c);
    } else {
      hide *;
      assert Shl(c, p) <= 0x20_0000 * c;
      LowSmall(Shl(c, p));
    }
  }

  lemma LowSmall(x: nat)
    requires x < TWO_32
    ensures Low32(x) == x
  {
  }

  lemma CutTop(c: nat)
    ensures Low32(0x1000_0000 * c) == 0x1000_0000 * (c % 16)
  {
    var q, r := c / 16, c % 16;
    assert 0x1000_0000 * c == 0x1_0000_0000 * q + 0x1000_0000 * r;
    LowOf(q, 0x1000_0000 * r);
  }

  lemma LowOf(q: nat, r: nat)
    requires r < TWO_32
    ensures Low32(TWO_32 * q + r) == r
  {
  }

  lemma TurnFrom(s: seq<byte>, result: nat, bitpos: nat)
    requires bitpos < 32 && s != []
    ensures Get32From(s, result, bitpos)
         == var result' := Or(result, Low32(Shl(s[0] % 128, bitpos)));
            var bitpos' := (bitpos + 7) % 256;
            if s[0] >= 128 then Get32From(s[1..], result', bitpos')
            else if bitpos' == 35 && s[0] / 16 % 8 != 0 then None else Some(Read(result', s[1..]))
  {
    hide Shl, Or, Low32;
  }

  /** One more group of the result: what does not fit the 32 bits is cut. */
  lemma TurnSum(c: nat, result: nat, p: nat)
    requires Early(p) && c < 128 && result < Shl(1, p)
    ensures Or(result, Low32(Shl(c, p))) == result + Low32(Shl(c, p)) < Shl(1, p + 7)
  {
    var cut := if p == 28 then c % 16 else c;
    CutGroup(c, p);
    OrAdds(result, cut, p);
    GroupBound(cut, p);
    hide *;
  }

  lemma TurnBits(b: byte, p: nat)
    requires Early(p)
    ensures p < 32 && (p + 7) % 256 == p + 7 && (p + 7 == 35 <==> p == 28)
    ensures b % 128 == if b < 128 then b else b - 128
    ensures b < 128 ==> (b / 16 % 8 != 0 <==> b >= 16)
  {
    EarlyCases(p);
  }

  /** One turn of the loop that still fills the 32 bits, with the group c. */
  lemma Get32Turn(s: seq<byte>, c: nat, result: nat, p: nat)
    requires Early(p) && result < Shl(1, p) && s != [] && c == if s[0] < 128 then s[0] else s[0] - 128
    ensures var sum := result + Low32(Shl(c, p));
            && Get32From(s, result, p)
               == (if s[0] >= 128 then Get32From(s[1..], sum, p + 7)
                   else if p == 28 && c >= 16 then None else Some(Read(sum, s[1..])))
            && sum < Shl(1, p + 7)
  {
    TurnFrom(s, result, p);
    hide Shl, Or, Get32From, Low32;
    TurnBits(s[0], p);
    hide *;
    TurnSum(c, result, p);
  }

  /** A longer number: its low group and the rest. */
  lemma PutMany(n: nat, c: nat, d: nat, rest: seq<byte>)
    requires c < 128 && d > 0 && n == c + 128 * d
    ensures (Put(n) + rest)[0] == c + 128 && (Put(n) + rest)[1..] == Put(d) + rest
  {
    assert n % 128 == c && n / 128 == d;
  }

  /** What is below 2^32 leaves room for its next group. */
  lemma RoomLeft(m: nat, c: nat, d: nat, p: nat)
    requires c < 128 && m == c + 128 * d && Early(p) && Shl(m, p) < TWO_32
    ensures p == 28 ==> c < 16 && d == 0
    ensures Low32(Shl(c, p)) == Shl(c, p)
    ensures Shl(m, p) == Shl(c, p) + Shl(d, p + 7)
  {
    ShlAdd(c, 128 * d, p);
    ShlScale(d, p);
    Shl7(d, p);
    hide Shl, Low32;
    LowSmall(Shl(c, p));
    if p == 28 {
      Shl28(m);
    }
  }

  /** The low group of d and the rest of it. */
  lemma Groups(d: nat) returns (low: nat, high: nat)
    ensures low < 128 && d == low + 128 * high && (d > 0 ==> high < d)
  {
    low, high := d % 128, d / 128;
  }

  /** A rest m of a number, from bit position p on; d is what follows its first group c. */
  lemma {:induction false} Get32Loop(m: nat, c: nat, d: nat, rest: seq<byte>, result: nat, p: nat)
    requires c < 128 && m == c + 128 * d
    requires Early(p) && result < Shl(1, p) && result + Shl(m, p) < TWO_32
    ensures Get32From(Put(m) + rest, result, p) == Some(Read(result + Shl(m, p), rest))
    decreases d
  {
    RoomLeft(m, c, d, p);
    if d > 0 {
      hide Shl, Low32, Get32From, Put, Early;
      var low, high := Groups(d);
      var sum := result + Shl(c, p);
      assert Get32From(Put(m) + rest, result, p) == Get32From(Put(d) + rest, sum, p + 7) && sum < Shl(1, p + 7) by {
        PutMany(m, c, d, rest);
        Get32Turn(Put(m) + rest, c, result, p);
      }
      EarlyNext(p);
      Get32Loop(d, low, high, rest, sum, p + 7);
    } else {
      Get32Last(c, rest, result, p);
    }
  }

  lemma Get32Last(c: nat, rest: seq<byte>, result: nat, p: nat)
    requires c < 128 && Early(p) && result < Shl(1, p) && result + Shl(c, p) < TWO_32
    ensures Get32From(Put(c) + rest, result, p) == Some(Read(result + Shl(c, p), rest))
  {
    RoomLeft(c, c, 0, p);
    assert Put(c) == [c] && ([c] + rest)[1..] == rest;
    hide Shl, Low32, Get32From, Put, Early;
    Get32Turn([c] + rest, c, result, p);
  }

  lemma {:induction false} ShlZero(k: nat)
    ensures Shl(0, k) == 0
  {
    if k > 0 {
      ShlZero(k - 1);
    }
  }

  /** Lengths and tags survive: what is below 2^32 is read back by the 32-bit reader. */
  lemma GetPut32(n: nat, rest: seq<byte>)
    requires n < TWO_32
    ensures Get32(Put(n) + rest) == Some(Read(n, rest))
  {
    var s := Put(n) + rest;
    if n >= 128 {
      var c, d := Groups(n);
      PutMany(n, c, d, rest);
      GetFirst(s, c);
      hide Shl, Low32, Get32, Get32From, Put;
      var low, high := Groups(d);
      Shl28(1);
      Shl28(d);
      Get32Loop(d, low, high, rest, c, 7);
    } else {
      assert s[1..] == rest;
    }
  }

  lemma GetFirst(s: seq<byte>, c: nat)
    requires s != [] && s[0] == c + 128
    ensures Get32(s) == Get32From(s[1..], c, 7)
  {
    assert s[0] % 128 == c;
    hide Get32From;
  }

  // The two readers agree.

  /** Where the 32-bit reader stops: after the first byte without the continuation bit. */
  lemma {:induction false} Get32Stops(s: seq<byte>, result: nat, bitpos: nat)
    requires Get32From(s, result, bitpos).Some?
    ensures Length(s).Some? && Get32From(s, result, bitpos).value.rest == s[Length(s).value..]
  {
    hide Or, Shl, Low32;
    if s[0] >= 128 {
      var result' := if bitpos >= 32 then result else Or(result, Low32(Shl(s[0] % 128, bitpos)));
      Get32Stops(s[1..], result', (bitpos + 7) % 256);
    }
  }

  /** Past the 32 bits nothing is added any more. */
  lemma {:induction false} LateGroups(s: seq<byte>, result: nat, bitpos: nat)
    requires Get32From(s, result, bitpos).Some? && Length(s).Some?
    requires 35 <= bitpos && bitpos + 7 * Length(s).value < 263
    ensures Get32From(s, result, bitpos).value.value == result
  {
    hide Or, Shl, Low32;
    if s[0] >= 128 {
      LateGroups(s[1..], result, bitpos + 7);
    }
  }

  /** m is its low group c and more: the group is kept whole below the fifth. */
  lemma GroupWhole(m: nat, c: nat, more: nat, p: nat)
    requires Early(p) && p != 28 && c < 128 && m == c + 128 * more
    ensures Low32(Shl(c, p)) == Shl(c, p) && Shl(m, p) == Shl(c, p) + Shl(more, p + 7)
  {
    ShlAdd(c, 128 * more, p);
    ShlScale(more, p);
    Shl7(more, p);
    CutGroup(c, p);
    hide Shl, Low32, Early;
  }

  /** From the fifth group on only four bits remain of m. */
  lemma FifthGroup(m: nat, c: nat, more: nat, result: nat)
    requires c < 128 && m == c + 128 * more && result < Shl(1, 28)
    ensures Low32(result + Shl(m, 28)) == result + Low32(Shl(c, 28))
  {
    hide Shl, Low32;
    Shl28(1);
    Shl28(c);
    Shl28(m);
    FifthSum(m, c, more, result);
  }

  lemma FifthSum(m: nat, c: nat, more: nat, result: nat)
    requires c < 128 && m == c + 128 * more && result < 0x1000_0000
    ensures Low32(result + 0x1000_0000 * m) == result + Low32(0x1000_0000 * c)
  {
    hide Low32;
    TopGroup(c, more, result);
    TopGroup(c, 0, 0);
    var sum := result + 0x1000_0000 * c + 8 * TWO_32 * more;
    assert result + 0x1000_0000 * m == sum;
    assert 0 + 0x1000_0000 * c + 8 * TWO_32 * 0 == 0x1000_0000 * c;
  }

  lemma TopGroup(c: nat, more: nat, result: nat)
    requires c < 128 && result < 0x1000_0000
    ensures Low32(result + 0x1000_0000 * c + 8 * TWO_32 * more) == result + 0x1000_0000 * (c % 16)
  {
    var q, r := c / 16, c % 16;
    assert 0x1000_0000 * c == 0x1_0000_0000 * q + 0x1000_0000 * r;
    LowOf(q + 8 * more, result + 0x1000_0000 * r);
  }

  /** The groups from bit position p on are added, as far as they fit, if the counter does not wrap before the last. */
  lemma {:induction false} EarlyGroups(s: seq<byte>, result: nat, p: nat)
    requires Early(p) && result < Shl(1, p) && Get32From(s, result, p).Some?
    requires Length(s).Some? && p + 7 * Length(s).value < 263
    ensures Get32From(s, result, p).value.value == Low32(result + Shl(Number(s), p))
  {
    var c := if s[0] < 128 then s[0] else s[0] - 128;
    var more := if s[0] < 128 then 0 else Number(s[1..]);
    NumberTurn(s, c, more);
    hide Get32From, Number, Shl, Low32, Length, Early;
    Get32Turn(s, c, result, p);
    var sum := result + Low32(Shl(c, p));
    if p == 28 {
      FifthGroup(Number(s), c, more, result);
      if s[0] >= 128 {
        LateGroups(s[1..], sum, 35);
      }
    } else {
      GroupWhole(Number(s), c, more, p);
      EarlyNext(p);
      if s[0] >= 128 {
        EarlyGroups(s[1..], sum, p + 7);
      } else {
        ShlZero(p + 7);
        BelowTop(sum, p + 7);
      }
    }
  }

  lemma BelowTop(sum: nat, p: nat)
    requires Early(p) && sum < Shl(1, p)
    ensures Low32(sum) == sum
  {
    EarlyCases(p);
    Shl28(1);
    hide Shl;
  }

  lemma NumberTurn(s: seq<byte>, c: nat, more: nat)
    requires s != [] && Length(s).Some?
    requires if s[0] < 128 then c == s[0] && more == 0 else c + 128 == s[0] && more == Number(s[1..])
    ensures c < 128 && Number(s) == c + 128 * more
    ensures s[0] >= 128 ==> Length(s[1..]) == Some(Length(s).value - 1)
  {
    assert s[0] % 128 == c;
  }

  /** Of a number of at most 37 groups the 32-bit reader has the low 32 bits. */
  lemma LowBits(s: seq<byte>)
    requires Get32(s).Some? && Length(s).Some? && Length(s).value <= 37
    ensures Get32(s).value.value == Low32(Number(s))
  {
    var c := if s[0] < 128 then s[0] else s[0] - 128;
    var tail, more := s[1..], if s[0] < 128 then 0 else Number(s[1..]);
    NumberTurn(s, c, more);
    hide Number, Length, Low32;
    if s[0] >= 128 {
      GetFirst(s, c);
      hide Get32, Get32From, Shl;
      Shl28(1);
      Shl28(more);
      EarlyGroups(tail, c, 7);
    } else {
      LowSmall(s[0]);
    }
  }

  /** Whenever both readers take a number they stop at the same byte, and the 32-bit reader has its low 32 bits;
      negative numbers, whose high groups it skips, included. */
  lemma ReadersAgree(s: seq<byte>)
    requires Get32(s).Some? && Get64(s).Some?
    ensures Get32(s).value.rest == Get64(s).value.rest
    ensures Get32(s).value.value == Get64(s).value.value % TWO_32
  {
    LowOf64(Number(s));
    LowBits(s);
    if s[0] >= 128 {
      hide Get32From, Number, Length;
      Get32Stops(s[1..], s[0] % 128, 7);
    }
  }

  /** The loop on what is left of a number of five groups: it is taken just if it fits. */
  lemma {:induction false} FiveFrom(s: seq<byte>, result: nat, p: nat)
    requires Early(p) && result < Shl(1, p) && Length(s).Some? && p + 7 * Length(s).value <= 35
    ensures Get32From(s, result, p).Some? <==> result + Shl(Number(s), p) < TWO_32
  {
    var c := if s[0] < 128 then s[0] else s[0] - 128;
    var more := if s[0] < 128 then 0 else Number(s[1..]);
    NumberTurn(s, c, more);
    hide Get32From, Number, Shl, Low32, Length, Early;
    EarlyCases(p);
    Get32Turn(s, c, result, p);
    if s[0] >= 128 {
      GroupWhole(Number(s), c, more, p);
      EarlyNext(p);
      FiveFrom(s[1..], result + Shl(c, p), p + 7);
    } else {
      FiveLast(c, result, p);
    }
  }

  lemma FiveLast(c: nat, result: nat, p: nat)
    requires Early(p) && result < Shl(1, p) && c < 128
    ensures result + Shl(c, p) < TWO_32 <==> !(p == 28 && c >= 16)
  {
    EarlyCases(p);
    Shl28(1);
    Shl28(c);
    hide Shl;
  }

  /** Of the numbers of up to five groups the 32-bit reader takes exactly those below 2^32: "varint overflow". */
  lemma FitsExactly(s: seq<byte>)
    requires Length(s).Some? && Length(s).value <= 5
    ensures Get32(s).Some? <==> Number(s) < TWO_32
  {
    var c := if s[0] < 128 then s[0] else s[0] - 128;
    var tail, more := s[1..], if s[0] < 128 then 0 else Number(s[1..]);
    NumberTurn(s, c, more);
    hide Number, Length;
    if s[0] >= 128 {
      GetFirst(s, c);
      hide Get32, Get32From, Shl;
      Shl28(1);
      Shl28(more);
      FiveFrom(tail, c, 7);
    }
  }

  // Negative 32-bit numbers, as they are written in 64 bits.

  /** Above the 32 bits only the sign may come. */
  lemma SignTurn(s: seq<byte>, result: nat, p: nat)
    requires 32 <= p && result >= TWO_31
    ensures p < 63 ==> Get32From([255] + s, result, p) == Get32From(s, result, p + 7)
    ensures p == 63 ==> Get32From([1] + s, result, p) == Some(Read(result, s))
  {
    assert ([255] + s)[1..] == s == ([1] + s)[1..];
  }

  /** Four groups of ones, and the top bit. */
  lemma OnesAbove(result: nat, rest: seq<byte>)
    requires result >= TWO_31
    ensures Get32From(Put(0x1FFF_FFFF) + rest, result, 35) == Some(Read(result, rest))
  {
    PutMany(0x1FFF_FFFF, 127, 0x3F_FFFF, rest);
    PutMany(0x3F_FFFF, 127, 0x7FFF, rest);
    PutMany(0x7FFF, 127, 0xFF, rest);
    PutMany(0xFF, 127, 1, rest);
    assert Put(1) == [1];
    hide Put, Get32From;
    FirstIs(Put(0x1FFF_FFFF) + rest);
    FirstIs(Put(0x3F_FFFF) + rest);
    FirstIs(Put(0x7FFF) + rest);
    FirstIs(Put(0xFF) + rest);
    SignTurn(Put(0x3F_FFFF) + rest, result, 35);
    SignTurn(Put(0x7FFF) + rest, result, 42);
    SignTurn(Put(0xFF) + rest, result, 49);
    SignTurn([1] + rest, result, 56);
    SignTurn(rest, result, 63);
  }

  lemma FirstIs(s: seq<byte>)
    ensures s != [] ==> s == [s[0]] + s[1..]
  {
  }

  /** One group of a longer number; of the fifth only four bits count. */
  lemma GroupTaken(m: nat, c: nat, d: nat, rest: seq<byte>, result: nat, p: nat)
    requires c < 128 && d > 0 && m == c + 128 * d && Early(p) && result < Shl(1, p)
    ensures var sum := result + Shl(if p == 28 then c % 16 else c, p);
            Get32From(Put(m) + rest, result, p) == Get32From(Put(d) + rest, sum, p + 7) && sum < Shl(1, p + 7)
  {
    PutMany(m, c, d, rest);
    hide Shl, Low32, Get32From, Put, Early;
    Get32Turn(Put(m) + rest, c, result, p);
    CutGroup(c, p);
  }

  lemma SecondGroup(m: nat, c: nat, d: nat, rest: seq<byte>, result: nat)
    requires c < 128 && d > 0 && m == c + 128 * d && result < 0x80
    ensures Get32From(Put(m) + rest, result, 7) == Get32From(Put(d) + rest, result + 0x80 * c, 14)
  {
    Shl28(1);
    Shl28(c);
    hide Shl, Get32From, Put;
    GroupTaken(m, c, d, rest, result, 7);
  }

  lemma ThirdGroup(m: nat, c: nat, d: nat, rest: seq<byte>, result: nat)
    requires c < 128 && d > 0 && m == c + 128 * d && result < 0x4000
    ensures Get32From(Put(m) + rest, result, 14) == Get32From(Put(d) + rest, result + 0x4000 * c, 21)
  {
    Shl28(1);
    Shl28(c);
    hide Shl, Get32From, Put;
    GroupTaken(m, c, d, rest, result, 14);
  }

  lemma FourthGroup(m: nat, c: nat, d: nat, rest: seq<byte>, result: nat)
    requires c < 128 && d > 0 && m == c + 128 * d && result < 0x20_0000
    ensures Get32From(Put(m) + rest, result, 21) == Get32From(Put(d) + rest, result + 0x20_0000 * c, 28)
  {
    Shl28(1);
    Shl28(c);
    hide Shl, Get32From, Put;
    GroupTaken(m, c, d, rest, result, 21);
  }

  /** Of the fifth group of a negative number three bits are cut. */
  lemma FifthTaken(m: nat, c: nat, d: nat, rest: seq<byte>, result: nat)
    requires 8 <= c < 16 && d > 0 && m == c + 112 + 128 * d && result < 0x1000_0000
    ensures Get32From(Put(m) + rest, result, 28) == Get32From(Put(d) + rest, result + 0x1000_0000 * c, 35)
  {
    Shl28(1);
    Shl28(c);
    assert (c + 112) % 16 == c;
    hide Shl, Get32From, Put;
    GroupTaken(m, c + 112, d, rest, result, 28);
  }

  /** The first four groups of a number and the rest of it. */
  lemma FourGroups(w: nat) returns (c0: nat, c1: nat, c2: nat, c3: nat, c4: nat)
    ensures c0 < 128 && c1 < 128 && c2 < 128 && c3 < 128
    ensures w == c0 + 0x80 * c1 + 0x4000 * c2 + 0x20_0000 * c3 + 0x1000_0000 * c4
  {
    var d;
    c0, d := Groups(w);
    c1, d := Groups(d);
    c2, d := Groups(d);
    c3, c4 := Groups(d);
  }

  lemma FourTaken(c0: nat, c1: nat, c2: nat, c3: nat, m: nat, rest: seq<byte>)
    requires c0 < 128 && c1 < 128 && c2 < 128 && c3 < 128 && m > 0
    ensures var low := c0 + 0x80 * c1 + 0x4000 * c2 + 0x20_0000 * c3;
            low < 0x1000_0000 && Get32(Put(low + 0x1000_0000 * m) + rest) == Get32From(Put(m) + rest, low, 28)
  {
    var m3 := c3 + 128 * m;
    var m2 := c2 + 128 * m3;
    var m1 := c1 + 128 * m2;
    var n := c0 + 128 * m1;
    hide *;
    PutMany(n, c0, m1, rest);
    GetFirst(Put(n) + rest, c0);
    SecondGroup(m1, c1, m2, rest, c0);
    ThirdGroup(m2, c2, m3, rest, c0 + 0x80 * c1);
    FourthGroup(m3, c3, m, rest, c0 + 0x80 * c1 + 0x4000 * c2);
    assert n == c0 + 0x80 * c1 + 0x4000 * c2 + 0x20_0000 * c3 + 0x1000_0000 * m;
  }

  /** A negative number that was sign-extended to 64 bits is read as its 32 bits. */
  lemma NegativeRead(v: int, rest: seq<byte>)
    requires -TWO_31 <= v < 0
    ensures Get32(Put(v + TWO_64) + rest) == Some(Read(v + TWO_32, rest))
  {
    hide Get32, Get32From, Put, Shl;
    var c0, c1, c2, c3, c4 := FourGroups(v + TWO_32);
    var low := c0 + 0x80 * c1 + 0x4000 * c2 + 0x20_0000 * c3;
    var m := c4 + 112 + 128 * 0x1FFF_FFFF;
    FourTaken(c0, c1, c2, c3, m, rest);
    assert v + TWO_64 == low + 0x1000_0000 * m;
    assert 8 <= c4 < 16;
    FifthTaken(m, c4, 0x1FFF_FFFF, rest, low);
    OnesAbove(v + TWO_32, rest);
  }

  lemma LowOf64(x: nat)
    ensures x % TWO_64 % TWO_32 == Low32(x)
  {
    var q, r := x / TWO_64, x % TWO_64;
    var a, b := r / TWO_32, r % TWO_32;
    assert x == TWO_32 * (TWO_32 * q + a) + b;
    LowOf(TWO_32 * q + a, b);
  }

  /** The counter of bit positions wraps on an endless number: after 37 empty groups it fills in low bits again, and
      the 32-bit reader takes what the 64-bit reader refuses. */
  lemma LongNumberWraps()
    ensures Get32(Empty(37) + [1]) == Some(Read(8, []))
    ensures Get64(Empty(37) + [1]).None?
    ensures Length(Empty(37) + [1]) == Some(38) && Low32(Number(Empty(37) + [1])) == 0
  {
    EmptyLength(37);
    var q := EmptyNumber(37);
    LowOf(q, 0);
    assert Empty(37) + [1] == [128] + (Empty(36) + [1]);
    LastOne();
    assert (Empty(37) + [1])[1..] == Empty(36) + [1];
    hide *;
    GetFirst(Empty(37) + [1], 0);
    EmptyGroups(36, 7);
  }

  /** Of every number of at most n groups that the 32-bit reader takes, it has the low 32 bits. */
  ghost predicate AlwaysLow(n: nat) {
    forall s | Get32(s).Some? && Length(s).Some? && Length(s).value <= n :: Get32(s).value.value == Low32(Number(s))
  }

  /** The eight bits of the counter are enough for 37 groups, and for no more. */
  lemma CounterSuffices(n: nat)
    ensures AlwaysLow(n) <==> n <= 37
  {
    if n <= 37 {
      forall s | Get32(s).Some? && Length(s).Some? && Length(s).value <= n
        ensures Get32(s).value.value == Low32(Number(s))
      {
        LowBits(s);
      }
    } else {
      LongNumberWraps();
    }
  }

  /** The value of one bit behind empty groups; from the fifth on it is out of reach. */
  lemma {:induction false} EmptyNumber(n: nat) returns (q: nat)
    requires n >= 5
    ensures Number(Empty(n) + [1]) == TWO_32 * q
  {
    assert (Empty(n) + [1])[1..] == Empty(n - 1) + [1];
    if n == 5 {
      assert Number([1]) == 1;
      assert Empty(1) + [1] == [128] + (Empty(0) + [1]) && Empty(0) + [1] == [1];
      FirstEmpty(0);
      FirstEmpty(1);
      FirstEmpty(2);
      FirstEmpty(3);
      FirstEmpty(4);
      q := 8;
    } else {
      var r := EmptyNumber(n - 1);
      FirstEmpty(n - 1);
      q := 128 * r;
    }
  }

  lemma FirstEmpty(n: nat)
    ensures Number(Empty(n + 1) + [1]) == 128 * Number(Empty(n) + [1])
  {
    assert (Empty(n + 1) + [1])[1..] == Empty(n) + [1];
  }

  lemma LastOne()
    ensures Get32From([1], 0, 3) == Some(Read(8, []))
  {
    assert Shl(1, 3) == 8;
  }

  /** n groups without a bit set. */
  function Empty(n: nat): (s: seq<byte>)
    ensures |s| == n
  {
    if n == 0 then [] else [128] + Empty(n - 1)
  }

  lemma {:induction false} EmptyGroups(n: nat, bitpos: nat)
    requires bitpos < 256
    ensures Get32From(Empty(n) + [1], 0, bitpos) == Get32From([1], 0, (bitpos + 7 * n) % 256)
  {
    hide Get32From;
    EmptySplit(n);
    if n > 0 {
      EmptyTurn(Empty(n - 1) + [1], bitpos);
      EmptyGroups(n - 1, (bitpos + 7) % 256);
      Wrapped(bitpos + 7, 7 * (n - 1));
    }
  }

  lemma EmptySplit(n: nat)
    ensures Empty(n) + [1] == if n == 0 then [1] else [128] + (Empty(n - 1) + [1])
  {
  }

  lemma EmptyTurn(s: seq<byte>, bitpos: nat)
    ensures Get32From([128] + s, 0, bitpos) == Get32From(s, 0, (bitpos + 7) % 256)
  {
    assert ([128] + s)[1..] == s;
    ShlZero(bitpos);
    hide Shl;
  }

  lemma Wrapped(x: nat, y: nat)
    requires x < 512
    ensures (x % 256 + y) % 256 == (x + y) % 256
  {
  }

  lemma {:induction false} EmptyLength(n: nat)
    ensures Length(Empty(n) + [1]) == Some(n + 1)
  {
    if n > 0 {
      assert (Empty(n) + [1])[1..] == Empty(n - 1) + [1];
      EmptyLength(n - 1);
    }
  }

  // Zigzag numbers.

  /** The bits of a signed 64-bit number. */
  function Bits64(v: int): nat
    requires -TWO_63 <= v < TWO_63
  {
    if v < 0 then v + TWO_64 else v
  }

  /** pb_encode_svarint: the bits shifted left, inverted if the number is negative. */
  function Zigzag(v: int): (u: nat)
    requires -TWO_63 <= v < TWO_63
    ensures u < TWO_64
  {
    var shifted := 2 * Bits64(v) % TWO_64;
    if v < 0 then TWO_64 - 1 - shifted else shifted
  }

  /** pb_decode_svarint: the same backwards, and the bits read as a signed number. */
  function Unzigzag(u: nat): (v: int)
    requires u < TWO_64
    ensures -TWO_63 <= v < TWO_63
  {
    var bits := if u % 2 == 1 then TWO_64 - 1 - u / 2 else u / 2;
    if bits >= TWO_63 then bits - TWO_64 else bits
  }

  /** Zigzag numbers alternate in sign, so that small numbers of either sign are short. */
  lemma ZigzagAlternates(v: int)
    requires -TWO_63 <= v < TWO_63
    ensures Zigzag(v) == if v < 0 then -2 * v - 1 else 2 * v
  {
    if v < 0 {
      assert 2 * Bits64(v) == TWO_64 + (TWO_64 + 2 * v);
    }
  }

  /** Encoding and decoding are a bijection between the signed and the unsigned 64-bit numbers. */
  lemma ZigzagBijection(v: int, u: nat)
    requires -TWO_63 <= v < TWO_63 && u < TWO_64
    ensures Unzigzag(Zigzag(v)) == v && Zigzag(Unzigzag(u)) == u
  {
    ZigzagAlternates(v);
    ZigzagAlternates(Unzigzag(u));
  }
}
