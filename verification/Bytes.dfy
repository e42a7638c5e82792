/** Bytes, the big-endian integers of the TLS and DTLS wire formats, and little-endian ones. */
module Bytes {

  type byte = x: int | 0 <= x < 256

  const TWO_64 := 0x1_0000_0000_0000_0000

  datatype Option<+T> = None | Some(value: T)

  /** { a, a + 1, ..., b - 1 } */
  function Range(a: nat, b: nat): (r: set<nat>)
    ensures forall i: nat :: i in r <==> a <= i < b
  {
    if b <= a then {} else Range(a, b - 1) + {b - 1}
  }

  /** The n low-order bytes of x, most significant first. */
  function PutBe(x: nat, n: nat): (s: seq<byte>)
    ensures |s| == n
  {
    if n == 0 then [] else PutBe(x / 256, n - 1) + [x % 256]
  }

  /** The value of a big-endian byte string. */
  function GetBe(s: seq<byte>): nat {
    if s == [] then 0 else GetBe(s[..|s| - 1]) * 256 + s[|s| - 1]
  }

  function Pow256(n: nat): (p: nat)
    ensures p >= 1
  {
    if n == 0 then 1 else 256 * Pow256(n - 1)
  }

  lemma {:induction false} GetPut(x: nat, n: nat)
    requires x < Pow256(n)
    ensures GetBe(PutBe(x, n)) == x
  {
    if n > 0 {
      GetPut(x / 256, n - 1);
      var s := PutBe(x, n);
      assert s[..|s| - 1] == PutBe(x / 256, n - 1);
    }
  }

  lemma {:induction false} GetBound(s: seq<byte>)
    ensures GetBe(s) < Pow256(|s|)
  {
    if s != [] {
      GetBound(s[..|s| - 1]);
    }
  }

  lemma {:induction false} PutGet(s: seq<byte>)
    ensures PutBe(GetBe(s), |s|) == s
  {
    if s != [] {
      PutGet(s[..|s| - 1]);
      assert s == s[..|s| - 1] + [s[|s| - 1]];
    }
  }

  lemma Pow256Values()
    ensures Pow256(1) == 0x100
    ensures Pow256(2) == 0x1_0000
    ensures Pow256(3) == 0x100_0000
    ensures Pow256(6) == 0x1_0000_0000_0000
    ensures Pow256(8) == 0x1_0000_0000_0000_0000
  {
    assert Pow256(4) == 256 * Pow256(3);
    assert Pow256(6) == 256 * (256 * Pow256(4));
    assert Pow256(8) == 256 * (256 * Pow256(6));
  }

  /** The n low-order bytes of x, the lowest first. */
  function PutLe(x: nat, n: nat): (s: seq<byte>)
    ensures |s| == n
  {
    if n == 0 then [] else [x % 256] + PutLe(x / 256, n - 1)
  }

  function GetLe(s: seq<byte>): nat {
    if s == [] then 0 else s[0] + 256 * GetLe(s[1..])
  }

  lemma {:induction false} GetPutLe(x: nat, n: nat)
    requires x < Pow256(n)
    ensures GetLe(PutLe(x, n)) == x
  {
    if n > 0 {
      GetPutLe(x / 256, n - 1);
    }
  }
}
