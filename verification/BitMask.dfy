/** The reassembly bitmask of a handshake message, read as a set of byte positions. */
module BitMask {
  import opened Bytes

  /** 1 << k in the 16 bits that the eight-bit shift needs. */
  function Pow(k: nat): bv16
    requires k <= 8
  {
    match k
    case 0 => 0x1
    case 1 => 0x2
    case 2 => 0x4
    case 3 => 0x8
    case 4 => 0x10
    case 5 => 0x20
    case 6 => 0x40
    case 7 => 0x80
    case 8 => 0x100
  }

  /** Whether bit k of b is set. */
  predicate Bit(b: bv8, k: nat)
    requires k < 8
  {
    (b as bv16) & Pow(k) != 0
  }

  /** bit_range: bits start (inclusive) to end (exclusive), truncated to a byte. */
  function BitRange(start: nat, end: nat): bv8
    requires start < 8 && end <= 8
  {
    ((!(Pow(start) - 1) & (Pow(end) - 1)) & 0xff) as bv8
  }

  lemma BitRangeBit(start: nat, end: nat, k: nat)
    requires start < 8 && end <= 8 && k < 8
    ensures Bit(BitRange(start, end), k) <==> start <= k < end
  {
  }

  lemma OrBit(a: bv8, b: bv8, k: nat)
    requires k < 8
    ensures Bit(a | b, k) <==> Bit(a, k) || Bit(b, k)
  {
  }

  lemma SameBits(a: bv8, b: bv8)
    requires forall k: nat | k < 8 :: Bit(a, k) == Bit(b, k)
    ensures a == b
  {
    assert Bit(a, 0) == Bit(b, 0) && Bit(a, 1) == Bit(b, 1) && Bit(a, 2) == Bit(b, 2) && Bit(a, 3) == Bit(b, 3);
    assert Bit(a, 4) == Bit(b, 4) && Bit(a, 5) == Bit(b, 5) && Bit(a, 6) == Bit(b, 6) && Bit(a, 7) == Bit(b, 7);
  }

  /** Position i of a mask of bytes. */
  predicate At(mask: seq<bv8>, i: nat)
    requires i < 8 * |mask|
  {
    Bit(mask[i / 8], i % 8)
  }

  /** The positions below n that are set. */
  ghost function Positions(mask: seq<bv8>, n: nat): (s: set<nat>)
    requires n <= 8 * |mask|
    ensures forall i: nat | i < 8 * |mask| :: i in s <==> i < n && At(mask, i)
    ensures forall i: nat | i in s :: i < n
  {
    set i | i in Range(0, n) && At(mask, i)
  }

  /** No position from n on is set. */
  ghost predicate TailClear(mask: seq<bv8>, n: nat) {
    forall i | n <= i < 8 * |mask| :: !At(mask, i)
  }

  /** or-ing bits [start, end) into byte j adds exactly positions 8*j+start to 8*j+end. */
  lemma OrRange(mask: seq<bv8>, j: nat, start: nat, end: nat, i: nat)
    requires j < |mask| && start < 8 && end <= 8 && i < 8 * |mask|
    ensures At(mask[j := mask[j] | BitRange(start, end)], i) <==> At(mask, i) || 8 * j + start <= i < 8 * j + end
  {
    OrBit(mask[j], BitRange(start, end), i % 8);
    BitRangeBit(start, end, i % 8);
  }

  lemma FullByte(b: bv8, k: nat)
    requires k < 8
    ensures b == 0xff ==> Bit(b, k)
  {
  }

  /** Byte j of a mask after positions start to end, which lie in different bytes, have been set. */
  function Filled(was: seq<bv8>, start: nat, end: nat, j: nat): bv8
    requires j < |was|
  {
    FilledByte(was[j], start / 8, start % 8, end / 8, end % 8, j)
  }

  function FilledByte(was: bv8, sj: nat, sk: nat, ej: nat, ek: nat, j: nat): bv8
    requires sk < 8 && ek < 8
  {
    if j == sj then was | BitRange(sk, 8)
    else if sj < j < ej then 0xff
    else if j == ej then was | BitRange(0, ek)
    else was
  }

  lemma FilledBit(was: bv8, sj: nat, sk: nat, ej: nat, ek: nat, j: nat, k: nat)
    requires sj < ej && sk < 8 && ek < 8 && k < 8
    ensures Bit(FilledByte(was, sj, sk, ej, ek, j), k) <==> Bit(was, k) || 8 * sj + sk <= 8 * j + k < 8 * ej + ek
  {
    if j == sj {
      OrBit(was, BitRange(sk, 8), k);
      BitRangeBit(sk, 8, k);
    } else if sj < j < ej {
      FullByte(0xff, k);
    } else if j == ej {
      OrBit(was, BitRange(0, ek), k);
      BitRangeBit(0, ek, k);
    }
  }

  lemma FilledAt(was: seq<bv8>, now: seq<bv8>, start: nat, end: nat, i: nat)
    requires |now| == |was| && start / 8 < end / 8 && i < 8 * |was|
    requires now[i / 8] == Filled(was, start, end, i / 8)
    ensures At(now, i) <==> At(was, i) || start <= i < end
  {
    FilledBit(was[i / 8], start / 8, start % 8, end / 8, end % 8, i / 8, i % 8);
  }

  lemma EmptyRange(b: bv8)
    ensures b | BitRange(0, 0) == b
  {
  }

  /** The two completeness tests of dtls1_hm_fragment_mark, as sets: every whole byte is 0xff and the
      last partial byte equals its bit range exactly when every position below n is set. */
  lemma {:induction false} CompleteIff(mask: seq<bv8>, n: nat)
    requires n > 0 && |mask| == (n + 7) / 8
    requires TailClear(mask, n)
    ensures ((forall j | 0 <= j < n / 8 :: mask[j] == 0xff)
             && (n % 8 != 0 ==> mask[n / 8] == BitRange(0, n % 8)))
       <==> (forall i | 0 <= i < n :: At(mask, i))
  {
    if forall i | 0 <= i < n :: At(mask, i) {
      forall j | 0 <= j < n / 8 ensures mask[j] == 0xff {
        forall k: nat | k < 8 ensures Bit(mask[j], k) == Bit(0xff, k) {
          assert At(mask, 8 * j + k);
          FullByte(0xff, k);
        }
        SameBits(mask[j], 0xff);
      }
      if n % 8 != 0 {
        forall k: nat | k < 8 ensures Bit(mask[n / 8], k) == Bit(BitRange(0, n % 8), k) {
          BitRangeBit(0, n % 8, k);
          var i := 8 * (n / 8) + k;
          assert i / 8 == n / 8 && i % 8 == k;
          assert At(mask, i) <==> i < n;
        }
        SameBits(mask[n / 8], BitRange(0, n % 8));
      }
    }
    if (forall j | 0 <= j < n / 8 :: mask[j] == 0xff) && (n % 8 != 0 ==> mask[n / 8] == BitRange(0, n % 8)) {
      forall i | 0 <= i < n ensures At(mask, i) {
        if i / 8 < n / 8 {
          FullByte(mask[i / 8], i % 8);
        } else {
          BitRangeBit(0, n % 8, i % 8);
        }
      }
    }
  }
}
