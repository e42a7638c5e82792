/** The DTLS replay window (section 4.1.2.6 of RFC 6347; dtls_record.cc). Sequence numbers are the 64-bit
    values of a record's epoch and sequence number; the bitmap is a uint64_t. */
module ReplayWindow {
  import opened Bytes

  const WINDOW_SIZE := 64

  type u64 = x: int | 0 <= x < 0x1_0000_0000_0000_0000

  /** (m >> k) & 1, which is also m & (1 << k) != 0. */
  predicate Bit(m: nat, k: nat) {
    if k == 0 then m % 2 == 1 else Bit(m / 2, k - 1)
  }

  function Pow2(k: nat): (p: nat)
    ensures p >= 1
  {
    if k == 0 then 1 else 2 * Pow2(k - 1)
  }

  /** m << n in a uint64_t, one place at a time: the top bit falls off at each. */
  function Shl(m: u64, n: nat): u64 {
    if n == 0 then m else (2 * Shl(m, n - 1)) % TWO_64
  }

  /** m | (1 << k). */
  function SetBit(m: nat, k: nat): nat {
    if Bit(m, k) then m else m + Pow2(k)
  }

  lemma {:induction false} AddPow(x: nat, n: nat, k: nat)
    requires k < n
    ensures Bit(x + Pow2(n), k) == Bit(x, k)
  {
    assert x + Pow2(n) == x + 2 * Pow2(n - 1);
    if k > 0 {
      AddPow(x / 2, n - 1, k - 1);
      assert (x + Pow2(n)) / 2 == x / 2 + Pow2(n - 1);
    }
  }

  lemma {:induction false} SetBitAt(m: nat, i: nat, k: nat)
    ensures Bit(SetBit(m, i), k) <==> k == i || Bit(m, k)
  {
    if !Bit(m, i) && i > 0 {
      assert m + Pow2(i) == m + 2 * Pow2(i - 1);
      assert (m + Pow2(i)) / 2 == m / 2 + Pow2(i - 1);
      if k > 0 {
        SetBitAt(m / 2, i - 1, k - 1);
      }
    }
  }

  lemma {:induction false} SetBitBound(m: nat, k: nat, n: nat)
    requires k < n && m < Pow2(n)
    ensures SetBit(m, k) < Pow2(n)
  {
    if !Bit(m, k) && k > 0 {
      SetBitBound(m / 2, k - 1, n - 1);
      assert m + Pow2(k) == m + 2 * Pow2(k - 1);
    } else if !Bit(m, k) {
      assert Pow2(n) == 2 * Pow2(n - 1);
    }
  }

  lemma Pow2Values()
    ensures Pow2(63) == 0x8000_0000_0000_0000 && Pow2(64) == TWO_64
  {
    assert Pow2(8) == 256 * Pow2(0);
    assert Pow2(16) == 256 * Pow2(8);
    assert Pow2(24) == 256 * Pow2(16);
    assert Pow2(32) == 256 * Pow2(24);
    assert Pow2(40) == 256 * Pow2(32);
    assert Pow2(48) == 256 * Pow2(40);
    assert Pow2(56) == 256 * Pow2(48);
    assert Pow2(63) == 128 * Pow2(56);
  }

  lemma DoubleBit(x: u64, k: nat)
    requires k < 64
    ensures Bit((2 * x) % TWO_64, k) <==> k >= 1 && Bit(x, k - 1)
  {
    Pow2Values();
    if k > 0 && x >= Pow2(63) {
      AddPow(x - Pow2(63), 63, k - 1);
    }
  }

  lemma {:induction false} ShiftBit(m: u64, n: nat, k: nat)
    requires k < 64
    ensures Bit(Shl(m, n), k) <==> k >= n && Bit(m, k - n)
  {
    if n > 0 {
      DoubleBit(Shl(m, n - 1), k);
      if k > 0 {
        ShiftBit(m, n - 1, k - 1);
      }
    }
  }

  lemma {:induction false} ZeroBit(k: nat)
    ensures !Bit(0, k)
  {
    if k > 0 {
      ZeroBit(k - 1);
    }
  }

  /** DTLS1_BITMAP: bit k of the map stands for number max - k. */
  datatype Window = Window(bits: u64, max: u64)

  const EmptyWindow := Window(0, 0)

  /** dtls1_bitmap_should_discard. */
  predicate ShouldDiscard(w: Window, s: u64) {
    if s > w.max then false
    else
      var idx := w.max - s;
      idx >= WINDOW_SIZE || Bit(w.bits, idx)
  }

  /** dtls1_bitmap_record. */
  function Record(w: Window, s: u64): Window {
    var slid :=
      if s > w.max then
        var shift := s - w.max;
        Window(if shift >= WINDOW_SIZE then 0 else Shl(w.bits, shift), s)
      else w;
    var idx := slid.max - s;
    if idx < WINDOW_SIZE then slid.(bits := SetBit64(slid.bits, idx)) else slid
  }

  function SetBit64(m: u64, k: nat): u64
    requires k < WINDOW_SIZE
  {
    Pow2Values();
    SetBitBound(m, k, 64);
    SetBit(m, k)
  }

  /** The window knows exactly which of the last 64 numbers have been recorded. */
  ghost predicate Tracks(w: Window, seen: set<u64>) {
    && (forall s | s in seen :: s <= w.max)
    && (forall k: nat | k < WINDOW_SIZE && k <= w.max :: Bit(w.bits, k) <==> w.max - k in seen)
  }

  /** should_discard refuses exactly the stale numbers and the recorded ones. */
  lemma DiscardIff(w: Window, seen: set<u64>, s: u64)
    requires Tracks(w, seen)
    ensures ShouldDiscard(w, s) <==> s <= w.max && (w.max - s >= WINDOW_SIZE || s in seen)
  {
    if s <= w.max && w.max - s < WINDOW_SIZE {
      assert w.max - (w.max - s) == s;
    }
  }

  /** What is not discarded has not been recorded. */
  lemma AcceptsFresh(w: Window, seen: set<u64>, s: u64)
    requires Tracks(w, seen) && !ShouldDiscard(w, s)
    ensures s !in seen
  {
    DiscardIff(w, seen, s);
  }

  lemma EmptyTracks()
    ensures Tracks(EmptyWindow, {})
  {
    forall k: nat | k < WINDOW_SIZE ensures !Bit(0, k) {
      ZeroBit(k);
    }
  }

  lemma EmptyAccepts()
    ensures !ShouldDiscard(EmptyWindow, 0)
  {
    ZeroBit(0);
  }

  lemma RecordTracks(w: Window, seen: set<u64>, s: u64)
    requires Tracks(w, seen) && !ShouldDiscard(w, s)
    ensures Tracks(Record(w, s), seen + {s})
    ensures Record(w, s).max == if s > w.max then s else w.max
  {
    var w' := Record(w, s);
    forall k: nat | k < WINDOW_SIZE && k <= w'.max
      ensures Bit(w'.bits, k) <==> w'.max - k in seen + {s}
    {
      if s > w.max {
        RecordNewMax(w, seen, s, k);
      } else {
        SetBitAt(w.bits, w.max - s, k);
      }
    }
  }

  lemma RecordNewMax(w: Window, seen: set<u64>, s: u64, k: nat)
    requires Tracks(w, seen) && s > w.max && k < WINDOW_SIZE && k <= s
    ensures Bit(Record(w, s).bits, k) <==> s - k in seen + {s}
  {
    var shift := s - w.max;
    var m: u64 := if shift >= WINDOW_SIZE then 0 else Shl(w.bits, shift);
    SetBitAt(m, 0, k);
    if k != 0 {
      assert s - k != s;
      if shift >= WINDOW_SIZE {
        ZeroBit(k);
        assert s - k > w.max;
      } else {
        ShiftBit(w.bits, shift, k);
        if k >= shift {
          assert w.max - (k - shift) == s - k;
        } else {
          assert s - k > w.max;
        }
      }
    }
  }

  /** A receiver's run: each offered number is discarded, or accepted and recorded. */
  datatype Run = Run(window: Window, accepted: seq<u64>)

  function Receive(offered: seq<u64>): Run {
    if offered == [] then Run(EmptyWindow, [])
    else
      var before := Receive(offered[..|offered| - 1]);
      var s := offered[|offered| - 1];
      if ShouldDiscard(before.window, s) then before
      else Run(Record(before.window, s), before.accepted + [s])
  }

  ghost predicate Distinct(xs: seq<u64>) {
    forall i, j | 0 <= i < j < |xs| :: xs[i] != xs[j]
  }

  function Elems(xs: seq<u64>): set<u64> {
    set x | x in xs
  }

  lemma AppendElems(xs: seq<u64>, x: u64)
    ensures Elems(xs + [x]) == Elems(xs) + {x}
  {
  }

  function Max(xs: seq<u64>): u64 {
    if xs == [] then 0
    else
      var m := Max(xs[..|xs| - 1]);
      if xs[|xs| - 1] > m then xs[|xs| - 1] else m
  }

  lemma {:induction false} RunTracks(offered: seq<u64>)
    ensures var r := Receive(offered);
            && Distinct(r.accepted)
            && r.window.max == Max(r.accepted)
            && Tracks(r.window, Elems(r.accepted))
  {
    if offered == [] {
      ZeroBit(0);
    } else {
      var before := Receive(offered[..|offered| - 1]);
      var s := offered[|offered| - 1];
      RunTracks(offered[..|offered| - 1]);
      if !ShouldDiscard(before.window, s) {
        AcceptTracks(before, s);
      }
    }
  }

  lemma AcceptTracks(before: Run, s: u64)
    requires Distinct(before.accepted) && before.window.max == Max(before.accepted)
    requires Tracks(before.window, Elems(before.accepted)) && !ShouldDiscard(before.window, s)
    ensures Distinct(before.accepted + [s]) && Record(before.window, s).max == Max(before.accepted + [s])
    ensures Tracks(Record(before.window, s), Elems(before.accepted + [s]))
  {
    var seen := Elems(before.accepted);
    RecordTracks(before.window, seen, s);
    DiscardIff(before.window, seen, s);
    AppendElems(before.accepted, s);
    assert s !in seen;
    assert (before.accepted + [s])[..|before.accepted|] == before.accepted;
  }

  /** Over every run from a zeroed bitmap, the 64-bit map behaves like the full set of accepted numbers:
      nothing is accepted twice, and a number is refused only if it was accepted or is 64 behind. */
  lemma ReplayExact(offered: seq<u64>, s: u64)
    ensures var r := Receive(offered);
            && Distinct(r.accepted)
            && (ShouldDiscard(r.window, s) <==>
                  s <= Max(r.accepted) && (Max(r.accepted) - s >= 64 || s in r.accepted))
  {
    var r := Receive(offered);
    RunTracks(offered);
    DiscardIff(r.window, Elems(r.accepted), s);
  }

  /** The bitmap a DTLS connection keeps, with the set of numbers it has let through this epoch. */
  class Bitmap {
    var window: Window
    ghost var seen: set<u64>

    ghost predicate Valid()
      reads this
    {
      Tracks(window, seen)
    }

    constructor ()
      ensures Valid() && seen == {} && window == EmptyWindow
    {
      window, seen := EmptyWindow, {};
      new;
      EmptyTracks();
    }

    method ShouldDiscardNumber(s: u64) returns (discard: bool)
      requires Valid()
      ensures discard == ShouldDiscard(window, s)
      ensures discard <==> s <= window.max && (window.max - s >= WINDOW_SIZE || s in seen)
    {
      DiscardIff(window, seen, s);
      if s > window.max {
        return false;
      }
      var idx := window.max - s;
      return idx >= WINDOW_SIZE || Bit(window.bits, idx);
    }

    method RecordNumber(s: u64)
      requires Valid() && (s > window.max || (window.max - s < WINDOW_SIZE && s !in seen))
      modifies this
      ensures Valid() && seen == old(seen) + {s} && window == Record(old(window), s)
      ensures window.max == if s > old(window.max) then s else old(window.max)
    {
      DiscardIff(window, seen, s);
      RecordTracks(window, seen, s);
      seen := seen + {s};
      if s > window.max {
        var shift := s - window.max;
        window := Window(if shift >= WINDOW_SIZE then 0 else Shl(window.bits, shift), s);
      }
      var idx := window.max - s;
      if idx < WINDOW_SIZE {
        window := window.(bits := SetBit64(window.bits, idx));
      }
    }
  }
}
