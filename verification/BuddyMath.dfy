/**
 * Page numbers, orders and buddies. Shifting by an order names the block of that order a page is
 * in; the bit operations of the allocators are written out on that basis.
 */
module BuddyMath {

  /** Pages in a block of order `o`. */
  function P(o: nat): (n: nat)
    ensures n > 0
  {
    if o == 0 then 1 else 2 * P(o - 1)
  }

  /** `p >> o`. */
  function Shift(p: nat, o: nat): nat
    decreases o
  {
    if o == 0 then p else Shift(p / 2, o - 1)
  }

  /** The low `o` bits of `h` are zero. */
  predicate Aligned(h: nat, o: nat)
    decreases o
  {
    o == 0 || (h % 2 == 0 && Aligned(h / 2, o - 1))
  }

  /** `h ^ (1 << o)`. */
  function Buddy(h: nat, o: nat): nat
    decreases o
  {
    if o == 0 then (if h % 2 == 0 then h + 1 else h - 1) else 2 * Buddy(h / 2, o - 1) + h % 2
  }

  /** `h & ~((1 << o) - 1)`. */
  function Floor(h: nat, o: nat): nat
    decreases o
  {
    if o == 0 then h else 2 * Floor(h / 2, o - 1)
  }

  /** Position of the highest set bit. */
  function FloorLog(n: nat): (k: nat)
    requires n > 0
    ensures P(k) <= n < 2 * P(k)
  {
    if n == 1 then 0 else FloorLog(n / 2) + 1
  }

  /** The smallest order whose block has at least `n` pages. */
  function CeilLog(n: nat): (k: nat)
    ensures n <= P(k) && (k > 0 ==> P(k - 1) < n)
  {
    if n <= 1 then 0 else FloorLog(n - 1) + 1
  }

  /** Number of trailing zero bits. */
  function TrailingZeros(n: nat): (k: nat)
    requires n > 0
    ensures Aligned(n, k) && !Aligned(n, k + 1)
  {
    if n % 2 == 1 then 0 else TrailingZeros(n / 2) + 1
  }

  /** Shifting divides by the block size, and aligned means divisible. */
  lemma {:induction false} ShiftDivides(p: nat, o: nat)
    ensures Shift(p, o) * P(o) <= p < Shift(p, o) * P(o) + P(o)
    ensures Aligned(p, o) <==> p == Shift(p, o) * P(o)
    decreases o
  {
    if o > 0 {
      var q, n := Shift(p / 2, o - 1), P(o - 1);
      ShiftDivides(p / 2, o - 1);
      assert q * (2 * n) == 2 * (q * n);
    }
  }

  /** In an aligned block, having the same shift is lying in the range. */
  lemma {:induction false} ShiftIsRange(h: nat, o: nat, p: nat)
    requires Aligned(h, o)
    ensures Shift(p, o) == Shift(h, o) <==> h <= p < h + P(o)
    decreases o
  {
    if o > 0 { ShiftIsRange(h / 2, o - 1, p / 2); }
  }

  /** A block of a higher order that holds one page of a smaller one holds all of it. */
  lemma {:induction false} ShiftCoarser(p: nat, q: nat, o: nat, k: nat)
    requires o <= k && Shift(p, o) == Shift(q, o)
    ensures Shift(p, k) == Shift(q, k)
    decreases o
  {
    if o > 0 { ShiftCoarser(p / 2, q / 2, o - 1, k - 1); }
  }

  lemma {:induction false} AlignedFiner(h: nat, o: nat, k: nat)
    requires Aligned(h, o) && k <= o
    ensures Aligned(h, k)
    decreases k
  {
    if k > 0 { AlignedFiner(h / 2, o - 1, k - 1); }
  }

  lemma {:induction false} AlignedZero(o: nat)
    ensures Aligned(0, o)
  {
    if o > 0 { AlignedZero(o - 1); }
  }

  /** An aligned page that shares a block of order at most `o` with `h` below it is its head. */
  lemma {:induction false} FloorOf(h: nat, o: nat)
    ensures Aligned(Floor(h, o), o) && Shift(Floor(h, o), o) == Shift(h, o) && Floor(h, o) <= h
    decreases o
  {
    if o > 0 { FloorOf(h / 2, o - 1); }
  }

  lemma {:induction false} AlignedUnique(h: nat, g: nat, o: nat)
    requires Aligned(h, o) && Aligned(g, o) && Shift(h, o) == Shift(g, o)
    ensures h == g
    decreases o
  {
    if o > 0 { AlignedUnique(h / 2, g / 2, o - 1); }
  }

  lemma {:induction false} BuddyOf(h: nat, o: nat)
    requires Aligned(h, o)
    ensures Aligned(Buddy(h, o), o) && Buddy(h, o) != h && Shift(Buddy(h, o), o + 1) == Shift(h, o + 1)
    decreases o
  {
    if o > 0 {
      BuddyOf(h / 2, o - 1);
      var y := Buddy(h / 2, o - 1);
      assert Buddy(h, o) == 2 * y;
      ShiftDouble(y, o);
      assert Shift(h, o + 1) == Shift(h / 2, o);
    }
  }

  lemma ShiftDouble(y: nat, o: nat)
    requires o > 0
    ensures Shift(2 * y, o + 1) == Shift(y, o) && (Aligned(2 * y, o) <==> Aligned(y, o - 1))
  {
    assert 2 * y / 2 == y && 2 * y % 2 == 0;
  }

  lemma {:induction false} BuddyTwice(h: nat, o: nat)
    ensures Buddy(Buddy(h, o), o) == h
    decreases o
  {
    if o > 0 {
      var y := Buddy(h / 2, o - 1);
      BuddyTwice(h / 2, o - 1);
      var b := 2 * y + h % 2;
      assert Buddy(h, o) == b && b / 2 == y && b % 2 == h % 2;
      assert Buddy(b, o) == 2 * Buddy(y, o - 1) + b % 2;
    }
  }

  lemma {:induction false} FloorIsLower(h: nat, o: nat)
    requires Aligned(h, o)
    ensures var b, m := Buddy(h, o), Floor(h, o + 1);
      m == (if b < h then b else h) && m + P(o) == (if b < h then h else b)
    decreases o
  {
    if o == 0 {
      assert Floor(h, 1) == 2 * Floor(h / 2, 0);
    } else {
      FloorIsLower(h / 2, o - 1);
      assert Buddy(h, o) == 2 * Buddy(h / 2, o - 1);
      assert Floor(h, o + 1) == 2 * Floor(h / 2, o);
    }
  }

  /** A block and its buddy are the two halves of the block of the next order that holds them. */
  lemma BuddyHalves(h: nat, o: nat)
    requires Aligned(h, o)
    ensures var b, m := Buddy(h, o), Floor(h, o + 1);
      && Aligned(b, o) && Buddy(b, o) == h && b != h
      && Aligned(m, o + 1) && m == (if b < h then b else h) && m + P(o) == (if b < h then h else b)
      && Shift(b, o + 1) == Shift(h, o + 1)
  {
    FloorOf(h, o + 1);
    BuddyOf(h, o);
    BuddyTwice(h, o);
    FloorIsLower(h, o);
  }

  /** The two halves of an aligned block. */
  lemma {:induction false} SplitHalves(h: nat, o: nat)
    requires Aligned(h, o + 1)
    ensures Aligned(h, o) && Aligned(h + P(o), o) && Buddy(h, o) == h + P(o) && P(o + 1) == 2 * P(o)
    decreases o
  {
    AlignedFiner(h, o + 1, o);
    if o > 0 {
      var y, n := h / 2, P(o - 1);
      SplitHalves(y, o - 1);
      assert h == 2 * y && P(o) == 2 * n;
      ShiftDouble(y + n, o);
      assert Buddy(h, o) == 2 * Buddy(y, o - 1);
    }
  }

  lemma {:induction false} PMonotone(a: nat, b: nat)
    requires a <= b
    ensures P(a) <= P(b)
  {
    if a < b { PMonotone(a, b - 1); }
  }
}
