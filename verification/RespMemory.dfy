/**
 * What the parser asks the control-plane allocator for: the read buffer and the array of argument
 * places. Both double; a request that no chunk can hold is refused.
 */
module RespMemory {
  import opened BuddyMath
  import BuddyBlocks
  import EagerBuddy
  import Slab
  import SlabArena
  import SlabOps

  const NET_BUF: nat := 16
  const WORD: nat := 8

  /** The pages for this many bytes are no more than a chunk has. */
  predicate Granted(size: nat) {
    CeilLog(SlabOps.PagesNeeded(size)) < EagerBuddy.MAX_ORDER
  }

  lemma TopOrder()
    ensures P(12) == 4096 && P(15) == 0x8000 && P(16) == 0x1_0000
  {
    assert P(4) == 16 && P(8) == 16 * P(4);
    assert P(12) == 16 * P(8) && P(16) == 16 * P(12);
  }

  lemma OrderFits(n: nat)
    ensures CeilLog(n) < EagerBuddy.MAX_ORDER <==> n <= P(16)
  {
    hide CeilLog, P;
    var k := CeilLog(n);
    if k <= 16 { PMonotone(k, 16); } else { PMonotone(16, k - 1); }
  }

  lemma ClassesFit(c: nat)
    requires c < |Slab.SIZES|
    ensures Slab.PagesForSpan(Slab.Size(c)) <= 0x1_0000
  {
    var size := Slab.Size(c);
    assert size <= 65536;
    assert size * Slab.TargetSlots(size) <= 131072;
  }

  lemma LargeFits(size: nat)
    ensures Slab.PagesForLarge(size) <= 0x1_0000 <==> size + Slab.HEADER <= 0x1000_0000
  {
  }

  lemma NeededFits(size: nat)
    ensures SlabOps.PagesNeeded(size) <= 0x1_0000 <==> size + Slab.HEADER <= 0x1000_0000
  {
    hide Slab.ClassFrom, Slab.PagesForLarge, Slab.PagesForSpan;
    LargeFits(size);
    var cls := Slab.ClassFrom(size, 0);
    if cls.Some? {
      ClassesFit(cls.value);
      assert Slab.SIZES[cls.value] <= 65536;
    }
  }

  /** Granted is what fits into a chunk together with the header of a large allocation. */
  lemma GrantedUpTo(size: nat)
    ensures Granted(size) <==> size + Slab.HEADER <= 0x1000_0000
  {
    hide SlabOps.PagesNeeded, CeilLog, P;
    TopOrder();
    OrderFits(SlabOps.PagesNeeded(size));
    NeededFits(size);
  }

  /** The allocator meets a granted request if another chunk can be made, and never one that is not granted. */
  lemma GrantedIsMet(owns: seq<BuddyBlocks.Owner>, size: nat, mapped: bool)
    ensures !Granted(size) ==> !SlabArena.CanTake(owns, SlabOps.PagesNeeded(size), mapped)
    ensures (&& Granted(size) && size > 0 && |owns| < SlabArena.MAX_CHUNKS && mapped) ==>
              SlabArena.CanTake(owns, SlabOps.PagesNeeded(size), mapped)
  {
  }

  // ---------------------------------------------------------------- the array of argument places

  const ARGV_INIT: nat := 8
  const MAX_ARGS: nat := 0x100_0000

  /** The value that a signed 32-bit integer keeps of `x`. */
  function Wrap32(x: int): int {
    (x + 0x8000_0000) % 0x1_0000_0000 - 0x8000_0000
  }

  /** The capacity after `k` turns of the doubling loop. */
  function Doublings(cap: int, k: nat): int {
    if k == 0 then cap else Wrap32(2 * Doublings(cap, k - 1))
  }

  /** `1 << j` in a signed 32-bit integer. */
  function Power32(j: nat): int {
    if j <= 30 then P(j) else if j == 31 then -0x8000_0000 else 0
  }

  lemma MorePowers()
    ensures P(3) == ARGV_INIT && P(24) == MAX_ARGS && P(30) == 0x4000_0000
  {
    TopOrder();
    assert P(20) == 16 * P(16) && P(24) == 16 * P(20);
    assert P(28) == 16 * P(24) && P(30) == 4 * P(28);
  }

  lemma Power32Doubles(j: nat)
    ensures Wrap32(2 * Power32(j)) == Power32(j + 1)
  {
    MorePowers();
    if j < 30 { PMonotone(j + 1, 30); }
  }

  lemma {:induction false} DoublingsOf(j: nat, k: nat)
    requires j <= 30
    ensures Doublings(P(j), k) == Power32(j + k)
  {
    if k > 0 {
      DoublingsOf(j, k - 1);
      Power32Doubles(j + k - 1);
    }
  }

  /** Some turn of the loop reaches the count if and only if the count is at most 2^30. */
  lemma DoublingEnds(j: nat, needed: nat)
    requires j <= 30 && needed > 0
    ensures (exists k: nat :: Doublings(P(j), k) >= needed) <==> needed <= P(30)
  {
    MorePowers();
    DoublingsOf(j, 30 - j);
    forall k: nat | Doublings(P(j), k) >= needed ensures needed <= P(30) {
      DoublingsOf(j, k);
      if j + k <= 30 { PMonotone(j + k, 30); }
    }
  }

  function Doubled(cap: nat, needed: nat): (n: nat)
    requires cap > 0
    ensures n >= needed
    decreases needed - cap
  {
    if cap >= needed then cap else Doubled(2 * cap, needed)
  }

  /** Doubling a power of two stops at the first power that suffices. */
  lemma {:induction false} DoubledPower(j: nat, needed: nat) returns (i: nat)
    ensures i >= j && Doubled(P(j), needed) == P(i) && (i > j ==> P(i - 1) < needed)
    decreases needed - P(j)
  {
    i := j;
    if P(j) < needed { i := DoubledPower(j + 1, needed); }
  }

  datatype Space = Space(cap: nat) | Refused | Endless

  /** What asking for room for `needed` arguments comes to. */
  function Ensured(cap: nat, needed: nat): Space {
    if needed <= cap then Space(cap)
    else if needed > 0x4000_0000 then Endless
    else
      var n := Doubled(if cap == 0 then ARGV_INIT else 2 * cap, needed);
      if Granted(WORD * n) then Space(n) else Refused
  }

  ghost predicate ArgvCap(cap: nat) {
    cap == 0 || exists j :: 3 <= j <= 24 && cap == P(j)
  }

  lemma FirstPower(cap: nat) returns (j: nat)
    requires ArgvCap(cap)
    ensures 3 <= j <= 25 && P(j) == (if cap == 0 then ARGV_INIT else 2 * cap)
  {
    MorePowers();
    j := 3;
    if cap > 0 {
      var i :| 3 <= i <= 24 && cap == P(i);
      j := i + 1;
    }
  }

  lemma PowerReached(cap: nat, j: nat, needed: nat, i: nat)
    requires cap < needed <= P(i) && j <= i && j <= 25 && P(j) == (if cap == 0 then ARGV_INIT else 2 * cap)
    requires i > j ==> P(i - 1) < needed
    ensures i <= 24 <==> needed <= MAX_ARGS
    ensures i <= 24 <==> Granted(WORD * P(i))
  {
    MorePowers();
    GrantedUpTo(WORD * P(i));
    hide Granted;
    if i <= 24 {
      PMonotone(i, 24);
    } else {
      PMonotone(24, i - 1);
    }
  }

  /** Room is refused above 2^24 arguments, and above 2^30 the request does not even end. */
  lemma EnsuredWhen(cap: nat, needed: nat)
    requires ArgvCap(cap)
    ensures var s := Ensured(cap, needed);
      && (s.Space? <==> needed <= MAX_ARGS) && (s.Endless? <==> needed > 0x4000_0000)
      && (s.Space? ==> ArgvCap(s.cap) && cap <= s.cap && needed <= s.cap)
  {
    MorePowers();
    var j := FirstPower(cap);
    hide P, Granted;
    if cap > 0 {
      var i :| 3 <= i <= 24 && cap == P(i);
      PMonotone(i, 24);
    }
    if cap < needed <= 0x4000_0000 {
      var i := DoubledPower(j, needed);
      PowerReached(cap, j, needed, i);
    }
  }

  /** The loop on 32-bit integers. Zero doubles to zero: a loop that comes there does not end. */
  method DoublingLoop(cap: nat, needed: nat) returns (n: int)
    requires exists j: nat :: j <= 30 && cap == P(j)
    requires needed > 0
    ensures n == if needed > 0x4000_0000 then 0 else Doubled(cap, needed)
  {
    MorePowers();
    ghost var j: nat :| j <= 30 && cap == P(j);
    hide P;
    n := cap;
    while n < needed && n != 0
      invariant j <= 32 && n == Power32(j)
      invariant needed <= 0x4000_0000 ==> j <= 30 && Doubled(n, needed) == Doubled(cap, needed)
      decreases 32 - j
    {
      Power32Doubles(j);
      if j < 30 { PMonotone(j + 1, 30); }
      n := Wrap32(2 * n);
      j := j + 1;
    }
    if j <= 30 { PMonotone(j, 30); }
  }
}
