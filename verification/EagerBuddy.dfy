/**
 * The control-plane buddy allocator: blocks of whole powers of two, merged with their free buddies
 * as soon as they are returned.
 */
module EagerBuddy {
  import opened Options
  import opened BuddyMath
  import opened BuddyBlocks
  import opened IndexLists
  import opened BuddyCore

  const MAX_ORDER: nat := 17

  /** No two free buddies of equal order, below the top order, coexist. */
  ghost predicate Merged(blocks: Blocks) {
    forall k :: 0 <= k < MAX_ORDER - 1 ==> NoPairs(blocks, k)
  }

  ghost predicate Settled(b: PageTable)
    reads b, b.lists, b.lists.next, b.lists.prev, b.lists.heads
  {
    b.Valid() && |b.lists.lists| == MAX_ORDER && Merged(b.blocks)
  }

  /** Some aligned run of order `o` is free. */
  ghost predicate HasRun(pages: nat, own: Owner, o: nat) {
    exists x :: 0 <= x && x + P(o) <= pages && FreeRun(own, x, o)
  }

  /** A free run is part of a listed block, since no two free buddies coexist. */
  lemma RunIsListed(pages: nat, lists: Lists, order: seq<nat>, blocks: Blocks, own: Owner, o: nat)
    requires Core(pages, lists, order, blocks, own) && |lists| == MAX_ORDER && Merged(blocks)
    requires o < MAX_ORDER && HasRun(pages, own, o)
    ensures exists i :: o <= i < MAX_ORDER && lists[i] != []
  {
    var x :| 0 <= x && x + P(o) <= pages && FreeRun(own, x, o);
    RunInBlock(pages, MAX_ORDER, blocks, own, x, o);
    assert lists[blocks[own[x]]] != [];
  }

  lemma TakenIsRun(pages: nat, own: Owner, own': Owner, idx: nat, o: nat)
    requires Aligned(idx, o) && idx + P(o) <= pages && Shrinks(own, own', idx, P(o))
    ensures HasRun(pages, own, o)
  {
    assert FreeRun(own, idx, o);
  }

  /** Takes a whole block of the rounded size; it fails only if no aligned run of that size is free. */
  method AllocBlock(b: PageTable, n: nat) returns (r: Option<nat>)
    requires Settled(b)
    modifies b, b.lists, b.lists.next, b.lists.prev, b.lists.heads
    ensures Settled(b) && |b.free| == old(|b.free|)
    ensures r.Some? <==> n > 0 && CeilLog(n) < MAX_ORDER && HasRun(|b.free|, old(b.own), CeilLog(n))
    ensures r.None? ==> b.own == old(b.own)
    ensures r.Some? ==> && Aligned(r.value, CeilLog(n)) && r.value + P(CeilLog(n)) <= |b.free|
                        && Shrinks(old(b.own), b.own, r.value, P(CeilLog(n)))
  {
    hide Core, Linked, Unique, Aligned, P, Shrinks, Vacant, MarkedOutside, NoPairs, HasRun;
    if n == 0 {
      return None;
    }
    var o := CeilLog(n);
    if o >= MAX_ORDER {
      return None;
    }
    if HasRun(|b.free|, b.own, o) {
      RunIsListed(|b.free|, b.lists.lists, b.order, b.blocks, b.own, o);
    }
    r := b.TakeBlock(o);
    if r.Some? {
      TakenIsRun(|b.free|, old(b.own), b.own, r.value, o);
      b.MarkRange(r.value, P(o), false);
      TakenBlock(old(b.free), b.free, old(b.own), b.own, r.value, P(o));
    }
  }

  lemma TakenBlock(free: seq<bool>, free': seq<bool>, own: Owner, own': Owner, idx: nat, n: nat)
    requires MarkedOutside(free, own, 0, 0) && Shrinks(own, own', idx, n) && |free'| == |free|
    requires forall p :: 0 <= p < |free| ==> free'[p] == if idx <= p < idx + n then false else free[p]
    ensures MarkedOutside(free', own', 0, 0)
  {
  }

  /** While a returned block grows: the free pages are those of the lists and those of the block. */
  ghost predicate Growing(free: seq<bool>, own0: Owner, own: Owner, idx: nat, n: nat, cur: nat, m: nat) {
    && Vacant(own, cur, m)
    && (forall p :: (p in own || cur <= p < cur + m) <==> (p in own0 || idx <= p < idx + n))
    && (forall p :: 0 <= p < |free| ==> (free[p] <==> p in own || cur <= p < cur + m))
  }

  lemma GrowingStart(free: seq<bool>, free': seq<bool>, own: Owner, idx: nat, n: nat)
    requires MarkedOutside(free, own, 0, 0) && Vacant(own, idx, n) && |free'| == |free|
    requires forall p :: 0 <= p < |free| ==> free'[p] == if idx <= p < idx + n then true else free[p]
    ensures Growing(free', own, own, idx, n, idx, n)
  {
  }

  lemma GrowingStep(free: seq<bool>, own0: Owner, own: Owner, own': Owner, idx: nat, n: nat, cur: nat, o: nat)
    requires Growing(free, own0, own, idx, n, cur, P(o)) && Aligned(cur, o)
    requires Shrinks(own, own', Buddy(cur, o), P(o))
    ensures var m := if Buddy(cur, o) < cur then Buddy(cur, o) else cur;
      Aligned(m, o + 1) && Growing(free, own0, own', idx, n, m, P(o + 1))
  {
    BuddyHalves(cur, o);
    hide Buddy, Floor, Aligned, Shift;
  }

  lemma GrowingDone(free: seq<bool>, own0: Owner, own: Owner, own': Owner, idx: nat, n: nat, cur: nat, m: nat)
    requires Growing(free, own0, own, idx, n, cur, m) && Extends(own, own', cur, m) && Vacant(own0, idx, n)
    ensures Grows(own0, own', idx, n) && MarkedOutside(free, own', 0, 0)
  {
  }

  /** The test of the merge loop is exact for the growing block, which is in no list. */
  lemma GrowTest(pages: nat, lists: Lists, order: seq<nat>, free: seq<bool>, blocks: Blocks, own0: Owner, own: Owner,
                 idx: nat, n: nat, cur: nat, o: nat)
    requires Core(pages, lists, order, blocks, own) && |free| == pages && Aligned(cur, o)
    requires Growing(free, own0, own, idx, n, cur, P(o))
    ensures var g := Buddy(cur, o);
      (g < pages && g < |order| && free[g] && order[g] == o) <==> (g in blocks && blocks[g] == o)
  {
    var g := Buddy(cur, o);
    BuddyHalves(cur, o);
    VacantBuddyTest(pages, |lists|, blocks, own, cur, o);
    if g in blocks { assert BlockOk(pages, |lists|, own, g, blocks[g]); }
  }

  /** Returns a block and merges it with its buddy as long as that is free too. */
  method FreeBlock(b: PageTable, idx: nat, o: nat)
    requires Settled(b) && o < MAX_ORDER && Aligned(idx, o) && idx + P(o) <= |b.free| && Vacant(b.own, idx, P(o))
    modifies b, b.lists, b.lists.next, b.lists.prev, b.lists.heads
    ensures Settled(b) && |b.free| == old(|b.free|) && Grows(old(b.own), b.own, idx, P(o))
  {
    hide Core, Linked, Unique, Aligned, P, Shrinks, Vacant, MarkedOutside, NoPairs, Growing, Extends, Grows, AddOwn,
      DropOwn, Buddy;
    ghost var own0 := b.own;
    b.MarkRange(idx, P(o), true);
    GrowingStart(old(b.free), b.free, own0, idx, P(o));
    var cur: nat, k: nat := idx, o;
    while k + 1 < MAX_ORDER
      invariant b.Sound() && |b.lists.lists| == MAX_ORDER && |b.free| == old(|b.free|) && Merged(b.blocks)
      invariant k < MAX_ORDER && Aligned(cur, k) && cur + P(k) <= |b.free|
      invariant Growing(b.free, own0, b.own, idx, P(o), cur, P(k))
      decreases MAX_ORDER - k
    {
      var g := Buddy(cur, k);
      GrowTest(|b.free|, b.lists.lists, b.order, b.free, b.blocks, own0, b.own, idx, P(o), cur, k);
      if !(g < |b.free| && b.free[g] && b.order[g] == k) {
        break;
      }
      ghost var own1, blocks1 := b.own, b.blocks;
      BlockEnd(|b.free|, b.lists.lists, b.order, b.blocks, b.own, g, cur, k);
      b.RemoveBlock(g);
      GrowingStep(b.free, own0, own1, b.own, idx, P(o), cur, k);
      StillMerged(blocks1, g);
      cur := if g < cur then g else cur;
      k := k + 1;
    }
    ghost var own1, blocks1 := b.own, b.blocks;
    GrowingVacant(b.free, own0, own1, idx, P(o), cur, P(k));
    if k + 1 < MAX_ORDER {
      GrowTest(|b.free|, b.lists.lists, b.order, b.free, b.blocks, own0, b.own, idx, P(o), cur, k);
    }
    b.PushBlock(cur, k);
    GrowingDone(b.free, own0, own1, b.own, idx, P(o), cur, P(k));
    PushedMerged(blocks1, cur, k);
  }

  lemma GrowingVacant(free: seq<bool>, own0: Owner, own: Owner, idx: nat, n: nat, cur: nat, m: nat)
    requires Growing(free, own0, own, idx, n, cur, m)
    ensures Vacant(own, cur, m)
  {
  }

  lemma BlockEnd(pages: nat, lists: Lists, order: seq<nat>, blocks: Blocks, own: Owner, g: nat, cur: nat, k: nat)
    requires Core(pages, lists, order, blocks, own) && g in blocks && blocks[g] == k
    requires Aligned(cur, k) && g == Buddy(cur, k) && cur + P(k) <= pages
    ensures (if g < cur then g else cur) + P(k + 1) <= pages
  {
    assert BlockOk(pages, |lists|, own, g, k);
    BuddyHalves(cur, k);
  }

  lemma StillMerged(blocks: Blocks, g: nat)
    requires Merged(blocks)
    ensures Merged(blocks - {g})
  {
    forall k | 0 <= k < MAX_ORDER - 1 ensures NoPairs(blocks - {g}, k) {
      DropNoPairs(blocks, g, k);
    }
  }

  lemma PushedMerged(blocks: Blocks, h: nat, o: nat)
    requires Merged(blocks) && h !in blocks && Aligned(h, o)
    requires o + 1 < MAX_ORDER ==> !(Buddy(h, o) in blocks && blocks[Buddy(h, o)] == o)
    ensures Merged(blocks[h := o])
  {
    var blocks' := blocks[h := o];
    forall k | 0 <= k < MAX_ORDER - 1 ensures NoPairs(blocks', k) {
      AddNoPairs(blocks, h, o, k);
    }
  }

  /** A new chunk: every page free, in one block of the top order. */
  method NewChunk() returns (b: PageTable)
    ensures fresh(b) && fresh(b.lists) && fresh(b.lists.next) && fresh(b.lists.prev) && fresh(b.lists.heads)
    ensures Settled(b) && |b.free| == P(MAX_ORDER - 1)
    ensures forall p :: 0 <= p < |b.free| ==> p in b.own
  {
    hide P;
    b := new PageTable(P(MAX_ORDER - 1), MAX_ORDER);
    AlignedZero(MAX_ORDER - 1);
    NothingMerged(b.blocks);
    FreeBlock(b, 0, MAX_ORDER - 1);
  }

  lemma NothingMerged(blocks: Blocks)
    requires blocks == map[]
    ensures Merged(blocks)
  {
  }

  /** An allocation and its release leave the same pages free, and no two free buddies, as before. */
  method AllocThenFree(b: PageTable, n: nat) returns (r: Option<nat>)
    requires Settled(b)
    modifies b, b.lists, b.lists.next, b.lists.prev, b.lists.heads
    ensures Settled(b) && b.own.Keys == old(b.own.Keys)
    ensures r.Some? <==> n > 0 && CeilLog(n) < MAX_ORDER && HasRun(old(|b.free|), old(b.own), CeilLog(n))
  {
    hide P, Aligned, HasRun, Merged, Core;
    r := AllocBlock(b, n);
    if r.Some? {
      FreeBlock(b, r.value, CeilLog(n));
      assert forall p :: p in b.own.Keys <==> p in old(b.own).Keys;
    }
  }

  /** When every page of a chunk is free again, a single top-order block is left. */
  lemma AllFreeIsOneBlock(b: PageTable)
    requires Settled(b) && |b.free| == P(MAX_ORDER - 1)
    requires forall p :: 0 <= p < |b.free| ==> b.free[p]
    ensures b.blocks == map[0 := MAX_ORDER - 1]
  {
    AlignedZero(MAX_ORDER - 1);
    OneBlockLeft(|b.free|, b.lists.lists, b.order, b.free, b.blocks, b.own);
  }

  lemma OneBlockLeft(pages: nat, lists: Lists, order: seq<nat>, free: seq<bool>, blocks: Blocks, own: Owner)
    requires Core(pages, lists, order, blocks, own) && MarkedOutside(free, own, 0, 0) && |free| == pages
    requires |lists| == MAX_ORDER && Merged(blocks) && pages == P(MAX_ORDER - 1)
    requires forall p :: 0 <= p < |free| ==> free[p]
    ensures blocks == map[0 := MAX_ORDER - 1]
  {
    hide P;
    AlignedZero(MAX_ORDER - 1);
    assert FreeRun(own, 0, MAX_ORDER - 1);
    RunInBlock(pages, MAX_ORDER, blocks, own, 0, MAX_ORDER - 1);
    Owned(pages, MAX_ORDER, blocks, own, 0);
    assert BlockOk(pages, MAX_ORDER, own, 0, MAX_ORDER - 1);
    forall h | h in blocks ensures h == 0 {
      assert BlockOk(pages, MAX_ORDER, own, h, blocks[h]);
      assert own[h] == h;
    }
  }
}
