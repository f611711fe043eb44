/**
 * The data-plane buddy allocator: spans of any length, freed without merging; free buddies are
 * merged only when a request cannot be met otherwise.
 */
module LazyBuddy {
  import opened Options
  import opened BuddyMath
  import opened BuddyBlocks
  import opened IndexLists
  import opened BuddyCore

  const MAX_ORDER: nat := 21

  /** `n` is a power of two and `idx` a multiple of it. */
  predicate OneBlock(idx: nat, n: nat) {
    n > 0 && n == P(FloorLog(n)) && Aligned(idx, FloorLog(n))
  }

  /** The largest block that starts at `pos` and ends by `pos + left`. */
  function ChunkOrder(pos: nat, left: nat): (o: nat)
    requires left > 0
    ensures o < MAX_ORDER && Aligned(pos, o) && P(o) <= left
    ensures o + 1 < MAX_ORDER ==> !Aligned(pos, o + 1) || P(o + 1) > left
  {
    var size := FloorLog(left);
    var align := if pos == 0 then size else TrailingZeros(pos);
    var o := if size < align then size else align;
    var o' := if o >= MAX_ORDER then MAX_ORDER - 1 else o;
    assert Aligned(pos, o') && P(o') <= left by {
      if pos == 0 { AlignedZero(o'); } else { AlignedFiner(pos, align, o'); }
      PMonotone(o', size);
    }
    o'
  }

  /** The blocks with `left` pages from `pos` on added, each the largest that fits. */
  ghost function Tiled(blocks: Blocks, pos: nat, left: nat): Blocks
    decreases left
  {
    if left == 0 then blocks
    else var o := ChunkOrder(pos, left); Tiled(blocks[pos := o], pos + P(o), left - P(o))
  }

  lemma TiledStep(blocks: Blocks, pos: nat, left: nat)
    requires left > 0
    ensures var o := ChunkOrder(pos, left); Tiled(blocks, pos, left) == Tiled(blocks[pos := o], pos + P(o), left - P(o))
  {
    hide ChunkOrder;
  }

  lemma TiledDone(blocks: Blocks, pos: nat)
    ensures Tiled(blocks, pos, 0) == blocks
  {
  }

  /** The blocks after a span has been freed. */
  ghost function Freed(blocks: Blocks, idx: nat, n: nat): Blocks {
    if OneBlock(idx, n) then blocks[idx := FloorLog(n)] else Tiled(blocks, idx, n)
  }

  /**
   * The fast path has no bound on the order, unlike the general one: the order it computes is that of
   * a free list if and only if the span has fewer than 2^21 pages.
   */
  lemma FastPathIndex(idx: nat, n: nat)
    requires OneBlock(idx, n)
    ensures FloorLog(n) < MAX_ORDER <==> n < P(MAX_ORDER)
  {
    hide P;
    if FloorLog(n) < MAX_ORDER {
      PMonotone(FloorLog(n) + 1, MAX_ORDER);
      Doubles(FloorLog(n));
    } else {
      PMonotone(MAX_ORDER, FloorLog(n));
    }
  }

  lemma Doubles(o: nat)
    ensures P(o + 1) == 2 * P(o)
  {
  }

  /** The smallest span that the fast path would put into a list that does not exist. */
  lemma FastPathOverflows()
    ensures OneBlock(0, P(MAX_ORDER)) && FloorLog(P(MAX_ORDER)) == MAX_ORDER
  {
    hide P;
    var o := FloorLog(P(MAX_ORDER));
    if o < MAX_ORDER {
      PMonotone(o + 1, MAX_ORDER);
      Doubles(o);
    } else if o > MAX_ORDER {
      PMonotone(MAX_ORDER + 1, o);
      Doubles(MAX_ORDER);
    }
    AlignedZero(o);
  }

  /** Every span that was ever allocated is below the bound. */
  lemma AllocatedFits(n: nat)
    requires CeilLog(n) < MAX_ORDER
    ensures n < P(MAX_ORDER)
  {
    hide P;
    PMonotone(CeilLog(n) + 1, MAX_ORDER);
    Doubles(CeilLog(n));
  }

  lemma GrowsStep(own: Owner, own1: Owner, own2: Owner, idx: nat, done: nat, step: nat, left: nat)
    requires Grows(own, own1, idx, done) && Extends(own1, own2, idx + done, step)
    requires step <= left && Vacant(own1, idx + done, left)
    ensures Grows(own, own2, idx, done + step) && Vacant(own2, idx + done + step, left - step)
  {
  }

  /** Cuts the `n` pages from `idx` on into aligned blocks, each the largest that fits. */
  method FreePieces(b: PageTable, idx: nat, n: nat)
    requires b.Sound() && |b.lists.lists| == MAX_ORDER && idx + n <= |b.free| && Vacant(b.own, idx, n)
    modifies b`order, b`blocks, b`own, b.lists, b.lists.next, b.lists.prev, b.lists.heads
    ensures b.Sound() && |b.lists.lists| == MAX_ORDER
    ensures Grows(old(b.own), b.own, idx, n) && b.blocks == Tiled(old(b.blocks), idx, n)
  {
    hide Core, Linked, Unique, AddOwn, Aligned, P, Grows, Extends, Vacant, Tiled, ChunkOrder;
    ghost var own0 := b.own;
    GrowsNone(own0, idx);
    var pos, end := idx, idx + n;
    while pos < end
      invariant idx <= pos <= end && b.Sound() && |b.lists.lists| == MAX_ORDER
      invariant Grows(own0, b.own, idx, pos - idx) && Vacant(b.own, pos, end - pos)
      invariant Tiled(b.blocks, pos, end - pos) == Tiled(old(b.blocks), idx, n)
    {
      var o := ChunkOrder(pos, end - pos);
      ghost var own1 := b.own;
      TiledStep(b.blocks, pos, end - pos);
      VacantPrefix(b.own, pos, end - pos, P(o));
      b.PushBlock(pos, o);
      GrowsStep(own0, own1, b.own, idx, pos - idx, P(o), end - pos);
      pos := pos + P(o);
    }
    TiledDone(b.blocks, pos);
  }

  /** Frees `n` pages as one block, or cut into aligned blocks. */
  method FreeSpan(b: PageTable, idx: nat, n: nat)
    requires b.Sound() && |b.lists.lists| == MAX_ORDER && idx + n <= |b.free|
    requires Vacant(b.own, idx, n) && MarkedOutside(b.free, b.own, idx, idx + n)
    requires OneBlock(idx, n) ==> n < P(MAX_ORDER)
    modifies b, b.lists, b.lists.next, b.lists.prev, b.lists.heads
    ensures b.Valid() && |b.lists.lists| == MAX_ORDER && |b.free| == old(|b.free|)
    ensures Grows(old(b.own), b.own, idx, n) && b.blocks == Freed(old(b.blocks), idx, n)
  {
    hide Core, Linked, Unique, AddOwn, Aligned, P, Grows, Extends, Vacant, MarkedOutside, Tiled;
    b.MarkRange(idx, n, true);
    ghost var own0 := b.own;
    if OneBlock(idx, n) {
      OrderBelow(FloorLog(n));
      b.PushBlock(idx, FloorLog(n));
      GrowsNone(own0, idx);
      GrowsStep(own0, own0, b.own, idx, 0, n, n);
    } else {
      FreePieces(b, idx, n);
    }
    MarksAfter(old(b.free), b.free, own0, b.own, idx, n);
  }

  lemma GrowsNone(own: Owner, idx: nat)
    ensures Grows(own, own, idx, 0)
  {
  }

  lemma MarksAfter(free: seq<bool>, free': seq<bool>, own: Owner, own': Owner, idx: nat, n: nat)
    requires MarkedOutside(free, own, idx, idx + n) && Grows(own, own', idx, n) && |free'| == |free|
    requires forall p :: 0 <= p < |free| ==> free'[p] == if idx <= p < idx + n then true else free[p]
    ensures MarkedOutside(free', own', 0, 0)
  {
  }

  lemma VacantPrefix(own: Owner, h: nat, n: nat, m: nat)
    requires Vacant(own, h, n) && m <= n
    ensures Vacant(own, h, m)
  {
  }

  lemma OrderBelow(o: nat)
    requires P(o) < P(MAX_ORDER)
    ensures o < MAX_ORDER
  {
    if o >= MAX_ORDER { PMonotone(MAX_ORDER, o); }
  }

  /**
   * The span comes from the front of the smallest block that suffices; upper halves and the pages that
   * rounding up had added are blocks again.
   */
  ghost predicate TakesSpan(lists: seq<seq<nat>>, blocks: Blocks, blocks': Blocks, idx: nat, n: nat)
    requires CeilLog(n) <= |lists|
  {
    var o := CeilLog(n);
    var f := FirstFrom(lists, o);
    && f < |lists| && idx == lists[f][0]
    && var rest := SplitOff(blocks - {idx}, idx, f, o);
       blocks' == if P(o) > n then Freed(rest, idx + n, P(o) - n) else rest
  }

  /**
   * Takes exactly `n` contiguous pages; what rounding up to a power of two added is freed again.
   * It fails only if no free block is large enough, whether or not merging would make one.
   */
  method AllocSpan(b: PageTable, n: nat) returns (r: Option<nat>)
    requires b.Valid() && |b.lists.lists| == MAX_ORDER
    modifies b, b.lists, b.lists.next, b.lists.prev, b.lists.heads
    ensures b.Valid() && |b.lists.lists| == MAX_ORDER && |b.free| == old(|b.free|)
    ensures r.None? <==> n == 0 || forall i :: CeilLog(n) <= i < MAX_ORDER ==> old(b.lists.lists)[i] == []
    ensures r.None? ==> b.own == old(b.own)
    ensures r.Some? ==> && Aligned(r.value, CeilLog(n)) && r.value + n <= |b.free|
                        && Shrinks(old(b.own), b.own, r.value, n)
    ensures r.Some? ==> CeilLog(n) < MAX_ORDER && TakesSpan(old(b.lists.lists), old(b.blocks), b.blocks, r.value, n)
  {
    hide Core, Linked, Unique, Aligned, P, Grows, Shrinks, Vacant, MarkedOutside, Freed, SplitOff, FirstFrom;
    if n == 0 {
      return None;
    }
    var o := CeilLog(n);
    if o >= MAX_ORDER {
      return None;
    }
    r := b.TakeBlock(o);
    if r.None? {
      return;
    }
    var idx := r.value;
    ghost var own1 := b.own;
    VacantPrefix(own1, idx, P(o), n);
    b.MarkRange(idx, n, false);
    TakenMarks(old(b.free), b.free, old(b.own), own1, idx, n, P(o));
    if P(o) > n {
      PMonotone(o, MAX_ORDER);
      VacantSuffix(own1, idx, P(o), n);
      FreeSpan(b, idx + n, P(o) - n);
    }
    TailBack(old(b.own), own1, b.own, idx, n, P(o));
  }

  lemma VacantSuffix(own: Owner, h: nat, n: nat, m: nat)
    requires Vacant(own, h, n) && m <= n
    ensures Vacant(own, h + m, n - m)
  {
  }

  lemma TakenMarks(free: seq<bool>, free': seq<bool>, own: Owner, own': Owner, idx: nat, n: nat, size: nat)
    requires MarkedOutside(free, own, 0, 0) && Shrinks(own, own', idx, size) && n <= size && |free'| == |free|
    requires forall p :: 0 <= p < |free| ==> free'[p] == if idx <= p < idx + n then false else free[p]
    ensures MarkedOutside(free', own', idx + n, idx + size)
    ensures n == size ==> MarkedOutside(free', own', 0, 0)
  {
  }

  lemma TailBack(own: Owner, own1: Owner, own2: Owner, idx: nat, n: nat, size: nat)
    requires Shrinks(own, own1, idx, size) && n <= size
    requires if n == size then own2 == own1 else Grows(own1, own2, idx + n, size - n)
    ensures Shrinks(own, own2, idx, n)
  {
  }

  // ---------------------------------------------------------------- merging

  ghost predicate Paired(blocks: Blocks, h: nat, o: nat) {
    Buddy(h, o) in blocks && blocks[Buddy(h, o)] == o
  }

  ghost function MergedBlocks(blocks: Blocks, h: nat, o: nat): Blocks {
    (blocks - {h} - {Buddy(h, o)})[Floor(h, o + 1) := o + 1]
  }

  /** The halves just removed are the block about to be pushed. */
  lemma MergePages(own: Owner, own1: Owner, own2: Owner, h: nat, o: nat)
    requires Aligned(h, o) && Shrinks(own, own1, h, P(o)) && Shrinks(own1, own2, Buddy(h, o), P(o))
    ensures Aligned(Floor(h, o + 1), o + 1) && Shrinks(own, own2, Floor(h, o + 1), P(o + 1))
    ensures Vacant(own2, Floor(h, o + 1), P(o + 1))
  {
    BuddyHalves(h, o);
    SplitHalves(Floor(h, o + 1), o);
  }

  lemma MergeRestores(free: seq<bool>, own: Owner, own2: Owner, own3: Owner, m: nat, n: nat)
    requires Shrinks(own, own2, m, n) && Extends(own2, own3, m, n) && MarkedOutside(free, own, 0, 0)
    ensures MarkedOutside(free, own3, 0, 0)
  {
  }

  lemma MergedCount(blocks: Blocks, h: nat, o: nat)
    requires h in blocks && Paired(blocks, h, o) && Buddy(h, o) != h
    requires Floor(h, o + 1) !in blocks - {h} - {Buddy(h, o)}
    ensures |MergedBlocks(blocks, h, o)| == |blocks| - 1
  {
    var g := Buddy(h, o);
    assert blocks == (blocks - {h})[h := blocks[h]];
    assert blocks - {h} == (blocks - {h} - {g})[g := blocks[g]];
  }

  lemma BlockFacts(pages: nat, lists: Lists, order: seq<nat>, blocks: Blocks, own: Owner, h: nat)
    requires Core(pages, lists, order, blocks, own) && h in blocks
    ensures Aligned(h, blocks[h]) && h + P(blocks[h]) <= pages && blocks[h] < |lists| && h in own
  {
    assert BlockOk(pages, |lists|, own, h, blocks[h]);
  }

  /** Replaces a block and its free buddy by the block of the next order. */
  method Merge(b: PageTable, h: nat, o: nat)
    requires b.Valid() && |b.lists.lists| == MAX_ORDER && o + 1 < MAX_ORDER
    requires h in b.blocks && b.blocks[h] == o && Paired(b.blocks, h, o)
    modifies b, b.lists, b.lists.next, b.lists.prev, b.lists.heads
    ensures b.Valid() && |b.lists.lists| == MAX_ORDER && b.free == old(b.free)
    ensures b.blocks == MergedBlocks(old(b.blocks), h, o) && |b.blocks| == old(|b.blocks|) - 1
    ensures forall i :: 0 <= i < MAX_ORDER && i != o && i != o + 1 ==> b.lists.lists[i] == old(b.lists.lists)[i]
  {
    hide Core, Linked, Unique, Aligned, P, Grows, Shrinks, Vacant, MarkedOutside, Extends, AddOwn, DropOwn,
      Buddy, Floor;
    var g, m := Buddy(h, o), Floor(h, o + 1);
    ghost var own0, blocks0 := b.own, b.blocks;
    BlockFacts(|b.free|, b.lists.lists, b.order, b.blocks, b.own, h);
    BlockFacts(|b.free|, b.lists.lists, b.order, b.blocks, b.own, g);
    BuddyHalves(h, o);
    b.RemoveBlock(h);
    ghost var own1 := b.own;
    b.RemoveBlock(g);
    ghost var own2 := b.own;
    MergePages(own0, own1, own2, h, o);
    MergedFits(h, o, |b.free|);
    b.PushBlock(m, o + 1);
    MergeRestores(b.free, own0, own2, b.own, m, P(o + 1));
    MergedCount(blocks0, h, o);
  }

  lemma MergedFits(h: nat, o: nat, pages: nat)
    requires Aligned(h, o) && h + P(o) <= pages && Buddy(h, o) + P(o) <= pages
    ensures Floor(h, o + 1) + P(o + 1) <= pages
  {
    BuddyHalves(h, o);
  }

  /** The test in the merge loop is exact. */
  lemma PairTest(pages: nat, lists: Lists, order: seq<nat>, free: seq<bool>, blocks: Blocks, own: Owner, h: nat)
    requires Core(pages, lists, order, blocks, own) && MarkedOutside(free, own, 0, 0) && |free| == pages
    requires h in blocks
    ensures var o, g := blocks[h], Buddy(h, blocks[h]);
      (g < pages && g < |order| && free[g] && order[g] == o) <==> Paired(blocks, h, o)
  {
    var o, g := blocks[h], Buddy(h, blocks[h]);
    BuddyTest(pages, |lists|, blocks, own, h);
    if g in blocks { BlockFacts(pages, lists, order, blocks, own, g); }
  }

  /** Orders other than the one merged and the next keep their blocks. */
  lemma MergedElsewhere(blocks: Blocks, h: nat, o: nat, k: nat)
    requires h in blocks && blocks[h] == o && Paired(blocks, h, o) && NoPairs(blocks, k) && k < o
    ensures NoPairs(MergedBlocks(blocks, h, o), k)
  {
    var blocks' := MergedBlocks(blocks, h, o);
    assert forall g :: g in blocks' && blocks'[g] == k ==> g in blocks && blocks[g] == k;
  }

  ghost predicate Walked(lists: Lists, blocks: Blocks, o: nat, k: nat)
    requires o < |lists|
  {
    k <= |lists[o]| && forall i :: 0 <= i < k ==> !Paired(blocks, lists[o][i], o)
  }

  lemma WalkedAll(pages: nat, lists: Lists, order: seq<nat>, blocks: Blocks, own: Owner, o: nat)
    requires Core(pages, lists, order, blocks, own) && o < |lists| && Walked(lists, blocks, o, |lists[o]|)
    ensures NoPairs(blocks, o)
  {
    forall h | h in blocks && blocks[h] == o ensures !Paired(blocks, h, o) {
      var j := Locate(pages, lists, order, blocks, own, h);
    }
  }

  lemma ListedAt(pages: nat, lists: Lists, order: seq<nat>, blocks: Blocks, own: Owner, o: nat, k: nat)
    requires Core(pages, lists, order, blocks, own) && o < |lists| && k < |lists[o]|
    ensures lists[o][k] in blocks && blocks[lists[o][k]] == o
  {
  }

  /** Merges until no two free blocks of this order are buddies; each merge leaves one block fewer. */
  method CoalesceOrder(b: PageTable, o: nat)
    requires b.Valid() && |b.lists.lists| == MAX_ORDER && o + 1 < MAX_ORDER
    requires forall k :: 0 <= k < o ==> NoPairs(b.blocks, k)
    modifies b, b.lists, b.lists.next, b.lists.prev, b.lists.heads
    ensures b.Valid() && |b.lists.lists| == MAX_ORDER && b.free == old(b.free)
    ensures forall k :: 0 <= k <= o ==> NoPairs(b.blocks, k)
    ensures forall i :: o + 1 < i < MAX_ORDER ==> b.lists.lists[i] == old(b.lists.lists)[i]
  {
    hide Core, Linked, Unique, MarkedOutside, NoPairs, Paired, MergedBlocks;
    var idx := b.Head(o);
    ghost var k := 0;
    WalkedNone(b.lists.lists, b.blocks, o);
    while idx != NIL
      invariant b.Valid() && |b.lists.lists| == MAX_ORDER && b.free == old(b.free)
      invariant forall i :: 0 <= i < o ==> NoPairs(b.blocks, i)
      invariant forall i :: o + 1 < i < MAX_ORDER ==> b.lists.lists[i] == old(b.lists.lists)[i]
      invariant Walked(b.lists.lists, b.blocks, o, k)
      invariant idx == if k < |b.lists.lists[o]| then b.lists.lists[o][k] else NIL
      decreases |b.blocks|, |b.lists.lists[o]| - k
    {
      ListedAt(|b.free|, b.lists.lists, b.order, b.blocks, b.own, o, k);
      PairTest(|b.free|, b.lists.lists, b.order, b.free, b.blocks, b.own, idx);
      var next := b.After(idx, o, k);
      var g := Buddy(idx, o);
      if g < |b.free| && b.free[g] && b.order[g] == o {
        ghost var before := b.blocks;
        Merge(b, idx, o);
        forall i | 0 <= i < o ensures NoPairs(b.blocks, i) {
          MergedElsewhere(before, idx, o, i);
        }
        idx := b.Head(o);
        k := 0;
        WalkedNone(b.lists.lists, b.blocks, o);
      } else {
        WalkedOne(b.lists.lists, b.blocks, o, k);
        idx := next;
        k := k + 1;
      }
    }
    WalkedAll(|b.free|, b.lists.lists, b.order, b.blocks, b.own, o);
  }

  lemma WalkedNone(lists: Lists, blocks: Blocks, o: nat)
    requires o < |lists|
    ensures Walked(lists, blocks, o, 0)
  {
  }

  lemma WalkedOne(lists: Lists, blocks: Blocks, o: nat, k: nat)
    requires o < |lists| && k < |lists[o]| && Walked(lists, blocks, o, k) && !Paired(blocks, lists[o][k], o)
    ensures Walked(lists, blocks, o, k + 1)
  {
  }

  /** Merges from the smallest order up, until a block of order `target` turns up. */
  method Coalesce(b: PageTable, target: nat) returns (r: bool)
    requires b.Valid() && |b.lists.lists| == MAX_ORDER && target < MAX_ORDER
    modifies b, b.lists, b.lists.next, b.lists.prev, b.lists.heads
    ensures b.Valid() && |b.lists.lists| == MAX_ORDER && b.free == old(b.free)
    ensures r <==> b.lists.lists[target] != []
    ensures !r ==> forall k :: 0 <= k < target ==> NoPairs(b.blocks, k)
    ensures forall i :: target < i < MAX_ORDER ==> b.lists.lists[i] == old(b.lists.lists)[i]
  {
    hide Core, Linked, Unique, MarkedOutside, NoPairs;
    var o := 0;
    while o < target && o + 1 < MAX_ORDER
      invariant o <= target && b.Valid() && |b.lists.lists| == MAX_ORDER && b.free == old(b.free)
      invariant forall k :: 0 <= k < o ==> NoPairs(b.blocks, k)
      invariant forall i :: target < i < MAX_ORDER ==> b.lists.lists[i] == old(b.lists.lists)[i]
    {
      CoalesceOrder(b, o);
      var head := b.Head(target);
      if head != NIL {
        return true;
      }
      o := o + 1;
    }
    var head := b.Head(target);
    return head != NIL;
  }

  // ---------------------------------------------------------------- can a span be had?

  /** An aligned run of `P(o)` pages, all marked free. */
  ghost predicate MarkedRun(free: seq<bool>, x: nat, o: nat) {
    Aligned(x, o) && x + P(o) <= |free| && forall p :: x <= p < x + P(o) ==> free[p]
  }

  /** A free block contains an aligned free run of every smaller order. */
  lemma BlockHasRun(pages: nat, lists: Lists, order: seq<nat>, free: seq<bool>, blocks: Blocks, own: Owner,
                    i: nat, o: nat)
    requires Core(pages, lists, order, blocks, own) && MarkedOutside(free, own, 0, 0) && |free| == pages
    requires o <= i < |lists| && lists[i] != []
    ensures MarkedRun(free, lists[i][0], o)
  {
    var h := lists[i][0];
    assert BlockOk(pages, |lists|, own, h, i);
    AlignedFiner(h, i, o);
    PMonotone(o, i);
  }

  /** If merging is done below order `o` and no block is that large, there is no such run. */
  lemma NoBlockNoRun(pages: nat, lists: Lists, order: seq<nat>, free: seq<bool>, blocks: Blocks, own: Owner,
                     x: nat, o: nat)
    requires Core(pages, lists, order, blocks, own) && MarkedOutside(free, own, 0, 0) && |free| == pages
    requires forall k :: 0 <= k < o ==> NoPairs(blocks, k)
    requires o < |lists| && forall i :: o <= i < |lists| ==> lists[i] == []
    ensures !MarkedRun(free, x, o)
  {
    if MarkedRun(free, x, o) {
      assert FreeRun(own, x, o);
      RunInBlock(pages, |lists|, blocks, own, x, o);
      var j := Locate(pages, lists, order, blocks, own, own[x]);
    }
  }

  /**
   * The answer is yes exactly when an aligned free run of the rounded size exists; the page marks
   * stay as they are, and after a yes `AllocSpan` finds a block.
   */
  method CheckSpan(b: PageTable, n: nat) returns (r: bool)
    requires b.Valid() && |b.lists.lists| == MAX_ORDER
    modifies b, b.lists, b.lists.next, b.lists.prev, b.lists.heads
    ensures b.Valid() && |b.lists.lists| == MAX_ORDER && b.free == old(b.free)
    ensures r <==> n > 0 && CeilLog(n) < MAX_ORDER && exists x :: MarkedRun(b.free, x, CeilLog(n))
    ensures r ==> exists i :: CeilLog(n) <= i < MAX_ORDER && b.lists.lists[i] != []
  {
    hide Core, Linked, Unique, MarkedOutside, NoPairs, MarkedRun;
    if n == 0 {
      return false;
    }
    var o := CeilLog(n);
    if o >= MAX_ORDER {
      return false;
    }
    var found := b.FindOrder(o);
    if found < MAX_ORDER {
      BlockHasRun(|b.free|, b.lists.lists, b.order, b.free, b.blocks, b.own, found, o);
      return true;
    }
    r := Coalesce(b, o);
    if r {
      BlockHasRun(|b.free|, b.lists.lists, b.order, b.free, b.blocks, b.own, o, o);
    } else {
      forall x: nat ensures !MarkedRun(b.free, x, o) {
        NoBlockNoRun(|b.free|, b.lists.lists, b.order, b.free, b.blocks, b.own, x, o);
      }
    }
  }
}
