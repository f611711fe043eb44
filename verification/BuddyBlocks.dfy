/**
 * Free blocks of a buddy allocator as geometry: `blocks` maps the first page of each free block
 * to its order, `own` maps each free page to the first page of its block.
 */
module BuddyBlocks {
  import opened BuddyMath

  type Blocks = map<nat, nat>
  type Owner = map<nat, nat>

  ghost predicate Covers(own: Owner, h: nat, o: nat) {
    forall p :: h <= p < h + P(o) ==> p in own && own[p] == h
  }

  ghost predicate BlockOk(pages: nat, max: nat, own: Owner, h: nat, o: nat) {
    o < max && Aligned(h, o) && h + P(o) <= pages && Covers(own, h, o)
  }

  ghost predicate PageOk(blocks: Blocks, own: Owner, p: nat)
    requires p in own
  {
    own[p] in blocks && own[p] <= p < own[p] + P(blocks[own[p]])
  }

  /** Free blocks are aligned, in range and disjoint, and tile exactly the owned pages. */
  ghost predicate Tiling(pages: nat, max: nat, blocks: Blocks, own: Owner) {
    HeadsOk(pages, max, blocks, own) && PagesOk(blocks, own)
  }

  ghost predicate HeadsOk(pages: nat, max: nat, blocks: Blocks, own: Owner) {
    forall h :: h in blocks ==> BlockOk(pages, max, own, h, blocks[h])
  }

  ghost predicate PagesOk(blocks: Blocks, own: Owner) {
    forall p :: p in own ==> PageOk(blocks, own, p)
  }

  ghost predicate Vacant(own: Owner, h: nat, n: nat) {
    forall p :: h <= p < h + n ==> p !in own
  }

  ghost function Interval(h: nat, n: nat): (s: set<nat>)
    ensures forall p :: p in s <==> h <= p < h + n
  {
    if n == 0 then {} else Interval(h, n - 1) + {h + n - 1}
  }

  ghost function AddOwn(own: Owner, h: nat, o: nat): Owner {
    own + map p | p in Interval(h, P(o)) :: h
  }

  ghost function DropOwn(own: Owner, h: nat): Owner {
    map p | p in own && own[p] != h :: own[p]
  }

  ghost predicate Extends(own: Owner, own': Owner, h: nat, n: nat) {
    && (forall p :: p in own' <==> p in own || h <= p < h + n)
    && (forall p :: h <= p < h + n ==> own'[p] == h)
    && (forall p :: p in own && !(h <= p < h + n) ==> own'[p] == own[p])
  }

  /** Exactly the pages of the range are no longer owned, all of which were. */
  ghost predicate Shrinks(own: Owner, own': Owner, h: nat, n: nat) {
    && (forall p :: p in own' <==> p in own && !(h <= p < h + n))
    && (forall p :: h <= p < h + n ==> p in own)
  }

  /** Exactly the pages of the range are newly owned. */
  ghost predicate Grows(own: Owner, own': Owner, h: nat, n: nat) {
    && (forall p :: p in own' <==> p in own || h <= p < h + n)
    && (forall p :: h <= p < h + n ==> p !in own)
  }

  lemma AddOwnExtends(own: Owner, h: nat, o: nat)
    ensures Extends(own, AddOwn(own, h, o), h, P(o))
  {
  }

  lemma BlockStays(pages: nat, max: nat, own: Owner, own': Owner, h: nat, n: nat, g: nat, o: nat)
    requires BlockOk(pages, max, own, g, o) && Extends(own, own', h, n) && Vacant(own, h, n)
    ensures g in own && BlockOk(pages, max, own', g, o)
  {
  }

  lemma AddHeads(pages: nat, max: nat, blocks: Blocks, own: Owner, own': Owner, h: nat, o: nat)
    requires HeadsOk(pages, max, blocks, own) && Vacant(own, h, P(o)) && Extends(own, own', h, P(o))
    requires o < max && Aligned(h, o) && h + P(o) <= pages
    ensures h !in blocks && HeadsOk(pages, max, blocks[h := o], own')
  {
    assert BlockOk(pages, max, own', h, o);
    forall g | g in blocks ensures g in own && BlockOk(pages, max, own', g, blocks[g]) {
      BlockStays(pages, max, own, own', h, P(o), g, blocks[g]);
    }
    hide BlockOk, Extends;
  }

  lemma AddPages(blocks: Blocks, own: Owner, own': Owner, h: nat, o: nat)
    requires PagesOk(blocks, own) && h !in blocks && Extends(own, own', h, P(o)) && Vacant(own, h, P(o))
    ensures PagesOk(blocks[h := o], own')
  {
    forall p | p in own' ensures PageOk(blocks[h := o], own', p) {
      if p in own { assert PageOk(blocks, own, p); }
    }
  }

  lemma AddKeeps(pages: nat, max: nat, blocks: Blocks, own: Owner, h: nat, o: nat)
    requires Tiling(pages, max, blocks, own) && Vacant(own, h, P(o))
    requires o < max && Aligned(h, o) && h + P(o) <= pages
    ensures h !in blocks && Tiling(pages, max, blocks[h := o], AddOwn(own, h, o))
    ensures Extends(own, AddOwn(own, h, o), h, P(o))
  {
    hide HeadsOk, PagesOk, Vacant, AddOwn, Extends;
    AddOwnExtends(own, h, o);
    AddHeads(pages, max, blocks, own, AddOwn(own, h, o), h, o);
    AddPages(blocks, own, AddOwn(own, h, o), h, o);
  }

  lemma DropKeeps(pages: nat, max: nat, blocks: Blocks, own: Owner, h: nat)
    requires Tiling(pages, max, blocks, own) && h in blocks
    ensures Tiling(pages, max, blocks - {h}, DropOwn(own, h))
    ensures Shrinks(own, DropOwn(own, h), h, P(blocks[h]))
    ensures Vacant(DropOwn(own, h), h, P(blocks[h]))
  {
    var own' := DropOwn(own, h);
    assert BlockOk(pages, max, own, h, blocks[h]);
    forall g | g in blocks && g != h ensures BlockOk(pages, max, own', g, blocks[g]) {
      assert BlockOk(pages, max, own, g, blocks[g]);
    }
    forall p | p in own ensures own[p] == h <==> h <= p < h + P(blocks[h]) {
      assert PageOk(blocks, own, p);
    }
    forall p | p in own' ensures PageOk(blocks - {h}, own', p) {
      assert PageOk(blocks, own, p);
    }
  }

  /** A block that holds a page holds every page in the same block of an order up to its own. */
  lemma HoldsAll(pages: nat, max: nat, blocks: Blocks, own: Owner, b: nat, h: nat, k: nat)
    requires Tiling(pages, max, blocks, own) && b in own && own[b] in blocks
    requires k <= blocks[own[b]] && Shift(b, k) == Shift(h, k)
    ensures h in own && own[h] == own[b]
  {
    var g := own[b];
    assert BlockOk(pages, max, own, g, blocks[g]);
    assert PageOk(blocks, own, b);
    ShiftIsRange(g, blocks[g], b);
    ShiftCoarser(b, h, k, blocks[g]);
    ShiftIsRange(g, blocks[g], h);
  }

  /** A free page aligned at least as its block is the first page of the block. */
  lemma HeadPage(pages: nat, max: nat, blocks: Blocks, own: Owner, b: nat, o: nat)
    requires Tiling(pages, max, blocks, own) && b in own && Aligned(b, o)
    requires own[b] in blocks && blocks[own[b]] <= o
    ensures own[b] == b
  {
    var g := own[b];
    assert PageOk(blocks, own, b);
    assert BlockOk(pages, max, own, g, blocks[g]);
    AlignedFiner(b, o, blocks[g]);
    ShiftIsRange(g, blocks[g], b);
    AlignedUnique(b, g, blocks[g]);
  }

  /** If the first page of a block's buddy is free, it is the first page of a block of at most that order. */
  lemma BuddyTest(pages: nat, max: nat, blocks: Blocks, own: Owner, h: nat)
    requires Tiling(pages, max, blocks, own) && h in blocks
    ensures var b := Buddy(h, blocks[h]); b in own ==> own[b] == b && b in blocks && blocks[b] <= blocks[h]
  {
    var o := blocks[h];
    var b := Buddy(h, o);
    assert BlockOk(pages, max, own, h, o);
    BuddyHalves(h, o);
    if b in own {
      assert PageOk(blocks, own, b);
      if blocks[own[b]] > o {
        HoldsAll(pages, max, blocks, own, b, h, o + 1);
      }
      HeadPage(pages, max, blocks, own, b, o);
    }
  }

  ghost predicate NoPairs(blocks: Blocks, o: nat) {
    forall h :: h in blocks && blocks[h] == o ==> !(Buddy(h, o) in blocks && blocks[Buddy(h, o)] == o)
  }

  lemma DropNoPairs(blocks: Blocks, h: nat, o: nat)
    requires NoPairs(blocks, o)
    ensures NoPairs(blocks - {h}, o)
  {
  }

  /** A new block whose buddy is not free makes no pair. */
  lemma AddNoPairs(blocks: Blocks, h: nat, o: nat, k: nat)
    requires NoPairs(blocks, k) && h !in blocks && Aligned(h, o)
    requires k == o ==> !(Buddy(h, o) in blocks && blocks[Buddy(h, o)] == o)
    ensures NoPairs(blocks[h := o], k)
  {
    BuddyOf(h, o);
    forall g | g in blocks && blocks[g] == k && Buddy(g, k) == h ensures k != o {
      BuddyTwice(g, k);
    }
  }

  /** As `BuddyTest`, for a block that is aligned and vacant. */
  lemma VacantBuddyTest(pages: nat, max: nat, blocks: Blocks, own: Owner, h: nat, o: nat)
    requires Tiling(pages, max, blocks, own) && Aligned(h, o) && h !in own
    ensures var b := Buddy(h, o); b in own ==> own[b] == b && b in blocks && blocks[b] <= o
  {
    hide Tiling, Floor, Buddy;
    var b := Buddy(h, o);
    BuddyHalves(h, o);
    if b in own {
      Owned(pages, max, blocks, own, b);
      if blocks[own[b]] > o { HoldsAll(pages, max, blocks, own, b, h, o + 1); }
      HeadPage(pages, max, blocks, own, b, o);
    }
  }

  ghost predicate FreeRun(own: Owner, x: nat, o: nat) {
    Aligned(x, o) && forall p :: x <= p < x + P(o) ==> p in own
  }

  lemma HalvesFree(own: Owner, x: nat, o: nat)
    requires FreeRun(own, x, o + 1)
    ensures FreeRun(own, x, o) && FreeRun(own, x + P(o), o) && Buddy(x, o) == x + P(o)
  {
    SplitHalves(x, o);
  }

  lemma Owned(pages: nat, max: nat, blocks: Blocks, own: Owner, p: nat)
    requires Tiling(pages, max, blocks, own) && p in own
    ensures own[p] in blocks && own[p] <= p < own[p] + P(blocks[own[p]])
  {
    assert PageOk(blocks, own, p);
  }

  /** Without free buddy pairs below order `o`, an aligned free run of that order lies in one block. */
  lemma {:induction false} RunInBlock(pages: nat, max: nat, blocks: Blocks, own: Owner, x: nat, o: nat)
    requires Tiling(pages, max, blocks, own) && FreeRun(own, x, o)
    requires forall k :: 0 <= k < o ==> NoPairs(blocks, k)
    ensures x in own && own[x] in blocks && blocks[own[x]] >= o
    decreases o
  {
    hide Tiling;
    assert x in own;
    Owned(pages, max, blocks, own, x);
    if o > 0 {
      HalvesFree(own, x, o - 1);
      assert NoPairs(blocks, o - 1);
      hide FreeRun;
      RunInBlock(pages, max, blocks, own, x, o - 1);
      RunInBlock(pages, max, blocks, own, x + P(o - 1), o - 1);
      if blocks[own[x]] == o - 1 {
        AlignedRun(own, x, o - 1);
        HeadPage(pages, max, blocks, own, x, o - 1);
        BuddyTest(pages, max, blocks, own, x);
      }
    }
  }

  lemma AlignedRun(own: Owner, x: nat, o: nat)
    requires FreeRun(own, x, o)
    ensures Aligned(x, o)
  {
  }
}
