/**
 * What the two buddy allocators share: a page table with a free mark and an order for each page,
 * and a free list for each order. The blocks in the lists tile exactly the pages marked free.
 */
module BuddyCore {
  import opened Options
  import opened BuddyMath
  import opened BuddyBlocks
  import opened IndexLists

  // ---------------------------------------------------------------- lists and marks against blocks

  /** The lists hold exactly the free blocks, each in the list of its order. */
  ghost predicate Listed(lists: Lists, blocks: Blocks) {
    && (forall o, k :: 0 <= o < |lists| && 0 <= k < |lists[o]| ==> lists[o][k] in blocks && blocks[lists[o][k]] == o)
    && (forall h :: h in blocks ==> blocks[h] < |lists| && h in lists[blocks[h]])
  }

  ghost predicate Ordered(order: seq<nat>, blocks: Blocks) {
    forall h :: h in blocks ==> h < |order| && order[h] == blocks[h]
  }

  /** Page marks say exactly which pages are in a free block, except inside `[from, to)`. */
  ghost predicate MarkedOutside(free: seq<bool>, own: Owner, from: nat, to: nat) {
    forall p :: 0 <= p < |free| && !(from <= p < to) ==> (free[p] <==> p in own)
  }

  ghost predicate Core(pages: nat, lists: Lists, order: seq<nat>, blocks: Blocks, own: Owner) {
    Tiling(pages, |lists|, blocks, own) && Listed(lists, blocks) && Ordered(order, blocks) && |order| == pages
  }

  lemma PushListed(lists: Lists, blocks: Blocks, h: nat, o: nat)
    requires Listed(lists, blocks) && h !in blocks && o < |lists|
    ensures Absent(lists, h) && Listed(lists[o := [h] + lists[o]], blocks[h := o])
  {
    var lists': Lists := lists[o := [h] + lists[o]];
    forall i, k | 0 <= i < |lists'| && 0 <= k < |lists'[i]|
      ensures lists'[i][k] in blocks[h := o] && blocks[h := o][lists'[i][k]] == i
    {
      if i == o && k > 0 { assert lists'[i][k] == lists[o][k - 1]; }
    }
    forall g | g in blocks ensures g in lists'[blocks[g]] {
      assert g in lists[blocks[g]];
    }
  }

  lemma RemoveListed(lists: Lists, blocks: Blocks, o: nat, j: nat)
    requires Listed(lists, blocks) && Unique(lists) && o < |lists| && j < |lists[o]|
    ensures Listed(lists[o := Without(lists[o], j)], blocks - {lists[o][j]})
  {
    var h := lists[o][j];
    var lists': Lists := lists[o := Without(lists[o], j)];
    WithoutUnique(lists, o, j);
    forall i, k | 0 <= i < |lists'| && 0 <= k < |lists'[i]|
      ensures lists'[i][k] in blocks - {h} && blocks[lists'[i][k]] == i
    {
      if i == o { assert lists'[i][k] == lists[o][if k < j then k else k + 1]; }
    }
    forall g | g in blocks && g != h ensures g in lists'[blocks[g]] {
      if blocks[g] == o {
        var k :| 0 <= k < |lists[o]| && lists[o][k] == g;
        assert lists'[o][if k < j then k else k - 1] == g;
      }
    }
  }

  lemma PushCore(pages: nat, lists: Lists, order: seq<nat>, blocks: Blocks, own: Owner, h: nat, o: nat)
    requires Core(pages, lists, order, blocks, own) && Vacant(own, h, P(o))
    requires o < |lists| && Aligned(h, o) && h + P(o) <= pages
    ensures h < |order| && h !in blocks && Absent(lists, h)
    ensures Core(pages, lists[o := [h] + lists[o]], order[h := o], blocks[h := o], AddOwn(own, h, o))
    ensures Extends(own, AddOwn(own, h, o), h, P(o))
  {
    hide Tiling, Listed, Absent, Extends;
    AddKeeps(pages, |lists|, blocks, own, h, o);
    PushListed(lists, blocks, h, o);
  }

  lemma RemoveCore(pages: nat, lists: Lists, order: seq<nat>, blocks: Blocks, own: Owner, o: nat, j: nat)
    requires Core(pages, lists, order, blocks, own) && Unique(lists) && o < |lists| && j < |lists[o]|
    ensures var h := lists[o][j];
      && h in blocks && blocks[h] == o
      && Core(pages, lists[o := Without(lists[o], j)], order, blocks - {h}, DropOwn(own, h))
      && Shrinks(own, DropOwn(own, h), h, P(o))
      && Vacant(DropOwn(own, h), h, P(o))
  {
    var h := lists[o][j];
    assert h in blocks && blocks[h] == o;
    RemoveListed(lists, blocks, o, j);
    DropKeeps(pages, |lists|, blocks, own, h);
    hide Tiling, Listed, Shrinks, Vacant;
  }

  lemma Locate(pages: nat, lists: Lists, order: seq<nat>, blocks: Blocks, own: Owner, h: nat) returns (j: nat)
    requires Core(pages, lists, order, blocks, own) && h in blocks
    ensures h < |order| && order[h] == blocks[h] < |lists| && j < |lists[blocks[h]]| && lists[blocks[h]][j] == h
  {
    assert h in lists[blocks[h]];
    j :| 0 <= j < |lists[blocks[h]]| && lists[blocks[h]][j] == h;
  }

  lemma HeadBlock(pages: nat, lists: Lists, order: seq<nat>, blocks: Blocks, own: Owner, o: nat)
    requires Core(pages, lists, order, blocks, own) && o < |lists| && lists[o] != []
    ensures lists[o][0] in blocks && blocks[lists[o][0]] == o
    ensures Aligned(lists[o][0], o) && lists[o][0] + P(o) <= pages
  {
    assert BlockOk(pages, |lists|, own, lists[o][0], o);
  }

  /** A vacated block gives its upper half back. */
  lemma HalfBack(own: Owner, own1: Owner, own2: Owner, idx: nat, o: nat)
    requires Shrinks(own, own1, idx, P(o + 1)) && Extends(own1, own2, idx + P(o), P(o))
    ensures Shrinks(own, own2, idx, P(o)) && Vacant(own2, idx, P(o))
  {
  }

  lemma UpperVacant(own: Owner, own1: Owner, idx: nat, o: nat)
    requires Shrinks(own, own1, idx, P(o + 1)) && Aligned(idx, o + 1)
    ensures Vacant(own1, idx + P(o), P(o)) && Vacant(own1, idx, P(o + 1))
    ensures Aligned(idx, o) && Aligned(idx + P(o), o) && P(o + 1) == 2 * P(o)
    ensures Buddy(idx + P(o), o) == idx
  {
    SplitHalves(idx, o);
    BuddyTwice(idx, o);
  }

  lemma OrderFrame(pages: nat, lists: Lists, order: seq<nat>, blocks: Blocks, own: Owner, p: nat)
    requires Core(pages, lists, order, blocks, own) && p < |order| && p !in own
    ensures Core(pages, lists, order[p := 0], blocks, own)
  {
    forall h | h in blocks ensures h in own {
      assert BlockOk(pages, |lists|, own, h, blocks[h]);
    }
  }

  /** The first order from `o` on whose list has a block. */
  ghost function FirstFrom(lists: seq<seq<nat>>, o: nat): (f: nat)
    requires o <= |lists|
    ensures o <= f <= |lists| && (forall i :: o <= i < f ==> lists[i] == []) && (f < |lists| ==> lists[f] != [])
    decreases |lists| - o
  {
    if o == |lists| || lists[o] != [] then o else FirstFrom(lists, o + 1)
  }

  /** A block of order `from` is cut down to order `to`: its upper halves become blocks of their own. */
  ghost function SplitOff(blocks: Blocks, h: nat, from: nat, to: nat): Blocks
    decreases from
  {
    if from <= to then blocks else SplitOff(blocks[h + P(from - 1) := from - 1], h, from - 1, to)
  }

  class PageTable {
    const lists: FreeLists
    var free: seq<bool>
    var order: seq<nat>

    ghost var blocks: Blocks
    ghost var own: Owner

    /** Lists, orders and blocks agree; page marks are left out. */
    ghost predicate Sound()
      reads this, lists, lists.next, lists.prev, lists.heads
    {
      && lists.Valid() && lists.next.Length == |free| == |order|
      && Core(|free|, lists.lists, order, blocks, own)
    }

    ghost predicate Valid()
      reads this, lists, lists.next, lists.prev, lists.heads
    {
      Sound() && MarkedOutside(free, own, 0, 0)
    }

    constructor (pages: nat, orders: nat)
      ensures Valid() && |free| == pages && |lists.lists| == orders && blocks == map[] && own == map[]
      ensures fresh(lists) && fresh(lists.next) && fresh(lists.prev) && fresh(lists.heads)
    {
      lists := new FreeLists(pages, orders);
      free, order := seq(pages, _ => false), seq(pages, _ => 0);
      blocks, own := map[], map[];
    }

    method PushBlock(h: nat, o: nat)
      requires Sound() && Vacant(own, h, P(o)) && o < |lists.lists| && Aligned(h, o) && h + P(o) <= |free|
      modifies this`order, this`blocks, this`own, lists, lists.next, lists.prev, lists.heads
      ensures Sound() && h !in old(blocks) && blocks == old(blocks)[h := o]
      ensures own == AddOwn(old(own), h, o) && Extends(old(own), own, h, P(o))
      ensures lists.lists == old(lists.lists)[o := [h] + old(lists.lists)[o]]
    {
      hide Core, Vacant, Aligned, Extends, AddOwn, Absent, P, Linked, Unique;
      PushCore(|free|, lists.lists, order, blocks, own, h, o);
      lists.Push(h, o);
      order := order[h := o];
      blocks, own := blocks[h := o], AddOwn(own, h, o);
    }

    /** Takes the block at `h` out of the list of its order. */
    method RemoveBlock(h: nat)
      requires Sound() && h in blocks
      modifies this`blocks, this`own, lists, lists.next, lists.prev, lists.heads
      ensures Sound() && blocks == old(blocks) - {h}
      ensures own == DropOwn(old(own), h) && Vacant(own, h, P(old(blocks)[h]))
      ensures Shrinks(old(own), own, h, P(old(blocks)[h]))
      ensures |lists.lists| == old(|lists.lists|)
      ensures forall i :: 0 <= i < |lists.lists| && i != old(blocks)[h] ==> lists.lists[i] == old(lists.lists)[i]
    {
      hide Core, Vacant, Shrinks, DropOwn, Absent, P, Linked, Without, Unique;
      ghost var j := Locate(|free|, lists.lists, order, blocks, own, h);
      var o := order[h];
      RemoveCore(|free|, lists.lists, order, blocks, own, o, j);
      lists.Remove(h, o, j);
      blocks, own := blocks - {h}, DropOwn(own, h);
    }

    /** The first order from `o` on that has a free block. */
    method FindOrder(o: nat) returns (found: nat)
      requires lists.Valid() && o <= |lists.lists|
      ensures o <= found <= |lists.lists|
      ensures forall i :: o <= i < found ==> lists.lists[i] == []
      ensures found < |lists.lists| ==> lists.lists[found] != []
    {
      found := o;
      while found < lists.heads.Length && lists.heads[found] == NIL
        invariant o <= found <= |lists.lists|
        invariant forall i :: o <= i < found ==> lists.lists[i] == []
      {
        assert Threaded(lists.lists[found], lists.next[..], lists.prev[..], lists.heads[found]);
        found := found + 1;
      }
      if found < lists.heads.Length {
        assert Threaded(lists.lists[found], lists.next[..], lists.prev[..], lists.heads[found]);
      }
    }

    /** The first block of a non-empty list. */
    method First(o: nat) returns (h: nat)
      requires lists.Valid() && o < |lists.lists| && lists.lists[o] != []
      ensures h == lists.lists[o][0]
    {
      assert Threaded(lists.lists[o], lists.next[..], lists.prev[..], lists.heads[o]);
      h := lists.heads[o];
    }

    /**
     * Takes a block of order `o` out of the free pages, splitting the smallest larger one if need
     * be. It fails only if no list from `o` on has a block.
     */
    method TakeBlock(o: nat) returns (r: Option<nat>)
      requires Sound() && o < |lists.lists|
      modifies this`order, this`blocks, this`own, lists, lists.next, lists.prev, lists.heads
      ensures Sound() && |lists.lists| == old(|lists.lists|)
      ensures r.None? <==> forall i :: o <= i < old(|lists.lists|) ==> old(lists.lists)[i] == []
      ensures r.None? ==> own == old(own) && blocks == old(blocks)
      ensures forall k :: NoPairs(old(blocks), k) ==> NoPairs(blocks, k)
      ensures r.Some? ==> && Aligned(r.value, o) && r.value + P(o) <= |free|
                          && Shrinks(old(own), own, r.value, P(o)) && Vacant(own, r.value, P(o))
      ensures r.Some? ==>
        var f := FirstFrom(old(lists.lists), o);
        && f < |old(lists.lists)| && r.value == old(lists.lists)[f][0]
        && blocks == SplitOff(old(blocks) - {r.value}, r.value, f, o)
    {
      hide Core, Vacant, Shrinks, Extends, Aligned, DropOwn, AddOwn, Linked, Unique, NoPairs, Buddy, P;
      var found := FindOrder(o);
      assert found == FirstFrom(lists.lists, o);
      if found >= lists.heads.Length {
        return None;
      }
      var idx := First(found);
      HeadBlock(|free|, lists.lists, order, blocks, own, found);
      forall k | NoPairs(blocks, k) ensures NoPairs(blocks - {idx}, k) {
        DropNoPairs(blocks, idx, k);
      }
      RemoveBlock(idx);
      ghost var first := found;
      while found > o
        invariant idx !in blocks && forall k :: NoPairs(old(blocks), k) ==> NoPairs(blocks, k)
        invariant Sound() && o <= found < |lists.lists| == old(|lists.lists|)
        invariant Aligned(idx, found) && idx + P(found) <= |free|
        invariant Shrinks(old(own), own, idx, P(found)) && Vacant(own, idx, P(found))
        invariant SplitOff(blocks, idx, found, o) == SplitOff(old(blocks) - {idx}, idx, first, o)
      {
        found := found - 1;
        ghost var own1, blocks1, half := own, blocks, idx + P(found);
        UpperVacant(old(own), own, idx, found);
        PushBlock(idx + P(found), found);
        forall k | NoPairs(blocks1, k) ensures NoPairs(blocks, k) {
          AddNoPairs(blocks1, half, found, k);
        }
        HalfBack(old(own), own1, own, idx, found);
      }
      return Some(idx);
    }

    /** Sets the mark of `n` pages outside the free blocks and clears their order. */
    method MarkRange(idx: nat, n: nat, mark: bool)
      requires Sound() && Vacant(own, idx, n) && idx + n <= |free|
      modifies this`free, this`order
      ensures Sound() && |free| == old(|free|)
      ensures forall p :: 0 <= p < |free| ==> free[p] == if idx <= p < idx + n then mark else old(free)[p]
    {
      hide Core, Linked, Unique;
      var i := 0;
      while i < n
        invariant 0 <= i <= n && |free| == old(|free|) && Sound()
        invariant forall p :: 0 <= p < |free| ==> free[p] == if idx <= p < idx + i then mark else old(free)[p]
      {
        OrderFrame(|free|, lists.lists, order, blocks, own, idx + i);
        free, order := free[idx + i := mark], order[idx + i := 0];
        i := i + 1;
      }
    }

    /** The block after position `k` of a list. */
    method After(h: nat, ghost o: nat, ghost k: nat) returns (next: int)
      requires lists.Valid() && o < |lists.lists| && k < |lists.lists[o]| && lists.lists[o][k] == h
      ensures next == NextOf(lists.lists[o], k)
    {
      assert Threaded(lists.lists[o], lists.next[..], lists.prev[..], lists.heads[o]);
      assert h == lists.lists[o][k] < lists.next.Length;
      next := lists.next[h];
    }

    method Head(o: nat) returns (head: int)
      requires lists.Valid() && o < |lists.lists|
      ensures head == HeadOf(lists.lists[o])
    {
      assert Threaded(lists.lists[o], lists.next[..], lists.prev[..], lists.heads[o]);
      head := lists.heads[o];
    }
  }
}
