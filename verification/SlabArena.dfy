/**
 * The pages under the control-plane allocator: chunks of 65536 pages, each with a buddy allocator of
 * its own. A page number names the chunk and the page within it.
 */
module SlabArena {
  import opened Options
  import opened BuddyMath
  import opened BuddyBlocks
  import opened BuddyCore
  import opened EagerBuddy

  const CHUNK: nat := 65536
  const MAX_CHUNKS: nat := 1024

  lemma ChunkOrder()
    ensures P(MAX_ORDER - 1) == CHUNK
  {
    assert P(4) == 16;
    assert P(8) == 256;
    assert P(12) == 4096;
  }

  function Global(i: nat, local: nat): (p: nat)
    requires local < CHUNK
    ensures p / CHUNK == i && p % CHUNK == local
  {
    i * CHUNK + local
  }

  /** The free pages of chunk `i` are the keys of `owns[i]`. */
  ghost predicate FreePage(owns: seq<Owner>, p: nat) {
    p / CHUNK < |owns| && p % CHUNK in owns[p / CHUNK]
  }

  /** Pages `[h, h + P(o))` are an aligned block inside one chunk. */
  predicate BlockAt(h: nat, o: nat) {
    o < MAX_ORDER && Aligned(h % CHUNK, o) && h % CHUNK + P(o) <= CHUNK
  }

  lemma InBlock(h: nat, o: nat, p: nat)
    requires BlockAt(h, o) && h <= p < h + P(o)
    ensures p / CHUNK == h / CHUNK && p % CHUNK == h % CHUNK + (p - h)
  {
  }

  /** A page whose chunk has just been made, or that was free before. */
  ghost predicate Available(owns: seq<Owner>, p: nat) {
    FreePage(owns, p) || p / CHUNK >= |owns|
  }

  /** A block of free pages, possibly of a new chunk, is free no longer; no other page was taken. */
  ghost predicate TakesBlock(owns: seq<Owner>, owns': seq<Owner>, h: nat, n: nat) {
    && |owns| <= |owns'|
    && (forall p :: h <= p < h + n ==> Available(owns, p) && !FreePage(owns', p) && p / CHUNK < |owns'|)
    && (forall p: nat :: FreePage(owns', p) ==> Available(owns, p))
    && (forall p: nat :: Available(owns, p) && p / CHUNK < |owns'| && !(h <= p < h + n) ==> FreePage(owns', p))
  }

  /** No page was taken; a chunk may have been made. */
  ghost predicate TakesNothing(owns: seq<Owner>, owns': seq<Owner>) {
    && |owns| <= |owns'|
    && (forall p: nat :: FreePage(owns', p) <==> Available(owns, p) && p / CHUNK < |owns'|)
  }

  ghost predicate GivesBlock(owns: seq<Owner>, owns': seq<Owner>, h: nat, n: nat) {
    |owns'| == |owns| && forall p: nat :: FreePage(owns', p) <==> FreePage(owns, p) || h <= p < h + n
  }

  lemma TakeLocal(owns: seq<Owner>, i: nat, own: Owner, local: nat, o: nat)
    requires i < |owns| && Shrinks(owns[i], own, local, P(o)) && local + P(o) <= CHUNK
    ensures TakesBlock(owns, owns[i := own], Global(i, local), P(o))
  {
    var h := Global(i, local);
    forall p | h <= p < h + P(o) ensures p / CHUNK == i && p % CHUNK == local + (p - h) {
    }
    forall p: nat | p / CHUNK == i && local <= p % CHUNK < local + P(o) ensures h <= p < h + P(o) {
    }
  }

  lemma GiveLocal(owns: seq<Owner>, i: nat, own: Owner, local: nat, o: nat)
    requires i < |owns| && Grows(owns[i], own, local, P(o)) && local + P(o) <= CHUNK
    ensures GivesBlock(owns, owns[i := own], Global(i, local), P(o))
  {
    var h := Global(i, local);
    forall p | h <= p < h + P(o) ensures p / CHUNK == i && p % CHUNK == local + (p - h) {
    }
    forall p: nat | p / CHUNK == i && local <= p % CHUNK < local + P(o) ensures h <= p < h + P(o) {
    }
  }

  /** The chunk is new, so its pages were available. */
  lemma TakeFromNew(owns: seq<Owner>, all: Owner, owns': seq<Owner>, h: nat, n: nat)
    requires TakesBlock(owns + [all], owns', h, n) && forall p :: 0 <= p < CHUNK ==> p in all
    ensures TakesBlock(owns, owns', h, n)
  {
    forall p: nat ensures Available(owns + [all], p) <==> Available(owns, p) {
    }
  }

  lemma SameTakesNothing(owns: seq<Owner>)
    ensures TakesNothing(owns, owns)
  {
  }

  lemma NewChunkTakesNothing(owns: seq<Owner>, all: Owner)
    requires forall p :: 0 <= p < CHUNK ==> p in all
    ensures TakesNothing(owns, owns + [all])
  {
  }

  /**
   * A request of `n` pages can be met: it is not larger than a chunk, and some chunk has an aligned
   * free run of the rounded size or another chunk can be made.
   */
  ghost predicate CanTake(owns: seq<Owner>, n: nat, mapped: bool) {
    && n > 0 && CeilLog(n) < MAX_ORDER
    && ((exists i :: 0 <= i < |owns| && HasRun(CHUNK, owns[i], CeilLog(n))) || (|owns| < MAX_CHUNKS && mapped))
  }

  ghost function Parts(b: PageTable): set<object> {
    {b, b.lists, b.lists.next, b.lists.prev, b.lists.heads}
  }

  class Arena {
    var chunks: seq<PageTable>
    ghost var owns: seq<Owner>

    /** Everything the arena is made of. */
    ghost var footprint: set<object>

    ghost predicate Separate()
      reads this
    {
      && this in footprint
      && (forall i :: 0 <= i < |chunks| ==> Parts(chunks[i]) <= footprint && this !in Parts(chunks[i]))
      && (forall i, j :: 0 <= i < j < |chunks| ==> Parts(chunks[i]) !! Parts(chunks[j]))
    }

    ghost predicate Valid()
      reads this, footprint
    {
      && Separate() && |owns| == |chunks| <= MAX_CHUNKS
      && (forall i :: 0 <= i < |chunks| ==>
            Settled(chunks[i]) && |chunks[i].free| == CHUNK && chunks[i].own == owns[i])
    }

    constructor ()
      ensures Valid() && fresh(footprint) && chunks == []
    {
      chunks, owns, footprint := [], [], {this};
    }

    /** Takes a block from chunk `i`, if that has an aligned free run of the rounded size. */
    method TakeFrom(i: nat, n: nat) returns (r: Option<nat>)
      requires Valid() && i < |chunks|
      modifies this`owns, Parts(chunks[i])
      ensures Valid()
      ensures r.Some? <==> n > 0 && CeilLog(n) < MAX_ORDER && HasRun(CHUNK, old(owns)[i], CeilLog(n))
      ensures r.None? ==> owns == old(owns)
      ensures r.Some? ==> BlockAt(r.value, CeilLog(n)) && TakesBlock(old(owns), owns, r.value, P(CeilLog(n)))
                          && |owns| == old(|owns|)
    {
      hide Settled, HasRun, Shrinks, P, TakesBlock, Aligned, CeilLog;
      var b := chunks[i];
      assert forall j :: 0 <= j < |chunks| && j != i ==> Parts(chunks[j]) !! Parts(b);
      var local := AllocBlock(b, n);
      if local.None? {
        return None;
      }
      TakeLocal(owns, i, b.own, local.value, CeilLog(n));
      owns := owns[i := b.own];
      return Some(Global(i, local.value));
    }

    /** Makes a chunk with all pages free, unless the arena is full or no memory is mapped. */
    method NewArenaChunk(mapped: bool) returns (ok: bool)
      requires Valid()
      modifies this
      ensures Valid() && ok == (old(|chunks|) < MAX_CHUNKS && mapped)
      ensures ok ==> |owns| == |old(owns)| + 1 && owns == old(owns) + [owns[|old(owns)|]]
                     && forall p :: 0 <= p < CHUNK ==> p in owns[|old(owns)|]
      ensures !ok ==> owns == old(owns) && chunks == old(chunks)
      ensures fresh(footprint - old(footprint)) && old(footprint) <= footprint
      ensures ok ==> |chunks| == old(|chunks|) + 1 && fresh(Parts(chunks[old(|chunks|)]))
    {
      hide Settled, P;
      if |chunks| >= MAX_CHUNKS || !mapped {
        return false;
      }
      ChunkOrder();
      var b := NewChunk();
      chunks, owns, footprint := chunks + [b], owns + [b.own], footprint + Parts(b);
      return true;
    }

    /**
     * Tries the chunks in order, then a new one. It fails only if the request is larger than a chunk,
     * or no chunk has an aligned free run of the rounded size and none can be made.
     */
    method Take(n: nat, mapped: bool) returns (r: Option<nat>)
      requires Valid()
      modifies footprint
      ensures Valid() && fresh(footprint - old(footprint)) && old(footprint) <= footprint && old(|owns|) <= |owns|
      ensures r.Some? <==> CanTake(old(owns), n, mapped)
      ensures r.Some? ==> BlockAt(r.value, CeilLog(n)) && TakesBlock(old(owns), owns, r.value, P(CeilLog(n)))
      ensures r.None? ==> TakesNothing(old(owns), owns)
    {
      hide Settled, HasRun, P, TakesBlock, TakesNothing, Aligned, CeilLog, BlockAt;
      var i := 0;
      while i < |chunks|
        invariant 0 <= i <= |chunks| && Valid() && owns == old(owns) && footprint == old(footprint)
        invariant n > 0 && CeilLog(n) < MAX_ORDER ==>
          forall j :: 0 <= j < i ==> !HasRun(CHUNK, owns[j], CeilLog(n))
      {
        r := TakeFrom(i, n);
        if r.Some? {
          return;
        }
        i := i + 1;
      }
      var ok := NewArenaChunk(mapped);
      if !ok {
        SameTakesNothing(owns);
        return None;
      }
      ghost var all := owns[i];
      NewRun(all, CeilLog(n));
      NewChunkTakesNothing(old(owns), all);
      r := TakeFrom(i, n);
      if r.Some? {
        TakeFromNew(old(owns), all, owns, r.value, P(CeilLog(n)));
      }
    }

    /** Returns a block to its chunk. */
    method Give(h: nat, o: nat)
      requires Valid() && BlockAt(h, o) && h / CHUNK < |owns| && forall p :: h <= p < h + P(o) ==> !FreePage(owns, p)
      modifies footprint
      ensures Valid() && footprint == old(footprint) && GivesBlock(old(owns), owns, h, P(o))
    {
      hide Settled, P, GivesBlock, Aligned;
      var i, local := h / CHUNK, h % CHUNK;
      var b := chunks[i];
      LocalVacant(owns, h, o);
      assert forall j :: 0 <= j < |chunks| && j != i ==> Parts(chunks[j]) !! Parts(b);
      FreeBlock(b, local, o);
      GiveLocal(owns, i, b.own, local, o);
      owns := owns[i := b.own];
    }
  }

  lemma NewRun(all: Owner, o: nat)
    requires forall p :: 0 <= p < CHUNK ==> p in all
    ensures o < MAX_ORDER ==> HasRun(CHUNK, all, o)
  {
    if o < MAX_ORDER {
      ChunkOrder();
      PMonotone(o, MAX_ORDER - 1);
      AlignedZero(o);
      assert FreeRun(all, 0, o);
    }
  }

  lemma LocalVacant(owns: seq<Owner>, h: nat, o: nat)
    requires BlockAt(h, o) && h / CHUNK < |owns| && forall p :: h <= p < h + P(o) ==> !FreePage(owns, p)
    ensures Vacant(owns[h / CHUNK], h % CHUNK, P(o))
  {
    forall q | h % CHUNK <= q < h % CHUNK + P(o) ensures q !in owns[h / CHUNK] {
      var p := h + (q - h % CHUNK);
      InBlock(h, o, p);
      assert !FreePage(owns, p);
    }
  }
}
