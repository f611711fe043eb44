/**
 * Page descriptors of the control-plane allocator. Each page of a span names the span, each page of
 * a large allocation its length; every other page of the chunks is free in its buddy allocator.
 */
module SlabPages {
  import opened Options
  import opened BuddyMath
  import opened BuddyBlocks
  import opened Slab
  import opened SlabArena

  datatype PageInfo = OfSpan(head: nat) | OfLarge(pages: nat)

  type Infos = map<nat, PageInfo>

  /** The block is as the buddy allocator hands it out. */
  predicate WholeBlock(h: nat, pages: nat) {
    BlockAt(h, CeilLog(pages)) && P(CeilLog(pages)) == pages
  }

  /** The first page of the large allocation of `n` pages that page `p` is in: the low bits cleared. */
  function HeadOf(p: nat, n: nat): nat {
    p / CHUNK * CHUNK + Floor(p % CHUNK, CeilLog(n))
  }

  /** Clearing the low bits of any page of a block gives its first page. */
  lemma MaskFindsHead(h: nat, n: nat, p: nat)
    requires WholeBlock(h, n) && h <= p < h + n
    ensures HeadOf(p, n) == h
  {
    hide P, Floor, Shift, Aligned;
    var o := CeilLog(n);
    InBlock(h, o, p);
    FloorOf(p % CHUNK, o);
    ShiftIsRange(h % CHUNK, o, p % CHUNK);
    AlignedUnique(Floor(p % CHUNK, o), h % CHUNK, o);
  }

  lemma RoundedIsWhole(h: nat, n: nat)
    requires BlockAt(h, CeilLog(n))
    ensures WholeBlock(h, P(CeilLog(n)))
  {
    hide P;
    var k := CeilLog(n);
    var j := CeilLog(P(k));
    if j < k {
      PMonotone(j, k - 1);
    } else if j > k {
      PMonotone(k, j - 1);
    }
  }

  predicate Inside(p: nat, h: nat, pages: nat) {
    h <= p < h + pages
  }

  ghost predicate Blocks(spans: Spans, larges: Larges) {
    && (forall h :: h in spans ==> WholeBlock(h, spans[h].pages) && h !in larges)
    && (forall h :: h in larges ==> WholeBlock(h, larges[h].pages))
  }

  ghost predicate SpanPaged(spans: Spans, infos: Infos) {
    forall h: nat, p: nat :: h in spans && Inside(p, h, spans[h].pages) ==> p in infos && infos[p] == OfSpan(h)
  }

  ghost predicate LargePaged(larges: Larges, infos: Infos) {
    forall h: nat, p: nat :: h in larges && Inside(p, h, larges[h].pages) ==>
      p in infos && infos[p] == OfLarge(larges[h].pages)
  }

  /** What a descriptor says is so. */
  ghost predicate Told(spans: Spans, larges: Larges, p: nat, info: PageInfo) {
    match info
    case OfSpan(h) => h in spans && Inside(p, h, spans[h].pages)
    case OfLarge(n) => HeadOf(p, n) in larges && larges[HeadOf(p, n)].pages == n && Inside(p, HeadOf(p, n), n)
  }

  ghost predicate AllTold(spans: Spans, larges: Larges, infos: Infos) {
    forall p :: p in infos ==> Told(spans, larges, p, infos[p])
  }

  /** Every page of every chunk is free or described, and not both. */
  ghost predicate Balanced(owns: seq<Owner>, infos: Infos) {
    forall p: nat :: p in infos <==> p / CHUNK < |owns| && !FreePage(owns, p)
  }

  ghost predicate PagesInv(spans: Spans, larges: Larges, infos: Infos, owns: seq<Owner>) {
    && Blocks(spans, larges) && SpanPaged(spans, infos) && LargePaged(larges, infos)
    && AllTold(spans, larges, infos) && Balanced(owns, infos)
  }

  /** Exactly the pages of the range got descriptor `x`, or lost theirs. */
  ghost predicate Repainted(infos: Infos, infos': Infos, h: nat, n: nat, x: Option<PageInfo>) {
    forall p: nat ::
      if Inside(p, h, n) then (if x.Some? then p in infos' && infos'[p] == x.value else p !in infos')
      else (p in infos' <==> p in infos) && (p in infos ==> infos'[p] == infos[p])
  }

  // ---------------------------------------------------------------- a block taken

  /** A block that the arena hands out overlaps no span and no large allocation. */
  lemma TakenIsFresh(spans: Spans, larges: Larges, infos: Infos, owns: seq<Owner>, owns': seq<Owner>, h: nat, n: nat)
    requires PagesInv(spans, larges, infos, owns) && TakesBlock(owns, owns', h, n) && n > 0
    ensures Fresh(spans, larges, h, n) && forall p: nat :: Inside(p, h, n) ==> p !in infos
  {
    forall p: nat | Inside(p, h, n) ensures p !in infos {
      assert Available(owns, p);
    }
    forall g: nat | IsHead(spans, larges, g) ensures g != h && Apart(h, n, g, PagesAt(spans, larges, g)) {
      var m := PagesAt(spans, larges, g);
      HeadIsPaged(spans, larges, infos, owns, g);
      var p := if h < g then g else h;
      if !Apart(h, n, g, m) {
        assert Inside(p, h, n) && Inside(p, g, m);
      }
    }
  }

  lemma HeadIsPaged(spans: Spans, larges: Larges, infos: Infos, owns: seq<Owner>, g: nat)
    requires PagesInv(spans, larges, infos, owns) && IsHead(spans, larges, g)
    ensures PagesAt(spans, larges, g) > 0 && forall p: nat :: Inside(p, g, PagesAt(spans, larges, g)) ==> p in infos
    ensures g in infos
  {
    hide Balanced, AllTold;
    var m := PagesAt(spans, larges, g);
    assert WholeBlock(g, m);
    assert Inside(g, g, m);
  }

  lemma TakeBalances(infos: Infos, infos': Infos, owns: seq<Owner>, owns': seq<Owner>, h: nat, n: nat, x: PageInfo)
    requires Balanced(owns, infos) && TakesBlock(owns, owns', h, n) && Repainted(infos, infos', h, n, Some(x))
    ensures Balanced(owns', infos')
  {
    forall p: nat ensures p in infos' <==> p / CHUNK < |owns'| && !FreePage(owns', p) {
      assert p in infos <==> p / CHUNK < |owns| && !FreePage(owns, p);
      if Inside(p, h, n) {
        assert p / CHUNK < |owns'| && !FreePage(owns', p);
      } else {
        assert Available(owns, p) && p / CHUNK < |owns'| ==> FreePage(owns', p);
      }
    }
  }

  lemma NothingBalances(infos: Infos, owns: seq<Owner>, owns': seq<Owner>)
    requires Balanced(owns, infos) && TakesNothing(owns, owns')
    ensures Balanced(owns', infos)
  {
    forall p: nat ensures p in infos <==> p / CHUNK < |owns'| && !FreePage(owns', p) {
      assert p in infos <==> p / CHUNK < |owns| && !FreePage(owns, p);
    }
  }

  /** Descriptors outside a block in which no other region lies are as good as before. */
  lemma SpanPagedStill(spans: Spans, infos: Infos, infos': Infos, h: nat, n: nat, x: Option<PageInfo>)
    requires SpanPaged(spans, infos) && Repainted(infos, infos', h, n, x)
    requires forall g :: g in spans ==> Apart(h, n, g, spans[g].pages)
    ensures SpanPaged(spans, infos')
  {
    forall g: nat, p: nat | g in spans && Inside(p, g, spans[g].pages) ensures p in infos' && infos'[p] == OfSpan(g) {
      assert !Inside(p, h, n);
    }
  }

  lemma LargePagedStill(larges: Larges, infos: Infos, infos': Infos, h: nat, n: nat, x: Option<PageInfo>)
    requires LargePaged(larges, infos) && Repainted(infos, infos', h, n, x)
    requires forall g :: g in larges ==> Apart(h, n, g, larges[g].pages)
    ensures LargePaged(larges, infos')
  {
    forall g: nat, p: nat | g in larges && Inside(p, g, larges[g].pages)
      ensures p in infos' && infos'[p] == OfLarge(larges[g].pages)
    {
      assert !Inside(p, h, n);
    }
  }

  lemma FreshApart(spans: Spans, larges: Larges, h: nat, n: nat)
    requires Fresh(spans, larges, h, n) && Blocks(spans, larges)
    ensures forall g :: g in spans ==> Apart(h, n, g, spans[g].pages)
    ensures forall g :: g in larges ==> Apart(h, n, g, larges[g].pages)
    ensures h !in spans && h !in larges
  {
    hide WholeBlock;
    assert forall g: nat :: g in spans ==> IsHead(spans, larges, g) && PagesAt(spans, larges, g) == spans[g].pages;
    assert forall g: nat :: g in larges ==> IsHead(spans, larges, g) && PagesAt(spans, larges, g) == larges[g].pages;
  }

  lemma NewSpanPaged(spans: Spans, infos: Infos, h: nat, sp: Span)
    requires SpanPaged(spans, infos) && forall p: nat :: Inside(p, h, sp.pages) ==> p in infos && infos[p] == OfSpan(h)
    ensures SpanPaged(spans[h := sp], infos)
  {
  }

  lemma NewSpanTold(spans: Spans, larges: Larges, infos: Infos, infos': Infos, h: nat, sp: Span)
    requires AllTold(spans, larges, infos) && h !in spans
    requires Repainted(infos, infos', h, sp.pages, Some(OfSpan(h)))
    ensures AllTold(spans[h := sp], larges, infos')
  {
    hide HeadOf;
    forall p | p in infos' ensures Told(spans[h := sp], larges, p, infos'[p]) {
      if !Inside(p, h, sp.pages) {
        assert Told(spans, larges, p, infos[p]);
      }
    }
  }

  /** A new span in a block that the arena has handed out. */
  lemma NewSpanPages(spans: Spans, larges: Larges, infos: Infos, infos': Infos, owns: seq<Owner>, owns': seq<Owner>,
                     h: nat, sp: Span)
    requires PagesInv(spans, larges, infos, owns) && Fresh(spans, larges, h, sp.pages) && WholeBlock(h, sp.pages)
    requires TakesBlock(owns, owns', h, sp.pages) && Repainted(infos, infos', h, sp.pages, Some(OfSpan(h)))
    ensures PagesInv(spans[h := sp], larges, infos', owns')
  {
    TakeBalances(infos, infos', owns, owns', h, sp.pages, OfSpan(h));
    FreshApart(spans, larges, h, sp.pages);
    SpanPagedStill(spans, infos, infos', h, sp.pages, Some(OfSpan(h)));
    LargePagedStill(larges, infos, infos', h, sp.pages, Some(OfSpan(h)));
    NewSpanTold(spans, larges, infos, infos', h, sp);
    NewSpanPaged(spans, infos', h, sp);
    hide TakesBlock, WholeBlock, SpanPaged, LargePaged, AllTold, Balanced, Repainted, Fresh;
  }

  lemma NewLargePaged(larges: Larges, infos: Infos, h: nat, l: Large)
    requires LargePaged(larges, infos)
    requires forall p: nat :: Inside(p, h, l.pages) ==> p in infos && infos[p] == OfLarge(l.pages)
    ensures LargePaged(larges[h := l], infos)
  {
  }

  lemma NewLargeTold(spans: Spans, larges: Larges, infos: Infos, infos': Infos, h: nat, l: Large)
    requires AllTold(spans, larges, infos) && h !in larges && WholeBlock(h, l.pages)
    requires Repainted(infos, infos', h, l.pages, Some(OfLarge(l.pages)))
    ensures AllTold(spans, larges[h := l], infos')
  {
    hide HeadOf, WholeBlock;
    forall p | p in infos' ensures Told(spans, larges[h := l], p, infos'[p]) {
      if Inside(p, h, l.pages) {
        MaskFindsHead(h, l.pages, p);
      } else {
        assert Told(spans, larges, p, infos[p]);
      }
    }
  }

  lemma NewLargePages(spans: Spans, larges: Larges, infos: Infos, infos': Infos, owns: seq<Owner>, owns': seq<Owner>,
                      h: nat, l: Large)
    requires PagesInv(spans, larges, infos, owns) && Fresh(spans, larges, h, l.pages) && WholeBlock(h, l.pages)
    requires TakesBlock(owns, owns', h, l.pages) && Repainted(infos, infos', h, l.pages, Some(OfLarge(l.pages)))
    ensures PagesInv(spans, larges[h := l], infos', owns')
  {
    var x := OfLarge(l.pages);
    TakeBalances(infos, infos', owns, owns', h, l.pages, x);
    FreshApart(spans, larges, h, l.pages);
    SpanPagedStill(spans, infos, infos', h, l.pages, Some(x));
    LargePagedStill(larges, infos, infos', h, l.pages, Some(x));
    NewLargeTold(spans, larges, infos, infos', h, l);
    NewLargePaged(larges, infos', h, l);
    hide TakesBlock, WholeBlock, SpanPaged, LargePaged, AllTold, Balanced, Repainted, Fresh;
  }

  /** Slots come and go without the pages noticing. */
  lemma SameShapePages(spans: Spans, spans': Spans, larges: Larges, infos: Infos, owns: seq<Owner>)
    requires PagesInv(spans, larges, infos, owns) && SameShape(spans, spans')
    ensures PagesInv(spans', larges, infos, owns)
  {
    hide WholeBlock, HeadOf, Balanced;
    forall p | p in infos ensures Told(spans', larges, p, infos[p]) {
      assert Told(spans, larges, p, infos[p]);
    }
  }

  // ---------------------------------------------------------------- a block given back

  lemma GiveBalances(infos: Infos, infos': Infos, owns: seq<Owner>, owns': seq<Owner>, h: nat, n: nat)
    requires Balanced(owns, infos) && GivesBlock(owns, owns', h, n) && Repainted(infos, infos', h, n, None)
    requires forall p: nat :: Inside(p, h, n) ==> p in infos
    ensures Balanced(owns', infos')
  {
    forall p: nat ensures p in infos' <==> p / CHUNK < |owns'| && !FreePage(owns', p) {
      assert p in infos <==> p / CHUNK < |owns| && !FreePage(owns, p);
      assert Inside(p, h, n) ==> p !in infos';
    }
  }

  /** The block of a region is one that the arena takes back. */
  lemma RegionIsBlock(spans: Spans, larges: Larges, infos: Infos, owns: seq<Owner>, h: nat)
    requires PagesInv(spans, larges, infos, owns) && IsHead(spans, larges, h)
    ensures var n := PagesAt(spans, larges, h);
      && WholeBlock(h, n) && h / CHUNK < |owns|
      && (forall p :: h <= p < h + n ==> !FreePage(owns, p))
      && (forall p: nat :: Inside(p, h, n) ==> p in infos)
  {
    HeadIsPaged(spans, larges, infos, owns, h);
    forall p | h <= p < h + PagesAt(spans, larges, h) ensures !FreePage(owns, p) {
      assert Inside(p, h, PagesAt(spans, larges, h));
    }
  }

  lemma DropSpanTold(spans: Spans, larges: Larges, infos: Infos, infos': Infos, h: nat)
    requires h in spans && AllTold(spans, larges, infos) && Repainted(infos, infos', h, spans[h].pages, None)
    ensures AllTold(spans - {h}, larges, infos')
  {
    hide HeadOf;
    forall p | p in infos' ensures Told(spans - {h}, larges, p, infos'[p]) {
      assert !Inside(p, h, spans[h].pages);
      assert Told(spans, larges, p, infos[p]);
    }
  }

  lemma DropSpanPages(spans: Spans, larges: Larges, infos: Infos, infos': Infos, owns: seq<Owner>, owns': seq<Owner>,
                      h: nat)
    requires PagesInv(spans, larges, infos, owns) && Regions(spans, larges) && h in spans
    requires GivesBlock(owns, owns', h, spans[h].pages) && Repainted(infos, infos', h, spans[h].pages, None)
    ensures PagesInv(spans - {h}, larges, infos', owns')
  {
    var n := spans[h].pages;
    RegionIsBlock(spans, larges, infos, owns, h);
    GiveBalances(infos, infos', owns, owns', h, n);
    OthersApart(spans, larges, h);
    SpanPagedLess(spans, infos, h);
    SpanPagedStill(spans - {h}, infos, infos', h, n, None);
    LargePagedStill(larges, infos, infos', h, n, None);
    DropSpanTold(spans, larges, infos, infos', h);
    hide GivesBlock, WholeBlock, SpanPaged, LargePaged, AllTold, Balanced, Repainted, Regions;
  }

  lemma SpanPagedLess(spans: Spans, infos: Infos, h: nat)
    requires SpanPaged(spans, infos)
    ensures SpanPaged(spans - {h}, infos)
  {
  }

  lemma OthersApart(spans: Spans, larges: Larges, h: nat)
    requires Regions(spans, larges) && IsHead(spans, larges, h)
    ensures var n := PagesAt(spans, larges, h);
      && (forall g :: g in spans && g != h ==> Apart(h, n, g, spans[g].pages))
      && (forall g :: g in larges && g != h ==> Apart(h, n, g, larges[g].pages))
    ensures h in spans ==> h !in larges
  {
    assert forall g: nat :: g in spans ==> IsHead(spans, larges, g) && PagesAt(spans, larges, g) == spans[g].pages;
    assert forall g: nat :: g in larges ==> IsHead(spans, larges, g) && PagesAt(spans, larges, g) == larges[g].pages;
  }

  lemma DropLargeTold(spans: Spans, larges: Larges, infos: Infos, infos': Infos, h: nat)
    requires h in larges && AllTold(spans, larges, infos) && Repainted(infos, infos', h, larges[h].pages, None)
    ensures AllTold(spans, larges - {h}, infos')
  {
    hide HeadOf;
    forall p | p in infos' ensures Told(spans, larges - {h}, p, infos'[p]) {
      assert !Inside(p, h, larges[h].pages);
      assert Told(spans, larges, p, infos[p]);
    }
  }

  lemma DropLargePages(spans: Spans, larges: Larges, infos: Infos, infos': Infos, owns: seq<Owner>, owns': seq<Owner>,
                       h: nat)
    requires PagesInv(spans, larges, infos, owns) && Regions(spans, larges) && h in larges
    requires GivesBlock(owns, owns', h, larges[h].pages) && Repainted(infos, infos', h, larges[h].pages, None)
    ensures PagesInv(spans, larges - {h}, infos', owns')
  {
    var n := larges[h].pages;
    RegionIsBlock(spans, larges, infos, owns, h);
    OthersApart(spans, larges, h);
    assert h !in spans && PagesAt(spans, larges, h) == n;
    GiveBalances(infos, infos', owns, owns', h, n);
    SpanPagedStill(spans, infos, infos', h, n, None);
    LargePagedLess(larges, infos, h);
    LargePagedStill(larges - {h}, infos, infos', h, n, None);
    DropLargeTold(spans, larges, infos, infos', h);
    hide GivesBlock, WholeBlock, SpanPaged, LargePaged, AllTold, Balanced, Repainted, Regions;
  }

  lemma LargePagedLess(larges: Larges, infos: Infos, h: nat)
    requires LargePaged(larges, infos)
    ensures LargePaged(larges - {h}, infos)
  {
  }

  // ---------------------------------------------------------------- finding the region of an address

  /** The descriptor of the page of a live allocation leads to its region. */
  lemma LivePage(spans: Spans, larges: Larges, live: Live, slots: Slots, infos: Infos, owns: seq<Owner>, a: nat)
    requires MemInv(spans, larges, live, slots) && PagesInv(spans, larges, infos, owns) && a in live
    ensures a / PAGE in infos
    ensures a in slots ==> infos[a / PAGE] == OfSpan(slots[a]) && slots[a] in spans
    ensures a !in slots ==> infos[a / PAGE].OfLarge?
                            && var h := HeadOf(a / PAGE, infos[a / PAGE].pages); h in larges && a == LargeAddr(h)
  {
    hide MemInv, Balanced, AllTold, WholeBlock, HeadOf;
    var h := LiveRegion(spans, larges, live, slots, a);
    var n := PagesAt(spans, larges, h);
    assert Inside(a / PAGE, h, n);
    if a !in slots {
      assert larges[h].pages == n;
      MaskFindsHead(h, n, a / PAGE);
    }
  }
}
