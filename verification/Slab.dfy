/**
 * The control-plane allocator above the page blocks: size classes with spans of equal slots, and
 * large allocations with a header of their own. `live` maps the address of each allocation that
 * has not been freed to the number of bytes it was charged; `slots` maps the address of each slot
 * of an existing span to the first page of the span.
 */
module Slab {
  import opened Options
  import opened BuddyMath

  const PAGE: nat := 4096
  const HEADER: nat := 16

  const SIZES: seq<nat> := [16, 32, 48, 64, 80, 112, 144, 192, 256, 320, 384, 512, 768, 1024, 1536, 2048, 3072, 4096,
                            5120, 8192, 12288, 16384, 24576, 32768, 49152, 65536]

  type Live = map<nat, nat>
  type Slots = map<nat, nat>

  /** A span of slots; `free` is its free list of addresses. */
  datatype Span = Span(cls: nat, pages: nat, free: seq<nat>, used: nat)

  datatype Large = Large(pages: nat, requested: nat)

  type Spans = map<nat, Span>
  type Larges = map<nat, Large>

  // ---------------------------------------------------------------- size classes

  function Size(c: nat): (n: nat)
    requires c < |SIZES|
    ensures n > 0
  {
    SIZES[c]
  }

  /** Slots aimed at in one span. */
  function TargetSlots(size: nat): (n: nat)
    ensures n > 0
  {
    if size <= 512 then 64 else if size <= 2048 then 32 else if size <= 8192 then 16 else if size <= 16384 then 4 else 1
  }

  function PagesForSpan(size: nat): (n: nat)
    requires size > 0
    ensures n > 0 && n * PAGE >= size * TargetSlots(size)
  {
    var n := (size * TargetSlots(size) + PAGE - 1) / PAGE;
    if n == 0 then 1 else n
  }

  function SlotsPerSpan(size: nat): (n: nat)
    requires size > 0
    ensures n > 0 && n * size <= PagesForSpan(size) * PAGE < (n + 1) * size
  {
    var bytes := PagesForSpan(size) * PAGE;
    SlotsFit(bytes, size, TargetSlots(size));
    bytes / size
  }

  lemma SlotsFit(bytes: nat, size: nat, target: nat)
    requires size > 0 && target > 0 && bytes >= size * target
    ensures bytes / size > 0 && (bytes / size) * size <= bytes < (bytes / size + 1) * size
  {
    assert bytes >= size by { assert size * target >= size; }
  }

  function MaxEmpty(size: nat): nat {
    if size <= 1024 then 8 else if size <= 8192 then 2 else if size <= 16384 then 1 else 0
  }

  const SPAN_PAGES: seq<nat> := [1, 1, 1, 1, 2, 2, 3, 3, 4, 5, 6, 8, 6, 8, 12, 16, 12, 16, 20, 32, 12, 16, 6, 8, 12, 16]
  const SPARE_SPANS: seq<nat> := [8, 8, 8, 8, 8, 8, 8, 8, 8, 8, 8, 8, 8, 8, 2, 2, 2, 2, 2, 2, 1, 1, 0, 0, 0, 0]

  /** What the formulas come to for each class: pages asked for, and unused spans kept. */
  lemma SpanPagesTable(c: nat)
    requires c < |SIZES|
    ensures |SPAN_PAGES| == |SIZES| && PagesForSpan(SIZES[c]) == SPAN_PAGES[c]
  {
  }

  lemma SpareSpansTable(c: nat)
    requires c < |SIZES|
    ensures |SPARE_SPANS| == |SIZES| && MaxEmpty(SIZES[c]) == SPARE_SPANS[c]
  {
  }

  /** Pages that the block allocator hands out for a span of this class. */
  function SpanPages(c: nat): (n: nat)
    requires c < |SIZES|
    ensures n >= PagesForSpan(Size(c))
  {
    P(CeilLog(PagesForSpan(Size(c))))
  }

  /** The smallest class that holds `size` bytes, searched from class `i` on. */
  function ClassFrom(size: nat, i: nat): (r: Option<nat>)
    requires i <= |SIZES|
    ensures r.Some? ==> && i <= r.value < |SIZES| && size <= SIZES[r.value]
                        && forall j :: i <= j < r.value ==> SIZES[j] < size
    ensures r.None? <==> forall j :: i <= j < |SIZES| ==> SIZES[j] < size
    decreases |SIZES| - i
  {
    if i == |SIZES| then None else if size <= SIZES[i] then Some(i) else ClassFrom(size, i + 1)
  }

  method ClassOf(size: nat) returns (r: Option<nat>)
    ensures r == ClassFrom(size, 0)
  {
    var i := 0;
    while i < |SIZES|
      invariant 0 <= i <= |SIZES| && ClassFrom(size, i) == ClassFrom(size, 0)
    {
      if size <= SIZES[i] {
        return Some(i);
      }
      i := i + 1;
    }
    return None;
  }

  /** Pages that a large allocation needs, header included. */
  function PagesForLarge(size: nat): (n: nat)
    ensures n * PAGE >= HEADER + size
  {
    (HEADER + size + PAGE - 1) / PAGE
  }

  lemma FewestPages(size: nat)
    ensures (PagesForLarge(size) - 1) * PAGE < HEADER + size
  {
  }

  /** The page count survives its cast to 32 bits if and only if the request is below about 2^44 bytes. */
  lemma PagesFitCast(size: nat)
    ensures PagesForLarge(size) % 0x1_0000_0000 == PagesForLarge(size) <==> HEADER + size <= 0xFFFF_FFFF * PAGE
  {
  }

  /** Pages of the block for a large allocation. */
  function LargePages(size: nat): (n: nat)
    ensures n * PAGE >= HEADER + size
  {
    P(CeilLog(PagesForLarge(size)))
  }

  // ---------------------------------------------------------------- sums over live allocations

  ghost function Sum(live: Live): nat {
    if live == map[] then 0 else var a :| a in live; live[a] + Sum(live - {a})
  }

  /** The sum does not depend on the order in which it is taken. */
  lemma {:induction false} SumSplit(live: Live, a: nat)
    requires a in live
    ensures Sum(live) == live[a] + Sum(live - {a})
    decreases |live|
  {
    var b :| b in live && Sum(live) == live[b] + Sum(live - {b});
    if a != b {
      SumSplit(live - {b}, a);
      SumSplit(live - {a}, b);
      assert live - {b} - {a} == live - {a} - {b};
    }
  }

  lemma SumAdd(live: Live, a: nat, n: nat)
    requires a !in live
    ensures Sum(live[a := n]) == Sum(live) + n
  {
    SumSplit(live[a := n], a);
    assert live[a := n] - {a} == live;
  }

  // ---------------------------------------------------------------- the invariant of the memory

  ghost predicate NoDup(q: seq<nat>) {
    forall i, j :: 0 <= i < j < |q| ==> q[i] != q[j]
  }

  ghost function LiveIn(live: Live, slots: Slots, h: nat): set<nat> {
    set a | a in live && a in slots && slots[a] == h
  }

  /** A span's free list and count are those of its slots that are not live. */
  ghost predicate SpanOk(live: Live, slots: Slots, h: nat, sp: Span) {
    && sp.cls < |SIZES| && sp.pages == SpanPages(sp.cls)
    && |sp.free| + sp.used == SlotsPerSpan(Size(sp.cls))
    && NoDup(sp.free)
    && (forall i :: 0 <= i < |sp.free| ==> sp.free[i] in slots && slots[sp.free[i]] == h && sp.free[i] !in live)
    && sp.used == |LiveIn(live, slots, h)|
  }

  predicate Within(a: nat, n: nat, h: nat, pages: nat) {
    h * PAGE <= a && a + n <= (h + pages) * PAGE
  }

  ghost predicate SlotOk(spans: Spans, slots: Slots, a: nat)
    requires a in slots
  {
    slots[a] in spans && spans[slots[a]].cls < |SIZES|
    && Within(a, Size(spans[slots[a]].cls), slots[a], spans[slots[a]].pages)
  }

  predicate Apart(a: nat, n: nat, b: nat, m: nat) {
    a + n <= b || b + m <= a
  }

  ghost predicate SlotsApart(spans: Spans, slots: Slots, a: nat, b: nat)
    requires a in slots && slots[a] in spans && spans[slots[a]].cls < |SIZES|
  {
    b in slots && slots[b] == slots[a] && a != b ==>
      Apart(a, Size(spans[slots[a]].cls), b, Size(spans[slots[a]].cls))
  }

  function LargeAddr(h: nat): nat {
    h * PAGE + HEADER
  }

  ghost predicate LargeOk(live: Live, slots: Slots, h: nat, l: Large) {
    && LargeAddr(h) in live && LargeAddr(h) !in slots && live[LargeAddr(h)] == l.requested
    && 0 < l.requested && HEADER + l.requested <= l.pages * PAGE
  }

  ghost predicate LiveOk(spans: Spans, larges: Larges, live: Live, slots: Slots, a: nat)
    requires a in live
  {
    if a in slots then slots[a] in spans && spans[slots[a]].cls < |SIZES| && live[a] == Size(spans[slots[a]].cls)
    else a >= HEADER && (a - HEADER) % PAGE == 0 && (a - HEADER) / PAGE in larges
  }

  predicate IsHead(spans: Spans, larges: Larges, h: nat) {
    h in spans || h in larges
  }

  function PagesAt(spans: Spans, larges: Larges, h: nat): nat
    requires IsHead(spans, larges, h)
  {
    if h in spans then spans[h].pages else larges[h].pages
  }

  ghost predicate Regions(spans: Spans, larges: Larges) {
    && (forall h :: h in spans ==> h !in larges)
    && (forall h, g :: IsHead(spans, larges, h) && IsHead(spans, larges, g) && h != g ==>
          Apart(h, PagesAt(spans, larges, h), g, PagesAt(spans, larges, g)))
  }

  ghost predicate SpansOk(spans: Spans, live: Live, slots: Slots) {
    forall h :: h in spans ==> SpanOk(live, slots, h, spans[h])
  }

  ghost predicate SlotsInside(spans: Spans, slots: Slots) {
    forall a :: a in slots ==> SlotOk(spans, slots, a)
  }

  ghost predicate SlotsDisjoint(spans: Spans, slots: Slots)
    requires SlotsInside(spans, slots)
  {
    forall a, b :: a in slots && b in slots ==> SlotOk(spans, slots, a) && SlotsApart(spans, slots, a, b)
  }

  ghost predicate LargesOk(larges: Larges, live: Live, slots: Slots) {
    forall h :: h in larges ==> LargeOk(live, slots, h, larges[h])
  }

  ghost predicate LivesOk(spans: Spans, larges: Larges, live: Live, slots: Slots) {
    forall a :: a in live ==> LiveOk(spans, larges, live, slots, a)
  }

  ghost predicate MemInv(spans: Spans, larges: Larges, live: Live, slots: Slots) {
    && Regions(spans, larges)
    && SpansOk(spans, live, slots)
    && SlotsInside(spans, slots) && SlotsDisjoint(spans, slots)
    && LargesOk(larges, live, slots)
    && LivesOk(spans, larges, live, slots)
  }

  lemma HeadOfSpan(spans: Spans, larges: Larges, h: nat)
    requires h in spans
    ensures IsHead(spans, larges, h) && PagesAt(spans, larges, h) == spans[h].pages
  {
  }

  lemma HeadOfLarge(spans: Spans, larges: Larges, h: nat)
    requires h in larges && Regions(spans, larges)
    ensures IsHead(spans, larges, h) && PagesAt(spans, larges, h) == larges[h].pages
  {
  }

  /** Where a live allocation lies: inside the pages of its span, or of its own block. */
  lemma LiveRegion(spans: Spans, larges: Larges, live: Live, slots: Slots, a: nat) returns (h: nat)
    requires MemInv(spans, larges, live, slots) && a in live
    ensures live[a] > 0 && IsHead(spans, larges, h) && Within(a, live[a], h, PagesAt(spans, larges, h))
    ensures if a in slots then h == slots[a] && h in spans else a == LargeAddr(h) && h in larges
  {
    hide SpansOk, SlotsInside, SlotsDisjoint, IsHead, LargesOk, LivesOk, Regions;
    if a in slots {
      h := slots[a];
      LiveSlot(spans, larges, live, slots, a);
      SlotInside(spans, slots, a);
      HeadOfSpan(spans, larges, h);
    } else {
      h := LiveLarge(spans, larges, live, slots, a);
      HeadOfLarge(spans, larges, h);
    }
  }

  lemma SlotInside(spans: Spans, slots: Slots, a: nat)
    requires SlotsInside(spans, slots) && a in slots
    ensures SlotOk(spans, slots, a)
  {
  }

  lemma LiveLarge(spans: Spans, larges: Larges, live: Live, slots: Slots, a: nat) returns (h: nat)
    requires LivesOk(spans, larges, live, slots) && LargesOk(larges, live, slots) && a in live && a !in slots
    ensures h in larges && a == LargeAddr(h) && live[a] == larges[h].requested > 0
    ensures Within(a, live[a], h, larges[h].pages)
  {
    assert LiveOk(spans, larges, live, slots, a);
    h := (a - HEADER) / PAGE;
    assert LargeOk(live, slots, h, larges[h]);
  }

  /** Live allocations never overlap. */
  lemma LiveApart(spans: Spans, larges: Larges, live: Live, slots: Slots, a: nat, b: nat)
    requires MemInv(spans, larges, live, slots) && a in live && b in live && a != b
    ensures Apart(a, live[a], b, live[b])
  {
    hide SpansOk, LargesOk;
    var h := LiveRegion(spans, larges, live, slots, a);
    var g := LiveRegion(spans, larges, live, slots, b);
    if h == g {
      assert SlotsApart(spans, slots, a, b);
      assert LiveOk(spans, larges, live, slots, a) && LiveOk(spans, larges, live, slots, b);
    } else {
      assert Apart(h, PagesAt(spans, larges, h), g, PagesAt(spans, larges, g));
    }
  }

  /** No live allocation overlaps the header of a large one. */
  lemma HeadersApart(spans: Spans, larges: Larges, live: Live, slots: Slots, h: nat, b: nat)
    requires MemInv(spans, larges, live, slots) && h in larges && b in live
    ensures Apart(h * PAGE, HEADER, b, live[b])
  {
    hide SpansOk;
    var g := LiveRegion(spans, larges, live, slots, b);
    HeadOfLarge(spans, larges, h);
    assert LiveOk(spans, larges, live, slots, b);
    if h != g {
      assert Apart(h, PagesAt(spans, larges, h), g, PagesAt(spans, larges, g));
    }
  }

  // ---------------------------------------------------------------- one slot taken or given back

  ghost predicate SameShape(spans: Spans, spans': Spans) {
    && spans.Keys == spans'.Keys
    && forall h :: h in spans ==> spans'[h].cls == spans[h].cls && spans'[h].pages == spans[h].pages
  }

  lemma ShapeFrame(spans: Spans, spans': Spans, larges: Larges, slots: Slots)
    requires SameShape(spans, spans') && Regions(spans, larges)
    requires SlotsInside(spans, slots) && SlotsDisjoint(spans, slots)
    ensures Regions(spans', larges) && SlotsInside(spans', slots) && SlotsDisjoint(spans', slots)
  {
    assert forall h :: IsHead(spans, larges, h) <==> IsHead(spans', larges, h);
    forall a | a in slots ensures SlotOk(spans', slots, a) {
      assert SlotOk(spans, slots, a);
    }
    forall a, b | a in slots && b in slots ensures SlotsApart(spans', slots, a, b) {
      assert SlotsApart(spans, slots, a, b);
    }
  }

  function Taken(sp: Span): Span
    requires sp.free != []
  {
    sp.(free := sp.free[1..], used := sp.used + 1)
  }

  lemma TakeSpans(spans: Spans, live: Live, slots: Slots, h: nat)
    requires SpansOk(spans, live, slots) && h in spans && spans[h].free != []
    ensures spans[h].cls < |SIZES|
    ensures SpansOk(spans[h := Taken(spans[h])], live[spans[h].free[0] := Size(spans[h].cls)], slots)
  {
    var sp, a := spans[h], spans[h].free[0];
    assert SpanOk(live, slots, h, sp);
    var live', sp' := live[a := Size(sp.cls)], Taken(sp);
    assert LiveIn(live', slots, h) == LiveIn(live, slots, h) + {a};
    assert SpanOk(live', slots, h, sp');
    forall g | g in spans && g != h ensures SpanOk(live', slots, g, spans[g]) {
      assert SpanOk(live, slots, g, spans[g]);
      assert LiveIn(live', slots, g) == LiveIn(live, slots, g);
    }
  }

  lemma TakeKeeps(spans: Spans, larges: Larges, live: Live, slots: Slots, h: nat)
    requires MemInv(spans, larges, live, slots) && h in spans && spans[h].free != []
    ensures spans[h].cls < |SIZES| && spans[h].free[0] !in live && spans[h].free[0] in slots
    ensures MemInv(spans[h := Taken(spans[h])], larges, live[spans[h].free[0] := Size(spans[h].cls)], slots)
  {
    hide Regions, SpansOk, SlotsInside, SlotsDisjoint, LargesOk, LivesOk;
    FreeHead(spans, live, slots, h);
    TakeSpans(spans, live, slots, h);
    var spans' := spans[h := Taken(spans[h])];
    ShapeFrame(spans, spans', larges, slots);
    TakeLives(spans, spans', larges, live, slots, spans[h].free[0]);
  }

  lemma FreeHead(spans: Spans, live: Live, slots: Slots, h: nat)
    requires SpansOk(spans, live, slots) && h in spans && spans[h].free != []
    ensures spans[h].cls < |SIZES|
    ensures var a := spans[h].free[0]; a in slots && slots[a] == h && a !in live
  {
    assert SpanOk(live, slots, h, spans[h]);
  }

  lemma TakeLives(spans: Spans, spans': Spans, larges: Larges, live: Live, slots: Slots, a: nat)
    requires LargesOk(larges, live, slots) && LivesOk(spans, larges, live, slots) && SameShape(spans, spans')
    requires a in slots && a !in live && slots[a] in spans && spans[slots[a]].cls < |SIZES|
    ensures var live' := live[a := Size(spans[slots[a]].cls)];
      LargesOk(larges, live', slots) && LivesOk(spans', larges, live', slots)
  {
    var live' := live[a := Size(spans[slots[a]].cls)];
    forall g | g in larges ensures LargeOk(live', slots, g, larges[g]) {
      assert LargeOk(live, slots, g, larges[g]);
    }
    forall b | b in live' ensures LiveOk(spans', larges, live', slots, b) {
      if b != a { assert LiveOk(spans, larges, live, slots, b); }
    }
  }

  function Given(sp: Span, a: nat): Span
    requires sp.used > 0
  {
    sp.(free := [a] + sp.free, used := sp.used - 1)
  }

  lemma GiveSpans(spans: Spans, live: Live, slots: Slots, a: nat)
    requires SpansOk(spans, live, slots) && a in live && a in slots && slots[a] in spans
    ensures spans[slots[a]].used > 0
    ensures SpansOk(spans[slots[a] := Given(spans[slots[a]], a)], live - {a}, slots)
  {
    var h := slots[a];
    var sp := spans[h];
    assert SpanOk(live, slots, h, sp);
    assert a in LiveIn(live, slots, h);
    var live', sp' := live - {a}, Given(sp, a);
    assert LiveIn(live', slots, h) == LiveIn(live, slots, h) - {a};
    assert SpanOk(live', slots, h, sp');
    forall g | g in spans && g != h ensures SpanOk(live', slots, g, spans[g]) {
      assert SpanOk(live, slots, g, spans[g]);
      assert LiveIn(live', slots, g) == LiveIn(live, slots, g);
    }
  }

  lemma GiveKeeps(spans: Spans, larges: Larges, live: Live, slots: Slots, a: nat)
    requires MemInv(spans, larges, live, slots) && a in live && a in slots
    ensures slots[a] in spans && spans[slots[a]].used > 0
    ensures spans[slots[a]].cls < |SIZES| && live[a] == Size(spans[slots[a]].cls)
    ensures MemInv(spans[slots[a] := Given(spans[slots[a]], a)], larges, live - {a}, slots)
  {
    hide Regions, SpansOk, SlotsInside, SlotsDisjoint, LargesOk, LivesOk;
    LiveSlot(spans, larges, live, slots, a);
    GiveSpans(spans, live, slots, a);
    var spans' := spans[slots[a] := Given(spans[slots[a]], a)];
    ShapeFrame(spans, spans', larges, slots);
    GiveLives(spans, spans', larges, live, slots, a);
  }

  lemma LiveSlot(spans: Spans, larges: Larges, live: Live, slots: Slots, a: nat)
    requires LivesOk(spans, larges, live, slots) && a in live && a in slots
    ensures slots[a] in spans && spans[slots[a]].cls < |SIZES| && live[a] == Size(spans[slots[a]].cls)
  {
    assert LiveOk(spans, larges, live, slots, a);
  }

  lemma GiveLives(spans: Spans, spans': Spans, larges: Larges, live: Live, slots: Slots, a: nat)
    requires LargesOk(larges, live, slots) && LivesOk(spans, larges, live, slots) && SameShape(spans, spans')
    requires a in slots
    ensures LargesOk(larges, live - {a}, slots) && LivesOk(spans', larges, live - {a}, slots)
  {
    forall g | g in larges ensures LargeOk(live - {a}, slots, g, larges[g]) {
      assert LargeOk(live, slots, g, larges[g]);
    }
    forall b | b in live - {a} ensures LiveOk(spans', larges, live - {a}, slots, b) {
      assert LiveOk(spans, larges, live, slots, b);
    }
  }

  // ---------------------------------------------------------------- a span made

  /** The free list of a new span: the last slot first. */
  function SlotList(base: nat, size: nat, n: nat): (list: seq<nat>)
    ensures |list| == n
    decreases n
  {
    if n == 0 then [] else [base + (n - 1) * size] + SlotList(base, size, n - 1)
  }

  lemma {:induction false} SlotListBounds(base: nat, size: nat, n: nat, i: nat)
    requires i < n
    ensures var a := SlotList(base, size, n)[i]; base <= a && a + size <= base + n * size
    decreases n
  {
    assert n * size == (n - 1) * size + size;
    if i > 0 { SlotListBounds(base, size, n - 1, i - 1); }
  }

  lemma {:induction false} SlotListApart(base: nat, size: nat, n: nat, i: nat, j: nat)
    requires i < j < n
    ensures SlotList(base, size, n)[j] + size <= SlotList(base, size, n)[i]
    decreases n
  {
    if i > 0 {
      SlotListApart(base, size, n - 1, i - 1, j - 1);
    } else {
      SlotListBounds(base, size, n - 1, j - 1);
    }
  }

  function NewList(h: nat, c: nat): seq<nat>
    requires c < |SIZES|
  {
    SlotList(h * PAGE, Size(c), SlotsPerSpan(Size(c)))
  }

  lemma NewSlot(h: nat, c: nat, a: nat)
    requires c < |SIZES| && a in NewList(h, c)
    ensures Within(a, Size(c), h, SpanPages(c))
  {
    var i :| 0 <= i < |NewList(h, c)| && NewList(h, c)[i] == a;
    SlotListBounds(h * PAGE, Size(c), SlotsPerSpan(Size(c)), i);
  }

  lemma NewSlotsApart(h: nat, c: nat, a: nat, b: nat)
    requires c < |SIZES| && a in NewList(h, c) && b in NewList(h, c) && a != b
    ensures Apart(a, Size(c), b, Size(c))
  {
    var list := NewList(h, c);
    var i :| 0 <= i < |list| && list[i] == a;
    var j :| 0 <= j < |list| && list[j] == b;
    if i < j {
      SlotListApart(h * PAGE, Size(c), SlotsPerSpan(Size(c)), i, j);
    } else {
      SlotListApart(h * PAGE, Size(c), SlotsPerSpan(Size(c)), j, i);
    }
  }

  lemma NewListNoDup(h: nat, c: nat)
    requires c < |SIZES|
    ensures NoDup(NewList(h, c))
  {
    var list := NewList(h, c);
    forall i, j | 0 <= i < j < |list| ensures list[i] != list[j] {
      SlotListApart(h * PAGE, Size(c), SlotsPerSpan(Size(c)), i, j);
    }
  }

  /** Pages `[h, h + pages)` are free: no span and no large allocation has any of them. */
  ghost predicate Fresh(spans: Spans, larges: Larges, h: nat, pages: nat) {
    pages > 0 && !IsHead(spans, larges, h)
    && forall g :: IsHead(spans, larges, g) ==> Apart(h, pages, g, PagesAt(spans, larges, g))
  }

  /** Nothing that exists lies in fresh pages. */
  lemma OutsideFresh(spans: Spans, larges: Larges, live: Live, slots: Slots, h: nat, pages: nat, a: nat)
    requires MemInv(spans, larges, live, slots) && Fresh(spans, larges, h, pages)
    requires (a in slots || a in live) && h * PAGE <= a
    ensures a >= (h + pages) * PAGE
  {
    hide Regions, SpansOk, SlotsDisjoint, LargesOk, LivesOk, Within, Apart, PagesAt;
    if a in slots {
      assert SlotOk(spans, slots, a);
      HeadOfSpan(spans, larges, slots[a]);
      FromPages(h, pages, slots[a], spans[slots[a]].pages, a, Size(spans[slots[a]].cls));
    } else {
      var g := LiveRegion(spans, larges, live, slots, a);
      FromPages(h, pages, g, PagesAt(spans, larges, g), a, live[a]);
    }
  }

  lemma FromPages(h: nat, pages: nat, g: nat, n: nat, a: nat, size: nat)
    requires Apart(h, pages, g, n) && Within(a, size, g, n) && size > 0 && h * PAGE <= a
    ensures a >= (h + pages) * PAGE
  {
  }

  ghost function WithSlots(slots: Slots, h: nat, list: seq<nat>): Slots {
    slots + map a | a in list :: h
  }

  lemma NewSpanSpans(spans: Spans, live: Live, slots: Slots, h: nat, c: nat)
    requires SpansOk(spans, live, slots) && c < |SIZES| && h !in spans
    requires forall a :: a in NewList(h, c) ==> a !in slots && a !in live
    requires forall a :: a in slots ==> slots[a] != h
    ensures SpansOk(spans[h := Span(c, SpanPages(c), NewList(h, c), 0)], live, WithSlots(slots, h, NewList(h, c)))
  {
    var list := NewList(h, c);
    var slots' := WithSlots(slots, h, list);
    NewListNoDup(h, c);
    NewSpanOk(live, slots, h, c, list);
    hide NewList, WithSlots;
    forall g | g in spans ensures SpanOk(live, slots', g, spans[g]) {
      OldSpanOk(live, slots, h, list, g, spans[g]);
    }
  }

  lemma NewSpanOk(live: Live, slots: Slots, h: nat, c: nat, list: seq<nat>)
    requires c < |SIZES| && NoDup(list) && |list| == SlotsPerSpan(Size(c))
    requires forall a :: a in list ==> a !in slots && a !in live
    requires forall a :: a in slots ==> slots[a] != h
    ensures SpanOk(live, WithSlots(slots, h, list), h, Span(c, SpanPages(c), list, 0))
  {
    assert LiveIn(live, WithSlots(slots, h, list), h) == {};
  }

  lemma OldSpanOk(live: Live, slots: Slots, h: nat, list: seq<nat>, g: nat, sp: Span)
    requires SpanOk(live, slots, g, sp) && g != h
    requires forall a :: a in list ==> a !in slots && a !in live
    ensures SpanOk(live, WithSlots(slots, h, list), g, sp)
  {
    assert LiveIn(live, WithSlots(slots, h, list), g) == LiveIn(live, slots, g);
  }

  lemma NewSpanSlots(spans: Spans, slots: Slots, h: nat, c: nat)
    requires SlotsInside(spans, slots) && SlotsDisjoint(spans, slots) && c < |SIZES| && h !in spans
    requires forall a :: a in NewList(h, c) ==> a !in slots
    ensures var spans' := spans[h := Span(c, SpanPages(c), NewList(h, c), 0)];
      var slots' := WithSlots(slots, h, NewList(h, c));
      SlotsInside(spans', slots') && SlotsDisjoint(spans', slots')
  {
    var list := NewList(h, c);
    var spans' := spans[h := Span(c, SpanPages(c), list, 0)];
    var slots' := WithSlots(slots, h, list);
    forall a | a in slots' ensures SlotOk(spans', slots', a) {
      if a in slots { assert SlotOk(spans, slots, a); } else { NewSlot(h, c, a); }
    }
    forall a, b | a in slots' && b in slots' ensures SlotsApart(spans', slots', a, b) {
      if a in slots && b in slots {
        assert SlotsApart(spans, slots, a, b);
      } else if a !in slots && b !in slots && a != b {
        NewSlotsApart(h, c, a, b);
      } else if a in slots {
        assert SlotOk(spans, slots, a);
      } else if b in slots {
        assert SlotOk(spans, slots, b);
      }
    }
  }

  lemma NewHead(spans: Spans, larges: Larges, h: nat, sp: Span)
    requires Regions(spans, larges) && Fresh(spans, larges, h, sp.pages)
    ensures Regions(spans[h := sp], larges)
  {
    var spans' := spans[h := sp];
    forall g | IsHead(spans', larges, g) && g != h
      ensures IsHead(spans, larges, g) && PagesAt(spans', larges, g) == PagesAt(spans, larges, g)
    {
    }
  }

  lemma NewSpanLives(spans: Spans, larges: Larges, live: Live, slots: Slots, h: nat, sp: Span, list: seq<nat>)
    requires LargesOk(larges, live, slots) && LivesOk(spans, larges, live, slots) && h !in spans
    requires forall a :: a in list ==> a !in slots && a !in live
    ensures LargesOk(larges, live, WithSlots(slots, h, list))
    ensures LivesOk(spans[h := sp], larges, live, WithSlots(slots, h, list))
  {
    var slots' := WithSlots(slots, h, list);
    forall g | g in larges ensures LargeOk(live, slots', g, larges[g]) {
      assert LargeOk(live, slots, g, larges[g]);
    }
    forall a | a in live ensures LiveOk(spans[h := sp], larges, live, slots', a) {
      assert LiveOk(spans, larges, live, slots, a);
    }
  }

  /** A new span in fresh pages. */
  lemma NewSpanKeeps(spans: Spans, larges: Larges, live: Live, slots: Slots, h: nat, c: nat)
    requires MemInv(spans, larges, live, slots) && c < |SIZES| && Fresh(spans, larges, h, SpanPages(c))
    ensures MemInv(spans[h := Span(c, SpanPages(c), NewList(h, c), 0)], larges, live,
                   WithSlots(slots, h, NewList(h, c)))
  {
    hide Regions, SpansOk, SlotsDisjoint, SlotsInside, LargesOk, LivesOk, NewList;
    var sp := Span(c, SpanPages(c), NewList(h, c), 0);
    forall a | a in NewList(h, c) ensures a !in slots && a !in live {
      NewSlot(h, c, a);
      if a in slots || a in live { OutsideFresh(spans, larges, live, slots, h, SpanPages(c), a); }
    }
    forall a | a in slots ensures slots[a] != h {
      SlotInside(spans, slots, a);
    }
    hide Within, WithSlots;
    NewHead(spans, larges, h, sp);
    NewSpanSpans(spans, live, slots, h, c);
    NewSpanSlots(spans, slots, h, c);
    NewSpanLives(spans, larges, live, slots, h, sp, NewList(h, c));
  }

  // ---------------------------------------------------------------- a span released

  ghost function WithoutSlots(slots: Slots, h: nat): Slots {
    map a | a in slots && slots[a] != h :: slots[a]
  }

  /** A span with no live slot leaves nothing behind. */
  lemma DropSpanKeeps(spans: Spans, larges: Larges, live: Live, slots: Slots, h: nat)
    requires MemInv(spans, larges, live, slots) && h in spans && spans[h].used == 0
    ensures MemInv(spans - {h}, larges, live, WithoutSlots(slots, h))
  {
    hide Regions, SpansOk, SlotsDisjoint, SlotsInside, LargesOk, LivesOk, WithoutSlots;
    NothingLive(spans, live, slots, h);
    DropRegions(spans, larges, h);
    DropSpans(spans, live, slots, h);
    DropSlots(spans, slots, h);
    DropLives(spans, larges, live, slots, h);
  }

  lemma NothingLive(spans: Spans, live: Live, slots: Slots, h: nat)
    requires SpansOk(spans, live, slots) && h in spans && spans[h].used == 0
    ensures forall a :: a in live && a in slots ==> slots[a] != h
  {
    assert SpanOk(live, slots, h, spans[h]);
    forall a | a in live && a in slots && slots[a] == h ensures a in LiveIn(live, slots, h) {}
  }

  lemma DropRegions(spans: Spans, larges: Larges, h: nat)
    requires Regions(spans, larges) && h in spans
    ensures Regions(spans - {h}, larges)
  {
    assert forall g :: IsHead(spans - {h}, larges, g) ==> IsHead(spans, larges, g);
  }

  lemma DropSpans(spans: Spans, live: Live, slots: Slots, h: nat)
    requires SpansOk(spans, live, slots)
    ensures SpansOk(spans - {h}, live, WithoutSlots(slots, h))
  {
    forall g | g in spans && g != h ensures SpanOk(live, WithoutSlots(slots, h), g, spans[g]) {
      assert SpanOk(live, slots, g, spans[g]);
      assert LiveIn(live, WithoutSlots(slots, h), g) == LiveIn(live, slots, g);
    }
  }

  lemma DropSlots(spans: Spans, slots: Slots, h: nat)
    requires SlotsInside(spans, slots) && SlotsDisjoint(spans, slots)
    ensures SlotsInside(spans - {h}, WithoutSlots(slots, h)) && SlotsDisjoint(spans - {h}, WithoutSlots(slots, h))
  {
    var spans', slots' := spans - {h}, WithoutSlots(slots, h);
    forall a | a in slots' ensures SlotOk(spans', slots', a) {
      assert SlotOk(spans, slots, a);
    }
    forall a, b | a in slots' && b in slots' ensures SlotsApart(spans', slots', a, b) {
      assert SlotsApart(spans, slots, a, b);
    }
  }

  lemma DropLives(spans: Spans, larges: Larges, live: Live, slots: Slots, h: nat)
    requires LargesOk(larges, live, slots) && LivesOk(spans, larges, live, slots)
    requires forall a :: a in live && a in slots ==> slots[a] != h
    ensures LargesOk(larges, live, WithoutSlots(slots, h))
    ensures LivesOk(spans - {h}, larges, live, WithoutSlots(slots, h))
  {
    var slots' := WithoutSlots(slots, h);
    forall g | g in larges ensures LargeOk(live, slots', g, larges[g]) {
      assert LargeOk(live, slots, g, larges[g]);
    }
    forall a | a in live ensures LiveOk(spans - {h}, larges, live, slots', a) {
      assert LiveOk(spans, larges, live, slots, a);
    }
  }

  // ---------------------------------------------------------------- large allocations

  lemma NewLargeHead(spans: Spans, larges: Larges, h: nat, l: Large)
    requires Regions(spans, larges) && Fresh(spans, larges, h, l.pages)
    ensures Regions(spans, larges[h := l])
  {
    var larges' := larges[h := l];
    forall g | IsHead(spans, larges', g) && g != h
      ensures IsHead(spans, larges, g) && PagesAt(spans, larges', g) == PagesAt(spans, larges, g)
    {
    }
  }

  /** The header address of fresh pages is not in use. */
  lemma FreshAddr(spans: Spans, larges: Larges, live: Live, slots: Slots, h: nat, pages: nat)
    requires MemInv(spans, larges, live, slots) && Fresh(spans, larges, h, pages)
    ensures LargeAddr(h) !in live && LargeAddr(h) !in slots
  {
    if LargeAddr(h) in live || LargeAddr(h) in slots {
      OutsideFresh(spans, larges, live, slots, h, pages, LargeAddr(h));
    }
  }

  lemma NewLargeKeeps(spans: Spans, larges: Larges, live: Live, slots: Slots, h: nat, l: Large)
    requires MemInv(spans, larges, live, slots) && Fresh(spans, larges, h, l.pages)
    requires 0 < l.requested && HEADER + l.requested <= l.pages * PAGE
    ensures LargeAddr(h) !in live
    ensures MemInv(spans, larges[h := l], live[LargeAddr(h) := l.requested], slots)
  {
    hide Regions, SpansOk, SlotsDisjoint, SlotsInside, LargesOk, LivesOk;
    FreshAddr(spans, larges, live, slots, h, l.pages);
    NewLargeHead(spans, larges, h, l);
    SameSlots(spans, live, live[LargeAddr(h) := l.requested], slots);
    NewLargeLives(spans, larges, live, slots, h, l);
  }

  /** Spans do not notice allocations that are not slots. */
  lemma SameSlots(spans: Spans, live: Live, live': Live, slots: Slots)
    requires SpansOk(spans, live, slots) && forall a :: a in slots ==> (a in live <==> a in live')
    ensures SpansOk(spans, live', slots)
  {
    forall g | g in spans ensures SpanOk(live', slots, g, spans[g]) {
      assert SpanOk(live, slots, g, spans[g]);
      assert LiveIn(live', slots, g) == LiveIn(live, slots, g);
    }
  }

  lemma NewLargeLives(spans: Spans, larges: Larges, live: Live, slots: Slots, h: nat, l: Large)
    requires LargesOk(larges, live, slots) && LivesOk(spans, larges, live, slots)
    requires LargeAddr(h) !in live && LargeAddr(h) !in slots
    requires 0 < l.requested && HEADER + l.requested <= l.pages * PAGE
    ensures var larges', live' := larges[h := l], live[LargeAddr(h) := l.requested];
      LargesOk(larges', live', slots) && LivesOk(spans, larges', live', slots)
  {
    var larges', live' := larges[h := l], live[LargeAddr(h) := l.requested];
    forall g | g in larges' ensures LargeOk(live', slots, g, larges'[g]) {
      if g != h { assert LargeOk(live, slots, g, larges[g]); }
    }
    forall b | b in live' ensures LiveOk(spans, larges', live', slots, b) {
      if b != LargeAddr(h) { assert LiveOk(spans, larges, live, slots, b); }
    }
  }

  lemma DropLargeKeeps(spans: Spans, larges: Larges, live: Live, slots: Slots, h: nat)
    requires MemInv(spans, larges, live, slots) && h in larges
    ensures LargeAddr(h) in live && live[LargeAddr(h)] == larges[h].requested && LargeAddr(h) !in slots
    ensures MemInv(spans, larges - {h}, live - {LargeAddr(h)}, slots)
  {
    hide Regions, SpansOk, SlotsDisjoint, SlotsInside, LargesOk, LivesOk;
    DropLargeRegions(spans, larges, h);
    DropLargeLives(spans, larges, live, slots, h);
    SameSlots(spans, live, live - {LargeAddr(h)}, slots);
  }

  lemma DropLargeRegions(spans: Spans, larges: Larges, h: nat)
    requires Regions(spans, larges)
    ensures Regions(spans, larges - {h})
  {
    assert forall g :: IsHead(spans, larges - {h}, g) ==> IsHead(spans, larges, g);
  }

  lemma DropLargeLives(spans: Spans, larges: Larges, live: Live, slots: Slots, h: nat)
    requires LargesOk(larges, live, slots) && LivesOk(spans, larges, live, slots) && h in larges
    ensures LargeAddr(h) in live && live[LargeAddr(h)] == larges[h].requested && LargeAddr(h) !in slots
    ensures LargesOk(larges - {h}, live - {LargeAddr(h)}, slots)
    ensures LivesOk(spans, larges - {h}, live - {LargeAddr(h)}, slots)
  {
    hide LargeOk, LiveOk, LargeAddr;
    OneLarge(larges, live, slots, h);
    var larges', live' := larges - {h}, live - {LargeAddr(h)};
    forall g | g in larges' ensures LargeOk(live', slots, g, larges'[g]) {
      OtherLarge(larges, live, slots, h, g);
    }
    forall b | b in live' ensures LiveOk(spans, larges', live', slots, b) {
      OtherLive(spans, larges, live, slots, h, b);
    }
  }

  lemma OtherLarge(larges: Larges, live: Live, slots: Slots, h: nat, g: nat)
    requires LargesOk(larges, live, slots) && g in larges && g != h
    ensures LargeOk(live - {LargeAddr(h)}, slots, g, larges[g])
  {
    assert LargeOk(live, slots, g, larges[g]);
  }

  lemma OneLarge(larges: Larges, live: Live, slots: Slots, g: nat)
    requires LargesOk(larges, live, slots) && g in larges
    ensures LargeAddr(g) in live && live[LargeAddr(g)] == larges[g].requested && LargeAddr(g) !in slots
  {
    assert LargeOk(live, slots, g, larges[g]);
  }

  lemma OtherLive(spans: Spans, larges: Larges, live: Live, slots: Slots, h: nat, b: nat)
    requires b in live && b != LargeAddr(h) && LiveOk(spans, larges, live, slots, b)
    ensures LiveOk(spans, larges - {h}, live - {LargeAddr(h)}, slots, b)
  {
  }
}
