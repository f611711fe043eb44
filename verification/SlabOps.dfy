/**
 * Allocation and release: size-class pools and large allocations over the chunks' buddy allocators.
 * `mapped` says whether the system maps memory for another chunk.
 */
module SlabOps {
  import opened Options
  import opened BuddyMath
  import opened BuddyBlocks
  import opened Slab
  import opened SlabArena
  import opened SlabPages

  type Lists = seq<seq<nat>>

  /** Partly used spans of a class are in its first list, unused ones in its second, full ones in neither. */
  ghost predicate ListOk(spans: Spans, c: nat, partial: seq<nat>, empty: seq<nat>) {
    && NoDup(partial) && NoDup(empty)
    && (forall h :: h in partial <==> h in spans && spans[h].cls == c && spans[h].free != [] && spans[h].used > 0)
    && (forall h :: h in empty <==> h in spans && spans[h].cls == c && spans[h].used == 0)
  }

  ghost predicate ListsOk(spans: Spans, partial: Lists, empty: Lists) {
    && |partial| == |empty| == |SIZES|
    && forall c :: 0 <= c < |SIZES| ==> ListOk(spans, c, partial[c], empty[c])
  }

  function Drop(q: seq<nat>, h: nat): (r: seq<nat>)
    ensures forall g :: g in r ==> g in q
  {
    if q == [] then [] else if q[0] == h then q[1..] else [q[0]] + Drop(q[1..], h)
  }

  lemma {:induction false} DropOne(q: seq<nat>, h: nat)
    requires NoDup(q)
    ensures NoDup(Drop(q, h)) && h !in Drop(q, h)
    ensures forall g :: g != h ==> (g in Drop(q, h) <==> g in q)
    decreases |q|
  {
    if q != [] && q[0] != h {
      var rest := q[1..];
      assert NoDup(rest);
      DropOne(rest, h);
      assert q[0] !in rest;
    } else if q != [] {
      assert h !in q[1..];
    }
  }

  lemma PushOne(q: seq<nat>, h: nat)
    requires NoDup(q) && h !in q
    ensures NoDup([h] + q)
  {
  }

  lemma {:induction false} DropAbsent(q: seq<nat>, h: nat)
    requires h !in q
    ensures Drop(q, h) == q
    decreases |q|
  {
    if q != [] { DropAbsent(q[1..], h); }
  }

  /** Taking a span out of the lists of its class leaves the lists right for all the others. */
  lemma TakeOut(spans: Spans, partial: Lists, empty: Lists, h: nat)
    requires ListsOk(spans, partial, empty) && h in spans && spans[h].cls < |SIZES|
    ensures var c := spans[h].cls;
      ListsOk(spans - {h}, partial[c := Drop(partial[c], h)], empty[c := Drop(empty[c], h)])
  {
    var c := spans[h].cls;
    DropOne(partial[c], h);
    DropOne(empty[c], h);
    hide Drop;
    assert ListOk(spans, c, partial[c], empty[c]);
    forall i | 0 <= i < |SIZES| && i != c ensures ListOk(spans - {h}, i, partial[i], empty[i]) {
      assert ListOk(spans, i, partial[i], empty[i]);
    }
  }

  function InPartial(sp: Span): bool {
    sp.free != [] && sp.used > 0
  }

  /** Putting a span into the list its state calls for, if any. */
  lemma PutBack(spans: Spans, partial: Lists, empty: Lists, h: nat, sp: Span)
    requires ListsOk(spans, partial, empty) && h !in spans && sp.cls < |SIZES|
    ensures var c := sp.cls;
      ListsOk(spans[h := sp], if InPartial(sp) then partial[c := [h] + partial[c]] else partial,
              if sp.used == 0 then empty[c := [h] + empty[c]] else empty)
  {
    var c := sp.cls;
    assert ListOk(spans, c, partial[c], empty[c]);
    PushOne(partial[c], h);
    PushOne(empty[c], h);
    forall i | 0 <= i < |SIZES| && i != c ensures ListOk(spans[h := sp], i, partial[i], empty[i]) {
      assert ListOk(spans, i, partial[i], empty[i]);
    }
  }

  /** A span whose state calls for the same list stays where it is. */
  lemma SameState(spans: Spans, partial: Lists, empty: Lists, h: nat, sp: Span)
    requires ListsOk(spans, partial, empty) && h in spans && sp.cls == spans[h].cls
    requires InPartial(sp) == InPartial(spans[h]) && (sp.used == 0 <==> spans[h].used == 0)
    ensures ListsOk(spans[h := sp], partial, empty)
  {
    forall i | 0 <= i < |SIZES| ensures ListOk(spans[h := sp], i, partial[i], empty[i]) {
      assert ListOk(spans, i, partial[i], empty[i]);
    }
  }

  lemma Listed(spans: Spans, partial: Lists, empty: Lists, c: nat, h: nat)
    requires ListsOk(spans, partial, empty) && c < |SIZES|
    ensures h in partial[c] <==> h in spans && spans[h].cls == c && InPartial(spans[h])
    ensures h in empty[c] <==> h in spans && spans[h].cls == c && spans[h].used == 0
    ensures NoDup(partial[c]) && NoDup(empty[c])
  {
    assert ListOk(spans, c, partial[c], empty[c]);
  }

  /** Out of its list, changed, and into the list the new state calls for. */
  lemma Relisted(spans: Spans, partial: Lists, empty: Lists, h: nat, sp: Span)
    requires ListsOk(spans, partial, empty) && h in spans && spans[h].cls == sp.cls < |SIZES|
    ensures var p, e := Drop(partial[sp.cls], h), Drop(empty[sp.cls], h);
      ListsOk(spans[h := sp], partial[sp.cls := if InPartial(sp) then [h] + p else p],
              empty[sp.cls := if sp.used == 0 then [h] + e else e])
  {
    var c := sp.cls;
    TakeOut(spans, partial, empty, h);
    var p, e := partial[c := Drop(partial[c], h)], empty[c := Drop(empty[c], h)];
    PutBack(spans - {h}, p, e, h, sp);
    assert (spans - {h})[h := sp] == spans[h := sp];
    assert p[c := [h] + p[c]] == partial[c := [h] + p[c]];
    assert e[c := [h] + e[c]] == empty[c := [h] + e[c]];
  }

  lemma FreeNotEmpty(spans: Spans, larges: Larges, live: Live, slots: Slots, h: nat)
    requires MemInv(spans, larges, live, slots) && h in spans && spans[h].used == 0
    ensures spans[h].free != []
  {
    assert SpanOk(live, slots, h, spans[h]);
  }

  class Allocator {
    const arena: Arena
    var spans: Spans
    var larges: Larges
    var partial: Lists
    var empty: Lists
    var infos: Infos
    var total: nat

    ghost var live: Live
    ghost var slots: Slots

    ghost predicate Valid()
      reads this, arena, arena.footprint
    {
      && arena.Valid() && this !in arena.footprint
      && MemInv(spans, larges, live, slots) && ListsOk(spans, partial, empty) && total == Sum(live)
      && PagesInv(spans, larges, infos, arena.owns)
    }

    constructor ()
      ensures Valid() && live == map[] && fresh(arena.footprint)
    {
      arena := new Arena();
      spans, larges, partial, empty, total := map[], map[], seq(|SIZES|, _ => []), seq(|SIZES|, _ => []), 0;
      infos, live, slots := map[], map[], map[];
    }

    /** Writes the descriptors of a block. */
    method Describe(h: nat, n: nat, x: PageInfo)
      modifies this`infos
      ensures Repainted(old(infos), infos, h, n, Some(x))
    {
      var i := 0;
      while i < n
        invariant 0 <= i <= n && Repainted(old(infos), infos, h, i, Some(x))
      {
        infos := infos[h + i := x];
        i := i + 1;
      }
    }

    method Undescribe(h: nat, n: nat)
      modifies this`infos
      ensures Repainted(old(infos), infos, h, n, None)
    {
      var i := 0;
      while i < n
        invariant 0 <= i <= n && Repainted(old(infos), infos, h, i, None)
      {
        infos := infos - {h + i};
        i := i + 1;
      }
    }

    /** Takes the first free slot of the span at `h`, which is then in the list its state calls for. */
    method PopSlot(h: nat, c: nat) returns (a: nat)
      requires arena.Valid() && this !in arena.footprint && PagesInv(spans, larges, infos, arena.owns)
      requires h in spans && spans[h].cls == c && spans[h].free != [] && MemInv(spans, larges, live, slots)
      requires total == Sum(live) && c < |SIZES|
      requires ListsOk(spans[h := Taken(spans[h])], partial, empty)
      modifies this`spans, this`total, this`live
      ensures Valid() && a !in old(live) && live == old(live)[a := Size(c)]
      ensures a == old(spans[h]).free[0] && spans == old(spans)[h := Taken(old(spans[h]))]
    {
      hide MemInv, ListsOk, PagesInv;
      TakeKeeps(spans, larges, live, slots, h);
      a := spans[h].free[0];
      SumAdd(live, a, Size(c));
      SameShapePages(spans, spans[h := Taken(spans[h])], larges, infos, arena.owns);
      spans := spans[h := Taken(spans[h])];
      total := total + Size(c);
      live := live[a := Size(c)];
    }

    /** A new span of class `c` in a block from the arena, not yet in any list. */
    method NewSpan(c: nat, mapped: bool) returns (r: Option<nat>)
      requires Valid() && c < |SIZES|
      modifies this`spans, this`infos, this`slots, arena.footprint
      ensures arena.Valid() && this !in arena.footprint && fresh(arena.footprint - old(arena.footprint))
      ensures MemInv(spans, larges, live, slots) && PagesInv(spans, larges, infos, arena.owns)
      ensures r.Some? <==> CanTake(old(arena.owns), PagesForSpan(Size(c)), mapped)
      ensures r.None? ==> spans == old(spans) && slots == old(slots) && infos == old(infos)
      ensures r.Some? ==> && r.value !in old(spans)
                          && spans == old(spans)[r.value := Span(c, SpanPages(c), NewList(r.value, c), 0)]
    {
      hide MemInv, ListsOk, Fresh, NewList, PagesInv, TakesBlock, TakesNothing, CanTake, WholeBlock, BlockAt, P,
           Repainted;
      r := arena.Take(PagesForSpan(Size(c)), mapped);
      if r.None? {
        NothingTaken(spans, larges, infos, old(arena.owns), arena.owns);
        return;
      }
      var h := r.value;
      var sp := Span(c, SpanPages(c), NewList(h, c), 0);
      RoundedIsWhole(h, PagesForSpan(Size(c)));
      TakenIsFresh(spans, larges, infos, old(arena.owns), arena.owns, h, sp.pages);
      NotHead(spans, larges, h, sp.pages);
      NewSpanKeeps(spans, larges, live, slots, h, c);
      Describe(h, sp.pages, OfSpan(h));
      NewSpanPages(spans, larges, old(infos), infos, old(arena.owns), arena.owns, h, sp);
      spans, slots := spans[h := sp], WithSlots(slots, h, NewList(h, c));
    }

    /** A slot from a partly used span, else from an unused one, else from a new one. */
    method AllocSmall(c: nat, mapped: bool) returns (r: Option<nat>, ghost h: nat)
      requires Valid() && c < |SIZES|
      modifies this, arena.footprint
      ensures Valid() && fresh(arena.footprint - old(arena.footprint))
      ensures r.Some? <==> || old(partial[c] != [] || empty[c] != [])
                           || CanTake(old(arena.owns), PagesForSpan(Size(c)), mapped)
      ensures r.Some? ==> r.value !in old(live) && live == old(live)[r.value := Size(c)]
      ensures r.Some? ==> SlotFrom(old(spans), spans, old(partial[c]), old(empty[c]), c, h, r.value)
      ensures r.None? ==> live == old(live) && total == old(total)
    {
      hide MemInv, ListsOk, NewList, SpanPages, NoDup, PagesInv, CanTake;
      SameLengths(spans, partial, empty);
      h := 0;
      var head: nat;
      if partial[c] != [] {
        head := partial[c][0];
        Listed(spans, partial, empty, c, head);
        if |spans[head].free| == 1 {
          Relisted(spans, partial, empty, head, Taken(spans[head]));
          DropAbsent(empty[c], head);
          assert empty[c := empty[c]] == empty;
          partial := partial[c := partial[c][1..]];
        } else {
          SameState(spans, partial, empty, head, Taken(spans[head]));
        }
      } else if empty[c] != [] {
        head := empty[c][0];
        Listed(spans, partial, empty, c, head);
        FreeNotEmpty(spans, larges, live, slots, head);
        Relisted(spans, partial, empty, head, Taken(spans[head]));
        empty := empty[c := empty[c][1..]];
        if |spans[head].free| > 1 {
          partial := partial[c := [head] + partial[c]];
        } else {
          assert partial[c := partial[c]] == partial;
        }
      } else {
        var grant := NewSpan(c, mapped);
        if grant.None? {
          return None, h;
        }
        head := grant.value;
        NewListLong(head, c);
        PutBack(old(spans), partial, empty, head, Taken(spans[head]));
        assert spans[head := Taken(spans[head])] == old(spans)[head := Taken(spans[head])];
        if |spans[head].free| > 1 {
          partial := partial[c := [head] + partial[c]];
        }
      }
      var a := PopSlot(head, c);
      return Some(a), head;
    }

    /** Returns the block of an unused span to the arena. */
    method ReleaseSpan(h: nat)
      requires arena.Valid() && this !in arena.footprint && PagesInv(spans, larges, infos, arena.owns)
      requires MemInv(spans, larges, live, slots) && h in spans && spans[h].used == 0
      modifies this`spans, this`infos, this`slots, arena.footprint
      ensures arena.Valid() && arena.footprint == old(arena.footprint)
      ensures PagesInv(spans, larges, infos, arena.owns) && MemInv(spans, larges, live, slots)
      ensures spans == old(spans) - {h} && GivesBlock(old(arena.owns), arena.owns, h, old(spans)[h].pages)
    {
      hide MemInv, PagesInv, GivesBlock, BlockAt, P, Repainted;
      RegionIsBlock(spans, larges, infos, arena.owns, h);
      arena.Give(h, CeilLog(spans[h].pages));
      Undescribe(h, spans[h].pages);
      RegionsOf(spans, larges, live, slots);
      DropSpanPages(spans, larges, old(infos), infos, old(arena.owns), arena.owns, h);
      DropSpanKeeps(spans, larges, live, slots, h);
      spans, slots := spans - {h}, WithoutSlots(slots, h);
    }

    /**
     * Gives a slot back to its span at `h`. A span without live slots is kept for reuse, or released
     * to the arena if enough of its class are kept.
     */
    method FreeSmall(a: nat, h: nat)
      requires Valid() && a in live && a in slots && slots[a] == h
      modifies this, arena.footprint
      ensures Valid() && arena.footprint == old(arena.footprint) && live == old(live) - {a} && larges == old(larges)
      ensures spans.Keys == old(spans.Keys) - if old(LastAndSpare(spans, empty, h)) then {h} else {}
    {
      hide MemInv, ListsOk, NoDup, Drop, PagesInv, GivesBlock, Sum, MaxEmpty, SameShape, Size;
      SameLengths(spans, partial, empty);
      GiveKeeps(spans, larges, live, slots, a);
      SumSplit(live, a);
      var sp := spans[h];
      var wasFull, sp', c := sp.free == [], Given(sp, a), sp.cls;
      Listed(spans, partial, empty, c, h);
      TakeOut(spans, partial, empty, h);
      Relisted(spans, partial, empty, h, sp');
      DropAbsent(empty[c], h);
      assert empty[c := empty[c]] == empty && partial[c := partial[c]] == partial;
      if wasFull { DropAbsent(partial[c], h); }
      Reshaped(spans, h, sp');
      SameShapePages(spans, spans[h := sp'], larges, infos, arena.owns);
      if sp'.used > 0 && !wasFull { SameState(spans, partial, empty, h, sp'); }
      assert spans[h := sp'] - {h} == spans - {h};
      live, spans := live - {a}, spans[h := sp'];
      total := total - Size(c);
      if sp'.used == 0 {
        if !wasFull {
          partial := partial[c := Drop(partial[c], h)];
        }
        if |empty[c]| < MaxEmpty(Size(c)) {
          empty := empty[c := [h] + empty[c]];
        } else {
          ReleaseSpan(h);
        }
      } else if wasFull {
        partial := partial[c := [h] + partial[c]];
      }
    }

    /** A large allocation: a block of its own, with a header. */
    method AllocLarge(size: nat, mapped: bool) returns (r: Option<nat>)
      requires Valid() && size > 0
      modifies this, arena.footprint
      ensures Valid() && fresh(arena.footprint - old(arena.footprint))
      ensures r.Some? <==> CanTake(old(arena.owns), PagesForLarge(size), mapped)
      ensures r.Some? ==> r.value !in old(live) && live == old(live)[r.value := size]
      ensures r.None? ==> live == old(live) && total == old(total)
    {
      hide MemInv, ListsOk, Fresh, PagesInv, TakesBlock, TakesNothing, CanTake, WholeBlock, BlockAt, P, Repainted;
      var grant := arena.Take(PagesForLarge(size), mapped);
      if grant.None? {
        NothingTaken(spans, larges, infos, old(arena.owns), arena.owns);
        return None;
      }
      var h, l := grant.value, Large(LargePages(size), size);
      RoundedIsWhole(h, PagesForLarge(size));
      TakenIsFresh(spans, larges, infos, old(arena.owns), arena.owns, h, l.pages);
      NewLargeKeeps(spans, larges, live, slots, h, l);
      Describe(h, l.pages, OfLarge(l.pages));
      NewLargePages(spans, larges, old(infos), infos, old(arena.owns), arena.owns, h, l);
      SumAdd(live, LargeAddr(h), size);
      larges := larges[h := l];
      live := live[LargeAddr(h) := size];
      total := total + size;
      return Some(LargeAddr(h));
    }

    /** Releases the block of the large allocation whose first page is `h`. */
    method FreeLarge(h: nat)
      requires Valid() && h in larges
      modifies this, arena.footprint
      ensures Valid() && arena.footprint == old(arena.footprint)
      ensures live == old(live) - {LargeAddr(h)} && larges == old(larges) - {h} && spans == old(spans)
    {
      hide MemInv, ListsOk, PagesInv, GivesBlock, BlockAt, P, Repainted;
      var n := larges[h].pages;
      RegionsOf(spans, larges, live, slots);
      HeadOfLarge(spans, larges, h);
      RegionIsBlock(spans, larges, infos, arena.owns, h);
      arena.Give(h, CeilLog(n));
      Undescribe(h, n);
      DropLargePages(spans, larges, old(infos), infos, old(arena.owns), arena.owns, h);
      DropLargeKeeps(spans, larges, live, slots, h);
      SumSplit(live, LargeAddr(h));
      total := total - larges[h].requested;
      larges := larges - {h};
      live := live - {LargeAddr(h)};
    }

    /**
     * Allocation of any size. The bytes charged are at least those requested, they overlap no live
     * allocation, and `total` is what all live allocations together are charged.
     */
    method Alloc(size: nat, mapped: bool) returns (r: Option<nat>, ghost charged: nat)
      requires Valid()
      modifies this, arena.footprint
      ensures Valid() && fresh(arena.footprint - old(arena.footprint))
      ensures r.Some? <==> size > 0 && CanServe(old(partial), old(empty), old(arena.owns), size, mapped)
      ensures r.None? ==> live == old(live) && total == old(total)
      ensures r.Some? ==> charged == Charge(size) >= size
      ensures r.Some? ==> && r.value !in old(live) && live == old(live)[r.value := charged]
                          && total == old(total) + charged
                          && forall b :: b in old(live) ==> Apart(r.value, charged, b, old(live)[b])
    {
      hide PagesInv, ListsOk, CanTake, MemInv, Apart, Sum;
      charged := 0;
      SameLengths(spans, partial, empty);
      if size == 0 {
        return None, 0;
      }
      var cls := ClassOf(size);
      if cls.Some? {
        charged := Size(cls.value);
        ghost var h;
        r, h := AllocSmall(cls.value, mapped);
      } else {
        charged := size;
        r := AllocLarge(size, mapped);
      }
      if r.Some? {
        SumAdd(old(live), r.value, charged);
        ApartFromAll(spans, larges, old(live), live, slots, r.value, charged);
      }
    }

    /**
     * Release by address: the descriptor of the page leads to the span, or by clearing the low bits
     * of the page number to the header of the large allocation. Addresses in pages that are not in
     * use are ignored.
     */
    method Free(a: nat)
      requires Valid() && (a in live || a / PAGE !in infos)
      modifies this, arena.footprint
      ensures Valid() && arena.footprint == old(arena.footprint) && live == old(live) - {a}
    {
      hide MemInv, PagesInv, ListsOk, HeadOf;
      if a in live {
        LivePage(spans, larges, live, slots, infos, arena.owns, a);
      } else {
        assert live - {a} == live;
      }
      var page := a / PAGE;
      if page !in infos {
        return;
      }
      match infos[page]
      case OfSpan(h) => FreeSmall(a, h);
      case OfLarge(n) =>
        var h := HeadOf(page, n);
        if h in larges {
          FreeLarge(h);
        }
    }
  }

  /** One slot of the span is in use, and enough unused spans of its class are kept already. */
  predicate LastAndSpare(spans: Spans, empty: Lists, h: nat) {
    && h in spans && spans[h].used == 1 && spans[h].cls < |SIZES| && spans[h].cls < |empty|
    && |empty[spans[h].cls]| >= MaxEmpty(Size(spans[h].cls))
  }

  /** Pages asked of the arena for a request of this size. */
  function PagesNeeded(size: nat): nat {
    match ClassFrom(size, 0)
    case Some(c) => PagesForSpan(Size(c))
    case None => PagesForLarge(size)
  }

  /** Bytes charged for a request of this size: those of the smallest class that holds it, or its own. */
  function Charge(size: nat): (n: nat)
    ensures n >= size
  {
    match ClassFrom(size, 0)
    case Some(c) => Size(c)
    case None => size
  }

  /** The arena has pages for the request, or a span of its class has a free slot. */
  ghost predicate CanServe(partial: Lists, empty: Lists, owns: seq<Owner>, size: nat, mapped: bool) {
    || CanTake(owns, PagesNeeded(size), mapped)
    || var c := ClassFrom(size, 0);
       c.Some? && c.value < |partial| && c.value < |empty| && (partial[c.value] != [] || empty[c.value] != [])
  }

  /** The first free slot of the first partly used span, else of the first unused one, else of a new one. */
  ghost predicate SlotFrom(spans: Spans, spans': Spans, partial: seq<nat>, empty: seq<nat>, c: nat, h: nat, a: nat)
    requires c < |SIZES|
  {
    && (if partial != [] then h == partial[0] else if empty != [] then h == empty[0] else h !in spans)
    && var sp := if h in spans then spans[h] else Span(c, SpanPages(c), NewList(h, c), 0);
       sp.free != [] && a == sp.free[0] && spans' == spans[h := Taken(sp)]
  }

  lemma NothingTaken(spans: Spans, larges: Larges, infos: Infos, owns: seq<Owner>, owns': seq<Owner>)
    requires PagesInv(spans, larges, infos, owns) && TakesNothing(owns, owns')
    ensures PagesInv(spans, larges, infos, owns')
  {
    NothingBalances(infos, owns, owns');
  }

  lemma ApartFromAll(spans: Spans, larges: Larges, live: Live, live': Live, slots: Slots, a: nat, n: nat)
    requires MemInv(spans, larges, live', slots) && a !in live && live' == live[a := n]
    ensures forall b :: b in live ==> Apart(a, n, b, live[b])
  {
    hide MemInv;
    forall b | b in live ensures Apart(a, n, b, live[b]) {
      LiveApart(spans, larges, live', slots, a, b);
    }
  }

  lemma Reshaped(spans: Spans, h: nat, sp: Span)
    requires h in spans && sp.cls == spans[h].cls && sp.pages == spans[h].pages
    ensures SameShape(spans, spans[h := sp])
  {
  }

  lemma RegionsOf(spans: Spans, larges: Larges, live: Live, slots: Slots)
    requires MemInv(spans, larges, live, slots)
    ensures Regions(spans, larges)
  {
  }

  lemma SameLengths(spans: Spans, partial: Lists, empty: Lists)
    requires ListsOk(spans, partial, empty)
    ensures |partial| == |empty| == |SIZES|
  {
  }

  lemma NotHead(spans: Spans, larges: Larges, h: nat, pages: nat)
    requires Fresh(spans, larges, h, pages)
    ensures h !in spans && h !in larges
  {
  }

  lemma NewListLong(h: nat, c: nat)
    requires c < |SIZES|
    ensures NewList(h, c) != []
  {
  }
}
