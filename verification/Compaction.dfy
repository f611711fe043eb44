/**
 * Compaction of a snapshot delta into the base: the delta's records come first, then the base's,
 * and of several records of one slot the first is kept. A file means the first record it has for
 * each slot, and nothing if that is a tombstone.
 */
module Compaction {
  import opened Options

  const SLOTS_PER_PAGE: nat := 128

  datatype Slot = Slot(page: nat, index: nat)

  datatype Entry = Entry(index: nat, deleted: bool, expire: nat, key: string, val: string)

  datatype PageRecord = PageRecord(page: nat, entries: seq<Entry>)

  type File = seq<PageRecord>

  /** A record with the slot it belongs to. */
  datatype Item = Item(slot: Slot, entry: Entry)

  type Items = seq<Item>

  function PageItems(page: nat, entries: seq<Entry>): (items: Items)
    ensures |items| == |entries|
  {
    seq(|entries|, i requires 0 <= i < |entries| => Item(Slot(page, entries[i].index), entries[i]))
  }

  function AllItems(file: File): Items {
    if file == [] then [] else PageItems(file[0].page, file[0].entries) + AllItems(file[1..])
  }

  // ---------------------------------------------------------------- what a file means

  function First(items: Items, s: Slot): Option<Entry> {
    if items == [] then None else if items[0].slot == s then Some(items[0].entry) else First(items[1..], s)
  }

  function Live(e: Option<Entry>): Option<Entry> {
    if e.Some? && e.value.deleted then None else e
  }

  function Meaning(file: File, s: Slot): Option<Entry> {
    Live(First(AllItems(file), s))
  }

  function Mentions(file: File, s: Slot): bool {
    First(AllItems(file), s).Some?
  }

  predicate IsRecord(file: File, p: nat, i: nat) {
    p < |file| && i < |file[p].entries|
  }

  function SlotAt(file: File, p: nat, i: nat): Slot
    requires IsRecord(file, p, i)
  {
    Slot(file[p].page, file[p].entries[i].index)
  }

  lemma {:induction false} FirstInPage(page: nat, entries: seq<Entry>, s: Slot, i: nat)
    requires i <= |entries| && forall j :: 0 <= j < i ==> s != Slot(page, entries[j].index)
    ensures First(PageItems(page, entries), s) ==
      if i < |entries| && s == Slot(page, entries[i].index) then Some(entries[i])
      else First(PageItems(page, entries[i..]), s)
    decreases i
  {
    var items := PageItems(page, entries);
    if i > 0 {
      FirstInPage(page, entries[1..], s, i - 1);
      assert items[1..] == PageItems(page, entries[1..]) && entries[1..][i - 1..] == entries[i..];
    } else {
      assert entries[0..] == entries;
    }
  }

  /** Of the records of a slot, in the order in which the file has them, the first counts. */
  lemma {:induction false} FirstRecordCounts(file: File, p: nat, i: nat)
    requires IsRecord(file, p, i)
    requires forall q: nat, j: nat :: IsRecord(file, q, j) && (q < p || (q == p && j < i)) ==>
               SlotAt(file, q, j) != SlotAt(file, p, i)
    ensures First(AllItems(file), SlotAt(file, p, i)) == Some(file[p].entries[i])
    decreases p
  {
    var s, r := SlotAt(file, p, i), file[0];
    FirstConcat(PageItems(r.page, r.entries), AllItems(file[1..]), s);
    if p == 0 {
      forall j | 0 <= j < i ensures s != Slot(r.page, r.entries[j].index) {
        assert IsRecord(file, 0, j);
      }
      FirstInPage(r.page, r.entries, s, i);
    } else {
      forall j | 0 <= j < |r.entries| ensures s != Slot(r.page, r.entries[j].index) {
        assert IsRecord(file, 0, j);
      }
      FirstInPage(r.page, r.entries, s, |r.entries|);
      forall q: nat, j: nat | IsRecord(file[1..], q, j) && (q < p - 1 || (q == p - 1 && j < i))
        ensures SlotAt(file[1..], q, j) != s
      {
        assert IsRecord(file, q + 1, j);
      }
      FirstRecordCounts(file[1..], p - 1, i);
    }
  }

  /** Without a record of the slot the file does not mention it. */
  lemma {:induction false} NoRecordNoMeaning(file: File, s: Slot)
    requires forall q: nat, j: nat :: IsRecord(file, q, j) ==> SlotAt(file, q, j) != s
    ensures First(AllItems(file), s).None?
    decreases |file|
  {
    if file != [] {
      var r := file[0];
      forall j | 0 <= j < |r.entries| ensures s != Slot(r.page, r.entries[j].index) {
        assert IsRecord(file, 0, j);
      }
      FirstInPage(r.page, r.entries, s, |r.entries|);
      FirstConcat(PageItems(r.page, r.entries), AllItems(file[1..]), s);
      forall q: nat, j: nat | IsRecord(file[1..], q, j) ensures SlotAt(file[1..], q, j) != s {
        assert IsRecord(file, q + 1, j);
      }
      NoRecordNoMeaning(file[1..], s);
    }
  }

  // ---------------------------------------------------------------- what compaction keeps

  function Index(s: Slot): nat {
    s.page * SLOTS_PER_PAGE + s.index
  }

  /** The duplicate filter has a bit for this slot. */
  predicate Filtered(bits: nat, s: Slot) {
    Index(s) < bits
  }

  /** The records written, if the slots in `seen` have been seen already. */
  function Keep(bits: nat, items: Items, seen: set<Slot>): Items {
    if items == [] then []
    else
      var s, e := items[0].slot, items[0].entry;
      var rest := Keep(bits, items[1..], seen + {s});
      if (Filtered(bits, s) && s in seen) || e.deleted then rest else [items[0]] + rest
  }

  function SeenAfter(items: Items, seen: set<Slot>): set<Slot> {
    if items == [] then seen else SeenAfter(items[1..], seen + {items[0].slot})
  }

  lemma {:induction false} KeepConcat(bits: nat, a: Items, b: Items, seen: set<Slot>)
    ensures Keep(bits, a + b, seen) == Keep(bits, a, seen) + Keep(bits, b, SeenAfter(a, seen))
    ensures SeenAfter(a + b, seen) == SeenAfter(b, SeenAfter(a, seen))
    decreases |a|
  {
    if a == [] {
      assert a + b == b;
    } else {
      assert (a + b)[1..] == a[1..] + b;
      KeepConcat(bits, a[1..], b, seen + {a[0].slot});
    }
  }

  /** For a slot that the filter covers, exactly its first record survives, if that is live. */
  lemma {:induction false} KeepFirst(bits: nat, items: Items, seen: set<Slot>, s: Slot)
    requires Filtered(bits, s)
    ensures First(Keep(bits, items, seen), s) == if s in seen then None else Live(First(items, s))
    decreases |items|
  {
    if items != [] { KeepFirst(bits, items[1..], seen + {items[0].slot}, s); }
  }

  function FirstLive(items: Items, s: Slot): Option<Entry> {
    if items == [] then None
    else if items[0].slot == s && !items[0].entry.deleted then Some(items[0].entry)
    else FirstLive(items[1..], s)
  }

  /** For a slot beyond the filter, tombstones hide nothing. */
  lemma {:induction false} KeepUnfiltered(bits: nat, items: Items, seen: set<Slot>, s: Slot)
    requires !Filtered(bits, s)
    ensures First(Keep(bits, items, seen), s) == FirstLive(items, s)
    decreases |items|
  {
    if items != [] { KeepUnfiltered(bits, items[1..], seen + {items[0].slot}, s); }
  }

  lemma {:induction false} FirstConcat(a: Items, b: Items, s: Slot)
    ensures First(a + b, s) == if First(a, s).Some? then First(a, s) else First(b, s)
    decreases |a|
  {
    if a == [] {
      assert a + b == b;
    } else {
      assert (a + b)[1..] == a[1..] + b;
      FirstConcat(a[1..], b, s);
    }
  }

  /** What is kept is live, and no filtered slot is kept twice. */
  lemma {:induction false} KeepClean(bits: nat, items: Items, seen: set<Slot>, i: nat)
    requires i < |Keep(bits, items, seen)|
    ensures var kept := Keep(bits, items, seen);
      && !kept[i].entry.deleted
      && (Filtered(bits, kept[i].slot) ==>
            kept[i].slot !in seen && forall j :: 0 <= j < |kept| && j != i ==> kept[j].slot != kept[i].slot)
    decreases |items|
  {
    var s, e := items[0].slot, items[0].entry;
    var rest := Keep(bits, items[1..], seen + {s});
    var kept := Keep(bits, items, seen);
    var dropped := (Filtered(bits, s) && s in seen) || e.deleted;
    var k := if dropped then 0 else 1;
    forall j | 0 <= j < |rest|
      ensures !rest[j].entry.deleted
      ensures Filtered(bits, rest[j].slot) ==>
        rest[j].slot !in seen + {s} && forall h :: 0 <= h < |rest| && h != j ==> rest[h].slot != rest[j].slot
    {
      KeepClean(bits, items[1..], seen + {s}, j);
    }
    assert forall j :: k <= j < |kept| ==> kept[j] == rest[j - k];
  }

  // ---------------------------------------------------------------- the two passes

  predicate WellFormed(file: File) {
    forall p, i :: 0 <= p < |file| && 0 <= i < |file[p].entries| ==> file[p].entries[i].index < SLOTS_PER_PAGE
  }

  ghost predicate Marks(bits: seq<bool>, seen: set<Slot>) {
    forall s: Slot :: s.index < SLOTS_PER_PAGE && Filtered(|bits|, s) ==> (bits[Index(s)] <==> s in seen)
  }

  lemma IndexInjective(s: Slot, t: Slot)
    requires s.index < SLOTS_PER_PAGE && t.index < SLOTS_PER_PAGE && Index(s) == Index(t)
    ensures s == t
  {
  }

  lemma MarkOne(bits: seq<bool>, seen: set<Slot>, s: Slot)
    requires Marks(bits, seen) && s.index < SLOTS_PER_PAGE
    ensures if Filtered(|bits|, s) then Marks(bits[Index(s) := true], seen + {s}) else Marks(bits, seen + {s})
  {
    forall t: Slot | t.index < SLOTS_PER_PAGE && Filtered(|bits|, t) && Filtered(|bits|, s)
      ensures bits[Index(s) := true][Index(t)] <==> t in seen + {s}
    {
      if Index(t) == Index(s) { IndexInjective(s, t); }
    }
  }

  /** Marks a slot as seen; the answer is yes the first time, and always beyond the filter. */
  method Mark(bits: array<bool>, page: nat, index: nat, ghost seen: set<Slot>) returns (first: bool)
    requires Marks(bits[..], seen) && index < SLOTS_PER_PAGE
    modifies bits
    ensures Marks(bits[..], seen + {Slot(page, index)})
    ensures first == !(Filtered(bits.Length, Slot(page, index)) && Slot(page, index) in seen)
  {
    MarkOne(bits[..], seen, Slot(page, index));
    var idx := page * SLOTS_PER_PAGE + index;
    if idx >= bits.Length {
      return true;
    }
    ghost var before := bits[..];
    if bits[idx] {
      assert before[idx := true] == before;
      return false;
    }
    bits[idx] := true;
    assert bits[..] == before[idx := true];
    return true;
  }

  lemma KeepStep(bits: nat, items: Items, i: nat, seen: set<Slot>)
    requires i < |items|
    ensures var s := items[i].slot;
      && Keep(bits, items[i..], seen)
         == (if (Filtered(bits, s) && s in seen) || items[i].entry.deleted then [] else [items[i]])
            + Keep(bits, items[i + 1..], seen + {s})
      && SeenAfter(items[i..], seen) == SeenAfter(items[i + 1..], seen + {s})
  {
    assert items[i..][0] == items[i] && items[i..][1..] == items[i + 1..];
  }

  lemma FileStep(bits: nat, file: File, p: nat, seen: set<Slot>)
    requires p < |file|
    ensures var items := PageItems(file[p].page, file[p].entries);
      && Keep(bits, AllItems(file[p..]), seen)
         == Keep(bits, items, seen) + Keep(bits, AllItems(file[p + 1..]), SeenAfter(items, seen))
      && SeenAfter(AllItems(file[p..]), seen) == SeenAfter(AllItems(file[p + 1..]), SeenAfter(items, seen))
  {
    assert file[p..][0] == file[p] && file[p..][1..] == file[p + 1..];
    KeepConcat(bits, PageItems(file[p].page, file[p].entries), AllItems(file[p + 1..]), seen);
  }

  method CompactPage(bits: array<bool>, page: nat, entries: seq<Entry>, ghost seen: set<Slot>)
    returns (kept: seq<Entry>)
    requires Marks(bits[..], seen) && forall i :: 0 <= i < |entries| ==> entries[i].index < SLOTS_PER_PAGE
    modifies bits
    ensures Marks(bits[..], SeenAfter(PageItems(page, entries), seen))
    ensures PageItems(page, kept) == Keep(bits.Length, PageItems(page, entries), seen)
  {
    hide Marks, Keep, SeenAfter, PageItems;
    ghost var items := PageItems(page, entries);
    ghost var seen', left := seen, Keep(bits.Length, items, seen);
    kept := [];
    var i := 0;
    assert items[0..] == items;
    NoItems(page);
    while i < |entries|
      invariant 0 <= i <= |entries| && Marks(bits[..], seen')
      invariant SeenAfter(items, seen) == SeenAfter(items[i..], seen')
      invariant Keep(bits.Length, items, seen) == PageItems(page, kept) + left
      invariant left == Keep(bits.Length, items[i..], seen')
    {
      var e := entries[i];
      ItemAt(page, entries, i);
      KeepStep(bits.Length, items, i, seen');
      var first := Mark(bits, page, e.index, seen');
      ghost var done := PageItems(page, kept);
      seen' := seen' + {items[i].slot};
      left := Keep(bits.Length, items[i + 1..], seen');
      assert done + ([items[i]] + left) == done + [items[i]] + left && [] + left == left;
      if first && !e.deleted {
        ItemsGrow(page, kept, e);
        kept := kept + [e];
      }
      i := i + 1;
    }
    assert items[i..] == [];
    KeepNothing(bits.Length, seen');
  }

  lemma NoItems(page: nat)
    ensures PageItems(page, []) == []
  {
  }

  lemma ItemAt(page: nat, entries: seq<Entry>, i: nat)
    requires i < |entries|
    ensures PageItems(page, entries)[i] == Item(Slot(page, entries[i].index), entries[i])
  {
  }

  lemma ItemsGrow(page: nat, entries: seq<Entry>, e: Entry)
    ensures PageItems(page, entries + [e]) == PageItems(page, entries) + [Item(Slot(page, e.index), e)]
  {
  }

  lemma KeepNothing(bits: nat, seen: set<Slot>)
    ensures Keep(bits, [], seen) == [] && SeenAfter([], seen) == seen
  {
  }

  lemma {:induction false} AllItemsConcat(a: File, b: File)
    ensures AllItems(a + b) == AllItems(a) + AllItems(b)
    decreases |a|
  {
    if a == [] {
      assert a + b == b;
    } else {
      assert (a + b)[1..] == a[1..] + b;
      AllItemsConcat(a[1..], b);
    }
  }

  lemma OnePage(r: PageRecord)
    ensures AllItems([r]) == PageItems(r.page, r.entries)
  {
    assert [r][1..] == [];
    assert AllItems([]) == [];
  }

  /** Copies the records of one file; a page record with nothing left in it is taken back. */
  method CompactFile(bits: array<bool>, file: File, ghost seen: set<Slot>)
    returns (out: File, slots: nat)
    requires Marks(bits[..], seen) && WellFormed(file)
    modifies bits
    ensures Marks(bits[..], SeenAfter(AllItems(file), seen))
    ensures AllItems(out) == Keep(bits.Length, AllItems(file), seen) && slots == |AllItems(out)|
    ensures forall p :: 0 <= p < |out| ==> out[p].entries != []
  {
    hide Marks, Keep, SeenAfter, PageItems, AllItems, WellFormed;
    ghost var seen', left := seen, Keep(bits.Length, AllItems(file), seen);
    out, slots := [], 0;
    var p := 0;
    assert file[0..] == file;
    NoRecords();
    while p < |file|
      invariant 0 <= p <= |file| && Marks(bits[..], seen')
      invariant SeenAfter(AllItems(file), seen) == SeenAfter(AllItems(file[p..]), seen')
      invariant Keep(bits.Length, AllItems(file), seen) == AllItems(out) + left
      invariant left == Keep(bits.Length, AllItems(file[p..]), seen')
      invariant slots == |AllItems(out)| && forall q :: 0 <= q < |out| ==> out[q].entries != []
    {
      var r := file[p];
      FileStep(bits.Length, file, p, seen');
      PageWellFormed(file, p);
      var kept := CompactPage(bits, r.page, r.entries, seen');
      ghost var done, piece := AllItems(out), PageItems(r.page, kept);
      seen' := SeenAfter(PageItems(r.page, r.entries), seen');
      left := Keep(bits.Length, AllItems(file[p + 1..]), seen');
      assert done + (piece + left) == done + piece + left;
      if kept != [] {
        var record := PageRecord(r.page, kept);
        AllItemsConcat(out, [record]);
        OnePage(record);
        out, slots := out + [record], slots + |kept|;
      } else {
        NoItems(r.page);
        assert done + [] == done;
      }
      p := p + 1;
    }
    assert file[p..] == [];
    KeepNothing(bits.Length, seen');
  }

  lemma NoRecords()
    ensures AllItems([]) == []
  {
  }

  lemma PageWellFormed(file: File, p: nat)
    requires WellFormed(file) && p < |file|
    ensures forall i :: 0 <= i < |file[p].entries| ==> file[p].entries[i].index < SLOTS_PER_PAGE
  {
  }

  /** The records of a new base. */
  ghost predicate Compacted(bits: nat, delta: File, base: File, out: File) {
    AllItems(out) == Keep(bits, AllItems(delta) + AllItems(base), {})
  }

  lemma NothingMarked(bits: seq<bool>)
    requires forall i :: 0 <= i < |bits| ==> !bits[i]
    ensures Marks(bits, {})
  {
  }

  /** The new base: the delta's records, then those of the old base, if there is a readable one. */
  method Compact(delta: File, base: Option<File>, committedPages: nat) returns (out: File, pages: nat, slots: nat)
    requires WellFormed(delta) && (base.Some? ==> WellFormed(base.value))
    ensures Compacted(FilterBits(committedPages), delta, if base.Some? then base.value else [], out)
    ensures pages == |out| && slots == |AllItems(out)| && forall p :: 0 <= p < |out| ==> out[p].entries != []
  {
    hide Marks, FilterBits;
    var bits := new bool[FilterBits(committedPages)](_ => false);
    NothingMarked(bits[..]);
    var fromDelta, n := CompactFile(bits, delta, {});
    out, slots := fromDelta, n;
    if base.Some? {
      ghost var seen := SeenAfter(AllItems(delta), {});
      var fromBase, m := CompactFile(bits, base.value, seen);
      KeepConcat(bits.Length, AllItems(delta), AllItems(base.value), {});
      AllItemsConcat(fromDelta, fromBase);
      out, slots := fromDelta + fromBase, n + m;
    } else {
      assert AllItems(delta) + AllItems([]) == AllItems(delta);
    }
    pages := |out|;
  }

  /** Twice the committed pages, at least 128 of them, 128 bits each. */
  function FilterBits(committedPages: nat): nat {
    (if committedPages < 64 then 64 else committedPages) * 2 * SLOTS_PER_PAGE
  }

  // ---------------------------------------------------------------- last writer wins

  /** The delta's word on a slot it mentions, the base's on any other. */
  function Merged(delta: File, base: File, s: Slot): Option<Entry> {
    if Mentions(delta, s) then Meaning(delta, s) else Meaning(base, s)
  }

  /** A tombstone that covers a live record of the same slot, in the delta or in the base. */
  predicate HiddenByTombstone(delta: File, base: File, s: Slot) {
    Merged(delta, base, s).None? && FirstLive(AllItems(delta) + AllItems(base), s).Some?
  }

  lemma {:induction false} LiveFirst(items: Items, s: Slot)
    ensures Live(First(items, s)).Some? ==> FirstLive(items, s) == First(items, s)
    decreases |items|
  {
    if items != [] { LiveFirst(items[1..], s); }
  }

  /**
   * The new base means the merge of delta and base at a slot if and only if the filter covers the
   * slot or no tombstone has to hide a live record of it.
   */
  lemma LastWriterWins(bits: nat, delta: File, base: File, out: File, s: Slot)
    requires Compacted(bits, delta, base, out)
    ensures Meaning(out, s) == Merged(delta, base, s) <==> Filtered(bits, s) || !HiddenByTombstone(delta, base, s)
  {
    var items := AllItems(delta) + AllItems(base);
    FirstConcat(AllItems(delta), AllItems(base), s);
    assert Merged(delta, base, s) == Live(First(items, s));
    LiveFirst(items, s);
    if Filtered(bits, s) {
      KeepFirst(bits, items, {}, s);
    } else {
      KeepUnfiltered(bits, items, {}, s);
      FirstLiveIsLive(items, s);
    }
  }

  lemma {:induction false} FirstLiveIsLive(items: Items, s: Slot)
    ensures FirstLive(items, s).Some? ==> !FirstLive(items, s).value.deleted
    ensures FirstLive(items, s).None? ==> Live(First(items, s)).None?
    decreases |items|
  {
    if items != [] { FirstLiveIsLive(items[1..], s); }
  }

  /** The new base has no tombstones, and one record at most for each slot the filter covers. */
  lemma NewBaseIsClean(bits: nat, delta: File, base: File, out: File, i: nat)
    requires Compacted(bits, delta, base, out) && i < |AllItems(out)|
    ensures var items := AllItems(out);
      && !items[i].entry.deleted
      && (Filtered(bits, items[i].slot) ==>
            forall j :: 0 <= j < |items| && j != i ==> items[j].slot != items[i].slot)
  {
    KeepClean(bits, AllItems(delta) + AllItems(base), {}, i);
  }

  // ---------------------------------------------------------------- files that a session writes

  /** A delta as the serializer writes it: of committed pages only, with slot numbers below 128. */
  predicate Written(committedPages: nat, delta: File) {
    WellFormed(delta) && forall p :: 0 <= p < |delta| ==> delta[p].page < committedPages
  }

  predicate NoTombstones(file: File) {
    forall i :: 0 <= i < |AllItems(file)| ==> !AllItems(file)[i].entry.deleted
  }

  /** The filter has a bit for every slot of every committed page. */
  lemma CommittedIsFiltered(committedPages: nat, s: Slot)
    requires s.page < committedPages && s.index < SLOTS_PER_PAGE
    ensures Filtered(FilterBits(committedPages), s)
  {
  }

  lemma {:induction false} ItemOfPage(delta: File, committedPages: nat, i: nat)
    requires Written(committedPages, delta) && i < |AllItems(delta)|
    ensures AllItems(delta)[i].slot.page < committedPages && AllItems(delta)[i].slot.index < SLOTS_PER_PAGE
    decreases |delta|
  {
    var n := |delta[0].entries|;
    if i >= n {
      assert Written(committedPages, delta[1..]);
      ItemOfPage(delta[1..], committedPages, i - n);
    }
  }

  lemma {:induction false} FirstIsItem(items: Items, s: Slot)
    ensures First(items, s).Some? ==> exists i :: 0 <= i < |items| && items[i] == Item(s, First(items, s).value)
    ensures FirstLive(items, s).Some? ==> First(items, s).Some?
    decreases |items|
  {
    if items != [] {
      FirstIsItem(items[1..], s);
      if items[0].slot != s && First(items, s).Some? {
        var i :| 0 <= i < |items[1..]| && items[1..][i] == Item(s, First(items, s).value);
        assert items[i + 1] == items[1..][i];
      }
    }
  }

  lemma WrittenIsFiltered(committedPages: nat, delta: File, s: Slot)
    requires Written(committedPages, delta) && Mentions(delta, s)
    ensures Filtered(FilterBits(committedPages), s)
  {
    var items := AllItems(delta);
    FirstIsItem(items, s);
    var i :| 0 <= i < |items| && items[i] == Item(s, First(items, s).value);
    ItemOfPage(delta, committedPages, i);
    CommittedIsFiltered(committedPages, s);
  }

  /**
   * Folding a delta that the serializer wrote into a base without tombstones: the new base means
   * the merge of both at every slot, and has no tombstones again.
   */
  lemma CompactionMerges(committedPages: nat, delta: File, base: File, out: File, s: Slot)
    requires Written(committedPages, delta) && NoTombstones(base)
    requires Compacted(FilterBits(committedPages), delta, base, out)
    ensures Meaning(out, s) == Merged(delta, base, s)
    ensures NoTombstones(out)
  {
    hide FilterBits, Written;
    var bits := FilterBits(committedPages);
    forall i | 0 <= i < |AllItems(out)| ensures !AllItems(out)[i].entry.deleted {
      NewBaseIsClean(bits, delta, base, out, i);
    }
    LastWriterWins(bits, delta, base, out, s);
    if Mentions(delta, s) {
      WrittenIsFiltered(committedPages, delta, s);
    } else {
      NothingHidden(delta, base, s);
    }
  }

  lemma NothingHidden(delta: File, base: File, s: Slot)
    requires !Mentions(delta, s) && NoTombstones(base)
    ensures !HiddenByTombstone(delta, base, s)
  {
    var items := AllItems(delta) + AllItems(base);
    FirstConcat(AllItems(delta), AllItems(base), s);
    FirstIsItem(items, s);
    FirstIsItem(AllItems(base), s);
  }

  /** The bases that folding the deltas one after the other goes through, and the pages committed each time. */
  ghost predicate Folds(committed: seq<nat>, deltas: seq<File>, bases: seq<File>) {
    && |bases| == |deltas| + 1 == |committed| + 1
    && (forall i :: 0 <= i < |deltas| ==> Written(committed[i], deltas[i]))
    && (forall i :: 0 <= i < |deltas| ==>
          Compacted(FilterBits(committed[i]), deltas[i], bases[i], bases[i + 1]))
  }

  /** Replaying the deltas in order: the last one that mentions the slot decides. */
  function Replay(base: File, deltas: seq<File>, s: Slot): Option<Entry> {
    if deltas == [] then Meaning(base, s)
    else
      var last := deltas[|deltas| - 1];
      if Mentions(last, s) then Meaning(last, s) else Replay(base, deltas[..|deltas| - 1], s)
  }

  /** Folding any sequence of deltas, from no base or one without tombstones, is replaying them. */
  lemma {:induction false} FoldIsReplay(committed: seq<nat>, deltas: seq<File>, bases: seq<File>, s: Slot)
    requires Folds(committed, deltas, bases) && NoTombstones(bases[0])
    ensures Meaning(bases[|deltas|], s) == Replay(bases[0], deltas, s)
    ensures NoTombstones(bases[|deltas|])
    decreases |deltas|
  {
    if deltas != [] {
      var n := |deltas| - 1;
      assert Folds(committed[..n], deltas[..n], bases[..n + 1]);
      FoldIsReplay(committed[..n], deltas[..n], bases[..n + 1], s);
      assert Compacted(FilterBits(committed[n]), deltas[n], bases[n], bases[n + 1]);
      CompactionMerges(committed[n], deltas[n], bases[n], bases[n + 1], s);
    }
  }

  /**
   * The bound on the pages is needed: with a page beyond the filter the delta deletes a slot and
   * the new base still has it. No delta that the serializer writes has such a page.
   */
  lemma DeletionMayBeUndone(committedPages: nat) returns (delta: File, base: File, out: File, s: Slot)
    ensures WellFormed(delta) && !Written(committedPages, delta) && NoTombstones(base)
    ensures Compacted(FilterBits(committedPages), delta, base, out)
    ensures Mentions(delta, s) && Merged(delta, base, s).None?
    ensures Meaning(out, s).Some?
  {
    var page := FilterBits(committedPages);
    s := Slot(page, 0);
    var live, dead := Entry(0, false, 0, "k", "v"), Entry(0, true, 0, "", "");
    delta, base := [PageRecord(page, [dead])], [PageRecord(page, [live])];
    out := base;
    OnePage(delta[0]);
    OnePage(base[0]);
    assert AllItems(delta) == [Item(s, dead)] && AllItems(base) == [Item(s, live)];
    var items := [Item(s, dead), Item(s, live)];
    assert AllItems(delta) + AllItems(base) == items;
    assert !Filtered(page, s);
    var rest := items[1..];
    assert rest == [Item(s, live)] && rest[1..] == [];
    assert Keep(page, [], {s}) == [];
    assert Keep(page, rest, {s}) == [Item(s, live)] + [];
    assert Keep(page, items, {}) == Keep(page, rest, {} + {s});
    assert delta[0].page >= committedPages;
  }
}
