/**
 * The TTL index: a binary min-heap of deadlines, in which every object knows its own position.
 * `deadlines` is the map it stands for.
 */
module TtlIndex {
  import opened Objects
  import opened Options

  datatype Node = Node(expire: nat, obj: Obj)

  type Heap = seq<Node>

  const UINT64_MAX: nat := 0xFFFF_FFFF_FFFF_FFFF

  function Parent(i: nat): nat
    requires i > 0
  {
    (i - 1) / 2
  }

  ghost predicate Below(h: Heap, j: int)
    requires 0 < j < |h|
  {
    h[Parent(j)].expire <= h[j].expire
  }

  ghost predicate Ordered(h: Heap) {
    forall j :: 0 < j < |h| ==> Below(h, j)
  }

  /** Ordered but for the links to and from `i`; its children do not undercut its parent. */
  ghost predicate OrderedAround(h: Heap, i: nat) {
    && (forall j :: 0 < j < |h| && j != i && Parent(j) != i ==> Below(h, j))
    && (forall j :: 0 < j < |h| && Parent(j) == i && 0 < i < |h| ==> h[Parent(i)].expire <= h[j].expire)
  }

  /** Only the link from `i` to its parent may be wrong. */
  ghost predicate OrderedUp(h: Heap, i: nat) {
    OrderedAround(h, i) && forall j :: 0 < j < |h| && Parent(j) == i ==> Below(h, j)
  }

  /** Only the links from `i` to its children may be wrong. */
  ghost predicate OrderedDown(h: Heap, i: nat) {
    OrderedAround(h, i) && (0 < i < |h| ==> Below(h, i))
  }

  /** Positions and deadlines recorded for objects are those in the heap. */
  ghost predicate Indexed(h: Heap, at: map<Obj, nat>, deadlines: map<Obj, nat>) {
    && at.Keys == deadlines.Keys
    && (forall i :: 0 <= i < |h| ==> h[i].obj in at && at[h[i].obj] == i && deadlines[h[i].obj] == h[i].expire)
    && (forall o :: o in at ==> at[o] < |h| && h[at[o]].obj == o)
  }

  function Swapped(h: Heap, a: nat, b: nat): Heap
    requires a < |h| && b < |h|
  {
    h[a := h[b]][b := h[a]]
  }

  lemma SwapIndexed(h: Heap, at: map<Obj, nat>, deadlines: map<Obj, nat>, a: nat, b: nat)
    requires Indexed(h, at, deadlines) && a < |h| && b < |h|
    ensures Indexed(Swapped(h, a, b), at[h[b].obj := a][h[a].obj := b], deadlines)
  {
    var at' := at[h[b].obj := a][h[a].obj := b];
    assert at'.Keys == at.Keys;
  }

  /** Exchanging a node with the larger parent moves the fault up. */
  lemma SwapUp(h: Heap, i: nat)
    requires 0 < i < |h| && OrderedUp(h, i) && !Below(h, i)
    ensures OrderedUp(Swapped(h, Parent(i), i), Parent(i))
  {
    var h' := Swapped(h, Parent(i), i);
    forall j | 0 < j < |h'| && j != Parent(i) ensures Below(h', j) {
      if Parent(j) == Parent(i) && j != i { assert Below(h, j); }
      if Parent(j) == i { assert Below(h, j); }
    }
    forall j | 0 < j < |h'| && Parent(j) == Parent(i) && Parent(i) > 0
      ensures h'[Parent(Parent(i))].expire <= h'[j].expire
    {
      assert Below(h, Parent(i));
      if j != i { assert Below(h, j); }
    }
  }

  lemma UpDone(h: Heap, i: nat)
    requires OrderedUp(h, i) && (i == 0 || i >= |h| || Below(h, i))
    ensures Ordered(h)
  {
  }

  /** The smaller child, or `i` itself if neither child is smaller. */
  function Smallest(h: Heap, i: nat): (s: nat)
    requires i < |h|
    ensures s < |h| && h[s].expire <= h[i].expire
    ensures s != i ==> s > 0 && Parent(s) == i && h[s].expire < h[i].expire
    ensures forall j :: 0 < j < |h| && Parent(j) == i ==> h[s].expire <= h[j].expire
  {
    var l, r := 2 * i + 1, 2 * i + 2;
    var s := if l < |h| && h[l].expire < h[i].expire then l else i;
    var s' := if r < |h| && h[r].expire < h[s].expire then r else s;
    assert forall j :: 0 < j < |h| && Parent(j) == i ==> j == l || j == r;
    s'
  }

  /** Exchanging a node with its smaller child moves the fault down. */
  lemma SwapDown(h: Heap, i: nat, s: nat)
    requires i < |h| && OrderedDown(h, i) && s == Smallest(h, i) && s != i
    ensures OrderedDown(Swapped(h, i, s), s)
  {
    var h' := Swapped(h, i, s);
    forall j | 0 < j < |h'| && Parent(j) != s ensures Below(h', j) {
      if j == i { assert Below(h, i); }
      if j != i && j != s && Parent(j) != i { assert Below(h, j); }
    }
    forall j | 0 < j < |h'| && Parent(j) == s ensures h'[Parent(s)].expire <= h'[j].expire {
      assert Below(h, j);
    }
  }

  lemma DownDone(h: Heap, i: nat)
    requires i < |h| && OrderedDown(h, i) && Smallest(h, i) == i
    ensures Ordered(h)
  {
    forall j | 0 < j < |h| ensures Below(h, j) {
      if Parent(j) == i { assert h[i].expire <= h[j].expire; }
    }
  }

  lemma {:induction false} RootIsMin(h: Heap, i: nat)
    requires Ordered(h) && i < |h|
    ensures h[0].expire <= h[i].expire
  {
    if i > 0 {
      assert Below(h, i);
      RootIsMin(h, Parent(i));
    }
  }

  /** A node appended at the end can only be too small for its parent. */
  lemma AppendUp(h: Heap, n: Node)
    requires Ordered(h)
    ensures OrderedUp(h + [n], |h|)
  {
    var h' := h + [n];
    forall j | 0 < j < |h'| && j != |h| ensures Below(h', j) {
      assert Below(h, j);
    }
  }

  /** A node overwritten in place can be wrong both ways, but only there. */
  lemma OverwriteAround(h: Heap, i: nat, n: Node)
    requires Ordered(h) && i < |h|
    ensures OrderedAround(h[i := n], i)
  {
    var h' := h[i := n];
    forall j | 0 < j < |h'| && j != i && Parent(j) != i ensures Below(h', j) {
      assert Below(h, j);
    }
    forall j | 0 < j < |h'| && Parent(j) == i && 0 < i ensures h'[Parent(i)].expire <= h'[j].expire {
      assert Below(h, j) && Below(h, i);
    }
  }

  /** Without the last node, whose place another may have taken. */
  lemma ShortenOrdered(h: Heap)
    requires Ordered(h) && h != []
    ensures Ordered(h[..|h| - 1])
  {
    var h' := h[..|h| - 1];
    forall j | 0 < j < |h'| ensures Below(h', j) {
      assert Below(h, j);
    }
  }

  lemma OverwriteIndexed(h: Heap, at: map<Obj, nat>, deadlines: map<Obj, nat>, i: nat, e: nat)
    requires Indexed(h, at, deadlines) && i < |h|
    ensures Indexed(h[i := h[i].(expire := e)], at, deadlines[h[i].obj := e])
  {
    assert deadlines[h[i].obj := e].Keys == at.Keys;
  }

  /** The last node moves to position `i`, and the object that was there leaves. */
  lemma ReplaceIndexed(h: Heap, at: map<Obj, nat>, deadlines: map<Obj, nat>, i: nat)
    requires Indexed(h, at, deadlines) && i < |h|
    ensures var last := |h| - 1;
      var o := h[i].obj;
      if i < last then Indexed(h[i := h[last]][..last], (at - {o})[h[last].obj := i], deadlines - {o})
      else Indexed(h[..last], at - {o}, deadlines - {o})
  {
    var last := |h| - 1;
    var o := h[i].obj;
    if i < last {
      var h', at' := h[i := h[last]][..last], (at - {o})[h[last].obj := i];
      assert at'.Keys == at.Keys - {o};
    }
  }

  lemma AppendIndexed(h: Heap, at: map<Obj, nat>, deadlines: map<Obj, nat>, o: Obj, e: nat)
    requires Indexed(h, at, deadlines) && o !in at
    ensures Indexed(h + [Node(e, o)], at[o := |h|], deadlines[o := e])
  {
  }

  class Index {
    var heap: Heap
    var at: map<Obj, nat>
    ghost var deadlines: map<Obj, nat>

    ghost predicate Valid()
      reads this
    {
      Ordered(heap) && Indexed(heap, at, deadlines)
    }

    constructor ()
      ensures Valid() && deadlines == map[]
    {
      heap, at, deadlines := [], map[], map[];
    }

    method Swap(a: nat, b: nat)
      requires Indexed(heap, at, deadlines) && a < |heap| && b < |heap|
      modifies this`heap, this`at
      ensures Indexed(heap, at, deadlines) && heap == Swapped(old(heap), a, b)
    {
      hide Indexed;
      SwapIndexed(heap, at, deadlines, a, b);
      HeapInIndex(heap, at, deadlines);
      at := at[heap[b].obj := a][heap[a].obj := b];
      heap := Swapped(heap, a, b);
    }

    method SiftUp(start: nat)
      requires start < |heap| && OrderedUp(heap, start) && Indexed(heap, at, deadlines)
      modifies this`heap, this`at
      ensures Valid() && |heap| == old(|heap|)
      ensures heap[0] == old(heap)[0] || (heap[0] == old(heap)[start] && heap[0].expire < old(heap)[0].expire)
    {
      hide OrderedUp, Ordered, Indexed;
      var i: nat := start;
      while i > 0
        invariant i < |heap| == old(|heap|) && OrderedUp(heap, i) && Indexed(heap, at, deadlines)
        invariant heap[i] == old(heap)[start]
        invariant heap[0] == old(heap)[0] || (i == 0 && heap[0].expire < old(heap)[0].expire)
      {
        var p := (i - 1) / 2;
        if heap[p].expire <= heap[i].expire {
          break;
        }
        SwapUp(heap, i);
        Swap(p, i);
        i := p;
      }
      UpDone(heap, i);
    }

    method SiftDown(start: nat)
      requires start < |heap| && OrderedDown(heap, start) && Indexed(heap, at, deadlines)
      modifies this`heap, this`at
      ensures Valid() && |heap| == old(|heap|)
    {
      hide OrderedDown, Ordered, Indexed;
      var i: nat := start;
      while true
        invariant i < |heap| == old(|heap|) && OrderedDown(heap, i) && Indexed(heap, at, deadlines)
        decreases |heap| - i
      {
        var s, l, r := i, 2 * i + 1, 2 * i + 2;
        if l < |heap| && heap[l].expire < heap[s].expire {
          s := l;
        }
        if r < |heap| && heap[r].expire < heap[s].expire {
          s := r;
        }
        assert s == Smallest(heap, i);
        if s == i {
          DownDone(heap, i);
          return;
        }
        SwapDown(heap, i, s);
        Swap(i, s);
        i := s;
      }
    }

    /** Restores the order after the node at `i` has changed. */
    method Fix(i: nat)
      requires i < |heap| && OrderedAround(heap, i) && Indexed(heap, at, deadlines)
      modifies this`heap, this`at
      ensures Valid() && |heap| == old(|heap|)
    {
      hide Indexed;
      if i > 0 && heap[i].expire < heap[(i - 1) / 2].expire {
        SiftUp(i);
      } else {
        SiftDown(i);
      }
    }

    /** A new deadline is at the top only if it is before all others. */
    method Push(o: Obj, expire: nat)
      requires Valid() && o !in deadlines
      modifies this
      ensures Valid() && deadlines == old(deadlines)[o := expire]
      ensures heap != [] && (heap[0].obj == o ==> forall p :: p in old(deadlines) ==> expire < old(deadlines)[p])
    {
      if heap != [] { MinDeadline(heap, at, deadlines); }
      EmptyIndex(heap, at, deadlines);
      AppendUp(heap, Node(expire, o));
      AppendIndexed(heap, at, deadlines, o, expire);
      hide Indexed, Ordered, OrderedUp;
      at, deadlines := at[o := |heap|], deadlines[o := expire];
      heap := heap + [Node(expire, o)];
      SiftUp(|heap| - 1);
    }

    method Update(o: Obj, expire: nat)
      requires Valid()
      modifies this
      ensures Valid() && deadlines == if o in old(deadlines) then old(deadlines)[o := expire] else old(deadlines)
    {
      if o !in at {
        return;
      }
      var pos := at[o];
      OverwriteAround(heap, pos, heap[pos].(expire := expire));
      OverwriteIndexed(heap, at, deadlines, pos, expire);
      hide Indexed, Ordered, OrderedAround;
      heap := heap[pos := heap[pos].(expire := expire)];
      deadlines := deadlines[o := expire];
      Fix(pos);
    }

    method Remove(o: Obj)
      requires Valid()
      modifies this
      ensures Valid() && deadlines == old(deadlines) - {o}
    {
      hide Indexed, Ordered, OrderedAround;
      PlaceOf(heap, at, deadlines, o);
      if o !in at {
        return;
      }
      var pos, last := at[o], |heap| - 1;
      ReplaceIndexed(heap, at, deadlines, pos);
      ShortenOrdered(heap);
      deadlines := deadlines - {o};
      if pos < last {
        OverwriteAround(heap[..last], pos, heap[last]);
        assert heap[pos := heap[last]][..last] == heap[..last][pos := heap[last]];
        at := (at - {o})[heap[last].obj := pos];
        heap := heap[..last][pos := heap[last]];
        Fix(pos);
      } else {
        at := at - {o};
        heap := heap[..last];
      }
    }

    /** The earliest deadline, or the largest 64-bit number if there is none. */
    method Peek() returns (e: nat)
      requires Valid()
      ensures deadlines == map[] ==> e == UINT64_MAX
      ensures deadlines != map[] ==> exists o :: o in deadlines && deadlines[o] == e
      ensures deadlines != map[] ==> forall o :: o in deadlines ==> e <= deadlines[o]
    {
      EmptyIndex(heap, at, deadlines);
      if |heap| == 0 {
        return UINT64_MAX;
      }
      MinDeadline(heap, at, deadlines);
      return heap[0].expire;
    }

    /** The earliest deadline and its object. */
    method Pop() returns (r: Option<Node>)
      requires Valid()
      modifies this
      ensures Valid()
      ensures r.None? <==> old(deadlines) == map[]
      ensures r.Some? ==> old(heap) != [] && r.value == old(heap)[0]
      ensures r.None? ==> deadlines == old(deadlines)
      ensures r.Some? ==> && r.value.obj in old(deadlines) && old(deadlines)[r.value.obj] == r.value.expire
                          && deadlines == old(deadlines) - {r.value.obj}
                          && forall o :: o in old(deadlines) ==> r.value.expire <= old(deadlines)[o]
    {
      EmptyIndex(heap, at, deadlines);
      if |heap| == 0 {
        return None;
      }
      MinDeadline(heap, at, deadlines);
      var top := heap[0];
      Remove(top.obj);
      return Some(top);
    }
  }

  lemma PlaceOf(h: Heap, at: map<Obj, nat>, deadlines: map<Obj, nat>, o: Obj)
    requires Indexed(h, at, deadlines)
    ensures o in at <==> o in deadlines
    ensures o in at ==> at[o] < |h| && h[at[o]].obj == o
    ensures o !in at ==> deadlines - {o} == deadlines
  {
  }

  lemma HeapInIndex(h: Heap, at: map<Obj, nat>, deadlines: map<Obj, nat>)
    requires Indexed(h, at, deadlines)
    ensures forall i :: 0 <= i < |h| ==> h[i].obj in at
  {
  }

  lemma EmptyIndex(h: Heap, at: map<Obj, nat>, deadlines: map<Obj, nat>)
    requires Indexed(h, at, deadlines)
    ensures h == [] <==> deadlines == map[]
  {
    forall o | o in deadlines ensures |h| > 0 {
      assert o in at;
    }
    if h != [] { assert h[0].obj in at; }
  }

  lemma MinDeadline(h: Heap, at: map<Obj, nat>, deadlines: map<Obj, nat>)
    requires Indexed(h, at, deadlines) && Ordered(h) && h != []
    ensures h[0].obj in deadlines && deadlines[h[0].obj] == h[0].expire
    ensures forall o :: o in deadlines ==> h[0].expire <= deadlines[o]
  {
    forall o | o in deadlines ensures h[0].expire <= deadlines[o] {
      assert o in at;
      RootIsMin(h, at[o]);
      assert h[at[o]].obj == o;
    }
  }
}
