/**
 * Free lists threaded through page numbers: one doubly linked list for each order, kept in arrays
 * of next and previous page numbers. `lists` are the sequences the links stand for.
 */
module IndexLists {

  const NIL: int := -1

  type Lists = seq<seq<nat>>

  ghost function NextOf(list: seq<nat>, k: nat): int
    requires k < |list|
  {
    if k == |list| - 1 then NIL else list[k + 1]
  }

  ghost function PrevOf(list: seq<nat>, k: nat): int
    requires k < |list|
  {
    if k == 0 then NIL else list[k - 1]
  }

  ghost function HeadOf(list: seq<nat>): int {
    if list == [] then NIL else list[0]
  }

  /** No page number occurs twice, in one list or in two. */
  ghost predicate Unique(lists: Lists) {
    forall o, k, o', k' | 0 <= o < |lists| && 0 <= k < |lists[o]| && 0 <= o' < |lists| && 0 <= k' < |lists[o']| ::
      lists[o][k] == lists[o'][k'] ==> o == o' && k == k'
  }

  ghost predicate Threaded(list: seq<nat>, next: seq<int>, prev: seq<int>, head: int)
    requires |next| == |prev|
  {
    && head == HeadOf(list)
    && (forall k :: 0 <= k < |list| ==> list[k] < |next|)
    && (forall k {:trigger next[list[k]]} :: 0 <= k < |list| ==> next[list[k]] == NextOf(list, k))
    && (forall k {:trigger prev[list[k]]} :: 0 <= k < |list| ==> prev[list[k]] == PrevOf(list, k))
  }

  ghost predicate Linked(lists: Lists, next: seq<int>, prev: seq<int>, heads: seq<int>) {
    && |next| == |prev| && |heads| == |lists| && Unique(lists)
    && (forall o :: 0 <= o < |lists| ==> Threaded(lists[o], next, prev, heads[o]))
  }

  ghost predicate Absent(lists: Lists, h: nat) {
    forall o, k :: 0 <= o < |lists| && 0 <= k < |lists[o]| ==> lists[o][k] != h
  }

  ghost function Without(list: seq<nat>, k: nat): seq<nat>
    requires k < |list|
  {
    list[..k] + list[k + 1..]
  }

  /** Lists whose nodes were not written keep their links. */
  lemma ThreadedFrame(list: seq<nat>, next: seq<int>, prev: seq<int>, next': seq<int>, prev': seq<int>, head: int)
    requires |next| == |prev| == |next'| == |prev'| && Threaded(list, next, prev, head)
    requires forall k :: 0 <= k < |list| ==> next'[list[k]] == next[list[k]] && prev'[list[k]] == prev[list[k]]
    ensures Threaded(list, next', prev', head)
  {
  }

  lemma PushUnique(lists: Lists, o: nat, h: nat)
    requires Unique(lists) && o < |lists| && Absent(lists, h)
    ensures Unique(lists[o := [h] + lists[o]])
  {
    var lists': Lists := lists[o := [h] + lists[o]];
    forall i, k | 0 <= i < |lists'| && 0 <= k < |lists'[i]|
      ensures lists'[i][k] == if i != o then lists[i][k] else if k == 0 then h else lists[o][k - 1]
    {
    }
  }

  lemma WithoutUnique(lists: Lists, o: nat, j: nat)
    requires Unique(lists) && o < |lists| && j < |lists[o]|
    ensures Unique(lists[o := Without(lists[o], j)]) && Absent(lists[o := Without(lists[o], j)], lists[o][j])
  {
    var lists': Lists := lists[o := Without(lists[o], j)];
    forall i, k | 0 <= i < |lists'| && 0 <= k < |lists'[i]|
      ensures lists'[i][k] == if i != o || k < j then lists[i][k] else lists[o][k + 1]
    {
    }
  }

  /** The links after a push. */
  lemma PushThreaded(list: seq<nat>, next: seq<int>, prev: seq<int>, head: int, h: nat)
    requires |next| == |prev| && Threaded(list, next, prev, head) && h < |next|
    requires forall i, j :: 0 <= i < j < |list| ==> list[i] != list[j]
    requires forall k :: 0 <= k < |list| ==> list[k] != h
    ensures head != NIL ==> 0 <= head < |next|
    ensures Threaded([h] + list, next[h := head], (if head == NIL then prev else prev[head := h])[h := NIL], h)
  {
    var list' := [h] + list;
    var next' := next[h := head];
    var prev' := (if head == NIL then prev else prev[head := h])[h := NIL];
    forall k | 0 <= k < |list'| ensures next'[list'[k]] == NextOf(list', k) && prev'[list'[k]] == PrevOf(list', k) {
      if k > 0 { assert next[list[k - 1]] == NextOf(list, k - 1) && prev[list[k - 1]] == PrevOf(list, k - 1); }
    }
  }

  ghost function Relink(links: seq<int>, at: int, to: int): seq<int>
    requires at == NIL || 0 <= at < |links|
  {
    if at == NIL then links else links[at := to]
  }

  lemma RemovedNext(list: seq<nat>, next: seq<int>, j: nat, k: nat)
    requires j < |list| && k < |list| - 1
    requires forall i, i' :: 0 <= i < i' < |list| ==> list[i] != list[i']
    requires forall i :: 0 <= i < |list| ==> list[i] < |next|
    requires forall i {:trigger next[list[i]]} :: 0 <= i < |list| ==> next[list[i]] == NextOf(list, i)
    ensures var list' := Without(list, j);
      Relink(next, PrevOf(list, j), NextOf(list, j))[list[j] := NIL][list'[k]] == NextOf(list', k)
  {
    var i := if k < j then k else k + 1;
    assert next[list[i]] == NextOf(list, i);
  }

  lemma RemovedPrev(list: seq<nat>, prev: seq<int>, j: nat, k: nat)
    requires j < |list| && k < |list| - 1
    requires forall i, i' :: 0 <= i < i' < |list| ==> list[i] != list[i']
    requires forall i :: 0 <= i < |list| ==> list[i] < |prev|
    requires forall i {:trigger prev[list[i]]} :: 0 <= i < |list| ==> prev[list[i]] == PrevOf(list, i)
    ensures var list' := Without(list, j);
      Relink(prev, NextOf(list, j), PrevOf(list, j))[list[j] := NIL][list'[k]] == PrevOf(list', k)
  {
    var i := if k < j then k else k + 1;
    assert prev[list[i]] == PrevOf(list, i);
  }

  /** The links after node `j` is taken out. */
  lemma RemoveThreaded(list: seq<nat>, next: seq<int>, prev: seq<int>, head: int, j: nat)
    requires |next| == |prev| && Threaded(list, next, prev, head) && j < |list|
    requires forall i, k :: 0 <= i < k < |list| ==> list[i] != list[k]
    ensures var h := list[j];
      && h < |next| && next[h] == NextOf(list, j) && prev[h] == PrevOf(list, j)
      && (next[h] == NIL || 0 <= next[h] < |next|) && (prev[h] == NIL || 0 <= prev[h] < |next|)
      && Threaded(Without(list, j), Relink(next, prev[h], next[h])[h := NIL], Relink(prev, next[h], prev[h])[h := NIL],
                  if prev[h] == NIL then next[h] else head)
  {
    var h := list[j];
    var list' := Without(list, j);
    assert next[list[j]] == NextOf(list, j) && prev[list[j]] == PrevOf(list, j);
    var next', prev' := Relink(next, prev[h], next[h])[h := NIL], Relink(prev, next[h], prev[h])[h := NIL];
    forall k | 0 <= k < |list'| ensures next'[list'[k]] == NextOf(list', k) {
      RemovedNext(list, next, j, k);
    }
    forall k | 0 <= k < |list'| ensures prev'[list'[k]] == PrevOf(list', k) {
      RemovedPrev(list, prev, j, k);
    }
  }

  lemma PushLinked(lists: Lists, next: seq<int>, prev: seq<int>, heads: seq<int>, o: nat, h: nat)
    requires Linked(lists, next, prev, heads) && o < |lists| && h < |next| && Absent(lists, h)
    ensures heads[o] == NIL || 0 <= heads[o] < |prev|
    ensures Linked(lists[o := [h] + lists[o]], next[h := heads[o]], Relink(prev, heads[o], h)[h := NIL], heads[o := h])
  {
    var lists': Lists := lists[o := [h] + lists[o]];
    PushUnique(lists, o, h);
    assert Threaded(lists[o], next, prev, heads[o]);
    PushThreaded(lists[o], next, prev, heads[o], h);
    var next', prev' := next[h := heads[o]], Relink(prev, heads[o], h)[h := NIL];
    forall i | 0 <= i < |lists'| ensures Threaded(lists'[i], next', prev', heads[o := h][i]) {
      if i != o {
        assert Threaded(lists[i], next, prev, heads[i]);
        ThreadedFrame(lists[i], next, prev, next', prev', heads[i]);
      }
    }
  }

  lemma RemoveLinked(lists: Lists, next: seq<int>, prev: seq<int>, heads: seq<int>, o: nat, j: nat)
    requires Linked(lists, next, prev, heads) && o < |lists| && j < |lists[o]|
    ensures var h := lists[o][j];
      && h < |next| && (next[h] == NIL || 0 <= next[h] < |next|) && (prev[h] == NIL || 0 <= prev[h] < |next|)
      && Linked(lists[o := Without(lists[o], j)], Relink(next, prev[h], next[h])[h := NIL],
                Relink(prev, next[h], prev[h])[h := NIL], if prev[h] == NIL then heads[o := next[h]] else heads)
      && Absent(lists[o := Without(lists[o], j)], h)
  {
    var h := lists[o][j];
    var lists': Lists := lists[o := Without(lists[o], j)];
    WithoutUnique(lists, o, j);
    assert Threaded(lists[o], next, prev, heads[o]);
    RemoveThreaded(lists[o], next, prev, heads[o], j);
    var next', prev' := Relink(next, prev[h], next[h])[h := NIL], Relink(prev, next[h], prev[h])[h := NIL];
    var heads' := if prev[h] == NIL then heads[o := next[h]] else heads;
    forall i | 0 <= i < |lists'| ensures Threaded(lists'[i], next', prev', heads'[i]) {
      if i != o {
        assert Threaded(lists[i], next, prev, heads[i]);
        ThreadedFrame(lists[i], next, prev, next', prev', heads[i]);
      }
    }
  }

  class FreeLists {
    const next: array<int>
    const prev: array<int>
    const heads: array<int>
    ghost var lists: Lists

    ghost predicate Valid()
      reads this, next, prev, heads
      ensures Valid() ==> Unique(lists) && |lists| == heads.Length
    {
      && next != prev && next != heads && prev != heads
      && Linked(lists, next[..], prev[..], heads[..])
    }

    constructor (pages: nat, orders: nat)
      ensures Valid() && lists == seq(orders, _ => []) && next.Length == pages
      ensures fresh(next) && fresh(prev) && fresh(heads)
    {
      next := new int[pages](_ => NIL);
      prev := new int[pages](_ => NIL);
      heads := new int[orders](_ => NIL);
      lists := seq(orders, _ => []);
    }

    method Push(h: nat, o: nat)
      requires Valid() && o < |lists| && h < next.Length && Absent(lists, h)
      modifies this, next, prev, heads
      ensures Valid() && lists == old(lists)[o := [h] + old(lists)[o]]
    {
      ghost var n, p, hs := next[..], prev[..], heads[..];
      PushLinked(lists, n, p, hs, o, h);
      hide Linked, Absent;
      prev[h] := NIL;
      next[h] := heads[o];
      if heads[o] != NIL {
        prev[heads[o]] := h;
      }
      heads[o] := h;
      lists := lists[o := [h] + lists[o]];
      assert next[..] == n[h := hs[o]];
      assert prev[..] == Relink(p, hs[o], h)[h := NIL];
      assert heads[..] == hs[o := h];
    }

    method Remove(h: nat, o: nat, ghost j: nat)
      requires Valid() && o < |lists| && j < |lists[o]| && lists[o][j] == h
      modifies this, next, prev, heads
      ensures Valid() && lists == old(lists)[o := Without(old(lists)[o], j)] && Absent(lists, h)
    {
      ghost var n, p, hs := next[..], prev[..], heads[..];
      RemoveLinked(lists, n, p, hs, o, j);
      var before, after := prev[h], next[h];
      hide Linked, Absent;
      if before != NIL {
        next[before] := after;
      } else {
        heads[o] := after;
      }
      if after != NIL {
        prev[after] := before;
      }
      next[h] := NIL;
      prev[h] := NIL;
      lists := lists[o := Without(lists[o], j)];
      assert next[..] == Relink(n, before, after)[h := NIL];
      assert prev[..] == Relink(p, after, before)[h := NIL];
      assert heads[..] == if before == NIL then hs[o := after] else hs;
    }
  }
}
