/**
 * The doubly linked list of closed wait groups, sorted by transaction. `nodes` is the sequence
 * that the pointers stand for.
 */
module WaitList {
  import opened Txn
  import KeyCell
  import WaitQueue

  /** A wait group as the list sees it. */
  class Link {
    const txn: TxnId
    var prev: Link?
    var next: Link?

    constructor (txn: TxnId)
      ensures this.txn == txn
    {
      this.txn := txn;
    }
  }

  ghost function PrevOf(nodes: seq<Link>, i: nat): Link?
    requires i < |nodes|
  {
    if i == 0 then null else nodes[i - 1]
  }

  ghost function NextOf(nodes: seq<Link>, i: nat): Link?
    requires i < |nodes|
  {
    if i == |nodes| - 1 then null else nodes[i + 1]
  }

  ghost predicate Distinct(nodes: seq<Link>) {
    forall i, j :: 0 <= i < j < |nodes| ==> nodes[i] != nodes[j]
  }

  ghost predicate Linked(head: Link?, tail: Link?, nodes: seq<Link>)
    reads nodes
  {
    && Distinct(nodes)
    && (forall i: nat {:trigger nodes[i].prev} :: i < |nodes| ==> nodes[i].prev == PrevOf(nodes, i))
    && (forall i: nat {:trigger nodes[i].next} :: i < |nodes| ==> nodes[i].next == NextOf(nodes, i))
    && head == (if nodes == [] then null else nodes[0])
    && tail == (if nodes == [] then null else nodes[|nodes| - 1])
  }

  ghost predicate InOrder(nodes: seq<Link>) {
    forall i, j :: 0 <= i < j < |nodes| ==> !Older(nodes[j].txn, nodes[i].txn)
  }

  /** `p` splits the list into groups not younger and groups not older than `t`. */
  ghost predicate Splits(nodes: seq<Link>, p: nat, t: TxnId) {
    && p <= |nodes|
    && (forall i :: 0 <= i < p ==> !Older(t, nodes[i].txn))
    && (forall i :: p <= i < |nodes| ==> !Older(nodes[i].txn, t))
  }

  ghost function Inserted(nodes: seq<Link>, p: nat, n: Link): seq<Link>
    requires p <= |nodes|
  {
    nodes[..p] + [n] + nodes[p..]
  }

  lemma InsertedInOrder(nodes: seq<Link>, p: nat, n: Link)
    requires InOrder(nodes) && Splits(nodes, p, n.txn)
    ensures InOrder(Inserted(nodes, p, n))
  {
    var nodes' := Inserted(nodes, p, n);
    forall i, j | 0 <= i < j < |nodes'| ensures !Older(nodes'[j].txn, nodes'[i].txn) {
      var i', j' := if i < p then i else i - 1, if j < p then j else j - 1;
      if i != p { assert nodes'[i] == nodes[i']; }
      if j != p { assert nodes'[j] == nodes[j']; }
    }
  }

  lemma InsertedLinks(q: seq<Link>, p: nat, wg: Link)
    requires p <= |q| && Distinct(q) && wg !in q
    requires wg.prev == (if p == 0 then null else q[p - 1]) && wg.next == if p == |q| then null else q[p]
    requires forall i: nat {:trigger q[i].prev} :: i < |q| ==> q[i].prev == if i == p then wg else PrevOf(q, i)
    requires forall i: nat {:trigger q[i].next} :: i < |q| ==> q[i].next == if i + 1 == p then wg else NextOf(q, i)
    ensures var nodes := Inserted(q, p, wg);
      && Distinct(nodes)
      && (forall i: nat {:trigger nodes[i].prev} :: i < |nodes| ==> nodes[i].prev == PrevOf(nodes, i))
      && (forall i: nat {:trigger nodes[i].next} :: i < |nodes| ==> nodes[i].next == NextOf(nodes, i))
  {
    var nodes := Inserted(q, p, wg);
    forall i: nat | i < |nodes| ensures nodes[i].prev == PrevOf(nodes, i) && nodes[i].next == NextOf(nodes, i) {
      if i != p { assert nodes[i] == q[if i < p then i else i - 1]; }
    }
  }

  lemma DetachedLinks(q: seq<Link>, p: nat)
    requires p < |q| && Distinct(q)
    requires forall i: nat {:trigger q[i].prev} :: i < |q| && i != p ==>
        q[i].prev == if i == p + 1 then PrevOf(q, p) else PrevOf(q, i)
    requires forall i: nat {:trigger q[i].next} :: i < |q| && i != p ==>
        q[i].next == if i + 1 == p then NextOf(q, p) else NextOf(q, i)
    ensures var nodes := q[..p] + q[p + 1..];
      && Distinct(nodes)
      && (forall i: nat {:trigger nodes[i].prev} :: i < |nodes| ==> nodes[i].prev == PrevOf(nodes, i))
      && (forall i: nat {:trigger nodes[i].next} :: i < |nodes| ==> nodes[i].next == NextOf(nodes, i))
  {
    var nodes := q[..p] + q[p + 1..];
    forall i: nat | i < |nodes| ensures nodes[i].prev == PrevOf(nodes, i) && nodes[i].next == NextOf(nodes, i) {
      assert nodes[i] == q[if i < p then i else i + 1];
    }
  }

  lemma TailSplits(nodes: seq<Link>, t: TxnId)
    requires nodes != [] && InOrder(nodes) && !Older(t, nodes[|nodes| - 1].txn)
    ensures Splits(nodes, |nodes|, t)
  {
    var last := nodes[|nodes| - 1].txn;
    forall i | 0 <= i < |nodes| ensures !Older(t, nodes[i].txn) {
      OlderIsStrictTotalOrder(last, nodes[i].txn, t);
      OlderIsStrictTotalOrder(t, nodes[i].txn, last);
      OlderIsStrictTotalOrder(t, last, t);
    }
  }

  lemma DetachedInOrder(nodes: seq<Link>, p: nat)
    requires InOrder(nodes) && p < |nodes|
    ensures InOrder(nodes[..p] + nodes[p + 1..])
  {
    var nodes' := nodes[..p] + nodes[p + 1..];
    forall i, j | 0 <= i < j < |nodes'| ensures !Older(nodes'[j].txn, nodes'[i].txn) {
      assert nodes'[i] == nodes[if i < p then i else i + 1];
      assert nodes'[j] == nodes[if j < p then j else j + 1];
    }
  }

  /** Without equal transactions the position is the one the value-level queue of `KeyCell` uses. */
  lemma SplitIsInsertAt(q: seq<KeyCell.Group>, t: TxnId, p: nat)
    requires KeyCell.Sorted(q) && !KeyCell.Queues(q, t) && p <= |q|
    requires forall i :: 0 <= i < p ==> !Older(t, q[i].anchor.txn)
    requires forall i :: p <= i < |q| ==> !Older(q[i].anchor.txn, t)
    ensures p == KeyCell.InsertAt(q, t)
  {
    var at := KeyCell.InsertAt(q, t);
    if p < at { OlderIsStrictTotalOrder(q[p].anchor.txn, t, t); }
    if at < p { OlderIsStrictTotalOrder(q[at].anchor.txn, t, t); }
  }

  /** So is the position that groups of commands use. */
  lemma PositionIsInsertAt(q: seq<KeyCell.Group>, groups: seq<WaitQueue.Group>, t: TxnId)
    requires KeyCell.Sorted(q) && !KeyCell.Queues(q, t)
    requires |groups| == |q| && forall i :: 0 <= i < |q| ==> groups[i].txn == q[i].anchor.txn
    ensures WaitQueue.Position(groups, t) == KeyCell.InsertAt(q, t)
  {
    forall i, j | 0 <= i < j < |groups| ensures !Older(groups[j].txn, groups[i].txn) {
      OlderIsStrictTotalOrder(q[i].anchor.txn, q[j].anchor.txn, q[i].anchor.txn);
    }
    WaitQueue.PositionSplits(groups, t);
    SplitIsInsertAt(q, t, WaitQueue.Position(groups, t));
  }

  class Queue {
    var head: Link?
    var tail: Link?
    ghost var nodes: seq<Link>

    ghost predicate Valid()
      reads this, nodes
    {
      Linked(head, tail, nodes) && InOrder(nodes)
    }

    constructor ()
      ensures Valid() && nodes == []
    {
      head, tail, nodes := null, null, [];
    }

    /** The walk from the head: the first group that is not older than `t`. */
    method Walk(t: TxnId) returns (cur: Link?, ghost p: nat)
      requires Valid()
      ensures Splits(nodes, p, t) && cur == if p < |nodes| then nodes[p] else null
    {
      cur, p := head, 0;
      while cur != null && Older(cur.txn, t)
        invariant p <= |nodes| && cur == if p < |nodes| then nodes[p] else null
        invariant forall i :: 0 <= i < p ==> Older(nodes[i].txn, t)
        decreases |nodes| - p
      {
        assert nodes[p].next == NextOf(nodes, p);
        cur, p := cur.next, p + 1;
      }
      forall i | p <= i < |nodes| ensures !Older(nodes[i].txn, t) {
        OlderIsStrictTotalOrder(nodes[i].txn, t, nodes[p].txn);
      }
      forall i | 0 <= i < p ensures !Older(t, nodes[i].txn) {
        OlderIsStrictTotalOrder(nodes[i].txn, t, t);
      }
    }

    /** Threads `wg` in before `cur`, the node at position `p`; only pointers change. */
    method Hook(cur: Link, wg: Link, ghost p: nat)
      requires Linked(head, tail, nodes) && wg !in nodes && p < |nodes| && cur == nodes[p]
      modifies this`head, nodes, wg
      ensures wg.prev == (if p == 0 then null else nodes[p - 1]) && wg.next == nodes[p]
      ensures forall i: nat {:trigger nodes[i].prev} :: i < |nodes| ==>
          nodes[i].prev == if i == p then wg else PrevOf(nodes, i)
      ensures forall i: nat {:trigger nodes[i].next} :: i < |nodes| ==>
          nodes[i].next == if i + 1 == p then wg else NextOf(nodes, i)
      ensures head == (if p == 0 then wg else nodes[0])
    {
      wg.next := cur;
      wg.prev := cur.prev;
      if wg.prev != null {
        wg.prev.next := wg;
      } else {
        head := wg;
      }
      cur.prev := wg;
    }

    method LinkBefore(cur: Link, wg: Link, ghost p: nat)
      requires Valid() && wg !in nodes && Splits(nodes, p, wg.txn) && p < |nodes| && cur == nodes[p]
      modifies this, nodes, wg
      ensures Valid() && nodes == Inserted(old(nodes), p, wg)
    {
      hide InOrder, Splits;
      InsertedInOrder(nodes, p, wg);
      Hook(cur, wg, p);
      InsertedLinks(nodes, p, wg);
      nodes := Inserted(nodes, p, wg);
    }

    /** Threads `wg` in behind the tail; only pointers change. */
    method HookLast(wg: Link)
      requires Linked(head, tail, nodes) && wg !in nodes && nodes != []
      modifies this`tail, nodes, wg
      ensures wg.prev == nodes[|nodes| - 1] && wg.next == null && tail == wg
      ensures forall i: nat {:trigger nodes[i].prev} :: i < |nodes| ==> nodes[i].prev == PrevOf(nodes, i)
      ensures forall i: nat {:trigger nodes[i].next} :: i < |nodes| ==>
          nodes[i].next == if i + 1 == |nodes| then wg else NextOf(nodes, i)
    {
      wg.prev, wg.next := tail, null;
      tail.next := wg;
      tail := wg;
    }

    method LinkLast(wg: Link)
      requires Valid() && wg !in nodes && nodes != [] && Splits(nodes, |nodes|, wg.txn)
      modifies this, nodes, wg
      ensures Valid() && nodes == Inserted(old(nodes), |old(nodes)|, wg)
    {
      hide InOrder, Splits;
      InsertedInOrder(nodes, |nodes|, wg);
      HookLast(wg);
      InsertedLinks(nodes, |nodes|, wg);
      nodes := Inserted(nodes, |nodes|, wg);
    }

    /** Sorted insertion; a group not older than the tail goes to the end without a walk. */
    method InsertSorted(wg: Link) returns (ghost p: nat)
      requires Valid() && wg !in nodes
      modifies this, nodes, wg
      ensures Valid() && Splits(old(nodes), p, wg.txn) && nodes == Inserted(old(nodes), p, wg)
    {
      p := 0;
      if head == null {
        head, tail := wg, wg;
        wg.prev, wg.next := null, null;
        nodes := [wg];
        return;
      }
      if !Older(wg.txn, tail.txn) {
        p := |nodes|;
        TailSplits(nodes, wg.txn);
        LinkLast(wg);
        return;
      }
      var cur;
      cur, p := Walk(wg.txn);
      assert cur != null;
      LinkBefore(cur, wg, p);
    }

    /** Takes the node at position `p` out of the chain; only pointers change. */
    method Unhook(wg: Link, ghost p: nat)
      requires Linked(head, tail, nodes) && p < |nodes| && nodes[p] == wg
      modifies this`head, this`tail, nodes
      ensures wg.prev == null && wg.next == null
      ensures forall i: nat {:trigger nodes[i].prev} :: i < |nodes| && i != p ==>
        nodes[i].prev == if i == p + 1 then PrevOf(nodes, p) else PrevOf(nodes, i)
      ensures forall i: nat {:trigger nodes[i].next} :: i < |nodes| && i != p ==>
        nodes[i].next == if i + 1 == p then NextOf(nodes, p) else NextOf(nodes, i)
      ensures head == (if p == 0 then NextOf(nodes, 0) else nodes[0])
      ensures tail == if p == |nodes| - 1 then PrevOf(nodes, p) else nodes[|nodes| - 1]
    {
      assert wg.prev == PrevOf(nodes, p) && wg.next == NextOf(nodes, p);
      if wg.prev != null {
        wg.prev.next := wg.next;
      } else {
        head := wg.next;
      }
      if wg.next != null {
        wg.next.prev := wg.prev;
      } else {
        tail := wg.prev;
      }
      wg.prev, wg.next := null, null;
    }

    /** Takes the group at position `p` out of the list. */
    method Detach(wg: Link, ghost p: nat)
      requires Valid() && p < |nodes| && nodes[p] == wg
      modifies this, nodes
      ensures Valid() && nodes == old(nodes)[..p] + old(nodes)[p + 1..]
      ensures wg.prev == null && wg.next == null
    {
      hide InOrder;
      DetachedInOrder(nodes, p);
      Unhook(wg, p);
      DetachedLinks(nodes, p);
      nodes := nodes[..p] + nodes[p + 1..];
    }
  }
}
