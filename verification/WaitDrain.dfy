/**
 * The wait queue of a key as PREPARE, deferred reads and FIN use it, against the key's own model:
 * the structures of `WaitQueue` stand for the queue and the open groups of a `KeyCell` entry.
 */
module WaitDrain {
  import opened Options
  import opened Txn
  import K = KeyCell
  import W = WaitQueue
  import WaitList

  /** What the numbers of waiting commands stand for. */
  datatype Names = Names(get: nat -> K.Read, put: nat -> K.Cmd)

  function Gets(n: Names, cmds: seq<W.Cmd>): (gets: seq<K.Read>)
    ensures |gets| == |cmds|
  {
    seq(|cmds|, i requires 0 <= i < |cmds| => n.get(cmds[i].id))
  }

  function Before(g: W.Group): seq<W.Cmd>
    requires g.cmds != []
  {
    g.cmds[..|g.cmds| - 1]
  }

  function Anchor(g: W.Group): W.Cmd
    requires g.cmds != []
  {
    g.cmds[|g.cmds| - 1]
  }

  predicate Named(n: Names, c: W.Cmd) {
    if c.isMset then n.put(c.id).txn == c.txn && n.put(c.id).origin == c.origin else n.get(c.id).origin == c.origin
  }

  predicate ShowsGroup(n: Names, g: W.Group, k: K.Group) {
    && g.cmds != [] && k == K.Group(Gets(n, Before(g)), n.put(Anchor(g).id))
    && k.anchor.txn == g.txn && Anchor(g).isMset && Named(n, Anchor(g))
  }

  ghost predicate ShowsQueue(n: Names, q: seq<W.Group>, queue: seq<K.Group>) {
    |queue| == |q| && forall i :: 0 <= i < |q| ==> ShowsGroup(n, q[i], queue[i])
  }

  /** The structures show the queue and the open groups of `e`. */
  ghost predicate Shows(n: Names, q: seq<W.Group>, open: seq<seq<W.Cmd>>, e: K.Entry) {
    && ShowsQueue(n, q, e.queue)
    && |e.open| == |open| && (forall s :: 0 <= s < |open| ==> e.open[s] == Gets(n, open[s]))
  }

  lemma GetsApart(n: Names, a: seq<W.Cmd>, b: seq<W.Cmd>)
    ensures Gets(n, a + b) == Gets(n, a) + Gets(n, b)
  {
  }

  lemma ShowsDefer(n: Names, q: seq<W.Group>, open: seq<seq<W.Cmd>>, e: K.Entry, c: W.Cmd)
    requires Shows(n, q, open, e) && !c.isMset && Named(n, c) && c.origin < |open|
    ensures Shows(n, q, open[c.origin := open[c.origin] + [c]], K.AddRegular(e, n.get(c.id)))
  {
    GetsApart(n, open[c.origin], [c]);
    assert Gets(n, [c]) == [n.get(c.id)];
  }

  lemma ShowsInsert(n: Names, q: seq<W.Group>, queue: seq<K.Group>, p: nat, g: W.Group, k: K.Group)
    requires ShowsQueue(n, q, queue) && ShowsGroup(n, g, k) && p <= |q|
    ensures ShowsQueue(n, q[..p] + [g] + q[p..], queue[..p] + [k] + queue[p..])
  {
    hide ShowsGroup;
    var q', queue' := q[..p] + [g] + q[p..], queue[..p] + [k] + queue[p..];
    forall i | 0 <= i < |q'| ensures ShowsGroup(n, q'[i], queue'[i]) {
      if i != p {
        var j := if i < p then i else i - 1;
        assert q'[i] == q[j] && queue'[i] == queue[j];
      }
    }
  }

  lemma ShowsPosition(n: Names, q: seq<W.Group>, queue: seq<K.Group>, t: TxnId)
    requires ShowsQueue(n, q, queue) && K.Sorted(queue) && !K.Queues(queue, t)
    ensures W.Position(q, t) == K.InsertAt(queue, t)
  {
    WaitList.PositionIsInsertAt(queue, q, t);
  }

  /** The closed group enters at the place where the key's model puts it. */
  lemma ShowsEnqueue(n: Names, q: seq<W.Group>, open: seq<seq<W.Cmd>>, e: K.Entry, c: W.Cmd)
    requires Shows(n, q, open, e) && c.isMset && Named(n, c) && c.origin < |open|
    requires K.Sorted(e.queue) && !K.Queues(e.queue, c.txn)
    ensures var g := W.Group(open[c.origin] + [c], c.txn, c.origin);
      Shows(n, W.Inserted(q, g), open[c.origin := []], K.AddMset(e, n.put(c.id)))
  {
    var g, k := W.Group(open[c.origin] + [c], c.txn, c.origin), K.ClosedGroup(e, n.put(c.id));
    assert Before(g) == open[c.origin];
    assert ShowsGroup(n, g, k);
    ShowsPosition(n, q, e.queue, c.txn);
    ShowsInsert(n, q, e.queue, W.Position(q, c.txn), g, k);
    hide W.Position, K.InsertAt, ShowsGroup, ShowsQueue, K.Sorted, K.Queues;
  }

  /** PREPARE behind a holder, and a wounded holder that goes back: the command joins the queue. */
  method Enqueue(w: W.Entry, c: W.Cmd, ghost n: Names, ghost e: K.Entry)
    requires w.Valid() && c.isMset && c.origin < |w.open| && Named(n, c)
    requires Shows(n, w.queue, w.open, e) && K.Sorted(e.queue) && !K.Queues(e.queue, c.txn)
    modifies w
    ensures w.Valid() && Shows(n, w.queue, w.open, K.AddMset(e, n.put(c.id)))
  {
    hide W.WellFormed, Shows, W.Inserted;
    ShowsEnqueue(n, w.queue, w.open, e, c);
    w.AddMset(c, true);
  }

  method Defer(w: W.Entry, c: W.Cmd, ghost n: Names, ghost e: K.Entry)
    requires w.Valid() && !c.isMset && c.origin < |w.open| && Named(n, c)
    requires Shows(n, w.queue, w.open, e)
    modifies w
    ensures w.Valid() && Shows(n, w.queue, w.open, K.AddRegular(e, n.get(c.id)))
  {
    hide W.WellFormed, Shows;
    ShowsDefer(n, w.queue, w.open, e, c);
    w.AddRegular(c, true);
  }

  // ---------------------------------------------------------------- the drain of FIN

  function Flatten(open: seq<seq<W.Cmd>>): seq<W.Cmd> {
    if open == [] then [] else open[0] + Flatten(open[1..])
  }

  lemma {:induction false} FlattenLast(open: seq<seq<W.Cmd>>, cmds: seq<W.Cmd>)
    ensures Flatten(open + [cmds]) == Flatten(open) + cmds
    decreases |open|
  {
    if open == [] {
      assert open + [cmds] == [cmds] && [cmds][1..] == [];
    } else {
      assert (open + [cmds])[1..] == open[1..] + [cmds];
      FlattenLast(open[1..], cmds);
    }
  }

  lemma {:induction false} FlattenShown(n: Names, open: seq<seq<W.Cmd>>, shown: seq<seq<K.Read>>)
    requires |shown| == |open| && forall s :: 0 <= s < |open| ==> shown[s] == Gets(n, open[s])
    ensures K.Flatten(shown) == Gets(n, Flatten(open))
    decreases |open|
  {
    if open != [] {
      FlattenShown(n, open[1..], shown[1..]);
      GetsApart(n, open[0], Flatten(open[1..]));
    }
  }

  /** The regular commands of the first closed group, up to the MSET that is promoted. */
  method DrainClosed(w: W.Entry) returns (done: seq<W.Cmd>, anchor: W.Cmd)
    requires w.Valid() && w.queue != []
    modifies w`queue
    ensures w.Valid() && w.queue == old(w.queue)[1..]
    ensures old(w.queue)[0].cmds == done + [anchor] && anchor.isMset
  {
    var cmds := w.queue[0].cmds;
    assert W.Closed(w.queue[0]);
    ghost var last := |cmds| - 1;
    assert forall i :: 0 <= i < last ==> cmds[i] == cmds[..last][i];
    var i := 0;
    while !cmds[i].isMset
      invariant i <= last
      decreases last - i
    {
      i := i + 1;
    }
    done, anchor := cmds[..i], cmds[i];
    W.RemoveWellFormed(w.queue, w.open, 0);
    assert w.queue[..0] + w.queue[1..] == w.queue[1..];
    w.queue := w.queue[1..];
  }

  /** Without a closed group: the open groups of all shards in turn. */
  method DrainOpen(w: W.Entry) returns (done: seq<W.Cmd>)
    requires w.Valid()
    modifies w`open
    ensures w.Valid() && done == Flatten(old(w.open)) && |w.open| == old(|w.open|)
    ensures forall s :: 0 <= s < |w.open| ==> w.open[s] == []
  {
    done := [];
    var j := 0;
    assert w.open[..0] == [];
    while j < |w.open|
      invariant w.Valid() && 0 <= j <= |w.open| == old(|w.open|) && done == Flatten(old(w.open)[..j])
      invariant forall s :: 0 <= s < |w.open| ==> w.open[s] == if s < j then [] else old(w.open)[s]
    {
      FlattenLast(old(w.open)[..j], old(w.open)[j]);
      assert old(w.open)[..j] + [old(w.open)[j]] == old(w.open)[..j + 1];
      done := done + w.open[j];
      w.open := w.open[j := []];
      j := j + 1;
    }
    assert old(w.open)[..j] == old(w.open);
  }

  /**
   * The drain of FIN: the reads it answers are those the key's model answers, and the command it
   * promotes is the anchor of the model's first group; the rest of the queue stays.
   */
  method Drain(w: W.Entry, ghost n: Names, ghost e: K.Entry) returns (done: seq<W.Cmd>, anchor: Option<W.Cmd>)
    requires w.Valid() && Shows(n, w.queue, w.open, e)
    modifies w
    ensures w.Valid() && K.Answer(Gets(n, done), Some(e.holder.obj)) == K.DrainReplies(e)
    ensures anchor.Some? <==> e.queue != []
    ensures anchor.Some? ==> n.put(anchor.value.id) == e.queue[0].anchor && Some(anchor.value.txn) == K.Promoted(e)
    ensures anchor.Some? ==> Shows(n, w.queue, w.open, e.(queue := e.queue[1..]))
    ensures anchor.None? ==> Shows(n, w.queue, w.open, e.(open := K.NoReads(|e.open|)))
  {
    hide W.WellFormed, K.Answer;
    if w.queue != [] {
      ghost var g := w.queue[0];
      assert ShowsGroup(n, g, e.queue[0]);
      var last;
      done, last := DrainClosed(w);
      assert Before(g) == done && Anchor(g) == last;
      return done, Some(last);
    }
    FlattenShown(n, w.open, e.open);
    done := DrainOpen(w);
    return done, None;
  }
}
