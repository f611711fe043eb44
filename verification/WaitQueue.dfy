/**
 * The wait queue of one locked key: closed groups sorted by transaction, and one open group for
 * each shard. Commands are added at the end of their shard's open group; an MSET closes it; taking
 * the MSET out again reopens it.
 */
module WaitQueue {
  import opened Options
  import opened Txn

  /** `id` numbers the commands in the order in which they arrive. */
  datatype Cmd = Cmd(id: nat, txn: TxnId, isMset: bool, origin: nat)

  datatype Group = Group(cmds: seq<Cmd>, txn: TxnId, origin: nat)

  predicate AllRegular(cmds: seq<Cmd>, origin: nat) {
    forall i :: 0 <= i < |cmds| ==> !cmds[i].isMset && cmds[i].origin == origin
  }

  /** A closed group: regular commands of one shard, then the MSET of that shard that anchors it. */
  predicate Closed(g: Group) {
    && g.cmds != []
    && AllRegular(g.cmds[..|g.cmds| - 1], g.origin)
    && var anchor := g.cmds[|g.cmds| - 1]; anchor.isMset && anchor.origin == g.origin && anchor.txn == g.txn
  }

  predicate Sorted(q: seq<Group>) {
    forall i, j :: 0 <= i < j < |q| ==> !Older(q[j].txn, q[i].txn)
  }

  predicate WellFormed(q: seq<Group>, open: seq<seq<Cmd>>) {
    && Sorted(q)
    && (forall i :: 0 <= i < |q| ==> Closed(q[i]) && q[i].origin < |open|)
    && (forall s :: 0 <= s < |open| ==> AllRegular(open[s], s))
  }

  // ---------------------------------------------------------------- what is waiting

  ghost function InQueue(q: seq<Group>): multiset<Cmd> {
    if q == [] then multiset{} else multiset(q[0].cmds) + InQueue(q[1..])
  }

  ghost function InOpen(open: seq<seq<Cmd>>): multiset<Cmd> {
    if open == [] then multiset{} else multiset(open[0]) + InOpen(open[1..])
  }

  /** Every waiting command, counted as often as it occurs. */
  ghost function Waiting(q: seq<Group>, open: seq<seq<Cmd>>): multiset<Cmd> {
    InQueue(q) + InOpen(open)
  }

  lemma {:induction false} InQueueInsert(q: seq<Group>, p: nat, g: Group)
    requires p <= |q|
    ensures InQueue(q[..p] + [g] + q[p..]) == InQueue(q) + multiset(g.cmds)
  {
    var q' := q[..p] + [g] + q[p..];
    if p == 0 {
      assert q'[1..] == q;
    } else {
      InQueueInsert(q[1..], p - 1, g);
      assert q'[1..] == q[1..][..p - 1] + [g] + q[1..][p - 1..];
    }
  }

  lemma {:induction false} InQueueRemove(q: seq<Group>, p: nat)
    requires p < |q|
    ensures InQueue(q) == InQueue(q[..p] + q[p + 1..]) + multiset(q[p].cmds)
  {
    var rest := q[..p] + q[p + 1..];
    assert q == rest[..p] + [q[p]] + rest[p..];
    InQueueInsert(rest, p, q[p]);
  }

  lemma {:induction false} InOpenInsert(open: seq<seq<Cmd>>, s: nat, cmds: seq<Cmd>)
    requires s <= |open|
    ensures InOpen(open[..s] + [cmds] + open[s..]) == InOpen(open) + multiset(cmds)
  {
    var open' := open[..s] + [cmds] + open[s..];
    if s == 0 {
      assert open'[1..] == open;
    } else {
      InOpenInsert(open[1..], s - 1, cmds);
      assert open'[1..] == open[1..][..s - 1] + [cmds] + open[1..][s - 1..];
    }
  }

  /** Everything in the open groups but shard `s`. */
  ghost function Elsewhere(open: seq<seq<Cmd>>, s: nat): multiset<Cmd>
    requires s < |open|
  {
    InOpen(open[..s] + open[s + 1..])
  }

  lemma InOpenUpdate(open: seq<seq<Cmd>>, s: nat, cmds: seq<Cmd>)
    requires s < |open|
    ensures InOpen(open) == Elsewhere(open, s) + multiset(open[s])
    ensures InOpen(open[s := cmds]) == Elsewhere(open, s) + multiset(cmds)
  {
    var rest := open[..s] + open[s + 1..];
    InOpenInsert(rest, s, open[s]);
    InOpenInsert(rest, s, cmds);
    assert open == rest[..s] + [open[s]] + rest[s..];
    assert open[s := cmds] == rest[..s] + [cmds] + rest[s..];
  }

  lemma {:induction false} NothingOpen(shards: nat)
    ensures InOpen(seq(shards, _ => [])) == multiset{}
  {
    var open: seq<seq<Cmd>> := seq(shards, _ => []);
    if shards > 0 {
      NothingOpen(shards - 1);
      assert open[1..] == seq(shards - 1, _ => []);
    }
  }

  lemma {:induction false} QueuedIn(q: seq<Group>, c: Cmd) returns (j: nat)
    requires c in InQueue(q)
    ensures j < |q| && c in q[j].cmds
  {
    if c in multiset(q[0].cmds) {
      j := 0;
    } else {
      j := QueuedIn(q[1..], c);
      j := j + 1;
    }
  }

  lemma {:induction false} OpenIn(open: seq<seq<Cmd>>, c: Cmd) returns (s: nat)
    requires c in InOpen(open)
    ensures s < |open| && c in open[s]
  {
    if c in multiset(open[0]) {
      s := 0;
    } else {
      s := OpenIn(open[1..], c);
      s := s + 1;
    }
  }

  /** The anchors of the closed groups are the only MSETs waiting. */
  lemma NoSuchMset(q: seq<Group>, open: seq<seq<Cmd>>, t: TxnId)
    requires WellFormed(q, open)
    requires forall j :: 0 <= j < |q| ==> q[j].txn != t
    ensures forall c :: c in Waiting(q, open) ==> !(c.isMset && c.txn == t)
  {
    forall c | c in Waiting(q, open) ensures !(c.isMset && c.txn == t) {
      if c in InQueue(q) {
        var j := QueuedIn(q, c);
        var k :| 0 <= k < |q[j].cmds| && q[j].cmds[k] == c;
        if k < |q[j].cmds| - 1 { assert q[j].cmds[..|q[j].cmds| - 1][k] == c; }
      } else {
        var s := OpenIn(open, c);
      }
    }
  }

  function Without(cmds: seq<Cmd>, k: nat): seq<Cmd>
    requires k < |cmds|
  {
    cmds[..k] + cmds[k + 1..]
  }

  lemma WithoutOne(cmds: seq<Cmd>, k: nat)
    requires k < |cmds|
    ensures multiset(cmds) == multiset(Without(cmds, k)) + multiset{cmds[k]}
  {
    assert cmds == cmds[..k] + [cmds[k]] + cmds[k + 1..];
  }

  // ---------------------------------------------------------------- sorted insertion

  function FirstNotOlder(q: seq<Group>, t: TxnId): (p: nat)
    ensures p <= |q|
    ensures forall i :: 0 <= i < p ==> Older(q[i].txn, t)
    ensures p < |q| ==> !Older(q[p].txn, t)
  {
    if q == [] || !Older(q[0].txn, t) then 0 else 1 + FirstNotOlder(q[1..], t)
  }

  /** A group not older than the last one goes to the end. */
  function Position(q: seq<Group>, t: TxnId): (p: nat)
    ensures p <= |q|
  {
    if q != [] && !Older(t, q[|q| - 1].txn) then |q| else FirstNotOlder(q, t)
  }

  lemma PositionSplits(q: seq<Group>, t: TxnId)
    requires Sorted(q)
    ensures forall i :: 0 <= i < Position(q, t) ==> !Older(t, q[i].txn)
    ensures forall i :: Position(q, t) <= i < |q| ==> !Older(q[i].txn, t)
  {
    var p := Position(q, t);
    forall i | 0 <= i < p ensures !Older(t, q[i].txn) {
      OlderIsStrictTotalOrder(q[i].txn, t, q[|q| - 1].txn);
      OlderIsStrictTotalOrder(q[|q| - 1].txn, q[i].txn, t);
      OlderIsStrictTotalOrder(t, q[|q| - 1].txn, q[i].txn);
      OlderIsStrictTotalOrder(t, q[i].txn, q[|q| - 1].txn);
    }
    forall i | p <= i < |q| ensures !Older(q[i].txn, t) {
      OlderIsStrictTotalOrder(q[i].txn, t, q[p].txn);
      OlderIsStrictTotalOrder(t, q[p].txn, q[i].txn);
      OlderIsStrictTotalOrder(q[i].txn, q[p].txn, t);
    }
  }

  ghost function Inserted(q: seq<Group>, g: Group): seq<Group> {
    var p := Position(q, g.txn);
    q[..p] + [g] + q[p..]
  }

  lemma InsertSorted(q: seq<Group>, g: Group)
    requires Sorted(q)
    ensures Sorted(Inserted(q, g))
  {
    var p := Position(q, g.txn);
    PositionSplits(q, g.txn);
    var q' := Inserted(q, g);
    hide Position;
    forall i, j | 0 <= i < j < |q'| ensures !Older(q'[j].txn, q'[i].txn) {
      if i != p { assert q'[i] == q[if i < p then i else i - 1]; }
      if j != p { assert q'[j] == q[if j < p then j else j - 1]; }
    }
  }

  lemma InsertWellFormed(q: seq<Group>, open: seq<seq<Cmd>>, g: Group)
    requires WellFormed(q, open) && Closed(g) && g.origin < |open|
    ensures WellFormed(Inserted(q, g), open)
  {
    InsertSorted(q, g);
    var p := Position(q, g.txn);
    var q' := Inserted(q, g);
    hide Position, Sorted, Closed;
    forall i | 0 <= i < |q'| ensures Closed(q'[i]) && q'[i].origin < |open| {
      assert q'[i] == if i < p then q[i] else if i == p then g else q[i - 1];
    }
  }

  lemma RemoveWellFormed(q: seq<Group>, open: seq<seq<Cmd>>, p: nat)
    requires WellFormed(q, open) && p < |q|
    ensures WellFormed(q[..p] + q[p + 1..], open)
  {
    var q' := q[..p] + q[p + 1..];
    assert forall i :: 0 <= i < |q'| ==> q'[i] == if i < p then q[i] else q[i + 1];
  }

  // ---------------------------------------------------------------- the four changes, on values

  lemma AddRegularKeeps(q: seq<Group>, open: seq<seq<Cmd>>, cmd: Cmd)
    requires WellFormed(q, open) && !cmd.isMset && cmd.origin < |open|
    ensures var open' := open[cmd.origin := open[cmd.origin] + [cmd]];
      WellFormed(q, open') && Waiting(q, open') == Waiting(q, open) + multiset{cmd}
  {
    assert AllRegular(open[cmd.origin] + [cmd], cmd.origin);
    hide WellFormed, AllRegular;
    OpenWellFormed(q, open, cmd.origin, open[cmd.origin] + [cmd]);
    assert multiset(open[cmd.origin] + [cmd]) == multiset(open[cmd.origin]) + multiset{cmd};
    InOpenUpdate(open, cmd.origin, open[cmd.origin] + [cmd]);
  }

  lemma OpenWellFormed(q: seq<Group>, open: seq<seq<Cmd>>, s: nat, cmds: seq<Cmd>)
    requires WellFormed(q, open) && s < |open| && AllRegular(cmds, s)
    ensures WellFormed(q, open[s := cmds])
  {
  }

  lemma AddMsetKeeps(q: seq<Group>, open: seq<seq<Cmd>>, cmd: Cmd)
    requires WellFormed(q, open) && cmd.isMset && cmd.origin < |open|
    ensures var g := Group(open[cmd.origin] + [cmd], cmd.txn, cmd.origin);
      var open' := open[cmd.origin := []];
      WellFormed(Inserted(q, g), open') && Waiting(Inserted(q, g), open') == Waiting(q, open) + multiset{cmd}
  {
    var g := Group(open[cmd.origin] + [cmd], cmd.txn, cmd.origin);
    assert g.cmds[..|g.cmds| - 1] == open[cmd.origin];
    InsertWellFormed(q, open, g);
    OpenWellFormed(Inserted(q, g), open, cmd.origin, []);
    hide WellFormed;
    InQueueInsert(q, Position(q, g.txn), g);
    InOpenUpdate(open, cmd.origin, []);
    assert multiset(g.cmds) == multiset(open[cmd.origin]) + multiset{cmd};
  }

  /** What is left of a group without its MSET goes in front of its shard's open group. */
  function Reopened(open: seq<seq<Cmd>>, g: Group): seq<seq<Cmd>>
    requires g.cmds != [] && g.origin < |open|
  {
    open[g.origin := g.cmds[..|g.cmds| - 1] + open[g.origin]]
  }

  lemma RemoveAnchorKeeps(q: seq<Group>, open: seq<seq<Cmd>>, g: nat)
    requires WellFormed(q, open) && g < |q|
    ensures q[g].cmds != [] && q[g].origin < |open|
    ensures var last := |q[g].cmds| - 1;
      var q' := q[..g] + q[g + 1..];
      var open' := Reopened(open, q[g]);
      WellFormed(q', open') && Waiting(q, open) == Waiting(q', open') + multiset{q[g].cmds[last]}
  {
    var group := q[g];
    assert Closed(group);
    var left := group.cmds[..|group.cmds| - 1];
    var anchor := group.cmds[|group.cmds| - 1];
    RemoveWellFormed(q, open, g);
    OpenWellFormed(q[..g] + q[g + 1..], open, group.origin, left + open[group.origin]);
    hide WellFormed;
    InQueueRemove(q, g);
    InOpenUpdate(open, group.origin, left + open[group.origin]);
    assert group.cmds == left + [anchor];
    assert multiset(group.cmds) == multiset(left) + multiset{anchor};
    assert multiset(left + open[group.origin]) == multiset(left) + multiset(open[group.origin]);
  }

  lemma ShorterIsClosed(g: Group, k: nat)
    requires Closed(g) && k < |g.cmds| - 1
    ensures Closed(g.(cmds := Without(g.cmds, k)))
  {
    var cmds := Without(g.cmds, k);
    assert cmds[..|cmds| - 1] == Without(g.cmds[..|g.cmds| - 1], k);
  }

  lemma RemoveQueuedKeeps(q: seq<Group>, open: seq<seq<Cmd>>, g: nat, k: nat)
    requires WellFormed(q, open) && g < |q| && k < |q[g].cmds| - 1
    ensures var q' := q[g := q[g].(cmds := Without(q[g].cmds, k))];
      WellFormed(q', open) && Waiting(q, open) == Waiting(q', open) + multiset{q[g].cmds[k]}
  {
    var after := q[g].(cmds := Without(q[g].cmds, k));
    var rest := q[..g] + q[g + 1..];
    ShorterIsClosed(q[g], k);
    assert WellFormed(q[g := after], open);
    hide WellFormed;
    WithoutOne(q[g].cmds, k);
    InQueueRemove(q, g);
    InQueueInsert(rest, g, after);
    assert q[g := after] == rest[..g] + [after] + rest[g..];
  }

  lemma RemoveOpenKeeps(q: seq<Group>, open: seq<seq<Cmd>>, s: nat, k: nat)
    requires WellFormed(q, open) && s < |open| && k < |open[s]|
    ensures var open' := open[s := Without(open[s], k)];
      WellFormed(q, open') && Waiting(q, open) == Waiting(q, open') + multiset{open[s][k]}
  {
    OpenWellFormed(q, open, s, Without(open[s], k));
    hide WellFormed;
    WithoutOne(open[s], k);
    InOpenUpdate(open, s, Without(open[s], k));
  }

  // ---------------------------------------------------------------- arrival order

  predicate InAddOrder(cmds: seq<Cmd>) {
    forall i, j :: 0 <= i < j < |cmds| ==> cmds[i].id < cmds[j].id
  }

  /** Merging a reopened group in front keeps arrival order exactly when it is the earlier one. */
  lemma MergeKeepsOrder(reopened: seq<Cmd>, existing: seq<Cmd>)
    requires InAddOrder(reopened) && InAddOrder(existing) && reopened != [] && existing != []
    ensures InAddOrder(reopened + existing) <==> reopened[|reopened| - 1].id < existing[0].id
  {
    var all := reopened + existing;
    var n := |reopened|;
    if InAddOrder(all) {
      assert all[n - 1] == reopened[n - 1] && all[n] == existing[0];
    } else {
      var i, j :| 0 <= i < j < |all| && !(all[i].id < all[j].id);
      assert i < n <= j;
    }
  }

  class Entry {
    var queue: seq<Group>
    var open: seq<seq<Cmd>>

    ghost predicate Valid()
      reads this
    {
      WellFormed(queue, open)
    }

    constructor (shards: nat)
      ensures Valid() && queue == [] && open == seq(shards, _ => []) && Waiting(queue, open) == multiset{}
    {
      queue, open := [], seq(shards, _ => []);
      new;
      NothingOpen(shards);
    }

    /** A deferred read or other regular command; without memory for a new group it is dropped. */
    method AddRegular(cmd: Cmd, granted: bool)
      requires Valid() && !cmd.isMset && cmd.origin < |open|
      modifies this`open
      ensures Valid() && |open| == old(|open|)
      ensures if old(open[cmd.origin]) == [] && !granted then open == old(open)
              else open == old(open)[cmd.origin := old(open)[cmd.origin] + [cmd]]
                   && Waiting(queue, open) == old(Waiting(queue, open)) + multiset{cmd}
    {
      if open[cmd.origin] == [] && !granted {
        return;
      }
      AddRegularKeeps(queue, open, cmd);
      hide WellFormed, Waiting;
      open := open[cmd.origin := open[cmd.origin] + [cmd]];
    }

    /** An MSET closes the open group of its shard, or makes a group of its own. */
    method AddMset(cmd: Cmd, granted: bool)
      requires Valid() && cmd.isMset && cmd.origin < |open|
      modifies this
      ensures Valid() && |open| == old(|open|)
      ensures if old(open[cmd.origin]) == [] && !granted then open == old(open) && queue == old(queue)
              else && Waiting(queue, open) == old(Waiting(queue, open)) + multiset{cmd}
                   && open == old(open)[cmd.origin := []]
                   && queue == Inserted(old(queue), Group(old(open)[cmd.origin] + [cmd], cmd.txn, cmd.origin))
    {
      if open[cmd.origin] == [] && !granted {
        return;
      }
      AddMsetKeeps(queue, open, cmd);
      hide WellFormed, Waiting, Position;
      var g := Group(open[cmd.origin] + [cmd], cmd.txn, cmd.origin);
      var p := Position(queue, g.txn);
      queue := queue[..p] + [g] + queue[p..];
      open := open[cmd.origin := []];
    }

    /** The closed group of a transaction, if it waits here. */
    method FindTxn(t: TxnId) returns (r: Option<nat>)
      requires Valid()
      ensures r.Some? ==> r.value < |queue| && queue[r.value].txn == t
      ensures r.None? ==> forall c :: c in Waiting(queue, open) ==> !(c.isMset && c.txn == t)
    {
      var i := 0;
      while i < |queue|
        invariant i <= |queue|
        invariant forall j :: 0 <= j < i ==> queue[j].txn != t
      {
        if queue[i].txn == t {
          return Some(i);
        }
        i := i + 1;
      }
      NoSuchMset(queue, open, t);
      return None;
    }

    /** Takes a regular command out of a closed group, which stays closed. */
    method RemoveQueuedRegular(g: nat, k: nat)
      requires Valid() && g < |queue| && k < |queue[g].cmds| - 1
      modifies this`queue
      ensures Valid() && queue == old(queue)[g := old(queue)[g].(cmds := Without(old(queue)[g].cmds, k))]
      ensures old(Waiting(queue, open)) == Waiting(queue, open) + multiset{old(queue)[g].cmds[k]}
    {
      RemoveQueuedKeeps(queue, open, g, k);
      hide WellFormed, Waiting;
      queue := queue[g := queue[g].(cmds := Without(queue[g].cmds, k))];
    }

    /** Takes the MSET out of a closed group, which leaves the sorted queue and reopens. */
    method RemoveAnchor(g: nat)
      requires Valid() && g < |queue|
      modifies this
      ensures Valid() && |open| == old(|open|)
      ensures queue == old(queue)[..g] + old(queue)[g + 1..]
      ensures old(queue[g].cmds != [] && queue[g].origin < |open|)
      ensures open == Reopened(old(open), old(queue)[g])
      ensures var cmds := old(queue)[g].cmds;
        old(Waiting(queue, open)) == Waiting(queue, open) + multiset{cmds[|cmds| - 1]}
    {
      RemoveAnchorKeeps(queue, open, g);
      hide WellFormed, Waiting;
      var group := queue[g];
      queue := queue[..g] + queue[g + 1..];
      open := Reopened(open, group);
    }

    method RemoveOpen(s: nat, k: nat)
      requires Valid() && s < |open| && k < |open[s]|
      modifies this`open
      ensures Valid() && open == old(open)[s := Without(old(open)[s], k)]
      ensures old(Waiting(queue, open)) == Waiting(queue, open) + multiset{old(open)[s][k]}
    {
      RemoveOpenKeeps(queue, open, s, k);
      hide WellFormed, Waiting;
      open := open[s := Without(open[s], k)];
    }
  }

  /** The group that the read and the MSET numbered `n` and `n + 1` form on shard 0. */
  function Pair(n: nat, t: TxnId): Group {
    Group([Cmd(n, t, false, 0), Cmd(n + 1, t, true, 0)], t, 0)
  }

  /** A read arrives on shard 0, and an MSET that closes its group. */
  method AddPair(e: Entry, n: nat, t: TxnId) returns (ghost p: nat)
    requires e.Valid() && e.open == [[]]
    modifies e
    ensures e.Valid() && e.open == [[]] && p <= |old(e.queue)|
    ensures e.queue == old(e.queue)[..p] + [Pair(n, t)] + old(e.queue)[p..]
  {
    hide WellFormed, Waiting;
    var r, a := Cmd(n, t, false, 0), Cmd(n + 1, t, true, 0);
    e.AddRegular(r, true);
    assert e.open[0] == [r] && [r] + [a] == [r, a];
    e.AddMset(a, true);
    p := Position(old(e.queue), t);
  }

  lemma ReopenedPair(open: seq<seq<Cmd>>, n: nat, t: TxnId)
    requires |open| == 1
    ensures Reopened(open, Pair(n, t)) == [[Cmd(n, t, false, 0)] + open[0]]
  {
    assert Pair(n, t).cmds[..1] == [Cmd(n, t, false, 0)];
  }

  /** The group of `m1` arrived first, whichever is in front. */
  predicate TwoPairs(queue: seq<Group>, m1: TxnId, m2: TxnId) {
    queue == [Pair(1, m1), Pair(3, m2)] || queue == [Pair(3, m2), Pair(1, m1)]
  }

  /** Two reads of one shard arrive, each followed by an MSET that closes its group. */
  method AddTwoPairs(m1: TxnId, m2: TxnId) returns (e: Entry)
    ensures fresh(e) && e.Valid() && e.open == [[]] && TwoPairs(e.queue, m1, m2)
  {
    hide WellFormed, Waiting, Pair;
    e := new Entry(1);
    assert e.open == [[]];
    ghost var p := AddPair(e, 1, m1);
    assert e.queue == [Pair(1, m1)];
    p := AddPair(e, 3, m2);
    assert e.queue == if p == 0 then [Pair(3, m2), Pair(1, m1)] else [Pair(1, m1), Pair(3, m2)];
  }

  /** Arrival order can be lost: when the two MSETs leave again, first the first, the later read is in front. */
  method ReopenMayReorder(e: Entry, m1: TxnId, m2: TxnId)
    requires Older(m1, m2) && e.Valid() && e.open == [[]] && TwoPairs(e.queue, m1, m2)
    modifies e
    ensures e.Valid() && e.queue == [] && e.open == [[Cmd(3, m2, false, 0), Cmd(1, m1, false, 0)]]
    ensures !InAddOrder(e.open[0])
  {
    hide WellFormed, Waiting, Pair, Reopened;
    OlderIsStrictTotalOrder(m1, m2, m1);
    PairTxn(1, m1);
    PairTxn(3, m2);
    var g := if e.queue[0].txn == m1 then 0 else 1;
    ReopenedPair(e.open, 1, m1);
    e.RemoveAnchor(g);
    assert e.queue == [Pair(3, m2)] && e.open[0] == [Cmd(1, m1, false, 0)];
    ReopenedPair(e.open, 3, m2);
    e.RemoveAnchor(0);
    assert e.open[0] == [Cmd(3, m2, false, 0), Cmd(1, m1, false, 0)];
    assert e.open[0][0].id > e.open[0][1].id;
  }

  lemma PairTxn(n: nat, t: TxnId)
    ensures Pair(n, t).txn == t && Pair(n, t).origin == 0
  {
  }
}
