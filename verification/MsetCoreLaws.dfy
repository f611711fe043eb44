/** Invariants of the commit protocol and their preservation by every step. */
module MsetCoreLaws {
  import opened Options
  import opened Txn
  import opened KeyCell
  import opened KeyCellLaws
  import opened MsetCore

  // ---------------------------------------------------------------- invariants

  ghost predicate Shapes(s: Core) {
    forall k :: Shape(CellOf(s, k))
  }

  predicate Pending(c: Cell, t: TxnId) {
    Holds(c, t) || Waits(c, t)
  }

  /** Every pending command stands for a prepared pair of its MSET. */
  ghost predicate CommandsSound(s: Core) {
    forall k, t :: Pending(CellOf(s, k), t) ==> t in s.msets && PreparedAt(s.msets[t], k) != {}
  }

  /** Every prepared pair has a pending command on its key, or has been installed there. */
  ghost predicate CommandsComplete(s: Core) {
    forall k, t :: t in s.msets && PreparedAt(s.msets[t], k) != {} ==>
      Pending(CellOf(s, k), t) || Installed(CellOf(s, k), t)
  }

  /** FIN installs values of committed MSETs only. */
  ghost predicate InstallsCommitted(s: Core) {
    forall k, t :: Installed(CellOf(s, k), t) ==> Committed(s, t) && k in KeysOf(s.msets[t])
  }

  ghost function WaitKeys(s: Core, t: TxnId): set<Key>
    requires t in s.msets
  {
    set k | k in KeysOf(s.msets[t]) && Waits(CellOf(s, k), t)
  }

  /** `ack` is the number of prepared pairs minus the number of waiting commands. */
  ghost predicate AckExactFor(s: Core, t: TxnId)
    requires t in s.msets
  {
    var m := s.msets[t];
    m.left <= Upto(|m.pairs|) && m.ack + |m.left| + |WaitKeys(s, t)| == |m.pairs|
  }

  ghost predicate AckExact(s: Core) {
    forall t :: t in s.msets ==> AckExactFor(s, t)
  }

  /** Each waiter is younger than the holder of the key, unless that holder is committed. */
  ghost predicate WaitOrder(s: Core) {
    forall k, t :: Waits(CellOf(s, k), t) ==>
      var holder := CellOf(s, k).entry.value.holder.txn;
      Committed(s, holder) || Older(holder, t)
  }

  /** Position of `t` in the log, or its length. */
  function Pos(log: seq<TxnId>, t: TxnId): (p: nat)
    ensures p <= |log|
    ensures p < |log| ==> log[p] == t
    ensures t in log <==> p < |log|
  {
    if log == [] || log[0] == t then 0 else 1 + Pos(log[1..], t)
  }

  lemma {:induction false} PosAppend(log: seq<TxnId>, x: TxnId, t: TxnId)
    ensures t in log ==> Pos(log + [x], t) == Pos(log, t)
    ensures t !in log ==> Pos(log + [t], t) == |log|
  {
    if log != [] {
      PosAppend(log[1..], x, t);
      assert (log + [x])[1..] == log[1..] + [x];
      assert (log + [t])[1..] == log[1..] + [t];
    }
  }

  /** The log lists exactly the committed MSETs, each once. */
  ghost predicate CommitLog(s: Core) {
    && (forall t :: t in s.commits <==> Committed(s, t))
    && (forall i, j :: 0 <= i < j < |s.commits| ==> s.commits[i] != s.commits[j])
  }

  /** `t` is committed but has not yet installed its value of `k`. */
  ghost predicate Unfinished(s: Core, t: TxnId, k: Key) {
    Committed(s, t) && k in KeysOf(s.msets[t]) && !Installed(CellOf(s, k), t)
  }

  ghost predicate CommitOrdered(log: seq<TxnId>, installs: seq<Obj>) {
    forall i, j :: 0 <= i < j < |installs| && installs[i].Made? && installs[j].Made? ==>
      Pos(log, installs[i].txn) < Pos(log, installs[j].txn)
  }

  /** Values are installed on each key in commit order. */
  ghost predicate InstallOrder(s: Core) {
    && (forall k, t, u :: Installed(CellOf(s, k), t) && Unfinished(s, u, k) ==>
          Pos(s.commits, t) < Pos(s.commits, u))
    && (forall k :: CommitOrdered(s.commits, CellOf(s, k).installs))
  }

  ghost predicate CoreInv(s: Core) {
    && Shapes(s)
    && CommandsSound(s)
    && CommandsComplete(s)
    && InstallsCommitted(s)
    && AckExact(s)
    && WaitOrder(s)
    && CommitLog(s)
    && InstallOrder(s)
  }

  // ---------------------------------------------------------------- consequences

  /** A committed MSET holds every key it has not finished, on all shards at once. */
  lemma CommittedHoldsAll(s: Core, t: TxnId, k: Key)
    requires CommandsComplete(s) && AckExact(s) && Committed(s, t) && k in KeysOf(s.msets[t])
    ensures s.msets[t].left == {}
    ensures !Waits(CellOf(s, k), t)
    ensures Holds(CellOf(s, k), t) || Installed(CellOf(s, k), t)
  {
    var m := s.msets[t];
    assert |m.left| == 0 && |WaitKeys(s, t)| == 0;
    var i :| 0 <= i < |m.pairs| && m.pairs[i].0 == k;
    assert i in PreparedAt(m, k);
    assert k !in WaitKeys(s, t);
  }

  /** An MSET with pairs still to prepare is not committed and has installed nothing. */
  lemma UnpreparedIsUncommitted(s: Core, t: TxnId, i: nat, k: Key)
    requires AckExact(s) && InstallsCommitted(s) && CanPrepare(s, t, i)
    ensures !Committed(s, t)
    ensures !Installed(CellOf(s, k), t)
  {
    assert i in s.msets[t].left;
  }

  // ---------------------------------------------------------------- PREPARE

  function DecisionOf(s: Core, t: TxnId, i: nat): Decision
    requires CanPrepare(s, t, i)
  {
    var k := PrepareKey(s, t, i);
    Decide(CellOf(s, k), t, WoundAt(s, t, k))
  }

  /** PREPARE as a relation, first half: the roles on one key. */
  ghost predicate CellRel(s: Core, s': Core, t: TxnId, k: Key, d: Decision) {
    && (forall k' :: k' != k ==> CellOf(s', k') == CellOf(s, k'))
    && (forall u :: Roles(CellOf(s, k), CellOf(s', k), t, d, u))
  }

  /** Second half: the counters of the MSET and, when it wounds, of its victim `v`. */
  ghost predicate CountRel(s: Core, s': Core, t: TxnId, i: nat, d: Decision, v: TxnId) {
    && CanPrepare(s, t, i)
    && s'.replies == s.replies && s'.msets.Keys == s.msets.Keys
    && s'.msets[t] == s.msets[t].(left := s.msets[t].left - {i},
                                  ack := if d.Enqueue? then s.msets[t].ack else s.msets[t].ack + 1)
    && (d.Preempt? ==>
          && v != t && MayWound(s, t, v)
          && s'.msets[v] == s.msets[v].(ack := s.msets[v].ack - 1))
    && (forall u :: u in s.msets && u != t && !(d.Preempt? && u == v) ==> s'.msets[u] == s.msets[u])
    && (forall u :: u != t ==> Committed(s', u) == Committed(s, u))
    && s'.commits == (if !d.Enqueue? && Committed(s', t) then s.commits + [t] else s.commits)
  }

  lemma SettleRel(s: Core, k: Key, c': Cell, t: TxnId, i: nat, d: Decision, v: TxnId)
    requires CanPrepare(s, t, i) && (d.Preempt? ==> v != t && MayWound(s, t, v))
    ensures var s' := Settle(SetCell(s, k, c'), t, i, d, v);
      && CountRel(s, s', t, i, d, v)
      && CellOf(s', k) == c' && (forall k' :: k' != k ==> CellOf(s', k') == CellOf(s, k'))
  {
  }

  /** When PREPARE wounds, and when it does not although it could. */
  ghost predicate WoundRule(s: Core, t: TxnId, k: Key, d: Decision) {
    var v := HolderOf(CellOf(s, k), t);
    && (d.Preempt? ==> Holds(CellOf(s, k), v) && v != t && MayWound(s, t, v))
    && (d.Enqueue? ==> Holds(CellOf(s, k), v) && v != t && !MayWound(s, t, v))
  }

  lemma PrepareIsRel(s: Core, shards: nat, t: TxnId, i: nat)
    requires CanPrepare(s, t, i) && Shapes(s) && InstallsCommitted(s) && AckExact(s)
    ensures var k := PrepareKey(s, t, i); var s' := PrepareStep(s, shards, t, i); var d := DecisionOf(s, t, i);
      && CellRel(s, s', t, k, d)
      && CountRel(s, s', t, i, d, HolderOf(CellOf(s, k), t))
      && WoundRule(s, t, k, d) && Shape(CellOf(s', k))
      && CellOf(s', k) == PreparedCell(s, shards, t, i)
  {
    PrepareCell(s, shards, t, i);
    var k := PrepareKey(s, t, i);
    SettleRel(s, k, PreparedCell(s, shards, t, i), t, i, DecisionOf(s, t, i), HolderOf(CellOf(s, k), t));
  }

  lemma PrepareCell(s: Core, shards: nat, t: TxnId, i: nat)
    requires CanPrepare(s, t, i) && Shapes(s) && InstallsCommitted(s) && AckExact(s)
    ensures var k := PrepareKey(s, t, i); var c' := PreparedCell(s, shards, t, i); var d := DecisionOf(s, t, i);
      Shape(c') && (forall u :: Roles(CellOf(s, k), c', t, d, u)) && WoundRule(s, t, k, d)
  {
    var k := PrepareKey(s, t, i);
    var c := CellOf(s, k);
    var m := s.msets[t];
    UnpreparedIsUncommitted(s, t, i, k);
    PrepareShape(c, t, i, m.pairs[i].1, m.coord, shards, WoundAt(s, t, k));
    forall u ensures Roles(c, PreparedCell(s, shards, t, i), t, DecisionOf(s, t, i), u) {
      PrepareRoles(c, t, i, m.pairs[i].1, m.coord, shards, WoundAt(s, t, k), u);
    }
  }

  lemma PrepareSets(s: Core, s': Core, t: TxnId, i: nat, d: Decision, v: TxnId, u: TxnId, k: Key)
    requires CountRel(s, s', t, i, d, v) && u in s.msets
    ensures KeysOf(s'.msets[u]) == KeysOf(s.msets[u])
    ensures PreparedAt(s'.msets[u], k) ==
      if u == t && k == PrepareKey(s, t, i) then PreparedAt(s.msets[u], k) + {i} else PreparedAt(s.msets[u], k)
  {
    assert s'.msets[u].pairs == s.msets[u].pairs;
  }

  lemma RolesPending(c: Cell, c': Cell, t: TxnId, d: Decision, u: TxnId)
    requires Roles(c, c', t, d, u)
    ensures Pending(c', u) ==> Pending(c, u) || u == t
    ensures Pending(c, u) || u == t ==> Pending(c', u)
    ensures Installed(c', u) == Installed(c, u)
  {
  }

  lemma PrepareSound(s: Core, s': Core, t: TxnId, i: nat, d: Decision, v: TxnId)
    requires CountRel(s, s', t, i, d, v) && CellRel(s, s', t, PrepareKey(s, t, i), d)
    requires CommandsSound(s)
    ensures CommandsSound(s')
  {
    hide Roles, Pending, PreparedAt;
    var k := PrepareKey(s, t, i);
    forall k', u | Pending(CellOf(s', k'), u) ensures u in s'.msets && PreparedAt(s'.msets[u], k') != {} {
      RolesPending(CellOf(s, k), CellOf(s', k), t, d, u);
      assert Pending(CellOf(s, k'), u) || (u == t && k' == k);
      PrepareSets(s, s', t, i, d, v, u, k');
    }
  }

  lemma PrepareComplete(s: Core, s': Core, t: TxnId, i: nat, d: Decision, v: TxnId)
    requires CountRel(s, s', t, i, d, v) && CellRel(s, s', t, PrepareKey(s, t, i), d)
    requires CommandsComplete(s)
    ensures CommandsComplete(s')
  {
    hide Roles, Pending, PreparedAt, Installed;
    var k := PrepareKey(s, t, i);
    forall k', u | u in s'.msets && PreparedAt(s'.msets[u], k') != {}
      ensures Pending(CellOf(s', k'), u) || Installed(CellOf(s', k'), u)
    {
      RolesPending(CellOf(s, k), CellOf(s', k), t, d, u);
      PrepareSets(s, s', t, i, d, v, u, k');
    }
  }

  lemma PrepareWaitKeys(s: Core, s': Core, t: TxnId, i: nat, d: Decision, v: TxnId, u: TxnId)
    requires CountRel(s, s', t, i, d, v) && CellRel(s, s', t, PrepareKey(s, t, i), d)
    requires d.Preempt? ==> Holds(CellOf(s, PrepareKey(s, t, i)), v)
    requires Shapes(s) && CommandsSound(s) && u in s.msets
    ensures var k := PrepareKey(s, t, i);
      if StartsWaiting(t, d, v, u)
      then WaitKeys(s', u) == WaitKeys(s, u) + {k} && k !in WaitKeys(s, u)
      else WaitKeys(s', u) == WaitKeys(s, u)
  {
    var k := PrepareKey(s, t, i);
    assert Roles(CellOf(s, k), CellOf(s', k), t, d, u);
    PrepareSets(s, s', t, i, d, v, u, k);
    assert Shape(CellOf(s, k));
    if d.Preempt? && u == v {
      assert Pending(CellOf(s, k), v);
      assert k in KeysOf(s.msets[v]);
    }
    forall k' ensures k' in WaitKeys(s', u) <==>
      (k' in WaitKeys(s, u) || (k' == k && StartsWaiting(t, d, v, u)))
    {
      if k' != k { assert CellOf(s', k') == CellOf(s, k'); }
    }
  }

  /** `u` starts to wait for one more key. */
  predicate StartsWaiting(t: TxnId, d: Decision, v: TxnId, u: TxnId) {
    (d.Enqueue? && u == t) || (d.Preempt? && u == v)
  }

  lemma PrepareAckOf(s: Core, s': Core, t: TxnId, i: nat, d: Decision, v: TxnId, u: TxnId)
    requires CountRel(s, s', t, i, d, v) && u in s.msets && AckExactFor(s, u)
    requires |WaitKeys(s', u)| == |WaitKeys(s, u)| + (if StartsWaiting(t, d, v, u) then 1 else 0)
    ensures AckExactFor(s', u)
  {
    assert |s.msets[t].left - {i}| == |s.msets[t].left| - 1;
  }

  lemma PrepareAcks(s: Core, s': Core, t: TxnId, i: nat, d: Decision, v: TxnId)
    requires CountRel(s, s', t, i, d, v) && CellRel(s, s', t, PrepareKey(s, t, i), d)
    requires d.Preempt? ==> Holds(CellOf(s, PrepareKey(s, t, i)), v)
    requires Shapes(s) && CommandsSound(s) && AckExact(s)
    ensures AckExact(s')
  {
    forall u | u in s'.msets ensures AckExactFor(s', u) {
      PrepareAckFor(s, s', t, i, d, v, u);
    }
  }

  lemma PrepareAckFor(s: Core, s': Core, t: TxnId, i: nat, d: Decision, v: TxnId, u: TxnId)
    requires CountRel(s, s', t, i, d, v) && CellRel(s, s', t, PrepareKey(s, t, i), d)
    requires d.Preempt? ==> Holds(CellOf(s, PrepareKey(s, t, i)), v)
    requires Shapes(s) && CommandsSound(s) && u in s.msets && AckExactFor(s, u)
    ensures AckExactFor(s', u)
  {
    PrepareWaitKeys(s, s', t, i, d, v, u);
    PrepareAckOf(s, s', t, i, d, v, u);
  }

  ghost predicate SameInstalls(s: Core, s': Core) {
    forall k :: CellOf(s', k).installs == CellOf(s, k).installs && CellOf(s', k).initial == CellOf(s, k).initial
  }

  lemma PrepareSameInstalls(s: Core, s': Core, t: TxnId, k: Key, d: Decision)
    requires CellRel(s, s', t, k, d)
    ensures SameInstalls(s, s')
  {
    assert Roles(CellOf(s, k), CellOf(s', k), t, d, t);
  }

  lemma PrepareInstalls(s: Core, s': Core, t: TxnId, i: nat, d: Decision, v: TxnId)
    requires CountRel(s, s', t, i, d, v) && SameInstalls(s, s')
    requires !Committed(s, t) && InstallsCommitted(s)
    ensures InstallsCommitted(s')
  {
    forall k, u | Installed(CellOf(s', k), u) ensures Committed(s', u) && k in KeysOf(s'.msets[u]) {
      assert Installed(CellOf(s, k), u);
      CommittedStays(s, s', t, i, d, v, u);
      PrepareSets(s, s', t, i, d, v, u, k);
    }
  }

  // ---------------------------------------------------------------- order of waiting

  /** A set that some function maps onto another is at least as large. */
  lemma {:induction false} Surjection(from: set<nat>, keys: set<Key>, key: nat -> Key)
    requires forall k :: k in keys ==> exists i :: i in from && key(i) == k
    ensures |keys| <= |from|
    decreases |keys|
  {
    if keys != {} {
      var k :| k in keys;
      var i :| i in from && key(i) == k;
      forall k' | k' in keys - {k} ensures exists j :: j in from - {i} && key(j) == k' {
        var j :| j in from && key(j) == k';
        assert j in from - {i};
      }
      Surjection(from - {i}, keys - {k}, key);
      assert |from - {i}| == |from| - 1;
    }
  }

  /** An MSET has prepared at least as many pairs as keys. */
  lemma PreparedBound(m: Mset, keys: set<Key>)
    requires m.left <= Upto(|m.pairs|) && forall k :: k in keys ==> PreparedAt(m, k) != {}
    ensures |keys| + |m.left| <= |m.pairs|
  {
    var all := Upto(|m.pairs|);
    var key := (i: nat) => if i < |m.pairs| then m.pairs[i].0 else "";
    forall k | k in keys ensures exists i :: i in all - m.left && key(i) == k {
      var i :| i in PreparedAt(m, k);
      assert i in all - m.left && key(i) == k;
    }
    Surjection(all - m.left, keys, key);
    assert |all - m.left| == |all| - |m.left|;
  }

  /** The holder of a key has acknowledged at least once. */
  lemma HolderAcked(s: Core, k: Key, v: TxnId)
    requires Shapes(s) && CommandsSound(s) && AckExact(s) && Holds(CellOf(s, k), v)
    ensures v in s.msets && s.msets[v].ack > 0
  {
    assert Pending(CellOf(s, k), v) && Shape(CellOf(s, k));
    var m := s.msets[v];
    assert AckExactFor(s, v);
    forall k' | k' in WaitKeys(s, v) + {k} ensures PreparedAt(m, k') != {} {
      assert Pending(CellOf(s, k'), v);
    }
    PreparedBound(m, WaitKeys(s, v) + {k});
    assert k !in WaitKeys(s, v);
  }

  /**
   * Pairs of one connection reach each shard in the order of its transactions: when pair `i`
   * of `t` is prepared, no younger transaction of that connection has prepared anything there.
   */
  ghost predicate ConnOrder(s: Core, cfg: Config, t: TxnId, i: nat)
    requires CanPrepare(s, t, i)
  {
    forall v, j :: v in s.msets && v.conn == t.conn && Older(t, v)
                   && 0 <= j < |s.msets[v].pairs|
                   && cfg.route(s.msets[v].pairs[j].0) == cfg.route(PrepareKey(s, t, i)) ==>
      j in s.msets[v].left
  }

  lemma PrepareWaits(s: Core, s': Core, cfg: Config, t: TxnId, i: nat, d: Decision, v: TxnId)
    requires CountRel(s, s', t, i, d, v) && CellRel(s, s', t, PrepareKey(s, t, i), d)
    requires WoundRule(s, t, PrepareKey(s, t, i), d) && v == HolderOf(CellOf(s, PrepareKey(s, t, i)), t)
    requires Shapes(s) && CommandsSound(s) && AckExact(s) && WaitOrder(s) && ConnOrder(s, cfg, t, i)
    requires !Committed(s, t)
    ensures WaitOrder(s')
  {
    var k := PrepareKey(s, t, i);
    forall k', u | Waits(CellOf(s', k'), u)
      ensures Committed(s', CellOf(s', k').entry.value.holder.txn) || Older(CellOf(s', k').entry.value.holder.txn, u)
    {
      var h := CellOf(s', k').entry.value.holder.txn;
      if k' != k {
        assert CellOf(s', k') == CellOf(s, k');
        if Committed(s, h) { CommittedStays(s, s', t, i, d, v, h); }
      } else {
        assert Roles(CellOf(s, k), CellOf(s', k), t, d, u);
        assert Roles(CellOf(s, k), CellOf(s', k), t, d, h);
        PrepareWaitsHere(s, s', cfg, t, i, d, v, u, h);
      }
    }
  }

  lemma CommittedStays(s: Core, s': Core, t: TxnId, i: nat, d: Decision, v: TxnId, u: TxnId)
    requires CountRel(s, s', t, i, d, v) && !Committed(s, t) && Committed(s, u)
    ensures Committed(s', u)
  {
  }

  lemma PrepareWaitsHere(s: Core, s': Core, cfg: Config, t: TxnId, i: nat, d: Decision, v: TxnId, u: TxnId, h: TxnId)
    requires CountRel(s, s', t, i, d, v)
    requires var k := PrepareKey(s, t, i);
      && Roles(CellOf(s, k), CellOf(s', k), t, d, u) && Roles(CellOf(s, k), CellOf(s', k), t, d, h)
      && WoundRule(s, t, k, d) && v == HolderOf(CellOf(s, k), t)
      && Holds(CellOf(s', k), h) && Waits(CellOf(s', k), u)
    requires Shapes(s) && CommandsSound(s) && AckExact(s) && WaitOrder(s) && ConnOrder(s, cfg, t, i)
    requires !Committed(s, t)
    ensures Committed(s', h) || Older(h, u)
  {
    var k := PrepareKey(s, t, i);
    OlderIsStrictTotalOrder(t, v, u);
    if Holds(CellOf(s, k), h) && Committed(s, h) {
      CommittedStays(s, s', t, i, d, v, h);
    } else if d.Enqueue? && u == t {
      HolderAcked(s, k, v);
      QueuedIsYounger(s, cfg, t, i, v);
    }
  }

  /** An MSET that may not wound an uncommitted holder is younger than it. */
  lemma QueuedIsYounger(s: Core, cfg: Config, t: TxnId, i: nat, v: TxnId)
    requires CanPrepare(s, t, i) && ConnOrder(s, cfg, t, i) && CommandsSound(s)
    requires Holds(CellOf(s, PrepareKey(s, t, i)), v) && v != t && v in s.msets
    requires 0 < s.msets[v].ack && !MayWound(s, t, v) && !Committed(s, v)
    requires s.msets[v].ack <= |s.msets[v].pairs|
    ensures Older(v, t)
  {
    var k := PrepareKey(s, t, i);
    OlderIsStrictTotalOrder(t, v, t);
    assert Pending(CellOf(s, k), v);
    var j :| j in PreparedAt(s.msets[v], k);
    assert !Older(t, v);
  }

  // ---------------------------------------------------------------- commit log

  lemma PrepareLog(s: Core, s': Core, t: TxnId, i: nat, d: Decision, v: TxnId)
    requires CountRel(s, s', t, i, d, v) && !Committed(s, t) && CommitLog(s)
    ensures CommitLog(s')
  {
    assert d.Enqueue? ==> !Committed(s', t);
  }

  lemma LogGrows(log: seq<TxnId>, log': seq<TxnId>, t: TxnId, u: TxnId)
    requires log' == log || log' == log + [t]
    requires u in log
    ensures Pos(log', u) == Pos(log, u)
  {
    PosAppend(log, t, u);
  }

  lemma PrepareInstallOrder(s: Core, s': Core, t: TxnId, i: nat, d: Decision, v: TxnId)
    requires CountRel(s, s', t, i, d, v) && SameInstalls(s, s')
    requires !Committed(s, t) && CommitLog(s) && InstallsCommitted(s) && InstallOrder(s)
    ensures InstallOrder(s')
  {
    forall k, w, u | Installed(CellOf(s', k), w) && Unfinished(s', u, k)
      ensures Pos(s'.commits, w) < Pos(s'.commits, u)
    {
      assert Installed(CellOf(s, k), w);
      LogGrows(s.commits, s'.commits, t, w);
      if u == t {
        PosAppend(s.commits, t, t);
      } else {
        PrepareSets(s, s', t, i, d, v, u, k);
        assert Unfinished(s, u, k);
        LogGrows(s.commits, s'.commits, t, u);
      }
    }
    forall k ensures CommitOrdered(s'.commits, CellOf(s', k).installs) {
      OrderedGrows(s, s', t, k);
    }
  }

  lemma OrderedGrows(s: Core, s': Core, t: TxnId, k: Key)
    requires s'.commits == s.commits || s'.commits == s.commits + [t]
    requires CommitLog(s) && InstallsCommitted(s) && InstallOrder(s)
    ensures CommitOrdered(s'.commits, CellOf(s, k).installs)
  {
    var h := CellOf(s, k).installs;
    assert CommitOrdered(s.commits, h);
    forall j | 0 <= j < |h| && h[j].Made? ensures Pos(s'.commits, h[j].txn) == Pos(s.commits, h[j].txn) {
      assert Installed(CellOf(s, k), h[j].txn);
      LogGrows(s.commits, s'.commits, t, h[j].txn);
    }
  }

  /** Every PREPARE that respects the order of its connection keeps the invariant. */
  lemma PrepareKeeps(s: Core, cfg: Config, t: TxnId, i: nat)
    requires CoreInv(s) && CanPrepare(s, t, i) && ConnOrder(s, cfg, t, i)
    ensures CoreInv(PrepareStep(s, cfg.shards, t, i))
  {
    PrepareIsRel(s, cfg.shards, t, i);
    PrepareKeepsRel(s, PrepareStep(s, cfg.shards, t, i), cfg, t, i, DecisionOf(s, t, i),
                    HolderOf(CellOf(s, PrepareKey(s, t, i)), t));
  }

  lemma PrepareKeepsRel(s: Core, s': Core, cfg: Config, t: TxnId, i: nat, d: Decision, v: TxnId)
    requires CoreInv(s)
    requires CountRel(s, s', t, i, d, v) && CellRel(s, s', t, PrepareKey(s, t, i), d)
    requires WoundRule(s, t, PrepareKey(s, t, i), d) && v == HolderOf(CellOf(s, PrepareKey(s, t, i)), t)
    requires ConnOrder(s, cfg, t, i) && Shape(CellOf(s', PrepareKey(s, t, i)))
    ensures CoreInv(s')
  {
    UnpreparedIsUncommitted(s, t, i, PrepareKey(s, t, i));
    PrepareKeepsCounts(s, s', cfg, t, i, d, v);
  }

  lemma PrepareKeepsCounts(s: Core, s': Core, cfg: Config, t: TxnId, i: nat, d: Decision, v: TxnId)
    requires CoreInv(s) && !Committed(s, t)
    requires CountRel(s, s', t, i, d, v) && CellRel(s, s', t, PrepareKey(s, t, i), d)
    requires WoundRule(s, t, PrepareKey(s, t, i), d) && v == HolderOf(CellOf(s, PrepareKey(s, t, i)), t)
    requires ConnOrder(s, cfg, t, i) && Shape(CellOf(s', PrepareKey(s, t, i)))
    ensures Shapes(s') && CommandsSound(s') && CommandsComplete(s') && InstallsCommitted(s')
    ensures AckExact(s') && WaitOrder(s') && CommitLog(s') && InstallOrder(s')
  {
    hide CommandsSound, CommandsComplete, InstallsCommitted, AckExact, WaitOrder, CommitLog, InstallOrder, ConnOrder;
    PrepareSound(s, s', t, i, d, v);
    PrepareComplete(s, s', t, i, d, v);
    PrepareSameInstalls(s, s', t, PrepareKey(s, t, i), d);
    PrepareInstalls(s, s', t, i, d, v);
    PrepareAcks(s, s', t, i, d, v);
    PrepareWaits(s, s', cfg, t, i, d, v);
    PrepareLog(s, s', t, i, d, v);
    PrepareInstallOrder(s, s', t, i, d, v);
  }

  // ---------------------------------------------------------------- FIN

  /** FIN of `t` on one key that promotes `p`: the roles on that key. */
  ghost predicate FinRoles(c: Cell, c': Cell, t: TxnId, p: Option<TxnId>, u: TxnId) {
    && Holds(c, t) && !Waits(c, t) && !Installed(c, t)
    && (Holds(c', u) <==> p == Some(u))
    && (Waits(c', u) <==> Waits(c, u) && p != Some(u))
    && (Installed(c', u) <==> Installed(c, u) || u == t)
    && (p.Some? ==> Waits(c, p.value))
    && |c'.installs| == |c.installs| + 1 && c'.installs[..|c.installs|] == c.installs
    && c'.installs[|c.installs|].Made? && c'.installs[|c.installs|].txn == t
    && c'.initial == c.initial
  }

  ghost predicate FinCellRel(s: Core, s': Core, t: TxnId, k: Key, p: Option<TxnId>) {
    && (forall k' :: k' != k ==> CellOf(s', k') == CellOf(s, k'))
    && (forall u :: FinRoles(CellOf(s, k), CellOf(s', k), t, p, u))
  }

  /** FIN acknowledges once for the promoted MSET and changes no other counter. */
  ghost predicate FinCountRel(s: Core, s': Core, p: Option<TxnId>) {
    && (p.Some? ==> p.value in s.msets)
    && s'.msets == (if p.Some? then s.msets[p.value := s.msets[p.value].(ack := s.msets[p.value].ack + 1)] else s.msets)
    && s'.commits == (if p.Some? && Committed(s', p.value) then s.commits + [p.value] else s.commits)
  }

  lemma FinishCell(c: Cell, t: TxnId, u: TxnId)
    requires Shape(c) && Holds(c, t)
    ensures FinRoles(c, Finish(c, c.entry.value), t, Promoted(c.entry.value), u)
  {
    FinishRoles(c, u);
    assert Pending(c, t);
    var e := c.entry.value;
    assert (c.installs + [e.holder.obj])[..|c.installs|] == c.installs;
  }

  lemma FinishIsRel(s: Core, t: TxnId, k: Key)
    requires CanFinish(s, t, k) && Shapes(s) && CommandsSound(s)
    ensures var s' := FinishStep(s, t, k); var p := Promoted(CellOf(s, k).entry.value);
      && FinCellRel(s, s', t, k, p) && FinCountRel(s, s', p) && Shape(CellOf(s', k))
      && CellOf(s', k) == Finish(CellOf(s, k), CellOf(s, k).entry.value)
      && s'.replies == s.replies + Log(k, DrainReplies(CellOf(s, k).entry.value))
  {
    var c := CellOf(s, k);
    var s' := FinishStep(s, t, k);
    assert Shape(c);
    FinishShape(c);
    forall u ensures FinRoles(c, Finish(c, c.entry.value), t, Promoted(c.entry.value), u) {
      FinishCell(c, t, u);
    }
    var p := Promoted(c.entry.value);
    if p.Some? {
      FinishCell(c, t, p.value);
      assert Pending(c, p.value);
    }
    SettleFinish(s, k, Finish(c, c.entry.value), Log(k, DrainReplies(c.entry.value)), p);
  }

  lemma SettleFinish(s: Core, k: Key, c': Cell, rs: seq<(Key, Reply)>, p: Option<TxnId>)
    requires p.Some? ==> p.value in s.msets
    ensures var s1 := SetCell(s, k, c').(replies := s.replies + rs);
      var s' := if p.Some? then Bump(s1, p.value) else s1;
      && FinCountRel(s, s', p) && s'.replies == s.replies + rs
      && CellOf(s', k) == c' && (forall k' :: k' != k ==> CellOf(s', k') == CellOf(s, k'))
  {
  }

  lemma FinishSound(s: Core, s': Core, t: TxnId, k: Key, p: Option<TxnId>)
    requires FinCellRel(s, s', t, k, p) && FinCountRel(s, s', p) && CommandsSound(s)
    ensures CommandsSound(s')
  {
    forall k', u | Pending(CellOf(s', k'), u) ensures u in s'.msets && PreparedAt(s'.msets[u], k') != {} {
      assert FinRoles(CellOf(s, k), CellOf(s', k), t, p, u);
      assert Pending(CellOf(s, k'), u);
      assert PreparedAt(s'.msets[u], k') == PreparedAt(s.msets[u], k');
    }
  }

  lemma FinishComplete(s: Core, s': Core, t: TxnId, k: Key, p: Option<TxnId>)
    requires FinCellRel(s, s', t, k, p) && FinCountRel(s, s', p) && CommandsComplete(s)
    ensures CommandsComplete(s')
  {
    forall k', u | u in s'.msets && PreparedAt(s'.msets[u], k') != {}
      ensures Pending(CellOf(s', k'), u) || Installed(CellOf(s', k'), u)
    {
      assert FinRoles(CellOf(s, k), CellOf(s', k), t, p, u);
      assert PreparedAt(s'.msets[u], k') == PreparedAt(s.msets[u], k');
    }
  }

  lemma FinishWaitKeys(s: Core, s': Core, t: TxnId, k: Key, p: Option<TxnId>, u: TxnId)
    requires FinCellRel(s, s', t, k, p) && FinCountRel(s, s', p) && CommandsSound(s) && u in s.msets
    ensures if p == Some(u) then k in WaitKeys(s, u) && WaitKeys(s', u) == WaitKeys(s, u) - {k}
            else WaitKeys(s', u) == WaitKeys(s, u)
  {
    assert FinRoles(CellOf(s, k), CellOf(s', k), t, p, u);
    assert KeysOf(s'.msets[u]) == KeysOf(s.msets[u]);
    if p == Some(u) {
      assert Pending(CellOf(s, k), u);
    }
  }

  lemma FinishAckFor(s: Core, s': Core, t: TxnId, k: Key, p: Option<TxnId>, u: TxnId)
    requires FinCellRel(s, s', t, k, p) && FinCountRel(s, s', p) && CommandsSound(s)
    requires u in s.msets && AckExactFor(s, u)
    ensures AckExactFor(s', u)
  {
    FinishWaitKeys(s, s', t, k, p, u);
    FinishAckOf(s, s', p, u);
  }

  lemma FinishAckOf(s: Core, s': Core, p: Option<TxnId>, u: TxnId)
    requires FinCountRel(s, s', p) && u in s.msets && AckExactFor(s, u)
    requires |WaitKeys(s', u)| == |WaitKeys(s, u)| - (if p == Some(u) then 1 else 0)
    ensures AckExactFor(s', u)
  {
  }

  /** The promoted waiter was not committed before. */
  lemma WaiterUncommitted(s: Core, k: Key, p: TxnId)
    requires AckExact(s) && CommandsSound(s) && Waits(CellOf(s, k), p)
    ensures p in s.msets && !Committed(s, p)
  {
    assert Pending(CellOf(s, k), p);
    assert AckExactFor(s, p);
    assert k in WaitKeys(s, p);
  }

  lemma FinishCommitted(s: Core, s': Core, p: Option<TxnId>, u: TxnId)
    requires FinCountRel(s, s', p) && (p.Some? ==> !Committed(s, p.value))
    ensures Committed(s, u) ==> Committed(s', u)
    ensures p != Some(u) ==> Committed(s', u) == Committed(s, u)
  {
  }

  lemma FinishInstalls(s: Core, s': Core, t: TxnId, k: Key, p: Option<TxnId>)
    requires FinCellRel(s, s', t, k, p) && FinCountRel(s, s', p) && InstallsCommitted(s)
    requires Committed(s, t) && k in KeysOf(s.msets[t]) && (p.Some? ==> !Committed(s, p.value))
    ensures InstallsCommitted(s')
  {
    forall k', u | Installed(CellOf(s', k'), u) ensures Committed(s', u) && k' in KeysOf(s'.msets[u]) {
      assert FinRoles(CellOf(s, k), CellOf(s', k), t, p, u);
      FinishCommitted(s, s', p, u);
      assert KeysOf(s'.msets[u]) == KeysOf(s.msets[u]);
    }
  }

  lemma FinishWaits(s: Core, s': Core, t: TxnId, k: Key, p: Option<TxnId>)
    requires FinCellRel(s, s', t, k, p) && FinCountRel(s, s', p) && WaitOrder(s)
    requires p.Some? ==> !Committed(s, p.value)
    requires CellOf(s, k).entry.Some? && p == Promoted(CellOf(s, k).entry.value)
    requires Shapes(s)
    ensures WaitOrder(s')
  {
    forall k', u | Waits(CellOf(s', k'), u)
      ensures Committed(s', CellOf(s', k').entry.value.holder.txn) || Older(CellOf(s', k').entry.value.holder.txn, u)
    {
      var h := CellOf(s', k').entry.value.holder.txn;
      assert FinRoles(CellOf(s, k), CellOf(s', k), t, p, u);
      assert FinRoles(CellOf(s, k), CellOf(s', k), t, p, h);
      FinishCommitted(s, s', p, h);
      if k' == k {
        PromotedIsOldest(CellOf(s, k), u);
      } else {
        assert CellOf(s', k') == CellOf(s, k');
      }
    }
  }

  /** The queue is sorted, so its first anchor is older than every other waiter. */
  lemma PromotedIsOldest(c: Cell, u: TxnId)
    requires Shape(c) && Waits(c, u)
    ensures Promoted(c.entry.value).Some?
    ensures Promoted(c.entry.value).value == u || Older(Promoted(c.entry.value).value, u)
  {
    var q := c.entry.value.queue;
    var j := FindQueued(q, u);
  }

  lemma FinishLog(s: Core, s': Core, p: Option<TxnId>)
    requires FinCountRel(s, s', p) && CommitLog(s) && (p.Some? ==> !Committed(s, p.value))
    ensures CommitLog(s')
  {
    forall u ensures u in s'.commits <==> Committed(s', u) {
      FinishCommitted(s, s', p, u);
    }
  }

  lemma FinishInstallOrder(s: Core, s': Core, t: TxnId, k: Key, p: Option<TxnId>)
    requires FinCellRel(s, s', t, k, p) && FinCountRel(s, s', p)
    requires CommitLog(s) && InstallsCommitted(s) && InstallOrder(s)
    requires Unfinished(s, t, k) && (p.Some? ==> !Committed(s, p.value))
    requires forall u :: Unfinished(s, u, k) ==> u == t
    ensures InstallOrder(s')
  {
    forall k', w, u | Installed(CellOf(s', k'), w) && Unfinished(s', u, k')
      ensures Pos(s'.commits, w) < Pos(s'.commits, u)
    {
      assert FinRoles(CellOf(s, k), CellOf(s', k), t, p, w);
      assert FinRoles(CellOf(s, k), CellOf(s', k), t, p, u);
      assert KeysOf(s'.msets[u]) == KeysOf(s.msets[u]);
      FinishCommitted(s, s', p, u);
      FinishOrderOf(s, s', t, p, k', w, u);
    }
    forall k' ensures CommitOrdered(s'.commits, CellOf(s', k').installs) {
      var x := if p.Some? then p.value else t;
      OrderedGrows(s, s', x, k');
      if k' == k {
        assert FinRoles(CellOf(s, k), CellOf(s', k), t, p, t);
        FinishOrdered(s, s', t, k, x);
      }
    }
  }

  lemma FinishOrderOf(s: Core, s': Core, t: TxnId, p: Option<TxnId>, k: Key, w: TxnId, u: TxnId)
    requires FinCountRel(s, s', p) && CommitLog(s) && InstallsCommitted(s) && InstallOrder(s)
    requires Installed(CellOf(s, k), w) || (w == t && Committed(s, t) && !Unfinished(s, u, k))
    requires Unfinished(s, u, k) || (p == Some(u) && !Committed(s, u) && Committed(s', u))
    ensures Pos(s'.commits, w) < Pos(s'.commits, u)
  {
    var x := if p.Some? then p.value else t;
    LogGrows(s.commits, s'.commits, x, w);
    if Unfinished(s, u, k) {
      LogGrows(s.commits, s'.commits, x, u);
    } else {
      PosAppend(s.commits, x, x);
    }
  }

  lemma FinishOrdered(s: Core, s': Core, t: TxnId, k: Key, x: TxnId)
    requires s'.commits == s.commits || s'.commits == s.commits + [x]
    requires CommitLog(s) && InstallsCommitted(s) && InstallOrder(s) && Unfinished(s, t, k)
    requires CommitOrdered(s'.commits, CellOf(s, k).installs)
    requires var h := CellOf(s, k).installs; var h' := CellOf(s', k).installs;
      |h'| == |h| + 1 && h'[..|h|] == h && h'[|h|].Made? && h'[|h|].txn == t
    ensures CommitOrdered(s'.commits, CellOf(s', k).installs)
  {
    hide CommitLog, InstallsCommitted, InstallOrder, Unfinished;
    var h := CellOf(s, k).installs;
    var h' := CellOf(s', k).installs;
    assert forall j :: 0 <= j < |h| ==> h'[j] == h[j];
    forall j | 0 <= j < |h| && h[j].Made? ensures Pos(s'.commits, h[j].txn) < Pos(s'.commits, t) {
      InstalledBefore(s, s', t, k, x, j);
    }
  }

  lemma InstalledBefore(s: Core, s': Core, t: TxnId, k: Key, x: TxnId, j: nat)
    requires s'.commits == s.commits || s'.commits == s.commits + [x]
    requires CommitLog(s) && InstallsCommitted(s) && InstallOrder(s) && Unfinished(s, t, k)
    requires j < |CellOf(s, k).installs| && CellOf(s, k).installs[j].Made?
    ensures Pos(s'.commits, CellOf(s, k).installs[j].txn) < Pos(s'.commits, t)
  {
    var w := CellOf(s, k).installs[j].txn;
    assert Installed(CellOf(s, k), w);
    LogGrows(s.commits, s'.commits, x, t);
    LogGrows(s.commits, s'.commits, x, w);
  }

  /** At most one committed MSET has a key still to finish: the holder. */
  lemma SoleUnfinished(s: Core, t: TxnId, u: TxnId, k: Key)
    requires CommandsComplete(s) && AckExact(s) && Holds(CellOf(s, k), t) && Unfinished(s, u, k)
    ensures u == t
  {
    CommittedHoldsAll(s, u, k);
  }

  /** FIN of a key by a committed holder keeps the invariant. */
  lemma FinishKeeps(s: Core, t: TxnId, k: Key)
    requires CoreInv(s) && CanFinish(s, t, k)
    ensures CoreInv(FinishStep(s, t, k))
  {
    FinishIsRel(s, t, k);
    FinishKeepsRel(s, FinishStep(s, t, k), t, k, Promoted(CellOf(s, k).entry.value));
  }

  lemma FinishKeepsRel(s: Core, s': Core, t: TxnId, k: Key, p: Option<TxnId>)
    requires CoreInv(s) && CanFinish(s, t, k) && p == Promoted(CellOf(s, k).entry.value)
    requires FinCellRel(s, s', t, k, p) && FinCountRel(s, s', p) && Shape(CellOf(s', k))
    ensures CoreInv(s')
  {
    FinishFacts(s, s', t, k, p);
    FinishKeepsCounts(s, s', t, k, p);
    FinishInstallOrder(s, s', t, k, p);
  }

  lemma FinishFacts(s: Core, s': Core, t: TxnId, k: Key, p: Option<TxnId>)
    requires CommandsSound(s) && CommandsComplete(s) && AckExact(s) && CanFinish(s, t, k)
    requires FinCellRel(s, s', t, k, p)
    ensures Unfinished(s, t, k) && (p.Some? ==> !Committed(s, p.value))
    ensures forall u :: Unfinished(s, u, k) ==> u == t
  {
    assert FinRoles(CellOf(s, k), CellOf(s', k), t, p, t);
    if p.Some? {
      WaiterUncommitted(s, k, p.value);
    }
    assert Pending(CellOf(s, k), t);
    forall u | Unfinished(s, u, k) ensures u == t {
      SoleUnfinished(s, t, u, k);
    }
  }

  lemma FinishKeepsCounts(s: Core, s': Core, t: TxnId, k: Key, p: Option<TxnId>)
    requires Shapes(s) && CommandsSound(s) && CommandsComplete(s) && InstallsCommitted(s)
    requires AckExact(s) && WaitOrder(s) && CommitLog(s)
    requires CellOf(s, k).entry.Some? && p == Promoted(CellOf(s, k).entry.value)
    requires Unfinished(s, t, k) && (p.Some? ==> !Committed(s, p.value))
    requires FinCellRel(s, s', t, k, p) && FinCountRel(s, s', p) && Shape(CellOf(s', k))
    ensures Shapes(s') && CommandsSound(s') && CommandsComplete(s') && InstallsCommitted(s')
    ensures AckExact(s') && WaitOrder(s') && CommitLog(s')
  {
    FinishSound(s, s', t, k, p);
    FinishComplete(s, s', t, k, p);
    FinishInstalls(s, s', t, k, p);
    forall u | u in s'.msets ensures AckExactFor(s', u) {
      FinishAckFor(s, s', t, k, p, u);
    }
    FinishWaits(s, s', t, k, p);
    FinishLog(s, s', p);
  }

  // ---------------------------------------------------------------- start, dispatch and reads

  ghost predicate StartCell(c: Cell) {
    c == Fresh(c.initial) && (c.initial.Some? ==> c.initial.value.Loaded?)
  }

  lemma StartRoles(s: Core)
    requires s.msets == map[] && s.commits == [] && s.replies == [] && (forall k :: StartCell(CellOf(s, k)))
    ensures CoreInv(s)
  {
    forall k ensures Shape(CellOf(s, k)) {
      assert StartCell(CellOf(s, k));
    }
    forall k, t ensures !Pending(CellOf(s, k), t) && !Waits(CellOf(s, k), t) && !Installed(CellOf(s, k), t) {
      assert StartCell(CellOf(s, k));
    }
    assert forall k :: CellOf(s, k).installs == [];
  }

  lemma StartHolds(s: Core)
    requires Start(s)
    ensures CoreInv(s)
  {
    forall k ensures StartCell(CellOf(s, k)) {
    }
    StartRoles(s);
  }

  /** `s'` differs from `s` by MSETs that have prepared nothing; nobody's role has changed. */
  ghost predicate Extends(s: Core, s': Core) {
    && s'.commits == s.commits
    && (forall u :: u in s.msets ==> u in s'.msets && s'.msets[u] == s.msets[u])
    && (forall u :: u in s'.msets && u !in s.msets ==> Blank(s'.msets[u]))
    && SameInstalls(s, s')
    && (forall k, u :: Holds(CellOf(s', k), u) == Holds(CellOf(s, k), u))
    && (forall k, u :: Waits(CellOf(s', k), u) == Waits(CellOf(s, k), u))
  }

  predicate Blank(m: Mset) {
    m.left == Upto(|m.pairs|) && m.ack == 0 && |m.pairs| > 0
  }

  lemma BlankMset(s: Core, s': Core, u: TxnId, k: Key)
    requires Extends(s, s') && u in s'.msets && u !in s.msets
    ensures PreparedAt(s'.msets[u], k) == {} && !Committed(s', u)
  {
  }

  lemma ExtendsCommands(s: Core, s': Core)
    requires Extends(s, s') && CommandsSound(s) && CommandsComplete(s)
    ensures CommandsSound(s') && CommandsComplete(s')
  {
    forall k, u | Pending(CellOf(s', k), u) ensures u in s'.msets && PreparedAt(s'.msets[u], k) != {} {
      assert Pending(CellOf(s, k), u);
    }
    forall k, u | u in s'.msets && PreparedAt(s'.msets[u], k) != {}
      ensures Pending(CellOf(s', k), u) || Installed(CellOf(s', k), u)
    {
      if u !in s.msets { BlankMset(s, s', u, k); }
      assert Pending(CellOf(s, k), u) || Installed(CellOf(s, k), u);
    }
  }

  lemma ExtendsCommitted(s: Core, s': Core, u: TxnId)
    requires Extends(s, s')
    ensures Committed(s', u) == Committed(s, u)
  {
  }

  lemma ExtendsAcks(s: Core, s': Core)
    requires Extends(s, s') && AckExact(s) && CommandsSound(s)
    ensures AckExact(s')
  {
    hide AckExactFor, Waits, CommandsSound;
    forall u | u in s'.msets ensures AckExactFor(s', u) {
      if u in s.msets {
        ExtendsAckOld(s, s', u);
      } else {
        forall k ensures !Waits(CellOf(s', k), u) {
          NewcomerWaitsNowhere(s, u, k);
        }
        ExtendsAckNew(s', u);
      }
    }
  }

  lemma NewcomerWaitsNowhere(s: Core, u: TxnId, k: Key)
    requires CommandsSound(s) && u !in s.msets
    ensures !Waits(CellOf(s, k), u)
  {
    assert !Pending(CellOf(s, k), u);
  }

  lemma ExtendsAckOld(s: Core, s': Core, u: TxnId)
    requires Extends(s, s') && u in s.msets && AckExactFor(s, u)
    ensures AckExactFor(s', u)
  {
    assert WaitKeys(s', u) == WaitKeys(s, u);
  }

  lemma ExtendsAckNew(s': Core, u: TxnId)
    requires u in s'.msets && Blank(s'.msets[u]) && forall k :: !Waits(CellOf(s', k), u)
    ensures AckExactFor(s', u)
  {
    assert WaitKeys(s', u) == {};
  }

  lemma ExtendsInstalled(s: Core, s': Core, k: Key, u: TxnId)
    requires SameInstalls(s, s')
    ensures Installed(CellOf(s', k), u) == Installed(CellOf(s, k), u)
  {
    assert CellOf(s', k).installs == CellOf(s, k).installs;
  }

  lemma ExtendsLog(s: Core, s': Core)
    requires Extends(s, s') && CommitLog(s)
    ensures CommitLog(s')
  {
    hide Extends, Committed;
    SameCommits(s, s');
    forall u ensures Committed(s', u) == Committed(s, u) { ExtendsCommitted(s, s', u); }
  }

  lemma SameCommits(s: Core, s': Core)
    requires Extends(s, s')
    ensures s'.commits == s.commits && SameInstalls(s, s')
  {
  }

  lemma ExtendsInstallsCommitted(s: Core, s': Core)
    requires Extends(s, s') && InstallsCommitted(s)
    ensures InstallsCommitted(s')
  {
    hide Installed;
    forall k, u | Installed(CellOf(s', k), u) ensures Committed(s', u) && k in KeysOf(s'.msets[u]) {
      ExtendsInstalled(s, s', k, u);
      ExtendsCommitted(s, s', u);
    }
  }

  lemma ExtendsUnfinished(s: Core, s': Core, u: TxnId, k: Key)
    requires Extends(s, s') && Unfinished(s', u, k)
    ensures Unfinished(s, u, k)
  {
    ExtendsCommitted(s, s', u);
    ExtendsInstalled(s, s', k, u);
  }

  lemma ExtendsInstallOrder(s: Core, s': Core)
    requires Extends(s, s') && InstallOrder(s)
    ensures InstallOrder(s')
  {
    hide Extends, Installed, Unfinished, CommitOrdered, SameInstalls;
    SameCommits(s, s');
    forall k, t, u | Installed(CellOf(s', k), t) && Unfinished(s', u, k)
      ensures Pos(s'.commits, t) < Pos(s'.commits, u)
    {
      ExtendsInstalled(s, s', k, t);
      ExtendsUnfinished(s, s', u, k);
    }
    forall k ensures CommitOrdered(s'.commits, CellOf(s', k).installs) {
      assert CommitOrdered(s.commits, CellOf(s, k).installs);
      InstallsOf(s, s', k);
    }
  }

  lemma InstallsOf(s: Core, s': Core, k: Key)
    requires SameInstalls(s, s')
    ensures CellOf(s', k).installs == CellOf(s, k).installs
  {
  }

  lemma ExtendsOrder(s: Core, s': Core)
    requires Extends(s, s') && CommitLog(s) && InstallsCommitted(s) && InstallOrder(s)
    ensures CommitLog(s') && InstallsCommitted(s') && InstallOrder(s')
  {
    hide Extends, CommitLog, InstallsCommitted, InstallOrder;
    ExtendsLog(s, s');
    ExtendsInstallsCommitted(s, s');
    ExtendsInstallOrder(s, s');
  }

  lemma ExtendsWaits(s: Core, s': Core)
    requires Extends(s, s') && WaitOrder(s)
    ensures WaitOrder(s')
  {
    forall k, u | Waits(CellOf(s', k), u)
      ensures Committed(s', CellOf(s', k).entry.value.holder.txn) || Older(CellOf(s', k).entry.value.holder.txn, u)
    {
      var h := CellOf(s', k).entry.value.holder.txn;
      assert Holds(CellOf(s', k), h) && Holds(CellOf(s, k), h);
      ExtendsCommitted(s, s', h);
    }
  }

  lemma ExtendsKeeps(s: Core, s': Core)
    requires CoreInv(s) && Extends(s, s') && Shapes(s')
    ensures CoreInv(s')
  {
    ExtendsCommands(s, s');
    ExtendsAcks(s, s');
    ExtendsOrder(s, s');
    ExtendsWaits(s, s');
  }

  lemma BeginKeeps(s: Core, t: TxnId, coord: nat, pairs: seq<(Key, Value)>)
    requires CoreInv(s) && CanBegin(s, t, pairs)
    ensures CoreInv(Begin(s, t, coord, pairs))
  {
    BeginExtends(s, t, coord, pairs);
    assert forall k :: CellOf(Begin(s, t, coord, pairs), k) == CellOf(s, k);
    ExtendsKeeps(s, Begin(s, t, coord, pairs));
  }

  lemma BeginExtends(s: Core, t: TxnId, coord: nat, pairs: seq<(Key, Value)>)
    requires CanBegin(s, t, pairs)
    ensures Extends(s, Begin(s, t, coord, pairs))
  {
    var s' := Begin(s, t, coord, pairs);
    assert forall k :: CellOf(s', k) == CellOf(s, k);
  }

  lemma ReadKeeps(s: Core, k: Key, r: Read)
    requires CoreInv(s)
    ensures CoreInv(ReadStep(s, k, r))
  {
    var c := CellOf(s, k);
    assert Shape(c);
    if Deferred(c) {
      DeferKeeps(c, r);
      DeferredKeeps(s, SetCell(s, k, Defer(c, r)), k);
    } else {
      AnsweredKeeps(s, k, r);
    }
  }

  lemma DeferredKeeps(s: Core, s': Core, k: Key)
    requires CoreInv(s) && s' == SetCell(s, k, CellOf(s', k)) && Shape(CellOf(s', k))
    requires forall u :: Holds(CellOf(s', k), u) == Holds(CellOf(s, k), u)
    requires forall u :: Waits(CellOf(s', k), u) == Waits(CellOf(s, k), u)
    requires CellOf(s', k).installs == CellOf(s, k).installs && CellOf(s', k).initial == CellOf(s, k).initial
    ensures CoreInv(s')
  {
    hide CommandsSound, CommandsComplete, InstallsCommitted, AckExact, WaitOrder, CommitLog, InstallOrder, Extends;
    DeferredExtends(s, s', k);
    assert forall k' :: k' != k ==> CellOf(s', k') == CellOf(s, k');
    ExtendsKeeps(s, s');
  }

  lemma DeferredExtends(s: Core, s': Core, k: Key)
    requires s' == SetCell(s, k, CellOf(s', k))
    requires forall u :: Holds(CellOf(s', k), u) == Holds(CellOf(s, k), u)
    requires forall u :: Waits(CellOf(s', k), u) == Waits(CellOf(s, k), u)
    requires CellOf(s', k).installs == CellOf(s, k).installs && CellOf(s', k).initial == CellOf(s, k).initial
    ensures Extends(s, s') && SameInstalls(s, s')
  {
    assert forall k' :: k' != k ==> CellOf(s', k') == CellOf(s, k');
  }

  lemma AnsweredKeeps(s: Core, k: Key, r: Read)
    requires CoreInv(s) && !Deferred(CellOf(s, k))
    ensures CoreInv(s.(replies := s.replies + [(k, Reply(r, CellOf(s, k).table))]))
  {
    hide CommandsSound, CommandsComplete, InstallsCommitted, AckExact, WaitOrder, CommitLog, InstallOrder;
    var s' := s.(replies := s.replies + [(k, Reply(r, CellOf(s, k).table))]);
    assert forall k' :: CellOf(s', k') == CellOf(s, k');
    ExtendsKeeps(s, s');
  }
}
