/**
 * Deadlock freedom: waiting goes from younger to older transactions, so as long as an MSET is
 * unanswered the engine itself can take a step, and when it cannot, every MSET is answered.
 */
module MsetProgress {
  import opened Txn
  import opened KeyCell
  import opened MsetCore
  import opened MsetCoreLaws
  import opened MsetValues
  import opened MsetEngine
  import opened MsetLine
  import opened MsetTasks
  import opened MsetFin
  import opened MsetAdmission
  import opened MsetInvariant

  /** Nothing under way between shards and nothing running on any of them. */
  ghost predicate Quiet(cfg: Config, e: Engine) {
    e.net == [] && forall s: nat :: s < cfg.shards ==> Free(e, s)
  }

  /** Some step of the engine's own is possible, early commit not being needed for it. */
  ghost predicate Moves(cfg: Config, home: nat -> nat, e: Engine) {
    exists ev :: !FromClient(ev) && !ev.EarlyCommit? && Enabled(cfg, home, e, ev)
  }

  // ---------------------------------------------------------------- a busy shard moves

  lemma TaskMoves(cfg: Config, home: nat -> nat, e: Engine, s: nat, t: TxnId)
    requires Layout(cfg, e) && TaskInv(cfg, e.core, e.tasks, e.net) && |e.inflight| == cfg.shards
    requires Running(e.tasks, s, t)
    ensures Moves(cfg, home, e)
  {
    assert HasTask(e, s, t);
    if e.tasks[s][t].unsent != {} {
      var dst :| dst in e.tasks[s][t].unsent;
      assert Enabled(cfg, home, e, SendFin(s, t, dst));
    } else if LocalKeys(cfg, e.core, t, s) != {} {
      var k :| k in LocalKeys(cfg, e.core, t, s);
      assert Enabled(cfg, home, e, FinishOne(s, t, k));
    } else {
      assert Enabled(cfg, home, e, Tally(s, t));
    }
  }

  lemma {:induction false} LeastOf(xs: set<nat>) returns (least: nat)
    requires xs != {}
    ensures least in xs && forall x :: x in xs ==> least <= x
    decreases xs
  {
    least :| least in xs;
    var below := set x | x in xs && x < least;
    if below != {} {
      least := LeastOf(below);
    }
    assert forall x :: x in xs && x !in below ==> least <= x;
  }

  lemma LoopMoves(cfg: Config, home: nat -> nat, e: Engine, s: nat)
    requires Busy(e, s) && !e.work[s].Idle? && (e.work[s].Preparing? ==> e.work[s].t in e.core.msets)
    ensures Moves(cfg, home, e)
  {
    match e.work[s]
    case Reading(k, r) => assert Enabled(cfg, home, e, Conclude(s));
    case Preparing(t, unsent) =>
      var left := LeftAt(cfg, e.core.msets[t], s);
      if left != {} {
        var i := LeastOf(left);
        assert Enabled(cfg, home, e, PrepareNext(s, i));
      } else if unsent != {} {
        var dst :| dst in unsent;
        assert Enabled(cfg, home, e, SendBatch(s, dst));
      } else {
        assert Enabled(cfg, home, e, LoopExit(s));
      }
  }

  lemma LoopKnown(cfg: Config, e: Engine, s: nat)
    requires LineInv(cfg, PlanOf(e.core), LoopsOf(e.work), LaneOf(e.net)) && s < |e.work| && e.work[s].Preparing?
    ensures e.work[s].t in e.core.msets
  {
    assert LoopsOf(e.work)[s] == e.work[s];
    assert e.work[s].t in PlanOf(e.core);
  }

  lemma BusyMoves(cfg: Config, home: nat -> nat, e: Engine, s: nat)
    requires EngInv(cfg, home, e) && s < cfg.shards && !Free(e, s)
    ensures Moves(cfg, home, e)
  {
    hide CoreInv, Values, LineInv, FinInv, OkInv, Moves;
    assert |e.tasks| == cfg.shards;
    if e.tasks[s] != map[] {
      var t :| t in e.tasks[s];
      TaskMoves(cfg, home, e, s, t);
    } else {
      if e.work[s].Preparing? {
        LoopKnown(cfg, e, s);
      }
      LoopMoves(cfg, home, e, s);
    }
  }

  lemma NetMoves(cfg: Config, home: nat -> nat, e: Engine)
    requires EngInv(cfg, home, e) && e.net != []
    ensures Moves(cfg, home, e)
  {
    hide CoreInv, Values, LineInv, FinInv, OkInv;
    var p := e.net[0];
    assert p in e.net;
    if Free(e, p.dst) {
      assert p.msg.t in e.core.msets;
      assert Enabled(cfg, home, e, Deliver(0));
    } else {
      BusyMoves(cfg, home, e, p.dst);
    }
  }

  // ---------------------------------------------------------------- a quiet engine is done

  lemma QuietLeft(cfg: Config, e: Engine, t: TxnId, s: nat)
    requires Layout(cfg, e) && Quiet(cfg, e) && LineInv(cfg, PlanOf(e.core), LoopsOf(e.work), LaneOf(e.net))
    requires t in e.core.msets
    ensures LeftAt(cfg, PlanOf(e.core)[t], s) == {}
  {
    var loops := LoopsOf(e.work);
    assert LaneOf(e.net) == [];
    forall r: nat, u ensures !Looping(loops, r, u) {
      assert r < |e.work| ==> Free(e, r);
    }
    assert !Coming(PlanOf(e.core), loops, LaneOf(e.net), t, s);
  }

  lemma QuietPrepared(cfg: Config, e: Engine, t: TxnId)
    requires Layout(cfg, e) && Quiet(cfg, e) && LineInv(cfg, PlanOf(e.core), LoopsOf(e.work), LaneOf(e.net))
    requires t in e.core.msets && e.core.msets[t].left <= Upto(|e.core.msets[t].pairs|)
    ensures e.core.msets[t].left == {}
  {
    hide LineInv, Quiet;
    var m := e.core.msets[t];
    forall i ensures i !in m.left {
      if 0 <= i < |m.pairs| {
        QuietLeft(cfg, e, t, cfg.route(m.pairs[i].0));
        assert PlanOf(e.core)[t].left == m.left && PlanOf(e.core)[t].pairs == m.pairs;
      }
    }
  }

  /** In a quiet engine FIN has reached every key of every committed MSET. */
  lemma QuietFinished(cfg: Config, e: Engine, t: TxnId, k: Key)
    requires Layout(cfg, e) && Quiet(cfg, e) && TaskInv(cfg, e.core, e.tasks, e.net) && Committed(e.core, t)
    requires k in KeysOf(e.core.msets[t])
    ensures !Holds(CellOf(e.core, k), t)
  {
    var s := cfg.route(k);
    assert forall r: nat, u :: !Running(e.tasks, r, u) by {
      forall r: nat, u ensures !Running(e.tasks, r, u) {
        assert r < |e.tasks| ==> Free(e, r);
      }
    }
    assert LocalKeys(cfg, e.core, t, s) == {};
    assert k !in LocalKeys(cfg, e.core, t, s);
  }

  /** In a quiet engine every MSET has committed: the oldest one cannot be waiting for anybody. */
  lemma QuietCommitted(cfg: Config, home: nat -> nat, e: Engine, t: TxnId)
    requires EngInv(cfg, home, e) && Quiet(cfg, e) && t in e.core.msets
    ensures Committed(e.core, t)
  {
    hide EngInv, Quiet;
    var stuck := set u | u in e.core.msets && !Committed(e.core, u);
    if stuck != {} {
      var u := OldestExists(stuck);
      QuietOldest(cfg, home, e, u);
    }
    assert t !in stuck;
  }

  lemma QuietOldest(cfg: Config, home: nat -> nat, e: Engine, u: TxnId)
    requires EngInv(cfg, home, e) && Quiet(cfg, e) && u in e.core.msets
    requires forall w :: w in e.core.msets && !Committed(e.core, w) && w != u ==> Older(u, w)
    ensures Committed(e.core, u)
  {
    hide Values, LineInv, TaskInv, FinInv, OkInv, AdmInv, Layout, Quiet;
    assert AckExactFor(e.core, u);
    QuietPrepared(cfg, e, u);
    forall k ensures k !in WaitKeys(e.core, u) {
      QuietNoWait(cfg, home, e, u, k);
    }
    assert WaitKeys(e.core, u) == {};
  }

  lemma QuietNoWait(cfg: Config, home: nat -> nat, e: Engine, u: TxnId, k: Key)
    requires EngInv(cfg, home, e) && Quiet(cfg, e)
    requires forall w :: w in e.core.msets && !Committed(e.core, w) && w != u ==> Older(u, w)
    ensures !Waits(CellOf(e.core, k), u)
  {
    hide Values, LineInv, TaskInv, FinInv, OkInv, AdmInv, Layout, Quiet;
    if Waits(CellOf(e.core, k), u) {
      var h := CellOf(e.core, k).entry.value.holder.txn;
      HolderIsOlder(e.core, k, u, h);
      OlderIsStrictTotalOrder(u, h, u);
      if Committed(e.core, h) {
        QuietFinished(cfg, e, h, k);
      }
    }
  }

  lemma HolderIsOlder(core: Core, k: Key, u: TxnId, h: TxnId)
    requires CommandsSound(core) && WaitOrder(core) && Waits(CellOf(core, k), u)
    requires Holds(CellOf(core, k), h)
    ensures h in core.msets && k in KeysOf(core.msets[h])
    ensures Committed(core, h) || Older(h, u)
  {
    assert Pending(CellOf(core, k), h);
    var i :| i in PreparedAt(core.msets[h], k);
  }

  /** In a quiet engine every MSET is answered, exactly once, and holds no lock. */
  lemma QuietIsDone(cfg: Config, home: nat -> nat, e: Engine, t: TxnId)
    requires EngInv(cfg, home, e) && Quiet(cfg, e) && t in e.core.msets
    ensures t in e.ledger && e.ledger[t].oks == 1
    ensures forall k :: k in KeysOf(e.core.msets[t]) ==> Installed(CellOf(e.core, k), t)
  {
    QuietCommitted(cfg, home, e, t);
    forall k | k in KeysOf(e.core.msets[t]) ensures Installed(CellOf(e.core, k), t) {
      QuietInstalled(cfg, home, e, t, k);
    }
    QuietAnswered(cfg, home, e, t);
  }

  lemma QuietInstalled(cfg: Config, home: nat -> nat, e: Engine, t: TxnId, k: Key)
    requires EngInv(cfg, home, e) && Quiet(cfg, e) && Committed(e.core, t) && k in KeysOf(e.core.msets[t])
    ensures Installed(CellOf(e.core, k), t)
  {
    hide Values, LineInv, TaskInv, FinInv, OkInv, AdmInv, Layout, Quiet;
    CommittedHoldsAll(e.core, t, k);
    QuietFinished(cfg, e, t, k);
  }

  lemma QuietAnswered(cfg: Config, home: nat -> nat, e: Engine, t: TxnId)
    requires EngInv(cfg, home, e) && Quiet(cfg, e) && t in e.core.msets
    requires forall k :: k in KeysOf(e.core.msets[t]) ==> Installed(CellOf(e.core, k), t)
    ensures t in e.ledger && e.ledger[t].oks == 1
  {
    hide CoreInv, Values, LineInv, TaskInv, FinInv, AdmInv;
    forall s: nat ensures !Running(e.tasks, s, t) {
      TaskShards(cfg, e);
      assert s < |e.tasks| ==> Free(e, s);
    }
    forall i: nat | i < |e.core.msets[t].pairs| ensures PairInstalled(e.core, t, i) {
      assert e.core.msets[t].pairs[i].0 in KeysOf(e.core.msets[t]);
    }
    InstalledMeansComplete(cfg, e.core, e.tasks, e.ledger, t);
  }

  lemma TaskShards(cfg: Config, e: Engine)
    requires TaskInv(cfg, e.core, e.tasks, e.net)
    ensures |e.tasks| == cfg.shards
  {
  }

  // ---------------------------------------------------------------- progress

  /** As long as an MSET is unanswered or waits for admission, the engine can move on its own. */
  lemma DeadlockFree(cfg: Config, home: nat -> nat, e: Engine)
    requires EngInv(cfg, home, e) && cfg.limit > 0
    requires (exists t :: t in e.ledger && e.ledger[t].oks == 0)
             || (exists c: nat :: c < |e.waiting| && e.waiting[c] != [])
    ensures Moves(cfg, home, e)
  {
    hide CoreInv, Values, LineInv, TaskInv, FinInv, OkInv, AdmInv, Moves;
    if e.net != [] {
      NetMoves(cfg, home, e);
    } else if s: nat :| s < cfg.shards && !Free(e, s) {
      BusyMoves(cfg, home, e, s);
    } else {
      assert Quiet(cfg, e);
      forall t | t in e.ledger ensures e.ledger[t].oks == 1 {
        QuietIsDone(cfg, home, e, t);
      }
      var c: nat :| c < |e.waiting| && e.waiting[c] != [];
      ResumeMoves(cfg, home, e, c);
    }
  }

  lemma ResumeMoves(cfg: Config, home: nat -> nat, e: Engine, c: nat)
    requires EngInv(cfg, home, e) && Quiet(cfg, e) && cfg.limit > 0
    requires forall t :: t in e.ledger ==> e.ledger[t].oks == 1
    requires c < |e.waiting| && e.waiting[c] != []
    ensures Moves(cfg, home, e)
  {
    hide CoreInv, Values, LineInv, TaskInv, FinInv, OkInv;
    assert Live(e.core.msets, e.ledger, c) == {};
    assert Enabled(cfg, home, e, Resume(c, e.clock));
  }
}
