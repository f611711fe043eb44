/** The invariant of the whole engine and its preservation by every event. */
module MsetInvariant {
  import opened Options
  import opened Txn
  import opened KeyCell
  import opened KeyCellLaws
  import opened MsetCore
  import opened MsetCoreLaws
  import opened MsetValues
  import opened MsetEngine
  import opened MsetLine
  import opened MsetTasks
  import opened MsetFin
  import opened MsetAdmission

  ghost predicate Layout(cfg: Config, e: Engine) {
    && Routes(cfg) && |e.work| == cfg.shards && e.ledger.Keys == e.core.msets.Keys
    && (forall s :: 0 <= s < |e.work| && e.work[s].Reading? ==> cfg.route(e.work[s].k) == s)
  }

  ghost predicate EngInv(cfg: Config, home: nat -> nat, e: Engine) {
    && Layout(cfg, e)
    && CoreInv(e.core) && Values(e.core)
    && LineInv(cfg, PlanOf(e.core), LoopsOf(e.work), LaneOf(e.net))
    && TaskInv(cfg, e.core, e.tasks, e.net)
    && FinInv(cfg, e.core, e.tasks, e.ledger)
    && OkInv(e.core, e.ledger, e.net)
    && AdmInv(cfg, home, e.core.msets, e.ledger, e.inflight, e.waiting, e.clock)
  }

  lemma BootHolds(cfg: Config, home: nat -> nat, e: Engine)
    requires Boot(cfg, e) && Routes(cfg)
    ensures EngInv(cfg, home, e)
  {
    StartHolds(e.core);
    assert forall s: nat, t :: !Running(e.tasks, s, t);
    assert forall c: nat :: Live(e.core.msets, e.ledger, c) == {};
    assert PlanOf(e.core) == map[];
    assert LaneOf(e.net) == [];
    assert forall s: nat, t :: !Looping(LoopsOf(e.work), s, t);
    assert forall t, s: nat :: !Coming(PlanOf(e.core), LoopsOf(e.work), LaneOf(e.net), t, s);
  }

  // ---------------------------------------------------------------- parts of the invariant

  lemma CoordBound(cfg: Config, home: nat -> nat, e: Engine, t: TxnId)
    requires AdmInv(cfg, home, e.core.msets, e.ledger, e.inflight, e.waiting, e.clock) && t in e.core.msets
    ensures e.core.msets[t].coord < cfg.shards == |e.inflight|
  {
  }

  lemma TaskCommitted(cfg: Config, e: Engine, s: nat, t: TxnId)
    requires TaskInv(cfg, e.core, e.tasks, e.net) && Running(e.tasks, s, t)
    ensures Committed(e.core, t) && e.tasks[s][t].unsent <= Upto(cfg.shards) && s < cfg.shards
  {
  }

  lemma PacketSound(cfg: Config, e: Engine, p: Packet)
    requires TaskInv(cfg, e.core, e.tasks, e.net) && p in e.net
    ensures NetSound(cfg, e.core, [p])
  {
  }

  // ---------------------------------------------------------------- FIN starts where it must

  /** Everything about `e` with its core replaced by `core'`, FIN of a newly committed `t` not yet started. */
  ghost predicate AlmostInv(cfg: Config, home: nat -> nat, e: Engine, core': Core, t: TxnId) {
    && Routes(cfg) && |e.work| == cfg.shards && e.ledger.Keys == core'.msets.Keys
    && (forall s :: 0 <= s < |e.work| && e.work[s].Reading? ==> cfg.route(e.work[s].k) == s)
    && CoreInv(core') && Values(core')
    && LineInv(cfg, PlanOf(core'), LoopsOf(e.work), LaneOf(e.net))
    && TasksSound(cfg, core', e.tasks) && NetSound(cfg, core', e.net) && AllDriven(cfg, core', e.tasks, e.net, Some(t))
    && FinInv(cfg, core', e.tasks, e.ledger)
    && OkInv(core', e.ledger, e.net)
    && AdmInv(cfg, home, core'.msets, e.ledger, e.inflight, e.waiting, e.clock)
  }

  lemma AdvanceKeeps(cfg: Config, home: nat -> nat, e: Engine, core': Core, s: nat, t: TxnId)
    requires AlmostInv(cfg, home, e, core', t) && t in core'.msets && s < cfg.shards
    requires Committed(e.core, t) ==> AllDriven(cfg, core', e.tasks, e.net, None)
    requires !Committed(e.core, t) ==> !Running(e.tasks, s, t)
    ensures EngInv(cfg, home, Advance(cfg, e, core', s, t))
  {
    var e1 := e.(core := core');
    if Committed(core', t) && !Committed(e.core, t) {
      TaskReady(cfg, e1, s, t);
      ReadyKeeps(cfg, e1, s, t);
    } else {
      assert AllDriven(cfg, core', e.tasks, e.net, None);
    }
  }

  lemma ReadyKeeps(cfg: Config, e: Engine, s: nat, t: TxnId)
    requires FinInv(cfg, e.core, e.tasks, e.ledger) && OkInv(e.core, e.ledger, e.net)
    requires t in e.core.msets && s < |e.tasks| && !Running(e.tasks, s, t)
    ensures var e' := Ready(cfg, e, s, t);
      && FinInv(cfg, e'.core, e'.tasks, e'.ledger) && OkInv(e'.core, e'.ledger, e'.net)
      && LaneOf(e'.net) == LaneOf(e.net) && e' == e.(tasks := e'.tasks, net := e'.net)
  {
    var e' := Ready(cfg, e, s, t);
    if e.core.msets[t].coord == s {
      assert SameOpen(e.tasks, e'.tasks);
      FinSameOpen(cfg, e.core, e.tasks, e'.tasks, e.ledger);
    } else {
      var p := Packet(s, e.core.msets[t].coord, Ack(t));
      OkSend(e.core, e.ledger, e.net, p);
      LaneOther(e.net, p);
    }
  }

  // ---------------------------------------------------------------- PREPARE

  lemma PrepareAdvances(cfg: Config, core: Core, core': Core, t: TxnId, i: nat, d: Decision, v: TxnId)
    requires CountRel(core, core', t, i, d, v) && CellRel(core, core', t, PrepareKey(core, t, i), d)
    requires !Committed(core, t)
    ensures CoreAdvances(cfg, core, core', Some(t))
    ensures SameIdentity(core.msets, core'.msets) && PairsKept(core, core')
    ensures PlanOf(core') == PlanOf(core)[t := PlanOf(core)[t].(left := PlanOf(core)[t].left - {i})]
  {
    forall u | Committed(core, u) ensures Committed(core', u) {
      CommittedStays(core, core', t, i, d, v, u);
    }
    forall u, s: nat | Committed(core, u) && u in core'.msets && Some(t) != Some(u)
      ensures LocalKeys(cfg, core', u, s) <= LocalKeys(cfg, core, u, s)
    {
      PrepareLocal(cfg, core, core', t, i, d, v, u, s);
    }
  }

  lemma PrepareLocal(cfg: Config, core: Core, core': Core, t: TxnId, i: nat, d: Decision, v: TxnId, u: TxnId, s: nat)
    requires CountRel(core, core', t, i, d, v) && CellRel(core, core', t, PrepareKey(core, t, i), d)
    requires u != t && u in core.msets
    ensures LocalKeys(cfg, core', u, s) <= LocalKeys(cfg, core, u, s)
  {
    var k := PrepareKey(core, t, i);
    assert Roles(CellOf(core, k), CellOf(core', k), t, d, u);
    PrepareSets(core, core', t, i, d, v, u, k);
  }

  /** The next pair of a PREPARE loop respects the order of its connection. */
  lemma NextInOrder(cfg: Config, home: nat -> nat, e: Engine, s: nat, i: nat)
    requires Layout(cfg, e) && LineInv(cfg, PlanOf(e.core), LoopsOf(e.work), LaneOf(e.net))
    requires Identities(cfg, home, e.core.msets, e.clock) && CanPrepareNext(cfg, e, s, i)
    ensures CanPrepare(e.core, e.work[s].t, i) && InKeyOrder(e.core, e.work[s].t, i)
    ensures ConnOrder(e.core, cfg, e.work[s].t, i)
  {
    var t := e.work[s].t;
    var m := e.core.msets[t];
    assert CanPrepare(e.core, t, i);
    forall j | 0 <= j < |m.pairs| && m.pairs[j].0 == PrepareKey(e.core, t, i) && j in m.left ensures i <= j {
      assert j in LeftAt(cfg, m, s);
    }
    forall v, j | v in e.core.msets && v.conn == t.conn && Older(t, v)
                  && 0 <= j < |e.core.msets[v].pairs|
                  && cfg.route(e.core.msets[v].pairs[j].0) == cfg.route(PrepareKey(e.core, t, i))
      ensures j in e.core.msets[v].left
    {
      OlderIsStrictTotalOrder(t, v, t);
      if j !in e.core.msets[v].left {
        StartedIsOlder(cfg, home, e, s, v, j);
      }
    }
  }

  /** On the shard of a running loop, nothing of the same connection is ahead of it. */
  lemma StartedIsOlder(cfg: Config, home: nat -> nat, e: Engine, s: nat, v: TxnId, j: nat)
    requires s < |e.work| && e.work[s].Preparing? && e.work[s].t in e.core.msets
    requires LineInv(cfg, PlanOf(e.core), LoopsOf(e.work), LaneOf(e.net))
             && Identities(cfg, home, e.core.msets, e.clock)
    requires v in e.core.msets && v.conn == e.work[s].t.conn && j < |e.core.msets[v].pairs|
    requires cfg.route(e.core.msets[v].pairs[j].0) == s && j !in e.core.msets[v].left
    ensures v == e.work[s].t || Older(v, e.work[s].t)
  {
    var t := e.work[s].t;
    var plan := PlanOf(e.core);
    assert plan[v].pairs == e.core.msets[v].pairs && plan[v].left == e.core.msets[v].left;
    assert Started(cfg, plan[v], s);
    assert Looping(LoopsOf(e.work), s, t);
    assert plan[v].no <= plan[t].no;
  }

  lemma PrepareNextKeeps(cfg: Config, home: nat -> nat, e: Engine, s: nat, i: nat)
    requires EngInv(cfg, home, e) && CanPrepareNext(cfg, e, s, i)
    ensures EngInv(cfg, home, PreparePair(cfg, e, s, i))
  {
    var t := e.work[s].t;
    var core' := PrepareStep(e.core, cfg.shards, t, i);
    NextInOrder(cfg, home, e, s, i);
    PrepareKeeps(e.core, cfg, t, i);
    PrepareValues(e.core, cfg, t, i);
    UnpreparedIsUncommitted(e.core, t, i, PrepareKey(e.core, t, i));
    PrepareIsRel(e.core, cfg.shards, t, i);
    PrepareAlmost(cfg, home, e, core', s, t, i, DecisionOf(e.core, t, i),
                  HolderOf(CellOf(e.core, PrepareKey(e.core, t, i)), t));
    AdvanceKeeps(cfg, home, e, core', s, t);
  }

  lemma PrepareAlmost(cfg: Config, home: nat -> nat, e: Engine, core': Core, s: nat, t: TxnId, i: nat, d: Decision,
                      v: TxnId)
    requires EngInv(cfg, home, e) && CanPrepareNext(cfg, e, s, i) && t == e.work[s].t && !Committed(e.core, t)
    requires CountRel(e.core, core', t, i, d, v) && CellRel(e.core, core', t, PrepareKey(e.core, t, i), d)
    requires CoreInv(core') && Values(core')
    ensures AlmostInv(cfg, home, e, core', t) && !Running(e.tasks, s, t)
  {
    PrepareAdvances(cfg, e.core, core', t, i, d, v);
    TaskAdvance(cfg, e.core, core', e.tasks, e.net, Some(t));
    PrepareSameInstalls(e.core, core', t, PrepareKey(e.core, t, i), d);
    FinQuiet(cfg, e.core, core', e.tasks, e.ledger, Some(t));
    OkSameMsets(e.core, core', e.ledger, e.net);
    AdmSame(cfg, home, e.core.msets, core'.msets, e.ledger, e.ledger, e.inflight, e.waiting, e.clock);
    LinePrepare(cfg, PlanOf(e.core), PlanOf(core'), LoopsOf(e.work), LaneOf(e.net), s, t, i);
  }

  // ---------------------------------------------------------------- FIN of one key

  lemma FinishAdvances(cfg: Config, core: Core, core': Core, t: TxnId, k: Key, p: Option<TxnId>)
    requires FinCellRel(core, core', t, k, p) && FinCountRel(core, core', p) && (p.Some? ==> !Committed(core, p.value))
    ensures CoreAdvances(cfg, core, core', p) && Installs(core, core', t, k)
    ensures SameIdentity(core.msets, core'.msets) && PlanOf(core') == PlanOf(core)
  {
    forall u | Committed(core, u) ensures Committed(core', u) {
      FinishCommitted(core, core', p, u);
    }
    forall u | Committed(core', u) && p != Some(u) ensures Committed(core, u) {
      FinishCommitted(core, core', p, u);
    }
    forall u, s: nat | Committed(core, u) && u in core'.msets && p != Some(u)
      ensures LocalKeys(cfg, core', u, s) <= LocalKeys(cfg, core, u, s)
    {
      FinishLocal(cfg, core, core', t, k, p, u, s);
    }
    forall u, k' ensures Installed(CellOf(core', k'), u) <==> Installed(CellOf(core, k'), u) || (u == t && k' == k) {
      assert FinRoles(CellOf(core, k), CellOf(core', k), t, p, u);
    }
  }

  lemma FinishLocal(cfg: Config, core: Core, core': Core, t: TxnId, k: Key, p: Option<TxnId>, u: TxnId, s: nat)
    requires FinCellRel(core, core', t, k, p) && FinCountRel(core, core', p) && u in core.msets && p != Some(u)
    ensures LocalKeys(cfg, core', u, s) <= LocalKeys(cfg, core, u, s)
  {
    assert FinRoles(CellOf(core, k), CellOf(core', k), t, p, u);
    assert KeysOf(core'.msets[u]) == KeysOf(core.msets[u]);
  }

  lemma FinishOneKeeps(cfg: Config, home: nat -> nat, e: Engine, s: nat, t: TxnId, k: Key)
    requires EngInv(cfg, home, e) && CanFinishOne(cfg, e, s, t, k)
    ensures EngInv(cfg, home, FinishTask(cfg, e, s, t, k))
  {
    hide CoreInv, Values, LineInv, TaskInv, FinInv, OkInv, AdmInv, AlmostInv, FinishStep, CmdExact, FinCellRel,
         FinCountRel, LaneOf, LoopsOf, PlanOf, Layout;
    var entry := CellOf(e.core, k).entry.value;
    var p := Promoted(entry);
    var core' := FinishStep(e.core, t, k);
    TaskCommitted(cfg, e, s, t);
    FinishKeeps(e.core, t, k);
    FinishValues(e.core, t, k);
    FinishRel(e.core, t, k);
    FinishAlmost(cfg, home, e, core', s, t, k, p);
    var task := e.tasks[s][t];
    var e1 := e.(tasks := e.tasks[s := e.tasks[s][t := task.(n := task.n + entry.holder.acks)]]);
    if p.Some? {
      AdvanceKeeps(cfg, home, e1, core', s, p.value);
    }
  }

  lemma FinishRel(core: Core, t: TxnId, k: Key)
    requires CoreInv(core) && Values(core) && CanFinish(core, t, k)
    ensures var p := Promoted(CellOf(core, k).entry.value); var core' := FinishStep(core, t, k);
      && FinCellRel(core, core', t, k, p) && FinCountRel(core, core', p)
      && CmdExact(core, k, CellOf(core, k).entry.value.holder)
  {
    FinishIsRel(core, t, k);
    var entry := CellOf(core, k).entry.value;
    assert InEntry(entry, entry.holder);
  }

  lemma FinishAlmost(cfg: Config, home: nat -> nat, e: Engine, core': Core, s: nat, t: TxnId, k: Key, p: Option<TxnId>)
    requires EngInv(cfg, home, e) && CanFinishOne(cfg, e, s, t, k) && p == Promoted(CellOf(e.core, k).entry.value)
    requires FinCellRel(e.core, core', t, k, p) && FinCountRel(e.core, core', p)
    requires CoreInv(core') && Values(core')
    requires CmdExact(e.core, k, CellOf(e.core, k).entry.value.holder)
    ensures var task := e.tasks[s][t]; var n := CellOf(e.core, k).entry.value.holder.acks;
      var e1 := e.(tasks := e.tasks[s := e.tasks[s][t := task.(n := task.n + n)]]);
      && (p.Some? ==> p.value in core'.msets && AlmostInv(cfg, home, e1, core', p.value)
                      && !Committed(e1.core, p.value) && !Running(e1.tasks, s, p.value))
      && (p.None? ==> EngInv(cfg, home, e1.(core := core')))
  {
    FinishFacts(e.core, core', t, k, p);
    FinishAdvances(cfg, e.core, core', t, k, p);
    FinishTasks(cfg, e, core', s, t, k, p);
    OkSameMsets(e.core, core', e.ledger, e.net);
    AdmSame(cfg, home, e.core.msets, core'.msets, e.ledger, e.ledger, e.inflight, e.waiting, e.clock);
  }

  lemma FinishTasks(cfg: Config, e: Engine, core': Core, s: nat, t: TxnId, k: Key, p: Option<TxnId>)
    requires TaskInv(cfg, e.core, e.tasks, e.net) && FinInv(cfg, e.core, e.tasks, e.ledger)
             && CanFinishOne(cfg, e, s, t, k)
    requires AckExact(e.core) && InstallsCommitted(e.core) && Unfinished(e.core, t, k)
    requires CmdExact(e.core, k, CellOf(e.core, k).entry.value.holder)
    requires CoreAdvances(cfg, e.core, core', p) && Installs(e.core, core', t, k)
    requires p.Some? ==> p.value in e.core.msets && !Committed(e.core, p.value)
    ensures var task := e.tasks[s][t]; var n := CellOf(e.core, k).entry.value.holder.acks;
      var tasks' := e.tasks[s := e.tasks[s][t := task.(n := task.n + n)]];
      && TasksSound(cfg, core', tasks') && NetSound(cfg, core', e.net) && AllDriven(cfg, core', tasks', e.net, p)
      && FinInv(cfg, core', tasks', e.ledger)
      && (p.Some? ==> !Running(tasks', s, p.value))
  {
    hide TaskInv, FinInv, AckExact, InstallsCommitted, CoreAdvances, Installs;
    var task := e.tasks[s][t];
    var holder := CellOf(e.core, k).entry.value.holder;
    var n := holder.acks;
    var tasks' := e.tasks[s := e.tasks[s][t := task.(n := task.n + n)]];
    if p.Some? && Running(e.tasks, s, p.value) {
      TaskCommitted(cfg, e, s, p.value);
    }
    TaskCount(cfg, e.core, e.tasks, e.net, s, t, task.n + n);
    TaskAdvance(cfg, e.core, core', tasks', e.net, p);
    CommittedPairs(e.core, t, k);
    assert holder.txn == t && holder.obj.pair in PreparedAt(e.core.msets[t], k);
    if p.Some? {
      NoneFinned(cfg, e.core, e.tasks, p.value);
    }
    FinInstall(cfg, e.core, core', e.tasks, tasks', e.ledger, s, t, k, n, p);
  }

  // ---------------------------------------------------------------- dispatch

  lemma DispatchKeeps(cfg: Config, home: nat -> nat, e: Engine, c: nat, req: Request, ts: nat)
    requires EngInv(cfg, home, e) && Free(e, c) && Admissible(cfg, home, e, c, req)
    requires e.inflight[c] < cfg.limit && e.clock <= ts
    ensures EngInv(cfg, home, Dispatch(cfg, e, c, req, ts))
  {
    hide CoreInv, Values, LineInv, TaskInv, FinInv, OkInv, AdmInv, Begin, Remotes, Admissible, Layout, PlanOf,
         LoopsOf, LaneOf;
    var t := TxnId(ts, req.conn, req.pipeline);
    var core' := Begin(e.core, t, c, req.pairs);
    PlanNumbered(cfg, e);
    DispatchLayout(cfg, home, e, c, req, ts);
    DispatchAdmission(cfg, home, e, c, req, ts);
    BeginKeeps(e.core, t, c, req.pairs);
    BeginValues(e.core, t, c, req.pairs);
    DispatchTasks(cfg, e, core', t, c, req.pairs);
    OkBegin(e.core, e.ledger, e.net, t, c, req.pairs);
    DispatchPlan(cfg, e, t, c, req.pairs);
  }

  lemma DispatchLayout(cfg: Config, home: nat -> nat, e: Engine, c: nat, req: Request, ts: nat)
    requires Layout(cfg, e) && Free(e, c) && Admissible(cfg, home, e, c, req)
    ensures Routes(cfg) && Layout(cfg, Dispatch(cfg, e, c, req, ts))
  {
  }

  lemma PlanNumbered(cfg: Config, e: Engine)
    requires LineInv(cfg, PlanOf(e.core), LoopsOf(e.work), LaneOf(e.net))
    ensures Numbered(PlanOf(e.core))
  {
  }

  lemma DispatchAdmission(cfg: Config, home: nat -> nat, e: Engine, c: nat, req: Request, ts: nat)
    requires AdmInv(cfg, home, e.core.msets, e.ledger, e.inflight, e.waiting, e.clock)
    requires Admissible(cfg, home, e, c, req) && e.inflight[c] < cfg.limit && e.clock <= ts && Numbered(PlanOf(e.core))
    ensures var t := TxnId(ts, req.conn, req.pipeline);
      && CanBegin(e.core, t, req.pairs)
      && AdmInv(cfg, home, Begin(e.core, t, c, req.pairs).msets, e.ledger[t := Ledger(0, 0)],
                e.inflight[c := e.inflight[c] + 1], e.waiting, ts)
  {
    var plan := PlanOf(e.core);
    assert plan.Keys == e.core.msets.Keys;
    assert |plan| == |plan.Keys| && |e.core.msets| == |e.core.msets.Keys|;
    forall u | u in e.core.msets ensures e.core.msets[u].no < |e.core.msets| {
      assert plan[u].no == e.core.msets[u].no;
    }
    AdmBegin(cfg, home, e.core.msets, e.ledger, e.inflight, e.waiting, e.clock, c, req, ts,
             Mset(|e.core.msets|, c, req.pairs, Upto(|req.pairs|), 0));
  }

  lemma DispatchTasks(cfg: Config, e: Engine, core': Core, t: TxnId, c: nat, pairs: seq<(Key, Value)>)
    requires TaskInv(cfg, e.core, e.tasks, e.net) && FinInv(cfg, e.core, e.tasks, e.ledger) && CoreInv(e.core)
    requires CanBegin(e.core, t, pairs) && core' == Begin(e.core, t, c, pairs)
    ensures TaskInv(cfg, core', e.tasks, e.net) && FinInv(cfg, core', e.tasks, e.ledger[t := Ledger(0, 0)])
  {
    hide FinInv, Shapes, CommandsSound, CommandsComplete, AckExact, WaitOrder, CommitLog, InstallOrder;
    BeginFrame(e.core, t, c, pairs);
    BeginAdvances(cfg, e.core, core', t);
    TaskAdvance(cfg, e.core, core', e.tasks, e.net, None);
    forall s: nat ensures !Running(e.tasks, s, t) {
      assert Running(e.tasks, s, t) ==> Committed(e.core, t);
    }
    FinBegin(cfg, e.core, e.tasks, e.ledger, t, c, pairs);
  }

  lemma BeginAdvances(cfg: Config, core: Core, core': Core, t: TxnId)
    requires core'.cells == core.cells && (forall u :: Committed(core', u) ==> Committed(core, u))
    requires t !in core.msets && (forall u :: u in core.msets ==> u in core'.msets && core'.msets[u] == core.msets[u])
    ensures CoreAdvances(cfg, core, core', None)
  {
    assert forall k :: CellOf(core', k) == CellOf(core, k);
    forall u, s: nat | Committed(core, u) && u in core'.msets
      ensures LocalKeys(cfg, core', u, s) <= LocalKeys(cfg, core, u, s)
    {
      assert KeysOf(core'.msets[u]) == KeysOf(core.msets[u]);
    }
  }

  lemma DispatchPlan(cfg: Config, e: Engine, t: TxnId, c: nat, pairs: seq<(Key, Value)>)
    requires LineInv(cfg, PlanOf(e.core), LoopsOf(e.work), LaneOf(e.net)) && Routes(cfg)
    requires CanBegin(e.core, t, pairs) && c < |e.work| && e.work[c].Idle?
    ensures LineInv(cfg, PlanOf(Begin(e.core, t, c, pairs)),
                    LoopsOf(e.work[c := Preparing(t, Remotes(cfg, pairs, c))]), LaneOf(e.net))
  {
    var plan := PlanOf(e.core);
    var w := Preparing(t, Remotes(cfg, pairs, c));
    assert plan.Keys == e.core.msets.Keys;
    assert |plan| == |plan.Keys| && |e.core.msets| == |e.core.msets.Keys|;
    assert PlanOf(Begin(e.core, t, c, pairs)) == plan[t := Mset(|plan|, c, pairs, Upto(|pairs|), 0)];
    assert LoopsOf(e.work[c := w]) == LoopsOf(e.work)[c := w];
    LineDispatch(cfg, plan, LoopsOf(e.work), LaneOf(e.net), c, t, pairs);
  }

  lemma ParkKeeps(cfg: Config, home: nat -> nat, e: Engine, c: nat, req: Request)
    requires EngInv(cfg, home, e) && Admissible(cfg, home, e, c, req)
    ensures EngInv(cfg, home, ParkRequest(e, c, req))
  {
    hide CoreInv, Values, LineInv, TaskInv, FinInv, OkInv;
    AdmPark(cfg, home, e.core.msets, e.waiting, c, req);
  }

  lemma ResumeKeeps(cfg: Config, home: nat -> nat, e: Engine, c: nat, ts: nat)
    requires EngInv(cfg, home, e) && Free(e, c) && c < |e.inflight| && c < |e.waiting| && e.waiting[c] != []
    requires e.inflight[c] < cfg.limit && e.clock <= ts
    ensures EngInv(cfg, home, ResumeRequest(cfg, e, c, ts))
  {
    hide CoreInv, Values, LineInv, TaskInv, FinInv, OkInv;
    AdmResume(cfg, home, e.core.msets, e.waiting, c);
    var e1 := e.(waiting := e.waiting[c := e.waiting[c][1..]]);
    DispatchKeeps(cfg, home, e1, c, e.waiting[c][0], ts);
  }

  // ---------------------------------------------------------------- loops and batches

  lemma PostBatchKeeps(cfg: Config, home: nat -> nat, e: Engine, s: nat, dst: nat)
    requires EngInv(cfg, home, e) && CanSendBatch(cfg, e, s, dst)
    ensures EngInv(cfg, home, PostBatch(cfg, e, s, dst))
  {
    hide CoreInv, Values, LineInv, TaskInv, FinInv, OkInv, AdmInv;
    var w := e.work[s];
    var p := Packet(s, dst, Batch(w.t));
    var w' := Preparing(w.t, w.unsent - {dst});
    assert LoopsOf(e.work[s := w']) == LoopsOf(e.work)[s := w'];
    UnsentBound(cfg, e, s, dst);
    LineSend(cfg, PlanOf(e.core), LoopsOf(e.work), LaneOf(e.net), s, w.t, dst);
    LaneAppend(e.net, p);
    TaskSend(cfg, e.core, e.tasks, e.net, p);
    OkSend(e.core, e.ledger, e.net, p);
  }

  lemma UnsentBound(cfg: Config, e: Engine, s: nat, dst: nat)
    requires LineInv(cfg, PlanOf(e.core), LoopsOf(e.work), LaneOf(e.net))
    requires s < |e.work| && e.work[s].Preparing? && dst in e.work[s].unsent
    ensures Unsent(LoopsOf(e.work), s, e.work[s].t, dst) && dst < cfg.shards
  {
    var loops := LoopsOf(e.work);
    assert loops[s].unsent <= Upto(cfg.shards) && dst in loops[s].unsent;
  }

  lemma ExitKeeps(cfg: Config, home: nat -> nat, e: Engine, s: nat)
    requires EngInv(cfg, home, e) && CanExit(cfg, e, s)
    ensures EngInv(cfg, home, e.(work := e.work[s := Idle]))
  {
    hide CoreInv, Values, LineInv, TaskInv, FinInv, OkInv, AdmInv;
    var loops := LoopsOf(e.work);
    assert LoopsOf(e.work[s := Idle]) == loops[s := Idle];
    var t := e.work[s].t;
    assert LeftAt(cfg, PlanOf(e.core)[t], s) == LeftAt(cfg, e.core.msets[t], s);
    LineExit(cfg, PlanOf(e.core), loops, LaneOf(e.net), s);
  }

  lemma ArriveKeeps(cfg: Config, home: nat -> nat, e: Engine, s: nat, k: Key, r: Read)
    requires EngInv(cfg, home, e) && Free(e, s) && cfg.route(k) == s
    ensures EngInv(cfg, home, e.(work := e.work[s := Reading(k, r)]))
  {
    hide CoreInv, Values, LineInv, TaskInv, FinInv, OkInv, AdmInv;
    assert LoopsOf(e.work[s := Reading(k, r)]) == LoopsOf(e.work);
  }

  lemma ConcludeKeeps(cfg: Config, home: nat -> nat, e: Engine, s: nat)
    requires EngInv(cfg, home, e) && Busy(e, s) && e.work[s].Reading?
    ensures EngInv(cfg, home, ConcludeRead(e, s))
  {
    hide CoreInv, Values, LineInv, TaskInv, FinInv, OkInv, AdmInv;
    var core' := ReadStep(e.core, e.work[s].k, e.work[s].r);
    assert LoopsOf(e.work[s := Idle]) == LoopsOf(e.work);
    ReadKeeps(e.core, e.work[s].k, e.work[s].r);
    ReadValues(e.core, e.work[s].k, e.work[s].r);
    ReadFrame(cfg, e.core, e.work[s].k, e.work[s].r);
    assert PlanOf(core') == PlanOf(e.core);
    QuietKeeps(cfg, e, core');
  }

  /** A core step that changes no counter and installs nothing. */
  lemma QuietKeeps(cfg: Config, e: Engine, core': Core)
    requires CoreInv(e.core) && TaskInv(cfg, e.core, e.tasks, e.net) && FinInv(cfg, e.core, e.tasks, e.ledger)
    requires OkInv(e.core, e.ledger, e.net)
    requires core'.msets == e.core.msets && SameInstalls(e.core, core') && CoreAdvances(cfg, e.core, core', None)
    ensures TaskInv(cfg, core', e.tasks, e.net) && FinInv(cfg, core', e.tasks, e.ledger)
    ensures OkInv(core', e.ledger, e.net)
  {
    hide TaskInv, FinInv, OkInv, Shapes, CommandsSound, CommandsComplete, AckExact, WaitOrder, CommitLog, InstallOrder;
    QuietTasks(cfg, e, core');
    FinQuiet(cfg, e.core, core', e.tasks, e.ledger, None);
    OkSameMsets(e.core, core', e.ledger, e.net);
  }

  lemma QuietTasks(cfg: Config, e: Engine, core': Core)
    requires TaskInv(cfg, e.core, e.tasks, e.net) && CoreAdvances(cfg, e.core, core', None)
    ensures TaskInv(cfg, core', e.tasks, e.net)
  {
    TaskAdvance(cfg, e.core, core', e.tasks, e.net, None);
  }

  lemma HoldersSame(cfg: Config, core: Core, core': Core, x: Option<TxnId>)
    requires core'.msets == core.msets
    requires forall k, u :: Holds(CellOf(core', k), u) == Holds(CellOf(core, k), u)
    ensures CoreAdvances(cfg, core, core', x)
  {
    assert forall t :: Committed(core', t) == Committed(core, t);
    forall t, s: nat | Committed(core, t) && t in core'.msets && x != Some(t)
      ensures LocalKeys(cfg, core', t, s) <= LocalKeys(cfg, core, t, s)
    {
      assert LocalKeys(cfg, core', t, s) == LocalKeys(cfg, core, t, s);
    }
  }

  lemma ReadFrame(cfg: Config, core: Core, k: Key, r: Read)
    ensures var core' := ReadStep(core, k, r);
      core'.msets == core.msets && SameInstalls(core, core') && CoreAdvances(cfg, core, core', None)
  {
    var core' := ReadStep(core, k, r);
    HoldersSame(cfg, core, core', None);
  }

  // ---------------------------------------------------------------- FIN tasks

  lemma CommitEarlyKeeps(cfg: Config, home: nat -> nat, e: Engine, s: nat, k: Key)
    requires EngInv(cfg, home, e) && CanEarlyCommit(cfg, e, s, k)
    ensures EngInv(cfg, home, CommitEarly(cfg, e, s, k))
  {
    hide CoreInv, Values, LineInv, TaskInv, FinInv, OkInv, AdmInv;
    var t := CellOf(e.core, k).entry.value.holder.txn;
    TakeKeeps(cfg, e, s, t, Task({}, 0));
  }

  lemma TakeKeeps(cfg: Config, e: Engine, s: nat, t: TxnId, task: Task)
    requires TaskInv(cfg, e.core, e.tasks, e.net) && FinInv(cfg, e.core, e.tasks, e.ledger)
    requires s < |e.tasks| && e.tasks[s] == map[] && Committed(e.core, t) && task.n == 0
             && task.unsent <= Upto(cfg.shards)
    ensures var tasks' := e.tasks[s := map[t := task]];
      TaskInv(cfg, e.core, tasks', e.net) && FinInv(cfg, e.core, tasks', e.ledger)
  {
    var tasks' := e.tasks[s := map[t := task]];
    TaskTake(cfg, e.core, e.tasks, e.net, s, t, task);
    assert SameOpen(e.tasks, tasks');
    FinSameOpen(cfg, e.core, e.tasks, tasks', e.ledger);
  }

  lemma PostFinKeeps(cfg: Config, home: nat -> nat, e: Engine, s: nat, t: TxnId, dst: nat)
    requires EngInv(cfg, home, e) && CanSendFin(e, s, t, dst)
    ensures EngInv(cfg, home, PostFin(cfg, e, s, t, dst))
  {
    hide CoreInv, Values, LineInv, TaskInv, FinInv, OkInv, AdmInv, LaneOf, LocalKeys;
    var e' := PostFin(cfg, e, s, t, dst);
    var p := Packet(s, dst, Fin(t));
    TaskCommitted(cfg, e, s, t);
    assert dst in Upto(cfg.shards);
    TaskSendFin(cfg, e.core, e.tasks, e.net, s, t, dst, e'.net);
    assert SameOpen(e.tasks, e'.tasks);
    FinSameOpen(cfg, e.core, e.tasks, e'.tasks, e.ledger);
    OkSend(e.core, e.ledger, e.net, p);
    LaneOther(e.net, p);
  }

  lemma TallyKeeps(cfg: Config, home: nat -> nat, e: Engine, s: nat, t: TxnId)
    requires EngInv(cfg, home, e) && CanTally(cfg, e, s, t)
    ensures EngInv(cfg, home, TallyUp(e, s, t))
  {
    hide CoreInv, Values, LineInv, TaskInv, FinInv, OkInv, AdmInv;
    var n := e.tasks[s][t].n;
    var tasks' := e.tasks[s := e.tasks[s] - {t}];
    TaskEnd(cfg, e.core, e.tasks, e.net, s, t);
    if n == 0 {
      assert SameOpen(e.tasks, tasks');
      FinSameOpen(cfg, e.core, e.tasks, tasks', e.ledger);
    } else {
      FinClose(cfg, e.core, e.tasks, e.ledger, s, t);
      OpenIsIncomplete(cfg, e.core, e.tasks, e.ledger, s, t);
      OkClose(e.core, e.ledger, e.net, s, t, n);
      TallyReports(cfg, home, e, s, t, n);
    }
  }

  lemma TallyReports(cfg: Config, home: nat -> nat, e: Engine, s: nat, t: TxnId, n: nat)
    requires EngInv(cfg, home, e) && CanTally(cfg, e, s, t) && n == e.tasks[s][t].n && n > 0
    requires var l := e.ledger[t].(finAck := e.ledger[t].finAck + n); var tasks' := e.tasks[s := e.tasks[s] - {t}];
      && TaskInv(cfg, e.core, tasks', e.net) && FinInv(cfg, e.core, tasks', e.ledger[t := l])
      && (if l.finAck != |e.core.msets[t].pairs| then OkInv(e.core, e.ledger[t := l], e.net)
          else if e.core.msets[t].coord == s then
            e.ledger[t].oks == 0 && OkInv(e.core, e.ledger[t := l.(oks := l.oks + 1)], e.net)
          else OkInv(e.core, e.ledger[t := l], e.net + [Packet(s, e.core.msets[t].coord, FinAck(t))]))
    ensures EngInv(cfg, home, TallyUp(e, s, t))
  {
    hide EngInv, RestInv, TaskInv, FinInv, OkInv, LocalKeys, Committed, GiveOk, TallyUp, Send;
    var l := e.ledger[t].(finAck := e.ledger[t].finAck + n);
    var e1 := e.(tasks := e.tasks[s := e.tasks[s] - {t}], ledger := e.ledger[t := l]);
    TallyCounts(cfg, home, e, e1, t);
    TallyOutcome(e, s, t);
    if l.finAck != |e.core.msets[t].pairs| {
      Assemble(cfg, home, e1);
    } else if e.core.msets[t].coord == s {
      assert e1.ledger[t := e1.ledger[t].(oks := 1)] == e.ledger[t := l.(oks := l.oks + 1)];
      TallyReplies(cfg, home, e1, s, t);
    } else {
      TallyCommitted(cfg, home, e, s, t);
      TallyForwards(cfg, home, e1, s, t);
    }
  }

  lemma TallyCommitted(cfg: Config, home: nat -> nat, e: Engine, s: nat, t: TxnId)
    requires EngInv(cfg, home, e) && HasTask(e, s, t)
    ensures Committed(e.core, t)
  {
    hide CoreInv, Values, LineInv, FinInv, OkInv, AdmInv;
    TaskCommitted(cfg, e, s, t);
  }

  lemma TallyOutcome(e: Engine, s: nat, t: TxnId)
    requires HasTask(e, s, t) && s < |e.inflight| && e.tasks[s][t].n > 0
    ensures var l := e.ledger[t].(finAck := e.ledger[t].finAck + e.tasks[s][t].n);
      var e1 := e.(tasks := e.tasks[s := e.tasks[s] - {t}], ledger := e.ledger[t := l]);
      TallyUp(e, s, t) ==
        if l.finAck != |e.core.msets[t].pairs| then e1
        else if e.core.msets[t].coord == s then GiveOk(e1, s, t)
        else Send(e1, s, e.core.msets[t].coord, FinAck(t))
  {
  }

  /** The invariant but for `OkInv`. */
  ghost predicate RestInv(cfg: Config, home: nat -> nat, e: Engine) {
    && Layout(cfg, e)
    && CoreInv(e.core) && Values(e.core)
    && LineInv(cfg, PlanOf(e.core), LoopsOf(e.work), LaneOf(e.net))
    && TaskInv(cfg, e.core, e.tasks, e.net)
    && FinInv(cfg, e.core, e.tasks, e.ledger)
    && AdmInv(cfg, home, e.core.msets, e.ledger, e.inflight, e.waiting, e.clock)
  }

  lemma Assemble(cfg: Config, home: nat -> nat, e: Engine)
    requires RestInv(cfg, home, e) && OkInv(e.core, e.ledger, e.net)
    ensures EngInv(cfg, home, e)
  {
    hide CoreInv, Values, LineInv, TaskInv, FinInv, OkInv, AdmInv;
  }

  /** Counting finished pairs touches the task and the counter only. */
  lemma TallyCounts(cfg: Config, home: nat -> nat, e: Engine, e1: Engine, t: TxnId)
    requires EngInv(cfg, home, e) && t in e.ledger && e1 == e.(tasks := e1.tasks, ledger := e1.ledger)
    requires t in e1.ledger && e1.ledger == e.ledger[t := e.ledger[t].(finAck := e1.ledger[t].finAck)]
    requires TaskInv(cfg, e.core, e1.tasks, e.net) && FinInv(cfg, e.core, e1.tasks, e1.ledger)
    ensures RestInv(cfg, home, e1)
  {
    hide CoreInv, Values, LineInv, TaskInv, FinInv, OkInv, AdmInv, LaneOf, LoopsOf, PlanOf;
    AdmSame(cfg, home, e.core.msets, e.core.msets, e.ledger, e1.ledger, e.inflight, e.waiting, e.clock);
  }

  lemma TallyReplies(cfg: Config, home: nat -> nat, e: Engine, s: nat, t: TxnId)
    requires RestInv(cfg, home, e) && t in e.core.msets && t in e.ledger && s < |e.inflight|
    requires e.core.msets[t].coord == s && e.ledger[t].oks == 0
    requires OkInv(e.core, e.ledger[t := e.ledger[t].(oks := 1)], e.net)
    ensures EngInv(cfg, home, GiveOk(e, s, t))
  {
    hide CoreInv, Values, LineInv, TaskInv, FinInv, OkInv, AdmInv, LaneOf, LoopsOf, PlanOf;
    AdmReply(cfg, home, e.core.msets, e.ledger, e.inflight, e.waiting, e.clock, t);
    LedgerOks(cfg, e.core, e.tasks, e.ledger, t);
  }

  lemma TallyForwards(cfg: Config, home: nat -> nat, e: Engine, s: nat, t: TxnId)
    requires RestInv(cfg, home, e) && Committed(e.core, t)
    requires var p := Packet(s, e.core.msets[t].coord, FinAck(t)); OkInv(e.core, e.ledger, e.net + [p])
    ensures EngInv(cfg, home, Send(e, s, e.core.msets[t].coord, FinAck(t)))
  {
    hide CoreInv, Values, LineInv, TaskInv, FinInv, OkInv, AdmInv, LaneOf, LoopsOf, PlanOf;
    var p := Packet(s, e.core.msets[t].coord, FinAck(t));
    LaneOther(e.net, p);
    CoordBound(cfg, home, e, t);
    TaskSend(cfg, e.core, e.tasks, e.net, p);
  }

  /** Replies do not enter the conservation of `fin_ack`. */
  lemma LedgerOks(cfg: Config, core: Core, tasks: Tasks, ledger: Ledgers, t: TxnId)
    requires FinInv(cfg, core, tasks, ledger) && t in ledger
    ensures FinInv(cfg, core, tasks, ledger[t := ledger[t].(oks := 1)])
  {
  }

  // ---------------------------------------------------------------- delivery

  lemma DeliverKeeps(cfg: Config, home: nat -> nat, e: Engine, j: nat)
    requires EngInv(cfg, home, e) && CanDeliver(e, j)
    ensures EngInv(cfg, home, DeliverPacket(cfg, e, j))
  {
    hide CoreInv, Values, LineInv, TaskInv, FinInv, OkInv, AdmInv;
    var p := e.net[j];
    assert p in e.net;
    LaneRemove(e.net, j);
    match p.msg
    case Batch(t) => DeliverBatch(cfg, home, e, j);
    case Ack(t) => DeliverTask(cfg, home, e, j, Task(Upto(cfg.shards) - {p.dst}, 0));
    case Fin(t) => DeliverTask(cfg, home, e, j, Task({}, 0));
    case FinAck(t) => DeliverFinAck(cfg, home, e, j);
  }

  lemma DeliverBatch(cfg: Config, home: nat -> nat, e: Engine, j: nat)
    requires EngInv(cfg, home, e) && CanDeliver(e, j) && e.net[j].msg.Batch?
    ensures EngInv(cfg, home, DeliverPacket(cfg, e, j))
  {
    hide CoreInv, Values, LineInv, TaskInv, FinInv, OkInv, AdmInv;
    var p := e.net[j];
    LaneRemove(e.net, j);
    TaskDrop(cfg, e.core, e.tasks, e.net, j);
    OkDrop(e.core, e.ledger, e.net, j);
    LaneFirst(e, j);
    LineDeliver(cfg, PlanOf(e.core), LoopsOf(e.work), LaneOf(e.net), |LaneOf(e.net[..j])|);
    assert LoopsOf(e.work[p.dst := Preparing(p.msg.t, {})]) == LoopsOf(e.work)[p.dst := Preparing(p.msg.t, {})];
  }

  /** The first batch of its channel in the net is the first in the lane. */
  lemma LaneFirst(e: Engine, j: nat)
    requires CanDeliver(e, j) && e.net[j].msg.Batch?
    ensures var lane := LaneOf(e.net); var a := |LaneOf(e.net[..j])|;
      && a < |lane| && lane[a] == e.net[j]
      && forall i :: 0 <= i < a ==> lane[i].src != lane[a].src || lane[i].dst != lane[a].dst
  {
    LaneRemove(e.net, j);
    var lane := LaneOf(e.net);
    var a := LaneOf(e.net[..j]);
    forall i | 0 <= i < |a| ensures lane[i].src != e.net[j].src || lane[i].dst != e.net[j].dst {
      assert lane[i] == lane[..|a|][i];
      assert a[i] in a;
      LaneMembers(e.net[..j], a[i]);
      var n :| 0 <= n < j && e.net[..j][n] == a[i];
      assert e.net[n] == a[i];
    }
  }

  lemma DeliverTask(cfg: Config, home: nat -> nat, e: Engine, j: nat, task: Task)
    requires EngInv(cfg, home, e) && CanDeliver(e, j) && (e.net[j].msg.Ack? || e.net[j].msg.Fin?)
    requires task == if e.net[j].msg.Ack? then Task(Upto(cfg.shards) - {e.net[j].dst}, 0) else Task({}, 0)
    ensures EngInv(cfg, home, DeliverPacket(cfg, e, j))
  {
    hide CoreInv, Values, LineInv, TaskInv, FinInv, OkInv, AdmInv;
    var p := e.net[j];
    assert p in e.net;
    var t := p.msg.t;
    PacketSound(cfg, e, p);
    assert p in [p];
    LaneRemove(e.net, j);
    TakeKeeps(cfg, e, p.dst, t, task);
    var tasks' := e.tasks[p.dst := map[t := task]];
    assert Running(tasks', p.dst, t);
    TaskDrop(cfg, e.core, tasks', e.net, j);
    OkDrop(e.core, e.ledger, e.net, j);
  }

  lemma DeliverFinAck(cfg: Config, home: nat -> nat, e: Engine, j: nat)
    requires EngInv(cfg, home, e) && CanDeliver(e, j) && e.net[j].msg.FinAck?
    ensures EngInv(cfg, home, DeliverPacket(cfg, e, j))
  {
    hide CoreInv, Values, LineInv, TaskInv, FinInv, OkInv, AdmInv;
    var p := e.net[j];
    assert p in e.net;
    var t := p.msg.t;
    PacketSound(cfg, e, p);
    assert p in [p];
    LaneRemove(e.net, j);
    TaskDrop(cfg, e.core, e.tasks, e.net, j);
    OkDeliver(e.core, e.ledger, e.net, j);
    AdmReply(cfg, home, e.core.msets, e.ledger, e.inflight, e.waiting, e.clock, t);
    LedgerOks(cfg, e.core, e.tasks, e.ledger, t);
  }

  // ---------------------------------------------------------------- every event, every run

  lemma StepKeeps(cfg: Config, home: nat -> nat, e: Engine, ev: Event)
    requires EngInv(cfg, home, e) && Enabled(cfg, home, e, ev)
    ensures EngInv(cfg, home, Apply(cfg, home, e, ev))
  {
    hide CoreInv, Values, LineInv, TaskInv, FinInv, OkInv, AdmInv;
    match ev
    case Submit(c, req, ts) => DispatchKeeps(cfg, home, e, c, req, ts);
    case Park(c, req) => ParkKeeps(cfg, home, e, c, req);
    case Resume(c, ts) => ResumeKeeps(cfg, home, e, c, ts);
    case PrepareNext(s, i) => PrepareNextKeeps(cfg, home, e, s, i);
    case SendBatch(s, dst) => PostBatchKeeps(cfg, home, e, s, dst);
    case LoopExit(s) => ExitKeeps(cfg, home, e, s);
    case EarlyCommit(s, k) => CommitEarlyKeeps(cfg, home, e, s, k);
    case Deliver(j) => DeliverKeeps(cfg, home, e, j);
    case SendFin(s, t, dst) => PostFinKeeps(cfg, home, e, s, t, dst);
    case FinishOne(s, t, k) => FinishOneKeeps(cfg, home, e, s, t, k);
    case Tally(s, t) => TallyKeeps(cfg, home, e, s, t);
    case Arrive(s, k, r) => ArriveKeeps(cfg, home, e, s, k, r);
    case Conclude(s) => ConcludeKeeps(cfg, home, e, s);
  }

  lemma {:induction false} RunKeeps(cfg: Config, home: nat -> nat, run: seq<Engine>, events: seq<Event>, n: nat)
    requires Run(cfg, home, run, events) && Routes(cfg) && n < |run|
    ensures EngInv(cfg, home, run[n])
  {
    hide EngInv, Enabled, Apply, Boot;
    if n == 0 {
      BootHolds(cfg, home, run[0]);
    } else {
      RunKeeps(cfg, home, run, events, n - 1);
      StepKeeps(cfg, home, run[n - 1], events[n - 1]);
    }
  }

  lemma RunStep(cfg: Config, home: nat -> nat, run: seq<Engine>, events: seq<Event>, i: nat)
    requires Run(cfg, home, run, events) && i < |events|
    ensures |run| == |events| + 1 && Enabled(cfg, home, run[i], events[i])
    ensures run[i + 1] == Apply(cfg, home, run[i], events[i])
  {
    hide Enabled, Apply;
  }

  /** Each event is a step of the commit protocol, or leaves keys and `ack` counters alone. */
  lemma CoreOfStep(cfg: Config, home: nat -> nat, e: Engine, ev: Event)
    requires Enabled(cfg, home, e, ev)
    ensures var core' := Apply(cfg, home, e, ev).core;
      match ev
      case Submit(c, req, ts) => core' == Begin(e.core, TxnId(ts, req.conn, req.pipeline), c, req.pairs)
      case Resume(c, ts) =>
        var req := e.waiting[c][0];
        core' == Begin(e.core, TxnId(ts, req.conn, req.pipeline), c, req.pairs)
      case PrepareNext(s, i) => core' == PrepareStep(e.core, cfg.shards, e.work[s].t, i)
      case FinishOne(s, t, k) => core' == FinishStep(e.core, t, k)
      case Conclude(s) => core' == ReadStep(e.core, e.work[s].k, e.work[s].r)
      case _ => core' == e.core
  {
    hide PrepareStep, FinishStep, ReadStep, Begin, LocalKeys, Remotes;
  }
}
