/**
 * What holds of every run of the engine: the commit point, one serial order for all keys, one
 * reply per MSET, deadlock freedom, and the meaning of the whole: when the engine comes to rest
 * the tables hold what executing the MSETs one after the other, in commit order, would have
 * produced.
 */
module MsetTheorems {
  import opened Options
  import opened Txn
  import opened KeyCell
  import opened KeyCellLaws
  import opened MsetCore
  import opened MsetCoreLaws
  import opened MsetValues
  import opened MsetEngine
  import opened MsetLine
  import opened MsetTasks
  import opened MsetFin
  import opened MsetAdmission
  import opened MsetInvariant
  import opened MsetRequests
  import opened MsetProgress

  // ---------------------------------------------------------------- the commit log only grows

  lemma PrepareLogGrows(s: Core, shards: nat, t: TxnId, i: nat)
    requires CanPrepare(s, t, i)
    ensures s.commits <= PrepareStep(s, shards, t, i).commits
  {
    hide PreparedCell, Decide;
  }

  lemma FinishLogGrows(s: Core, t: TxnId, k: Key)
    requires CanFinish(s, t, k)
    ensures s.commits <= FinishStep(s, t, k).commits
  {
    hide Finish, DrainReplies;
  }

  lemma StepLog(cfg: Config, home: nat -> nat, e: Engine, ev: Event)
    requires Enabled(cfg, home, e, ev)
    ensures e.core.commits <= Apply(cfg, home, e, ev).core.commits
  {
    hide PrepareStep, FinishStep;
    match ev
    case PrepareNext(s, i) => PrepareLogGrows(e.core, cfg.shards, e.work[s].t, i);
    case FinishOne(s, t, k) => FinishLogGrows(e.core, t, k);
    case _ =>
  }

  lemma {:induction false} RunLog(cfg: Config, home: nat -> nat, run: seq<Engine>, events: seq<Event>, n: nat, m: nat)
    requires Run(cfg, home, run, events) && n <= m < |run|
    ensures run[n].core.commits <= run[m].core.commits
    decreases m
  {
    hide Enabled, Apply;
    if n < m {
      RunLog(cfg, home, run, events, n, m - 1);
      RunStep(cfg, home, run, events, m - 1);
      StepLog(cfg, home, run[m - 1], events[m - 1]);
    }
  }

  // ---------------------------------------------------------------- commit point

  /** `ack == total` is never undone. */
  lemma CommitIsFinal(cfg: Config, home: nat -> nat, run: seq<Engine>, events: seq<Event>, n: nat, m: nat, t: TxnId)
    requires Run(cfg, home, run, events) && Routes(cfg) && n <= m < |run| && Committed(run[n].core, t)
    ensures Committed(run[m].core, t)
  {
    hide Run, Values, LineInv, TaskInv, FinInv, OkInv, AdmInv;
    RunKeeps(cfg, home, run, events, n);
    RunKeeps(cfg, home, run, events, m);
    RunLog(cfg, home, run, events, n, m);
    LogIsCommitted(run[n].core, t);
    LogIsCommitted(run[m].core, t);
  }

  lemma LogIsCommitted(s: Core, t: TxnId)
    requires CoreInv(s)
    ensures t in s.commits <==> Committed(s, t)
    ensures forall i, j :: 0 <= i < j < |s.commits| ==> s.commits[i] != s.commits[j]
  {
  }

  /**
   * From the instant `ack` reaches the total, the MSET holds the locks of all its keys, on all
   * shards at once, each until its own FIN there; before that instant none of its values is
   * installed.
   */
  lemma CommitPoint(cfg: Config, home: nat -> nat, run: seq<Engine>, events: seq<Event>, n: nat, t: TxnId, k: Key)
    requires Run(cfg, home, run, events) && Routes(cfg) && n < |run|
    requires t in run[n].core.msets && k in KeysOf(run[n].core.msets[t])
    ensures Installed(CellOf(run[n].core, k), t) ==> Committed(run[n].core, t)
    ensures Committed(run[n].core, t) && !Installed(CellOf(run[n].core, k), t) ==> Holds(CellOf(run[n].core, k), t)
    ensures n > 0 && Committed(run[n].core, t) && !Committed(run[n - 1].core, t) ==> Holds(CellOf(run[n].core, k), t)
  {
    hide Enabled, Apply, CoreInv, Values, LineInv, TaskInv, FinInv, OkInv, AdmInv, Layout, Installed, KeysOf;
    RunKeeps(cfg, home, run, events, n);
    HeldOrInstalled(run[n].core, t, k);
    if n > 0 && Committed(run[n].core, t) && !Committed(run[n - 1].core, t) {
      RunKeeps(cfg, home, run, events, n - 1);
      RunStep(cfg, home, run, events, n - 1);
      FreshCommit(cfg, home, run[n - 1], events[n - 1], t, k);
    }
  }

  lemma HeldOrInstalled(s: Core, t: TxnId, k: Key)
    requires CoreInv(s) && t in s.msets && k in KeysOf(s.msets[t])
    ensures Installed(CellOf(s, k), t) ==> Committed(s, t)
    ensures Committed(s, t) ==> Holds(CellOf(s, k), t) || Installed(CellOf(s, k), t)
  {
    if Committed(s, t) {
      CommittedHoldsAll(s, t, k);
    }
  }

  /** The step that commits an MSET installs nothing of it. */
  lemma FreshCommit(cfg: Config, home: nat -> nat, e: Engine, ev: Event, t: TxnId, k: Key)
    requires EngInv(cfg, home, e) && Enabled(cfg, home, e, ev) && !Committed(e.core, t)
    ensures !Installed(CellOf(Apply(cfg, home, e, ev).core, k), t)
  {
    hide CoreInv, Values, LineInv, TaskInv, FinInv, OkInv, AdmInv, Layout, PrepareStep, FinishStep, ReadStep,
         Installed, Apply;
    NotInstalled(e.core, t, k);
    CoreOfStep(cfg, home, e, ev);
    match ev
    case PrepareNext(s, i) =>
      FreshPrepare(cfg, home, e, s, i);
      SameInstalled(e.core, PrepareStep(e.core, cfg.shards, e.work[s].t, i), t, k);
    case FinishOne(s, u, k') => FreshFinish(e.core, u, k', t, k);
    case Conclude(s) =>
      ReadFrame(cfg, e.core, e.work[s].k, e.work[s].r);
      SameInstalled(e.core, ReadStep(e.core, e.work[s].k, e.work[s].r), t, k);
    case _ =>
  }

  lemma NotInstalled(s: Core, t: TxnId, k: Key)
    requires CoreInv(s) && !Committed(s, t)
    ensures !Installed(CellOf(s, k), t)
  {
    hide Shapes, CommandsSound, CommandsComplete, AckExact, WaitOrder, CommitLog, InstallOrder;
  }

  lemma SameInstalled(s: Core, s': Core, t: TxnId, k: Key)
    requires SameInstalls(s, s')
    ensures Installed(CellOf(s', k), t) == Installed(CellOf(s, k), t)
  {
    assert CellOf(s', k).installs == CellOf(s, k).installs;
  }

  lemma FreshPrepare(cfg: Config, home: nat -> nat, e: Engine, s: nat, i: nat)
    requires EngInv(cfg, home, e) && CanPrepareNext(cfg, e, s, i)
    ensures SameInstalls(e.core, PrepareStep(e.core, cfg.shards, e.work[s].t, i))
  {
    hide Values, TaskInv, FinInv, OkInv, LineInv;
    NextInOrder(cfg, home, e, s, i);
    var t := e.work[s].t;
    PrepareIsRel(e.core, cfg.shards, t, i);
    PrepareSameInstalls(e.core, PrepareStep(e.core, cfg.shards, t, i), t,
                        PrepareKey(e.core, t, i), DecisionOf(e.core, t, i));
  }

  lemma FreshFinish(s: Core, u: TxnId, k': Key, t: TxnId, k: Key)
    requires CoreInv(s) && CanFinish(s, u, k') && !Committed(s, t) && !Installed(CellOf(s, k), t)
    ensures !Installed(CellOf(FinishStep(s, u, k'), k), t)
  {
    FinishIsRel(s, u, k');
    assert FinRoles(CellOf(s, k'), CellOf(FinishStep(s, u, k'), k'), u, Promoted(CellOf(s, k').entry.value), t);
  }

  // ---------------------------------------------------------------- one serial order

  /** Two MSETs that both wrote `x` and `y` were installed in the same order on both. */
  lemma SerialOrder(cfg: Config, home: nat -> nat, run: seq<Engine>, events: seq<Event>, n: nat,
                    x: Key, y: Key, i: nat, j: nat, i': nat, j': nat)
    requires Run(cfg, home, run, events) && Routes(cfg) && n < |run|
    requires var hx := CellOf(run[n].core, x).installs; var hy := CellOf(run[n].core, y).installs;
      && i < j < |hx| && i' < |hy| && j' < |hy|
      && hx[i].Made? && hx[j].Made? && hy[i'].Made? && hy[j'].Made?
      && hx[i].txn == hy[i'].txn && hx[j].txn == hy[j'].txn
    ensures i' < j'
  {
    RunKeeps(cfg, home, run, events, n);
    SameOrder(run[n].core, x, y, i, j, i', j');
  }

  lemma OrderFromLog(log: seq<TxnId>, h: seq<Obj>, a: nat, b: nat)
    requires CommitOrdered(log, h) && a < |h| && b < |h| && h[a].Made? && h[b].Made?
    requires Pos(log, h[a].txn) < Pos(log, h[b].txn)
    ensures a < b
  {
  }

  lemma SameOrder(s: Core, x: Key, y: Key, i: nat, j: nat, i': nat, j': nat)
    requires InstallOrder(s)
    requires var hx := CellOf(s, x).installs; var hy := CellOf(s, y).installs;
      && i < j < |hx| && i' < |hy| && j' < |hy|
      && hx[i].Made? && hx[j].Made? && hy[i'].Made? && hy[j'].Made?
      && hx[i].txn == hy[i'].txn && hx[j].txn == hy[j'].txn
    ensures i' < j'
  {
    var hx := CellOf(s, x).installs;
    var hy := CellOf(s, y).installs;
    assert CommitOrdered(s.commits, hx) && CommitOrdered(s.commits, hy);
    OrderFromLog(s.commits, hy, i', j');
  }

  // ---------------------------------------------------------------- counters and replies

  /**
   * `ack` counts prepared pairs less waiting commands; `fin_ack` never exceeds the total and
   * reaches it exactly when every pair is installed and no FIN task is open; the client gets at
   * most one +OK, only then; coordinators count their unanswered MSETs within the limit.
   */
  lemma CountersAreExact(cfg: Config, home: nat -> nat, run: seq<Engine>, events: seq<Event>, n: nat, t: TxnId)
    requires Run(cfg, home, run, events) && Routes(cfg) && n < |run| && t in run[n].core.msets
    ensures AckExactFor(run[n].core, t)
    ensures t in run[n].ledger && run[n].ledger[t].finAck == |Counted(cfg, run[n].core, run[n].tasks, t)|
    ensures run[n].ledger[t].oks <= 1
    ensures run[n].ledger[t].oks == 1 ==> run[n].ledger[t].finAck == |run[n].core.msets[t].pairs|
    ensures run[n].ledger[t].finAck == |run[n].core.msets[t].pairs| ==>
      forall k :: k in KeysOf(run[n].core.msets[t]) ==> Installed(CellOf(run[n].core, k), t)
    ensures forall c :: 0 <= c < cfg.shards ==>
      |run[n].inflight| == cfg.shards
      && run[n].inflight[c] == |Live(run[n].core.msets, run[n].ledger, c)| <= cfg.limit
  {
    RunKeeps(cfg, home, run, events, n);
    var e := run[n];
    EngCounters(cfg, home, e, t);
    if e.ledger[t].finAck == |e.core.msets[t].pairs| {
      forall k | k in KeysOf(e.core.msets[t]) ensures Installed(CellOf(e.core, k), t) {
        EngComplete(cfg, home, e, t, k);
      }
    }
  }

  lemma EngCounters(cfg: Config, home: nat -> nat, e: Engine, t: TxnId)
    requires EngInv(cfg, home, e) && t in e.core.msets
    ensures AckExactFor(e.core, t)
    ensures t in e.ledger && e.ledger[t].finAck == |Counted(cfg, e.core, e.tasks, t)|
    ensures e.ledger[t].oks <= 1 && (e.ledger[t].oks == 1 ==> e.ledger[t].finAck == |e.core.msets[t].pairs|)
    ensures forall c :: 0 <= c < cfg.shards ==>
      |e.inflight| == cfg.shards && e.inflight[c] == |Live(e.core.msets, e.ledger, c)| <= cfg.limit
  {
    hide Values, LineInv, TaskInv;
  }

  lemma EngComplete(cfg: Config, home: nat -> nat, e: Engine, t: TxnId, k: Key)
    requires EngInv(cfg, home, e) && t in e.core.msets && k in KeysOf(e.core.msets[t])
    requires t in e.ledger && e.ledger[t].finAck == |e.core.msets[t].pairs|
    ensures Installed(CellOf(e.core, k), t)
  {
    hide CoreInv, Values, LineInv, TaskInv, FinInv, OkInv, AdmInv;
    var i :| 0 <= i < |e.core.msets[t].pairs| && e.core.msets[t].pairs[i].0 == k;
    CompleteMeansInstalled(cfg, e.core, e.tasks, e.ledger, t, i);
  }

  // ---------------------------------------------------------------- progress

  /** A reachable state with an unanswered or waiting MSET has a step of the engine's own. */
  lemma NeverStuck(cfg: Config, home: nat -> nat, run: seq<Engine>, events: seq<Event>, n: nat)
    requires Run(cfg, home, run, events) && Routes(cfg) && cfg.limit > 0 && n < |run|
    requires (exists t :: t in run[n].ledger && run[n].ledger[t].oks == 0)
             || (exists c: nat :: c < |run[n].waiting| && run[n].waiting[c] != [])
    ensures Moves(cfg, home, run[n])
  {
    RunKeeps(cfg, home, run, events, n);
    DeadlockFree(cfg, home, run[n]);
  }

  // ---------------------------------------------------------------- serial meaning

  type Db = map<Key, Value>

  /** MSET as a client understands it: all pairs, in order, at once. */
  function PutAll(db: Db, pairs: seq<(Key, Value)>): Db {
    if pairs == [] then db
    else PutAll(db, pairs[..|pairs| - 1])[pairs[|pairs| - 1].0 := pairs[|pairs| - 1].1]
  }

  /** The requests of the log executed one after the other, each with the pairs its client sent. */
  function Serial(db: Db, log: seq<TxnId>, reqs: seq<Request>): Db {
    if log == [] then db
    else
      var before := Serial(db, log[..|log| - 1], reqs);
      match Wanted(reqs, log[|log| - 1])
      case None => before
      case Some(pairs) => PutAll(before, pairs)
  }

  function Get(db: Db, k: Key): Option<Value> {
    if k in db then Some(db[k]) else None
  }

  function ValueOf(o: Option<Obj>): Option<Value> {
    if o.Some? then Some(o.value.value) else None
  }

  /** The data set that the tables show. */
  function Shown(s: Core): Db {
    map k | k in s.cells && s.cells[k].table.Some? :: s.cells[k].table.value.value
  }

  lemma {:induction false} PutAllLast(db: Db, pairs: seq<(Key, Value)>, k: Key, i: nat)
    requires i < |pairs| && pairs[i].0 == k && (forall j :: i < j < |pairs| ==> pairs[j].0 != k)
    ensures Get(PutAll(db, pairs), k) == Some(pairs[i].1)
  {
    if i < |pairs| - 1 {
      PutAllLast(db, pairs[..|pairs| - 1], k, i);
    }
  }

  lemma {:induction false} PutAllOther(db: Db, pairs: seq<(Key, Value)>, k: Key)
    requires forall j :: 0 <= j < |pairs| ==> pairs[j].0 != k
    ensures Get(PutAll(db, pairs), k) == Get(db, k)
  {
    if pairs != [] {
      PutAllOther(db, pairs[..|pairs| - 1], k);
    }
  }

  /** The value of the key after its first `m` installs. */
  function After(c: Cell, m: nat): Option<Obj>
    requires m <= |c.installs|
  {
    if m == 0 then c.initial else Some(c.installs[m - 1])
  }

  /** The first `m` installs of `k` are those of the first `n` commits. */
  ghost predicate Cut(s: Core, k: Key, n: nat, m: nat) {
    && n <= |s.commits| && m <= |CellOf(s, k).installs|
    && (forall j :: 0 <= j < |CellOf(s, k).installs| && CellOf(s, k).installs[j].Made? ==>
          (j < m <==> Pos(s.commits, CellOf(s, k).installs[j].txn) < n))
    && (forall t :: t in s.msets && k in KeysOf(s.msets[t]) && t in s.commits && Pos(s.commits, t) < n ==>
          Installed(CellOf(s, k), t))
  }

  /** MSETs have the pairs of their requests, and `db` is what the key started with. */
  ghost predicate Grounded(s: Core, db: Db, reqs: seq<Request>, k: Key) {
    && (forall t :: t in s.msets ==> Wanted(reqs, t) == Some(s.msets[t].pairs))
    && Get(db, k) == ValueOf(CellOf(s, k).initial)
  }

  lemma FaithfulIsGrounded(start: Core, reqs: seq<Request>, e: Engine, k: Key)
    requires Faithful(start, reqs, e)
    ensures Grounded(e.core, Shown(start), reqs, k)
  {
    assert CellOf(e.core, k).initial == CellOf(start, k).table;
  }

  lemma SerialNext(db: Db, log: seq<TxnId>, reqs: seq<Request>, n: nat, pairs: seq<(Key, Value)>)
    requires 0 < n <= |log| && Wanted(reqs, log[n - 1]) == Some(pairs)
    ensures Serial(db, log[..n], reqs) == PutAll(Serial(db, log[..n - 1], reqs), pairs)
  {
    hide PutAll, Wanted;
    assert log[..n][..n - 1] == log[..n - 1];
  }

  /** A key that has seen the FINs of the first `n` commits holds the serial result of these. */
  lemma {:induction false} SerialPrefix(s: Core, db: Db, reqs: seq<Request>, k: Key, n: nat, m: nat)
    requires CoreInv(s) && Values(s) && Cut(s, k, n, m) && Grounded(s, db, reqs, k)
    ensures ValueOf(After(CellOf(s, k), m)) == Get(Serial(db, s.commits[..n], reqs), k)
    decreases n
  {
    hide Shapes, CommandsSound, CommandsComplete, InstallsCommitted, AckExact, WaitOrder, CommitLog, InstallOrder,
         CmdsExact, InstallsExact, AllInOrder, Wanted, Serial;
    var c := CellOf(s, k);
    if n == 0 {
      NoneBefore(s, k, m);
      SerialNone(db, reqs);
    } else {
      var t := s.commits[n - 1];
      LogIsCommitted(s, t);
      assert t in s.msets;
      PosAt(s.commits, n - 1);
      SerialNext(db, s.commits, reqs, n, s.msets[t].pairs);
      if k in KeysOf(s.msets[t]) {
        LastInstall(s, k, n, m, t);
        PutAllLast(Serial(db, s.commits[..n - 1], reqs), s.msets[t].pairs, k, c.installs[m - 1].pair);
      } else {
        SkipCommit(s, k, n, m, t);
        SerialPrefix(s, db, reqs, k, n - 1, m);
        PutAllOther(Serial(db, s.commits[..n - 1], reqs), s.msets[t].pairs, k);
      }
    }
  }

  lemma SerialNone(db: Db, reqs: seq<Request>)
    ensures Serial(db, [], reqs) == db
  {
  }

  lemma NoneBefore(s: Core, k: Key, m: nat)
    requires Shapes(s) && Cut(s, k, 0, m)
    ensures m == 0
  {
    var c := CellOf(s, k);
    assert Shape(c);
    assert |c.installs| > 0 ==> c.installs[0].Made? && Pos(s.commits, c.installs[0].txn) >= 0;
  }

  lemma {:induction false} PosAt(log: seq<TxnId>, i: nat)
    requires i < |log| && forall a, b :: 0 <= a < b < |log| ==> log[a] != log[b]
    ensures Pos(log, log[i]) == i
  {
    var p := Pos(log, log[i]);
    assert log[p] == log[i];
  }

  /** If the `n`-th commit writes the key, its value is the last of the cut. */
  lemma LastInstall(s: Core, k: Key, n: nat, m: nat, t: TxnId)
    requires Shapes(s) && AckExact(s) && InstallOrder(s) && InstallsExact(s) && Cut(s, k, n, m)
    requires n > 0 && t == s.commits[n - 1]
    requires t in s.msets && k in KeysOf(s.msets[t]) && Committed(s, t) && Pos(s.commits, t) == n - 1
    ensures m > 0
    ensures var o := CellOf(s, k).installs[m - 1]; var pairs := s.msets[t].pairs;
      && o.Made? && o.txn == t && o.pair < |pairs| && pairs[o.pair] == (k, o.value)
      && (forall j :: o.pair < j < |pairs| ==> pairs[j].0 != k)
  {
    hide AckExact, InstallOrder, Shapes;
    var c := CellOf(s, k);
    assert Installed(c, t);
    var j :| 0 <= j < |c.installs| && c.installs[j].Made? && c.installs[j].txn == t;
    assert j < m;
    LastOfCut(s, k, n, m, j);
    assert c.installs[j] in c.installs;
    CommittedPairs(s, t, k);
    LastPair(s, t, k, c.installs[j]);
  }

  lemma LastPair(s: Core, t: TxnId, k: Key, o: Obj)
    requires ObjExact(s, k, o) && o.txn == t && AllPrepared(s, t, k)
    ensures var pairs := s.msets[t].pairs;
      o.pair < |pairs| && pairs[o.pair] == (k, o.value) && forall j :: o.pair < j < |pairs| ==> pairs[j].0 != k
  {
    var pairs := s.msets[t].pairs;
    assert LastOf(s.msets[t], k, o.pair);
    forall j | 0 <= j < |pairs| && pairs[j].0 == k ensures j <= o.pair {
      assert j in PreparedAt(s.msets[t], k);
    }
  }

  lemma LastOfCut(s: Core, k: Key, n: nat, m: nat, j: nat)
    requires Shapes(s) && InstallOrder(s) && Cut(s, k, n, m) && n > 0 && j < m
    requires CellOf(s, k).installs[j].Made? && Pos(s.commits, CellOf(s, k).installs[j].txn) == n - 1
    ensures j == m - 1
  {
    var c := CellOf(s, k);
    assert Shape(c) && CommitOrdered(s.commits, c.installs);
    assert c.installs[m - 1].Made?;
    assert Pos(s.commits, c.installs[m - 1].txn) < n;
  }

  lemma SkipCommit(s: Core, k: Key, n: nat, m: nat, t: TxnId)
    requires InstallsCommitted(s) && Cut(s, k, n, m) && n > 0 && t == s.commits[n - 1]
    requires t in s.msets && k !in KeysOf(s.msets[t])
    ensures Cut(s, k, n - 1, m)
  {
    var c := CellOf(s, k);
    forall j | 0 <= j < |c.installs| && c.installs[j].Made?
      ensures j < m <==> Pos(s.commits, c.installs[j].txn) < n - 1
    {
      assert Installed(c, c.installs[j].txn);
      assert c.installs[j].txn != t;
    }
  }

  /**
   * The key is unlocked and shows what executing the requests in the order of the log makes of the data
   * that `start` showed; the log has every request that is not parked once, and nothing else.
   */
  ghost predicate SerialAt(start: Core, reqs: seq<Request>, e: Engine, k: Key) {
    && ValueOf(CellOf(e.core, k).table) == Get(Serial(Shown(start), e.core.commits, reqs), k)
    && CellOf(e.core, k).entry.None?
    && LogIsRequests(reqs, e)
  }

  ghost predicate LogIsRequests(reqs: seq<Request>, e: Engine) {
    && (forall t :: t in e.core.commits ==> Wanted(reqs, t).Some?)
    && (forall q :: q in reqs ==> Logged(e.core.commits, q) || IsParked(e.waiting, q))
    && (forall i, j :: 0 <= i < j < |e.core.commits| ==>
          e.core.commits[i].conn != e.core.commits[j].conn || e.core.commits[i].pipeline != e.core.commits[j].pipeline)
  }

  ghost predicate Logged(log: seq<TxnId>, q: Request) {
    exists t :: t in log && Names(q, t)
  }

  /**
   * When the engine is at rest every table shows exactly what running the requests one after the
   * other, in commit order, makes of the loaded data, and every request that is not parked is among
   * them once.
   */
  lemma RestIsSerial(cfg: Config, home: nat -> nat, run: seq<Engine>, events: seq<Event>, n: nat, k: Key)
    requires Run(cfg, home, run, events) && Routes(cfg) && n < |run| && Quiet(cfg, run[n])
    ensures SerialAt(run[0].core, Issued(events[..n]), run[n], k)
  {
    hide EngInv, Quiet, SerialAt, Faithful;
    RunKeeps(cfg, home, run, events, n);
    MsetsAreRequests(cfg, home, run, events, n);
    QuietIsSerial(cfg, home, run[0].core, Issued(events[..n]), run[n], k);
  }

  lemma QuietIsSerial(cfg: Config, home: nat -> nat, start: Core, reqs: seq<Request>, e: Engine, k: Key)
    requires EngInv(cfg, home, e) && Quiet(cfg, e) && Faithful(start, reqs, e)
    ensures SerialAt(start, reqs, e, k)
  {
    hide CoreInv, Values, LineInv, TaskInv, FinInv, OkInv, AdmInv, Layout, Quiet, Faithful, Grounded, Serial,
         LogIsRequests;
    FaithfulIsGrounded(start, reqs, e, k);
    QuietLog(cfg, home, start, reqs, e);
    QuietUnlocked(cfg, home, e, k);
    UnlockedIsSerial(e.core, Shown(start), reqs, k);
  }

  lemma QuietLog(cfg: Config, home: nat -> nat, start: Core, reqs: seq<Request>, e: Engine)
    requires EngInv(cfg, home, e) && Quiet(cfg, e) && Faithful(start, reqs, e)
    ensures LogIsRequests(reqs, e)
  {
    hide CoreInv, Values, LineInv, TaskInv, FinInv, OkInv, AdmInv, Layout, Quiet, Remembers, Wanted, IsParked;
    var s := e.core;
    forall t ensures t in s.msets <==> t in s.commits {
      LogIsCommitted(s, t);
      if t in s.msets {
        QuietCommitted(cfg, home, e, t);
      }
    }
    LogIsCommitted(s, TxnId(0, 0, 0));
    LogFits(reqs, s.msets, e.waiting, s.commits);
  }

  lemma LogFits(reqs: seq<Request>, msets: map<TxnId, Mset>, waiting: seq<seq<Request>>, log: seq<TxnId>)
    requires Matches(reqs, msets, waiting) && (forall t :: t in msets <==> t in log)
    requires forall i, j :: 0 <= i < j < |log| ==> log[i] != log[j]
    ensures forall t :: t in log ==> Wanted(reqs, t).Some?
    ensures forall q :: q in reqs ==> Logged(log, q) || IsParked(waiting, q)
    ensures forall i, j :: 0 <= i < j < |log| ==> log[i].conn != log[j].conn || log[i].pipeline != log[j].pipeline
  {
    hide Wanted, IsParked;
    forall q | q in reqs && Dispatched(msets, q) ensures Logged(log, q) {
      var t :| t in msets && Names(q, t);
      assert t in log;
    }
    forall i, j | 0 <= i < j < |log| ensures log[i].conn != log[j].conn || log[i].pipeline != log[j].pipeline {
      assert log[i] in log && log[j] in log;
    }
  }

  lemma StableTable(s: Core, k: Key)
    requires Shapes(s) && CellOf(s, k).entry.None?
    ensures CellOf(s, k).table == After(CellOf(s, k), |CellOf(s, k).installs|)
  {
    assert Shape(CellOf(s, k));
  }

  lemma HolderKnown(s: Core, k: Key, h: TxnId)
    requires CoreInv(s) && Holds(CellOf(s, k), h)
    ensures h in s.msets && k in KeysOf(s.msets[h])
  {
    hide Shapes, CommandsComplete, InstallsCommitted, AckExact, WaitOrder, CommitLog, InstallOrder;
    assert Pending(CellOf(s, k), h);
    var i :| i in PreparedAt(s.msets[h], k);
  }

  lemma QuietUnlocked(cfg: Config, home: nat -> nat, e: Engine, k: Key)
    requires EngInv(cfg, home, e) && Quiet(cfg, e)
    ensures CellOf(e.core, k).entry.None?
  {
    hide CoreInv, Values, LineInv, TaskInv, FinInv, OkInv, AdmInv, Layout, Quiet;
    var c := CellOf(e.core, k);
    if c.entry.Some? {
      var h := c.entry.value.holder.txn;
      HolderKnown(e.core, k, h);
      QuietCommitted(cfg, home, e, h);
      QuietFinished(cfg, e, h, k);
    }
  }

  lemma InstallsLogged(s: Core, k: Key)
    requires CoreInv(s)
    ensures var h := CellOf(s, k).installs;
      forall j :: 0 <= j < |h| && h[j].Made? ==> Pos(s.commits, h[j].txn) < |s.commits|
  {
    hide Shapes, CommandsSound, CommandsComplete, AckExact, WaitOrder, InstallOrder;
    var c := CellOf(s, k);
    forall j | 0 <= j < |c.installs| && c.installs[j].Made? ensures Pos(s.commits, c.installs[j].txn) < |s.commits| {
      assert Installed(c, c.installs[j].txn);
    }
  }

  /** On an unlocked key every commit that names it has been installed. */
  lemma UnlockedCut(s: Core, k: Key)
    requires CoreInv(s) && CellOf(s, k).entry.None?
    ensures Cut(s, k, |s.commits|, |CellOf(s, k).installs|)
  {
    hide CoreInv, Installed;
    InstallsLogged(s, k);
    forall t | t in s.msets && k in KeysOf(s.msets[t]) && t in s.commits ensures Installed(CellOf(s, k), t) {
      LogIsCommitted(s, t);
      HeldOrInstalled(s, t, k);
    }
  }

  /** An unlocked key shows the serial result of all commits so far. */
  lemma UnlockedIsSerial(s: Core, db: Db, reqs: seq<Request>, k: Key)
    requires CoreInv(s) && Values(s) && Grounded(s, db, reqs, k) && CellOf(s, k).entry.None?
    ensures ValueOf(CellOf(s, k).table) == Get(Serial(db, s.commits, reqs), k)
  {
    hide Values, CommandsSound, CommandsComplete, InstallsCommitted, AckExact, WaitOrder, CommitLog, InstallOrder,
         Shapes, Grounded, Serial, Cut;
    UnlockedCut(s, k);
    SerialPrefix(s, db, reqs, k, |s.commits|, |CellOf(s, k).installs|);
    assert s.commits[..|s.commits|] == s.commits;
    StableTable(s, k);
  }
}
