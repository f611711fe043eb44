/**
 * Conservation of `fin_ack`: it counts exactly the installed pairs whose shard has closed its
 * FIN task, so it reaches the total once, when everything is installed, and then exactly one
 * +OK follows.
 */
module MsetFin {
  import opened Options
  import opened Txn
  import opened KeyCell
  import opened MsetCore
  import opened MsetCoreLaws
  import opened MsetEngine
  import opened MsetTasks

  type Ledgers = map<TxnId, Ledger>

  /** The task has counted pairs that are not in `fin_ack` yet. */
  predicate Open(tasks: Tasks, s: nat, t: TxnId) {
    Running(tasks, s, t) && tasks[s][t].n > 0
  }

  predicate PairInstalled(core: Core, t: TxnId, i: nat)
    requires t in core.msets && i < |core.msets[t].pairs|
  {
    Installed(CellOf(core, core.msets[t].pairs[i].0), t)
  }

  ghost function FinnedAt(cfg: Config, core: Core, t: TxnId, s: nat): set<nat>
    requires t in core.msets
  {
    set i: nat | i < |core.msets[t].pairs| && cfg.route(core.msets[t].pairs[i].0) == s && PairInstalled(core, t, i)
  }

  ghost function Counted(cfg: Config, core: Core, tasks: Tasks, t: TxnId): set<nat>
    requires t in core.msets
  {
    set i: nat | i < |core.msets[t].pairs| && PairInstalled(core, t, i)
                 && !Open(tasks, cfg.route(core.msets[t].pairs[i].0), t)
  }

  ghost predicate FinAckExact(cfg: Config, core: Core, tasks: Tasks, ledger: Ledgers) {
    forall t :: t in core.msets ==> t in ledger && ledger[t].finAck == |Counted(cfg, core, tasks, t)|
  }

  ghost predicate TaskExact(cfg: Config, core: Core, tasks: Tasks) {
    forall s: nat, t :: Open(tasks, s, t) && t in core.msets ==> tasks[s][t].n == |FinnedAt(cfg, core, t, s)|
  }

  /** A shard without an open task has finished all of the MSET's keys, or none. */
  ghost predicate AllOrNone(cfg: Config, core: Core, tasks: Tasks) {
    forall s: nat, t :: Committed(core, t) && !Open(tasks, s, t) ==>
      FinnedAt(cfg, core, t, s) == {} || LocalKeys(cfg, core, t, s) == {}
  }

  ghost predicate FinInv(cfg: Config, core: Core, tasks: Tasks, ledger: Ledgers) {
    FinAckExact(cfg, core, tasks, ledger) && TaskExact(cfg, core, tasks) && AllOrNone(cfg, core, tasks)
  }

  predicate Complete(core: Core, ledger: Ledgers, t: TxnId) {
    t in core.msets && t in ledger && ledger[t].finAck == |core.msets[t].pairs|
  }

  /** One +OK per MSET: given, or promised by the one FIN_ACK under way, once `fin_ack` is complete. */
  ghost predicate OkInv(core: Core, ledger: Ledgers, net: seq<Packet>) {
    && (forall t :: t in core.msets ==>
          t in ledger && ledger[t].oks <= 1 && (ledger[t].oks == 1 ==> Complete(core, ledger, t)))
    && (forall p :: p in net && p.msg.FinAck? ==>
          Complete(core, ledger, p.msg.t) && ledger[p.msg.t].oks == 0)
    && (forall i, j :: 0 <= i < j < |net| && net[i].msg.FinAck? ==> net[i].msg != net[j].msg)
    && (forall t :: Complete(core, ledger, t) && ledger[t].oks == 0 ==>
          Signal(net, core.msets[t].coord, FinAck(t)))
  }

  // ---------------------------------------------------------------- tasks change, installs do not

  ghost predicate SameOpen(tasks: Tasks, tasks': Tasks) {
    forall s: nat, t :: Open(tasks', s, t) == Open(tasks, s, t)
                        && (Open(tasks, s, t) ==> tasks'[s][t].n == tasks[s][t].n)
  }

  lemma FinSameOpen(cfg: Config, core: Core, tasks: Tasks, tasks': Tasks, ledger: Ledgers)
    requires FinInv(cfg, core, tasks, ledger) && SameOpen(tasks, tasks')
    ensures FinInv(cfg, core, tasks', ledger)
  {
    forall t | t in core.msets ensures Counted(cfg, core, tasks', t) == Counted(cfg, core, tasks, t) {}
  }

  // ---------------------------------------------------------------- PREPARE, dispatch, reads

  ghost predicate PairsKept(core: Core, core': Core) {
    forall t :: t in core.msets ==> t in core'.msets && core'.msets[t].pairs == core.msets[t].pairs
  }

  lemma SameFinned(cfg: Config, core: Core, core': Core, tasks: Tasks, t: TxnId)
    requires SameInstalls(core, core') && PairsKept(core, core') && t in core.msets
    ensures Counted(cfg, core', tasks, t) == Counted(cfg, core, tasks, t)
    ensures forall s :: FinnedAt(cfg, core', t, s) == FinnedAt(cfg, core, t, s)
  {
    assert forall i :: 0 <= i < |core.msets[t].pairs| ==> PairInstalled(core', t, i) == PairInstalled(core, t, i);
  }

  lemma NoneFinned(cfg: Config, core: Core, tasks: Tasks, t: TxnId)
    requires InstallsCommitted(core) && t in core.msets && !Committed(core, t)
    ensures Counted(cfg, core, tasks, t) == {} && forall s :: FinnedAt(cfg, core, t, s) == {}
  {
  }

  /** A step that installs nothing and commits at most `x`. */
  lemma FinQuiet(cfg: Config, core: Core, core': Core, tasks: Tasks, ledger: Ledgers, x: Option<TxnId>)
    requires FinInv(cfg, core, tasks, ledger) && SameInstalls(core, core') && PairsKept(core, core')
    requires core'.msets.Keys == core.msets.Keys && InstallsCommitted(core)
    requires CoreAdvances(cfg, core, core', x) && (x.Some? ==> x.value in core.msets && !Committed(core, x.value))
    ensures FinInv(cfg, core', tasks, ledger)
  {
    forall t | t in core'.msets ensures ledger[t].finAck == |Counted(cfg, core', tasks, t)| {
      SameFinned(cfg, core, core', tasks, t);
    }
    forall s: nat, t | Open(tasks, s, t) && t in core'.msets ensures tasks[s][t].n == |FinnedAt(cfg, core', t, s)| {
      SameFinned(cfg, core, core', tasks, t);
    }
    forall s: nat, t | Committed(core', t) && !Open(tasks, s, t)
      ensures FinnedAt(cfg, core', t, s) == {} || LocalKeys(cfg, core', t, s) == {}
    {
      SameFinned(cfg, core, core', tasks, t);
      if x == Some(t) {
        NoneFinned(cfg, core, tasks, t);
      } else {
        assert LocalKeys(cfg, core', t, s) <= LocalKeys(cfg, core, t, s);
      }
    }
  }

  lemma FinBegin(cfg: Config, core: Core, tasks: Tasks, ledger: Ledgers, t: TxnId, c: nat, pairs: seq<(Key, Value)>)
    requires FinInv(cfg, core, tasks, ledger) && InstallsCommitted(core) && CanBegin(core, t, pairs)
    requires forall s: nat :: !Running(tasks, s, t)
    ensures FinInv(cfg, Begin(core, t, c, pairs), tasks, ledger[t := Ledger(0, 0)])
  {
    var core' := Begin(core, t, c, pairs);
    BeginFrame(core, t, c, pairs);
    forall u | u in core'.msets && u != t ensures Counted(cfg, core', tasks, u) == Counted(cfg, core, tasks, u) {
      SameFinned(cfg, core, core', tasks, u);
    }
    assert Counted(cfg, core', tasks, t) == {} by { BlankFinned(cfg, core, core', tasks, t); }
    forall s: nat, u | Open(tasks, s, u) && u in core'.msets ensures tasks[s][u].n == |FinnedAt(cfg, core', u, s)| {
      SameFinned(cfg, core, core', tasks, u);
    }
    BeginAllOrNone(cfg, core, core', tasks, t);
  }

  lemma BeginFrame(core: Core, t: TxnId, c: nat, pairs: seq<(Key, Value)>)
    requires CanBegin(core, t, pairs)
    ensures var core' := Begin(core, t, c, pairs);
      && SameInstalls(core, core') && PairsKept(core, core') && t in core'.msets
      && core'.cells == core.cells
      && (forall u :: Committed(core', u) ==> Committed(core, u))
      && (forall u :: u != t && u in core'.msets ==> u in core.msets && core'.msets[u] == core.msets[u])
  {
    assert forall k :: CellOf(Begin(core, t, c, pairs), k) == CellOf(core, k);
  }

  lemma BlankFinned(cfg: Config, core: Core, core': Core, tasks: Tasks, t: TxnId)
    requires InstallsCommitted(core) && SameInstalls(core, core') && t !in core.msets && t in core'.msets
    ensures Counted(cfg, core', tasks, t) == {}
  {
    forall i: nat | i < |core'.msets[t].pairs| ensures !PairInstalled(core', t, i) {
      var k := core'.msets[t].pairs[i].0;
      assert CellOf(core', k).installs == CellOf(core, k).installs;
      assert Installed(CellOf(core, k), t) ==> Committed(core, t);
      assert Installed(CellOf(core', k), t) == Installed(CellOf(core, k), t);
    }
  }

  lemma BeginAllOrNone(cfg: Config, core: Core, core': Core, tasks: Tasks, t: TxnId)
    requires AllOrNone(cfg, core, tasks) && SameInstalls(core, core') && PairsKept(core, core')
             && core'.cells == core.cells
    requires forall u :: Committed(core', u) ==> Committed(core, u)
    ensures AllOrNone(cfg, core', tasks)
  {
    forall s: nat, u | Committed(core', u) && !Open(tasks, s, u)
      ensures FinnedAt(cfg, core', u, s) == {} || LocalKeys(cfg, core', u, s) == {}
    {
      SameFinned(cfg, core, core', tasks, u);
      assert KeysOf(core'.msets[u]) == KeysOf(core.msets[u]);
      assert LocalKeys(cfg, core', u, s) == LocalKeys(cfg, core, u, s);
    }
  }

  // ---------------------------------------------------------------- FIN of one key

  /** Pairs of a committed MSET that name `k`. */
  lemma CommittedPairs(core: Core, t: TxnId, k: Key)
    requires AckExact(core) && Committed(core, t)
    ensures AllPrepared(core, t, k)
  {
    assert AckExactFor(core, t);
    assert core.msets[t].left == {};
  }

  /** `core'` has `k` installed for `t`, and nothing else has changed about what is installed. */
  ghost predicate Installs(core: Core, core': Core, t: TxnId, k: Key) {
    && core'.msets.Keys == core.msets.Keys
    && (forall u :: u in core.msets ==> core'.msets[u].pairs == core.msets[u].pairs)
    && (forall u, k' :: Installed(CellOf(core', k'), u) <==> Installed(CellOf(core, k'), u) || (u == t && k' == k))
  }

  /** All pairs of `t` that name `k` are prepared. */
  ghost predicate AllPrepared(core: Core, t: TxnId, k: Key)
    requires t in core.msets
  {
    forall i: nat :: i in PreparedAt(core.msets[t], k) <==> i < |core.msets[t].pairs| && core.msets[t].pairs[i].0 == k
  }

  lemma FinInstall(cfg: Config, core: Core, core': Core, tasks: Tasks, tasks': Tasks, ledger: Ledgers,
                   s: nat, t: TxnId, k: Key, n: nat, x: Option<TxnId>)
    requires FinInv(cfg, core, tasks, ledger) && Installs(core, core', t, k)
    requires Committed(core, t) && Running(tasks, s, t) && k in LocalKeys(cfg, core, t, s) && AllPrepared(core, t, k)
    requires !Installed(CellOf(core, k), t) && n == |PreparedAt(core.msets[t], k)| && n > 0
    requires tasks' == tasks[s := tasks[s][t := tasks[s][t].(n := tasks[s][t].n + n)]]
    requires CoreAdvances(cfg, core, core', x)
    requires x.Some? ==> x.value in core.msets && x.value != t && forall r: nat :: FinnedAt(cfg, core, x.value, r) == {}
    ensures FinInv(cfg, core', tasks', ledger)
  {
    FinInstallTask(cfg, core, core', tasks, tasks', s, t, k, n);
    forall u | u in core'.msets ensures Counted(cfg, core', tasks', u) == Counted(cfg, core, tasks, u) {
      FinInstallCount(cfg, core, core', tasks, tasks', s, t, k, n, u);
    }
    FinInstallAllOrNone(cfg, core, core', tasks, tasks', s, t, k, n, x);
  }

  lemma FinInstallAllOrNone(cfg: Config, core: Core, core': Core, tasks: Tasks, tasks': Tasks,
                            s: nat, t: TxnId, k: Key, n: nat, x: Option<TxnId>)
    requires AllOrNone(cfg, core, tasks) && Installs(core, core', t, k)
    requires Committed(core, t) && Running(tasks, s, t) && k in LocalKeys(cfg, core, t, s) && n > 0
    requires tasks' == tasks[s := tasks[s][t := tasks[s][t].(n := tasks[s][t].n + n)]]
    requires CoreAdvances(cfg, core, core', x)
    requires x.Some? ==> x.value in core.msets && x.value != t && forall r: nat :: FinnedAt(cfg, core, x.value, r) == {}
    ensures AllOrNone(cfg, core', tasks')
  {
    forall r: nat, u | Committed(core', u) && !Open(tasks', r, u)
      ensures FinnedAt(cfg, core', u, r) == {} || LocalKeys(cfg, core', u, r) == {}
    {
      assert !Open(tasks, r, u);
      FinInstallOther(cfg, core, core', t, k, u, r);
      if x != Some(u) {
        assert LocalKeys(cfg, core', u, r) <= LocalKeys(cfg, core, u, r);
      }
    }
  }

  lemma FinInstallOther(cfg: Config, core: Core, core': Core, t: TxnId, k: Key, u: TxnId, r: nat)
    requires Installs(core, core', t, k) && u in core.msets && (u != t || cfg.route(k) != r)
    ensures FinnedAt(cfg, core', u, r) == FinnedAt(cfg, core, u, r)
  {
  }

  lemma FinInstallHere(cfg: Config, core: Core, core': Core, s: nat, t: TxnId, k: Key)
    requires Installs(core, core', t, k) && t in core.msets && cfg.route(k) == s && AllPrepared(core, t, k)
    requires !Installed(CellOf(core, k), t)
    ensures |FinnedAt(cfg, core', t, s)| == |FinnedAt(cfg, core, t, s)| + |PreparedAt(core.msets[t], k)|
  {
    assert FinnedAt(cfg, core', t, s) == FinnedAt(cfg, core, t, s) + PreparedAt(core.msets[t], k);
    assert FinnedAt(cfg, core, t, s) !! PreparedAt(core.msets[t], k);
  }

  lemma FinInstallTask(cfg: Config, core: Core, core': Core, tasks: Tasks, tasks': Tasks, s: nat, t: TxnId, k: Key,
                       n: nat)
    requires TaskExact(cfg, core, tasks) && AllOrNone(cfg, core, tasks) && Installs(core, core', t, k)
    requires Committed(core, t) && Running(tasks, s, t) && k in LocalKeys(cfg, core, t, s)
    requires !Installed(CellOf(core, k), t) && n == |PreparedAt(core.msets[t], k)| && n > 0
    requires AllPrepared(core, t, k)
    requires tasks' == tasks[s := tasks[s][t := tasks[s][t].(n := tasks[s][t].n + n)]]
    ensures TaskExact(cfg, core', tasks')
  {
    forall r: nat, u | Open(tasks', r, u) && u in core'.msets ensures tasks'[r][u].n == |FinnedAt(cfg, core', u, r)| {
      if r == s && u == t {
        FinInstallHere(cfg, core, core', s, t, k);
        assert !Open(tasks, s, t) ==> FinnedAt(cfg, core, t, s) == {};
      } else {
        assert Open(tasks, r, u);
        FinInstallOther(cfg, core, core', t, k, u, r);
      }
    }
  }

  lemma FinInstallCount(cfg: Config, core: Core, core': Core, tasks: Tasks, tasks': Tasks, s: nat, t: TxnId, k: Key,
                        n: nat, u: TxnId)
    requires AllOrNone(cfg, core, tasks) && Installs(core, core', t, k)
    requires Committed(core, t) && Running(tasks, s, t) && k in LocalKeys(cfg, core, t, s) && n > 0
    requires tasks' == tasks[s := tasks[s][t := tasks[s][t].(n := tasks[s][t].n + n)]] && u in core.msets
    ensures Counted(cfg, core', tasks', u) == Counted(cfg, core, tasks, u)
  {
    assert forall r: nat :: Open(tasks', r, u) <==> Open(tasks, r, u) || (r == s && u == t);
    if u == t && !Open(tasks, s, t) {
      assert FinnedAt(cfg, core, t, s) == {};
      forall i: nat | i < |core.msets[t].pairs| && cfg.route(core.msets[t].pairs[i].0) == s
        ensures !PairInstalled(core, t, i)
      {
        assert i !in FinnedAt(cfg, core, t, s);
      }
    }
  }

  // ---------------------------------------------------------------- closing a task

  lemma FinClose(cfg: Config, core: Core, tasks: Tasks, ledger: Ledgers, s: nat, t: TxnId)
    requires FinInv(cfg, core, tasks, ledger) && t in core.msets && Open(tasks, s, t)
             && LocalKeys(cfg, core, t, s) == {}
    ensures FinInv(cfg, core, tasks[s := tasks[s] - {t}],
                   ledger[t := ledger[t].(finAck := ledger[t].finAck + tasks[s][t].n)])
    ensures ledger[t].finAck + tasks[s][t].n <= |core.msets[t].pairs|
  {
    var tasks' := tasks[s := tasks[s] - {t}];
    assert forall r: nat, u :: Open(tasks', r, u) <==> Open(tasks, r, u) && !(r == s && u == t);
    CloseCount(cfg, core, tasks, tasks', s, t);
    forall u | u in core.msets && u != t ensures Counted(cfg, core, tasks', u) == Counted(cfg, core, tasks, u) {}
  }

  lemma CloseCount(cfg: Config, core: Core, tasks: Tasks, tasks': Tasks, s: nat, t: TxnId)
    requires t in core.msets && Open(tasks, s, t)
    requires forall r: nat :: Open(tasks', r, t) <==> Open(tasks, r, t) && r != s
    ensures |Counted(cfg, core, tasks', t)| == |Counted(cfg, core, tasks, t)| + |FinnedAt(cfg, core, t, s)|
    ensures |Counted(cfg, core, tasks', t)| <= |core.msets[t].pairs|
  {
    assert Counted(cfg, core, tasks', t) == Counted(cfg, core, tasks, t) + FinnedAt(cfg, core, t, s);
    assert Counted(cfg, core, tasks, t) !! FinnedAt(cfg, core, t, s);
    SubsetSize(Counted(cfg, core, tasks', t), Upto(|core.msets[t].pairs|));
  }

  lemma {:induction false} SubsetSize(a: set<nat>, b: set<nat>)
    requires a <= b
    ensures |a| <= |b|
    ensures |a| == |b| ==> a == b
  {
    if a != {} {
      var x :| x in a;
      SubsetSize(a - {x}, b - {x});
    }
  }

  /** With an open task `fin_ack` is not complete. */
  lemma OpenIsIncomplete(cfg: Config, core: Core, tasks: Tasks, ledger: Ledgers, s: nat, t: TxnId)
    requires FinInv(cfg, core, tasks, ledger) && t in core.msets && Open(tasks, s, t)
    ensures !Complete(core, ledger, t)
  {
    var tasks' := tasks[s := tasks[s] - {t}];
    assert forall r: nat :: Open(tasks', r, t) <==> Open(tasks, r, t) && r != s;
    CloseCount(cfg, core, tasks, tasks', s, t);
  }

  /** `fin_ack` is complete exactly when every pair is installed and every shard has reported. */
  lemma CompleteMeansInstalled(cfg: Config, core: Core, tasks: Tasks, ledger: Ledgers, t: TxnId, i: nat)
    requires FinInv(cfg, core, tasks, ledger) && Complete(core, ledger, t) && i < |core.msets[t].pairs|
    ensures PairInstalled(core, t, i)
  {
    SubsetSize(Counted(cfg, core, tasks, t), Upto(|core.msets[t].pairs|));
    assert i in Counted(cfg, core, tasks, t);
  }

  lemma InstalledMeansComplete(cfg: Config, core: Core, tasks: Tasks, ledger: Ledgers, t: TxnId)
    requires FinInv(cfg, core, tasks, ledger) && t in core.msets
    requires forall i: nat :: i < |core.msets[t].pairs| ==> PairInstalled(core, t, i)
    requires forall s: nat :: !Running(tasks, s, t)
    ensures Complete(core, ledger, t)
  {
    hide TaskExact, AllOrNone, PairInstalled;
    AllCounted(cfg, core, tasks, t);
  }

  lemma AllCounted(cfg: Config, core: Core, tasks: Tasks, t: TxnId)
    requires t in core.msets
    requires forall i: nat :: i < |core.msets[t].pairs| ==> PairInstalled(core, t, i)
    requires forall s: nat :: !Running(tasks, s, t)
    ensures |Counted(cfg, core, tasks, t)| == |core.msets[t].pairs|
  {
    hide PairInstalled;
    assert Counted(cfg, core, tasks, t) == Upto(|core.msets[t].pairs|);
  }

  // ---------------------------------------------------------------- replies

  lemma OkSend(core: Core, ledger: Ledgers, net: seq<Packet>, p: Packet)
    requires OkInv(core, ledger, net) && !p.msg.FinAck?
    ensures OkInv(core, ledger, net + [p])
  {
    forall t | Complete(core, ledger, t) && ledger[t].oks == 0
      ensures Signal(net + [p], core.msets[t].coord, FinAck(t))
    {
      GrowSignal(net, p, core.msets[t].coord, FinAck(t));
    }
  }

  lemma OkDrop(core: Core, ledger: Ledgers, net: seq<Packet>, j: nat)
    requires OkInv(core, ledger, net) && j < |net| && !net[j].msg.FinAck?
    ensures OkInv(core, ledger, net[..j] + net[j + 1..])
  {
    var net' := net[..j] + net[j + 1..];
    assert forall i :: 0 <= i < |net'| ==> net'[i] == net[if i < j then i else i + 1];
    assert forall p :: p in net' ==> p in net;
    forall t | Complete(core, ledger, t) && ledger[t].oks == 0 ensures Signal(net', core.msets[t].coord, FinAck(t)) {
      ShrinkSignal(net, j, core.msets[t].coord, FinAck(t));
    }
  }

  /** FIN_ACK arrives: the reply is given. */
  lemma OkDeliver(core: Core, ledger: Ledgers, net: seq<Packet>, j: nat)
    requires OkInv(core, ledger, net) && j < |net| && net[j].msg.FinAck?
    ensures var t := net[j].msg.t;
      t in ledger && ledger[t].oks == 0
      && OkInv(core, ledger[t := ledger[t].(oks := ledger[t].oks + 1)], net[..j] + net[j + 1..])
  {
    var t := net[j].msg.t;
    assert net[j] in net;
    var net' := net[..j] + net[j + 1..];
    var ledger' := ledger[t := ledger[t].(oks := ledger[t].oks + 1)];
    assert forall i :: 0 <= i < |net'| ==> net'[i] == net[if i < j then i else i + 1];
    forall p | p in net' && p.msg.FinAck? ensures Complete(core, ledger', p.msg.t) && ledger'[p.msg.t].oks == 0 {
      var i :| 0 <= i < |net'| && net'[i] == p;
      assert p == net[if i < j then i else i + 1];
      assert p in net;
    }
    forall u | Complete(core, ledger', u) && ledger'[u].oks == 0 ensures Signal(net', core.msets[u].coord, FinAck(u)) {
      assert Complete(core, ledger, u);
      ShrinkSignal(net, j, core.msets[u].coord, FinAck(u));
    }
  }

  /** The shard that completes `fin_ack` replies, or sends the only FIN_ACK. */
  lemma OkClose(core: Core, ledger: Ledgers, net: seq<Packet>, s: nat, t: TxnId, n: nat)
    requires OkInv(core, ledger, net) && t in core.msets && !Complete(core, ledger, t) && n > 0
    ensures var l := ledger[t].(finAck := ledger[t].finAck + n);
      if l.finAck != |core.msets[t].pairs| then OkInv(core, ledger[t := l], net)
      else if core.msets[t].coord == s then ledger[t].oks == 0 && OkInv(core, ledger[t := l.(oks := l.oks + 1)], net)
      else OkInv(core, ledger[t := l], net + [Packet(s, core.msets[t].coord, FinAck(t))])
  {
    var l := ledger[t].(finAck := ledger[t].finAck + n);
    assert forall p :: p in net && p.msg.FinAck? ==> p.msg.t != t;
    if l.finAck == |core.msets[t].pairs| {
      if core.msets[t].coord == s {
        var ledger' := ledger[t := l.(oks := l.oks + 1)];
        assert forall u :: u != t ==> Complete(core, ledger', u) == Complete(core, ledger, u);
      } else {
        OkCloseRemote(core, ledger, net, s, t, l);
      }
    } else {
      assert forall u :: u != t ==> Complete(core, ledger[t := l], u) == Complete(core, ledger, u);
    }
  }

  lemma OkCloseRemote(core: Core, ledger: Ledgers, net: seq<Packet>, s: nat, t: TxnId, l: Ledger)
    requires OkInv(core, ledger, net) && t in core.msets && !Complete(core, ledger, t)
    requires l == ledger[t].(finAck := |core.msets[t].pairs|)
    ensures OkInv(core, ledger[t := l], net + [Packet(s, core.msets[t].coord, FinAck(t))])
  {
    var p := Packet(s, core.msets[t].coord, FinAck(t));
    var net' := net + [p];
    var ledger' := ledger[t := l];
    assert forall q :: q in net && q.msg.FinAck? ==> q.msg.t != t;
    assert forall u :: u != t ==> Complete(core, ledger', u) == Complete(core, ledger, u);
    forall q | q in net' && q.msg.FinAck? ensures Complete(core, ledger', q.msg.t) && ledger'[q.msg.t].oks == 0 {}
    forall i, j | 0 <= i < j < |net'| && net'[i].msg.FinAck? ensures net'[i].msg != net'[j].msg {
      assert net'[i] == net[i] && net[i] in net;
    }
    forall u | Complete(core, ledger', u) && ledger'[u].oks == 0 ensures Signal(net', core.msets[u].coord, FinAck(u)) {
      GrowSignal(net, p, core.msets[u].coord, FinAck(u));
    }
  }

  /** Steps that keep pairs and coordinators keep the state of the replies. */
  lemma OkSameMsets(core: Core, core': Core, ledger: Ledgers, net: seq<Packet>)
    requires OkInv(core, ledger, net) && core'.msets.Keys == core.msets.Keys
    requires forall t :: t in core.msets ==>
      core'.msets[t].pairs == core.msets[t].pairs && core'.msets[t].coord == core.msets[t].coord
    ensures OkInv(core', ledger, net)
  {
    assert forall t :: Complete(core', ledger, t) == Complete(core, ledger, t);
  }

  lemma OkBegin(core: Core, ledger: Ledgers, net: seq<Packet>, t: TxnId, c: nat, pairs: seq<(Key, Value)>)
    requires OkInv(core, ledger, net) && CanBegin(core, t, pairs)
    ensures OkInv(Begin(core, t, c, pairs), ledger[t := Ledger(0, 0)], net)
  {
    var core' := Begin(core, t, c, pairs);
    var ledger' := ledger[t := Ledger(0, 0)];
    assert forall u :: u != t ==> Complete(core', ledger', u) == Complete(core, ledger, u);
    assert !Complete(core', ledger', t);
  }
}
