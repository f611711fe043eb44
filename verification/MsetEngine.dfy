/**
 * The whole MSET engine: shards that run their handlers to completion, FIFO channels between
 * them, FIN tasks, the `fin_ack` counters, replies and the per-coordinator admission limit.
 * A handler is split at its accesses to shared counters and channels, but for a preemption, which
 * takes the victim's acknowledgement back and counts the winner's in one step; the pieces of
 * different shards interleave freely.
 */
module MsetEngine {
  import opened Txn
  import opened KeyCell
  import opened MsetCore

  /**
   * What a shard is in the middle of: nothing; preparing its pairs of `t` (`unsent` are the
   * shards whose batch the coordinator has not sent yet); or a GET past its arrival.
   */
  datatype Work = Idle | Preparing(t: TxnId, unsent: set<nat>) | Reading(k: Key, r: Read)

  /** FIN of one MSET on one shard: remote shards still to be told, and pairs counted so far. */
  datatype Task = Task(unsent: set<nat>, n: nat)

  datatype Msg = Batch(t: TxnId) | Ack(t: TxnId) | Fin(t: TxnId) | FinAck(t: TxnId)

  /** Packets of one (src, dst) pair are delivered in the order in which they were sent. */
  datatype Packet = Packet(src: nat, dst: nat, msg: Msg)

  /** `finAck` is the shared counter; `oks` counts the +OK replies given to the client. */
  datatype Ledger = Ledger(finAck: nat, oks: nat)

  datatype Request = Request(conn: nat, pipeline: nat, pairs: seq<(Key, Value)>)

  datatype Engine = Engine(core: Core, work: seq<Work>, tasks: seq<map<TxnId, Task>>, net: seq<Packet>,
                           ledger: map<TxnId, Ledger>, inflight: seq<nat>, waiting: seq<seq<Request>>,
                           clock: nat)

  predicate Free(e: Engine, s: nat) {
    s < |e.work| && s < |e.tasks| && e.work[s].Idle? && e.tasks[s] == map[]
  }

  predicate Busy(e: Engine, s: nat) {
    s < |e.work| && s < |e.tasks| && e.tasks[s] == map[]
  }

  /** Pairs of the MSET that belong to shard `s` and are not prepared yet. */
  function LeftAt(cfg: Config, m: Mset, s: nat): set<nat> {
    set i: nat | i < |m.pairs| && cfg.route(m.pairs[i].0) == s && i in m.left
  }

  function Remotes(cfg: Config, pairs: seq<(Key, Value)>, c: nat): set<nat> {
    set i: nat | i < |pairs| && cfg.route(pairs[i].0) != c :: cfg.route(pairs[i].0)
  }

  /** Keys of a committed MSET on shard `s` that FIN has not reached yet. */
  function LocalKeys(cfg: Config, core: Core, t: TxnId, s: nat): set<Key>
    requires t in core.msets
  {
    set k | k in KeysOf(core.msets[t]) && cfg.route(k) == s && Holds(CellOf(core, k), t)
  }

  predicate IsNext(cfg: Config, m: Mset, s: nat, i: nat) {
    i in LeftAt(cfg, m, s) && forall j :: j in LeftAt(cfg, m, s) ==> i <= j
  }

  function Send(e: Engine, src: nat, dst: nat, msg: Msg): Engine {
    e.(net := e.net + [Packet(src, dst, msg)])
  }

  /** The last acknowledgement happened on shard `s`: run FIN there, or tell the coordinator. */
  function Ready(cfg: Config, e: Engine, s: nat, t: TxnId): Engine
    requires t in e.core.msets && s < |e.tasks|
  {
    if e.core.msets[t].coord == s then
      e.(tasks := e.tasks[s := e.tasks[s][t := Task(Upto(cfg.shards) - {s}, 0)]])
    else Send(e, s, e.core.msets[t].coord, Ack(t))
  }

  /** Moves to a new core state in which at most `t` has newly committed. */
  function Advance(cfg: Config, e: Engine, core': Core, s: nat, t: TxnId): Engine
    requires t in core'.msets && s < |e.tasks|
  {
    if Committed(core', t) && !Committed(e.core, t) then Ready(cfg, e.(core := core'), s, t)
    else e.(core := core')
  }

  // ---------------------------------------------------------------- client requests

  /** The request is the next one of its connection. */
  predicate Admissible(cfg: Config, home: nat -> nat, e: Engine, c: nat, req: Request) {
    && c < |e.inflight| && c < |e.waiting| && home(req.conn) == c && |req.pairs| > 0
    && (forall u :: u in e.core.msets && u.conn == req.conn ==> u.pipeline < req.pipeline)
    && (forall q :: q in e.waiting[c] ==> q.conn != req.conn)
  }

  function Dispatch(cfg: Config, e: Engine, c: nat, req: Request, ts: nat): Engine
    requires c < |e.work| && c < |e.inflight|
  {
    var t := TxnId(ts, req.conn, req.pipeline);
    e.(core := Begin(e.core, t, c, req.pairs),
       work := e.work[c := Preparing(t, Remotes(cfg, req.pairs, c))],
       ledger := e.ledger[t := Ledger(0, 0)],
       inflight := e.inflight[c := e.inflight[c] + 1],
       clock := ts)
  }

  // ---------------------------------------------------------------- events

  datatype Event =
    | Submit(c: nat, req: Request, ts: nat)
    | Park(c: nat, req: Request)
    | Resume(c: nat, ts: nat)
    | PrepareNext(s: nat, i: nat)
    | SendBatch(s: nat, dst: nat)
    | LoopExit(s: nat)
    | EarlyCommit(s: nat, k: Key)
    | Deliver(j: nat)
    | SendFin(s: nat, t: TxnId, dst: nat)
    | FinishOne(s: nat, t: TxnId, k: Key)
    | Tally(s: nat, t: TxnId)
    | Arrive(s: nat, k: Key, r: Read)
    | Conclude(s: nat)

  /** The key that the handler running on `s` is about to touch. */
  predicate Touches(cfg: Config, e: Engine, s: nat, k: Key)
    requires s < |e.work|
  {
    match e.work[s]
    case Idle => false
    case Reading(k', _) => k' == k
    case Preparing(t, _) =>
      && t in e.core.msets
      && exists i :: i in LeftAt(cfg, e.core.msets[t], s) && IsNext(cfg, e.core.msets[t], s, i)
                     && e.core.msets[t].pairs[i].0 == k
  }

  predicate HasTask(e: Engine, s: nat, t: TxnId) {
    s < |e.tasks| && t in e.tasks[s] && t in e.core.msets && t in e.ledger
  }

  predicate CanPrepareNext(cfg: Config, e: Engine, s: nat, i: nat) {
    && Busy(e, s) && e.work[s].Preparing? && e.work[s].t in e.core.msets
    && IsNext(cfg, e.core.msets[e.work[s].t], s, i)
  }

  predicate CanSendBatch(cfg: Config, e: Engine, s: nat, dst: nat) {
    && Busy(e, s) && e.work[s].Preparing? && e.work[s].t in e.core.msets
    && LeftAt(cfg, e.core.msets[e.work[s].t], s) == {} && dst in e.work[s].unsent
  }

  predicate CanExit(cfg: Config, e: Engine, s: nat) {
    && Busy(e, s) && e.work[s].Preparing? && e.work[s].t in e.core.msets
    && LeftAt(cfg, e.core.msets[e.work[s].t], s) == {} && e.work[s].unsent == {}
  }

  predicate CanEarlyCommit(cfg: Config, e: Engine, s: nat, k: Key) {
    && Busy(e, s) && Touches(cfg, e, s, k) && CellOf(e.core, k).entry.Some?
    && Committed(e.core, CellOf(e.core, k).entry.value.holder.txn)
  }

  /** Packet `j` is the first of its channel, its receiver is free, and what it names is known. */
  predicate CanDeliver(e: Engine, j: nat) {
    && j < |e.net| && Free(e, e.net[j].dst) && e.net[j].dst < |e.inflight|
    && e.net[j].msg.t in e.core.msets && e.net[j].msg.t in e.ledger
    && (forall i :: 0 <= i < j ==> e.net[i].src != e.net[j].src || e.net[i].dst != e.net[j].dst)
  }

  predicate CanSendFin(e: Engine, s: nat, t: TxnId, dst: nat) {
    HasTask(e, s, t) && dst in e.tasks[s][t].unsent
  }

  predicate CanFinishOne(cfg: Config, e: Engine, s: nat, t: TxnId, k: Key) {
    HasTask(e, s, t) && Committed(e.core, t) && k in LocalKeys(cfg, e.core, t, s)
  }

  predicate CanTally(cfg: Config, e: Engine, s: nat, t: TxnId) {
    && HasTask(e, s, t) && s < |e.inflight|
    && e.tasks[s][t].unsent == {} && LocalKeys(cfg, e.core, t, s) == {}
  }

  predicate Enabled(cfg: Config, home: nat -> nat, e: Engine, ev: Event) {
    match ev
    case Submit(c, req, ts) =>
      Free(e, c) && Admissible(cfg, home, e, c, req) && e.inflight[c] < cfg.limit && e.clock <= ts
    case Park(c, req) =>
      Free(e, c) && Admissible(cfg, home, e, c, req) && e.inflight[c] >= cfg.limit
    case Resume(c, ts) =>
      && Free(e, c) && c < |e.inflight| && c < |e.waiting| && e.waiting[c] != []
      && e.inflight[c] < cfg.limit && e.clock <= ts
    case PrepareNext(s, i) => CanPrepareNext(cfg, e, s, i)
    case SendBatch(s, dst) => CanSendBatch(cfg, e, s, dst)
    case LoopExit(s) => CanExit(cfg, e, s)
    case EarlyCommit(s, k) => CanEarlyCommit(cfg, e, s, k)
    case Deliver(j) => CanDeliver(e, j)
    case SendFin(s, t, dst) => CanSendFin(e, s, t, dst)
    case FinishOne(s, t, k) => CanFinishOne(cfg, e, s, t, k)
    case Tally(s, t) => CanTally(cfg, e, s, t)
    case Arrive(s, k, r) => Free(e, s) && cfg.route(k) == s && r.origin < cfg.shards
    case Conclude(s) => Busy(e, s) && e.work[s].Reading?
  }

  /** Requests that only a client can issue; every other event is the engine's own. */
  predicate FromClient(ev: Event) {
    ev.Submit? || ev.Park? || ev.Arrive?
  }

  // ---------------------------------------------------------------- effects

  function GiveOk(e: Engine, s: nat, t: TxnId): Engine
    requires t in e.ledger && s < |e.inflight|
  {
    var l := e.ledger[t];
    e.(ledger := e.ledger[t := l.(oks := l.oks + 1)],
       inflight := e.inflight[s := if e.inflight[s] > 0 then e.inflight[s] - 1 else 0])
  }

  function Receive(cfg: Config, e: Engine, p: Packet): Engine
    requires p.dst < |e.work| && p.dst < |e.tasks| && p.dst < |e.inflight| && p.msg.t in e.ledger
  {
    match p.msg
    case Batch(t) => e.(work := e.work[p.dst := Preparing(t, {})])
    case Ack(t) => e.(tasks := e.tasks[p.dst := map[t := Task(Upto(cfg.shards) - {p.dst}, 0)]])
    case Fin(t) => e.(tasks := e.tasks[p.dst := map[t := Task({}, 0)]])
    case FinAck(t) => GiveOk(e, p.dst, t)
  }

  /** All local commands of `t` are done: add them to `fin_ack`; the last shard reports. */
  function TallyUp(e: Engine, s: nat, t: TxnId): Engine
    requires HasTask(e, s, t) && s < |e.inflight|
  {
    var n := e.tasks[s][t].n;
    var e1 := e.(tasks := e.tasks[s := e.tasks[s] - {t}]);
    if n == 0 then e1
    else
      var l := e.ledger[t].(finAck := e.ledger[t].finAck + n);
      var e2 := e1.(ledger := e.ledger[t := l]);
      if l.finAck != |e.core.msets[t].pairs| then e2
      else if e.core.msets[t].coord == s then GiveOk(e2, s, t)
      else Send(e2, s, e.core.msets[t].coord, FinAck(t))
  }

  function FinishTask(cfg: Config, e: Engine, s: nat, t: TxnId, k: Key): Engine
    requires CanFinishOne(cfg, e, s, t, k)
  {
    var entry := CellOf(e.core, k).entry.value;
    var task := e.tasks[s][t];
    var e1 := e.(tasks := e.tasks[s := e.tasks[s][t := task.(n := task.n + entry.holder.acks)]]);
    var core' := FinishStep(e.core, t, k);
    match Promoted(entry)
    case None => e1.(core := core')
    case Some(p) => if p in core'.msets then Advance(cfg, e1, core', s, p) else e1.(core := core')
  }

  /** A request over the limit waits until its coordinator has room. */
  function ParkRequest(e: Engine, c: nat, req: Request): Engine
    requires c < |e.waiting|
  {
    e.(waiting := e.waiting[c := e.waiting[c] + [req]])
  }

  function ResumeRequest(cfg: Config, e: Engine, c: nat, ts: nat): Engine
    requires c < |e.work| && c < |e.inflight| && c < |e.waiting| && e.waiting[c] != []
  {
    Dispatch(cfg, e.(waiting := e.waiting[c := e.waiting[c][1..]]), c, e.waiting[c][0], ts)
  }

  function PreparePair(cfg: Config, e: Engine, s: nat, i: nat): Engine
    requires CanPrepareNext(cfg, e, s, i)
  {
    Advance(cfg, e, PrepareStep(e.core, cfg.shards, e.work[s].t, i), s, e.work[s].t)
  }

  function PostBatch(cfg: Config, e: Engine, s: nat, dst: nat): Engine
    requires CanSendBatch(cfg, e, s, dst)
  {
    var w := e.work[s];
    Send(e.(work := e.work[s := Preparing(w.t, w.unsent - {dst})]), s, dst, Batch(w.t))
  }

  /** The lock holder is committed: its keys on this shard are finished without waiting for FIN. */
  function CommitEarly(cfg: Config, e: Engine, s: nat, k: Key): Engine
    requires CanEarlyCommit(cfg, e, s, k)
  {
    e.(tasks := e.tasks[s := map[CellOf(e.core, k).entry.value.holder.txn := Task({}, 0)]])
  }

  function DeliverPacket(cfg: Config, e: Engine, j: nat): Engine
    requires CanDeliver(e, j)
  {
    Receive(cfg, e.(net := e.net[..j] + e.net[j + 1..]), e.net[j])
  }

  /** FIN is sent only to shards that still have commands of the MSET. */
  function PostFin(cfg: Config, e: Engine, s: nat, t: TxnId, dst: nat): Engine
    requires CanSendFin(e, s, t, dst)
  {
    var task := e.tasks[s][t];
    var e1 := e.(tasks := e.tasks[s := e.tasks[s][t := task.(unsent := task.unsent - {dst})]]);
    if LocalKeys(cfg, e.core, t, dst) != {} then Send(e1, s, dst, Fin(t)) else e1
  }

  function ConcludeRead(e: Engine, s: nat): Engine
    requires Busy(e, s) && e.work[s].Reading?
  {
    e.(core := ReadStep(e.core, e.work[s].k, e.work[s].r), work := e.work[s := Idle])
  }

  function Apply(cfg: Config, home: nat -> nat, e: Engine, ev: Event): Engine
    requires Enabled(cfg, home, e, ev)
  {
    match ev
    case Submit(c, req, ts) => Dispatch(cfg, e, c, req, ts)
    case Park(c, req) => ParkRequest(e, c, req)
    case Resume(c, ts) => ResumeRequest(cfg, e, c, ts)
    case PrepareNext(s, i) => PreparePair(cfg, e, s, i)
    case SendBatch(s, dst) => PostBatch(cfg, e, s, dst)
    case LoopExit(s) => e.(work := e.work[s := Idle])
    case EarlyCommit(s, k) => CommitEarly(cfg, e, s, k)
    case Deliver(j) => DeliverPacket(cfg, e, j)
    case SendFin(s, t, dst) => PostFin(cfg, e, s, t, dst)
    case FinishOne(s, t, k) => FinishTask(cfg, e, s, t, k)
    case Tally(s, t) => TallyUp(e, s, t)
    case Arrive(s, k, r) => e.(work := e.work[s := Reading(k, r)])
    case Conclude(s) => ConcludeRead(e, s)
  }

  ghost predicate Boot(cfg: Config, e: Engine) {
    && Start(e.core) && e.net == [] && e.ledger == map[] && e.clock == 0
    && |e.work| == |e.tasks| == |e.inflight| == |e.waiting| == cfg.shards
    && (forall s :: 0 <= s < cfg.shards ==>
          e.work[s].Idle? && e.tasks[s] == map[] && e.inflight[s] == 0 && e.waiting[s] == [])
  }

  /** `run` lists the states of a finite execution from an empty engine. */
  ghost predicate Run(cfg: Config, home: nat -> nat, run: seq<Engine>, events: seq<Event>) {
    && |run| == |events| + 1 && Boot(cfg, run[0])
    && forall i :: 0 <= i < |events| ==>
         Enabled(cfg, home, run[i], events[i]) && run[i + 1] == Apply(cfg, home, run[i], events[i])
  }
}
