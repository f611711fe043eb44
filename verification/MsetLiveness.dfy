/**
 * Every MSET is answered: a rank that each step of the engine's own lowers. So an engine that
 * clients leave alone comes to rest, whatever the interleaving, and at rest everything that was
 * dispatched or parked has been committed and answered.
 */
module MsetLiveness {
  import opened Options
  import opened Txn
  import opened KeyCell
  import opened MsetCore
  import opened MsetCoreLaws
  import opened MsetEngine
  import opened MsetLine
  import opened MsetValues
  import opened MsetTasks
  import opened MsetFin
  import opened MsetAdmission
  import opened MsetInvariant
  import opened MsetRequests
  import opened MsetProgress
  import opened MsetTheorems

  // ---------------------------------------------------------------- what is left to do

  function Parked(waiting: seq<seq<Request>>): set<(nat, nat)> {
    set c: nat, i: nat | c < |waiting| && i < |waiting[c]| :: (c, i)
  }

  function Unprepared(msets: map<TxnId, Mset>): set<(TxnId, nat)> {
    set t, i | t in msets && i in msets[t].left :: (t, i)
  }

  function Uninstalled(core: Core): set<(TxnId, Key)> {
    set t, k | t in core.msets && k in KeysOf(core.msets[t]) && !Installed(CellOf(core, k), t) :: (t, k)
  }

  /** The shard is in a FIN run that has keys to finish. */
  predicate Occupied(cfg: Config, core: Core, tasks: Tasks, s: nat) {
    s < |tasks| && exists t :: t in tasks[s] && t in core.msets && LocalKeys(cfg, core, t, s) != {}
  }

  function Unoccupied(cfg: Config, core: Core, tasks: Tasks): set<nat> {
    set s: nat | s < cfg.shards && !Occupied(cfg, core, tasks, s)
  }

  function Unbatched(work: seq<Work>): set<(nat, nat)> {
    set s: nat, dst | s < |work| && work[s].Preparing? && dst in work[s].unsent :: (s, dst)
  }

  function Unsent(tasks: Tasks): set<(nat, TxnId, nat)> {
    set s: nat, t, dst | s < |tasks| && t in tasks[s] && dst in tasks[s][t].unsent :: (s, t, dst)
  }

  function Untallied(tasks: Tasks): set<(nat, TxnId)> {
    set s: nat, t | s < |tasks| && t in tasks[s] :: (s, t)
  }

  function Working(work: seq<Work>): set<nat> {
    set s: nat | s < |work| && !work[s].Idle?
  }

  function Acks(net: seq<Packet>): nat {
    if net == [] then 0 else Acks(net[..|net| - 1]) + if net[|net| - 1].msg.Ack? then 1 else 0
  }

  function Fins(net: seq<Packet>): nat {
    if net == [] then 0 else Fins(net[..|net| - 1]) + if net[|net| - 1].msg.Fin? then 1 else 0
  }

  /** What the engine still has to do; work of an earlier kind may create work of later kinds. */
  datatype Rank = Rank(parked: set<(nat, nat)>, unprepared: set<(TxnId, nat)>, uninstalled: set<(TxnId, Key)>,
                       unoccupied: set<nat>, unbatched: set<(nat, nat)>, acks: nat,
                       unsent: set<(nat, TxnId, nat)>, fins: nat, untallied: set<(nat, TxnId)>,
                       packets: nat, working: set<nat>)

  function RankOf(cfg: Config, e: Engine): Rank {
    Rank(Parked(e.waiting), Unprepared(e.core.msets), Uninstalled(e.core),
         Unoccupied(cfg, e.core, e.tasks), Unbatched(e.work), Acks(e.net),
         Unsent(e.tasks), Fins(e.net), Untallied(e.tasks),
         |e.net|, Working(e.work))
  }

  /** Lexicographic order of ranks, sets ordered by inclusion. */
  predicate Lower(a: Rank, b: Rank) {
    a.parked < b.parked || (a.parked == b.parked && LowerUnprepared(a, b))
  }

  predicate LowerUnprepared(a: Rank, b: Rank) {
    || a.unprepared < b.unprepared
    || (a.unprepared == b.unprepared
        && (a.uninstalled < b.uninstalled || (a.uninstalled == b.uninstalled && LowerMessages(a, b))))
  }

  /** The order among ranks with the same pairs to prepare and keys to finish. */
  predicate LowerMessages(a: Rank, b: Rank) {
    || a.unoccupied < b.unoccupied
    || (a.unoccupied == b.unoccupied
        && (a.unbatched < b.unbatched
            || (a.unbatched == b.unbatched
                && (a.acks < b.acks || (a.acks == b.acks && LowerFins(a, b))))))
  }

  predicate LowerFins(a: Rank, b: Rank) {
    || a.unsent < b.unsent
    || (a.unsent == b.unsent
        && (a.fins < b.fins
            || (a.fins == b.fins
                && (a.untallied < b.untallied
                    || (a.untallied == b.untallied
                        && (a.packets < b.packets || (a.packets == b.packets && a.working < b.working)))))))
  }

  // ---------------------------------------------------------------- packets

  lemma CountSent(net: seq<Packet>, p: Packet)
    ensures Acks(net + [p]) == Acks(net) + if p.msg.Ack? then 1 else 0
    ensures Fins(net + [p]) == Fins(net) + if p.msg.Fin? then 1 else 0
  {
    assert (net + [p])[..|net|] == net;
  }

  lemma TakenBeforeLast(net: seq<Packet>, j: nat)
    requires j < |net| - 1
    ensures var rest := net[..|net| - 1];
      net[..j] + net[j + 1..] == rest[..j] + rest[j + 1..] + [net[|net| - 1]]
  {
  }

  lemma {:induction false} CountTaken(net: seq<Packet>, j: nat)
    requires j < |net|
    ensures var net' := net[..j] + net[j + 1..];
      && Acks(net) == Acks(net') + (if net[j].msg.Ack? then 1 else 0)
      && Fins(net) == Fins(net') + (if net[j].msg.Fin? then 1 else 0)
  {
    hide Acks, Fins;
    var last := |net| - 1;
    var rest := net[..last];
    assert net == rest + [net[last]];
    CountSent(rest, net[last]);
    if j == last {
      assert net[..j] + net[j + 1..] == rest;
    } else {
      CountTaken(rest, j);
      TakenBeforeLast(net, j);
      CountSent(rest[..j] + rest[j + 1..], net[last]);
    }
  }

  // ---------------------------------------------------------------- requests, pairs, keys

  lemma ResumeLowers(cfg: Config, e: Engine, c: nat, ts: nat)
    requires c < |e.work| && c < |e.inflight| && c < |e.waiting| && e.waiting[c] != []
    ensures Lower(RankOf(cfg, ResumeRequest(cfg, e, c, ts)), RankOf(cfg, e))
  {
    hide Unprepared, Uninstalled, Unoccupied, Unbatched, Unsent, Untallied, Working, Acks, Fins, LowerUnprepared;
    var waiting' := ResumeRequest(cfg, e, c, ts).waiting;
    var last := (c, |e.waiting[c]| - 1);
    assert last in Parked(e.waiting) && last !in Parked(waiting');
    assert Parked(waiting') <= Parked(e.waiting);
  }

  lemma AdvanceFrame(cfg: Config, e: Engine, core': Core, s: nat, t: TxnId)
    requires t in core'.msets && s < |e.tasks|
    ensures var e' := Advance(cfg, e, core', s, t);
      e'.waiting == e.waiting && e'.core == core' && e'.ledger == e.ledger
  {
  }

  lemma PrepareDrops(s: Core, s': Core, t: TxnId, i: nat, d: Decision, v: TxnId)
    requires CountRel(s, s', t, i, d, v)
    ensures Unprepared(s'.msets) < Unprepared(s.msets)
  {
    assert (t, i) in Unprepared(s.msets) && (t, i) !in Unprepared(s'.msets);
    forall u, j | (u, j) in Unprepared(s'.msets) ensures (u, j) in Unprepared(s.msets) {
      assert j in s.msets[u].left;
    }
  }

  lemma PrepareLowers(cfg: Config, home: nat -> nat, e: Engine, s: nat, i: nat)
    requires EngInv(cfg, home, e) && CanPrepareNext(cfg, e, s, i)
    ensures Lower(RankOf(cfg, PreparePair(cfg, e, s, i)), RankOf(cfg, e))
  {
    hide Values, LineInv, TaskInv, FinInv, OkInv, Unprepared, Uninstalled, Unoccupied, Unbatched, Unsent, Untallied,
         Working, Acks, Fins, Parked, PrepareStep, Advance, LowerMessages, CountRel, CellRel;
    var t := e.work[s].t;
    NextInOrder(cfg, home, e, s, i);
    PrepareIsRel(e.core, cfg.shards, t, i);
    var core' := PrepareStep(e.core, cfg.shards, t, i);
    PrepareDrops(e.core, core', t, i, DecisionOf(e.core, t, i), HolderOf(CellOf(e.core, PrepareKey(e.core, t, i)), t));
    PrepareKnown(e.core, cfg.shards, t, i);
    AdvanceFrame(cfg, e, core', s, t);
  }

  lemma PrepareKnown(s: Core, shards: nat, t: TxnId, i: nat)
    requires CanPrepare(s, t, i)
    ensures PrepareStep(s, shards, t, i).msets.Keys == s.msets.Keys
  {
    hide PreparedCell, Decide;
  }

  lemma FinishDrops(s: Core, s': Core, t: TxnId, k: Key, p: Option<TxnId>)
    requires FinCellRel(s, s', t, k, p) && FinCountRel(s, s', p) && t in s.msets && k in KeysOf(s.msets[t])
    ensures Unprepared(s'.msets) == Unprepared(s.msets) && Uninstalled(s') < Uninstalled(s)
  {
    assert FinRoles(CellOf(s, k), CellOf(s', k), t, p, t);
    assert (t, k) in Uninstalled(s) && (t, k) !in Uninstalled(s');
    forall u, k' | (u, k') in Uninstalled(s') ensures (u, k') in Uninstalled(s) {
      assert FinRoles(CellOf(s, k), CellOf(s', k), t, p, u);
      assert s'.msets[u].pairs == s.msets[u].pairs;
    }
  }

  lemma FinishFrame(cfg: Config, e: Engine, s: nat, t: TxnId, k: Key)
    requires CanFinishOne(cfg, e, s, t, k)
    ensures var e' := FinishTask(cfg, e, s, t, k);
      e'.waiting == e.waiting && e'.core == FinishStep(e.core, t, k) && e'.ledger == e.ledger
  {
    hide FinishStep, LocalKeys;
  }

  lemma FinishLowers(cfg: Config, home: nat -> nat, e: Engine, s: nat, t: TxnId, k: Key)
    requires EngInv(cfg, home, e) && CanFinishOne(cfg, e, s, t, k)
    ensures Lower(RankOf(cfg, FinishTask(cfg, e, s, t, k)), RankOf(cfg, e))
  {
    hide Values, LineInv, TaskInv, FinInv, OkInv, AdmInv, Unprepared, Uninstalled, Unoccupied, Unbatched, Unsent,
         Untallied, Working, Acks, Fins, Parked, FinishStep, FinishTask, LowerMessages, FinCellRel, FinCountRel;
    FinishIsRel(e.core, t, k);
    FinishDrops(e.core, FinishStep(e.core, t, k), t, k, Promoted(CellOf(e.core, k).entry.value));
    FinishFrame(cfg, e, s, t, k);
  }

  // ---------------------------------------------------------------- messages

  /** Neither requests nor pairs nor keys change; the rest of the rank decides. */
  lemma SameCore(cfg: Config, e: Engine, e': Engine)
    requires e'.waiting == e.waiting && e'.core == e.core
    requires LowerMessages(RankOf(cfg, e'), RankOf(cfg, e))
    ensures Lower(RankOf(cfg, e'), RankOf(cfg, e))
  {
  }

  lemma EarlyLowers(cfg: Config, home: nat -> nat, e: Engine, s: nat, k: Key)
    requires EngInv(cfg, home, e) && CanEarlyCommit(cfg, e, s, k)
    ensures Lower(RankOf(cfg, CommitEarly(cfg, e, s, k)), RankOf(cfg, e))
  {
    hide CoreInv, Values, LineInv, TaskInv, FinInv, OkInv, AdmInv, Unbatched, Unsent, Untallied, Working, Acks, Fins,
         Lower, LowerFins, CanEarlyCommit, LocalKeys, Occupied;
    var e' := CommitEarly(cfg, e, s, k);
    EarlyOccupies(cfg, home, e, s, k);
    assert s in Unoccupied(cfg, e.core, e.tasks) && s !in Unoccupied(cfg, e.core, e'.tasks);
    forall r | r in Unoccupied(cfg, e.core, e'.tasks) ensures r in Unoccupied(cfg, e.core, e.tasks) {
      EarlyElsewhere(cfg, e.core, e.tasks, e'.tasks, s, r);
    }
    SameCore(cfg, e, e');
  }

  lemma EarlyOccupies(cfg: Config, home: nat -> nat, e: Engine, s: nat, k: Key)
    requires EngInv(cfg, home, e) && CanEarlyCommit(cfg, e, s, k)
    ensures s < cfg.shards == |e.tasks| && e.tasks[s] == map[] && !Occupied(cfg, e.core, e.tasks, s)
    ensures Occupied(cfg, e.core, CommitEarly(cfg, e, s, k).tasks, s)
  {
    hide CoreInv, Values, LineInv, FinInv, OkInv, AdmInv;
    var h := CellOf(e.core, k).entry.value.holder.txn;
    HolderKnown(e.core, k, h);
    assert cfg.route(k) == s;
    assert k in LocalKeys(cfg, e.core, h, s);
  }

  lemma EarlyElsewhere(cfg: Config, core: Core, tasks: Tasks, tasks': Tasks, s: nat, r: nat)
    requires |tasks'| == |tasks| && r != s && (r < |tasks| ==> tasks'[r] == tasks[r])
    ensures Occupied(cfg, core, tasks', r) == Occupied(cfg, core, tasks, r)
  {
  }

  lemma BatchLowers(cfg: Config, e: Engine, s: nat, dst: nat)
    requires CanSendBatch(cfg, e, s, dst)
    ensures Lower(RankOf(cfg, PostBatch(cfg, e, s, dst)), RankOf(cfg, e))
  {
    hide Unoccupied, Unsent, Untallied, Working, Acks, Fins, Lower, LowerFins, LeftAt;
    var e' := PostBatch(cfg, e, s, dst);
    assert (s, dst) in Unbatched(e.work) && (s, dst) !in Unbatched(e'.work);
    CountSent(e.net, Packet(s, dst, Batch(e.work[s].t)));
    SameCore(cfg, e, e');
  }

  lemma ExitLowers(cfg: Config, e: Engine, s: nat)
    requires CanExit(cfg, e, s)
    ensures Lower(RankOf(cfg, e.(work := e.work[s := Idle])), RankOf(cfg, e))
  {
    hide Unoccupied, Unsent, Untallied, Acks, Fins, Lower, LeftAt;
    var e' := e.(work := e.work[s := Idle]);
    assert s in Working(e.work) && s !in Working(e'.work);
    assert Unbatched(e'.work) == Unbatched(e.work);
    SameCore(cfg, e, e');
  }

  lemma FinLowers(cfg: Config, e: Engine, s: nat, t: TxnId, dst: nat)
    requires CanSendFin(e, s, t, dst)
    ensures Lower(RankOf(cfg, PostFin(cfg, e, s, t, dst)), RankOf(cfg, e))
  {
    hide Unbatched, Untallied, Working, Acks, Fins, Lower, LocalKeys, Occupied;
    var e' := PostFin(cfg, e, s, t, dst);
    assert (s, t, dst) in Unsent(e.tasks) && (s, t, dst) !in Unsent(e'.tasks);
    assert Unsent(e'.tasks) <= Unsent(e.tasks);
    CountSent(e.net, Packet(s, dst, Fin(t)));
    forall r: nat ensures Occupied(cfg, e.core, e'.tasks, r) == Occupied(cfg, e.core, e.tasks, r) {
      SameRuns(cfg, e.core, e.tasks, e'.tasks, r);
    }
    SameCore(cfg, e, e');
  }

  lemma SameRuns(cfg: Config, core: Core, tasks: Tasks, tasks': Tasks, r: nat)
    requires |tasks'| == |tasks| && (r < |tasks| ==> tasks'[r].Keys == tasks[r].Keys)
    ensures Occupied(cfg, core, tasks', r) == Occupied(cfg, core, tasks, r)
  {
    if r < |tasks| {
      assert forall t :: t in tasks'[r] <==> t in tasks'[r].Keys;
      assert forall t :: t in tasks[r] <==> t in tasks[r].Keys;
    }
  }

  /** A tallied run had no keys left, so its shard is as occupied as before. */
  lemma TallyLowers(cfg: Config, e: Engine, s: nat, t: TxnId)
    requires CanTally(cfg, e, s, t)
    ensures Lower(RankOf(cfg, TallyUp(e, s, t)), RankOf(cfg, e))
  {
    hide Unbatched, Working, Acks, Fins, Lower, LocalKeys, Occupied;
    var e' := TallyUp(e, s, t);
    assert e'.tasks == e.tasks[s := e.tasks[s] - {t}];
    assert (s, t) in Untallied(e.tasks) && (s, t) !in Untallied(e'.tasks);
    assert Unsent(e'.tasks) == Unsent(e.tasks);
    CountSent(e.net, Packet(s, e.core.msets[t].coord, FinAck(t)));
    forall r: nat ensures Occupied(cfg, e.core, e'.tasks, r) == Occupied(cfg, e.core, e.tasks, r) {
      TallyRuns(cfg, e.core, e.tasks, s, t, r);
    }
    SameCore(cfg, e, e');
  }

  lemma TallyRuns(cfg: Config, core: Core, tasks: Tasks, s: nat, t: TxnId, r: nat)
    requires s < |tasks| && t in core.msets && LocalKeys(cfg, core, t, s) == {}
    ensures Occupied(cfg, core, tasks[s := tasks[s] - {t}], r) == Occupied(cfg, core, tasks, r)
  {
    hide LocalKeys;
  }

  lemma ConcludeLowers(cfg: Config, e: Engine, s: nat)
    requires Busy(e, s) && e.work[s].Reading?
    ensures Lower(RankOf(cfg, ConcludeRead(e, s)), RankOf(cfg, e))
  {
    hide Unsent, Untallied, Acks, Fins, ReadStep, Uninstalled, Unoccupied;
    var e' := ConcludeRead(e, s);
    ReadSame(cfg, e.core, e.work[s].k, e.work[s].r, e.tasks);
    assert s in Working(e.work) && s !in Working(e'.work);
    assert Unbatched(e'.work) == Unbatched(e.work);
  }

  lemma ReadSame(cfg: Config, core: Core, k: Key, r: Read, tasks: Tasks)
    ensures var core' := ReadStep(core, k, r);
      && core'.msets == core.msets && Uninstalled(core') == Uninstalled(core)
      && Unoccupied(cfg, core', tasks) == Unoccupied(cfg, core, tasks)
  {
    var core' := ReadStep(core, k, r);
    assert forall k', t :: Holds(CellOf(core', k'), t) == Holds(CellOf(core, k'), t);
    assert forall k', t :: Installed(CellOf(core', k'), t) == Installed(CellOf(core, k'), t);
    forall t, s: nat | t in core.msets ensures LocalKeys(cfg, core', t, s) == LocalKeys(cfg, core, t, s) {
    }
  }

  // ---------------------------------------------------------------- delivery

  lemma DeliverLowers(cfg: Config, e: Engine, j: nat)
    requires CanDeliver(e, j)
    ensures Lower(RankOf(cfg, DeliverPacket(cfg, e, j)), RankOf(cfg, e))
  {
    hide Lower, LowerMessages, Acks, Fins, LocalKeys, Occupied;
    var e' := DeliverPacket(cfg, e, j);
    var dst := e.net[j].dst;
    CountTaken(e.net, j);
    assert |e'.net| < |e.net|;
    forall r: nat | Occupied(cfg, e.core, e.tasks, r) ensures Occupied(cfg, e.core, e'.tasks, r) {
      if r != dst {
        EarlyElsewhere(cfg, e.core, e.tasks, e'.tasks, dst, r);
      } else {
        NotOccupied(cfg, e.core, e.tasks, r);
      }
    }
    assert Unbatched(e'.work) == Unbatched(e.work);
    if !e.net[j].msg.Ack? {
      assert Unsent(e'.tasks) == Unsent(e.tasks);
    }
    DeliverOrder(RankOf(cfg, e'), RankOf(cfg, e), e.net[j].msg);
    SameCore(cfg, e, e');
  }

  lemma NotOccupied(cfg: Config, core: Core, tasks: Tasks, r: nat)
    requires r < |tasks| && tasks[r] == map[]
    ensures !Occupied(cfg, core, tasks, r)
  {
  }

  lemma DeliverOrder(a: Rank, b: Rank, msg: Msg)
    requires a.unoccupied <= b.unoccupied && a.unbatched == b.unbatched && a.packets < b.packets
    requires b.acks == a.acks + (if msg.Ack? then 1 else 0) && b.fins == a.fins + (if msg.Fin? then 1 else 0)
    requires !msg.Ack? ==> a.unsent == b.unsent
    requires !msg.Ack? && !msg.Fin? ==> a.untallied == b.untallied
    ensures LowerMessages(a, b)
  {
  }

  // ---------------------------------------------------------------- every step, every run

  /** Each step of the engine's own lowers the rank. */
  lemma StepLowers(cfg: Config, home: nat -> nat, e: Engine, ev: Event)
    requires EngInv(cfg, home, e) && Enabled(cfg, home, e, ev) && !FromClient(ev)
    ensures Lower(RankOf(cfg, Apply(cfg, home, e, ev)), RankOf(cfg, e))
  {
    hide EngInv, Lower, RankOf;
    match ev
    case Resume(c, ts) => ResumeLowers(cfg, e, c, ts);
    case PrepareNext(s, i) => PrepareLowers(cfg, home, e, s, i);
    case SendBatch(s, dst) => BatchLowers(cfg, e, s, dst);
    case LoopExit(s) => ExitLowers(cfg, e, s);
    case EarlyCommit(s, k) => EarlyLowers(cfg, home, e, s, k);
    case Deliver(j) => DeliverLowers(cfg, e, j);
    case SendFin(s, t, dst) => FinLowers(cfg, e, s, t, dst);
    case FinishOne(s, t, k) => FinishLowers(cfg, home, e, s, t, k);
    case Tally(s, t) => TallyLowers(cfg, e, s, t);
    case Conclude(s) => ConcludeLowers(cfg, e, s);
  }

  /** MSETs are never forgotten. */
  lemma StepKnows(cfg: Config, home: nat -> nat, e: Engine, ev: Event)
    requires Enabled(cfg, home, e, ev)
    ensures e.ledger.Keys <= Apply(cfg, home, e, ev).ledger.Keys
  {
    hide PrepareStep, FinishStep, ReadStep, Begin, LocalKeys, Remotes;
    match ev
    case FinishOne(s, t, k) => FinishFrame(cfg, e, s, t, k);
    case _ =>
  }

  /** The engine takes one of its own steps, any of them, unless it has none. */
  ghost predicate Proceeds(cfg: Config, home: nat -> nat, e: Engine, ev: Event, e': Engine) {
    if Moves(cfg, home, e) then
      !FromClient(ev) && Enabled(cfg, home, e, ev) && e' == Apply(cfg, home, e, ev)
    else e' == e
  }

  /** An endless continuation without clients. */
  ghost predicate LeftAlone(cfg: Config, home: nat -> nat, run: nat -> Engine, steps: nat -> Event) {
    forall i: nat :: Proceeds(cfg, home, run(i), steps(i), run(i + 1))
  }

  /** Nothing is running or under way, everything dispatched is answered once, nothing is parked. */
  ghost predicate AllAnswered(cfg: Config, e: Engine) {
    && Quiet(cfg, e)
    && (forall t :: t in e.ledger ==> e.ledger[t].oks == 1)
    && (forall c :: 0 <= c < |e.waiting| ==> e.waiting[c] == [])
  }

  lemma AtRest(cfg: Config, home: nat -> nat, e: Engine)
    requires EngInv(cfg, home, e) && cfg.limit > 0 && !Moves(cfg, home, e)
    ensures AllAnswered(cfg, e)
  {
    hide CoreInv, Values, LineInv, TaskInv, FinInv, OkInv, AdmInv, Moves;
    if e.net != [] {
      NetMoves(cfg, home, e);
    }
    forall s: nat | s < cfg.shards ensures Free(e, s) {
      if !Free(e, s) {
        BusyMoves(cfg, home, e, s);
      }
    }
    if t :| t in e.ledger && e.ledger[t].oks != 1 {
      QuietIsDone(cfg, home, e, t);
    }
    if c: nat :| c < |e.waiting| && e.waiting[c] != [] {
      ResumeMoves(cfg, home, e, c);
    }
  }

  lemma NextStep(cfg: Config, home: nat -> nat, run: nat -> Engine, steps: nat -> Event, i: nat)
    requires LeftAlone(cfg, home, run, steps) && Moves(cfg, home, run(i))
    ensures !FromClient(steps(i)) && Enabled(cfg, home, run(i), steps(i))
    ensures run(i + 1) == Apply(cfg, home, run(i), steps(i))
  {
    hide Moves, Enabled, Apply, FromClient;
    assert Proceeds(cfg, home, run(i), steps(i), run(i + 1));
  }

  lemma {:induction false} ComesToRest(cfg: Config, home: nat -> nat, run: nat -> Engine, steps: nat -> Event, i: nat,
                                       start: Core, reqs: seq<Request>)
    returns (n: nat)
    requires LeftAlone(cfg, home, run, steps) && EngInv(cfg, home, run(i)) && Faithful(start, reqs, run(i))
    ensures EngInv(cfg, home, run(n)) && !Moves(cfg, home, run(n)) && run(i).ledger.Keys <= run(n).ledger.Keys
    ensures Faithful(start, reqs, run(n))
    decreases RankOf(cfg, run(i)).parked, RankOf(cfg, run(i)).unprepared, RankOf(cfg, run(i)).uninstalled,
              RankOf(cfg, run(i)).unoccupied, RankOf(cfg, run(i)).unbatched, RankOf(cfg, run(i)).acks,
              RankOf(cfg, run(i)).unsent, RankOf(cfg, run(i)).fins, RankOf(cfg, run(i)).untallied,
              RankOf(cfg, run(i)).packets, RankOf(cfg, run(i)).working
  {
    hide LeftAlone, EngInv, Moves, Enabled, Apply, RankOf, Faithful;
    if Moves(cfg, home, run(i)) {
      NextStep(cfg, home, run, steps, i);
      StepKeeps(cfg, home, run(i), steps(i));
      StepLowers(cfg, home, run(i), steps(i));
      StepKnows(cfg, home, run(i), steps(i));
      StepFaithful(cfg, home, run(i), steps(i), start, reqs);
      assert reqs + [] == reqs;
      n := ComesToRest(cfg, home, run, steps, i + 1, start, reqs);
    } else {
      n := i;
    }
  }

  lemma {:induction false} RestLasts(cfg: Config, home: nat -> nat, run: nat -> Engine, steps: nat -> Event, n: nat,
                                     i: nat)
    requires LeftAlone(cfg, home, run, steps) && !Moves(cfg, home, run(n)) && n <= i
    ensures run(i) == run(n)
    decreases i
  {
    hide Moves, Enabled, Apply, FromClient;
    if n < i {
      RestLasts(cfg, home, run, steps, n, i - 1);
      assert Proceeds(cfg, home, run(i - 1), steps(i - 1), run(i));
    }
  }

  /** From state `n` on nothing changes, all is answered, and the tables are those of a serial execution. */
  ghost predicate Settled(cfg: Config, start: Core, reqs: seq<Request>, run: nat -> Engine, n: nat) {
    && (forall i: nat :: n <= i ==> run(i) == run(n))
    && AllAnswered(cfg, run(n)) && run(0).ledger.Keys <= run(n).ledger.Keys
    && (forall k :: SerialAt(start, reqs, run(n), k))
    && (forall q :: q in reqs ==> AnsweredOnce(run(n), q))
  }

  /** The request is in the log and has got exactly one +OK. */
  ghost predicate AnsweredOnce(e: Engine, q: Request) {
    exists t :: t in e.core.commits && Names(q, t) && t in e.ledger && e.ledger[t].oks == 1
  }

  /**
   * Whatever a run has come to, if no more requests arrive then after finitely many steps, in
   * whatever order the shards take them, every MSET that a client has issued has got its one +OK,
   * and the tables hold what executing exactly these requests, in commit order, makes of the data
   * that was loaded.
   */
  lemma EveryMsetIsAnswered(cfg: Config, home: nat -> nat, past: seq<Engine>, events: seq<Event>,
                            run: nat -> Engine, steps: nat -> Event)
    requires Run(cfg, home, past, events) && Routes(cfg) && cfg.limit > 0
    requires run(0) == past[|events|] && LeftAlone(cfg, home, run, steps)
    ensures exists n: nat :: Settled(cfg, past[0].core, Issued(events), run, n)
  {
    hide EngInv, Moves, LeftAlone, AllAnswered, SerialAt, Enabled, Apply, Boot, Faithful, AnsweredOnce;
    var start, reqs := past[0].core, Issued(events);
    RunKeeps(cfg, home, past, events, |events|);
    MsetsAreRequests(cfg, home, past, events, |events|);
    assert events[..|events|] == events;
    var n := ComesToRest(cfg, home, run, steps, 0, start, reqs);
    AtRest(cfg, home, run(n));
    forall i: nat | n <= i ensures run(i) == run(n) {
      RestLasts(cfg, home, run, steps, n, i);
    }
    forall k ensures SerialAt(start, reqs, run(n), k) {
      AnsweredIsSerial(cfg, home, start, reqs, run(n), k);
    }
    AnsweredIsLogged(cfg, home, start, reqs, run(n));
    assert Settled(cfg, start, reqs, run, n);
  }

  lemma AnsweredIsSerial(cfg: Config, home: nat -> nat, start: Core, reqs: seq<Request>, e: Engine, k: Key)
    requires EngInv(cfg, home, e) && AllAnswered(cfg, e) && Faithful(start, reqs, e)
    ensures SerialAt(start, reqs, e, k)
  {
    hide EngInv, Quiet, Faithful, SerialAt;
    QuietIsSerial(cfg, home, start, reqs, e, k);
  }

  lemma AnsweredIsLogged(cfg: Config, home: nat -> nat, start: Core, reqs: seq<Request>, e: Engine)
    requires EngInv(cfg, home, e) && AllAnswered(cfg, e) && Faithful(start, reqs, e)
    ensures forall q :: q in reqs ==> AnsweredOnce(e, q)
  {
    hide EngInv, Quiet, Faithful, IsParked;
    QuietLog(cfg, home, start, reqs, e);
    forall q | q in reqs ensures AnsweredOnce(e, q) {
      NoneParked(e.waiting, q);
      var t :| t in e.core.commits && Names(q, t);
      LoggedIsKnown(cfg, home, e, t);
    }
  }

  lemma NoneParked(waiting: seq<seq<Request>>, q: Request)
    requires forall c :: 0 <= c < |waiting| ==> waiting[c] == []
    ensures !IsParked(waiting, q)
  {
  }

  lemma LoggedIsKnown(cfg: Config, home: nat -> nat, e: Engine, t: TxnId)
    requires EngInv(cfg, home, e) && t in e.core.commits
    ensures t in e.ledger
  {
    hide CoreInv, Values, LineInv, TaskInv, FinInv, OkInv, AdmInv;
    LogIsCommitted(e.core, t);
  }
}
