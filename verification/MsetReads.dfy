/**
 * Every read is answered exactly once: at any moment the reads issued on a key are those answered,
 * those deferred behind the lock, and those a shard is in the middle of; at rest all are answered.
 */
module MsetReads {
  import opened Options
  import opened Txn
  import opened KeyCell
  import opened KeyCellLaws
  import opened MsetCore
  import opened MsetCoreLaws
  import opened MsetValues
  import opened MsetEngine
  import opened MsetLine
  import opened MsetTasks
  import opened MsetFin
  import opened MsetAdmission
  import opened MsetInvariant
  import opened MsetProgress
  import opened MsetTheorems

  // ---------------------------------------------------------------- reads deferred on a key

  function Times(gets: seq<Read>, r: Read): nat {
    multiset(gets)[r]
  }

  function InGroups(q: seq<Group>, r: Read): nat {
    if q == [] then 0 else Times(q[0].gets, r) + InGroups(q[1..], r)
  }

  function InOpen(open: seq<seq<Read>>, r: Read): nat {
    if open == [] then 0 else Times(open[0], r) + InOpen(open[1..], r)
  }

  function InEntry(e: Entry, r: Read): nat {
    InGroups(e.queue, r) + InOpen(e.open, r)
  }

  /** How often the read waits on the key, in closed groups and in open ones. */
  function Held(c: Cell, r: Read): nat {
    if c.entry.Some? then InEntry(c.entry.value, r) else 0
  }

  predicate Wide(c: Cell, shards: nat) {
    c.entry.Some? ==> |c.entry.value.open| == shards
  }

  lemma {:induction false} InsertGroup(q: seq<Group>, p: nat, g: Group, r: Read)
    requires p <= |q|
    ensures InGroups(q[..p] + [g] + q[p..], r) == InGroups(q, r) + Times(g.gets, r)
  {
    var q' := q[..p] + [g] + q[p..];
    if p == 0 {
      assert q'[1..] == q;
    } else {
      InsertGroup(q[1..], p - 1, g, r);
      assert q'[1..] == q[1..][..p - 1] + [g] + q[1..][p - 1..];
    }
  }

  lemma {:induction false} SameGets(q: seq<Group>, q': seq<Group>, r: Read)
    requires |q'| == |q| && forall j :: 0 <= j < |q| ==> q'[j].gets == q[j].gets
    ensures InGroups(q', r) == InGroups(q, r)
    decreases |q|
  {
    if q != [] {
      SameGets(q[1..], q'[1..], r);
    }
  }

  lemma {:induction false} OpenUpdate(open: seq<seq<Read>>, o: nat, gets: seq<Read>, r: Read)
    requires o < |open|
    ensures InOpen(open[o := gets], r) == InOpen(open, r) + Times(gets, r) - Times(open[o], r)
    decreases |open|
  {
    var open' := open[o := gets];
    if o == 0 {
      assert open'[1..] == open[1..];
    } else {
      OpenUpdate(open[1..], o - 1, gets, r);
      assert open'[1..] == open[1..][o - 1 := gets];
    }
  }

  lemma {:induction false} NoneOpen(n: nat, r: Read)
    ensures InOpen(NoReads(n), r) == 0
  {
    if n > 0 {
      NoneOpen(n - 1, r);
      assert NoReads(n)[1..] == NoReads(n - 1);
    }
  }

  lemma {:induction false} FlattenTimes(open: seq<seq<Read>>, r: Read)
    ensures Times(Flatten(open), r) == InOpen(open, r)
    decreases |open|
  {
    if open != [] {
      FlattenTimes(open[1..], r);
    }
  }

  /** Closing a group moves its reads and loses none. */
  lemma AddMsetHolds(e: Entry, m: Cmd, r: Read)
    ensures InEntry(AddMset(e, m), r) == InEntry(e, r) && |AddMset(e, m).open| == |e.open|
  {
    InsertGroup(e.queue, InsertAt(e.queue, m.txn), ClosedGroup(e, m), r);
    if m.origin < |e.open| {
      OpenUpdate(e.open, m.origin, [], r);
    }
  }

  lemma PrepareHolds(c: Cell, t: TxnId, pair: nat, value: Value, origin: nat, shards: nat, may: bool, r: Read)
    requires Shape(c) && Wide(c, shards)
    ensures var c' := Prepare(c, t, pair, value, origin, shards, may); Held(c', r) == Held(c, r) && Wide(c', shards)
  {
    hide AddMset;
    var made := Made(t, pair, value);
    assert c.entry.Some? ==> Found(c) == c.entry;
    match Decide(c, t, may)
    case Take => NoneOpen(shards, r);
    case AgainAtHolder =>
    case AgainInQueue =>
      var q, q' := c.entry.value.queue, RepeatInQueue(c, c.entry.value, t, made).entry.value.queue;
      SameGets(q, q', r);
    case Preempt => AddMsetHolds(c.entry.value, c.entry.value.holder.(prior := Some(made)), r);
    case Enqueue => AddMsetHolds(c.entry.value, Cmd(t, made, c.table, 1, origin), r);
  }

  /** How often the read is among the replies. */
  function Replied(rs: seq<Reply>, r: Read): nat {
    if rs == [] then 0 else Replied(rs[..|rs| - 1], r) + if rs[|rs| - 1].read == r then 1 else 0
  }

  lemma {:induction false} AnswerReplies(gets: seq<Read>, obj: Option<Obj>, r: Read)
    ensures Replied(Answer(gets, obj), r) == Times(gets, r)
    decreases |gets|
  {
    if gets != [] {
      var n := |gets| - 1;
      AnswerReplies(gets[..n], obj, r);
      assert Answer(gets, obj)[..n] == Answer(gets[..n], obj);
      assert gets == gets[..n] + [gets[n]];
    }
  }

  /** FIN answers what it no longer holds. */
  lemma FinishHolds(c: Cell, shards: nat, r: Read)
    requires c.entry.Some? && Wide(c, shards)
    ensures var c' := Finish(c, c.entry.value);
      Held(c, r) == Replied(DrainReplies(c.entry.value), r) + Held(c', r) && Wide(c', shards)
  {
    var e := c.entry.value;
    AnswerReplies(if e.queue != [] then e.queue[0].gets else Flatten(e.open), Some(e.holder.obj), r);
    FlattenTimes(e.open, r);
  }

  lemma DeferHolds(c: Cell, d: Read, shards: nat, r: Read)
    requires Deferred(c) && Wide(c, shards) && d.origin < shards
    ensures Held(Defer(c, d), r) == Held(c, r) + (if d == r then 1 else 0) && Wide(Defer(c, d), shards)
  {
    var e := c.entry.value;
    OpenUpdate(e.open, d.origin, e.open[d.origin] + [d], r);
  }

  // ---------------------------------------------------------------- reads answered, issued, under way

  function Answered(replies: seq<(Key, Reply)>, k: Key, r: Read): nat {
    if replies == [] then 0
    else
      var last := replies[|replies| - 1];
      Answered(replies[..|replies| - 1], k, r) + if last.0 == k && last.1.read == r then 1 else 0
  }

  function Asked(events: seq<Event>, k: Key, r: Read): nat {
    if events == [] then 0
    else
      var last := events[|events| - 1];
      Asked(events[..|events| - 1], k, r) + if last.Arrive? && last.k == k && last.r == r then 1 else 0
  }

  function ReadingAt(w: Work, k: Key, r: Read): nat {
    if w == Reading(k, r) then 1 else 0
  }

  function UnderWay(work: seq<Work>, k: Key, r: Read): nat {
    if work == [] then 0 else ReadingAt(work[0], k, r) + UnderWay(work[1..], k, r)
  }

  lemma {:induction false} WorkUpdate(work: seq<Work>, s: nat, w: Work, k: Key, r: Read)
    requires s < |work|
    ensures UnderWay(work[s := w], k, r) == UnderWay(work, k, r) + ReadingAt(w, k, r) - ReadingAt(work[s], k, r)
    decreases |work|
  {
    if s == 0 {
      assert work[s := w][1..] == work[1..];
    } else {
      WorkUpdate(work[1..], s - 1, w, k, r);
      assert work[s := w][1..] == work[1..][s - 1 := w];
    }
  }

  lemma {:induction false} AnsweredMore(replies: seq<(Key, Reply)>, x: Key, rs: seq<Reply>, k: Key, r: Read)
    ensures Answered(replies + Log(x, rs), k, r) == Answered(replies, k, r) + if x == k then Replied(rs, r) else 0
    decreases |rs|
  {
    if rs == [] {
      assert replies + Log(x, rs) == replies;
    } else {
      var n := |rs| - 1;
      AnsweredMore(replies, x, rs[..n], k, r);
      var all := replies + Log(x, rs);
      assert all[..|all| - 1] == replies + Log(x, rs[..n]);
    }
  }

  /** The read was issued `asked` times on `k`, and each of these is answered, deferred or under way. */
  ghost predicate ReadsInv(cfg: Config, e: Engine, asked: nat, k: Key, r: Read) {
    && asked == Answered(e.core.replies, k, r) + Held(CellOf(e.core, k), r) + UnderWay(e.work, k, r)
    && Wide(CellOf(e.core, k), cfg.shards)
    && (forall s :: 0 <= s < |e.work| && e.work[s].Reading? ==> e.work[s].r.origin < cfg.shards)
  }

  // ---------------------------------------------------------------- every event

  lemma PrepareReads(cfg: Config, s: Core, t: TxnId, i: nat, k: Key, r: Read)
    requires CanPrepare(s, t, i) && Shapes(s) && InstallsCommitted(s) && AckExact(s) && Wide(CellOf(s, k), cfg.shards)
    ensures var s' := PrepareStep(s, cfg.shards, t, i);
      s'.replies == s.replies && Held(CellOf(s', k), r) == Held(CellOf(s, k), r) && Wide(CellOf(s', k), cfg.shards)
  {
    hide InstallsCommitted, AckExact, PrepareStep, Prepare;
    PrepareIsRel(s, cfg.shards, t, i);
    var x := PrepareKey(s, t, i);
    if k == x {
      assert Shape(CellOf(s, k));
      PrepareHolds(CellOf(s, k), t, i, s.msets[t].pairs[i].1, s.msets[t].coord, cfg.shards, WoundAt(s, t, k), r);
    }
  }

  lemma FinishReads(cfg: Config, s: Core, t: TxnId, x: Key, k: Key, r: Read)
    requires CanFinish(s, t, x) && Shapes(s) && CommandsSound(s) && Wide(CellOf(s, k), cfg.shards)
    ensures var s' := FinishStep(s, t, x);
      && Answered(s'.replies, k, r) + Held(CellOf(s', k), r) == Answered(s.replies, k, r) + Held(CellOf(s, k), r)
      && Wide(CellOf(s', k), cfg.shards)
  {
    hide Shapes, CommandsSound, FinishStep, Finish, DrainReplies, FinCountRel;
    FinishIsRel(s, t, x);
    AnsweredMore(s.replies, x, DrainReplies(CellOf(s, x).entry.value), k, r);
    if k == x {
      FinishHolds(CellOf(s, k), cfg.shards, r);
    }
  }

  lemma ReadReads(cfg: Config, s: Core, x: Key, d: Read, k: Key, r: Read)
    requires Wide(CellOf(s, k), cfg.shards) && d.origin < cfg.shards
    ensures var s' := ReadStep(s, x, d);
      && Answered(s'.replies, k, r) + Held(CellOf(s', k), r)
         == Answered(s.replies, k, r) + Held(CellOf(s, k), r) + (if x == k && d == r then 1 else 0)
      && Wide(CellOf(s', k), cfg.shards)
  {
    var c := CellOf(s, x);
    if Deferred(c) {
      if k == x {
        DeferHolds(c, d, cfg.shards, r);
      }
    } else {
      var all := s.replies + [(x, Reply(d, c.table))];
      assert all[..|all| - 1] == s.replies;
    }
  }

  /** Shard `s` goes from one kind of work to another, neither of them a read. */
  lemma WorkReads(cfg: Config, e: Engine, e': Engine, s: nat, asked: nat, k: Key, r: Read)
    requires ReadsInv(cfg, e, asked, k, r) && s < |e.work| == |e'.work| && e'.work == e.work[s := e'.work[s]]
    requires !e.work[s].Reading? && !e'.work[s].Reading?
    requires e'.core.replies == e.core.replies && CellOf(e'.core, k) == CellOf(e.core, k)
    ensures ReadsInv(cfg, e', asked, k, r)
  {
    WorkUpdate(e.work, s, e'.work[s], k, r);
  }

  lemma SameReads(cfg: Config, e: Engine, e': Engine, asked: nat, k: Key, r: Read)
    requires ReadsInv(cfg, e, asked, k, r) && e'.work == e.work && Wide(CellOf(e'.core, k), cfg.shards)
    requires Answered(e'.core.replies, k, r) + Held(CellOf(e'.core, k), r)
             == Answered(e.core.replies, k, r) + Held(CellOf(e.core, k), r)
    ensures ReadsInv(cfg, e', asked, k, r)
  {
  }

  lemma DispatchReads(cfg: Config, e: Engine, c: nat, req: Request, ts: nat, asked: nat, k: Key, r: Read)
    requires ReadsInv(cfg, e, asked, k, r) && c < |e.work| && c < |e.inflight| && e.work[c].Idle?
    ensures ReadsInv(cfg, Dispatch(cfg, e, c, req, ts), asked, k, r)
  {
    hide ReadsInv, Begin, Remotes;
    BeginReads(e.core, TxnId(ts, req.conn, req.pipeline), c, req.pairs, k);
    WorkReads(cfg, e, Dispatch(cfg, e, c, req, ts), c, asked, k, r);
  }

  lemma ResumeReads(cfg: Config, e: Engine, c: nat, ts: nat, asked: nat, k: Key, r: Read)
    requires ReadsInv(cfg, e, asked, k, r) && c < |e.work| && c < |e.inflight| && e.work[c].Idle?
    requires c < |e.waiting| && e.waiting[c] != []
    ensures ReadsInv(cfg, ResumeRequest(cfg, e, c, ts), asked, k, r)
  {
    hide Dispatch, Held, Answered, UnderWay;
    DispatchReads(cfg, e.(waiting := e.waiting[c := e.waiting[c][1..]]), c, e.waiting[c][0], ts, asked, k, r);
  }

  lemma DeliverReads(cfg: Config, e: Engine, j: nat, asked: nat, k: Key, r: Read)
    requires ReadsInv(cfg, e, asked, k, r) && CanDeliver(e, j)
    ensures ReadsInv(cfg, DeliverPacket(cfg, e, j), asked, k, r)
  {
    hide ReadsInv;
    var e' := DeliverPacket(cfg, e, j);
    if e.net[j].msg.Batch? {
      WorkReads(cfg, e, e', e.net[j].dst, asked, k, r);
    } else {
      assert e'.work == e.work && e'.core == e.core;
      SameIfSame(cfg, e, e', asked, k, r);
    }
  }

  lemma SameIfSame(cfg: Config, e: Engine, e': Engine, asked: nat, k: Key, r: Read)
    requires ReadsInv(cfg, e, asked, k, r) && e'.work == e.work && e'.core == e.core
    ensures ReadsInv(cfg, e', asked, k, r)
  {
  }

  lemma ArriveReads(cfg: Config, e: Engine, s: nat, x: Key, d: Read, asked: nat, k: Key, r: Read)
    requires ReadsInv(cfg, e, asked, k, r) && s < |e.work| && e.work[s].Idle? && d.origin < cfg.shards
    ensures ReadsInv(cfg, e.(work := e.work[s := Reading(x, d)]), asked + if x == k && d == r then 1 else 0, k, r)
  {
    WorkUpdate(e.work, s, Reading(x, d), k, r);
  }

  lemma ConcludeReads(cfg: Config, e: Engine, s: nat, asked: nat, k: Key, r: Read)
    requires ReadsInv(cfg, e, asked, k, r) && Busy(e, s) && e.work[s].Reading?
    ensures ReadsInv(cfg, ConcludeRead(e, s), asked, k, r)
  {
    hide ReadStep;
    WorkUpdate(e.work, s, Idle, k, r);
    ReadReads(cfg, e.core, e.work[s].k, e.work[s].r, k, r);
  }

  /** PREPARE and FIN of a key leave all work where it is. */
  lemma CoreReads(cfg: Config, home: nat -> nat, e: Engine, ev: Event, asked: nat, k: Key, r: Read)
    requires EngInv(cfg, home, e) && Enabled(cfg, home, e, ev) && ReadsInv(cfg, e, asked, k, r)
    requires ev.PrepareNext? || ev.FinishOne?
    ensures ReadsInv(cfg, Apply(cfg, home, e, ev), asked, k, r)
  {
    hide EngInv, PrepareStep, FinishStep, Apply, Held, Answered, UnderWay, Wide;
    var e' := Apply(cfg, home, e, ev);
    InvParts(cfg, home, e);
    SameWork(cfg, home, e, ev);
    CoreOfStep(cfg, home, e, ev);
    if ev.PrepareNext? {
      PrepareReads(cfg, e.core, e.work[ev.s].t, ev.i, k, r);
    } else {
      FinishReads(cfg, e.core, ev.t, ev.k, k, r);
    }
    SameReads(cfg, e, e', asked, k, r);
  }

  lemma StepReads(cfg: Config, home: nat -> nat, e: Engine, ev: Event, asked: nat, k: Key, r: Read)
    requires EngInv(cfg, home, e) && Enabled(cfg, home, e, ev) && ReadsInv(cfg, e, asked, k, r)
    ensures ReadsInv(cfg, Apply(cfg, home, e, ev), asked + if ev.Arrive? && ev.k == k && ev.r == r then 1 else 0, k, r)
  {
    hide EngInv, ReadsInv, PreparePair, FinishTask, Dispatch, ResumeRequest, DeliverPacket, ConcludeRead, LocalKeys;
    match ev
    case Submit(c, req, ts) => DispatchReads(cfg, e, c, req, ts, asked, k, r);
    case Resume(c, ts) => ResumeReads(cfg, e, c, ts, asked, k, r);
    case PrepareNext(s, i) => CoreReads(cfg, home, e, ev, asked, k, r);
    case SendBatch(s, dst) => WorkReads(cfg, e, PostBatch(cfg, e, s, dst), s, asked, k, r);
    case LoopExit(s) => WorkReads(cfg, e, e.(work := e.work[s := Idle]), s, asked, k, r);
    case Deliver(j) => DeliverReads(cfg, e, j, asked, k, r);
    case FinishOne(s, t, x) => CoreReads(cfg, home, e, ev, asked, k, r);
    case Arrive(s, x, d) => ArriveReads(cfg, e, s, x, d, asked, k, r);
    case Conclude(s) => ConcludeReads(cfg, e, s, asked, k, r);
    case Park(c, req) => SameIfSame(cfg, e, ParkRequest(e, c, req), asked, k, r);
    case EarlyCommit(s, x) => SameIfSame(cfg, e, CommitEarly(cfg, e, s, x), asked, k, r);
    case SendFin(s, t, dst) => SameIfSame(cfg, e, PostFin(cfg, e, s, t, dst), asked, k, r);
    case Tally(s, t) => SameIfSame(cfg, e, TallyUp(e, s, t), asked, k, r);
  }

  lemma BeginReads(s: Core, t: TxnId, coord: nat, pairs: seq<(Key, Value)>, k: Key)
    ensures var s' := Begin(s, t, coord, pairs); s'.replies == s.replies && CellOf(s', k) == CellOf(s, k)
  {
  }

  lemma InvParts(cfg: Config, home: nat -> nat, e: Engine)
    requires EngInv(cfg, home, e)
    ensures CoreInv(e.core)
  {
  }

  lemma SameWork(cfg: Config, home: nat -> nat, e: Engine, ev: Event)
    requires Enabled(cfg, home, e, ev) && (ev.PrepareNext? || ev.FinishOne?)
    ensures Apply(cfg, home, e, ev).work == e.work
  {
    hide PrepareStep, FinishStep, LocalKeys;
  }

  // ---------------------------------------------------------------- every run

  /** In every run each read that was issued is answered, deferred or under way, as often as issued. */
  lemma {:induction false} ReadsAreAccountedFor(cfg: Config, home: nat -> nat, run: seq<Engine>, events: seq<Event>,
                                                n: nat, k: Key, r: Read)
    requires Run(cfg, home, run, events) && Routes(cfg) && n < |run|
    ensures ReadsInv(cfg, run[n], Asked(events[..n], k, r), k, r)
  {
    hide EngInv, Enabled, Apply, ReadsInv;
    if n == 0 {
      BootReads(cfg, run[0], k, r);
    } else {
      ReadsAreAccountedFor(cfg, home, run, events, n - 1, k, r);
      RunKeeps(cfg, home, run, events, n - 1);
      RunStep(cfg, home, run, events, n - 1);
      StepReads(cfg, home, run[n - 1], events[n - 1], Asked(events[..n - 1], k, r), k, r);
      assert events[..n][..n - 1] == events[..n - 1];
    }
  }

  lemma BootReads(cfg: Config, e: Engine, k: Key, r: Read)
    requires Boot(cfg, e)
    ensures ReadsInv(cfg, e, 0, k, r)
  {
    assert CellOf(e.core, k).entry.None?;
    NothingUnderWay(e.work, k, r);
  }

  lemma {:induction false} NothingUnderWay(work: seq<Work>, k: Key, r: Read)
    requires forall s :: 0 <= s < |work| ==> work[s].Idle?
    ensures UnderWay(work, k, r) == 0
    decreases |work|
  {
    if work != [] {
      NothingUnderWay(work[1..], k, r);
    }
  }

  /** At rest every read has been answered exactly as often as it was issued. */
  lemma RestAnswersReads(cfg: Config, home: nat -> nat, run: seq<Engine>, events: seq<Event>, n: nat, k: Key, r: Read)
    requires Run(cfg, home, run, events) && Routes(cfg) && n < |run| && Quiet(cfg, run[n])
    ensures Answered(run[n].core.replies, k, r) == Asked(events[..n], k, r)
  {
    hide Run, Held, UnderWay, Answered, Asked, Wide, EngInv;
    RunKeeps(cfg, home, run, events, n);
    ReadsAreAccountedFor(cfg, home, run, events, n, k, r);
    QuietReads(cfg, home, run[n], k, r);
  }

  lemma QuietReads(cfg: Config, home: nat -> nat, e: Engine, k: Key, r: Read)
    requires EngInv(cfg, home, e) && Quiet(cfg, e)
    ensures Held(CellOf(e.core, k), r) == 0 && UnderWay(e.work, k, r) == 0
  {
    hide CoreInv, Values, LineInv, TaskInv, FinInv, OkInv, AdmInv;
    QuietUnlocked(cfg, home, e, k);
    assert |e.work| == cfg.shards;
    forall s | 0 <= s < |e.work| ensures e.work[s].Idle? {
      assert Free(e, s);
    }
    NothingUnderWay(e.work, k, r);
  }
}
