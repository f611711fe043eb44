/**
 * The MSETs of the engine are the requests that clients issued, each dispatched once or still parked,
 * with the pairs its client sent; and the values that keys started with are never replaced.
 */
module MsetRequests {
  import opened Options
  import opened Txn
  import opened KeyCell
  import opened MsetCore
  import opened MsetCoreLaws
  import opened MsetValues
  import opened MsetEngine
  import opened MsetLine
  import opened MsetTasks
  import opened MsetFin
  import opened MsetAdmission
  import opened MsetInvariant

  type Pairs = seq<(Key, Value)>

  function Asks(ev: Event): seq<Request> {
    if ev.Submit? || ev.Park? then [ev.req] else []
  }

  /** The requests that clients have issued, in order. */
  function Issued(events: seq<Event>): seq<Request> {
    if events == [] then [] else Issued(events[..|events| - 1]) + Asks(events[|events| - 1])
  }

  predicate Names(q: Request, t: TxnId) {
    q.conn == t.conn && q.pipeline == t.pipeline
  }

  /** The pairs of the request with the connection and the pipeline slot of `t`. */
  function Wanted(reqs: seq<Request>, t: TxnId): Option<Pairs> {
    if reqs == [] then None
    else
      var q := reqs[|reqs| - 1];
      if Names(q, t) then Some(q.pairs) else Wanted(reqs[..|reqs| - 1], t)
  }

  /** No two requests have the same connection and pipeline slot. */
  predicate Distinct(reqs: seq<Request>) {
    forall i, j :: 0 <= i < j < |reqs| ==> reqs[i].conn != reqs[j].conn || reqs[i].pipeline != reqs[j].pipeline
  }

  ghost predicate Dispatched(msets: map<TxnId, Mset>, q: Request) {
    exists t :: t in msets && Names(q, t)
  }

  predicate IsParked(waiting: seq<seq<Request>>, q: Request) {
    exists c :: 0 <= c < |waiting| && q in waiting[c]
  }

  /** Every MSET has the pairs of its request, and there is one for each request that is not parked. */
  ghost predicate Matches(reqs: seq<Request>, msets: map<TxnId, Mset>, waiting: seq<seq<Request>>) {
    && Distinct(reqs)
    && (forall t :: t in msets ==> Wanted(reqs, t) == Some(msets[t].pairs))
    && (forall t, u :: t in msets && u in msets && t.conn == u.conn && t.pipeline == u.pipeline ==> t == u)
    && (forall q :: IsParked(waiting, q) ==> q in reqs)
    && (forall q :: q in reqs ==> Dispatched(msets, q) || IsParked(waiting, q))
  }

  /** What keys started with. */
  ghost predicate Remembers(start: Core, s: Core) {
    forall k :: CellOf(s, k).initial == CellOf(start, k).table
  }

  // ---------------------------------------------------------------- requests

  lemma {:induction false} WantedIs(reqs: seq<Request>, q: Request, t: TxnId)
    requires Distinct(reqs) && q in reqs && Names(q, t)
    ensures Wanted(reqs, t) == Some(q.pairs)
    decreases |reqs|
  {
    var n := |reqs| - 1;
    var i :| 0 <= i < |reqs| && reqs[i] == q;
    if i < n {
      assert reqs[..n][i] == q;
      WantedIs(reqs[..n], q, t);
    }
  }

  lemma WantedMore(reqs: seq<Request>, q: Request, t: TxnId)
    ensures Wanted(reqs + [q], t) == if Names(q, t) then Some(q.pairs) else Wanted(reqs, t)
  {
    assert (reqs + [q])[..|reqs|] == reqs;
  }

  /** The request is new: its connection has no parked one, and none dispatched in this slot or a later one. */
  ghost predicate IsNew(msets: map<TxnId, Mset>, waiting: seq<seq<Request>>, q: Request) {
    && (forall u :: u in msets && u.conn == q.conn ==> u.pipeline < q.pipeline)
    && (forall w :: IsParked(waiting, w) ==> w.conn != q.conn)
  }

  lemma IssueMatches(reqs: seq<Request>, msets: map<TxnId, Mset>, waiting: seq<seq<Request>>, q: Request)
    requires Matches(reqs, msets, waiting) && IsNew(msets, waiting, q)
    ensures Distinct(reqs + [q]) && (forall t :: t in msets ==> Wanted(reqs + [q], t) == Some(msets[t].pairs))
    ensures q !in reqs
  {
    forall i | 0 <= i < |reqs| ensures reqs[i].conn != q.conn || reqs[i].pipeline != q.pipeline {
      assert reqs[i] in reqs;
    }
    forall t | t in msets ensures Wanted(reqs + [q], t) == Some(msets[t].pairs) {
      WantedMore(reqs, q, t);
    }
  }

  lemma StillDispatched(msets: map<TxnId, Mset>, t: TxnId, m: Mset, q: Request)
    requires Dispatched(msets, q)
    ensures Dispatched(msets[t := m], q)
  {
    var u :| u in msets && Names(q, u);
    assert u in msets[t := m];
  }

  lemma SubmitMatches(reqs: seq<Request>, msets: map<TxnId, Mset>, waiting: seq<seq<Request>>, q: Request, t: TxnId,
                      m: Mset)
    requires Matches(reqs, msets, waiting) && IsNew(msets, waiting, q) && Names(q, t) && m.pairs == q.pairs
    ensures Matches(reqs + [q], msets[t := m], waiting)
  {
    IssueMatches(reqs, msets, waiting, q);
    WantedMore(reqs, q, t);
    hide Wanted, IsParked;
    forall w | w in reqs + [q] ensures Dispatched(msets[t := m], w) || IsParked(waiting, w) {
      if w == q {
        assert t in msets[t := m];
      } else if Dispatched(msets, w) {
        StillDispatched(msets, t, m, w);
      }
    }
  }

  lemma ParkedMore(waiting: seq<seq<Request>>, c: nat, q: Request, w: Request)
    requires c < |waiting|
    ensures IsParked(waiting[c := waiting[c] + [q]], w) <==> IsParked(waiting, w) || w == q
  {
    var waiting' := waiting[c := waiting[c] + [q]];
    if IsParked(waiting, w) {
      var d :| 0 <= d < |waiting| && w in waiting[d];
      assert w in waiting'[d];
    }
    if w == q { assert w in waiting'[c]; }
  }

  lemma ParkMatches(reqs: seq<Request>, msets: map<TxnId, Mset>, waiting: seq<seq<Request>>, c: nat, q: Request)
    requires Matches(reqs, msets, waiting) && IsNew(msets, waiting, q) && c < |waiting|
    ensures Matches(reqs + [q], msets, waiting[c := waiting[c] + [q]])
  {
    IssueMatches(reqs, msets, waiting, q);
    var waiting' := waiting[c := waiting[c] + [q]];
    forall w ensures IsParked(waiting', w) <==> IsParked(waiting, w) || w == q {
      ParkedMore(waiting, c, q, w);
    }
    hide Wanted, IsParked, Dispatched;
    assert forall w :: w in reqs + [q] ==> w in reqs || w == q;
  }

  lemma ParkedLess(waiting: seq<seq<Request>>, c: nat, w: Request)
    requires c < |waiting| && waiting[c] != []
    ensures IsParked(waiting[c := waiting[c][1..]], w) ==> IsParked(waiting, w)
    ensures IsParked(waiting, w) ==> IsParked(waiting[c := waiting[c][1..]], w) || w == waiting[c][0]
  {
    var waiting' := waiting[c := waiting[c][1..]];
    if IsParked(waiting', w) {
      var d :| 0 <= d < |waiting'| && w in waiting'[d];
      assert w in waiting[d];
    }
    if IsParked(waiting, w) && w != waiting[c][0] {
      var d :| 0 <= d < |waiting| && w in waiting[d];
      assert w in waiting'[d];
    }
  }

  lemma ResumeMatches(reqs: seq<Request>, msets: map<TxnId, Mset>, waiting: seq<seq<Request>>, c: nat, t: TxnId,
                      m: Mset)
    requires Matches(reqs, msets, waiting) && c < |waiting| && waiting[c] != []
    requires var q := waiting[c][0];
      && Names(q, t) && m.pairs == q.pairs
      && forall u :: u in msets && u.conn == q.conn ==> u.pipeline < q.pipeline
    ensures Matches(reqs, msets[t := m], waiting[c := waiting[c][1..]])
  {
    var q := waiting[c][0];
    assert q in waiting[c];
    assert IsParked(waiting, q);
    WantedIs(reqs, q, t);
    var waiting' := waiting[c := waiting[c][1..]];
    hide Wanted;
    forall w ensures IsParked(waiting', w) ==> IsParked(waiting, w) {
      ParkedLess(waiting, c, w);
    }
    forall w | w in reqs ensures Dispatched(msets[t := m], w) || IsParked(waiting', w) {
      ParkedLess(waiting, c, w);
      if w == q {
        assert t in msets[t := m];
      } else if Dispatched(msets, w) {
        StillDispatched(msets, t, m, w);
      }
    }
  }

  lemma SameMatches(reqs: seq<Request>, msets: map<TxnId, Mset>, msets': map<TxnId, Mset>, waiting: seq<seq<Request>>)
    requires Matches(reqs, msets, waiting) && msets'.Keys == msets.Keys
    requires forall t :: t in msets ==> msets'[t].pairs == msets[t].pairs
    ensures Matches(reqs, msets', waiting)
  {
    hide Wanted, IsParked;
    forall q | q in reqs && Dispatched(msets, q) ensures Dispatched(msets', q) {
      var t :| t in msets && Names(q, t);
      assert t in msets';
    }
  }

  // ---------------------------------------------------------------- every event

  /** Requests are parked and taken up again; nothing else touches the parked ones. */
  lemma WaitingOfStep(cfg: Config, home: nat -> nat, e: Engine, ev: Event)
    requires Enabled(cfg, home, e, ev)
    ensures Apply(cfg, home, e, ev).waiting ==
      match ev
      case Park(c, req) => e.waiting[c := e.waiting[c] + [req]]
      case Resume(c, ts) => e.waiting[c := e.waiting[c][1..]]
      case _ => e.waiting
  {
    hide PrepareStep, FinishStep, ReadStep, Begin, LocalKeys, Remotes;
  }

  /** PREPARE and FIN leave the pairs of every MSET and the loaded value of every key alone. */
  ghost predicate SamePairs(s: Core, s': Core) {
    && s'.msets.Keys == s.msets.Keys
    && (forall t :: t in s.msets ==> s'.msets[t].pairs == s.msets[t].pairs)
    && (forall k :: CellOf(s', k).initial == CellOf(s, k).initial)
  }

  lemma CoreStepKeeps(cfg: Config, home: nat -> nat, e: Engine, ev: Event)
    requires EngInv(cfg, home, e) && Enabled(cfg, home, e, ev) && (ev.PrepareNext? || ev.FinishOne? || ev.Conclude?)
    ensures SamePairs(e.core, Apply(cfg, home, e, ev).core)
  {
    hide EngInv, CoreInv, PrepareStep, FinishStep, ReadStep, Apply, SamePairs;
    CoreOfStep(cfg, home, e, ev);
    HasCoreInv(cfg, home, e);
    match ev
    case PrepareNext(s, i) => PrepareKeepsPairs(e.core, cfg.shards, e.work[s].t, i);
    case FinishOne(s, t, k) => FinishKeepsPairs(e.core, t, k);
    case Conclude(s) => ReadKeepsPairs(e.core, e.work[s].k, e.work[s].r);
  }

  lemma HasCoreInv(cfg: Config, home: nat -> nat, e: Engine)
    requires EngInv(cfg, home, e)
    ensures CoreInv(e.core)
  {
  }

  lemma ReadKeepsPairs(s: Core, k: Key, r: Read)
    ensures SamePairs(s, ReadStep(s, k, r))
  {
  }

  lemma FinishKeepsPairs(s: Core, t: TxnId, k: Key)
    requires CoreInv(s) && CanFinish(s, t, k)
    ensures SamePairs(s, FinishStep(s, t, k))
  {
    hide CommandsComplete, InstallsCommitted, AckExact, WaitOrder, CommitLog, InstallOrder, FinishStep;
    FinishIsRel(s, t, k);
    FinishKeepsInitial(s, FinishStep(s, t, k), t, k, Promoted(CellOf(s, k).entry.value));
  }

  lemma PrepareKeepsPairs(s: Core, shards: nat, t: TxnId, i: nat)
    requires CanPrepare(s, t, i) && CoreInv(s)
    ensures SamePairs(s, PrepareStep(s, shards, t, i))
  {
    hide Shapes, CommandsSound, CommandsComplete, InstallsCommitted, AckExact, WaitOrder, CommitLog, InstallOrder,
         PrepareStep;
    var s', k := PrepareStep(s, shards, t, i), PrepareKey(s, t, i);
    PrepareIsRel(s, shards, t, i);
    PrepareSameInstalls(s, s', t, k, DecisionOf(s, t, i));
  }

  lemma FinishKeepsInitial(s: Core, s': Core, t: TxnId, k: Key, p: Option<TxnId>)
    requires FinCellRel(s, s', t, k, p)
    ensures forall x :: CellOf(s', x).initial == CellOf(s, x).initial
  {
    assert FinRoles(CellOf(s, k), CellOf(s', k), t, p, t);
  }

  lemma AdmissibleIsNew(cfg: Config, home: nat -> nat, e: Engine, c: nat, q: Request)
    requires AdmInv(cfg, home, e.core.msets, e.ledger, e.inflight, e.waiting, e.clock) && Admissible(cfg, home, e, c, q)
    ensures IsNew(e.core.msets, e.waiting, q) && c < |e.waiting|
  {
    forall w | IsParked(e.waiting, w) ensures w.conn != q.conn {
      var d :| 0 <= d < |e.waiting| && w in e.waiting[d];
      var j :| 0 <= j < |e.waiting[d]| && e.waiting[d][j] == w;
      assert home(e.waiting[d][j].conn) == d;
    }
  }

  /** The state of the engine fits the requests issued so far. */
  ghost predicate Faithful(start: Core, reqs: seq<Request>, e: Engine) {
    Matches(reqs, e.core.msets, e.waiting) && Remembers(start, e.core)
  }

  lemma BeginMatches(cfg: Config, home: nat -> nat, e: Engine, ev: Event, reqs: seq<Request>)
    requires EngInv(cfg, home, e) && Enabled(cfg, home, e, ev) && Matches(reqs, e.core.msets, e.waiting)
    requires ev.Submit? || ev.Park? || ev.Resume?
    ensures var e' := Apply(cfg, home, e, ev); Matches(reqs + Asks(ev), e'.core.msets, e'.waiting)
  {
    hide CoreInv, Values, LineInv, TaskInv, FinInv, OkInv, AdmInv, Matches, IsNew, Apply, Layout, Admissible, Upto;
    CoreOfStep(cfg, home, e, ev);
    WaitingOfStep(cfg, home, e, ev);
    match ev
    case Submit(c, q, ts) =>
      AdmissibleIsNew(cfg, home, e, c, q);
      var t := TxnId(ts, q.conn, q.pipeline);
      SubmitMatches(reqs, e.core.msets, e.waiting, q, t, Begin(e.core, t, c, q.pairs).msets[t]);
    case Park(c, q) =>
      AdmissibleIsNew(cfg, home, e, c, q);
      ParkMatches(reqs, e.core.msets, e.waiting, c, q);
    case Resume(c, ts) =>
      var q := e.waiting[c][0];
      var t := TxnId(ts, q.conn, q.pipeline);
      WaitingIsNext(cfg, home, e, c);
      ResumeMatches(reqs, e.core.msets, e.waiting, c, t, Begin(e.core, t, c, q.pairs).msets[t]);
      assert reqs + [] == reqs;
  }

  lemma WaitingIsNext(cfg: Config, home: nat -> nat, e: Engine, c: nat)
    requires AdmInv(cfg, home, e.core.msets, e.ledger, e.inflight, e.waiting, e.clock)
    requires c < |e.waiting| && e.waiting[c] != []
    ensures forall u :: u in e.core.msets && u.conn == e.waiting[c][0].conn ==> u.pipeline < e.waiting[c][0].pipeline
  {
  }

  lemma StepMatches(cfg: Config, home: nat -> nat, e: Engine, ev: Event, reqs: seq<Request>)
    requires EngInv(cfg, home, e) && Enabled(cfg, home, e, ev) && Matches(reqs, e.core.msets, e.waiting)
    ensures var e' := Apply(cfg, home, e, ev); Matches(reqs + Asks(ev), e'.core.msets, e'.waiting)
  {
    hide EngInv, PrepareStep, FinishStep, ReadStep, Begin, Matches, Apply, Enabled;
    if ev.Submit? || ev.Park? || ev.Resume? {
      BeginMatches(cfg, home, e, ev, reqs);
    } else {
      CoreOfStep(cfg, home, e, ev);
      WaitingOfStep(cfg, home, e, ev);
      assert reqs + [] == reqs;
      if ev.PrepareNext? || ev.FinishOne? || ev.Conclude? {
        CoreStepKeeps(cfg, home, e, ev);
        SameMatches(reqs, e.core.msets, Apply(cfg, home, e, ev).core.msets, e.waiting);
      }
    }
  }

  lemma StepRemembers(cfg: Config, home: nat -> nat, e: Engine, ev: Event, start: Core)
    requires EngInv(cfg, home, e) && Enabled(cfg, home, e, ev) && Remembers(start, e.core)
    ensures Remembers(start, Apply(cfg, home, e, ev).core)
  {
    hide EngInv, PrepareStep, FinishStep, ReadStep, Apply;
    CoreOfStep(cfg, home, e, ev);
    if ev.PrepareNext? || ev.FinishOne? || ev.Conclude? {
      CoreStepKeeps(cfg, home, e, ev);
    }
  }

  lemma StepFaithful(cfg: Config, home: nat -> nat, e: Engine, ev: Event, start: Core, reqs: seq<Request>)
    requires EngInv(cfg, home, e) && Enabled(cfg, home, e, ev) && Faithful(start, reqs, e)
    ensures Faithful(start, reqs + Asks(ev), Apply(cfg, home, e, ev))
  {
    hide EngInv, Matches, Remembers, Apply, Enabled;
    StepMatches(cfg, home, e, ev, reqs);
    StepRemembers(cfg, home, e, ev, start);
  }

  lemma BootFaithful(cfg: Config, e: Engine)
    requires Boot(cfg, e)
    ensures Faithful(e.core, [], e)
  {
  }

  /** In every run the MSETs are the requests issued so far, with the pairs that clients sent. */
  lemma {:induction false} MsetsAreRequests(cfg: Config, home: nat -> nat, run: seq<Engine>, events: seq<Event>, n: nat)
    requires Run(cfg, home, run, events) && Routes(cfg) && n < |run|
    ensures Faithful(run[0].core, Issued(events[..n]), run[n])
  {
    hide EngInv, Enabled, Apply, Boot, Faithful;
    if n == 0 {
      BootFaithful(cfg, run[0]);
    } else {
      MsetsAreRequests(cfg, home, run, events, n - 1);
      RunKeeps(cfg, home, run, events, n - 1);
      RunStep(cfg, home, run, events, n - 1);
      StepFaithful(cfg, home, run[n - 1], events[n - 1], run[0].core, Issued(events[..n - 1]));
      assert events[..n][..n - 1] == events[..n - 1];
    }
  }

  // ---------------------------------------------------------------- parked requests

  /** The requests parked on shard `c`: taken up in the order in which they were parked. */
  function Line(events: seq<Event>, c: nat): seq<Request> {
    if events == [] then []
    else
      var before := Line(events[..|events| - 1], c);
      match events[|events| - 1]
      case Park(d, q) => if c == d then before + [q] else before
      case Resume(d, _) => if c == d && before != [] then before[1..] else before
      case _ => before
  }

  /** In every run the parked requests are in line, and a shard takes up the first of its own. */
  lemma {:induction false} ParkedInLine(cfg: Config, home: nat -> nat, run: seq<Engine>, events: seq<Event>, n: nat,
                                        c: nat)
    requires Run(cfg, home, run, events) && Routes(cfg) && n < |run| && c < cfg.shards
    ensures |run[n].waiting| == cfg.shards && run[n].waiting[c] == Line(events[..n], c)
    ensures n < |events| && events[n].Resume? && events[n].c == c ==>
      Line(events[..n], c) != []
      && var q := Line(events[..n], c)[0]; TxnId(events[n].ts, q.conn, q.pipeline) in run[n + 1].core.msets
  {
    hide EngInv, Enabled, Apply;
    if n > 0 {
      ParkedInLine(cfg, home, run, events, n - 1, c);
      RunStep(cfg, home, run, events, n - 1);
      WaitingOfStep(cfg, home, run[n - 1], events[n - 1]);
      LineStep(cfg, home, run[n - 1], events[n - 1]);
      assert events[..n][..n - 1] == events[..n - 1];
    }
    if n < |events| && events[n].Resume? && events[n].c == c {
      RunStep(cfg, home, run, events, n);
      LineStep(cfg, home, run[n], events[n]);
      CoreOfStep(cfg, home, run[n], events[n]);
    }
  }

  lemma LineStep(cfg: Config, home: nat -> nat, e: Engine, ev: Event)
    requires Enabled(cfg, home, e, ev)
    ensures ev.Resume? ==> ev.c < |e.waiting| && e.waiting[ev.c] != []
    ensures ev.Park? ==> ev.c < |e.waiting|
  {
  }

  // ---------------------------------------------------------------- time stamps

  /** The event that began the MSET gave it this time stamp. */
  ghost predicate Stamped(events: seq<Event>, t: TxnId) {
    exists i :: 0 <= i < |events| && (events[i].Submit? || events[i].Resume?) && events[i].ts == t.timestamp
                && (events[i].Submit? ==> Names(events[i].req, t))
  }

  /** Every MSET carries the time stamp of the step that dispatched it, not of the one that parked it. */
  lemma {:induction false} MsetsAreStamped(cfg: Config, home: nat -> nat, run: seq<Engine>, events: seq<Event>, n: nat,
                                           t: TxnId)
    requires Run(cfg, home, run, events) && Routes(cfg) && n < |run| && t in run[n].core.msets
    ensures Stamped(events[..n], t)
  {
    hide EngInv, Enabled, Apply;
    if n > 0 {
      RunKeeps(cfg, home, run, events, n - 1);
      RunStep(cfg, home, run, events, n - 1);
      StepStamps(cfg, home, run[n - 1], events[n - 1], t);
      if t in run[n - 1].core.msets {
        MsetsAreStamped(cfg, home, run, events, n - 1, t);
        var i :| 0 <= i < n - 1 && (events[i].Submit? || events[i].Resume?) && events[i].ts == t.timestamp
                 && (events[i].Submit? ==> Names(events[i].req, t));
        assert events[..n][i] == events[i];
      } else {
        assert events[..n][n - 1] == events[n - 1];
      }
    }
  }

  lemma StepStamps(cfg: Config, home: nat -> nat, e: Engine, ev: Event, t: TxnId)
    requires EngInv(cfg, home, e) && Enabled(cfg, home, e, ev) && t in Apply(cfg, home, e, ev).core.msets
    ensures t in e.core.msets
            || ((ev.Submit? || ev.Resume?) && ev.ts == t.timestamp && (ev.Submit? ==> Names(ev.req, t)))
  {
    hide EngInv, PrepareStep, FinishStep, ReadStep, Apply;
    CoreOfStep(cfg, home, e, ev);
    if ev.PrepareNext? || ev.FinishOne? || ev.Conclude? {
      CoreStepKeeps(cfg, home, e, ev);
    }
  }
}
