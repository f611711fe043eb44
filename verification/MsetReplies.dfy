/**
 * Every reply to a read is up to date: its value is what executing the requests committed at that very
 * moment, in commit order, makes of the loaded data.
 */
module MsetReplies {
  import opened Options
  import opened Txn
  import opened KeyCell
  import opened KeyCellLaws
  import opened MsetCore
  import opened MsetCoreLaws
  import opened MsetValues
  import opened MsetEngine
  import opened MsetLine
  import opened MsetTasks
  import opened MsetFin
  import opened MsetAdmission
  import opened MsetInvariant
  import opened MsetRequests
  import opened MsetTheorems
  import opened MsetObjects

  /** Replies are only added, and those added on `k` show the serial result of the commits of `s`. */
  ghost predicate Fresh(db: Db, reqs: seq<Request>, s: Core, s': Core, k: Key) {
    && s.replies <= s'.replies
    && forall j :: |s.replies| <= j < |s'.replies| && s'.replies[j].0 == k ==>
         ValueOf(s'.replies[j].1.obj) == Get(Serial(db, s.commits, reqs), k)
  }

  // ---------------------------------------------------------------- reads that pass the lock check

  /** A read is deferred behind the lock, or answered with the value that FIN last installed. */
  lemma ReadShowsStable(s: Core, k: Key, r: Read)
    requires Shapes(s) && LockExact(CellOf(s, k))
    ensures var c := CellOf(s, k); var s' := ReadStep(s, k, r);
      if c.entry.Some? then s'.replies == s.replies && CellOf(s', k).entry == Some(AddRegular(c.entry.value, r))
      else s' == s.(replies := s.replies + [(k, Reply(r, Stable(c)))])
  {
    assert Shape(CellOf(s, k));
  }

  lemma ReadIsFresh(s: Core, db: Db, reqs: seq<Request>, x: Key, r: Read, k: Key)
    requires CoreInv(s) && Values(s) && Grounded(s, db, reqs, k) && LockExact(CellOf(s, k))
    ensures Fresh(db, reqs, s, ReadStep(s, x, r), k)
  {
    hide Values, CommandsSound, CommandsComplete, InstallsCommitted, AckExact, WaitOrder, CommitLog, InstallOrder,
         Grounded, Serial, LockExact, Shape, Stable;
    var c := CellOf(s, x);
    if x == k && !Deferred(c) {
      assert Shape(c);
      ReadIsStable(c);
      UnlockedIsSerial(s, db, reqs, k);
    }
  }

  // ---------------------------------------------------------------- reads drained by FIN

  /** After FIN of `t` on `k` every commit of before that names `k` is installed there. */
  lemma FinishCut(s: Core, s': Core, t: TxnId, k: Key, p: Option<TxnId>)
    requires CoreInv(s) && CoreInv(s') && CanFinish(s, t, k)
    requires FinCellRel(s, s', t, k, p) && FinCountRel(s, s', p)
    ensures Cut(s', k, |s.commits|, |CellOf(s', k).installs|) && s'.commits[..|s.commits|] == s.commits
  {
    hide CoreInv, Installed;
    var c, c' := CellOf(s, k), CellOf(s', k);
    forall u ensures Installed(c', u) <==> Installed(c, u) || u == t {
      assert FinRoles(c, c', t, p, u);
    }
    forall u | u in s.commits ensures Pos(s'.commits, u) == Pos(s.commits, u) < |s.commits| {
      PosKept(s.commits, s'.commits, u);
    }
    LogIsCommitted(s, t);
    forall j | 0 <= j < |c'.installs| && c'.installs[j].Made?
      ensures Pos(s'.commits, c'.installs[j].txn) < |s.commits|
    {
      InstalledAt(c', j);
      InstalledIsLogged(s, k, c'.installs[j].txn);
    }
    forall u | u in s'.msets && k in KeysOf(s'.msets[u]) && u in s'.commits && Pos(s'.commits, u) < |s.commits|
      ensures Installed(c', u)
    {
      PosIsMember(s.commits, s'.commits, u);
      LogIsCommitted(s, u);
      assert KeysOf(s'.msets[u]) == KeysOf(s.msets[u]);
      HeldOrInstalled(s, u, k);
    }
  }

  lemma InstalledAt(c: Cell, j: nat)
    requires j < |c.installs| && c.installs[j].Made?
    ensures Installed(c, c.installs[j].txn)
  {
  }

  lemma InstalledIsLogged(s: Core, k: Key, u: TxnId)
    requires CoreInv(s)
    ensures Installed(CellOf(s, k), u) ==> u in s.commits
  {
    hide Shapes, CommandsSound, CommandsComplete, AckExact, WaitOrder, InstallOrder, Installed;
  }

  lemma {:induction false} PosKept(log: seq<TxnId>, log': seq<TxnId>, u: TxnId)
    requires log <= log' && u in log
    ensures Pos(log', u) == Pos(log, u) < |log|
    decreases |log|
  {
    if log[0] != u { PosKept(log[1..], log'[1..], u); }
  }

  lemma PosIsMember(log: seq<TxnId>, log': seq<TxnId>, u: TxnId)
    requires log <= log' && u in log' && Pos(log', u) < |log|
    ensures u in log
  {
  }

  lemma FinishIsFresh(s: Core, db: Db, reqs: seq<Request>, t: TxnId, x: Key, k: Key)
    requires CoreInv(s) && Values(s) && CanFinish(s, t, x) && Grounded(s, db, reqs, k)
    ensures Fresh(db, reqs, s, FinishStep(s, t, x), k)
  {
    hide CoreInv, Values, CanFinish, Grounded, Serial, FinishStep, Finish, DrainReplies, Cut, FinCellRel, FinCountRel;
    var s' := FinishStep(s, t, x);
    FinishRel(s, t, x);
    var p := Promoted(CellOf(s, x).entry.value);
    if x == k {
      FinishKeeps(s, t, k);
      FinishValues(s, t, k);
      FinishGrounded(s, db, reqs, t, k);
      FinishCut(s, s', t, k, p);
      SerialPrefix(s', db, reqs, k, |s.commits|, |CellOf(s', k).installs|);
      FinishInstalled(CellOf(s, k));
      DrainsInstalled(CellOf(s, k).entry.value);
    }
  }

  lemma DrainsInstalled(e: Entry)
    ensures forall j :: 0 <= j < |DrainReplies(e)| ==> DrainReplies(e)[j].obj == Some(e.holder.obj)
  {
  }

  lemma FinishRel(s: Core, t: TxnId, x: Key)
    requires CoreInv(s) && CanFinish(s, t, x)
    ensures CellOf(s, x).entry.Some?
    ensures var s' := FinishStep(s, t, x); var e := CellOf(s, x).entry.value;
      && FinCellRel(s, s', t, x, Promoted(e)) && FinCountRel(s, s', Promoted(e))
      && CellOf(s', x) == Finish(CellOf(s, x), e) && s'.replies == s.replies + Log(x, DrainReplies(e))
  {
    FinishIsRel(s, t, x);
  }

  lemma FinishGrounded(s: Core, db: Db, reqs: seq<Request>, t: TxnId, k: Key)
    requires CoreInv(s) && CanFinish(s, t, k) && Grounded(s, db, reqs, k)
    ensures Grounded(FinishStep(s, t, k), db, reqs, k)
  {
    hide CoreInv, FinishStep, Wanted;
    FinishKeepsPairs(s, t, k);
  }

  // ---------------------------------------------------------------- every run

  lemma StepIsFresh(cfg: Config, home: nat -> nat, start: Core, reqs: seq<Request>, e: Engine, ev: Event, k: Key)
    requires EngInv(cfg, home, e) && Enabled(cfg, home, e, ev) && Faithful(start, reqs, e)
    requires ev.Conclude? ==> LockExact(CellOf(e.core, k))
    ensures Fresh(Shown(start), reqs, e.core, Apply(cfg, home, e, ev).core, k)
  {
    hide CoreInv, Values, LineInv, TaskInv, FinInv, OkInv, AdmInv, Layout, Apply, PrepareStep, FinishStep, ReadStep,
         Faithful, Grounded, Serial, Shown, LockExact;
    FaithfulIsGrounded(start, reqs, e, k);
    CoreOfStep(cfg, home, e, ev);
    match ev
    case FinishOne(s, t, x) => FinishIsFresh(e.core, Shown(start), reqs, t, x, k);
    case Conclude(s) => ReadIsFresh(e.core, Shown(start), reqs, e.work[s].k, e.work[s].r, k);
    case PrepareNext(s, i) => PrepareIsSilent(e.core, cfg.shards, e.work[s].t, i);
    case _ =>
  }

  lemma PrepareIsSilent(s: Core, shards: nat, t: TxnId, i: nat)
    requires CanPrepare(s, t, i) && CoreInv(s)
    ensures PrepareStep(s, shards, t, i).replies == s.replies
  {
    hide CoreInv, PreparedCell, Decide;
  }

  /**
   * Every reply that a step gives on `k`, at once or while FIN drains the wait queue, shows what
   * executing exactly the requests committed at that moment, in commit order, makes of the loaded
   * data; as long as no MSET has named `k` again while it was new.
   */
  lemma RepliesAreFresh(cfg: Config, home: nat -> nat, run: seq<Engine>, events: seq<Event>, i: nat, k: Key)
    requires Run(cfg, home, run, events) && Routes(cfg) && i < |events|
    requires events[i].Conclude? ==> Careful(run, events, i, k)
    ensures Fresh(Shown(run[0].core), Issued(events[..i]), run[i].core, run[i + 1].core, k)
  {
    hide EngInv, Enabled, Apply, Boot, Faithful, Careful, KeySafe, Serial, Shown, LockExact;
    RunKeeps(cfg, home, run, events, i);
    RunStep(cfg, home, run, events, i);
    MsetsAreRequests(cfg, home, run, events, i);
    if events[i].Conclude? {
      KeyStaysSafe(cfg, home, run, events, i, k);
      SafeIsExact(run[i].core, k);
    }
    StepIsFresh(cfg, home, run[0].core, Issued(events[..i]), run[i], events[i], k);
  }

  lemma SafeIsExact(s: Core, k: Key)
    requires KeySafe(s, k)
    ensures LockExact(CellOf(s, k))
  {
  }

  /** The reply was given in step `i`, with the serial result of the commits at that moment. */
  ghost predicate GivenAt(run: seq<Engine>, events: seq<Event>, i: nat, k: Key, r: Reply)
    requires i < |run| && i <= |events|
  {
    ValueOf(r.obj) == Get(Serial(Shown(run[0].core), run[i].core.commits, Issued(events[..i])), k)
  }

  lemma CarefulBefore(run: seq<Engine>, events: seq<Event>, n: nat, k: Key)
    requires 0 < n <= |run| && n <= |events| && Careful(run, events, n, k)
    ensures Careful(run, events, n - 1, k)
  {
  }

  /** So every reply of a run was given in some step, and was right at that moment. */
  lemma {:induction false} EveryReplyIsFresh(cfg: Config, home: nat -> nat, run: seq<Engine>, events: seq<Event>,
                                             n: nat, j: nat)
    returns (i: nat)
    requires Run(cfg, home, run, events) && Routes(cfg) && n < |run| && j < |run[n].core.replies|
    requires Careful(run, events, n, run[n].core.replies[j].0)
    ensures i < n && |run[i].core.replies| <= j < |run[i + 1].core.replies|
    ensures run[i + 1].core.replies[j] == run[n].core.replies[j]
    ensures GivenAt(run, events, i, run[n].core.replies[j].0, run[n].core.replies[j].1)
    decreases n
  {
    hide EngInv, Enabled, Apply, Careful, Serial, Shown;
    var k := run[n].core.replies[j].0;
    assert n > 0;
    CarefulBefore(run, events, n, k);
    RepliesAreFresh(cfg, home, run, events, n - 1, k);
    if j < |run[n - 1].core.replies| {
      i := EveryReplyIsFresh(cfg, home, run, events, n - 1, j);
    } else {
      i := n - 1;
    }
  }

  // ---------------------------------------------------------------- real time

  /** An MSET that has got its +OK is among the commits that every later read sees. */
  lemma AnsweredIsVisible(cfg: Config, home: nat -> nat, run: seq<Engine>, events: seq<Event>, n: nat, i: nat, t: TxnId)
    requires Run(cfg, home, run, events) && Routes(cfg) && n <= i < |run|
    requires t in run[n].ledger && run[n].ledger[t].oks > 0
    ensures t in run[i].core.commits
  {
    hide Run, EngInv, Committed;
    RunKeeps(cfg, home, run, events, n);
    AnsweredIsCommitted(cfg, home, run[n], t);
    CommitIsFinal(cfg, home, run, events, n, i, t);
    RunKeeps(cfg, home, run, events, i);
    HasCoreInv(cfg, home, run[i]);
    LogIsCommitted(run[i].core, t);
  }

  lemma AnsweredIsCommitted(cfg: Config, home: nat -> nat, e: Engine, t: TxnId)
    requires EngInv(cfg, home, e) && t in e.ledger && e.ledger[t].oks > 0
    ensures Committed(e.core, t)
  {
    hide CoreInv, Values, LineInv, TaskInv, FinInv, AdmInv, KeysOf, Installed;
    var pairs := e.core.msets[t].pairs;
    HasPairs(cfg, home, e, t);
    var k := pairs[0].0;
    assert k in KeysOf(e.core.msets[t]) by { KeyNamed(e.core.msets[t], 0); }
    EngComplete(cfg, home, e, t, k);
    HeldOrInstalled(e.core, t, k);
  }

  lemma KeyNamed(m: Mset, i: nat)
    requires i < |m.pairs|
    ensures m.pairs[i].0 in KeysOf(m)
  {
  }

  lemma HasPairs(cfg: Config, home: nat -> nat, e: Engine, t: TxnId)
    requires EngInv(cfg, home, e) && t in e.core.msets
    ensures |e.core.msets[t].pairs| > 0
  {
    hide CoreInv, Values, LineInv, TaskInv, FinInv, OkInv;
  }
}
