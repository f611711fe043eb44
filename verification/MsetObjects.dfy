/**
 * What becomes of one key over a whole run, as long as no MSET names it again while it is new: the
 * lock bit is exact, every read gets a committed value, and every object is destroyed exactly once
 * when a later FIN supersedes it or a later pair of its own MSET replaces it, and never otherwise.
 */
module MsetObjects {
  import opened Options
  import opened Txn
  import opened KeyCell
  import opened KeyCellLaws
  import opened MsetCore
  import opened MsetCoreLaws
  import opened MsetValues
  import opened MsetEngine
  import opened MsetLine
  import opened MsetTasks
  import opened MsetFin
  import opened MsetAdmission
  import opened MsetInvariant

  /** The object of a prepared pair after which its MSET has prepared another pair on the key. */
  ghost predicate Replaced(s: Core, k: Key, o: Obj) {
    && o.Made? && o.txn in s.msets && o.pair in PreparedAt(s.msets[o.txn], k)
    && s.msets[o.txn].pairs[o.pair].1 == o.value
    && exists j :: j in PreparedAt(s.msets[o.txn], k) && o.pair < j
  }

  ghost predicate Accounted(s: Core, k: Key, o: Obj) {
    CellOf(s, k).destroyed[o] == if o in Superseded(CellOf(s, k)) || Replaced(s, k, o) then 1 else 0
  }

  ghost predicate AllAccounted(s: Core, k: Key) {
    forall o :: Accounted(s, k, o)
  }

  /** The value the key started with, or one that FIN has installed. */
  ghost predicate Clean(c: Cell, o: Option<Obj>) {
    o == c.initial || (o.Some? && o.value in c.installs)
  }

  ghost predicate CleanReplies(s: Core, k: Key) {
    forall j :: 0 <= j < |s.replies| && s.replies[j].0 == k ==> Clean(CellOf(s, k), s.replies[j].1.obj)
  }

  ghost predicate KeySafe(s: Core, k: Key) {
    LockExact(CellOf(s, k)) && AllAccounted(s, k) && CleanReplies(s, k)
  }

  // ---------------------------------------------------------------- one key

  /** A repeated key destroys the object of the pair it replaces, and PREPARE destroys nothing else. */
  lemma PrepareDestroys(c: Cell, t: TxnId, pair: nat, value: Value, origin: nat, shards: nat, may: bool)
    requires Shape(c)
    ensures var c' := Prepare(c, t, pair, value, origin, shards, may);
      if Holds(c, t) || Waits(c, t) then
        exists m :: InEntry(c.entry.value, m) && m.txn == t && c'.destroyed == c.destroyed + multiset{m.obj}
      else c'.destroyed == c.destroyed
  {
    var c' := Prepare(c, t, pair, value, origin, shards, may);
    assert c.entry.Some? ==> Found(c) == c.entry;
    if Holds(c, t) {
      assert InEntry(c.entry.value, c.entry.value.holder);
    } else if Waits(c, t) {
      var j := FindQueued(c.entry.value.queue, t);
      var m := c.entry.value.queue[j].anchor;
      assert InEntry(c.entry.value, m) && m.prior.Some?;
    }
  }

  /** The objects installed: made by different MSETs, on top of one that was loaded. */
  lemma InstalledApart(c: Cell)
    requires Shape(c)
    ensures c.initial.Some? ==> c.initial.value.Loaded?
    ensures forall i :: 0 <= i < |c.installs| ==> c.installs[i].Made?
    ensures forall i, j :: 0 <= i < j < |c.installs| ==> c.installs[i] != c.installs[j]
  {
  }

  lemma LastIsNew(c: Cell, i: nat)
    requires Shape(c) && i < |Superseded(c)|
    ensures History(c) != [] && Superseded(c)[i] != History(c)[|History(c)| - 1]
  {
    InstalledApart(c);
    hide Shape;
    var h := History(c);
    var d := |h| - |c.installs|;
    assert |c.installs| > 0 && h[|h| - 1] == c.installs[|c.installs| - 1];
    if i >= d { assert h[i] == c.installs[i - d]; }
  }

  /** The stable value is the newest of the history and occurs there once. */
  lemma HistorySplit(c: Cell, o: Obj)
    requires Shape(c)
    ensures o in History(c) <==> o in Superseded(c) || Stable(c) == Some(o)
    ensures Stable(c) == Some(o) ==> o !in Superseded(c)
    ensures o in History(c) ==> o.Loaded? || o in c.installs
  {
    var h := History(c);
    LastIsStable(c);
    InstalledApart(c);
    hide Shape, Stable;
    if h != [] {
      assert h == Superseded(c) + [h[|h| - 1]];
      forall i: nat | i < |Superseded(c)| ensures Superseded(c)[i] != h[|h| - 1] {
        LastIsNew(c, i);
      }
    }
  }

  lemma InstalledObj(c: Cell, o: Obj)
    requires Shape(c) && o in c.installs
    ensures o.Made? && Installed(c, o.txn)
  {
    var i :| 0 <= i < |c.installs| && c.installs[i] == o;
  }

  /** Replies sent while draining carry the value just installed. */
  lemma DrainIsClean(c: Cell)
    requires Shape(c) && c.entry.Some?
    ensures var rs := DrainReplies(c.entry.value);
      forall j :: 0 <= j < |rs| ==> Clean(Finish(c, c.entry.value), rs[j].obj)
  {
    FinishInstalled(c);
    assert Finish(c, c.entry.value).installs[|c.installs|] == c.entry.value.holder.obj;
  }

  lemma StaysClean(c: Cell, c': Cell, o: Option<Obj>)
    requires c'.initial == c.initial && c.installs <= c'.installs && Clean(c, o)
    ensures Clean(c', o)
  {
  }

  // ---------------------------------------------------------------- PREPARE

  lemma ReplacedElsewhere(s: Core, s': Core, t: TxnId, i: nat, d: Decision, v: TxnId, k: Key, o: Obj)
    requires CountRel(s, s', t, i, d, v) && (k != PrepareKey(s, t, i) || !o.Made? || o.txn != t)
    ensures Replaced(s', k, o) == Replaced(s, k, o)
  {
    if o.Made? && o.txn in s.msets {
      PrepareSets(s, s', t, i, d, v, o.txn, k);
      assert s'.msets[o.txn].pairs == s.msets[o.txn].pairs;
    }
  }

  lemma ReplacedFirst(s: Core, s': Core, t: TxnId, i: nat, d: Decision, v: TxnId, o: Obj)
    requires CountRel(s, s', t, i, d, v) && PreparedAt(s.msets[t], PrepareKey(s, t, i)) == {} && o.Made? && o.txn == t
    ensures !Replaced(s', PrepareKey(s, t, i), o) && !Replaced(s, PrepareKey(s, t, i), o)
  {
    PrepareSets(s, s', t, i, d, v, t, PrepareKey(s, t, i));
  }

  lemma ReplacedAgain(s: Core, s': Core, t: TxnId, i: nat, d: Decision, v: TxnId, last: Obj, o: Obj)
    requires CountRel(s, s', t, i, d, v) && InKeyOrder(s, t, i) && MsetInOrder(s.msets[t])
    requires last.Made? && last.txn == t && ObjExact(s, PrepareKey(s, t, i), last) && o.Made? && o.txn == t
    ensures var k := PrepareKey(s, t, i);
      Replaced(s', k, o) == (Replaced(s, k, o) || o == last) && !Replaced(s, k, last)
  {
    var k := PrepareKey(s, t, i);
    PrepareSets(s, s', t, i, d, v, t, k);
    PrepareLast(s, s', t, i, d, v);
    assert i in PreparedAt(s'.msets[t], k) && i !in PreparedAt(s.msets[t], k);
    if o.pair in PreparedAt(s.msets[t], k) {
      assert last.pair in PreparedAt(s.msets[t], k) && o.pair < i;
    }
  }

  lemma NotSuperseded(c: Cell, o: Obj)
    requires Shape(c) && o.Made? && !Installed(c, o.txn)
    ensures o !in Superseded(c)
  {
    HistorySplit(c, o);
    if o in c.installs {
      InstalledObj(c, o);
    }
  }

  /** What PREPARE destroys on its key is exactly the object it replaces, if it replaces one. */
  ghost predicate Swaps(s: Core, s': Core, t: TxnId, k: Key) {
    var c := CellOf(s, k);
    if Holds(c, t) || Waits(c, t) then
      exists m :: InEntry(c.entry.value, m) && m.txn == t && CellOf(s', k).destroyed == c.destroyed + multiset{m.obj}
    else CellOf(s', k).destroyed == c.destroyed
  }

  lemma SwapAccounted(s: Core, s': Core, t: TxnId, i: nat, d: Decision, v: TxnId, o: Obj)
    requires CanPrepare(s, t, i) && CountRel(s, s', t, i, d, v) && InKeyOrder(s, t, i)
    requires Values(s) && CommandsComplete(s)
    requires var k := PrepareKey(s, t, i);
      && Swaps(s, s', t, k) && Shape(CellOf(s, k)) && !Installed(CellOf(s, k), t) && Accounted(s, k, o)
      && Superseded(CellOf(s', k)) == Superseded(CellOf(s, k))
    ensures Accounted(s', PrepareKey(s, t, i), o)
  {
    hide Superseded, Shape, CountRel, InKeyOrder, Replaced;
    var k := PrepareKey(s, t, i);
    var c := CellOf(s, k);
    if Holds(c, t) || Waits(c, t) {
      var m :| InEntry(c.entry.value, m) && m.txn == t && CellOf(s', k).destroyed == c.destroyed + multiset{m.obj};
      assert CmdExact(s, k, m);
      if o.Made? && o.txn == t {
        ReplacedAgain(s, s', t, i, d, v, m.obj, o);
        NotSuperseded(c, o);
      } else {
        ReplacedElsewhere(s, s', t, i, d, v, k, o);
      }
    } else {
      assert !Pending(c, t);
      assert PreparedAt(s.msets[t], k) == {};
      if o.Made? && o.txn == t {
        ReplacedFirst(s, s', t, i, d, v, o);
      } else {
        ReplacedElsewhere(s, s', t, i, d, v, k, o);
      }
    }
  }

  /** On its own key: exact unless it exposes, and accounted for in any case. */
  lemma PrepareHere(s: Core, s': Core, shards: nat, t: TxnId, i: nat, d: Decision, v: TxnId)
    requires CanPrepare(s, t, i) && CountRel(s, s', t, i, d, v) && InKeyOrder(s, t, i) && SameInstalls(s, s')
    requires Values(s) && CommandsComplete(s)
    requires var k := PrepareKey(s, t, i); var c := CellOf(s, k);
      && Shape(c) && LockExact(c) && AllAccounted(s, k) && !Installed(c, t) && !Exposes(c, t)
      && CellOf(s', k) == PreparedCell(s, shards, t, i)
    ensures var k := PrepareKey(s, t, i); LockExact(CellOf(s', k)) && AllAccounted(s', k)
  {
    hide CountRel, InKeyOrder, Values, CommandsComplete, Shape, LockExact, Accounted, Prepare, Superseded, Exposes;
    var k := PrepareKey(s, t, i);
    var c := CellOf(s, k);
    var value, coord, may := s.msets[t].pairs[i].1, s.msets[t].coord, WoundAt(s, t, k);
    PrepareLocked(c, t, i, value, coord, shards, may);
    PrepareDestroys(c, t, i, value, coord, shards, may);
    assert CellOf(s', k).installs == c.installs;
    SameHistory(c, CellOf(s', k));
    assert Swaps(s, s', t, k);
    forall o ensures Accounted(s', k, o) {
      assert Accounted(s, k, o);
      SwapAccounted(s, s', t, i, d, v, o);
    }
  }

  lemma PrepareElsewhere(s: Core, s': Core, t: TxnId, i: nat, d: Decision, v: TxnId, k: Key)
    requires CountRel(s, s', t, i, d, v) && CellRel(s, s', t, PrepareKey(s, t, i), d) && k != PrepareKey(s, t, i)
    requires AllAccounted(s, k)
    ensures AllAccounted(s', k)
  {
    hide Replaced, Superseded;
    forall o ensures Accounted(s', k, o) {
      assert Accounted(s, k, o);
      ReplacedElsewhere(s, s', t, i, d, v, k, o);
    }
  }

  lemma PrepareSafe(s: Core, cfg: Config, t: TxnId, i: nat, k: Key)
    requires CoreInv(s) && Values(s) && KeySafe(s, k) && CanPrepare(s, t, i) && InKeyOrder(s, t, i)
    requires k == PrepareKey(s, t, i) ==> !Exposes(CellOf(s, k), t)
    ensures KeySafe(PrepareStep(s, cfg.shards, t, i), k)
  {
    hide PrepareStep, PreparedCell, CountRel, Values, InKeyOrder, AllAccounted, LockExact, Exposes, Shape,
         CommandsSound, CommandsComplete, InstallsCommitted, AckExact, WaitOrder, CommitLog, InstallOrder;
    var s' := PrepareStep(s, cfg.shards, t, i);
    var x := PrepareKey(s, t, i);
    var d, v := DecisionOf(s, t, i), HolderOf(CellOf(s, x), t);
    PrepareIsRel(s, cfg.shards, t, i);
    PrepareSameInstalls(s, s', t, x, d);
    SameReplies(s, s', k);
    if k == x {
      UnpreparedIsUncommitted(s, t, i, x);
      assert Shape(CellOf(s, k));
      PrepareHere(s, s', cfg.shards, t, i, d, v);
    } else {
      PrepareElsewhere(s, s', t, i, d, v, k);
    }
  }

  lemma SameReplies(s: Core, s': Core, k: Key)
    requires SameInstalls(s, s') && s'.replies == s.replies && CleanReplies(s, k)
    ensures CleanReplies(s', k)
  {
    assert CellOf(s', k).installs == CellOf(s, k).installs;
  }

  // ---------------------------------------------------------------- FIN

  ghost predicate SamePlans(s: Core, s': Core) {
    && s'.msets.Keys == s.msets.Keys
    && forall u :: u in s.msets ==> s'.msets[u].pairs == s.msets[u].pairs && s'.msets[u].left == s.msets[u].left
  }

  lemma SameReplaced(s: Core, s': Core, k: Key, o: Obj)
    requires SamePlans(s, s')
    ensures Replaced(s', k, o) == Replaced(s, k, o)
  {
  }

  lemma SameAccounted(s: Core, s': Core, k: Key)
    requires SamePlans(s, s') && AllAccounted(s, k)
    requires CellOf(s', k).destroyed == CellOf(s, k).destroyed
    requires CellOf(s', k).installs == CellOf(s, k).installs && CellOf(s', k).initial == CellOf(s, k).initial
    ensures AllAccounted(s', k)
  {
    hide Replaced, Superseded, SamePlans;
    SameHistory(CellOf(s, k), CellOf(s', k));
    forall o ensures Accounted(s', k, o) {
      assert Accounted(s, k, o);
      SameReplaced(s, s', k, o);
    }
  }

  lemma FinishAccounted(s: Core, s': Core, k: Key, o: Obj)
    requires var c := CellOf(s, k);
      && Shape(c) && LockExact(c) && c.entry.Some? && CellOf(s', k) == Finish(c, c.entry.value)
    requires InstallsExact(s) && Accounted(s, k, o) && Replaced(s', k, o) == Replaced(s, k, o)
    ensures Accounted(s', k, o)
  {
    hide Superseded, History, Shape, LockExact, Finish, Stable;
    var c := CellOf(s, k);
    FinishDestroys(c);
    HistorySplit(c, o);
    if Stable(c) == Some(o) && o in c.installs {
      assert ObjExact(s, k, o);
    }
  }

  lemma FinishHere(s: Core, s': Core, t: TxnId, k: Key)
    requires CanFinish(s, t, k) && SamePlans(s, s') && Shape(CellOf(s, k)) && KeySafe(s, k) && InstallsExact(s)
    requires CellOf(s', k) == Finish(CellOf(s, k), CellOf(s, k).entry.value)
    requires s'.replies == s.replies + Log(k, DrainReplies(CellOf(s, k).entry.value))
    ensures KeySafe(s', k)
  {
    hide Superseded, Shape, LockExact, Finish, Accounted, Clean, Replaced, InstallsExact, SamePlans;
    var c := CellOf(s, k);
    FinishLocked(c);
    forall o ensures Accounted(s', k, o) {
      assert Accounted(s, k, o);
      SameReplaced(s, s', k, o);
      FinishAccounted(s, s', k, o);
    }
    FinishInstalled(c);
    DrainIsClean(c);
    forall j | 0 <= j < |s'.replies| && s'.replies[j].0 == k ensures Clean(CellOf(s', k), s'.replies[j].1.obj) {
      if j < |s.replies| {
        assert s'.replies[j] == s.replies[j];
        StaysClean(c, CellOf(s', k), s.replies[j].1.obj);
      }
    }
  }

  lemma FinishSafe(s: Core, t: TxnId, x: Key, k: Key)
    requires CoreInv(s) && Values(s) && KeySafe(s, k) && CanFinish(s, t, x)
    ensures KeySafe(FinishStep(s, t, x), k)
  {
    hide FinishStep, Finish, AllAccounted, LockExact, DrainReplies, Clean, Shape,
         CommandsSound, CommandsComplete, InstallsCommitted, AckExact, WaitOrder, CommitLog, InstallOrder,
         InstallsExact, CmdsExact, AllInOrder;
    var s' := FinishStep(s, t, x);
    FinishIsRel(s, t, x);
    assert SamePlans(s, s');
    assert Shape(CellOf(s, x));
    if k == x {
      FinishHere(s, s', t, k);
    } else {
      SameAccounted(s, s', k);
      assert forall j :: 0 <= j < |s'.replies| && s'.replies[j].0 == k ==>
        j < |s.replies| && s'.replies[j] == s.replies[j];
    }
  }

  // ---------------------------------------------------------------- dispatch and reads

  lemma BeginSafe(s: Core, t: TxnId, coord: nat, pairs: seq<(Key, Value)>, k: Key)
    requires KeySafe(s, k) && CanBegin(s, t, pairs)
    ensures KeySafe(Begin(s, t, coord, pairs), k)
  {
    hide Superseded, LockExact, Clean;
    var s' := Begin(s, t, coord, pairs);
    assert CellOf(s', k) == CellOf(s, k);
    forall o ensures Accounted(s', k, o) {
      assert Accounted(s, k, o);
      assert PreparedAt(s'.msets[t], k) == {};
    }
  }

  lemma ReadSafe(s: Core, x: Key, r: Read, k: Key)
    requires Shapes(s) && KeySafe(s, k)
    ensures KeySafe(ReadStep(s, x, r), k)
  {
    hide AllAccounted, LockExact, Shape, Stable;
    var s' := ReadStep(s, x, r);
    var c := CellOf(s, x);
    assert Shape(c);
    SameAccounted(s, s', k);
    if Deferred(c) {
      DeferKeeps(c, r);
    } else if k == x {
      ReadIsStable(c);
      StableIsClean(c);
    }
  }

  lemma StableIsClean(c: Cell)
    ensures Clean(c, Stable(c))
  {
  }

  // ---------------------------------------------------------------- every run

  /** The event is a PREPARE that replaces the tentative object of the new key `k`. */
  ghost predicate ExposesKey(e: Engine, ev: Event, k: Key) {
    && ev.PrepareNext? && ev.s < |e.work| && e.work[ev.s].Preparing? && e.work[ev.s].t in e.core.msets
    && ev.i < |e.core.msets[e.work[ev.s].t].pairs| && e.core.msets[e.work[ev.s].t].pairs[ev.i].0 == k
    && Exposes(CellOf(e.core, k), e.work[ev.s].t)
  }

  /** No MSET names `k` again in the first `n` steps while `k` is new. */
  ghost predicate Careful(run: seq<Engine>, events: seq<Event>, n: nat, k: Key)
    requires n <= |run| && n <= |events|
  {
    forall i :: 0 <= i < n ==> !ExposesKey(run[i], events[i], k)
  }

  lemma ResumeBegins(cfg: Config, home: nat -> nat, e: Engine, c: nat, ts: nat)
    requires EngInv(cfg, home, e) && Enabled(cfg, home, e, Resume(c, ts))
    ensures var req := e.waiting[c][0]; CanBegin(e.core, TxnId(ts, req.conn, req.pipeline), req.pairs)
  {
    hide CoreInv, Values, LineInv, TaskInv, FinInv, OkInv;
    AdmResume(cfg, home, e.core.msets, e.waiting, c);
  }

  lemma NextPair(cfg: Config, home: nat -> nat, e: Engine, s: nat, i: nat)
    requires EngInv(cfg, home, e) && CanPrepareNext(cfg, e, s, i)
    ensures CanPrepare(e.core, e.work[s].t, i) && InKeyOrder(e.core, e.work[s].t, i)
  {
    hide CoreInv, Values, LineInv, TaskInv, FinInv, OkInv;
    NextInOrder(cfg, home, e, s, i);
  }

  lemma StepSafe(cfg: Config, home: nat -> nat, e: Engine, ev: Event, k: Key)
    requires EngInv(cfg, home, e) && Enabled(cfg, home, e, ev) && KeySafe(e.core, k) && !ExposesKey(e, ev, k)
    ensures KeySafe(Apply(cfg, home, e, ev).core, k)
  {
    hide Values, TaskInv, FinInv, OkInv, AdmInv, LineInv, KeySafe, PrepareStep, FinishStep, ReadStep, Apply, Begin,
         Exposes, Shapes, CommandsSound, CommandsComplete, InstallsCommitted, AckExact, WaitOrder, CommitLog,
         InstallOrder;
    CoreOfStep(cfg, home, e, ev);
    match ev
    case Submit(c, req, ts) => BeginSafe(e.core, TxnId(ts, req.conn, req.pipeline), c, req.pairs, k);
    case Resume(c, ts) =>
      ResumeBegins(cfg, home, e, c, ts);
      BeginSafe(e.core, TxnId(ts, e.waiting[c][0].conn, e.waiting[c][0].pipeline), c, e.waiting[c][0].pairs, k);
    case PrepareNext(s, i) =>
      NextPair(cfg, home, e, s, i);
      PrepareSafe(e.core, cfg, e.work[s].t, i, k);
    case FinishOne(s, t, x) => FinishSafe(e.core, t, x, k);
    case Conclude(s) => ReadSafe(e.core, e.work[s].k, e.work[s].r, k);
    case _ =>
  }

  lemma {:induction false} KeyStaysSafe(cfg: Config, home: nat -> nat, run: seq<Engine>, events: seq<Event>, n: nat,
                                        k: Key)
    requires Run(cfg, home, run, events) && Routes(cfg) && n < |run| && Careful(run, events, n, k)
    ensures KeySafe(run[n].core, k)
  {
    hide EngInv, Enabled, Apply, KeySafe, ExposesKey;
    if n == 0 {
      StartSafe(run[0].core, k);
    } else {
      KeyStaysSafe(cfg, home, run, events, n - 1, k);
      RunKeeps(cfg, home, run, events, n - 1);
      RunStep(cfg, home, run, events, n - 1);
      StepSafe(cfg, home, run[n - 1], events[n - 1], k);
    }
  }

  lemma StartSafe(s: Core, k: Key)
    requires Start(s)
    ensures KeySafe(s, k)
  {
    assert CellOf(s, k) == Fresh(CellOf(s, k).initial);
    forall o ensures Accounted(s, k, o) {
    }
  }

  // ---------------------------------------------------------------- what a careful run guarantees

  /** Every reply, immediate or drained, shows the loaded value or the value of a committed MSET. */
  lemma NoDirtyReads(cfg: Config, home: nat -> nat, run: seq<Engine>, events: seq<Event>, n: nat, j: nat)
    requires Run(cfg, home, run, events) && Routes(cfg) && n < |run|
    requires j < |run[n].core.replies| && Careful(run, events, n, run[n].core.replies[j].0)
    ensures var (k, r) := run[n].core.replies[j];
      r.obj == CellOf(run[n].core, k).initial
      || (r.obj.Some? && r.obj.value.Made? && Committed(run[n].core, r.obj.value.txn))
  {
    hide Careful, AllAccounted, LockExact, Enabled, Apply, Boot;
    RunKeeps(cfg, home, run, events, n);
    KeyStaysSafe(cfg, home, run, events, n, run[n].core.replies[j].0);
    CleanIsCommitted(run[n].core, j);
  }

  lemma CleanIsCommitted(s: Core, j: nat)
    requires Shapes(s) && InstallsCommitted(s) && j < |s.replies| && CleanReplies(s, s.replies[j].0)
    ensures var (k, r) := s.replies[j];
      r.obj == CellOf(s, k).initial || (r.obj.Some? && r.obj.value.Made? && Committed(s, r.obj.value.txn))
  {
    var (k, r) := s.replies[j];
    var c := CellOf(s, k);
    assert Clean(c, r.obj) && Shape(c);
    if r.obj != c.initial {
      InstalledObj(c, r.obj.value);
    }
  }

  /**
   * The lock bit is exact, and each object has been destroyed exactly once if it is superseded or
   * replaced, and never otherwise.
   */
  lemma ObjectsAreAccountedFor(cfg: Config, home: nat -> nat, run: seq<Engine>, events: seq<Event>, n: nat,
                               k: Key, o: Obj)
    requires Run(cfg, home, run, events) && Routes(cfg) && n < |run| && Careful(run, events, n, k)
    ensures LockExact(CellOf(run[n].core, k)) && Accounted(run[n].core, k, o)
  {
    hide Run, Careful, LockExact, Accounted;
    KeyStaysSafe(cfg, home, run, events, n, k);
  }

  /** The object is in the table, is the stable value of the key, or belongs to a pending command. */
  predicate InUse(c: Cell, o: Obj) {
    c.table == Some(o) || Stable(c) == Some(o) || (c.entry.Some? && Pends(c.entry.value, o))
  }

  /** No object that is still in use has been destroyed. */
  lemma NothingInUseIsDestroyed(cfg: Config, home: nat -> nat, run: seq<Engine>, events: seq<Event>, n: nat,
                                k: Key, o: Obj)
    requires Run(cfg, home, run, events) && Routes(cfg) && n < |run| && Careful(run, events, n, k)
    requires InUse(CellOf(run[n].core, k), o)
    ensures CellOf(run[n].core, k).destroyed[o] == 0
  {
    hide Run, Careful, CoreInv, Values, KeySafe, InUse, LineInv, TaskInv, FinInv, OkInv, AdmInv;
    RunKeeps(cfg, home, run, events, n);
    KeyStaysSafe(cfg, home, run, events, n, k);
    InUseIsAlive(run[n].core, k, o);
  }

  lemma InUseIsAlive(s: Core, k: Key, o: Obj)
    requires CoreInv(s) && Values(s) && KeySafe(s, k) && InUse(CellOf(s, k), o)
    ensures CellOf(s, k).destroyed[o] == 0
  {
    hide Superseded, History, CommandsSound, CommandsComplete, InstallsCommitted, AckExact, WaitOrder,
         CommitLog, InstallOrder, CleanReplies, Shape, Stable;
    var c := CellOf(s, k);
    assert Accounted(s, k, o) && Shape(c);
    ShownOrPending(c, o);
    if Stable(c) == Some(o) {
      HistorySplit(c, o);
      assert o in c.installs ==> ObjExact(s, k, o);
    } else {
      PendingIsExact(s, k, o);
      NotSuperseded(c, o);
    }
  }

  lemma ShownOrPending(c: Cell, o: Obj)
    requires Shape(c) && LockExact(c) && InUse(c, o)
    ensures Stable(c) == Some(o) || (c.entry.Some? && Pends(c.entry.value, o))
  {
  }

  lemma PendingIsExact(s: Core, k: Key, o: Obj)
    requires CmdsExact(s) && Shape(CellOf(s, k)) && CellOf(s, k).entry.Some? && Pends(CellOf(s, k).entry.value, o)
    ensures ObjExact(s, k, o) && !Installed(CellOf(s, k), o.txn)
  {
    var e := CellOf(s, k).entry.value;
    if e.holder.obj == o {
      assert InEntry(e, e.holder) && CmdExact(s, k, e.holder);
      assert Holds(CellOf(s, k), o.txn);
    } else {
      var j :| 0 <= j < |e.queue| && e.queue[j].anchor.obj == o;
      assert InEntry(e, e.queue[j].anchor) && CmdExact(s, k, e.queue[j].anchor);
      assert Waits(CellOf(s, k), o.txn);
    }
  }

  // ---------------------------------------------------------------- which runs are careful

  predicate OnceIn(pairs: seq<(Key, Value)>, k: Key) {
    forall i, j :: 0 <= i < j < |pairs| ==> pairs[i].0 != k || pairs[j].0 != k
  }

  /** No MSET names the key twice. */
  ghost predicate NamedOnce(s: Core, k: Key) {
    forall t :: t in s.msets ==> OnceIn(s.msets[t].pairs, k)
  }

  /** Loaded values and the pairs of dispatched MSETs never change. */
  ghost predicate Later(s: Core, s': Core, k: Key) {
    && CellOf(s', k).initial == CellOf(s, k).initial
    && forall u :: u in s.msets ==> u in s'.msets && s'.msets[u].pairs == s.msets[u].pairs
  }

  lemma StepIsLater(cfg: Config, home: nat -> nat, e: Engine, ev: Event, k: Key)
    requires EngInv(cfg, home, e) && Enabled(cfg, home, e, ev)
    ensures Later(e.core, Apply(cfg, home, e, ev).core, k)
  {
    hide Values, TaskInv, FinInv, OkInv, AdmInv, LineInv, PrepareStep, FinishStep, ReadStep, Begin, Apply, Later,
         Shapes, CommandsSound, CommandsComplete, InstallsCommitted, AckExact, WaitOrder, CommitLog, InstallOrder;
    CoreOfStep(cfg, home, e, ev);
    SameIsLater(e.core, k);
    match ev
    case Submit(c, req, ts) => BeginIsLater(e.core, TxnId(ts, req.conn, req.pipeline), c, req.pairs, k);
    case Resume(c, ts) =>
      ResumeBegins(cfg, home, e, c, ts);
      BeginIsLater(e.core, TxnId(ts, e.waiting[c][0].conn, e.waiting[c][0].pipeline), c, e.waiting[c][0].pairs, k);
    case PrepareNext(s, i) =>
      NextPair(cfg, home, e, s, i);
      PrepareIsLater(e.core, cfg.shards, e.work[s].t, i, k);
    case FinishOne(s, t, x) => FinishIsLater(e.core, t, x, k);
    case Conclude(s) => ReadIsLater(e.core, e.work[s].k, e.work[s].r, k);
    case _ =>
  }

  lemma SameIsLater(s: Core, k: Key)
    ensures Later(s, s, k)
  {
  }

  lemma BeginIsLater(s: Core, t: TxnId, coord: nat, pairs: seq<(Key, Value)>, k: Key)
    requires CanBegin(s, t, pairs)
    ensures Later(s, Begin(s, t, coord, pairs), k)
  {
  }

  lemma ReadIsLater(s: Core, x: Key, r: Read, k: Key)
    ensures Later(s, ReadStep(s, x, r), k)
  {
  }

  lemma PrepareIsLater(s: Core, shards: nat, t: TxnId, i: nat, k: Key)
    requires CanPrepare(s, t, i) && Shapes(s) && InstallsCommitted(s) && AckExact(s)
    ensures Later(s, PrepareStep(s, shards, t, i), k)
  {
    hide Shapes, InstallsCommitted, AckExact, PrepareStep;
    PrepareIsRel(s, shards, t, i);
    PrepareSameInstalls(s, PrepareStep(s, shards, t, i), t, PrepareKey(s, t, i), DecisionOf(s, t, i));
    assert CellOf(PrepareStep(s, shards, t, i), k).installs == CellOf(s, k).installs;
  }

  lemma FinishIsLater(s: Core, t: TxnId, x: Key, k: Key)
    requires CanFinish(s, t, x) && Shapes(s) && CommandsSound(s)
    ensures Later(s, FinishStep(s, t, x), k)
  {
    hide Shapes, CommandsSound, FinishStep;
    FinishIsRel(s, t, x);
    FinishInstalled(CellOf(s, x));
  }

  lemma {:induction false} RunIsLater(cfg: Config, home: nat -> nat, run: seq<Engine>, events: seq<Event>, i: nat,
                                      n: nat, k: Key)
    requires Run(cfg, home, run, events) && Routes(cfg) && i <= n < |run|
    ensures Later(run[i].core, run[n].core, k)
    decreases n
  {
    hide EngInv, Enabled, Apply, Boot;
    if i < n {
      RunIsLater(cfg, home, run, events, i, n - 1, k);
      RunKeeps(cfg, home, run, events, n - 1);
      RunStep(cfg, home, run, events, n - 1);
      StepIsLater(cfg, home, run[n - 1], events[n - 1], k);
    }
  }

  /** A run is careful about every key that was loaded and every key that no MSET names twice. */
  lemma OrdinaryKeysAreSafe(cfg: Config, home: nat -> nat, run: seq<Engine>, events: seq<Event>, n: nat, k: Key)
    requires Run(cfg, home, run, events) && Routes(cfg) && n < |run|
    requires CellOf(run[n].core, k).initial.Some? || NamedOnce(run[n].core, k)
    ensures Careful(run, events, n, k)
  {
    hide EngInv, Enabled, Apply, Boot, ExposesKey, NamedOnce;
    forall i | 0 <= i < n ensures !ExposesKey(run[i], events[i], k) {
      RunKeeps(cfg, home, run, events, i);
      RunStep(cfg, home, run, events, i);
      RunIsLater(cfg, home, run, events, i, n, k);
      StepIsCareful(cfg, home, run[i], events[i], run[n].core, k);
    }
  }

  lemma StepIsCareful(cfg: Config, home: nat -> nat, e: Engine, ev: Event, s': Core, k: Key)
    requires EngInv(cfg, home, e) && Enabled(cfg, home, e, ev) && Later(e.core, s', k)
    requires CellOf(s', k).initial.Some? || NamedOnce(s', k)
    ensures !ExposesKey(e, ev, k)
  {
    hide Values, TaskInv, FinInv, OkInv, AdmInv, LineInv, Shapes, CommandsSound, CommandsComplete, InstallsCommitted,
         AckExact, WaitOrder, CommitLog, InstallOrder, OnceIn;
    if ExposesKey(e, ev, k) {
      RepeatIsNamedTwice(e.core, e.work[ev.s].t, ev.i, k);
    }
  }

  /** A transaction that prepares a key it has a command on names that key twice. */
  lemma RepeatIsNamedTwice(s: Core, t: TxnId, i: nat, k: Key)
    requires CommandsSound(s) && CanPrepare(s, t, i) && PrepareKey(s, t, i) == k
    requires Holds(CellOf(s, k), t) || Waits(CellOf(s, k), t)
    ensures !OnceIn(s.msets[t].pairs, k)
  {
    assert Pending(CellOf(s, k), t);
    var j :| j in PreparedAt(s.msets[t], k);
  }
}
