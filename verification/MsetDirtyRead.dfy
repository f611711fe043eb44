/**
 * The one way to see an uncommitted value: an MSET that names a new key twice. Its second PREPARE
 * rewrites the bucket without the lock bit, and a GET that arrives before the commit is answered
 * from the tentative object.
 */
module MsetDirtyRead {
  import opened Options
  import opened Txn
  import opened KeyCell
  import opened MsetCore
  import opened MsetEngine
  import opened MsetInvariant
  import opened MsetProgress

  type Pairs = seq<(Key, Value)>

  const T := TxnId(0, 0, 0)

  function Empty(shards: nat): Engine {
    Engine(Core(map[], map[], [], []), seq(shards, _ => Idle), seq(shards, _ => map[]), [], map[],
           seq(shards, _ => 0), seq(shards, _ => []), 0)
  }

  // ---------------------------------------------------------------- keys of the only MSET

  /** Untouched, or held by the MSET as a new key. */
  predicate OwnCell(c: Cell) {
    || c == Fresh(None)
    || (&& c.entry.Some? && c.table == Some(c.entry.value.objPtr)
        && c.entry.value.holder.txn == T && c.entry.value.holder.prior.None?)
  }

  /** The bucket shows a tentative object of the MSET and is not locked. */
  predicate Exposed(c: Cell) {
    !c.lockBit && c.table.Some? && c.table.value.Made? && c.table.value.txn == T
  }

  /** A pair on a key that the MSET holds already exposes it; any pair leaves the key with the MSET. */
  lemma OwnPrepare(c: Cell, pair: nat, value: Value, origin: nat, shards: nat, may: bool)
    requires OwnCell(c)
    ensures var c' := Prepare(c, T, pair, value, origin, shards, may); OwnCell(c') && c'.entry.Some?
    ensures c.entry.Some? ==> Exposed(Prepare(c, T, pair, value, origin, shards, may))
    ensures Decide(c, T, may) == if c.entry.None? then Take else AgainAtHolder
  {
  }

  /**
   * Nothing but the MSET has happened, and its local pairs have been prepared up to `left`: every
   * pair got its acknowledgement, and a key prepared twice is exposed.
   */
  ghost predicate Alone(core: Core, c: nat, pairs: Pairs, left: set<nat>) {
    && left <= Upto(|pairs|) && |left| <= |pairs| && core.replies == []
    && core.msets == map[T := Mset(0, c, pairs, left, |pairs| - |left|)]
    && (forall k :: OwnCell(CellOf(core, k)))
    && (forall k, i, j :: Twice(pairs, left, k, i, j) ==> Exposed(CellOf(core, k)))
    && (forall k, i :: Named(pairs, left, k, i) ==> CellOf(core, k).entry.Some?)
  }

  predicate Named(pairs: Pairs, left: set<nat>, k: Key, i: int) {
    0 <= i < |pairs| && pairs[i].0 == k && i !in left
  }

  predicate Twice(pairs: Pairs, left: set<nat>, k: Key, i: int, j: int) {
    i < j && Named(pairs, left, k, i) && Named(pairs, left, k, j)
  }

  lemma PairCounts(core: Core, shards: nat, c: nat, pairs: Pairs, left: set<nat>, i: nat)
    requires Alone(core, c, pairs, left) && i in left
    ensures CanPrepare(core, T, i)
    ensures var s' := PrepareStep(core, shards, T, i);
      && s'.msets == map[T := Mset(0, c, pairs, left - {i}, |pairs| - |left| + 1)] && s'.replies == []
      && CellOf(s', pairs[i].0) == PreparedCell(core, shards, T, i)
      && (forall x :: x != pairs[i].0 ==> CellOf(s', x) == CellOf(core, x))
  {
    var k := pairs[i].0;
    OwnPrepare(CellOf(core, k), i, pairs[i].1, c, shards, WoundAt(core, T, k));
    hide Prepare, Decide, OwnCell, Exposed;
  }

  lemma PairAlone(core: Core, shards: nat, c: nat, pairs: Pairs, left: set<nat>, i: nat)
    requires Alone(core, c, pairs, left) && i in left
    ensures CanPrepare(core, T, i) && Alone(PrepareStep(core, shards, T, i), c, pairs, left - {i})
  {
    hide PrepareStep, Prepare, Decide, OwnCell, Exposed;
    PairCounts(core, shards, c, pairs, left, i);
    var k := pairs[i].0;
    OwnPrepare(CellOf(core, k), i, pairs[i].1, c, shards, WoundAt(core, T, k));
    var s', left' := PrepareStep(core, shards, T, i), left - {i};
    assert |left'| == |left| - 1;
    forall x, p, q | Twice(pairs, left', x, p, q) ensures Exposed(CellOf(s', x)) {
      if x == k {
        assert Named(pairs, left, x, p) || Named(pairs, left, x, q);
      } else {
        assert Twice(pairs, left, x, p, q);
      }
    }
    forall x, p | Named(pairs, left', x, p) ensures CellOf(s', x).entry.Some? {
      if x != k {
        assert Named(pairs, left, x, p);
      }
    }
  }

  lemma StartAlone(c: nat, pairs: Pairs)
    ensures Alone(Begin(Core(map[], map[], [], []), T, c, pairs), c, pairs, Upto(|pairs|))
  {
  }

  // ---------------------------------------------------------------- steps of the engine

  /** Shard `c` is idle but for `w`, and the keys and counters are those of `core`. */
  predicate Stands(cfg: Config, e: Engine, c: nat, core: Core, w: Work) {
    c < |e.work| == |e.tasks| == cfg.shards && e.core == core && e.work[c] == w && e.tasks[c] == map[]
  }

  lemma BootRun(cfg: Config, home: nat -> nat)
    ensures Run(cfg, home, [Empty(cfg.shards)], [])
  {
  }

  lemma Next(cfg: Config, home: nat -> nat, run: seq<Engine>, events: seq<Event>, ev: Event)
    returns (run': seq<Engine>, events': seq<Event>)
    requires Run(cfg, home, run, events) && Enabled(cfg, home, run[|events|], ev)
    ensures Run(cfg, home, run', events') && |run'| == |events'| + 1
    ensures run'[|events'|] == Apply(cfg, home, run[|events|], ev)
  {
    hide Boot;
    run', events' := run + [Apply(cfg, home, run[|events|], ev)], events + [ev];
    forall i | 0 <= i < |events'|
      ensures Enabled(cfg, home, run'[i], events'[i]) && run'[i + 1] == Apply(cfg, home, run'[i], events'[i])
    {
      if i < |events| {
        RunStep(cfg, home, run, events, i);
      }
    }
  }

  lemma SubmitStep(cfg: Config, home: nat -> nat, c: nat, pairs: Pairs)
    requires c < cfg.shards && 0 < cfg.limit && home(0) == c && pairs != []
    ensures var ev := Submit(c, Request(0, 0, pairs), 0);
      && Enabled(cfg, home, Empty(cfg.shards), ev)
      && Stands(cfg, Apply(cfg, home, Empty(cfg.shards), ev), c, Begin(Core(map[], map[], [], []), T, c, pairs),
                Preparing(T, Remotes(cfg, pairs, c)))
  {
    hide Begin, Remotes;
  }

  lemma PairStep(cfg: Config, home: nat -> nat, e: Engine, c: nat, core: Core, unsent: set<nat>, i: nat)
    requires Stands(cfg, e, c, core, Preparing(T, unsent)) && T in core.msets && IsNext(cfg, core.msets[T], c, i)
    requires var core' := PrepareStep(core, cfg.shards, T, i); T in core'.msets && !Committed(core', T)
    ensures Enabled(cfg, home, e, PrepareNext(c, i))
    ensures Stands(cfg, Apply(cfg, home, e, PrepareNext(c, i)), c, PrepareStep(core, cfg.shards, T, i),
                   Preparing(T, unsent))
  {
    hide PrepareStep;
  }

  /** The MSET is not committed while a pair of another shard is left. */
  lemma NotCommitted(core: Core, c: nat, pairs: Pairs, left: set<nat>, far: nat)
    requires Alone(core, c, pairs, left) && far in left
    ensures T in core.msets && core.msets[T].pairs == pairs && core.msets[T].left == left && !Committed(core, T)
  {
  }

  /** All local pairs are prepared, one after the other. */
  lemma {:induction false} PrepareLocals(cfg: Config, home: nat -> nat, run: seq<Engine>, events: seq<Event>, c: nat,
                                         pairs: Pairs, core: Core, left: set<nat>, unsent: set<nat>, far: nat)
    returns (run': seq<Engine>, events': seq<Event>, core': Core, left': set<nat>)
    requires Run(cfg, home, run, events) && |run| == |events| + 1
    requires Stands(cfg, run[|events|], c, core, Preparing(T, unsent))
    requires Alone(core, c, pairs, left) && far in left && cfg.route(pairs[far].0) != c
    ensures Run(cfg, home, run', events') && |run'| == |events'| + 1
    ensures Stands(cfg, run'[|events'|], c, core', Preparing(T, unsent))
    ensures Alone(core', c, pairs, left') && far in left'
    ensures forall i :: i in left' ==> cfg.route(pairs[i].0) != c
    decreases left
  {
    hide Run, Stands, Alone, Enabled, Apply, PrepareStep, Committed;
    NotCommitted(core, c, pairs, left, far);
    LeftBound(core, c, pairs, left);
    var local := LeftAt(cfg, core.msets[T], c);
    if local == {} {
      run', events', core', left' := run, events, core, left;
      forall i | i in left ensures cfg.route(pairs[i].0) != c {
        assert i !in local;
      }
    } else {
      var i := LeastOf(local);
      assert i != far;
      PairAlone(core, cfg.shards, c, pairs, left, i);
      NotCommitted(PrepareStep(core, cfg.shards, T, i), c, pairs, left - {i}, far);
      PairStep(cfg, home, run[|events|], c, core, unsent, i);
      var run1, events1 := Next(cfg, home, run, events, PrepareNext(c, i));
      run', events', core', left' :=
        PrepareLocals(cfg, home, run1, events1, c, pairs, PrepareStep(core, cfg.shards, T, i), left - {i}, unsent, far);
    }
  }

  lemma LeftBound(core: Core, c: nat, pairs: Pairs, left: set<nat>)
    requires Alone(core, c, pairs, left)
    ensures forall i :: i in left ==> i < |pairs|
  {
  }

  lemma BatchStep(cfg: Config, home: nat -> nat, e: Engine, c: nat, core: Core, unsent: set<nat>, d: nat)
    requires Stands(cfg, e, c, core, Preparing(T, unsent)) && T in core.msets && LeftAt(cfg, core.msets[T], c) == {}
    requires d in unsent
    ensures Enabled(cfg, home, e, SendBatch(c, d))
    ensures Stands(cfg, Apply(cfg, home, e, SendBatch(c, d)), c, core, Preparing(T, unsent - {d}))
  {
    hide LeftAt;
  }

  lemma {:induction false} SendAll(cfg: Config, home: nat -> nat, run: seq<Engine>, events: seq<Event>, c: nat,
                                   core: Core, unsent: set<nat>)
    returns (run': seq<Engine>, events': seq<Event>)
    requires Run(cfg, home, run, events) && |run| == |events| + 1
    requires Stands(cfg, run[|events|], c, core, Preparing(T, unsent))
    requires T in core.msets && LeftAt(cfg, core.msets[T], c) == {}
    ensures Run(cfg, home, run', events') && |run'| == |events'| + 1
    ensures Stands(cfg, run'[|events'|], c, core, Preparing(T, {}))
    decreases unsent
  {
    hide Run, Stands, Enabled, Apply, LeftAt;
    if unsent == {} {
      run', events' := run, events;
    } else {
      var d :| d in unsent;
      BatchStep(cfg, home, run[|events|], c, core, unsent, d);
      var run1, events1 := Next(cfg, home, run, events, SendBatch(c, d));
      run', events' := SendAll(cfg, home, run1, events1, c, core, unsent - {d});
    }
  }

  /** The loop ends, a GET of the key arrives, and is answered. */
  lemma LastSteps(cfg: Config, home: nat -> nat, e: Engine, c: nat, core: Core, a: Key, r: Read)
    requires Stands(cfg, e, c, core, Preparing(T, {})) && T in core.msets && LeftAt(cfg, core.msets[T], c) == {}
    requires cfg.route(a) == c && r.origin < cfg.shards
    ensures Enabled(cfg, home, e, LoopExit(c))
    ensures var e1 := Apply(cfg, home, e, LoopExit(c));
      && Enabled(cfg, home, e1, Arrive(c, a, r))
      && var e2 := Apply(cfg, home, e1, Arrive(c, a, r));
      && Enabled(cfg, home, e2, Conclude(c))
      && Apply(cfg, home, e2, Conclude(c)).core == ReadStep(core, a, r)
  {
    hide ReadStep, LeftAt;
  }

  lemma ReadExposed(core: Core, a: Key, r: Read)
    requires core.replies == [] && Exposed(CellOf(core, a))
    ensures var s := ReadStep(core, a, r);
      s.msets == core.msets && s.replies == [(a, Reply(r, CellOf(core, a).table))]
  {
  }

  lemma NoneLocal(cfg: Config, c: nat, m: Mset)
    requires forall i :: i in m.left && 0 <= i < |m.pairs| ==> cfg.route(m.pairs[i].0) != c
    ensures LeftAt(cfg, m, c) == {}
  {
  }

  /**
   * For every MSET that names a new key twice and has a key on another shard: there is a run in which
   * a GET of the key is answered with a value of that MSET while it has not committed.
   */
  lemma RepeatedNewKeyIsReadDirty(cfg: Config, home: nat -> nat, pairs: Pairs, i: nat, j: nat, far: nat, r: Read)
    returns (run: seq<Engine>, events: seq<Event>)
    requires Routes(cfg) && cfg.limit > 0 && r.origin < cfg.shards
    requires i < j < |pairs| && pairs[i].0 == pairs[j].0 && home(0) == cfg.route(pairs[i].0)
    requires far < |pairs| && cfg.route(pairs[far].0) != cfg.route(pairs[i].0)
    ensures Run(cfg, home, run, events)
    ensures var s := run[|events|].core;
      && T in s.msets && s.msets[T].pairs == pairs && !Committed(s, T)
      && |s.replies| == 1 && s.replies[0].0 == pairs[i].0 && s.replies[0].1.read == r
      && var o := s.replies[0].1.obj; o.Some? && o.value.Made? && o.value.txn == T
  {
    hide Run, Stands, Alone, Enabled, Apply, Begin, ReadStep, LeftAt, Exposed, Remotes, Empty;
    var a, c := pairs[i].0, cfg.route(pairs[i].0);
    BootRun(cfg, home);
    SubmitStep(cfg, home, c, pairs);
    StartAlone(c, pairs);
    run, events := Next(cfg, home, [Empty(cfg.shards)], [], Submit(c, Request(0, 0, pairs), 0));
    var core, left;
    run, events, core, left :=
      PrepareLocals(cfg, home, run, events, c, pairs, Begin(Core(map[], map[], [], []), T, c, pairs),
                    Upto(|pairs|), Remotes(cfg, pairs, c), far);
    NotCommitted(core, c, pairs, left, far);
    NoneLocal(cfg, c, core.msets[T]);
    run, events := SendAll(cfg, home, run, events, c, core, Remotes(cfg, pairs, c));
    LastSteps(cfg, home, run[|events|], c, core, a, r);
    TwiceExposed(core, c, pairs, left, a, i, j);
    ReadExposed(core, a, r);
    ExposedObject(CellOf(core, a));
    run, events := Next(cfg, home, run, events, LoopExit(c));
    run, events := Next(cfg, home, run, events, Arrive(c, a, r));
    run, events := Next(cfg, home, run, events, Conclude(c));
  }

  lemma TwiceExposed(core: Core, c: nat, pairs: Pairs, left: set<nat>, a: Key, i: nat, j: nat)
    requires Alone(core, c, pairs, left) && i < j < |pairs| && pairs[i].0 == pairs[j].0 == a && i !in left && j !in left
    ensures Exposed(CellOf(core, a)) && core.replies == []
  {
    assert Twice(pairs, left, a, i, j);
  }

  lemma ExposedObject(c: Cell)
    requires Exposed(c)
    ensures c.table.Some? && c.table.value.Made? && c.table.value.txn == T
  {
  }
}
