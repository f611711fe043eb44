/**
 * The MSET commit protocol without its messages: the steps that touch keys and the shared
 * `ack` counters. Each step performs at most one atomic update per counter, so the steps of
 * different shards interleave freely.
 */
module MsetCore {
  import opened Options
  import opened Txn
  import opened KeyCell

  type Key = string

  /** Number of shards, bound on concurrent MSETs per coordinator, and key routing. */
  datatype Config = Config(shards: nat, limit: nat, route: Key -> nat)

  ghost predicate Routes(cfg: Config) {
    forall k :: cfg.route(k) < cfg.shards
  }

  /**
   * An MSET in flight: the `no`-th to be dispatched, by shard `coord`. `left` holds the pairs
   * not yet prepared anywhere; `ack` is the counter shared by all shards.
   */
  datatype Mset = Mset(no: nat, coord: nat, pairs: seq<(Key, Value)>, left: set<nat>, ack: nat)

  /** `commits` (history) lists the MSETs in the order in which `ack` reached the total. */
  datatype Core = Core(cells: map<Key, Cell>, msets: map<TxnId, Mset>, commits: seq<TxnId>,
                       replies: seq<(Key, Reply)>)

  function CellOf(s: Core, k: Key): Cell {
    if k in s.cells then s.cells[k] else Fresh(None)
  }

  predicate Committed(s: Core, t: TxnId) {
    t in s.msets && s.msets[t].ack == |s.msets[t].pairs|
  }

  /** The numbers below `n`. */
  function Upto(n: nat): (r: set<nat>)
    ensures |r| == n
    ensures forall i :: i in r <==> 0 <= i < n
  {
    if n == 0 then {} else Upto(n - 1) + {n - 1}
  }

  function KeysOf(m: Mset): set<Key> {
    set i: nat | i < |m.pairs| :: m.pairs[i].0
  }

  /** The prepared pairs of the MSET that name `k`. */
  function PreparedAt(m: Mset, k: Key): set<nat> {
    set i: nat | i < |m.pairs| && m.pairs[i].0 == k && i !in m.left
  }

  // ---------------------------------------------------------------- steps

  /** The loaded data set before any MSET. */
  ghost predicate Start(s: Core) {
    && s.msets == map[] && s.commits == [] && s.replies == []
    && forall k :: k in s.cells ==> exists v :: s.cells[k] == Fresh(Some(Loaded(v)))
  }

  predicate CanBegin(s: Core, t: TxnId, pairs: seq<(Key, Value)>) {
    t !in s.msets && |pairs| > 0
  }

  function Begin(s: Core, t: TxnId, coord: nat, pairs: seq<(Key, Value)>): Core {
    s.(msets := s.msets[t := Mset(|s.msets|, coord, pairs, Upto(|pairs|), 0)])
  }

  function SetCell(s: Core, k: Key, c: Cell): Core {
    s.(cells := s.cells[k := c])
  }

  /** One atomic increment of `ack`; the increment that reaches the total commits the MSET. */
  function Bump(s: Core, t: TxnId): Core {
    if t !in s.msets then s
    else
      var m := s.msets[t].(ack := s.msets[t].ack + 1);
      s.(msets := s.msets[t := m], commits := if m.ack == |m.pairs| then s.commits + [t] else s.commits)
  }

  /** The decrement of a wounded holder's `ack`. */
  function Unack(s: Core, v: TxnId): Core {
    if v !in s.msets || s.msets[v].ack == 0 then s
    else s.(msets := s.msets[v := s.msets[v].(ack := s.msets[v].ack - 1)])
  }

  function Drop(s: Core, t: TxnId, i: nat): Core
    requires t in s.msets
  {
    s.(msets := s.msets[t := s.msets[t].(left := s.msets[t].left - {i})])
  }

  /** An older transaction of another connection may wound a holder that is not committed. */
  predicate MayWound(s: Core, t: TxnId, v: TxnId) {
    && v in s.msets
    && 0 < s.msets[v].ack < |s.msets[v].pairs|
    && t.conn != v.conn
    && Older(t, v)
  }

  predicate CanPrepare(s: Core, t: TxnId, i: nat) {
    t in s.msets && i < |s.msets[t].pairs| && i in s.msets[t].left
  }

  function PrepareKey(s: Core, t: TxnId, i: nat): Key
    requires CanPrepare(s, t, i)
  {
    s.msets[t].pairs[i].0
  }

  predicate WoundAt(s: Core, t: TxnId, k: Key) {
    var c := CellOf(s, k);
    c.entry.Some? && MayWound(s, t, c.entry.value.holder.txn)
  }

  function PreparedCell(s: Core, shards: nat, t: TxnId, i: nat): Cell
    requires CanPrepare(s, t, i)
  {
    var k := PrepareKey(s, t, i);
    Prepare(CellOf(s, k), t, i, s.msets[t].pairs[i].1, s.msets[t].coord, shards, WoundAt(s, t, k))
  }

  /** The holder found on the key, if any; wounding is the only use of it. */
  function HolderOf(c: Cell, t: TxnId): TxnId {
    if c.entry.Some? then c.entry.value.holder.txn else t
  }

  /** Counter updates that go with decision `d` on a key held by `v`. */
  function Settle(s: Core, t: TxnId, i: nat, d: Decision, v: TxnId): Core
    requires t in s.msets
  {
    var s1 := Drop(s, t, i);
    match d
    case Enqueue => s1
    case Preempt => Bump(Unack(s1, v), t)
    case _ => Bump(s1, t)
  }

  /** PREPARE of pair `i`: acquire, wound, wait, or fold into an earlier pair of the same key. */
  function PrepareStep(s: Core, shards: nat, t: TxnId, i: nat): Core
    requires CanPrepare(s, t, i)
  {
    var k := PrepareKey(s, t, i);
    var c := CellOf(s, k);
    Settle(SetCell(s, k, PreparedCell(s, shards, t, i)), t, i, Decide(c, t, WoundAt(s, t, k)), HolderOf(c, t))
  }

  predicate CanFinish(s: Core, t: TxnId, k: Key) {
    Committed(s, t) && Holds(CellOf(s, k), t)
  }

  function Log(k: Key, rs: seq<Reply>): seq<(Key, Reply)> {
    seq(|rs|, j requires 0 <= j < |rs| => (k, rs[j]))
  }

  /** FIN of one key: install, release or promote, and acknowledge for the promoted MSET. */
  function FinishStep(s: Core, t: TxnId, k: Key): Core
    requires CanFinish(s, t, k)
  {
    var c := CellOf(s, k);
    var e := c.entry.value;
    var s1 := SetCell(s, k, Finish(c, e)).(replies := s.replies + Log(k, DrainReplies(e)));
    match Promoted(e)
    case None => s1
    case Some(p) => Bump(s1, p)
  }

  /** GET: answered at once when the lock check passes, deferred behind the holder otherwise. */
  function ReadStep(s: Core, k: Key, r: Read): Core {
    var c := CellOf(s, k);
    if Deferred(c) then SetCell(s, k, Defer(c, r))
    else s.(replies := s.replies + [(k, Reply(r, c.table))])
  }
}
