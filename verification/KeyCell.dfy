/**
 * Everything one shard keeps about one key: the object in the hash table, the lock bit
 * of its bucket, the lock entry with its holder and wait queue, and (as history) the
 * objects destroyed and the objects installed by FIN.
 */
module KeyCell {
  import opened Options
  import opened Txn

  type Value = string

  /** A stored object. `Made` objects are identified by the MSET pair that allocated them. */
  datatype Obj = Loaded(value: Value) | Made(txn: TxnId, pair: nat, value: Value)

  /** A pending MSET command on the key. */
  datatype Cmd = Cmd(txn: TxnId, obj: Obj, prior: Option<Obj>, acks: nat, origin: nat)

  /** A deferred GET (or one key of an MGET) and the shard it came from. */
  datatype Read = Read(id: nat, origin: nat)

  /** A closed wait group: the reads deferred before the MSET that anchors it. */
  datatype Group = Group(gets: seq<Read>, anchor: Cmd)

  /** `open[o]` is the open wait group of shard `o`; the empty sequence when there is none. */
  datatype Entry = Entry(objPtr: Obj, holder: Cmd, queue: seq<Group>, open: seq<seq<Read>>)

  datatype Cell = Cell(table: Option<Obj>, lockBit: bool, entry: Option<Entry>,
                       destroyed: multiset<Obj>, initial: Option<Obj>, installs: seq<Obj>)

  datatype Reply = Reply(read: Read, obj: Option<Obj>)

  function Fresh(o: Option<Obj>): Cell {
    Cell(o, false, None, multiset{}, o, [])
  }

  /** The lock entry found when the lock table is asked for the object now in the hash table. */
  function Found(c: Cell): Option<Entry> {
    if c.table.Some? && c.entry.Some? && c.entry.value.objPtr == c.table.value then c.entry else None
  }

  predicate Holds(c: Cell, t: TxnId) {
    c.entry.Some? && c.entry.value.holder.txn == t
  }

  predicate Queues(q: seq<Group>, t: TxnId) {
    exists j :: 0 <= j < |q| && q[j].anchor.txn == t
  }

  predicate Waits(c: Cell, t: TxnId) {
    c.entry.Some? && Queues(c.entry.value.queue, t)
  }

  /** The value that FIN last installed, or the one the key started with. */
  function Stable(c: Cell): Option<Obj> {
    if c.installs == [] then c.initial else Some(c.installs[|c.installs| - 1])
  }

  predicate Installed(c: Cell, t: TxnId) {
    exists j :: 0 <= j < |c.installs| && c.installs[j].Made? && c.installs[j].txn == t
  }

  // ---------------------------------------------------------------- wait queue

  /** Position at which a group of transaction `t` enters the sorted queue. */
  function InsertAt(q: seq<Group>, t: TxnId): (p: nat)
    ensures p <= |q|
    ensures forall j :: 0 <= j < p ==> Older(q[j].anchor.txn, t)
    ensures p < |q| ==> !Older(q[p].anchor.txn, t)
  {
    if q == [] || !Older(q[0].anchor.txn, t) then 0 else 1 + InsertAt(q[1..], t)
  }

  function SortedInsert(q: seq<Group>, g: Group): seq<Group> {
    var p := InsertAt(q, g.anchor.txn);
    q[..p] + [g] + q[p..]
  }

  predicate Sorted(q: seq<Group>) {
    forall i, j :: 0 <= i < j < |q| ==> Older(q[i].anchor.txn, q[j].anchor.txn)
  }

  /** The group that the command closes: the reads its shard deferred so far, then itself. */
  function ClosedGroup(e: Entry, m: Cmd): Group {
    Group(if m.origin < |e.open| then e.open[m.origin] else [], m)
  }

  function AddMset(e: Entry, m: Cmd): Entry {
    e.(queue := SortedInsert(e.queue, ClosedGroup(e, m)),
       open := if m.origin < |e.open| then e.open[m.origin := []] else e.open)
  }

  function AddRegular(e: Entry, r: Read): Entry {
    if r.origin < |e.open| then e.(open := e.open[r.origin := e.open[r.origin] + [r]]) else e
  }

  function NoReads(n: nat): (open: seq<seq<Read>>)
    ensures |open| == n
  {
    seq(n, _ => [])
  }

  function Flatten(open: seq<seq<Read>>): seq<Read> {
    if open == [] then [] else open[0] + Flatten(open[1..])
  }

  function Answer(gets: seq<Read>, obj: Option<Obj>): (rs: seq<Reply>)
    ensures |rs| == |gets|
    ensures forall j :: 0 <= j < |rs| ==> rs[j] == Reply(gets[j], obj)
  {
    seq(|gets|, j requires 0 <= j < |gets| => Reply(gets[j], obj))
  }

  // ---------------------------------------------------------------- PREPARE of one key

  /** First command on an unlocked key; a key missing from the table gets a tentative object. */
  function Acquire(c: Cell, t: TxnId, made: Obj, origin: nat, shards: nat): Cell {
    var anchor := if c.table.None? then made else c.table.value;
    c.(table := Some(anchor), lockBit := true,
       entry := Some(Entry(anchor, Cmd(t, made, c.table, 1, origin), [], NoReads(shards))))
  }

  /** Wound: the younger holder goes back to the queue, the newcomer inherits its old object. */
  function Wound(c: Cell, e: Entry, t: TxnId, made: Obj, origin: nat): Cell {
    var victim := e.holder.(prior := Some(made));
    c.(entry := Some(AddMset(e, victim).(holder := Cmd(t, made, e.holder.prior, 1, origin))))
  }

  function Wait(c: Cell, e: Entry, t: TxnId, made: Obj, origin: nat): Cell {
    c.(entry := Some(AddMset(e, Cmd(t, made, c.table, 1, origin))))
  }

  /**
   * The holder names the key again. A tentative object is replaced in the table, and
   * replacing a bucket rewrites its meta word, which drops the lock bit.
   */
  function RepeatAtHolder(c: Cell, e: Entry, made: Obj): Cell {
    var holder := e.holder.(obj := made, acks := e.holder.acks + 1);
    var c' := c.(destroyed := c.destroyed + multiset{e.holder.obj});
    if e.holder.prior.None? then
      c'.(table := Some(made), lockBit := false, entry := Some(e.(objPtr := made, holder := holder)))
    else
      c'.(entry := Some(e.(holder := holder)))
  }

  function FindQueued(q: seq<Group>, t: TxnId): (j: nat)
    requires Queues(q, t)
    ensures j < |q| && q[j].anchor.txn == t
  {
    if q[0].anchor.txn == t then 0
    else
      assert Queues(q[1..], t) by {
        var j :| 0 <= j < |q| && q[j].anchor.txn == t;
        assert q[1..][j - 1] == q[j];
      }
      1 + FindQueued(q[1..], t)
  }

  /** A queued command of the same transaction names the key again. */
  function RepeatInQueue(c: Cell, e: Entry, t: TxnId, made: Obj): Cell
    requires Queues(e.queue, t)
  {
    var j := FindQueued(e.queue, t);
    var m := e.queue[j].anchor;
    var q := e.queue[j := e.queue[j].(anchor := m.(obj := made, acks := m.acks + 1))];
    var c' := c.(entry := Some(e.(queue := q)));
    if m.prior.None? && c.table.Some? then
      c'.(table := Some(made), lockBit := false,
          destroyed := c.destroyed + multiset{c.table.value}
                       + (if c.table.value == m.obj then multiset{} else multiset{m.obj}))
    else
      c'.(destroyed := c.destroyed + multiset{m.obj})
  }

  datatype Decision = Take | AgainAtHolder | AgainInQueue | Preempt | Enqueue

  /** What PREPARE does with the lock entry it finds. */
  function Decide(c: Cell, t: TxnId, mayWound: bool): Decision {
    match Found(c)
    case None => Take
    case Some(e) =>
      if e.holder.txn == t then AgainAtHolder
      else if Queues(e.queue, t) then AgainInQueue
      else if mayWound then Preempt
      else Enqueue
  }

  /** PREPARE of pair number `pair` of `t`; `mayWound` says whether the holder can be preempted. */
  function Prepare(c: Cell, t: TxnId, pair: nat, value: Value, origin: nat, shards: nat, mayWound: bool): Cell {
    var made := Made(t, pair, value);
    match Decide(c, t, mayWound)
    case Take => Acquire(c, t, made, origin, shards)
    case AgainAtHolder => RepeatAtHolder(c, c.entry.value, made)
    case AgainInQueue => RepeatInQueue(c, c.entry.value, t, made)
    case Preempt => Wound(c, c.entry.value, t, made, origin)
    case Enqueue => Wait(c, c.entry.value, t, made, origin)
  }

  // ---------------------------------------------------------------- FIN of one key

  /** FIN puts the holder's object into the table and destroys the one it officially replaces. */
  function Install(c: Cell, e: Entry): Cell {
    var obj := e.holder.obj;
    var c' := c.(installs := c.installs + [obj]);
    if c.table == Some(obj) then c'
    else
      c'.(table := Some(obj), lockBit := false, entry := Some(e.(objPtr := obj)),
          destroyed := if e.holder.prior.Some? then c.destroyed + multiset{e.holder.prior.value} else c.destroyed)
  }

  /** The first closed group is answered and its anchor promoted. */
  function Promote(c: Cell, e: Entry): Cell
    requires e.queue != []
  {
    c.(lockBit := true,
       entry := Some(e.(holder := e.queue[0].anchor.(prior := c.table), queue := e.queue[1..])))
  }

  function Release(c: Cell): Cell {
    c.(lockBit := false, entry := None)
  }

  /** The entry of a cell after `Install`. */
  function InstalledEntry(c: Cell, e: Entry): Entry {
    if c.table == Some(e.holder.obj) then e else e.(objPtr := e.holder.obj)
  }

  /** FIN of the holder: install, then drain the wait queue up to the next MSET. */
  function Finish(c: Cell, e: Entry): Cell {
    var c' := Install(c, e);
    var e' := InstalledEntry(c, e);
    if e'.queue != [] then Promote(c', e') else Release(c')
  }

  function Promoted(e: Entry): Option<TxnId> {
    if e.queue != [] then Some(e.queue[0].anchor.txn) else None
  }

  /** Replies sent while draining: the reads before the promoted MSET, or every open group. */
  function DrainReplies(e: Entry): seq<Reply> {
    var gets := if e.queue != [] then e.queue[0].gets else Flatten(e.open);
    Answer(gets, Some(e.holder.obj))
  }

  // ---------------------------------------------------------------- reads

  /** A read is deferred when the bucket is locked and a lock entry is found for its object. */
  predicate Deferred(c: Cell) {
    c.lockBit && Found(c).Some?
  }

  function Defer(c: Cell, r: Read): Cell
    requires Deferred(c)
  {
    c.(entry := Some(AddRegular(c.entry.value, r)))
  }
}
