/**
 * What PREPARE, FIN and reads of one key keep: the shape of the wait queue, who holds and
 * who waits, the exactness of the lock bit, and what is destroyed.
 */
module KeyCellLaws {
  import opened Options
  import opened Txn
  import opened KeyCell

  predicate OwnObj(m: Cmd) {
    m.obj.Made? && m.obj.txn == m.txn
  }

  predicate EntryShape(e: Entry) {
    && Sorted(e.queue)
    && !Queues(e.queue, e.holder.txn)
    && OwnObj(e.holder)
    && (forall j :: 0 <= j < |e.queue| ==> OwnObj(e.queue[j].anchor) && e.queue[j].anchor.prior.Some?)
  }

  /** Holds of every cell of every run, repeated keys included. */
  ghost predicate Shape(c: Cell) {
    && (c.initial.Some? ==> c.initial.value.Loaded?)
    && (forall i :: 0 <= i < |c.installs| ==> c.installs[i].Made?)
    && (forall i, j :: 0 <= i < j < |c.installs| ==> c.installs[i].txn != c.installs[j].txn)
    && (c.entry.None? ==> c.table == Stable(c))
    && (c.entry.Some? ==>
          && c.table == Some(c.entry.value.objPtr)
          && EntryShape(c.entry.value)
          && (forall t :: Holds(c, t) || Waits(c, t) ==> !Installed(c, t)))
  }

  predicate Pends(e: Entry, o: Obj) {
    e.holder.obj == o || exists j :: 0 <= j < |e.queue| && e.queue[j].anchor.obj == o
  }

  /** Every value the key has had, oldest first. */
  function History(c: Cell): seq<Obj> {
    (if c.initial.Some? then [c.initial.value] else []) + c.installs
  }

  /** The values that a later FIN has replaced. */
  function Superseded(c: Cell): seq<Obj> {
    var h := History(c);
    if h == [] then [] else h[..|h| - 1]
  }

  /**
   * The lock bit is set exactly when there is a lock entry; the holder replaces the stable value,
   * and the table shows the stable value or (for a new key) a tentative object that some pending
   * command owns.
   */
  ghost predicate LockExact(c: Cell) {
    && c.lockBit == c.entry.Some?
    && (c.entry.Some? ==>
          && c.entry.value.holder.prior == Stable(c)
          && (Stable(c).Some? ==> c.table == Stable(c))
          && (Stable(c).None? ==> Pends(c.entry.value, c.entry.value.objPtr)))
  }

  // ---------------------------------------------------------------- sorted queue

  lemma InsertQueues(q: seq<Group>, g: Group, t: TxnId)
    ensures Queues(SortedInsert(q, g), t) <==> Queues(q, t) || g.anchor.txn == t
  {
    var p := InsertAt(q, g.anchor.txn);
    var r := SortedInsert(q, g);
    assert r[p] == g;
    if Queues(q, t) {
      var j :| 0 <= j < |q| && q[j].anchor.txn == t;
      assert r[if j < p then j else j + 1] == q[j];
    }
  }

  lemma InsertSorted(q: seq<Group>, g: Group)
    requires Sorted(q) && !Queues(q, g.anchor.txn)
    ensures Sorted(SortedInsert(q, g))
  {
    var p := InsertAt(q, g.anchor.txn);
    forall j | p <= j < |q| ensures Older(g.anchor.txn, q[j].anchor.txn) {
      OlderIsStrictTotalOrder(g.anchor.txn, q[p].anchor.txn, q[j].anchor.txn);
      assert q[p].anchor.txn != g.anchor.txn;
    }
  }

  /** Queueing a command keeps the entry well formed. */
  lemma AddMsetShape(e: Entry, m: Cmd)
    requires EntryShape(e) && !Queues(e.queue, m.txn) && OwnObj(m) && m.prior.Some?
    ensures Sorted(AddMset(e, m).queue)
    ensures forall j :: 0 <= j < |AddMset(e, m).queue| ==>
      OwnObj(AddMset(e, m).queue[j].anchor) && AddMset(e, m).queue[j].anchor.prior.Some?
  {
    InsertSorted(e.queue, ClosedGroup(e, m));
  }

  lemma AddMsetPends(e: Entry, m: Cmd, o: Obj)
    requires (exists j :: 0 <= j < |e.queue| && e.queue[j].anchor.obj == o) || m.obj == o
    ensures exists j :: 0 <= j < |AddMset(e, m).queue| && AddMset(e, m).queue[j].anchor.obj == o
  {
    var q := AddMset(e, m).queue;
    var p := InsertAt(e.queue, m.txn);
    if m.obj == o {
      assert q[p].anchor.obj == o;
    } else {
      var j :| 0 <= j < |e.queue| && e.queue[j].anchor.obj == o;
      assert q[if j < p then j else j + 1] == e.queue[j];
    }
  }

  // ---------------------------------------------------------------- PREPARE

  /** Who holds and who waits after one PREPARE. */
  ghost predicate Roles(c: Cell, c': Cell, t: TxnId, d: Decision, u: TxnId) {
    && c'.entry.Some? && c'.installs == c.installs && c'.initial == c.initial
    && (match d
        case Take =>
          && c.entry.None? && !Waits(c', u)
          && (Holds(c', u) <==> u == t)
        case AgainAtHolder =>
          Holds(c, t) && Waits(c', u) == Waits(c, u) && Holds(c', u) == Holds(c, u)
        case AgainInQueue =>
          Waits(c, t) && Waits(c', u) == Waits(c, u) && Holds(c', u) == Holds(c, u)
        case Enqueue =>
          && !Holds(c, t) && !Waits(c, t) && c.entry.Some?
          && Holds(c', u) == Holds(c, u)
          && (Waits(c', u) <==> Waits(c, u) || u == t)
        case Preempt =>
          && !Holds(c, t) && !Waits(c, t) && c.entry.Some?
          && (Holds(c', u) <==> u == t)
          && (Waits(c', u) <==> Waits(c, u) || Holds(c, u)))
  }

  lemma PrepareRoles(c: Cell, t: TxnId, pair: nat, value: Value, origin: nat, shards: nat, may: bool, u: TxnId)
    requires c.entry.Some? ==> c.table == Some(c.entry.value.objPtr)
    ensures Roles(c, Prepare(c, t, pair, value, origin, shards, may), t, Decide(c, t, may), u)
  {
    var made := Made(t, pair, value);
    if c.entry.Some? {
      var e := c.entry.value;
      assert Found(c) == c.entry;
      match Decide(c, t, may)
      case AgainInQueue => RepeatRoles(c, t, made, u);
      case Preempt => InsertQueues(e.queue, ClosedGroup(e, e.holder.(prior := Some(made))), u);
      case Enqueue => InsertQueues(e.queue, ClosedGroup(e, Cmd(t, made, c.table, 1, origin)), u);
      case _ =>
    }
  }

  lemma RepeatRoles(c: Cell, t: TxnId, made: Obj, u: TxnId)
    requires Waits(c, t)
    ensures var c' := RepeatInQueue(c, c.entry.value, t, made);
      c'.entry.Some? && Holds(c', u) == Holds(c, u) && Waits(c', u) == Waits(c, u)
  {
    var e := c.entry.value;
    var q := RepeatInQueue(c, e, t, made).entry.value.queue;
    assert |q| == |e.queue|;
    assert forall i :: 0 <= i < |e.queue| ==> q[i].anchor.txn == e.queue[i].anchor.txn;
  }

  lemma PrepareShape(c: Cell, t: TxnId, pair: nat, value: Value, origin: nat, shards: nat, may: bool)
    requires Shape(c) && !Installed(c, t)
    ensures Shape(Prepare(c, t, pair, value, origin, shards, may))
  {
    var c' := Prepare(c, t, pair, value, origin, shards, may);
    forall u | Holds(c', u) || Waits(c', u) ensures !Installed(c', u) {
      PrepareRoles(c, t, pair, value, origin, shards, may, u);
      assert Installed(c', u) == Installed(c, u);
    }
    PrepareEntryShape(c, t, pair, value, origin, shards, may);
  }

  lemma PrepareEntryShape(c: Cell, t: TxnId, pair: nat, value: Value, origin: nat, shards: nat, may: bool)
    requires c.entry.Some? ==> c.table == Some(c.entry.value.objPtr) && EntryShape(c.entry.value)
    ensures var c' := Prepare(c, t, pair, value, origin, shards, may);
      && c'.installs == c.installs && c'.initial == c.initial
      && c'.entry.Some? && c'.table == Some(c'.entry.value.objPtr) && EntryShape(c'.entry.value)
  {
    var made := Made(t, pair, value);
    if c.entry.Some? {
      var e := c.entry.value;
      assert Found(c) == c.entry;
      match Decide(c, t, may)
      case AgainInQueue => RepeatShape(c, e, t, made);
      case Preempt =>
        var m := e.holder.(prior := Some(made));
        AddMsetShape(e, m);
        InsertQueues(e.queue, ClosedGroup(e, m), t);
      case Enqueue =>
        var m := Cmd(t, made, c.table, 1, origin);
        AddMsetShape(e, m);
        InsertQueues(e.queue, ClosedGroup(e, m), e.holder.txn);
      case _ =>
    }
  }

  lemma RepeatShape(c: Cell, e: Entry, t: TxnId, made: Obj)
    requires c.entry == Some(e) && c.table == Some(e.objPtr) && EntryShape(e)
    requires Queues(e.queue, t) && made.Made? && made.txn == t
    ensures var c' := RepeatInQueue(c, e, t, made);
      c'.entry.Some? && EntryShape(c'.entry.value) && c'.table == Some(c'.entry.value.objPtr)
  {
    var j := FindQueued(e.queue, t);
    var q := RepeatInQueue(c, e, t, made).entry.value.queue;
    assert forall i :: 0 <= i < |e.queue| ==> q[i].anchor.txn == e.queue[i].anchor.txn;
    assert !Queues(q, e.holder.txn);
  }

  /** PREPARE is about to replace the tentative object of a new key. */
  ghost predicate Exposes(c: Cell, t: TxnId) {
    && Stable(c).None?
    && (Holds(c, t) || (Waits(c, t) && c.entry.value.objPtr.Made? && c.entry.value.objPtr.txn == t))
  }

  /** PREPARE keeps the lock exact, on new keys and through wounds, repeated keys of existing keys included. */
  lemma PrepareLocked(c: Cell, t: TxnId, pair: nat, value: Value, origin: nat, shards: nat, may: bool)
    requires Shape(c) && LockExact(c) && !Exposes(c, t)
    ensures LockExact(Prepare(c, t, pair, value, origin, shards, may))
  {
    hide Shape;
    var made := Made(t, pair, value);
    TableOf(c);
    if Waits(c, t) {
      RepeatLocked(c, c.entry.value, t, made);
    }
    if !Holds(c, t) && !Waits(c, t) {
      PrepareCases(c, t, pair, value, origin, shards, may);
      if c.entry.None? {
        AcquireLocked(c, t, made, origin, shards);
      } else {
        ContendedLocked(c, t, made, origin);
      }
    }
    SameHistory(c, Prepare(c, t, pair, value, origin, shards, may));
  }

  /** Otherwise it does not: the lock bit is lost, or the table keeps an object that nobody owns. */
  lemma PrepareExposes(c: Cell, t: TxnId, pair: nat, value: Value, origin: nat, shards: nat, may: bool)
    requires Shape(c) && LockExact(c) && Exposes(c, t) && !Pends(c.entry.value, Made(t, pair, value))
    ensures !LockExact(Prepare(c, t, pair, value, origin, shards, may))
  {
    var c' := Prepare(c, t, pair, value, origin, shards, may);
    SameHistory(c, c');
    assert Found(c) == c.entry;
    if Waits(c, t) {
      var e := c.entry.value;
      var f := FindQueued(e.queue, t);
      assert e.queue[f].anchor.prior.Some?;
      forall j | 0 <= j < |c'.entry.value.queue| ensures c'.entry.value.queue[j].anchor.obj != e.objPtr {
        assert j != f ==> e.queue[j].anchor.txn != t && OwnObj(e.queue[j].anchor);
      }
    }
  }

  lemma TableOf(c: Cell)
    requires Shape(c)
    ensures c.table == if c.entry.Some? then Some(c.entry.value.objPtr) else Stable(c)
    ensures c.entry.Some? ==> EntryShape(c.entry.value)
  {
  }

  lemma RepeatLocked(c: Cell, e: Entry, t: TxnId, made: Obj)
    requires c.entry == Some(e) && EntryShape(e) && LockExact(c) && Queues(e.queue, t) && !Exposes(c, t)
    ensures LockExact(RepeatInQueue(c, e, t, made))
  {
    var c' := RepeatInQueue(c, e, t, made);
    var f := FindQueued(e.queue, t);
    SameHistory(c, c');
    assert e.queue[f].anchor.prior.Some? && OwnObj(e.queue[f].anchor);
    if Stable(c).None? && e.holder.obj != e.objPtr {
      var j :| 0 <= j < |e.queue| && e.queue[j].anchor.obj == e.objPtr;
      assert j != f && c'.entry.value.queue[j] == e.queue[j];
    }
  }

  /** PREPARE of a key the transaction has not named before acquires, wounds or waits. */
  lemma PrepareCases(c: Cell, t: TxnId, pair: nat, value: Value, origin: nat, shards: nat, may: bool)
    requires c.entry.Some? ==> c.table == Some(c.entry.value.objPtr)
    requires !Holds(c, t) && !Waits(c, t)
    ensures var made := Made(t, pair, value); var c' := Prepare(c, t, pair, value, origin, shards, may);
      c' == if c.entry.None? then Acquire(c, t, made, origin, shards)
            else if may then Wound(c, c.entry.value, t, made, origin)
            else Wait(c, c.entry.value, t, made, origin)
  {
    assert c.entry.Some? ==> Found(c) == c.entry;
  }

  lemma AcquireLocked(c: Cell, t: TxnId, made: Obj, origin: nat, shards: nat)
    requires c.entry.None? && c.table == Stable(c)
    ensures LockExact(Acquire(c, t, made, origin, shards))
  {
    SameHistory(c, Acquire(c, t, made, origin, shards));
  }

  lemma ContendedLocked(c: Cell, t: TxnId, made: Obj, origin: nat)
    requires LockExact(c) && c.entry.Some? && c.table == Some(c.entry.value.objPtr)
    ensures LockExact(Wound(c, c.entry.value, t, made, origin))
    ensures LockExact(Wait(c, c.entry.value, t, made, origin))
  {
    var e := c.entry.value;
    SameHistory(c, Wound(c, e, t, made, origin));
    SameHistory(c, Wait(c, e, t, made, origin));
    if Stable(c).None? {
      PreparePends(c, e, t, made, origin);
    }
  }

  lemma SameHistory(c: Cell, c': Cell)
    requires c'.installs == c.installs && c'.initial == c.initial
    ensures Stable(c') == Stable(c) && Superseded(c') == Superseded(c)
  {
  }

  lemma PreparePends(c: Cell, e: Entry, t: TxnId, made: Obj, origin: nat)
    requires Pends(e, e.objPtr)
    ensures Pends(Wound(c, e, t, made, origin).entry.value, e.objPtr)
    ensures Pends(Wait(c, e, t, made, origin).entry.value, e.objPtr)
  {
    AddMsetPends(e, e.holder.(prior := Some(made)), e.objPtr);
    if e.holder.obj != e.objPtr {
      AddMsetPends(e, Cmd(t, made, c.table, 1, origin), e.objPtr);
    }
  }

  /**
   * Naming a key twice keeps the bucket locked exactly when the key existed before: on a new
   * key the second PREPARE drops the lock bit and leaves the uncommitted value readable.
   */
  lemma RepeatedKeyLock(c: Cell, t: TxnId, pair: nat, value: Value, origin: nat, shards: nat, may: bool)
    requires Shape(c) && LockExact(c) && Holds(c, t)
    ensures var c' := Prepare(c, t, pair, value, origin, shards, may);
      && (Deferred(c') <==> Stable(c).Some?)
      && (Stable(c).None? ==> c'.table == Some(Made(t, pair, value)))
  {
    assert Found(c) == Some(c.entry.value);
  }

  // ---------------------------------------------------------------- FIN

  /** Who holds and who waits after the holder's FIN; the oldest waiter is promoted. */
  lemma FinishRoles(c: Cell, u: TxnId)
    requires Shape(c) && c.entry.Some?
    ensures var e := c.entry.value; var c' := Finish(c, e);
      && (Holds(c', u) <==> Promoted(e) == Some(u))
      && (Waits(c', u) <==> Waits(c, u) && Promoted(e) != Some(u))
      && (Installed(c', u) <==> Installed(c, u) || u == e.holder.txn)
      && (Promoted(e).Some? ==> Waits(c, Promoted(e).value))
      && c'.installs == c.installs + [e.holder.obj]
      && c'.initial == c.initial
      && c'.table == Some(e.holder.obj)
  {
    var e := c.entry.value;
    var c' := Finish(c, e);
    assert forall j :: 0 <= j < |c.installs| ==> c'.installs[j] == c.installs[j];
    assert c'.installs[|c.installs|] == e.holder.obj;
    if e.queue != [] {
      assert forall j :: 0 <= j < |e.queue| - 1 ==> e.queue[1..][j] == e.queue[j + 1];
      assert forall j :: 0 < j < |e.queue| ==> Older(e.queue[0].anchor.txn, e.queue[j].anchor.txn);
      if Waits(c, u) && e.queue[0].anchor.txn != u {
        var j := FindQueued(e.queue, u);
        assert e.queue[1..][j - 1] == e.queue[j];
      }
    }
  }

  lemma FinishShape(c: Cell)
    requires Shape(c) && c.entry.Some?
    ensures Shape(Finish(c, c.entry.value))
  {
    var e := c.entry.value;
    var c' := Finish(c, e);
    FinishInstallsDistinct(c);
    if e.queue != [] {
      assert forall j :: 0 <= j < |e.queue| - 1 ==> e.queue[1..][j] == e.queue[j + 1];
      assert !Queues(e.queue[1..], e.queue[0].anchor.txn);
      forall u | Holds(c', u) || Waits(c', u) ensures !Installed(c', u) {
        FinishRoles(c, u);
      }
    }
  }

  lemma FinishInstallsDistinct(c: Cell)
    requires Shape(c) && c.entry.Some?
    ensures var installs := c.installs + [c.entry.value.holder.obj];
      && (forall i :: 0 <= i < |installs| ==> installs[i].Made?)
      && (forall i, j :: 0 <= i < j < |installs| ==> installs[i].txn != installs[j].txn)
  {
    var h := c.entry.value.holder;
    assert Holds(c, h.txn);
    forall i | 0 <= i < |c.installs| ensures c.installs[i].txn != h.obj.txn {
      if c.installs[i].txn == h.txn { assert Installed(c, h.txn); }
    }
  }

  lemma FinishLocked(c: Cell)
    requires Shape(c) && LockExact(c) && c.entry.Some?
    ensures LockExact(Finish(c, c.entry.value))
  {
    FinishInstalled(c);
    if c.table == Some(c.entry.value.holder.obj) {
      TentativeMeansNew(c);
    }
  }

  /** If the table already shows the holder's object, the key is new. */
  lemma TentativeMeansNew(c: Cell)
    requires Shape(c) && LockExact(c) && c.entry.Some? && c.table == Some(c.entry.value.holder.obj)
    ensures Stable(c).None?
  {
    var h := c.entry.value.holder;
    assert Holds(c, h.txn);
    assert !Installed(c, h.txn);
  }

  lemma FinishInstalled(c: Cell)
    requires c.entry.Some?
    ensures var c' := Finish(c, c.entry.value);
      c'.installs == c.installs + [c.entry.value.holder.obj] && c'.initial == c.initial
  {
  }

  lemma LastIsStable(c: Cell)
    ensures Stable(c) == if History(c) == [] then None else Some(History(c)[|History(c)| - 1])
  {
  }

  lemma SupersededGrows(c: Cell, c': Cell, o: Obj)
    requires c'.installs == c.installs + [o] && c'.initial == c.initial
    ensures Superseded(c') == History(c)
  {
    assert History(c') == History(c) + [o];
  }

  /** FIN destroys the value it supersedes, if there is one, and nothing else. */
  lemma FinishDestroys(c: Cell)
    requires Shape(c) && LockExact(c) && c.entry.Some?
    ensures var c' := Finish(c, c.entry.value);
      && c'.destroyed == c.destroyed + (if Stable(c).Some? then multiset{Stable(c).value} else multiset{})
      && Superseded(c') == History(c)
  {
    hide Superseded, History;
    FinishInstalled(c);
    SupersededGrows(c, Finish(c, c.entry.value), c.entry.value.holder.obj);
    if c.table == Some(c.entry.value.holder.obj) {
      TentativeMeansNew(c);
    }
  }

  // ---------------------------------------------------------------- reads

  /** A read that is not deferred sees the stable value. */
  lemma ReadIsStable(c: Cell)
    requires Shape(c) && LockExact(c) && !Deferred(c)
    ensures c.entry.None? && c.table == Stable(c)
  {
  }

  /** Deferring a read changes neither holder, waiters nor objects. */
  lemma DeferKeeps(c: Cell, r: Read)
    requires Shape(c) && Deferred(c)
    ensures Shape(Defer(c, r)) && (LockExact(c) ==> LockExact(Defer(c, r)))
    ensures forall u :: Holds(Defer(c, r), u) == Holds(c, u) && Waits(Defer(c, r), u) == Waits(c, u)
  {
    hide Shape, LockExact;
    DeferRoles(c, r);
    DeferShape(c, Defer(c, r));
    if LockExact(c) {
      DeferLocked(c, Defer(c, r));
    }
  }

  /** `c'` is `c` but for the open wait groups of its entry. */
  predicate SameButOpen(c: Cell, c': Cell) {
    && c.entry.Some? && c' == c.(entry := c'.entry)
    && c'.entry.Some? && c'.entry.value == c.entry.value.(open := c'.entry.value.open)
  }

  lemma DeferRoles(c: Cell, r: Read)
    requires Deferred(c)
    ensures SameButOpen(c, Defer(c, r))
    ensures forall u :: Holds(Defer(c, r), u) == Holds(c, u) && Waits(Defer(c, r), u) == Waits(c, u)
  {
  }

  lemma DeferShape(c: Cell, c': Cell)
    requires Shape(c) && SameButOpen(c, c')
    ensures Shape(c')
  {
    assert Stable(c') == Stable(c);
    assert EntryShape(c'.entry.value);
    forall t | Holds(c', t) || Waits(c', t) ensures !Installed(c', t) {
      assert Holds(c, t) || Waits(c, t);
    }
  }

  lemma DeferLocked(c: Cell, c': Cell)
    requires SameButOpen(c, c') && LockExact(c)
    ensures LockExact(c')
  {
    SameHistory(c, c');
    assert Pends(c'.entry.value, c'.entry.value.objPtr) == Pends(c.entry.value, c.entry.value.objPtr);
  }

  /**
   * A command that is still waiting may point, through its own `prior`, at a destroyed object:
   * it recorded the stable value when it arrived, and the holder's FIN destroys that value
   * while promoting somebody else. Only its promotion refreshes `prior`.
   */
  lemma WaiterMayDangle(c: Cell, j: nat)
    requires Shape(c) && LockExact(c) && c.entry.Some? && Stable(c).Some?
    requires 1 <= j < |c.entry.value.queue| && c.entry.value.queue[j].anchor.prior == Stable(c)
    ensures var c' := Finish(c, c.entry.value);
      && c'.entry.Some? && |c'.entry.value.queue| == |c.entry.value.queue| - 1
      && c'.entry.value.queue[j - 1].anchor.prior.Some?
      && c'.entry.value.queue[j - 1].anchor.prior.value in c'.destroyed
  {
    FinishDestroys(c);
    var e := c.entry.value;
    assert e.queue[1..][j - 1] == e.queue[j];
  }

  /** Three MSETs prepare a loaded key, and the first finishes: the third points at a destroyed object. */
  lemma ThirdMsetDangles(v: Value, t1: TxnId, t2: TxnId, t3: TxnId, shards: nat)
    requires Older(t2, t3) && t1 != t2 && t1 != t3
    ensures var c1 := Prepare(Fresh(Some(Loaded(v))), t1, 0, v, 0, shards, false);
      var c2 := Prepare(c1, t2, 0, v, 0, shards, false);
      var c3 := Prepare(c2, t3, 0, v, 0, shards, false);
      && c3.entry.Some?
      && var c := Finish(c3, c3.entry.value);
      && c.entry.Some? && |c.entry.value.queue| == 1
      && var third := c.entry.value.queue[0].anchor;
      && third.txn == t3 && third.prior == Some(Loaded(v)) && Loaded(v) in c.destroyed
  {
    var c0 := Fresh(Some(Loaded(v)));
    var c1 := Prepare(c0, t1, 0, v, 0, shards, false);
    assert c1 == Acquire(c0, t1, Made(t1, 0, v), 0, shards);
    OlderIsStrictTotalOrder(t2, t3, t2);
    var c2 := Prepare(c1, t2, 0, v, 0, shards, false);
    assert c2 == Wait(c1, c1.entry.value, t2, Made(t2, 0, v), 0);
    assert |c2.entry.value.queue| == 1 && c2.entry.value.queue[0].anchor.txn == t2;
    var c3 := Prepare(c2, t3, 0, v, 0, shards, false);
    assert !Queues(c2.entry.value.queue, t3);
    assert c3 == Wait(c2, c2.entry.value, t3, Made(t3, 0, v), 0);
    assert |c3.entry.value.queue| == 2 && c3.entry.value.queue[1].anchor.txn == t3;
  }
}
