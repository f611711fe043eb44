/**
 * Keys with deadlines in one shard. The hash table is taken as the map it refines; every object
 * with a deadline is in the TTL index with that deadline, and nothing else is.
 */
module ShardTtl {
  import opened Objects
  import opened Options
  import opened TtlIndex

  /** A bucket of the hash table: object, deadline (0 for none) and lock bit. */
  datatype Cell = Cell(obj: Obj, expire: nat, locked: bool)

  type Table = map<Key, Cell>

  ghost predicate CellOk(deadlines: map<Obj, nat>, k: Key, c: Cell) {
    && c.obj.key == k
    && (c.obj in deadlines <==> c.expire != 0)
    && (c.expire != 0 ==> deadlines[c.obj] == c.expire)
  }

  ghost predicate Coherent(table: Table, deadlines: map<Obj, nat>) {
    && (forall k :: k in table ==> CellOk(deadlines, k, table[k]))
    && (forall o :: o in deadlines ==> o.key in table && table[o.key].obj == o)
  }

  predicate Due(table: Table, now: nat, k: Key) {
    k in table && 0 < table[k].expire <= now
  }

  ghost function DueSet(table: Table, now: nat): set<Key> {
    set k | k in table && 0 < table[k].expire <= now
  }

  /** Storing an object under a key whose old object, if any, leaves the index. */
  lemma StoreCoherent(table: Table, deadlines: map<Obj, nat>, o: Obj, expire: nat, locked: bool)
    requires Coherent(table, deadlines)
    ensures var rest := if o.key in table then deadlines - {table[o.key].obj} else deadlines;
      Coherent(table[o.key := Cell(o, expire, locked)], if expire > 0 then rest[o := expire] else rest - {o})
  {
    var k := o.key;
    var rest := if k in table then deadlines - {table[k].obj} else deadlines;
    var table', deadlines' := table[k := Cell(o, expire, locked)], if expire > 0 then rest[o := expire] else rest - {o};
    forall j | j in table' ensures CellOk(deadlines', j, table'[j]) {
      if j != k { assert CellOk(deadlines, j, table[j]); }
    }
    if k in table { assert CellOk(deadlines, k, table[k]); }
  }

  lemma DropCoherent(table: Table, deadlines: map<Obj, nat>, k: Key)
    requires Coherent(table, deadlines) && k in table
    ensures Coherent(table - {k}, deadlines - {table[k].obj})
  {
    forall j | j in table ensures CellOk(deadlines, j, table[j]) {}
  }

  /** No deadline up to `now` is left in the index, so no key is due. */
  lemma NoneDue(table: Table, deadlines: map<Obj, nat>, now: nat)
    requires Coherent(table, deadlines) && forall o :: o in deadlines ==> deadlines[o] > now
    ensures DueSet(table, now) == {}
  {
    forall k | k in table ensures !(0 < table[k].expire <= now) {
      assert CellOk(deadlines, k, table[k]);
    }
  }

  /** The object taken from the index is the one its key holds, and its key is due. */
  lemma PoppedIsDue(table: Table, deadlines: map<Obj, nat>, now: nat, o: Obj)
    requires Coherent(table, deadlines) && o in deadlines && deadlines[o] <= now
    ensures o.key in table && table[o.key].obj == o && Due(table, now, o.key) && table[o.key].expire == deadlines[o]
  {
    assert CellOk(deadlines, o.key, table[o.key]);
  }

  // ---------------------------------------------------------------- what a locked key holds back

  /** No locked key is due before `limit`. */
  ghost predicate LocksFrom(table: Table, now: nat, limit: nat) {
    forall k :: Due(table, now, k) && table[k].locked ==> limit <= table[k].expire
  }

  /** The unlocked keys that are due before `limit`. */
  ghost function Early(table: Table, now: nat, limit: nat): set<Key> {
    set k | k in table && 0 < table[k].expire <= now && !table[k].locked && table[k].expire < limit
  }

  /** `k` has an earliest deadline. */
  ghost predicate Earliest(table: Table, k: Key) {
    && k in table && 0 < table[k].expire
    && forall j :: j in table && table[j].expire > 0 ==> table[k].expire <= table[j].expire
  }

  /**
   * After `work` rounds that went from `before` to `after`: for every limit up to which no due key is
   * locked, each round has removed a key due before it, or none is left.
   */
  ghost predicate Cleared(before: Table, after: Table, now: nat, work: nat) {
    forall limit: nat :: LocksFrom(before, now, limit) ==>
      Early(after, now, limit) == {} || |Early(after, now, limit)| + work <= |Early(before, now, limit)|
  }

  lemma ClearedStep(before: Table, table: Table, now: nat, work: nat, k: Key)
    requires Cleared(before, table, now, work) && Due(table, now, k) && !table[k].locked && Earliest(table, k)
    ensures Cleared(before, table - {k}, now, work + 1)
  {
    forall limit: nat | LocksFrom(before, now, limit)
      ensures Early(table - {k}, now, limit) == {}
              || |Early(table - {k}, now, limit)| + work + 1 <= |Early(before, now, limit)|
    {
      var early := Early(table, now, limit);
      assert Early(table - {k}, now, limit) == early - {k};
      if early != {} {
        var j :| j in early;
        assert table[k].expire <= table[j].expire < limit;
        assert k in early;
      }
    }
  }

  /** Once an earliest key is locked, nothing due before any such limit is left. */
  lemma ClearedByLock(before: Table, table: Table, now: nat, k: Key)
    requires Due(table, now, k) && table[k].locked && Earliest(table, k) && k in before && before[k] == table[k]
    ensures forall work: nat :: Cleared(before, table, now, work)
  {
    forall limit: nat | LocksFrom(before, now, limit) ensures Early(table, now, limit) == {} {
      assert Due(before, now, k);
    }
  }

  lemma ClearedByNone(before: Table, table: Table, now: nat, work: nat)
    requires DueSet(table, now) == {}
    ensures Cleared(before, table, now, work)
  {
    forall limit: nat ensures Early(table, now, limit) == {} {
      assert Early(table, now, limit) <= DueSet(table, now);
    }
  }

  /** A deadline that is earliest in the index belongs to a key that is earliest in the table. */
  lemma EarliestKey(table: Table, deadlines: map<Obj, nat>, o: Obj)
    requires Coherent(table, deadlines) && o in deadlines && deadlines[o] > 0
    requires forall p :: p in deadlines ==> deadlines[o] <= deadlines[p]
    ensures Earliest(table, o.key)
  {
    assert CellOk(deadlines, o.key, table[o.key]);
    forall j | j in table && table[j].expire > 0 ensures table[o.key].expire <= table[j].expire {
      assert CellOk(deadlines, j, table[j]);
    }
  }

  /** Every key in `removed` was due, unlocked, and no later than any locked key that was due. */
  ghost predicate FairlyRemoved(table: Table, now: nat, removed: set<Key>) {
    && (forall k :: k in removed ==> Due(table, now, k) && !table[k].locked)
    && (forall k, j :: k in removed && Due(table, now, j) && table[j].locked ==> table[k].expire <= table[j].expire)
  }

  lemma RemoveFairly(table: Table, now: nat, removed: set<Key>, k: Key)
    requires FairlyRemoved(table, now, removed) && k !in removed
    requires Due(table - removed, now, k) && !table[k].locked && Earliest(table - removed, k)
    ensures FairlyRemoved(table, now, removed + {k})
  {
    forall j | Due(table, now, j) && table[j].locked ensures table[k].expire <= table[j].expire {
      assert j in table - removed;
    }
  }

  /**
   * What a drain with enough work leaves behind, exactly: with `limit` the earliest deadline of a
   * locked due key, and no unlocked key due at that very moment, no unlocked due key is left if and
   * only if all of them were due before `limit`.
   */
  lemma NothingHeldBack(table: Table, now: nat, maxWork: nat, removed: set<Key>, limit: nat, j: Key)
    requires FairlyRemoved(table, now, removed) && Cleared(table, table - removed, now, maxWork)
    requires LocksFrom(table, now, limit) && Due(table, now, j) && table[j].locked && table[j].expire == limit
    requires forall k :: Due(table, now, k) && !table[k].locked ==> table[k].expire != limit
    requires maxWork >= |DueSet(table, now)|
    ensures (forall k :: Due(table - removed, now, k) ==> table[k].locked)
            <==> (forall k :: Due(table, now, k) && !table[k].locked ==> table[k].expire < limit)
  {
    var rest := table - removed;
    EnoughWork(table, rest, now, maxWork, limit, j);
    forall k | Due(table, now, k) && !table[k].locked && table[k].expire < limit ensures k !in rest {
      assert k in rest ==> k in Early(rest, now, limit);
    }
    forall k | Due(table, now, k) && !table[k].locked && table[k].expire > limit ensures Due(rest, now, k) {
    }
  }

  // ---------------------------------------------------------------- keys due at the same moment

  /** The key at the top of the heap. */
  function TopKey(h: Heap): Option<Key> {
    if h == [] then None else Some(h[0].obj.key)
  }

  /** `j` is locked and due at `limit`, and every other locked key is due later. */
  ghost predicate FirstLocked(table: Table, now: nat, limit: nat, j: Key) {
    && Due(table, now, j) && table[j].locked && table[j].expire == limit
    && forall k :: Due(table, now, k) && table[k].locked && k != j ==> limit < table[k].expire
  }

  /** The unlocked keys that are due by `limit`. */
  ghost function By(table: Table, now: nat, limit: nat): set<Key> {
    Early(table, now, limit + 1)
  }

  function OnTop(top: Option<Key>, j: Key): nat {
    if top == Some(j) then 1 else 0
  }

  /**
   * After `work` rounds: of every two rounds one has removed a key due no later than the first locked
   * key, or none is left, because the locked key does not stay on top of an equal deadline.
   */
  ghost predicate Paced(before: Table, after: Table, now: nat, work: nat, top: Option<Key>) {
    forall limit: nat, j :: FirstLocked(before, now, limit, j) ==>
      By(after, now, limit) == {}
      || 2 * |By(after, now, limit)| + OnTop(top, j) + work <= 2 * |By(before, now, limit)| + 1
  }

  lemma PacedRemove(before: Table, table: Table, now: nat, work: nat, top: Option<Key>, k: Key, top': Option<Key>)
    requires Paced(before, table, now, work, top) && Due(table, now, k) && !table[k].locked && Earliest(table, k)
    ensures Paced(before, table - {k}, now, work + 1, top')
  {
    forall limit: nat, j | FirstLocked(before, now, limit, j)
      ensures By(table - {k}, now, limit) == {}
              || 2 * |By(table - {k}, now, limit)| + OnTop(top', j) + work + 1 <= 2 * |By(before, now, limit)| + 1
    {
      var soon := By(table, now, limit);
      assert By(table - {k}, now, limit) == soon - {k};
      if soon != {} {
        var i :| i in soon;
        assert table[k].expire <= table[i].expire <= limit;
        assert k in soon;
      }
    }
  }

  lemma PacedLocked(before: Table, table: Table, now: nat, work: nat, k: Key, top: Option<Key>)
    requires Paced(before, table, now, work, Some(k)) && Due(table, now, k) && table[k].locked && Earliest(table, k)
    requires forall i :: i in table ==> i in before && before[i] == table[i]
    requires top == Some(k) ==>
      forall i :: i in table && table[i].expire > 0 && i != k ==> table[k].expire < table[i].expire
    ensures Paced(before, table, now, work + 1, top)
  {
    forall limit: nat, j | FirstLocked(before, now, limit, j)
      ensures By(table, now, limit) == {}
              || 2 * |By(table, now, limit)| + OnTop(top, j) + work + 1 <= 2 * |By(before, now, limit)| + 1
    {
      var soon := By(table, now, limit);
      if soon != {} {
        var i :| i in soon;
        assert table[k].expire <= table[i].expire <= limit;
        assert Due(before, now, k) && k == j;
        assert i != k;
      }
    }
  }

  lemma PacedNone(before: Table, table: Table, now: nat, work: nat, top: Option<Key>)
    requires DueSet(table, now) == {}
    ensures Paced(before, table, now, work, top)
  {
    forall limit: nat ensures By(table, now, limit) == {} {
      assert By(table, now, limit) <= DueSet(table, now);
    }
  }

  /**
   * With one locked key at the first locked deadline, a drain with enough work leaves no unlocked due
   * key behind if and only if none was due after that deadline.
   */
  lemma OneLockHoldsBack(table: Table, now: nat, maxWork: nat, removed: set<Key>, limit: nat, j: Key,
                         top: Option<Key>)
    requires FairlyRemoved(table, now, removed) && Paced(table, table - removed, now, maxWork, top)
    requires FirstLocked(table, now, limit, j) && maxWork >= 2 * |DueSet(table, now)|
    ensures (forall k :: Due(table - removed, now, k) ==> table[k].locked)
            <==> (forall k :: Due(table, now, k) && !table[k].locked ==> table[k].expire <= limit)
  {
    var rest := table - removed;
    var soon, due := By(table, now, limit), DueSet(table, now);
    assert soon <= due - {j};
    Smaller(soon, due - {j});
    assert By(rest, now, limit) == {};
    forall k | Due(table, now, k) && !table[k].locked && table[k].expire <= limit ensures k !in rest {
      assert k in rest ==> k in By(rest, now, limit);
    }
    forall k | Due(table, now, k) && !table[k].locked && table[k].expire > limit ensures Due(rest, now, k) {
    }
  }

  lemma EnoughWork(table: Table, rest: Table, now: nat, maxWork: nat, limit: nat, j: Key)
    requires Cleared(table, rest, now, maxWork) && LocksFrom(table, now, limit) && maxWork >= |DueSet(table, now)|
    requires Due(table, now, j) && table[j].locked
    ensures Early(rest, now, limit) == {}
  {
    var early, due := Early(table, now, limit), DueSet(table, now);
    assert early <= due - {j};
    Smaller(early, due - {j});
  }

  lemma {:induction false} Smaller(a: set<Key>, b: set<Key>)
    requires a <= b
    ensures |a| <= |b|
    decreases a
  {
    if a != {} {
      var x :| x in a;
      Smaller(a - {x}, b - {x});
    }
  }

  ghost predicate NoneLocked(table: Table, now: nat) {
    forall k :: Due(table, now, k) ==> !table[k].locked
  }

  lemma AllCleared(before: Table, after: Table, now: nat, work: nat)
    requires Cleared(before, after, now, work) && NoneLocked(before, now) && work >= |DueSet(before, now)|
    requires forall k :: k in after ==> k in before && after[k] == before[k]
    ensures DueSet(after, now) == {}
  {
    assert LocksFrom(before, now, now + 1);
    assert Early(before, now, now + 1) == DueSet(before, now);
    assert Early(after, now, now + 1) == DueSet(after, now);
  }

  class Shard {
    const ttl: Index
    var table: Table

    ghost predicate Valid()
      reads this, ttl
    {
      ttl.Valid() && Coherent(table, ttl.deadlines)
    }

    constructor ()
      ensures Valid() && table == map[] && fresh(ttl)
    {
      ttl := new Index();
      table := map[];
    }

    /** SET with an optional deadline; `o` is the new object, `granted` whether there was memory. */
    method Set(o: Obj, expire: nat, mode: PutMode, granted: bool) returns (ok: bool)
      requires Valid() && o !in ttl.deadlines && (o.key in table ==> table[o.key].obj != o)
      modifies this, ttl
      ensures Valid()
      ensures ok == (granted && if o.key in old(table) then mode != IfAbsent else mode != IfPresent)
      ensures table == if ok then old(table)[o.key := Cell(o, expire, false)] else old(table)
    {
      if (mode == IfAbsent && o.key in table) || (mode == IfPresent && o.key !in table) || !granted {
        return false;
      }
      StoreCoherent(table, ttl.deadlines, o, expire, false);
      hide Coherent;
      ghost var rest := if o.key in table then ttl.deadlines - {table[o.key].obj} else ttl.deadlines;
      if o.key in table {
        ttl.Remove(table[o.key].obj);
      }
      assert rest - {o} == rest;
      table := table[o.key := Cell(o, expire, false)];
      if expire > 0 {
        ttl.Push(o, expire);
      }
      return true;
    }

    /** GET: an expired key is removed on the way, unless it is locked. */
    method Get(key: Key, now: nat) returns (r: Option<Obj>)
      requires Valid()
      modifies this, ttl
      ensures Valid()
      ensures var gone := now != 0 && Due(old(table), now, key) && !old(table)[key].locked;
        && table == (if gone then old(table) - {key} else old(table))
        && r == if key in table then Some(table[key].obj) else None
    {
      if key !in table {
        return None;
      }
      var c := table[key];
      if c.expire == 0 || now == 0 || now < c.expire || c.locked {
        return Some(c.obj);
      }
      DropCoherent(table, ttl.deadlines, key);
      hide Coherent;
      table := table - {key};
      ttl.Remove(c.obj);
      return None;
    }

    method Delete(key: Key) returns (ok: bool)
      requires Valid()
      modifies this, ttl
      ensures Valid() && ok == (key in old(table)) && table == old(table) - {key}
    {
      if key !in table {
        assert table - {key} == table;
        return false;
      }
      DropCoherent(table, ttl.deadlines, key);
      hide Coherent;
      var c := table[key];
      table := table - {key};
      ttl.Remove(c.obj);
      return true;
    }

    /**
     * EXPIRE and PERSIST. A deadline of the largest 64-bit number reads back as a missing key, and
     * writing the bucket again drops its lock bit.
     */
    method Expire(key: Key, expire: nat) returns (ok: bool)
      requires Valid()
      modifies this, ttl
      ensures Valid()
      ensures ok == (key in old(table) && old(table)[key].expire != UINT64_MAX
                     && !(expire == 0 && old(table)[key].expire == 0))
      ensures table == if ok then old(table)[key := Cell(old(table)[key].obj, expire, false)] else old(table)
    {
      var current := if key in table then table[key].expire else UINT64_MAX;
      if current == UINT64_MAX || (expire == 0 && current == 0) {
        return false;
      }
      var o := table[key].obj;
      assert CellOk(ttl.deadlines, key, table[key]);
      StoreCoherent(table, ttl.deadlines, o, expire, false);
      hide Coherent;
      table := table[key := Cell(o, expire, false)];
      if expire > 0 {
        assert (ttl.deadlines - {o})[o := expire] == ttl.deadlines[o := expire];
        if o !in ttl.at {
          ttl.Push(o, expire);
        } else {
          ttl.Update(o, expire);
        }
      } else {
        assert ttl.deadlines - {o} - {o} == ttl.deadlines - {o};
        ttl.Remove(o);
      }
      return true;
    }

    /** Sets or clears the lock bit of a key. */
    method SetLock(key: Key, locked: bool)
      requires Valid()
      modifies this`table
      ensures Valid()
      ensures table == if key in old(table) then old(table)[key := old(table)[key].(locked := locked)] else old(table)
    {
      if key in table {
        LockCoherent(table, ttl.deadlines, key, locked);
        table := table[key := table[key].(locked := locked)];
      }
    }

    /**
     * One round of active expiry: take the earliest deadline, and either its key is removed or,
     * if that is locked, the deadline goes back. `None` once nothing is due.
     */
    method DrainOne(now: nat) returns (r: Option<Key>, stop: bool, ghost k: Key)
      requires Valid()
      modifies this, ttl
      ensures Valid()
      ensures stop ==> r.None? && DueSet(table, now) == {}
      ensures r.None? ==> table == old(table) && ttl.deadlines == old(ttl.deadlines)
      ensures !stop ==> && Due(old(table), now, k) && Earliest(old(table), k) && TopKey(old(ttl.heap)) == Some(k)
                        && (if old(table)[k].locked then r.None? else r == Some(k) && table == old(table) - {k})
      ensures !stop && r.None? && TopKey(ttl.heap) == Some(k) ==>
        forall i :: i in table && table[i].expire > 0 && i != k ==> table[k].expire < table[i].expire
    {
      hide Coherent, Indexed, Ordered, DueSet, Earliest;
      k := [];
      var earliest := ttl.Peek();
      if earliest > now {
        NoneDue(table, ttl.deadlines, now);
        return None, true, k;
      }
      ghost var deadlines := ttl.deadlines;
      var top := ttl.Pop();
      if top.None? {
        NoneDue(table, ttl.deadlines, now);
        return None, true, k;
      }
      var o := top.value.obj;
      PoppedIsDue(table, deadlines, now, o);
      EarliestKey(table, deadlines, o);
      k := o.key;
      if table[o.key].locked {
        ttl.Push(o, top.value.expire);
        assert ttl.deadlines == deadlines;
        MinDeadline(ttl.heap, ttl.at, ttl.deadlines);
        TopAlone(table, deadlines, ttl.heap, o);
        return None, false, k;
      }
      DropCoherent(table, deadlines, o.key);
      table := table - {o.key};
      return Some(o.key), false, k;
    }

    /**
     * Active expiry with a work limit. Only unlocked keys past their deadline go, none later than a
     * locked key that is due; and all that are due before the first locked one, if the limit allows.
     */
    method Drain(now: nat, maxWork: nat) returns (expired: nat, ghost removed: set<Key>)
      requires Valid()
      modifies this, ttl
      ensures Valid() && table == old(table) - removed && expired == |removed| <= maxWork
      ensures FairlyRemoved(old(table), now, removed)
      ensures Cleared(old(table), table, now, maxWork) && Paced(old(table), table, now, maxWork, TopKey(ttl.heap))
      ensures NoneLocked(old(table), now) && maxWork >= |DueSet(old(table), now)| ==> DueSet(table, now) == {}
    {
      hide Coherent, Indexed, Ordered, DueSet, Cleared, Paced, FairlyRemoved, Earliest, NoneLocked, TopKey;
      expired, removed := 0, {};
      assert table - removed == table;
      NothingYet(table, now, TopKey(ttl.heap));
      var i := 0;
      while i < maxWork
        invariant Valid() && table == old(table) - removed && expired == |removed| <= i <= maxWork
        invariant FairlyRemoved(old(table), now, removed) && Cleared(old(table), table, now, i)
        invariant Paced(old(table), table, now, i, TopKey(ttl.heap))
      {
        ghost var before, top := table, TopKey(ttl.heap);
        var r, stop, k := DrainOne(now);
        if stop {
          ClearedByNone(old(table), table, now, maxWork);
          PacedNone(old(table), table, now, maxWork, TopKey(ttl.heap));
          return;
        }
        if r.Some? {
          ClearedStep(old(table), before, now, i, k);
          PacedRemove(old(table), before, now, i, top, k, TopKey(ttl.heap));
          RemoveFairly(old(table), now, removed, k);
          assert table == old(table) - (removed + {k});
          expired, removed := expired + 1, removed + {k};
        } else {
          ClearedByLock(old(table), table, now, k);
          PacedLocked(old(table), table, now, i, k, TopKey(ttl.heap));
        }
        i := i + 1;
      }
      if NoneLocked(old(table), now) && maxWork >= |DueSet(old(table), now)| {
        AllCleared(old(table), table, now, maxWork);
      }
    }
  }

  lemma NothingYet(table: Table, now: nat, top: Option<Key>)
    ensures FairlyRemoved(table, now, {}) && Cleared(table, table, now, 0) && Paced(table, table, now, 0, top)
  {
  }

  /** An object at the top of the heap only if its deadline is before all others: so for its key. */
  lemma TopAlone(table: Table, deadlines: map<Obj, nat>, h: Heap, o: Obj)
    requires Coherent(table, deadlines) && o in deadlines && o.key in table && table[o.key].obj == o
    requires h != [] && h[0].obj in deadlines
    requires h[0].obj == o ==> forall p :: p in deadlines - {o} ==> deadlines[o] < deadlines[p]
    ensures TopKey(h) == Some(o.key) ==>
      forall i :: i in table && table[i].expire > 0 && i != o.key ==> table[o.key].expire < table[i].expire
  {
    if TopKey(h) == Some(o.key) {
      assert table[h[0].obj.key].obj == h[0].obj;
      assert CellOk(deadlines, o.key, table[o.key]);
      forall i | i in table && table[i].expire > 0 && i != o.key ensures table[o.key].expire < table[i].expire {
        assert CellOk(deadlines, i, table[i]);
      }
    }
  }

  lemma LockCoherent(table: Table, deadlines: map<Obj, nat>, k: Key, locked: bool)
    requires Coherent(table, deadlines) && k in table
    ensures Coherent(table[k := table[k].(locked := locked)], deadlines)
  {
    var table' := table[k := table[k].(locked := locked)];
    forall j | j in table' ensures CellOk(deadlines, j, table'[j]) {
      assert CellOk(deadlines, j, table[j]);
    }
  }

  lemma NotIndexed(table: Table, deadlines: map<Obj, nat>, o: Obj)
    requires Coherent(table, deadlines) && o.key !in table
    ensures o !in deadlines
  {
  }

  lemma AllHeldBack(table: Table, now: nat, removed: set<Key>, j: Key)
    requires FairlyRemoved(table, now, removed) && Due(table, now, j) && table[j].locked
    requires forall k :: Due(table, now, k) && k != j ==> table[k].expire > table[j].expire
    ensures removed == {}
  {
    forall k ensures k !in removed {
      assert k in removed ==> Due(table, now, k);
    }
  }

  /** Two keys with deadlines, the earlier one locked. */
  method TwoKeys(a: Obj, b: Obj) returns (s: Shard)
    requires a.key != b.key
    ensures fresh(s) && fresh(s.ttl) && s.Valid()
    ensures s.table == map[a.key := Cell(a, 1, true), b.key := Cell(b, 2, false)]
  {
    hide Coherent, Indexed, Ordered;
    s := new Shard();
    NotIndexed(s.table, s.ttl.deadlines, a);
    var ok := s.Set(a, 1, Always, true);
    NotIndexed(s.table, s.ttl.deadlines, b);
    ok := s.Set(b, 2, Always, true);
    s.SetLock(a.key, true);
  }

  /**
   * A locked key with the earliest deadline of all that are due holds back every other, as in
   * `TwoKeys`: no amount of work removes anything.
   */
  method LockedKeyHoldsBack(s: Shard, key: Key, now: nat, maxWork: nat) returns (expired: nat)
    requires s.Valid() && Due(s.table, now, key) && s.table[key].locked
    requires forall k :: Due(s.table, now, k) && k != key ==> s.table[k].expire > s.table[key].expire
    modifies s, s.ttl
    ensures s.Valid() && expired == 0 && s.table == old(s.table)
  {
    hide Coherent, Indexed, Ordered, FairlyRemoved, Cleared, Paced, DueSet, NoneLocked;
    ghost var removed;
    expired, removed := s.Drain(now, maxWork);
    AllHeldBack(old(s.table), now, removed, key);
    assert old(s.table) - {} == old(s.table);
  }

  /** A locked key without a deadline. */
  method LockedKey(o: Obj) returns (s: Shard)
    ensures fresh(s) && fresh(s.ttl) && s.Valid() && s.table == map[o.key := Cell(o, 0, true)]
  {
    hide Coherent, Indexed, Ordered;
    s := new Shard();
    NotIndexed(s.table, s.ttl.deadlines, o);
    var ok := s.Set(o, 0, Always, true);
    s.SetLock(o.key, true);
  }

  /** EXPIRE gives a locked key away: its lock bit is gone, whatever the new deadline. */
  method ExpireUnlocks(s: Shard, key: Key, expire: nat)
    requires s.Valid() && key in s.table && s.table[key].locked && s.table[key].expire != UINT64_MAX && expire > 0
    modifies s, s.ttl
    ensures s.Valid() && s.table == old(s.table)[key := Cell(old(s.table)[key].obj, expire, false)]
    ensures old(s.table)[key].locked && !s.table[key].locked
  {
    hide Coherent, Indexed, Ordered;
    var ok := s.Expire(key, expire);
  }

  /** A key whose deadline is the largest 64-bit number. */
  method FarKey(o: Obj) returns (s: Shard)
    ensures fresh(s) && fresh(s.ttl) && s.Valid() && s.table == map[o.key := Cell(o, UINT64_MAX, false)]
  {
    hide Coherent, Indexed, Ordered;
    s := new Shard();
    NotIndexed(s.table, s.ttl.deadlines, o);
    var ok := s.Set(o, 0, Always, true);
    ok := s.Expire(o.key, UINT64_MAX);
  }

  /** A deadline of the largest 64-bit number cannot be changed again: the key reads as missing. */
  method LargestDeadlineSticks(s: Shard, key: Key, expire: nat) returns (ok: bool)
    requires s.Valid() && key in s.table && s.table[key].expire == UINT64_MAX
    modifies s, s.ttl
    ensures s.Valid() && !ok && s.table == old(s.table)
  {
    hide Coherent, Indexed, Ordered;
    ok := s.Expire(key, expire);
  }
}
