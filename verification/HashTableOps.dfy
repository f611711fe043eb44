/**
 * The hash table as the shard uses it. `contents` is the map the table stands for; each
 * operation states its effect on that map, whatever stage a doubling is in.
 */
module HashTableOps {
  import opened HashTable
  import opened Objects
  import opened Options

  const MIN_BUCKETS: nat := 16
  const OVERFLOW_RATIO: nat := 8
  const REHASH_STEP: nat := 64

  datatype PutResult = Inserted | Replaced(prior: Obj) | Refused | NoMemory

  predicate Matches(n: Node, meta: nat, key: Key) {
    ClearLock(n.meta) == meta && n.obj.key == key
  }

  /** Smallest doubling of `from` that reaches `n`. */
  function RoundUp(from: nat, n: nat): (r: nat)
    requires from > 0
    ensures r >= n && r >= from && (r > from ==> r < 2 * n)
    decreases n - from
  {
    if from >= n then from else RoundUp(2 * from, n)
  }

  method FindInChain(chain: seq<Node>, meta: nat, key: Key) returns (r: Option<nat>)
    ensures r.Some? ==> r.value < |chain| && Matches(chain[r.value], meta, key)
    ensures r.Some? ==> forall p :: 0 <= p < r.value ==> !Matches(chain[p], meta, key)
    ensures r.None? ==> forall p :: 0 <= p < |chain| ==> !Matches(chain[p], meta, key)
  {
    var p := 0;
    while p < |chain|
      invariant p <= |chain|
      invariant forall q :: 0 <= q < p ==> !Matches(chain[q], meta, key)
    {
      if Matches(chain[p], meta, key) {
        return Some(p);
      }
      p := p + 1;
    }
    return None;
  }

  /** An entry of the map is found in the bucket its hash and the phase say it is in. */
  lemma KeyIsHome(hash: Key -> nat, ph: Phase, bs: Buckets, contents: map<Key, Node>, spots: map<Key, Spot>, key: Key)
    requires Refines(hash, ph, bs, contents, spots) && key in contents
    ensures At(bs, spots[key], contents[key])
    ensures Matches(contents[key], Pack(hash(key)), key)
    ensures Home(ph, Hash56(Pack(hash(key))), spots[key].b)
  {
    assert At(bs, spots[key], contents[key]);
    var at := spots[key];
    assert SlotOk(hash, ph, contents, spots, Spot(at.b, at.p), bs[at.b][at.p]);
    LockBitIsInvisible(contents[key].meta);
  }

  /** A bucket searched without success does not hold the key. */
  lemma NotHere(hash: Key -> nat, ph: Phase, bs: Buckets, contents: map<Key, Node>, spots: map<Key, Spot>, key: Key,
                b: nat)
    requires Refines(hash, ph, bs, contents, spots) && b < |bs|
    requires forall p :: 0 <= p < |bs[b]| ==> !Matches(bs[b][p], Pack(hash(key)), key)
    ensures key in contents ==> spots[key].b != b
  {
    if key in contents { KeyIsHome(hash, ph, bs, contents, spots, key); }
  }

  lemma FoundHere(hash: Key -> nat, ph: Phase, bs: Buckets, contents: map<Key, Node>, spots: map<Key, Spot>,
                  key: Key, b: nat, p: nat)
    requires Refines(hash, ph, bs, contents, spots) && b < |bs| && p < |bs[b]|
    requires Matches(bs[b][p], Pack(hash(key)), key)
    ensures key in contents && spots[key] == Spot(b, p) && contents[key] == bs[b][p]
  {
    assert SlotOk(hash, ph, contents, spots, Spot(b, p), bs[b][p]);
  }

  lemma SpareMeansSlot(pool: Pool)
    requires pool.cap <= pool.max <= UINT32_MAX && Spare(pool) > 0
    ensures HasSlot(pool)
  {
    assert Grown(pool) <= pool.max;
  }

  /** The entry a starved migration forgets is one of the map's. */
  lemma StarvedEntry(hash: Key -> nat, ph: Phase, bs: Buckets, contents: map<Key, Node>, spots: map<Key, Spot>,
                     pool: Pool, i: nat)
    requires Refines(hash, ph, bs, contents, spots) && i < |bs| && Starved(bs, pool, i)
    ensures var k := bs[i][0].obj.key;
      k in contents && |contents - {k}| == |contents| - 1 && !HasSlot(pool)
  {
    assert SlotOk(hash, ph, contents, spots, Spot(i, 0), bs[i][0]);
    var k := bs[i][0].obj.key;
    assert contents == (contents - {k})[k := bs[i][0]];
  }

  /** `after` is `before` without the keys in `gone`, all of which it had. */
  ghost predicate Forgot(before: map<Key, Node>, after: map<Key, Node>, gone: set<Key>) {
    gone <= before.Keys && after == before - gone
  }

  lemma ForgotNothing(a: map<Key, Node>)
    ensures Forgot(a, a, {})
  {
  }

  lemma ForgotTwice(a: map<Key, Node>, b: map<Key, Node>, c: map<Key, Node>, first: set<Key>, second: set<Key>)
    requires Forgot(a, b, first) && Forgot(b, c, second)
    ensures Forgot(a, c, first + second) && |first + second| == |first| + |second|
  {
    assert first !! second;
    assert a - first - second == a - (first + second);
  }

  /** Slots, pool and counter together stand for `contents`. */
  ghost predicate Inv(hash: Key -> nat, ph: Phase, bs: Buckets, pool: Pool, used: nat,
                      contents: map<Key, Node>, spots: map<Key, Spot>, dropped: nat) {
    && Refines(hash, ph, bs, contents, spots)
    && Conserved(bs, pool, 0)
    && used == |contents| + dropped
  }

  lemma GrowInv(hash: Key -> nat, bs: Buckets, pool: Pool, used: nat,
                contents: map<Key, Node>, spots: map<Key, Spot>, dropped: nat)
    requires Inv(hash, Phase(|bs|, 0, -1), bs, pool, used, contents, spots, dropped)
    ensures bs != []
    ensures Inv(hash, Phase(2 * |bs|, |bs|, 0), bs + seq(|bs|, _ => []), pool, used, contents, spots, dropped)
  {
    RefinesGrow(hash, |bs|, bs, contents, spots);
    OverflowAppend(bs, |bs|);
  }

  lemma AppendInv(hash: Key -> nat, ph: Phase, bs: Buckets, pool: Pool, used: nat,
                  contents: map<Key, Node>, spots: map<Key, Spot>, dropped: nat, b: nat, n: Node, pool': Pool)
    requires Inv(hash, ph, bs, pool, used, contents, spots, dropped)
    requires b < |bs| && n.obj.key !in contents && NodeOk(hash, ph, n, b)
    requires if bs[b] == [] then pool' == pool else Alloc(pool) == Some(pool')
    ensures Inv(hash, ph, bs[b := bs[b] + [n]], pool', used + 1, contents[n.obj.key := n],
                spots[n.obj.key := Spot(b, |bs[b]|)], dropped)
  {
    RefinesAppend(hash, ph, bs, contents, spots, b, n);
    OverflowUpdate(bs, b, bs[b] + [n]);
  }

  lemma OverwriteInv(hash: Key -> nat, ph: Phase, bs: Buckets, pool: Pool, used: nat,
                     contents: map<Key, Node>, spots: map<Key, Spot>, dropped: nat, at: Spot, n: Node)
    requires Inv(hash, ph, bs, pool, used, contents, spots, dropped)
    requires n.obj.key in contents && At(bs, at, contents[n.obj.key])
    requires ClearLock(n.meta) == Pack(hash(n.obj.key))
    ensures Inv(hash, ph, bs[at.b := bs[at.b][at.p := n]], pool, used, contents[n.obj.key := n], spots, dropped)
  {
    var k := n.obj.key;
    assert SlotOk(hash, ph, contents, spots, at, bs[at.b][at.p]);
    LockBitIsInvisible(n.meta);
    LockBitIsInvisible(contents[k].meta);
    RefinesReplace(hash, ph, bs, contents, spots, at, n);
    OverflowUpdate(bs, at.b, bs[at.b][at.p := n]);
    assert contents[k := n].Keys == contents.Keys;
  }

  function Returned(bs: Buckets, pool: Pool, b: nat): Pool
    requires b < |bs|
  {
    if |bs[b]| > 1 then pool.(free := pool.free + 1) else pool
  }

  lemma KeyAt(hash: Key -> nat, ph: Phase, bs: Buckets, contents: map<Key, Node>, spots: map<Key, Spot>,
              at: Spot, n: Node)
    requires Refines(hash, ph, bs, contents, spots) && At(bs, at, n)
    ensures n.obj.key in contents && |contents - {n.obj.key}| == |contents| - 1
  {
    var k := n.obj.key;
    assert SlotOk(hash, ph, contents, spots, at, bs[at.b][at.p]);
    assert contents == (contents - {k})[k := n];
  }

  lemma UnlinkConserved(bs: Buckets, pool: Pool, at: Spot)
    requires Conserved(bs, pool, 0) && at.b < |bs| && at.p < |bs[at.b]|
    ensures Conserved(bs[at.b := Without(bs[at.b], at.p)], Returned(bs, pool, at.b), 0)
  {
    OverflowUpdate(bs, at.b, Without(bs[at.b], at.p));
  }

  lemma UnlinkInv(hash: Key -> nat, ph: Phase, bs: Buckets, pool: Pool, used: nat,
                  contents: map<Key, Node>, spots: map<Key, Spot>, dropped: nat, at: Spot, n: Node)
    requires Inv(hash, ph, bs, pool, used, contents, spots, dropped) && At(bs, at, n)
    ensures n.obj.key in contents && used > 0
    ensures Inv(hash, ph, bs[at.b := Without(bs[at.b], at.p)], Returned(bs, pool, at.b), used - 1,
                contents - {n.obj.key}, Shifted(spots, n.obj.key, at), dropped)
  {
    KeyAt(hash, ph, bs, contents, spots, at, n);
    UnlinkConserved(bs, pool, at);
    hide Refines, Conserved, Shifted;
    RefinesRemove(hash, ph, bs, contents, spots, at, n);
  }

  lemma BucketsOf(hash: Key -> nat, ph: Phase, bs: Buckets, contents: map<Key, Node>, spots: map<Key, Spot>)
    requires Refines(hash, ph, bs, contents, spots) && 0 <= ph.idx < ph.oldCap
    ensures ph.idx < |bs| == ph.cap
  {
  }

  lemma NotStarved(bs: Buckets, pool: Pool, i: nat)
    requires i < |bs|
    ensures HasSlot(pool) ==> !Starved(bs, pool, i)
    ensures Starved(bs, pool, i) ==> bs[i] != []
  {
  }

  /** What migrating bucket `i` forgets: its primary entry in the starved branch, and nothing otherwise. */
  ghost function Doomed(bs: Buckets, pool: Pool, i: int): set<Key> {
    if 0 <= i < |bs| && Starved(bs, pool, i) then {bs[i][0].obj.key} else {}
  }

  /** What migrating up to `n` buckets from bucket `i` on forgets, each as it is when its turn comes. */
  ghost function TickDooms(bs: Buckets, pool: Pool, i: int, end: int, n: nat): set<Key>
    decreases n
  {
    if n == 0 || !(0 <= i < end) || i >= |bs| then {}
    else
      var m := MigrateBucket(bs, pool, i);
      Doomed(bs, pool, i) + TickDooms(m.bs, m.pool, i + 1, end, n - 1)
  }

  /** Buckets and pool after migrating up to `n` buckets from bucket `i` on. */
  ghost function Ticked(bs: Buckets, pool: Pool, i: int, end: int, n: nat): (m: Migration)
    ensures |m.bs| == |bs|
    decreases n
  {
    if n == 0 || !(0 <= i < end) || i >= |bs| then Migration(bs, pool, false)
    else
      var m := MigrateBucket(bs, pool, i);
      Ticked(m.bs, m.pool, i + 1, end, n - 1)
  }

  lemma TickedStep(bs: Buckets, pool: Pool, i: nat, end: int, n: nat)
    requires i < end && i < |bs| && n > 0
    ensures var m := MigrateBucket(bs, pool, i); Ticked(bs, pool, i, end, n) == Ticked(m.bs, m.pool, i + 1, end, n - 1)
  {
    hide MigrateBucket;
  }

  lemma TickedDone(bs: Buckets, pool: Pool, i: int, end: int, n: nat)
    requires i >= end || n == 0
    ensures Ticked(bs, pool, i, end, n) == Migration(bs, pool, false)
  {
  }

  /** Of `dooms`, the part in `gone` has been forgotten and the rest is still to come. */
  ghost predicate DoomsLeft(dooms: set<Key>, gone: set<Key>, bs: Buckets, pool: Pool, i: int, end: int, n: nat) {
    dooms == gone + TickDooms(bs, pool, i, end, n)
  }

  lemma DoomsBegin(bs: Buckets, pool: Pool, i: int, end: int, n: nat)
    ensures DoomsLeft(TickDooms(bs, pool, i, end, n), {}, bs, pool, i, end, n)
  {
  }

  lemma DoomsStep(dooms: set<Key>, gone: set<Key>, bs: Buckets, pool: Pool, i: nat, end: int, n: nat)
    requires i < end && i < |bs| && n > 0 && DoomsLeft(dooms, gone, bs, pool, i, end, n)
    ensures var m := MigrateBucket(bs, pool, i);
      DoomsLeft(dooms, gone + Doomed(bs, pool, i), m.bs, m.pool, i + 1, end, n - 1)
  {
    hide MigrateBucket, Doomed;
  }

  lemma DoomsDone(dooms: set<Key>, gone: set<Key>, bs: Buckets, pool: Pool, i: int, end: int, n: nat)
    requires DoomsLeft(dooms, gone, bs, pool, i, end, n) && (i >= end || n == 0)
    ensures gone == dooms
  {
  }

  /** Migration of the next bucket: `gone` is what it forgets. */
  lemma MigrateInv(hash: Key -> nat, ph: Phase, bs: Buckets, pool: Pool, used: nat,
                   contents: map<Key, Node>, spots: map<Key, Spot>, dropped: nat)
    returns (spots': map<Key, Spot>, gone: set<Key>)
    requires Inv(hash, ph, bs, pool, used, contents, spots, dropped) && 0 <= ph.idx < ph.oldCap
    ensures ph.idx < |bs|
    ensures gone == Doomed(bs, pool, ph.idx) && gone <= contents.Keys
    ensures Spare(pool) > 0 && pool.max <= UINT32_MAX ==> gone == {}
    ensures var m := MigrateBucket(bs, pool, ph.idx);
      && Inv(hash, ph.(idx := ph.idx + 1), m.bs, m.pool, used, contents - gone, spots', dropped + |gone|)
      && |m.bs| == |bs| && m.pool.max == pool.max && Spare(m.pool) >= Spare(pool) - 1
  {
    hide Sound, Complete, MigrateBucket, Overflow, HasSlot;
    BucketsOf(hash, ph, bs, contents, spots);
    spots' := MigrateKeeps(hash, ph, bs, contents, spots, pool);
    if Spare(pool) > 0 && pool.max <= UINT32_MAX { SpareMeansSlot(pool); }
    NotStarved(bs, pool, ph.idx);
    hide Starved;
    if Starved(bs, pool, ph.idx) {
      StarvedEntry(hash, ph, bs, contents, spots, pool, ph.idx);
      gone := {bs[ph.idx][0].obj.key};
    } else {
      gone := {};
      assert contents - gone == contents;
    }
  }

  /** The buckets after a doubling has begun, or not. */
  ghost function Doubled(bs: Buckets, doubling: bool): Buckets {
    if doubling then bs + seq(|bs|, _ => []) else bs
  }

  /** What SET finds after the tick of a pending doubling and the start of a new one. */
  datatype Stage = Stage(bs: Buckets, pool: Pool, idx: int, disabled: bool)

  ghost function Staged(bs: Buckets, pool: Pool, idx: int, oldCap: nat, used: nat, disabled: bool, granted: bool): Stage
  {
    var m := if idx >= 0 then Ticked(bs, pool, idx, oldCap, REHASH_STEP) else Migration(bs, pool, false);
    var idx' := if idx >= 0 && idx + REHASH_STEP < oldCap then idx + REHASH_STEP else -1;
    var grow := !disabled && idx' < 0 && 5 * used > 6 * |m.bs|;
    Stage(Doubled(m.bs, grow && granted), m.pool, if grow && granted then 0 else idx', disabled || (grow && !granted))
  }

  /** The buckets and the pool after `n` has been added to bucket `b`. */
  ghost predicate Added(bs: Buckets, pool: Pool, bs': Buckets, pool': Pool, b: nat, n: Node) {
    && b < |bs| && bs' == bs[b := bs[b] + [n]]
    && (if bs[b] == [] then pool' == pool else Alloc(pool) == Some(pool'))
  }

  class Table {
    const hash: Key -> nat
    var buckets: Buckets
    var oldCap: nat
    var used: nat
    var idx: int
    var rehashDisabled: bool
    var pool: Pool

    ghost var contents: map<Key, Node>
    ghost var spots: map<Key, Spot>
    ghost var dropped: nat

    function CurrentPhase(): Phase
      reads this
    {
      Phase(|buckets|, oldCap, idx)
    }

    /** The slots refine `contents`; `used` counts it plus what migrations dropped. */
    ghost predicate Valid()
      reads this
    {
      && Inv(hash, CurrentPhase(), buckets, pool, used, contents, spots, dropped)
      && (if idx < 0 then idx == -1 && oldCap == 0 else idx < oldCap)
    }

    constructor (hash: Key -> nat, initial: nat, overflowMax: nat)
      requires overflowMax >= 16 && overflowMax >= RoundUp(MIN_BUCKETS, initial) / OVERFLOW_RATIO
      ensures Valid() && contents == map[] && dropped == 0 && idx == -1 && this.hash == hash
      ensures |buckets| >= initial && |buckets| >= MIN_BUCKETS && pool.max == overflowMax
      ensures !rehashDisabled && used == 0 && buckets == seq(RoundUp(MIN_BUCKETS, initial), _ => [])
      ensures pool.free == pool.cap == if |buckets| / OVERFLOW_RATIO < 16 then 16 else |buckets| / OVERFLOW_RATIO
    {
      var cap := RoundUp(MIN_BUCKETS, initial);
      var slots := if cap / OVERFLOW_RATIO < 16 then 16 else cap / OVERFLOW_RATIO;
      this.hash := hash;
      buckets := [] + seq(cap, _ => []);
      oldCap := 0;
      used := 0;
      idx := -1;
      rehashDisabled := false;
      pool := Pool(slots, slots, overflowMax);
      contents := map[];
      spots := map[];
      dropped := 0;
      OverflowAppend([], cap);
    }

    /** Routing: the current bucket when idle or migrated, else the old one and then the new one. */
    method Lookup(key: Key) returns (r: Option<Spot>)
      requires Valid()
      ensures r == if key in contents then Some(spots[key]) else None
      ensures r.Some? ==> At(buckets, r.value, contents[key])
    {
      var meta := Pack(hash(key));
      var newIdx := Hash56(meta) % |buckets|;
      if key in contents { KeyIsHome(hash, CurrentPhase(), buckets, contents, spots, key); }
      if idx >= 0 {
        var oldIdx := Hash56(meta) % oldCap;
        if oldIdx >= idx {
          var p := FindInChain(buckets[oldIdx], meta, key);
          if p.Some? {
            FoundHere(hash, CurrentPhase(), buckets, contents, spots, key, oldIdx, p.value);
            return Some(Spot(oldIdx, p.value));
          }
          NotHere(hash, CurrentPhase(), buckets, contents, spots, key, oldIdx);
        }
      }
      var p := FindInChain(buckets[newIdx], meta, key);
      if p.Some? {
        FoundHere(hash, CurrentPhase(), buckets, contents, spots, key, newIdx, p.value);
        return Some(Spot(newIdx, p.value));
      }
      NotHere(hash, CurrentPhase(), buckets, contents, spots, key, newIdx);
      return None;
    }

    /** The state between two buckets of a tick: as `Valid`, but the last bucket may be done. */
    ghost predicate Migrating()
      reads this
    {
      && Inv(hash, CurrentPhase(), buckets, pool, used, contents, spots, dropped)
      && 0 <= idx <= oldCap
    }

    /** Moves the primary entry and then the chain of bucket `idx` to their new buckets. */
    method MoveEntries()
      requires 0 <= idx < |buckets|
      modifies this`buckets, this`pool
      ensures var m := MigrateBucket(old(buckets), old(pool), idx);
        buckets == m.bs && pool == m.pool
    {
      var i: nat := idx;
      if buckets[i] != [] {
        var chain := buckets[i][1..];
        ghost var first := MovePrimary(buckets, pool, i);
        var n := buckets[i][0];
        var t := Target(buckets, n);
        MovePrimaryAppends(buckets, pool, i);
        if t == i {
          buckets := buckets[i := [n]];
        } else {
          var slot := Alloc(pool);
          if buckets[t] == [] {
            buckets := buckets[i := []][t := [n]];
          } else if slot.None? {
            buckets := buckets[i := []];
          } else {
            buckets := buckets[i := []][t := buckets[t] + [n]];
            pool := slot.value;
          }
        }
        ghost var all := chain;
        while chain != []
          invariant buckets != []
          invariant MoveChain(first.bs, first.pool, all) == MoveChain(buckets, pool, chain)
        {
          t := Target(buckets, chain[0]);
          if buckets[t] == [] {
            pool := pool.(free := pool.free + 1);
          }
          buckets := buckets[t := buckets[t] + [chain[0]]];
          chain := chain[1..];
        }
      }
    }

    /** Migrates one bucket; an entry is forgotten in the starved branch and in no other. */
    method MigrateNext() returns (ghost gone: set<Key>)
      requires Migrating() && idx < oldCap
      modifies this`buckets, this`pool, this`idx, this`contents, this`spots, this`dropped
      ensures Migrating() && idx == old(idx) + 1
      ensures |buckets| == old(|buckets|) && pool.max == old(pool.max) && Spare(pool) >= old(Spare(pool)) - 1
      ensures gone == old(Doomed(buckets, pool, idx)) && 0 <= old(idx) < old(|buckets|)
      ensures var m := MigrateBucket(old(buckets), old(pool), old(idx)); buckets == m.bs && pool == m.pool
      ensures old(Spare(pool)) > 0 && pool.max <= UINT32_MAX ==> gone == {}
      ensures Forgot(old(contents), contents, gone) && dropped == old(dropped) + |gone|
    {
      hide Inv, Doomed, MigrateBucket, HasSlot;
      ghost var spots', forgotten := MigrateInv(hash, CurrentPhase(), buckets, pool, used, contents, spots, dropped);
      MoveEntries();
      gone := forgotten;
      idx := idx + 1;
      contents, spots, dropped := contents - gone, spots', dropped + |gone|;
    }

    /** Migrates up to `REHASH_STEP` buckets. */
    method MigrateSome() returns (ghost gone: set<Key>)
      requires Migrating()
      modifies this`buckets, this`pool, this`idx, this`contents, this`spots, this`dropped
      ensures Migrating() && |buckets| == old(|buckets|) && pool.max == old(pool.max)
      ensures Forgot(old(contents), contents, gone) && dropped == old(dropped) + |gone|
      ensures old(Spare(pool)) >= REHASH_STEP && pool.max <= UINT32_MAX ==> gone == {}
      ensures gone == old(TickDooms(buckets, pool, idx, oldCap, REHASH_STEP))
      ensures var m := old(Ticked(buckets, pool, idx, oldCap, REHASH_STEP)); buckets == m.bs && pool == m.pool
      ensures idx == if old(idx) + REHASH_STEP < oldCap then old(idx) + REHASH_STEP else oldCap
    {
      hide Inv, Doomed, HasSlot, Forgot, MigrateBucket, TickDooms, DoomsLeft, Ticked;
      gone := {};
      var step := 0;
      ghost var dooms := TickDooms(buckets, pool, idx, oldCap, REHASH_STEP);
      DoomsBegin(buckets, pool, idx, oldCap, REHASH_STEP);
      ForgotNothing(contents);
      while step < REHASH_STEP && idx < oldCap
        invariant step <= REHASH_STEP && idx == old(idx) + step && Migrating()
        invariant |buckets| == old(|buckets|) && pool.max == old(pool.max)
        invariant Forgot(old(contents), contents, gone) && dropped == old(dropped) + |gone|
        invariant Spare(pool) >= old(Spare(pool)) - step
        invariant DoomsLeft(dooms, gone, buckets, pool, idx, oldCap, REHASH_STEP - step)
        invariant Ticked(buckets, pool, idx, oldCap, REHASH_STEP - step)
                  == old(Ticked(buckets, pool, idx, oldCap, REHASH_STEP))
        invariant old(Spare(pool)) >= REHASH_STEP && pool.max <= UINT32_MAX ==> gone == {}
      {
        ghost var before, bs, supply := contents, buckets, pool;
        ghost var more := MigrateNext();
        DoomsStep(dooms, gone, bs, supply, idx - 1, oldCap, REHASH_STEP - step);
        TickedStep(bs, supply, idx - 1, oldCap, REHASH_STEP - step);
        ForgotTwice(old(contents), before, contents, gone, more);
        gone := gone + more;
        step := step + 1;
      }
      DoomsDone(dooms, gone, buckets, pool, idx, oldCap, REHASH_STEP - step);
      TickedDone(buckets, pool, idx, oldCap, REHASH_STEP - step);
    }

    /**
     * One rehash tick. It forgets exactly the primary entries of the buckets that are starved when
     * their turn comes, and none whenever the pool can still supply a slot for each bucket the tick
     * may migrate.
     */
    method Tick() returns (ghost gone: set<Key>)
      requires Valid() && idx >= 0
      modifies this`buckets, this`pool, this`oldCap, this`idx, this`contents, this`spots, this`dropped
      ensures Valid() && |buckets| == old(|buckets|) && pool.max == old(pool.max)
      ensures Forgot(old(contents), contents, gone) && dropped == old(dropped) + |gone|
      ensures old(Spare(pool)) >= REHASH_STEP && pool.max <= UINT32_MAX ==> gone == {}
      ensures gone == old(TickDooms(buckets, pool, idx, oldCap, REHASH_STEP))
      ensures var m := old(Ticked(buckets, pool, idx, oldCap, REHASH_STEP)); buckets == m.bs && pool == m.pool
      ensures idx == if old(idx) + REHASH_STEP < old(oldCap) then old(idx) + REHASH_STEP else -1
    {
      hide Refines, Conserved, Forgot, TickDooms, Ticked;
      gone := MigrateSome();
      if idx >= oldCap {
        RefinesDone(hash, CurrentPhase(), buckets, contents, spots);
        oldCap, idx := 0, -1;
      }
    }

    /** Begins a doubling; `granted` is whether the arena could be extended. */
    method StartRehash(granted: bool)
      requires Valid() && idx < 0
      modifies this`buckets, this`oldCap, this`idx, this`rehashDisabled
      ensures Valid()
      ensures if granted then idx == 0 && oldCap == old(|buckets|) && |buckets| == 2 * old(|buckets|)
              else idx == -1 && rehashDisabled && buckets == old(buckets)
      ensures granted ==> buckets == Doubled(old(buckets), true) && rehashDisabled == old(rehashDisabled)
    {
      if !granted {
        rehashDisabled := true;
        return;
      }
      hide Inv;
      GrowInv(hash, buckets, pool, used, contents, spots, dropped);
      oldCap := |buckets|;
      buckets := buckets + seq(|buckets|, _ => []);
      idx := 0;
    }

    /** Adds an entry at the end of bucket `b`; `false` if it needs an overflow slot and none is left. */
    method Append(b: nat, n: Node) returns (ok: bool)
      requires Valid() && b < |buckets| && n.obj.key !in contents
      requires NodeOk(hash, CurrentPhase(), n, b)
      modifies this`buckets, this`pool, this`contents, this`spots, this`used
      ensures Valid() && pool.max == old(pool.max)
      ensures ok <==> old(buckets[b] == [] || HasSlot(pool))
      ensures contents == if ok then old(contents)[n.obj.key := n] else old(contents)
      ensures if ok then Added(old(buckets), old(pool), buckets, pool, b, n) && used == old(used) + 1
              else buckets == old(buckets) && pool == old(pool) && used == old(used)
    {
      hide Inv;
      var supply := pool;
      if buckets[b] != [] {
        var slot := Alloc(pool);
        if slot.None? {
          return false;
        }
        supply := slot.value;
      }
      AppendInv(hash, CurrentPhase(), buckets, pool, used, contents, spots, dropped, b, n, supply);
      contents, spots := contents[n.obj.key := n], spots[n.obj.key := Spot(b, |buckets[b]|)];
      buckets, pool, used := buckets[b := buckets[b] + [n]], supply, used + 1;
      return true;
    }

    /** Overwrites the node at `at` by one of the same key. */
    method Overwrite(at: Spot, n: Node)
      requires Valid() && n.obj.key in contents && At(buckets, at, contents[n.obj.key])
      requires ClearLock(n.meta) == Pack(hash(n.obj.key))
      modifies this`buckets, this`contents
      ensures Valid() && contents == old(contents)[n.obj.key := n]
    {
      hide Inv;
      OverwriteInv(hash, CurrentPhase(), buckets, pool, used, contents, spots, dropped, at, n);
      contents := contents[n.obj.key := n];
      buckets := buckets[at.b := buckets[at.b][at.p := n]];
    }

    /** Takes the entry at `at` out; the slot it frees goes back to the pool. */
    method Unlink(at: Spot, ghost n: Node)
      requires Valid() && At(buckets, at, n)
      modifies this`buckets, this`pool, this`contents, this`spots, this`used
      ensures Valid() && n.obj.key in old(contents) && contents == old(contents) - {n.obj.key}
      ensures pool.max == old(pool.max) && Spare(pool) >= old(Spare(pool))
    {
      hide Inv;
      UnlinkInv(hash, CurrentPhase(), buckets, pool, used, contents, spots, dropped, at, n);
      ghost var k := n.obj.key;
      contents, spots := contents - {k}, Shifted(spots, k, at);
      pool, used := Returned(buckets, pool, at.b), used - 1;
      buckets := buckets[at.b := Without(buckets[at.b], at.p)];
    }

    /** The map update that `mode` allows. A replaced entry loses its lock bit. */
    method Store(obj: Obj, expire: nat, mode: PutMode) returns (r: PutResult)
      requires Valid()
      modifies this`buckets, this`pool, this`contents, this`spots, this`used
      ensures Valid() && pool.max == old(pool.max)
      ensures r == Refused <==> if obj.key in old(contents) then mode == IfAbsent else mode == IfPresent
      ensures r.Replaced? <==> obj.key in old(contents) && mode != IfAbsent
      ensures r.Replaced? ==> r.prior == old(contents)[obj.key].obj
      ensures r.NoMemory? ==> !HasSlot(pool)
      ensures contents == if r.Inserted? || r.Replaced?
                          then old(contents)[obj.key := Node(Pack(hash(obj.key)), expire, obj)] else old(contents)
      ensures |old(buckets)| > 0
      ensures var b := Hash56(Pack(hash(obj.key))) % |old(buckets)|;
        && (r.Inserted? <==> && obj.key !in old(contents) && mode != IfPresent
                             && (old(buckets)[b] == [] || HasSlot(old(pool))))
        && (r.Inserted? ==> Added(old(buckets), old(pool), buckets, pool, b, Node(Pack(hash(obj.key)), expire, obj)))
        && used == old(used) + if r.Inserted? then 1 else 0
    {
      var meta := Pack(hash(obj.key));
      var found := Lookup(obj.key);
      assert PhaseOk(CurrentPhase()) && |buckets| > 0;
      hide Inv, HasSlot, Added;
      if found.Some? {
        if mode == IfAbsent {
          return Refused;
        }
        var prior := buckets[found.value.b][found.value.p].obj;
        Overwrite(found.value, Node(meta, expire, obj));
        return Replaced(prior);
      }
      if mode == IfPresent {
        return Refused;
      }
      var ok := Append(Hash56(meta) % |buckets|, Node(meta, expire, obj));
      return if ok then Inserted else NoMemory;
    }

    /** SET. A pending doubling advances first and may forget the entries in `gone`. */
    method Put(obj: Obj, expire: nat, mode: PutMode, granted: bool)
      returns (r: PutResult, ghost before: map<Key, Node>, ghost gone: set<Key>)
      requires Valid()
      modifies this
      ensures Valid() && pool.max == old(pool.max)
      ensures Forgot(old(contents), before, gone)
      ensures old(idx) < 0 || (old(Spare(pool)) >= REHASH_STEP && pool.max <= UINT32_MAX) ==> gone == {}
      ensures r == Refused <==> if obj.key in before then mode == IfAbsent else mode == IfPresent
      ensures r.Replaced? <==> obj.key in before && mode != IfAbsent
      ensures r.Replaced? ==> r.prior == before[obj.key].obj
      ensures r.NoMemory? ==> !HasSlot(pool)
      ensures contents == if r.Inserted? || r.Replaced?
                          then before[obj.key := Node(Pack(hash(obj.key)), expire, obj)] else before
      ensures old(idx) >= 0 ==> gone == old(TickDooms(buckets, pool, idx, oldCap, REHASH_STEP))
      ensures var st := old(Staged(buckets, pool, idx, oldCap, used, rehashDisabled, granted));
        && idx == st.idx && rehashDisabled == st.disabled && |st.bs| > 0
        && var b := Hash56(Pack(hash(obj.key))) % |st.bs|;
        && (r.Inserted? <==> obj.key !in before && mode != IfPresent && (st.bs[b] == [] || HasSlot(st.pool)))
        && (r.Inserted? ==> Added(st.bs, st.pool, buckets, pool, b, Node(Pack(hash(obj.key)), expire, obj)))
        && used == old(used) + if r.Inserted? then 1 else 0
    {
      hide Inv, HasSlot, Forgot, TickDooms, Ticked, Added;
      gone := {};
      ForgotNothing(contents);
      if idx >= 0 {
        gone := Tick();
      }
      before := contents;
      if !rehashDisabled && idx < 0 && 5 * used > 6 * |buckets| {
        StartRehash(granted);
      }
      r := Store(obj, expire, mode);
    }

    /** Reads treat an expired entry as absent, and leave it in place. */
    method Get(key: Key, now: nat) returns (r: Option<Obj>)
      requires Valid()
      ensures key !in contents ==> r.None?
      ensures key in contents && 0 < contents[key].expire <= now ==> r.None?
      ensures key in contents && (contents[key].expire == 0 || now < contents[key].expire) ==>
        r == Some(contents[key].obj)
    {
      var found := Lookup(key);
      if found.None? {
        return None;
      }
      var n := buckets[found.value.b][found.value.p];
      return if n.expire != 0 && now != 0 && now >= n.expire then None else Some(n.obj);
    }

    /** A read that removes an expired entry, unless a transaction has it locked. */
    method GetLazy(key: Key, now: nat) returns (r: Option<Obj>, expired: Option<Obj>)
      requires Valid()
      modifies this`buckets, this`pool, this`contents, this`spots, this`used
      ensures Valid()
      ensures var remove := key in old(contents) && 0 < old(contents)[key].expire <= now
                  && !IsLocked(old(contents)[key].meta);
        && contents == (if remove then old(contents) - {key} else old(contents))
        && expired == (if remove then Some(old(contents)[key].obj) else None)
        && r == if key in contents then Some(contents[key].obj) else None
    {
      hide Inv;
      var found := Lookup(key);
      if found.None? {
        return None, None;
      }
      var n := buckets[found.value.b][found.value.p];
      assert n.obj.key == key by { KeyOf(key); }
      if n.expire == 0 || now == 0 || now < n.expire || IsLocked(n.meta) {
        return Some(n.obj), None;
      }
      Unlink(found.value, n);
      return None, Some(n.obj);
    }

    lemma KeyOf(key: Key)
      requires Valid() && key in contents
      ensures contents[key].obj.key == key
      ensures ClearLock(contents[key].meta) == Pack(hash(key))
    {
      KeyIsHome(hash, CurrentPhase(), buckets, contents, spots, key);
    }

    method SetLockStatus(key: Key, locked: bool) returns (ok: bool)
      requires Valid()
      modifies this`buckets, this`contents
      ensures Valid() && ok == (key in old(contents)) && contents.Keys == old(contents.Keys)
      ensures ok ==> IsLocked(contents[key].meta) == locked
      ensures ok ==> contents[key].obj == old(contents)[key].obj && contents[key].expire == old(contents)[key].expire
      ensures forall k :: k in contents && k != key ==> contents[k] == old(contents)[k]
    {
      hide Inv;
      var found := Lookup(key);
      if found.None? {
        return false;
      }
      KeyOf(key);
      var n := buckets[found.value.b][found.value.p];
      LockBitIsInvisible(n.meta);
      Overwrite(found.value, n.(meta := if locked then SetLock(n.meta) else ClearLock(n.meta)));
      assert contents.Keys == old(contents.Keys);
      return true;
    }

    method LockStatus(key: Key) returns (locked: bool)
      requires Valid()
      ensures locked <==> key in contents && IsLocked(contents[key].meta)
    {
      var found := Lookup(key);
      return found.Some? && IsLocked(buckets[found.value.b][found.value.p].meta);
    }

    method Take(key: Key) returns (r: Option<Obj>)
      requires Valid()
      modifies this`buckets, this`pool, this`contents, this`spots, this`used
      ensures Valid() && contents == old(contents) - {key}
      ensures r == if key in old(contents) then Some(old(contents)[key].obj) else None
    {
      hide Inv;
      var found := Lookup(key);
      if found.None? {
        assert contents - {key} == contents;
        return None;
      }
      KeyOf(key);
      var n := buckets[found.value.b][found.value.p];
      Unlink(found.value, n);
      return Some(n.obj);
    }

    /** Takes the key only if it still holds `expected`, an object of that key, and is not locked. */
    method TakeIfUnlocked(key: Key, expected: Obj) returns (r: Option<Obj>, locked: bool)
      requires Valid()
      modifies this`buckets, this`pool, this`contents, this`spots, this`used
      ensures Valid()
      ensures var same := key in old(contents) && old(contents)[key].obj == expected;
        && locked == (same && IsLocked(old(contents)[key].meta))
        && r == (if same && !locked then Some(expected) else None)
        && contents == if same && !locked then old(contents) - {key} else old(contents)
    {
      hide Inv;
      var found := Lookup(key);
      if found.None? {
        return None, false;
      }
      KeyOf(key);
      var n := buckets[found.value.b][found.value.p];
      if n.obj != expected {
        return None, false;
      }
      if IsLocked(n.meta) {
        return None, true;
      }
      Unlink(found.value, n);
      return Some(n.obj), false;
    }
  }
}
