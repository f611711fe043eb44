/**
 * The chained hash table with in-place incremental doubling. A bucket is the sequence of its
 * primary slot and overflow chain; overflow slots come from a pool with a free list. The table
 * refines a finite map at every stage of a doubling.
 */
module HashTable {
  import opened Arith
  import opened Objects
  import opened Options

  // ---------------------------------------------------------------- meta word

  const LOCK_BIT: nat := 128
  const STRING_TAG: nat := 0

  /** Upper 56 bits of the hash, then the type tag; zero is reserved for empty slots. */
  function Pack(h: nat): (m: nat)
    ensures m != 0 && !IsLocked(m)
  {
    var m := (h / 256) * 256 + STRING_TAG;
    if m == 0 then 1 else m
  }

  predicate IsLocked(m: nat) {
    (m / LOCK_BIT) % 2 == 1
  }

  function SetLock(m: nat): nat {
    if IsLocked(m) then m else m + LOCK_BIT
  }

  function ClearLock(m: nat): nat {
    if IsLocked(m) then m - LOCK_BIT else m
  }

  /** Bucket placement uses the bits above the tag byte. */
  function Hash56(m: nat): nat {
    m / 256
  }

  /** The lock bit changes neither what a slot matches nor where it belongs. */
  lemma LockBitIsInvisible(m: nat)
    ensures Hash56(SetLock(m)) == Hash56(m) == Hash56(ClearLock(m))
    ensures ClearLock(SetLock(m)) == ClearLock(m)
    ensures IsLocked(SetLock(m)) && !IsLocked(ClearLock(m))
  {
    var q, r := m / 256, m % 256;
    assert m == 256 * q + r;
    assert m / LOCK_BIT == 2 * q + r / LOCK_BIT;
    if IsLocked(m) {
      assert r >= LOCK_BIT;
      assert (m - LOCK_BIT) / LOCK_BIT == 2 * q;
    } else {
      assert r < LOCK_BIT;
      assert (m + LOCK_BIT) / LOCK_BIT == 2 * q + 1;
    }
  }

  // ---------------------------------------------------------------- buckets

  datatype Node = Node(meta: nat, expire: nat, obj: Obj)

  type Buckets = seq<seq<Node>>

  function OverflowOf(chain: seq<Node>): nat {
    if chain == [] then 0 else |chain| - 1
  }

  /** Overflow slots in use. */
  function Overflow(bs: Buckets): nat {
    if bs == [] then 0 else OverflowOf(bs[0]) + Overflow(bs[1..])
  }

  lemma {:induction false} OverflowUpdate(bs: Buckets, i: nat, chain: seq<Node>)
    requires i < |bs|
    ensures Overflow(bs[i := chain]) + OverflowOf(bs[i]) == Overflow(bs) + OverflowOf(chain)
  {
    if i == 0 {
      assert bs[i := chain][1..] == bs[1..];
    } else {
      OverflowUpdate(bs[1..], i - 1, chain);
      assert bs[i := chain][1..] == bs[1..][i - 1 := chain];
    }
  }

  lemma {:induction false} OverflowAppend(bs: Buckets, n: nat)
    ensures Overflow(bs + seq(n, _ => [])) == Overflow(bs)
    decreases |bs|, n
  {
    var empty: Buckets := seq(n, _ => []);
    if bs != [] {
      OverflowAppend(bs[1..], n);
      assert (bs + empty)[1..] == bs[1..] + empty;
    } else if n > 0 {
      var rest: Buckets := seq(n - 1, _ => []);
      assert (bs + empty)[1..] == [] + rest;
      OverflowAppend([], n - 1);
    }
  }

  /** The shape of a table: sizes, and how far a doubling has come (`idx == -1` when idle). */
  datatype Phase = Phase(cap: nat, oldCap: nat, idx: int)

  predicate PhaseOk(ph: Phase) {
    && ph.cap > 0
    && (ph.idx < 0 ==> ph.idx == -1)
    && (ph.idx >= 0 ==> ph.oldCap > 0 && ph.cap == 2 * ph.oldCap && ph.idx <= ph.oldCap)
  }

  /** Where an entry with hash `h` may be: its new bucket, or its old one if not yet migrated. */
  predicate Home(ph: Phase, h: nat, b: nat)
    requires PhaseOk(ph)
  {
    b == h % ph.cap || (ph.idx >= 0 && b == h % ph.oldCap && ph.idx <= b)
  }

  /** Doubling sends an entry to the same index or to the one `oldCap` above. */
  lemma DoubledIndex(h: nat, oldCap: nat)
    requires oldCap > 0
    ensures h % (2 * oldCap) == h % oldCap || h % (2 * oldCap) == h % oldCap + oldCap
  {
    var q := h / oldCap;
    var r := h % oldCap;
    assert h == q * oldCap + r;
    if q % 2 == 0 {
      assert h == (q / 2) * (2 * oldCap) + r;
      ModUnique(h, 2 * oldCap, q / 2, r);
    } else {
      assert h == (q / 2) * (2 * oldCap) + (r + oldCap) by {
        assert q == 2 * (q / 2) + 1;
      }
      ModUnique(h, 2 * oldCap, q / 2, r + oldCap);
    }
  }

  // ---------------------------------------------------------------- refinement relation

  /** Bucket and place in its chain. */
  datatype Spot = Spot(b: nat, p: nat)

  predicate At(bs: Buckets, s: Spot, n: Node) {
    s.b < |bs| && s.p < |bs[s.b]| && bs[s.b][s.p] == n
  }

  predicate NodeOk(hash: Key -> nat, ph: Phase, n: Node, b: nat)
    requires PhaseOk(ph)
  {
    ClearLock(n.meta) == Pack(hash(n.obj.key)) && Home(ph, Hash56(n.meta), b)
  }

  /** A slot's node is the map's, its recorded spot is this slot, and this bucket is a home of it. */
  ghost predicate SlotOk(hash: Key -> nat, ph: Phase, contents: map<Key, Node>, spots: map<Key, Spot>,
                         at: Spot, n: Node)
    requires PhaseOk(ph)
  {
    && n.obj.key in contents && contents[n.obj.key] == n
    && n.obj.key in spots && spots[n.obj.key] == at
    && NodeOk(hash, ph, n, at.b)
  }

  ghost predicate Sound(hash: Key -> nat, ph: Phase, bs: Buckets, contents: map<Key, Node>, spots: map<Key, Spot>)
    requires PhaseOk(ph)
  {
    forall b, p :: 0 <= b < |bs| && 0 <= p < |bs[b]| ==> SlotOk(hash, ph, contents, spots, Spot(b, p), bs[b][p])
  }

  ghost predicate Complete(bs: Buckets, contents: map<Key, Node>, spots: map<Key, Spot>) {
    forall k :: k in contents ==> contents[k].obj.key == k && k in spots && At(bs, spots[k], contents[k])
  }

  ghost predicate Refines(hash: Key -> nat, ph: Phase, bs: Buckets, contents: map<Key, Node>,
                          spots: map<Key, Spot>) {
    && PhaseOk(ph) && |bs| == ph.cap
    && Sound(hash, ph, bs, contents, spots)
    && Complete(bs, contents, spots)
  }

  lemma RefinesAppend(hash: Key -> nat, ph: Phase, bs: Buckets, contents: map<Key, Node>, spots: map<Key, Spot>,
                      b: nat, n: Node)
    requires Refines(hash, ph, bs, contents, spots) && b < |bs| && n.obj.key !in contents
    requires NodeOk(hash, ph, n, b)
    ensures Refines(hash, ph, bs[b := bs[b] + [n]], contents[n.obj.key := n],
                    spots[n.obj.key := Spot(b, |bs[b]|)])
  {
    var bs': Buckets := bs[b := bs[b] + [n]];
    forall b', p | 0 <= b' < |bs'| && 0 <= p < |bs'[b']|
      ensures if b' == b && p == |bs[b]| then bs'[b'][p] == n
              else p < |bs[b']| && bs'[b'][p] == bs[b'][p] && bs[b'][p].obj.key != n.obj.key
    {
      if p < |bs[b']| { assert bs[b'][p].obj.key in contents; }
    }
  }

  function Without(chain: seq<Node>, p: nat): seq<Node>
    requires p < |chain|
  {
    chain[..p] + chain[p + 1..]
  }

  /** Spots after the node at `at` is taken out: those behind it in the chain move up. */
  ghost function Shifted(spots: map<Key, Spot>, key: Key, at: Spot): map<Key, Spot> {
    map k | k in spots && k != key ::
      if spots[k].b == at.b && spots[k].p > at.p then Spot(at.b, spots[k].p - 1) else spots[k]
  }

  lemma RemoveSlot(hash: Key -> nat, ph: Phase, bs: Buckets, contents: map<Key, Node>, spots: map<Key, Spot>,
                   at: Spot, n: Node, b: nat, p: nat)
    requires PhaseOk(ph) && Sound(hash, ph, bs, contents, spots) && At(bs, at, n)
    requires b < |bs| && p < |bs[at.b := Without(bs[at.b], at.p)][b]|
    ensures SlotOk(hash, ph, contents - {n.obj.key}, Shifted(spots, n.obj.key, at), Spot(b, p),
                   bs[at.b := Without(bs[at.b], at.p)][b][p])
  {
    var p' := if b == at.b && p >= at.p then p + 1 else p;
    assert bs[at.b := Without(bs[at.b], at.p)][b][p] == bs[b][p'];
    assert SlotOk(hash, ph, contents, spots, Spot(b, p'), bs[b][p']);
    assert SlotOk(hash, ph, contents, spots, at, bs[at.b][at.p]);
  }

  lemma RemoveKey(bs: Buckets, contents: map<Key, Node>, spots: map<Key, Spot>, at: Spot, n: Node, k: Key)
    requires Complete(bs, contents, spots) && At(bs, at, n) && k in contents && k != n.obj.key
    ensures contents[k].obj.key == k && k in spots
    ensures At(bs[at.b := Without(bs[at.b], at.p)], Shifted(spots, n.obj.key, at)[k], contents[k])
  {
    assert At(bs, spots[k], contents[k]);
  }

  lemma RefinesRemove(hash: Key -> nat, ph: Phase, bs: Buckets, contents: map<Key, Node>, spots: map<Key, Spot>,
                      at: Spot, n: Node)
    requires Refines(hash, ph, bs, contents, spots) && At(bs, at, n)
    ensures Refines(hash, ph, bs[at.b := Without(bs[at.b], at.p)], contents - {n.obj.key},
                    Shifted(spots, n.obj.key, at))
  {
    var bs': Buckets := bs[at.b := Without(bs[at.b], at.p)];
    hide SlotOk, At;
    forall b, p | 0 <= b < |bs'| && 0 <= p < |bs'[b]|
      ensures SlotOk(hash, ph, contents - {n.obj.key}, Shifted(spots, n.obj.key, at), Spot(b, p), bs'[b][p])
    {
      RemoveSlot(hash, ph, bs, contents, spots, at, n, b, p);
    }
    forall k | k in contents && k != n.obj.key
      ensures contents[k].obj.key == k && k in spots
      ensures At(bs', Shifted(spots, n.obj.key, at)[k], contents[k])
    {
      RemoveKey(bs, contents, spots, at, n, k);
    }
  }

  lemma RefinesReplace(hash: Key -> nat, ph: Phase, bs: Buckets, contents: map<Key, Node>, spots: map<Key, Spot>,
                       at: Spot, n: Node)
    requires Refines(hash, ph, bs, contents, spots) && at.b < |bs| && at.p < |bs[at.b]|
    requires n.obj.key == bs[at.b][at.p].obj.key && NodeOk(hash, ph, n, at.b)
    ensures Refines(hash, ph, bs[at.b := bs[at.b][at.p := n]], contents[n.obj.key := n], spots)
  {
    var bs': Buckets := bs[at.b := bs[at.b][at.p := n]];
    forall b, p | 0 <= b < |bs'| && 0 <= p < |bs'[b]|
      ensures p < |bs[b]|
      ensures if Spot(b, p) == at then bs'[b][p] == n else bs'[b][p] == bs[b][p] && bs[b][p].obj.key != n.obj.key
    {
      assert spots[bs[b][p].obj.key] == Spot(b, p);
      assert spots[bs[at.b][at.p].obj.key] == at;
    }
    forall k | k in contents && k != n.obj.key ensures At(bs', spots[k], contents[k]) {
      assert At(bs, spots[k], contents[k]);
    }
  }

  lemma RefinesGrow(hash: Key -> nat, cap: nat, bs: Buckets, contents: map<Key, Node>, spots: map<Key, Spot>)
    requires Refines(hash, Phase(cap, 0, -1), bs, contents, spots)
    ensures Refines(hash, Phase(2 * cap, cap, 0), bs + seq(cap, _ => []), contents, spots)
  {
    var bs': Buckets := bs + seq(cap, _ => []);
    assert forall b :: 0 <= b < |bs'| ==> bs'[b] == if b < cap then bs[b] else [];
  }

  lemma RefinesDone(hash: Key -> nat, ph: Phase, bs: Buckets, contents: map<Key, Node>, spots: map<Key, Spot>)
    requires Refines(hash, ph, bs, contents, spots) && ph.idx == ph.oldCap
    ensures Refines(hash, Phase(ph.cap, 0, -1), bs, contents, spots)
  {
    forall b, p | 0 <= b < |bs| && 0 <= p < |bs[b]| ensures NodeOk(hash, Phase(ph.cap, 0, -1), bs[b][p], b) {
      assert NodeOk(hash, ph, bs[b][p], b);
    }
  }

  // ---------------------------------------------------------------- overflow pool

  /** Free overflow slots, slots carved so far, and slots the arena can ever hold. */
  datatype Pool = Pool(free: nat, cap: nat, max: nat)

  const UINT32_MAX: nat := 0xFFFF_FFFF

  function Grown(pool: Pool): nat {
    var want := if pool.cap == 0 then 16 else 2 * pool.cap;
    if want > pool.max then pool.max else want
  }

  /** An overflow slot can still be had. */
  predicate HasSlot(pool: Pool) {
    pool.free > 0 || (pool.cap < pool.max && Grown(pool) <= UINT32_MAX)
  }

  function Alloc(pool: Pool): (r: Option<Pool>)
    ensures r.Some? <==> HasSlot(pool)
    ensures r.Some? ==> r.value.max == pool.max && r.value.cap - r.value.free == pool.cap - pool.free + 1
  {
    if pool.free > 0 then Some(pool.(free := pool.free - 1))
    else if pool.cap >= pool.max || Grown(pool) > UINT32_MAX then None
    else Some(Pool(Grown(pool) - pool.cap - 1, Grown(pool), pool.max))
  }

  function Spare(pool: Pool): int {
    pool.free + pool.max - pool.cap
  }

  /** Every carved slot is free, or in a chain, or one of the `detached` ones. */
  ghost predicate Conserved(bs: Buckets, pool: Pool, detached: nat) {
    pool.cap <= pool.max && pool.free + Overflow(bs) + detached == pool.cap
  }

  // ---------------------------------------------------------------- migration of one bucket

  datatype Migration = Migration(bs: Buckets, pool: Pool, lost: bool)

  function Target(bs: Buckets, n: Node): (t: nat)
    requires bs != []
    ensures t < |bs|
  {
    Hash56(n.meta) % |bs|
  }

  /** The primary entry of bucket `i` goes to its new bucket; it is dropped if no slot can be had. */
  function MovePrimary(bs: Buckets, pool: Pool, i: nat): Migration
    requires i < |bs| && bs[i] != []
  {
    var n := bs[i][0];
    var t := Target(bs, n);
    if t == i then
      Migration(bs[i := [n]], pool, false)
    else if bs[t] == [] then
      Migration(bs[i := []][t := [n]], pool, false)
    else match Alloc(pool)
      case None => Migration(bs[i := []], pool, true)
      case Some(pool') => Migration(bs[i := []][t := bs[t] + [n]], pool', false)
  }

  /** An overflow slot moves with its entry, unless the entry becomes a primary. */
  function MoveNode(bs: Buckets, pool: Pool, n: Node): (m: Migration)
    requires bs != []
  {
    var t := Target(bs, n);
    Migration(bs[t := bs[t] + [n]], if bs[t] == [] then pool.(free := pool.free + 1) else pool, false)
  }

  function MoveChain(bs: Buckets, pool: Pool, chain: seq<Node>): (m: Migration)
    requires bs != []
    ensures |m.bs| == |bs| && !m.lost
    decreases |chain|
  {
    if chain == [] then Migration(bs, pool, false)
    else var m := MoveNode(bs, pool, chain[0]);
         MoveChain(m.bs, m.pool, chain[1..])
  }

  function MigrateBucket(bs: Buckets, pool: Pool, i: nat): (m: Migration)
    requires i < |bs|
    ensures |m.bs| == |bs|
  {
    if bs[i] == [] then Migration(bs, pool, false)
    else
      var first := MovePrimary(bs, pool, i);
      MoveChain(first.bs, first.pool, bs[i][1..]).(lost := first.lost)
  }

  /** The branch in which a tick forgets an entry. */
  predicate Starved(bs: Buckets, pool: Pool, i: nat)
    requires i < |bs|
  {
    && bs[i] != [] && Target(bs, bs[i][0]) != i && bs[Target(bs, bs[i][0])] != []
    && !HasSlot(pool)
  }

  // ---------------------------------------------------------------- what migration keeps

  ghost function KeysIn(chain: seq<Node>): set<Key> {
    set p | 0 <= p < |chain| :: chain[p].obj.key
  }

  ghost function With(contents: map<Key, Node>, chain: seq<Node>): map<Key, Node>
    decreases |chain|
  {
    if chain == [] then contents else With(contents[chain[0].obj.key := chain[0]], chain[1..])
  }

  predicate DistinctKeys(chain: seq<Node>) {
    forall i, j :: 0 <= i < j < |chain| ==> chain[i].obj.key != chain[j].obj.key
  }

  /** Taking a chain out of a map and putting it back changes nothing. */
  lemma {:induction false} WithRestores(contents: map<Key, Node>, chain: seq<Node>)
    requires DistinctKeys(chain)
    requires forall p :: 0 <= p < |chain| ==> chain[p].obj.key in contents && contents[chain[p].obj.key] == chain[p]
    ensures With(contents - KeysIn(chain), chain) == contents
    decreases |chain|
  {
    if chain != [] {
      var k := chain[0].obj.key;
      assert k !in KeysIn(chain[1..]);
      assert KeysIn(chain) == {k} + KeysIn(chain[1..]);
      assert (contents - KeysIn(chain))[k := chain[0]] == contents - KeysIn(chain[1..]);
      WithRestores(contents, chain[1..]);
    }
  }

  /** Nodes cut out of the table, waiting to be placed. */
  ghost predicate Detached(hash: Key -> nat, contents: map<Key, Node>, chain: seq<Node>) {
    && DistinctKeys(chain)
    && (forall p :: 0 <= p < |chain| ==> ClearLock(chain[p].meta) == Pack(hash(chain[p].obj.key)))
    && (forall p :: 0 <= p < |chain| ==> chain[p].obj.key !in contents)
  }

  lemma {:induction false} ChainKeeps(hash: Key -> nat, ph: Phase, bs: Buckets, contents: map<Key, Node>,
                                      spots: map<Key, Spot>, pool: Pool, chain: seq<Node>)
    returns (spots': map<Key, Spot>)
    requires Refines(hash, ph, bs, contents, spots) && Detached(hash, contents, chain)
    requires Conserved(bs, pool, |chain|)
    ensures var m := MoveChain(bs, pool, chain);
      && Refines(hash, ph, m.bs, With(contents, chain), spots')
      && Conserved(m.bs, m.pool, 0) && m.pool.max == pool.max
      && Spare(m.pool) >= Spare(pool)
    decreases |chain|
  {
    spots' := spots;
    if chain != [] {
      var n := chain[0];
      var t := Target(bs, n);
      var m := MoveNode(bs, pool, n);
      RefinesAppend(hash, ph, bs, contents, spots, t, n);
      OverflowUpdate(bs, t, bs[t] + [n]);
      hide Refines;
      spots' := ChainKeeps(hash, ph, m.bs, contents[n.obj.key := n], spots[n.obj.key := Spot(t, |bs[t]|)],
                           m.pool, chain[1..]);
    }
  }

  /** Bucket `ph.idx` has been emptied and counts as migrated. */
  lemma DetachKeeps(hash: Key -> nat, ph: Phase, bs: Buckets, contents: map<Key, Node>, spots: map<Key, Spot>)
    requires Refines(hash, ph, bs, contents, spots) && 0 <= ph.idx < ph.oldCap
    ensures var chain := bs[ph.idx];
      && Refines(hash, ph.(idx := ph.idx + 1), bs[ph.idx := []], contents - KeysIn(chain), spots)
      && Detached(hash, contents - KeysIn(chain), chain)
      && (forall p :: 0 <= p < |chain| ==> chain[p].obj.key in contents && contents[chain[p].obj.key] == chain[p])
  {
    var i, chain := ph.idx, bs[ph.idx];
    var bs': Buckets := bs[i := []];
    forall p | 0 <= p < |chain| ensures SlotOk(hash, ph, contents, spots, Spot(i, p), chain[p]) {
      assert chain[p] == bs[i][p];
    }
    forall b, p | 0 <= b < |bs'| && 0 <= p < |bs'[b]|
      ensures SlotOk(hash, ph.(idx := i + 1), contents - KeysIn(chain), spots, Spot(b, p), bs'[b][p])
    {
      assert SlotOk(hash, ph, contents, spots, Spot(b, p), bs[b][p]);
    }
    forall k | k in contents - KeysIn(chain) ensures At(bs', spots[k], contents[k]) {
      assert At(bs, spots[k], contents[k]);
    }
  }

  /** What a migration of bucket `i` may leave of the map. */
  ghost function Kept(bs: Buckets, pool: Pool, i: nat, contents: map<Key, Node>): map<Key, Node>
    requires i < |bs|
  {
    if Starved(bs, pool, i) then contents - {bs[i][0].obj.key} else contents
  }

  lemma MovePrimaryAppends(bs: Buckets, pool: Pool, i: nat)
    requires i < |bs| && bs[i] != []
    ensures var m := MovePrimary(bs, pool, i);
      var t := Target(bs, bs[i][0]);
      var bs0: Buckets := bs[i := []];
      && m.lost == Starved(bs, pool, i)
      && m.bs == if m.lost then bs0 else bs0[t := bs0[t] + [bs[i][0]]]
  {
    var bs0: Buckets := bs[i := []];
    var n := bs[i][0];
    var t := Target(bs, n);
    if t == i {
      assert bs0[t] + [n] == [n];
      assert bs0[i := [n]] == bs[i := [n]];
    } else if bs[t] == [] {
      assert bs0[t] + [n] == [n];
    }
  }

  lemma PrimaryKeeps(hash: Key -> nat, ph: Phase, bs: Buckets, contents: map<Key, Node>, spots: map<Key, Spot>,
                     pool: Pool, i: nat)
    returns (spots': map<Key, Spot>)
    requires PhaseOk(ph) && |bs| == ph.cap && i < |bs| && bs[i] != []
    requires Refines(hash, ph, bs[i := []], contents, spots) && Detached(hash, contents, bs[i])
    requires Conserved(bs[i := []], pool, |bs[i]| - 1)
    ensures var m := MovePrimary(bs, pool, i);
      && m.lost == Starved(bs, pool, i)
      && Refines(hash, ph, m.bs, if m.lost then contents else contents[bs[i][0].obj.key := bs[i][0]], spots')
      && Conserved(m.bs, m.pool, |bs[i]| - 1) && m.pool.max == pool.max && Spare(m.pool) >= Spare(pool) - 1
  {
    var bs0: Buckets := bs[i := []];
    var n := bs[i][0];
    var t := Target(bs, n);
    var m := MovePrimary(bs, pool, i);
    MovePrimaryAppends(bs, pool, i);
    if m.lost {
      spots' := spots;
    } else {
      RefinesAppend(hash, ph, bs0, contents, spots, t, n);
      OverflowUpdate(bs0, t, bs0[t] + [n]);
      spots' := spots[n.obj.key := Spot(t, |bs0[t]|)];
    }
  }

  lemma SplitChain(contents: map<Key, Node>, chain: seq<Node>, lost: bool)
    requires chain != [] && DistinctKeys(chain)
    requires forall p :: 0 <= p < |chain| ==> chain[p].obj.key in contents && contents[chain[p].obj.key] == chain[p]
    ensures var k := chain[0].obj.key;
      var kept := if lost then contents - {k} else contents;
      var outside := contents - KeysIn(chain);
      && (if lost then outside else outside[k := chain[0]]) == kept - KeysIn(chain[1..])
      && With(kept - KeysIn(chain[1..]), chain[1..]) == kept
  {
    var k := chain[0].obj.key;
    assert k !in KeysIn(chain[1..]) && KeysIn(chain) == {k} + KeysIn(chain[1..]);
    WithRestores(if lost then contents - {k} else contents, chain[1..]);
  }

  lemma RestDetached(hash: Key -> nat, contents: map<Key, Node>, chain: seq<Node>, kept: map<Key, Node>)
    requires chain != [] && Detached(hash, contents - KeysIn(chain), chain)
    ensures Detached(hash, kept - KeysIn(chain[1..]), chain[1..])
  {
    var rest := chain[1..];
    forall p | 0 <= p < |rest| ensures rest[p].obj.key in KeysIn(rest) {}
  }

  lemma PlaceKeeps(hash: Key -> nat, ph: Phase, bs: Buckets, contents: map<Key, Node>, spots: map<Key, Spot>,
                   pool: Pool, i: nat)
    returns (spots': map<Key, Spot>)
    requires PhaseOk(ph) && |bs| == ph.cap && i < |bs| && bs[i] != []
    requires Refines(hash, ph, bs[i := []], contents - KeysIn(bs[i]), spots)
    requires Detached(hash, contents - KeysIn(bs[i]), bs[i])
    requires forall p :: 0 <= p < |bs[i]| ==> bs[i][p].obj.key in contents && contents[bs[i][p].obj.key] == bs[i][p]
    requires Conserved(bs[i := []], pool, |bs[i]| - 1)
    ensures var m := MigrateBucket(bs, pool, i);
      && m.lost == Starved(bs, pool, i)
      && Refines(hash, ph, m.bs, Kept(bs, pool, i, contents), spots')
      && Conserved(m.bs, m.pool, 0) && m.pool.max == pool.max
      && Spare(m.pool) >= Spare(pool) - 1
  {
    var chain := bs[i];
    var kept := Kept(bs, pool, i, contents);
    SplitChain(contents, chain, Starved(bs, pool, i));
    RestDetached(hash, contents, chain, kept);
    hide Refines, Conserved, MovePrimary, KeysIn, With, Detached, Alloc, HasSlot;
    var first := MovePrimary(bs, pool, i);
    var spots1 := PrimaryKeeps(hash, ph, bs, contents - KeysIn(chain), spots, pool, i);
    spots' := ChainKeeps(hash, ph, first.bs, kept - KeysIn(chain[1..]), spots1, first.pool, chain[1..]);
  }

  /**
   * Migrating one bucket keeps the map, except for the primary entry in the starved branch, and
   * keeps every overflow slot accounted for.
   */
  lemma MigrateKeeps(hash: Key -> nat, ph: Phase, bs: Buckets, contents: map<Key, Node>, spots: map<Key, Spot>,
                     pool: Pool)
    returns (spots': map<Key, Spot>)
    requires Refines(hash, ph, bs, contents, spots) && 0 <= ph.idx < ph.oldCap && Conserved(bs, pool, 0)
    ensures var m := MigrateBucket(bs, pool, ph.idx);
      && m.lost == Starved(bs, pool, ph.idx)
      && Refines(hash, ph.(idx := ph.idx + 1), m.bs, Kept(bs, pool, ph.idx, contents), spots')
      && Conserved(m.bs, m.pool, 0) && m.pool.max == pool.max
      && Spare(m.pool) >= Spare(pool) - 1
  {
    var i: nat, chain := ph.idx, bs[ph.idx];
    DetachKeeps(hash, ph, bs, contents, spots);
    OverflowUpdate(bs, i, []);
    if chain == [] {
      assert contents - KeysIn(chain) == contents;
      assert bs[i := []] == bs;
      spots' := spots;
    } else {
      hide Sound, Complete, MigrateBucket, KeysIn, Detached, Starved;
      spots' := PlaceKeeps(hash, ph.(idx := i + 1), bs, contents, spots, pool, i);
    }
  }
}
