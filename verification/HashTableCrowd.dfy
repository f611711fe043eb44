/**
 * How a rehash tick forgets a key: a table of sixteen buckets whose overflow arena has room for
 * sixteen slots. Twenty keys in four buckets use them all; the twenty-first starts the doubling and
 * takes the new bucket of the first key; the next SET migrates the first key and loses it.
 */
module HashTableCrowd {
  import opened Objects
  import opened Options
  import opened HashTable
  import opened HashTableOps

  function CrowdKey(j: nat): (k: Key)
    ensures |k| == j + 1
  {
    seq(j + 1, _ => 'b')
  }

  /** Keys 0 and 20 belong to bucket 16 of a table of 32, the others to buckets 0 to 3. */
  function Place(j: int): (b: nat)
    ensures b <= 16
  {
    if j == 0 || j == 20 then 16 else j % 4
  }

  function CrowdHash(k: Key): nat {
    256 * Place(|k| - 1)
  }

  function CrowdNode(j: nat): Node {
    Node(Pack(CrowdHash(CrowdKey(j))), 0, Obj(CrowdKey(j), 0))
  }

  lemma CrowdPlace(j: nat)
    ensures Hash56(CrowdNode(j).meta) == Place(j)
  {
  }

  /** Entries of bucket `b` after the first `i` keys. */
  function Filling(i: nat, b: nat): nat {
    if b < 4 && b < i then (i - b + 3) / 4 else 0
  }

  predicate Filled(bs: Buckets, i: nat) {
    && |bs| == 16
    && (forall b: nat :: b < 16 ==> |bs[b]| == Filling(i, b))
    && (i > 0 ==> bs[0] != [] && bs[0][0] == CrowdNode(0))
  }

  lemma FilledStep(bs: Buckets, i: nat, n: Node)
    requires Filled(bs, i) && i < 20 && (i == 0 ==> n == CrowdNode(0))
    ensures Place(i) % 16 == i % 4 && Filled(bs[i % 4 := bs[i % 4] + [n]], i + 1)
  {
  }

  /** The free slots of the pool after the first `i` keys. */
  function FreeAfter(i: nat): nat
    requires i <= 20
  {
    if i <= 4 then 16 else 20 - i
  }

  lemma PoolStep(bs: Buckets, i: nat)
    requires Filled(bs, i) && i < 20
    ensures bs[i % 4] == [] <==> i < 4
    ensures i >= 4 ==> Alloc(Pool(FreeAfter(i), 16, 16)) == Some(Pool(FreeAfter(i + 1), 16, 16))
  {
  }

  /** Puts the first twenty keys into a new table. */
  method Fill() returns (t: Table)
    ensures fresh(t) && t.Valid() && t.hash == CrowdHash && !t.rehashDisabled && t.idx == -1
    ensures Filled(t.buckets, 20) && t.used == 20 && t.pool == Pool(0, 16, 16)
    ensures forall k :: k in t.contents <==> exists j: nat :: j < 20 && k == CrowdKey(j)
  {
    hide Inv, Added, HasSlot, Doomed, Filled, Place;
    t := new Table(CrowdHash, 16, 16);
    NoneFilled(t.buckets);
    var i := 0;
    while i < 20
      invariant i <= 20 && fresh(t) && t.Valid() && t.hash == CrowdHash && !t.rehashDisabled && t.idx == -1
      invariant Filled(t.buckets, i) && t.used == i && t.pool == Pool(FreeAfter(i), 16, 16)
      invariant forall k :: k in t.contents <==> exists j: nat :: j < i && k == CrowdKey(j)
    {
      ghost var bs := t.buckets;
      assert CrowdKey(i) !in t.contents;
      RoomFor(bs, i);
      var r, before, gone := t.Put(Obj(CrowdKey(i), 0), 0, Always, true);
      PutOne(bs, t.buckets, t.pool, i);
      i := i + 1;
    }
  }

  lemma RoomFor(bs: Buckets, i: nat)
    requires Filled(bs, i) && i < 20
    ensures |bs| == 16 && Hash56(CrowdNode(i).meta) % 16 == i % 4
    ensures bs[i % 4] == [] || HasSlot(Pool(FreeAfter(i), 16, 16))
  {
    CrowdPlace(i);
    FilledStep(bs, i, CrowdNode(i));
    PoolStep(bs, i);
  }

  lemma PutOne(bs: Buckets, bs': Buckets, pool': Pool, i: nat)
    requires Filled(bs, i) && i < 20 && Added(bs, Pool(FreeAfter(i), 16, 16), bs', pool', i % 4, CrowdNode(i))
    ensures Filled(bs', i + 1) && pool' == Pool(FreeAfter(i + 1), 16, 16)
  {
    FilledStep(bs, i, CrowdNode(i));
    PoolStep(bs, i);
  }

  lemma NoneFilled(bs: Buckets)
    requires bs == seq(16, _ => [])
    ensures Filled(bs, 0)
  {
  }

  lemma Crowded(bs: Buckets, bs': Buckets, pool: Pool)
    requires Filled(bs, 20) && Added(Doubled(bs, true), Pool(0, 16, 16), bs', pool, 16, CrowdNode(20))
    ensures pool == Pool(0, 16, 16) && CrowdKey(0) in Doomed(bs', pool, 0)
  {
    CrowdPlace(0);
    assert Doubled(bs, true)[16] == [] && bs'[0] == bs[0] && bs'[0][0] == CrowdNode(0);
    assert Target(bs', bs'[0][0]) == 16;
  }

  /** Puts twenty-one keys into a new table, all of them inserted and none deleted. */
  method Crowd() returns (t: Table)
    ensures fresh(t) && t.Valid() && forall j: nat :: j < 21 ==> CrowdKey(j) in t.contents
    ensures t.idx >= 0 && CrowdKey(0) in Doomed(t.buckets, t.pool, t.idx)
  {
    hide Inv, Added, HasSlot, Doomed, Filled, Place, Doubled;
    t := Fill();
    ghost var bs := t.buckets;
    SixteenBuckets(bs);
    var r, before, gone := t.Put(Obj(CrowdKey(20), 0), 0, Always, true);
    Crowded(bs, t.buckets, t.pool);
  }

  /**
   * A rehash tick may forget: in a table such as `Crowd` builds, where the next bucket is starved,
   * setting any other key takes the key of its primary entry out.
   */
  method TickMayForget(t: Table, o: Obj, key: Key) returns (r: PutResult)
    requires t.Valid() && t.idx >= 0 && key in Doomed(t.buckets, t.pool, t.idx) && o.key != key
    modifies t
    ensures t.Valid() && key in old(t.contents) && key !in t.contents
    ensures !r.NoMemory? ==> o.key in t.contents && t.contents[o.key].obj == o
  {
    hide Inv, HasSlot, Doomed, MigrateBucket;
    FirstDoomed(t.buckets, t.pool, t.idx, t.oldCap);
    ghost var before, gone;
    r, before, gone := t.Put(o, 0, Always, true);
  }

  lemma FirstDoomed(bs: Buckets, pool: Pool, i: int, end: int)
    requires i < end
    ensures Doomed(bs, pool, i) <= TickDooms(bs, pool, i, end, REHASH_STEP)
  {
    hide MigrateBucket;
  }

  lemma SixteenBuckets(bs: Buckets)
    requires Filled(bs, 20)
    ensures |bs| == 16 && |Doubled(bs, true)| == 32 && Doubled(bs, true)[16] == []
    ensures Hash56(CrowdNode(20).meta) % 32 == 16
  {
    CrowdPlace(20);
  }
}
