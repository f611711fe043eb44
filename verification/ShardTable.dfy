/**
 * The shard's operations on its hash table and on the map that stands for it: the same answers, and
 * the map stays the one the table shows.
 */
module ShardTable {
  import opened Objects
  import opened Options
  import H = HashTableOps
  import HashTable
  import S = ShardTtl

  /** The map that the shard sees in the table. */
  function Seen(contents: map<Key, HashTable.Node>): S.Table {
    map k | k in contents :: S.Cell(contents[k].obj, contents[k].expire, HashTable.IsLocked(contents[k].meta))
  }

  ghost predicate Joined(t: H.Table, s: S.Shard)
    reads t, s, s.ttl
  {
    t.Valid() && s.Valid() && s.table == Seen(t.contents)
  }

  /** GET: both find the key missing, or both find the same object, and both drop it if it has expired. */
  method Get(t: H.Table, s: S.Shard, key: Key, now: nat) returns (r: Option<Obj>)
    requires Joined(t, s)
    modifies t, s, s.ttl
    ensures Joined(t, s)
    ensures r.Some? <==> key in old(t.contents) && var n := old(t.contents)[key];
      n.expire == 0 || now < n.expire || HashTable.IsLocked(n.meta)
    ensures r.Some? ==> r.value == old(t.contents)[key].obj
  {
    hide H.Inv, S.Coherent, HashTable.IsLocked;
    var fromTable, expired := t.GetLazy(key, now);
    r := s.Get(key, now);
    assert r == fromTable;
  }

  /** SET, unless the table forgets keys on the way or has no memory left: both store, or both refuse. */
  method Set(t: H.Table, s: S.Shard, o: Obj, expire: nat, mode: PutMode, granted: bool)
    returns (ok: bool, ghost gone: set<Key>)
    requires Joined(t, s) && o !in s.ttl.deadlines && (o.key in s.table ==> s.table[o.key].obj != o)
    modifies t, s, s.ttl
    ensures t.Valid() && s.Valid() && (gone == {} ==> Joined(t, s))
    ensures gone == {} ==>
      s.table == if ok then old(s.table)[o.key := S.Cell(o, expire, false)] else old(s.table)
  {
    hide H.Inv, H.Doomed, H.TickDooms, H.Added, HashTable.HasSlot, S.Coherent, HashTable.Pack;
    var r, before, forgotten := t.Put(o, expire, mode, granted);
    gone := forgotten;
    ok := s.Set(o, expire, mode, !r.NoMemory?);
    if gone == {} {
      assert before == old(t.contents);
      assert ok == (r.Inserted? || r.Replaced?);
    }
  }

  method Delete(t: H.Table, s: S.Shard, key: Key) returns (ok: bool)
    requires Joined(t, s)
    modifies t, s, s.ttl
    ensures Joined(t, s) && ok == (key in old(t.contents)) && t.contents == old(t.contents) - {key}
  {
    hide H.Inv, S.Coherent, HashTable.IsLocked;
    var taken := t.Take(key);
    ok := s.Delete(key);
    assert ok == taken.Some?;
  }

  lemma SeenKeys(contents: map<Key, HashTable.Node>, key: Key)
    ensures key in Seen(contents) <==> key in contents
  {
  }

  lemma SeenLock(contents: map<Key, HashTable.Node>, contents': map<Key, HashTable.Node>, key: Key, locked: bool)
    requires contents'.Keys == contents.Keys && forall k :: k in contents && k != key ==> contents'[k] == contents[k]
    requires key in contents ==>
      && HashTable.IsLocked(contents'[key].meta) == locked
      && contents'[key].obj == contents[key].obj && contents'[key].expire == contents[key].expire
    ensures Seen(contents') ==
      if key in contents then Seen(contents)[key := Seen(contents)[key].(locked := locked)] else Seen(contents)
  {
    hide HashTable.IsLocked;
  }

  method SetLock(t: H.Table, s: S.Shard, key: Key, locked: bool)
    requires Joined(t, s)
    modifies t, s
    ensures Joined(t, s) && (key in s.table ==> s.table[key].locked == locked)
  {
    hide H.Inv, S.Coherent, HashTable.IsLocked, Seen;
    var ok := t.SetLockStatus(key, locked);
    SeenLock(old(t.contents), t.contents, key, locked);
    SeenKeys(old(t.contents), key);
    s.SetLock(key, locked);
  }
}
