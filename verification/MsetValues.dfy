/**
 * Every pending command carries the value of the last prepared pair that names its key and
 * counts all of them; every installed object carries the last value its MSET gives the key.
 */
module MsetValues {
  import opened Options
  import opened Txn
  import opened KeyCell
  import opened KeyCellLaws
  import opened MsetCore
  import opened MsetCoreLaws

  predicate InEntry(e: Entry, m: Cmd) {
    m == e.holder || exists j :: 0 <= j < |e.queue| && e.queue[j].anchor == m
  }

  ghost predicate LastOf(m: Mset, k: Key, i: nat) {
    i in PreparedAt(m, k) && forall j :: j in PreparedAt(m, k) ==> j <= i
  }

  /** The object stands for the last prepared pair of its MSET that names `k`. */
  ghost predicate ObjExact(s: Core, k: Key, o: Obj) {
    && o.Made? && o.txn in s.msets
    && LastOf(s.msets[o.txn], k, o.pair)
    && s.msets[o.txn].pairs[o.pair].1 == o.value
  }

  ghost predicate CmdExact(s: Core, k: Key, m: Cmd) {
    m.obj.Made? && m.obj.txn == m.txn && ObjExact(s, k, m.obj) && m.acks == |PreparedAt(s.msets[m.txn], k)|
  }

  ghost predicate CmdsExact(s: Core) {
    forall k, m :: CellOf(s, k).entry.Some? && InEntry(CellOf(s, k).entry.value, m) ==> CmdExact(s, k, m)
  }

  ghost predicate InstallsExact(s: Core) {
    forall k, o :: o in CellOf(s, k).installs ==> ObjExact(s, k, o)
  }

  predicate MsetInOrder(m: Mset) {
    forall i, j :: 0 <= i < |m.pairs| && i in m.left && 0 <= j < |m.pairs| && j !in m.left ==>
      m.pairs[i].0 == m.pairs[j].0 ==> j < i
  }

  /** What remains to prepare on a key comes after what has been prepared there. */
  ghost predicate AllInOrder(s: Core) {
    forall t :: t in s.msets ==> MsetInOrder(s.msets[t])
  }

  ghost predicate Values(s: Core) {
    CmdsExact(s) && InstallsExact(s) && AllInOrder(s)
  }

  /** Pairs that name the same key are prepared in the order of the command. */
  predicate InKeyOrder(s: Core, t: TxnId, i: nat)
    requires CanPrepare(s, t, i)
  {
    forall j :: 0 <= j < |s.msets[t].pairs| && s.msets[t].pairs[j].0 == PrepareKey(s, t, i) && j in s.msets[t].left ==>
      i <= j
  }

  // ---------------------------------------------------------------- commands of one key

  /** `m'` is `m` with possibly another `prior`. */
  predicate SameCmd(m: Cmd, m': Cmd) {
    m'.txn == m.txn && m'.obj == m.obj && m'.acks == m.acks
  }

  lemma InsertedAnchor(e: Entry, m: Cmd, x: Cmd)
    requires exists j :: 0 <= j < |AddMset(e, m).queue| && AddMset(e, m).queue[j].anchor == x
    ensures x == m || exists j :: 0 <= j < |e.queue| && e.queue[j].anchor == x
  {
    var q := AddMset(e, m).queue;
    var p := InsertAt(e.queue, m.txn);
    var j :| 0 <= j < |q| && q[j].anchor == x;
    if j < p {
      assert q[j] == e.queue[j];
    } else if j > p {
      assert q[j] == e.queue[j - 1];
    }
  }

  /** Where a command found after PREPARE comes from. */
  ghost predicate Origin(c: Cell, t: TxnId, made: Obj, x: Cmd) {
    || (x.txn == t && x.obj == made && x.acks == 1 && !Holds(c, t) && !Waits(c, t))
    || (x.txn == t && x.obj == made && c.entry.Some?
        && exists m :: InEntry(c.entry.value, m) && m.txn == t && x.acks == m.acks + 1)
    || (x.txn != t && c.entry.Some? && exists m :: InEntry(c.entry.value, m) && SameCmd(m, x))
  }

  lemma PrepareOrigin(c: Cell, t: TxnId, pair: nat, value: Value, origin: nat, shards: nat, may: bool, x: Cmd)
    requires Shape(c)
    requires var c' := Prepare(c, t, pair, value, origin, shards, may); c'.entry.Some? && InEntry(c'.entry.value, x)
    ensures Origin(c, t, Made(t, pair, value), x)
  {
    var made := Made(t, pair, value);
    if c.entry.Some? {
      var e := c.entry.value;
      assert Found(c) == c.entry;
      match Decide(c, t, may)
      case AgainAtHolder => HolderRepeatOrigin(c, e, t, made, x);
      case AgainInQueue => QueueRepeatOrigin(c, e, t, made, x);
      case Preempt => WoundOrigin(c, e, t, made, origin, x);
      case Enqueue => WaitOrigin(c, e, t, made, origin, x);
    }
  }

  lemma HolderRepeatOrigin(c: Cell, e: Entry, t: TxnId, made: Obj, x: Cmd)
    requires c.entry == Some(e) && EntryShape(e) && e.holder.txn == t
    requires var c' := RepeatAtHolder(c, e, made); c'.entry.Some? && InEntry(c'.entry.value, x)
    ensures Origin(c, t, made, x)
  {
    if x.txn == t {
      assert InEntry(e, e.holder);
    } else {
      assert InEntry(e, x) && SameCmd(x, x);
    }
  }

  lemma QueueRepeatOrigin(c: Cell, e: Entry, t: TxnId, made: Obj, x: Cmd)
    requires c.entry == Some(e) && EntryShape(e) && e.holder.txn != t && Queues(e.queue, t)
    requires var c' := RepeatInQueue(c, e, t, made); c'.entry.Some? && InEntry(c'.entry.value, x)
    ensures Origin(c, t, made, x)
  {
    var f := FindQueued(e.queue, t);
    var q := RepeatInQueue(c, e, t, made).entry.value.queue;
    if x == e.holder {
      assert SameCmd(e.holder, x);
    } else {
      var j :| 0 <= j < |q| && q[j].anchor == x;
      if j == f {
        assert InEntry(e, e.queue[f].anchor);
      } else {
        assert q[j] == e.queue[j];
        assert InEntry(e, x) && SameCmd(x, x);
      }
    }
  }

  lemma WoundOrigin(c: Cell, e: Entry, t: TxnId, made: Obj, origin: nat, x: Cmd)
    requires c.entry == Some(e) && EntryShape(e) && e.holder.txn != t && !Queues(e.queue, t)
    requires var c' := Wound(c, e, t, made, origin); c'.entry.Some? && InEntry(c'.entry.value, x)
    ensures Origin(c, t, made, x)
  {
    var v := e.holder.(prior := Some(made));
    if x != Wound(c, e, t, made, origin).entry.value.holder {
      InsertedAnchor(e, v, x);
      if x == v {
        assert InEntry(e, e.holder) && SameCmd(e.holder, x);
      } else {
        assert InEntry(e, x) && SameCmd(x, x);
      }
    }
  }

  lemma WaitOrigin(c: Cell, e: Entry, t: TxnId, made: Obj, origin: nat, x: Cmd)
    requires c.entry == Some(e) && EntryShape(e) && e.holder.txn != t && !Queues(e.queue, t)
    requires var c' := Wait(c, e, t, made, origin); c'.entry.Some? && InEntry(c'.entry.value, x)
    ensures Origin(c, t, made, x)
  {
    var m := Cmd(t, made, c.table, 1, origin);
    if x == e.holder {
      assert InEntry(e, x) && SameCmd(x, x);
    } else {
      InsertedAnchor(e, m, x);
      if x != m {
        assert InEntry(e, x) && SameCmd(x, x);
      }
    }
  }

  /** After FIN the commands are the waiters, and the holder's object is the new install. */
  lemma FinishOrigin(c: Cell, x: Cmd)
    requires Shape(c) && c.entry.Some?
    requires var c' := Finish(c, c.entry.value); c'.entry.Some? && InEntry(c'.entry.value, x)
    ensures exists m :: InEntry(c.entry.value, m) && SameCmd(m, x)
  {
    var e := c.entry.value;
    var c' := Finish(c, e);
    var e' := c'.entry.value;
    assert e.queue != [];
    if x == e'.holder {
      assert InEntry(e, e.queue[0].anchor) && SameCmd(e.queue[0].anchor, x);
    } else {
      var j :| 0 <= j < |e'.queue| && e'.queue[j].anchor == x;
      assert e'.queue[j] == e.queue[j + 1];
      assert InEntry(e, x) && SameCmd(x, x);
    }
  }

  // ---------------------------------------------------------------- preservation

  /** PREPARE adds pair `i` to what its MSET has prepared on the key, as the last one. */
  lemma PrepareLast(s: Core, s': Core, t: TxnId, i: nat, d: Decision, v: TxnId)
    requires CountRel(s, s', t, i, d, v) && InKeyOrder(s, t, i) && MsetInOrder(s.msets[t])
    ensures MsetInOrder(s'.msets[t])
    ensures var k := PrepareKey(s, t, i);
      && LastOf(s'.msets[t], k, i) && |PreparedAt(s'.msets[t], k)| == |PreparedAt(s.msets[t], k)| + 1
  {
    var k := PrepareKey(s, t, i);
    PrepareSets(s, s', t, i, d, v, t, k);
    assert i !in PreparedAt(s.msets[t], k);
  }

  lemma PrepareOthers(s: Core, s': Core, t: TxnId, i: nat, d: Decision, v: TxnId, k: Key, o: Obj)
    requires CountRel(s, s', t, i, d, v) && ObjExact(s, k, o) && (o.txn != t || k != PrepareKey(s, t, i))
    ensures ObjExact(s', k, o) && PreparedAt(s'.msets[o.txn], k) == PreparedAt(s.msets[o.txn], k)
  {
    PrepareSets(s, s', t, i, d, v, o.txn, k);
    assert s'.msets[o.txn].pairs == s.msets[o.txn].pairs;
  }

  lemma PrepareCmdExact(s: Core, s': Core, t: TxnId, i: nat, d: Decision, v: TxnId, x: Cmd)
    requires CountRel(s, s', t, i, d, v) && InKeyOrder(s, t, i) && MsetInOrder(s.msets[t])
    requires CommandsComplete(s) && CmdsExact(s) && !Installed(CellOf(s, PrepareKey(s, t, i)), t)
    requires Origin(CellOf(s, PrepareKey(s, t, i)), t, Made(t, i, s.msets[t].pairs[i].1), x)
    ensures CmdExact(s', PrepareKey(s, t, i), x)
  {
    var k := PrepareKey(s, t, i);
    var c := CellOf(s, k);
    PrepareLast(s, s', t, i, d, v);
    if x.txn == t {
      if !Holds(c, t) && !Waits(c, t) {
        assert !Pending(c, t);
        assert PreparedAt(s.msets[t], k) == {};
      }
      if c.entry.Some? && exists m :: InEntry(c.entry.value, m) && m.txn == t && x.acks == m.acks + 1 {
        var m :| InEntry(c.entry.value, m) && m.txn == t && x.acks == m.acks + 1;
        assert CmdExact(s, k, m);
      }
    } else {
      var m :| InEntry(c.entry.value, m) && SameCmd(m, x);
      assert CmdExact(s, k, m);
      PrepareOthers(s, s', t, i, d, v, k, m.obj);
    }
  }

  lemma PrepareValues(s: Core, cfg: Config, t: TxnId, i: nat)
    requires CoreInv(s) && Values(s) && CanPrepare(s, t, i) && InKeyOrder(s, t, i)
    ensures Values(PrepareStep(s, cfg.shards, t, i))
  {
    PrepareIsRel(s, cfg.shards, t, i);
    var k := PrepareKey(s, t, i);
    forall x | PreparedCell(s, cfg.shards, t, i).entry.Some?
               && InEntry(PreparedCell(s, cfg.shards, t, i).entry.value, x)
      ensures Origin(CellOf(s, k), t, Made(t, i, s.msets[t].pairs[i].1), x)
    {
      assert Shape(CellOf(s, k));
      PrepareOrigin(CellOf(s, k), t, i, s.msets[t].pairs[i].1, s.msets[t].coord, cfg.shards, WoundAt(s, t, k), x);
    }
    UnpreparedIsUncommitted(s, t, i, k);
    PrepareValuesRel(s, PrepareStep(s, cfg.shards, t, i), t, i, DecisionOf(s, t, i), HolderOf(CellOf(s, k), t));
  }

  lemma PrepareValuesRel(s: Core, s': Core, t: TxnId, i: nat, d: Decision, v: TxnId)
    requires CountRel(s, s', t, i, d, v) && CellRel(s, s', t, PrepareKey(s, t, i), d)
    requires Values(s) && CommandsComplete(s) && InstallsCommitted(s) && !Committed(s, t) && InKeyOrder(s, t, i)
    requires var c' := CellOf(s', PrepareKey(s, t, i));
      forall x :: c'.entry.Some? && InEntry(c'.entry.value, x) ==>
        Origin(CellOf(s, PrepareKey(s, t, i)), t, Made(t, i, s.msets[t].pairs[i].1), x)
    ensures Values(s')
  {
    var k := PrepareKey(s, t, i);
    forall k', x | CellOf(s', k').entry.Some? && InEntry(CellOf(s', k').entry.value, x) ensures CmdExact(s', k', x) {
      if k' == k {
        PrepareCmdExact(s, s', t, i, d, v, x);
      } else {
        assert CmdExact(s, k', x);
        PrepareOthers(s, s', t, i, d, v, k', x.obj);
      }
    }
    PrepareSameInstalls(s, s', t, k, d);
    forall k', o | o in CellOf(s', k').installs ensures ObjExact(s', k', o) {
      assert o in CellOf(s, k').installs;
      assert Installed(CellOf(s, k'), o.txn);
      PrepareOthers(s, s', t, i, d, v, k', o);
    }
    PrepareLast(s, s', t, i, d, v);
  }

  lemma SamePlanExact(s: Core, s': Core, k: Key, o: Obj)
    requires ObjExact(s, k, o) && o.txn in s'.msets
    requires s'.msets[o.txn].pairs == s.msets[o.txn].pairs && s'.msets[o.txn].left == s.msets[o.txn].left
    ensures ObjExact(s', k, o) && PreparedAt(s'.msets[o.txn], k) == PreparedAt(s.msets[o.txn], k)
  {
  }

  lemma FinishValues(s: Core, t: TxnId, k: Key)
    requires CoreInv(s) && Values(s) && CanFinish(s, t, k)
    ensures Values(FinishStep(s, t, k))
  {
    var c := CellOf(s, k);
    FinishIsRel(s, t, k);
    assert Shape(c);
    FinishRoles(c, t);
    forall x | Finish(c, c.entry.value).entry.Some? && InEntry(Finish(c, c.entry.value).entry.value, x)
      ensures exists m :: InEntry(c.entry.value, m) && SameCmd(m, x)
    {
      FinishOrigin(c, x);
    }
    FinishValuesRel(s, FinishStep(s, t, k), t, k, Promoted(c.entry.value));
  }

  lemma FinishValuesRel(s: Core, s': Core, t: TxnId, k: Key, p: Option<TxnId>)
    requires FinCellRel(s, s', t, k, p) && FinCountRel(s, s', p) && Values(s)
    requires CellOf(s, k).entry.Some?
    requires CellOf(s', k).installs == CellOf(s, k).installs + [CellOf(s, k).entry.value.holder.obj]
    requires forall x :: CellOf(s', k).entry.Some? && InEntry(CellOf(s', k).entry.value, x) ==>
               exists m :: InEntry(CellOf(s, k).entry.value, m) && SameCmd(m, x)
    ensures Values(s')
  {
    forall k', x | CellOf(s', k').entry.Some? && InEntry(CellOf(s', k').entry.value, x) ensures CmdExact(s', k', x) {
      var m := x;
      if k' == k {
        m :| InEntry(CellOf(s, k).entry.value, m) && SameCmd(m, x);
      }
      assert CmdExact(s, k', m);
      SamePlanExact(s, s', k', m.obj);
    }
    forall k', o | o in CellOf(s', k').installs ensures ObjExact(s', k', o) {
      var holder := CellOf(s, k).entry.value.holder;
      if k' == k && o == holder.obj {
        assert InEntry(CellOf(s, k).entry.value, holder);
        assert CmdExact(s, k, holder);
      } else {
        assert o in CellOf(s, k').installs;
      }
      SamePlanExact(s, s', k', o);
    }
  }

  lemma BeginValues(s: Core, t: TxnId, coord: nat, pairs: seq<(Key, Value)>)
    requires Values(s) && CanBegin(s, t, pairs)
    ensures Values(Begin(s, t, coord, pairs))
  {
    var s' := Begin(s, t, coord, pairs);
    assert forall k :: CellOf(s', k) == CellOf(s, k);
    forall k, m | CellOf(s', k).entry.Some? && InEntry(CellOf(s', k).entry.value, m) ensures CmdExact(s', k, m) {
      assert CmdExact(s, k, m);
      SamePlanExact(s, s', k, m.obj);
    }
    forall k, o | o in CellOf(s', k).installs ensures ObjExact(s', k, o) {
      assert ObjExact(s, k, o);
      SamePlanExact(s, s', k, o);
    }
  }

  lemma ReadValues(s: Core, k: Key, r: Read)
    requires Values(s)
    ensures Values(ReadStep(s, k, r))
  {
    var s' := ReadStep(s, k, r);
    forall k', m | CellOf(s', k').entry.Some? && InEntry(CellOf(s', k').entry.value, m) ensures CmdExact(s', k', m) {
      assert CellOf(s, k').entry.Some? && InEntry(CellOf(s, k').entry.value, m);
      assert CmdExact(s, k', m);
      SamePlanExact(s, s', k', m.obj);
    }
    forall k', o | o in CellOf(s', k').installs ensures ObjExact(s', k', o) {
      assert ObjExact(s, k', o);
      SamePlanExact(s, s', k', o);
    }
  }
}
