/**
 * FIN reaches every key of a committed MSET: as long as a key is unfinished, its shard is
 * running FIN, or a FIN is under way to it, or the coordinator has yet to send it, or the
 * acknowledgement that makes the coordinator start is under way.
 */
module MsetTasks {
  import opened Options
  import opened Txn
  import opened MsetCore
  import opened MsetEngine

  type Tasks = seq<map<TxnId, Task>>

  predicate Signal(net: seq<Packet>, dst: nat, msg: Msg) {
    exists p :: p in net && p.dst == dst && p.msg == msg
  }

  predicate Running(tasks: Tasks, s: nat, t: TxnId) {
    s < |tasks| && t in tasks[s]
  }

  predicate Owes(tasks: Tasks, c: nat, t: TxnId, s: nat) {
    Running(tasks, c, t) && s in tasks[c][t].unsent
  }

  predicate Driven(core: Core, tasks: Tasks, net: seq<Packet>, t: TxnId, s: nat)
    requires t in core.msets
  {
    var c := core.msets[t].coord;
    Running(tasks, s, t) || Signal(net, s, Fin(t)) || Owes(tasks, c, t, s) || Signal(net, c, Ack(t))
  }

  ghost predicate TasksSound(cfg: Config, core: Core, tasks: Tasks) {
    && |tasks| == cfg.shards
    && (forall s: nat, t :: Running(tasks, s, t) ==> Committed(core, t) && tasks[s][t].unsent <= Upto(cfg.shards))
  }

  /** Only FIN traffic of committed MSETs is under way, and answers go to the coordinator. */
  ghost predicate NetSound(cfg: Config, core: Core, net: seq<Packet>) {
    forall p :: p in net ==>
      && p.dst < cfg.shards && p.msg.t in core.msets
      && (!p.msg.Batch? ==> Committed(core, p.msg.t))
      && (p.msg.Ack? || p.msg.FinAck? ==> p.dst == core.msets[p.msg.t].coord)
  }

  /** Every unfinished key is driven, except possibly those of `x`. */
  ghost predicate AllDriven(cfg: Config, core: Core, tasks: Tasks, net: seq<Packet>, x: Option<TxnId>) {
    forall t, s :: Committed(core, t) && x != Some(t) && LocalKeys(cfg, core, t, s) != {} ==>
      Driven(core, tasks, net, t, s)
  }

  ghost predicate TaskInv(cfg: Config, core: Core, tasks: Tasks, net: seq<Packet>) {
    TasksSound(cfg, core, tasks) && NetSound(cfg, core, net) && AllDriven(cfg, core, tasks, net, None)
  }

  /** Commitment and coordinators are kept; of what was committed, only unfinished keys go away. */
  ghost predicate CoreAdvances(cfg: Config, core: Core, core': Core, x: Option<TxnId>) {
    && (forall t :: t in core.msets ==> t in core'.msets && core'.msets[t].coord == core.msets[t].coord)
    && (forall t :: Committed(core, t) ==> Committed(core', t))
    && (forall t :: Committed(core', t) && x != Some(t) ==> Committed(core, t))
    && (forall t, s :: Committed(core, t) && t in core'.msets && x != Some(t) ==>
          LocalKeys(cfg, core', t, s) <= LocalKeys(cfg, core, t, s))
  }

  lemma TaskAdvance(cfg: Config, core: Core, core': Core, tasks: Tasks, net: seq<Packet>, x: Option<TxnId>)
    requires TaskInv(cfg, core, tasks, net) && CoreAdvances(cfg, core, core', x)
    ensures TasksSound(cfg, core', tasks) && NetSound(cfg, core', net) && AllDriven(cfg, core', tasks, net, x)
  {
    forall t, s | Committed(core', t) && x != Some(t) && LocalKeys(cfg, core', t, s) != {}
      ensures Driven(core', tasks, net, t, s)
    {
      assert LocalKeys(cfg, core, t, s) != {};
      assert Driven(core, tasks, net, t, s);
    }
  }

  /** Adding signals keeps what is driven. */
  lemma MoreNet(cfg: Config, core: Core, tasks: Tasks, net: seq<Packet>, p: Packet, x: Option<TxnId>)
    requires AllDriven(cfg, core, tasks, net, x)
    ensures AllDriven(cfg, core, tasks, net + [p], x)
  {
    forall t, s | Committed(core, t) && x != Some(t) && LocalKeys(cfg, core, t, s) != {}
      ensures Driven(core, tasks, net + [p], t, s)
    {
      assert Driven(core, tasks, net, t, s);
      GrowSignal(net, p, s, Fin(t));
      GrowSignal(net, p, core.msets[t].coord, Ack(t));
    }
  }

  lemma GrowSignal(net: seq<Packet>, p: Packet, dst: nat, msg: Msg)
    ensures Signal(net + [p], dst, msg) <==> Signal(net, dst, msg) || (p.dst == dst && p.msg == msg)
  {
    assert p in net + [p];
    assert forall q :: q in net + [p] <==> q in net || q == p;
  }

  lemma ShrinkSignal(net: seq<Packet>, j: nat, dst: nat, msg: Msg)
    requires j < |net|
    ensures var net' := net[..j] + net[j + 1..];
      && (Signal(net', dst, msg) ==> Signal(net, dst, msg))
      && (Signal(net, dst, msg) ==> Signal(net', dst, msg) || (net[j].dst == dst && net[j].msg == msg))
  {
    var net' := net[..j] + net[j + 1..];
    assert forall q :: q in net' ==> q in net;
    if Signal(net, dst, msg) && !(net[j].dst == dst && net[j].msg == msg) {
      var p :| p in net && p.dst == dst && p.msg == msg;
      var i :| 0 <= i < |net| && net[i] == p;
      assert net'[if i < j then i else i - 1] == p;
      assert p in net';
    }
  }

  /** Batches and final acknowledgements do not matter here. */
  lemma TaskSend(cfg: Config, core: Core, tasks: Tasks, net: seq<Packet>, p: Packet)
    requires TaskInv(cfg, core, tasks, net) && NetSound(cfg, core, [p])
    ensures TaskInv(cfg, core, tasks, net + [p])
  {
    assert p in [p];
    MoreNet(cfg, core, tasks, net, p, None);
  }

  /** The last acknowledgement starts FIN on the coordinator, at once or by a message. */
  lemma TaskReady(cfg: Config, e: Engine, s: nat, t: TxnId)
    requires TasksSound(cfg, e.core, e.tasks) && NetSound(cfg, e.core, e.net) && s < cfg.shards
    requires AllDriven(cfg, e.core, e.tasks, e.net, Some(t)) && Committed(e.core, t) && !Running(e.tasks, s, t)
    requires e.core.msets[t].coord < cfg.shards && Routes(cfg)
    ensures var e' := Ready(cfg, e, s, t); TaskInv(cfg, e'.core, e'.tasks, e'.net)
  {
    var e' := Ready(cfg, e, s, t);
    var c := e.core.msets[t].coord;
    if c == s {
      assert forall r, u :: Running(e'.tasks, r, u) <==> Running(e.tasks, r, u) || (r == s && u == t);
      forall u, r | Committed(e.core, u) && LocalKeys(cfg, e.core, u, r) != {}
        ensures Driven(e.core, e'.tasks, e.net, u, r)
      {
        if u == t {
          var k :| k in LocalKeys(cfg, e.core, t, r);
          assert r == cfg.route(k);
          assert r == s || Owes(e'.tasks, s, t, r);
        } else {
          assert Driven(e.core, e.tasks, e.net, u, r);
        }
      }
    } else {
      var p := Packet(s, c, Ack(t));
      MoreNet(cfg, e.core, e.tasks, e.net, p, Some(t));
      GrowSignal(e.net, p, c, Ack(t));
    }
  }

  /** A shard free of tasks takes one up: early commit, or a FIN or ACK that has arrived. */
  lemma TaskTake(cfg: Config, core: Core, tasks: Tasks, net: seq<Packet>, s: nat, t: TxnId, task: Task)
    requires TaskInv(cfg, core, tasks, net) && s < |tasks| && tasks[s] == map[] && Committed(core, t)
    requires task.unsent <= Upto(cfg.shards)
    ensures TaskInv(cfg, core, tasks[s := map[t := task]], net)
  {
    var tasks' := tasks[s := map[t := task]];
    assert forall r, u :: Running(tasks', r, u) <==> Running(tasks, r, u) || (r == s && u == t);
    assert forall c, u, r :: Owes(tasks, c, u, r) ==> Owes(tasks', c, u, r);
    forall u, r | Committed(core, u) && LocalKeys(cfg, core, u, r) != {} ensures Driven(core, tasks', net, u, r) {
      assert Driven(core, tasks, net, u, r);
    }
  }

  /** Delivering packet `j` keeps everything driven if it is not needed, or becomes a task. */
  lemma TaskDrop(cfg: Config, core: Core, tasks: Tasks, net: seq<Packet>, j: nat)
    requires TaskInv(cfg, core, tasks, net) && j < |net|
    requires match net[j].msg
             case Fin(t) => Running(tasks, net[j].dst, t)
             case Ack(t) =>
               && Running(tasks, net[j].dst, t)
               && (forall r :: 0 <= r < cfg.shards && r != net[j].dst ==> Owes(tasks, net[j].dst, t, r))
             case _ => true
    requires Routes(cfg)
    ensures TaskInv(cfg, core, tasks, net[..j] + net[j + 1..])
  {
    var net' := net[..j] + net[j + 1..];
    assert forall p :: p in net' ==> p in net;
    assert net[j] in net;
    forall t, s | Committed(core, t) && LocalKeys(cfg, core, t, s) != {} ensures Driven(core, tasks, net', t, s) {
      assert Driven(core, tasks, net, t, s);
      ShrinkSignal(net, j, s, Fin(t));
      ShrinkSignal(net, j, core.msets[t].coord, Ack(t));
      var k :| k in LocalKeys(cfg, core, t, s);
      assert s == cfg.route(k);
    }
  }

  /** The coordinator tells shard `dst`, unless nothing is left to do there. */
  lemma TaskSendFin(cfg: Config, core: Core, tasks: Tasks, net: seq<Packet>, s: nat, t: TxnId, dst: nat,
                    net': seq<Packet>)
    requires TaskInv(cfg, core, tasks, net) && Owes(tasks, s, t, dst) && dst < cfg.shards
    requires net' == if LocalKeys(cfg, core, t, dst) != {} then net + [Packet(s, dst, Fin(t))] else net
    ensures TaskInv(cfg, core, tasks[s := tasks[s][t := tasks[s][t].(unsent := tasks[s][t].unsent - {dst})]], net')
  {
    var tasks' := tasks[s := tasks[s][t := tasks[s][t].(unsent := tasks[s][t].unsent - {dst})]];
    assert forall r, u :: Running(tasks', r, u) == Running(tasks, r, u);
    forall u, r | Committed(core, u) && LocalKeys(cfg, core, u, r) != {} ensures Driven(core, tasks', net', u, r) {
      assert Driven(core, tasks, net, u, r);
      var c := core.msets[u].coord;
      assert Owes(tasks, c, u, r) ==> Owes(tasks', c, u, r) || (u == t && r == dst);
      GrowSignal(net, Packet(s, dst, Fin(t)), r, Fin(u));
      GrowSignal(net, Packet(s, dst, Fin(t)), c, Ack(u));
    }
  }

  /** Counting more pairs in a task does not matter here. */
  lemma TaskCount(cfg: Config, core: Core, tasks: Tasks, net: seq<Packet>, s: nat, t: TxnId, n: nat)
    requires TaskInv(cfg, core, tasks, net) && Running(tasks, s, t)
    ensures TaskInv(cfg, core, tasks[s := tasks[s][t := tasks[s][t].(n := n)]], net)
  {
    var tasks' := tasks[s := tasks[s][t := tasks[s][t].(n := n)]];
    assert forall r, u :: Running(tasks', r, u) == Running(tasks, r, u);
    assert forall c, u, r :: Owes(tasks', c, u, r) == Owes(tasks, c, u, r);
    forall u, r | Committed(core, u) && LocalKeys(cfg, core, u, r) != {} ensures Driven(core, tasks', net, u, r) {
      assert Driven(core, tasks, net, u, r);
    }
  }

  lemma TaskEnd(cfg: Config, core: Core, tasks: Tasks, net: seq<Packet>, s: nat, t: TxnId)
    requires TaskInv(cfg, core, tasks, net) && Running(tasks, s, t) && t in core.msets
    requires tasks[s][t].unsent == {} && LocalKeys(cfg, core, t, s) == {}
    ensures TaskInv(cfg, core, tasks[s := tasks[s] - {t}], net)
  {
    var tasks' := tasks[s := tasks[s] - {t}];
    assert forall r, u :: Running(tasks', r, u) <==> Running(tasks, r, u) && !(r == s && u == t);
    assert forall c, u, r :: Owes(tasks', c, u, r) == Owes(tasks, c, u, r);
    forall u, r | Committed(core, u) && LocalKeys(cfg, core, u, r) != {} ensures Driven(core, tasks', net, u, r) {
      assert Driven(core, tasks, net, u, r);
    }
  }
}
