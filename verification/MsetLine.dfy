/**
 * Batches of one coordinator reach each shard in dispatch order. The invariant speaks only of
 * the dispatched MSETs without their counters (`plan`), the PREPARE loops in progress
 * (`loops`) and the batch packets under way (`lane`), so all other events leave it alone.
 */
module MsetLine {
  import opened Txn
  import opened KeyCell
  import opened MsetCore
  import opened MsetEngine

  type Plan = map<TxnId, Mset>

  function PlanOf(core: Core): Plan {
    map t | t in core.msets :: core.msets[t].(ack := 0)
  }

  function LoopsOf(work: seq<Work>): (r: seq<Work>)
    ensures |r| == |work|
    ensures forall s :: 0 <= s < |work| ==> r[s] == if work[s].Preparing? then work[s] else Idle
  {
    seq(|work|, s requires 0 <= s < |work| => if work[s].Preparing? then work[s] else Idle)
  }

  /** The batch packets, in order. */
  function LaneOf(net: seq<Packet>): seq<Packet> {
    if net == [] then []
    else (if net[0].msg.Batch? then [net[0]] else []) + LaneOf(net[1..])
  }

  predicate Looping(loops: seq<Work>, s: nat, t: TxnId) {
    s < |loops| && loops[s].Preparing? && loops[s].t == t
  }

  predicate Unsent(loops: seq<Work>, c: nat, t: TxnId, s: nat) {
    Looping(loops, c, t) && s in loops[c].unsent
  }

  /** The batch of `t` for shard `s` is not there yet. */
  predicate Coming(plan: Plan, loops: seq<Work>, lane: seq<Packet>, t: TxnId, s: nat) {
    t in plan && (Packet(plan[t].coord, s, Batch(t)) in lane || Unsent(loops, plan[t].coord, t, s))
  }

  /** Some pair of the MSET has been prepared on `s`. */
  predicate Started(cfg: Config, m: Mset, s: nat) {
    exists i :: 0 <= i < |m.pairs| && cfg.route(m.pairs[i].0) == s && i !in m.left
  }

  ghost predicate Numbered(plan: Plan) {
    && (forall t :: t in plan ==> plan[t].no < |plan|)
    && (forall t, u :: t in plan && u in plan && t != u ==> plan[t].no != plan[u].no)
  }

  ghost predicate LaneSound(cfg: Config, plan: Plan, lane: seq<Packet>) {
    forall p :: p in lane ==>
      p.msg.Batch? && p.msg.t in plan && plan[p.msg.t].coord == p.src && p.src != p.dst && p.dst < cfg.shards
  }

  ghost predicate LoopsSound(cfg: Config, plan: Plan, loops: seq<Work>) {
    forall s :: 0 <= s < |loops| && loops[s].Preparing? ==>
      && loops[s].t in plan
      && (loops[s].unsent != {} ==> plan[loops[s].t].coord == s)
      && s !in loops[s].unsent && loops[s].unsent <= Upto(cfg.shards)
  }

  ghost predicate ComingUntouched(cfg: Config, plan: Plan, loops: seq<Work>, lane: seq<Packet>) {
    forall t, s :: Coming(plan, loops, lane, t, s) ==> !Started(cfg, plan[t], s)
  }

  /** Whatever has started on `s`, or is being prepared there, was dispatched before what is coming. */
  ghost predicate ComingLater(cfg: Config, plan: Plan, loops: seq<Work>, lane: seq<Packet>) {
    forall t, u, s :: Coming(plan, loops, lane, t, s) && u in plan && plan[u].coord == plan[t].coord
                      && (Started(cfg, plan[u], s) || Looping(loops, s, u)) ==>
      plan[u].no < plan[t].no
  }

  ghost predicate LoopLatest(cfg: Config, plan: Plan, loops: seq<Work>) {
    forall t, u, s :: Looping(loops, s, t) && t in plan && u in plan && plan[u].coord == plan[t].coord
                      && Started(cfg, plan[u], s) ==>
      plan[u].no <= plan[t].no
  }

  ghost predicate LaneOrder(plan: Plan, loops: seq<Work>, lane: seq<Packet>) {
    && (forall i, j :: 0 <= i < j < |lane| && lane[i].src == lane[j].src && lane[i].dst == lane[j].dst
                       && lane[i].msg.t in plan && lane[j].msg.t in plan ==>
          plan[lane[i].msg.t].no < plan[lane[j].msg.t].no)
    && (forall c, t, s, u :: Unsent(loops, c, t, s) && Packet(c, s, Batch(u)) in lane && t in plan && u in plan ==>
          plan[u].no < plan[t].no)
  }

  /** Every pair still to prepare is in a running loop or coming. */
  ghost predicate NothingLost(cfg: Config, plan: Plan, loops: seq<Work>, lane: seq<Packet>) {
    forall t, s :: t in plan && LeftAt(cfg, plan[t], s) != {} ==>
      Looping(loops, s, t) || Coming(plan, loops, lane, t, s)
  }

  ghost predicate LineInv(cfg: Config, plan: Plan, loops: seq<Work>, lane: seq<Packet>) {
    && Numbered(plan)
    && LaneSound(cfg, plan, lane)
    && LoopsSound(cfg, plan, loops)
    && ComingUntouched(cfg, plan, loops, lane)
    && ComingLater(cfg, plan, loops, lane)
    && LoopLatest(cfg, plan, loops)
    && LaneOrder(plan, loops, lane)
    && NothingLost(cfg, plan, loops, lane)
  }

  // ---------------------------------------------------------------- lane

  lemma {:induction false} LaneAppend(net: seq<Packet>, p: Packet)
    ensures LaneOf(net + [p]) == LaneOf(net) + (if p.msg.Batch? then [p] else [])
  {
    if net == [] {
      assert [p][1..] == [];
    } else {
      LaneAppend(net[1..], p);
      assert (net + [p])[1..] == net[1..] + [p];
    }
  }

  lemma LaneOther(net: seq<Packet>, p: Packet)
    requires !p.msg.Batch?
    ensures LaneOf(net + [p]) == LaneOf(net)
  {
    LaneAppend(net, p);
  }

  lemma {:induction false} LaneConcat(a: seq<Packet>, b: seq<Packet>)
    ensures LaneOf(a + b) == LaneOf(a) + LaneOf(b)
  {
    if a == [] {
      assert a + b == b;
    } else {
      LaneConcat(a[1..], b);
      var all := a + b;
      assert all[0] == a[0] && all[1..] == a[1..] + b;
      var first := if a[0].msg.Batch? then [a[0]] else [];
      assert LaneOf(all) == first + LaneOf(all[1..]) && LaneOf(a) == first + LaneOf(a[1..]);
    }
  }

  lemma {:induction false} LaneMembers(net: seq<Packet>, p: Packet)
    ensures p in LaneOf(net) <==> p in net && p.msg.Batch?
  {
    if net != [] {
      LaneMembers(net[1..], p);
      assert net == [net[0]] + net[1..];
    }
  }

  /** Removing a packet from the net removes it from the lane, or leaves the lane alone. */
  lemma LaneRemove(net: seq<Packet>, j: nat)
    requires j < |net|
    ensures var lane := LaneOf(net); var lane' := LaneOf(net[..j] + net[j + 1..]);
      if net[j].msg.Batch? then
        var a := LaneOf(net[..j]);
        |a| < |lane| && lane[|a|] == net[j] && lane[..|a|] == a && lane' == lane[..|a|] + lane[|a| + 1..]
      else lane' == lane
  {
    var a, b := net[..j], net[j + 1..];
    assert net == a + ([net[j]] + b);
    LaneConcat(a, [net[j]] + b);
    LaneConcat([net[j]], b);
    LaneConcat(a, b);
    assert LaneOf([net[j]]) == if net[j].msg.Batch? then [net[j]] else [];
  }

  // ---------------------------------------------------------------- dispatch

  lemma LineDispatch(cfg: Config, plan: Plan, loops: seq<Work>, lane: seq<Packet>, c: nat, t: TxnId,
                     pairs: seq<(Key, Value)>)
    requires LineInv(cfg, plan, loops, lane) && t !in plan && c < |loops| && loops[c].Idle? && Routes(cfg)
    ensures LineInv(cfg, plan[t := Mset(|plan|, c, pairs, Upto(|pairs|), 0)],
                    loops[c := Preparing(t, Remotes(cfg, pairs, c))], lane)
  {
    var m := Mset(|plan|, c, pairs, Upto(|pairs|), 0);
    DispatchSound(cfg, plan, loops, lane, c, t, m);
    DispatchLater(cfg, plan, loops, lane, c, t, m);
    DispatchUntouched(cfg, plan, loops, lane, c, t, m);
    DispatchLatest(cfg, plan, loops, lane, c, t, m);
    DispatchLost(cfg, plan, loops, lane, c, t, m);
  }

  lemma DispatchSound(cfg: Config, plan: Plan, loops: seq<Work>, lane: seq<Packet>, c: nat, t: TxnId, m: Mset)
    requires Numbered(plan) && LaneSound(cfg, plan, lane) && LoopsSound(cfg, plan, loops)
    requires t !in plan && c < |loops| && m.no == |plan| && m.coord == c && Routes(cfg)
    ensures var loops' := loops[c := Preparing(t, Remotes(cfg, m.pairs, c))]; var plan' := plan[t := m];
      Numbered(plan') && LaneSound(cfg, plan', lane) && LoopsSound(cfg, plan', loops')
  {
    assert |plan[t := m]| == |plan| + 1;
  }

  lemma DispatchRoles(cfg: Config, plan: Plan, loops: seq<Work>, lane: seq<Packet>, c: nat, t: TxnId, m: Mset,
                      u: TxnId, s: nat)
    requires LaneSound(cfg, plan, lane) && LoopsSound(cfg, plan, loops) && t !in plan && c < |loops| && loops[c].Idle?
    requires m.coord == c
    ensures var loops' := loops[c := Preparing(t, Remotes(cfg, m.pairs, c))]; var plan' := plan[t := m];
      && (Looping(loops', s, u) <==> Looping(loops, s, u) || (s == c && u == t))
      && (u != t ==> Coming(plan', loops', lane, u, s) == Coming(plan, loops, lane, u, s))
      && (Coming(plan', loops', lane, t, s) <==> s in Remotes(cfg, m.pairs, c))
      && (u in plan' && plan'[u].coord == c ==> !Coming(plan', loops', lane, u, c))
  {
    assert forall p :: p in lane ==> p.msg.t != t;
  }

  lemma DispatchLater(cfg: Config, plan: Plan, loops: seq<Work>, lane: seq<Packet>, c: nat, t: TxnId, m: Mset)
    requires Numbered(plan) && LaneSound(cfg, plan, lane) && LoopsSound(cfg, plan, loops)
    requires ComingLater(cfg, plan, loops, lane)
    requires t !in plan && c < |loops| && loops[c].Idle?
    requires m.no == |plan| && m.coord == c && m.left == Upto(|m.pairs|)
    ensures var loops' := loops[c := Preparing(t, Remotes(cfg, m.pairs, c))]; var plan' := plan[t := m];
      ComingLater(cfg, plan', loops', lane)
  {
    hide ComingLater, Coming, Started, Looping, Remotes, Numbered, LaneSound, LoopsSound;
    var plan' := plan[t := m];
    var loops' := loops[c := Preparing(t, Remotes(cfg, m.pairs, c))];
    forall w, u, s: nat ensures LaterAt(cfg, plan', loops', lane, w, u, s) {
      if Coming(plan', loops', lane, w, s) && u in plan' && (Started(cfg, plan'[u], s) || Looping(loops', s, u)) {
        ComingKnown(plan', loops', lane, w, s);
        if plan'[u].coord == plan'[w].coord {
          DispatchedPair(cfg, plan, loops, lane, c, t, m, w, u, s);
        }
      }
    }
    LaterIf(cfg, plan', loops', lane);
  }

  predicate LaterAt(cfg: Config, plan: Plan, loops: seq<Work>, lane: seq<Packet>, t: TxnId, u: TxnId, s: nat) {
    (&& t in plan && Coming(plan, loops, lane, t, s) && u in plan && plan[u].coord == plan[t].coord
     && (Started(cfg, plan[u], s) || Looping(loops, s, u))) ==> plan[u].no < plan[t].no
  }

  lemma LaterIf(cfg: Config, plan: Plan, loops: seq<Work>, lane: seq<Packet>)
    requires forall t, u, s: nat :: LaterAt(cfg, plan, loops, lane, t, u, s)
    ensures ComingLater(cfg, plan, loops, lane)
  {
    hide Started, Looping;
    forall t, u, s: nat | Coming(plan, loops, lane, t, s) && u in plan && plan[u].coord == plan[t].coord
                          && (Started(cfg, plan[u], s) || Looping(loops, s, u))
      ensures plan[u].no < plan[t].no
    {
      assert LaterAt(cfg, plan, loops, lane, t, u, s);
    }
  }

  lemma ComingKnown(plan: Plan, loops: seq<Work>, lane: seq<Packet>, t: TxnId, s: nat)
    requires Coming(plan, loops, lane, t, s)
    ensures t in plan
  {
  }

  lemma DispatchedPair(cfg: Config, plan: Plan, loops: seq<Work>, lane: seq<Packet>, c: nat, t: TxnId, m: Mset,
                       w: TxnId, u: TxnId, s: nat)
    requires Numbered(plan) && LaneSound(cfg, plan, lane) && LoopsSound(cfg, plan, loops)
    requires ComingLater(cfg, plan, loops, lane)
    requires t !in plan && c < |loops| && loops[c].Idle?
    requires m.no == |plan| && m.coord == c && m.left == Upto(|m.pairs|)
    requires var loops' := loops[c := Preparing(t, Remotes(cfg, m.pairs, c))]; var plan' := plan[t := m];
      && Coming(plan', loops', lane, w, s) && u in plan' && w in plan' && plan'[u].coord == plan'[w].coord
      && (Started(cfg, plan'[u], s) || Looping(loops', s, u))
    ensures plan[t := m][u].no < plan[t := m][w].no
  {
    DispatchRoles(cfg, plan, loops, lane, c, t, m, u, s);
    DispatchRoles(cfg, plan, loops, lane, c, t, m, w, s);
    NotLooping(cfg, plan, loops, t, s);
    NotStarted(cfg, m, s);
    hide Coming, Started, Remotes, LaneSound, LoopsSound, Looping;
  }

  lemma NotStarted(cfg: Config, m: Mset, s: nat)
    requires m.left == Upto(|m.pairs|)
    ensures !Started(cfg, m, s)
  {
  }

  lemma NotLooping(cfg: Config, plan: Plan, loops: seq<Work>, t: TxnId, s: nat)
    requires LoopsSound(cfg, plan, loops) && t !in plan
    ensures !Looping(loops, s, t)
  {
  }

  lemma DispatchUntouched(cfg: Config, plan: Plan, loops: seq<Work>, lane: seq<Packet>, c: nat, t: TxnId, m: Mset)
    requires LaneSound(cfg, plan, lane) && LoopsSound(cfg, plan, loops) && ComingUntouched(cfg, plan, loops, lane)
    requires t !in plan && c < |loops| && loops[c].Idle? && m.coord == c && m.left == Upto(|m.pairs|)
    ensures var loops' := loops[c := Preparing(t, Remotes(cfg, m.pairs, c))]; var plan' := plan[t := m];
      ComingUntouched(cfg, plan', loops', lane)
  {
    var plan' := plan[t := m];
    var loops' := loops[c := Preparing(t, Remotes(cfg, m.pairs, c))];
    forall w, s | Coming(plan', loops', lane, w, s) ensures !Started(cfg, plan'[w], s) {
      DispatchRoles(cfg, plan, loops, lane, c, t, m, w, s);
    }
  }

  lemma DispatchLatest(cfg: Config, plan: Plan, loops: seq<Work>, lane: seq<Packet>, c: nat, t: TxnId, m: Mset)
    requires Numbered(plan) && LaneSound(cfg, plan, lane) && LoopsSound(cfg, plan, loops)
    requires LoopLatest(cfg, plan, loops) && LaneOrder(plan, loops, lane)
    requires t !in plan && c < |loops| && loops[c].Idle?
    requires m.no == |plan| && m.coord == c && m.left == Upto(|m.pairs|)
    ensures var loops' := loops[c := Preparing(t, Remotes(cfg, m.pairs, c))]; var plan' := plan[t := m];
      LoopLatest(cfg, plan', loops') && LaneOrder(plan', loops', lane)
  {
    hide LoopLatest, LaneOrder, LaneSound, LoopsSound, Numbered, Remotes;
    DispatchLoops(cfg, plan, loops, lane, c, t, m);
    DispatchOrder(cfg, plan, loops, lane, c, t, m);
  }

  lemma DispatchLoops(cfg: Config, plan: Plan, loops: seq<Work>, lane: seq<Packet>, c: nat, t: TxnId, m: Mset)
    requires Numbered(plan) && LaneSound(cfg, plan, lane) && LoopsSound(cfg, plan, loops)
    requires LoopLatest(cfg, plan, loops)
    requires t !in plan && c < |loops| && loops[c].Idle?
    requires m.no == |plan| && m.coord == c && m.left == Upto(|m.pairs|)
    ensures LoopLatest(cfg, plan[t := m], loops[c := Preparing(t, Remotes(cfg, m.pairs, c))])
  {
    hide Started, Remotes, Coming, LaneSound, LoopsSound;
    var plan' := plan[t := m];
    var loops' := loops[c := Preparing(t, Remotes(cfg, m.pairs, c))];
    forall w, u, s: nat | Looping(loops', s, w) && w in plan' && u in plan' && plan'[u].coord == plan'[w].coord
                          && Started(cfg, plan'[u], s)
      ensures plan'[u].no <= plan'[w].no
    {
      DispatchRoles(cfg, plan, loops, lane, c, t, m, w, s);
      NotLooping(cfg, plan, loops, t, s);
      NotStarted(cfg, m, s);
    }
  }

  lemma DispatchOrder(cfg: Config, plan: Plan, loops: seq<Work>, lane: seq<Packet>, c: nat, t: TxnId, m: Mset)
    requires Numbered(plan) && LaneSound(cfg, plan, lane) && LoopsSound(cfg, plan, loops)
    requires LaneOrder(plan, loops, lane)
    requires t !in plan && c < |loops| && loops[c].Idle? && m.no == |plan|
    ensures LaneOrder(plan[t := m], loops[c := Preparing(t, Remotes(cfg, m.pairs, c))], lane)
  {
    hide Remotes;
    assert forall p :: p in lane ==> p.msg.t != t;
  }

  lemma DispatchLost(cfg: Config, plan: Plan, loops: seq<Work>, lane: seq<Packet>, c: nat, t: TxnId, m: Mset)
    requires LaneSound(cfg, plan, lane) && LoopsSound(cfg, plan, loops) && NothingLost(cfg, plan, loops, lane)
    requires t !in plan && c < |loops| && loops[c].Idle? && m.coord == c
    ensures NothingLost(cfg, plan[t := m], loops[c := Preparing(t, Remotes(cfg, m.pairs, c))], lane)
  {
    var plan' := plan[t := m];
    var loops' := loops[c := Preparing(t, Remotes(cfg, m.pairs, c))];
    forall u, s | u in plan' && LeftAt(cfg, plan'[u], s) != {}
      ensures Looping(loops', s, u) || Coming(plan', loops', lane, u, s)
    {
      DispatchRoles(cfg, plan, loops, lane, c, t, m, u, s);
      if u == t && s != c {
        var i :| i in LeftAt(cfg, m, s);
        assert cfg.route(m.pairs[i].0) in Remotes(cfg, m.pairs, c);
      }
    }
  }

  // ---------------------------------------------------------------- prepare one pair

  /** Pair `i` of the MSET in the loop on shard `s` has been prepared. */
  ghost predicate PairDone(cfg: Config, plan: Plan, plan': Plan, loops: seq<Work>, s: nat, t: TxnId, i: nat) {
    && Looping(loops, s, t) && t in plan
    && 0 <= i < |plan[t].pairs| && cfg.route(plan[t].pairs[i].0) == s
    && plan' == plan[t := plan[t].(left := plan[t].left - {i})]
  }

  lemma PairRoles(cfg: Config, plan: Plan, plan': Plan, loops: seq<Work>, lane: seq<Packet>, s: nat, t: TxnId,
                  i: nat, u: TxnId, r: nat)
    requires PairDone(cfg, plan, plan', loops, s, t, i) && u in plan
    ensures u in plan' && plan'[u].no == plan[u].no && plan'[u].coord == plan[u].coord
    ensures Coming(plan', loops, lane, u, r) == Coming(plan, loops, lane, u, r)
    ensures Started(cfg, plan'[u], r) ==> Started(cfg, plan[u], r) || (u == t && r == s)
    ensures LeftAt(cfg, plan'[u], r) <= LeftAt(cfg, plan[u], r)
  {
    if Started(cfg, plan'[u], r) {
      var j :| 0 <= j < |plan'[u].pairs| && cfg.route(plan'[u].pairs[j].0) == r && j !in plan'[u].left;
      assert plan[u].pairs[j] == plan'[u].pairs[j];
    }
  }

  lemma LinePrepare(cfg: Config, plan: Plan, plan': Plan, loops: seq<Work>, lane: seq<Packet>, s: nat, t: TxnId, i: nat)
    requires LineInv(cfg, plan, loops, lane) && PairDone(cfg, plan, plan', loops, s, t, i)
    ensures LineInv(cfg, plan', loops, lane)
  {
    PairSound(cfg, plan, plan', loops, lane, s, t, i);
    PairUntouched(cfg, plan, plan', loops, lane, s, t, i);
    PairLater(cfg, plan, plan', loops, lane, s, t, i);
    PairLatest(cfg, plan, plan', loops, lane, s, t, i);
    forall u, r | u in plan' && LeftAt(cfg, plan'[u], r) != {}
      ensures Looping(loops, r, u) || Coming(plan', loops, lane, u, r)
    {
      PairRoles(cfg, plan, plan', loops, lane, s, t, i, u, r);
    }
  }

  lemma PairSound(cfg: Config, plan: Plan, plan': Plan, loops: seq<Work>, lane: seq<Packet>, s: nat, t: TxnId, i: nat)
    requires PairDone(cfg, plan, plan', loops, s, t, i)
    requires Numbered(plan) && LaneSound(cfg, plan, lane) && LoopsSound(cfg, plan, loops)
             && LaneOrder(plan, loops, lane)
    ensures Numbered(plan') && LaneSound(cfg, plan', lane) && LoopsSound(cfg, plan', loops)
    ensures LaneOrder(plan', loops, lane)
  {
    assert plan'.Keys == plan.Keys;
    assert |plan'| == |plan'.Keys| && |plan| == |plan.Keys|;
    assert forall u :: u in plan ==> plan'[u].no == plan[u].no && plan'[u].coord == plan[u].coord;
  }

  lemma PairUntouched(cfg: Config, plan: Plan, plan': Plan, loops: seq<Work>, lane: seq<Packet>, s: nat, t: TxnId,
                      i: nat)
    requires PairDone(cfg, plan, plan', loops, s, t, i) && LaneSound(cfg, plan, lane)
    requires ComingUntouched(cfg, plan, loops, lane) && ComingLater(cfg, plan, loops, lane)
    ensures ComingUntouched(cfg, plan', loops, lane)
  {
    forall w, r | Coming(plan', loops, lane, w, r) ensures !Started(cfg, plan'[w], r) {
      PairRoles(cfg, plan, plan', loops, lane, s, t, i, w, r);
    }
  }

  lemma PairLater(cfg: Config, plan: Plan, plan': Plan, loops: seq<Work>, lane: seq<Packet>, s: nat, t: TxnId, i: nat)
    requires PairDone(cfg, plan, plan', loops, s, t, i) && LaneSound(cfg, plan, lane)
    requires ComingLater(cfg, plan, loops, lane)
    ensures ComingLater(cfg, plan', loops, lane)
  {
    forall w, u, r | Coming(plan', loops, lane, w, r) && u in plan' && plan'[u].coord == plan'[w].coord
                     && (Started(cfg, plan'[u], r) || Looping(loops, r, u))
      ensures plan'[u].no < plan'[w].no
    {
      PairRoles(cfg, plan, plan', loops, lane, s, t, i, w, r);
      PairRoles(cfg, plan, plan', loops, lane, s, t, i, u, r);
    }
  }

  lemma PairLatest(cfg: Config, plan: Plan, plan': Plan, loops: seq<Work>, lane: seq<Packet>, s: nat, t: TxnId, i: nat)
    requires PairDone(cfg, plan, plan', loops, s, t, i) && LoopLatest(cfg, plan, loops)
    ensures LoopLatest(cfg, plan', loops)
  {
    forall w, u, r | Looping(loops, r, w) && w in plan' && u in plan' && plan'[u].coord == plan'[w].coord
                     && Started(cfg, plan'[u], r)
      ensures plan'[u].no <= plan'[w].no
    {
      PairRoles(cfg, plan, plan', loops, lane, s, t, i, u, r);
    }
  }

  // ---------------------------------------------------------------- send a batch

  lemma SendRoles(plan: Plan, loops: seq<Work>, lane: seq<Packet>, c: nat, t: TxnId, dst: nat, u: TxnId, s: nat)
    requires Unsent(loops, c, t, dst) && t in plan && plan[t].coord == c
    ensures var loops' := loops[c := Preparing(t, loops[c].unsent - {dst})];
      var lane' := lane + [Packet(c, dst, Batch(t))];
      && Looping(loops', s, u) == Looping(loops, s, u)
      && Coming(plan, loops', lane', u, s) == Coming(plan, loops, lane, u, s)
      && (Unsent(loops', c, u, s) <==> Unsent(loops, c, u, s) && s != dst)
  {
    var lane' := lane + [Packet(c, dst, Batch(t))];
    assert forall p :: p in lane' <==> p in lane || p == Packet(c, dst, Batch(t));
  }

  lemma LineSend(cfg: Config, plan: Plan, loops: seq<Work>, lane: seq<Packet>, c: nat, t: TxnId, dst: nat)
    requires LineInv(cfg, plan, loops, lane) && Unsent(loops, c, t, dst)
    ensures LineInv(cfg, plan, loops[c := Preparing(t, loops[c].unsent - {dst})], lane + [Packet(c, dst, Batch(t))])
  {
    SendSound(cfg, plan, loops, lane, c, t, dst);
    SendLater(cfg, plan, loops, lane, c, t, dst);
    SendOrder(cfg, plan, loops, lane, c, t, dst);
  }

  lemma SendSound(cfg: Config, plan: Plan, loops: seq<Work>, lane: seq<Packet>, c: nat, t: TxnId, dst: nat)
    requires Unsent(loops, c, t, dst) && LaneSound(cfg, plan, lane) && LoopsSound(cfg, plan, loops)
    ensures LaneSound(cfg, plan, lane + [Packet(c, dst, Batch(t))])
    ensures LoopsSound(cfg, plan, loops[c := Preparing(t, loops[c].unsent - {dst})])
  {
    assert dst in loops[c].unsent && dst in Upto(cfg.shards);
  }

  lemma SendLater(cfg: Config, plan: Plan, loops: seq<Work>, lane: seq<Packet>, c: nat, t: TxnId, dst: nat)
    requires Unsent(loops, c, t, dst) && t in plan && plan[t].coord == c
    requires ComingUntouched(cfg, plan, loops, lane) && ComingLater(cfg, plan, loops, lane)
    requires LoopLatest(cfg, plan, loops) && NothingLost(cfg, plan, loops, lane)
    ensures var loops' := loops[c := Preparing(t, loops[c].unsent - {dst})];
      var lane' := lane + [Packet(c, dst, Batch(t))];
      && ComingUntouched(cfg, plan, loops', lane') && ComingLater(cfg, plan, loops', lane')
      && LoopLatest(cfg, plan, loops') && NothingLost(cfg, plan, loops', lane')
  {
    forall u, s: nat
      ensures var loops' := loops[c := Preparing(t, loops[c].unsent - {dst})];
        var lane' := lane + [Packet(c, dst, Batch(t))];
        Looping(loops', s, u) == Looping(loops, s, u)
        && Coming(plan, loops', lane', u, s) == Coming(plan, loops, lane, u, s)
    {
      SendRoles(plan, loops, lane, c, t, dst, u, s);
    }
  }

  lemma SendOrder(cfg: Config, plan: Plan, loops: seq<Work>, lane: seq<Packet>, c: nat, t: TxnId, dst: nat)
    requires Unsent(loops, c, t, dst) && t in plan && plan[t].coord == c && LaneSound(cfg, plan, lane)
    requires LaneOrder(plan, loops, lane)
    ensures LaneOrder(plan, loops[c := Preparing(t, loops[c].unsent - {dst})], lane + [Packet(c, dst, Batch(t))])
  {
    var p := Packet(c, dst, Batch(t));
    var lane' := lane + [p];
    var loops' := loops[c := Preparing(t, loops[c].unsent - {dst})];
    forall i, j | 0 <= i < j < |lane'| && lane'[i].src == lane'[j].src && lane'[i].dst == lane'[j].dst
                  && lane'[i].msg.t in plan && lane'[j].msg.t in plan
      ensures plan[lane'[i].msg.t].no < plan[lane'[j].msg.t].no
    {
      assert lane'[i] == lane[i] && lane[i] in lane;
      if j == |lane| {
        assert lane[i] == Packet(c, dst, Batch(lane[i].msg.t));
      }
    }
    forall c', w, s, u | Unsent(loops', c', w, s) && Packet(c', s, Batch(u)) in lane' && w in plan && u in plan
      ensures plan[u].no < plan[w].no
    {
      assert Unsent(loops, c', w, s);
      assert Packet(c', s, Batch(u)) in lane;
    }
  }

  // ---------------------------------------------------------------- deliver a batch, end a loop

  lemma RemoveMembers(lane: seq<Packet>, j: nat, p: Packet)
    requires j < |lane|
    ensures p in lane[..j] + lane[j + 1..] ==> p in lane
    ensures p in lane && p != lane[j] ==> p in lane[..j] + lane[j + 1..]
  {
    if p in lane && p != lane[j] {
      var i :| 0 <= i < |lane| && lane[i] == p;
      assert p == if i < j then lane[..j][i] else lane[j + 1..][i - j - 1];
    }
  }

  /** Packet `j` of the lane, first of its channel, starts a loop on the idle shard it is sent to. */
  lemma LineDeliver(cfg: Config, plan: Plan, loops: seq<Work>, lane: seq<Packet>, j: nat)
    requires LineInv(cfg, plan, loops, lane) && j < |lane| && lane[j].dst < |loops| && loops[lane[j].dst].Idle?
    requires forall i :: 0 <= i < j ==> lane[i].src != lane[j].src || lane[i].dst != lane[j].dst
    ensures LineInv(cfg, plan, loops[lane[j].dst := Preparing(lane[j].msg.t, {})], lane[..j] + lane[j + 1..])
  {
    hide ComingUntouched, ComingLater, LoopLatest, LaneOrder, NothingLost, LaneSound, LoopsSound, Numbered;
    DeliverLater(cfg, plan, loops, lane, j);
    DeliverOrder(cfg, plan, loops, lane, j);
    DeliverSound(cfg, plan, loops, lane, j);
    DeliverLost(cfg, plan, loops, lane, j);
  }

  lemma DeliverSound(cfg: Config, plan: Plan, loops: seq<Work>, lane: seq<Packet>, j: nat)
    requires LaneSound(cfg, plan, lane) && LoopsSound(cfg, plan, loops) && j < |lane| && lane[j].dst < |loops|
    ensures LaneSound(cfg, plan, lane[..j] + lane[j + 1..])
    ensures LoopsSound(cfg, plan, loops[lane[j].dst := Preparing(lane[j].msg.t, {})])
  {
    assert lane[j] in lane;
    var lane' := lane[..j] + lane[j + 1..];
    assert forall q :: q in lane' ==> q in lane;
  }

  lemma DeliverLost(cfg: Config, plan: Plan, loops: seq<Work>, lane: seq<Packet>, j: nat)
    requires LaneSound(cfg, plan, lane) && NothingLost(cfg, plan, loops, lane)
    requires j < |lane| && lane[j].dst < |loops| && loops[lane[j].dst].Idle?
    ensures NothingLost(cfg, plan, loops[lane[j].dst := Preparing(lane[j].msg.t, {})], lane[..j] + lane[j + 1..])
  {
    hide Coming, Looping, LaneSound;
    var lane' := lane[..j] + lane[j + 1..];
    var loops' := loops[lane[j].dst := Preparing(lane[j].msg.t, {})];
    forall u, s: nat | u in plan && LeftAt(cfg, plan[u], s) != {}
      ensures Looping(loops', s, u) || Coming(plan, loops', lane', u, s)
    {
      DeliverRoles(cfg, plan, loops, lane, j, u, s);
    }
  }

  lemma DeliverRoles(cfg: Config, plan: Plan, loops: seq<Work>, lane: seq<Packet>, j: nat, u: TxnId, s: nat)
    requires j < |lane| && lane[j].dst < |loops| && loops[lane[j].dst].Idle? && LaneSound(cfg, plan, lane)
    ensures var p := lane[j];
      var loops' := loops[p.dst := Preparing(p.msg.t, {})]; var lane' := lane[..j] + lane[j + 1..];
      && (Looping(loops', s, u) <==> Looping(loops, s, u) || (s == p.dst && u == p.msg.t))
      && (Coming(plan, loops', lane', u, s) ==> Coming(plan, loops, lane, u, s))
      && (Coming(plan, loops, lane, u, s) ==> Coming(plan, loops', lane', u, s) || (s == p.dst && u == p.msg.t))
      && (forall c :: Unsent(loops', c, u, s) == Unsent(loops, c, u, s))
  {
    assert lane[j] in lane;
    if u in plan {
      RemoveMembers(lane, j, Packet(plan[u].coord, s, Batch(u)));
    }
  }

  /** What is still coming to the shard was dispatched after the batch just delivered. */
  lemma DeliverFirst(cfg: Config, plan: Plan, loops: seq<Work>, lane: seq<Packet>, j: nat, w: TxnId)
    requires LaneSound(cfg, plan, lane) && LaneOrder(plan, loops, lane) && LoopsSound(cfg, plan, loops)
    requires j < |lane| && lane[j].dst < |loops| && loops[lane[j].dst].Idle?
    requires forall i :: 0 <= i < j ==> lane[i].src != lane[j].src || lane[i].dst != lane[j].dst
    requires lane[j].msg.t in plan && w in plan && plan[w].coord == plan[lane[j].msg.t].coord
    requires Coming(plan, loops[lane[j].dst := Preparing(lane[j].msg.t, {})], lane[..j] + lane[j + 1..], w, lane[j].dst)
    ensures plan[lane[j].msg.t].no < plan[w].no
  {
    var p := lane[j];
    assert p in lane;
    DeliverRoles(cfg, plan, loops, lane, j, w, p.dst);
    var q := Packet(plan[w].coord, p.dst, Batch(w));
    var lane' := lane[..j] + lane[j + 1..];
    if q in lane' {
      var i :| 0 <= i < |lane'| && lane'[i] == q;
      var i' := if i < j then i else i + 1;
      assert lane[i'] == q;
      assert j < i';
    }
  }

  lemma DeliverLater(cfg: Config, plan: Plan, loops: seq<Work>, lane: seq<Packet>, j: nat)
    requires LineInv(cfg, plan, loops, lane) && j < |lane| && lane[j].dst < |loops| && loops[lane[j].dst].Idle?
    requires forall i :: 0 <= i < j ==> lane[i].src != lane[j].src || lane[i].dst != lane[j].dst
    ensures var loops' := loops[lane[j].dst := Preparing(lane[j].msg.t, {})]; var lane' := lane[..j] + lane[j + 1..];
      && ComingUntouched(cfg, plan, loops', lane') && ComingLater(cfg, plan, loops', lane')
      && LoopLatest(cfg, plan, loops')
  {
    var p := lane[j];
    assert p in lane;
    assert Coming(plan, loops, lane, p.msg.t, p.dst);
    var loops' := loops[p.dst := Preparing(p.msg.t, {})];
    var lane' := lane[..j] + lane[j + 1..];
    forall w, s | Coming(plan, loops', lane', w, s) ensures !Started(cfg, plan[w], s) {
      DeliverRoles(cfg, plan, loops, lane, j, w, s);
    }
    forall w, u, s | Coming(plan, loops', lane', w, s) && u in plan && plan[u].coord == plan[w].coord
                     && (Started(cfg, plan[u], s) || Looping(loops', s, u))
      ensures plan[u].no < plan[w].no
    {
      DeliverRoles(cfg, plan, loops, lane, j, w, s);
      DeliverRoles(cfg, plan, loops, lane, j, u, s);
      if !Started(cfg, plan[u], s) && !Looping(loops, s, u) {
        DeliverFirst(cfg, plan, loops, lane, j, w);
      }
    }
    forall w, u, s | Looping(loops', s, w) && w in plan && u in plan && plan[u].coord == plan[w].coord
                     && Started(cfg, plan[u], s)
      ensures plan[u].no <= plan[w].no
    {
      DeliverRoles(cfg, plan, loops, lane, j, w, s);
    }
  }

  lemma DeliverOrder(cfg: Config, plan: Plan, loops: seq<Work>, lane: seq<Packet>, j: nat)
    requires j < |lane| && lane[j].dst < |loops| && loops[lane[j].dst].Idle? && LaneSound(cfg, plan, lane)
    requires LaneOrder(plan, loops, lane)
    ensures LaneOrder(plan, loops[lane[j].dst := Preparing(lane[j].msg.t, {})], lane[..j] + lane[j + 1..])
  {
    var lane' := lane[..j] + lane[j + 1..];
    var loops' := loops[lane[j].dst := Preparing(lane[j].msg.t, {})];
    assert forall i :: 0 <= i < |lane'| ==> lane'[i] == lane[if i < j then i else i + 1];
    forall c, w, s, u | Unsent(loops', c, w, s) && Packet(c, s, Batch(u)) in lane' && w in plan && u in plan
      ensures plan[u].no < plan[w].no
    {
      DeliverRoles(cfg, plan, loops, lane, j, w, s);
      RemoveMembers(lane, j, Packet(c, s, Batch(u)));
    }
  }

  lemma LineExit(cfg: Config, plan: Plan, loops: seq<Work>, lane: seq<Packet>, s: nat)
    requires LineInv(cfg, plan, loops, lane) && s < |loops| && loops[s].Preparing? && loops[s].unsent == {}
    requires LeftAt(cfg, plan[loops[s].t], s) == {}
    ensures LineInv(cfg, plan, loops[s := Idle], lane)
  {
    var loops' := loops[s := Idle];
    forall u, r | u in plan && LeftAt(cfg, plan[u], r) != {}
      ensures Looping(loops', r, u) || Coming(plan, loops', lane, u, r)
    {
      ExitRoles(plan, loops, lane, s, u, r);
    }
    ExitLater(cfg, plan, loops, lane, s);
  }

  lemma ExitRoles(plan: Plan, loops: seq<Work>, lane: seq<Packet>, s: nat, u: TxnId, r: nat)
    requires s < |loops| && loops[s].Preparing? && loops[s].unsent == {}
    ensures var loops' := loops[s := Idle];
      && (Looping(loops', r, u) <==> Looping(loops, r, u) && r != s)
      && Coming(plan, loops', lane, u, r) == Coming(plan, loops, lane, u, r)
      && (forall c :: Unsent(loops', c, u, r) == Unsent(loops, c, u, r))
  {
  }

  lemma ExitLater(cfg: Config, plan: Plan, loops: seq<Work>, lane: seq<Packet>, s: nat)
    requires s < |loops| && loops[s].Preparing? && loops[s].unsent == {}
    requires ComingUntouched(cfg, plan, loops, lane) && ComingLater(cfg, plan, loops, lane)
    requires LoopLatest(cfg, plan, loops) && LaneOrder(plan, loops, lane)
    ensures var loops' := loops[s := Idle];
      && ComingUntouched(cfg, plan, loops', lane) && ComingLater(cfg, plan, loops', lane)
      && LoopLatest(cfg, plan, loops') && LaneOrder(plan, loops', lane)
  {
    var loops' := loops[s := Idle];
    forall u, r: nat
      ensures Looping(loops', r, u) ==> Looping(loops, r, u)
      ensures Coming(plan, loops', lane, u, r) == Coming(plan, loops, lane, u, r)
      ensures forall c :: Unsent(loops', c, u, r) == Unsent(loops, c, u, r)
    {
      ExitRoles(plan, loops, lane, s, u, r);
    }
  }
}
