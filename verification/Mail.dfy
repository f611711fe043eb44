/**
 * The queues into one shard together with their wake-up handshake: every step of a push, of a pop
 * and of the handshake interleaves with the others. A message counts as unread in the handshake
 * from the step that publishes it to the step that ends its pop.
 */
module Mail {
  import Q = Spsc
  import W = Wake

  /** `qs[i]` is queue `i` of the handshake. */
  datatype State = State(w: W.State, qs: seq<Q.State>)

  /** A step of the handshake, of a push before and at its publication, and of the receiver's pop. */
  datatype Event = Shake(e: W.Event) | Push(i: nat, q: Q.Event) | Publish(i: nat, later: bool) | Take(i: nat)

  function Boot(n: nat, junk: seq<Q.Msg>): State {
    State(W.Boot(n), seq(n, _ => Q.Boot(junk)))
  }

  predicate Sane(s: State) {
    && W.Sane(s.w) && |s.qs| == |s.w.unread|
    && forall i :: 0 <= i < |s.qs| ==> Q.Sane(s.qs[i].q)
  }

  /** The receiver's steps on a queue's messages are those of `Take`. */
  predicate Handshake(w: W.State, e: W.Event) {
    e.Send? || e.Flush? || (e.Receive? && !w.r.Pop?)
  }

  predicate Inner(q: Q.Queue, e: Q.Event) {
    e.StartPush? || e.Expand? || e.NoMemory? || (e.Produce? && !q.p.PWrote?)
  }

  function PopStep(q: Q.Queue): Q.Event {
    if q.c.CIdle? then Q.StartPop else Q.Consume
  }

  /** This step finds the queue empty, or returns a message. */
  predicate PopEnds(q: Q.Queue) {
    (q.c.CLoaded? && q.c.t == q.head) || q.c.CRead?
  }

  predicate Enabled(s: State, e: Event)
    requires Sane(s)
  {
    match e
    case Shake(x) => Handshake(s.w, x) && W.Enabled(s.w, x)
    case Push(i, x) => i < |s.qs| && s.w.sender[i].Ready? && Inner(s.qs[i].q, x) && Q.Enabled(s.qs[i], x)
    case Publish(i, _) => i < |s.qs| && s.w.sender[i].Ready? && s.qs[i].q.p.PWrote?
    case Take(i) => i < |s.qs| && s.w.r == W.Pop(i)
  }

  function Apply(s: State, e: Event): State
    requires Sane(s) && Enabled(s, e)
  {
    match e
    case Shake(x) => s.(w := W.Apply(s.w, x))
    case Push(i, x) => s.(qs := s.qs[i := Q.Apply(s.qs[i], x)])
    case Publish(i, later) =>
      State(W.Apply(s.w, if later then W.SendLater(i) else W.SendNow(i)), s.qs[i := Q.Apply(s.qs[i], Q.Produce)])
    case Take(i) =>
      var q := s.qs[i];
      State(if PopEnds(q.q) then W.Received(s.w) else s.w, s.qs[i := Q.Apply(q, PopStep(q.q))])
  }

  // ---------------------------------------------------------------- invariant

  /** The handshake counts the messages of queue `i`, and a pop under way is the receiver's. */
  ghost predicate Linked(w: W.State, q: Q.State, i: int)
    requires 0 <= i < |w.unread|
  {
    && Q.Inv(q) && w.unread[i] == |q.h.pushed| - |q.h.popped|
    && (!q.q.c.CIdle? ==> w.r == W.Pop(i))
  }

  ghost predicate Inv(s: State) {
    && W.Inv(s.w) && |s.qs| == |s.w.unread|
    && forall i :: 0 <= i < |s.qs| ==> Linked(s.w, s.qs[i], i)
  }

  lemma QueueFacts(q: Q.State)
    requires Q.Inv(q)
    ensures Q.Sane(q.q) && q.q.tail == |q.h.popped| && q.q.head == |q.h.pushed| && q.h.popped <= q.h.pushed
    ensures q.q.c.CLoaded? ==> q.q.c.t == q.q.tail
    ensures q.q.c.CRead? ==> q.q.c.t == q.q.tail < q.q.head
  {
    var ring, base, w :| Q.RingInv(q, ring, base, w);
  }

  lemma InvSane(s: State)
    requires Inv(s)
    ensures Sane(s)
  {
    forall i | 0 <= i < |s.qs| ensures Q.Sane(s.qs[i].q) {
      assert Linked(s.w, s.qs[i], i);
      QueueFacts(s.qs[i]);
    }
  }

  lemma BootHolds(n: nat, junk: seq<Q.Msg>)
    requires |junk| == Q.SEG
    ensures Inv(Boot(n, junk))
  {
    W.BootHolds(n);
    Q.BootHolds(junk);
  }

  /** The one queue a step is about, before and after; the others stay. */
  lemma OneQueue(s: State, s': State, i: nat)
    requires Inv(s) && i < |s.qs| && W.Inv(s'.w) && |s'.w.unread| == |s.w.unread|
    requires |s'.qs| == |s.qs| && s'.qs == s.qs[i := s'.qs[i]] && Linked(s'.w, s'.qs[i], i)
    requires forall j :: 0 <= j < |s.qs| && j != i ==> s'.w.unread[j] == s.w.unread[j]
    requires s'.w.r == s.w.r || s.w.r == W.Pop(i)
    ensures Inv(s')
  {
    forall j | 0 <= j < |s'.qs| && j != i ensures Linked(s'.w, s'.qs[j], j) {
      assert Linked(s.w, s.qs[j], j);
    }
  }

  lemma ShakeKeeps(s: State, x: W.Event)
    requires Inv(s) && Sane(s) && Enabled(s, Shake(x))
    ensures Inv(Apply(s, Shake(x)))
  {
    W.StepKeeps(s.w, x);
    var s' := Apply(s, Shake(x));
    forall i | 0 <= i < |s'.qs| ensures Linked(s'.w, s'.qs[i], i) {
      assert Linked(s.w, s.qs[i], i);
    }
  }

  lemma PushKeeps(s: State, i: nat, x: Q.Event)
    requires Inv(s) && Sane(s) && Enabled(s, Push(i, x))
    ensures Inv(Apply(s, Push(i, x)))
  {
    assert Linked(s.w, s.qs[i], i);
    Q.StepKeeps(s.qs[i], x);
    hide Q.Inv, W.QueueOk, Q.Sane;
    OneQueue(s, Apply(s, Push(i, x)), i);
  }

  lemma PublishKeeps(s: State, i: nat, later: bool)
    requires Inv(s) && Sane(s) && Enabled(s, Publish(i, later))
    ensures Inv(Apply(s, Publish(i, later)))
  {
    assert Linked(s.w, s.qs[i], i);
    QueueFacts(s.qs[i]);
    Q.StepKeeps(s.qs[i], Q.Produce);
    W.StepKeeps(s.w, if later then W.SendLater(i) else W.SendNow(i));
    hide Q.Inv, W.QueueOk, Q.Sane;
    OneQueue(s, Apply(s, Publish(i, later)), i);
  }

  lemma TakeKeeps(s: State, i: nat)
    requires Inv(s) && Sane(s) && Enabled(s, Take(i))
    ensures Inv(Apply(s, Take(i)))
  {
    var q := s.qs[i];
    assert Linked(s.w, q, i);
    QueueFacts(q);
    Q.StepKeeps(q, PopStep(q.q));
    if PopEnds(q.q) { W.StepKeeps(s.w, W.Receive); }
    hide Q.Inv, W.QueueOk, Q.Sane;
    OneQueue(s, Apply(s, Take(i)), i);
  }

  lemma StepKeeps(s: State, e: Event)
    requires Inv(s) && Sane(s) && Enabled(s, e)
    ensures Inv(Apply(s, e))
  {
    match e
    case Shake(x) => ShakeKeeps(s, x);
    case Push(i, x) => PushKeeps(s, i, x);
    case Publish(i, later) => PublishKeeps(s, i, later);
    case Take(i) => TakeKeeps(s, i);
  }

  // ---------------------------------------------------------------- runs

  ghost predicate Runs(s: State, events: seq<Event>)
    decreases |events|
  {
    events == [] || (Sane(s) && Enabled(s, events[0]) && Runs(Apply(s, events[0]), events[1..]))
  }

  ghost function Final(s: State, events: seq<Event>): State
    requires Runs(s, events)
    decreases |events|
  {
    if events == [] then s else Final(Apply(s, events[0]), events[1..])
  }

  lemma {:induction false} RunKeeps(s: State, events: seq<Event>)
    requires Inv(s) && Runs(s, events)
    ensures Inv(Final(s, events))
    decreases |events|
  {
    hide Inv, Sane;
    if events != [] {
      StepKeeps(s, events[0]);
      RunKeeps(Apply(s, events[0]), events[1..]);
    }
  }

  // ---------------------------------------------------------------- what was sent

  /** The step of queue `i` that this event is, if it is a step of its sender. */
  function SenderStep(e: Event, i: nat): seq<Q.Event> {
    match e
    case Push(j, x) => if i == j then [x] else []
    case Publish(j, _) => if i == j then [Q.Produce] else []
    case _ => []
  }

  /** The messages sent to queue `i` by these events, on top of `sent`. */
  function Sent(sent: seq<Q.Msg>, events: seq<Event>, i: nat): seq<Q.Msg>
    decreases |events|
  {
    if events == [] then sent else Sent(Q.Sent(sent, SenderStep(events[0], i)), events[1..], i)
  }

  lemma StepCarries(s: State, e: Event, i: nat, sent: seq<Q.Msg>)
    requires Sane(s) && Enabled(s, e) && i < |s.qs| && Q.Carried(s.qs[i], sent)
    ensures Q.Carried(Apply(s, e).qs[i], Q.Sent(sent, SenderStep(e, i)))
  {
    hide Q.Sane, Q.Carried;
    var steps := SenderStep(e, i);
    if steps != [] {
      assert steps[1..] == [];
      Q.StepCarries(s.qs[i], steps[0], sent);
    } else if e.Take? && e.i == i {
      Q.StepCarries(s.qs[i], PopStep(s.qs[i].q), sent);
    }
  }

  lemma {:induction false} RunCarries(s: State, events: seq<Event>, i: nat, sent: seq<Q.Msg>)
    requires Runs(s, events) && i < |s.qs| && Q.Carried(s.qs[i], sent)
    ensures i < |Final(s, events).qs| && Q.Carried(Final(s, events).qs[i], Sent(sent, events, i))
    decreases |events|
  {
    hide Q.Carried, Sane;
    if events != [] {
      StepCarries(s, events[0], i, sent);
      RunCarries(Apply(s, events[0]), events[1..], i, Q.Sent(sent, SenderStep(events[0], i)));
    }
  }

  /** Steps after which no more messages have been published. */
  predicate Own(e: Event) {
    e.Shake? || e.Take?
  }

  ghost predicate Moves(s: State) {
    Sane(s) && exists e :: Own(e) && Enabled(s, e)
  }

  ghost predicate Proceeds(s: State, e: Event, s': State) {
    if Moves(s) then Own(e) && Enabled(s, e) && s' == Apply(s, e) else s' == s
  }

  /** An endless continuation in which no message is published. */
  ghost predicate LeftAlone(run: nat -> State, steps: nat -> Event) {
    forall i: nat :: Proceeds(run(i), steps(i), run(i + 1))
  }

  /** Steps to the end of the pop under way. */
  function PopRank(s: State): nat
    requires Sane(s)
  {
    if !s.w.r.Pop? then 0
    else match s.qs[s.w.r.i].q.c
      case CIdle => 5
      case CLoaded(_) => 4
      case CFound(_) => 3
      case CMoved(_) => 2
      case CReady(_) => 1
      case CRead(_, _) => 0
  }

  lemma StepLowers(s: State, e: Event)
    requires Inv(s) && Sane(s) && Own(e) && Enabled(s, e) && Sane(Apply(s, e))
    ensures var s' := Apply(s, e);
      W.Lower(W.RankOf(s'.w), W.RankOf(s.w)) || (s'.w == s.w && PopRank(s') < PopRank(s))
  {
    hide W.RankOf, W.QueueOk, Q.Inv;
    match e
    case Shake(x) => W.StepLowers(s.w, x);
    case Take(i) =>
      if PopEnds(s.qs[i].q) { W.StepLowers(s.w, W.Receive); }
  }

  /** With nothing more to do, every queue has been popped to its end. */
  lemma AtRest(s: State)
    requires Inv(s) && !Moves(s)
    ensures s.w.r.Asleep? && forall i :: 0 <= i < |s.qs| ==> s.qs[i].h.popped == s.qs[i].h.pushed
  {
    InvSane(s);
    assert s.w.r.Pop? ==> Own(Take(s.w.r.i)) && Enabled(s, Take(s.w.r.i));
    forall x | W.Own(x) ensures !W.Enabled(s.w, x) {
      assert !Enabled(s, Shake(x));
    }
    W.AtRest(s.w);
    forall i | 0 <= i < |s.qs| ensures s.qs[i].h.popped == s.qs[i].h.pushed {
      assert Linked(s.w, s.qs[i], i);
      QueueFacts(s.qs[i]);
    }
  }

  lemma {:induction false} ComesToRest(run: nat -> State, steps: nat -> Event, i: nat) returns (m: nat)
    requires LeftAlone(run, steps) && Inv(run(i)) && Sane(run(i))
    ensures Inv(run(m)) && !Moves(run(m))
    decreases W.RankOf(run(i).w).owed, W.RankOf(run(i).w).unread, W.RankOf(run(i).w).fd,
              W.RankOf(run(i).w).distance, PopRank(run(i))
  {
    hide Moves, Inv, Sane, W.RankOf, PopRank, Apply;
    assert Proceeds(run(i), steps(i), run(i + 1));
    if Moves(run(i)) {
      StepKeeps(run(i), steps(i));
      InvSane(run(i + 1));
      StepLowers(run(i), steps(i));
      m := ComesToRest(run, steps, i + 1);
    } else {
      m := i;
    }
  }

  lemma {:induction false} RestLasts(run: nat -> State, steps: nat -> Event, m: nat, i: nat)
    requires LeftAlone(run, steps) && !Moves(run(m)) && m <= i
    ensures run(i) == run(m)
    decreases i
  {
    hide Moves;
    if m < i {
      RestLasts(run, steps, m, i - 1);
      assert Proceeds(run(i - 1), steps(i - 1), run(i));
    }
  }

  /** No step of the continuation touches a sender's push or what it has published. */
  lemma {:induction false} SendersStay(run: nat -> State, steps: nat -> Event, m: nat)
    requires LeftAlone(run, steps)
    ensures |run(m).qs| == |run(0).qs|
    ensures forall i :: 0 <= i < |run(m).qs| ==>
      run(m).qs[i].h.pushed == run(0).qs[i].h.pushed && run(m).qs[i].q.p == run(0).qs[i].q.p
    decreases m
  {
    hide Moves;
    if m > 0 {
      SendersStay(run, steps, m - 1);
      assert Proceeds(run(m - 1), steps(m - 1), run(m));
      if Moves(run(m - 1)) {
        MovesSane(run(m - 1));
        OwnLeavesSenders(run(m - 1), steps(m - 1));
      }
    }
  }

  lemma MovesSane(s: State)
    requires Moves(s)
    ensures Sane(s)
  {
  }

  lemma OwnLeavesSenders(s: State, e: Event)
    requires Sane(s) && Own(e) && Enabled(s, e)
    ensures var s' := Apply(s, e);
      && |s'.qs| == |s.qs|
      && forall i :: 0 <= i < |s.qs| ==> s'.qs[i].h.pushed == s.qs[i].h.pushed && s'.qs[i].q.p == s.qs[i].q.p
  {
    hide Q.Sane;
  }

  /**
   * From state `m` on the receiver sleeps, and what was popped from each queue is what `events` sent
   * to it, in order, but for the message of a push still under way.
   */
  ghost predicate Delivered(events: seq<Event>, run: nat -> State, m: nat) {
    && (forall i: nat :: m <= i ==> run(i) == run(m)) && run(m).w.r.Asleep?
    && forall i :: 0 <= i < |run(m).qs| ==> run(m).qs[i].h.popped + Q.UnderWay(run(m).qs[i].q.p) == Sent([], events, i)
  }

  /**
   * Whatever has happened, once senders stop publishing, every schedule ends with every message that
   * was sent popped, in the order in which it was sent.
   */
  lemma EveryMessageArrives(n: nat, junk: seq<Q.Msg>, events: seq<Event>, run: nat -> State, steps: nat -> Event)
    requires |junk| == Q.SEG && Runs(Boot(n, junk), events)
    requires run(0) == Final(Boot(n, junk), events) && LeftAlone(run, steps)
    ensures exists m: nat :: Delivered(events, run, m)
  {
    hide Moves, LeftAlone, Inv, Sane;
    BootHolds(n, junk);
    RunKeeps(Boot(n, junk), events);
    InvSane(run(0));
    var m := ComesToRest(run, steps, 0);
    AtRest(run(m));
    forall i: nat | m <= i ensures run(i) == run(m) {
      RestLasts(run, steps, m, i);
    }
    SendersStay(run, steps, m);
    SameQueues(Boot(n, junk), events);
    forall i: nat | i < |run(m).qs|
      ensures run(m).qs[i].h.popped + Q.UnderWay(run(m).qs[i].q.p) == Sent([], events, i)
    {
      RunCarries(Boot(n, junk), events, i, []);
    }
    assert Delivered(events, run, m);
  }

  lemma {:induction false} SameQueues(s: State, events: seq<Event>)
    requires Runs(s, events)
    ensures |Final(s, events).qs| == |s.qs|
    decreases |events|
  {
    if events != [] { SameQueues(Apply(s, events[0]), events[1..]); }
  }
}
