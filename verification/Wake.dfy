/**
 * The wake-up handshake between the queues into one shard and the event descriptor that shard
 * sleeps on. Each queue has a `wake_edge` flag: a sender that raises it writes the descriptor,
 * and the drain loop lowers it before it looks at the queue for the last time.
 */
module Wake {

  /**
   * A sender: `Exchange` has published a message and will raise the flag; `Owes` raised it and
   * will write the descriptor; `Mark` has published a message and will note the wake-up for later.
   */
  datatype Sender = Ready | Exchange | Owes | Mark

  /** The receiver: asleep, or at queue `i` of its drain loop. */
  datatype Receiver = Asleep | Pop(i: nat) | Disarm(i: nat) | Check(i: nat) | Rearm(i: nat)

  /** `unread[i]`, `edge[i]`, `sender[i]` and `deferred[i]` belong to queue `i`. */
  datatype State = State(unread: seq<nat>, edge: seq<bool>, sender: seq<Sender>, deferred: seq<bool>,
                         fd: bool, r: Receiver)

  datatype Event = SendNow(i: nat) | SendLater(i: nat) | Send(i: nat) | Flush(i: nat) | Receive

  function Boot(n: nat): State {
    State(seq(n, _ => 0), seq(n, _ => false), seq(n, _ => Ready), seq(n, _ => false), false, Asleep)
  }

  predicate Sane(s: State) {
    && |s.unread| == |s.edge| == |s.sender| == |s.deferred|
    && (!s.r.Asleep? ==> s.r.i < |s.unread|)
  }

  predicate Enabled(s: State, e: Event)
    requires Sane(s)
  {
    match e
    case SendNow(i) => i < |s.sender| && s.sender[i].Ready?
    case SendLater(i) => i < |s.sender| && s.sender[i].Ready?
    case Send(i) => i < |s.sender| && !s.sender[i].Ready?
    case Flush(i) => i < |s.sender| && s.sender[i].Ready? && s.deferred[i]
    case Receive => s.r.Asleep? ==> s.fd
  }

  function Published(s: State, i: nat, next: Sender): State
    requires Sane(s) && i < |s.sender|
  {
    s.(unread := s.unread[i := s.unread[i] + 1], sender := s.sender[i := next])
  }

  function Sent(s: State, i: nat): State
    requires Sane(s) && i < |s.sender| && !s.sender[i].Ready?
  {
    match s.sender[i]
    case Exchange => s.(edge := s.edge[i := true], sender := s.sender[i := if s.edge[i] then Ready else Owes])
    case Owes => s.(fd := true, sender := s.sender[i := Ready])
    case Mark => s.(deferred := s.deferred[i := true], sender := s.sender[i := Ready])
  }

  /** Queues after `i` are next; after the last one the receiver sleeps again. */
  function NextQueue(s: State, i: nat): Receiver {
    if i + 1 < |s.unread| then Pop(i + 1) else Asleep
  }

  function Received(s: State): State
    requires Sane(s)
  {
    match s.r
    case Asleep => s.(fd := false, r := if s.unread == [] then Asleep else Pop(0))
    case Pop(i) => if s.unread[i] > 0 then s.(unread := s.unread[i := s.unread[i] - 1]) else s.(r := Disarm(i))
    case Disarm(i) => s.(edge := s.edge[i := false], r := Check(i))
    case Check(i) => s.(r := if s.unread[i] == 0 then NextQueue(s, i) else Rearm(i))
    case Rearm(i) => s.(edge := s.edge[i := true], r := Pop(i))
  }

  function Apply(s: State, e: Event): State
    requires Sane(s) && Enabled(s, e)
  {
    match e
    case SendNow(i) => Published(s, i, Exchange)
    case SendLater(i) => Published(s, i, Mark)
    case Send(i) => Sent(s, i)
    case Flush(i) => s.(fd := true, deferred := s.deferred[i := false])
    case Receive => Received(s)
  }

  /** The receiver will not look at queue `i` again before it sleeps. */
  predicate Left(r: Receiver, i: nat) {
    r.Asleep? || r.i > i
  }

  predicate Disarmed(r: Receiver, i: nat) {
    Left(r, i) || r == Check(i)
  }

  /** A wake-up is pending, or the sender of queue `i` still has to cause one. */
  predicate WakeComing(s: State, i: nat)
    requires Sane(s) && i < |s.sender|
  {
    s.fd || !s.sender[i].Ready? || s.deferred[i]
  }

  ghost predicate QueueOk(s: State, i: nat)
    requires Sane(s) && i < |s.sender|
  {
    && (Disarmed(s.r, i) && s.edge[i] ==> s.fd || s.sender[i].Owes?)
    && (Left(s.r, i) && s.unread[i] > 0 ==> WakeComing(s, i))
  }

  ghost predicate Inv(s: State) {
    Sane(s) && forall i :: 0 <= i < |s.sender| ==> QueueOk(s, i)
  }

  lemma BootHolds(n: nat)
    ensures Inv(Boot(n))
  {
  }

  lemma StepKeeps(s: State, e: Event)
    requires Inv(s) && Enabled(s, e)
    ensures Inv(Apply(s, e))
  {
    var s' := Apply(s, e);
    forall i | 0 <= i < |s'.sender| ensures QueueOk(s', i) {
      assert QueueOk(s, i);
    }
  }

  // ---------------------------------------------------------------- runs

  ghost predicate Runs(s: State, events: seq<Event>)
    decreases |events|
  {
    events == [] || (Sane(s) && Enabled(s, events[0]) && Runs(Apply(s, events[0]), events[1..]))
  }

  ghost function Final(s: State, events: seq<Event>): State
    requires Runs(s, events)
    decreases |events|
  {
    if events == [] then s else Final(Apply(s, events[0]), events[1..])
  }

  lemma {:induction false} RunKeeps(s: State, events: seq<Event>)
    requires Inv(s) && Runs(s, events)
    ensures Inv(Final(s, events))
    decreases |events|
  {
    if events != [] {
      StepKeeps(s, events[0]);
      RunKeeps(Apply(s, events[0]), events[1..]);
    }
  }

  /** A non-empty queue that the receiver has finished with has a wake-up pending or owed. */
  lemma NoLostWakeup(n: nat, events: seq<Event>, i: nat)
    requires Runs(Boot(n), events)
    requires var s := Final(Boot(n), events); Sane(s) && i < |s.sender| && Left(s.r, i) && s.unread[i] > 0
    ensures WakeComing(Final(Boot(n), events), i)
  {
    BootHolds(n);
    RunKeeps(Boot(n), events);
    assert QueueOk(Final(Boot(n), events), i);
  }

  lemma TwoSteps(s: State, a: Event, b: Event)
    requires Sane(s) && Enabled(s, a) && Sane(Apply(s, a)) && Enabled(Apply(s, a), b)
    ensures Runs(s, [a, b]) && Final(s, [a, b]) == Apply(Apply(s, a), b)
  {
    assert [a, b][1..] == [b];
    assert Runs(Apply(s, a), [b]);
    assert [b][1..] == [];
    assert Final(Apply(s, a), [b]) == Final(Apply(Apply(s, a), b), []);
  }

  /** An owed wake-up is paid by the sender alone, in at most two more steps. */
  lemma OwedWakeupIsPaid(n: nat, events: seq<Event>, i: nat) returns (rest: seq<Event>)
    requires Runs(Boot(n), events)
    requires var s := Final(Boot(n), events); Sane(s) && i < |s.sender| && s.r.Asleep? && s.unread[i] > 0
    ensures |rest| <= 2 && forall e :: e in rest ==> e == Send(i) || e == Flush(i)
    ensures Runs(Final(Boot(n), events), rest) && Final(Final(Boot(n), events), rest).fd
  {
    NoLostWakeup(n, events, i);
    BootHolds(n);
    RunKeeps(Boot(n), events);
    var s := Final(Boot(n), events);
    assert QueueOk(s, i);
    rest := [];
    if !s.fd {
      match s.sender[i]
      case Ready => rest := [Flush(i)];
      case Owes => rest := [Send(i)];
      case Exchange =>
        rest := [Send(i), Send(i)];
        TwoSteps(s, Send(i), Send(i));
      case Mark =>
        rest := [Send(i), Flush(i)];
        TwoSteps(s, Send(i), Flush(i));
    }
  }

  // ---------------------------------------------------------------- every message is read

  /** Steps that publish no message: those of senders under way, flushes, and the receiver's. */
  predicate Own(e: Event) {
    e.Send? || e.Flush? || e.Receive?
  }

  ghost predicate Moves(s: State) {
    Sane(s) && exists e :: Own(e) && Enabled(s, e)
  }

  function Due(w: Sender): nat {
    match w
    case Ready => 0
    case Exchange => 2
    case Owes => 1
    case Mark => 2
  }

  /** Wake-ups that senders still have to see to. */
  function Owed(sender: seq<Sender>, deferred: seq<bool>): nat
    requires |sender| == |deferred|
  {
    if sender == [] then 0 else Due(sender[0]) + (if deferred[0] then 1 else 0) + Owed(sender[1..], deferred[1..])
  }

  function Total(unread: seq<nat>): nat {
    if unread == [] then 0 else unread[0] + Total(unread[1..])
  }

  /** How far the receiver is from its next pop or from the end of its round. */
  function Distance(s: State): nat
    requires Sane(s)
  {
    if s.r.Asleep? then 0
    else
      var busy := s.unread[s.r.i] > 0;
      5 * (|s.unread| - s.r.i) +
      match s.r
      case Pop(_) => if busy then 1 else 3
      case Disarm(_) => if busy then 4 else 2
      case Check(_) => if busy then 3 else 1
      case Rearm(_) => if busy then 2 else 4
  }

  lemma {:induction false} OwedUpdate(sender: seq<Sender>, deferred: seq<bool>, i: nat, w: Sender, d: bool)
    requires |sender| == |deferred| && i < |sender|
    ensures Owed(sender[i := w], deferred[i := d]) - Due(w) - (if d then 1 else 0)
            == Owed(sender, deferred) - Due(sender[i]) - (if deferred[i] then 1 else 0)
    decreases |sender|
  {
    if i == 0 {
      assert sender[i := w][1..] == sender[1..] && deferred[i := d][1..] == deferred[1..];
    } else {
      OwedUpdate(sender[1..], deferred[1..], i - 1, w, d);
      assert sender[i := w][1..] == sender[1..][i - 1 := w] && deferred[i := d][1..] == deferred[1..][i - 1 := d];
    }
  }

  lemma {:induction false} TotalUpdate(unread: seq<nat>, i: nat, n: nat)
    requires i < |unread|
    ensures Total(unread[i := n]) == Total(unread) - unread[i] + n
    decreases |unread|
  {
    if i == 0 {
      assert unread[i := n][1..] == unread[1..];
    } else {
      TotalUpdate(unread[1..], i - 1, n);
      assert unread[i := n][1..] == unread[1..][i - 1 := n];
    }
  }

  /** What is left to do: wake-ups owed, messages unread, a wake-up pending, the receiver's round. */
  datatype Rank = Rank(owed: nat, unread: nat, fd: nat, distance: nat)

  function RankOf(s: State): Rank
    requires Sane(s)
  {
    Rank(Owed(s.sender, s.deferred), Total(s.unread), if s.fd then 1 else 0, Distance(s))
  }

  predicate Lower(a: Rank, b: Rank) {
    || a.owed < b.owed
    || (a.owed == b.owed
        && (a.unread < b.unread
            || (a.unread == b.unread && (a.fd < b.fd || (a.fd == b.fd && a.distance < b.distance)))))
  }

  lemma StepLowers(s: State, e: Event)
    requires Sane(s) && Own(e) && Enabled(s, e) && Sane(Apply(s, e))
    ensures Lower(RankOf(Apply(s, e)), RankOf(s))
  {
    var s' := Apply(s, e);
    match e
    case Send(i) =>
      OwedUpdate(s.sender, s.deferred, i, s'.sender[i], s'.deferred[i]);
      assert s.deferred[i := s.deferred[i]] == s.deferred;
    case Flush(i) =>
      OwedUpdate(s.sender, s.deferred, i, s.sender[i], false);
      assert s.sender[i := s.sender[i]] == s.sender;
    case Receive =>
      if s.r.Pop? && s.unread[s.r.i] > 0 {
        TotalUpdate(s.unread, s.r.i, s.unread[s.r.i] - 1);
      }
  }

  /** One of these steps is taken, any of them, unless there is none. */
  ghost predicate Proceeds(s: State, e: Event, s': State) {
    if Moves(s) then Own(e) && Enabled(s, e) && s' == Apply(s, e) else s' == s
  }

  /** An endless continuation in which no message is published. */
  ghost predicate LeftAlone(run: nat -> State, steps: nat -> Event) {
    forall i: nat :: Proceeds(run(i), steps(i), run(i + 1))
  }

  /** Nothing is unread and the receiver sleeps, from state `m` on. */
  ghost predicate AllRead(run: nat -> State, m: nat) {
    && (forall i: nat :: m <= i ==> run(i) == run(m))
    && run(m).r.Asleep? && forall i :: 0 <= i < |run(m).unread| ==> run(m).unread[i] == 0
  }

  lemma AtRest(s: State)
    requires Inv(s) && !Moves(s)
    ensures s.r.Asleep? && forall i :: 0 <= i < |s.unread| ==> s.unread[i] == 0
  {
    assert !Enabled(s, Receive);
    forall i: nat | i < |s.unread| ensures s.unread[i] == 0 {
      assert QueueOk(s, i) && !Enabled(s, Send(i)) && !Enabled(s, Flush(i));
    }
  }

  lemma {:induction false} ComesToRest(run: nat -> State, steps: nat -> Event, i: nat) returns (m: nat)
    requires LeftAlone(run, steps) && Inv(run(i))
    ensures Inv(run(m)) && !Moves(run(m))
    decreases RankOf(run(i)).owed, RankOf(run(i)).unread, RankOf(run(i)).fd, RankOf(run(i)).distance
  {
    hide Moves, QueueOk, RankOf, Apply;
    assert Proceeds(run(i), steps(i), run(i + 1));
    if Moves(run(i)) {
      StepKeeps(run(i), steps(i));
      StepLowers(run(i), steps(i));
      m := ComesToRest(run, steps, i + 1);
    } else {
      m := i;
    }
  }

  lemma {:induction false} RestLasts(run: nat -> State, steps: nat -> Event, m: nat, i: nat)
    requires LeftAlone(run, steps) && !Moves(run(m)) && m <= i
    ensures run(i) == run(m)
    decreases i
  {
    hide Moves;
    if m < i {
      RestLasts(run, steps, m, i - 1);
      assert Proceeds(run(i - 1), steps(i - 1), run(i));
    }
  }

  /**
   * Whatever has happened, once senders stop publishing, every schedule of senders and receiver ends
   * with all messages read and the receiver asleep.
   */
  lemma EveryMessageIsRead(n: nat, events: seq<Event>, run: nat -> State, steps: nat -> Event)
    requires Runs(Boot(n), events) && run(0) == Final(Boot(n), events) && LeftAlone(run, steps)
    ensures exists m: nat :: AllRead(run, m)
  {
    hide Moves, LeftAlone, Inv;
    BootHolds(n);
    RunKeeps(Boot(n), events);
    var m := ComesToRest(run, steps, 0);
    AtRest(run(m));
    forall i: nat | m <= i ensures run(i) == run(m) {
      RestLasts(run, steps, m, i);
    }
    assert AllRead(run, m);
  }
}
