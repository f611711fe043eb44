/**
 * The single-producer single-consumer queue: a ring of fixed-size segments that the producer can
 * extend. Every access to shared memory is a step of its own, so the producer may act on an
 * out-of-date view of the consumer's segment.
 */
module Spsc {
  const SEG: nat := 4096

  datatype Msg = Msg(id: nat)

  datatype Producer =
    | PIdle
    | PLoaded(msg: Msg, h: nat)
    | PNext(msg: Msg, h: nat, next: nat)
    | PExpand(msg: Msg, h: nat, next: nat)
    | PMove(msg: Msg, h: nat, target: nat)
    | PReady(msg: Msg, h: nat)
    | PWrote(msg: Msg, h: nat)

  datatype Consumer =
    | CIdle
    | CLoaded(t: nat)
    | CFound(t: nat)
    | CMoved(t: nat)
    | CReady(t: nat)
    | CRead(t: nat, msg: Msg)

  /** Shared and private fields of the queue, and where each side is in its operation. */
  datatype Queue = Queue(next: seq<nat>, slots: seq<seq<Msg>>, head: nat, tail: nat,
                         pSeg: nat, cSeg: nat, cSegShared: nat, p: Producer, c: Consumer)

  /** What has happened: messages pushed and popped, and the segment each pushed message went to. */
  datatype History = History(pushed: seq<Msg>, popped: seq<Msg>, home: seq<nat>)

  datatype State = State(q: Queue, h: History)

  /** `junk` is what a fresh segment contains. */
  datatype Event = StartPush(msg: Msg) | Produce | Expand(junk: seq<Msg>) | NoMemory | StartPop | Consume

  function Boot(junk: seq<Msg>): State {
    State(Queue([0], [junk], 0, 0, 0, 0, 0, PIdle, CIdle), History([], [], []))
  }

  predicate Crosses(i: nat) {
    i > 0 && i % SEG == 0
  }

  /** Indices in range: what each step needs to be defined. */
  predicate Sane(q: Queue) {
    && |q.slots| == |q.next|
    && (forall s :: 0 <= s < |q.slots| ==> |q.slots[s]| == SEG)
    && (forall s :: 0 <= s < |q.next| ==> q.next[s] < |q.next|)
    && q.pSeg < |q.next| && q.cSeg < |q.next|
  }

  predicate Enabled(s: State, e: Event) {
    match e
    case StartPush(_) => s.q.p.PIdle?
    case Produce => !s.q.p.PIdle? && !s.q.p.PExpand?
    case Expand(junk) => s.q.p.PExpand? && |junk| == SEG
    case NoMemory => s.q.p.PExpand?
    case StartPop => s.q.c.CIdle?
    case Consume => !s.q.c.CIdle?
  }

  function Produced(s: State): State
    requires Sane(s.q) && Enabled(s, Produce)
  {
    var q := s.q;
    match q.p
    case PLoaded(m, h) => s.(q := q.(p := if Crosses(h) then PNext(m, h, q.next[q.pSeg]) else PReady(m, h)))
    case PNext(m, h, nx) => s.(q := q.(p := if nx == q.cSegShared then PExpand(m, h, nx) else PMove(m, h, nx)))
    case PMove(m, h, target) => s.(q := q.(pSeg := target, p := PReady(m, h)))
    case PReady(m, h) =>
      s.(q := q.(slots := q.slots[q.pSeg := q.slots[q.pSeg][h % SEG := m]], p := PWrote(m, h)))
    case PWrote(m, h) =>
      State(q.(head := h + 1, p := PIdle), s.h.(pushed := s.h.pushed + [m], home := s.h.home + [q.pSeg]))
  }

  function Expanded(s: State, junk: seq<Msg>): State
    requires Sane(s.q) && Enabled(s, Expand(junk))
  {
    var q := s.q;
    var added := |q.next|;
    s.(q := q.(next := q.next[q.pSeg := added] + [q.p.next], slots := q.slots + [junk],
               p := PMove(q.p.msg, q.p.h, added)))
  }

  function Consumed(s: State): State
    requires Sane(s.q) && Enabled(s, Consume)
  {
    var q := s.q;
    match q.c
    case CLoaded(t) => s.(q := q.(c := if t == q.head then CIdle else CFound(t)))
    case CFound(t) =>
      s.(q := if Crosses(t) then q.(cSeg := q.next[q.cSeg], c := CMoved(t)) else q.(c := CReady(t)))
    case CMoved(t) => s.(q := q.(cSegShared := q.cSeg, c := CReady(t)))
    case CReady(t) => s.(q := q.(c := CRead(t, q.slots[q.cSeg][t % SEG])))
    case CRead(t, m) => State(q.(tail := t + 1, c := CIdle), s.h.(popped := s.h.popped + [m]))
  }

  function Apply(s: State, e: Event): State
    requires Sane(s.q) && Enabled(s, e)
  {
    match e
    case StartPush(m) => s.(q := s.q.(p := PLoaded(m, s.q.head)))
    case Produce => Produced(s)
    case Expand(junk) => Expanded(s, junk)
    case NoMemory => s.(q := s.q.(p := PIdle))
    case StartPop => s.(q := s.q.(c := CLoaded(s.q.tail)))
    case Consume => Consumed(s)
  }

  // ---------------------------------------------------------------- invariant

  /** The block of message numbers that the producer's (consumer's) segment now serves. */
  function PBlock(q: Queue): nat {
    if q.p.PReady? || q.p.PWrote? then q.head / SEG else if q.head == 0 then 0 else (q.head - 1) / SEG
  }

  function CBlock(q: Queue): nat {
    if q.c.CReady? || q.c.CRead? then q.tail / SEG else if q.tail == 0 then 0 else (q.tail - 1) / SEG
  }

  function Follow(ring: seq<nat>, i: nat): nat
    requires i < |ring|
  {
    if i == |ring| - 1 then ring[0] else ring[i + 1]
  }

  /** The segments in ring order, starting at the one the consumer last published. */
  ghost predicate IsRing(next: seq<nat>, ring: seq<nat>) {
    && ring != []
    && (forall i, j :: 0 <= i < j < |ring| ==> ring[i] != ring[j])
    && (forall i :: 0 <= i < |ring| ==> ring[i] < |next|)
    && (forall i {:trigger next[ring[i]]} :: 0 <= i < |ring| ==> next[ring[i]] == Follow(ring, i))
  }

  /** Where the two sides stand: the producer `w` segments after the consumer, the rest of the ring is free. */
  ghost predicate Placed(q: Queue, ring: seq<nat>, base: nat, w: nat) {
    && IsRing(q.next, ring) && w < |ring|
    && base == CBlock(q) && base + w == PBlock(q)
    && q.pSeg == ring[w] && q.cSegShared == ring[0]
    && q.cSeg == if q.c.CMoved? then q.next[ring[0]] else ring[0]
  }

  ghost predicate ProducerOk(q: Queue, ring: seq<nat>, w: nat)
    requires Sane(q)
  {
    match q.p
    case PIdle => true
    case PLoaded(_, h) => h == q.head
    case PNext(_, h, nx) => h == q.head && Crosses(h) && nx == q.next[q.pSeg]
    case PExpand(_, h, nx) => h == q.head && Crosses(h) && nx == q.next[q.pSeg]
    case PMove(_, h, target) => h == q.head && Crosses(h) && target == q.next[q.pSeg] && w + 1 < |ring|
    case PReady(_, h) => h == q.head
    case PWrote(m, h) => h == q.head && q.slots[q.pSeg][h % SEG] == m
  }

  ghost predicate ConsumerOk(q: Queue, pushed: seq<Msg>) {
    match q.c
    case CIdle => true
    case CLoaded(t) => t == q.tail
    case CFound(t) => t == q.tail < q.head
    case CMoved(t) => t == q.tail < q.head && Crosses(t)
    case CReady(t) => t == q.tail < q.head
    case CRead(t, m) => t == q.tail < q.head && t < |pushed| && m == pushed[t]
  }

  /** Message `i` is in the segment of its block, where it was pushed. */
  ghost predicate Held(slots: seq<seq<Msg>>, pushed: seq<Msg>, home: seq<nat>, ring: seq<nat>, base: nat, i: nat)
    requires |pushed| == |home| && i < |pushed|
  {
    && base <= i / SEG && i / SEG - base < |ring|
    && home[i] == ring[i / SEG - base]
    && home[i] < |slots| && i % SEG < |slots[home[i]]|
    && slots[home[i]][i % SEG] == pushed[i]
  }

  /** What was popped is a prefix of what was pushed, and the rest is still held. */
  ghost predicate Unread(slots: seq<seq<Msg>>, head: nat, tail: nat, h: History, ring: seq<nat>, base: nat) {
    && |h.pushed| == |h.home| == head
    && tail <= head
    && h.popped == h.pushed[..tail]
    && (forall i :: tail <= i < head ==> Held(slots, h.pushed, h.home, ring, base, i))
  }

  ghost predicate RingInv(s: State, ring: seq<nat>, base: nat, w: nat) {
    && Sane(s.q) && Placed(s.q, ring, base, w)
    && ProducerOk(s.q, ring, w) && ConsumerOk(s.q, s.h.pushed)
    && Unread(s.q.slots, s.q.head, s.q.tail, s.h, ring, base)
  }

  ghost predicate Inv(s: State) {
    exists ring, base, w :: RingInv(s, ring, base, w)
  }

  lemma BootHolds(junk: seq<Msg>)
    requires |junk| == SEG
    ensures Inv(Boot(junk))
  {
    assert RingInv(Boot(junk), [0], 0, 0);
  }

  // ---------------------------------------------------------------- each step keeps it

  lemma NextBlock(i: nat)
    ensures i > 0 ==> i / SEG == (i - 1) / SEG + if Crosses(i) then 1 else 0
  {
  }

  lemma StartKeeps(s: State, ring: seq<nat>, base: nat, w: nat, e: Event)
    requires RingInv(s, ring, base, w) && Enabled(s, e) && (e.StartPush? || e.NoMemory? || e.StartPop?)
    ensures RingInv(Apply(s, e), ring, base, w)
  {
    hide IsRing, Unread;
  }

  /** Looking at the next link: the segment after the producer's is free, unless the consumer's is next. */
  lemma LookKeeps(s: State, ring: seq<nat>, base: nat, w: nat)
    requires RingInv(s, ring, base, w) && (s.q.p.PLoaded? || s.q.p.PNext?)
    ensures RingInv(Produced(s), ring, base, w)
  {
    NextBlock(s.q.head);
    assert s.q.next[ring[w]] == Follow(ring, w);
    hide IsRing, Unread;
  }

  lemma MoveKeeps(s: State, ring: seq<nat>, base: nat, w: nat)
    requires RingInv(s, ring, base, w) && s.q.p.PMove?
    ensures RingInv(Produced(s), ring, base, w + 1)
  {
    NextBlock(s.q.head);
    assert s.q.next[ring[w]] == ring[w + 1];
    hide IsRing, Unread;
  }

  /** The slot written is not one that holds an unread message. */
  lemma WriteKeeps(s: State, ring: seq<nat>, base: nat, w: nat)
    requires RingInv(s, ring, base, w) && s.q.p.PReady?
    ensures RingInv(Produced(s), ring, base, w)
  {
    var s' := Produced(s);
    forall i | s.q.tail <= i < s.q.head ensures Held(s'.q.slots, s.h.pushed, s.h.home, ring, base, i) {
      assert Held(s.q.slots, s.h.pushed, s.h.home, ring, base, i);
      if s.h.home[i] == s.q.pSeg {
        assert i / SEG == s.q.head / SEG;
        assert i % SEG != s.q.head % SEG;
      }
    }
    hide IsRing, Held;
  }

  lemma PublishKeeps(s: State, ring: seq<nat>, base: nat, w: nat)
    requires RingInv(s, ring, base, w) && s.q.p.PWrote?
    ensures RingInv(Produced(s), ring, base, w)
  {
    var s' := Produced(s);
    forall i | s.q.tail <= i < s'.q.head ensures Held(s.q.slots, s'.h.pushed, s'.h.home, ring, base, i) {
      if i < s.q.head { assert Held(s.q.slots, s.h.pushed, s.h.home, ring, base, i); }
    }
    hide IsRing, Held;
  }

  lemma FindKeeps(s: State, ring: seq<nat>, base: nat, w: nat)
    requires RingInv(s, ring, base, w) && (s.q.c.CLoaded? || s.q.c.CFound?)
    ensures RingInv(Consumed(s), ring, base, w)
  {
    NextBlock(s.q.tail);
    assert Sane(Consumed(s).q);
    hide IsRing, Unread, Sane;
  }

  lemma ReadKeeps(s: State, ring: seq<nat>, base: nat, w: nat)
    requires RingInv(s, ring, base, w) && s.q.c.CReady?
    ensures RingInv(Consumed(s), ring, base, w)
  {
    assert Held(s.q.slots, s.h.pushed, s.h.home, ring, base, s.q.tail);
    hide IsRing, Held;
  }

  lemma ReturnKeeps(s: State, ring: seq<nat>, base: nat, w: nat)
    requires RingInv(s, ring, base, w) && s.q.c.CRead?
    ensures RingInv(Consumed(s), ring, base, w)
  {
    assert s.h.pushed[..s.q.tail + 1] == s.h.pushed[..s.q.tail] + [s.h.pushed[s.q.tail]];
    hide IsRing, Held;
  }

  ghost function Widened(ring: seq<nat>, w: nat, added: nat): seq<nat>
    requires w < |ring|
  {
    ring[..w + 1] + [added] + ring[w + 1..]
  }

  lemma WidenedAt(ring: seq<nat>, w: nat, added: nat, i: nat)
    requires w < |ring| && i <= |ring|
    ensures |Widened(ring, w, added)| == |ring| + 1
    ensures Widened(ring, w, added)[i] == if i <= w then ring[i] else if i == w + 1 then added else ring[i - 1]
    ensures Follow(Widened(ring, w, added), i)
         == if i == w then added else if i <= w then Follow(ring, i) else Follow(ring, i - 1)
  {
  }

  lemma WidenedRing(next: seq<nat>, ring: seq<nat>, w: nat)
    requires IsRing(next, ring) && w < |ring|
    ensures IsRing(next[ring[w] := |next|] + [next[ring[w]]], Widened(ring, w, |next|))
  {
    var ring' := Widened(ring, w, |next|);
    var next' := next[ring[w] := |next|] + [next[ring[w]]];
    hide Widened, Follow;
    WidenedAt(ring, w, |next|, 0);
    forall i, j | 0 <= i < j < |ring'| ensures ring'[i] != ring'[j] {
      WidenedAt(ring, w, |next|, i);
      WidenedAt(ring, w, |next|, j);
    }
    forall i | 0 <= i < |ring'| ensures ring'[i] < |next'| && next'[ring'[i]] == Follow(ring', i) {
      WidenedAt(ring, w, |next|, i);
      var k := if i <= w then i else i - 1;
      assert next[ring[k]] == Follow(ring, k);
    }
  }

  lemma ExpandKeeps(s: State, ring: seq<nat>, base: nat, w: nat, junk: seq<Msg>)
    requires RingInv(s, ring, base, w) && Enabled(s, Expand(junk))
    ensures RingInv(Expanded(s, junk), Widened(ring, w, |s.q.next|), base, w)
  {
    var ring' := Widened(ring, w, |s.q.next|);
    var s' := Expanded(s, junk);
    WidenedRing(s.q.next, ring, w);
    forall i | s.q.tail <= i < s.q.head ensures Held(s'.q.slots, s.h.pushed, s.h.home, ring', base, i) {
      assert Held(s.q.slots, s.h.pushed, s.h.home, ring, base, i);
      assert i / SEG - base <= w;
    }
    assert Sane(s'.q);
    hide IsRing, Held, Sane;
  }

  lemma TurnedRing(next: seq<nat>, ring: seq<nat>)
    requires IsRing(next, ring) && |ring| > 1
    ensures IsRing(next, ring[1..] + [ring[0]])
  {
    var ring' := ring[1..] + [ring[0]];
    assert forall i :: 0 <= i < |ring'| ==> ring'[i] == if i == |ring| - 1 then ring[0] else ring[i + 1];
    forall i | 0 <= i < |ring'| ensures next[ring'[i]] == Follow(ring', i) {
      var k := if i == |ring| - 1 then 0 else i + 1;
      assert next[ring[k]] == Follow(ring, k);
    }
  }

  /** Publishing the consumer's new segment turns the ring by one: its old segment becomes the last free one. */
  lemma AdvanceKeeps(s: State, ring: seq<nat>, base: nat, w: nat) returns (ring': seq<nat>)
    requires RingInv(s, ring, base, w) && s.q.c.CMoved?
    ensures w > 0 && RingInv(Consumed(s), ring', base + 1, w - 1)
  {
    ring' := ring[1..] + [ring[0]];
    NextBlock(s.q.tail);
    assert Held(s.q.slots, s.h.pushed, s.h.home, ring, base, s.q.head - 1);
    TurnedRing(s.q.next, ring);
    assert s.q.next[ring[0]] == ring[1];
    var base' := base + 1;
    forall i | s.q.tail <= i < s.q.head ensures Held(s.q.slots, s.h.pushed, s.h.home, ring', base', i) {
      assert Held(s.q.slots, s.h.pushed, s.h.home, ring, base, i);
    }
    hide IsRing, Held;
  }

  /** Every step of either side keeps the invariant. */
  lemma StepKeeps(s: State, e: Event)
    requires Inv(s) && Enabled(s, e)
    ensures Sane(s.q) && Inv(Apply(s, e))
  {
    hide RingInv;
    var ring, base, w :| RingInv(s, ring, base, w);
    RingSane(s, ring, base, w);
    match e
    case StartPush(_) => StartKeeps(s, ring, base, w, e);
    case NoMemory => StartKeeps(s, ring, base, w, e);
    case StartPop => StartKeeps(s, ring, base, w, e);
    case Expand(junk) => ExpandKeeps(s, ring, base, w, junk);
    case Produce =>
      match s.q.p {
        case PMove(_, _, _) => MoveKeeps(s, ring, base, w);
        case PReady(_, _) => WriteKeeps(s, ring, base, w);
        case PWrote(_, _) => PublishKeeps(s, ring, base, w);
        case _ => LookKeeps(s, ring, base, w);
      }
    case Consume =>
      match s.q.c {
        case CMoved(_) => var ring' := AdvanceKeeps(s, ring, base, w);
        case CReady(_) => ReadKeeps(s, ring, base, w);
        case CRead(_, _) => ReturnKeeps(s, ring, base, w);
        case _ => FindKeeps(s, ring, base, w);
      }
  }

  lemma RingSane(s: State, ring: seq<nat>, base: nat, w: nat)
    requires RingInv(s, ring, base, w)
    ensures Sane(s.q)
  {
  }

  // ---------------------------------------------------------------- runs

  /** The events can happen one after the other, starting in `s`. */
  ghost predicate Runs(s: State, events: seq<Event>)
    decreases |events|
  {
    events == [] || (Sane(s.q) && Enabled(s, events[0]) && Runs(Apply(s, events[0]), events[1..]))
  }

  ghost function Final(s: State, events: seq<Event>): State
    requires Runs(s, events)
    decreases |events|
  {
    if events == [] then s else Final(Apply(s, events[0]), events[1..])
  }

  lemma {:induction false} RunKeeps(s: State, events: seq<Event>)
    requires Inv(s) && Runs(s, events)
    ensures Inv(Final(s, events))
    decreases |events|
  {
    if events != [] {
      StepKeeps(s, events[0]);
      RunKeeps(Apply(s, events[0]), events[1..]);
    }
  }

  lemma Reached(junk: seq<Msg>, events: seq<Event>) returns (ring: seq<nat>, base: nat, w: nat)
    requires |junk| == SEG && Runs(Boot(junk), events)
    ensures RingInv(Final(Boot(junk), events), ring, base, w)
  {
    BootHolds(junk);
    RunKeeps(Boot(junk), events);
    ring, base, w :| RingInv(Final(Boot(junk), events), ring, base, w);
  }

  /** In every interleaving the popped messages are the first pushed ones, in order. */
  lemma PoppedIsPrefix(junk: seq<Msg>, events: seq<Event>)
    requires |junk| == SEG && Runs(Boot(junk), events)
    ensures var s := Final(Boot(junk), events);
      && s.q.tail <= s.q.head == |s.h.pushed|
      && s.h.popped == s.h.pushed[..s.q.tail]
      && (s.q.c.CRead? ==> s.q.tail < s.q.head && s.q.c.msg == s.h.pushed[s.q.tail])
  {
    var ring, base, w := Reached(junk, events);
  }

  /** A pop finds nothing exactly when everything pushed so far has been popped. */
  lemma EmptyMeansDrained(junk: seq<Msg>, events: seq<Event>)
    requires |junk| == SEG && Runs(Boot(junk), events)
    requires Final(Boot(junk), events).q.c.CLoaded?
    ensures var s := Final(Boot(junk), events);
      Sane(s.q) && (Consumed(s).q.c.CIdle? <==> s.h.popped == s.h.pushed)
  {
    var ring, base, w := Reached(junk, events);
    var s := Final(Boot(junk), events);
    assert |s.h.popped| == s.q.tail;
  }

  /**
   * The producer never writes over a message not yet read; and it never enters a segment that
   * holds one, however old its view of the consumer was.
   */
  lemma NeverOverwrites(junk: seq<Msg>, events: seq<Event>, m: nat)
    requires |junk| == SEG && Runs(Boot(junk), events)
    requires var s := Final(Boot(junk), events); s.q.p.PReady? && s.q.tail <= m < s.q.head
    ensures var s := Final(Boot(junk), events);
      && m < |s.h.home| && s.q.p.h == s.q.head
      && (s.h.home[m] == s.q.pSeg ==> m % SEG != s.q.head % SEG)
      && (Crosses(s.q.head) ==> s.h.home[m] != s.q.pSeg)
  {
    var ring, base, w := Reached(junk, events);
    var s := Final(Boot(junk), events);
    assert Held(s.q.slots, s.h.pushed, s.h.home, ring, base, m);
    NextBlock(s.q.head);
    if s.h.home[m] == s.q.pSeg {
      assert m / SEG == s.q.head / SEG;
    }
  }

  // ---------------------------------------------------------------- what was sent

  /** The messages whose push has begun and was not given up, after one more event. */
  function SentOne(sent: seq<Msg>, e: Event): seq<Msg> {
    match e
    case StartPush(m) => sent + [m]
    case NoMemory => if sent == [] then [] else sent[..|sent| - 1]
    case _ => sent
  }

  /** The messages sent by these events, on top of `sent`: a push that finds no memory takes its own back. */
  function Sent(sent: seq<Msg>, events: seq<Event>): seq<Msg>
    decreases |events|
  {
    if events == [] then sent else Sent(SentOne(sent, events[0]), events[1..])
  }

  function UnderWay(p: Producer): seq<Msg> {
    if p.PIdle? then [] else [p.msg]
  }

  /** What was sent is what was published and the message of the push under way. */
  predicate Carried(s: State, sent: seq<Msg>) {
    sent == s.h.pushed + UnderWay(s.q.p)
  }

  lemma StepCarries(s: State, e: Event, sent: seq<Msg>)
    requires Sane(s.q) && Enabled(s, e) && Carried(s, sent)
    ensures Carried(Apply(s, e), SentOne(sent, e))
  {
  }

  lemma {:induction false} RunCarries(s: State, events: seq<Event>, sent: seq<Msg>)
    requires Runs(s, events) && Carried(s, sent)
    ensures Carried(Final(s, events), Sent(sent, events))
    decreases |events|
  {
    if events != [] {
      StepCarries(s, events[0], sent);
      RunCarries(Apply(s, events[0]), events[1..], SentOne(sent, events[0]));
    }
  }

  /**
   * In every interleaving what has been popped is what was sent, in order, but for the messages still
   * in the queue and the one of a push under way.
   */
  lemma PoppedWasSent(junk: seq<Msg>, events: seq<Event>)
    requires |junk| == SEG && Runs(Boot(junk), events)
    ensures var s := Final(Boot(junk), events); var sent := Sent([], events);
      && s.q.tail <= s.q.head <= |sent| && s.h.popped == sent[..s.q.tail]
      && (if s.q.p.PIdle? then s.q.head == |sent| else s.q.head + 1 == |sent| && s.q.p.msg == sent[s.q.head])
      && (s.q.c.CRead? ==> s.q.tail < s.q.head && s.q.c.msg == sent[s.q.tail])
  {
    PoppedIsPrefix(junk, events);
    RunCarries(Boot(junk), events, []);
    var s, sent := Final(Boot(junk), events), Sent([], events);
    assert sent[..s.q.head] == s.h.pushed;
    assert sent[..s.q.tail] == s.h.pushed[..s.q.tail];
  }

  // ---------------------------------------------------------------- every push and every pop ends

  /** Most steps that the producer (the consumer) has left. */
  function PushRank(p: Producer): nat {
    match p
    case PIdle => 0
    case PLoaded(_, _) => 6
    case PNext(_, _, _) => 5
    case PExpand(_, _, _) => 4
    case PMove(_, _, _) => 3
    case PReady(_, _) => 2
    case PWrote(_, _) => 1
  }

  function PopRank(c: Consumer): nat {
    match c
    case CIdle => 0
    case CLoaded(_) => 5
    case CFound(_) => 4
    case CMoved(_) => 3
    case CReady(_) => 2
    case CRead(_, _) => 1
  }

  /** A push under way can always take a step, and each brings it closer to its end; so for a pop. */
  lemma NeitherSideWaits(s: State, e: Event)
    requires Sane(s.q) && Enabled(s, e)
    ensures e.Produce? || e.Expand? || e.NoMemory? ==> PushRank(Apply(s, e).q.p) < PushRank(s.q.p)
    ensures e.Consume? ==> PopRank(Apply(s, e).q.c) < PopRank(s.q.c)
    ensures !s.q.p.PIdle? ==> Enabled(s, Produce) || Enabled(s, NoMemory)
    ensures !s.q.c.CIdle? ==> Enabled(s, Consume)
  {
  }
}
