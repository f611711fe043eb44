/**
 * What the parser does whatever bytes arrive, requests or not.
 */
module RespSafety {
  import BuddyMath
  import opened Resp
  import opened RespMemory
  import opened RespParser
  import opened RespCommand
  import opened RespFlow
  import opened RespTheorems

  ghost predicate OutGood(out: seq<Output>) {
    forall i :: 0 <= i < |out| && out[i].Request? ==> Good(out[i].args)
  }

  /** No request has been handed out. */
  predicate Quiet(out: seq<Output>) {
    forall i :: 0 <= i < |out| ==> out[i].Pong?
  }

  /**
   * There is a place for every argument stored, and a fault happens only at a connection that has
   * had no places yet, behind a count of zero.
   */
  ghost predicate Safe(p: Parser) {
    && Ok(p) && ArgvCap(p.argvCap) && OutGood(p.out)
    && |p.argv| <= p.argvCap && (p.argvCap == 0 ==> Quiet(p.out))
    && (p.phase != ArrayLen ==> p.expected <= p.argvCap && (p.argv == [] || |p.argv| < p.expected))
    && (p.status.Faulted? ==> p.argvCap == 0 && p.expected == 0)
  }

  lemma OutputSafe(out: seq<Output>, o: Output)
    requires OutGood(out) && (o.Request? ==> Good(o.args))
    ensures OutGood(out + [o]) && (Quiet(out) && o.Pong? ==> Quiet(out + [o]))
  {
  }

  lemma ArrayLenSafe(p: Parser)
    requires Safe(p) && p.status.Open? && p.phase == ArrayLen && p.parsed < |p.buf|
    ensures Safe(TurnOf(p).p)
  {
    hide ReadNumber, IsPing, SkipBlank, Ensured, ArgvCap, OutGood, Quiet;
    OutputSafe(p.out, Pong);
    var n := ReadNumber(p.buf, p.parsed + 1);
    if n.Number? { EnsuredWhen(p.argvCap, n.value); }
  }

  lemma BulkDataSafe(p: Parser)
    requires Safe(p) && p.status.Open? && p.phase == BulkData && p.parsed < |p.buf|
    ensures Safe(TurnOf(p).p)
  {
    ArgvBound(p.argvCap);
    hide Args, ArgvCap, OutGood, Quiet;
    if |p.buf| - p.parsed >= p.bulkLen + 2 {
      var argv := p.argv + [Slice(p.parsed, p.bulkLen)];
      if |argv| <= p.argvCap { OutputSafe(p.out, Request(Args(p.buf, argv))); }
    }
  }

  lemma {:induction false} DrainedSafe(p: Parser)
    requires Safe(p) && p.status.Open?
    ensures Safe(Drained(p))
    decreases |p.buf| - p.parsed
  {
    if p.parsed < |p.buf| {
      match p.phase {
        case ArrayLen => ArrayLenSafe(p);
        case BulkLen =>
        case BulkData => BulkDataSafe(p);
      }
      var t := TurnOf(p);
      if t.Go? { DrainedSafe(t.p); }
    }
  }

  lemma ReceiveSafe(p: Parser, chunk: Bytes)
    requires Safe(p) && Takes(p, chunk)
    ensures Safe(Receive(p, chunk))
  {
    if p.status.Open? {
      var q := Roomed(p);
      assert Safe(q);
      if q.status.Open? && chunk == [] { DrainedSafe(q); }
    }
  }

  /** Whatever bytes arrive: the buffer and the array are never overrun while the connection is open. */
  lemma {:induction false} SessionSafe(p: Parser, input: seq<Bytes>)
    requires Safe(p) && Offered(p, input)
    ensures Safe(Session(p, input))
    decreases |input|
  {
    if input != [] {
      ReceiveSafe(p, input[0]);
      SessionSafe(Receive(p, input[0]), input[1..]);
    }
  }

  // ---------------------------------------------------------------- no request, no room

  lemma {:induction false} OutGrows(p: Parser)
    requires Ok(p)
    ensures p.out <= Drained(p).out
    decreases |p.buf| - p.parsed
  {
    hide ReadNumber, Ensured, IsPing, Args;
    if p.parsed < |p.buf| {
      var t := TurnOf(p);
      assert p.out <= t.p.out;
      if t.Go? { OutGrows(t.p); }
    }
  }

  lemma QuietPrefix(a: seq<Output>, b: seq<Output>)
    requires a <= b && Quiet(b)
    ensures Quiet(a)
  {
  }

  /** A turn that hands out no request leaves the buffer as it is. */
  lemma QuietTurn(p: Parser)
    requires Ok(p) && p.parsed < |p.buf|
    ensures TurnOf(p).p.cap == p.cap && (Quiet(TurnOf(p).p.out) ==> TurnOf(p).p.buf == p.buf)
  {
    hide ReadNumber, Ensured, IsPing, Args;
    if TurnOf(p).p.buf != p.buf { assert TurnOf(p).p.out[|p.out|].Request?; }
  }

  lemma {:induction false} QuietDrained(p: Parser)
    requires Ok(p) && Quiet(Drained(p).out)
    ensures Drained(p).buf == p.buf && Drained(p).cap == p.cap
    decreases |p.buf| - p.parsed
  {
    hide TurnOf, Quiet;
    if p.parsed < |p.buf| {
      var t := TurnOf(p);
      if t.Go? {
        OutGrows(t.p);
        QuietPrefix(t.p.out, Drained(t.p).out);
        QuietDrained(t.p);
      }
      QuietTurn(p);
    }
  }

  /** The bytes received are no more than the buffers so far and the bytes in this one. */
  ghost predicate Filling(p: Parser, got: nat, m: nat) {
    p.status.Open? ==> p.cap == Capacity(m) && m <= MAX_MOVES && got + RBUF_INIT <= p.cap + |p.buf|
  }

  lemma QuietReceive(p: Parser, chunk: Bytes, got: nat, m: nat) returns (m': nat)
    requires Ok(p) && Takes(p, chunk) && Filling(p, got, m) && Quiet(Receive(p, chunk).out)
    ensures Filling(Receive(p, chunk), got + |chunk|, m')
  {
    hide Capacity, Granted;
    m' := m;
    if p.status.Open? {
      CapacityDoubles(m);
      RoomGranted(m + 1);
      var q := Roomed(p);
      if q.cap != p.cap { m' := m + 1; }
      if q.status.Open? && chunk == [] { QuietDrained(q); }
    }
  }

  lemma {:induction false} SessionGrows(p: Parser, input: seq<Bytes>)
    requires Ok(p) && Offered(p, input)
    ensures p.out <= Session(p, input).out
    decreases |input|
  {
    if input != [] {
      if p.status.Open? && Roomed(p).status.Open? { OutGrows(Roomed(p)); }
      SessionGrows(Receive(p, input[0]), input[1..]);
    }
  }

  lemma {:induction false} QuietFills(p: Parser, input: seq<Bytes>, got: nat, m: nat) returns (m': nat)
    requires Ok(p) && Offered(p, input) && Filling(p, got, m) && Quiet(Session(p, input).out)
    ensures Filling(Session(p, input), got + |AllBytes(input)|, m')
    decreases |input|
  {
    hide Quiet, Filling, Receive, Takes;
    m' := m;
    if input != [] {
      var q := Receive(p, input[0]);
      SessionGrows(q, input[1..]);
      QuietPrefix(q.out, Session(q, input[1..]).out);
      var m1 := QuietReceive(p, input[0], got, m);
      m' := QuietFills(q, input[1..], got + |input[0]|, m1);
    }
  }

  /**
   * Whatever bytes arrive: a connection on which no request has been handed out, be it for pings alone
   * or for one endless argument, is closed before it has received 2^28 of them.
   */
  lemma NoRequestNoRoom(input: seq<Bytes>)
    requires Offered(Fresh, input) && Quiet(Session(Fresh, input).out) && |AllBytes(input)| >= 0x1000_0000
    ensures !Session(Fresh, input).status.Open?
  {
    hide Session, Offered, Quiet, AllBytes;
    assert Capacity(0) == RBUF_INIT;
    var m := QuietFills(Fresh, input, 0, 0);
    var q := Session(Fresh, input);
    if q.status.Open? {
      TopOrder();
      BuddyMath.PMonotone(m, MAX_MOVES);
    }
  }

  // ---------------------------------------------------------------- headers the parser cannot handle

  function Header(n: nat): Bytes {
    [STAR] + Decimal(n) + CRLF
  }

  lemma ShortDecimal(n: nat)
    requires n < UINT64
    ensures |Decimal(n)| <= 20
  {
    TwentyDigits(n);
  }

  /** One read that leaves room, and a drain. */
  lemma OneRead(s: Bytes)
    requires 0 < |s| <= RBUF_INIT - RBUF_ROOM
    ensures Offered(Fresh, [s, []]) && Session(Fresh, [s, []]) == Drained(Fresh.(buf := s))
  {
    var p, drain := Fresh.(buf := s), [[]];
    assert Receive(Fresh, s) == p by { assert [] + s == s; }
    assert [s, []][1..] == drain && drain[1..] == [];
    assert Session(p, drain) == Session(Drained(p), []);
  }

  lemma HeaderRead(n: nat, tail: Bytes)
    ensures ReadNumber(Header(n) + tail, 1) == Number(|Header(n)|, n)
  {
    var s := Header(n) + tail;
    assert s[1..] + [] == Decimal(n) + CRLF + tail;
    NumberRead(s, 1, n, tail, []);
  }

  /** A count above 2^24 closes the connection, and one above 2^30 hangs the thread. */
  lemma LargeCountFails(n: nat)
    requires MAX_ARGS < n <= 0x7FFF_FFFF
    ensures Offered(Fresh, [Header(n), []])
    ensures Session(Fresh, [Header(n), []]).status == if n > 0x4000_0000 then Hung else Closed
  {
    ShortDecimal(n);
    hide Decimal, ReadNumber, Ensured;
    OneRead(Header(n));
    HeaderRead(n, []);
    assert Header(n) + [] == Header(n);
    assert ArgvCap(0);
    EnsuredWhen(0, n);
    var p := Fresh.(buf := Header(n));
    assert TurnOf(p).Wait?;
  }

  /** A zero count, and an argument that is complete. */
  lemma ZeroCountTurns(p: Parser, at: nat, data: nat, n: nat)
    requires Ok(p) && p.status.Open? && p.phase == ArrayLen && p.parsed == 0 && p.argvCap == 0
    requires 0 < at < data && data + n + 2 <= |p.buf| && p.buf[0] == STAR && p.buf[at] == DOLLAR
    requires ReadNumber(p.buf, 1) == Number(at, 0) && ReadNumber(p.buf, at + 1) == Number(data, n)
    ensures Drained(p).status == Faulted
  {
    hide ReadNumber;
    var q := p.(parsed := at, expected := 0, phase := BulkLen, cmdStart := 0);
    var r := q.(parsed := data, bulkLen := n, phase := BulkData);
    assert TurnOf(p) == Go(q);
    assert TurnOf(q) == Go(r);
    assert TurnOf(r) == Wait(r.(status := Faulted));
    assert Drained(p) == Drained(q) == Drained(r);
  }

  lemma ArgumentRead(s: Bytes, at: nat, arg: Bytes)
    requires at < |s| && s[at..] == EncodeArg(arg)
    ensures s[at] == DOLLAR
    ensures ReadNumber(s, at + 1) == Number(at + 3 + |Decimal(|arg|)|, |arg|)
    ensures at + 3 + |Decimal(|arg|)| + |arg| + 2 == |s|
  {
    var ds := Decimal(|arg|);
    assert EncodeArg(arg) == [DOLLAR] + (ds + CRLF + (arg + CRLF));
    hide Decimal, ReadNumber, EncodeArg;
    assert s[at..] + [] == [DOLLAR] + (ds + CRLF + (arg + CRLF));
    Peel(s, at, [], DOLLAR, ds + CRLF + (arg + CRLF));
    NumberRead(s, at + 1, |arg|, arg + CRLF, []);
    assert |s[at..]| == 1 + |ds| + 2 + |arg| + 2;
  }

  /** An argument behind a count of zero finds no array, if no command before had arguments. */
  lemma ZeroCountFaults(arg: Bytes)
    requires |Header(0) + EncodeArg(arg)| <= RBUF_INIT - RBUF_ROOM
    ensures Offered(Fresh, [Header(0) + EncodeArg(arg), []])
    ensures Session(Fresh, [Header(0) + EncodeArg(arg), []]).status == Faulted
  {
    hide Decimal, ReadNumber, EncodeArg, Session, Offered, Drained, Header;
    var at, tail := |Header(0)|, EncodeArg(arg);
    var s := Header(0) + tail;
    Shapes(0, arg);
    OneRead(s);
    HeaderRead(0, tail);
    assert s[at..] == tail && s[0] == Header(0)[0];
    ArgumentRead(s, at, arg);
    ZeroCountTurns(Fresh.(buf := s), at, at + 3 + |Decimal(|arg|)|, |arg|);
  }

  lemma Shapes(n: nat, arg: Bytes)
    ensures Header(n) != [] && Header(n)[0] == STAR && EncodeArg(arg) != []
  {
  }
}
