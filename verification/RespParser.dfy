/**
 * The resumable request parser: it works on whatever bytes have arrived, stops in the middle of a
 * command, and goes on when more come, possibly after its buffer has moved.
 */
module RespParser {
  import opened Resp
  import opened RespMemory

  const RBUF_INIT: nat := 4096
  const RBUF_ROOM: nat := 1024

  datatype Phase = ArrayLen | BulkLen | BulkData

  /** An argument of the command in progress, as a place in the buffer. */
  datatype Slice = Slice(off: nat, len: nat)

  datatype Output = Request(args: Command) | Pong

  /**
   * A connection is closed for bytes that are no request and for memory it is refused. It hangs in
   * a doubling loop that does not end, and faults when an argument is stored past its array.
   */
  datatype Status = Open | Closed | Hung | Faulted

  /** `cap` is the size of the read buffer, `argvCap` the number of argument places. */
  datatype Parser = Parser(buf: Bytes, cap: nat, parsed: nat, cmdStart: nat, phase: Phase, expected: nat,
                           bulkLen: nat, argv: seq<Slice>, argvCap: nat, out: seq<Output>, status: Status)

  const Fresh: Parser := Parser([], RBUF_INIT, 0, 0, ArrayLen, 0, 0, [], 0, [], Open)

  predicate Ok(p: Parser) {
    && p.cmdStart <= p.parsed <= |p.buf| <= p.cap && p.cap >= RBUF_INIT
    && (p.phase == ArrayLen ==> p.argv == [])
    && (forall i :: 0 <= i < |p.argv| ==> p.cmdStart <= p.argv[i].off && p.argv[i].off + p.argv[i].len <= p.parsed)
  }

  function Unparsed(p: Parser): Bytes
    requires Ok(p)
  {
    p.buf[p.parsed..]
  }

  function Args(buf: Bytes, argv: seq<Slice>): (args: seq<Bytes>)
    requires forall i :: 0 <= i < |argv| ==> argv[i].off + argv[i].len <= |buf|
    ensures |args| == |argv|
    ensures forall i :: 0 <= i < |argv| ==> args[i] == buf[argv[i].off..argv[i].off + argv[i].len]
  {
    seq(|argv|, i requires 0 <= i < |argv| => buf[argv[i].off..argv[i].off + argv[i].len])
  }

  // ---------------------------------------------------------------- length lines

  /** The digit loop: it never looks at the last byte received. */
  function ScanEnd(buf: Bytes, pos: nat): (r: nat)
    ensures r >= pos && (r > pos ==> r < |buf|)
    ensures forall i :: pos <= i < r ==> buf[i] >= ZERO
    decreases |buf| - pos
  {
    if pos + 1 < |buf| && buf[pos] >= ZERO then ScanEnd(buf, pos + 1) else pos
  }

  datatype Number = Incomplete | Number(next: nat, value: nat)

  function ReadNumber(buf: Bytes, start: nat): (r: Number)
    requires start <= |buf|
    ensures r.Number? ==> start < r.next <= |buf|
  {
    var pos := ScanEnd(buf, start);
    if pos + 1 >= |buf| || buf[pos] != CR || buf[pos + 1] != LF then Incomplete
    else Number(pos + 2, ValueFrom(0, buf[start..pos]))
  }

  method ReadLength(buf: Bytes, start: nat) returns (r: Number)
    requires start <= |buf|
    ensures r == ReadNumber(buf, start)
  {
    var pos, val := start, 0;
    while pos + 1 < |buf| && buf[pos] >= ZERO
      invariant start <= pos <= ScanEnd(buf, start) && ScanEnd(buf, pos) == ScanEnd(buf, start)
      invariant pos <= |buf| && val == ValueFrom(0, buf[start..pos])
      decreases |buf| - pos
    {
      assert buf[start..pos + 1] == buf[start..pos] + [buf[pos]];
      ValueFromLast(0, buf[start..pos], buf[pos]);
      val := val * 10 + (buf[pos] - ZERO) as nat;
      pos := pos + 1;
    }
    if pos + 1 >= |buf| || buf[pos] != CR || buf[pos + 1] != LF {
      return Incomplete;
    }
    return Number(pos + 2, val);
  }

  // ---------------------------------------------------------------- one turn of the parse loop

  predicate IsPing(b: Bytes) {
    && |b| >= 4
    && (b[0] == 80 || b[0] == 112) && (b[1] == 73 || b[1] == 105)
    && (b[2] == 78 || b[2] == 110) && (b[3] == 71 || b[3] == 103)
  }

  function SkipBlank(buf: Bytes, pos: nat): (r: nat)
    requires pos <= |buf|
    ensures pos <= r <= |buf|
    decreases |buf| - pos
  {
    if pos < |buf| && (buf[pos] == CR || buf[pos] == LF) then SkipBlank(buf, pos + 1) else pos
  }

  /** After a command: the buffer starts over if it is used up. */
  function Reset(p: Parser): Parser {
    var q := p.(phase := ArrayLen, expected := 0, argv := [], bulkLen := 0);
    if p.parsed >= |p.buf| then q.(buf := [], parsed := 0, cmdStart := 0) else q.(cmdStart := p.parsed)
  }

  datatype Turn = Go(p: Parser) | Wait(p: Parser)

  /** A header with `n` arguments to come, which need places. */
  function AtCount(p: Parser, next: nat, n: nat): (t: Turn)
    requires Ok(p) && p.parsed < next <= |p.buf| && p.phase == ArrayLen
    ensures Ok(t.p)
    ensures t.Go? ==> |t.p.buf| - t.p.parsed < |p.buf| - p.parsed
  {
    var q := p.(parsed := next, expected := n);
    match Ensured(p.argvCap, n)
    case Space(cap) => Go(q.(argvCap := cap, phase := BulkLen))
    case Refused => Wait(q.(status := Closed))
    case Endless => Wait(q.(status := Hung))
  }

  function AtArrayLen(p: Parser): (t: Turn)
    requires Ok(p) && p.parsed < |p.buf| && p.phase == ArrayLen
    ensures Ok(t.p)
    ensures t.Go? ==> |t.p.buf| - t.p.parsed < |p.buf| - p.parsed
  {
    var first := p.buf[p.parsed];
    if p.parsed + 2 <= |p.buf| && first == CR && p.buf[p.parsed + 1] == LF then Go(p.(parsed := p.parsed + 2))
    else if first == CR then Wait(p)
    else
      var q := p.(cmdStart := p.parsed);
      if first != STAR then
        if IsPing(p.buf[p.parsed..]) then
          Go(q.(out := p.out + [Pong], parsed := SkipBlank(p.buf, p.parsed + 4)))
        else Wait(q.(status := Closed))
      else match ReadNumber(p.buf, p.parsed + 1)
        case Incomplete => Wait(q)
        case Number(next, n) => AtCount(q, next, n)
  }

  function AtBulkLen(p: Parser): (t: Turn)
    requires Ok(p) && p.parsed < |p.buf| && p.phase == BulkLen
    ensures Ok(t.p)
    ensures t.Go? ==> |t.p.buf| - t.p.parsed < |p.buf| - p.parsed
  {
    if p.buf[p.parsed] != DOLLAR then Wait(p.(status := Closed))
    else match ReadNumber(p.buf, p.parsed + 1)
      case Incomplete => Wait(p)
      case Number(next, n) => Go(p.(parsed := next, bulkLen := n, phase := BulkData))
  }

  function AtBulkData(p: Parser): (t: Turn)
    requires Ok(p) && p.parsed < |p.buf| && p.phase == BulkData
    ensures Ok(t.p)
    ensures t.Go? ==> |t.p.buf| - t.p.parsed < |p.buf| - p.parsed
  {
    if |p.buf| - p.parsed < p.bulkLen + 2 then Wait(p)
    else if |p.argv| >= p.argvCap then Wait(p.(status := Faulted))
    else
      var q := p.(argv := p.argv + [Slice(p.parsed, p.bulkLen)], parsed := p.parsed + p.bulkLen + 2);
      if |q.argv| >= q.expected then Go(Reset(q.(out := p.out + [Request(Args(q.buf, q.argv))])))
      else Go(q.(phase := BulkLen))
  }

  function TurnOf(p: Parser): (t: Turn)
    requires Ok(p) && p.parsed < |p.buf|
    ensures Ok(t.p)
    ensures t.Go? ==> |t.p.buf| - t.p.parsed < |p.buf| - p.parsed
  {
    match p.phase
    case ArrayLen => AtArrayLen(p)
    case BulkLen => AtBulkLen(p)
    case BulkData => AtBulkData(p)
  }

  /** The parse loop: turns until bytes run out or a turn waits. */
  function Drained(p: Parser): (q: Parser)
    requires Ok(p)
    ensures Ok(q)
    decreases |p.buf| - p.parsed
  {
    if p.parsed >= |p.buf| then p
    else match TurnOf(p)
      case Go(q) => Drained(q)
      case Wait(q) => q
  }

  // ---------------------------------------------------------------- reads

  /** The part from the start of the current command moves to the front of a new buffer. */
  function Moved(p: Parser): (q: Parser)
    requires Ok(p)
    ensures Ok(q)
  {
    p.(buf := p.buf[p.cmdStart..], parsed := p.parsed - p.cmdStart, cmdStart := 0,
       argv := seq(|p.argv|, i requires 0 <= i < |p.argv| => p.argv[i].(off := p.argv[i].off - p.cmdStart)))
  }

  /** Moving the buffer changes neither the arguments found so far nor the bytes still to parse. */
  lemma MovedIsSame(p: Parser)
    requires Ok(p)
    ensures Unparsed(Moved(p)) == Unparsed(p) && Args(Moved(p).buf, Moved(p).argv) == Args(p.buf, p.argv)
  {
    var q := Moved(p);
    forall i | 0 <= i < |p.argv| ensures Args(q.buf, q.argv)[i] == Args(p.buf, p.argv)[i] {
      var a := p.argv[i];
      assert q.buf[a.off - p.cmdStart..a.off - p.cmdStart + a.len] == p.buf[a.off..a.off + a.len];
    }
  }

  /** Before every read: with little room left, the buffer is replaced by one of twice the size. */
  function Roomed(p: Parser): (q: Parser)
    requires Ok(p)
    ensures Ok(q) && (q.status.Open? ==> q.cap - |q.buf| >= RBUF_ROOM)
  {
    if p.cap - |p.buf| >= RBUF_ROOM then p
    else if Granted(NET_BUF + 2 * p.cap) then Moved(p).(cap := 2 * p.cap)
    else p.(status := Closed)
  }

  /** A read brings no more bytes than there is room for. */
  predicate Takes(p: Parser, chunk: Bytes)
    requires Ok(p)
  {
    p.status.Open? && Roomed(p).status.Open? ==> |chunk| <= Roomed(p).cap - |Roomed(p).buf|
  }

  /**
   * One turn of the read loop: make room, then read. No bytes means that the socket is drained, and
   * the parse loop runs.
   */
  function Receive(p: Parser, chunk: Bytes): (q: Parser)
    requires Ok(p) && Takes(p, chunk)
    ensures Ok(q)
  {
    if !p.status.Open? then p
    else
      var q := Roomed(p);
      if !q.status.Open? then q
      else if chunk == [] then Drained(q)
      else q.(buf := q.buf + chunk)
  }

  /** Reads that the buffer has room for, one after the other. */
  ghost predicate Offered(p: Parser, input: seq<Bytes>)
    requires Ok(p)
    decreases |input|
  {
    input == [] || (Takes(p, input[0]) && Offered(Receive(p, input[0]), input[1..]))
  }

  ghost function Session(p: Parser, input: seq<Bytes>): (q: Parser)
    requires Ok(p) && Offered(p, input)
    ensures Ok(q)
    decreases |input|
  {
    if input == [] then p else Session(Receive(p, input[0]), input[1..])
  }
}
