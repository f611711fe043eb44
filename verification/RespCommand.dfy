/**
 * One command on the wire, with arbitrary bytes behind it: what the parse loop does with its header
 * and its arguments, wherever the bytes received so far end.
 */
module RespCommand {
  import BuddyMath
  import opened Resp
  import opened RespMemory
  import opened RespParser

  /** Scanning stops at the carriage return, or at the last byte received if that comes first. */
  lemma {:induction false} ScanDigits(buf: Bytes, pos: nat, ds: Bytes, tail: Bytes, future: Bytes)
    requires pos <= |buf| && buf[pos..] + future == ds + CRLF + tail
    requires forall i :: 0 <= i < |ds| ==> ds[i] >= ZERO
    ensures |buf| - pos >= |ds| + 2 ==> ScanEnd(buf, pos) == pos + |ds|
    ensures |buf| - pos < |ds| + 2 ==> ScanEnd(buf, pos) + 1 >= |buf|
    decreases |ds|
  {
    var all := ds + CRLF + tail;
    if pos + 1 < |buf| {
      assert buf[pos] == (buf[pos..] + future)[0] == all[0];
      if ds != [] {
        assert all[1..] == ds[1..] + CRLF + tail;
        assert (buf[pos..] + future)[1..] == buf[pos + 1..] + future;
        ScanDigits(buf, pos + 1, ds[1..], tail, future);
      }
    }
  }

  /** A length line is read as soon as its line feed has arrived, and never misread before. */
  lemma NumberRead(buf: Bytes, start: nat, n: nat, tail: Bytes, future: Bytes)
    requires start <= |buf| && buf[start..] + future == Decimal(n) + CRLF + tail
    ensures ReadNumber(buf, start) ==
      if |buf| - start >= |Decimal(n)| + 2 then Number(start + |Decimal(n)| + 2, n) else Incomplete
    ensures |buf| - start >= |Decimal(n)| + 2 ==> buf[start + |Decimal(n)| + 2..] + future == tail
  {
    var ds := Decimal(n);
    var all := ds + CRLF + tail;
    ScanDigits(buf, start, ds, tail, future);
    if |buf| - start >= |ds| + 2 {
      var s := buf[start..] + future;
      assert s[|ds|] == all[|ds|] && s[|ds| + 1] == all[|ds| + 1];
      assert buf[start..start + |ds|] == s[..|ds|] == all[..|ds|] == ds;
      assert buf[start + |ds| + 2..] + future == s[|ds| + 2..] == all[|ds| + 2..];
      DecimalRoundTrip(n);
    }
  }

  /** The parser handles commands that have arguments, and no more of them than it can have places for. */
  predicate Good(c: Command) {
    0 < |c| <= MAX_ARGS
  }

  /** The bytes still to come for the command in progress, after `j` of its arguments. */
  function Rest(c: Command, j: nat, tail: Bytes): Bytes
    requires j <= |c|
  {
    EncodeArgs(c[j..]) + tail
  }

  /** `argv` are the first arguments of the command in progress, and there is a place for each. */
  ghost predicate Holds(p: Parser, c: Command)
    requires Ok(p)
  {
    && p.cmdStart < p.parsed && |p.argv| < |c| == p.expected <= p.argvCap
    && Args(p.buf, p.argv) == c[..|p.argv|]
  }

  /** `c` is in progress, and `tail` comes behind it; `future` are the bytes not received yet. */
  ghost predicate InCommand(p: Parser, c: Command, tail: Bytes, future: Bytes) {
    && Ok(p) && p.status.Open? && ArgvCap(p.argvCap) && Holds(p, c)
    && p.buf[p.cmdStart..] + future == EncodeCommand(c) + tail
    && match p.phase
       case ArrayLen => false
       case BulkLen => Unparsed(p) + future == Rest(c, |p.argv|, tail)
       case BulkData =>
         && p.bulkLen == |c[|p.argv|]|
         && Unparsed(p) + future == c[|p.argv|] + CRLF + Rest(c, |p.argv| + 1, tail)
  }

  /** The same bytes at the same places. */
  predicate Keeps(p: Parser, q: Parser) {
    q.buf == p.buf && q.cap == p.cap && q.cmdStart == p.cmdStart && q.out == p.out
  }

  lemma Peel(buf: Bytes, pos: nat, future: Bytes, x: byte, w: Bytes)
    requires pos < |buf| && buf[pos..] + future == [x] + w
    ensures buf[pos] == x && buf[pos + 1..] + future == w
  {
    var s := buf[pos..] + future;
    assert s[0] == buf[pos] && s[1..] == buf[pos + 1..] + future;
    assert ([x] + w)[0] == x && ([x] + w)[1..] == w;
  }

  lemma Regrouped(a: Bytes, b: Bytes, c: Bytes, d: Bytes, e: Bytes)
    ensures a + b + c + d + e == a + (b + c + (d + e))
  {
  }

  lemma CommandHead(c: Command, tail: Bytes)
    ensures EncodeCommand(c) + tail == [STAR] + (Decimal(|c|) + CRLF + Rest(c, 0, tail))
    ensures |Rest(c, 0, tail)| >= |tail|
  {
    assert c[0..] == c;
    Regrouped([STAR], Decimal(|c|), CRLF, EncodeArgs(c), tail);
    hide EncodeArgs, Decimal;
  }

  lemma RestHead(c: Command, j: nat, tail: Bytes)
    requires j < |c|
    ensures Rest(c, j, tail) == [DOLLAR] + (Decimal(|c[j]|) + CRLF + (c[j] + CRLF + Rest(c, j + 1, tail)))
    ensures |Rest(c, j + 1, tail)| >= |tail|
  {
    assert c[j..][0] == c[j] && c[j..][1..] == c[j + 1..];
  }

  lemma LastRest(c: Command, tail: Bytes)
    ensures Rest(c, |c|, tail) == tail
  {
    assert c[|c|..] == [];
  }

  // ---------------------------------------------------------------- the header

  /**
   * The header of a command: not all of it is there, or the command is in progress, or it is empty and
   * the parser goes on behind it, or it has too many arguments and the parser is done for.
   */
  lemma HeaderTurn(p: Parser, c: Command, tail: Bytes, future: Bytes)
    requires Ok(p) && p.status.Open? && ArgvCap(p.argvCap) && p.phase == ArrayLen && p.parsed < |p.buf|
    requires p.buf[p.parsed..] + future == EncodeCommand(c) + tail
    ensures var t := TurnOf(p);
      && Keeps(p.(cmdStart := p.parsed), t.p) && ArgvCap(t.p.argvCap)
      && (t.Wait? && t.p.status.Open? ==> t.p == p.(cmdStart := p.parsed) && |future| > |tail|)
      && (t.Go? ==> && t.p.status.Open? && t.p.phase == BulkLen && |c| <= MAX_ARGS
                    && if c == [] then Unparsed(t.p) + future == tail else InCommand(t.p, c, tail, future))
      && (!t.p.status.Open? ==> !Good(c))
  {
    hide ReadNumber, Decimal, EncodeArgs, IsPing, SkipBlank, Ensured, ArgvCap;
    var n, rest := |c|, Rest(c, 0, tail);
    CommandHead(c, tail);
    hide EncodeCommand, Rest;
    Peel(p.buf, p.parsed, future, STAR, Decimal(n) + CRLF + rest);
    NumberRead(p.buf, p.parsed + 1, n, rest, future);
    EnsuredWhen(p.argvCap, n);
    if n == 0 { LastRest(c, tail); }
    assert |p.buf[p.parsed..] + future| == 1 + |Decimal(n) + CRLF + rest|;
  }

  // ---------------------------------------------------------------- the arguments

  lemma BulkLenTurn(p: Parser, c: Command, tail: Bytes, future: Bytes)
    requires InCommand(p, c, tail, future) && p.phase == BulkLen && p.parsed < |p.buf|
    ensures var t := TurnOf(p);
      InCommand(t.p, c, tail, future) && Keeps(p, t.p) && (t.Wait? ==> |future| > |tail|)
  {
    hide ReadNumber, Decimal, EncodeArgs, EncodeCommand, ArgvCap;
    var j := |p.argv|;
    var rest := c[j] + CRLF + Rest(c, j + 1, tail);
    RestHead(c, j, tail);
    hide Rest;
    Peel(p.buf, p.parsed, future, DOLLAR, Decimal(|c[j]|) + CRLF + rest);
    NumberRead(p.buf, p.parsed + 1, |c[j]|, rest, future);
    assert |p.buf[p.parsed..] + future| == 1 + |Decimal(|c[j]|) + CRLF + rest|;
  }

  /** What a complete bulk string leaves behind it. */
  lemma BulkSplit(buf: Bytes, pos: nat, future: Bytes, data: Bytes, w: Bytes)
    requires pos <= |buf| && buf[pos..] + future == data + CRLF + w && |buf| - pos >= |data| + 2
    ensures buf[pos..pos + |data|] == data && buf[pos + |data| + 2..] + future == w
  {
    var s, n := buf[pos..] + future, |data|;
    assert buf[pos..pos + n] == s[..n] == (data + CRLF + w)[..n];
    assert buf[pos + n + 2..] + future == s[n + 2..] == (data + CRLF + w)[n + 2..];
  }

  lemma ArgsGrow(buf: Bytes, argv: seq<Slice>, a: Slice)
    requires a.off + a.len <= |buf| && forall i :: 0 <= i < |argv| ==> argv[i].off + argv[i].len <= |buf|
    ensures Args(buf, argv + [a]) == Args(buf, argv) + [buf[a.off..a.off + a.len]]
  {
  }

  /** The last argument of the command in progress is complete. */
  predicate Ends(p: Parser, c: Command) {
    |p.argv| + 1 == |c| && |p.buf| - p.parsed >= p.bulkLen + 2
  }

  lemma BulkDataTurn(p: Parser, c: Command, tail: Bytes, future: Bytes)
    requires InCommand(p, c, tail, future) && p.phase == BulkData && p.parsed < |p.buf| && !Ends(p, c)
    ensures var t := TurnOf(p);
      InCommand(t.p, c, tail, future) && Keeps(p, t.p) && (t.Wait? ==> |future| > |tail|)
  {
    hide EncodeArgs, EncodeCommand, Args, ArgvCap;
    var j := |p.argv|;
    var rest := Rest(c, j + 1, tail);
    RestHead(c, j, tail);
    hide Rest;
    if |p.buf| - p.parsed >= p.bulkLen + 2 {
      BulkSplit(p.buf, p.parsed, future, c[j], rest);
      ArgsGrow(p.buf, p.argv, Slice(p.parsed, p.bulkLen));
      assert c[..j] + [c[j]] == c[..j + 1];
    } else {
      assert |p.buf[p.parsed..] + future| == |c[j] + CRLF + rest|;
    }
  }

  lemma EndsAt(buf: Bytes, start: nat, at: nat, future: Bytes, c: Command, rest: Bytes)
    requires start <= at <= |buf|
    requires buf[start..] + future == EncodeCommand(c) + rest && buf[at..] + future == rest
    ensures at == start + |EncodeCommand(c)|
  {
    assert |buf[start..] + future| == |buf| - start + |future|;
    assert |buf[at..] + future| == |buf| - at + |future|;
  }

  /** The parser stands behind a command that ended at `at`. */
  predicate Past(p: Parser, q: Parser, at: nat) {
    && q.cap == p.cap && q.phase == ArrayLen
    && (if at == |p.buf| then q.buf == [] && q.cmdStart == 0 else q.buf == p.buf && q.cmdStart == at)
  }

  lemma LastTurn(p: Parser, c: Command)
    requires Ok(p) && Holds(p, c) && p.phase == BulkData && p.parsed < |p.buf| && Ends(p, c)
    ensures var t, a := TurnOf(p), Slice(p.parsed, p.bulkLen);
      && t.Go? && Past(p, t.p, p.parsed + p.bulkLen + 2) && t.p.status == p.status && t.p.argvCap == p.argvCap
      && t.p.parsed == t.p.cmdStart
      && t.p.out == p.out + [Request(Args(p.buf, p.argv + [a]))]
  {
    hide Args;
  }

  lemma LastArgument(p: Parser, c: Command, tail: Bytes, future: Bytes)
    requires InCommand(p, c, tail, future) && p.phase == BulkData && Ends(p, c)
    ensures var end := p.parsed + p.bulkLen;
      p.buf[p.parsed..end] == c[|p.argv|] && p.buf[end + 2..] + future == tail
  {
    LastRest(c, tail);
    hide EncodeCommand, EncodeArgs, Rest, Args, ArgvCap;
    BulkSplit(p.buf, p.parsed, future, c[|p.argv|], tail);
  }

  lemma AllArguments(p: Parser, c: Command)
    requires Ok(p) && Holds(p, c) && Ends(p, c) && p.buf[p.parsed..p.parsed + p.bulkLen] == c[|p.argv|]
    ensures Args(p.buf, p.argv + [Slice(p.parsed, p.bulkLen)]) == c
  {
    hide Args;
    ArgsGrow(p.buf, p.argv, Slice(p.parsed, p.bulkLen));
    assert c[..|p.argv|] + [c[|p.argv|]] == c;
  }

  /** The only turn that hands out a command: it hands out the one in progress, and stands behind it. */
  lemma LastTurnEnds(p: Parser, c: Command, tail: Bytes, future: Bytes)
    requires InCommand(p, c, tail, future) && p.phase == BulkData && p.parsed < |p.buf| && Ends(p, c)
    ensures var t, at := TurnOf(p), p.cmdStart + |EncodeCommand(c)|;
      && t.Go? && t.p.out == p.out + [Request(c)] && Good(c)
      && t.p.status.Open? && t.p.argvCap == p.argvCap && t.p.parsed == t.p.cmdStart
      && at <= |p.buf| && Past(p, t.p, at) && p.buf[at..] + future == tail
  {
    hide EncodeCommand, EncodeArgs, Rest, Args, ArgvCap, TurnOf, Past;
    ArgvBound(p.argvCap);
    LastArgument(p, c, tail, future);
    AllArguments(p, c);
    EndsAt(p.buf, p.cmdStart, p.parsed + p.bulkLen + 2, future, c, tail);
    LastTurn(p, c);
  }

  lemma ArgvBound(cap: nat)
    requires ArgvCap(cap)
    ensures cap <= MAX_ARGS
  {
    MorePowers();
    if cap > 0 {
      var j :| 3 <= j <= 24 && cap == BuddyMath.P(j);
      BuddyMath.PMonotone(j, 24);
    }
  }

  /** With all bytes parsed, some of the command in progress are still to come. */
  lemma AllParsedAwaits(p: Parser, c: Command, tail: Bytes, future: Bytes)
    requires InCommand(p, c, tail, future) && p.parsed == |p.buf|
    ensures |future| > |tail|
  {
    assert Unparsed(p) + future == future;
    RestHead(c, |p.argv|, tail);
  }

  // ---------------------------------------------------------------- bytes move and arrive

  /** The same command in progress, and the same bytes behind it. */
  ghost predicate SameView(p: Parser, future: Bytes, q: Parser, future': Bytes)
    requires Ok(p) && Ok(q)
  {
    && q.phase == p.phase && q.expected == p.expected && q.bulkLen == p.bulkLen
    && q.argvCap == p.argvCap && q.status == p.status
    && |q.argv| == |p.argv| && Args(q.buf, q.argv) == Args(p.buf, p.argv)
    && q.parsed - q.cmdStart == p.parsed - p.cmdStart
    && q.buf[q.cmdStart..] + future' == p.buf[p.cmdStart..] + future
    && Unparsed(q) + future' == Unparsed(p) + future
  }

  lemma InCommandSame(p: Parser, future: Bytes, q: Parser, future': Bytes, c: Command, tail: Bytes)
    requires InCommand(p, c, tail, future) && Ok(q) && SameView(p, future, q, future')
    ensures InCommand(q, c, tail, future')
  {
    hide Args, EncodeCommand, Rest, ArgvCap, Ok, Unparsed;
  }

  lemma MovedView(p: Parser, cap: nat, future: Bytes)
    requires Ok(p) && cap >= p.cap
    ensures SameView(p, future, Moved(p).(cap := cap), future)
  {
    var q := Moved(p).(cap := cap);
    MovedIsSame(p);
    assert q.buf[0..] == q.buf;
    hide Args;
  }

  lemma ArgsFrame(buf: Bytes, more: Bytes, argv: seq<Slice>)
    requires forall i :: 0 <= i < |argv| ==> argv[i].off + argv[i].len <= |buf|
    ensures Args(buf + more, argv) == Args(buf, argv)
  {
    forall i | 0 <= i < |argv| ensures Args(buf + more, argv)[i] == Args(buf, argv)[i] {
      var a := argv[i];
      assert (buf + more)[a.off..a.off + a.len] == buf[a.off..a.off + a.len];
    }
  }

  lemma Regroup(buf: Bytes, pos: nat, chunk: Bytes, future: Bytes)
    requires pos <= |buf|
    ensures (buf + chunk)[pos..] + future == buf[pos..] + (chunk + future)
  {
    assert (buf + chunk)[pos..] == buf[pos..] + chunk;
  }

  lemma AppendedView(p: Parser, chunk: Bytes, future: Bytes)
    requires Ok(p) && |p.buf| + |chunk| <= p.cap
    ensures SameView(p, chunk + future, p.(buf := p.buf + chunk), future)
  {
    hide Args;
    ArgsFrame(p.buf, chunk, p.argv);
    Regroup(p.buf, p.cmdStart, chunk, future);
    Regroup(p.buf, p.parsed, chunk, future);
  }
}
