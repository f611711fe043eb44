/**
 * Commands, inline pings and blank lines mixed, on streams that the first buffer holds: what is handed
 * out, wherever the socket is found drained.
 */
module RespInline {
  import opened Resp
  import opened RespMemory
  import opened RespParser
  import opened RespCommand
  import RespFlow
  import RespSafety

  /** A command, the word ping in any case with line ends behind it, or blank lines. */
  datatype Item = Cmd(c: Command) | Ping(word: Bytes, ends: Bytes) | Lines(n: nat)

  function Upper(b: byte): byte {
    if 97 <= b <= 122 then b - 32 else b
  }

  predicate SpellsPing(word: Bytes) {
    |word| == 4 && Upper(word[0]) == 80 && Upper(word[1]) == 73 && Upper(word[2]) == 78 && Upper(word[3]) == 71
  }

  predicate LineEnds(ends: Bytes) {
    forall i :: 0 <= i < |ends| ==> ends[i] == CR || ends[i] == LF
  }

  function BlankLines(n: nat): (b: Bytes)
    ensures |b| == 2 * n
  {
    if n == 0 then [] else CRLF + BlankLines(n - 1)
  }

  function EncodeItem(x: Item): Bytes {
    match x
    case Cmd(c) => EncodeCommand(c)
    case Ping(word, ends) => word + ends
    case Lines(n) => BlankLines(n)
  }

  function EncodeItems(xs: seq<Item>): Bytes {
    if xs == [] then [] else EncodeItem(xs[0]) + EncodeItems(xs[1..])
  }

  predicate Proper(x: Item) {
    match x
    case Cmd(_) => true
    case Ping(word, ends) => SpellsPing(word) && LineEnds(ends)
    case Lines(n) => n > 0
  }

  /** The line ends behind a ping are its own: no blank lines follow it. */
  predicate AllProper(xs: seq<Item>) {
    && (forall i :: 0 <= i < |xs| ==> Proper(xs[i]))
    && (forall i :: 0 <= i < |xs| - 1 && xs[i].Ping? ==> !xs[i + 1].Lines?)
  }

  predicate AllGood(xs: seq<Item>) {
    forall i :: 0 <= i < |xs| && xs[i].Cmd? ==> Good(xs[i].c)
  }

  /** One request for each command and one pong for each ping, in order. */
  function Outputs(xs: seq<Item>): seq<Output> {
    if xs == [] then []
    else
      (match xs[0]
       case Cmd(c) => [Request(c)]
       case Ping(_, _) => [Pong]
       case Lines(_) => []) + Outputs(xs[1..])
  }

  // ---------------------------------------------------------------- where a drain may fall

  /** What a drain leaves: items of which `have` bytes have arrived, or items that are out of reach. */
  datatype Drain = Left(xs: seq<Item>, have: nat) | Lost(xs: seq<Item>)

  /**
   * The socket is drained when `have` bytes of the items have arrived. Complete items go. A drain inside
   * the word ping is fatal; one inside its line ends leaves whatever is behind as blank lines, if it
   * is some, and puts everything out of reach if it is not.
   */
  function AtDrain(xs: seq<Item>, have: nat): Drain {
    if xs == [] then Left([], have)
    else
      var size := |EncodeItem(xs[0])|;
      if have >= size then AtDrain(xs[1..], have - size)
      else match xs[0]
        case Cmd(_) => Left(xs, have)
        case Lines(n) => Left([Lines(n - have / 2)] + xs[1..], have % 2)
        case Ping(word, ends) =>
          if have == 0 then Left(xs, 0)
          else if have < |word| then Lost(xs)
          else
            var rest := ends[have - |word|..];
            if rest == BlankLines(|rest| / 2) then Left([Lines(|rest| / 2)] + xs[1..], 0) else Lost(xs[1..])
  }

  /** No drain puts anything out of reach that is to be handed out. */
  predicate Kind(xs: seq<Item>, have: nat, input: seq<Bytes>)
    decreases |input|
  {
    if input == [] then true
    else if input[0] != [] then Kind(xs, have + |input[0]|, input[1..])
    else match AtDrain(xs, have)
      case Left(rest, n) => Kind(rest, n, input[1..])
      case Lost(rest) => Outputs(rest) == []
  }

  /** No drain puts anything out of reach at all. */
  predicate Gentle(xs: seq<Item>, have: nat, input: seq<Bytes>)
    decreases |input|
  {
    if input == [] then true
    else if input[0] != [] then Gentle(xs, have + |input[0]|, input[1..])
    else var d := AtDrain(xs, have); d.Left? && Gentle(d.xs, d.have, input[1..])
  }

  // ---------------------------------------------------------------- the parser and the items

  /** The buffer has room for everything that is to come. */
  predicate Roomy(p: Parser, future: Bytes) {
    |p.buf| + |future| + RBUF_ROOM <= p.cap
  }

  /** `have` bytes of the items `xs` have arrived, and nothing of them has been handed out. */
  ghost predicate Live(p: Parser, xs: seq<Item>, have: nat, future: Bytes) {
    && Ok(p) && p.status.Open? && ArgvCap(p.argvCap) && Roomy(p, future) && AllProper(xs)
    && if p.phase == ArrayLen then Unparsed(p) + future == EncodeItems(xs) && have == |Unparsed(p)|
       else xs != [] && xs[0].Cmd? && InCommand(p, xs[0].c, EncodeItems(xs[1..]), future)
            && have == |p.buf| - p.cmdStart
  }

  /** Blank lines, and then a line feed alone or a carriage return that no line feed follows. */
  predicate Doomed(w: Bytes) {
    w != [] && (w[0] == LF || (w[0] == CR && (|w| == 1 || w[1] != LF || Doomed(w[2..]))))
  }

  /** Nothing more will be handed out. */
  ghost predicate Dead(p: Parser, future: Bytes) {
    && Ok(p)
    && (p.status.Open? ==>
          && Roomy(p, future)
          && var w := Unparsed(p) + future;
             match p.phase
             case ArrayLen => Doomed(w)
             case BulkLen => w == [] || w[0] != DOLLAR
             case BulkData => false)
  }

  /** What is left to hand out, behind what has been. */
  ghost predicate HandsOut(p: Parser, xs: seq<Item>, q: Parser, xs': seq<Item>) {
    q.out + Outputs(xs') == p.out + Outputs(xs) && (AllGood(xs') <==> AllGood(xs))
  }

  predicate BadHead(xs: seq<Item>) {
    xs != [] && xs[0].Cmd? && !Good(xs[0].c)
  }

  // ---------------------------------------------------------------- dead parsers stay dead

  lemma FirstByte(buf: Bytes, pos: nat, future: Bytes)
    requires pos < |buf|
    ensures (buf[pos..] + future)[0] == buf[pos]
    ensures pos + 1 < |buf| ==> (buf[pos..] + future)[1] == buf[pos + 1]
    ensures pos + 2 <= |buf| ==> (buf[pos..] + future)[2..] == buf[pos + 2..] + future
  {
  }

  lemma DoomedTurn(p: Parser, future: Bytes)
    requires Ok(p) && p.status.Open? && p.phase == ArrayLen && p.parsed < |p.buf| && Doomed(Unparsed(p) + future)
    ensures var t := TurnOf(p);
      && t.p.out == p.out && t.p.buf == p.buf && t.p.cap == p.cap
      && (t.Go? ==> t.p.status.Open?)
      && (t.p.status.Open? ==> t.p.phase == ArrayLen && Doomed(Unparsed(t.p) + future))
  {
    hide ReadNumber, SkipBlank, Ensured;
    FirstByte(p.buf, p.parsed, future);
  }

  lemma {:induction false} DeadDrained(p: Parser, future: Bytes)
    requires Dead(p, future) && p.status.Open?
    ensures Dead(Drained(p), future) && Drained(p).out == p.out
    decreases |p.buf| - p.parsed
  {
    if p.parsed < |p.buf| {
      FirstByte(p.buf, p.parsed, future);
      if p.phase == ArrayLen {
        DoomedTurn(p, future);
        hide TurnOf, Doomed;
        var t := TurnOf(p);
        if t.Go? { DeadDrained(t.p, future); }
      } else {
        assert TurnOf(p).Wait?;
      }
    }
  }

  lemma DeadStays(p: Parser, chunk: Bytes, future: Bytes)
    requires Dead(p, chunk + future) && Takes(p, chunk)
    ensures Dead(Receive(p, chunk), future) && Receive(p, chunk).out == p.out
  {
    if p.status.Open? {
      assert Roomed(p) == p;
      if chunk == [] {
        assert chunk + future == future;
        DeadDrained(p, future);
      } else {
        Regroup(p.buf, p.parsed, chunk, future);
        assert Unparsed(p.(buf := p.buf + chunk)) + future == Unparsed(p) + (chunk + future);
      }
    }
  }

  // ---------------------------------------------------------------- one turn

  /** A turn goes from `xs` to `xs'` as the account does, or the parser is dead as the account says. */
  ghost predicate Steps(p: Parser, xs: seq<Item>, have: nat, t: Turn, xs': seq<Item>, have': nat, future: Bytes) {
    && HandsOut(p, xs, t.p, xs')
    && (|| (&& Live(t.p, xs', have', future)
            && if t.Go? then AtDrain(xs', have') == AtDrain(xs, have) else AtDrain(xs, have) == Left(xs', have'))
        || (&& Dead(t.p, future) && (t.Go? ==> t.p.status.Open?)
            && (AtDrain(xs, have) == Lost(xs') || BadHead(xs'))))
  }

  lemma OutputsOf(xs: seq<Item>)
    requires xs != []
    ensures xs[0].Cmd? ==> Outputs(xs) == [Request(xs[0].c)] + Outputs(xs[1..])
    ensures xs[0].Ping? ==> Outputs(xs) == [Pong] + Outputs(xs[1..])
    ensures xs[0].Lines? ==> Outputs(xs) == Outputs(xs[1..])
    ensures AllGood(xs) <==> (xs[0].Cmd? ==> Good(xs[0].c)) && AllGood(xs[1..])
  {
    assert xs == [xs[0]] + xs[1..];
  }

  lemma ProperTail(xs: seq<Item>)
    requires AllProper(xs) && xs != []
    ensures AllProper(xs[1..]) && forall n: nat :: n > 0 ==> AllProper([Lines(n)] + xs[1..])
  {
  }

  lemma SizePositive(x: Item)
    requires Proper(x)
    ensures |EncodeItem(x)| > 0
  {
  }

  /** What comes behind a ping does not begin with a line end. */
  lemma BehindPing(xs: seq<Item>)
    requires AllProper(xs) && xs != [] && xs[0].Ping?
    ensures var w := EncodeItems(xs[1..]); w == [] || (w[0] != CR && w[0] != LF)
  {
    if xs[1..] != [] {
      var x := xs[1];
      assert xs[1..][0] == x && !x.Lines?;
      assert EncodeItem(x)[0] == EncodeItems(xs[1..])[0];
    }
  }

  /** The items after one blank line of the first. */
  function LessOneLine(xs: seq<Item>): seq<Item>
    requires xs != [] && xs[0].Lines? && xs[0].n > 0
  {
    if xs[0].n == 1 then xs[1..] else [Lines(xs[0].n - 1)] + xs[1..]
  }

  lemma LinesFirst(xs: seq<Item>)
    requires xs != [] && xs[0].Lines? && xs[0].n > 0
    ensures EncodeItems(xs) == CRLF + (BlankLines(xs[0].n - 1) + EncodeItems(xs[1..]))
  {
    hide EncodeCommand;
    Assoc(CRLF, BlankLines(xs[0].n - 1), EncodeItems(xs[1..]));
  }

  lemma Assoc(a: Bytes, b: Bytes, c: Bytes)
    ensures a + b + c == a + (b + c)
  {
  }

  lemma LinesSplit(xs: seq<Item>)
    requires AllProper(xs) && xs != [] && xs[0].Lines?
    ensures xs[0].n > 0 && AllProper(LessOneLine(xs)) && EncodeItems(xs) == CRLF + EncodeItems(LessOneLine(xs))
    ensures Outputs(LessOneLine(xs)) == Outputs(xs) && (AllGood(LessOneLine(xs)) <==> AllGood(xs))
  {
    assert Proper(xs[0]);
    var n := xs[0].n;
    OutputsOf(xs);
    ProperTail(xs);
    LinesFirst(xs);
    hide EncodeItems, Outputs, AllGood, AllProper;
    if n > 1 {
      LinesAgain(xs, n - 1);
    } else {
      assert BlankLines(0) + EncodeItems(xs[1..]) == EncodeItems(xs[1..]);
    }
  }

  lemma LinesAtDrain(xs: seq<Item>, have: nat)
    requires xs != [] && xs[0].Lines?
    ensures var n := xs[0].n;
      AtDrain(xs, have) == if have >= 2 * n then AtDrain(xs[1..], have - 2 * n)
                           else Left([Lines(n - have / 2)] + xs[1..], have % 2)
  {
    hide BlankLines, EncodeCommand;
  }

  lemma LinesDrain(xs: seq<Item>, have: nat)
    requires xs != [] && xs[0].Lines? && xs[0].n > 0
    ensures have >= 2 ==> AtDrain(LessOneLine(xs), have - 2) == AtDrain(xs, have)
    ensures have < 2 ==> AtDrain(xs, have) == Left(xs, have)
  {
    hide AtDrain;
    var n, less := xs[0].n, LessOneLine(xs);
    LinesAtDrain(xs, have);
    if have < 2 {
      assert [Lines(n)] + xs[1..] == xs;
    } else if n > 1 {
      LinesAtDrain(less, have - 2);
      assert less[1..] == xs[1..];
    }
  }

  lemma BlankTurn(p: Parser, w: Bytes, future: Bytes)
    requires Ok(p) && p.phase == ArrayLen && p.parsed < |p.buf| && Unparsed(p) + future == CRLF + w
    ensures |Unparsed(p)| < 2 ==> TurnOf(p) == Wait(p)
    ensures |Unparsed(p)| >= 2 ==>
      TurnOf(p) == Go(p.(parsed := p.parsed + 2)) && p.buf[p.parsed + 2..] + future == w
  {
    hide ReadNumber, SkipBlank, Ensured, IsPing;
    FirstByte(p.buf, p.parsed, future);
    assert (CRLF + w)[2..] == w;
  }

  lemma LinesTurn(p: Parser, xs: seq<Item>, have: nat, future: Bytes) returns (xs': seq<Item>, have': nat)
    requires Live(p, xs, have, future) && p.phase == ArrayLen && p.parsed < |p.buf| && xs != [] && xs[0].Lines?
    ensures Steps(p, xs, have, TurnOf(p), xs', have', future)
  {
    hide TurnOf, ArgvCap, EncodeItems, Outputs, AllGood, AllProper, AtDrain, LessOneLine;
    LinesSplit(xs);
    LinesDrain(xs, have);
    BlankTurn(p, EncodeItems(LessOneLine(xs)), future);
    xs', have' := if have >= 2 then LessOneLine(xs) else xs, if have >= 2 then have - 2 else have;
  }

  lemma {:induction false} SkipBlankIs(buf: Bytes, pos: nat, ends: Bytes, tail: Bytes, future: Bytes)
    requires pos <= |buf| && buf[pos..] + future == ends + tail && LineEnds(ends)
    requires tail == [] || (tail[0] != CR && tail[0] != LF)
    ensures SkipBlank(buf, pos) == if |buf| - pos <= |ends| then |buf| else pos + |ends|
    decreases |ends|
  {
    if pos < |buf| {
      FirstByte(buf, pos, future);
      if ends != [] {
        assert (ends + tail)[0] == ends[0] && (ends + tail)[1..] == ends[1..] + tail;
        assert (buf[pos..] + future)[1..] == buf[pos + 1..] + future;
        SkipBlankIs(buf, pos + 1, ends[1..], tail, future);
      }
    }
  }

  /** Line ends that are not blank lines are a dead end. */
  lemma {:induction false} NotBlankIsDoomed(rest: Bytes, tail: Bytes)
    requires LineEnds(rest) && rest != BlankLines(|rest| / 2) && (tail == [] || tail[0] != LF)
    ensures Doomed(rest + tail)
    decreases |rest|
  {
    if rest[0] == CR && |rest| > 1 && rest[1] == LF {
      var more := rest[2..];
      assert rest == CRLF + more;
      NotBlankIsDoomed(more, tail);
      assert (rest + tail)[2..] == more + tail;
    }
  }

  lemma PingIsPing(word: Bytes, b: Bytes)
    requires SpellsPing(word) && |b| >= 4 && b[..4] == word
    ensures IsPing(b)
  {
    assert b[0] == word[0] && b[1] == word[1] && b[2] == word[2] && b[3] == word[3];
  }

  lemma Prefixes(a: Bytes, future: Bytes, word: Bytes, rest: Bytes)
    requires a + future == word + rest
    ensures |a| >= |word| ==> a[..|word|] == word && a[|word|..] + future == rest
    ensures |a| <= |word| ==> a == word[..|a|]
  {
    var s := a + future;
    if |a| >= |word| {
      assert a[..|word|] == s[..|word|] && s[|word|..] == a[|word|..] + future;
      assert (word + rest)[|word|..] == rest;
    } else {
      assert a == s[..|a|] == word[..|a|];
    }
  }

  /** A ping of which all four letters are there is answered, and line ends behind it are skipped. */
  lemma PingAnswered(p: Parser, word: Bytes, rest: Bytes, future: Bytes)
    requires Ok(p) && p.phase == ArrayLen && |p.buf| - p.parsed >= 4 && SpellsPing(word)
    requires Unparsed(p) + future == word + rest
    ensures TurnOf(p) == Go(p.(cmdStart := p.parsed, out := p.out + [Pong], parsed := SkipBlank(p.buf, p.parsed + 4)))
    ensures p.buf[p.parsed + 4..] + future == rest
  {
    hide ReadNumber, Ensured, SkipBlank;
    var u := Unparsed(p);
    Prefixes(u, future, word, rest);
    assert u[4..] == p.buf[p.parsed + 4..];
    PingIsPing(word, u);
    hide IsPing;
    assert p.buf[p.parsed] == u[0] == word[0];
  }

  lemma EndsGo(buf: Bytes, pos: nat, ends: Bytes, tail: Bytes, future: Bytes)
    requires pos <= |buf| && buf[pos..] + future == ends + tail
    ensures var n := |buf| - pos;
      if n <= |ends| then buf[|buf|..] + future == ends[n..] + tail else buf[pos + |ends|..] + future == tail
  {
    var s, n := buf[pos..] + future, |buf| - pos;
    if n <= |ends| {
      assert buf[|buf|..] + future == s[n..] == (ends + tail)[n..] == ends[n..] + tail;
    } else {
      assert buf[pos + |ends|..] + future == s[|ends|..] == (ends + tail)[|ends|..] == tail;
    }
  }

  lemma WholeWord(p: Parser, word: Bytes, ends: Bytes, tail: Bytes, future: Bytes)
    requires Ok(p) && p.phase == ArrayLen && |p.buf| - p.parsed >= 4 && SpellsPing(word) && LineEnds(ends)
    requires Unparsed(p) + future == word + ends + tail && (tail == [] || (tail[0] != CR && tail[0] != LF))
    ensures var n := |p.buf| - p.parsed - 4; var at := p.parsed + 4 + if n <= |ends| then n else |ends|;
      && TurnOf(p) == Go(p.(cmdStart := p.parsed, out := p.out + [Pong], parsed := at))
      && p.buf[at..] + future == (if n <= |ends| then ends[n..] else []) + tail
  {
    hide TurnOf, SpellsPing, LineEnds, SkipBlank;
    var pos, n := p.parsed + 4, |p.buf| - p.parsed - 4;
    assert Unparsed(p) + future == word + (ends + tail) by { Assoc(word, ends, tail); }
    PingAnswered(p, word, ends + tail, future);
    SkipBlankIs(p.buf, pos, ends, tail, future);
    EndsGo(p.buf, pos, ends, tail, future);
    if n > |ends| { assert [] + tail == tail; }
  }

  /** A part of the word closes the connection. */
  lemma PartOfWord(p: Parser, word: Bytes, rest: Bytes, future: Bytes)
    requires Ok(p) && p.phase == ArrayLen && 0 < |p.buf| - p.parsed < 4 && SpellsPing(word)
    requires Unparsed(p) + future == word + rest
    ensures TurnOf(p) == Wait(p.(cmdStart := p.parsed, status := Closed))
  {
    hide ReadNumber, Ensured, SkipBlank;
    Prefixes(Unparsed(p), future, word, rest);
    assert Unparsed(p)[0] == word[0];
  }

  lemma PingDrain(xs: seq<Item>, have: nat)
    requires AllProper(xs) && xs != [] && xs[0].Ping? && have > 0
    ensures var ends := xs[0].ends;
      AtDrain(xs, have) ==
        if have < 4 then Lost(xs)
        else if have - 4 >= |ends| then AtDrain(xs[1..], have - 4 - |ends|)
        else
          var rest := ends[have - 4..];
          if rest == BlankLines(|rest| / 2) then Left([Lines(|rest| / 2)] + xs[1..], 0) else Lost(xs[1..])
  {
    hide BlankLines;
    assert Proper(xs[0]);
  }

  lemma SplitPing(xs: seq<Item>)
    requires AllProper(xs) && xs != [] && xs[0].Ping?
    ensures EncodeItems(xs) == xs[0].word + xs[0].ends + EncodeItems(xs[1..])
    ensures SpellsPing(xs[0].word) && LineEnds(xs[0].ends) && AllProper(xs[1..])
  {
    assert Proper(xs[0]);
    ProperTail(xs);
  }

  lemma LinesAgain(xs: seq<Item>, n: nat)
    requires AllProper(xs) && xs != [] && n > 0
    ensures var ys := [Lines(n)] + xs[1..];
      && AllProper(ys) && EncodeItems(ys) == BlankLines(n) + EncodeItems(xs[1..]) && Outputs(ys) == Outputs(xs[1..])
      && (AllGood(ys) <==> AllGood(xs[1..])) && AtDrain(ys, 0) == Left(ys, 0)
  {
    var ys := [Lines(n)] + xs[1..];
    ProperTail(xs);
    OutputsOf(ys);
    assert ys[1..] == xs[1..];
  }

  lemma PingTurn(p: Parser, xs: seq<Item>, have: nat, future: Bytes) returns (xs': seq<Item>, have': nat)
    requires Live(p, xs, have, future) && p.phase == ArrayLen && p.parsed < |p.buf| && xs != [] && xs[0].Ping?
    ensures Steps(p, xs, have, TurnOf(p), xs', have', future)
  {
    hide TurnOf, ArgvCap, EncodeItems, Outputs, AllGood, AllProper, AtDrain, BlankLines, SpellsPing, LineEnds, Doomed;
    var word, ends, tail := xs[0].word, xs[0].ends, EncodeItems(xs[1..]);
    SplitPing(xs);
    BehindPing(xs);
    PingDrain(xs, have);
    OutputsOf(xs);
    xs', have' := xs, have;
    if have < 4 {
      assert word + ends + tail == word + (ends + tail);
      PartOfWord(p, word, ends + tail, future);
    } else {
      WholeWord(p, word, ends, tail, future);
      PongOut(p.out, Outputs(xs[1..]));
      xs', have' := xs[1..], 0;
      if have - 4 >= |ends| {
        have' := have - 4 - |ends|;
        assert ends[|ends|..] == [] && [] + tail == tail;
      } else {
        var rest := ends[have - 4..];
        if rest == BlankLines(|rest| / 2) {
          LinesAgain(xs, |rest| / 2);
          xs' := [Lines(|rest| / 2)] + xs[1..];
        } else {
          RestEnds(ends, have - 4);
          NotBlankIsDoomed(rest, tail);
        }
      }
    }
  }

  lemma PongOut(out: seq<Output>, more: seq<Output>)
    ensures out + [Pong] + more == out + ([Pong] + more)
  {
  }

  lemma RestEnds(ends: Bytes, n: nat)
    requires LineEnds(ends) && n <= |ends|
    ensures LineEnds(ends[n..])
  {
  }

  lemma CmdDrain(xs: seq<Item>, have: nat)
    requires xs != [] && xs[0].Cmd?
    ensures var size := |EncodeCommand(xs[0].c)|;
      AtDrain(xs, have) == if have >= size then AtDrain(xs[1..], have - size) else Left(xs, have)
  {
    hide EncodeCommand;
  }

  lemma SplitCmd(xs: seq<Item>)
    requires AllProper(xs) && xs != [] && xs[0].Cmd?
    ensures EncodeItems(xs) == EncodeCommand(xs[0].c) + EncodeItems(xs[1..]) && AllProper(xs[1..])
  {
    ProperTail(xs);
  }

  /** Nothing begins with a dollar sign. */
  lemma NoDollar(xs: seq<Item>)
    requires AllProper(xs)
    ensures var w := EncodeItems(xs); w == [] || w[0] != DOLLAR
  {
    if xs != [] {
      assert Proper(xs[0]);
      SizePositive(xs[0]);
      assert EncodeItems(xs)[0] == EncodeItem(xs[0])[0];
    }
  }

  lemma ShortOf(buf: Bytes, pos: nat, future: Bytes, size: nat, tail: Bytes)
    requires pos <= |buf| && |buf[pos..] + future| == size + |tail| && |future| > |tail|
    ensures |buf| - pos < size
  {
  }

  lemma HeadTurn(p: Parser, xs: seq<Item>, have: nat, future: Bytes) returns (xs': seq<Item>, have': nat)
    requires Live(p, xs, have, future) && p.phase == ArrayLen && p.parsed < |p.buf| && xs != [] && xs[0].Cmd?
    ensures Steps(p, xs, have, TurnOf(p), xs', have', future)
  {
    hide TurnOf, ArgvCap, EncodeItems, EncodeCommand, Outputs, AllGood, AllProper, AtDrain, InCommand;
    var c, tail := xs[0].c, EncodeItems(xs[1..]);
    SplitCmd(xs);
    CmdDrain(xs, have);
    NoDollar(xs[1..]);
    HeaderTurn(p, c, tail, future);
    xs', have' := xs, have;
    var t := TurnOf(p);
    if t.Wait? && t.p.status.Open? {
      ShortOf(p.buf, p.parsed, future, |EncodeCommand(c)|, tail);
    }
  }

  lemma RequestOut(out: seq<Output>, c: Command, more: seq<Output>)
    ensures out + [Request(c)] + more == out + ([Request(c)] + more)
  {
  }

  lemma PastLive(p: Parser, q: Parser, at: nat, xs: seq<Item>, future: Bytes)
    requires Ok(p) && Ok(q) && at <= |p.buf| && Past(p, q, at) && p.buf[at..] + future == EncodeItems(xs)
    requires q.status.Open? && ArgvCap(q.argvCap) && q.parsed == q.cmdStart && Roomy(p, future) && AllProper(xs)
    ensures Live(q, xs, |p.buf| - at, future)
  {
    hide ArgvCap, EncodeItems, AllProper;
    if at == |p.buf| { assert p.buf[at..] + future == [] + future; }
  }

  lemma ArgumentTurn(p: Parser, xs: seq<Item>, have: nat, future: Bytes) returns (xs': seq<Item>, have': nat)
    requires Live(p, xs, have, future) && p.phase != ArrayLen && p.parsed < |p.buf|
    ensures Steps(p, xs, have, TurnOf(p), xs', have', future)
  {
    hide TurnOf, ArgvCap, EncodeItems, EncodeCommand, Outputs, AllGood, AllProper, AtDrain, Past;
    var c, tail := xs[0].c, EncodeItems(xs[1..]);
    SplitCmd(xs);
    CmdDrain(xs, have);
    xs', have' := xs, have;
    if p.phase == BulkData && Ends(p, c) {
      LastTurnEnds(p, c, tail, future);
      OutputsOf(xs);
      RequestOut(p.out, c, Outputs(xs[1..]));
      var at := p.cmdStart + |EncodeCommand(c)|;
      xs', have' := xs[1..], |p.buf| - at;
      PastLive(p, TurnOf(p).p, at, xs', future);
    } else {
      if p.phase == BulkData { BulkDataTurn(p, c, tail, future); } else { BulkLenTurn(p, c, tail, future); }
      hide InCommand;
      if TurnOf(p).Wait? {
        ShortOf(p.buf, p.cmdStart, future, |EncodeCommand(c)|, tail);
      }
    }
  }

  // ---------------------------------------------------------------- the parse loop

  lemma OneTurn(p: Parser, xs: seq<Item>, have: nat, future: Bytes) returns (xs': seq<Item>, have': nat)
    requires Live(p, xs, have, future) && p.parsed < |p.buf|
    ensures Steps(p, xs, have, TurnOf(p), xs', have', future)
  {
    hide TurnOf, Steps;
    if p.phase != ArrayLen {
      xs', have' := ArgumentTurn(p, xs, have, future);
    } else {
      assert xs != [];
      match xs[0]
      case Cmd(_) => xs', have' := HeadTurn(p, xs, have, future);
      case Ping(_, _) => xs', have' := PingTurn(p, xs, have, future);
      case Lines(_) => xs', have' := LinesTurn(p, xs, have, future);
    }
  }

  /** With all bytes parsed a drain changes nothing. */
  lemma AllParsed(p: Parser, xs: seq<Item>, have: nat, future: Bytes)
    requires Live(p, xs, have, future) && p.parsed == |p.buf|
    ensures AtDrain(xs, have) == Left(xs, have)
  {
    if p.phase == ArrayLen {
      if xs != [] {
        assert Proper(xs[0]);
        SizePositive(xs[0]);
        if xs[0].Lines? { assert [xs[0]] + xs[1..] == xs; }
      }
    } else {
      var c, tail := xs[0].c, EncodeItems(xs[1..]);
      AllParsedAwaits(p, c, tail, future);
      CmdDrain(xs, have);
      hide EncodeCommand, EncodeItems, AtDrain;
      ShortOf(p.buf, p.cmdStart, future, |EncodeCommand(c)|, tail);
    }
  }

  /** After the loop the parser is where the account says, or dead with `xs'` not handed out. */
  ghost predicate Ended(q: Parser, d: Drain, xs': seq<Item>, future: Bytes) {
    || (d.Left? && d.xs == xs' && Live(q, xs', d.have, future))
    || (Dead(q, future) && (d == Lost(xs') || BadHead(xs')))
  }

  lemma {:induction false} DrainEnds(p: Parser, xs: seq<Item>, have: nat, future: Bytes) returns (xs': seq<Item>)
    requires Ok(p) && Live(p, xs, have, future)
    ensures HandsOut(p, xs, Drained(p), xs') && Ended(Drained(p), AtDrain(xs, have), xs', future)
    decreases |p.buf| - p.parsed
  {
    hide TurnOf, Live, Dead, HandsOut, AtDrain, BadHead;
    xs' := xs;
    if p.parsed < |p.buf| {
      var ys, n := OneTurn(p, xs, have, future);
      var t := TurnOf(p);
      xs' := ys;
      if t.Go? {
        if Live(t.p, ys, n, future) && AtDrain(ys, n) == AtDrain(xs, have) {
          xs' := DrainEnds(t.p, ys, n, future);
          HandsOutThen(p, xs, t.p, ys, Drained(t.p), xs');
        } else {
          DeadDrained(t.p, future);
          SameOut(p, xs, t.p, ys, Drained(t.p));
        }
      }
    } else {
      AllParsed(p, xs, have, future);
      SameOut(p, xs, p, xs, p);
    }
  }

  lemma HandsOutThen(p: Parser, xs: seq<Item>, q: Parser, ys: seq<Item>, r: Parser, zs: seq<Item>)
    requires HandsOut(p, xs, q, ys) && HandsOut(q, ys, r, zs)
    ensures HandsOut(p, xs, r, zs)
  {
  }

  lemma SameOut(p: Parser, xs: seq<Item>, q: Parser, ys: seq<Item>, r: Parser)
    requires HandsOut(p, xs, q, ys) && r.out == q.out
    ensures HandsOut(p, xs, r, ys)
  {
  }

  // ---------------------------------------------------------------- whole sessions

  lemma AppendedLive(p: Parser, chunk: Bytes, xs: seq<Item>, have: nat, future: Bytes)
    requires Ok(p) && Live(p, xs, have, chunk + future)
    ensures Ok(p.(buf := p.buf + chunk)) && Live(p.(buf := p.buf + chunk), xs, have + |chunk|, future)
  {
    hide InCommand, ArgvCap, EncodeItems, AllProper;
    var q := p.(buf := p.buf + chunk);
    AppendedView(p, chunk, future);
    if p.phase != ArrayLen {
      InCommandSame(p, chunk + future, q, future, xs[0].c, EncodeItems(xs[1..]));
    }
  }

  lemma LiveTakes(p: Parser, xs: seq<Item>, have: nat, chunk: Bytes, future: Bytes)
    requires Live(p, xs, have, chunk + future) || (Ok(p) && Dead(p, chunk + future))
    ensures Ok(p) && Takes(p, chunk) && (Live(p, xs, have, chunk + future) ==> p.status.Open? && Roomed(p) == p)
  {
  }

  lemma {:induction false} DeadSession(p: Parser, input: seq<Bytes>)
    requires Dead(p, RespFlow.AllBytes(input))
    ensures Ok(p) && Offered(p, input) && Session(p, input).out == p.out
    decreases |input|
  {
    if input != [] {
      var future := RespFlow.AllBytes(input[1..]);
      LiveTakes(p, [], 0, input[0], future);
      DeadStays(p, input[0], future);
      hide Dead;
      DeadSession(Receive(p, input[0]), input[1..]);
    }
  }

  lemma {:induction false} LeftIsShort(xs: seq<Item>, have: nat)
    requires AllProper(xs)
    ensures var d := AtDrain(xs, have); d.Left? && d.xs != [] ==> d.have < |EncodeItem(d.xs[0])|
  {
    hide EncodeCommand;
    if xs != [] && have >= |EncodeItem(xs[0])| {
      ProperTail(xs);
      LeftIsShort(xs[1..], have - |EncodeItem(xs[0])|);
    }
  }

  /** Once everything has arrived, a drain leaves nothing that it can reach. */
  lemma NothingLeft(xs: seq<Item>, have: nat, q: Parser)
    requires AllProper(xs) && AtDrain(xs, have).Left? && Live(q, AtDrain(xs, have).xs, AtDrain(xs, have).have, [])
    ensures AtDrain(xs, have).xs == []
  {
    LeftIsShort(xs, have);
    hide EncodeCommand, AtDrain, ArgvCap, AllProper;
  }

  lemma {:induction false} BadHasOutput(xs: seq<Item>)
    requires !AllGood(xs)
    ensures Outputs(xs) != []
    decreases |xs|
  {
    OutputsOf(xs);
    if xs[0].Lines? { BadHasOutput(xs[1..]); }
  }

  lemma LiveProper(p: Parser, xs: seq<Item>, have: nat, future: Bytes)
    requires Live(p, xs, have, future)
    ensures AllProper(xs)
  {
  }

  lemma LiveOpen(p: Parser, xs: seq<Item>, have: nat, future: Bytes)
    requires Live(p, xs, have, future)
    ensures p.status.Open?
  {
  }

  lemma KindDrain(xs: seq<Item>, have: nat, input: seq<Bytes>)
    requires input != [] && input[0] == []
    ensures Kind(xs, have, input) == match AtDrain(xs, have)
      case Left(rest, n) => Kind(rest, n, input[1..])
      case Lost(rest) => Outputs(rest) == []
    ensures var d := AtDrain(xs, have); Gentle(xs, have, input) == (d.Left? && Gentle(d.xs, d.have, input[1..]))
  {
  }

  lemma SessionSteps(p: Parser, input: seq<Bytes>)
    requires Ok(p) && input != [] && Takes(p, input[0]) && Offered(Receive(p, input[0]), input[1..])
    ensures Offered(p, input) && Session(p, input) == Session(Receive(p, input[0]), input[1..])
  {
    hide Takes, Receive;
  }

  lemma KindRead(xs: seq<Item>, have: nat, input: seq<Bytes>)
    requires input != [] && input[0] != []
    ensures Kind(xs, have, input) == Kind(xs, have + |input[0]|, input[1..])
    ensures Gentle(xs, have, input) == Gentle(xs, have + |input[0]|, input[1..])
  {
    hide AtDrain, Outputs;
  }

  lemma ReceiveRead(p: Parser, xs: seq<Item>, have: nat, chunk: Bytes, future: Bytes)
    requires Ok(p) && Live(p, xs, have, chunk + future)
    ensures Takes(p, chunk) && Receive(p, chunk) == if chunk == [] then Drained(p) else p.(buf := p.buf + chunk)
  {
    LiveTakes(p, xs, have, chunk, future);
    hide Live;
  }

  /** What the session comes to: `xs'` is not handed out, and it has nothing to hand out if all drains were kind. */
  lemma {:induction false} SessionEnds(p: Parser, xs: seq<Item>, have: nat, input: seq<Bytes>)
    returns (xs': seq<Item>)
    requires Ok(p) && Live(p, xs, have, RespFlow.AllBytes(input)) && input != [] && input[|input| - 1] == []
    ensures Offered(p, input) && HandsOut(p, xs, Session(p, input), xs')
    ensures Outputs(xs') == [] <==> AllGood(xs) && Kind(xs, have, input)
    ensures AllGood(xs) && Gentle(xs, have, input) ==> Session(p, input).status.Open?
    decreases |input|, 0
  {
    hide Live, HandsOut, AtDrain, Outputs, AllGood, Kind, Gentle, Takes, Receive, Drained, Session, Offered, Ok;
    var chunk, more := input[0], input[1..];
    var future := RespFlow.AllBytes(more);
    ReceiveRead(p, xs, have, chunk, future);
    var q := Receive(p, chunk);
    if chunk != [] {
      KindRead(xs, have, input);
      AppendedLive(p, chunk, xs, have, future);
      xs' := SessionEnds(q, xs, have + |chunk|, more);
      SessionSteps(p, input);
      SameIn(p, q, xs, Session(q, more), xs');
    } else {
      assert chunk + future == future;
      KindDrain(xs, have, input);
      xs' := AfterDrain(p, xs, have, more);
      SessionSteps(p, input);
    }
  }

  lemma {:induction false} AfterDrain(p: Parser, xs: seq<Item>, have: nat, more: seq<Bytes>) returns (xs': seq<Item>)
    requires Ok(p) && Live(p, xs, have, RespFlow.AllBytes(more)) && (more == [] || more[|more| - 1] == [])
    ensures Offered(Drained(p), more) && HandsOut(p, xs, Session(Drained(p), more), xs')
    ensures Outputs(xs') == [] <==> AllGood(xs) && match AtDrain(xs, have)
      case Left(rest, n) => Kind(rest, n, more)
      case Lost(rest) => Outputs(rest) == []
    ensures AllGood(xs) && AtDrain(xs, have).Left? && Gentle(AtDrain(xs, have).xs, AtDrain(xs, have).have, more) ==>
      Session(Drained(p), more).status.Open?
    decreases |more|, 1
  {
    hide Live, Dead, HandsOut, AtDrain, Outputs, AllGood, BadHead;
    var q, d := Drained(p), AtDrain(xs, have);
    var ys := DrainEnds(p, xs, have, RespFlow.AllBytes(more));
    xs' := ys;
    SameGood(p, xs, q, ys);
    if d.Left? && d.xs == ys && Live(q, ys, d.have, RespFlow.AllBytes(more)) {
      if more == [] {
        LiveProper(p, xs, have, []);
        LiveOpen(q, ys, d.have, []);
        NothingLeft(xs, have, q);
        NoItems();
      } else {
        xs' := SessionEnds(q, ys, d.have, more);
        HandsOutThen(p, xs, q, ys, Session(q, more), xs');
      }
    } else {
      DeadSession(q, more);
      SameOut(p, xs, q, ys, Session(q, more));
      if BadHead(ys) { BadIsBad(ys); }
      if !AllGood(ys) { BadHasOutput(ys); }
    }
  }

  lemma NoItems()
    ensures Outputs([]) == [] && AllGood([])
  {
  }

  lemma BadIsBad(xs: seq<Item>)
    requires BadHead(xs)
    ensures !AllGood(xs)
  {
  }

  lemma SameGood(p: Parser, xs: seq<Item>, q: Parser, ys: seq<Item>)
    requires HandsOut(p, xs, q, ys)
    ensures AllGood(ys) <==> AllGood(xs)
  {
  }

  lemma SameIn(p: Parser, q: Parser, xs: seq<Item>, r: Parser, ys: seq<Item>)
    requires HandsOut(q, xs, r, ys) && q.out == p.out
    ensures HandsOut(p, xs, r, ys)
  {
  }

  /**
   * On a stream that the first buffer holds, however it is cut: one request for each command and one
   * pong for each ping are handed out, in order, if and only if every command has between 1 and 2^24
   * arguments and every drain was kind. In any case a part of them is, from the start.
   */
  lemma ItemsAreHandedOut(xs: seq<Item>, input: seq<Bytes>)
    requires AllProper(xs) && RespFlow.AllBytes(input) == EncodeItems(xs) && input != [] && input[|input| - 1] == []
    requires |EncodeItems(xs)| <= RBUF_INIT - RBUF_ROOM
    ensures Offered(Fresh, input)
    ensures Session(Fresh, input).out == Outputs(xs) <==> AllGood(xs) && Kind(xs, 0, input)
    ensures Session(Fresh, input).out <= Outputs(xs)
    ensures AllGood(xs) && Gentle(xs, 0, input) ==> Session(Fresh, input).status == Open
  {
    hide AllProper, EncodeItems, Outputs, AllGood, Kind, Gentle;
    assert Unparsed(Fresh) + EncodeItems(xs) == EncodeItems(xs);
    assert Live(Fresh, xs, 0, EncodeItems(xs));
    var left := SessionEnds(Fresh, xs, 0, input);
    assert [] + Outputs(xs) == Outputs(xs);
  }

  // ---------------------------------------------------------------- kind and unkind drains

  lemma {:induction false} AllThere(xs: seq<Item>)
    ensures AtDrain(xs, |EncodeItems(xs)|) == Left([], 0)
  {
    hide EncodeItem;
    if xs != [] { AllThere(xs[1..]); }
  }

  lemma {:induction false} OneDrainIsKind(xs: seq<Item>, have: nat, input: seq<Bytes>)
    requires have + |RespFlow.AllBytes(input)| == |EncodeItems(xs)| && input != [] && input[|input| - 1] == []
    requires forall i :: 0 <= i < |input| - 1 ==> input[i] != []
    ensures Kind(xs, have, input) && Gentle(xs, have, input)
    decreases |input|
  {
    hide EncodeItem, AtDrain;
    if |input| == 1 {
      AllThere(xs);
      assert input[1..] == [];
    } else {
      OneDrainIsKind(xs, have + |input[0]|, input[1..]);
    }
  }

  /** So it is for every stream that has been read whole before the socket is drained. */
  lemma WholeStream(xs: seq<Item>, input: seq<Bytes>)
    requires AllProper(xs) && RespFlow.AllBytes(input) == EncodeItems(xs) && input != [] && input[|input| - 1] == []
    requires |EncodeItems(xs)| <= RBUF_INIT - RBUF_ROOM && forall i :: 0 <= i < |input| - 1 ==> input[i] != []
    ensures Offered(Fresh, input)
    ensures Session(Fresh, input).out == Outputs(xs) <==> AllGood(xs)
    ensures AllGood(xs) ==> Session(Fresh, input).status == Open
  {
    hide AllProper, EncodeItems, Outputs, AllGood, Kind, Gentle;
    OneDrainIsKind(xs, 0, input);
    ItemsAreHandedOut(xs, input);
  }

  /** A drain inside the word ping closes the connection: the ping is lost, wherever the cut is. */
  lemma CutPingIsLost(word: Bytes, ends: Bytes, h: nat)
    requires SpellsPing(word) && LineEnds(ends) && 0 < h < 4 && |ends| <= 1024
    ensures var input := [word[..h], [], word[h..] + ends, []];
      Offered(Fresh, input) && Session(Fresh, input).out == []
  {
    var xs, input := [Ping(word, ends)], [word[..h], [], word[h..] + ends, []];
    assert Proper(xs[0]);
    assert input[1..] == [[], word[h..] + ends, []] && input[2..] == [word[h..] + ends, []];
    assert word[..h] + word[h..] == word && xs[1..] == [];
    FourReads(word[..h], word[h..] + ends);
    assert word[..h] + (word[h..] + ends) == word + ends;
    assert EncodeItems(xs) == word + ends;
    ItemsAreHandedOut(xs, input);
    UnkindCut(word, ends, h, input);
    assert Outputs(xs) == [Pong];
  }

  lemma FourReads(a: Bytes, b: Bytes)
    ensures RespFlow.AllBytes([a, [], b, []]) == a + b
  {
    var d: seq<Bytes> := [[]];
    assert [a, [], b, []][1..] == [[], b, []] && [[], b, []][1..] == [b, []] && [b, []][1..] == d && d[1..] == [];
    assert RespFlow.AllBytes(d) == [];
    assert RespFlow.AllBytes([b, []]) == b;
    assert RespFlow.AllBytes([[], b, []]) == b;
  }

  lemma UnkindCut(word: Bytes, ends: Bytes, h: nat, input: seq<Bytes>)
    requires |word| == 4 && 0 < h < 4 && |input| >= 2 && |input[0]| == h && input[1] == []
    ensures !Kind([Ping(word, ends)], 0, input)
  {
    var xs := [Ping(word, ends)];
    assert AtDrain(xs, h) == Lost(xs) && Outputs(xs) != [];
    assert input[1..][0] == [];
  }

  /** Anything but a star, a carriage return or the word ping closes the connection. */
  lemma OtherBytesClose(p: Parser)
    requires Ok(p) && p.status.Open? && p.phase == ArrayLen && p.parsed < |p.buf|
    requires p.buf[p.parsed] != STAR && p.buf[p.parsed] != CR
    requires |Unparsed(p)| < 4 || !SpellsPing(Unparsed(p)[..4])
    ensures Drained(p).status == Closed && Drained(p).out == p.out
  {
    hide ReadNumber, SkipBlank, Ensured;
    assert TurnOf(p).Wait?;
  }

  lemma FirstBytesClose(s: Bytes)
    requires 0 < |s| <= RBUF_INIT - RBUF_ROOM && s[0] != STAR && s[0] != CR && (|s| < 4 || !SpellsPing(s[..4]))
    ensures Offered(Fresh, [s, []]) && Session(Fresh, [s, []]).status == Closed && Session(Fresh, [s, []]).out == []
  {
    RespSafety.OneRead(s);
    OtherBytesClose(Fresh.(buf := s));
  }
}
