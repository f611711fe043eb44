/**
 * What the parser makes of the wire form of a list of commands, however it is cut into reads.
 */
module RespTheorems {
  import BuddyMath
  import opened Resp
  import opened RespMemory
  import opened RespParser
  import opened RespCommand
  import opened RespFlow

  predicate AllGood(cs: seq<Command>) {
    forall i :: 0 <= i < |cs| ==> Good(cs[i])
  }

  function Requests(cs: seq<Command>): (out: seq<Output>)
    ensures |out| == |cs|
  {
    if cs == [] then [] else [Request(cs[0])] + Requests(cs[1..])
  }

  /** `cs` is what remains to be handed out: the command in progress, and then the rest. */
  ghost predicate Tracks(p: Parser, cs: seq<Command>, future: Bytes) {
    if p.phase == ArrayLen then
      && Ok(p) && p.status.Open? && ArgvCap(p.argvCap)
      && p.cmdStart == p.parsed && (p.parsed == |p.buf| ==> p.buf == [])
      && Unparsed(p) + future == Encode(cs)
    else cs != [] && InCommand(p, cs[0], Encode(cs[1..]), future)
  }

  /** The next command is one that the parser cannot handle: it waits in vain for an argument, or is done for. */
  ghost predicate Stuck(p: Parser, cs: seq<Command>, future: Bytes) {
    && Ok(p) && cs != [] && !Good(cs[0])
    && (p.status.Open? ==> cs[0] == [] && p.phase == BulkLen && Unparsed(p) + future == Encode(cs[1..]))
  }

  /** The end of the command in progress has not arrived. */
  predicate Awaits(cs: seq<Command>, future: Bytes) {
    cs != [] ==> |future| > |Encode(cs[1..])|
  }

  // ---------------------------------------------------------------- one turn

  lemma EncodeLonger(cs: seq<Command>)
    requires cs != []
    ensures Encode(cs) == EncodeCommand(cs[0]) + Encode(cs[1..]) && |EncodeCommand(cs[0])| > 0
  {
  }

  lemma ArrayLenTracks(p: Parser, cs: seq<Command>, future: Bytes)
    requires Tracks(p, cs, future) && p.phase == ArrayLen && p.parsed < |p.buf|
    ensures var t := TurnOf(p);
      && (Tracks(t.p, cs, future) || Stuck(t.p, cs, future)) && Keeps(p, t.p)
      && (t.Wait? && t.p.status.Open? ==> Awaits(cs, future))
  {
    assert cs != [];
    EncodeLonger(cs);
    hide Encode, EncodeCommand, TurnOf, ArgvCap;
    HeaderTurn(p, cs[0], Encode(cs[1..]), future);
  }

  lemma StartsOver(p: Parser, q: Parser, at: nat, cs: seq<Command>, future: Bytes)
    requires at <= |p.buf| && p.buf[at..] + future == Encode(cs) && Past(p, q, at)
    requires Ok(q) && q.status.Open? && ArgvCap(q.argvCap) && q.parsed == q.cmdStart
    ensures Tracks(q, cs, future)
  {
    hide Encode, ArgvCap;
    if at == |p.buf| { assert p.buf[at..] + future == [] + future; }
  }

  lemma TracksEnds(p: Parser, cs: seq<Command>, future: Bytes)
    requires Tracks(p, cs, future) && p.phase == BulkData && p.parsed < |p.buf| && Ends(p, cs[0])
    ensures var t, at := TurnOf(p), p.cmdStart + |EncodeCommand(cs[0])|;
      && t.Go? && Tracks(t.p, cs[1..], future) && t.p.out == p.out + [Request(cs[0])] && Good(cs[0])
      && at <= |p.buf| && Past(p, t.p, at)
  {
    hide InCommand, TurnOf, Past, Tracks, EncodeCommand, Encode;
    TracksInCommand(p, cs, future);
    LastTurnEnds(p, cs[0], Encode(cs[1..]), future);
    StartsOver(p, TurnOf(p).p, p.cmdStart + |EncodeCommand(cs[0])|, cs[1..], future);
  }

  lemma TracksInCommand(p: Parser, cs: seq<Command>, future: Bytes)
    requires Tracks(p, cs, future) && p.phase != ArrayLen
    ensures cs != [] && InCommand(p, cs[0], Encode(cs[1..]), future) && Ok(p) && ArgvCap(p.argvCap)
  {
  }

  /** Behind an empty array the next byte is a star, where the parser insists on a dollar sign. */
  lemma StuckDrained(p: Parser, cs: seq<Command>, future: Bytes)
    requires Stuck(p, cs, future) && p.status.Open?
    ensures Stuck(Drained(p), cs, future) && Drained(p).out == p.out && Drained(p).cap == p.cap
  {
    if p.parsed < |p.buf| {
      assert cs[1..] != [];
      EncodeLonger(cs[1..]);
      CommandHead(cs[1], Encode(cs[2..]));
      assert cs[1..][1..] == cs[2..];
      Peel(p.buf, p.parsed, future, STAR, Encode(cs[1..])[1..]);
      assert TurnOf(p).Wait?;
    }
  }

  // ---------------------------------------------------------------- the parse loop

  function FlowAt(p: Parser, moves: nat, cs: seq<Command>): Flow {
    Flow(|p.buf|, p.cmdStart, moves, cs)
  }

  lemma NothingLeftAwaits(p: Parser, cs: seq<Command>, future: Bytes)
    requires Tracks(p, cs, future) && p.parsed == |p.buf|
    ensures Awaits(cs, future)
  {
    if p.phase == ArrayLen {
      assert Unparsed(p) + future == future;
      if cs != [] { EncodeLonger(cs); }
    } else {
      AllParsedAwaits(p, cs[0], Encode(cs[1..]), future);
    }
  }

  /** A command that is not complete stops the account too. */
  lemma AwaitsStops(p: Parser, moves: nat, cs: seq<Command>, future: Bytes)
    requires Tracks(p, cs, future) && Awaits(cs, future)
    ensures Caught(FlowAt(p, moves, cs)) == FlowAt(p, moves, cs)
  {
    hide EncodeCommand, Encode, Args, ArgvCap, Rest;
    if cs != [] {
      EncodeLonger(cs);
      assert |p.buf[p.cmdStart..] + future| == |EncodeCommand(cs[0])| + |Encode(cs[1..])|;
    }
  }

  /** The account goes past a command that the parser hands out. */
  lemma PastSkips(p: Parser, q: Parser, moves: nat, cs: seq<Command>)
    requires cs != [] && Past(p, q, p.cmdStart + |EncodeCommand(cs[0])|)
    requires p.cmdStart + |EncodeCommand(cs[0])| <= |p.buf|
    ensures q.cmdStart <= |q.buf| && Caught(FlowAt(p, moves, cs)) == Caught(FlowAt(q, moves, cs[1..]))
  {
    if cs[1..] != [] { EncodeLonger(cs[1..]); }
    hide EncodeCommand;
    var at := p.cmdStart + |EncodeCommand(cs[0])|;
    assert Skipped(FlowAt(p, moves, cs)) == Skipped(Flow(|p.buf|, at, moves, cs[1..]));
  }

  lemma DropGood(cs: seq<Command>)
    requires cs != [] && Good(cs[0])
    ensures AllGood(cs) <==> AllGood(cs[1..])
  {
    assert cs == [cs[0]] + cs[1..];
  }

  /** What is left to hand out, behind what has been. */
  ghost predicate HandsOut(p: Parser, cs: seq<Command>, q: Parser, cs': seq<Command>) {
    q.out + Requests(cs') == p.out + Requests(cs) && (AllGood(cs') <==> AllGood(cs))
  }

  lemma HandsOutOne(p: Parser, q: Parser, cs: seq<Command>)
    requires cs != [] && Good(cs[0]) && q.out == p.out + [Request(cs[0])]
    ensures HandsOut(p, cs, q, cs[1..])
  {
    DropGood(cs);
    assert p.out + [Request(cs[0])] + Requests(cs[1..]) == p.out + ([Request(cs[0])] + Requests(cs[1..]));
  }

  /** The parser is where the account says it is, and waits for the rest of a command. */
  ghost predicate Settled(p: Parser, f: Flow, cs: seq<Command>, future: Bytes) {
    Tracks(p, cs, future) && f == FlowAt(p, f.moves, cs) && Awaits(cs, future)
  }

  lemma HandsOutThen(p: Parser, cs: seq<Command>, q: Parser, cs': seq<Command>, r: Parser, cs'': seq<Command>)
    requires HandsOut(p, cs, q, cs') && HandsOut(q, cs', r, cs'')
    ensures HandsOut(p, cs, r, cs'')
  {
  }

  lemma SameOut(p: Parser, cs: seq<Command>, q: Parser, cs': seq<Command>, r: Parser)
    requires HandsOut(p, cs, q, cs') && r.out == q.out
    ensures HandsOut(p, cs, r, cs')
  {
  }

  /** One turn: the command in progress stays or is handed out. */
  lemma TurnFollows(p: Parser, moves: nat, cs: seq<Command>, future: Bytes) returns (cs': seq<Command>)
    requires Tracks(p, cs, future) && p.parsed < |p.buf|
    ensures var t := TurnOf(p);
      && HandsOut(p, cs, t.p, cs') && t.p.cap == p.cap && (t.Go? ==> t.p.status.Open?)
      && (|| Stuck(t.p, cs', future)
          || (&& Tracks(t.p, cs', future) && (t.Wait? ==> Awaits(cs', future))
              && Caught(FlowAt(t.p, moves, cs')) == Caught(FlowAt(p, moves, cs))))
  {
    cs' := cs;
    match p.phase
    case ArrayLen => ArrayLenTracks(p, cs, future);
    case BulkLen => BulkLenTurn(p, cs[0], Encode(cs[1..]), future);
    case BulkData =>
      if Ends(p, cs[0]) {
        cs' := cs[1..];
        TracksEnds(p, cs, future);
        HandsOutOne(p, TurnOf(p).p, cs);
        PastSkips(p, TurnOf(p).p, moves, cs);
      } else {
        BulkDataTurn(p, cs[0], Encode(cs[1..]), future);
      }
  }

  /** The parse loop hands out what is complete, and ends where the account does. */
  lemma {:induction false} DrainFollows(p: Parser, moves: nat, cs: seq<Command>, future: Bytes)
    returns (cs': seq<Command>)
    requires Ok(p) && Tracks(p, cs, future)
    ensures var q := Drained(p);
      && HandsOut(p, cs, q, cs') && q.cap == p.cap
      && (Stuck(q, cs', future) || Settled(q, Caught(FlowAt(p, moves, cs)), cs', future))
    decreases |p.buf| - p.parsed
  {
    hide Tracks, Stuck, TurnOf, HandsOut, Caught, Awaits;
    cs' := cs;
    if p.parsed < |p.buf| {
      cs' := TurnFollows(p, moves, cs, future);
      var t, cs0 := TurnOf(p), cs';
      if t.Go? {
        if !Stuck(t.p, cs0, future) {
          cs' := DrainFollows(t.p, moves, cs0, future);
          HandsOutThen(p, cs, t.p, cs0, Drained(t.p), cs');
        } else {
          StuckDrained(t.p, cs', future);
          SameOut(p, cs, t.p, cs', Drained(t.p));
        }
      } else if !Stuck(t.p, cs', future) {
        AwaitsStops(t.p, moves, cs', future);
      }
    } else {
      NothingLeftAwaits(p, cs, future);
      AwaitsStops(p, moves, cs, future);
      SameOut(p, cs, p, cs, p);
    }
  }

  // ---------------------------------------------------------------- reads

  /** The parser is where the account says it is. */
  ghost predicate Live(p: Parser, f: Flow, cs: seq<Command>, future: Bytes) {
    Tracks(p, cs, future) && f == FlowAt(p, f.moves, cs) && p.cap == Capacity(f.moves) && f.moves <= MAX_MOVES
  }

  /** A larger buffer was refused while there was something left to hand out. */
  predicate Starved(p: Parser, f: Flow, cs: seq<Command>) {
    Ok(p) && cs != [] && p.status.Closed? && f.moves > MAX_MOVES
  }

  ghost predicate Follows(p: Parser, f: Flow, cs: seq<Command>, future: Bytes) {
    Live(p, f, cs, future) || Stuck(p, cs, future) || Starved(p, f, cs)
  }

  lemma RoomGranted(m: nat)
    ensures Granted(NET_BUF + Capacity(m)) <==> m <= MAX_MOVES
  {
    TopOrder();
    GrantedUpTo(NET_BUF + Capacity(m));
    if m <= 15 { BuddyMath.PMonotone(m, 15); } else { BuddyMath.PMonotone(16, m); }
  }

  lemma TracksSame(p: Parser, future: Bytes, q: Parser, future': Bytes, cs: seq<Command>)
    requires Tracks(p, cs, future) && Ok(p) && Ok(q) && SameView(p, future, q, future')
    requires q.phase == ArrayLen && q.parsed == |q.buf| ==> q.buf == []
    ensures Tracks(q, cs, future')
  {
    hide InCommand, Args, Encode, ArgvCap, Ok, Unparsed;
    if p.phase != ArrayLen {
      InCommandSame(p, future, q, future', cs[0], Encode(cs[1..]));
    }
  }

  lemma TracksOk(p: Parser, cs: seq<Command>, future: Bytes)
    requires Tracks(p, cs, future)
    ensures Ok(p) && (p.phase == ArrayLen && p.parsed == |p.buf| ==> p.buf == [])
  {
  }

  lemma MovedTracks(p: Parser, cs: seq<Command>, future: Bytes, cap: nat)
    requires Ok(p) && Tracks(p, cs, future) && cap >= p.cap
    ensures Tracks(Moved(p).(cap := cap), cs, future)
  {
    hide Tracks, SameView;
    TracksOk(p, cs, future);
    MovedView(p, cap, future);
    TracksSame(p, future, Moved(p).(cap := cap), future, cs);
  }

  /** With nothing left to hand out the buffer is empty, so a full one means that something is left. */
  lemma FullHasSome(p: Parser, cs: seq<Command>, future: Bytes)
    requires Tracks(p, cs, future) && p.buf != []
    ensures cs != []
  {
  }

  lemma RoomFollows(p: Parser, f: Flow, cs: seq<Command>, future: Bytes)
    requires Ok(p) && p.status.Open? && Live(p, f, cs, future)
    ensures var q, g := Roomed(p), Widened(f);
      q.out == p.out && if q.status.Open? then Live(q, g, cs, future) else Starved(q, g, cs)
  {
    hide Tracks, Granted, Capacity;
    CapacityDoubles(f.moves);
    RoomGranted(f.moves + 1);
    if p.cap - |p.buf| < RBUF_ROOM {
      FullHasSome(p, cs, future);
      MovedTracks(p, cs, future, 2 * p.cap);
    }
  }

  lemma AppendedTracks(p: Parser, chunk: Bytes, cs: seq<Command>, future: Bytes)
    requires Ok(p) && Tracks(p, cs, chunk + future) && chunk != [] && |p.buf| + |chunk| <= p.cap
    ensures Tracks(p.(buf := p.buf + chunk), cs, future)
  {
    hide Tracks, SameView;
    AppendedView(p, chunk, future);
    TracksSame(p, chunk + future, p.(buf := p.buf + chunk), future, cs);
  }

  lemma StuckAppended(p: Parser, q: Parser, chunk: Bytes, cs: seq<Command>, future: Bytes)
    requires Stuck(p, cs, chunk + future) && Takes(p, chunk) && q == Receive(p, chunk)
    ensures Stuck(q, cs, future) && q.out == p.out
  {
    if p.status.Open? {
      MovedIsSame(p);
      var r := Roomed(p);
      if r.status.Open? {
        if chunk == [] {
          assert chunk + future == future;
          StuckDrained(r, cs, future);
        } else {
          Regroup(r.buf, r.parsed, chunk, future);
        }
      }
    }
  }

  lemma ReceiveFollows(p: Parser, f: Flow, chunk: Bytes, cs: seq<Command>, future: Bytes) returns (cs': seq<Command>)
    requires Ok(p) && f.start <= f.len && Takes(p, chunk) && Follows(p, f, cs, chunk + future)
    ensures var q, g := Receive(p, chunk), Arrived(f, chunk);
      && HandsOut(p, cs, q, cs') && Follows(q, g, cs', future)
      && (chunk == [] && Live(q, g, cs', future) ==> Awaits(cs', future))
  {
    cs' := cs;
    if Live(p, f, cs, chunk + future) {
      RoomFollows(p, f, cs, chunk + future);
      var q, g := Roomed(p), Widened(f);
      if q.status.Open? {
        if chunk == [] {
          assert chunk + future == future;
          cs' := DrainFollows(q, g.moves, cs, future);
        } else {
          AppendedTracks(q, chunk, cs, future);
        }
      }
    } else if Stuck(p, cs, chunk + future) {
      StuckAppended(p, Receive(p, chunk), chunk, cs, future);
    }
  }

  // ---------------------------------------------------------------- whole sessions

  lemma {:induction false} SessionFollows(p: Parser, f: Flow, input: seq<Bytes>, cs: seq<Command>)
    returns (cs': seq<Command>)
    requires Ok(p) && f.start <= f.len && Offered(p, input) && Follows(p, f, cs, AllBytes(input))
    ensures var q, g := Session(p, input), Flowed(f, input);
      && HandsOut(p, cs, q, cs') && Follows(q, g, cs', [])
      && (input != [] && input[|input| - 1] == [] && Live(q, g, cs', []) ==> Awaits(cs', []))
    ensures input == [] ==> cs' == cs
    decreases |input|
  {
    hide Follows, Live, Awaits, Takes, Receive, Arrived;
    cs' := cs;
    if input == [] {
      SameOut(p, cs, p, cs, p);
    } else {
      var q, g := Receive(p, input[0]), Arrived(f, input[0]);
      var cs0 := ReceiveFollows(p, f, input[0], cs, AllBytes(input[1..]));
      cs' := SessionFollows(q, g, input[1..], cs0);
      HandsOutThen(p, cs, q, cs0, Session(q, input[1..]), cs');
    }
  }

  /**
   * However the bytes are cut into reads, the parser hands out exactly the commands sent if and only
   * if every command has between 1 and 2^24 arguments and the buffer is replaced at most 15 times.
   * Otherwise it falls short; if the buffer is all that is wrong, the connection is closed.
   */
  lemma HandsOutExactly(cs: seq<Command>, input: seq<Bytes>)
    requires Offered(Fresh, input) && AllBytes(input) == Encode(cs) && input != [] && input[|input| - 1] == []
    ensures Session(Fresh, input).out == Requests(cs) <==> AllGood(cs) && Moves(cs, input) <= MAX_MOVES
    ensures Session(Fresh, input).out <= Requests(cs)
    ensures AllGood(cs) ==> Session(Fresh, input).status == if Moves(cs, input) <= MAX_MOVES then Open else Closed
  {
    var f := Starting(cs);
    assert Fresh.buf[Fresh.cmdStart..] + AllBytes(input) == Encode(cs);
    assert Live(Fresh, f, cs, AllBytes(input));
    var left := SessionFollows(Fresh, f, input, cs);
    var q, g := Session(Fresh, input), Flowed(f, input);
    assert q.out + Requests(left) == Requests(cs);
    if Live(q, g, left, []) {
      assert left == [] && Requests(left) == [];
    } else {
      assert q.out != Requests(cs);
    }
  }
}
