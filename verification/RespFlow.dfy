/**
 * An account of the read buffer that knows only the lengths of commands and reads: how many bytes
 * are in the buffer, where the first command starts that was not complete when the socket was last
 * drained, and how often the buffer has been replaced.
 */
module RespFlow {
  import opened BuddyMath
  import opened Resp
  import RespMemory
  import RespParser

  /** `left` are the commands that were not complete at the last drain; the first starts at `start`. */
  datatype Flow = Flow(len: nat, start: nat, moves: nat, left: seq<Command>)

  const MAX_MOVES: nat := 15

  function Starting(cs: seq<Command>): Flow {
    Flow(0, 0, 0, cs)
  }

  function Capacity(moves: nat): nat {
    RespParser.RBUF_INIT * P(moves)
  }

  /** Little room left: the commands that were complete go, the buffer doubles. */
  function Widened(f: Flow): (g: Flow)
    requires f.start <= f.len
    ensures g.start <= g.len && g.moves >= f.moves
  {
    if Capacity(f.moves) - f.len < RespParser.RBUF_ROOM then Flow(f.len - f.start, 0, f.moves + 1, f.left) else f
  }

  /** Past the commands that are complete. */
  function Skipped(f: Flow): (g: Flow)
    requires f.start <= f.len
    ensures f.start <= g.start <= g.len == f.len && g.moves == f.moves
    decreases |f.left|
  {
    if f.left == [] then f
    else
      var next := f.start + |EncodeCommand(f.left[0])|;
      if next <= f.len then Skipped(f.(start := next, left := f.left[1..])) else f
  }

  /** The buffer starts over only if it ends where a command ends. */
  function Caught(f: Flow): (g: Flow)
    requires f.start <= f.len
    ensures g.start <= g.len && g.moves == f.moves
  {
    var g := Skipped(f);
    if g.start == g.len then g.(start := 0, len := 0) else g
  }

  function Arrived(f: Flow, chunk: Bytes): (g: Flow)
    requires f.start <= f.len
    ensures g.start <= g.len && g.moves >= f.moves
  {
    var g := Widened(f);
    if chunk == [] then Caught(g) else g.(len := g.len + |chunk|)
  }

  function Flowed(f: Flow, input: seq<Bytes>): (g: Flow)
    requires f.start <= f.len
    ensures g.start <= g.len && g.moves >= f.moves
    decreases |input|
  {
    if input == [] then f else Flowed(Arrived(f, input[0]), input[1..])
  }

  /** How often the buffer is replaced while these reads bring the commands. */
  function Moves(cs: seq<Command>, input: seq<Bytes>): nat {
    Flowed(Starting(cs), input).moves
  }

  function AllBytes(input: seq<Bytes>): Bytes {
    if input == [] then [] else input[0] + AllBytes(input[1..])
  }

  // ---------------------------------------------------------------- reads that never catch up

  /** Every read fits, and no drain finds the buffer ending where a command ends. */
  ghost predicate Lags(f: Flow, input: seq<Bytes>)
    requires f.start <= f.len
    decreases |input|
  {
    input != [] ==>
      var g := Widened(f);
      && g.len + |input[0]| <= Capacity(g.moves)
      && (input[0] == [] ==> Skipped(g).start < g.len)
      && Lags(Arrived(f, input[0]), input[1..])
  }

  lemma CapacityDoubles(m: nat)
    ensures Capacity(m + 1) == 2 * Capacity(m) && Capacity(m) >= RespParser.RBUF_INIT
  {
  }

  /**
   * Bytes that never catch up with the commands fill one buffer after the other: together they are
   * no more than all buffers so far can hold.
   */
  lemma {:induction false} LagFills(f: Flow, input: seq<Bytes>)
    requires f.start <= f.len <= Capacity(f.moves) && Lags(f, input)
    ensures var g := Flowed(f, input);
      |AllBytes(input)| + f.len + Capacity(f.moves) <= 2 * Capacity(g.moves)
    decreases |input|
  {
    CapacityDoubles(f.moves);
    if input != [] {
      var g := Arrived(f, input[0]);
      LagFills(g, input[1..]);
    }
  }

  lemma {:induction false} FlowedApart(f: Flow, early: seq<Bytes>, late: seq<Bytes>)
    requires f.start <= f.len
    ensures Flowed(f, early + late) == Flowed(Flowed(f, early), late)
    decreases |early|
  {
    if early == [] {
      assert early + late == late;
    } else {
      assert (early + late)[1..] == early[1..] + late;
      FlowedApart(Arrived(f, early[0]), early[1..], late);
    }
  }

  /** 2^28 bytes that never catch up are one move too many. */
  lemma LagOverflows(cs: seq<Command>, early: seq<Bytes>, late: seq<Bytes>)
    requires Lags(Starting(cs), early) && |AllBytes(early)| >= 0x1000_0000
    ensures Moves(cs, early + late) > MAX_MOVES
  {
    var m := Flowed(Starting(cs), early).moves;
    LagFills(Starting(cs), early);
    FlowedApart(Starting(cs), early, late);
    if m <= MAX_MOVES {
      PMonotone(m, MAX_MOVES);
      RespMemory.TopOrder();
    }
  }
}
