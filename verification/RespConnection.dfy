/**
 * The read handler of a connection, field by field and loop by loop, against the parser functions.
 */
module RespConnection {
  import BuddyMath
  import opened Resp
  import opened RespMemory
  import opened RespParser

  const RBUF_NEED: nat := 4096

  /** The places after the bytes have moved down by `delta`. */
  method ShiftArgs(argv: seq<Slice>, delta: nat) returns (shifted: seq<Slice>)
    requires forall k :: 0 <= k < |argv| ==> delta <= argv[k].off
    ensures |shifted| == |argv|
    ensures forall k :: 0 <= k < |argv| ==> shifted[k] == argv[k].(off := argv[k].off - delta)
  {
    shifted := argv;
    var i := 0;
    while i < |argv|
      invariant 0 <= i <= |argv| == |shifted|
      invariant forall k :: 0 <= k < |argv| ==>
        shifted[k] == if k < i then argv[k].(off := argv[k].off - delta) else argv[k]
    {
      shifted := shifted[i := argv[i].(off := argv[i].off - delta)];
      i := i + 1;
    }
  }

  method SkipLineEnds(buf: Bytes, from: nat) returns (pos: nat)
    requires from <= |buf|
    ensures pos == SkipBlank(buf, from)
  {
    pos := from;
    while pos < |buf| && (buf[pos] == CR || buf[pos] == LF)
      invariant pos <= |buf| && SkipBlank(buf, pos) == SkipBlank(buf, from)
    {
      pos := pos + 1;
    }
  }

  class Connection {
    var buf: Bytes
    var cap: nat
    var parsed: nat
    var cmdStart: nat
    var phase: Phase
    var expected: nat
    var bulkLen: nat
    var argv: seq<Slice>
    var argvCap: nat
    var out: seq<Output>
    var status: Status

    ghost function State(): Parser
      reads this
    {
      Parser(buf, cap, parsed, cmdStart, phase, expected, bulkLen, argv, argvCap, out, status)
    }

    ghost predicate Valid()
      reads this
    {
      Ok(State()) && ArgvCap(argvCap)
    }

    constructor ()
      ensures Valid() && State() == Fresh
    {
      buf, cap, parsed, cmdStart, phase, expected, bulkLen, argv, argvCap, out, status :=
        [], RBUF_INIT, 0, 0, ArrayLen, 0, 0, [], 0, [], Open;
    }

    /**
     * Makes room for `need` more bytes, in a buffer doubled until they fit behind the command in
     * progress. Argument places are shifted with the bytes they refer to.
     */
    method Grow(need: nat) returns (ok: bool)
      requires Valid()
      modifies this`buf, this`cap, this`parsed, this`cmdStart, this`argv
      ensures Valid() && (ok ==> |buf| + need <= cap)
      ensures old(|buf|) + need <= old(cap) ==> ok && State() == old(State())
      ensures old(|buf|) + need > old(cap) ==>
        var newcap := Doubled(2 * old(cap), old(|buf| - cmdStart) + need);
        && ok == Granted(NET_BUF + newcap)
        && State() == if ok then Moved(old(State())).(cap := newcap) else old(State())
    {
      hide ArgvCap, Granted;
      if |buf| + need <= cap {
        return true;
      }
      var partial := |buf| - cmdStart;
      var newcap := 2 * cap;
      while newcap < partial + need
        invariant newcap >= 2 * cap && Doubled(newcap, partial + need) == Doubled(2 * cap, partial + need)
        decreases partial + need - newcap
      {
        newcap := 2 * newcap;
      }
      if !Granted(NET_BUF + newcap) {
        return false;
      }
      argv := ShiftArgs(argv, cmdStart);
      buf, cap := buf[cmdStart..], newcap;
      parsed, cmdStart := parsed - cmdStart, 0;
      assert argv == Moved(old(State())).argv;
      return true;
    }

    /** A place for each of `needed` arguments; the array doubles until it has them. */
    method EnsureArgv(needed: nat) returns (s: Space)
      requires ArgvCap(argvCap)
      modifies this`argvCap
      ensures s == Ensured(old(argvCap), needed) && ArgvCap(argvCap)
      ensures argvCap == if s.Space? then s.cap else old(argvCap)
    {
      EnsuredWhen(argvCap, needed);
      if needed <= argvCap {
        return Space(argvCap);
      }
      ghost var j := FirstPower(argvCap);
      hide ArgvCap, Granted, BuddyMath.P, Doubled;
      var n := DoublingLoop(if argvCap == 0 then ARGV_INIT else 2 * argvCap, needed);
      if n == 0 {
        return Endless;
      }
      if !Granted(WORD * n) {
        return Refused;
      }
      argvCap := n;
      return Space(n);
    }

    method ResetParser()
      modifies this`buf, this`parsed, this`cmdStart, this`phase, this`expected, this`argv, this`bulkLen
      ensures State() == Reset(old(State()))
    {
      if parsed >= |buf| {
        buf, parsed, cmdStart := [], 0, 0;
      } else {
        cmdStart := parsed;
      }
      phase, expected, argv, bulkLen := ArrayLen, 0, [], 0;
    }

    method OnCount(next: nat, n: nat) returns (go: bool)
      requires Valid() && parsed < next <= |buf| && phase == ArrayLen
      modifies this
      ensures Valid() && (if go then Go(State()) else Wait(State())) == AtCount(old(State()), next, n)
    {
      hide ArgvCap, Ensured;
      parsed, expected := next, n;
      var s := EnsureArgv(n);
      if !s.Space? {
        status := if s.Refused? then Closed else Hung;
        return false;
      }
      phase := BulkLen;
      return true;
    }

    method OnArrayLen() returns (go: bool)
      requires Valid() && parsed < |buf| && phase == ArrayLen
      modifies this
      ensures Valid() && (if go then Go(State()) else Wait(State())) == AtArrayLen(old(State()))
    {
      hide ArgvCap, AtCount, ReadNumber;
      var first := buf[parsed];
      if parsed + 2 <= |buf| && first == CR && buf[parsed + 1] == LF {
        parsed := parsed + 2;
        return true;
      } else if first == CR {
        return false;
      }
      cmdStart := parsed;
      if first != STAR {
        if IsPing(buf[parsed..]) {
          out := out + [Pong];
          parsed := SkipLineEnds(buf, parsed + 4);
          return true;
        }
        status := Closed;
        return false;
      }
      var n := ReadLength(buf, parsed + 1);
      if n.Incomplete? {
        return false;
      }
      go := OnCount(n.next, n.value);
    }

    method OnBulkLen() returns (go: bool)
      requires Valid() && parsed < |buf| && phase == BulkLen
      modifies this
      ensures Valid() && (if go then Go(State()) else Wait(State())) == AtBulkLen(old(State()))
    {
      if buf[parsed] != DOLLAR {
        status := Closed;
        return false;
      }
      var n := ReadLength(buf, parsed + 1);
      if n.Incomplete? {
        return false;
      }
      parsed, bulkLen, phase := n.next, n.value, BulkData;
      return true;
    }

    method OnBulkData() returns (go: bool)
      requires Valid() && parsed < |buf| && phase == BulkData
      modifies this
      ensures Valid() && (if go then Go(State()) else Wait(State())) == AtBulkData(old(State()))
    {
      hide ArgvCap;
      if |buf| - parsed < bulkLen + 2 {
        return false;
      }
      if |argv| >= argvCap {
        status := Faulted;
        return false;
      }
      argv := argv + [Slice(parsed, bulkLen)];
      parsed := parsed + bulkLen + 2;
      if |argv| >= expected {
        out := out + [Request(Args(buf, argv))];
        ResetParser();
        return true;
      }
      phase := BulkLen;
      return true;
    }

    /** The parse loop. */
    method Parse()
      requires Valid()
      modifies this
      ensures Valid() && State() == Drained(old(State()))
    {
      while parsed < |buf|
        invariant Valid() && Drained(State()) == Drained(old(State()))
        decreases |buf| - parsed
      {
        ghost var before := State();
        var go;
        match phase {
          case ArrayLen => go := OnArrayLen();
          case BulkLen => go := OnBulkLen();
          case BulkData => go := OnBulkData();
        }
        assert TurnOf(before) == if go then Go(State()) else Wait(State());
        if !go {
          return;
        }
      }
    }

    /** Before a read: room for it, or the connection is closed. */
    method MakeRoom()
      requires Valid() && status.Open?
      modifies this
      ensures Valid() && State() == Roomed(old(State()))
    {
      hide ArgvCap, Granted;
      if cap - |buf| < RBUF_ROOM {
        var ok := Grow(RBUF_NEED);
        if !ok {
          status := Closed;
        }
      }
    }

    /** The read handler: the chunks that reads return until the socket is drained, and the parse loop. */
    method HandleRead(chunks: seq<Bytes>)
      requires Valid() && status.Open? && Offered(State(), chunks + [[]])
      requires forall i :: 0 <= i < |chunks| ==> chunks[i] != []
      modifies this
      ensures Valid() && State() == Session(old(State()), chunks + [[]])
    {
      var i := 0;
      while i < |chunks|
        invariant 0 <= i <= |chunks| && Valid() && status.Open? && Offered(State(), chunks[i..] + [[]])
        invariant Session(State(), chunks[i..] + [[]]) == Session(old(State()), chunks + [[]])
      {
        assert (chunks[i..] + [[]])[1..] == chunks[i + 1..] + [[]];
        MakeRoom();
        if !status.Open? {
          ClosedStays(State(), chunks[i + 1..] + [[]]);
          return;
        }
        buf := buf + chunks[i];
        i := i + 1;
      }
      ghost var drain: seq<Bytes> := [[]];
      assert chunks[i..] + [[]] == drain && drain[1..] == [];
      MakeRoom();
      if status.Open? {
        Parse();
      }
    }
  }

  lemma {:induction false} ClosedStays(p: Parser, input: seq<Bytes>)
    requires Ok(p) && !p.status.Open?
    ensures Offered(p, input) && Session(p, input) == p
    decreases |input|
  {
    if input != [] { ClosedStays(p, input[1..]); }
  }
}
