/**
 * The same bytes, cut in two ways: at the ends of commands, and always inside one.
 */
module RespCuts {
  import opened Resp
  import opened RespParser
  import opened RespCommand
  import opened RespFlow
  import opened RespTheorems

  function Repeated(c: Command, n: nat): (cs: seq<Command>)
    ensures |cs| == n && forall i :: 0 <= i < n ==> cs[i] == c
  {
    if n == 0 then [] else [c] + Repeated(c, n - 1)
  }

  lemma {:induction false} RepeatedLength(c: Command, n: nat)
    ensures |Encode(Repeated(c, n))| == n * |EncodeCommand(c)|
  {
    hide EncodeCommand, Encode;
    if n > 0 {
      var cs, size := Repeated(c, n), |EncodeCommand(c)|;
      EncodeLonger(cs);
      assert cs[1..] == Repeated(c, n - 1);
      RepeatedLength(c, n - 1);
      assert n * size == (n - 1) * size + size;
    } else {
      EncodeNone();
    }
  }

  lemma EncodeNone()
    ensures Encode([]) == []
  {
  }

  /** `k` reads of `n` bytes each, with a drain after each of them. */
  function Pairs(s: Bytes, n: nat, k: nat): seq<Bytes>
    requires |s| == k * n
  {
    if k == 0 then [] else [s[..n], []] + Pairs(s[n..], n, k - 1)
  }

  lemma {:induction false} BytesApart(a: seq<Bytes>, b: seq<Bytes>)
    ensures AllBytes(a + b) == AllBytes(a) + AllBytes(b)
    decreases |a|
  {
    if a == [] {
      assert a + b == b;
    } else {
      assert (a + b)[1..] == a[1..] + b;
      BytesApart(a[1..], b);
    }
  }

  lemma PairBytes(s: Bytes)
    ensures AllBytes([s, []]) == s
  {
    var drain: seq<Bytes> := [[]];
    assert [s, []][1..] == drain && drain[1..] == [];
    assert AllBytes(drain) == [];
  }

  lemma {:induction false} PairsBytes(s: Bytes, n: nat, k: nat)
    requires |s| == k * n
    ensures AllBytes(Pairs(s, n, k)) == s
  {
    if k > 0 {
      PairsBytes(s[n..], n, k - 1);
      BytesApart([s[..n], []], Pairs(s[n..], n, k - 1));
      PairBytes(s[..n]);
    }
  }

  /** Short reads always fit. */
  lemma {:induction false} ShortOffered(p: Parser, input: seq<Bytes>)
    requires Ok(p) && forall i :: 0 <= i < |input| ==> |input[i]| <= RBUF_ROOM
    ensures Offered(p, input)
    decreases |input|
  {
    if input != [] { ShortOffered(Receive(p, input[0]), input[1..]); }
  }

  lemma {:induction false} PairsShort(s: Bytes, n: nat, k: nat)
    requires |s| == k * n
    ensures forall i :: 0 <= i < |Pairs(s, n, k)| ==> |Pairs(s, n, k)[i]| <= n
    ensures k > 0 ==> |Pairs(s, n, k)| > 0 && Pairs(s, n, k)[|Pairs(s, n, k)| - 1] == []
  {
    if k > 0 { PairsShort(s[n..], n, k - 1); }
  }

  /** Two steps of the account for a read and a drain. */
  lemma FlowedPair(f: Flow, chunk: Bytes, rest: seq<Bytes>)
    requires f.start <= f.len
    ensures Flowed(f, [chunk, []] + rest) == Flowed(Arrived(Arrived(f, chunk), []), rest)
  {
    var input := [chunk, []] + rest;
    assert input[1..] == [[]] + rest && input[1..][1..] == rest;
  }

  /** Reads that end where commands end never move the buffer. */
  lemma {:induction false} WholeNeverMoves(c: Command, s: Bytes, k: nat)
    requires |EncodeCommand(c)| <= RBUF_ROOM && |s| == k * |EncodeCommand(c)|
    ensures Flowed(Starting(Repeated(c, k)), Pairs(s, |EncodeCommand(c)|, k)).moves == 0
  {
    if k > 0 {
      var n, f := |EncodeCommand(c)|, Starting(Repeated(c, k));
      hide EncodeCommand;
      FlowedPair(f, s[..n], Pairs(s[n..], n, k - 1));
      WholeStep(c, s[..n], k);
      WholeNeverMoves(c, s[n..], k - 1);
    }
  }

  lemma WholeStep(c: Command, chunk: Bytes, k: nat)
    requires |chunk| == |EncodeCommand(c)| <= RBUF_ROOM && k > 0
    ensures Arrived(Arrived(Starting(Repeated(c, k)), chunk), []) == Starting(Repeated(c, k - 1))
  {
    assert |chunk| > 0;
    hide EncodeCommand;
    var f := Starting(Repeated(c, k));
    var g := Arrived(f, chunk);
    assert g == f.(len := |chunk|);
    assert Repeated(c, k)[1..] == Repeated(c, k - 1);
    assert Skipped(g) == Skipped(g.(start := |chunk|, left := Repeated(c, k - 1)));
  }

  /** Between drains that always end `h` bytes into a command. */
  predicate Inside(f: Flow, c: Command, h: nat, k: nat) {
    && f.len == f.start + h && f.len <= Capacity(f.moves) && f.left == Repeated(c, k)
    && 0 < h < |EncodeCommand(c)| <= RBUF_ROOM
  }

  lemma InsideStep(f: Flow, c: Command, h: nat, k: nat, chunk: Bytes) returns (g: Flow, f': Flow)
    requires Inside(f, c, h, k) && k > 0 && |chunk| == |EncodeCommand(c)|
    ensures g == Arrived(f, chunk) && f' == Arrived(g, []) && Inside(f', c, h, k - 1)
    ensures f.start <= f.len && chunk != [] && Widened(f).len + |chunk| <= Capacity(Widened(f).moves)
    ensures Skipped(Widened(g)).start < Widened(g).len <= Capacity(Widened(g).moves)
  {
    hide EncodeCommand, Capacity;
    CapacityDoubles(f.moves);
    CapacityDoubles(f.moves + 1);
    g := Arrived(f, chunk);
    f' := Arrived(g, []);
    var w := Widened(g);
    assert w.len == w.start + h + |chunk| && w.left == Repeated(c, k);
    var next := w.(start := w.start + |chunk|, left := Repeated(c, k - 1));
    assert Repeated(c, k)[1..] == Repeated(c, k - 1);
    assert Skipped(w) == Skipped(next) == next;
  }

  lemma {:induction false} InsideLags(f: Flow, c: Command, h: nat, k: nat, s: Bytes, n: nat, j: nat)
    requires Inside(f, c, h, k) && n == |EncodeCommand(c)| && j <= k && |s| == j * n
    ensures Lags(f, Pairs(s, n, j))
    decreases j
  {
    hide EncodeCommand, Inside;
    if j > 0 {
      assert |s| == (j - 1) * n + n;
      var rest := Pairs(s[n..], n, j - 1);
      var g, f' := InsideStep(f, c, h, k, s[..n]);
      InsideLags(f', c, h, k - 1, s[n..], n, j - 1);
      LagsPair(f, s[..n], rest);
    }
  }

  lemma LagsPair(f: Flow, chunk: Bytes, rest: seq<Bytes>)
    requires f.start <= f.len && chunk != []
    requires Widened(f).len + |chunk| <= Capacity(Widened(f).moves)
    requires var g := Arrived(f, chunk);
      && Skipped(Widened(g)).start < Widened(g).len <= Capacity(Widened(g).moves)
      && Lags(Arrived(g, []), rest)
    ensures Lags(f, [chunk, []] + rest)
  {
    hide Capacity, Widened, Skipped;
    var input, drain := [chunk, []] + rest, [[]] + rest;
    assert input[1..] == drain && drain[1..] == rest;
    assert Lags(Arrived(f, chunk), drain);
  }

  lemma InsideFirst(c: Command, h: nat, k: nat, chunk: Bytes)
    requires 0 < h == |chunk| < |EncodeCommand(c)| <= RBUF_ROOM && k > 0
    ensures var f := Starting(Repeated(c, k)); var g := Arrived(f, chunk);
      && Widened(f).len + |chunk| <= Capacity(Widened(f).moves)
      && Skipped(Widened(g)).start < Widened(g).len <= Capacity(Widened(g).moves)
      && Inside(Arrived(g, []), c, h, k)
  {
    hide EncodeCommand;
  }

  /** Reads that end where commands end, and reads that end `h` bytes into one until the last. */
  ghost function AtEnds(c: Command, k: nat): seq<Bytes> {
    RepeatedLength(c, k);
    Pairs(Encode(Repeated(c, k)), |EncodeCommand(c)|, k)
  }

  lemma StreamLength(c: Command, k: nat)
    ensures |Encode(Repeated(c, k + 1))| == k * |EncodeCommand(c)| + |EncodeCommand(c)|
  {
    hide EncodeCommand, Encode;
    RepeatedLength(c, k + 1);
  }

  ghost function Early(c: Command, h: nat, k: nat): seq<Bytes>
    requires h < |EncodeCommand(c)|
  {
    StreamLength(c, k);
    var s, n := Encode(Repeated(c, k + 1)), |EncodeCommand(c)|;
    [s[..h], []] + Pairs(s[h..h + k * n], n, k)
  }

  ghost function Late(c: Command, h: nat, k: nat): seq<Bytes>
    requires h < |EncodeCommand(c)|
  {
    StreamLength(c, k);
    var s, n := Encode(Repeated(c, k + 1)), |EncodeCommand(c)|;
    [s[h + k * n..], []]
  }

  lemma EarlyLags(c: Command, h: nat, k: nat)
    requires 0 < h < |EncodeCommand(c)| <= RBUF_ROOM
    ensures Lags(Starting(Repeated(c, k + 1)), Early(c, h, k))
    ensures |AllBytes(Early(c, h, k))| == h + k * |EncodeCommand(c)|
  {
    StreamLength(c, k);
    var s, n := Encode(Repeated(c, k + 1)), |EncodeCommand(c)|;
    hide EncodeCommand, Encode, Inside;
    var f, mid := Starting(Repeated(c, k + 1)), s[h..h + k * n];
    InsideFirst(c, h, k + 1, s[..h]);
    InsideLags(Arrived(Arrived(f, s[..h]), []), c, h, k + 1, mid, n, k);
    LagsPair(f, s[..h], Pairs(mid, n, k));
    PairsBytes(mid, n, k);
    PairBytes(s[..h]);
    BytesApart([s[..h], []], Pairs(mid, n, k));
  }

  lemma ThreeParts(s: Bytes, h: nat, m: nat, mid: seq<Bytes>)
    requires h + m <= |s| && AllBytes(mid) == s[h..h + m]
    ensures AllBytes([s[..h], []] + mid + [s[h + m..], []]) == s
  {
    var first, last := [s[..h], []], [s[h + m..], []];
    PairBytes(s[..h]);
    PairBytes(s[h + m..]);
    BytesApart(first, mid);
    BytesApart(first + mid, last);
    assert s[..h] + s[h..h + m] + s[h + m..] == s;
  }

  lemma InsideBytes(c: Command, h: nat, k: nat)
    requires 0 < h < |EncodeCommand(c)| <= RBUF_ROOM
    ensures var input := Early(c, h, k) + Late(c, h, k);
      && AllBytes(input) == Encode(Repeated(c, k + 1)) && input[|input| - 1] == []
      && forall i :: 0 <= i < |input| ==> |input[i]| <= RBUF_ROOM
  {
    StreamLength(c, k);
    var s, n := Encode(Repeated(c, k + 1)), |EncodeCommand(c)|;
    hide EncodeCommand, Encode, Pairs, AllBytes;
    var mid := s[h..h + k * n];
    PairsBytes(mid, n, k);
    PairsShort(mid, n, k);
    ThreeParts(s, h, k * n, Pairs(mid, n, k));
  }

  lemma EndsHandOut(c: Command, k: nat)
    requires Good(c) && |EncodeCommand(c)| <= RBUF_ROOM && k > 0
    ensures AllBytes(AtEnds(c, k)) == Encode(Repeated(c, k)) && Offered(Fresh, AtEnds(c, k))
    ensures Session(Fresh, AtEnds(c, k)).out == Requests(Repeated(c, k))
  {
    var cs, n := Repeated(c, k), |EncodeCommand(c)|;
    RepeatedLength(c, k);
    hide EncodeCommand, Encode, Session, Offered;
    PairsBytes(Encode(cs), n, k);
    PairsShort(Encode(cs), n, k);
    ShortOffered(Fresh, AtEnds(c, k));
    WholeNeverMoves(c, Encode(cs), k);
    HandsOutExactly(cs, AtEnds(c, k));
  }

  /**
   * A stream of small commands is handed out if it is cut at the ends of commands. Cut inside them,
   * the same bytes close the connection once there are 2^28 of them.
   */
  lemma CutDecides(c: Command, h: nat, k: nat)
    requires Good(c) && 0 < h < |EncodeCommand(c)| <= RBUF_ROOM && k * |EncodeCommand(c)| >= 0x1000_0000
    ensures var cs, ends, inside := Repeated(c, k + 1), AtEnds(c, k + 1), Early(c, h, k) + Late(c, h, k);
      && AllBytes(ends) == AllBytes(inside) == Encode(cs) && Offered(Fresh, ends) && Offered(Fresh, inside)
      && Session(Fresh, ends).out == Requests(cs)
      && Session(Fresh, inside).status == Closed && Session(Fresh, inside).out != Requests(cs)
  {
    hide EncodeCommand, Encode, Early, Late, AtEnds, Session, Offered, Lags, AllGood;
    var cs, inside := Repeated(c, k + 1), Early(c, h, k) + Late(c, h, k);
    EndsHandOut(c, k + 1);
    InsideBytes(c, h, k);
    ShortOffered(Fresh, inside);
    EarlyLags(c, h, k);
    LagOverflows(cs, Early(c, h, k), Late(c, h, k));
    assert AllGood(cs) by { RepeatedGood(c, k + 1); }
    HandsOutExactly(cs, inside);
  }

  lemma RepeatedGood(c: Command, k: nat)
    requires Good(c)
    ensures AllGood(Repeated(c, k))
  {
  }

  const PING: Command := [[80, 73, 78, 71]]

  /** For one: 19173963 pings of 14 bytes, cut in the middle. */
  lemma PingsDecide() returns (ends: seq<Bytes>, inside: seq<Bytes>)
    ensures AllBytes(ends) == AllBytes(inside) && Offered(Fresh, ends) && Offered(Fresh, inside)
    ensures Session(Fresh, ends).out == Requests(Repeated(PING, 19173963)) != Session(Fresh, inside).out
    ensures Session(Fresh, inside).status == Closed
  {
    assert |EncodeCommand(PING)| == 14 by { PingLength(); }
    hide EncodeCommand, Encode, Session, Offered, Repeated, Requests;
    CutDecides(PING, 7, 19173962);
    ends, inside := AtEnds(PING, 19173963), Early(PING, 7, 19173962) + Late(PING, 7, 19173962);
  }

  lemma PingLength()
    ensures |EncodeCommand(PING)| == 14
  {
    var arg: Bytes := [80, 73, 78, 71];
    assert PING[1..] == [] && EncodeArgs(PING[1..]) == [];
    assert |EncodeArg(arg)| == 10;
  }
}
