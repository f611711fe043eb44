/**
 * RESP2 requests: the wire form of a command list, and decimal numbers in it.
 */
module Resp {

  newtype byte = x: int | 0 <= x < 256

  const CR: byte := 13
  const LF: byte := 10
  const DOLLAR: byte := 36
  const STAR: byte := 42
  const ZERO: byte := 48

  type Bytes = seq<byte>
  type Command = seq<Bytes>

  const CRLF: Bytes := [CR, LF]

  // ---------------------------------------------------------------- decimals

  function Digit(d: nat): byte
    requires d < 10
  {
    ZERO + d as byte
  }

  /** The decimal digits of `n`, most significant first. */
  function Decimal(n: nat): (ds: Bytes)
    ensures ds != [] && forall i :: 0 <= i < |ds| ==> ZERO <= ds[i] < ZERO + 10
  {
    if n < 10 then [Digit(n)] else Decimal(n / 10) + [Digit(n % 10)]
  }

  /** What the length reader has accumulated after these digits, starting from `acc`. */
  function ValueFrom(acc: nat, ds: Bytes): nat
    requires forall i :: 0 <= i < |ds| ==> ds[i] >= ZERO
    decreases |ds|
  {
    if ds == [] then acc else ValueFrom(acc * 10 + (ds[0] - ZERO) as nat, ds[1..])
  }

  lemma {:induction false} ValueFromLast(acc: nat, ds: Bytes, d: byte)
    requires d >= ZERO && forall i :: 0 <= i < |ds| ==> ds[i] >= ZERO
    ensures ValueFrom(acc, ds + [d]) == ValueFrom(acc, ds) * 10 + (d - ZERO) as nat
    decreases |ds|
  {
    if ds == [] {
      assert ([] + [d])[1..] == [];
    } else {
      assert (ds + [d])[1..] == ds[1..] + [d];
      ValueFromLast(acc * 10 + (ds[0] - ZERO) as nat, ds[1..], d);
    }
  }

  /** Reading the digits that were written gives the number back. */
  lemma {:induction false} DecimalRoundTrip(n: nat)
    ensures ValueFrom(0, Decimal(n)) == n
  {
    if n >= 10 {
      DecimalRoundTrip(n / 10);
      ValueFromLast(0, Decimal(n / 10), Digit(n % 10));
    } else {
      assert Decimal(n)[1..] == [];
    }
  }

  /** No leading zeros. */
  lemma {:induction false} DecimalIsShort(n: nat)
    ensures |Decimal(n)| > 1 ==> Decimal(n)[0] != ZERO
  {
    if n >= 10 { DecimalIsShort(n / 10); }
  }

  const UINT64: nat := 0x1_0000_0000_0000_0000

  function Pow10(k: nat): (r: nat)
    ensures r > 0
  {
    if k == 0 then 1 else 10 * Pow10(k - 1)
  }

  function Reversed(s: Bytes): (r: Bytes)
    ensures |r| == |s| && forall i :: 0 <= i < |r| ==> r[i] == s[|s| - 1 - i]
  {
    if s == [] then [] else Reversed(s[1..]) + [s[0]]
  }

  lemma ReversedLast(s: Bytes, d: byte)
    ensures Reversed(s + [d]) == [d] + Reversed(s)
  {
    hide Reversed;
  }

  /** Least significant digit first: the order in which the writer produces them. */
  function Backwards(n: nat): (ds: Bytes)
    ensures ds == Reversed(Decimal(n))
  {
    if n < 10 then [Digit(n)]
    else
      ReversedLast(Decimal(n / 10), Digit(n % 10));
      [Digit(n % 10)] + Backwards(n / 10)
  }

  lemma {:induction false} BackwardsLength(n: nat, k: nat)
    requires n < Pow10(k) && k > 0
    ensures |Backwards(n)| <= k
  {
    if n >= 10 { BackwardsLength(n / 10, k - 1); }
  }

  lemma {:induction false} Pow10Add(a: nat, b: nat)
    ensures Pow10(a + b) == Pow10(a) * Pow10(b)
    decreases b
  {
    if b > 0 { Pow10Add(a, b - 1); }
  }

  /** Twenty digits are enough for 64 bits. */
  lemma TwentyDigits(v: nat)
    requires v < UINT64
    ensures |Backwards(v)| <= 20
  {
    assert Pow10(2) == 100 && Pow10(4) == 10000 by { Pow10Add(2, 2); }
    assert Pow10(5) == 100000;
    Pow10Add(5, 5);
    Pow10Add(10, 10);
    BackwardsLength(v, 20);
  }

  method TurnRound(a: array<byte>, n: nat)
    requires n <= a.Length
    modifies a
    ensures a[..n] == Reversed(old(a[..n]))
  {
    var i, j := 0, n - 1;
    while i < j
      invariant 0 <= i && j == n - 1 - i && i <= j + 1
      invariant forall k :: 0 <= k < i ==> a[k] == old(a[n - 1 - k]) && a[n - 1 - k] == old(a[k])
      invariant forall k :: i <= k <= j ==> a[k] == old(a[k])
    {
      a[i], a[j] := a[j], a[i];
      i, j := i + 1, j - 1;
    }
    assert forall k :: 0 <= k < n ==> a[k] == old(a[n - 1 - k]);
  }

  lemma BackwardsStep(n: nat)
    ensures Backwards(n) == [Digit(n % 10)] + if n < 10 then [] else Backwards(n / 10)
  {
  }

  lemma ReversedTwice(s: Bytes)
    ensures Reversed(Reversed(s)) == s
  {
  }

  /** The digits of `v`, least significant first, at the start of the buffer. */
  method WriteBackwards(v: nat, tmp: array<byte>) returns (i: nat)
    requires v > 0 && |Backwards(v)| <= tmp.Length
    modifies tmp
    ensures i <= tmp.Length && tmp[..i] == Backwards(v)
  {
    hide Backwards, Reversed, Decimal;
    var rest := v;
    ghost var left := Backwards(v);
    i := 0;
    while rest > 0
      invariant i <= tmp.Length && Backwards(v) == tmp[..i] + left
      invariant left == if rest == 0 then [] else Backwards(rest)
      decreases rest
    {
      BackwardsStep(rest);
      ghost var done, later := tmp[..i], left[1..];
      ghost var d := Digit(rest % 10);
      assert left == [d] + later;
      assert done + ([d] + later) == done + [d] + later;
      tmp[i] := Digit(rest % 10);
      assert tmp[..i + 1] == done + [d];
      rest, i, left := rest / 10, i + 1, later;
    }
  }

  /** Writes the digits of a 64-bit number into a scratch buffer backwards, turns them round, copies. */
  method U64Dec(v: nat) returns (digits: Bytes)
    requires v < UINT64
    ensures digits == Decimal(v)
  {
    if v == 0 {
      return [ZERO];
    }
    TwentyDigits(v);
    var tmp := new byte[20](_ => 0);
    var i := WriteBackwards(v, tmp);
    TurnRound(tmp, i);
    ReversedTwice(Decimal(v));
    digits := tmp[..i];
  }

  // ---------------------------------------------------------------- wire form

  function EncodeArg(arg: Bytes): Bytes {
    [DOLLAR] + Decimal(|arg|) + CRLF + arg + CRLF
  }

  function EncodeArgs(args: seq<Bytes>): Bytes {
    if args == [] then [] else EncodeArg(args[0]) + EncodeArgs(args[1..])
  }

  function EncodeCommand(c: Command): Bytes {
    [STAR] + Decimal(|c|) + CRLF + EncodeArgs(c)
  }

  function Encode(cs: seq<Command>): Bytes {
    if cs == [] then [] else EncodeCommand(cs[0]) + Encode(cs[1..])
  }
}
