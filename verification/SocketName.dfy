/** The node number in the name of the VEOS socket: printing it and reading it back. */
module SocketName {
  import opened Base

  const INT_MAX: int := 0x7fff_ffff

  predicate IsDigit(c: char) {
    '0' <= c <= '9'
  }

  function DigitValue(c: char): nat
    requires IsDigit(c)
  {
    c as int - '0' as int
  }

  function Digit(d: nat): (c: char)
    requires d < 10
    ensures IsDigit(c) && DigitValue(c) == d
  {
    (d + '0' as int) as char
  }

  /** The ten digit characters and their values. */
  lemma {:induction false} DigitsAre(d: nat)
    requires d < 10
    ensures Digit(d) == "0123456789"[d] && DigitValue("0123456789"[d]) == d
  {
  }

  /** The `%d` conversion of a non-negative number. */
  function Decimal(n: nat): (r: string)
    ensures |r| > 0
    ensures forall i :: 0 <= i < |r| ==> IsDigit(r[i])
  {
    if n < 10 then [Digit(n)] else Decimal(n / 10) + [Digit(n % 10)]
  }

  /** Reading on from `s` with `n` read so far; `None` when the accumulator would overflow an `int`. */
  function NodeNumber(s: string, n: nat): Option<nat> {
    if s == "" then Some(n)
    else if IsDigit(s[0]) then
      (var next := 10 * n + DigitValue(s[0]);
       if next > INT_MAX then None else NodeNumber(s[1..], next))
    else if s[0] == '.' then Some(n)
    else NodeNumber(s[1..], n)
  }

  /** `get_ve_node_num`; an overflow of the `int` accumulator is reported as `None`. */
  method GetVeNodeNum(s: string) returns (r: Option<nat>)
    ensures r == NodeNumber(s, 0)
  {
    var n: nat := 0;
    var i := 0;
    while i < |s|
      invariant 0 <= i <= |s| && NodeNumber(s[i..], n) == NodeNumber(s, 0)
    {
      if IsDigit(s[i]) {
        if 10 * n + DigitValue(s[i]) > INT_MAX {
          return None;
        }
        n := 10 * n + DigitValue(s[i]);
      } else if s[i] == '.' {
        return Some(n);
      }
      assert s[i..][1..] == s[i + 1..];
      i := i + 1;
    }
    return Some(n);
  }

  /** The digits of a string up to its first dot, in order. */
  function DigitsBeforeDot(s: string): (r: string)
    ensures forall i :: 0 <= i < |r| ==> IsDigit(r[i])
  {
    if s == "" || s[0] == '.' then ""
    else (if IsDigit(s[0]) then [s[0]] else []) + DigitsBeforeDot(s[1..])
  }

  function Power10(n: nat): nat {
    if n == 0 then 1 else 10 * Power10(n - 1)
  }

  /** The positional value of a string of digits. */
  function PositionalValue(digits: string): nat
    requires forall i :: 0 <= i < |digits| ==> IsDigit(digits[i])
  {
    if digits == "" then 0 else DigitValue(digits[0]) * Power10(|digits| - 1) + PositionalValue(digits[1..])
  }

  lemma {:induction false} ReadOn(s: string, n: nat)
    requires n <= INT_MAX
    ensures var digits := DigitsBeforeDot(s);
      var value := n * Power10(|digits|) + PositionalValue(digits);
      NodeNumber(s, n) == if value <= INT_MAX then Some(value) else None
    decreases |s|, 1
  {
    if s != "" && s[0] != '.' {
      if IsDigit(s[0]) {
        ReadDigit(s, n);
      } else {
        assert DigitsBeforeDot(s) == DigitsBeforeDot(s[1..]);
        ReadOn(s[1..], n);
      }
    }
  }

  lemma {:induction false} ReadDigit(s: string, n: nat)
    requires n <= INT_MAX && s != "" && IsDigit(s[0])
    ensures var digits := DigitsBeforeDot(s);
      var value := n * Power10(|digits|) + PositionalValue(digits);
      NodeNumber(s, n) == if value <= INT_MAX then Some(value) else None
    decreases |s|, 0
  {
    var digits, rest, next := DigitsBeforeDot(s), DigitsBeforeDot(s[1..]), 10 * n + DigitValue(s[0]);
    assert digits[0] == s[0] && digits[1..] == rest;
    PowerPositive(|rest|);
    Shift(n, DigitValue(s[0]), Power10(|rest|));
    if next <= INT_MAX {
      ReadOn(s[1..], next);
    } else {
      AtLeast(next, Power10(|rest|));
    }
  }

  lemma {:induction false} Shift(n: nat, d: nat, p: nat)
    ensures n * (10 * p) + d * p == (10 * n + d) * p
  {
  }

  lemma {:induction false} AtLeast(x: nat, p: nat)
    requires p >= 1
    ensures x * p >= x
  {
  }

  lemma {:induction false} PowerPositive(n: nat)
    ensures Power10(n) >= 1
  {
    if n > 0 {
      PowerPositive(n - 1);
    }
  }

  /**
   * What `get_ve_node_num` reads from any string: the positional value of the digits before the first
   * dot, other characters skipped, unless that value exceeds the largest `int`.
   */
  lemma {:induction false} NodeNumberExact(s: string)
    ensures var value := PositionalValue(DigitsBeforeDot(s));
      NodeNumber(s, 0) == if value <= INT_MAX then Some(value) else None
  {
    ReadOn(s, 0);
  }

  /** Reading the decimal digits of `n` brings the accumulator from zero to `n` without overflow. */
  lemma {:induction false} ReadDecimal(n: nat, rest: string)
    requires n <= INT_MAX
    ensures NodeNumber(Decimal(n) + rest, 0) == NodeNumber(rest, n)
    decreases n
  {
    if n < 10 {
      assert (Decimal(n) + rest)[1..] == rest;
    } else {
      var tail := [Digit(n % 10)] + rest;
      assert Decimal(n) + rest == Decimal(n / 10) + tail;
      ReadDecimal(n / 10, tail);
      assert tail[1..] == rest;
    }
  }

  predicate NoDigitsOrDots(s: string) {
    forall i :: 0 <= i < |s| ==> !IsDigit(s[i]) && s[i] != '.'
  }

  lemma {:induction false} SkipLetters(s: string, rest: string, n: nat)
    requires NoDigitsOrDots(s)
    ensures NodeNumber(s + rest, n) == NodeNumber(rest, n)
    decreases |s|
  {
    if s == "" {
      assert s + rest == rest;
    } else {
      assert (s + rest)[1..] == s[1..] + rest;
      SkipLetters(s[1..], rest, n);
    }
  }

  /** The last component of a path. */
  function Basename(path: string): string {
    if path == "" || path[|path| - 1] == '/' then ""
    else Basename(path[..|path| - 1]) + [path[|path| - 1]]
  }

  lemma {:induction false} BasenameOf(dir: string, name: string)
    requires '/' !in name
    ensures Basename(dir + "/" + name) == name
    decreases |name|
  {
    if name != "" {
      var path, last := dir + "/" + name, |name| - 1;
      assert path[..|path| - 1] == dir + "/" + name[..last];
      assert path[|path| - 1] == name[last];
      BasenameOf(dir, name[..last]);
      assert name[..last] + [name[last]] == name;
    }
  }

  /** The socket path that is built for a node. */
  function SocketPath(dir: string, n: nat): string {
    dir + "/" + ("veos" + (Decimal(n) + ".sock"))
  }

  /** For every directory and every node number, the number read from the socket path is the node's. */
  lemma {:induction false} SocketRoundTrip(dir: string, n: nat)
    requires n <= INT_MAX
    ensures NodeNumber(Basename(SocketPath(dir, n)), 0) == Some(n)
  {
    var name := "veos" + (Decimal(n) + ".sock");
    BasenameOf(dir, name);
    SkipLetters("veos", Decimal(n) + ".sock", 0);
    ReadDecimal(n, ".sock");
  }
}
