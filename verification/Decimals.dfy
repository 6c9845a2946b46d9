/** Decimal digits as the formatter prints them and the digit loop reads them. */
module Decimals {
  import opened Wrappers
  import opened ByteStrings

  const ZERO: byte := 48  // '0'

  predicate IsDigit(b: byte) { ZERO <= b <= 57 }

  predicate AllDigits(s: Bytes) { forall i :: 0 <= i < |s| ==> IsDigit(s[i]) }

  function Value(s: Bytes): (v: int)
    requires AllDigits(s)
    ensures v >= 0
  {
    if s == [] then 0 else 10 * Value(s[..|s| - 1]) + (s[|s| - 1] - ZERO)
  }

  function Pow10(w: nat): (p: int)
    ensures p > 0
  {
    if w == 0 then 1 else 10 * Pow10(w - 1)
  }

  const U32_MAX := 0xffff_ffff

  /** The number a digit string denotes, if it is one and fits 32 bits. */
  function ParsedDigits(s: Bytes): Option<int> {
    if AllDigits(s) && Value(s) <= U32_MAX then Some(Value(s)) else None
  }

  lemma {:induction false} PrefixValue(s: Bytes, i: nat)
    requires i <= |s| && AllDigits(s)
    ensures AllDigits(s[..i]) && Value(s[..i]) <= Value(s)
  {
    if i < |s| {
      PrefixValue(s[..|s| - 1], i);
      assert s[..|s| - 1][..i] == s[..i];
    } else {
      assert s[..i] == s;
    }
  }

  /** ascii_digits: the accumulating loop with its overflow checks. */
  method AsciiDigits(s: Bytes) returns (r: Option<int>)
    ensures r == ParsedDigits(s)
  {
    var value := 0;
    for i := 0 to |s|
      invariant AllDigits(s[..i]) && value == Value(s[..i]) <= U32_MAX
    {
      if !IsDigit(s[i]) { return None; }
      assert s[..i + 1][..i] == s[..i];
      if value * 10 + (s[i] - ZERO) > U32_MAX {
        if AllDigits(s) { PrefixValue(s, i + 1); }
        return None;
      }
      value := value * 10 + (s[i] - ZERO);
    }
    assert s[..|s|] == s;
    return Some(value);
  }

  // ------------------------------------------------- printing

  /** Exactly w digits. */
  function Padded(n: nat, w: nat): (s: Bytes)
    ensures |s| == w && AllDigits(s)
  {
    if w == 0 then [] else Padded(n / 10, w - 1) + [ZERO + n % 10]
  }

  /** The shortest decimal form. */
  function Shortest(n: nat): (s: Bytes)
    ensures |s| > 0 && AllDigits(s)
  {
    if n < 10 then [ZERO + n] else Shortest(n / 10) + [ZERO + n % 10]
  }

  /** `{n:0w}`: padded with zeros, never cut. */
  function Formatted(n: nat, w: nat): Bytes {
    if n < Pow10(w) then Padded(n, w) else Shortest(n)
  }

  lemma {:induction false} PaddedValue(n: nat, w: nat)
    requires n < Pow10(w)
    ensures Value(Padded(n, w)) == n
  {
    if w > 0 {
      PaddedValue(n / 10, w - 1);
      var s := Padded(n, w);
      assert s[..|s| - 1] == Padded(n / 10, w - 1);
    }
  }

  lemma {:induction false} ShortestValue(n: nat)
    ensures Value(Shortest(n)) == n
  {
    var s := Shortest(n);
    if n < 10 {
      assert s[..0] == [];
    } else {
      ShortestValue(n / 10);
      assert s[..|s| - 1] == Shortest(n / 10);
    }
  }

  /** Printing loses nothing. */
  lemma ShortestInjective(m: nat, n: nat)
    requires Shortest(m) == Shortest(n)
    ensures m == n
  {
    ShortestValue(m);
    ShortestValue(n);
  }

  lemma {:induction false} ShortestLength(n: nat, w: nat)
    requires n < Pow10(w) && w > 0
    ensures |Shortest(n)| <= w
  {
    if n >= 10 { ShortestLength(n / 10, w - 1); }
  }

  lemma {:induction false} ShortestLong(n: nat, w: nat)
    requires n >= Pow10(w)
    ensures |Shortest(n)| > w
    decreases w
  {
    if w > 0 { ShortestLong(n / 10, w - 1); }
  }

  // ------------------------------------------------- order

  /** Byte-wise lexicographic order. */
  predicate Less(a: Bytes, b: Bytes)
    decreases a
  {
    if b == [] then false
    else if a == [] then true
    else a[0] < b[0] || (a[0] == b[0] && Less(a[1..], b[1..]))
  }

  lemma {:induction false} LessOfConcat(a: Bytes, x: Bytes, b: Bytes, y: Bytes)
    requires |a| == |b|
    ensures Less(a + x, b + y) <==> Less(a, b) || (a == b && Less(x, y))
    decreases a
  {
    if a == [] {
      assert a + x == x && b + y == y;
    } else {
      assert (a + x)[1..] == a[1..] + x && (b + y)[1..] == b[1..] + y;
      LessOfConcat(a[1..], x, b[1..], y);
      assert a == b <==> a[0] == b[0] && a[1..] == b[1..];
    }
  }

  /** On digit strings of one length byte order is numeric order. */
  lemma {:induction false} LessIsNumeric(a: Bytes, b: Bytes)
    requires |a| == |b| && AllDigits(a) && AllDigits(b)
    ensures Less(a, b) <==> Value(a) < Value(b)
    ensures a == b <==> Value(a) == Value(b)
    decreases a
  {
    if a != [] {
      var n := |a| - 1;
      var a', b' := a[..n], b[..n];
      LessIsNumeric(a', b');
      LessOfConcat(a', [a[n]], b', [b[n]]);
      assert a == a' + [a[n]] && b == b' + [b[n]];
      assert Less([a[n]], [b[n]]) <==> a[n] < b[n];
      assert a == b <==> a' == b' && a[n] == b[n];
    }
  }
}
