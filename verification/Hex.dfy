/** Hexadecimal in both directions, as the receipts print and read hashes. */
module Hex {
  import opened Wrappers
  import opened ByteStrings

  const DIGITS := "0123456789abcdef"

  function Nibble(c: char): (n: Option<int>)
    ensures n.Some? ==> 0 <= n.value < 16
  {
    if '0' <= c <= '9' then Some(c as int - '0' as int)
    else if 'a' <= c <= 'f' then Some(c as int - 'a' as int + 10)
    else if 'A' <= c <= 'F' then Some(c as int - 'A' as int + 10)
    else None
  }

  predicate IsHexDigit(c: char) { Nibble(c).Some? }

  predicate IsLowerHex(s: string) { forall i :: 0 <= i < |s| ==> '0' <= s[i] <= '9' || 'a' <= s[i] <= 'f' }

  function Lower(c: char): char { if 'A' <= c <= 'Z' then (c as int + 32) as char else c }

  function Lowered(s: string): (t: string)
    ensures |t| == |s|
  {
    seq(|s|, i requires 0 <= i < |s| => Lower(s[i]))
  }

  function Digit(n: int): (c: char)
    requires 0 <= n < 16
    ensures Nibble(c) == Some(n)
  {
    if n < 10 then (48 + n) as char else (87 + n) as char
  }

  lemma DigitIsInTable(n: int)
    requires 0 <= n < 16
    ensures DIGITS[n] == Digit(n)
  {
  }

  function High(b: byte): (h: int)
    ensures 0 <= h < 16
  {
    b / 16
  }

  function Low(b: byte): (l: int)
    ensures 0 <= l < 16
  {
    b % 16
  }

  function First(s: string, n: nat): char
    requires 2 * n + 1 < |s|
  {
    s[2 * n]
  }

  function Second(s: string, n: nat): char
    requires 2 * n + 1 < |s|
  {
    s[2 * n + 1]
  }

  function DigitAt(b: Bytes, i: nat): char
    requires i < 2 * |b|
  {
    if i % 2 == 0 then Digit(High(b[i / 2])) else Digit(Low(b[i / 2]))
  }

  /** Two lower-case digits per byte. */
  function Printed(b: Bytes): (s: string)
    ensures |s| == 2 * |b|
  {
    seq(2 * |b|, i requires 0 <= i < 2 * |b| => DigitAt(b, i))
  }

  lemma PrintedAt(b: Bytes, n: nat)
    requires n < |b|
    ensures First(Printed(b), n) == Digit(High(b[n])) && Second(Printed(b), n) == Digit(Low(b[n]))
  {
    assert 2 * n / 2 == n && (2 * n + 1) / 2 == n;
  }

  function Pair(hi: char, lo: char): byte
    requires IsHexDigit(hi) && IsHexDigit(lo)
  {
    Nibble(hi).value * 16 + Nibble(lo).value
  }

  predicate IsHex(s: string) { |s| % 2 == 0 && forall i :: 0 <= i < |s| ==> IsHexDigit(s[i]) }

  predicate IsPair(s: string, n: nat)
    requires 2 * n + 1 < |s|
  {
    IsHexDigit(First(s, n)) && IsHexDigit(Second(s, n))
  }

  function ByteAt(s: string, n: nat): byte
    requires 2 * n + 1 < |s| && IsPair(s, n)
  {
    Pair(First(s, n), Second(s, n))
  }

  /** One byte per two digits. */
  function Decoded(s: string): Option<Bytes> {
    if !IsHex(s) then None else Some(seq(|s| / 2, n requires 0 <= n < |s| / 2 => ByteAt(s, n)))
  }

  /** Every position is the first or the second of its pair. */
  lemma PairsCover(s: string, t: string, k: nat)
    requires |s| == |t| == 2 * k
    requires forall n: nat :: n < k ==> First(s, n) == First(t, n) && Second(s, n) == Second(t, n)
    ensures s == t
  {
    forall i | 0 <= i < |s| ensures s[i] == t[i] {
      var n := i / 2;
      assert First(s, n) == First(t, n) && Second(s, n) == Second(t, n);
      assert i == 2 * n || i == 2 * n + 1;
    }
  }

  lemma HexByPairs(s: string, k: nat)
    requires |s| == 2 * k && forall n: nat :: n < k ==> IsPair(s, n)
    ensures IsHex(s)
  {
    forall i | 0 <= i < |s| ensures IsHexDigit(s[i]) {
      var n := i / 2;
      assert IsPair(s, n);
      assert i == 2 * n || i == 2 * n + 1;
    }
  }

  lemma DecodedByPairs(s: string, b: Bytes)
    requires |s| == 2 * |b| && forall n: nat :: n < |b| ==> IsPair(s, n) && ByteAt(s, n) == b[n]
    ensures Decoded(s) == Some(b)
  {
    HexByPairs(s, |b|);
    assert Decoded(s).value == b;
  }

  /** hex_lower. */
  method HexLower(b: Bytes) returns (s: string)
    ensures s == Printed(b)
  {
    s := "";
    for n := 0 to |b|
      invariant s == Printed(b[..n])
    {
      DigitIsInTable(High(b[n]));
      DigitIsInTable(Low(b[n]));
      PrintedSnoc(b, n);
      s := s + [DIGITS[b[n] / 16]];
      s := s + [DIGITS[b[n] % 16]];
    }
    assert b[..|b|] == b;
  }

  lemma PrintedSnoc(b: Bytes, n: nat)
    requires n < |b|
    ensures Printed(b[..n + 1]) == Printed(b[..n]) + [Digit(High(b[n]))] + [Digit(Low(b[n]))]
  {
    var more, less := b[..n + 1], b[..n];
    forall i | 0 <= i < 2 * n ensures DigitAt(more, i) == DigitAt(less, i) {
      assert i / 2 < n;
    }
    PrintedAt(more, n);
  }

  /** decode_sha256_hex: a fixed buffer filled pair by pair. */
  method DecodeSha256Hex(s: string) returns (r: Option<Bytes>)
    ensures r == if |s| == 64 then Decoded(s) else None
  {
    if |s| != 64 { return None; }
    var out := new byte[32];
    for n := 0 to 32
      invariant forall k: nat :: k < n ==> IsPair(s, k) && out[k] == ByteAt(s, k)
    {
      var hi, lo := Nibble(s[2 * n]), Nibble(s[2 * n + 1]);
      if hi.None? || lo.None? { return None; }
      assert IsPair(s, n);
      out[n] := hi.value * 16 + lo.value;
    }
    DecodedByPairs(s, out[..]);
    return Some(out[..]);
  }

  lemma DigitOfNibble(c: char)
    requires IsHexDigit(c)
    ensures Digit(Nibble(c).value) == Lower(c)
  {
  }

  lemma SplitPair(h: int, l: int)
    requires 0 <= h < 16 && 0 <= l < 16
    ensures (h * 16 + l) / 16 == h && (h * 16 + l) % 16 == l
  {
  }

  lemma PairOfDigits(b: byte)
    ensures Pair(Digit(High(b)), Digit(Low(b))) == b
  {
  }

  lemma DigitsOfPair(hi: char, lo: char)
    requires IsHexDigit(hi) && IsHexDigit(lo)
    ensures Digit(High(Pair(hi, lo))) == Lower(hi) && Digit(Low(Pair(hi, lo))) == Lower(lo)
  {
    SplitPair(Nibble(hi).value, Nibble(lo).value);
    DigitOfNibble(hi);
    DigitOfNibble(lo);
  }

  /** Reading what was printed gives the bytes back. */
  lemma DecodedOfPrinted(b: Bytes)
    ensures Decoded(Printed(b)) == Some(b)
  {
    forall n: nat | n < |b| ensures IsPair(Printed(b), n) && ByteAt(Printed(b), n) == b[n] {
      PrintedAt(b, n);
      PairOfDigits(b[n]);
    }
    DecodedByPairs(Printed(b), b);
  }

  /** Printing what was read gives the text back in lower case, for exactly the texts that can be read. */
  lemma PrintedOfDecoded(s: string)
    ensures Decoded(s).Some? <==> |s| % 2 == 0 && forall i :: 0 <= i < |s| ==> IsHexDigit(s[i])
    ensures Decoded(s).Some? ==> Printed(Decoded(s).value) == Lowered(s)
  {
    if IsHex(s) {
      var b, t := Decoded(s).value, Lowered(s);
      forall n: nat | n < |b| ensures First(Printed(b), n) == First(t, n) && Second(Printed(b), n) == Second(t, n) {
        PrintedAt(b, n);
        assert b[n] == ByteAt(s, n);
        DigitsOfPair(First(s, n), Second(s, n));
      }
      PairsCover(Printed(b), t, |b|);
    }
  }

  lemma LowerHexRoundTrip(s: string)
    requires |s| % 2 == 0 && IsLowerHex(s)
    ensures Decoded(s).Some? && Printed(Decoded(s).value) == s
  {
    assert forall i :: 0 <= i < |s| ==> IsHexDigit(s[i]);
    PrintedOfDecoded(s);
    assert Lowered(s) == s;
  }
}
