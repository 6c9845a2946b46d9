/**
 The CE-v1 record codec: each record is a 16-bit big-endian label length, the
 label, a 32-bit big-endian value length and the value.  The printer and the
 cursor-based parser live in different files of the program.
 */
module CeV1 {
  import opened Wrappers
  import opened ByteStrings

  datatype Record = Record(name: Bytes, value: Bytes) {
    /** The printer aborts on anything longer. */
    predicate Printable() { |name| <= 0xffff && |value| <= 0xffff_ffff }
  }

  datatype ProofError = Malformed | UnexpectedField | TooLarge | InvalidReport

  ghost predicate AllPrintable(rs: seq<Record>) { forall i :: 0 <= i < |rs| ==> rs[i].Printable() }

  // ------------------------------------------------- numbers

  function U16Bytes(n: int): (b: Bytes)
    requires 0 <= n <= 0xffff
    ensures |b| == 2 && U16(b) == n
  {
    [n / 256, n % 256]
  }

  function U16(b: Bytes): (n: int)
    requires |b| == 2
    ensures 0 <= n <= 0xffff
  {
    256 * (b[0] as int) + b[1] as int
  }

  function U32Bytes(n: int): (b: Bytes)
    requires 0 <= n <= 0xffff_ffff
    ensures |b| == 4 && U32(b) == n
  {
    var b := U16Bytes(n / 0x1_0000) + U16Bytes(n % 0x1_0000);
    assert b[..2] == U16Bytes(n / 0x1_0000) && b[2..] == U16Bytes(n % 0x1_0000);
    b
  }

  function U32(b: Bytes): (n: int)
    requires |b| == 4
    ensures 0 <= n <= 0xffff_ffff
  {
    0x1_0000 * U16(b[..2]) + U16(b[2..])
  }

  lemma U16Inverse(b: Bytes)
    requires |b| == 2
    ensures U16Bytes(U16(b)) == b
  {
  }

  lemma U32Inverse(b: Bytes)
    requires |b| == 4
    ensures U32Bytes(U32(b)) == b
  {
    U16Inverse(b[..2]);
    U16Inverse(b[2..]);
    assert U32(b) / 0x1_0000 == U16(b[..2]) && U32(b) % 0x1_0000 == U16(b[2..]);
    assert b == b[..2] + b[2..];
  }

  // ------------------------------------------------- UTF-8

  /** Well-formed UTF-8 (table 3-7 of the Unicode Standard), as str::from_utf8 demands. */
  predicate IsUtf8(b: Bytes)
    decreases |b|
  {
    if b == [] then true
    else if b[0] < 0x80 then IsUtf8(b[1..])
    else if 0xc2 <= b[0] <= 0xdf then |b| >= 2 && Continues(b[1]) && IsUtf8(b[2..])
    else if 0xe0 <= b[0] <= 0xef then
      && |b| >= 3 && Continues(b[1]) && Continues(b[2])
      && (b[0] == 0xe0 ==> b[1] >= 0xa0) && (b[0] == 0xed ==> b[1] <= 0x9f)
      && IsUtf8(b[3..])
    else if 0xf0 <= b[0] <= 0xf4 then
      && |b| >= 4 && Continues(b[1]) && Continues(b[2]) && Continues(b[3])
      && (b[0] == 0xf0 ==> b[1] >= 0x90) && (b[0] == 0xf4 ==> b[1] <= 0x8f)
      && IsUtf8(b[4..])
    else false
  }

  predicate Continues(b: byte) { 0x80 <= b <= 0xbf }

  predicate IsAscii(s: string) { forall i :: 0 <= i < |s| ==> s[i] < 128 as char }

  function Ascii(s: string): (b: Bytes)
    requires IsAscii(s)
    ensures |b| == |s| && forall i :: 0 <= i < |b| ==> b[i] == s[i] as int && b[i] < 128
  {
    seq(|s|, i requires 0 <= i < |s| => s[i] as int)
  }

  lemma {:induction false} AsciiIsUtf8(b: Bytes)
    requires forall i :: 0 <= i < |b| ==> b[i] < 128
    ensures IsUtf8(b)
    decreases |b|
  {
    if b != [] { AsciiIsUtf8(b[1..]); }
  }

  lemma AsciiInjective(s: string, t: string)
    requires IsAscii(s) && IsAscii(t) && Ascii(s) == Ascii(t)
    ensures s == t
  {
    forall i | 0 <= i < |s| ensures s[i] == t[i] {
      assert Ascii(s)[i] == Ascii(t)[i];
    }
  }

  // ------------------------------------------------- printing

  function EncodeRecord(r: Record): (b: Bytes)
    requires r.Printable()
    ensures |b| == 6 + |r.name| + |r.value|
  {
    U16Bytes(|r.name|) + r.name + U32Bytes(|r.value|) + r.value
  }

  function Encode(rs: seq<Record>): Bytes
    requires AllPrintable(rs)
  {
    if rs == [] then [] else EncodeRecord(rs[0]) + Encode(rs[1..])
  }

  lemma {:induction false} EncodeOfConcat(rs: seq<Record>, ss: seq<Record>)
    requires AllPrintable(rs) && AllPrintable(ss)
    ensures AllPrintable(rs + ss) && Encode(rs + ss) == Encode(rs) + Encode(ss)
  {
    if rs == [] {
      assert rs + ss == ss;
    } else {
      assert (rs + ss)[1..] == rs[1..] + ss;
      EncodeOfConcat(rs[1..], ss);
      Regroup(EncodeRecord(rs[0]), Encode(rs[1..]), Encode(ss));
    }
  }

  lemma Regroup(a: Bytes, b: Bytes, c: Bytes)
    ensures a + b + c == a + (b + c)
  {
  }

  /** ce_v1_bytes: append record after record to one buffer. */
  method CeV1Bytes(rs: seq<Record>) returns (out: Bytes)
    requires AllPrintable(rs)
    ensures out == Encode(rs)
  {
    out := [];
    for i := 0 to |rs|
      invariant out == Encode(rs[..i])
    {
      out := out + U16Bytes(|rs[i].name|);
      out := out + rs[i].name;
      out := out + U32Bytes(|rs[i].value|);
      out := out + rs[i].value;
      EncodeOfConcat(rs[..i], [rs[i]]);
      assert rs[..i + 1] == rs[..i] + [rs[i]];
      assert Encode([rs[i]]) == EncodeRecord(rs[i]);
    }
    assert rs[..|rs|] == rs;
  }

  // ------------------------------------------------- parsing

  /** The next len bytes at the cursor. */
  method Take(bytes: Bytes, cursor: nat, len: nat) returns (r: Result<Bytes, ProofError>, next: nat)
    requires cursor <= |bytes|
    ensures cursor + len <= |bytes| ==> r == Success(bytes[cursor..cursor + len]) && next == cursor + len
    ensures cursor + len > |bytes| ==> r == Failure(Malformed) && next == cursor
  {
    next := cursor;
    var end := cursor + len;
    if end > |bytes| { return Failure(Malformed), next; }
    r := Success(bytes[cursor..end]);
    next := end;
  }

  /** The record at the cursor, if the rest of the buffer starts with one. */
  function ParseRecord(bytes: Bytes, cursor: nat): (r: Option<(Record, nat)>)
    requires cursor <= |bytes|
    ensures r.Some? ==> cursor < r.value.1 <= |bytes|
  {
    if cursor + 2 > |bytes| then None else
    var labelEnd := cursor + 2 + U16(bytes[cursor..cursor + 2]);
    if labelEnd > |bytes| || !IsUtf8(bytes[cursor + 2..labelEnd]) || labelEnd + 4 > |bytes| then None else
    var valueEnd := labelEnd + 4 + U32(bytes[labelEnd..labelEnd + 4]);
    if valueEnd > |bytes| then None
    else Some((Record(bytes[cursor + 2..labelEnd], bytes[labelEnd + 4..valueEnd]), valueEnd))
  }

  method ReadRecord(bytes: Bytes, cursor: nat) returns (r: Result<Record, ProofError>, next: nat)
    requires cursor <= |bytes|
    ensures ParseRecord(bytes, cursor).None? ==> r == Failure(Malformed)
    ensures ParseRecord(bytes, cursor).Some? ==>
              r == Success(ParseRecord(bytes, cursor).value.0) && next == ParseRecord(bytes, cursor).value.1
  {
    var part;
    part, next := Take(bytes, cursor, 2);
    if part.Failure? { return Failure(Malformed), next; }
    part, next := Take(bytes, next, U16(part.value));
    if part.Failure? || !IsUtf8(part.value) { return Failure(Malformed), next; }
    var name := part.value;
    part, next := Take(bytes, next, 4);
    if part.Failure? { return Failure(Malformed), next; }
    part, next := Take(bytes, next, U32(part.value));
    if part.Failure? { return Failure(Malformed), next; }
    r := Success(Record(name, part.value));
  }

  // ------------------------------------------------- the two agree

  lemma SliceWithin(prefix: Bytes, e: Bytes, rest: Bytes, i: nat, j: nat)
    requires i <= j <= |e|
    ensures (prefix + e + rest)[|prefix| + i..|prefix| + j] == e[i..j]
  {
  }

  /** Where the four parts of a printed record lie. */
  lemma PartsOfRecord(r: Record)
    requires r.Printable()
    ensures var e := EncodeRecord(r); var labelEnd := 2 + |r.name|;
            && |e| == labelEnd + 4 + |r.value|
            && e[0..2] == U16Bytes(|r.name|) && e[2..labelEnd] == r.name
            && e[labelEnd..labelEnd + 4] == U32Bytes(|r.value|) && e[labelEnd + 4..labelEnd + 4 + |r.value|] == r.value
  {
  }

  /** The parser recovers exactly the record that was printed at the cursor. */
  lemma ParseOfEncode(prefix: Bytes, r: Record, rest: Bytes)
    requires r.Printable() && IsUtf8(r.name)
    ensures var b := prefix + EncodeRecord(r) + rest;
            ParseRecord(b, |prefix|) == Some((r, |prefix| + |EncodeRecord(r)|))
  {
    var e := EncodeRecord(r);
    var labelEnd := 2 + |r.name|;
    PartsOfRecord(r);
    SliceWithin(prefix, e, rest, 0, 2);
    SliceWithin(prefix, e, rest, 2, labelEnd);
    SliceWithin(prefix, e, rest, labelEnd, labelEnd + 4);
    SliceWithin(prefix, e, rest, labelEnd + 4, labelEnd + 4 + |r.value|);
    PartsParse(prefix + e + rest, |prefix|, r);
  }

  /** A buffer with the four parts at the cursor parses. */
  lemma PartsParse(b: Bytes, c: nat, r: Record)
    requires r.Printable() && IsUtf8(r.name) && c + 6 + |r.name| + |r.value| <= |b|
    requires var labelEnd := c + 2 + |r.name|;
             && b[c..c + 2] == U16Bytes(|r.name|) && b[c + 2..labelEnd] == r.name
             && b[labelEnd..labelEnd + 4] == U32Bytes(|r.value|)
             && b[labelEnd + 4..labelEnd + 4 + |r.value|] == r.value
    ensures ParseRecord(b, c) == Some((r, c + 6 + |r.name| + |r.value|))
  {
  }

  /** And it accepts nothing else: what it consumed is the encoding of what it returned. */
  lemma EncodeOfParse(b: Bytes, c: nat)
    requires c <= |b| && ParseRecord(b, c).Some?
    ensures var (r, end) := ParseRecord(b, c).value;
            r.Printable() && IsUtf8(r.name) && b[c..end] == EncodeRecord(r)
  {
    var (r, end) := ParseRecord(b, c).value;
    U16Inverse(b[c..c + 2]);
    var labelEnd := c + 2 + U16(b[c..c + 2]);
    U32Inverse(b[labelEnd..labelEnd + 4]);
    assert |r.name| == U16(b[c..c + 2]) && |r.value| == U32(b[labelEnd..labelEnd + 4]);
    FourPieces(b, c, c + 2, labelEnd, labelEnd + 4, end);
  }

  lemma FourPieces(b: Bytes, i: nat, j: nat, k: nat, l: nat, m: nat)
    requires i <= j <= k <= l <= m <= |b|
    ensures b[i..m] == b[i..j] + b[j..k] + b[k..l] + b[l..m]
  {
    assert b[i..k] == b[i..j] + b[j..k];
    assert b[i..l] == b[i..k] + b[k..l];
    assert b[i..m] == b[i..l] + b[l..m];
  }

  /** A printed record can be split off a buffer in one way only. */
  lemma EncodeRecordPrefixFree(r: Record, x: Bytes, s: Record, y: Bytes)
    requires r.Printable() && s.Printable() && EncodeRecord(r) + x == EncodeRecord(s) + y
    ensures r == s && x == y
  {
    var b := EncodeRecord(r) + x;
    assert b[..2] == U16Bytes(|r.name|) && b[..2] == U16Bytes(|s.name|);
    var n := 2 + |r.name|;
    assert b[2..n] == r.name && b[2..n] == s.name;
    assert b[n..n + 4] == U32Bytes(|r.value|) && b[n..n + 4] == U32Bytes(|s.value|);
    var m := n + 4 + |r.value|;
    assert b[n + 4..m] == r.value && b[n + 4..m] == s.value;
    assert b[m..] == x && b[m..] == y;
  }

  lemma EmptyEncoding(rs: seq<Record>)
    requires AllPrintable(rs)
    ensures Encode(rs) == [] <==> rs == []
  {
  }

  /** CE-v1 is uniquely decodable: equal bytes come from equal record lists. */
  lemma {:induction false} EncodeInjective(rs: seq<Record>, ss: seq<Record>)
    requires AllPrintable(rs) && AllPrintable(ss) && Encode(rs) == Encode(ss)
    ensures rs == ss
    decreases |rs|
  {
    if rs == [] || ss == [] {
      EmptyEncoding(rs);
      EmptyEncoding(ss);
    } else {
      EncodeRecordPrefixFree(rs[0], Encode(rs[1..]), ss[0], Encode(ss[1..]));
      EncodeInjective(rs[1..], ss[1..]);
      assert rs == [rs[0]] + rs[1..] && ss == [ss[0]] + ss[1..];
    }
  }

  /** All records from the cursor to the end of the buffer. */
  function ParseAll(b: Bytes, c: nat): Option<seq<Record>>
    requires c <= |b|
    decreases |b| - c
  {
    if c == |b| then Some([]) else
    match ParseRecord(b, c)
    case None => None
    case Some((r, next)) =>
      match ParseAll(b, next)
      case None => None
      case Some(rest) => Some([r] + rest)
  }

  lemma ParseAllOfCons(prefix: Bytes, r: Record, tail: Bytes, rest: seq<Record>)
    requires r.Printable() && IsUtf8(r.name)
    requires ParseAll(prefix + EncodeRecord(r) + tail, |prefix + EncodeRecord(r)|) == Some(rest)
    ensures ParseAll(prefix + EncodeRecord(r) + tail, |prefix|) == Some([r] + rest)
  {
    ParseOfEncode(prefix, r, tail);
    ParseAllStep(prefix + EncodeRecord(r) + tail, |prefix|, r, |prefix + EncodeRecord(r)|, rest);
  }

  lemma ParseAllStep(b: Bytes, c: nat, r: Record, next: nat, rest: seq<Record>)
    requires c < next <= |b| && ParseRecord(b, c) == Some((r, next)) && ParseAll(b, next) == Some(rest)
    ensures ParseAll(b, c) == Some([r] + rest)
  {
  }

  /** Parsing a whole printed buffer gives back the whole list. */
  lemma {:induction false} ParseAllOfEncode(prefix: Bytes, rs: seq<Record>)
    requires AllPrintable(rs) && forall i :: 0 <= i < |rs| ==> IsUtf8(rs[i].name)
    ensures ParseAll(prefix + Encode(rs), |prefix|) == Some(rs)
    decreases |rs|
  {
    if rs == [] {
      assert prefix + Encode(rs) == prefix;
    } else {
      var head, rest := rs[0], rs[1..];
      ParseAllOfEncode(prefix + EncodeRecord(head), rest);
      ParseAllOfCons(prefix, head, Encode(rest), rest);
      Regroup(prefix, EncodeRecord(head), Encode(rest));
      assert rs == [head] + rest;
    }
  }
}
