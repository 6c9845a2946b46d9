/**
 Static verification material and the proof bundle built on top of it.
 */
module ProofBundle {
  import opened Wrappers
  import opened ByteStrings
  import opened CeV1
  import Decimals

  const MAX_BUNDLE_BYTES := 1_048_576
  const MAX_STATIC_BYTES := 716_800

  datatype Field = Field(name: Bytes, limit: nat)

  const STATIC_FIELDS: seq<Field> := [
    Field(Ascii("cc_init_data_toml"), 196_608),
    Field(Ascii("workload_artifacts_json"), 196_608),
    Field(Ascii("trustee_policy_json"), 49_152),
    Field(Ascii("sigstore_material"), 196_608),
    Field(Ascii("provenance_oci_material"), 311_296)]

  // ------------------------------------------------- static material

  /** The records are the given fields, in order and within their limits. */
  ghost predicate Fits(rs: seq<Record>, fields: seq<Field>) {
    && |rs| == |fields|
    && forall i :: 0 <= i < |rs| ==> rs[i].name == fields[i].name && |rs[i].value| <= fields[i].limit
  }

  ghost predicate WellFormed(fields: seq<Field>) {
    forall i :: 0 <= i < |fields| ==>
      |fields[i].name| <= 0xffff && IsUtf8(fields[i].name) && fields[i].limit <= 0xffff_ffff
  }

  lemma StaticFieldsWellFormed()
    ensures WellFormed(STATIC_FIELDS) && |STATIC_FIELDS| == 5
  {
    forall i | 0 <= i < 5 ensures IsUtf8(STATIC_FIELDS[i].name) { AsciiIsUtf8(STATIC_FIELDS[i].name); }
  }

  /** Bytes from the cursor on are an encoding of the fields, records rs. */
  ghost predicate Encodes(bytes: Bytes, cursor: nat, rs: seq<Record>, fields: seq<Field>)
    requires cursor <= |bytes|
  {
    Fits(rs, fields) && AllPrintable(rs) && bytes[cursor..] == Encode(rs)
  }

  /** One round of the validation loop: a matching record is the only way to go on. */
  lemma NextField(bytes: Bytes, cursor: nat, fields: seq<Field>, rs: seq<Record>)
    requires cursor <= |bytes| && fields != [] && WellFormed(fields)
    requires Encodes(bytes, cursor, rs, fields)
    ensures var p := ParseRecord(bytes, cursor);
            && p.Some? && p.value.0 == rs[0]
            && Encodes(bytes, p.value.1, rs[1..], fields[1..])
  {
    var e := EncodeRecord(rs[0]);
    ParseOfEncode(bytes[..cursor], rs[0], Encode(rs[1..]));
    assert bytes == bytes[..cursor] + bytes[cursor..];
    Regroup(bytes[..cursor], e, Encode(rs[1..]));
    assert bytes[cursor + |e|..] == Encode(rs[1..]);
  }

  lemma FieldBefore(bytes: Bytes, cursor: nat, fields: seq<Field>, rs: seq<Record>)
    requires cursor <= |bytes| && fields != []
    requires var p := ParseRecord(bytes, cursor);
             && p.Some? && p.value.0.name == fields[0].name && |p.value.0.value| <= fields[0].limit
             && Encodes(bytes, p.value.1, rs, fields[1..])
    ensures var r := ParseRecord(bytes, cursor).value.0;
            Encodes(bytes, cursor, [r] + rs, fields)
  {
    var (r, next) := ParseRecord(bytes, cursor).value;
    EncodeOfParse(bytes, cursor);
    assert bytes[cursor..] == bytes[cursor..next] + bytes[next..];
    assert ([r] + rs)[1..] == rs;
  }

  /** The verdict on the rest of the buffer, first failure first. */
  function Checked(bytes: Bytes, cursor: nat, fields: seq<Field>): Result<(), ProofError>
    requires cursor <= |bytes|
    decreases |fields|
  {
    if fields == [] then (if cursor == |bytes| then Success(()) else Failure(Malformed))
    else match ParseRecord(bytes, cursor)
      case None => Failure(Malformed)
      case Some((r, next)) =>
        if r.name != fields[0].name then Failure(UnexpectedField)
        else if |r.value| > fields[0].limit then Failure(TooLarge)
        else Checked(bytes, next, fields[1..])
  }

  function Validated(bytes: Bytes): Result<(), ProofError> {
    if |bytes| > MAX_STATIC_BYTES then Failure(TooLarge) else Checked(bytes, 0, STATIC_FIELDS)
  }

  /** validate_static_material: one cursor over the buffer, one record per field. */
  method ValidateStaticMaterial(bytes: Bytes) returns (r: Result<(), ProofError>)
    ensures r == Validated(bytes)
  {
    if |bytes| > MAX_STATIC_BYTES { return Failure(TooLarge); }
    var cursor: nat := 0;
    for i := 0 to |STATIC_FIELDS|
      invariant cursor <= |bytes|
      invariant Checked(bytes, 0, STATIC_FIELDS) == Checked(bytes, cursor, STATIC_FIELDS[i..])
    {
      var rec, next := ReadRecord(bytes, cursor);
      if rec.Failure? { return Failure(Malformed); }
      if rec.value.name != STATIC_FIELDS[i].name { return Failure(UnexpectedField); }
      if |rec.value.value| > STATIC_FIELDS[i].limit { return Failure(TooLarge); }
      cursor := next;
      assert STATIC_FIELDS[i..][1..] == STATIC_FIELDS[i + 1..];
    }
    if cursor == |bytes| { return Success(()); }
    return Failure(Malformed);
  }

  /** Accepting a buffer exhibits its records. */
  lemma {:induction false} CheckedEncodes(bytes: Bytes, cursor: nat, fields: seq<Field>) returns (rs: seq<Record>)
    requires cursor <= |bytes| && Checked(bytes, cursor, fields).Success?
    ensures Encodes(bytes, cursor, rs, fields)
    decreases |fields|
  {
    if fields == [] {
      rs := [];
    } else {
      var (r, next) := ParseRecord(bytes, cursor).value;
      rs := CheckedEncodes(bytes, next, fields[1..]);
      FieldBefore(bytes, cursor, fields, rs);
      rs := [r] + rs;
    }
  }

  lemma {:induction false} EncodesChecked(bytes: Bytes, cursor: nat, fields: seq<Field>, rs: seq<Record>)
    requires cursor <= |bytes| && WellFormed(fields) && Encodes(bytes, cursor, rs, fields)
    ensures Checked(bytes, cursor, fields).Success?
    decreases |fields|
  {
    if fields != [] {
      NextField(bytes, cursor, fields, rs);
      EncodesChecked(bytes, ParseRecord(bytes, cursor).value.1, fields[1..], rs[1..]);
    }
  }

  ghost predicate IsStaticMaterial(bytes: Bytes, rs: seq<Record>) {
    && |bytes| <= MAX_STATIC_BYTES && Fits(rs, STATIC_FIELDS)
    && AllPrintable(rs) && bytes == Encode(rs)
  }

  /**
   The validator accepts exactly the encodings of the five labelled fields within
   their limits, and an accepted buffer is the encoding of one record list only.
   */
  lemma ValidatedIffStaticMaterial(bytes: Bytes)
    ensures Validated(bytes).Success? <==> exists rs :: IsStaticMaterial(bytes, rs)
    ensures forall rs, ss :: IsStaticMaterial(bytes, rs) && IsStaticMaterial(bytes, ss) ==> rs == ss
  {
    StaticFieldsWellFormed();
    assert bytes[0..] == bytes;
    if Validated(bytes).Success? {
      var rs := CheckedEncodes(bytes, 0, STATIC_FIELDS);
      assert IsStaticMaterial(bytes, rs);
    }
    if rs :| IsStaticMaterial(bytes, rs) {
      EncodesChecked(bytes, 0, STATIC_FIELDS, rs);
    }
    forall rs, ss | IsStaticMaterial(bytes, rs) && IsStaticMaterial(bytes, ss) ensures rs == ss {
      EncodeInjective(rs, ss);
    }
  }

  // ------------------------------------------------- the bundle

  datatype BundleInput = BundleInput(
    targetOrigin: Bytes,
    nonce: Bytes,
    createdAt: nat,
    snpReport: Bytes,
    tlsLeaf: Bytes,
    receiptPublicKey: Bytes,
    amdEndorsements: Bytes,
    staticMaterial: Bytes)
  {
    /** What the argument types promise: a 32-byte nonce, a 64-bit time, slices below 4 GiB. */
    predicate Typed() {
      |nonce| == 32 && createdAt < 0x1_0000_0000_0000_0000 && |targetOrigin| <= 0xffff_ffff
    }

    predicate WithinLimits() {
      |snpReport| <= 4_096 && |tlsLeaf| <= 16_384 && |receiptPublicKey| <= 4_096 && |amdEndorsements| <= 131_072
    }
  }

  const PURPOSE := Ascii("purpose")
  const BUNDLE_PURPOSE := Ascii("enclava-proof-bundle")
  const SCHEMA_VERSION := Ascii("schema_version")
  const TARGET_ORIGIN := Ascii("target_origin")
  const CHALLENGE_NONCE := Ascii("challenge_nonce")
  const CREATED_AT := Ascii("created_at_unix_seconds")
  const SNP_REPORT := Ascii("snp_report")
  const TLS_LEAF := Ascii("tls_leaf_der")
  const RECEIPT_PUBLIC_KEY := Ascii("proxy_receipt_public_key")
  const AMD_ENDORSEMENTS := Ascii("amd_endorsements")

  function Headers(i: BundleInput): seq<Record> {
    [Record(PURPOSE, BUNDLE_PURPOSE),
     Record(SCHEMA_VERSION, Ascii("1")),
     Record(TARGET_ORIGIN, i.targetOrigin),
     Record(CHALLENGE_NONCE, i.nonce),
     Record(CREATED_AT, Decimals.Shortest(i.createdAt)),
     Record(SNP_REPORT, i.snpReport),
     Record(TLS_LEAF, i.tlsLeaf),
     Record(RECEIPT_PUBLIC_KEY, i.receiptPublicKey),
     Record(AMD_ENDORSEMENTS, i.amdEndorsements)]
  }

  lemma CreatedAtIsShort(n: nat)
    requires n < 0x1_0000_0000_0000_0000
    ensures |Decimals.Shortest(n)| <= 20
  {
    assert Decimals.Pow10(5) == 100_000;
    assert Decimals.Pow10(10) == 10_000_000_000;
    assert Decimals.Pow10(15) == 1_000_000_000_000_000;
    assert Decimals.Pow10(20) == 100_000_000_000_000_000_000;
    Decimals.ShortestLength(n, 20);
  }

  function EncodedLength(rs: seq<Record>): nat {
    if rs == [] then 0 else 6 + |rs[0].name| + |rs[0].value| + EncodedLength(rs[1..])
  }

  lemma {:induction false} EncodeLength(rs: seq<Record>)
    requires AllPrintable(rs)
    ensures |Encode(rs)| == EncodedLength(rs)
  {
    if rs != [] { EncodeLength(rs[1..]); }
  }

  lemma HeadersPrintable(i: BundleInput)
    requires i.Typed() && i.WithinLimits()
    ensures AllPrintable(Headers(i))
  {
    CreatedAtIsShort(i.createdAt);
  }

  /** build_bundle. */
  method BuildBundle(i: BundleInput) returns (r: Result<Bytes, ProofError>)
    requires i.Typed()
    ensures Validated(i.staticMaterial).Failure? ==> r == Failure(Validated(i.staticMaterial).error)
    ensures Validated(i.staticMaterial).Success? && !i.WithinLimits() ==> r == Failure(TooLarge)
    ensures Validated(i.staticMaterial).Success? && i.WithinLimits() ==>
              AllPrintable(Headers(i)) &&
              var bundle := Encode(Headers(i)) + i.staticMaterial;
              r == if |bundle| > MAX_BUNDLE_BYTES then Failure(TooLarge) else Success(bundle)
  {
    var v := ValidateStaticMaterial(i.staticMaterial);
    if v.Failure? { return Failure(v.error); }
    if |i.snpReport| > 4_096 || |i.tlsLeaf| > 16_384 || |i.receiptPublicKey| > 4_096 || |i.amdEndorsements| > 131_072 {
      return Failure(TooLarge);
    }
    HeadersPrintable(i);
    var bundle := CeV1Bytes(Headers(i));
    bundle := bundle + i.staticMaterial;
    if |bundle| > MAX_BUNDLE_BYTES { return Failure(TooLarge); }
    return Success(bundle);
  }

  lemma HeadersLength(i: BundleInput)
    ensures EncodedLength(Headers(i)) ==
            209 + |i.targetOrigin| + |i.nonce| + |Decimals.Shortest(i.createdAt)| + |i.snpReport| + |i.tlsLeaf| +
            |i.receiptPublicKey| + |i.amdEndorsements|
  {
    var h := Headers(i);
    assert EncodedLength(h[9..]) == 0;
    assert h[8..][1..] == h[9..];
    assert h[7..][1..] == h[8..];
    assert h[6..][1..] == h[7..];
    assert h[5..][1..] == h[6..];
    assert h[4..][1..] == h[5..];
    assert h[3..][1..] == h[4..];
    assert h[2..][1..] == h[3..];
    assert h[1..][1..] == h[2..];
    assert EncodedLength(h[8..]) == 22 + |i.amdEndorsements|;
    assert EncodedLength(h[7..]) == 30 + |i.receiptPublicKey| + EncodedLength(h[8..]);
    assert EncodedLength(h[6..]) == 18 + |i.tlsLeaf| + EncodedLength(h[7..]);
    assert EncodedLength(h[5..]) == 16 + |i.snpReport| + EncodedLength(h[6..]);
    assert EncodedLength(h[4..]) == 29 + |Decimals.Shortest(i.createdAt)| + EncodedLength(h[5..]);
    assert EncodedLength(h[3..]) == 21 + |i.nonce| + EncodedLength(h[4..]);
    assert EncodedLength(h[2..]) == 19 + |i.targetOrigin| + EncodedLength(h[3..]);
    assert EncodedLength(h[1..]) == 21 + EncodedLength(h[2..]);
  }

  /**
   Once the parts are within their limits the final size check cannot fire for any
   origin of up to 175867 bytes (a host name, a scheme and a port take at most 270).
   */
  lemma SizeCheckNeverFires(i: BundleInput)
    requires i.Typed() && i.WithinLimits() && |i.staticMaterial| <= MAX_STATIC_BYTES
    requires |i.targetOrigin| <= 175_867
    ensures AllPrintable(Headers(i)) && |Encode(Headers(i)) + i.staticMaterial| <= MAX_BUNDLE_BYTES
  {
    HeadersPrintable(i);
    CreatedAtIsShort(i.createdAt);
    HeadersLength(i);
    EncodeLength(Headers(i));
  }

  /**
   A built bundle is the encoding of the nine header records followed by the five
   records of the static material, and of no other record list.
   */
  lemma BundleIsUniqueEncoding(i: BundleInput, statics: seq<Record>, rs: seq<Record>)
    requires i.Typed() && i.WithinLimits() && IsStaticMaterial(i.staticMaterial, statics)
    requires AllPrintable(rs)
    ensures AllPrintable(Headers(i)) && AllPrintable(Headers(i) + statics)
    ensures Encode(Headers(i)) + i.staticMaterial == Encode(Headers(i) + statics)
    ensures Encode(rs) == Encode(Headers(i)) + i.staticMaterial ==> rs == Headers(i) + statics
  {
    HeadersPrintable(i);
    EncodeOfConcat(Headers(i), statics);
    if Encode(rs) == Encode(Headers(i) + statics) { EncodeInjective(rs, Headers(i) + statics); }
  }

  /** Equal bundles were built from equal inputs. */
  lemma BundleDeterminesInput(i: BundleInput, j: BundleInput)
    requires i.Typed() && i.WithinLimits() && Validated(i.staticMaterial).Success?
    requires j.Typed() && j.WithinLimits() && Validated(j.staticMaterial).Success?
    requires AllPrintable(Headers(i)) && AllPrintable(Headers(j))
    requires Encode(Headers(i)) + i.staticMaterial == Encode(Headers(j)) + j.staticMaterial
    ensures i == j
  {
    ValidatedIffStaticMaterial(i.staticMaterial);
    ValidatedIffStaticMaterial(j.staticMaterial);
    var rs :| IsStaticMaterial(i.staticMaterial, rs);
    var ss :| IsStaticMaterial(j.staticMaterial, ss);
    EncodeOfConcat(Headers(i), rs);
    EncodeOfConcat(Headers(j), ss);
    var hi, hj := Headers(i), Headers(j);
    EncodeInjective(hi + rs, hj + ss);
    assert hi == (hi + rs)[..9] && hj == (hj + ss)[..9];
    assert rs == (hi + rs)[9..] && ss == (hj + ss)[9..];
    assert hi[2] == hj[2] && hi[3] == hj[3] && hi[4] == hj[4] && hi[5] == hj[5] && hi[6] == hj[6] &&
           hi[7] == hj[7] && hi[8] == hj[8];
    Decimals.ShortestInjective(i.createdAt, j.createdAt);
  }
}
