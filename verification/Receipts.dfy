/**
 Lifecycle receipts: which requests are accepted, the record list that is signed,
 and what the signed bytes determine.
 */
module Receipts {
  import opened Wrappers
  import opened ByteStrings
  import opened CeV1
  import Hex

  datatype ReceiptType = Rekey | Teardown | UnlockModeTransition | Unsupported(name: string)

  datatype ReceiptError =
    | UnsupportedType
    | InvalidAppId
    | InvalidResourcePath
    | NewValueHashRequired
    | NewValueHashInvalid
    | InvalidTimestamp
    | InvalidUnlockTransitionFields

  datatype Request = Request(
    receiptType: ReceiptType,
    appId: string,
    resourcePath: Option<string>,
    fromMode: Option<string>,
    toMode: Option<string>,
    quote: Option<string>,
    newValue: Option<string>,
    timestamp: Option<string>)

  /** The validated fields of an accepted request. */
  datatype Payload = Payload(
    receiptType: ReceiptType,
    appId: string,
    resourcePath: Option<string>,
    fromMode: Option<string>,
    toMode: Option<string>,
    quote: Option<string>,
    newValue: Option<string>,
    timestamp: string)

  // ------------------------------------------------- validators

  /** Unicode White_Space, which str::trim removes at both ends. */
  predicate IsSpace(c: char) {
    var n := c as int;
    9 <= n <= 13 || n == 0x20 || n == 0x85 || n == 0xa0 || n == 0x1680 || 0x2000 <= n <= 0x200a ||
    n == 0x2028 || n == 0x2029 || n == 0x202f || n == 0x205f || n == 0x3000
  }

  function TrimStart(s: string): string {
    if s != "" && IsSpace(s[0]) then TrimStart(s[1..]) else s
  }

  function TrimEnd(s: string): string {
    if s != "" && IsSpace(s[|s| - 1]) then TrimEnd(s[..|s| - 1]) else s
  }

  function Trim(s: string): string { TrimEnd(TrimStart(s)) }

  predicate IsAlphanumeric(c: char) { '0' <= c <= '9' || 'a' <= c <= 'z' || 'A' <= c <= 'Z' }

  predicate AtomChar(c: char) { IsAlphanumeric(c) || c == '-' || c == '_' || c == '.' || c == ':' }

  predicate PathChar(c: char) { AtomChar(c) || c == '/' }

  predicate TimeChar(c: char) { '0' <= c <= '9' || c == '-' || c == ':' || c == '.' || c == 'T' || c == 'Z' }

  /** Every accepted character is ASCII, so counting characters and bytes agrees. */
  predicate Plain(s: string, max: nat) { IsAscii(s) && |s| <= max }

  function ValidatedAtom(s: string): (r: Result<string, ReceiptError>)
    ensures r.Success? ==> r.value == Trim(s) && r.value != "" && Plain(r.value, 128)
  {
    var t := Trim(s);
    if t != "" && |t| <= 128 && forall i :: 0 <= i < |t| ==> AtomChar(t[i]) then Success(t) else Failure(InvalidAppId)
  }

  function ValidatedPath(s: string): (r: Result<string, ReceiptError>)
    ensures r.Success? ==> r.value == Trim(s) && r.value != "" && Plain(r.value, 256)
  {
    var t := Trim(s);
    if && t != "" && |t| <= 256
       && (forall i :: 0 <= i < |t| - 1 ==> !(t[i] == '.' && t[i + 1] == '.'))
       && (forall i :: 0 <= i < |t| ==> PathChar(t[i]))
    then Success(t) else Failure(InvalidResourcePath)
  }

  function ValidatedTimestamp(s: string): (r: Result<string, ReceiptError>)
    ensures r.Success? ==> r.value == Trim(s) && Plain(r.value, 40) && |r.value| >= 20
  {
    var t := Trim(s);
    if 20 <= |t| <= 40 && t[|t| - 1] == 'Z' && forall i :: 0 <= i < |t| ==> TimeChar(t[i]) then Success(t)
    else Failure(InvalidTimestamp)
  }

  function ValidatedHash(s: string): (r: Result<string, ReceiptError>)
    ensures r.Success? ==> |r.value| == 64 && Hex.IsLowerHex(r.value)
  {
    var t := Trim(s);
    if |t| == 64 && forall i :: 0 <= i < |t| ==> Hex.IsHexDigit(t[i]) then Success(Hex.Lowered(t))
    else Failure(NewValueHashInvalid)
  }

  function ValidatedMode(s: string): (r: Result<string, ReceiptError>)
    ensures r.Success? ==> r.value == "auto" || r.value == "password"
  {
    var t := Trim(s);
    if t == "auto" || t == "auto-unlock" then Success("auto")
    else if t == "password" then Success("password")
    else Failure(InvalidUnlockTransitionFields)
  }

  function Purpose(t: ReceiptType): (p: string)
    requires !t.Unsupported?
    ensures Plain(p, 32)
  {
    match t
    case Rekey => "enclava-rekey-v1"
    case Teardown => "enclava-teardown-v1"
    case UnlockModeTransition => "enclava-unlock-receipt-v1"
  }

  // ------------------------------------------------- signing

  /** Uuid::parse_str, of which only the length of a result is known here. */
  type UuidParser = f: string -> Option<Bytes> | forall s :: f(s).Some? ==> |f(s).value| == 16
    witness (s: string) => None

  /** The fields an accepted payload has, by type. */
  predicate WellFormed(p: Payload) {
    && !p.receiptType.Unsupported? && Plain(p.appId, 128) && Plain(p.timestamp, 0xffff_ffff)
    && (p.newValue.Some? ==> |p.newValue.value| == 64 && Hex.IsLowerHex(p.newValue.value))
    && (p.quote.Some? ==> |p.quote.value| == 64 && Hex.IsLowerHex(p.quote.value))
    && if p.receiptType.UnlockModeTransition? then
         && p.resourcePath.None? && p.newValue.None? && p.quote.Some? && p.fromMode.Some? && p.toMode.Some?
         && Plain(p.fromMode.value, 8) && Plain(p.toMode.value, 8)
       else
         && p.resourcePath.Some? && Plain(p.resourcePath.value, 256)
         && p.fromMode.None? && p.toMode.None? && p.quote.None?
         && (p.receiptType.Rekey? ==> p.newValue.Some?)
  }

  function AppIdBytes(p: Payload, uuid: UuidParser): Option<Bytes>
    requires WellFormed(p)
  {
    if p.receiptType.UnlockModeTransition? then uuid(p.appId) else Some(Ascii(p.appId))
  }

  function Text(name: string, value: string): Record
    requires IsAscii(name) && IsAscii(value)
  {
    Record(Ascii(name), Ascii(value))
  }

  function HashRecord(name: string, hash: string): Record
    requires IsAscii(name) && |hash| == 64 && Hex.IsLowerHex(hash)
  {
    Hex.LowerHexRoundTrip(hash);
    Record(Ascii(name), Hex.Decoded(hash).value)
  }

  function OptionalText(name: string, value: Option<string>): seq<Record>
    requires IsAscii(name) && (value.Some? ==> IsAscii(value.value))
  {
    if value.Some? then [Text(name, value.value)] else []
  }

  function OptionalHash(name: string, hash: Option<string>): seq<Record>
    requires IsAscii(name) && (hash.Some? ==> |hash.value| == 64 && Hex.IsLowerHex(hash.value))
  {
    if hash.Some? then [HashRecord(name, hash.value)] else []
  }

  /** The record list in signing order. */
  function RecordsOf(p: Payload, appId: Bytes): seq<Record>
    requires WellFormed(p)
  {
    [Text("purpose", Purpose(p.receiptType)), Record(Ascii("app_id"), appId)] +
    OptionalText("resource_path", p.resourcePath) +
    OptionalText("from_mode", p.fromMode) +
    OptionalText("to_mode", p.toMode) +
    OptionalHash("new_value_sha256", p.newValue) +
    OptionalHash("attestation_quote_sha256", p.quote) +
    [Text("timestamp", p.timestamp)]
  }

  /** The verdict on a request; `now` is printed into receipts that name no time. */
  function Accepted(req: Request, now: string): (r: Result<Payload, ReceiptError>)
    requires Plain(now, 64)
    ensures r.Success? ==> WellFormed(r.value) && r.value.receiptType == req.receiptType
  {
    if req.receiptType.Unsupported? then Failure(UnsupportedType) else
    var appId := ValidatedAtom(req.appId);
    if appId.Failure? then Failure(appId.error) else
    var time := if req.timestamp.Some? then ValidatedTimestamp(req.timestamp.value) else Success(now);
    if time.Failure? then Failure(time.error) else
    if req.receiptType.UnlockModeTransition? then AcceptedUnlock(req, appId.value, time.value)
    else AcceptedResource(req, appId.value, time.value)
  }

  function AcceptedResource(req: Request, appId: string, time: string): (r: Result<Payload, ReceiptError>)
    requires !req.receiptType.Unsupported? && !req.receiptType.UnlockModeTransition?
    requires Plain(appId, 128) && Plain(time, 64)
    ensures r.Success? ==> WellFormed(r.value) && r.value.receiptType == req.receiptType
  {
    if req.resourcePath.None? then Failure(InvalidResourcePath) else
    var path := ValidatedPath(req.resourcePath.value);
    if path.Failure? then Failure(path.error) else
    if req.newValue.None? then
      if req.receiptType.Rekey? then Failure(NewValueHashRequired)
      else Success(Payload(req.receiptType, appId, Some(path.value), None, None, None, None, time))
    else
      var hash := ValidatedHash(req.newValue.value);
      if hash.Failure? then Failure(hash.error)
      else Success(Payload(req.receiptType, appId, Some(path.value), None, None, None, Some(hash.value), time))
  }

  function AcceptedUnlock(req: Request, appId: string, time: string): (r: Result<Payload, ReceiptError>)
    requires req.receiptType.UnlockModeTransition? && Plain(appId, 128) && Plain(time, 64)
    ensures r.Success? ==> WellFormed(r.value) && r.value.receiptType == req.receiptType
  {
    if req.fromMode.None? then Failure(InvalidUnlockTransitionFields) else
    var from := ValidatedMode(req.fromMode.value);
    if from.Failure? then Failure(from.error) else
    if req.toMode.None? then Failure(InvalidUnlockTransitionFields) else
    var to := ValidatedMode(req.toMode.value);
    if to.Failure? then Failure(to.error) else
    if req.quote.None? then Failure(InvalidUnlockTransitionFields) else
    var quote := ValidatedHash(req.quote.value);
    if quote.Failure? then Failure(quote.error) else
    if req.newValue.Some? || req.resourcePath.Some? then Failure(InvalidUnlockTransitionFields)
    else Success(Payload(req.receiptType, appId, None, Some(from.value), Some(to.value), Some(quote.value), None, time))
  }

  ghost predicate ValidHash(hash: Option<string>) { hash.Some? && ValidatedHash(hash.value).Success? }

  ghost predicate ValidMode(mode: Option<string>) { mode.Some? && ValidatedMode(mode.value).Success? }

  /** What a request must carry, by type. */
  ghost predicate Acceptable(req: Request) {
    && !req.receiptType.Unsupported? && ValidatedAtom(req.appId).Success?
    && (req.timestamp.Some? ==> ValidatedTimestamp(req.timestamp.value).Success?)
    && if req.receiptType.UnlockModeTransition? then
         && ValidMode(req.fromMode) && ValidMode(req.toMode) && ValidHash(req.quote)
         && req.newValue.None? && req.resourcePath.None?
       else
         && req.resourcePath.Some? && ValidatedPath(req.resourcePath.value).Success?
         && (if req.receiptType.Rekey? then ValidHash(req.newValue) else req.newValue.Some? ==> ValidHash(req.newValue))
  }

  function TrimmedIn(value: Option<string>): Option<string> { if value.Some? then Some(Trim(value.value)) else None }

  function HashIn(hash: Option<string>): Option<string> { if hash.Some? then Some(Hex.Lowered(Trim(hash.value))) else None }

  function ModeIn(mode: Option<string>): Option<string> {
    if mode.None? then None else Some(if Trim(mode.value) == "password" then "password" else "auto")
  }

  /** The payload says what the request said: trimmed, hashes in lower case, modes by their short names. */
  ghost predicate Mirrors(req: Request, now: string, p: Payload) {
    var unlock := req.receiptType.UnlockModeTransition?;
    && p.receiptType == req.receiptType && p.appId == Trim(req.appId)
    && p.timestamp == (if req.timestamp.Some? then Trim(req.timestamp.value) else now)
    && p.resourcePath == TrimmedIn(req.resourcePath) && p.newValue == HashIn(req.newValue)
    && p.fromMode == (if unlock then ModeIn(req.fromMode) else None)
    && p.toMode == (if unlock then ModeIn(req.toMode) else None)
    && p.quote == (if unlock then HashIn(req.quote) else None)
  }

  /** A request is accepted if and only if it carries what its type signs, and the payload mirrors it. */
  lemma AcceptedIff(req: Request, now: string)
    requires Plain(now, 64)
    ensures Accepted(req, now).Success? <==> Acceptable(req)
    ensures Acceptable(req) ==> Mirrors(req, now, Accepted(req, now).value)
  {
  }

  /** The bytes that are signed for an accepted request. */
  ghost function Canonical(req: Request, now: string, uuid: UuidParser): Result<Bytes, ReceiptError>
    requires Plain(now, 64)
  {
    var p := Accepted(req, now);
    if p.Failure? then Failure(p.error) else
    var appId := AppIdBytes(p.value, uuid);
    if appId.None? then Failure(InvalidAppId) else
    RecordsPrintable(p.value, appId.value);
    Success(Encode(RecordsOf(p.value, appId.value)))
  }

  lemma {:induction false} RecordsPrintable(p: Payload, appId: Bytes)
    requires WellFormed(p) && |appId| <= 128
    ensures AllPrintable(RecordsOf(p, appId))
  {
    if p.newValue.Some? { Hex.LowerHexRoundTrip(p.newValue.value); }
    if p.quote.Some? { Hex.LowerHexRoundTrip(p.quote.value); }
  }

  /** The record list of ReceiptSigner::sign, pushed one by one. */
  method PushedRecords(p: Payload, appId: Bytes) returns (records: seq<Record>)
    requires WellFormed(p)
    ensures records == RecordsOf(p, appId)
  {
    records := [Text("purpose", Purpose(p.receiptType)), Record(Ascii("app_id"), appId)];
    if p.resourcePath.Some? { records := records + [Text("resource_path", p.resourcePath.value)]; }
    if p.fromMode.Some? { records := records + [Text("from_mode", p.fromMode.value)]; }
    if p.toMode.Some? { records := records + [Text("to_mode", p.toMode.value)]; }
    if p.newValue.Some? { records := records + [HashRecord("new_value_sha256", p.newValue.value)]; }
    if p.quote.Some? { records := records + [HashRecord("attestation_quote_sha256", p.quote.value)]; }
    records := records + [Text("timestamp", p.timestamp)];
  }

  /** ReceiptSigner::sign up to the signature. */
  method SignedBytes(req: Request, now: string, uuid: UuidParser) returns (r: Result<Bytes, ReceiptError>)
    requires Plain(now, 64)
    ensures r == Canonical(req, now, uuid)
  {
    var accepted := Accepted(req, now);
    if accepted.Failure? { return Failure(accepted.error); }
    var appId := AppIdBytes(accepted.value, uuid);
    if appId.None? { return Failure(InvalidAppId); }
    RecordsPrintable(accepted.value, appId.value);
    var records := PushedRecords(accepted.value, appId.value);
    var bytes := CeV1Bytes(records);
    return Success(bytes);
  }

  // ------------------------------------------------- what the bytes determine

  lemma ResourceShape(p: Payload, appId: Bytes)
    requires WellFormed(p) && !p.receiptType.UnlockModeTransition?
    ensures var rs := RecordsOf(p, appId);
            && |rs| == (if p.newValue.Some? then 5 else 4)
            && rs[0] == Text("purpose", Purpose(p.receiptType)) && rs[1].value == appId
            && rs[2] == Text("resource_path", p.resourcePath.value)
            && (p.newValue.Some? ==> rs[3] == HashRecord("new_value_sha256", p.newValue.value))
            && rs[|rs| - 1] == Text("timestamp", p.timestamp)
  {
  }

  lemma UnlockShape(p: Payload, appId: Bytes)
    requires WellFormed(p) && p.receiptType.UnlockModeTransition?
    ensures var rs := RecordsOf(p, appId);
            && |rs| == 6
            && rs[0] == Text("purpose", Purpose(p.receiptType)) && rs[1].value == appId
            && rs[2] == Text("from_mode", p.fromMode.value) && rs[3] == Text("to_mode", p.toMode.value)
            && rs[4] == HashRecord("attestation_quote_sha256", p.quote.value)
            && rs[5] == Text("timestamp", p.timestamp)
  {
  }

  lemma TextInjective(name: string, s: string, t: string)
    requires IsAscii(name) && IsAscii(s) && IsAscii(t) && Text(name, s) == Text(name, t)
    ensures s == t
  {
    AsciiInjective(s, t);
  }

  lemma HashInjective(name: string, s: string, t: string)
    requires IsAscii(name) && |s| == 64 && Hex.IsLowerHex(s) && |t| == 64 && Hex.IsLowerHex(t)
    requires HashRecord(name, s) == HashRecord(name, t)
    ensures s == t
  {
    Hex.LowerHexRoundTrip(s);
    Hex.LowerHexRoundTrip(t);
  }

  lemma PurposeDeterminesType(s: ReceiptType, t: ReceiptType)
    requires !s.Unsupported? && !t.Unsupported? && Ascii(Purpose(s)) == Ascii(Purpose(t))
    ensures s == t
  {
    AsciiInjective(Purpose(s), Purpose(t));
    assert Purpose(Rekey)[8] == 'r' && Purpose(Teardown)[8] == 't' && Purpose(UnlockModeTransition)[8] == 'u';
  }

  lemma FirstRecords(p: Payload, a: Bytes, q: Payload, b: Bytes)
    requires WellFormed(p) && WellFormed(q) && RecordsOf(p, a) == RecordsOf(q, b)
    ensures p.receiptType == q.receiptType && a == b
  {
    var rs := RecordsOf(p, a);
    assert rs[0] == Text("purpose", Purpose(p.receiptType)) && rs[0] == Text("purpose", Purpose(q.receiptType));
    assert rs[1].value == a && rs[1].value == b;
    PurposeDeterminesType(p.receiptType, q.receiptType);
  }

  lemma ResourceRecordsDetermine(p: Payload, a: Bytes, q: Payload, b: Bytes)
    requires WellFormed(p) && WellFormed(q) && RecordsOf(p, a) == RecordsOf(q, b)
    requires !p.receiptType.UnlockModeTransition? && p.receiptType == q.receiptType
    ensures p.resourcePath == q.resourcePath && p.newValue == q.newValue && p.timestamp == q.timestamp
  {
    ResourceShape(p, a);
    ResourceShape(q, b);
    TextInjective("resource_path", p.resourcePath.value, q.resourcePath.value);
    TextInjective("timestamp", p.timestamp, q.timestamp);
    if p.newValue.Some? { HashInjective("new_value_sha256", p.newValue.value, q.newValue.value); }
  }

  lemma UnlockRecordsDetermine(p: Payload, a: Bytes, q: Payload, b: Bytes)
    requires WellFormed(p) && WellFormed(q) && RecordsOf(p, a) == RecordsOf(q, b)
    requires p.receiptType.UnlockModeTransition? && q.receiptType.UnlockModeTransition?
    ensures p.fromMode == q.fromMode && p.toMode == q.toMode && p.quote == q.quote && p.timestamp == q.timestamp
  {
    UnlockShape(p, a);
    UnlockShape(q, b);
    TextInjective("from_mode", p.fromMode.value, q.fromMode.value);
    TextInjective("to_mode", p.toMode.value, q.toMode.value);
    HashInjective("attestation_quote_sha256", p.quote.value, q.quote.value);
    TextInjective("timestamp", p.timestamp, q.timestamp);
  }

  /**
   The signed bytes determine the receipt.  Two accepted requests of any types with
   equal canonical bytes have equal payloads in every field, except that the app ids
   of two unlock transitions are only known to name the same 16 UUID bytes.
   */
  lemma CanonicalBytesDetermineReceipt(
    req: Request, now: string, req': Request, now': string, uuid: UuidParser)
    requires Plain(now, 64) && Plain(now', 64)
    requires Canonical(req, now, uuid).Success? && Canonical(req, now, uuid) == Canonical(req', now', uuid)
    ensures var p, q := Accepted(req, now).value, Accepted(req', now').value;
            if p.receiptType.UnlockModeTransition?
            then q == p.(appId := q.appId) && uuid(p.appId) == uuid(q.appId)
            else p == q
  {
    var p, q := Accepted(req, now).value, Accepted(req', now').value;
    var a, b := AppIdBytes(p, uuid).value, AppIdBytes(q, uuid).value;
    RecordsPrintable(p, a);
    RecordsPrintable(q, b);
    EncodeInjective(RecordsOf(p, a), RecordsOf(q, b));
    FirstRecords(p, a, q, b);
    if p.receiptType.UnlockModeTransition? {
      UnlockRecordsDetermine(p, a, q, b);
    } else {
      ResourceRecordsDetermine(p, a, q, b);
      AsciiInjective(p.appId, q.appId);
    }
  }
}
