/**
 The raw attestation report, assembled by offset into a zeroed buffer
 (ATTESTATION_REPORT, section 7.3 of AMD's SEV-SNP Firmware ABI Specification),
 and the endorsement URL read back from it.
 */
module SnpReport {
  import opened Wrappers
  import opened ByteStrings
  import opened CeV1
  import Decimals
  import Hex

  const REPORT_BYTES := 1_184

  /** JSON as the evidence holds it; everything that is not looked at is Other. */
  datatype Json = Num(n: nat) | Arr(items: seq<Json>) | Obj(members: map<string, Json>) | Other

  function Get(v: Json, key: string): Option<Json> {
    if v.Obj? && key in v.members then Some(v.members[key]) else None
  }

  function AsU64(v: Json): Option<nat> {
    if v.Num? && v.n < 0x1_0000_0000_0000_0000 then Some(v.n) else None
  }

  function Number(v: Json, key: string): (r: Option<nat>)
    ensures r.Some? ==> r.value < 0x1_0000_0000_0000_0000
  {
    match Get(v, key) case Some(x) => AsU64(x) case None => None
  }

  function Byte(v: Json, key: string): (r: Option<nat>)
    ensures r.Some? ==> r.value < 256
  {
    match Number(v, key) case Some(n) => (if n < 256 then Some(n) else None) case None => None
  }

  // ------------------------------------------------- buffers written by segment

  datatype Segment = Segment(offset: nat, bytes: Bytes) {
    function End(): nat { offset + |bytes| }
  }

  function Write(buf: Bytes, s: Segment): (r: Bytes)
    requires s.End() <= |buf|
    ensures |r| == |buf|
  {
    buf[..s.offset] + s.bytes + buf[s.End()..]
  }

  function WriteAll(buf: Bytes, segs: seq<Segment>): (r: Bytes)
    requires Within(segs, |buf|)
    ensures |r| == |buf|
  {
    if segs == [] then buf else Write(WriteAll(buf, segs[..|segs| - 1]), segs[|segs| - 1])
  }

  ghost predicate Within(segs: seq<Segment>, size: nat) {
    forall i :: 0 <= i < |segs| ==> segs[i].End() <= size
  }

  /** Segments at growing offsets that do not overlap. */
  ghost predicate InOrder(segs: seq<Segment>) {
    forall i, j :: 0 <= i < j < |segs| ==> segs[i].End() <= segs[j].offset
  }

  ghost predicate Outside(segs: seq<Segment>, k: int) {
    forall i :: 0 <= i < |segs| ==> k < segs[i].offset || segs[i].End() <= k
  }

  lemma WriteReadsBack(buf: Bytes, s: Segment)
    requires s.End() <= |buf|
    ensures Write(buf, s)[s.offset..s.End()] == s.bytes
  {
  }

  lemma WriteKeepsOther(buf: Bytes, s: Segment, k: nat)
    requires s.End() <= |buf| && k < |buf| && !(s.offset <= k < s.End())
    ensures Write(buf, s)[k] == buf[k]
  {
  }

  lemma WriteKeepsEarlier(buf: Bytes, s: Segment, t: Segment)
    requires s.End() <= |buf| && t.End() <= s.offset
    ensures Write(buf, s)[t.offset..t.End()] == buf[t.offset..t.End()]
  {
  }

  ghost predicate ReadsBack(r: Bytes, segs: seq<Segment>)
    requires Within(segs, |r|)
  {
    forall i :: 0 <= i < |segs| ==> r[segs[i].offset..segs[i].End()] == segs[i].bytes
  }

  /** Disjoint writes read back as given. */
  lemma {:induction false} WriteAllReadsBack(buf: Bytes, segs: seq<Segment>)
    requires Within(segs, |buf|) && InOrder(segs)
    ensures ReadsBack(WriteAll(buf, segs), segs)
  {
    if segs != [] {
      var n := |segs| - 1;
      var before, last := segs[..n], segs[n];
      WriteAllReadsBack(buf, before);
      var q := WriteAll(buf, before);
      WriteReadsBack(q, last);
      forall i | 0 <= i < n ensures Write(q, last)[segs[i].offset..segs[i].End()] == segs[i].bytes {
        assert before[i] == segs[i];
        WriteKeepsEarlier(q, last, segs[i]);
      }
    }
  }

  /** Bytes outside all segments are left alone. */
  lemma {:induction false} WriteAllKeepsOthers(buf: Bytes, segs: seq<Segment>, k: nat)
    requires Within(segs, |buf|) && k < |buf| && Outside(segs, k)
    ensures WriteAll(buf, segs)[k] == buf[k]
  {
    if segs != [] {
      var n := |segs| - 1;
      WriteAllKeepsOthers(buf, segs[..n], k);
      WriteKeepsOther(WriteAll(buf, segs[..n]), segs[n], k);
    }
  }

  // ------------------------------------------------- fields

  /** Little-endian, w bytes. */
  function Le(n: nat, w: nat): (b: Bytes)
    ensures |b| == w
  {
    if w == 0 then [] else [n % 256] + Le(n / 256, w - 1)
  }

  function FromLe(b: Bytes): nat { if b == [] then 0 else b[0] + 256 * FromLe(b[1..]) }

  function Pow256(w: nat): nat { if w == 0 then 1 else 256 * Pow256(w - 1) }

  lemma {:induction false} LeInverse(n: nat, w: nat)
    requires n < Pow256(w)
    ensures FromLe(Le(n, w)) == n
  {
    if w > 0 {
      LeInverse(n / 256, w - 1);
      assert Le(n, w)[1..] == Le(n / 256, w - 1);
    }
  }

  lemma {:induction false} FromLeInverse(b: Bytes)
    ensures Le(FromLe(b), |b|) == b
  {
    if b != [] {
      FromLeInverse(b[1..]);
      assert (b[0] + 256 * FromLe(b[1..])) % 256 == b[0] && (b[0] + 256 * FromLe(b[1..])) / 256 == FromLe(b[1..]);
      assert b == [b[0]] + b[1..];
    }
  }

  function ItemBytes(items: seq<Json>): (r: Option<Bytes>)
    ensures r.Some? ==> |r.value| == |items|
  {
    if items == [] then Some([])
    else match (AsU64(items[0]), ItemBytes(items[1..]))
      case (Some(n), Some(rest)) => (if n < 256 then Some([n] + rest) else None)
      case _ => None
  }

  function ArrayBytes(v: Json, key: string, len: nat): (r: Option<Bytes>)
    ensures r.Some? ==> |r.value| == len
  {
    match Get(v, key)
    case Some(Arr(items)) => if |items| == len then ItemBytes(items) else None
    case _ => None
  }

  /** The TCB components in the order their layout stores them. */
  datatype Tcb = Tcb(fmc: nat, bootloader: nat, tee: nat, snp: nat, microcode: nat)

  predicate Bytewise(t: Tcb) { t.fmc < 256 && t.bootloader < 256 && t.tee < 256 && t.snp < 256 && t.microcode < 256 }

  /** Outside Turin there is no fmc, and a missing snp counts as 0. */
  function TcbIn(v: Json, turin: bool): (r: Option<Tcb>)
    ensures r.Some? ==> Bytewise(r.value)
  {
    var fmc := if turin then Byte(v, "fmc") else Some(0);
    var snp := if turin then Byte(v, "snp") else
               match Number(v, "snp") case None => Some(0) case Some(n) => if n < 256 then Some(n) else None;
    match (fmc, Byte(v, "bootloader"), Byte(v, "tee"), snp, Byte(v, "microcode"))
    case (Some(f), Some(b), Some(t), Some(s), Some(m)) => Some(Tcb(f, b, t, s, m))
    case _ => None
  }

  function TcbOf(report: Json, key: string, turin: bool): (r: Option<Tcb>)
    ensures r.Some? ==> Bytewise(r.value)
  {
    match Get(report, key) case None => None case Some(v) => TcbIn(v, turin)
  }

  function TcbBytes(t: Tcb, turin: bool): (b: Bytes)
    requires Bytewise(t)
    ensures |b| == 8
  {
    if turin then [t.fmc, t.bootloader, t.tee, t.snp, 0, 0, 0, t.microcode]
    else [t.bootloader, t.tee, 0, 0, 0, 0, t.snp, t.microcode]
  }

  // ------------------------------------------------- the layout

  datatype Kind = U32Le | U64Le | ByteArray(len: nat) | TcbVersion | OneByte | FirmwareVersion | SignatureArray(len: nat)

  datatype Field = Field(offset: nat, key: string, kind: Kind) {
    function Size(): nat {
      match kind
      case U32Le => 4
      case U64Le => 8
      case ByteArray(len) => len
      case TcbVersion => 8
      case OneByte => 1
      case FirmwareVersion => 3
      case SignatureArray(len) => len
    }

    function End(): nat { offset + Size() }
  }

  const HEAD: seq<Field> := [
    Field(0x00, "version", U32Le),
    Field(0x04, "guest_svn", U32Le),
    Field(0x08, "policy", U64Le),
    Field(0x10, "family_id", ByteArray(16)),
    Field(0x20, "image_id", ByteArray(16)),
    Field(0x30, "vmpl", U32Le),
    Field(0x34, "sig_algo", U32Le)]

  const BODY: seq<Field> := [
    Field(0x38, "current_tcb", TcbVersion),
    Field(0x40, "plat_info", U64Le),
    Field(0x48, "key_info", U32Le),
    Field(0x50, "report_data", ByteArray(64)),
    Field(0x90, "measurement", ByteArray(48)),
    Field(0xc0, "host_data", ByteArray(32))]

  const KEYS: seq<Field> := [
    Field(0xe0, "id_key_digest", ByteArray(48)),
    Field(0x110, "author_key_digest", ByteArray(48)),
    Field(0x140, "report_id", ByteArray(32)),
    Field(0x160, "report_id_ma", ByteArray(32)),
    Field(0x180, "reported_tcb", TcbVersion)]

  const CPUID: seq<Field> := [
    Field(0x188, "cpuid_fam_id", OneByte),
    Field(0x189, "cpuid_mod_id", OneByte),
    Field(0x18a, "cpuid_step", OneByte)]

  const TAIL: seq<Field> := [
    Field(0x1a0, "chip_id", ByteArray(64)),
    Field(0x1e0, "committed_tcb", TcbVersion),
    Field(0x1e8, "current", FirmwareVersion),
    Field(0x1ec, "committed", FirmwareVersion),
    Field(0x1f0, "launch_tcb", TcbVersion)]

  const MITIGATIONS: seq<Field> := [
    Field(0x1f8, "launch_mit_vector", U64Le),
    Field(0x200, "current_mit_vector", U64Le)]

  const SIGNATURE: seq<Field> := [
    Field(0x2a0, "r", SignatureArray(72)),
    Field(0x2e8, "s", SignatureArray(72))]

  /** The writes of raw_snp_report for a report of this version, in their order. */
  function Layout(version: nat): seq<Field> {
    HEAD + BODY + KEYS + (if version >= 3 then CPUID else []) + TAIL + (if version >= 5 then MITIGATIONS else []) + SIGNATURE
  }

  /** What the evidence holds for a field, if it is present and in range. */
  function BytesOf(report: Json, turin: bool, f: Field): (r: Option<Bytes>)
    ensures r.Some? ==> |r.value| == f.Size()
  {
    match f.kind
    case U32Le =>
      (match Number(report, f.key) case Some(n) => (if n <= 0xffff_ffff then Some(Le(n, 4)) else None) case None => None)
    case U64Le => (match Number(report, f.key) case Some(n) => Some(Le(n, 8)) case None => None)
    case ByteArray(len) => ArrayBytes(report, f.key, len)
    case TcbVersion =>
      (match TcbOf(report, f.key, turin) case Some(t) => Some(TcbBytes(t, turin)) case None => None)
    case OneByte => (match Byte(report, f.key) case Some(n) => Some([n]) case None => None)
    case FirmwareVersion => VersionBytes(report, f.key)
    case SignatureArray(len) =>
      (match Get(report, "signature") case Some(s) => ArrayBytes(s, f.key, len) case None => None)
  }

  function VersionBytes(report: Json, key: string): (r: Option<Bytes>)
    ensures r.Some? ==> |r.value| == 3
  {
    match Get(report, key)
    case None => None
    case Some(v) =>
      match (Byte(v, "build"), Byte(v, "minor"), Byte(v, "major"))
      case (Some(b), Some(m), Some(j)) => Some([b, m, j])
      case _ => None
  }

  ghost predicate Laid(fields: seq<Field>, from: nat, to: nat) {
    && from <= to
    && (forall i :: 0 <= i < |fields| ==> from <= fields[i].offset && fields[i].End() <= to)
    && (forall i, j :: 0 <= i < j < |fields| ==> fields[i].End() <= fields[j].offset)
  }

  lemma LaidConcat(a: seq<Field>, b: seq<Field>, from: nat, mid: nat, to: nat)
    requires Laid(a, from, mid) && Laid(b, mid, to)
    ensures Laid(a + b, from, to)
  {
  }

  lemma HeadIsLaid() ensures Laid(HEAD, 0, 0x38) {}

  lemma BodyIsLaid() ensures Laid(BODY, 0x38, 0xe0) {}

  lemma KeysAreLaid() ensures Laid(KEYS, 0xe0, 0x188) {}

  lemma CpuIdIsLaid() ensures Laid(CPUID, 0x188, 0x1a0) {}

  lemma TailIsLaid() ensures Laid(TAIL, 0x1a0, 0x1f8) {}

  lemma EndIsLaid() ensures Laid(MITIGATIONS, 0x1f8, 0x2a0) && Laid(SIGNATURE, 0x2a0, REPORT_BYTES) {}

  /** The offsets of the source do not overlap and stay within 1184 bytes. */
  lemma LayoutIsLaid(version: nat)
    ensures Laid(Layout(version), 0, REPORT_BYTES)
  {
    HeadIsLaid();
    BodyIsLaid();
    KeysAreLaid();
    CpuIdIsLaid();
    TailIsLaid();
    EndIsLaid();
    var cpuid := if version >= 3 then CPUID else [];
    var mitigations := if version >= 5 then MITIGATIONS else [];
    LaidConcat(HEAD, BODY, 0, 0x38, 0xe0);
    LaidConcat(HEAD + BODY, KEYS, 0, 0xe0, 0x188);
    var a := HEAD + BODY + KEYS;
    LaidConcat(a, cpuid, 0, 0x188, 0x1a0);
    LaidConcat(a + cpuid, TAIL, 0, 0x1a0, 0x1f8);
    LaidConcat(a + cpuid + TAIL, mitigations, 0, 0x1f8, 0x2a0);
    LaidConcat(a + cpuid + TAIL + mitigations, SIGNATURE, 0, 0x2a0, REPORT_BYTES);
  }

  // ------------------------------------------------- writing in place

  /** The segments of fields whose bytes are all present. */
  ghost predicate Present(report: Json, turin: bool, fields: seq<Field>) {
    forall i :: 0 <= i < |fields| ==> BytesOf(report, turin, fields[i]).Some?
  }

  ghost function Segments(report: Json, turin: bool, fields: seq<Field>): (s: seq<Segment>)
    requires Present(report, turin, fields)
    ensures |s| == |fields|
    ensures forall i :: 0 <= i < |fields| ==>
              s[i] == Segment(fields[i].offset, BytesOf(report, turin, fields[i]).value) && s[i].End() == fields[i].End()
  {
    seq(|fields|, i requires 0 <= i < |fields| => Segment(fields[i].offset, BytesOf(report, turin, fields[i]).value))
  }

  /** put_array: one element at a time, giving up at the first that is no byte. */
  method PutArray(out: array<byte>, offset: nat, v: Json, key: string, len: nat) returns (ok: bool)
    requires offset + len <= out.Length
    modifies out
    ensures ok <==> ArrayBytes(v, key, len).Some?
    ensures ok ==> out[..] == Write(old(out[..]), Segment(offset, ArrayBytes(v, key, len).value))
  {
    var a := Get(v, key);
    if a.None? || !a.value.Arr? || |a.value.items| != len { return false; }
    var items := a.value.items;
    ghost var before := out[..];
    for i := 0 to len
      invariant ItemBytes(items[..i]).Some?
      invariant forall k :: 0 <= k < i ==> out[offset + k] == ItemBytes(items[..i]).value[k]
      invariant forall k :: 0 <= k < out.Length && !(offset <= k < offset + i) ==> out[k] == before[k]
    {
      var n := AsU64(items[i]);
      ItemBytesSnoc(items, i);
      if n.None? || n.value >= 256 {
        ItemBytesPrefix(items, i + 1);
        return false;
      }
      out[offset + i] := n.value;
    }
    assert items[..len] == items;
    ok := true;
  }

  lemma {:induction false} ItemBytesOfConcat(a: seq<Json>, b: seq<Json>)
    ensures ItemBytes(a + b).Some? <==> ItemBytes(a).Some? && ItemBytes(b).Some?
    ensures ItemBytes(a + b).Some? ==> ItemBytes(a + b).value == ItemBytes(a).value + ItemBytes(b).value
  {
    if a == [] {
      assert a + b == b;
    } else {
      assert (a + b)[1..] == a[1..] + b;
      ItemBytesOfConcat(a[1..], b);
    }
  }

  lemma ItemBytesSnoc(items: seq<Json>, i: nat)
    requires i < |items| && ItemBytes(items[..i]).Some?
    ensures var n := AsU64(items[i]);
            if n.Some? && n.value < 256
            then ItemBytes(items[..i + 1]) == Some(ItemBytes(items[..i]).value + [n.value])
            else ItemBytes(items[..i + 1]).None?
  {
    var one := [items[i]];
    assert one[1..] == [] && ItemBytes(one[1..]) == Some([]);
    ItemBytesOfConcat(items[..i], one);
    assert items[..i + 1] == items[..i] + one;
    var n := AsU64(items[i]);
    if n.Some? && n.value < 256 {
      var b: Bytes := [n.value];
      assert b + [] == b;
      assert ItemBytes(one) == Some(b);
    }
  }

  lemma ItemBytesPrefix(items: seq<Json>, i: nat)
    requires i <= |items| && ItemBytes(items[..i]).None?
    ensures ItemBytes(items).None?
  {
    ItemBytesOfConcat(items[..i], items[i..]);
    assert items == items[..i] + items[i..];
  }

  /** to_le_bytes, copied to its place. */
  method PutNumber(out: array<byte>, offset: nat, n: nat, w: nat)
    requires offset + w <= out.Length
    modifies out
    ensures out[..] == Write(old(out[..]), Segment(offset, Le(n, w)))
  {
    ghost var before := out[..];
    var rest := n;
    for i := 0 to w
      invariant Le(n, w)[i..] == Le(rest, w - i)
      invariant forall k :: 0 <= k < i ==> out[offset + k] == Le(n, w)[k]
      invariant forall k :: 0 <= k < out.Length && !(offset <= k < offset + i) ==> out[k] == before[k]
    {
      assert Le(n, w)[i] == Le(n, w)[i..][0] == rest % 256;
      assert Le(n, w)[i + 1..] == Le(n, w)[i..][1..] == Le(rest / 256, w - i - 1);
      out[offset + i] := rest % 256;
      rest := rest / 256;
    }
  }

  /** put_u32 and put_u64, behind their lookups. */
  method PutLe(out: array<byte>, report: Json, f: Field) returns (ok: bool)
    requires f.End() <= out.Length && (f.kind.U32Le? || f.kind.U64Le?)
    modifies out
    ensures ok <==> BytesOf(report, false, f).Some?
    ensures ok ==> out[..] == Write(old(out[..]), Segment(f.offset, BytesOf(report, false, f).value))
  {
    var n := Number(report, f.key);
    if n.None? || (f.kind.U32Le? && n.value > 0xffff_ffff) { return false; }
    PutNumber(out, f.offset, n.value, if f.kind.U32Le? then 4 else 8);
    return true;
  }

  /** The Turin half of tcb: eight zeroed bytes, filled in by name. */
  method TurinTcb(v: Json) returns (b: Option<Bytes>)
    ensures b == match TcbIn(v, true) case Some(t) => Some(TcbBytes(t, true)) case None => None
  {
    var bytes := new byte[8](_ => 0);
    var fmc, bootloader, tee, snp, microcode :=
      Byte(v, "fmc"), Byte(v, "bootloader"), Byte(v, "tee"), Byte(v, "snp"), Byte(v, "microcode");
    if fmc.None? || bootloader.None? || tee.None? || snp.None? || microcode.None? { return None; }
    bytes[0], bytes[1], bytes[2], bytes[3] := fmc.value, bootloader.value, tee.value, snp.value;
    bytes[7] := microcode.value;
    assert bytes[..] == TcbBytes(Tcb(fmc.value, bootloader.value, tee.value, snp.value, microcode.value), true);
    return Some(bytes[..]);
  }

  /** The older half, where a missing snp leaves its byte zero. */
  method OlderTcb(v: Json) returns (b: Option<Bytes>)
    ensures b == match TcbIn(v, false) case Some(t) => Some(TcbBytes(t, false)) case None => None
  {
    var bytes := new byte[8](_ => 0);
    var bootloader, tee, microcode := Byte(v, "bootloader"), Byte(v, "tee"), Byte(v, "microcode");
    if bootloader.None? || tee.None? || microcode.None? { return None; }
    var number := Number(v, "snp");
    var snp := if number.Some? then number.value else 0;
    if snp > 255 { return None; }
    bytes[0], bytes[1] := bootloader.value, tee.value;
    bytes[6] := snp;
    bytes[7] := microcode.value;
    assert bytes[..] == TcbBytes(Tcb(0, bootloader.value, tee.value, snp, microcode.value), false);
    return Some(bytes[..]);
  }

  /** tcb: the bytes taken as one little-endian number. */
  method TcbNumber(report: Json, key: string, turin: bool) returns (v: Option<nat>)
    ensures v.Some? <==> TcbOf(report, key, turin).Some?
    ensures v.Some? ==> Le(v.value, 8) == TcbBytes(TcbOf(report, key, turin).value, turin)
  {
    var value := Get(report, key);
    if value.None? { return None; }
    var bytes;
    if turin { bytes := TurinTcb(value.value); } else { bytes := OlderTcb(value.value); }
    if bytes.None? { return None; }
    FromLeInverse(bytes.value);
    return Some(FromLe(bytes.value));
  }

  /** put_version: three bytes, one after the other. */
  method PutVersion(out: array<byte>, offset: nat, report: Json, key: string) returns (ok: bool)
    requires offset + 3 <= out.Length
    modifies out
    ensures ok <==> VersionBytes(report, key).Some?
    ensures ok ==> out[..] == Write(old(out[..]), Segment(offset, VersionBytes(report, key).value))
  {
    var value := Get(report, key);
    if value.None? { return false; }
    var build := Byte(value.value, "build");
    if build.None? { return false; }
    out[offset] := build.value;
    var minor := Byte(value.value, "minor");
    if minor.None? { return false; }
    out[offset + 1] := minor.value;
    var major := Byte(value.value, "major");
    if major.None? { return false; }
    out[offset + 2] := major.value;
    return true;
  }

  /** One write of the report, with the lookups that feed it. */
  method PutField(out: array<byte>, report: Json, turin: bool, f: Field) returns (ok: bool)
    requires f.End() <= out.Length
    modifies out
    ensures ok <==> BytesOf(report, turin, f).Some?
    ensures ok ==> out[..] == Write(old(out[..]), Segment(f.offset, BytesOf(report, turin, f).value))
  {
    match f.kind
    case U32Le => ok := PutLe(out, report, f);
    case U64Le => ok := PutLe(out, report, f);
    case ByteArray(len) => ok := PutArray(out, f.offset, report, f.key, len);
    case TcbVersion =>
      var v := TcbNumber(report, f.key, turin);
      ok := v.Some?;
      if ok { PutNumber(out, f.offset, v.value, 8); }
    case OneByte =>
      var b := Byte(report, f.key);
      ok := b.Some?;
      if ok { out[f.offset] := b.value; }
    case FirmwareVersion => ok := PutVersion(out, f.offset, report, f.key);
    case SignatureArray(len) =>
      var s := Get(report, "signature");
      if s.None? { return false; }
      ok := PutArray(out, f.offset, s.value, f.key, len);
  }

  function Zeros(n: nat): (z: Bytes)
    ensures |z| == n && forall i :: 0 <= i < n ==> z[i] == 0
  {
    seq(n, _ => 0)
  }

  predicate IsTurin(product: string) {
    var p := Hex.Lowered(product);
    "turin" <= p
  }

  /** The version decides which optional fields are written. */
  function VersionOf(report: Json): Option<nat> { Number(report, "version") }

  ghost predicate WellFormed(evidence: Json, turin: bool) {
    && Get(evidence, "attestation_report").Some?
    && var r := Get(evidence, "attestation_report").value;
       VersionOf(r).Some? && Present(r, turin, Layout(VersionOf(r).value))
  }

  /** The report a well-formed piece of evidence stands for. */
  ghost function Assembled(evidence: Json, turin: bool): (b: Bytes)
    requires WellFormed(evidence, turin)
    ensures |b| == REPORT_BYTES
  {
    var r := Get(evidence, "attestation_report").value;
    var fields := Layout(VersionOf(r).value);
    LayoutIsLaid(VersionOf(r).value);
    WriteAll(Zeros(REPORT_BYTES), Segments(r, turin, fields))
  }

  lemma WroteNext(r: Json, turin: bool, fields: seq<Field>, i: nat)
    requires i < |fields| && Laid(fields, 0, REPORT_BYTES)
    requires Present(r, turin, fields[..i]) && BytesOf(r, turin, fields[i]).Some?
    ensures Present(r, turin, fields[..i + 1])
    ensures WriteAll(Zeros(REPORT_BYTES), Segments(r, turin, fields[..i + 1])) ==
            Write(WriteAll(Zeros(REPORT_BYTES), Segments(r, turin, fields[..i])),
                  Segment(fields[i].offset, BytesOf(r, turin, fields[i]).value))
  {
    var upTo := fields[..i + 1];
    forall k | 0 <= k < |upTo| ensures BytesOf(r, turin, upTo[k]).Some? {
      if k < i { assert fields[..i][k] == upTo[k]; }
    }
    var s := Segments(r, turin, upTo);
    assert s[..i] == Segments(r, turin, fields[..i]);
  }

  /** The writes in layout order into a zeroed buffer, stopping at the first bad field. */
  method WriteFields(out: array<byte>, r: Json, turin: bool, fields: seq<Field>) returns (ok: bool)
    requires out[..] == Zeros(REPORT_BYTES) && Laid(fields, 0, REPORT_BYTES)
    modifies out
    ensures ok <==> Present(r, turin, fields)
    ensures ok ==> out[..] == WriteAll(Zeros(REPORT_BYTES), Segments(r, turin, fields))
  {
    for i := 0 to |fields|
      invariant Present(r, turin, fields[..i])
      invariant out[..] == WriteAll(Zeros(REPORT_BYTES), Segments(r, turin, fields[..i]))
    {
      ok := PutField(out, r, turin, fields[i]);
      if !ok { return; }
      WroteNext(r, turin, fields, i);
    }
    assert fields[..|fields|] == fields;
    ok := true;
  }

  /** raw_snp_report. */
  method RawSnpReport(evidence: Json, product: string) returns (result: Result<Bytes, ProofError>)
    ensures result == if WellFormed(evidence, IsTurin(product)) then Success(Assembled(evidence, IsTurin(product)))
                      else Failure(InvalidReport)
  {
    var found := Get(evidence, "attestation_report");
    if found.None? { return Failure(InvalidReport); }
    var out := new byte[REPORT_BYTES](_ => 0);
    var version := VersionOf(found.value);
    if version.None? { return Failure(InvalidReport); }
    LayoutIsLaid(version.value);
    assert out[..] == Zeros(REPORT_BYTES);
    var ok := WriteFields(out, found.value, IsTurin(product), Layout(version.value));
    if !ok { return Failure(InvalidReport); }
    return Success(out[..]);
  }

  // ------------------------------------------------- reading it back

  /**
   Every field reads back from its offset as the evidence gave it, and every byte
   outside the fields is zero.
   */
  lemma ReportReadsBack(evidence: Json, turin: bool)
    requires WellFormed(evidence, turin)
    ensures var r := Get(evidence, "attestation_report").value;
            var fields := Layout(VersionOf(r).value);
            var b := Assembled(evidence, turin);
            && (forall i :: 0 <= i < |fields| ==>
                  fields[i].End() <= |b| && Some(b[fields[i].offset..fields[i].End()]) == BytesOf(r, turin, fields[i]))
            && (forall k :: 0 <= k < |b| && (forall i :: 0 <= i < |fields| ==> !(fields[i].offset <= k < fields[i].End())) ==>
                  b[k] == 0)
  {
    var r := Get(evidence, "attestation_report").value;
    var fields := Layout(VersionOf(r).value);
    LayoutIsLaid(VersionOf(r).value);
    var segs := Segments(r, turin, fields);
    WriteAllReadsBack(Zeros(REPORT_BYTES), segs);
    var b := Assembled(evidence, turin);
    forall i | 0 <= i < |fields| ensures b[fields[i].offset..fields[i].End()] == BytesOf(r, turin, fields[i]).value {
      assert b[segs[i].offset..segs[i].End()] == segs[i].bytes;
    }
    forall k | 0 <= k < |b| && (forall i :: 0 <= i < |fields| ==> !(fields[i].offset <= k < fields[i].End()))
      ensures b[k] == 0
    {
      assert Outside(segs, k);
      WriteAllKeepsOthers(Zeros(REPORT_BYTES), segs, k);
    }
  }

  // ------------------------------------------------- the endorsement URL

  /** The numbers vcek_url prints, read from the raw report. */
  function SplsInReport(report: Bytes, turin: bool): Tcb
    requires |report| == REPORT_BYTES
  {
    var t := report[0x180..0x188];
    if turin then Tcb(t[0], t[1], t[2], t[3], t[7]) else Tcb(0, t[0], t[1], t[6], t[7])
  }

  /** vcek_url after the base, as a function of what it is meant to name. */
  function Query(chip: Bytes, s: Tcb, turin: bool): string {
    "/" + Hex.Printed(chip) + "?" +
    (if turin then "fmcSPL=" + TwoDigits(s.fmc) + "&" else "") +
    "blSPL=" + TwoDigits(s.bootloader) + "&teeSPL=" + TwoDigits(s.tee) +
    "&snpSPL=" + TwoDigits(s.snp) + "&ucodeSPL=" + TwoDigits(s.microcode)
  }

  /** vcek_url after the base, as it is computed from the raw bytes. */
  function VcekQuery(report: Bytes, turin: bool): string
    requires |report| == REPORT_BYTES
  {
    Query(if turin then report[0x1a0..0x1a8] else report[0x1a0..0x1e0], SplsInReport(report, turin), turin)
  }

  function TwoDigits(n: nat): string {
    var d := Decimals.Formatted(n, 2);
    seq(|d|, i requires 0 <= i < |d| => d[i] as char)
  }

  lemma ReportedTcbIsField(version: nat)
    ensures |Layout(version)| > 17 && Layout(version)[17] == Field(0x180, "reported_tcb", TcbVersion)
  {
    assert (HEAD + BODY + KEYS)[17] == KEYS[4];
  }

  lemma ChipIdIsField(version: nat) returns (i: nat)
    ensures i < |Layout(version)| && Layout(version)[i] == Field(0x1a0, "chip_id", ByteArray(64))
  {
    i := if version >= 3 then 21 else 18;
    assert |HEAD + BODY + KEYS| == 18;
    assert (HEAD + BODY + KEYS + (if version >= 3 then CPUID else []) + TAIL)[i] == TAIL[0];
  }

  lemma FieldReadsBack(evidence: Json, turin: bool, i: nat)
    requires WellFormed(evidence, turin)
    requires i < |Layout(VersionOf(Get(evidence, "attestation_report").value).value)|
    ensures var r := Get(evidence, "attestation_report").value;
            var f := Layout(VersionOf(r).value)[i];
            f.End() <= REPORT_BYTES &&
            Some(Assembled(evidence, turin)[f.offset..f.End()]) == BytesOf(r, turin, f)
  {
    ReportReadsBack(evidence, turin);
  }

  /** The numbers of the evidence are the little-endian numbers at their offsets. */
  lemma NumberReadsBack(evidence: Json, turin: bool, i: nat)
    requires WellFormed(evidence, turin)
    requires i < |Layout(VersionOf(Get(evidence, "attestation_report").value).value)|
    requires var f := Layout(VersionOf(Get(evidence, "attestation_report").value).value)[i]; f.kind.U32Le? || f.kind.U64Le?
    ensures var r := Get(evidence, "attestation_report").value;
            var f := Layout(VersionOf(r).value)[i];
            f.End() <= REPORT_BYTES && Some(FromLe(Assembled(evidence, turin)[f.offset..f.End()])) == Number(r, f.key)
  {
    FieldReadsBack(evidence, turin, i);
    var r := Get(evidence, "attestation_report").value;
    NumberOfBytes(r, turin, Layout(VersionOf(r).value)[i]);
  }

  lemma NumberOfBytes(r: Json, turin: bool, f: Field)
    requires (f.kind.U32Le? || f.kind.U64Le?) && BytesOf(r, turin, f).Some?
    ensures Some(FromLe(BytesOf(r, turin, f).value)) == Number(r, f.key)
  {
    assert Pow256(4) == 0x1_0000_0000;
    assert Pow256(8) == 256 * (256 * (256 * (256 * Pow256(4))));
    LeInverse(Number(r, f.key).value, if f.kind.U32Le? then 4 else 8);
  }

  /**
   The endorsement URL that is computed from the raw report names the chip id and the
   `reported_tcb` components of the JSON evidence, in the Turin layout (whose chip id
   is cut to eight bytes) and in the older one.
   */
  lemma VcekQueryNamesEvidence(evidence: Json, turin: bool)
    requires WellFormed(evidence, turin)
    ensures var r := Get(evidence, "attestation_report").value;
            && TcbOf(r, "reported_tcb", turin).Some? && ArrayBytes(r, "chip_id", 64).Some?
            && var tcb, chip := TcbOf(r, "reported_tcb", turin).value, ArrayBytes(r, "chip_id", 64).value;
               VcekQuery(Assembled(evidence, turin), turin) == Query(if turin then chip[..8] else chip, tcb, turin)
  {
    ReportedTcbReadsBack(evidence, turin);
    ChipIdReadsBack(evidence, turin);
    var b := Assembled(evidence, turin);
    assert b[0x1a0..0x1a8] == b[0x1a0..0x1e0][..8];
  }

  lemma ReportedTcbReadsBack(evidence: Json, turin: bool)
    requires WellFormed(evidence, turin)
    ensures TcbOf(Get(evidence, "attestation_report").value, "reported_tcb", turin) ==
            Some(SplsInReport(Assembled(evidence, turin), turin))
  {
    ReportedTcbIsField(VersionOf(Get(evidence, "attestation_report").value).value);
    FieldReadsBack(evidence, turin, 17);
    SplsOfBytes(Get(evidence, "attestation_report").value, turin, Assembled(evidence, turin));
  }

  lemma SplsOfBytes(r: Json, turin: bool, b: Bytes)
    requires |b| == REPORT_BYTES
    requires Some(b[0x180..0x188]) == BytesOf(r, turin, Field(0x180, "reported_tcb", TcbVersion))
    ensures TcbOf(r, "reported_tcb", turin) == Some(SplsInReport(b, turin))
  {
    var t := TcbOf(r, "reported_tcb", turin).value;
    assert b[0x180..0x188] == TcbBytes(t, turin);
  }

  lemma ChipIdReadsBack(evidence: Json, turin: bool)
    requires WellFormed(evidence, turin)
    ensures ArrayBytes(Get(evidence, "attestation_report").value, "chip_id", 64) ==
            Some(Assembled(evidence, turin)[0x1a0..0x1e0])
  {
    var i := ChipIdIsField(VersionOf(Get(evidence, "attestation_report").value).value);
    FieldReadsBack(evidence, turin, i);
  }
}
