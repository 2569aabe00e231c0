/** The FENCED evidence column: fields framed, then base64url, and read back with every
    range check. */
module EvidenceCodec {
  import opened Wrappers
  import opened JsText
  import opened Framing
  import opened ControlModel

  // ── base64url ──

  function B64Char(v: nat): (c: Unit)
    requires v < 64
    ensures B64Val(c) == v && InAlphabet(c)
  {
    if v < 26 then 65 + v
    else if v < 52 then 97 + (v - 26)
    else if v < 62 then 48 + (v - 52)
    else if v == 62 then 45
    else 95
  }

  predicate InAlphabet(c: Unit) {
    65 <= c <= 90 || 97 <= c <= 122 || 48 <= c <= 57 || c == 45 || c == 95
  }

  function B64Val(c: Unit): (v: nat)
    ensures v < 64
  {
    if 65 <= c <= 90 then c - 65
    else if 97 <= c <= 122 then c - 97 + 26
    else if 48 <= c <= 57 then c - 48 + 52
    else if c == 45 then 62
    else 63
  }

  function B64Encode(b: seq<Byte>): (s: Js)
    ensures forall i | 0 <= i < |s| :: InAlphabet(s[i])
    ensures |b| > 0 ==> |s| > 0
  {
    if |b| == 0 then []
    else if |b| == 1 then [B64Char(b[0] / 4), B64Char(b[0] % 4 * 16)]
    else if |b| == 2 then
      [B64Char(b[0] / 4), B64Char(b[0] % 4 * 16 + b[1] / 16), B64Char(b[1] % 16 * 4)]
    else
      [B64Char(b[0] / 4), B64Char(b[0] % 4 * 16 + b[1] / 16), B64Char(b[1] % 16 * 4 + b[2] / 64), B64Char(b[2] % 64)]
      + B64Encode(b[3..])
  }

  function Octet1(s: Js): Byte
    requires |s| >= 2
  {
    var p: int, q: int := B64Val(s[0]), B64Val(s[1]);
    p * 4 + q / 16
  }

  function Octet2(s: Js): Byte
    requires |s| >= 3
  {
    var q: int, r: int := B64Val(s[1]), B64Val(s[2]);
    q % 16 * 16 + r / 4
  }

  function Octet3(s: Js): Byte
    requires |s| >= 4
  {
    var r: int, t: int := B64Val(s[2]), B64Val(s[3]);
    r % 4 * 64 + t
  }

  /** Buffer.from(s, 'base64url') on the unpadded alphabet; a trailing single character
      carries no byte. */
  function B64Decode(s: Js): seq<Byte> {
    if |s| < 2 then []
    else if |s| == 2 then [Octet1(s)]
    else if |s| == 3 then [Octet1(s), Octet2(s)]
    else [Octet1(s), Octet2(s), Octet3(s)] + B64Decode(s[4..])
  }

  lemma Octet1Inverse(b0: Byte, b1: Byte, s: Js)
    requires |s| >= 2 && B64Val(s[0]) == b0 / 4 && B64Val(s[1]) == b0 % 4 * 16 + b1 / 16
    ensures Octet1(s) == b0
  {
    assert B64Val(s[1]) / 16 == b0 % 4;
  }

  lemma Octet2Inverse(b0: Byte, b1: Byte, b2: Byte, s: Js)
    requires |s| >= 3 && B64Val(s[1]) == b0 % 4 * 16 + b1 / 16 && B64Val(s[2]) == b1 % 16 * 4 + b2 / 64
    ensures Octet2(s) == b1
  {
    assert B64Val(s[1]) % 16 == b1 / 16;
    assert B64Val(s[2]) / 4 == b1 % 16;
  }

  lemma Octet3Inverse(b1: Byte, b2: Byte, s: Js)
    requires |s| >= 4 && B64Val(s[2]) == b1 % 16 * 4 + b2 / 64 && B64Val(s[3]) == b2 % 64
    ensures Octet3(s) == b2
  {
    assert B64Val(s[2]) % 4 == b2 / 64;
  }

  lemma {:induction false} B64Inverse(b: seq<Byte>)
    ensures B64Decode(B64Encode(b)) == b
  {
    var s := B64Encode(b);
    if |b| >= 1 {
      Octet1Inverse(b[0], if |b| >= 2 then b[1] else 0, s);
    }
    if |b| >= 2 {
      Octet2Inverse(b[0], b[1], if |b| >= 3 then b[2] else 0, s);
    }
    if |b| >= 3 {
      Octet3Inverse(b[1], b[2], s);
      assert s[4..] == B64Encode(b[3..]);
      B64Inverse(b[3..]);
      assert b == [b[0], b[1], b[2]] + b[3..];
    }
  }

  /** Four characters are the three bytes as one number of twenty-four bits. */
  lemma B64Group(b: seq<Byte>)
    requires |b| >= 3
    ensures var s, b0: int, b1: int, b2: int := B64Encode(b), b[0], b[1], b[2];
            |s| >= 4 &&
            B64Val(s[0]) * 0x4_0000 + B64Val(s[1]) * 0x1000 + B64Val(s[2]) * 0x40 + B64Val(s[3]) ==
            b0 * 0x1_0000 + b1 * 0x100 + b2
  {
  }

  // ── the record ──

  const MAX_SEQ: nat := 0x100_0000_0000

  predicate HexDigest(s: string) {
    |s| == 64 && forall i | 0 <= i < |s| :: '0' <= s[i] <= '9' || 'a' <= s[i] <= 'f'
  }

  /** Every check decodeEvidence makes. */
  predicate InRange(e: FenceEvidence) {
    && IdOk(e.holderNodeId) && 1 <= e.grantSeq <= MAX_SEQ && HexDigest(e.grantDigest)
    && e.maxExpiryMs <= MAX_MS && e.controlNowMs <= MAX_MS && e.safetyMarginMs <= MAX_SAFETY_MARGIN_MS
    && IdOk(e.redisNodeId) && 1 <= e.redisEpoch <= MAX_EPOCH && e.redisExpiresMs <= MAX_MS
    && HexDigest(e.redisClaimDigest) && e.witnessFrom <= MAX_EPOCH && 1 <= e.witnessTo <= MAX_EPOCH
  }

  /** The code units of a string of Unicode scalar values. */
  function Units(s: string): Js {
    if |s| == 0 then []
    else
      var c := s[0] as int;
      (if c < 0x1_0000 then [c] else [0xD800 + (c - 0x1_0000) / 0x400, 0xDC00 + (c - 0x1_0000) % 0x400])
      + Units(s[1..])
  }

  const LAYOUT: string := "tsk_ha_evidence/v1"
  const PROOF_MODE: string := "lease-expiry-control-clock"

  function Fields(e: FenceEvidence): (f: seq<Option<Js>>)
    ensures |f| == 14
  {
    [Some(A(LAYOUT)), Some(Units(e.holderNodeId)), Some(Decimal(e.grantSeq)), Some(Units(e.grantDigest)),
     Some(Decimal(e.maxExpiryMs)), Some(Decimal(e.controlNowMs)), Some(Decimal(e.safetyMarginMs)),
     Some(Units(e.redisNodeId)), Some(Decimal(e.redisEpoch)), Some(Decimal(e.redisExpiresMs)),
     Some(Units(e.redisClaimDigest)), Some(Decimal(e.witnessFrom)), Some(Decimal(e.witnessTo)), Some(A(PROOF_MODE))]
  }

  /** encodeEvidence; None where a field's length does not fit the frame. */
  function EncodeEvidence(e: FenceEvidence): Option<Js> {
    if AllFit(Fields(e)) then Some(B64Encode(Frame(Fields(e)))) else None
  }

  /** The host's UTF-8 decoder and Number(), the latter None unless a safe integer. */
  datatype Host = Host(text: seq<Byte> -> Js, number: Js -> Option<int>)

  ghost predicate HostOk(h: Host) {
    Reads(h.text) && forall n: nat | n < 0x20_0000_0000_0000 :: h.number(Decimal(n)) == Some(n)
  }

  function AsciiString(u: Js): Option<string> {
    if forall i | 0 <= i < |u| :: u[i] < 128 then Some(seq(|u|, i requires 0 <= i < |u| => u[i] as char)) else None
  }

  function ReadId(u: Js): Result<string, Fault> {
    var s := AsciiString(u);
    if s.Some? && IdOk(s.value) then Ok(s.value) else Err(Invalid)
  }

  function ReadDigest(u: Js): Result<string, Fault> {
    var s := AsciiString(u);
    if s.Some? && HexDigest(s.value) then Ok(s.value) else Err(Invalid)
  }

  function ReadInt(h: Host, u: Js, min: nat, max: nat): Result<nat, Fault> {
    var n := h.number(u);
    if n.Some? && min <= n.value <= max then Ok(n.value) else Err(Invalid)
  }

  function DecodeEvidence(h: Host, s: Js): (r: Result<FenceEvidence, Fault>)
    ensures r.Ok? ==> InRange(r.value)
  {
    if !(|s| > 0 && forall i | 0 <= i < |s| :: InAlphabet(s[i])) then Err(Invalid) else
    var fields := Unframe(h.text, B64Decode(s));
    :- Need(fields.Some? && |fields.value| == 14, Invalid);
    ReadFields(h, fields.value)
  }

  function ReadFields(h: Host, f: seq<Js>): (r: Result<FenceEvidence, Fault>)
    requires |f| == 14
    ensures r.Ok? ==> InRange(r.value)
  {
    if !(f[0] == A(LAYOUT) && f[13] == A(PROOF_MODE)) then Err(Invalid) else
    var holder :- ReadId(f[1]);
    var grantSeq :- ReadInt(h, f[2], 1, MAX_SEQ);
    var grantDigest :- ReadDigest(f[3]);
    var maxExpiry :- ReadInt(h, f[4], 0, MAX_MS);
    var controlNow :- ReadInt(h, f[5], 0, MAX_MS);
    var margin :- ReadInt(h, f[6], 0, MAX_SAFETY_MARGIN_MS);
    var node :- ReadId(f[7]);
    var epoch :- ReadInt(h, f[8], 1, MAX_EPOCH);
    var expires :- ReadInt(h, f[9], 0, MAX_MS);
    var claim :- ReadDigest(f[10]);
    var from :- ReadInt(h, f[11], 0, MAX_EPOCH);
    var to :- ReadInt(h, f[12], 1, MAX_EPOCH);
    Ok(FenceEvidence(holder, grantSeq, grantDigest, maxExpiry, controlNow, margin, node, epoch, expires, claim, from, to))
  }

  // ── round trip ──

  lemma {:induction false} AsciiUnits(s: string)
    requires forall i | 0 <= i < |s| :: s[i] < 128 as char
    ensures |Units(s)| == |s| && forall i | 0 <= i < |s| :: Units(s)[i] == s[i] as int
  {
    if |s| > 0 {
      AsciiUnits(s[1..]);
    }
  }

  lemma AsciiReads(s: string)
    requires forall i | 0 <= i < |s| :: s[i] < 128 as char
    ensures AsciiString(Units(s)) == Some(s) && WellFormed(Units(s))
    ensures |Utf8(Units(s))| == |s|
  {
    AsciiUnits(s);
    AsciiWellFormed(Units(s));
    Utf8Ascii(Units(s));
    var t := AsciiString(Units(s)).value;
    assert t == s;
  }

  lemma IdReads(s: string)
    requires IdOk(s)
    ensures ReadId(Units(s)) == Ok(s) && Readable(Some(Units(s))) && AsciiString(Units(s)) == Some(s)
  {
    AsciiReads(s);
  }

  lemma DigestReads(s: string)
    requires HexDigest(s)
    ensures ReadDigest(Units(s)) == Ok(s) && Readable(Some(Units(s))) && AsciiString(Units(s)) == Some(s)
  {
    AsciiReads(s);
  }

  predicate Readable(p: Option<Js>) { Fits(p) && p.Some? && WellFormed(p.value) }

  lemma NatReads(n: nat)
    requires n <= MAX_MS
    ensures Readable(Some(Decimal(n)))
  {
    var s := Decimal(n);
    AsciiWellFormed(s);
    Utf8Ascii(s);
    SafeDigits(n);
  }

  lemma LiteralReads(s: string)
    requires (forall i | 0 <= i < |s| :: s[i] < 128 as char) && |s| < 100
    ensures Readable(Some(A(s)))
  {
    AsciiWellFormed(A(s));
    Utf8Ascii(A(s));
  }

  lemma FieldsReadable(e: FenceEvidence)
    requires InRange(e)
    ensures forall i | 0 <= i < 14 :: Readable(Fields(e)[i])
  {
    LiteralReads(LAYOUT);
    LiteralReads(PROOF_MODE);
    IdReads(e.holderNodeId);
    IdReads(e.redisNodeId);
    DigestReads(e.grantDigest);
    DigestReads(e.redisClaimDigest);
    NatReads(e.grantSeq);
    NatReads(e.maxExpiryMs);
    NatReads(e.controlNowMs);
    NatReads(e.safetyMarginMs);
    NatReads(e.redisEpoch);
    NatReads(e.redisExpiresMs);
    NatReads(e.witnessFrom);
    NatReads(e.witnessTo);
  }

  lemma {:induction false} StringsAt(parts: seq<Option<Js>>)
    requires forall i | 0 <= i < |parts| :: parts[i].Some?
    ensures |Strings(parts)| == |parts| && forall i | 0 <= i < |parts| :: Strings(parts)[i] == parts[i].value
  {
    if |parts| > 0 {
      StringsAt(parts[1..]);
    }
  }

  /** The ranges in numbers. */
  predicate Sound(e: FenceEvidence) {
    && IdOk(e.holderNodeId) && IdOk(e.redisNodeId) && HexDigest(e.grantDigest) && HexDigest(e.redisClaimDigest)
    && 1 <= e.grantSeq <= 1_099_511_627_776 && 1 <= e.redisEpoch <= 1_099_511_627_776
    && e.witnessFrom <= 1_099_511_627_776 && 1 <= e.witnessTo <= 1_099_511_627_776
    && e.maxExpiryMs <= 8_640_000_000_000_000 && e.controlNowMs <= 8_640_000_000_000_000
    && e.redisExpiresMs <= 8_640_000_000_000_000 && e.safetyMarginMs <= 3_600_000
  }

  predicate TextsAt(f: seq<Js>, e: FenceEvidence)
    requires |f| == 14
  {
    && AsciiString(f[0]) == Some("tsk_ha_evidence/v1") && AsciiString(f[1]) == Some(e.holderNodeId)
    && AsciiString(f[3]) == Some(e.grantDigest) && AsciiString(f[7]) == Some(e.redisNodeId)
    && AsciiString(f[10]) == Some(e.redisClaimDigest) && AsciiString(f[13]) == Some("lease-expiry-control-clock")
  }

  predicate NumbersAt(f: seq<Js>, e: FenceEvidence)
    requires |f| == 14
  {
    && ReadInteger(f[2]) == Some(e.grantSeq) && ReadInteger(f[4]) == Some(e.maxExpiryMs)
    && ReadInteger(f[5]) == Some(e.controlNowMs) && ReadInteger(f[6]) == Some(e.safetyMarginMs)
    && ReadInteger(f[8]) == Some(e.redisEpoch) && ReadInteger(f[9]) == Some(e.redisExpiresMs)
    && ReadInteger(f[11]) == Some(e.witnessFrom) && ReadInteger(f[12]) == Some(e.witnessTo)
  }

  /** The column, decoded from base64url and unframed: fourteen texts, each in its place. */
  lemma EvidenceLayout(e: FenceEvidence)
    requires Sound(e)
    ensures EncodeEvidence(e).Some?
    ensures var f := Unframe(Decoded, B64Decode(EncodeEvidence(e).value));
            f.Some? && |f.value| == 14 && TextsAt(f.value, e) && NumbersAt(f.value, e)
  {
    FieldsReadable(e);
    var fields := Fields(e);
    assert AllFit(fields);
    B64Inverse(Frame(fields));
    DecoderReads();
    UnframeInverse(Decoded, fields);
    StringsAt(fields);
    TextsRead(e, Strings(fields));
    NumbersRead(e, Strings(fields));
  }

  lemma TextsRead(e: FenceEvidence, f: seq<Js>)
    requires Sound(e) && |f| == 14 && forall i | 0 <= i < 14 :: f[i] == Fields(e)[i].value
    ensures TextsAt(f, e)
  {
    LiteralRead(LAYOUT);
    LiteralRead(PROOF_MODE);
    IdReads(e.holderNodeId);
    IdReads(e.redisNodeId);
    DigestReads(e.grantDigest);
    DigestReads(e.redisClaimDigest);
  }

  lemma LiteralRead(s: string)
    requires forall i | 0 <= i < |s| :: s[i] < 128 as char
    ensures AsciiString(A(s)) == Some(s)
  {
    var t := AsciiString(A(s)).value;
    assert t == s;
  }

  lemma NumbersRead(e: FenceEvidence, f: seq<Js>)
    requires |f| == 14 && forall i | 0 <= i < 14 :: f[i] == Fields(e)[i].value
    ensures NumbersAt(f, e)
  {
    DecimalInverse(e.grantSeq);
    DecimalInverse(e.maxExpiryMs);
    DecimalInverse(e.controlNowMs);
    DecimalInverse(e.safetyMarginMs);
    DecimalInverse(e.redisEpoch);
    DecimalInverse(e.redisExpiresMs);
    DecimalInverse(e.witnessFrom);
    DecimalInverse(e.witnessTo);
  }

  /** A host that reads UTF-8 and decimal numerals is such a host. */
  lemma HostExists()
    ensures HostOk(Host(Decoded, ReadInteger))
  {
    DecoderReads();
    forall n: nat | n < 0x20_0000_0000_0000
      ensures ReadInteger(Decimal(n)) == Some(n)
    {
      DecimalInverse(n);
    }
  }

  /** decodeEvidence inverts encodeEvidence exactly on the records in range. */
  lemma EvidenceRoundTrip(h: Host, e: FenceEvidence)
    requires HostOk(h)
    ensures Sound(e) <==>
            EncodeEvidence(e).Some? && DecodeEvidence(h, EncodeEvidence(e).value) == Ok(e)
  {
    if InRange(e) {
      FieldsReadable(e);
      var fields := Fields(e);
      assert AllFit(fields);
      var bytes := Frame(fields);
      B64Inverse(bytes);
      UnframeInverse(h.text, fields);
      StringsAt(fields);
      FieldsRead(h, e, Strings(fields));
    }
  }

  lemma FieldsRead(h: Host, e: FenceEvidence, f: seq<Js>)
    requires HostOk(h) && InRange(e) && |f| == 14
    requires forall i | 0 <= i < 14 :: f[i] == Fields(e)[i].value
    ensures ReadFields(h, f) == Ok(e)
  {
    IdReads(e.holderNodeId);
    IdReads(e.redisNodeId);
    DigestReads(e.grantDigest);
    DigestReads(e.redisClaimDigest);
    assert ReadInt(h, f[2], 1, MAX_SEQ) == Ok(e.grantSeq);
    assert ReadInt(h, f[4], 0, MAX_MS) == Ok(e.maxExpiryMs);
    assert ReadInt(h, f[5], 0, MAX_MS) == Ok(e.controlNowMs);
    assert ReadInt(h, f[6], 0, MAX_SAFETY_MARGIN_MS) == Ok(e.safetyMarginMs);
    assert ReadInt(h, f[8], 1, MAX_EPOCH) == Ok(e.redisEpoch);
    assert ReadInt(h, f[9], 0, MAX_MS) == Ok(e.redisExpiresMs);
    assert ReadInt(h, f[11], 0, MAX_EPOCH) == Ok(e.witnessFrom);
    assert ReadInt(h, f[12], 1, MAX_EPOCH) == Ok(e.witnessTo);
  }
}
