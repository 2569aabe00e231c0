/** The bytes under opDigest and the stream head digest, and what equal bytes mean. */
module OpDigest {
  import opened Wrappers
  import opened JsText
  import opened Framing
  import opened CanonicalJson
  import opened CanonicalWriter

  // ── canonical text is well-formed, and the walk counts its bytes ──

  lemma {:induction false} EscWellFormed(s: Js)
    requires WellFormed(s)
    ensures WellFormed(Esc(s))
  {
    if |s| > 0 {
      var n := Width(s);
      assert s == s[..n] + s[n..];
      EscConcat(s[..n], s[n..]);
      EscWellFormed(s[n..]);
      if n == 2 {
        EscPair(s[..2]);
        assert s[..2][2..] == [];
      } else {
        assert s[..1] == [s[0]];
        EscOne(s[0]);
        assert !High(s[0]) && !Low(s[0]);
        EscUnitWellFormed(s[0]);
      }
      WellFormedConcat(Esc(s[..n]), Esc(s[n..]));
    }
  }

  lemma EscUnitWellFormed(u: Unit)
    requires !High(u) && !Low(u)
    ensures WellFormed(EscUnit(u))
  {
    if |EscUnit(u)| > 1 {
      AsciiWellFormed(EscUnit(u));
    }
  }

  /** A text with both properties at once, so that they compose. */
  predicate Counted(t: Js, bytes: nat) { WellFormed(t) && ByteLen(t) == bytes }

  lemma CountedConcat(s: Js, m: nat, t: Js, n: nat)
    requires Counted(s, m) && Counted(t, n)
    ensures Counted(s + t, m + n)
  {
    WellFormedConcat(s, t);
    Utf8Concat(s, t);
  }

  lemma CountedUnit(u: Unit)
    requires u < 0x80
    ensures Counted([u], 1)
  {
    AsciiWellFormed([u]);
    Utf8Ascii([u]);
  }

  lemma QuoteWellFormed(s: Js)
    requires WellFormed(s)
    ensures WellFormed(Quote(s))
  {
    EscWellFormed(s);
    CountedUnit(34);
    WellFormedConcat([34], Esc(s));
    WellFormedConcat([34] + Esc(s), [34]);
  }

  lemma LiteralCounted(v: Json)
    requires v.JNull? || v.JBool? || v.JNum?
    ensures WellFormed(Text(v))
  {
    AsciiWellFormed(Text(v));
  }

  lemma CommaCounted(i: nat)
    ensures Counted(Comma(i), CommaCost(i).bytes)
  {
    CountedUnit(44);
  }

  /** An accepted value's text is well-formed and as long as the walk counted. */
  lemma {:induction false} TextCounted(v: Json, depth: nat)
    requires Accepted(v, depth)
    ensures Counted(Text(v), CostOf(v).bytes)
    decreases v, 1, 0
  {
    match v
    case JStr(s) => QuoteWellFormed(s);
    case JArr(_) =>
      CountedUnit(91);
      ArrCounted(v, 0, depth + 1);
      CountedConcat([91], 1, ArrText(v, 0), ArrCost(v, 0).bytes);
    case JObj(fields) =>
      var ks := SortedKeys(fields.Keys);
      CountedUnit(123);
      ObjCounted(v, ks, 0, depth + 1);
      CountedConcat([123], 1, ObjText(v, ks, 0), ObjCost(v, ks, 0).bytes);
    case _ => LiteralCounted(v);
  }

  lemma {:induction false} ArrCounted(v: Json, i: nat, depth: nat)
    requires v.JArr? && i <= |v.items| && ItemsOk(v, |v.items|, depth)
    ensures Counted(ArrText(v, i), ArrCost(v, i).bytes)
    decreases v, 0, |v.items| - i
  {
    if i == |v.items| {
      CountedUnit(93);
    } else {
      var a := v.items[i];
      TextCounted(a, depth);
      ArrCounted(v, i + 1, depth);
      CountedConcat(Text(a), CostOf(a).bytes, ArrText(v, i + 1), ArrCost(v, i + 1).bytes);
      CommaCounted(i);
      CountedConcat(Comma(i), CommaCost(i).bytes, Text(a) + ArrText(v, i + 1), CostOf(a).bytes + ArrCost(v, i + 1).bytes);
    }
  }

  lemma {:induction false} ObjCounted(v: Json, ks: seq<Js>, i: nat, depth: nat)
    requires v.JObj? && i <= |ks| && (forall k | k in ks :: k in v.fields) && FieldsOk(v, depth)
    ensures Counted(ObjText(v, ks, i), ObjCost(v, ks, i).bytes)
    decreases v, 0, |ks| - i
  {
    if i == |ks| {
      CountedUnit(125);
    } else {
      assert ks[i] in v.fields;
      var a := v.fields[ks[i]];
      TextCounted(a, depth);
      ObjCounted(v, ks, i + 1, depth);
      FieldCounted(ks[i], Text(a), CostOf(a).bytes, ObjText(v, ks, i + 1), ObjCost(v, ks, i + 1).bytes, i);
    }
  }

  lemma FieldCounted(k: Js, text: Js, m: nat, rest: Js, n: nat, i: nat)
    requires WellFormed(k) && Counted(text, m) && Counted(rest, n)
    ensures Counted(Comma(i) + (Quote(k) + ([58] + (text + rest))), CommaCost(i).bytes + ByteLen(Quote(k) + [58]) + m + n)
  {
    var key := Quote(k) + [58];
    QuoteWellFormed(k);
    CountedUnit(58);
    WellFormedConcat(Quote(k), [58]);
    CountedConcat(text, m, rest, n);
    CountedConcat(key, ByteLen(key), text + rest, m + n);
    Assoc(Quote(k), [58], text + rest);
    CommaCounted(i);
    CountedConcat(Comma(i), CommaCost(i).bytes, key + (text + rest), ByteLen(key) + (m + n));
  }

  /** Canonicalization succeeds exactly when every part is in order, none is more than 64
      levels down, and the whole is at most 10 000 values and 1 048 576 bytes. */
  lemma CanonicalizableIff(v: Json)
    ensures Canonicalizable(v) <==>
            PartsOk(v, 0) && CostOf(v).nodes <= 10_000 && |Utf8(Text(v))| <= 1_048_576
  {
    AcceptedIff(v, 0);
    if Accepted(v, 0) {
      TextCounted(v, 0);
    }
  }

  // ── opDigest ──

  predicate IdChar(u: Unit) {
    65 <= u <= 90 || 97 <= u <= 122 || 48 <= u <= 57 || u == 58 || u == 46 || u == 95 || u == 47 || u == 45
  }

  /** ID_PATTERN. */
  predicate IdOk(s: Js) {
    && 1 <= |s| <= 128 && (forall i | 0 <= i < |s| :: IdChar(s[i]))
    && s[0] != 58 && s[0] != 46 && s[0] != 95 && s[0] != 47 && s[0] != 45
  }

  /** FENCE_TOKEN_PATTERN. */
  predicate FenceOk(s: Js) {
    1 <= |s| <= 39 && (forall i | 0 <= i < |s| :: IsDigit(s[i])) && (s[0] == 48 ==> |s| == 1)
  }

  datatype OpInput = OpInput(streamId: Js, sourceEpoch: Js, sequence: int, fenceToken: Js, mutation: Json)

  predicate InputOk(o: OpInput) {
    && IdOk(o.streamId) && IdOk(o.sourceEpoch) && 1 <= o.sequence <= MAX_SAFE
    && FenceOk(o.fenceToken) && Canonicalizable(o.mutation)
  }

  function Domain(): (s: Js)
    ensures |s| == 24 && Framable(s)
  {
    var s := A("selfconnect/ha-outbox/v1");
    AsciiFramable(s);
    s
  }

  /** The contract version. */
  function Version(): (s: Js)
    ensures Framable(s)
  {
    AsciiFramable([49]);
    [49]
  }

  function OpFields(o: OpInput): (f: seq<Js>)
    ensures |f| == 7
  {
    [Domain(), Version(), o.streamId, o.sourceEpoch, Decimal(o.sequence), o.fenceToken, Text(o.mutation)]
  }

  lemma SequenceFramable(n: int)
    requires 0 <= n <= MAX_SAFE
    ensures Framable(Decimal(n))
  {
    SafeDigits(n);
    AsciiFramable(Decimal(n));
  }

  lemma MutationFramable(v: Json)
    requires Canonicalizable(v)
    ensures Framable(Text(v))
  {
    TextCounted(v, 0);
  }

  lemma OpFramable(o: OpInput)
    requires InputOk(o)
    ensures AllFramable(OpFields(o))
  {
    AsciiFramable(o.streamId);
    AsciiFramable(o.sourceEpoch);
    SequenceFramable(o.sequence);
    AsciiFramable(o.fenceToken);
    MutationFramable(o.mutation);
  }

  /** The bytes fed to the hash. */
  function OpBytes(o: OpInput): seq<Byte>
    requires InputOk(o)
  {
    OpFramable(o);
    Blocks(OpFields(o))
  }

  /** canonicalOpDigest up to the hash; None where it throws. */
  method OpMessage(o: OpInput) returns (r: Option<seq<Byte>>)
    ensures r == if InputOk(o) then Some(OpBytes(o)) else None
  {
    if !IdOk(o.streamId) || !IdOk(o.sourceEpoch) || !(1 <= o.sequence <= MAX_SAFE) || !FenceOk(o.fenceToken) {
      return None;
    }
    var text := Canonicalize(o.mutation);
    if text.None? {
      return None;
    }
    OpFramable(o);
    var fields := [Domain(), Version(), o.streamId, o.sourceEpoch, Decimal(o.sequence), o.fenceToken, text.value];
    assert fields == OpFields(o);
    var out := Message(fields);
    return Some(out);
  }

  /** The operation a byte string stands for: seven length-prefixed fields in their order. */
  function ReadOp(b: seq<Byte>): Option<OpInput> {
    var f := Unblock(b);
    if f.None? || |f.value| != 7 || f.value[0] != A("selfconnect/ha-outbox/v1") || f.value[1] != A("1") then None
    else
      var n, v := ReadInteger(f.value[4]), Parse(f.value[6]);
      if n.None? || v.None? then None
      else Some(OpInput(f.value[2], f.value[3], n.value, f.value[5], v.value))
  }

  /** Every opDigest input reads back as its operation. */
  lemma OpBytesRead(o: OpInput)
    requires InputOk(o)
    ensures ReadOp(OpBytes(o)) == Some(o)
  {
    OpFramable(o);
    BlocksInverse(OpFields(o));
    DecimalInverse(o.sequence);
    AcceptedClean(o.mutation, 0);
    ParseInverse(o.mutation);
    VersionText();
  }

  lemma VersionText()
    ensures Version() == A("1")
  {
  }

  /** Equal opDigest inputs are the same stream, epoch, sequence, fence token and mutation. */
  lemma OpBytesInjective(o: OpInput, p: OpInput)
    requires InputOk(o) && InputOk(p) && OpBytes(o) == OpBytes(p)
    ensures o == p
  {
    OpBytesRead(o);
    OpBytesRead(p);
  }

  /** So under a collision-free hash an opDigest names one operation. */
  lemma OpDigestPins(sha: seq<Byte> -> string, o: OpInput, p: OpInput)
    requires forall a, b :: sha(a) == sha(b) ==> a == b
    requires InputOk(o) && InputOk(p) && sha(OpBytes(o)) == sha(OpBytes(p))
    ensures o == p
  {
    OpBytesInjective(o, p);
  }

  // ── the stream head ──

  datatype HeadInput = HeadInput(streamId: Js, sequence: int, prevHead: Js, opDigest: Js, keyId: Js, alg: Js)

  predicate HexOk(s: Js) { |s| == 64 && forall i | 0 <= i < 64 :: IsDigit(s[i]) || 97 <= s[i] <= 102 }

  predicate HeadInputOk(h: HeadInput) {
    && IdOk(h.streamId) && 1 <= h.sequence <= MAX_SAFE && HexOk(h.prevHead) && HexOk(h.opDigest)
    && IdOk(h.keyId) && (h.alg == A("ed25519") || h.alg == A("ecdsa-p256-sha256"))
  }

  function HeadDomain(): (s: Js)
    ensures |s| == 40 && Framable(s)
  {
    var s := A("selfconnect/ha-outbox/v1/tsk-stream-head");
    AsciiFramable(s);
    s
  }

  function HeadFields(h: HeadInput): (f: seq<Js>)
    ensures |f| == 8
  {
    [HeadDomain(), Version(), h.streamId, Decimal(h.sequence),
     h.prevHead, h.opDigest, h.keyId, h.alg]
  }

  lemma HeadFramable(h: HeadInput)
    requires HeadInputOk(h)
    ensures AllFramable(HeadFields(h))
  {
    AsciiFramable(h.streamId);
    SequenceFramable(h.sequence);
    AsciiFramable(h.prevHead);
    AsciiFramable(h.opDigest);
    AsciiFramable(h.keyId);
    AsciiFramable(h.alg);
  }

  function HeadBytes(h: HeadInput): seq<Byte>
    requires HeadInputOk(h)
  {
    HeadFramable(h);
    Blocks(HeadFields(h))
  }

  /** The head a byte string stands for: eight length-prefixed fields in their order. */
  function ReadHead(b: seq<Byte>): Option<HeadInput> {
    var f := Unblock(b);
    if f.None? || |f.value| != 8 || f.value[0] != A("selfconnect/ha-outbox/v1/tsk-stream-head") || f.value[1] != A("1")
    then None
    else
      var n := ReadInteger(f.value[3]);
      if n.None? then None
      else Some(HeadInput(f.value[2], n.value, f.value[4], f.value[5], f.value[6], f.value[7]))
  }

  /** Every head digest input reads back as its head. */
  lemma HeadBytesRead(h: HeadInput)
    requires HeadInputOk(h)
    ensures ReadHead(HeadBytes(h)) == Some(h)
  {
    HeadFramable(h);
    BlocksInverse(HeadFields(h));
    DecimalInverse(h.sequence);
    VersionText();
  }

  /** A head digest binds every field of the head. */
  lemma HeadBytesInjective(h: HeadInput, k: HeadInput)
    requires HeadInputOk(h) && HeadInputOk(k) && HeadBytes(h) == HeadBytes(k)
    ensures h == k
  {
    HeadBytesRead(h);
    HeadBytesRead(k);
  }

  /** No head digest input is an opDigest input. */
  lemma DomainsApart(o: OpInput, h: HeadInput)
    requires InputOk(o) && HeadInputOk(h)
    ensures OpBytes(o) != HeadBytes(h)
  {
    OpFramable(o);
    HeadFramable(h);
    if OpBytes(o) == HeadBytes(h) {
      BlocksInjective(OpFields(o), HeadFields(h));
    }
  }
}
