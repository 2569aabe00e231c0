/** Tagged length-prefixed framing of optional strings, and plain length-prefixed framing:
    what a framed byte string determines. */
module Framing {
  import opened Wrappers
  import opened JsText

  predicate Fits(p: Option<Js>) { p.Some? ==> |Utf8(p.value)| < U32_CEIL }
  predicate AllFit(parts: seq<Option<Js>>) { forall i | 0 <= i < |parts| :: Fits(parts[i]) }

  /** [0] for null, otherwise [1], the byte length, the bytes. */
  function FrameField(p: Option<Js>): (b: seq<Byte>)
    requires Fits(p)
    ensures |b| > 0
  {
    match p
    case None => [0]
    case Some(s) => [1] + U32(|Utf8(s)|) + Utf8(s)
  }

  /** Null is one zero byte; a string is a one, its length in four bytes, most significant first,
      and its UTF-8. */
  lemma FrameFieldLayout(p: Option<Js>)
    requires Fits(p)
    ensures p.None? ==> FrameField(p) == [0]
    ensures p.Some? ==>
              var f := FrameField(p);
              var l0: int, l1: int, l2: int, l3: int := f[1], f[2], f[3], f[4];
              && f[0] == 1 && |f| - 5 == l0 * 0x100_0000 + l1 * 0x1_0000 + l2 * 0x100 + l3
              && (WellFormed(p.value) ==> ReadUtf8(f[5..]) == Some(p.value))
  {
    if p.Some? {
      var u, f := Utf8(p.value), FrameField(p);
      U32Weights(|u|);
      assert f[1..5] == U32(|u|) && f[5..] == u;
      assert f[1] == f[1..5][0] && f[2] == f[1..5][1] && f[3] == f[1..5][2] && f[4] == f[1..5][3];
      if WellFormed(p.value) {
        Utf8Inverse(p.value);
      }
    }
  }

  function Frame(parts: seq<Option<Js>>): seq<Byte>
    requires AllFit(parts)
  {
    if |parts| == 0 then [] else FrameField(parts[0]) + Frame(parts[1..])
  }

  lemma {:induction false} FrameSnoc(parts: seq<Option<Js>>, p: Option<Js>)
    requires AllFit(parts) && AllFit(parts + [p]) && Fits(p)
    ensures Frame(parts + [p]) == Frame(parts) + FrameField(p)
  {
    var all := parts + [p];
    if |parts| == 0 {
      assert all[1..] == [];
      assert Frame(all) == FrameField(p) + [];
    } else {
      assert all[1..] == parts[1..] + [p];
      FrameSnoc(parts[1..], p);
      Regroup(FrameField(parts[0]), Frame(parts[1..]), FrameField(p));
    }
  }

  lemma Regroup(x: seq<Byte>, y: seq<Byte>, z: seq<Byte>)
    ensures x + (y + z) == x + y + z
  {
  }

  /** frame(...parts); None where writeUInt32BE throws. */
  method FrameFields(parts: seq<Option<Js>>) returns (r: Option<seq<Byte>>)
    ensures r == if AllFit(parts) then Some(Frame(parts)) else None
  {
    var out: seq<Byte> := [];
    for i := 0 to |parts|
      invariant AllFit(parts[..i]) && out == Frame(parts[..i])
    {
      assert parts[..i + 1] == parts[..i] + [parts[i]];
      match parts[i] {
        case None => out := out + [0];
        case Some(s) =>
          var b := Utf8(s);
          if |b| >= U32_CEIL {
            assert !Fits(parts[i]);
            return None;
          }
          out := out + ([1] + U32(|b|) + b);
      }
      FrameSnoc(parts[..i], parts[i]);
      assert AllFit(parts[..i + 1]);
    }
    assert parts[..|parts|] == parts;
    return Some(out);
  }

  // ── what the bytes determine ──

  function ScrubField(p: Option<Js>): Option<Js> {
    if p.None? then None else Some(Scrub(p.value))
  }

  /** Equal fields up to lone surrogates. */
  predicate SameFields(a: seq<Option<Js>>, b: seq<Option<Js>>) {
    |a| == |b| && forall i | 0 <= i < |a| :: ScrubField(a[i]) == ScrubField(b[i])
  }

  lemma BlockSplit(x: seq<Byte>, y: seq<Byte>, p: seq<Byte>, q: seq<Byte>)
    requires |x| < U32_CEIL && |y| < U32_CEIL
    requires U32(|x|) + x + p == U32(|y|) + y + q
    ensures x == y && p == q
  {
    var s, t := U32(|x|) + x + p, U32(|y|) + y + q;
    assert s[..4] == U32(|x|) && t[..4] == U32(|y|);
    U32Inverse(|x|);
    U32Inverse(|y|);
    assert s[4..4 + |x|] == x && t[4..4 + |y|] == y;
    assert s[4 + |x|..] == p && t[4 + |y|..] == q;
  }

  lemma TaggedSplit(tag: Byte, u: seq<Byte>, v: seq<Byte>, x: seq<Byte>, y: seq<Byte>)
    requires |u| < U32_CEIL && |v| < U32_CEIL
    requires [tag] + U32(|u|) + u + x == [tag] + U32(|v|) + v + y
    ensures u == v && x == y
  {
    var s, t := [tag] + U32(|u|) + u + x, [tag] + U32(|v|) + v + y;
    assert s[1..] == U32(|u|) + u + x && t[1..] == U32(|v|) + v + y;
    BlockSplit(u, v, x, y);
  }

  lemma FieldSplit(a: Option<Js>, b: Option<Js>, x: seq<Byte>, y: seq<Byte>)
    requires Fits(a) && Fits(b) && FrameField(a) + x == FrameField(b) + y
    ensures ScrubField(a) == ScrubField(b) && x == y
  {
    assert FrameField(a)[0] == (FrameField(a) + x)[0] == (FrameField(b) + y)[0] == FrameField(b)[0];
    if a.None? {
      assert x == ([0] + x)[1..] && y == ([0] + y)[1..];
    } else {
      TaggedSplit(1, Utf8(a.value), Utf8(b.value), x, y);
      Utf8SameIff(a.value, b.value);
    }
  }

  /** Two field lists frame to the same bytes exactly when they agree, null for null, up to
      lone surrogates; so null, "" and shifted fields never coincide. */
  lemma {:induction false} FrameSameIff(a: seq<Option<Js>>, b: seq<Option<Js>>)
    requires AllFit(a) && AllFit(b)
    ensures Frame(a) == Frame(b) <==> SameFields(a, b)
  {
    if |a| > 0 && |b| > 0 {
      FrameSameIff(a[1..], b[1..]);
      SameFieldsCons(a, b);
      if Frame(a) == Frame(b) {
        FieldSplit(a[0], b[0], Frame(a[1..]), Frame(b[1..]));
      } else if a[0].Some? && b[0].Some? {
        Utf8SameIff(a[0].value, b[0].value);
      }
    }
  }

  lemma SameFieldsCons(a: seq<Option<Js>>, b: seq<Option<Js>>)
    requires |a| > 0 && |b| > 0
    ensures SameFields(a, b) <==> ScrubField(a[0]) == ScrubField(b[0]) && SameFields(a[1..], b[1..])
  {
    if ScrubField(a[0]) == ScrubField(b[0]) && SameFields(a[1..], b[1..]) {
      forall i | 0 <= i < |a|
        ensures ScrubField(a[i]) == ScrubField(b[i])
      {
        if i > 0 {
          assert a[1..][i - 1] == a[i] && b[1..][i - 1] == b[i];
        }
      }
    }
  }

  predicate AllWellFormed(parts: seq<Option<Js>>) {
    forall i | 0 <= i < |parts| :: parts[i].Some? ==> WellFormed(parts[i].value)
  }

  /** On well-formed strings the framing is injective. */
  lemma FrameInjective(a: seq<Option<Js>>, b: seq<Option<Js>>)
    requires AllFit(a) && AllFit(b) && AllWellFormed(a) && AllWellFormed(b)
    requires Frame(a) == Frame(b)
    ensures a == b
  {
    FrameSameIff(a, b);
    forall i | 0 <= i < |a|
      ensures a[i] == b[i]
    {
      if a[i].Some? {
        ScrubKeepsBytes(a[i].value);
        ScrubKeepsBytes(b[i].value);
      }
    }
  }

  // ── reading a frame back ──

  /** unframe over a decoder of UTF-8 bytes; a null field reads as the empty string. */
  function Unframe(text: seq<Byte> -> Js, buf: seq<Byte>): Option<seq<Js>> {
    if |buf| == 0 then Some([])
    else if buf[0] == 0 then Prepend([], Unframe(text, buf[1..]))
    else if buf[0] != 1 || |buf| < 5 then None
    else
      var n := FromU32(buf[1..5]);
      if 5 + n > |buf| then None else Prepend(text(buf[5..5 + n]), Unframe(text, buf[5 + n..]))
  }

  function Prepend(s: Js, rest: Option<seq<Js>>): Option<seq<Js>> {
    if rest.None? then None else Some([s] + rest.value)
  }

  function Onto(out: seq<Js>, rest: Option<seq<Js>>): Option<seq<Js>> {
    if rest.None? then None else Some(out + rest.value)
  }

  lemma OntoPrepend(out: seq<Js>, s: Js, rest: Option<seq<Js>>)
    ensures Onto(out, Prepend(s, rest)) == Onto(out + [s], rest)
  {
    if rest.Some? {
      assert out + ([s] + rest.value) == out + [s] + rest.value;
    }
  }

  lemma UnframeNull(text: seq<Byte> -> Js, buf: seq<Byte>, i: nat)
    requires i < |buf| && buf[i] == 0
    ensures Unframe(text, buf[i..]) == Prepend([], Unframe(text, buf[i + 1..]))
  {
    assert buf[i..][1..] == buf[i + 1..];
  }

  lemma UnframeStep(text: seq<Byte> -> Js, buf: seq<Byte>, i: nat, n: nat)
    requires i + 5 + n <= |buf| && buf[i] == 1 && n == FromU32(buf[i + 1..i + 5])
    ensures Unframe(text, buf[i..]) == Prepend(text(buf[i + 5..i + 5 + n]), Unframe(text, buf[i + 5 + n..]))
  {
    var rest := buf[i..];
    assert rest[1..5] == buf[i + 1..i + 5];
    assert rest[5..5 + n] == buf[i + 5..i + 5 + n];
    assert rest[5 + n..] == buf[i + 5 + n..];
  }

  lemma UnframeStuck(text: seq<Byte> -> Js, buf: seq<Byte>, i: nat)
    requires i < |buf| && buf[i] != 0
    requires buf[i] != 1 || i + 5 > |buf| || i + 5 + FromU32(buf[i + 1..i + 5]) > |buf|
    ensures Unframe(text, buf[i..]) == None
  {
    var rest := buf[i..];
    if i + 5 <= |buf| {
      assert rest[1..5] == buf[i + 1..i + 5];
    }
  }

  method UnframeFields(text: seq<Byte> -> Js, buf: seq<Byte>) returns (r: Option<seq<Js>>)
    ensures r == Unframe(text, buf)
  {
    var out: seq<Js> := [];
    var i := 0;
    assert buf[0..] == buf;
    assert forall rest: seq<Js> :: [] + rest == rest;
    while i < |buf|
      invariant 0 <= i <= |buf|
      invariant Unframe(text, buf) == Onto(out, Unframe(text, buf[i..]))
    {
      var tag := buf[i];
      if tag == 0 {
        UnframeNull(text, buf, i);
        OntoPrepend(out, [], Unframe(text, buf[i + 1..]));
        out := out + [[]];
        i := i + 1;
      } else if tag != 1 || i + 5 > |buf| || i + 5 + FromU32(buf[i + 1..i + 5]) > |buf| {
        UnframeStuck(text, buf, i);
        return None;
      } else {
        var n := FromU32(buf[i + 1..i + 5]);
        var field := text(buf[i + 5..i + 5 + n]);
        UnframeStep(text, buf, i, n);
        OntoPrepend(out, field, Unframe(text, buf[i + 5 + n..]));
        out := out + [field];
        i := i + 5 + n;
      }
    }
    assert out + [] == out;
    return Some(out);
  }

  /** The decoder gives a well-formed string back from its bytes. */
  ghost predicate Reads(text: seq<Byte> -> Js) {
    forall s :: WellFormed(s) ==> text(Utf8(s)) == s
  }

  function Decoded(b: seq<Byte>): Js { if ReadUtf8(b).Some? then ReadUtf8(b).value else [] }

  /** A UTF-8 decoder is such a function. */
  lemma DecoderReads()
    ensures Reads(Decoded)
  {
    forall s | WellFormed(s)
      ensures Decoded(Utf8(s)) == s
    {
      Utf8Inverse(s);
    }
  }

  function Strings(parts: seq<Option<Js>>): seq<Js> {
    if |parts| == 0 then []
    else [if parts[0].None? then [] else parts[0].value] + Strings(parts[1..])
  }

  /** Reading back what was framed gives every field. */
  lemma {:induction false} UnframeInverse(text: seq<Byte> -> Js, parts: seq<Option<Js>>)
    requires Reads(text) && AllFit(parts) && AllWellFormed(parts)
    ensures Unframe(text, Frame(parts)) == Some(Strings(parts))
  {
    if |parts| > 0 {
      UnframeInverse(text, parts[1..]);
      var buf, rest := Frame(parts), Frame(parts[1..]);
      match parts[0] {
        case None =>
          assert buf[1..] == rest;
        case Some(s) =>
          var u := Utf8(s);
          U32Inverse(|u|);
          assert buf[1..5] == U32(|u|);
          assert buf[5..5 + |u|] == u && buf[5 + |u|..] == rest;
          assert text(u) == s;
      }
    }
  }

  // ── untagged framing of required fields ──

  predicate Framable(s: Js) { WellFormed(s) && |Utf8(s)| < U32_CEIL }
  predicate AllFramable(fields: seq<Js>) { forall i | 0 <= i < |fields| :: Framable(fields[i]) }

  function Blocks(fields: seq<Js>): seq<Byte>
    requires AllFramable(fields)
  {
    if |fields| == 0 then []
    else
      assert Framable(fields[0]);
      U32(|Utf8(fields[0])|) + Utf8(fields[0]) + Blocks(fields[1..])
  }

  /** Fields read back from their length prefixes; None where a length or a text is wrong. */
  function Unblock(b: seq<Byte>): Option<seq<Js>> {
    if |b| == 0 then Some([])
    else if |b| < 4 then None
    else
      var n := FromU32(b[..4]);
      if 4 + n > |b| || ReadUtf8(b[4..4 + n]).None? then None
      else Prepend(ReadUtf8(b[4..4 + n]).value, Unblock(b[4 + n..]))
  }

  /** Reading back what was framed gives every field, in order. */
  lemma {:induction false} BlocksInverse(fields: seq<Js>)
    requires AllFramable(fields)
    ensures Unblock(Blocks(fields)) == Some(fields)
  {
    if |fields| > 0 {
      assert Framable(fields[0]);
      var u, rest, b := Utf8(fields[0]), Blocks(fields[1..]), Blocks(fields);
      U32Inverse(|u|);
      Utf8Inverse(fields[0]);
      assert b[..4] == U32(|u|) && b[4..4 + |u|] == u && b[4 + |u|..] == rest;
      BlocksInverse(fields[1..]);
      assert fields == [fields[0]] + fields[1..];
    }
  }

  /** Length prefixes alone keep well-formed field lists apart. */
  lemma BlocksInjective(a: seq<Js>, b: seq<Js>)
    requires AllFramable(a) && AllFramable(b) && Blocks(a) == Blocks(b)
    ensures a == b
  {
    BlocksInverse(a);
    BlocksInverse(b);
  }

  lemma AsciiFramable(s: Js)
    requires (forall i | 0 <= i < |s| :: s[i] < 0x80) && |s| < U32_CEIL
    ensures Framable(s)
  {
    AsciiWellFormed(s);
    Utf8Ascii(s);
  }

  /** Each field fed to the hash as its byte length and its bytes. */
  method Message(fields: seq<Js>) returns (out: seq<Byte>)
    requires AllFramable(fields)
    ensures out == Blocks(fields)
  {
    out := [];
    assert fields[0..] == fields;
    for i := 0 to |fields|
      invariant out + Blocks(fields[i..]) == Blocks(fields)
    {
      assert Framable(fields[i]);
      var b := Utf8(fields[i]);
      assert fields[i..][1..] == fields[i + 1..];
      Regroup(out, U32(|b|) + b, Blocks(fields[i + 1..]));
      out := out + (U32(|b|) + b);
    }
    assert out + [] == out;
  }
}
