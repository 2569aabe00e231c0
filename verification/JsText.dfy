/** JavaScript strings as UTF-16 code units, their UTF-8 bytes, decimal numerals, and what
    each encoding does and does not keep apart. */
module JsText {
  import opened Wrappers

  type Unit = u: nat | u < 0x1_0000
  type Byte = b: nat | b < 256
  type Js = seq<Unit>

  /** An ASCII literal. */
  function A(s: string): (t: Js)
    requires forall i | 0 <= i < |s| :: s[i] < 128 as char
    ensures |t| == |s| && forall i | 0 <= i < |s| :: t[i] == s[i] as int
  {
    seq(|s|, i requires 0 <= i < |s| => s[i] as int)
  }

  predicate High(u: Unit) { 0xD800 <= u < 0xDC00 }
  predicate Low(u: Unit) { 0xDC00 <= u < 0xE000 }
  predicate Pair(s: Js) { |s| >= 2 && High(s[0]) && Low(s[1]) }

  /** No lone surrogate. */
  predicate WellFormed(s: Js) {
    if |s| == 0 then true
    else if Pair(s) then WellFormed(s[2..])
    else !High(s[0]) && !Low(s[0]) && WellFormed(s[1..])
  }

  /** assertNoLoneSurrogate. */
  method NoLoneSurrogate(s: Js) returns (ok: bool)
    ensures ok <==> WellFormed(s)
  {
    var i := 0;
    while i < |s|
      invariant 0 <= i <= |s|
      invariant WellFormed(s) <==> WellFormed(s[i..])
    {
      var c := s[i];
      var rest := s[i..];
      if High(c) {
        if i + 1 >= |s| || !Low(s[i + 1]) {
          return false;
        }
        assert Pair(rest) && rest[2..] == s[i + 2..];
        i := i + 2;
      } else if Low(c) {
        return false;
      } else {
        assert rest[1..] == s[i + 1..];
        i := i + 1;
      }
    }
    return true;
  }

  lemma {:induction false} WellFormedConcat(s: Js, t: Js)
    requires WellFormed(s) && WellFormed(t)
    ensures WellFormed(s + t)
  {
    if |s| == 0 {
      assert s + t == t;
    } else if Pair(s) {
      assert (s + t)[2..] == s[2..] + t;
      WellFormedConcat(s[2..], t);
    } else {
      assert (s + t)[1..] == s[1..] + t;
      WellFormedConcat(s[1..], t);
    }
  }

  lemma {:induction false} AsciiWellFormed(s: Js)
    requires forall i | 0 <= i < |s| :: s[i] < 0xD800
    ensures WellFormed(s)
  {
    if |s| > 0 {
      AsciiWellFormed(s[1..]);
    }
  }

  // ── UTF-8 ──

  function Enc(c: nat): seq<Byte>
    requires c < 0x11_0000
  {
    var c1 := c / 0x40;
    var c2 := c1 / 0x40;
    if c < 0x80 then [c]
    else if c < 0x800 then [0xC0 + c1, 0x80 + c % 0x40]
    else if c < 0x1_0000 then [0xE0 + c2, 0x80 + c1 % 0x40, 0x80 + c % 0x40]
    else [0xF0 + c2 / 0x40, 0x80 + c2 % 0x40, 0x80 + c1 % 0x40, 0x80 + c % 0x40]
  }

  function Scalar(s: Js): (c: nat)
    requires Pair(s)
    ensures 0x1_0000 <= c < 0x11_0000
  {
    var high: int, low: int := s[0], s[1];
    0x1_0000 + (high - 0xD800) * 0x400 + (low - 0xDC00)
  }

  const REPLACEMENT: Unit := 0xFFFD

  /** Buffer.from(s, 'utf8'): a lone surrogate becomes U+FFFD. */
  function Utf8(s: Js): seq<Byte> {
    if |s| == 0 then []
    else if Pair(s) then Enc(Scalar(s)) + Utf8(s[2..])
    else if High(s[0]) || Low(s[0]) then Enc(REPLACEMENT) + Utf8(s[1..])
    else Enc(s[0]) + Utf8(s[1..])
  }

  /** The text those bytes stand for. */
  function Scrub(s: Js): (t: Js) {
    if |s| == 0 then []
    else if Pair(s) then s[..2] + Scrub(s[2..])
    else if High(s[0]) || Low(s[0]) then [REPLACEMENT] + Scrub(s[1..])
    else [s[0]] + Scrub(s[1..])
  }

  lemma {:induction false} ScrubKeepsBytes(s: Js)
    ensures WellFormed(Scrub(s)) && Utf8(Scrub(s)) == Utf8(s)
    ensures WellFormed(s) ==> Scrub(s) == s
  {
    if |s| > 0 {
      var t := Scrub(s);
      if Pair(s) {
        ScrubKeepsBytes(s[2..]);
        assert Pair(t) && t[2..] == Scrub(s[2..]);
        assert s == s[..2] + s[2..];
      } else {
        ScrubKeepsBytes(s[1..]);
        assert t[1..] == Scrub(s[1..]);
        assert s == [s[0]] + s[1..];
      }
    }
  }

  // ── reading UTF-8 ──

  /** How many bytes a first byte announces (RFC 3629 section 3); 0 where it announces none. */
  function Announced(b: Byte): nat {
    if b < 0x80 then 1 else if b < 0xC0 then 0 else if b < 0xE0 then 2 else if b < 0xF0 then 3
    else if b < 0xF8 then 4 else 0
  }

  /** The code point of such a run: a byte after the first carries six bits. */
  function Point(b: seq<Byte>): (c: int)
    requires 1 <= |b| <= 4
  {
    var b0: int := b[0];
    if |b| == 1 then b0
    else
      var b1: int := b[1];
      if |b| == 2 then (b0 - 0xC0) * 0x40 + (b1 - 0x80)
      else
        var b2: int := b[2];
        if |b| == 3 then (b0 - 0xE0) * 0x1000 + (b1 - 0x80) * 0x40 + (b2 - 0x80)
        else
          var b3: int := b[3];
          (b0 - 0xF0) * 0x4_0000 + (b1 - 0x80) * 0x1000 + (b2 - 0x80) * 0x40 + (b3 - 0x80)
  }

  /** The least code point written in n bytes. */
  function Shortest(n: nat): int { if n <= 1 then 0 else if n == 2 then 0x80 else if n == 3 then 0x800 else 0x1_0000 }

  /** The UTF-16 code units of a code point. */
  function UnitsOf(c: int): Option<Js> {
    if 0 <= c < 0xD800 || 0xE000 <= c < 0x1_0000 then Some([c])
    else if 0x1_0000 <= c < 0x11_0000 then Some([0xD800 + (c - 0x1_0000) / 0x400, 0xDC00 + (c - 0x1_0000) % 0x400])
    else None
  }

  /** A UTF-8 decoder; None on bytes that are not the shortest form of a scalar value. */
  function ReadUtf8(b: seq<Byte>): Option<Js> {
    if |b| == 0 then Some([])
    else
      var n := Announced(b[0]);
      if n == 0 || n > |b| || Point(b[..n]) < Shortest(n) then None
      else
        var units, rest := UnitsOf(Point(b[..n])), ReadUtf8(b[n..]);
        if units.None? || rest.None? then None else Some(units.value + rest.value)
  }

  lemma EncRead(c: nat)
    requires c < 0x11_0000
    ensures var e := Enc(c); |e| == Announced(e[0]) && 1 <= |e| <= 4 && Point(e) == c && Shortest(|e|) <= c
  {
  }

  lemma FirstRead(s: Js)
    requires WellFormed(s) && |s| > 0
    ensures UnitsOf(First(s)) == Some(s[..Width(s)]) && WellFormed(s[Width(s)..])
    ensures Utf8(s) == Enc(First(s)) + Utf8(s[Width(s)..])
  {
    if Pair(s) {
      PairRead(s);
    } else {
      assert s[..1] == [s[0]];
    }
  }

  lemma PairRead(s: Js)
    requires Pair(s)
    ensures UnitsOf(Scalar(s)) == Some(s[..2])
  {
    SurrogateSplit(s[0], s[1]);
    assert s[..2] == [s[0], s[1]];
  }

  /** Ten bits of a supplementary code point are in the high surrogate, ten in the low one. */
  lemma SurrogateSplit(high: int, low: int)
    requires 0xD800 <= high < 0xDC00 && 0xDC00 <= low < 0xE000
    ensures var c := (high - 0xD800) * 0x400 + (low - 0xDC00); c / 0x400 == high - 0xD800 && c % 0x400 == low - 0xDC00
  {
  }

  /** Decoding gives every well-formed string back. */
  lemma {:induction false} Utf8Inverse(s: Js)
    requires WellFormed(s)
    ensures ReadUtf8(Utf8(s)) == Some(s)
  {
    if |s| > 0 {
      var e, rest := Enc(First(s)), Utf8(s[Width(s)..]);
      FirstRead(s);
      EncRead(First(s));
      var b := Utf8(s);
      assert b[..|e|] == e && b[|e|..] == rest;
      Utf8Inverse(s[Width(s)..]);
      assert s == s[..Width(s)] + s[Width(s)..];
    }
  }

  /** UTF-8 is injective on well-formed strings. */
  lemma Utf8Injective(s: Js, t: Js)
    requires WellFormed(s) && WellFormed(t) && Utf8(s) == Utf8(t)
    ensures s == t
  {
    Utf8Inverse(s);
    Utf8Inverse(t);
  }

  /** Units and value of a well-formed string's first code point. */
  function Width(s: Js): nat { if Pair(s) then 2 else 1 }

  function First(s: Js): (c: nat)
    requires |s| > 0
    ensures c < 0x11_0000
  {
    if Pair(s) then Scalar(s) else s[0]
  }

  /** Two strings have the same bytes exactly when they agree up to lone surrogates. */
  lemma Utf8SameIff(s: Js, t: Js)
    ensures Utf8(s) == Utf8(t) <==> Scrub(s) == Scrub(t)
  {
    ScrubKeepsBytes(s);
    ScrubKeepsBytes(t);
    if Utf8(s) == Utf8(t) {
      Utf8Injective(Scrub(s), Scrub(t));
    }
  }

  /** Distinct strings that collide: a lone surrogate and the replacement character. */
  lemma LoneSurrogateCollides()
    ensures Utf8([0xD800]) == Utf8([REPLACEMENT])
  {
    assert Scrub([0xD800]) == Scrub([REPLACEMENT]);
    Utf8SameIff([0xD800], [REPLACEMENT]);
  }

  lemma {:induction false} Utf8Concat(s: Js, t: Js)
    requires WellFormed(s)
    ensures Utf8(s + t) == Utf8(s) + Utf8(t)
  {
    if |s| == 0 {
      assert s + t == t;
    } else if Pair(s) {
      assert (s + t)[2..] == s[2..] + t;
      Utf8Concat(s[2..], t);
    } else {
      assert (s + t)[1..] == s[1..] + t;
      Utf8Concat(s[1..], t);
    }
  }

  lemma {:induction false} Utf8Ascii(s: Js)
    requires forall i | 0 <= i < |s| :: s[i] < 0x80
    ensures |Utf8(s)| == |s| && forall i | 0 <= i < |s| :: Utf8(s)[i] == s[i]
  {
    if |s| > 0 {
      Utf8Ascii(s[1..]);
    }
  }

  // ── decimal numerals ──

  predicate IsDigit(u: Unit) { 48 <= u <= 57 }

  function Digits(n: nat): (s: Js)
    ensures |s| > 0 && forall i | 0 <= i < |s| :: IsDigit(s[i])
  {
    if n < 10 then [48 + n] else Digits(n / 10) + [48 + n % 10]
  }

  /** String(n) of an integer. */
  function Decimal(n: int): (s: Js)
    ensures |s| > 0 && forall i | 0 <= i < |s| :: IsDigit(s[i]) || s[i] == 45
  {
    if n < 0 then [45] + Digits(-n) else Digits(n)
  }

  function Pow10(k: nat): nat { if k == 0 then 1 else 10 * Pow10(k - 1) }

  lemma {:induction false} DigitsShort(n: nat, k: nat)
    requires k >= 1 && n < Pow10(k)
    ensures |Digits(n)| <= k
  {
    if n >= 10 {
      assert k >= 2;
      DigitsShort(n / 10, k - 1);
    }
  }

  /** A safe integer has at most sixteen digits. */
  lemma SafeDigits(n: nat)
    requires n < 10_000_000_000_000_000
    ensures |Digits(n)| <= 16
  {
    assert Pow10(4) == 10_000 && Pow10(8) == 10_000 * Pow10(4);
    assert Pow10(12) == 10_000 * Pow10(8) && Pow10(16) == 10_000 * Pow10(12);
    DigitsShort(n, 16);
  }

  predicate AllDigits(s: Js) { forall i | 0 <= i < |s| :: IsDigit(s[i]) }

  /** The value of a digit string: each digit times its power of ten. */
  function Numeral(s: Js): nat
    requires AllDigits(s)
  {
    if |s| == 0 then 0 else (s[0] - 48) * Pow10(|s| - 1) + Numeral(s[1..])
  }

  lemma {:induction false} NumeralSnoc(s: Js, d: Unit)
    requires AllDigits(s) && IsDigit(d)
    ensures AllDigits(s + [d]) && Numeral(s + [d]) == 10 * Numeral(s) + (d - 48)
  {
    var t := s + [d];
    if |s| > 0 {
      assert t[1..] == s[1..] + [d];
      NumeralSnoc(s[1..], d);
      Tenfold(s[0] - 48, Pow10(|s| - 1));
    }
  }

  lemma Tenfold(d: int, p: int)
    ensures d * (10 * p) == 10 * (d * p)
  {
  }

  /** A numeral without superfluous zeros has the value it was written for. */
  lemma {:induction false} DigitsValue(n: nat)
    ensures Numeral(Digits(n)) == n && (Digits(n)[0] == 48 ==> n == 0 && |Digits(n)| == 1)
  {
    if n >= 10 {
      DigitsValue(n / 10);
      NumeralSnoc(Digits(n / 10), 48 + n % 10);
    }
  }

  /** The integer a text denotes: an optional minus sign, then digits without a superfluous zero. */
  function ReadInteger(s: Js): Option<int> {
    if |s| > 1 && s[0] == 45 then
      var m: Option<int> := ReadNatural(s[1..]);
      if m.None? then None else Some(-m.value)
    else
      var m := ReadNatural(s);
      if m.None? then None else Some(m.value)
  }

  function ReadNatural(s: Js): Option<nat> {
    if |s| == 0 || !AllDigits(s) || (s[0] == 48 && |s| > 1) then None else Some(Numeral(s))
  }

  /** Reading a decimal text gives the integer back. */
  lemma DecimalInverse(n: int)
    ensures ReadInteger(Decimal(n)) == Some(n)
  {
    if n < 0 {
      DigitsValue(-n);
      assert Decimal(n)[1..] == Digits(-n);
    } else {
      DigitsValue(n);
    }
  }

  // ── four-byte big-endian lengths ──

  const U32_CEIL: nat := 0x1_0000_0000

  function U32(n: nat): (b: seq<Byte>)
    requires n < U32_CEIL
    ensures |b| == 4
  {
    var n1 := n / 256;
    var n2 := n1 / 256;
    [n2 / 256, n2 % 256, n1 % 256, n % 256]
  }

  function FromU32(b: seq<Byte>): nat
    requires |b| == 4
  {
    var b0: int, b1: int, b2: int, b3: int := b[0], b[1], b[2], b[3];
    ((b0 * 256 + b1) * 256 + b2) * 256 + b3
  }

  lemma U32Inverse(n: nat)
    requires n < U32_CEIL
    ensures FromU32(U32(n)) == n
  {
  }

  /** Most significant byte first. */
  lemma U32Weights(n: nat)
    requires n < U32_CEIL
    ensures var b0: int, b1: int, b2: int, b3: int := U32(n)[0], U32(n)[1], U32(n)[2], U32(n)[3];
            n == b0 * 0x100_0000 + b1 * 0x1_0000 + b2 * 0x100 + b3
  {
  }
}
