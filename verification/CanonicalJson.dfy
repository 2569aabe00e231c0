/** The canonical text of an I-JSON value (RFC 8785 restricted to RFC 7493) and the proof that
    it determines the value. */
module CanonicalJson {
  import opened Wrappers
  import opened JsText

  /** A JavaScript value; JOther is everything canonicalize refuses by kind. */
  datatype Json =
    | JNull
    | JBool(b: bool)
    | JNum(n: int)
    | JStr(s: Js)
    | JArr(items: seq<Json>)
    | JObj(fields: map<Js, Json>)
    | JOther

  // ── key order ──

  /** UTF-16 code unit order. */
  predicate Less(a: Js, b: Js) {
    |b| > 0 && (|a| == 0 || a[0] < b[0] || (a[0] == b[0] && Less(a[1..], b[1..])))
  }

  /** At the first place where they differ the smaller unit comes first, and a proper prefix comes
      before what it begins. */
  predicate DiffersAt(a: Js, b: Js, i: nat) {
    && i <= |a| && i < |b| && a[..i] == b[..i]
    && (i == |a| || a[i] < b[i])
  }

  lemma {:induction false} LessMeans(a: Js, b: Js) returns (i: nat)
    requires Less(a, b)
    ensures DiffersAt(a, b, i)
  {
    if |a| == 0 || a[0] < b[0] {
      i := 0;
    } else {
      var j := LessMeans(a[1..], b[1..]);
      i := j + 1;
      assert a[..i] == [a[0]] + a[1..][..j] && b[..i] == [b[0]] + b[1..][..j];
    }
  }

  lemma {:induction false} DiffersLess(a: Js, b: Js, i: nat)
    requires DiffersAt(a, b, i)
    ensures Less(a, b)
  {
    if i > 0 {
      assert a[0] == a[..i][0] == b[..i][0] == b[0];
      assert a[1..][..i - 1] == a[..i][1..] && b[1..][..i - 1] == b[..i][1..];
      DiffersLess(a[1..], b[1..], i - 1);
    }
  }

  /** The order of the keys is the lexical one on code units. */
  lemma LessIff(a: Js, b: Js)
    ensures Less(a, b) <==> exists i: nat :: DiffersAt(a, b, i)
  {
    if Less(a, b) {
      var i := LessMeans(a, b);
    } else if i: nat :| DiffersAt(a, b, i) {
      DiffersLess(a, b, i);
    }
  }

  lemma {:induction false} LessAsym(a: Js, b: Js)
    requires Less(a, b)
    ensures !Less(b, a) && a != b
  {
    if |a| > 0 && a[0] == b[0] {
      LessAsym(a[1..], b[1..]);
    }
  }

  lemma {:induction false} LessTrans(a: Js, b: Js, c: Js)
    requires Less(a, b) && Less(b, c)
    ensures Less(a, c)
  {
    if |a| > 0 && a[0] == b[0] == c[0] {
      LessTrans(a[1..], b[1..], c[1..]);
    }
  }

  lemma {:induction false} LessTotal(a: Js, b: Js)
    ensures a == b || Less(a, b) || Less(b, a)
  {
    if |a| > 0 && |b| > 0 && a[0] == b[0] {
      LessTotal(a[1..], b[1..]);
      assert a == [a[0]] + a[1..] && b == [b[0]] + b[1..];
    }
  }

  predicate Least(k: Js, s: set<Js>) {
    k in s && forall x | x in s :: x == k || Less(k, x)
  }

  lemma {:induction false} LeastExists(s: set<Js>) returns (k: Js)
    requires s != {}
    ensures Least(k, s)
  {
    var x :| x in s;
    if s == {x} {
      k := x;
    } else {
      var m := LeastExists(s - {x});
      LessTotal(m, x);
      if Less(x, m) {
        k := x;
        forall y | y in s && y != x ensures Less(x, y) { if y != m { LessTrans(x, m, y); } }
      } else {
        k := m;
      }
    }
  }

  lemma LeastUnique(s: set<Js>)
    requires s != {}
    ensures exists k :: Least(k, s)
    ensures forall j, k | Least(j, s) && Least(k, s) :: j == k
  {
    var k := LeastExists(s);
    forall i, j | Least(i, s) && Least(j, s)
      ensures i == j
    {
      if i != j {
        LessAsym(i, j);
      }
    }
  }

  predicate Sorted(ks: seq<Js>) { forall i, j | 0 <= i < j < |ks| :: Less(ks[i], ks[j]) }

  /** names.sort() of an object's own keys. */
  function SortedKeys(s: set<Js>): (ks: seq<Js>)
    ensures Sorted(ks) && forall k :: k in ks <==> k in s
  {
    if s == {} then []
    else
      LeastUnique(s);
      var k :| Least(k, s);
      [k] + SortedKeys(s - {k})
  }

  // ── strings ──

  function Hex(n: nat): Unit
    requires n < 16
  {
    if n < 10 then 48 + n else 87 + n
  }

  function EscUnit(u: Unit): (e: Js)
    ensures |e| > 0
  {
    if u == 34 then [92, 34]
    else if u == 92 then [92, 92]
    else if u == 8 then [92, 98]
    else if u == 12 then [92, 102]
    else if u == 10 then [92, 110]
    else if u == 13 then [92, 114]
    else if u == 9 then [92, 116]
    else if u < 0x20 then [92, 117, 48, 48, Hex(u / 16), Hex(u % 16)]
    else [u]
  }

  function Esc(s: Js): Js {
    if |s| == 0 then [] else EscUnit(s[0]) + Esc(s[1..])
  }

  /** jcsString. */
  function Quote(s: Js): (q: Js)
    ensures |q| >= 2 && q[0] == 34
  {
    [34] + Esc(s) + [34]
  }

  lemma Assoc(a: Js, b: Js, x: Js)
    ensures (a + b) + x == a + (b + x)
  {
  }

  // ── values ──

  function Text(v: Json): Js
    decreases v, 1, 0
  {
    match v
    case JNull => A("null")
    case JBool(b) => if b then A("true") else A("false")
    case JNum(n) => Decimal(n)
    case JStr(s) => Quote(s)
    case JArr(_) => [91] + ArrText(v, 0)
    case JObj(fields) => [123] + ObjText(v, SortedKeys(fields.Keys), 0)
    case JOther => []
  }

  function Comma(i: nat): Js { if i > 0 then [44] else [] }

  /** The elements from the i-th on, and the closing bracket. */
  function ArrText(v: Json, i: nat): (t: Js)
    requires v.JArr? && i <= |v.items|
    decreases v, 0, |v.items| - i
  {
    if i == |v.items| then [93] else Comma(i) + (Text(v.items[i]) + ArrText(v, i + 1))
  }

  function ObjText(v: Json, ks: seq<Js>, i: nat): (t: Js)
    requires v.JObj? && i <= |ks| && forall k | k in ks :: k in v.fields
    decreases v, 0, |ks| - i
  {
    if i == |ks| then [125]
    else Comma(i) + (Quote(ks[i]) + ([58] + (Text(v.fields[ks[i]]) + ObjText(v, ks, i + 1))))
  }

  /** No refused value anywhere inside. */
  predicate Clean(v: Json) {
    match v
    case JArr(items) => forall i | 0 <= i < |items| :: Clean(items[i])
    case JObj(fields) => forall k | k in fields :: Clean(fields[k])
    case JOther => false
    case _ => true
  }

  /** ks are exactly the keys of v. */
  ghost predicate Lists(ks: seq<Js>, v: Json)
    requires v.JObj?
  {
    forall k :: k in ks <==> k in v.fields
  }

  // ── a reader of JSON texts (RFC 8259 with integers, keys ascending) ──

  /** What was read, and the text behind it. */
  datatype Read<T> = Nothing | Got(value: T, rest: Js)

  function HexValue(u: Unit): Option<nat> {
    if 48 <= u <= 57 then Some(u - 48) else if 97 <= u <= 102 then Some(u - 87)
    else if 65 <= u <= 70 then Some(u - 55) else None
  }

  /** The unit a two-character escape stands for. */
  function Unescaped(u: Unit): Option<Unit> {
    if u == 34 || u == 92 || u == 47 then Some(u)
    else if u == 98 then Some(8)
    else if u == 102 then Some(12)
    else if u == 110 then Some(10)
    else if u == 114 then Some(13)
    else if u == 116 then Some(9)
    else None
  }

  /** Four hexadecimal digits. */
  function ReadHex(s: Js): Option<Unit>
    requires |s| >= 4
  {
    var a, b, c, d := HexValue(s[0]), HexValue(s[1]), HexValue(s[2]), HexValue(s[3]);
    if a.None? || b.None? || c.None? || d.None? then None
    else
      var n := a.value * 0x1000 + b.value * 0x100 + c.value * 0x10 + d.value;
      if n < 0x1_0000 then Some(n) else None
  }

  /** One code unit of a string, escaped or not. */
  function ReadUnit(s: Js): (r: Read<Unit>)
    ensures r.Got? ==> |r.rest| < |s|
  {
    if |s| == 0 || s[0] == 34 || s[0] < 0x20 then Nothing
    else if s[0] != 92 then Got(s[0], s[1..])
    else if |s| < 2 then Nothing
    else if s[1] == 117 then
      if |s| < 6 || ReadHex(s[2..]).None? then Nothing else Got(ReadHex(s[2..]).value, s[6..])
    else if Unescaped(s[1]).None? then Nothing
    else Got(Unescaped(s[1]).value, s[2..])
  }

  /** Units up to the closing quote. */
  function ReadUnits(s: Js): (r: Read<Js>)
    ensures r.Got? ==> |r.rest| < |s|
    decreases |s|
  {
    if |s| > 0 && s[0] == 34 then Got([], s[1..])
    else
      var u := ReadUnit(s);
      if u.Nothing? then Nothing
      else
        var more := ReadUnits(u.rest);
        if more.Nothing? then Nothing else Got([u.value] + more.value, more.rest)
  }

  function ReadString(s: Js): (r: Read<Js>)
    ensures r.Got? ==> |r.rest| < |s|
  {
    if |s| > 0 && s[0] == 34 then ReadUnits(s[1..]) else Nothing
  }

  /** How many digits a text starts with. */
  function Run(s: Js): (n: nat)
    ensures n <= |s|
  {
    if |s| > 0 && IsDigit(s[0]) then 1 + Run(s[1..]) else 0
  }

  function ReadNumber(s: Js): (r: Read<int>)
    ensures r.Got? ==> |r.rest| < |s|
  {
    var n := if |s| > 0 && s[0] == 45 then 1 + Run(s[1..]) else Run(s);
    var i := ReadInteger(s[..n]);
    if n == 0 || i.None? then Nothing else Got(i.value, s[n..])
  }

  const NULL: Js := [110, 117, 108, 108]
  const TRUE: Js := [116, 114, 117, 101]
  const FALSE: Js := [102, 97, 108, 115, 101]

  function ReadLiteral(s: Js, text: Js, v: Json): (r: Read<Json>)
    ensures r.Got? && |text| > 0 ==> |r.rest| < |s|
  {
    if text <= s then Got(v, s[|text|..]) else Nothing
  }

  function ReadValue(s: Js): (r: Read<Json>)
    ensures r.Got? ==> |r.rest| < |s|
    decreases |s|, 0
  {
    if |s| == 0 then Nothing
    else if s[0] == 110 then ReadLiteral(s, NULL, JNull)
    else if s[0] == 116 then ReadLiteral(s, TRUE, JBool(true))
    else if s[0] == 102 then ReadLiteral(s, FALSE, JBool(false))
    else if s[0] == 34 then
      var t := ReadString(s);
      if t.Nothing? then Nothing else Got(JStr(t.value), t.rest)
    else if s[0] == 91 then
      var t := ReadItems(s[1..], true);
      if t.Nothing? then Nothing else Got(JArr(t.value), t.rest)
    else if s[0] == 123 then
      var t := ReadFields(s[1..], None);
      if t.Nothing? then Nothing else Got(JObj(t.value), t.rest)
    else
      var t := ReadNumber(s);
      if t.Nothing? then Nothing else Got(JNum(t.value), t.rest)
  }

  /** Elements up to the closing bracket, a comma before each but the first. */
  function ReadItems(s: Js, first: bool): (r: Read<seq<Json>>)
    ensures r.Got? ==> |r.rest| < |s|
    decreases |s|, 1
  {
    if |s| == 0 then Nothing
    else if s[0] == 93 then Got([], s[1..])
    else if !first && s[0] != 44 then Nothing
    else
      var v := ReadValue(if first then s else s[1..]);
      if v.Nothing? then Nothing
      else
        var more := ReadItems(v.rest, false);
        if more.Nothing? then Nothing else Got([v.value] + more.value, more.rest)
  }

  /** Fields up to the closing brace, each key greater than the one before. */
  function ReadFields(s: Js, before: Option<Js>): (r: Read<map<Js, Json>>)
    ensures r.Got? ==> |r.rest| < |s|
    decreases |s|, 1
  {
    if |s| == 0 then Nothing
    else if s[0] == 125 then Got(map[], s[1..])
    else if before.Some? && s[0] != 44 then Nothing
    else
      var k := ReadString(if before.None? then s else s[1..]);
      if k.Nothing? || |k.rest| == 0 || k.rest[0] != 58 || (before.Some? && !Less(before.value, k.value)) then Nothing
      else
        var v := ReadValue(k.rest[1..]);
        if v.Nothing? then Nothing
        else
          var more := ReadFields(v.rest, Some(k.value));
          if more.Nothing? then Nothing else Got(more.value[k.value := v.value], more.rest)
  }

  /** A whole text. */
  function Parse(s: Js): Option<Json> {
    var r := ReadValue(s);
    if r.Got? && r.rest == [] then Some(r.value) else None
  }

  // ── the canonical text reads back as the value ──

  /** What may follow a value: the end of the text, or no digit. */
  predicate Ends(x: Js) { |x| > 0 ==> !IsDigit(x[0]) }

  lemma HexRead(u: Unit)
    requires u < 0x20
    ensures ReadHex([48, 48, Hex(u / 16), Hex(u % 16)]) == Some(u)
  {
  }

  lemma UnitRead(u: Unit, x: Js)
    ensures ReadUnit(EscUnit(u) + x) == Got(u, x)
    ensures (EscUnit(u) + x)[0] != 34
  {
    var e, s := EscUnit(u), EscUnit(u) + x;
    assert s[|e|..] == x;
    assert s[0] == e[0];
    if |e| >= 2 {
      assert s[1] == e[1];
    }
    if |e| == 6 {
      HexRead(u);
      assert s[2..][..4] == [48, 48, Hex(u / 16), Hex(u % 16)];
      assert s[2..][0] == e[2] && s[2..][1] == e[3] && s[2..][2] == e[4] && s[2..][3] == e[5];
    }
  }

  lemma {:induction false} UnitsRead(s: Js, x: Js)
    ensures ReadUnits(Esc(s) + ([34] + x)) == Got(s, x)
  {
    var t := Esc(s) + ([34] + x);
    if |s| == 0 {
      assert t == [34] + x;
    } else {
      var rest := Esc(s[1..]) + ([34] + x);
      Assoc(EscUnit(s[0]), Esc(s[1..]), [34] + x);
      UnitRead(s[0], rest);
      UnitsRead(s[1..], x);
      assert s == [s[0]] + s[1..];
    }
  }

  /** The escape table reads back: a quoted string gives its code units. */
  lemma QuoteRead(s: Js, x: Js)
    ensures ReadString(Quote(s) + x) == Got(s, x)
  {
    var t := Quote(s) + x;
    assert t[1..] == Esc(s) + ([34] + x);
    UnitsRead(s, x);
  }

  lemma {:induction false} RunOf(d: Js, x: Js)
    requires AllDigits(d) && Ends(x)
    ensures Run(d + x) == |d|
  {
    if |d| == 0 {
      assert d + x == x;
    } else {
      assert (d + x)[1..] == d[1..] + x;
      RunOf(d[1..], x);
    }
  }

  lemma NumberRead(n: int, x: Js)
    requires Ends(x)
    ensures ReadNumber(Decimal(n) + x) == Got(n, x)
  {
    var d, s := Decimal(n), Decimal(n) + x;
    DecimalInverse(n);
    assert s[0] == d[0] && s[..|d|] == d && s[|d|..] == x;
    if n < 0 {
      assert s[1..] == Digits(-n) + x;
      RunOf(Digits(-n), x);
    } else {
      RunOf(d, x);
    }
  }

  lemma LiteralRead(text: Js, v: Json, x: Js)
    ensures ReadLiteral(text + x, text, v) == Got(v, x)
  {
    assert (text + x)[|text|..] == x;
  }

  /** The first unit of a value's text tells its kind. */
  lemma Lead(v: Json)
    requires Clean(v)
    ensures |Text(v)| > 0
    ensures var c := Text(v)[0];
            match v
            case JNull => c == 110
            case JBool(b) => c == if b then 116 else 102
            case JNum(_) => IsDigit(c) || c == 45
            case JStr(_) => c == 34
            case JArr(_) => c == 91
            case JObj(_) => c == 123
  {
  }

  lemma LiteralTexts()
    ensures Text(JNull) == NULL && Text(JBool(true)) == TRUE && Text(JBool(false)) == FALSE
  {
  }

  lemma LeafRead(v: Json, x: Js)
    requires (v.JNull? || v.JBool? || v.JNum? || v.JStr?) && Ends(x)
    ensures ReadValue(Text(v) + x) == Got(v, x)
  {
    Lead(v);
    LiteralTexts();
    assert (Text(v) + x)[0] == Text(v)[0];
    match v
    case JNull => LiteralRead(NULL, JNull, x);
    case JBool(b) => LiteralRead(if b then TRUE else FALSE, v, x);
    case JNum(n) => NumberRead(n, x);
    case JStr(s) => QuoteRead(s, x);
  }

  /** Every clean value is read back from its text, whatever follows that is no digit. */
  lemma {:induction false} TextRead(v: Json, x: Js)
    requires Clean(v) && Ends(x)
    ensures ReadValue(Text(v) + x) == Got(v, x)
    decreases v, 1, 0
  {
    if v.JArr? {
      ItemsRead(v, 0, x, ArrText(v, 0) + x);
      ArrRead(v, x, Text(v) + x);
    } else if v.JObj? {
      var ks := SortedKeys(v.fields.Keys);
      FieldsRead(v, ks, 0, x, ObjText(v, ks, 0) + x);
      Assoc([123], ObjText(v, ks, 0), x);
      ObjRead(v, ks, x, Text(v) + x);
    } else {
      LeafRead(v, x);
    }
  }

  lemma ArrRead(v: Json, x: Js, s: Js)
    requires v.JArr? && s == Text(v) + x && ReadItems(ArrText(v, 0) + x, true) == Got(v.items[0..], x)
    ensures ReadValue(s) == Got(v, x)
  {
    assert s[1..] == ArrText(v, 0) + x;
    assert v.items[0..] == v.items;
    Bracketed(s, v.items, x);
  }

  lemma Bracketed(s: Js, items: seq<Json>, x: Js)
    requires |s| > 0 && s[0] == 91 && ReadItems(s[1..], true) == Got(items, x)
    ensures ReadValue(s) == Got(JArr(items), x)
  {
  }

  lemma ObjRead(v: Json, ks: seq<Js>, x: Js, s: Js)
    requires v.JObj? && Lists(ks, v) && s == [123] + (ObjText(v, ks, 0) + x)
    requires ReadFields(ObjText(v, ks, 0) + x, None) == Got(Among(v, ks, 0), x)
    ensures ReadValue(s) == Got(v, x)
  {
    assert s[1..] == ObjText(v, ks, 0) + x;
    AmongAll(v, ks);
    Braced(s, v.fields, x);
  }

  lemma Braced(s: Js, fields: map<Js, Json>, x: Js)
    requires |s| > 0 && s[0] == 123 && ReadFields(s[1..], None) == Got(fields, x)
    ensures ReadValue(s) == Got(JObj(fields), x)
  {
  }

  lemma AmongAll(v: Json, ks: seq<Js>)
    requires v.JObj? && Lists(ks, v)
    ensures Among(v, ks, 0) == v.fields
  {
    assert ks[0..] == ks;
  }

  lemma ArrTail(v: Json, i: nat, x: Js)
    requires v.JArr? && i < |v.items|
    ensures ArrText(v, i) + x == Comma(i) + (Text(v.items[i]) + (ArrText(v, i + 1) + x))
  {
    Assoc(Comma(i), Text(v.items[i]) + ArrText(v, i + 1), x);
    Assoc(Text(v.items[i]), ArrText(v, i + 1), x);
  }

  /** A bracket ends the elements, or a comma leads to the next one. */
  lemma ArrHead(v: Json, i: nat, x: Js)
    requires v.JArr? && Clean(v) && i <= |v.items|
    ensures |ArrText(v, i)| > 0 && ((ArrText(v, i) + x)[0] == 93 <==> i == |v.items|)
    ensures 0 < i < |v.items| ==> (ArrText(v, i) + x)[0] == 44
    ensures i > 0 ==> Ends(ArrText(v, i) + x)
  {
    if i < |v.items| {
      Lead(v.items[i]);
    }
  }

  /** Every element from the i-th on reads back, up to the bracket. */
  lemma {:induction false} ItemsRead(v: Json, i: nat, x: Js, s: Js)
    requires v.JArr? && Clean(v) && i <= |v.items| && s == ArrText(v, i) + x
    ensures ReadItems(s, i == 0) == Got(v.items[i..], x)
    decreases v, 0, |v.items| - i
  {
    if i == |v.items| {
      ItemsEnd(s, i == 0, x);
      assert v.items[i..] == [];
    } else {
      var rest := ArrText(v, i + 1) + x;
      ArrHead(v, i + 1, x);
      TextRead(v.items[i], rest);
      ItemsRead(v, i + 1, x, rest);
      ItemRead(v, i, x, s, rest);
    }
  }

  lemma ItemsEnd(s: Js, first: bool, x: Js)
    requires s == [93] + x
    ensures ReadItems(s, first) == Got([], x)
  {
  }

  /** One more element in front. */
  lemma ItemRead(v: Json, i: nat, x: Js, s: Js, rest: Js)
    requires v.JArr? && Clean(v) && i < |v.items| && s == ArrText(v, i) + x && rest == ArrText(v, i + 1) + x
    requires ReadValue(Text(v.items[i]) + rest) == Got(v.items[i], rest)
    requires ReadItems(rest, false) == Got(v.items[i + 1..], x)
    ensures ReadItems(s, i == 0) == Got(v.items[i..], x)
  {
    ItemSplit(v, i, x, s, rest);
    ItemsStep(s, i == 0, v.items[i], rest, v.items[i + 1..], x);
    ItemsCons(v.items, i);
  }

  lemma CommaStrip(i: nat, t: Js, s: Js)
    requires s == Comma(i) + t
    ensures (if i == 0 then s else s[1..]) == t && (i > 0 ==> |s| > 0 && s[0] == 44)
  {
  }

  lemma ItemsCons(items: seq<Json>, i: nat)
    requires i < |items|
    ensures items[i..] == [items[i]] + items[i + 1..]
  {
  }

  lemma NoBracket(v: Json)
    requires Clean(v)
    ensures |Text(v)| > 0 && Text(v)[0] != 93
  {
    Lead(v);
  }

  lemma ItemSplit(v: Json, i: nat, x: Js, s: Js, rest: Js)
    requires v.JArr? && i < |v.items| && Clean(v.items[i]) && s == ArrText(v, i) + x && rest == ArrText(v, i + 1) + x
    ensures |s| > 0 && s[0] != 93 && (i > 0 ==> s[0] == 44)
    ensures (if i == 0 then s else s[1..]) == Text(v.items[i]) + rest
  {
    var t := Text(v.items[i]) + rest;
    ArrTail(v, i, x);
    CommaStrip(i, t, s);
    NoBracket(v.items[i]);
    assert t[0] == Text(v.items[i])[0];
  }

  lemma ItemsStep(s: Js, first: bool, a: Json, rest: Js, more: seq<Json>, x: Js)
    requires |s| > 0 && s[0] != 93 && (!first ==> s[0] == 44)
    requires ReadValue(if first then s else s[1..]) == Got(a, rest) && ReadItems(rest, false) == Got(more, x)
    ensures ReadItems(s, first) == Got([a] + more, x)
  {
  }

  lemma ObjTail(v: Json, ks: seq<Js>, i: nat, x: Js)
    requires v.JObj? && i < |ks| && forall k | k in ks :: k in v.fields
    ensures ObjText(v, ks, i) + x ==
            Comma(i) + (Quote(ks[i]) + ([58] + (Text(v.fields[ks[i]]) + (ObjText(v, ks, i + 1) + x))))
  {
    var value, rest := Text(v.fields[ks[i]]), ObjText(v, ks, i + 1);
    Assoc(value, rest, x);
    Assoc([58], value + rest, x);
    Assoc(Quote(ks[i]), [58] + (value + rest), x);
    Assoc(Comma(i), Quote(ks[i]) + ([58] + (value + rest)), x);
  }

  lemma ObjHead(v: Json, ks: seq<Js>, i: nat, x: Js)
    requires v.JObj? && i <= |ks| && forall k | k in ks :: k in v.fields
    ensures |ObjText(v, ks, i)| > 0 && ((ObjText(v, ks, i) + x)[0] == 125 <==> i == |ks|)
    ensures 0 < i < |ks| ==> (ObjText(v, ks, i) + x)[0] == 44
    ensures i > 0 ==> Ends(ObjText(v, ks, i) + x)
  {
  }

  /** The fields under the keys from the i-th on. */
  function Among(v: Json, ks: seq<Js>, i: nat): map<Js, Json>
    requires v.JObj? && i <= |ks| && forall k | k in ks :: k in v.fields
  {
    map k | k in ks[i..] :: v.fields[k]
  }

  function Previous(ks: seq<Js>, i: nat): Option<Js>
    requires i <= |ks|
  {
    if i == 0 then None else Some(ks[i - 1])
  }

  /** Every field from the i-th key on reads back, up to the brace. */
  lemma {:induction false} FieldsRead(v: Json, ks: seq<Js>, i: nat, x: Js, s: Js)
    requires v.JObj? && Clean(v) && i <= |ks| && (forall k | k in ks :: k in v.fields) && Sorted(ks)
    requires s == ObjText(v, ks, i) + x
    ensures ReadFields(s, Previous(ks, i)) == Got(Among(v, ks, i), x)
    decreases v, 0, |ks| - i
  {
    if i == |ks| {
      FieldsEnd(s, Previous(ks, i), x);
      assert Among(v, ks, i) == map[];
    } else {
      var rest := ObjText(v, ks, i + 1) + x;
      ObjHead(v, ks, i + 1, x);
      TextRead(v.fields[ks[i]], rest);
      FieldsRead(v, ks, i + 1, x, rest);
      FieldRead(v, ks, i, x, s, rest);
    }
  }

  lemma FieldsEnd(s: Js, before: Option<Js>, x: Js)
    requires s == [125] + x
    ensures ReadFields(s, before) == Got(map[], x)
  {
  }

  /** One more field in front. */
  lemma FieldRead(v: Json, ks: seq<Js>, i: nat, x: Js, s: Js, rest: Js)
    requires v.JObj? && i < |ks| && (forall k | k in ks :: k in v.fields) && Sorted(ks)
    requires s == ObjText(v, ks, i) + x && rest == ObjText(v, ks, i + 1) + x
    requires ReadValue(Text(v.fields[ks[i]]) + rest) == Got(v.fields[ks[i]], rest)
    requires ReadFields(rest, Some(ks[i])) == Got(Among(v, ks, i + 1), x)
    ensures ReadFields(s, Previous(ks, i)) == Got(Among(v, ks, i), x)
  {
    var value := Text(v.fields[ks[i]]) + rest;
    FieldSplit(v, ks, i, x, s, value);
    QuoteRead(ks[i], [58] + value);
    FieldsStep(s, Previous(ks, i), ks[i], value, v.fields[ks[i]], rest, Among(v, ks, i + 1), x);
    AmongNext(v, ks, i);
  }

  lemma FieldSplit(v: Json, ks: seq<Js>, i: nat, x: Js, s: Js, value: Js)
    requires v.JObj? && i < |ks| && (forall k | k in ks :: k in v.fields)
    requires s == ObjText(v, ks, i) + x && value == Text(v.fields[ks[i]]) + (ObjText(v, ks, i + 1) + x)
    ensures |s| > 0 && s[0] != 125 && (i > 0 ==> s[0] == 44)
    ensures (if i == 0 then s else s[1..]) == Quote(ks[i]) + ([58] + value)
  {
    ObjTail(v, ks, i, x);
    CommaStrip(i, Quote(ks[i]) + ([58] + value), s);
  }

  lemma FieldsStep(s: Js, before: Option<Js>, k: Js, value: Js, a: Json, rest: Js, more: map<Js, Json>, x: Js)
    requires |s| > 0 && s[0] != 125 && (before.Some? ==> s[0] == 44 && Less(before.value, k))
    requires ReadString(if before.None? then s else s[1..]) == Got(k, [58] + value)
    requires ReadValue(value) == Got(a, rest) && ReadFields(rest, Some(k)) == Got(more, x)
    ensures ReadFields(s, before) == Got(more[k := a], x)
  {
    assert ([58] + value)[1..] == value;
  }

  lemma AmongNext(v: Json, ks: seq<Js>, i: nat)
    requires v.JObj? && i < |ks| && forall k | k in ks :: k in v.fields
    ensures Among(v, ks, i + 1)[ks[i] := v.fields[ks[i]]] == Among(v, ks, i)
  {
    assert ks[i..] == [ks[i]] + ks[i + 1..];
  }

  /** Parsing the canonical text gives the value back. */
  lemma ParseInverse(v: Json)
    requires Clean(v)
    ensures Parse(Text(v)) == Some(v)
  {
    TextRead(v, []);
    assert Text(v) + [] == Text(v);
  }

  /** Equal texts, equal values, even as prefixes of longer texts. */
  lemma TextPrefix(v: Json, w: Json, x: Js, y: Js)
    requires Clean(v) && Clean(w) && Ends(x) && Ends(y) && Text(v) + x == Text(w) + y
    ensures v == w && x == y
  {
    TextRead(v, x);
    TextRead(w, y);
  }

  /** The canonical text is injective; objects are compared as maps. */
  lemma CanonicalInjective(v: Json, w: Json)
    requires Clean(v) && Clean(w) && Text(v) == Text(w)
    ensures v == w
  {
    ParseInverse(v);
    ParseInverse(w);
  }
}
