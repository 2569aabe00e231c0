/** canonicalize as it runs: a walk that pushes text parts and counts nodes and bytes, stopping
    at the first bound exceeded. */
module CanonicalWriter {
  import opened Wrappers
  import opened JsText
  import opened CanonicalJson

  const MAX_DEPTH: nat := 64
  const MAX_NODES: nat := 10_000
  const MAX_STRING_BYTES: nat := 0x1_0000
  const MAX_TOTAL_BYTES: nat := 0x10_0000

  function ByteLen(s: Js): nat { |Utf8(s)| }

  predicate StringOk(s: Js) { WellFormed(s) && ByteLen(s) <= MAX_STRING_BYTES }

  const PROTO: Js := A("__proto__")

  /** Everything canonicalize asks of a value except the two running totals. */
  predicate Accepted(v: Json, depth: nat)
    decreases v, 1
  {
    && depth <= MAX_DEPTH
    && match v
       case JNum(n) => -MAX_SAFE <= n <= MAX_SAFE
       case JStr(s) => StringOk(s)
       case JArr(items) => ItemsOk(v, |items|, depth + 1)
       case JObj(_) => FieldsOk(v, depth + 1)
       case JOther => false
       case _ => true
  }

  predicate ItemsOk(v: Json, n: nat, depth: nat)
    requires v.JArr? && n <= |v.items|
    decreases v, 0
  {
    forall i | 0 <= i < n :: Accepted(v.items[i], depth)
  }

  lemma ItemsNext(v: Json, n: nat, depth: nat)
    requires v.JArr? && n < |v.items|
    ensures ItemsOk(v, n + 1, depth) <==> ItemsOk(v, n, depth) && Accepted(v.items[n], depth)
  {
  }

  lemma ItemsFewer(v: Json, n: nat, depth: nat)
    requires v.JArr? && n <= |v.items| && !ItemsOk(v, n, depth)
    ensures !ItemsOk(v, |v.items|, depth)
  {
  }

  /** The first n keys of a key list are usable and so are their values. */
  predicate KeysOk(v: Json, ks: seq<Js>, n: nat, depth: nat)
    requires v.JObj? && n <= |ks| && forall k | k in ks :: k in v.fields
    decreases v, 0
  {
    forall i | 0 <= i < n :: StringOk(ks[i]) && Accepted(v.fields[ks[i]], depth)
  }

  lemma KeysNext(v: Json, ks: seq<Js>, n: nat, depth: nat)
    requires v.JObj? && n < |ks| && forall k | k in ks :: k in v.fields
    ensures KeysOk(v, ks, n + 1, depth) <==>
            KeysOk(v, ks, n, depth) && StringOk(ks[n]) && Accepted(v.fields[ks[n]], depth)
  {
  }

  lemma KeysFewer(v: Json, ks: seq<Js>, n: nat, depth: nat)
    requires v.JObj? && n <= |ks| && (forall k | k in ks :: k in v.fields) && !KeysOk(v, ks, n, depth)
    ensures !FieldsOk(v, depth)
  {
    var i :| 0 <= i < n && !(StringOk(ks[i]) && Accepted(v.fields[ks[i]], depth));
    assert ks[i] in v.fields;
  }

  predicate FieldsOk(v: Json, depth: nat)
    requires v.JObj?
    decreases v, 0
  {
    forall k | k in v.fields :: k != PROTO && StringOk(k) && Accepted(v.fields[k], depth)
  }

  lemma {:induction false} AcceptedClean(v: Json, depth: nat)
    requires Accepted(v, depth)
    ensures Clean(v)
    decreases v
  {
    match v
    case JArr(items) =>
      forall i | 0 <= i < |items| ensures Clean(items[i]) { AcceptedClean(items[i], depth + 1); }
    case JObj(fields) =>
      forall k | k in fields ensures Clean(fields[k]) { AcceptedClean(fields[k], depth + 1); }
    case _ =>
  }

  // ── acceptance, part by part ──

  /** w is part of v, d levels down. */
  predicate Occurs(w: Json, v: Json, d: nat) {
    if d == 0 then w == v
    else
      match v
      case JArr(items) => exists i | 0 <= i < |items| :: Occurs(w, items[i], d - 1)
      case JObj(fields) => exists k | k in fields :: Occurs(w, fields[k], d - 1)
      case _ => false
  }

  predicate TextOk(s: Js) { WellFormed(s) && |Utf8(s)| <= 65_536 }

  /** What is asked of one part on its own. */
  predicate PartOk(w: Json) {
    match w
    case JNum(n) => -9_007_199_254_740_991 <= n <= 9_007_199_254_740_991
    case JStr(s) => TextOk(s)
    case JObj(fields) => A("__proto__") !in fields && forall k | k in fields :: TextOk(k)
    case JOther => false
    case _ => true
  }

  ghost predicate PartsOk(v: Json, depth: nat) {
    forall w, d: nat | Occurs(w, v, d) :: depth + d <= 64 && PartOk(w)
  }

  lemma PartsBelow(v: Json, c: Json, depth: nat)
    requires PartsOk(v, depth)
    requires (v.JArr? && c in v.items) || (v.JObj? && exists k | k in v.fields :: v.fields[k] == c)
    ensures PartsOk(c, depth + 1)
  {
    forall w, d: nat | Occurs(w, c, d)
      ensures depth + 1 + d <= 64 && PartOk(w)
    {
      assert Occurs(w, v, d + 1);
    }
  }

  lemma PartsAbove(v: Json, depth: nat)
    requires depth <= 64 && PartOk(v)
    requires v.JArr? ==> forall i | 0 <= i < |v.items| :: PartsOk(v.items[i], depth + 1)
    requires v.JObj? ==> forall k | k in v.fields :: PartsOk(v.fields[k], depth + 1)
    ensures PartsOk(v, depth)
  {
    forall w, d: nat | Occurs(w, v, d)
      ensures depth + d <= 64 && PartOk(w)
    {
      if d > 0 {
        match v
        case JArr(items) =>
          var i :| 0 <= i < |items| && Occurs(w, items[i], d - 1);
          assert PartsOk(items[i], depth + 1);
        case JObj(fields) =>
          var k :| k in fields && Occurs(w, fields[k], d - 1);
          assert PartsOk(fields[k], depth + 1);
      }
    }
  }

  /** A value is accepted exactly when every part of it is in order on its own and none lies
      more than 64 levels down. */
  lemma {:induction false} AcceptedIff(v: Json, depth: nat)
    ensures Accepted(v, depth) <==> PartsOk(v, depth)
    decreases v
  {
    assert Occurs(v, v, 0);
    if v.JArr? {
      forall i | 0 <= i < |v.items|
        ensures Accepted(v.items[i], depth + 1) <==> PartsOk(v.items[i], depth + 1)
        ensures PartsOk(v, depth) ==> PartsOk(v.items[i], depth + 1)
      {
        AcceptedIff(v.items[i], depth + 1);
        if PartsOk(v, depth) {
          PartsBelow(v, v.items[i], depth);
        }
      }
    } else if v.JObj? {
      forall k | k in v.fields
        ensures Accepted(v.fields[k], depth + 1) <==> PartsOk(v.fields[k], depth + 1)
        ensures PartsOk(v, depth) ==> PartsOk(v.fields[k], depth + 1)
      {
        AcceptedIff(v.fields[k], depth + 1);
        if PartsOk(v, depth) {
          PartsBelow(v, v.fields[k], depth);
        }
      }
    }
    if Accepted(v, depth) {
      assert v.JArr? ==> ItemsOk(v, |v.items|, depth + 1);
      assert v.JObj? ==> FieldsOk(v, depth + 1);
      PartsAbove(v, depth);
    }
  }

  /** Nodes visited and bytes pushed by a complete walk. */
  datatype Cost = Cost(nodes: nat, bytes: nat)

  function Sum(a: Cost, b: Cost): Cost { Cost(a.nodes + b.nodes, a.bytes + b.bytes) }

  function CostOf(v: Json): Cost
    decreases v, 1, 0
  {
    match v
    case JArr(_) => Sum(Cost(1, 1), ArrCost(v, 0))
    case JObj(fields) => Sum(Cost(1, 1), ObjCost(v, SortedKeys(fields.Keys), 0))
    case _ => Cost(1, ByteLen(Text(v)))
  }

  function CommaCost(i: nat): Cost { Cost(0, if i > 0 then 1 else 0) }

  function ArrCost(v: Json, i: nat): Cost
    requires v.JArr? && i <= |v.items|
    decreases v, 0, |v.items| - i
  {
    if i == |v.items| then Cost(0, 1)
    else Sum(CommaCost(i), Sum(CostOf(v.items[i]), ArrCost(v, i + 1)))
  }

  function ObjCost(v: Json, ks: seq<Js>, i: nat): Cost
    requires v.JObj? && i <= |ks| && forall k | k in ks :: k in v.fields
    decreases v, 0, 1 + |ks| - i
  {
    if i == |ks| then Cost(0, 1)
    else Sum(FieldCost(v, ks[i], i), ObjCost(v, ks, i + 1))
  }

  function FieldCost(v: Json, k: Js, i: nat): Cost
    requires v.JObj? && k in v.fields
    decreases v, 0, 0
  {
    Sum(Sum(CommaCost(i), Cost(0, ByteLen(Quote(k) + [58]))), CostOf(v.fields[k]))
  }

  function Join(parts: seq<Js>): Js {
    if |parts| == 0 then [] else Join(parts[..|parts| - 1]) + Last(parts)
  }

  // ── jcsString as a loop over code points ──

  lemma {:induction false} EscConcat(s: Js, t: Js)
    ensures Esc(s + t) == Esc(s) + Esc(t)
  {
    if |s| == 0 {
      assert s + t == t;
    } else {
      assert (s + t)[1..] == s[1..] + t;
      EscConcat(s[1..], t);
      Assoc(EscUnit(s[0]), Esc(s[1..]), Esc(t));
    }
  }

  lemma EscPair(s: Js)
    requires |s| == 2 && Pair(s)
    ensures Esc(s) == s
  {
    assert Esc(s[1..]) == EscUnit(s[1]) + Esc([]);
    assert s == [s[0]] + [s[1]];
  }

  lemma EscOne(u: Unit)
    ensures Esc([u]) == EscUnit(u)
  {
    assert [u][1..] == [];
    assert EscUnit(u) + [] == EscUnit(u);
  }

  method JcsString(s: Js) returns (r: Option<Js>)
    ensures r == if StringOk(s) then Some(Quote(s)) else None
  {
    var ok := NoLoneSurrogate(s);
    if !ok || ByteLen(s) > MAX_STRING_BYTES {
      return None;
    }
    var out: Js := [34];
    var i := 0;
    assert Esc(s[..0]) == [];
    while i < |s|
      invariant 0 <= i <= |s| && WellFormed(s[i..])
      invariant out == [34] + Esc(s[..i])
    {
      var n := Width(s[i..]);
      ghost var before := out;
      assert s[..i + n] == s[..i] + s[i..i + n];
      EscConcat(s[..i], s[i..i + n]);
      assert s[i..][n..] == s[i + n..];
      if n == 2 {
        EscPair(s[i..i + 2]);
        out := out + s[i..i + 2];
      } else {
        EscOne(s[i]);
        assert s[i..i + 1] == [s[i]];
        out := out + EscUnit(s[i]);
      }
      Assoc([34], Esc(s[..i]), Esc(s[i..i + n]));
      i := i + n;
    }
    assert s[..|s|] == s;
    return Some(out + [34]);
  }

  // ── the walk ──

  /** The totals after adding a cost stay in bounds. */
  predicate Room(nodes: nat, bytes: nat, c: Cost) {
    nodes + c.nodes <= MAX_NODES && bytes + c.bytes <= MAX_TOTAL_BYTES
  }

  class Writer {
    var parts: seq<Js>
    var nodes: nat
    var bytes: nat

    constructor ()
      ensures parts == [] && nodes == 0 && bytes == 0
    {
      parts, nodes, bytes := [], 0, 0;
    }

    method Push(s: Js) returns (ok: bool)
      requires bytes <= MAX_TOTAL_BYTES
      modifies this
      ensures nodes == old(nodes)
      ensures ok <==> old(bytes) + ByteLen(s) <= MAX_TOTAL_BYTES
      ensures ok ==> bytes == old(bytes) + ByteLen(s) && Join(parts) == old(Join(parts)) + s
    {
      bytes := bytes + ByteLen(s);
      if bytes > MAX_TOTAL_BYTES {
        return false;
      }
      parts := parts + [s];
      assert parts[..|parts| - 1] == old(parts);
      return true;
    }

    /** A walk succeeds exactly when the value is accepted and both totals stay in bounds,
        and then it has pushed the value's text. */
    method Walk(v: Json, depth: nat) returns (ok: bool)
      requires nodes <= MAX_NODES && bytes <= MAX_TOTAL_BYTES
      modifies this
      ensures ok <==> Accepted(v, depth) && Room(old(nodes), old(bytes), CostOf(v))
      ensures ok ==> nodes == old(nodes) + CostOf(v).nodes && bytes == old(bytes) + CostOf(v).bytes
      ensures ok ==> Join(parts) == old(Join(parts)) + Text(v)
      decreases v, 1, 0
    {
      if depth > MAX_DEPTH {
        return false;
      }
      nodes := nodes + 1;
      if nodes > MAX_NODES {
        return false;
      }
      match v {
        case JNull => ok := Push(A("null"));
        case JBool(b) => ok := Push(if b then A("true") else A("false"));
        case JNum(n) =>
          if !(-MAX_SAFE <= n <= MAX_SAFE) {
            return false;
          }
          ok := Push(Decimal(n));
        case JStr(s) =>
          var q := JcsString(s);
          if q.None? {
            return false;
          }
          ok := Push(q.value);
        case JArr(items) =>
          ok := Push([91]);
          if ok {
            ghost var mid := Join(parts);
            ok := WalkItems(v, depth);
            assert ok ==> Join(parts) == old(Join(parts)) + Text(v) by {
              Assoc(old(Join(parts)), [91], ArrText(v, 0));
            }
          }
        case JObj(fields) =>
          ok := Push([123]);
          if ok {
            ok := WalkFields(v, SortedKeys(fields.Keys), depth);
            assert ok ==> Join(parts) == old(Join(parts)) + Text(v) by {
              Assoc(old(Join(parts)), [123], ObjText(v, SortedKeys(fields.Keys), 0));
            }
          }
        case JOther => return false;
      }
    }

    /** One element with its separating comma. */
    method WalkItem(v: Json, i: nat, depth: nat) returns (ok: bool)
      requires v.JArr? && i < |v.items| && nodes <= MAX_NODES && bytes <= MAX_TOTAL_BYTES
      modifies this
      ensures ok <==> Accepted(v.items[i], depth) && Room(old(nodes), old(bytes), Sum(CommaCost(i), CostOf(v.items[i])))
      ensures ok ==> nodes == old(nodes) + CostOf(v.items[i]).nodes
      ensures ok ==> bytes == old(bytes) + CommaCost(i).bytes + CostOf(v.items[i]).bytes
      ensures ok ==> Join(parts) == old(Join(parts)) + Comma(i) + Text(v.items[i])
      decreases v, 0, 0
    {
      ok := PushComma(i);
      if ok {
        ok := Walk(v.items[i], depth);
      }
    }

    method PushComma(i: nat) returns (ok: bool)
      requires bytes <= MAX_TOTAL_BYTES
      modifies this
      ensures nodes == old(nodes)
      ensures ok <==> old(bytes) + CommaCost(i).bytes <= MAX_TOTAL_BYTES
      ensures ok ==> bytes == old(bytes) + CommaCost(i).bytes && Join(parts) == old(Join(parts)) + Comma(i)
    {
      ok := true;
      if i > 0 {
        ok := Push([44]);
      }
    }

    method WalkItems(v: Json, depth: nat) returns (ok: bool)
      requires v.JArr? && nodes <= MAX_NODES && bytes <= MAX_TOTAL_BYTES
      modifies this
      ensures ok <==> ItemsOk(v, |v.items|, depth + 1) && Room(old(nodes), old(bytes), ArrCost(v, 0))
      ensures ok ==> nodes == old(nodes) + ArrCost(v, 0).nodes && bytes == old(bytes) + ArrCost(v, 0).bytes
      ensures ok ==> Join(parts) == old(Join(parts)) + ArrText(v, 0)
      decreases v, 0, 1
    {
      for i := 0 to |v.items|
        invariant nodes <= MAX_NODES && bytes <= MAX_TOTAL_BYTES
        invariant ItemsOk(v, i, depth + 1)
        invariant nodes + ArrCost(v, i).nodes == old(nodes) + ArrCost(v, 0).nodes
        invariant bytes + ArrCost(v, i).bytes == old(bytes) + ArrCost(v, 0).bytes
        invariant Join(parts) + ArrText(v, i) == old(Join(parts)) + ArrText(v, 0)
      {
        Rejoin(Join(parts), v, i);
        ItemsNext(v, i, depth + 1);
        ghost var step, n, b := Sum(CommaCost(i), CostOf(v.items[i])), nodes, bytes;
        ok := WalkItem(v, i, depth + 1);
        if !ok {
          if Accepted(v.items[i], depth + 1) {
            NoRoom(n, b, step, ArrCost(v, i + 1), old(nodes), old(bytes), ArrCost(v, 0));
          } else {
            ItemsFewer(v, i + 1, depth + 1);
          }
          return;
        }
      }
      ok := Push([93]);
    }

    /** One field with its separating comma, key and colon. */
    method WalkField(v: Json, k: Js, i: nat, depth: nat) returns (ok: bool)
      requires v.JObj? && k in v.fields && nodes <= MAX_NODES && bytes <= MAX_TOTAL_BYTES
      modifies this
      ensures ok <==> StringOk(k) && Accepted(v.fields[k], depth) &&
                      Room(old(nodes), old(bytes), FieldCost(v, k, i))
      ensures ok ==> nodes == old(nodes) + FieldCost(v, k, i).nodes && bytes == old(bytes) + FieldCost(v, k, i).bytes
      ensures ok ==> Join(parts) == old(Join(parts)) + Comma(i) + (Quote(k) + [58]) + Text(v.fields[k])
      decreases v, 0, 0
    {
      ok := PushComma(i);
      if !ok {
        return;
      }
      var q := JcsString(k);
      if q.None? {
        return false;
      }
      ok := Push(q.value + [58]);
      if ok {
        ok := Walk(v.fields[k], depth);
      }
    }

    method WalkFields(v: Json, ks: seq<Js>, depth: nat) returns (ok: bool)
      requires v.JObj? && Lists(ks, v) && nodes <= MAX_NODES && bytes <= MAX_TOTAL_BYTES
      modifies this
      ensures ok <==> FieldsOk(v, depth + 1) && Room(old(nodes), old(bytes), ObjCost(v, ks, 0))
      ensures ok ==> nodes == old(nodes) + ObjCost(v, ks, 0).nodes && bytes == old(bytes) + ObjCost(v, ks, 0).bytes
      ensures ok ==> Join(parts) == old(Join(parts)) + ObjText(v, ks, 0)
      decreases v, 0, 1
    {
      if PROTO in v.fields {
        return false;
      }
      for i := 0 to |ks|
        invariant nodes <= MAX_NODES && bytes <= MAX_TOTAL_BYTES
        invariant KeysOk(v, ks, i, depth + 1)
        invariant nodes + ObjCost(v, ks, i).nodes == old(nodes) + ObjCost(v, ks, 0).nodes
        invariant bytes + ObjCost(v, ks, i).bytes == old(bytes) + ObjCost(v, ks, 0).bytes
        invariant Join(parts) + ObjText(v, ks, i) == old(Join(parts)) + ObjText(v, ks, 0)
      {
        RejoinField(Join(parts), v, ks, i);
        KeysNext(v, ks, i, depth + 1);
        ghost var n, b := nodes, bytes;
        ok := WalkField(v, ks[i], i, depth + 1);
        if !ok {
          if StringOk(ks[i]) && Accepted(v.fields[ks[i]], depth + 1) {
            NoRoom(n, b, FieldCost(v, ks[i], i), ObjCost(v, ks, i + 1), old(nodes), old(bytes), ObjCost(v, ks, 0));
          } else {
            KeysFewer(v, ks, i + 1, depth + 1);
          }
          return;
        }
      }
      FieldsAll(v, ks, depth + 1);
      ok := Push([125]);
    }
  }

  lemma FieldsAll(v: Json, ks: seq<Js>, depth: nat)
    requires v.JObj? && Lists(ks, v) && PROTO !in v.fields
    requires KeysOk(v, ks, |ks|, depth)
    ensures FieldsOk(v, depth)
  {
    forall k | k in v.fields
      ensures k != PROTO && StringOk(k) && Accepted(v.fields[k], depth)
    {
      assert k in ks;
      var i :| 0 <= i < |ks| && ks[i] == k;
    }
  }

  lemma Rejoin(before: Js, v: Json, i: nat)
    requires v.JArr? && i < |v.items|
    ensures before + Comma(i) + Text(v.items[i]) + ArrText(v, i + 1) == before + ArrText(v, i)
    ensures ArrCost(v, i) == Sum(Sum(CommaCost(i), CostOf(v.items[i])), ArrCost(v, i + 1))
  {
    var text, rest := Text(v.items[i]), ArrText(v, i + 1);
    Assoc(before, Comma(i), text + rest);
    Assoc(before + Comma(i), text, rest);
  }

  lemma RejoinField(before: Js, v: Json, ks: seq<Js>, i: nat)
    requires v.JObj? && i < |ks| && forall k | k in ks :: k in v.fields
    ensures before + Comma(i) + (Quote(ks[i]) + [58]) + Text(v.fields[ks[i]]) + ObjText(v, ks, i + 1) ==
            before + ObjText(v, ks, i)
    ensures ObjCost(v, ks, i) == Sum(FieldCost(v, ks[i], i), ObjCost(v, ks, i + 1))
  {
    var key, text, rest := Quote(ks[i]), Text(v.fields[ks[i]]), ObjText(v, ks, i + 1);
    Assoc(before, Comma(i), key + ([58] + (text + rest)));
    Assoc(key, [58], text + rest);
    Assoc(before + Comma(i), key + [58], text + rest);
    Assoc(before + Comma(i) + (key + [58]), text, rest);
  }

  /** What is left once one step already exceeds a total. */
  lemma NoRoom(nodes: nat, bytes: nat, step: Cost, rest: Cost, nodes0: nat, bytes0: nat, all: Cost)
    requires !Room(nodes, bytes, step)
    requires nodes + Sum(step, rest).nodes == nodes0 + all.nodes && bytes + Sum(step, rest).bytes == bytes0 + all.bytes
    ensures !Room(nodes0, bytes0, all)
  {
  }

  predicate Canonicalizable(v: Json) { Accepted(v, 0) && Room(0, 0, CostOf(v)) }

  method Canonicalize(v: Json) returns (r: Option<Js>)
    ensures r == if Canonicalizable(v) then Some(Text(v)) else None
    ensures r.Some? ==> Parse(r.value) == Some(v)
  {
    if Canonicalizable(v) {
      AcceptedClean(v, 0);
      ParseInverse(v);
    }
    var w := new Writer();
    var ok := w.Walk(v, 0);
    if !ok {
      return None;
    }
    var text := JoinParts(w.parts);
    assert text == [] + Text(v) == Text(v);
    return Some(text);
  }

  method JoinParts(parts: seq<Js>) returns (text: Js)
    ensures text == Join(parts)
  {
    text := [];
    for i := 0 to |parts|
      invariant text == Join(parts[..i])
    {
      assert parts[..i + 1][..i] == parts[..i];
      text := text + parts[i];
    }
    assert parts[..|parts|] == parts;
  }
}
