/** Random segment layout: whatever the random source returns, the generated segments tile the
    key body in pieces of at least eight characters, one of them counter-based. */
module KeyLayout {
  import opened Wrappers

  const MIN_SEGMENT: nat := 8
  const CHECKSUM: nat := 12
  const MIN_KEY: nat := 20
  const MAX_KEY: nat := 512
  const MAX_TUMBLERS: nat := 8
  const MIN_WINDOW: nat := 30
  const MAX_WINDOW: nat := 300

  datatype Range = Range(start: nat, end: nat)

  /** The ranges cover [0, total) in order, without gaps, each at least the minimum long. */
  predicate Tiles(r: seq<Range>, total: nat) {
    && |r| > 0 && r[0].start == 0 && Last(r).end == total
    && (forall i | 0 <= i < |r| :: r[i].start + MIN_SEGMENT <= r[i].end)
    && (forall i | 0 < i < |r| :: r[i - 1].end == r[i].start)
  }

  // ── sorting ──

  predicate Ascending(s: seq<int>) { forall i, j | 0 <= i < j < |s| :: s[i] <= s[j] }

  predicate AtMost(s: seq<int>, y: int) { forall i | 0 <= i < |s| :: s[i] <= y }

  function Insert(s: seq<int>, x: int): (r: seq<int>)
    requires Ascending(s)
    ensures Ascending(r) && multiset(r) == multiset(s) + multiset{x}
    ensures forall y | AtMost(s, y) && x <= y :: AtMost(r, y)
  {
    if |s| == 0 then [x]
    else if Last(s) <= x then s + [x]
    else
      assert s == s[..|s| - 1] + [Last(s)];
      assert AtMost(s[..|s| - 1], Last(s));
      Insert(s[..|s| - 1], x) + [Last(s)]
  }

  /** Array.prototype.sort with the numeric comparator. */
  function SortUp(s: seq<int>): (r: seq<int>)
    ensures Ascending(r) && multiset(r) == multiset(s)
  {
    if |s| == 0 then []
    else
      assert s == s[..|s| - 1] + [Last(s)];
      Insert(SortUp(s[..|s| - 1]), Last(s))
  }

  lemma LastInOther(a: seq<int>, b: seq<int>)
    requires Ascending(a) && Ascending(b) && |a| > 0 && multiset(a) == multiset(b)
    ensures |b| > 0 && Last(a) <= Last(b)
  {
    assert Last(a) in multiset(a);
    assert Last(a) in b;
    var i :| 0 <= i < |b| && b[i] == Last(a);
  }

  /** A sorted list is determined by its elements. */
  lemma {:induction false} SortedUnique(a: seq<int>, b: seq<int>)
    requires Ascending(a) && Ascending(b) && multiset(a) == multiset(b)
    ensures a == b
  {
    if |a| == 0 {
      assert |multiset(b)| == 0;
    } else {
      LastInOther(a, b);
      LastInOther(b, a);
      WithoutLast(a);
      WithoutLast(b);
      SortedUnique(a[..|a| - 1], b[..|b| - 1]);
    }
  }

  lemma WithoutLast(a: seq<int>)
    requires |a| > 0 && Ascending(a)
    ensures a == a[..|a| - 1] + [Last(a)] && Ascending(a[..|a| - 1])
    ensures multiset(a[..|a| - 1]) == multiset(a) - multiset{Last(a)}
  {
    assert a == a[..|a| - 1] + [Last(a)];
    assert multiset(a) == multiset(a[..|a| - 1]) + multiset{Last(a)};
  }

  // ── boundaries ──

  function Clamp(x: int, low: int, high: int): int {
    var capped := if high <= x then high else x;
    if low <= capped then capped else low
  }

  /** Cut points with room for every piece before and after. */
  predicate Spaced(b: seq<int>, total: nat, count: nat) {
    && |b| > 0 && b[0] == 0
    && (forall i | 0 < i < |b| :: b[i - 1] + MIN_SEGMENT <= b[i])
    && (forall i | 0 < i < |b| && i < count :: b[i] + (count - i) * MIN_SEGMENT <= total)
  }

  lemma {:induction false} SpacedAscends(b: seq<int>, total: nat, count: nat, i: nat, j: nat)
    requires Spaced(b, total, count) && i < j < |b|
    ensures b[i] < b[j]
  {
    if i < j - 1 {
      SpacedAscends(b, total, count, i, j - 1);
    }
  }

  /** `jitter` and `pick` are the random choices: any offset, and any index up to i. */
  method RandomSegments(total: nat, count: nat, jitter: nat -> int, pick: nat -> nat)
    returns (r: Result<seq<Range>, string>)
    requires forall i :: pick(i) <= i
    ensures r.Ok? <==> count > 0 && total >= count * MIN_SEGMENT
    ensures r.Ok? ==> |r.value| == count && Tiles(r.value, total)
    ensures r.Ok? ==> CutsRight(r.value, total, jitter)
  {
    if count == 0 || total < count * MIN_SEGMENT {
      return Err("RangeError");
    }
    var boundaries := Boundaries(total, count, jitter);
    MidAscending(boundaries, total, count);
    var sorted := Reorder(boundaries[1..], pick);
    assert [0] + sorted == boundaries;
    var cuts := [0] + sorted + [total as int];
    CutsSpaced(boundaries, cuts, total, count);
    var ranges := Pieces(cuts, total, count);
    return Ok(ranges);
  }

  /** Shuffling cut points and sorting them again changes nothing. */
  method Reorder(cuts: seq<int>, pick: nat -> nat) returns (sorted: seq<int>)
    requires Ascending(cuts) && forall i :: pick(i) <= i
    ensures sorted == cuts
  {
    var mid := new int[|cuts|](k requires 0 <= k < |cuts| => cuts[k]);
    assert mid[..] == cuts;
    Shuffle(mid, pick);
    sorted := SortUp(mid[..]);
    SortedUnique(sorted, cuts);
  }

  lemma CutsSpaced(b: seq<int>, cuts: seq<int>, total: nat, count: nat)
    requires Spaced(b, total, count) && |b| == count && count > 0 && total >= count * MIN_SEGMENT
    requires cuts == b + [total as int]
    ensures forall i | 0 <= i < count :: cuts[i] + MIN_SEGMENT <= cuts[i + 1]
  {
    Room(b, total, count, count);
    forall i | 0 <= i < count
      ensures cuts[i] + MIN_SEGMENT <= cuts[i + 1]
    {
      if i + 1 < count {
        assert b[i + 1 - 1] + MIN_SEGMENT <= b[i + 1];
      }
    }
  }

  /** The i-th cut: its share of the whole plus the jitter, no nearer than eight to the cut before
      and leaving eight for every piece still to come. */
  function CutAt(before: int, total: nat, count: nat, jitter: nat -> int, i: nat): int
    requires 0 < i < count
  {
    var wanted, least, most := i * (total / count) + jitter(i), before + 8, total - 8 * (count - i);
    if wanted > most then if most < least then least else most
    else if wanted < least then least else wanted
  }

  /** Every piece starts at its cut. */
  predicate CutsRight(r: seq<Range>, total: nat, jitter: nat -> int) {
    forall i | 0 < i < |r| :: r[i].start == CutAt(r[i - 1].start, total, |r|, jitter, i)
  }

  method Boundaries(total: nat, count: nat, jitter: nat -> int) returns (boundaries: seq<int>)
    requires count > 0 && total >= count * MIN_SEGMENT
    ensures |boundaries| == count && Spaced(boundaries, total, count)
    ensures forall i | 0 < i < count :: boundaries[i] == CutAt(boundaries[i - 1], total, count, jitter, i)
  {
    var base := total / count;
    boundaries := [0];
    for i := 1 to count
      invariant |boundaries| == i && Spaced(boundaries, total, count)
      invariant forall k | 0 < k < i :: boundaries[k] == CutAt(boundaries[k - 1], total, count, jitter, k)
    {
      var low := boundaries[i - 1] + MIN_SEGMENT;
      var high := total - (count - i) * MIN_SEGMENT;
      Room(boundaries, total, count, i);
      boundaries := boundaries + [Clamp(i * base + jitter(i), low, high)];
    }
  }

  lemma Room(b: seq<int>, total: nat, count: nat, i: nat)
    requires Spaced(b, total, count) && |b| == i && 0 < i <= count && total >= count * MIN_SEGMENT
    ensures b[i - 1] + MIN_SEGMENT <= total - (count - i) * MIN_SEGMENT
  {
  }

  lemma MidAscending(b: seq<int>, total: nat, count: nat)
    requires Spaced(b, total, count)
    ensures Ascending(b[1..])
  {
    forall i, j | 0 <= i < j < |b[1..]|
      ensures b[1..][i] <= b[1..][j]
    {
      SpacedAscends(b, total, count, i + 1, j + 1);
    }
  }

  /** Fisher-Yates in place: some permutation. */
  method Shuffle(a: array<int>, pick: nat -> nat)
    requires forall i :: pick(i) <= i
    modifies a
    ensures multiset(a[..]) == multiset(old(a[..]))
  {
    var i := a.Length - 1;
    while i > 0
      invariant -1 <= i < a.Length
      invariant multiset(a[..]) == multiset(old(a[..]))
    {
      var j := pick(i);
      a[i], a[j] := a[j], a[i];
      i := i - 1;
    }
  }

  method Pieces(cuts: seq<int>, total: nat, count: nat) returns (r: seq<Range>)
    requires |cuts| == count + 1 && count > 0 && cuts[0] == 0 && cuts[count] == total
    requires forall i | 0 <= i < count :: cuts[i] + MIN_SEGMENT <= cuts[i + 1]
    ensures |r| == count && Tiles(r, total) && forall i | 0 <= i < count :: r[i].start == cuts[i]
  {
    r := [];
    for i := 0 to count
      invariant |r| == i && cuts[i] >= 0
      invariant forall k | 0 <= k < i :: r[k].start == cuts[k] && r[k].end == cuts[k + 1]
    {
      r := r + [Range(cuts[i], cuts[i + 1])];
    }
    forall k | 0 <= k < count
      ensures r[k].start + MIN_SEGMENT <= r[k].end
    {
      assert cuts[k] + MIN_SEGMENT <= cuts[k + 1];
    }
  }

  // ── the generated map ──

  datatype Options = Options(keyLength: int, minTumblers: int, maxTumblers: int, windows: seq<int>)

  /** validateOptions. */
  predicate OptionsOk(o: Options) {
    && MIN_KEY <= o.keyLength <= MAX_KEY
    && 1 <= o.minTumblers <= o.maxTumblers <= MAX_TUMBLERS
    && |o.windows| > 0 && (forall i | 0 <= i < |o.windows| :: MIN_WINDOW <= o.windows[i] <= MAX_WINDOW)
    && (o.maxTumblers + 1) * MIN_SEGMENT + CHECKSUM <= o.keyLength
  }

  /** The bounds in numbers: 20 to 512 characters, 1 to 8 tumblers, windows of 30 to 300 seconds,
      and room for eight characters each and a checksum of twelve. */
  lemma OptionsBounds(o: Options)
    ensures OptionsOk(o) <==>
            && 20 <= o.keyLength <= 512 && 1 <= o.minTumblers <= o.maxTumblers <= 8
            && |o.windows| > 0 && (forall w | w in o.windows :: 30 <= w <= 300)
            && 8 * (o.maxTumblers + 1) + 12 <= o.keyLength
  {
    assert forall i | 0 <= i < |o.windows| :: o.windows[i] in o.windows;
  }

  /** And the layout in numbers: pieces of eight characters or more, then the twelve. */
  lemma LayoutBounds(m: TumblerMap, o: Options)
    requires Generated(m, o)
    ensures forall i | 0 <= i < |m.segments| :: m.segments[i].range.end - m.segments[i].range.start >= 8
    ensures m.checksum.end == m.keyLength == m.checksum.start + 12 == o.keyLength
  {
    assert forall i | 0 <= i < |m.segments| :: Ranges(m.segments)[i] == m.segments[i].range;
  }

  /** `windowSec` with its default filled in; a stored counter may be any integer. */
  datatype Kind = Static | Totp(windowSec: nat) | Hotp(counter: int)
  datatype Segment = Segment(id: string, range: Range, kind: Kind)
  datatype TumblerMap = TumblerMap(keyLength: nat, segments: seq<Segment>, checksum: Range)

  /** Every random choice of one generation. */
  datatype Choices = Choices(extra: nat, hotpAt: nat, jitter: nat -> int, pick: nat -> nat, totp: nat -> bool,
                             window: nat -> nat, id: nat -> string)

  /** The bounds asked of the random source. */
  ghost predicate Drawn(o: Options, c: Choices) {
    && c.extra <= o.maxTumblers - o.minTumblers && 1 <= c.hotpAt <= o.minTumblers + c.extra
    && (forall i :: c.pick(i) <= i) && (forall i :: c.window(i) < |o.windows|)
  }

  function Ranges(segments: seq<Segment>): (r: seq<Range>)
    ensures |r| == |segments| && forall i | 0 <= i < |r| :: r[i] == segments[i].range
  {
    seq(|segments|, i requires 0 <= i < |segments| => segments[i].range)
  }

  /** A generated map: the body tiled, the checksum behind it, a static anchor, then tumblers
      with allowed windows and counters at zero, at least one of them counter-based. */
  predicate Generated(m: TumblerMap, o: Options) {
    && m.keyLength == o.keyLength >= CHECKSUM
    && m.checksum == Range(m.keyLength - CHECKSUM, m.keyLength)
    && Tiles(Ranges(m.segments), m.keyLength - CHECKSUM)
    && m.segments[0].kind == Static
    && (exists i | 0 < i < |m.segments| :: m.segments[i].kind == Hotp(0))
    && (forall i | 0 < i < |m.segments| :: TumblerKind(m.segments[i].kind, o))
  }

  predicate TumblerKind(k: Kind, o: Options) { k == Hotp(0) || (k.Totp? && k.windowSec in o.windows) }

  /** Counter-based where it must be or was drawn so, and otherwise the drawn window. */
  ghost predicate KindsRight(s: seq<Segment>, o: Options, c: Choices)
    requires OptionsOk(o) && Drawn(o, c)
  {
    forall i: nat | 0 < i < |s| ::
      if i == c.hotpAt || !c.totp(i) then s[i].kind == Hotp(0) else s[i].kind == Totp(o.windows[c.window(i)])
  }

  /** What the choices make of the options. */
  ghost predicate Produced(m: TumblerMap, o: Options, c: Choices)
    requires OptionsOk(o) && Drawn(o, c)
  {
    && Generated(m, o) && |m.segments| == o.minTumblers + c.extra + 1
    && (forall i: nat | i < |m.segments| :: m.segments[i].id == c.id(i))
    && KindsRight(m.segments, o, c) && CutsRight(Ranges(m.segments), m.checksum.start, c.jitter)
  }

  lemma CountFits(o: Options, c: Choices)
    requires OptionsOk(o) && Drawn(o, c)
    ensures 8 * (o.minTumblers + c.extra + 1) <= o.keyLength - CHECKSUM
  {
  }

  method GenerateMap(o: Options, c: Choices) returns (r: Result<TumblerMap, string>)
    requires OptionsOk(o) ==> Drawn(o, c)
    ensures r.Ok? <==> OptionsOk(o)
    ensures r.Ok? ==> Produced(r.value, o, c)
  {
    if !OptionsOk(o) {
      return Err("RangeError");
    }
    var count := o.minTumblers + c.extra + 1;
    CountFits(o, c);
    var ranges := RandomSegments(o.keyLength - CHECKSUM, count, c.jitter, c.pick);
    var segments := NameSegments(o, c, ranges.value);
    var m := TumblerMap(o.keyLength, segments, Range(o.keyLength - CHECKSUM, o.keyLength));
    NamedGenerated(o, c, ranges.value, m);
    return Ok(m);
  }

  method NameSegments(o: Options, c: Choices, positions: seq<Range>) returns (segments: seq<Segment>)
    requires OptionsOk(o) && Drawn(o, c)
    ensures NamedAs(segments, positions, o, c)
  {
    segments := [];
    for i := 0 to |positions|
      invariant |segments| == i
      invariant forall k | 0 <= k < i :: segments[k] == Segment(c.id(k), positions[k], KindAt(o, c, k))
    {
      segments := segments + [Segment(c.id(i), positions[i], KindAt(o, c, i))];
    }
  }

  ghost predicate NamedAs(segments: seq<Segment>, positions: seq<Range>, o: Options, c: Choices)
    requires OptionsOk(o) && Drawn(o, c)
  {
    && |segments| == |positions|
    && forall k: nat | k < |segments| :: segments[k] == Segment(c.id(k), positions[k], KindAt(o, c, k))
  }

  lemma NamedKinds(s: seq<Segment>, positions: seq<Range>, o: Options, c: Choices)
    requires OptionsOk(o) && Drawn(o, c) && NamedAs(s, positions, o, c) && |s| == o.minTumblers + c.extra + 1
    ensures KindsRight(s, o, c) && Ranges(s) == positions && s[0].kind == Static && s[c.hotpAt].kind == Hotp(0)
    ensures forall i | 0 < i < |s| :: TumblerKind(s[i].kind, o)
  {
  }

  lemma NamedGenerated(o: Options, c: Choices, positions: seq<Range>, m: TumblerMap)
    requires OptionsOk(o) && Drawn(o, c) && NamedAs(m.segments, positions, o, c)
    requires |m.segments| == o.minTumblers + c.extra + 1
    requires Tiles(positions, o.keyLength - CHECKSUM) && CutsRight(positions, o.keyLength - CHECKSUM, c.jitter)
    requires m.keyLength == o.keyLength && m.checksum == Range(o.keyLength - CHECKSUM, o.keyLength)
    ensures Produced(m, o, c)
  {
    NamedKinds(m.segments, positions, o, c);
  }

  function KindAt(o: Options, c: Choices, i: nat): (k: Kind)
    requires OptionsOk(o) && Drawn(o, c)
    ensures i > 0 ==> TumblerKind(k, o)
  {
    if i == 0 then Static
    else if i != c.hotpAt && c.totp(i) then Totp(o.windows[c.window(i)])
    else Hotp(0)
  }
}
