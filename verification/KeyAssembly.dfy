/** The key a server writes position by position and the key a client concatenates. */
module KeyAssembly {
  import opened Wrappers
  import opened KeyLayout

  const MAC_CHARS: nat := 43
  const MAX_COUNTER: nat := 2_147_483_647

  /** What the MAC is taken over. */
  datatype Derivation =
    | StaticIn(id: string)
    | TotpIn(id: string, window: int)
    | HotpIn(id: string, counter: int)
    | PadIn(round: nat, prefix: string)
    | ChecksumIn(body: string)

  /** HMAC under the shared secret, as base64url text. */
  type Mac = Derivation -> string

  ghost predicate MacOk(mac: Mac) { forall d :: |mac(d)| == MAC_CHARS }

  // ── padding ──

  function Padded(mac: Mac, result: string, round: nat, length: nat): (s: string)
    requires MacOk(mac)
    ensures |s| >= length && result <= s
    decreases if |result| < length then length - |result| else 0
  {
    if |result| >= length then result
    else
      assert |mac(PadIn(round, result))| == MAC_CHARS;
      Padded(mac, result + mac(PadIn(round, result)), round + 1, length)
  }

  function Derive(mac: Mac, d: Derivation, length: nat): (s: string)
    requires MacOk(mac)
    ensures |s| == length
  {
    Padded(mac, mac(d), 0, length)[..length]
  }

  /** Padding goes on in blocks of one MAC each: block k is the MAC over its round and all the
      characters before it. */
  lemma {:induction false} PadBlock(mac: Mac, result: string, round: nat, length: nat, k: nat)
    requires MacOk(mac) && |result| + 43 * k < length
    ensures var s := Padded(mac, result, round, length);
            var at := |result| + 43 * k;
            at + 43 <= |s| && s[at..at + 43] == mac(PadIn(round + k, s[..at]))
    decreases k
  {
    var s, more := Padded(mac, result, round, length), mac(PadIn(round, result));
    assert |more| == MAC_CHARS;
    assert s == Padded(mac, result + more, round + 1, length);
    if k == 0 {
      assert s[..|result|] == result && s[|result|..|result| + 43] == more;
    } else {
      PadBlock(mac, result + more, round + 1, length, k - 1);
    }
  }

  lemma PrefixSlices(s: string, length: nat, at: nat)
    requires at + 43 <= length <= |s|
    ensures s[..length][at..at + 43] == s[at..at + 43] && s[..length][..at] == s[..at]
  {
  }

  /** A segment's value starts with its own MAC, and every later block is padding over what comes
      before it. */
  lemma DerivedBlocks(mac: Mac, d: Derivation, length: nat, k: nat)
    requires MacOk(mac) && 43 * (k + 1) <= length
    ensures var v := Derive(mac, d, length);
            v[43 * k..43 * (k + 1)] == if k == 0 then mac(d) else mac(PadIn(k - 1, v[..43 * k]))
  {
    var s := Padded(mac, mac(d), 0, length);
    assert |mac(d)| == MAC_CHARS;
    if k > 0 {
      PadBlock(mac, mac(d), 0, length, k - 1);
      PrefixSlices(s, length, 43 * k);
    } else {
      PrefixSlices(s, length, 0);
      assert s[..43] == mac(d);
    }
  }

  /** padOrTruncate. */
  method PadOrTruncate(mac: Mac, s: string, length: nat) returns (r: string)
    requires MacOk(mac)
    ensures |r| == length && r == Padded(mac, s, 0, length)[..length]
  {
    if |s| >= length {
      return s[..length];
    }
    var result, round := s, 0;
    while |result| < length
      invariant Padded(mac, s, 0, length) == Padded(mac, result, round, length)
      decreases length - |result|
    {
      var more := mac(PadIn(round, result));
      assert |more| == MAC_CHARS;
      result := result + more;
      round := round + 1;
    }
    return result[..length];
  }

  // ── values of segments ──

  /** Which window a clock is in, for a window length in seconds. */
  type Clock = nat -> int

  function Width(s: Segment): nat { if s.range.start <= s.range.end then s.range.end - s.range.start else 0 }

  function InputOf(s: Segment, clock: Clock): Derivation {
    match s.kind
    case Static => StaticIn(s.id)
    case Totp(w) => TotpIn(s.id, clock(w))
    case Hotp(c) => HotpIn(s.id, c)
  }

  /** assertUsableHOTPDerivationCounter. */
  function CounterFault(c: int): Option<string> {
    if c < 0 || c > MAX_COUNTER then Some("TSK_HOTP_COUNTER_INVALID")
    else if c == MAX_COUNTER then Some("TSK_HOTP_COUNTER_EXHAUSTED")
    else None
  }

  function Fault(s: Segment): Option<string> { if s.kind.Hotp? then CounterFault(s.kind.counter) else None }

  predicate Usable(segments: seq<Segment>) { forall i | 0 <= i < |segments| :: Fault(segments[i]).None? }

  /** The error of the first unusable segment. */
  predicate FirstFault(segments: seq<Segment>, e: string) {
    exists i | 0 <= i < |segments| :: Fault(segments[i]) == Some(e) && Usable(segments[..i])
  }

  /** A counter can be derived from exactly in 0 .. 2147483646; the largest is exhausted, anything
      else invalid. */
  lemma CounterFaultIs(c: int)
    ensures CounterFault(c).None? <==> 0 <= c < 2_147_483_647
    ensures CounterFault(c) == Some("TSK_HOTP_COUNTER_EXHAUSTED") <==> c == 2_147_483_647
    ensures CounterFault(c) == Some("TSK_HOTP_COUNTER_INVALID") <==> c < 0 || c > 2_147_483_647
  {
    assert "TSK_HOTP_COUNTER_EXHAUSTED"[17] != "TSK_HOTP_COUNTER_INVALID"[17];
  }

  /** deriveSegmentValue. */
  function ValueOf(mac: Mac, s: Segment, clock: Clock): (v: string)
    requires MacOk(mac)
    ensures |v| == Width(s)
  {
    Derive(mac, InputOf(s, clock), Width(s))
  }

  /** Every segment's value in order. */
  function Body(mac: Mac, segments: seq<Segment>, clock: Clock): string
    requires MacOk(mac)
  {
    if |segments| == 0 then []
    else Body(mac, segments[..|segments| - 1], clock) + ValueOf(mac, Last(segments), clock)
  }

  /** String.prototype.slice(0, n). */
  function Head(s: string, n: int): string {
    var end := if n < 0 then |s| + n else n;
    if end < 0 then [] else if end < |s| then s[..end] else s
  }

  function ChecksumChars(mac: Mac, body: string, length: int): string { Head(mac(ChecksumIn(body)), length) }

  /** computeChecksum. */
  function Checksum(mac: Mac, body: string): (c: string)
    requires MacOk(mac)
    ensures |c| == CHECKSUM
  {
    assert |mac(ChecksumIn(body))| == MAC_CHARS;
    ChecksumChars(mac, body, CHECKSUM)
  }

  function Key(mac: Mac, segments: seq<Segment>, clock: Clock): string
    requires MacOk(mac)
  {
    Body(mac, segments, clock) + Checksum(mac, Body(mac, segments, clock))
  }

  // ── the server: an array filled by position ──

  /** A JavaScript array of one-character strings; it grows past its length, and an element
      never written joins as the empty string. */
  type Buffer = seq<string>

  function Assign(b: Buffer, i: nat, c: char): Buffer {
    if i < |b| then b[i := [c]] else b + seq(i - |b|, _ => "") + [[c]]
  }

  function Place(b: Buffer, start: nat, value: string): (r: Buffer)
    ensures |r| == if |value| == 0 || start + |value| <= |b| then |b| else start + |value|
    ensures forall p | 0 <= p < |r| ::
              r[p] == if start <= p < start + |value| then [value[p - start]] else if p < |b| then b[p] else ""
  {
    if |value| == 0 then b
    else Assign(Place(b, start, value[..|value| - 1]), start + |value| - 1, Last(value))
  }

  function Join(b: Buffer): string { if |b| == 0 then [] else Join(b[..|b| - 1]) + Last(b) }

  /** The array once these segments are written, in list order. */
  function Painted(mac: Mac, segments: seq<Segment>, keyLength: nat, clock: Clock): (b: Buffer)
    requires MacOk(mac)
    ensures |b| >= keyLength
  {
    if |segments| == 0 then seq(keyLength, _ => "\0")
    else Place(Painted(mac, segments[..|segments| - 1], keyLength, clock), Last(segments).range.start,
               ValueOf(mac, Last(segments), clock))
  }

  function Upto(b: Buffer, n: nat): Buffer { if n <= |b| then b[..n] else b }

  /** The array with its checksum written, joined. */
  function Sealed(mac: Mac, m: TumblerMap, clock: Clock): string
    requires MacOk(mac)
  {
    var b := Painted(mac, m.segments, m.keyLength, clock);
    var sum := ChecksumChars(mac, Join(Upto(b, m.checksum.start)), m.checksum.end - m.checksum.start);
    Join(Place(b, m.checksum.start, sum))
  }

  predicate Covers(s: Segment, p: nat) { s.range.start <= p < s.range.end }

  function CharAt(mac: Mac, s: Segment, clock: Clock, p: nat): char
    requires MacOk(mac) && Covers(s, p)
  {
    ValueOf(mac, s, clock)[p - s.range.start]
  }

  /** A position holds the character of the last listed segment that covers it. */
  lemma {:induction false} LastWriter(mac: Mac, segments: seq<Segment>, keyLength: nat, clock: Clock, k: nat, p: nat)
    requires MacOk(mac) && k < |segments| && Covers(segments[k], p)
    requires forall j | k < j < |segments| :: !Covers(segments[j], p)
    ensures var b := Painted(mac, segments, keyLength, clock);
            p < |b| && b[p] == [CharAt(mac, segments[k], clock, p)]
  {
    if k < |segments| - 1 {
      LastWriter(mac, segments[..|segments| - 1], keyLength, clock, k, p);
      assert !Covers(segments[|segments| - 1], p);
    }
  }

  /** A position no segment covers keeps the fill character, or is a hole past the key length. */
  lemma {:induction false} Unwritten(mac: Mac, segments: seq<Segment>, keyLength: nat, clock: Clock, p: nat)
    requires MacOk(mac) && forall j | 0 <= j < |segments| :: !Covers(segments[j], p)
    ensures var b := Painted(mac, segments, keyLength, clock);
            p < |b| ==> b[p] == if p < keyLength then "\0" else ""
  {
    if |segments| > 0 {
      Unwritten(mac, segments[..|segments| - 1], keyLength, clock, p);
      assert !Covers(segments[|segments| - 1], p);
    }
  }

  lemma {:induction false} PaintedLength(mac: Mac, segments: seq<Segment>, keyLength: nat, clock: Clock)
    requires MacOk(mac) && forall j | 0 <= j < |segments| :: segments[j].range.end <= keyLength
    ensures |Painted(mac, segments, keyLength, clock)| == keyLength
  {
    if |segments| > 0 {
      PaintedLength(mac, segments[..|segments| - 1], keyLength, clock);
      assert segments[|segments| - 1].range.end <= keyLength;
    }
  }

  method FillSegment(b: Buffer, start: nat, value: string) returns (r: Buffer)
    ensures r == Place(b, start, value)
  {
    r := b;
    for i := 0 to |value|
      invariant r == Place(b, start, value[..i])
    {
      assert value[..i + 1][..i] == value[..i];
      r := Assign(r, start + i, value[i]);
    }
    assert value[..|value|] == value;
  }

  method PaintSegments(mac: Mac, segments: seq<Segment>, keyLength: nat, clock: Clock)
    returns (r: Result<Buffer, string>)
    requires MacOk(mac)
    ensures r.Ok? <==> Usable(segments)
    ensures r.Ok? ==> r.value == Painted(mac, segments, keyLength, clock)
    ensures r.Err? ==> FirstFault(segments, r.error)
  {
    var buffer := seq(keyLength, _ => "\0");
    for n := 0 to |segments|
      invariant Usable(segments[..n])
      invariant buffer == Painted(mac, segments[..n], keyLength, clock)
    {
      var s := segments[n];
      var fault := Fault(s);
      if fault.Some? {
        return Err(fault.value);
      }
      assert segments[..n + 1][..n] == segments[..n];
      var value := PadOrTruncate(mac, mac(InputOf(s, clock)), Width(s));
      buffer := FillSegment(buffer, s.range.start, value);
    }
    assert segments[..|segments|] == segments;
    return Ok(buffer);
  }

  /** generateKeyFromMap. */
  method KeyFromMap(mac: Mac, m: TumblerMap, clock: Clock) returns (r: Result<string, string>)
    requires MacOk(mac)
    ensures r.Ok? <==> Usable(m.segments)
    ensures r.Ok? ==> r.value == Sealed(mac, m, clock)
    ensures r.Ok? && Laid(m) ==> r.value == Key(mac, SortByStart(m.segments), clock) && |r.value| == m.keyLength
    ensures r.Err? ==> FirstFault(m.segments, r.error)
  {
    var painted := PaintSegments(mac, m.segments, m.keyLength, clock);
    if painted.Err? {
      return Err(painted.error);
    }
    var withoutChecksum := Join(Upto(painted.value, m.checksum.start));
    var checksum := ChecksumChars(mac, withoutChecksum, m.checksum.end - m.checksum.start);
    var buffer := FillSegment(painted.value, m.checksum.start, checksum);
    if Laid(m) {
      SealedIsKey(mac, m, clock);
    }
    return Ok(Join(buffer));
  }

  // ── maps whose segments, by position, run up to the checksum ──

  /** Consecutive segments that cover [0, total). */
  predicate Contiguous(s: seq<Segment>, total: nat) {
    if |s| == 0 then total == 0
    else
      Last(s).range.start <= Last(s).range.end == total && Contiguous(s[..|s| - 1], Last(s).range.start)
  }

  /** Listed in any order, the segments cover the body without gap or overlap, and a
      twelve-character checksum follows. */
  predicate Laid(m: TumblerMap) {
    && m.keyLength >= CHECKSUM && m.checksum == Range(m.keyLength - CHECKSUM, m.keyLength)
    && Contiguous(SortByStart(m.segments), m.keyLength - CHECKSUM)
  }

  lemma {:induction false} BodyLength(mac: Mac, s: seq<Segment>, total: nat, clock: Clock)
    requires MacOk(mac) && Contiguous(s, total)
    ensures |Body(mac, s, clock)| == total
  {
    if |s| > 0 {
      BodyLength(mac, s[..|s| - 1], Last(s).range.start, clock);
    }
  }

  lemma {:induction false} Within(s: seq<Segment>, total: nat, t: Segment)
    requires Contiguous(s, total) && t in s
    ensures t.range.start <= t.range.end <= total
  {
    if t != Last(s) {
      Within(s[..|s| - 1], Last(s).range.start, t);
    }
  }

  lemma {:induction false} CoveredOnce(s: seq<Segment>, total: nat, t: Segment, u: Segment, p: nat)
    requires Contiguous(s, total) && t in s && u in s && Covers(t, p) && Covers(u, p)
    ensures t == u
  {
    var init, last := s[..|s| - 1], Last(s);
    if t != last {
      Within(init, last.range.start, t);
    }
    if u != last {
      Within(init, last.range.start, u);
    }
    if t != last && u != last {
      CoveredOnce(init, last.range.start, t, u, p);
    }
  }

  /** The segment that covers a position of the body. */
  lemma {:induction false} Covering(s: seq<Segment>, total: nat, p: nat) returns (t: Segment)
    requires Contiguous(s, total) && p < total
    ensures t in s && Covers(t, p)
  {
    if p >= Last(s).range.start {
      t := Last(s);
    } else {
      t := Covering(s[..|s| - 1], Last(s).range.start, p);
    }
  }

  lemma {:induction false} BodyAt(mac: Mac, s: seq<Segment>, total: nat, clock: Clock, t: Segment, p: nat)
    requires MacOk(mac) && Contiguous(s, total) && t in s && Covers(t, p)
    ensures p < |Body(mac, s, clock)| && Body(mac, s, clock)[p] == CharAt(mac, t, clock, p)
  {
    var init, last := s[..|s| - 1], Last(s);
    BodyLength(mac, init, last.range.start, clock);
    if t != last {
      Within(init, last.range.start, t);
      BodyAt(mac, init, last.range.start, clock, t, p);
    }
  }

  ghost predicate SameElements(a: seq<Segment>, b: seq<Segment>) { forall t :: t in a <==> t in b }

  lemma LastCover(segments: seq<Segment>, t: Segment, p: nat) returns (k: nat)
    requires t in segments && Covers(t, p)
    ensures k < |segments| && Covers(segments[k], p) && forall j | k < j < |segments| :: !Covers(segments[j], p)
  {
    k := |segments| - 1;
    while !Covers(segments[k], p)
      invariant k < |segments| && forall j | k < j < |segments| :: !Covers(segments[j], p)
      decreases k
    {
      assert exists j | 0 <= j < |segments| :: segments[j] == t;
      k := k - 1;
    }
  }

  /** Written in any order, the body comes out in positional order. */
  lemma PaintedBody(mac: Mac, segments: seq<Segment>, sorted: seq<Segment>, keyLength: nat, total: nat, clock: Clock)
    requires MacOk(mac) && SameElements(segments, sorted) && Contiguous(sorted, total) && total <= keyLength
    ensures var b, body := Painted(mac, segments, keyLength, clock), Body(mac, sorted, clock);
            |b| == keyLength && |body| == total && forall p | 0 <= p < total :: b[p] == [body[p]]
  {
    var b, body := Painted(mac, segments, keyLength, clock), Body(mac, sorted, clock);
    BodyLength(mac, sorted, total, clock);
    forall j | 0 <= j < |segments|
      ensures segments[j].range.end <= keyLength
    {
      Within(sorted, total, segments[j]);
    }
    PaintedLength(mac, segments, keyLength, clock);
    forall p | 0 <= p < total
      ensures b[p] == [body[p]]
    {
      var t := Covering(sorted, total, p);
      BodyAt(mac, sorted, total, clock, t, p);
      var k := LastCover(segments, t, p);
      CoveredOnce(sorted, total, t, segments[k], p);
      LastWriter(mac, segments, keyLength, clock, k, p);
    }
  }

  lemma {:induction false} JoinSingles(b: Buffer, s: string)
    requires |b| == |s| && forall p | 0 <= p < |b| :: b[p] == [s[p]]
    ensures Join(b) == s
  {
    if |b| > 0 {
      JoinSingles(b[..|b| - 1], s[..|s| - 1]);
      assert s == s[..|s| - 1] + [Last(s)];
    }
  }

  lemma SealedIsKey(mac: Mac, m: TumblerMap, clock: Clock)
    requires MacOk(mac) && Laid(m)
    ensures Sealed(mac, m, clock) == Key(mac, SortByStart(m.segments), clock)
    ensures |Sealed(mac, m, clock)| == m.keyLength
  {
    var sorted := SortByStart(m.segments);
    SortElements(m.segments);
    PaintedBody(mac, m.segments, sorted, m.keyLength, m.keyLength - CHECKSUM, clock);
    SealedBody(mac, m, clock, Body(mac, sorted, clock));
  }

  lemma SealedBody(mac: Mac, m: TumblerMap, clock: Clock, body: string)
    requires MacOk(mac) && m.keyLength == |body| + CHECKSUM && m.checksum == Range(|body|, m.keyLength)
    requires var b := Painted(mac, m.segments, m.keyLength, clock);
             |b| == m.keyLength && forall p | 0 <= p < |body| :: b[p] == [body[p]]
    ensures Sealed(mac, m, clock) == body + Checksum(mac, body)
  {
    var b := Painted(mac, m.segments, m.keyLength, clock);
    JoinSingles(b[..|body|], body);
    SealSingles(b, body, Checksum(mac, body));
  }

  lemma SealSingles(b: Buffer, body: string, sum: string)
    requires |b| == |body| + |sum| && forall p | 0 <= p < |body| :: b[p] == [body[p]]
    ensures Join(Place(b, |body|, sum)) == body + sum
  {
    JoinSingles(Place(b, |body|, sum), body + sum);
  }

  // ── the client: parts in provisioned order ──

  datatype ClientSegment = ClientSegment(id: string, length: nat, kind: Kind)
  datatype Payload = Payload(segments: seq<ClientSegment>, keyLength: nat, checksumLength: int)

  /** A stable sort by start position. */
  function InsertByStart(s: seq<Segment>, x: Segment): seq<Segment> {
    if |s| == 0 || Last(s).range.start <= x.range.start then s + [x]
    else InsertByStart(s[..|s| - 1], x) + [Last(s)]
  }

  function SortByStart(s: seq<Segment>): seq<Segment> {
    if |s| == 0 then [] else InsertByStart(SortByStart(s[..|s| - 1]), Last(s))
  }

  lemma {:induction false} InsertElements(s: seq<Segment>, x: Segment, t: Segment)
    ensures t in InsertByStart(s, x) <==> t in s || t == x
  {
    if |s| > 0 && Last(s).range.start > x.range.start {
      InsertElements(s[..|s| - 1], x, t);
      InSnoc(s, t);
    }
  }

  lemma InSnoc(s: seq<Segment>, t: Segment)
    requires |s| > 0
    ensures t in s <==> t in s[..|s| - 1] || t == Last(s)
  {
    assert s == s[..|s| - 1] + [Last(s)];
  }

  lemma {:induction false} SortElement(s: seq<Segment>, t: Segment)
    ensures t in SortByStart(s) <==> t in s
  {
    if |s| > 0 {
      SortElement(s[..|s| - 1], t);
      InsertElements(SortByStart(s[..|s| - 1]), Last(s), t);
      InSnoc(s, t);
    }
  }

  lemma SortElements(s: seq<Segment>)
    ensures SameElements(s, SortByStart(s))
  {
    forall t
      ensures t in s <==> t in SortByStart(s)
    {
      SortElement(s, t);
    }
  }

  function Strip(s: seq<Segment>): (p: seq<ClientSegment>)
    ensures |p| == |s|
  {
    seq(|s|, i requires 0 <= i < |s| => ClientSegment(s[i].id, Width(s[i]), s[i].kind))
  }

  /** toProvisionPayload: the segments in positional order, without their positions. */
  function Provision(m: TumblerMap): Payload { Payload(Strip(SortByStart(m.segments)), m.keyLength, CHECKSUM) }

  lemma {:induction false} Ordered(r: seq<Range>, total: nat, i: nat, j: nat)
    requires Tiles(r, total) && i < j < |r|
    ensures r[i].start < r[j].start
  {
    assert r[j - 1].end == r[j].start;
    if i < j - 1 {
      Ordered(r, total, i, j - 1);
    }
  }

  lemma {:induction false} SortKeeps(s: seq<Segment>, n: nat)
    requires n <= |s| && InOrder(s)
    ensures SortByStart(s[..n]) == s[..n]
  {
    if n > 0 {
      SortKeeps(s, n - 1);
      assert s[..n][..n - 1] == s[..n - 1];
      assert s[..n - 1] + [s[n - 1]] == s[..n];
    }
  }

  lemma {:induction false} TilesContiguous(s: seq<Segment>, total: nat)
    requires Tiles(Ranges(s), total)
    ensures Contiguous(s, total)
  {
    var init, r := s[..|s| - 1], Ranges(s);
    assert Last(r) == Last(s).range;
    assert forall i | 0 <= i < |init| :: Ranges(init)[i] == r[i];
    if |init| > 0 {
      assert r[|r| - 1 - 1].end == r[|r| - 1].start;
      TilesContiguous(init, Last(s).range.start);
    }
  }

  predicate InOrder(s: seq<Segment>) { forall i, j | 0 <= i < j < |s| :: s[i].range.start <= s[j].range.start }

  lemma TilesInOrder(s: seq<Segment>, total: nat)
    requires Tiles(Ranges(s), total)
    ensures InOrder(s)
  {
    forall i, j | 0 <= i < j < |s|
      ensures s[i].range.start <= s[j].range.start
    {
      Ordered(Ranges(s), total, i, j);
    }
  }

  lemma TilesSorted(s: seq<Segment>, total: nat)
    requires Tiles(Ranges(s), total)
    ensures SortByStart(s) == s && Contiguous(s, total)
  {
    TilesInOrder(s, total);
    SortKeeps(s, |s|);
    assert s[..|s|] == s;
    TilesContiguous(s, total);
  }

  /** A generated map is laid out, and its segments already are in positional order. */
  lemma GeneratedLaid(m: TumblerMap, o: Options)
    requires Generated(m, o)
    ensures Laid(m) && SortByStart(m.segments) == m.segments
  {
    TilesSorted(m.segments, m.keyLength - CHECKSUM);
  }

  /** The client's counter for a segment: its own, else the provisioned one. */
  function CounterOf(s: ClientSegment, counters: map<string, int>): int {
    if s.id in counters then counters[s.id] else if s.kind.Hotp? then s.kind.counter else 0
  }

  function ClientInput(s: ClientSegment, counters: map<string, int>, clock: Clock): Derivation {
    match s.kind
    case Static => StaticIn(s.id)
    case Totp(w) => TotpIn(s.id, clock(w))
    case Hotp(_) => HotpIn(s.id, CounterOf(s, counters))
  }

  function ClientFault(s: ClientSegment, counters: map<string, int>): Option<string> {
    if s.kind.Hotp? then CounterFault(CounterOf(s, counters)) else None
  }

  predicate ClientUsable(p: seq<ClientSegment>, counters: map<string, int>) {
    forall i | 0 <= i < |p| :: ClientFault(p[i], counters).None?
  }

  function ClientBody(mac: Mac, p: seq<ClientSegment>, counters: map<string, int>, clock: Clock): string
    requires MacOk(mac)
  {
    if |p| == 0 then []
    else
      ClientBody(mac, p[..|p| - 1], counters, clock) +
      Derive(mac, ClientInput(Last(p), counters, clock), Last(p).length)
  }

  /** generateKeyFromClientPayload. */
  method ClientKey(mac: Mac, p: Payload, counters: map<string, int>, clock: Clock) returns (r: Result<string, string>)
    requires MacOk(mac)
    ensures r.Ok? <==> ClientUsable(p.segments, counters)
    ensures r.Ok? ==> var body := ClientBody(mac, p.segments, counters, clock);
                      r.value == body + ChecksumChars(mac, body, p.checksumLength)
  {
    var body := "";
    for n := 0 to |p.segments|
      invariant ClientUsable(p.segments[..n], counters)
      invariant body == ClientBody(mac, p.segments[..n], counters, clock)
    {
      var s := p.segments[n];
      var fault := ClientFault(s, counters);
      if fault.Some? {
        return Err(fault.value);
      }
      assert p.segments[..n + 1][..n] == p.segments[..n];
      var value := PadOrTruncate(mac, mac(ClientInput(s, counters, clock)), s.length);
      body := body + value;
    }
    assert p.segments[..|p.segments|] == p.segments;
    return Ok(body + ChecksumChars(mac, body, p.checksumLength));
  }

  // ── agreement ──

  function Counted(s: Segment, counters: map<string, int>): Segment {
    if s.kind.Hotp? && s.id in counters then s.(kind := Hotp(counters[s.id])) else s
  }

  /** The server's segments as they stand once the client's counters are stored in them. */
  function WithCounters(segments: seq<Segment>, counters: map<string, int>): (r: seq<Segment>)
    ensures |r| == |segments| && forall i | 0 <= i < |r| :: r[i] == Counted(segments[i], counters)
  {
    seq(|segments|, i requires 0 <= i < |segments| => Counted(segments[i], counters))
  }

  lemma CountedSnoc(s: seq<Segment>, x: Segment, counters: map<string, int>)
    ensures WithCounters(s + [x], counters) == WithCounters(s, counters) + [Counted(x, counters)]
  {
  }

  lemma CountedInit(s: seq<Segment>, counters: map<string, int>)
    requires |s| > 0
    ensures WithCounters(s, counters)[..|s| - 1] == WithCounters(s[..|s| - 1], counters)
    ensures Last(WithCounters(s, counters)) == Counted(Last(s), counters)
  {
  }

  lemma {:induction false} InsertCounted(s: seq<Segment>, x: Segment, counters: map<string, int>)
    ensures InsertByStart(WithCounters(s, counters), Counted(x, counters)) ==
            WithCounters(InsertByStart(s, x), counters)
  {
    if |s| == 0 || Last(s).range.start <= x.range.start {
      CountedSnoc(s, x, counters);
    } else {
      InsertCounted(s[..|s| - 1], x, counters);
      CountedSnoc(InsertByStart(s[..|s| - 1], x), Last(s), counters);
    }
    if |s| > 0 {
      CountedInit(s, counters);
    }
  }

  lemma {:induction false} SortCounted(s: seq<Segment>, counters: map<string, int>)
    ensures SortByStart(WithCounters(s, counters)) == WithCounters(SortByStart(s), counters)
  {
    if |s| > 0 {
      SortCounted(s[..|s| - 1], counters);
      CountedInit(s, counters);
      InsertCounted(SortByStart(s[..|s| - 1]), Last(s), counters);
    }
  }

  lemma {:induction false} ContiguousCounted(s: seq<Segment>, total: nat, counters: map<string, int>)
    requires Contiguous(s, total)
    ensures Contiguous(WithCounters(s, counters), total)
  {
    if |s| > 0 {
      ContiguousCounted(s[..|s| - 1], Last(s).range.start, counters);
      CountedInit(s, counters);
    }
  }

  lemma {:induction false} ClientBodyIs(mac: Mac, s: seq<Segment>, counters: map<string, int>, clock: Clock)
    requires MacOk(mac)
    ensures ClientBody(mac, Strip(s), counters, clock) == Body(mac, WithCounters(s, counters), clock)
  {
    if |s| > 0 {
      ClientBodyIs(mac, s[..|s| - 1], counters, clock);
      StripInit(s);
      CountedInit(s, counters);
    }
  }

  lemma StripInit(s: seq<Segment>)
    requires |s| > 0
    ensures Strip(s)[..|s| - 1] == Strip(s[..|s| - 1])
  {
  }

  lemma StripFaults(s: seq<Segment>, counters: map<string, int>)
    ensures ClientUsable(Strip(s), counters) <==> Usable(WithCounters(s, counters))
  {
    forall j | 0 <= j < |s|
      ensures ClientFault(Strip(s)[j], counters) == Fault(WithCounters(s, counters)[j])
    {
    }
  }

  /** Both sides refuse the same counters, in whatever order they meet them. */
  lemma UsableAlike(segments: seq<Segment>, counters: map<string, int>)
    ensures Usable(WithCounters(segments, counters)) <==> ClientUsable(Strip(SortByStart(segments)), counters)
  {
    SortElements(segments);
    UsableElements(segments, counters);
    UsableElements(SortByStart(segments), counters);
    StripFaults(SortByStart(segments), counters);
  }

  ghost predicate AllUsable(s: seq<Segment>, counters: map<string, int>) {
    forall t | t in s :: Fault(Counted(t, counters)).None?
  }

  lemma UsableElements(s: seq<Segment>, counters: map<string, int>)
    ensures Usable(WithCounters(s, counters)) <==> AllUsable(s, counters)
  {
    if Usable(WithCounters(s, counters)) {
      forall t | t in s
        ensures Fault(Counted(t, counters)).None?
      {
        var i :| 0 <= i < |s| && s[i] == t;
        assert Fault(WithCounters(s, counters)[i]).None?;
      }
    }
  }

  /** The map with the client's counters stored. */
  function Stored(m: TumblerMap, counters: map<string, int>): TumblerMap {
    m.(segments := WithCounters(m.segments, counters))
  }

  lemma StoredLaid(m: TumblerMap, counters: map<string, int>)
    requires Laid(m)
    ensures Laid(Stored(m, counters))
    ensures SortByStart(WithCounters(m.segments, counters)) == WithCounters(SortByStart(m.segments), counters)
  {
    SortCounted(m.segments, counters);
    ContiguousCounted(SortByStart(m.segments), m.keyLength - CHECKSUM, counters);
  }

  /** The concatenated client key is the positional server key, character for character, for
      every map whose segments cover the body, in whatever order it lists them. */
  method KeysAgree(mac: Mac, m: TumblerMap, counters: map<string, int>, clock: Clock)
    returns (server: Result<string, string>, client: Result<string, string>)
    requires MacOk(mac)
    ensures server.Ok? <==> client.Ok?
    ensures client.Ok? <==> Usable(WithCounters(m.segments, counters))
    ensures client.Ok? ==> client.value == Key(mac, WithCounters(SortByStart(m.segments), counters), clock)
    ensures Laid(m) && client.Ok? ==> server.value == client.value && |client.value| == m.keyLength
  {
    server := KeyFromMap(mac, Stored(m, counters), clock);
    client := ClientKey(mac, Provision(m), counters, clock);
    UsableAlike(m.segments, counters);
    ClientBodyIs(mac, SortByStart(m.segments), counters, clock);
    if Laid(m) {
      StoredLaid(m, counters);
    }
  }
}
