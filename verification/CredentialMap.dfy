/** The maps the credential store admits: fields in range, and segments that follow each other
    up to the checksum. */
module CredentialMap {
  import opened Wrappers
  import opened Credential

  const MIN_KEY: nat := 20
  const MAX_KEY: nat := 512
  const MIN_SEGMENTS: nat := 2
  const MAX_SEGMENTS: nat := 9
  const MAX_ID: nat := 128
  const MAX_LABEL: nat := 256
  const SECRET_CHARS: nat := 64

  predicate IdChar(c: char) {
    'A' <= c <= 'Z' || 'a' <= c <= 'z' || '0' <= c <= '9' || c in "_.:/-"
  }

  predicate IdOk(s: string) { 1 <= |s| <= MAX_ID && forall i {:trigger IdChar(s[i])} | 0 <= i < |s| :: IdChar(s[i]) }

  predicate HexChar(c: char) { '0' <= c <= '9' || 'a' <= c <= 'f' }

  predicate SecretOk(s: string) { |s| == SECRET_CHARS && forall i {:trigger HexChar(s[i])} | 0 <= i < |s| :: HexChar(s[i]) }

  predicate SafeOr(o: Option<nat>, least: nat) { o.Some? ==> least <= o.value <= MAX_SAFE }

  predicate CoreOk(m: TumblerMap) {
    && IdOk(m.who.clientId) && m.who.version == "1" && m.who.createdAt <= MAX_SAFE
    && MIN_KEY <= m.policy.layout.keyLength <= MAX_KEY
  }

  /** Only time-based segments have a window and only counter-based ones a counter. */
  predicate KindOk(s: Segment) {
    match s.kind
    case Static => s.shape.window.None? && s.counter.None?
    case Totp => s.shape.window.Some? && 1 <= s.shape.window.value <= MAX_SAFE && s.counter.None?
    case Hotp => s.shape.window.None? && s.counter.Some? && s.counter.value <= MAX_COUNTER
  }

  predicate SegmentOk(s: Segment, keyLength: int) {
    IdOk(s.id) && s.shape.start < s.shape.end <= keyLength && KindOk(s)
  }

  predicate Apart(s: Segment, t: Segment) { s.id != t.id }

  predicate UniqueIds(segments: seq<Segment>) {
    forall i, j {:trigger Apart(segments[i], segments[j])} | 0 <= i < j < |segments| :: Apart(segments[i], segments[j])
  }

  /** Where the first n segments end. */
  function EndOf(segments: seq<Segment>, n: nat): int
    requires n <= |segments|
  {
    if n == 0 then 0 else segments[n - 1].shape.end
  }

  predicate Adjoins(segments: seq<Segment>, i: nat)
    requires i < |segments|
  {
    segments[i].shape.start == EndOf(segments, i)
  }

  /** Each segment begins where the one before it ends. */
  predicate Adjoining(segments: seq<Segment>) {
    forall i {:trigger Adjoins(segments, i)} | 0 <= i < |segments| :: Adjoins(segments, i)
  }

  predicate SomeHotp(segments: seq<Segment>) { exists i | 0 <= i < |segments| :: segments[i].kind == Hotp }

  predicate SegmentsOk(segments: seq<Segment>, keyLength: int) {
    forall i {:trigger SegmentOk(segments[i], keyLength)} | 0 <= i < |segments| :: SegmentOk(segments[i], keyLength)
  }

  predicate LayoutOk(m: TumblerMap) {
    var layout := m.policy.layout;
    && MIN_SEGMENTS <= |m.segments| <= MAX_SEGMENTS
    && SegmentsOk(m.segments, layout.keyLength) && UniqueIds(m.segments) && Adjoining(m.segments)
    && layout.checksumStart == EndOf(m.segments, |m.segments|) && layout.checksumEnd == layout.keyLength
    && SomeHotp(m.segments)
  }

  predicate FieldsOk(m: TumblerMap) {
    && SafeOr(m.policy.expiresAt, 0) && SafeOr(m.policy.maxRequests, 0)
    && SafeOr(m.policy.usageWarning, 1) && SafeOr(m.policy.hotpWarning, 1)
    && SafeOr(m.requestCount, 0) && SafeOr(m.lastUsedAt, 0)
    && (m.policy.layout.caption.Some? ==> |m.policy.layout.caption.value| <= MAX_LABEL)
  }

  /** A map without its secret. */
  predicate ValidPublic(m: TumblerMap) { CoreOk(m) && LayoutOk(m) && FieldsOk(m) && CounterStateOk(m) }

  predicate ValidMap(m: TumblerMap) { ValidPublic(m) && SecretOk(m.who.secret) }

  /** validateMap: one pass with a cursor. */
  method ValidateMap(m: TumblerMap, requireSecret: bool) returns (ok: bool)
    ensures ok <==> if requireSecret then ValidMap(m) else ValidPublic(m)
  {
    if !CoreOk(m) || (requireSecret && !SecretOk(m.who.secret)) {
      return false;
    }
    if |m.segments| < MIN_SEGMENTS || |m.segments| > MAX_SEGMENTS {
      return false;
    }
    var cursor, hotp, passed := ScanSegments(m.segments, m.policy.layout.keyLength);
    if !passed {
      return false;
    }
    var layout := m.policy.layout;
    if layout.checksumStart != cursor || layout.checksumEnd != layout.keyLength || hotp < 1 {
      return false;
    }
    return FieldsOk(m) && CounterStateOk(m);
  }

  /** What one pass over the segments establishes. */
  predicate ScanOk(segments: seq<Segment>, keyLength: int) {
    SegmentsOk(segments, keyLength) && UniqueIds(segments) && Adjoining(segments)
  }

  method ScanSegments(segments: seq<Segment>, keyLength: int) returns (cursor: int, hotp: nat, passed: bool)
    ensures passed <==> ScanOk(segments, keyLength)
    ensures passed ==> cursor == EndOf(segments, |segments|) && (hotp > 0 <==> SomeHotp(segments))
  {
    var ids: set<string> := {};
    cursor, hotp, passed := 0, 0, true;
    for n := 0 to |segments|
      invariant passed && ScanOk(segments[..n], keyLength)
      invariant ids == Ids(segments[..n])
      invariant cursor == EndOf(segments, n) && (hotp > 0 <==> SomeHotp(segments[..n]))
    {
      var s := segments[n];
      assert segments[..n + 1] == segments[..n] + [s];
      Snoc(segments[..n], s, keyLength);
      PrefixOk(segments, keyLength, n + 1);
      if !IdOk(s.id) || s.id in ids {
        return cursor, hotp, false;
      }
      ids := ids + {s.id};
      if s.shape.start != cursor || s.shape.end <= s.shape.start || s.shape.end > keyLength || !KindOk(s) {
        return cursor, hotp, false;
      }
      hotp := if s.kind == Hotp then hotp + 1 else hotp;
      cursor := s.shape.end;
    }
    assert segments[..|segments|] == segments;
  }

  function Ids(segments: seq<Segment>): set<string> { set i | 0 <= i < |segments| :: segments[i].id }

  /** What one more segment adds to the checks. */
  lemma Snoc(init: seq<Segment>, s: Segment, keyLength: int)
    ensures ScanOk(init + [s], keyLength) <==>
            ScanOk(init, keyLength) && SegmentOk(s, keyLength) && s.id !in Ids(init) && s.shape.start == EndOf(init, |init|)
    ensures Ids(init + [s]) == Ids(init) + {s.id}
    ensures SomeHotp(init + [s]) <==> SomeHotp(init) || s.kind == Hotp
  {
    var all := init + [s];
    assert all[|init|] == s && forall i | 0 <= i < |init| :: all[i] == init[i];
    SnocIds(init, s);
    SnocAdjoins(init, s);
  }

  lemma SnocIds(init: seq<Segment>, s: Segment)
    ensures UniqueIds(init + [s]) <==> UniqueIds(init) && s.id !in Ids(init)
    ensures Ids(init + [s]) == Ids(init) + {s.id}
  {
    var all := init + [s];
    assert all[|init|] == s && forall i | 0 <= i < |init| :: all[i] == init[i];
    if UniqueIds(all) {
      PrefixUnique(all, |init|);
      assert all[..|init|] == init;
      forall i | 0 <= i < |init|
        ensures init[i].id != s.id
      {
        assert Apart(all[i], all[|init|]);
      }
    }
    if UniqueIds(init) && s.id !in Ids(init) {
      forall i, j | 0 <= i < j < |all|
        ensures Apart(all[i], all[j])
      {
        assert init[i].id in Ids(init);
        assert j < |init| ==> Apart(init[i], init[j]);
      }
    }
  }

  lemma SnocAdjoins(init: seq<Segment>, s: Segment)
    ensures Adjoining(init + [s]) <==> Adjoining(init) && s.shape.start == EndOf(init, |init|)
  {
    var all := init + [s];
    forall i | 0 <= i <= |init|
      ensures EndOf(all, i) == EndOf(init, i)
    {
    }
    assert forall i | 0 <= i < |init| :: Adjoins(all, i) <==> Adjoins(init, i);
    assert Adjoins(all, |init|) <==> s.shape.start == EndOf(init, |init|);
    if Adjoining(init) && s.shape.start == EndOf(init, |init|) {
      forall i | 0 <= i < |all|
        ensures Adjoins(all, i)
      {
        assert i < |init| ==> Adjoins(init, i);
      }
    }
  }

  lemma PrefixUnique(segments: seq<Segment>, n: nat)
    requires n <= |segments| && UniqueIds(segments)
    ensures UniqueIds(segments[..n])
  {
    var init := segments[..n];
    forall i, j | 0 <= i < j < n
      ensures Apart(init[i], init[j])
    {
      assert Apart(segments[i], segments[j]);
    }
  }

  lemma PrefixOk(segments: seq<Segment>, keyLength: int, n: nat)
    requires n <= |segments|
    ensures ScanOk(segments, keyLength) ==> ScanOk(segments[..n], keyLength)
  {
    if ScanOk(segments, keyLength) {
      var init := segments[..n];
      PrefixUnique(segments, n);
      forall i | 0 <= i < n
        ensures SegmentOk(init[i], keyLength) && Adjoins(init, i)
      {
        assert SegmentOk(segments[i], keyLength) && Adjoins(segments, i);
      }
    }
  }

  // ── admission in numbers ──

  predicate Within(o: Option<nat>, least: nat) { o.None? || least <= o.value <= 9_007_199_254_740_991 }

  /** A counter-based segment has a counter and no window, a time-based one a window and no counter,
      a static one neither. */
  predicate OneFactor(s: Segment) {
    && (s.kind == Hotp ==> s.counter.Some? && s.counter.value <= 2_147_483_647 && s.shape.window.None?)
    && (s.kind == Totp ==> s.counter.None? && s.shape.window.Some? && 1 <= s.shape.window.value <= 9_007_199_254_740_991)
    && (s.kind == Static ==> s.counter.None? && s.shape.window.None?)
  }

  /** The segments share the key out up to the checksum: in list order, none empty, no gap and no
      overlap. */
  predicate SharesOut(segments: seq<Segment>, upto: int) {
    && |segments| > 0 && segments[0].shape.start == 0 && segments[|segments| - 1].shape.end == upto
    && (forall i | 0 <= i < |segments| :: segments[i].shape.start < segments[i].shape.end)
    && (forall i | 0 < i < |segments| :: segments[i].shape.start == segments[i - 1].shape.end)
  }

  predicate DistinctlyNamed(segments: seq<Segment>) {
    && (forall i | 0 <= i < |segments| :: IdOk(segments[i].id) && OneFactor(segments[i]))
    && (forall i, j | 0 <= i < j < |segments| :: segments[i].id != segments[j].id)
    && (exists i | 0 <= i < |segments| :: segments[i].kind == Hotp)
  }

  lemma {:induction false} EndsBelow(segments: seq<Segment>, upto: int, i: nat)
    requires SharesOut(segments, upto) && i < |segments|
    ensures segments[i].shape.end <= upto
    decreases |segments| - i
  {
    if i < |segments| - 1 {
      EndsBelow(segments, upto, i + 1);
      assert segments[i + 1].shape.start == segments[i + 1 - 1].shape.end;
    }
  }

  lemma SharesOutIff(s: seq<Segment>, upto: int, keyLength: int)
    requires |s| > 0 && upto <= keyLength
    ensures Adjoining(s) && upto == EndOf(s, |s|) && (forall i | 0 <= i < |s| :: s[i].shape.start < s[i].shape.end) <==>
            SharesOut(s, upto)
  {
    if Adjoining(s) {
      assert Adjoins(s, 0);
      forall i | 0 < i < |s|
        ensures s[i].shape.start == s[i - 1].shape.end
      {
        assert Adjoins(s, i);
      }
    }
  }

  lemma NamedIff(s: seq<Segment>)
    ensures UniqueIds(s) <==> forall i, j | 0 <= i < j < |s| :: s[i].id != s[j].id
  {
    if UniqueIds(s) {
      forall i, j | 0 <= i < j < |s|
        ensures s[i].id != s[j].id
      {
        assert Apart(s[i], s[j]);
      }
    }
  }

  lemma SegmentsIff(s: seq<Segment>, upto: int, keyLength: int)
    requires SharesOut(s, upto) && upto <= keyLength
    ensures SegmentsOk(s, keyLength) <==> forall i | 0 <= i < |s| :: IdOk(s[i].id) && OneFactor(s[i])
  {
    forall i: nat | i < |s|
      ensures SegmentOk(s[i], keyLength) <==> IdOk(s[i].id) && OneFactor(s[i])
    {
      EndsBelow(s, upto, i);
      KindIff(s[i]);
    }
  }

  lemma LayoutIff(m: TumblerMap)
    ensures var l := m.policy.layout;
            LayoutOk(m) <==>
            && 2 <= |m.segments| <= 9 && SharesOut(m.segments, l.checksumStart) && DistinctlyNamed(m.segments)
            && l.checksumStart <= l.keyLength == l.checksumEnd
  {
    var s, l := m.segments, m.policy.layout;
    NamedIff(s);
    if |s| > 0 && l.checksumStart <= l.keyLength {
      SharesOutIff(s, l.checksumStart, l.keyLength);
      if SharesOut(s, l.checksumStart) {
        SegmentsIff(s, l.checksumStart, l.keyLength);
      }
    }
    if SegmentsOk(s, l.keyLength) && |s| > 0 {
      assert SegmentOk(s[|s| - 1], l.keyLength);
      assert forall i | 0 <= i < |s| :: SegmentOk(s[i], l.keyLength);
    }
  }

  lemma KindIff(s: Segment)
    ensures KindOk(s) <==> OneFactor(s)
  {
  }

  /** validateMap accepts exactly a version 1 map with a key of 20 to 512 characters shared out among
      2 to 9 distinctly named segments, a lower-case 256-bit secret, its numbers in range and its
      counter state sound. */
  lemma AdmissionInNumbers(m: TumblerMap)
    ensures ValidMap(m) <==>
            && IdOk(m.who.clientId) && m.who.version == "1" && m.who.createdAt <= 9_007_199_254_740_991
            && 20 <= m.policy.layout.keyLength <= 512
            && 2 <= |m.segments| <= 9 && SharesOut(m.segments, m.policy.layout.checksumStart)
            && DistinctlyNamed(m.segments)
            && m.policy.layout.checksumStart <= m.policy.layout.keyLength == m.policy.layout.checksumEnd
            && Within(m.policy.expiresAt, 0) && Within(m.policy.maxRequests, 0)
            && Within(m.policy.usageWarning, 1) && Within(m.policy.hotpWarning, 1)
            && Within(m.requestCount, 0) && Within(m.lastUsedAt, 0)
            && (m.policy.layout.caption.None? || |m.policy.layout.caption.value| <= 256)
            && |m.who.secret| == 64 && (forall c | c in m.who.secret :: '0' <= c <= '9' || 'a' <= c <= 'f')
            && CounterStateOk(m)
  {
    LayoutIff(m);
    SecretIff(m.who.secret);
  }

  lemma SecretIff(s: string)
    ensures SecretOk(s) <==> |s| == 64 && forall c | c in s :: '0' <= c <= '9' || 'a' <= c <= 'f'
  {
    if SecretOk(s) {
      forall c | c in s
        ensures '0' <= c <= '9' || 'a' <= c <= 'f'
      {
        var i :| 0 <= i < |s| && s[i] == c;
        assert HexChar(s[i]);
      }
    } else if |s| == 64 {
      var i :| 0 <= i < |s| && !HexChar(s[i]);
      assert s[i] in s;
    }
  }
}
