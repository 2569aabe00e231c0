/** Validation of a submitted key against the stored map, and why it accepts what the client
    derives. */
module KeyValidation {
  import opened Wrappers
  import opened KeyLayout
  import opened KeyAssembly

  datatype Config = Config(minKey: nat, maxKey: nat, tolerance: int, lookahead: int)

  datatype Failure =
    InternalError | NoSegments | NoHotp | ZeroLength | LengthMismatch | ChecksumInvalid | CounterInvalid | CounterExhausted | Mismatch

  /** The counters matched, by segment id. */
  type Updates = map<string, int>

  /** String.prototype.slice for non-negative bounds. */
  function Slice(s: string, a: nat, b: nat): string {
    var hi := if b <= |s| then b else |s|;
    if a <= hi then s[a..hi] else []
  }

  predicate InWindow(mac: Mac, s: Segment, text: string, w: int)
    requires MacOk(mac)
  {
    text == Derive(mac, TotpIn(s.id, w), Width(s))
  }

  predicate AtCounter(mac: Mac, s: Segment, text: string, c: int)
    requires MacOk(mac)
  {
    text == Derive(mac, HotpIn(s.id, c), Width(s))
  }

  /** Some window in low .. high derives the text. */
  function InWindows(mac: Mac, s: Segment, text: string, low: int, high: int): (ok: bool)
    requires MacOk(mac)
    ensures ok <==> exists w | low <= w <= high :: InWindow(mac, s, text, w)
    decreases if low <= high then high - low + 1 else 0
  {
    if low > high then false
    else if InWindow(mac, s, text, low) then true
    else InWindows(mac, s, text, low + 1, high)
  }

  /** The first counter in from .. to that derives the text. */
  function FirstMatch(mac: Mac, s: Segment, text: string, from: int, to: int): (r: Option<int>)
    requires MacOk(mac)
    ensures r.Some? ==> from <= r.value <= to && AtCounter(mac, s, text, r.value)
    ensures forall c | from <= c <= to && AtCounter(mac, s, text, c) :: r.Some? && r.value <= c
    decreases if from <= to then to - from + 1 else 0
  {
    if from > to then None
    else if AtCounter(mac, s, text, from) then Some(from)
    else FirstMatch(mac, s, text, from + 1, to)
  }

  /** The last counter looked at. */
  function Reach(cfg: Config, stored: int): int {
    if cfg.lookahead <= MAX_COUNTER - 1 - stored then stored + cfg.lookahead else MAX_COUNTER - 1
  }

  datatype Scan = Stop(failure: Failure) | Go(valid: bool, updates: Updates)

  /** One segment's check on top of the scan so far. */
  function ScanOne(mac: Mac, cfg: Config, key: string, s: Segment, clock: Clock, before: Scan): Scan
    requires MacOk(mac) && before.Go?
  {
    var text := Slice(key, s.range.start, s.range.end);
    match s.kind
    case Static => Go(before.valid && text == Derive(mac, StaticIn(s.id), Width(s)), before.updates)
    case Totp(w) =>
      Go(before.valid && InWindows(mac, s, text, clock(w) - cfg.tolerance, clock(w) + cfg.tolerance), before.updates)
    case Hotp(c) =>
      if c < 0 || c > MAX_COUNTER then Stop(CounterInvalid)
      else if c == MAX_COUNTER then Stop(CounterExhausted)
      else
        var m := FirstMatch(mac, s, text, c, Reach(cfg, c));
        Go(before.valid && m.Some?, if m.Some? then before.updates[s.id := m.value] else before.updates)
  }

  function ScanAll(mac: Mac, cfg: Config, key: string, segments: seq<Segment>, clock: Clock): Scan
    requires MacOk(mac)
  {
    if |segments| == 0 then Go(true, map[])
    else
      var before := ScanAll(mac, cfg, key, segments[..|segments| - 1], clock);
      if before.Stop? then before else ScanOne(mac, cfg, key, Last(segments), clock, before)
  }

  predicate HasHotp(segments: seq<Segment>) { exists i | 0 <= i < |segments| :: segments[i].kind.Hotp? }

  /** Checks made before any MAC is computed. */
  function ShapeFailure(cfg: Config, key: string, m: TumblerMap): Option<Failure> {
    if |m.segments| == 0 then Some(NoSegments)
    else if !HasHotp(m.segments) then Some(NoHotp)
    else if !AllWide(m.segments) then Some(ZeroLength)
    else if |key| < cfg.minKey || |key| > cfg.maxKey || |key| != m.keyLength then Some(LengthMismatch)
    else None
  }

  predicate AllWide(segments: seq<Segment>) { forall i | 0 <= i < |segments| :: Width(segments[i]) > 0 }

  predicate ChecksumMatches(mac: Mac, key: string, m: TumblerMap)
    requires MacOk(mac)
  {
    Slice(key, m.checksum.start, m.checksum.end) == Checksum(mac, Slice(key, 0, m.checksum.start))
  }

  /** validateTSKKey; no clock stands for a time that is not finite. */
  function Validate(mac: Mac, cfg: Config, key: string, m: TumblerMap, now: Option<Clock>): Result<Updates, Failure>
    requires MacOk(mac)
  {
    var shape := ShapeFailure(cfg, key, m);
    if cfg.lookahead < 0 || now.None? then Err(InternalError)
    else if shape.Some? then Err(shape.value)
    else if !ChecksumMatches(mac, key, m) then Err(ChecksumInvalid)
    else
      match ScanAll(mac, cfg, key, m.segments, now.value)
      case Stop(f) => Err(f)
      case Go(valid, updates) => if valid then Ok(updates) else Err(Mismatch)
  }

  /** The same with the source's loops. */
  method ValidateKey(mac: Mac, cfg: Config, key: string, m: TumblerMap, now: Option<Clock>)
    returns (r: Result<Updates, Failure>)
    requires MacOk(mac)
    ensures r == Validate(mac, cfg, key, m, now)
  {
    if cfg.lookahead < 0 || now.None? {
      return Err(InternalError);
    }
    var shape := ShapeFailure(cfg, key, m);
    if shape.Some? {
      return Err(shape.value);
    }
    if !ChecksumMatches(mac, key, m) {
      return Err(ChecksumInvalid);
    }
    var scan := ScanSegments(mac, cfg, key, m.segments, now.value);
    match scan {
      case Stop(f) => return Err(f);
      case Go(valid, updates) => return if valid then Ok(updates) else Err(Mismatch);
    }
  }

  method ScanSegments(mac: Mac, cfg: Config, key: string, segments: seq<Segment>, clock: Clock) returns (r: Scan)
    requires MacOk(mac) && cfg.lookahead >= 0
    ensures r == ScanAll(mac, cfg, key, segments, clock)
  {
    var updates: Updates := map[];
    var allValid := true;
    for n := 0 to |segments|
      invariant ScanAll(mac, cfg, key, segments[..n], clock) == Go(allValid, updates)
    {
      var s := segments[n];
      assert segments[..n + 1][..n] == segments[..n];
      var text := Slice(key, s.range.start, s.range.end);
      var segValid := false;
      match s.kind {
        case Static =>
          segValid := text == Derive(mac, StaticIn(s.id), Width(s));
        case Totp(w) =>
          segValid := CheckWindows(mac, cfg, s, text, clock(w));
        case Hotp(c) =>
          if c < 0 || c >= MAX_COUNTER {
            StopSticks(mac, cfg, key, segments, clock, n + 1);
            return Stop(if c == MAX_COUNTER then CounterExhausted else CounterInvalid);
          }
          var found := CheckCounters(mac, cfg, s, text, c);
          if found.Some? {
            segValid := true;
            updates := updates[s.id := found.value];
          }
      }
      allValid := allValid && segValid;
    }
    assert segments[..|segments|] == segments;
    return Go(allValid, updates);
  }

  method CheckWindows(mac: Mac, cfg: Config, s: Segment, text: string, t: int) returns (ok: bool)
    requires MacOk(mac)
    ensures ok == InWindows(mac, s, text, t - cfg.tolerance, t + cfg.tolerance)
  {
    var delta := -cfg.tolerance;
    while delta <= cfg.tolerance
      invariant InWindows(mac, s, text, t - cfg.tolerance, t + cfg.tolerance) ==
                InWindows(mac, s, text, t + delta, t + cfg.tolerance)
      decreases cfg.tolerance - delta
    {
      if InWindow(mac, s, text, t + delta) {
        return true;
      }
      delta := delta + 1;
    }
    return false;
  }

  method CheckCounters(mac: Mac, cfg: Config, s: Segment, text: string, stored: int) returns (found: Option<int>)
    requires MacOk(mac) && cfg.lookahead >= 0 && stored < MAX_COUNTER
    ensures found == FirstMatch(mac, s, text, stored, Reach(cfg, stored))
  {
    var lookahead := 0;
    var most := if cfg.lookahead <= MAX_COUNTER - 1 - stored then cfg.lookahead else MAX_COUNTER - 1 - stored;
    ghost var last := stored + most;
    assert last == Reach(cfg, stored);
    while lookahead <= most
      invariant FirstMatch(mac, s, text, stored, last) == FirstMatch(mac, s, text, stored + lookahead, last)
      decreases most - lookahead
    {
      var c := stored + lookahead;
      if AtCounter(mac, s, text, c) {
        return Some(c);
      }
      lookahead := lookahead + 1;
    }
    return None;
  }

  lemma {:induction false} StopSticks(mac: Mac, cfg: Config, key: string, segments: seq<Segment>, clock: Clock, n: nat)
    requires MacOk(mac) && n <= |segments| && ScanAll(mac, cfg, key, segments[..n], clock).Stop?
    ensures ScanAll(mac, cfg, key, segments, clock) == ScanAll(mac, cfg, key, segments[..n], clock)
  {
    if n == |segments| {
      assert segments[..n] == segments;
    } else {
      var init := segments[..|segments| - 1];
      assert init[..n] == segments[..n];
      StopSticks(mac, cfg, key, init, clock, n);
    }
  }

  // ── what acceptance means ──

  /** The counters a submitted segment is compared with. */
  predicate Looked(cfg: Config, stored: int, c: int) { 0 <= stored <= c <= stored + cfg.lookahead && c < 2_147_483_647 }

  /** The text at the segment's place is one the segment can derive now. */
  ghost predicate Matches(mac: Mac, cfg: Config, key: string, s: Segment, clock: Clock)
    requires MacOk(mac)
  {
    var text := Slice(key, s.range.start, s.range.end);
    match s.kind
    case Static => text == Derive(mac, StaticIn(s.id), Width(s))
    case Totp(w) => exists t | clock(w) - cfg.tolerance <= t <= clock(w) + cfg.tolerance :: InWindow(mac, s, text, t)
    case Hotp(stored) => exists c | Looked(cfg, stored, c) :: AtCounter(mac, s, text, c)
  }

  ghost predicate AllMatch(mac: Mac, cfg: Config, key: string, segments: seq<Segment>, clock: Clock)
    requires MacOk(mac)
  {
    forall i {:trigger Matches(mac, cfg, key, segments[i], clock)} | 0 <= i < |segments| ::
      Matches(mac, cfg, key, segments[i], clock)
  }

  /** c is the first counter looked at that derives the text. */
  ghost predicate Least(mac: Mac, cfg: Config, key: string, s: Segment, c: int)
    requires MacOk(mac) && s.kind.Hotp?
  {
    var text := Slice(key, s.range.start, s.range.end);
    && Looked(cfg, s.kind.counter, c) && AtCounter(mac, s, text, c)
    && forall d | Looked(cfg, s.kind.counter, d) && AtCounter(mac, s, text, d) :: c <= d
  }

  /** The last counter-based segment of its id. */
  predicate LastOfId(segments: seq<Segment>, i: nat)
    requires i < |segments|
  {
    segments[i].kind.Hotp? && forall j | i < j < |segments| && segments[j].kind.Hotp? :: segments[j].id != segments[i].id
  }

  ghost predicate UpdateAt(mac: Mac, cfg: Config, key: string, s: Segment, updates: Updates)
    requires MacOk(mac) && s.kind.Hotp?
  {
    s.id in updates && Least(mac, cfg, key, s, updates[s.id])
  }

  /** The updates hold, for each id of a counter-based segment and no other, the least matching
      counter of the last such segment. */
  ghost predicate LeastUpdates(mac: Mac, cfg: Config, key: string, segments: seq<Segment>, updates: Updates)
    requires MacOk(mac)
  {
    && (forall i | 0 <= i < |segments| && LastOfId(segments, i) :: UpdateAt(mac, cfg, key, segments[i], updates))
    && (forall id | id in updates :: exists i | 0 <= i < |segments| :: segments[i].kind.Hotp? && segments[i].id == id)
  }

  lemma {:induction false} ScanMeans(mac: Mac, cfg: Config, key: string, segments: seq<Segment>, clock: Clock)
    requires MacOk(mac) && cfg.lookahead >= 0
    ensures var scan := ScanAll(mac, cfg, key, segments, clock);
            && (scan.Go? && scan.valid <==> AllMatch(mac, cfg, key, segments, clock))
            && (scan.Go? && scan.valid ==> LeastUpdates(mac, cfg, key, segments, scan.updates))
  {
    if |segments| > 0 {
      var init, s := segments[..|segments| - 1], Last(segments);
      assert segments == init + [s];
      ScanMeans(mac, cfg, key, init, clock);
      AllMatchSnoc(mac, cfg, key, init, s, clock);
      var before := ScanAll(mac, cfg, key, init, clock);
      if before.Go? {
        ScanOneMeans(mac, cfg, key, s, clock, before);
        var after := ScanOne(mac, cfg, key, s, clock, before);
        if after.Go? && after.valid {
          UpdatesSnoc(mac, cfg, key, init, s, before.updates, after.updates);
        }
      }
    }
  }

  lemma AllMatchSnoc(mac: Mac, cfg: Config, key: string, init: seq<Segment>, s: Segment, clock: Clock)
    requires MacOk(mac)
    ensures AllMatch(mac, cfg, key, init + [s], clock) <==>
            AllMatch(mac, cfg, key, init, clock) && Matches(mac, cfg, key, s, clock)
  {
    if AllMatch(mac, cfg, key, init + [s], clock) {
      assert Matches(mac, cfg, key, (init + [s])[|init|], clock);
      forall i | 0 <= i < |init|
        ensures Matches(mac, cfg, key, init[i], clock)
      {
        assert Matches(mac, cfg, key, (init + [s])[i], clock);
      }
    }
  }

  lemma ScanOneMeans(mac: Mac, cfg: Config, key: string, s: Segment, clock: Clock, before: Scan)
    requires MacOk(mac) && cfg.lookahead >= 0 && before.Go?
    ensures var after := ScanOne(mac, cfg, key, s, clock, before);
            && (after.Go? && after.valid <==> before.valid && Matches(mac, cfg, key, s, clock))
            && (after.Go? && after.valid ==>
                  if s.kind.Hotp? then after.updates == before.updates[s.id := after.updates[s.id]] &&
                                       Least(mac, cfg, key, s, after.updates[s.id])
                  else after.updates == before.updates)
  {
    if s.kind.Hotp? && 0 <= s.kind.counter < MAX_COUNTER {
      var text := Slice(key, s.range.start, s.range.end);
      var found := FirstMatch(mac, s, text, s.kind.counter, Reach(cfg, s.kind.counter));
      if found.Some? {
        assert Looked(cfg, s.kind.counter, found.value) && AtCounter(mac, s, text, found.value);
      }
    }
  }

  lemma UpdatesSnoc(mac: Mac, cfg: Config, key: string, init: seq<Segment>, s: Segment, before: Updates, after: Updates)
    requires MacOk(mac) && LeastUpdates(mac, cfg, key, init, before)
    requires if s.kind.Hotp? then s.id in after && after == before[s.id := after[s.id]] &&
                                  Least(mac, cfg, key, s, after[s.id])
             else after == before
    ensures LeastUpdates(mac, cfg, key, init + [s], after)
  {
    var all := init + [s];
    forall i | 0 <= i < |all| && LastOfId(all, i)
      ensures UpdateAt(mac, cfg, key, all[i], after)
    {
      if i < |init| {
        assert LastOfId(init, i) by {
          forall j | i < j < |init| && init[j].kind.Hotp?
            ensures init[j].id != init[i].id
          {
            assert all[j].id != all[i].id;
          }
        }
        assert UpdateAt(mac, cfg, key, init[i], before);
        assert all[|init|] == s;
      }
    }
    forall id | id in after
      ensures exists i | 0 <= i < |all| :: all[i].kind.Hotp? && all[i].id == id
    {
      if id in before {
        var i :| 0 <= i < |init| && init[i].kind.Hotp? && init[i].id == id;
        assert all[i].kind.Hotp? && all[i].id == id;
      } else {
        assert all[|init|].kind.Hotp? && all[|init|].id == id;
      }
    }
  }

  /** A key is accepted exactly when it has the right length, its checksum is right and every
      segment's text is one that segment can derive; the counters reported are then the least
      matching ones. */
  lemma AcceptedIff(mac: Mac, cfg: Config, key: string, m: TumblerMap, now: Option<Clock>)
    requires MacOk(mac)
    ensures var r := Validate(mac, cfg, key, m, now);
            && (r.Ok? <==>
                  && cfg.lookahead >= 0 && now.Some? && HasHotp(m.segments) && AllWide(m.segments)
                  && cfg.minKey <= |key| <= cfg.maxKey && |key| == m.keyLength
                  && ChecksumMatches(mac, key, m) && AllMatch(mac, cfg, key, m.segments, now.value))
            && (r.Ok? ==> LeastUpdates(mac, cfg, key, m.segments, r.value))
  {
    if cfg.lookahead >= 0 && now.Some? {
      ScanMeans(mac, cfg, key, m.segments, now.value);
    }
  }

  // ── and what a refusal says ──

  /** A stored counter that can still be looked ahead from. */
  predicate Countable(s: Segment) { s.kind.Hotp? ==> 0 <= s.kind.counter < 2_147_483_647 }

  /** The first segment whose stored counter is out of range or exhausted. */
  predicate FirstUncountable(segments: seq<Segment>, k: nat) {
    k < |segments| && !Countable(segments[k]) && forall i | 0 <= i < k :: Countable(segments[i])
  }

  predicate AllCountable(segments: seq<Segment>) { forall i | 0 <= i < |segments| :: Countable(segments[i]) }

  lemma OneStops(mac: Mac, cfg: Config, key: string, s: Segment, clock: Clock, before: Scan)
    requires MacOk(mac) && before.Go?
    ensures var after := ScanOne(mac, cfg, key, s, clock, before);
            && (after.Go? <==> Countable(s))
            && (!Countable(s) ==> after == Stop(if s.kind.counter == 2_147_483_647 then CounterExhausted else CounterInvalid))
  {
  }

  lemma {:induction false} ScanGoes(mac: Mac, cfg: Config, key: string, segments: seq<Segment>, clock: Clock)
    requires MacOk(mac)
    ensures ScanAll(mac, cfg, key, segments, clock).Go? <==> AllCountable(segments)
  {
    if |segments| > 0 {
      var init, s := segments[..|segments| - 1], Last(segments);
      ScanGoes(mac, cfg, key, init, clock);
      var before := ScanAll(mac, cfg, key, init, clock);
      if before.Go? {
        OneStops(mac, cfg, key, s, clock, before);
      }
      assert AllCountable(segments) <==> AllCountable(init) && Countable(s) by {
        assert segments == init + [s];
      }
    }
  }

  lemma ScanStops(mac: Mac, cfg: Config, key: string, segments: seq<Segment>, clock: Clock, k: nat)
    requires MacOk(mac) && FirstUncountable(segments, k)
    ensures ScanAll(mac, cfg, key, segments, clock) ==
            Stop(if segments[k].kind.counter == 2_147_483_647 then CounterExhausted else CounterInvalid)
  {
    var upto := segments[..k + 1];
    assert upto[..k] == segments[..k];
    ScanGoes(mac, cfg, key, segments[..k], clock);
    OneStops(mac, cfg, key, segments[k], clock, ScanAll(mac, cfg, key, segments[..k], clock));
    StopSticks(mac, cfg, key, segments, clock, k + 1);
  }

  /** Each refusal has its own condition, in the order of the checks. */
  lemma RefusalTable(mac: Mac, cfg: Config, key: string, m: TumblerMap, now: Option<Clock>)
    requires MacOk(mac)
    ensures var r := Validate(mac, cfg, key, m, now);
            if cfg.lookahead < 0 || now.None? then r == Err(InternalError)
            else if m.segments == [] then r == Err(NoSegments)
            else if forall i | 0 <= i < |m.segments| :: !m.segments[i].kind.Hotp? then r == Err(NoHotp)
            else if exists i | 0 <= i < |m.segments| :: Width(m.segments[i]) == 0 then r == Err(ZeroLength)
            else if |key| < cfg.minKey || |key| > cfg.maxKey || |key| != m.keyLength then r == Err(LengthMismatch)
            else if !ChecksumMatches(mac, key, m) then r == Err(ChecksumInvalid)
            else if AllCountable(m.segments) then r.Ok? || r == Err(Mismatch)
            else r == Err(CounterInvalid) || r == Err(CounterExhausted)
  {
    if now.Some? {
      ScanGoes(mac, cfg, key, m.segments, now.value);
      if !AllCountable(m.segments) {
        var k := FirstOf(m.segments, 0);
        ScanStops(mac, cfg, key, m.segments, now.value, k);
      }
    }
  }

  /** Past the checksum, the first counter that is out of range or exhausted names the refusal. */
  lemma CounterRefusal(mac: Mac, cfg: Config, key: string, m: TumblerMap, now: Clock, k: nat)
    requires MacOk(mac) && cfg.lookahead >= 0 && ShapeFailure(cfg, key, m).None? && ChecksumMatches(mac, key, m)
    requires FirstUncountable(m.segments, k)
    ensures Validate(mac, cfg, key, m, Some(now)) ==
            Err(if m.segments[k].kind.counter == 2_147_483_647 then CounterExhausted else CounterInvalid)
  {
    ScanStops(mac, cfg, key, m.segments, now, k);
  }

  lemma {:induction false} FirstOf(segments: seq<Segment>, n: nat) returns (k: nat)
    requires n <= |segments| && (forall i | 0 <= i < n :: Countable(segments[i]))
    requires exists i | 0 <= i < |segments| :: !Countable(segments[i])
    ensures FirstUncountable(segments, k)
    decreases |segments| - n
  {
    if Countable(segments[n]) {
      k := FirstOf(segments, n + 1);
    } else {
      k := n;
    }
  }

  // ── the client's key is accepted ──

  /** The client's counters are usable and within lookahead of the stored ones. */
  predicate CountersNear(cfg: Config, segments: seq<Segment>, counters: map<string, int>) {
    forall i | 0 <= i < |segments| && segments[i].kind.Hotp? ::
      Looked(cfg, segments[i].kind.counter, ClientCounter(segments[i], counters))
  }

  /** Both clocks read windows that differ by at most the tolerance. */
  predicate ClocksNear(cfg: Config, segments: seq<Segment>, client: Clock, server: Clock) {
    forall i | 0 <= i < |segments| && segments[i].kind.Totp? ::
      var w := segments[i].kind.windowSec;
      -cfg.tolerance <= client(w) - server(w) <= cfg.tolerance
  }

  function ClientCounter(s: Segment, counters: map<string, int>): int
    requires s.kind.Hotp?
  {
    Counted(s, counters).kind.counter
  }

  /** Each matched counter lies between the stored and the client's counter. */
  predicate Between(segments: seq<Segment>, counters: map<string, int>, updates: Updates) {
    forall i | 0 <= i < |segments| && segments[i].kind.Hotp? ::
      segments[i].id in updates &&
      segments[i].kind.counter <= updates[segments[i].id] <= ClientCounter(segments[i], counters)
  }

  predicate UniqueIds(segments: seq<Segment>) {
    forall i, j | 0 <= i < j < |segments| :: segments[i].id != segments[j].id
  }

  /** A segment's place in the key holds its value. */
  lemma KeySlice(mac: Mac, s: seq<Segment>, total: nat, clock: Clock, t: Segment)
    requires MacOk(mac) && Contiguous(s, total) && t in s
    ensures Slice(Key(mac, s, clock), t.range.start, t.range.end) == ValueOf(mac, t, clock)
  {
    var key, value := Key(mac, s, clock), ValueOf(mac, t, clock);
    Within(s, total, t);
    BodyLength(mac, s, total, clock);
    forall p | t.range.start <= p < t.range.end
      ensures key[p] == value[p - t.range.start]
    {
      BodyAt(mac, s, total, clock, t, p);
    }
    assert |Slice(key, t.range.start, t.range.end)| == |value|;
  }

  lemma KeyShape(mac: Mac, s: seq<Segment>, m: TumblerMap, clock: Clock)
    requires MacOk(mac) && Laid(m) && Contiguous(s, m.keyLength - CHECKSUM)
    ensures |Key(mac, s, clock)| == m.keyLength && ChecksumMatches(mac, Key(mac, s, clock), m)
  {
    var key, body := Key(mac, s, clock), Body(mac, s, clock);
    BodyLength(mac, s, m.keyLength - CHECKSUM, clock);
    assert Slice(key, 0, |body|) == body;
    assert Slice(key, |body|, |key|) == Checksum(mac, body);
  }

  /** The key a client derives from a laid out map. */
  function ClientKeyOf(mac: Mac, m: TumblerMap, counters: map<string, int>, clock: Clock): string
    requires MacOk(mac)
  {
    Key(mac, WithCounters(SortByStart(m.segments), counters), clock)
  }

  lemma ClientSlice(mac: Mac, m: TumblerMap, counters: map<string, int>, clock: Clock, i: nat)
    requires MacOk(mac) && Laid(m) && i < |m.segments|
    ensures var s := m.segments[i];
            Slice(ClientKeyOf(mac, m, counters, clock), s.range.start, s.range.end) ==
            ValueOf(mac, Counted(s, counters), clock)
  {
    var sorted, s := SortByStart(m.segments), m.segments[i];
    SortElement(m.segments, s);
    var j :| 0 <= j < |sorted| && sorted[j] == s;
    assert WithCounters(sorted, counters)[j] == Counted(s, counters);
    ContiguousCounted(sorted, m.keyLength - CHECKSUM, counters);
    KeySlice(mac, WithCounters(sorted, counters), m.keyLength - CHECKSUM, clock, Counted(s, counters));
  }

  lemma SegmentMatches(mac: Mac, cfg: Config, m: TumblerMap, counters: map<string, int>, client: Clock, server: Clock,
                       i: nat)
    requires MacOk(mac) && Laid(m) && i < |m.segments|
    requires CountersNear(cfg, m.segments, counters) && ClocksNear(cfg, m.segments, client, server)
    ensures Matches(mac, cfg, ClientKeyOf(mac, m, counters, client), m.segments[i], server)
    ensures var s, key := m.segments[i], ClientKeyOf(mac, m, counters, client);
            s.kind.Hotp? ==> AtCounter(mac, s, Slice(key, s.range.start, s.range.end), ClientCounter(s, counters))
  {
    ClientSlice(mac, m, counters, client, i);
    var s := m.segments[i];
    var text := ValueOf(mac, Counted(s, counters), client);
    match s.kind
    case Static =>
    case Totp(w) => assert InWindow(mac, s, text, client(w));
    case Hotp(c) => assert AtCounter(mac, s, text, ClientCounter(s, counters));
  }

  /** Validation accepts every key the client derives from usable counters within lookahead and
      clocks within tolerance; with distinct segment ids each matched counter lies between the
      stored and the client's. */
  lemma ClientKeyAccepted(mac: Mac, cfg: Config, m: TumblerMap, counters: map<string, int>, client: Clock, server: Clock)
    requires MacOk(mac) && Laid(m) && HasHotp(m.segments) && AllWide(m.segments)
    requires cfg.minKey <= m.keyLength <= cfg.maxKey
    requires CountersNear(cfg, m.segments, counters) && ClocksNear(cfg, m.segments, client, server)
    ensures var r := Validate(mac, cfg, ClientKeyOf(mac, m, counters, client), m, Some(server));
            r.Ok? && (UniqueIds(m.segments) ==> Between(m.segments, counters, r.value))
  {
    var key := ClientKeyOf(mac, m, counters, client);
    ContiguousCounted(SortByStart(m.segments), m.keyLength - CHECKSUM, counters);
    KeyShape(mac, WithCounters(SortByStart(m.segments), counters), m, client);
    forall i | 0 <= i < |m.segments|
      ensures Matches(mac, cfg, key, m.segments[i], server)
    {
      SegmentMatches(mac, cfg, m, counters, client, server, i);
    }
    AcceptedIff(mac, cfg, key, m, Some(server));
    var r := Validate(mac, cfg, key, m, Some(server));
    if UniqueIds(m.segments) {
      forall i | 0 <= i < |m.segments| && m.segments[i].kind.Hotp?
        ensures m.segments[i].id in r.value
        ensures m.segments[i].kind.counter <= r.value[m.segments[i].id] <= ClientCounter(m.segments[i], counters)
      {
        SegmentMatches(mac, cfg, m, counters, client, server, i);
        assert LastOfId(m.segments, i);
        assert UpdateAt(mac, cfg, key, m.segments[i], r.value);
      }
    }
  }

  // ── from generation to acceptance ──

  lemma GeneratedUsable(m: TumblerMap, o: Options)
    requires Generated(m, o)
    ensures HasHotp(m.segments) && AllWide(m.segments)
  {
    forall i | 0 <= i < |m.segments|
      ensures Width(m.segments[i]) > 0
    {
      assert Ranges(m.segments)[i].start + MIN_SEGMENT <= Ranges(m.segments)[i].end;
    }
  }

  lemma NearUsable(cfg: Config, segments: seq<Segment>, counters: map<string, int>)
    requires CountersNear(cfg, segments, counters)
    ensures Usable(WithCounters(segments, counters))
  {
  }

  /** Generate a map, provision the client, derive the key on both sides and validate it: for
      every accepted option set and every random outcome the two keys are the same, and the key is
      accepted whenever its counters are within lookahead and the clocks within tolerance. */
  method GenerateProvisionValidate(mac: Mac, o: Options, c: Choices, counters: map<string, int>, client: Clock,
                                   cfg: Config, server: Clock)
    returns (m: Result<TumblerMap, string>, positional: Result<string, string>, key: Result<string, string>,
             verdict: Option<Result<Updates, Failure>>)
    requires MacOk(mac) && (OptionsOk(o) ==> Drawn(o, c))
    ensures m.Ok? <==> OptionsOk(o)
    ensures m.Ok? ==> Generated(m.value, o) && positional.Ok? == key.Ok? == verdict.Some?
    ensures key.Ok? ==> m.Ok? && positional.value == key.value && |key.value| == o.keyLength
    ensures m.Ok? && CountersNear(cfg, m.value.segments, counters)
            && ClocksNear(cfg, m.value.segments, client, server) && cfg.minKey <= o.keyLength <= cfg.maxKey ==>
            && verdict.Some? && verdict.value.Ok?
            && (UniqueIds(m.value.segments) ==> Between(m.value.segments, counters, verdict.value.value))
  {
    m := GenerateMap(o, c);
    if m.Err? {
      return m, Err(m.error), Err(m.error), None;
    }
    GeneratedLaid(m.value, o);
    positional, key := KeysAgree(mac, m.value, counters, client);
    verdict := None;
    if key.Ok? {
      var r := ValidateKey(mac, cfg, key.value, m.value, Some(server));
      verdict := Some(r);
    }
    if CountersNear(cfg, m.value.segments, counters) && ClocksNear(cfg, m.value.segments, client, server)
       && cfg.minKey <= o.keyLength <= cfg.maxKey {
      NearUsable(cfg, m.value.segments, counters);
      GeneratedUsable(m.value, o);
      ClientKeyAccepted(mac, cfg, m.value, counters, client, server);
    }
  }
}
