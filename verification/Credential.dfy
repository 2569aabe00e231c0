/** A tumbler map's counters and lifecycle, and the atomic commit of one validated request. */
module Credential {
  import opened Wrappers

  const MAX_COUNTER: nat := 2_147_483_647
  const DEFAULT_HOTP_WARNING: nat := 1_000

  datatype Kind = Static | Totp | Hotp

  /** Where a segment lies in the key, and its time window if it has one. */
  datatype Shape = Shape(start: int, end: int, window: Option<int>)
  datatype Segment = Segment(id: string, kind: Kind, shape: Shape, counter: Option<nat>)

  datatype Status = Active | Expiring | Expired | Revoked

  datatype Identity = Identity(clientId: string, secret: string, createdAt: nat, version: string)

  /** What a commit never looks at. */
  datatype Layout = Layout(keyLength: int, checksumStart: int, checksumEnd: int, caption: Option<string>)

  datatype Policy = Policy(
    maxRequests: Option<nat>, expiresAt: Option<nat>, usageWarning: Option<nat>, hotpWarning: Option<nat>, layout: Layout)

  datatype TumblerMap = TumblerMap(
    who: Identity, policy: Policy, segments: seq<Segment>,
    status: Option<Status>, requestCount: Option<nat>, lastUsedAt: Option<nat>)

  function Or(o: Option<nat>, d: nat): nat { if o.Some? then o.value else d }
  function Min(a: nat, b: nat): nat { if a <= b then a else b }
  function Max(a: nat, b: nat): nat { if a <= b then b else a }

  function Counter(s: Segment): nat { Or(s.counter, 0) }

  predicate Dead(status: Option<Status>) { status == Some(Expired) || status == Some(Revoked) }

  /** Legal derivations left for the HOTP segment nearest exhaustion. */
  function MinRemaining(segments: seq<Segment>): (r: Option<nat>)
    ensures r.None? <==> forall i | 0 <= i < |segments| :: segments[i].kind != Hotp
  {
    if |segments| == 0 then None
    else
      var rest := MinRemaining(segments[..|segments| - 1]);
      var s := Last(segments);
      if s.kind != Hotp then rest
      else
        var left := if Counter(s) <= MAX_COUNTER then MAX_COUNTER - Counter(s) else 0;
        if rest.None? then Some(left) else Some(Min(rest.value, left))
  }

  /** assertTumblerMapCounterState. */
  predicate CounterStateOk(m: TumblerMap) {
    && (forall i | 0 <= i < |m.segments| && m.segments[i].kind == Hotp :: Counter(m.segments[i]) <= MAX_COUNTER)
    && MinRemaining(m.segments).Some?
    && (m.policy.hotpWarning.Some? ==> 1 <= m.policy.hotpWarning.value <= MAX_COUNTER)
    && (MinRemaining(m.segments) == Some(0) ==> Dead(m.status))
  }

  /** reconcileTumblerMapCounterStatus. */
  function Reconcile(m: TumblerMap, remaining: nat): (TumblerMap, bool) {
    var rotate := remaining <= Or(m.policy.hotpWarning, DEFAULT_HOTP_WARNING);
    var status := if Dead(m.status) then m.status
                  else if remaining == 0 then Some(Expired)
                  else if rotate then Some(Expiring)
                  else m.status;
    (m.(status := status), rotate)
  }

  // ── segments by id ──

  /** The last segment of an id, as a Map built from the segment list holds it. */
  function IndexOf(segments: seq<Segment>, id: string): (r: Option<nat>)
    ensures r.Some? ==> r.value < |segments| && segments[r.value].id == id
    ensures r.None? ==> forall i | 0 <= i < |segments| :: segments[i].id != id
    ensures r.Some? ==> forall i | r.value < i < |segments| :: segments[i].id != id
  {
    if |segments| == 0 then None
    else if Last(segments).id == id then Some(|segments| - 1)
    else IndexOf(segments[..|segments| - 1], id)
  }

  /** The stored counter a segment id stands for; 0 when there is none. */
  function Stored(segments: seq<Segment>, id: string): nat {
    var i := IndexOf(segments, id);
    if i.None? then 0 else Counter(segments[i.value])
  }

  /** Segments that differ at most in their counters. */
  predicate SameLayout(a: seq<Segment>, b: seq<Segment>) {
    |a| == |b| && forall i | 0 <= i < |a| :: SameButCounter(a[i], b[i])
  }

  predicate SameButCounter(s: Segment, t: Segment) { s.id == t.id && s.kind == t.kind && s.shape == t.shape }

  function SetCounter(segments: seq<Segment>, id: string, n: nat): (r: seq<Segment>)
    ensures SameLayout(segments, r)
  {
    var i := IndexOf(segments, id);
    if i.None? then segments else segments[i.value := segments[i.value].(counter := Some(n))]
  }

  lemma {:induction false} IndexFramed(a: seq<Segment>, b: seq<Segment>, id: string)
    requires SameLayout(a, b)
    ensures IndexOf(a, id) == IndexOf(b, id)
  {
    if |a| > 0 {
      assert SameButCounter(a[|a| - 1], b[|b| - 1]);
      IndexFramed(a[..|a| - 1], b[..|b| - 1], id);
    }
  }

  lemma SetCounterStores(segments: seq<Segment>, id: string, n: nat, other: string)
    requires IndexOf(segments, id).Some?
    ensures Stored(SetCounter(segments, id, n), other) == if other == id then n else Stored(segments, other)
  {
    IndexFramed(segments, SetCounter(segments, id, n), other);
  }

  // ── the commit ──

  datatype Match = Match(segmentId: string, counter: int)
  datatype Input = Input(matches: seq<Match>, usedAt: nat)
  datatype CommitError = KeyRevoked | KeyExpired | UsageCap | Replay | CounterInvalid | Exhausted
  datatype Success = Success(requestCount: nat, requestsRemaining: Option<nat>, hotpRemaining: nat, rotate: bool)

  function HotpCount(segments: seq<Segment>): nat {
    if |segments| == 0 then 0
    else HotpCount(segments[..|segments| - 1]) + if Last(segments).kind == Hotp then 1 else 0
  }

  predicate Seen(matches: seq<Match>, n: nat)
    requires n < |matches|
  {
    exists j | 0 <= j < n :: matches[j].segmentId == matches[n].segmentId
  }

  /** What is wrong with the n-th match. */
  function MatchError(segments: seq<Segment>, matches: seq<Match>, n: nat): (r: Option<CommitError>)
    requires n < |matches|
    ensures r.Some? ==> r.value == Replay || r.value == Exhausted || r.value == CounterInvalid
  {
    var u, i := matches[n], IndexOf(segments, matches[n].segmentId);
    if i.None? || segments[i.value].kind != Hotp || Seen(matches, n) then Some(Replay)
    else
      var stored := Counter(segments[i.value]);
      if stored >= MAX_COUNTER then Some(Exhausted)
      else if !(0 <= u.counter < MAX_COUNTER) then Some(CounterInvalid)
      else if stored > u.counter then Some(Replay)
      else None
  }

  /** The first wrong match from the n-th on. */
  function MatchesError(segments: seq<Segment>, matches: seq<Match>, n: nat): (r: Option<CommitError>)
    requires n <= |matches|
    ensures r.Some? ==> r.value == Replay || r.value == Exhausted || r.value == CounterInvalid
    ensures r.None? ==> forall j: nat | n <= j < |matches| :: MatchError(segments, matches, j) == None
    decreases |matches| - n
  {
    if n == |matches| then None
    else if MatchError(segments, matches, n).Some? then MatchError(segments, matches, n)
    else MatchesError(segments, matches, n + 1)
  }

  function Advance(segments: seq<Segment>, matches: seq<Match>): (r: seq<Segment>)
    ensures SameLayout(segments, r)
  {
    if |matches| == 0 then segments
    else
      var u := Last(matches);
      SetCounter(Advance(segments, matches[..|matches| - 1]), u.segmentId, if u.counter >= 0 then u.counter + 1 else 0)
  }

  predicate Capped(m: TumblerMap) { m.policy.maxRequests.Some? && m.policy.maxRequests.value > 0 }

  /** The lifecycle checks before any counter is looked at. */
  function LifecycleError(m: TumblerMap, usedAt: nat): Option<CommitError> {
    if !CounterStateOk(m) then Some(CounterInvalid)
    else if m.status == Some(Revoked) then Some(KeyRevoked)
    else if m.status == Some(Expired) then Some(KeyExpired)
    else if m.policy.expiresAt.Some? && usedAt > m.policy.expiresAt.value then Some(KeyExpired)
    else if Capped(m) && Or(m.requestCount, 0) >= m.policy.maxRequests.value then Some(UsageCap)
    else None
  }

  function CommitFault(m: TumblerMap, input: Input): Option<CommitError> {
    if LifecycleError(m, input.usedAt).Some? then LifecycleError(m, input.usedAt)
    else if |input.matches| != HotpCount(m.segments) then Some(CounterInvalid)
    else MatchesError(m.segments, input.matches, 0)
  }

  /** A failed commit leaves the map as it was, or newly expired. */
  predicate Expires(m: TumblerMap, input: Input) {
    var f := CommitFault(m, input);
    && CounterStateOk(m) && !Dead(m.status)
    && (f == Some(KeyExpired) || f == Some(UsageCap) || f == Some(Exhausted))
  }

  /** `tenth` is the default warning window, the rounded-up tenth of the cap. */
  function UsageWindow(tenth: nat -> nat, m: TumblerMap): nat
    requires m.policy.maxRequests.Some?
  {
    Min(m.policy.maxRequests.value, Max(1, Or(m.policy.usageWarning, Max(1, tenth(m.policy.maxRequests.value)))))
  }

  /** Counters, use count and last use written. */
  function Used(m: TumblerMap, input: Input): TumblerMap {
    m.(segments := Advance(m.segments, input.matches), requestCount := Some(Or(m.requestCount, 0) + 1),
       lastUsedAt := Some(input.usedAt))
  }

  /** The usage cap's own warning, after the counters' one. */
  function UsageStage(tenth: nat -> nat, m: TumblerMap, left: nat, rotate: bool): (TumblerMap, Success) {
    var count := Or(m.requestCount, 0);
    if !Capped(m) then (m, Success(count, None, left, rotate))
    else
      var remaining := if count <= m.policy.maxRequests.value then m.policy.maxRequests.value - count else 0;
      var near := remaining <= UsageWindow(tenth, m);
      (m.(status := if near && left > 0 then Some(Expiring) else m.status),
       Success(count, Some(remaining), left, near || rotate))
  }

  function Committed(tenth: nat -> nat, m: TumblerMap, input: Input): (TumblerMap, Success)
    requires MinRemaining(Advance(m.segments, input.matches)).Some?
  {
    var left := MinRemaining(Advance(m.segments, input.matches)).value;
    var settled := Reconcile(Used(m, input), left);
    UsageStage(tenth, settled.0, left, settled.1)
  }

  /** commitValidationToMap. */
  function Commit(tenth: nat -> nat, m: TumblerMap, input: Input): (TumblerMap, Result<Success, CommitError>) {
    match CommitFault(m, input)
    case Some(e) => (if Expires(m, input) then m.(status := Some(Expired)) else m, Err(e))
    case None =>
      HotpKept(m.segments, input.matches);
      var done := Committed(tenth, m, input);
      (done.0, Ok(done.1))
  }

  lemma HotpKept(segments: seq<Segment>, matches: seq<Match>)
    ensures MinRemaining(Advance(segments, matches)).Some? <==> MinRemaining(segments).Some?
  {
    var r := Advance(segments, matches);
    assert forall i | 0 <= i < |r| :: SameButCounter(segments[i], r[i]);
  }

  // ── what a commit does to counters and usage ──

  /** A failed commit changes no counter and no usage field. */
  lemma FailureChangesNothing(tenth: nat -> nat, m: TumblerMap, input: Input)
    requires Commit(tenth, m, input).1.Err?
    ensures var n := Commit(tenth, m, input).0;
            n == m || (n == m.(status := Some(Expired)) && !Dead(m.status))
  {
  }

  /** Every match names a segment of its own and a counter that can be stored. */
  predicate Distinct(segments: seq<Segment>, matches: seq<Match>) {
    && (forall j | 0 <= j < |matches| :: IndexOf(segments, matches[j].segmentId).Some? && matches[j].counter >= 0)
    && (forall i, j | 0 <= i < j < |matches| :: matches[i].segmentId != matches[j].segmentId)
  }

  lemma MatchesDistinct(segments: seq<Segment>, matches: seq<Match>)
    requires MatchesError(segments, matches, 0).None?
    ensures Distinct(segments, matches)
    ensures forall j | 0 <= j < |matches| :: Stored(segments, matches[j].segmentId) <= matches[j].counter < MAX_COUNTER
  {
    forall j | 0 <= j < |matches|
      ensures IndexOf(segments, matches[j].segmentId).Some? && !Seen(matches, j)
      ensures 0 <= Stored(segments, matches[j].segmentId) <= matches[j].counter < MAX_COUNTER
    {
      assert MatchError(segments, matches, j) == None;
    }
    forall i, j | 0 <= i < j < |matches|
      ensures matches[i].segmentId != matches[j].segmentId
    {
      assert !Seen(matches, j);
    }
  }

  /** The counter stored for an id after advancing: one past its match, if it has one. */
  function After(segments: seq<Segment>, matches: seq<Match>, id: string): int {
    if |matches| == 0 then Stored(segments, id)
    else if Last(matches).segmentId == id then Last(matches).counter + 1
    else After(segments, matches[..|matches| - 1], id)
  }

  lemma DistinctPrefix(segments: seq<Segment>, matches: seq<Match>)
    requires Distinct(segments, matches) && |matches| > 0
    ensures Distinct(segments, matches[..|matches| - 1])
    ensures IndexOf(segments, Last(matches).segmentId).Some? && Last(matches).counter >= 0
  {
  }

  lemma {:induction false} AdvanceStores(segments: seq<Segment>, matches: seq<Match>, id: string)
    requires Distinct(segments, matches)
    ensures Stored(Advance(segments, matches), id) == After(segments, matches, id)
  {
    if |matches| > 0 {
      var init, u := matches[..|matches| - 1], Last(matches);
      DistinctPrefix(segments, matches);
      AdvanceStores(segments, init, id);
      var before := Advance(segments, init);
      IndexFramed(segments, before, u.segmentId);
      SetCounterStores(before, u.segmentId, u.counter + 1, id);
      assert Advance(segments, matches) == SetCounter(before, u.segmentId, u.counter + 1);
    }
  }

  lemma {:induction false} AfterIs(segments: seq<Segment>, matches: seq<Match>, j: nat)
    requires Distinct(segments, matches) && j < |matches|
    ensures After(segments, matches, matches[j].segmentId) == matches[j].counter + 1
  {
    if j < |matches| - 1 {
      assert matches[j].segmentId != Last(matches).segmentId;
      AfterIs(segments, matches[..|matches| - 1], j);
    }
  }

  lemma {:induction false} AfterRises(segments: seq<Segment>, matches: seq<Match>, id: string)
    requires forall j | 0 <= j < |matches| :: Stored(segments, matches[j].segmentId) <= matches[j].counter
    ensures Stored(segments, id) <= After(segments, matches, id)
  {
    if |matches| > 0 {
      AfterRises(segments, matches[..|matches| - 1], id);
    }
  }

  /** No counter goes back from segments a to b. */
  ghost predicate CountersRise(a: seq<Segment>, b: seq<Segment>) {
    forall id :: Stored(a, id) <= Stored(b, id)
  }

  /** The match was not consumed in a and is consumed in b. */
  predicate Consumes(a: seq<Segment>, b: seq<Segment>, u: Match) {
    Stored(a, u.segmentId) <= u.counter < Stored(b, u.segmentId)
  }

  /** Each matched counter is stored plus one, every other counter is left alone. */
  ghost predicate NextCounters(a: seq<Segment>, b: seq<Segment>, matches: seq<Match>) {
    && SameLayout(a, b)
    && (forall j | 0 <= j < |matches| :: Stored(b, matches[j].segmentId) == matches[j].counter + 1)
    && (forall id | (forall j | 0 <= j < |matches| :: matches[j].segmentId != id) :: Stored(b, id) == Stored(a, id))
  }

  /** A successful commit consumes each matched counter: it was not below the stored one and
      the one after it is stored; no counter goes back, and one use is counted. */
  lemma SuccessConsumes(tenth: nat -> nat, m: TumblerMap, input: Input)
    requires Commit(tenth, m, input).1.Ok?
    ensures var n := Commit(tenth, m, input).0;
            && !Dead(m.status)
            && n.requestCount == Some(Or(m.requestCount, 0) + 1) && n.lastUsedAt == Some(input.usedAt)
            && n.policy.maxRequests == m.policy.maxRequests
            && (Capped(m) ==> Or(m.requestCount, 0) < m.policy.maxRequests.value)
            && CountersRise(m.segments, n.segments)
            && (forall j | 0 <= j < |input.matches| :: Consumes(m.segments, n.segments, input.matches[j]))
            && NextCounters(m.segments, n.segments, input.matches)
    ensures Distinct(m.segments, input.matches)
  {
    CommitFields(tenth, m, input);
    MatchesDistinct(m.segments, input.matches);
    AdvanceConsumes(m.segments, input.matches);
    AdvanceExact(m.segments, input.matches);
  }

  /** The fields a successful commit writes. */
  lemma CommitFields(tenth: nat -> nat, m: TumblerMap, input: Input)
    requires Commit(tenth, m, input).1.Ok?
    ensures var n := Commit(tenth, m, input).0;
            n == m.(segments := Advance(m.segments, input.matches), requestCount := Some(Or(m.requestCount, 0) + 1),
                    lastUsedAt := Some(input.usedAt), status := n.status)
    ensures MatchesError(m.segments, input.matches, 0).None? && LifecycleError(m, input.usedAt).None?
  {
  }

  lemma AdvanceConsumes(segments: seq<Segment>, matches: seq<Match>)
    requires Distinct(segments, matches)
    requires forall j | 0 <= j < |matches| :: Stored(segments, matches[j].segmentId) <= matches[j].counter
    ensures CountersRise(segments, Advance(segments, matches))
    ensures forall j | 0 <= j < |matches| :: Consumes(segments, Advance(segments, matches), matches[j])
  {
    forall id
      ensures Stored(segments, id) <= Stored(Advance(segments, matches), id)
    {
      AdvanceStores(segments, matches, id);
      AfterRises(segments, matches, id);
    }
    forall j | 0 <= j < |matches|
      ensures Consumes(segments, Advance(segments, matches), matches[j])
    {
      AdvanceStores(segments, matches, matches[j].segmentId);
      AfterIs(segments, matches, j);
    }
  }

  lemma AdvanceExact(segments: seq<Segment>, matches: seq<Match>)
    requires Distinct(segments, matches)
    ensures NextCounters(segments, Advance(segments, matches), matches)
  {
    forall j | 0 <= j < |matches|
      ensures Stored(Advance(segments, matches), matches[j].segmentId) == matches[j].counter + 1
    {
      AdvanceStores(segments, matches, matches[j].segmentId);
      AfterIs(segments, matches, j);
    }
    forall id | forall j | 0 <= j < |matches| :: matches[j].segmentId != id
      ensures Stored(Advance(segments, matches), id) == Stored(segments, id)
    {
      AdvanceStores(segments, matches, id);
      AfterOther(segments, matches, id);
    }
  }

  lemma {:induction false} AfterOther(segments: seq<Segment>, matches: seq<Match>, id: string)
    requires forall j | 0 <= j < |matches| :: matches[j].segmentId != id
    ensures After(segments, matches, id) == Stored(segments, id)
  {
    if |matches| > 0 {
      assert Last(matches) == matches[|matches| - 1];
      AfterOther(segments, matches[..|matches| - 1], id);
    }
  }
}
