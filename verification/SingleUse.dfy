/** Concurrent verification requests against one stored credential: the in-place commit, and
    what holds in every interleaving of reads, stale expiry writes and commits. */
module SingleUse {
  import opened Wrappers
  import opened Credential
  import opened CommitRules

  // ── commitValidationToMap, in place ──

  class Stored {
    const fixed: TumblerMap   // the fields no commit writes
    var segments: seq<Segment>
    var status: Option<Status>
    var requestCount: Option<nat>
    var lastUsedAt: Option<nat>

    function Map(): TumblerMap
      reads this
    {
      fixed.(segments := segments, status := status, requestCount := requestCount, lastUsedAt := lastUsedAt)
    }

    constructor (m: TumblerMap)
      ensures Map() == m
    {
      fixed := m;
      segments, status, requestCount, lastUsedAt := m.segments, m.status, m.requestCount, m.lastUsedAt;
    }

    method CommitValidation(tenth: nat -> nat, input: Input) returns (r: Result<Success, CommitError>)
      modifies this
      ensures (Map(), r) == Commit(tenth, old(Map()), input)
    {
      if !CounterStateOk(Map()) {
        return Err(CounterInvalid);
      }
      if status == Some(Revoked) {
        return Err(KeyRevoked);
      }
      if status == Some(Expired) {
        return Err(KeyExpired);
      }
      if fixed.policy.expiresAt.Some? && input.usedAt > fixed.policy.expiresAt.value {
        status := Some(Expired);
        return Err(KeyExpired);
      }
      if Capped(fixed) && Or(requestCount, 0) >= fixed.policy.maxRequests.value {
        status := Some(Expired);
        return Err(UsageCap);
      }
      var fault := CheckMatches(segments, input.matches);
      if fault.Some? {
        if fault.value == Exhausted {
          status := Some(Expired);
        }
        return Err(fault.value);
      }
      HotpKept(segments, input.matches);
      MatchesDistinct(segments, input.matches);
      var ok := Record(tenth, input);
      return Ok(ok);
    }

    method ReconcileStatus(remaining: nat) returns (rotate: bool)
      modifies this`status
      ensures (Map(), rotate) == Reconcile(old(Map()), remaining)
    {
      rotate := remaining <= Or(fixed.policy.hotpWarning, DEFAULT_HOTP_WARNING);
      if status != Some(Revoked) && status != Some(Expired) {
        if remaining == 0 {
          status := Some(Expired);
        } else if rotate {
          status := Some(Expiring);
        }
      }
    }

    /** The writes of a commit that passed every check. */
    method Record(tenth: nat -> nat, input: Input) returns (ok: Success)
      requires Distinct(segments, input.matches)
      requires MinRemaining(Advance(segments, input.matches)).Some?
      modifies this
      ensures (Map(), ok) == Committed(tenth, old(Map()), input)
    {
      ghost var m := Map();
      segments := ApplyMatches(segments, input.matches);
      requestCount := Some(Or(requestCount, 0) + 1);
      lastUsedAt := Some(input.usedAt);
      assert Map() == Used(m, input);
      var left := MinRemaining(segments).value;
      var rotate := ReconcileStatus(left);
      ok := ReportUsage(tenth, left, rotate);
    }

    method ReportUsage(tenth: nat -> nat, left: nat, rotate: bool) returns (ok: Success)
      modifies this`status
      ensures (Map(), ok) == UsageStage(tenth, old(Map()), left, rotate)
    {
      var count := Or(requestCount, 0);
      if !Capped(Map()) {
        return Success(count, None, left, rotate);
      }
      var cap := fixed.policy.maxRequests.value;
      var remaining := if count <= cap then cap - count else 0;
      var near := remaining <= UsageWindow(tenth, Map());
      if near && left > 0 {
        status := Some(Expiring);
      }
      return Success(count, Some(remaining), left, near || rotate);
    }
  }

  /** Every match is checked before any counter moves. */
  method CheckMatches(segments: seq<Segment>, matches: seq<Match>) returns (fault: Option<CommitError>)
    ensures fault == if |matches| != HotpCount(segments) then Some(CounterInvalid)
                     else MatchesError(segments, matches, 0)
  {
    if |matches| != HotpCount(segments) {
      return Some(CounterInvalid);
    }
    var seen: set<string> := {};
    for n := 0 to |matches|
      invariant MatchesError(segments, matches, 0) == MatchesError(segments, matches, n)
      invariant forall id :: id in seen <==> exists j | 0 <= j < n :: matches[j].segmentId == id
    {
      var u := matches[n];
      var i := IndexOf(segments, u.segmentId);
      if i.None? || segments[i.value].kind != Hotp || u.segmentId in seen {
        return Some(Replay);
      }
      seen := seen + {u.segmentId};
      var stored := Counter(segments[i.value]);
      if stored >= MAX_COUNTER {
        return Some(Exhausted);
      }
      if !(0 <= u.counter < MAX_COUNTER) {
        return Some(CounterInvalid);
      }
      if stored > u.counter {
        return Some(Replay);
      }
    }
    return None;
  }

  lemma AdvanceNext(segments: seq<Segment>, matches: seq<Match>, n: nat)
    requires n < |matches| && matches[n].counter >= 0
    ensures Advance(segments, matches[..n + 1]) ==
            SetCounter(Advance(segments, matches[..n]), matches[n].segmentId, matches[n].counter + 1)
  {
    assert matches[..n + 1][..n] == matches[..n];
  }

  method ApplyMatches(segments: seq<Segment>, matches: seq<Match>) returns (r: seq<Segment>)
    requires Distinct(segments, matches)
    ensures r == Advance(segments, matches)
  {
    r := segments;
    for n := 0 to |matches|
      invariant r == Advance(segments, matches[..n])
    {
      AdvanceNext(segments, matches, n);
      r := SetCounter(r, matches[n].segmentId, matches[n].counter + 1);
    }
    assert matches[..|matches|] == matches;
  }

  // ── interleavings of verifyTSKRequest ──

  /** The stored map, the copies requests hold, every counter consumed by a success in order,
      and how many requests succeeded. */
  datatype System = System(
    stored: Option<TumblerMap>, copies: set<TumblerMap>, consumed: seq<Match>, successes: nat)

  datatype Event =
    | Get                                       // a request reads its copy
    | TtlDelete                                 // a read past the store's age limit drops the map
    | ExpiryWrite(copy: TumblerMap, now: nat)   // a request writes its copy back as expired
    | CommitStep(input: Input)                  // a request commits whatever it matched

  /** A request writes its copy back exactly when the copy looks used up. */
  predicate LooksExpired(m: TumblerMap, now: nat) {
    && !Dead(m.status)
    && ((m.policy.expiresAt.Some? && now > m.policy.expiresAt.value) || (Capped(m) && Or(m.requestCount, 0) >= m.policy.maxRequests.value))
  }

  function Apply(tenth: nat -> nat, s: System, e: Event): System {
    match e
    case Get => if s.stored.Some? then s.(copies := s.copies + {s.stored.value}) else s
    case TtlDelete => s.(stored := None)
    case ExpiryWrite(copy, now) =>
      var expired := copy.(status := Some(Expired));
      if copy in s.copies && LooksExpired(copy, now) && CounterStateOk(expired) then s.(stored := Some(expired)) else s
    case CommitStep(input) =>
      if s.stored.None? then s
      else
        var (next, r) := Commit(tenth, s.stored.value, input);
        if r.Ok? then System(Some(next), s.copies, s.consumed + input.matches, s.successes + 1)
        else s.(stored := Some(next))
  }

  function Run(tenth: nat -> nat, start: TumblerMap, events: seq<Event>): System {
    if |events| == 0 then System(Some(start), {}, [], 0)
    else Apply(tenth, Run(tenth, start, events[..|events| - 1]), Last(events))
  }

  predicate Live(s: System) { s.stored.Some? && !Dead(s.stored.value.status) }

  /** A counter is behind the stored one. */
  predicate Behind(m: TumblerMap, u: Match) { u.counter < Credential.Stored(m.segments, u.segmentId) }

  predicate OnceEach(consumed: seq<Match>) {
    forall i, j | 0 <= i < j < |consumed| :: consumed[i] != consumed[j]
  }

  predicate Inv(start: TumblerMap, s: System) {
    && OnceEach(s.consumed)
    && (Live(s) ==>
          && (forall i | 0 <= i < |s.consumed| :: Behind(s.stored.value, s.consumed[i]))
          && Or(s.stored.value.requestCount, 0) == Or(start.requestCount, 0) + s.successes
          && s.stored.value.policy.maxRequests == start.policy.maxRequests)
    && (Capped(start) && s.successes > 0 ==> Or(start.requestCount, 0) + s.successes <= start.policy.maxRequests.value)
  }

  /** New matches at or past the stored counters are none of the old ones. */
  lemma OnceMore(m: TumblerMap, consumed: seq<Match>, matches: seq<Match>)
    requires OnceEach(consumed) && forall i | 0 <= i < |consumed| :: Behind(m, consumed[i])
    requires forall j | 0 <= j < |matches| :: !Behind(m, matches[j])
    requires forall i, j | 0 <= i < j < |matches| :: matches[i].segmentId != matches[j].segmentId
    ensures OnceEach(consumed + matches)
  {
    var all := consumed + matches;
    forall i, j | 0 <= i < j < |all|
      ensures all[i] != all[j]
    {
      if i < |consumed| <= j {
        assert Behind(m, all[i]) && all[j] == matches[j - |consumed|];
      }
    }
  }

  lemma CommitKeeps(tenth: nat -> nat, start: TumblerMap, s: System, input: Input)
    requires Inv(start, s) && s.stored.Some? && Commit(tenth, s.stored.value, input).1.Ok?
    ensures Inv(start, System(Some(Commit(tenth, s.stored.value, input).0), s.copies, s.consumed + input.matches,
                              s.successes + 1))
  {
    SuccessConsumes(tenth, s.stored.value, input);
    SuccessKeeps(start, s, Commit(tenth, s.stored.value, input).0, input.matches);
  }

  lemma SuccessKeeps(start: TumblerMap, s: System, n: TumblerMap, matches: seq<Match>)
    requires Inv(start, s) && Live(s)
    requires n.requestCount == Some(Or(s.stored.value.requestCount, 0) + 1)
    requires n.policy.maxRequests == s.stored.value.policy.maxRequests
    requires Capped(s.stored.value) ==> Or(s.stored.value.requestCount, 0) < s.stored.value.policy.maxRequests.value
    requires Distinct(s.stored.value.segments, matches) && CountersRise(s.stored.value.segments, n.segments)
    requires forall j | 0 <= j < |matches| :: Consumes(s.stored.value.segments, n.segments, matches[j])
    ensures Inv(start, System(Some(n), s.copies, s.consumed + matches, s.successes + 1))
  {
    CommitRecorded(s.stored.value, n, s.consumed, matches);
  }

  /** What is consumed stays behind the stored counters, and nothing is consumed again. */
  lemma CommitRecorded(m: TumblerMap, n: TumblerMap, consumed: seq<Match>, matches: seq<Match>)
    requires OnceEach(consumed) && forall i | 0 <= i < |consumed| :: Behind(m, consumed[i])
    requires Distinct(m.segments, matches) && CountersRise(m.segments, n.segments)
    requires forall j | 0 <= j < |matches| :: Consumes(m.segments, n.segments, matches[j])
    ensures OnceEach(consumed + matches)
    ensures forall i | 0 <= i < |consumed + matches| :: Behind(n, (consumed + matches)[i])
  {
    forall j | 0 <= j < |matches|
      ensures !Behind(m, matches[j])
    {
      assert Consumes(m.segments, n.segments, matches[j]);
    }
    OnceMore(m, consumed, matches);
    forall i | 0 <= i < |consumed + matches|
      ensures Behind(n, (consumed + matches)[i])
    {
      if i < |consumed| {
        var id := consumed[i].segmentId;
        assert Behind(m, consumed[i]);
        assert Credential.Stored(m.segments, id) <= Credential.Stored(n.segments, id);
      } else {
        assert Consumes(m.segments, n.segments, matches[i - |consumed|]);
      }
    }
  }

  lemma StepKeeps(tenth: nat -> nat, start: TumblerMap, s: System, e: Event)
    requires Inv(start, s)
    ensures Inv(start, Apply(tenth, s, e))
  {
    if e.CommitStep? && s.stored.Some? {
      if Commit(tenth, s.stored.value, e.input).1.Ok? {
        CommitKeeps(tenth, start, s, e.input);
      } else {
        FailureChangesNothing(tenth, s.stored.value, e.input);
      }
    }
  }

  /** In every interleaving each segment counter is consumed by at most one success, and
      successes never exceed a positive cap. */
  lemma {:induction false} SingleUse(tenth: nat -> nat, start: TumblerMap, events: seq<Event>)
    ensures var s := Run(tenth, start, events);
            && OnceEach(s.consumed)
            && (Capped(start) && s.successes > 0 ==>
                  Or(start.requestCount, 0) + s.successes <= start.policy.maxRequests.value)
            && Inv(start, s)
  {
    if |events| > 0 {
      SingleUse(tenth, start, events[..|events| - 1]);
      StepKeeps(tenth, start, Run(tenth, start, events[..|events| - 1]), Last(events));
    }
  }

  /** Once expired, revoked or gone, a credential never validates again. */
  lemma {:induction false} DeadForever(tenth: nat -> nat, start: TumblerMap, events: seq<Event>, k: nat)
    requires k <= |events| && !Live(Run(tenth, start, events[..k]))
    ensures !Live(Run(tenth, start, events))
    ensures Run(tenth, start, events).successes == Run(tenth, start, events[..k]).successes
  {
    if k == |events| {
      assert events[..k] == events;
    } else {
      var init := events[..|events| - 1];
      assert init[..k] == events[..k];
      DeadForever(tenth, start, init, k);
      DeadStep(tenth, Run(tenth, start, init), Last(events));
    }
  }

  lemma DeadStep(tenth: nat -> nat, s: System, e: Event)
    requires !Live(s)
    ensures !Live(Apply(tenth, s, e)) && Apply(tenth, s, e).successes == s.successes
  {
    if e.CommitStep? && s.stored.Some? && Commit(tenth, s.stored.value, e.input).1.Ok? {
      SuccessConsumes(tenth, s.stored.value, e.input);
    }
  }

  // ── expiry ──

  /** A request writes its copy back, as expired, exactly when that copy is alive and past its time
      or at its cap. */
  lemma ExpiryWriteOutcome(tenth: nat -> nat, s: System, copy: TumblerMap, now: nat)
    ensures Apply(tenth, s, ExpiryWrite(copy, now)) ==
            if copy in s.copies && Alive(copy) && (!InTime(copy, now) || !UnderCap(copy)) &&
               CounterSound(copy.(status := Some(Expired)))
            then s.(stored := Some(copy.(status := Some(Expired)))) else s
  {
    CounterSoundIff(copy.(status := Some(Expired)));
  }

  /** Every map in the system has the policy it started with. */
  predicate SamePolicy(start: TumblerMap, s: System) {
    && (s.stored.Some? ==> s.stored.value.policy == start.policy)
    && forall copy | copy in s.copies :: copy.policy == start.policy
  }

  lemma CommitKeepsPolicy(tenth: nat -> nat, m: TumblerMap, input: Input)
    ensures Commit(tenth, m, input).0.policy == m.policy
  {
    if Commit(tenth, m, input).1.Ok? {
      CommitFields(tenth, m, input);
    } else {
      FailureChangesNothing(tenth, m, input);
    }
  }

  lemma {:induction false} PolicyKept(tenth: nat -> nat, start: TumblerMap, events: seq<Event>)
    ensures SamePolicy(start, Run(tenth, start, events))
  {
    if |events| > 0 {
      var s, e := Run(tenth, start, events[..|events| - 1]), Last(events);
      PolicyKept(tenth, start, events[..|events| - 1]);
      if e.CommitStep? && s.stored.Some? {
        CommitKeepsPolicy(tenth, s.stored.value, e.input);
      }
    }
  }

  /** In every interleaving the k-th step is a success only at a use time that the credential's
      expiry allows. */
  lemma NoSuccessPastExpiry(tenth: nat -> nat, start: TumblerMap, events: seq<Event>, k: nat)
    requires k < |events|
    requires Run(tenth, start, events[..k + 1]).successes > Run(tenth, start, events[..k]).successes
    ensures events[k].CommitStep?
    ensures start.policy.expiresAt.Some? ==> events[k].input.usedAt <= start.policy.expiresAt.value
  {
    var s := Run(tenth, start, events[..k]);
    assert events[..k + 1][..k] == events[..k];
    PolicyKept(tenth, start, events[..k]);
    if events[k].CommitStep? && s.stored.Some? {
      CommitAcceptedIff(tenth, s.stored.value, events[k].input);
    }
  }

  // ── a stale expiry write does put old counters back ──

  function Young(): TumblerMap {
    TumblerMap(Identity("c", "s", 0, "1"), Policy(None, Some(5), None, None, Layout(20, 8, 20, None)),
               [Segment("h", Hotp, Shape(0, 8, None), Some(0))], None, None, None)
  }

  const FIRST := Input([Match("h", 0)], 3)

  lemma YoungCommits(tenth: nat -> nat)
    ensures CounterStateOk(Young()) && CounterStateOk(Young().(status := Some(Expired)))
    ensures Commit(tenth, Young(), FIRST).1.Ok?
    ensures Consumes(Young().segments, Commit(tenth, Young(), FIRST).0.segments, FIRST.matches[0])
  {
    var m := Young();
    assert m.segments[..0] == [];
    assert MinRemaining([]).None?;
    assert HotpCount(m.segments) == 1 && IndexOf(m.segments, "h") == Some(0);
    assert MatchError(m.segments, FIRST.matches, 0) == None;
    SuccessConsumes(tenth, m, FIRST);
  }

  lemma {:induction false} RunNext(tenth: nat -> nat, start: TumblerMap, events: seq<Event>, e: Event)
    ensures Run(tenth, start, events + [e]) == Apply(tenth, Run(tenth, start, events), e)
  {
    assert (events + [e])[..|events + [e]| - 1] == events;
  }

  /** The copy was read before a success and written after it. */
  lemma StaleWriteRestores(tenth: nat -> nat)
    ensures Restores(tenth, Young(), [Get, CommitStep(FIRST)] + [ExpiryWrite(Young(), 9)])
  {
    YoungCommits(tenth);
    RunNext(tenth, Young(), [], Get);
    assert [] + [Get] == [Get];
    RunNext(tenth, Young(), [Get], CommitStep(FIRST));
    assert [Get] + [CommitStep(FIRST)] == [Get, CommitStep(FIRST)];
    var events := [Get, CommitStep(FIRST)];
    RunNext(tenth, Young(), events, ExpiryWrite(Young(), 9));
    assert (events + [ExpiryWrite(Young(), 9)])[..2] == events;
  }

  ghost predicate Restores(tenth: nat -> nat, start: TumblerMap, events: seq<Event>) {
    && |events| > 0
    && var before, after := Run(tenth, start, events[..|events| - 1]), Run(tenth, start, events);
       before.stored.Some? && after.stored.Some? &&
       exists id :: Credential.Stored(after.stored.value.segments, id) < Credential.Stored(before.stored.value.segments, id)
  }
}
