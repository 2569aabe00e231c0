/** When a validated request commits, in plain terms: the exact conditions, each error's own one
    in the order of the checks, and what a success answers. */
module CommitRules {
  import opened Wrappers
  import opened Credential

  // ── counter state ──

  predicate HotpAt(segments: seq<Segment>, i: int) { 0 <= i < |segments| && segments[i].kind == Hotp }

  /** Some counter-based segment, none past the last counter, a warning window in range, and an
      exhausted segment only on a dead credential. */
  ghost predicate CounterSound(m: TumblerMap) {
    && (exists i :: HotpAt(m.segments, i))
    && (forall i | HotpAt(m.segments, i) :: Counter(m.segments[i]) <= 2_147_483_647)
    && (m.policy.hotpWarning.Some? ==> 1 <= m.policy.hotpWarning.value <= 2_147_483_647)
    && ((exists i :: HotpAt(m.segments, i) && Counter(m.segments[i]) == 2_147_483_647) ==>
          m.status == Some(Expired) || m.status == Some(Revoked))
  }

  /** What is left is the least over the counter-based segments. */
  ghost predicate LeastLeft(segments: seq<Segment>, left: nat) {
    && (forall i | HotpAt(segments, i) :: left + Counter(segments[i]) <= 2_147_483_647)
    && (exists i :: HotpAt(segments, i) && left + Counter(segments[i]) == 2_147_483_647)
  }

  lemma {:induction false} LeftIsLeast(segments: seq<Segment>)
    requires forall i | HotpAt(segments, i) :: Counter(segments[i]) <= 2_147_483_647
    ensures MinRemaining(segments).Some? <==> exists i :: HotpAt(segments, i)
    ensures MinRemaining(segments).Some? ==> LeastLeft(segments, MinRemaining(segments).value)
  {
    if |segments| > 0 {
      var n := |segments| - 1;
      var init := segments[..n];
      assert forall i | 0 <= i < n :: HotpAt(init, i) <==> HotpAt(segments, i);
      LeftIsLeast(init);
      assert segments[n] == Last(segments);
      if Last(segments).kind == Hotp {
        assert HotpAt(segments, n);
      }
      if MinRemaining(init).Some? {
        var k :| HotpAt(init, k) && MinRemaining(init).value + Counter(init[k]) == 2_147_483_647;
        assert HotpAt(segments, k) && segments[k] == init[k];
      }
      if exists i :: HotpAt(segments, i) && i != n {
        var i :| HotpAt(segments, i) && i != n;
        assert HotpAt(init, i);
      }
    }
  }

  lemma CounterSoundIff(m: TumblerMap)
    ensures CounterStateOk(m) <==> CounterSound(m)
  {
    if forall i | HotpAt(m.segments, i) :: Counter(m.segments[i]) <= 2_147_483_647 {
      LeftIsLeast(m.segments);
    } else {
      var i :| HotpAt(m.segments, i) && Counter(m.segments[i]) > 2_147_483_647;
    }
  }

  // ── matches ──

  /** How many segments are counter-based. */
  function Hotps(segments: seq<Segment>): set<int> { set i | 0 <= i < |segments| && segments[i].kind == Hotp }

  lemma {:induction false} HotpsCounted(segments: seq<Segment>)
    ensures |Hotps(segments)| == HotpCount(segments)
  {
    if |segments| > 0 {
      var n := |segments| - 1;
      HotpsCounted(segments[..n]);
      assert Hotps(segments) == Hotps(segments[..n]) + if Last(segments).kind == Hotp then {n} else {};
    }
  }

  /** The n-th match names, for the first time, a counter-based segment. */
  predicate Names(segments: seq<Segment>, matches: seq<Match>, n: nat)
    requires n < |matches|
  {
    var i := IndexOf(segments, matches[n].segmentId);
    && i.Some? && segments[i.value].kind == Hotp
    && forall j | 0 <= j < n :: matches[j].segmentId != matches[n].segmentId
  }

  /** It can be consumed: at or past the stored counter and not past the last one. */
  predicate MatchSound(segments: seq<Segment>, matches: seq<Match>, n: nat)
    requires n < |matches|
  {
    Names(segments, matches, n) && Stored(segments, matches[n].segmentId) <= matches[n].counter < 2_147_483_647
  }

  predicate MatchesSound(segments: seq<Segment>, matches: seq<Match>, upto: nat)
    requires upto <= |matches|
  {
    forall j: nat {:trigger MatchSound(segments, matches, j)} | j < upto :: MatchSound(segments, matches, j)
  }

  lemma MatchErrorIs(segments: seq<Segment>, matches: seq<Match>, n: nat)
    requires n < |matches|
    ensures var e, stored := MatchError(segments, matches, n), Stored(segments, matches[n].segmentId);
            && (e.None? <==> MatchSound(segments, matches, n))
            && (!Names(segments, matches, n) ==> e == Some(Replay))
            && (Names(segments, matches, n) && stored >= 2_147_483_647 ==> e == Some(Exhausted))
            && ((Names(segments, matches, n) && stored < 2_147_483_647 && !(0 <= matches[n].counter < 2_147_483_647)) ==>
                  e == Some(CounterInvalid))
            && (Names(segments, matches, n) && 0 <= matches[n].counter < stored < 2_147_483_647 ==> e == Some(Replay))
  {
    if Seen(matches, n) {
      var j :| 0 <= j < n && matches[j].segmentId == matches[n].segmentId;
    }
  }

  /** The error is that of the first match that cannot be consumed. */
  lemma {:induction false} FirstError(segments: seq<Segment>, matches: seq<Match>, n: nat, k: nat)
    requires n <= k < |matches| && (forall j: nat | n <= j < k :: MatchSound(segments, matches, j))
    requires !MatchSound(segments, matches, k)
    ensures MatchesError(segments, matches, n) == MatchError(segments, matches, k)
    decreases k - n
  {
    MatchErrorIs(segments, matches, n);
    if n < k {
      assert MatchSound(segments, matches, n);
      FirstError(segments, matches, n + 1, k);
    }
  }

  lemma {:induction false} NoError(segments: seq<Segment>, matches: seq<Match>, n: nat)
    requires n <= |matches| && forall j: nat | n <= j < |matches| :: MatchSound(segments, matches, j)
    ensures MatchesError(segments, matches, n).None?
    decreases |matches| - n
  {
    if n < |matches| {
      MatchErrorIs(segments, matches, n);
      assert MatchSound(segments, matches, n);
      NoError(segments, matches, n + 1);
    }
  }

  lemma MatchesSoundIff(segments: seq<Segment>, matches: seq<Match>)
    ensures MatchesError(segments, matches, 0).None? <==> MatchesSound(segments, matches, |matches|)
  {
    if MatchesSound(segments, matches, |matches|) {
      NoError(segments, matches, 0);
    } else if MatchesError(segments, matches, 0).None? {
      forall j: nat | j < |matches|
        ensures MatchSound(segments, matches, j)
      {
        MatchErrorIs(segments, matches, j);
        assert MatchError(segments, matches, j) == None;
      }
    }
  }

  // ── acceptance ──

  predicate InTime(m: TumblerMap, usedAt: nat) { m.policy.expiresAt.None? || usedAt <= m.policy.expiresAt.value }

  /** No positive cap, or fewer uses than it. */
  predicate UnderCap(m: TumblerMap) {
    m.policy.maxRequests.Some? && m.policy.maxRequests.value > 0 ==> Or(m.requestCount, 0) < m.policy.maxRequests.value
  }

  predicate Alive(m: TumblerMap) { m.status != Some(Expired) && m.status != Some(Revoked) }

  /** A commit succeeds exactly when the counter state is sound, the credential alive, in time and
      under its cap, and there is one consumable match for every counter-based segment. */
  lemma CommitAcceptedIff(tenth: nat -> nat, m: TumblerMap, input: Input)
    ensures Commit(tenth, m, input).1.Ok? <==>
            && CounterSound(m) && Alive(m) && InTime(m, input.usedAt) && UnderCap(m)
            && |input.matches| == |Hotps(m.segments)| && MatchesSound(m.segments, input.matches, |input.matches|)
  {
    CounterSoundIff(m);
    HotpsCounted(m.segments);
    MatchesSoundIff(m.segments, input.matches);
  }

  /** The checks before any match is looked at, each with its error, in their order. */
  lemma LifecycleErrors(tenth: nat -> nat, m: TumblerMap, input: Input)
    ensures var r := Commit(tenth, m, input).1;
            if !CounterSound(m) then r == Err(CounterInvalid)
            else if m.status == Some(Revoked) then r == Err(KeyRevoked)
            else if m.status == Some(Expired) then r == Err(KeyExpired)
            else if !InTime(m, input.usedAt) then r == Err(KeyExpired)
            else if !UnderCap(m) then r == Err(UsageCap)
            else if |input.matches| != |Hotps(m.segments)| then r == Err(CounterInvalid)
            else r.Ok? <==> MatchesSound(m.segments, input.matches, |input.matches|)
  {
    CounterSoundIff(m);
    HotpsCounted(m.segments);
    MatchesSoundIff(m.segments, input.matches);
  }

  /** Past those, the error is the first unsound match's: a segment it may not name is a replay, a
      used up segment exhausted, a counter out of range invalid, and one already consumed a replay. */
  lemma MatchErrors(tenth: nat -> nat, m: TumblerMap, input: Input, k: nat)
    requires CounterSound(m) && Alive(m) && InTime(m, input.usedAt) && UnderCap(m)
    requires |input.matches| == |Hotps(m.segments)| && k < |input.matches|
    requires MatchesSound(m.segments, input.matches, k) && !MatchSound(m.segments, input.matches, k)
    ensures var r, u := Commit(tenth, m, input).1, input.matches[k];
            if !Names(m.segments, input.matches, k) then r == Err(Replay)
            else if Stored(m.segments, u.segmentId) == 2_147_483_647 then r == Err(Exhausted)
            else if !(0 <= u.counter < 2_147_483_647) then r == Err(CounterInvalid)
            else r == Err(Replay)
  {
    CounterSoundIff(m);
    HotpsCounted(m.segments);
    FirstError(m.segments, input.matches, 0, k);
    MatchErrorIs(m.segments, input.matches, k);
    if Names(m.segments, input.matches, k) {
      var i := IndexOf(m.segments, input.matches[k].segmentId).value;
      assert HotpAt(m.segments, i);
    }
  }

  /** A failed commit expires a live credential exactly when it is past its time, at its cap or
      used up, and otherwise changes nothing. */
  lemma FailureExpires(tenth: nat -> nat, m: TumblerMap, input: Input)
    requires Commit(tenth, m, input).1.Err?
    ensures var n, e := Commit(tenth, m, input).0, Commit(tenth, m, input).1.error;
            if CounterSound(m) && Alive(m) && (e == KeyExpired || e == UsageCap || e == Exhausted)
            then n == m.(status := Some(Expired)) else n == m
  {
    CounterSoundIff(m);
  }

  // ── the answer ──

  /** Uses left of a cap after this one. */
  function UsesLeft(m: TumblerMap): Option<int> {
    if m.policy.maxRequests.Some? && m.policy.maxRequests.value > 0
    then Some(m.policy.maxRequests.value - Or(m.requestCount, 0) - 1) else None
  }

  /** The cap's warning window: at least one use, at most the cap. */
  function Window(tenth: nat -> nat, m: TumblerMap): int
    requires m.policy.maxRequests.Some?
  {
    var cap := m.policy.maxRequests.value;
    var asked := if m.policy.usageWarning.Some? then m.policy.usageWarning.value else tenth(cap);
    if asked < 1 then if cap < 1 then cap else 1 else if cap < asked then cap else asked
  }

  /** Rotation is due within either warning window. */
  predicate Due(tenth: nat -> nat, m: TumblerMap, left: nat) {
    || left <= (if m.policy.hotpWarning.Some? then m.policy.hotpWarning.value else 1000)
    || (UsesLeft(m).Some? && UsesLeft(m).value <= Window(tenth, m))
  }

  /** What a success reports and the status it leaves. */
  lemma CommitAnswer(tenth: nat -> nat, m: TumblerMap, input: Input)
    requires Commit(tenth, m, input).1.Ok?
    ensures var n, ok := Commit(tenth, m, input).0, Commit(tenth, m, input).1.value;
            && ok.requestCount == Or(m.requestCount, 0) + 1 && ok.requestsRemaining == UsesLeft(m)
            && LeastLeft(n.segments, ok.hotpRemaining)
            && (ok.rotate <==> Due(tenth, m, ok.hotpRemaining))
            && n.status == if ok.hotpRemaining == 0 then Some(Expired) else if ok.rotate then Some(Expiring) else m.status
  {
    CommitAcceptedIff(tenth, m, input);
    AdvancedSound(m, input);
    var segments := Advance(m.segments, input.matches);
    LeftIsLeast(segments);
    HotpKept(m.segments, input.matches);
    CommitFields(tenth, m, input);
    StagesAnswer(tenth, m, input, MinRemaining(segments).value);
  }

  /** The two status stages of a success, from the segments' remaining uses. */
  lemma StagesAnswer(tenth: nat -> nat, m: TumblerMap, input: Input, left: nat)
    requires Alive(m) && UnderCap(m)
    ensures var settled := Reconcile(Used(m, input), left);
            var done := UsageStage(tenth, settled.0, left, settled.1);
            && done.1.requestCount == Or(m.requestCount, 0) + 1 && done.1.requestsRemaining == UsesLeft(m)
            && done.1.hotpRemaining == left && (done.1.rotate <==> Due(tenth, m, left))
            && done.0.status == if left == 0 then Some(Expired) else if done.1.rotate then Some(Expiring) else m.status
  {
  }

  /** Advancing leaves every counter in range. */
  lemma AdvancedSound(m: TumblerMap, input: Input)
    requires CounterSound(m) && MatchesSound(m.segments, input.matches, |input.matches|)
    ensures forall i | HotpAt(Advance(m.segments, input.matches), i) ::
              Counter(Advance(m.segments, input.matches)[i]) <= 2_147_483_647
  {
    AdvanceBounded(m.segments, input.matches);
  }

  lemma {:induction false} AdvanceBounded(segments: seq<Segment>, matches: seq<Match>)
    requires forall i | HotpAt(segments, i) :: Counter(segments[i]) <= 2_147_483_647
    requires forall j: nat | j < |matches| :: MatchSound(segments, matches, j)
    ensures forall i | HotpAt(Advance(segments, matches), i) :: Counter(Advance(segments, matches)[i]) <= 2_147_483_647
  {
    if |matches| > 0 {
      var init, u := matches[..|matches| - 1], Last(matches);
      forall j: nat | j < |init|
        ensures MatchSound(segments, init, j)
      {
        assert MatchSound(segments, matches, j);
      }
      AdvanceBounded(segments, init);
      assert MatchSound(segments, matches, |matches| - 1);
      var before, after := Advance(segments, init), Advance(segments, matches);
      forall i | HotpAt(after, i)
        ensures Counter(after[i]) <= 2_147_483_647
      {
        assert SameButCounter(before[i], after[i]) && HotpAt(before, i);
      }
    }
  }
}
