/** When each credential store operation is admitted and what it leaves, in plain terms, and what
    no operation ever takes back. */
module CredentialRules {
  import opened Wrappers
  import opened Credential
  import opened CredentialMap
  import opened CredentialLog
  import opened CommitRules
  import opened CredentialRefinement

  // ── a map that follows another ──

  /** The same segment with a counter that is not less. */
  predicate Continues(s: Segment, t: Segment) {
    && s.id == t.id && s.kind == t.kind && s.shape == t.shape
    && (s.kind == Hotp ==> Counter(s) <= Counter(t))
  }

  predicate ContinuedIn(a: seq<Segment>, t: Segment) { exists i | 0 <= i < |a| :: Continues(a[i], t) }

  /** Expired and revoked are final, and expiring is not taken back. */
  predicate StatusFollows(a: Option<Status>, b: Option<Status>) {
    && (a == Some(Expired) ==> b == Some(Expired)) && (a == Some(Revoked) ==> b == Some(Revoked))
    && (a == Some(Expiring) ==> b == Some(Expiring) || b == Some(Expired) || b == Some(Revoked))
  }

  predicate UsageContinues(a: TumblerMap, b: TumblerMap) {
    && Or(a.requestCount, 0) <= Or(b.requestCount, 0) && Or(a.lastUsedAt, 0) <= Or(b.lastUsedAt, 0)
    && StatusFollows(a.status, b.status)
  }

  lemma ContinuedIff(a: seq<Segment>, t: Segment)
    requires UniqueIds(a)
    ensures SegmentFollows(a, t) <==> ContinuedIn(a, t)
  {
    if ContinuedIn(a, t) {
      var i: nat :| i < |a| && Continues(a[i], t);
      IndexUnique(a, i);
    }
  }

  /** One admitted map may follow another exactly when identity and secret are the same, the
      segments are, up to counters that rose, and use and status were not taken back. */
  lemma MonotonicIff(a: TumblerMap, b: TumblerMap)
    requires UniqueIds(a.segments) && UniqueIds(b.segments)
    ensures Monotonic(a, b) <==>
            && a.who == b.who && |a.segments| == |b.segments| && UsageContinues(a, b)
            && forall i | 0 <= i < |b.segments| :: ContinuedIn(a.segments, b.segments[i])
  {
    IdsCount(a.segments);
    forall i | 0 <= i < |b.segments|
      ensures SegmentFollows(a.segments, b.segments[i]) <==> ContinuedIn(a.segments, b.segments[i])
    {
      ContinuedIff(a.segments, b.segments[i]);
    }
  }

  // ── counter updates ──

  /** The counter of an id after the first n updates. */
  function Current(segments: seq<Segment>, updates: seq<(string, nat)>, n: nat, id: string): nat
    requires n <= |updates|
  {
    if n == 0 then Stored(segments, id)
    else if updates[n - 1].0 == id then updates[n - 1].1
    else Current(segments, updates, n - 1, id)
  }

  predicate UpdateSound(segments: seq<Segment>, updates: seq<(string, nat)>, n: nat)
    requires n < |updates|
  {
    var i := IndexOf(segments, updates[n].0);
    && i.Some? && segments[i.value].kind == Hotp
    && Current(segments, updates, n, updates[n].0) <= updates[n].1 <= 2_147_483_647
  }

  predicate UpdatesSound(segments: seq<Segment>, updates: seq<(string, nat)>) {
    forall n: nat {:trigger UpdateSound(segments, updates, n)} | n < |updates| :: UpdateSound(segments, updates, n)
  }

  lemma {:induction false} CurrentPrefix(segments: seq<Segment>, updates: seq<(string, nat)>, k: nat, n: nat, id: string)
    requires n <= k <= |updates|
    ensures Current(segments, updates[..k], n, id) == Current(segments, updates, n, id)
  {
    if n > 0 {
      CurrentPrefix(segments, updates, k, n - 1, id);
    }
  }

  lemma UpdatesSnoc(segments: seq<Segment>, updates: seq<(string, nat)>)
    requires |updates| > 0
    ensures UpdatesSound(segments, updates) <==>
            UpdatesSound(segments, updates[..|updates| - 1]) && UpdateSound(segments, updates, |updates| - 1)
  {
    var k := |updates| - 1;
    var init := updates[..k];
    forall n: nat | n < k
      ensures UpdateSound(segments, init, n) <==> UpdateSound(segments, updates, n)
    {
      CurrentPrefix(segments, updates, k, n, updates[n].0);
    }
    if UpdatesSound(segments, updates) {
      assert UpdateSound(segments, updates, k);
      forall n: nat | n < k
        ensures UpdateSound(segments, init, n)
      {
        assert UpdateSound(segments, updates, n);
      }
    } else if UpdatesSound(segments, init) {
      assert UpdateSound(segments, updates, k) ==> forall n: nat | n < |updates| :: n < k || UpdateSound(segments, updates, n);
      assert forall n: nat | n < k :: UpdateSound(segments, init, n);
    }
  }

  /** Updates pass exactly when each names a counter-based segment and moves it forward in range;
      each counter is then the last one given for it. */
  lemma {:induction false} UpdateAllIff(segments: seq<Segment>, updates: seq<(string, nat)>)
    ensures UpdateAll(segments, updates).Some? <==> UpdatesSound(segments, updates)
    ensures UpdateAll(segments, updates).Some? ==>
              forall id :: Stored(UpdateAll(segments, updates).value, id) == Current(segments, updates, |updates|, id)
  {
    if |updates| > 0 {
      var k := |updates| - 1;
      var init, u := updates[..k], Last(updates);
      UpdateAllIff(segments, init);
      UpdatesSnoc(segments, updates);
      var before := UpdateAll(segments, init);
      if before.Some? {
        IndexFramed(segments, before.value, u.0);
        CurrentPrefix(segments, updates, k, k, u.0);
        var i := IndexOf(segments, u.0);
        if i.Some? {
          assert SameButCounter(segments[i.value], before.value[i.value]);
        }
        if UpdateAll(segments, updates).Some? {
          forall id
            ensures Stored(UpdateAll(segments, updates).value, id) == Current(segments, updates, |updates|, id)
          {
            SetCounterStores(before.value, u.0, u.1, id);
            CurrentPrefix(segments, updates, k, k, id);
          }
        }
      }
    }
  }

  // ── one counter consumed ──

  /** The counter-based segment of an id still has this counter to give. */
  predicate Consumable(m: TumblerMap, id: string, c: int) {
    var i := IndexOf(m.segments, id);
    i.Some? && m.segments[i.value].kind == Hotp && Stored(m.segments, id) <= c < 2_147_483_647
  }

  predicate UsedUp(m: TumblerMap, id: string) {
    var i := IndexOf(m.segments, id);
    i.Some? && m.segments[i.value].kind == Hotp && Stored(m.segments, id) == 2_147_483_647
  }

  /** consumeCounter takes exactly a counter not yet consumed and stores the one after it, or
      expires a live credential whose segment is used up. */
  lemma ConsumeIff(m: TumblerMap, id: string, c: int)
    requires CounterStateOk(m)
    ensures Consumed(m, id, c).Some? <==>
            Consumable(m, id, c) || (UsedUp(m, id) && Alive(m) && 0 <= c < 2_147_483_647)
    ensures Consumable(m, id, c) ==>
              var n := Consumed(m, id, c).value;
              && Stored(n.segments, id) == c + 1 && (forall other | other != id :: Stored(n.segments, other) == Stored(m.segments, other))
              && n == m.(segments := n.segments, status := n.status) && SameLayout(m.segments, n.segments)
    ensures UsedUp(m, id) && Consumed(m, id, c).Some? ==> Consumed(m, id, c).value == m.(status := Some(Expired))
  {
    var i := IndexOf(m.segments, id);
    if i.Some? && m.segments[i.value].kind == Hotp {
      assert Counter(m.segments[i.value]) == Stored(m.segments, id) <= 2_147_483_647;
      if Consumable(m, id, c) {
        var segments := SetCounter(m.segments, id, c + 1);
        forall other
          ensures Stored(segments, other) == if other == id then c + 1 else Stored(m.segments, other)
        {
          SetCounterStores(m.segments, id, c + 1, other);
        }
      }
    }
  }

  /** The status follows from the fewest uses left. */
  lemma ReconciledStatus(m: TumblerMap, segments: seq<Segment>)
    requires (exists i :: HotpAt(segments, i)) && forall i | HotpAt(segments, i) :: Counter(segments[i]) <= 2_147_483_647
    ensures exists left: nat ::
              && LeastLeft(segments, left)
              && Reconciled(m, segments) == m.(segments := segments, status :=
                   if !Alive(m) then m.status
                   else if left == 0 then Some(Expired)
                   else if left <= (if m.policy.hotpWarning.Some? then m.policy.hotpWarning.value else 1000) then Some(Expiring)
                   else m.status)
  {
    LeftIsLeast(segments);
    var left := MinRemaining(segments).value;
    assert LeastLeft(segments, left);
  }

  /** No counter up to a consumed one is ever taken again. */
  lemma ConsumedOnce(m: TumblerMap, id: string, c: int, again: int)
    requires CounterStateOk(m) && Consumable(m, id, c) && again <= c
    ensures Consumed(Consumed(m, id, c).value, id, again).None?
  {
    var n := Consumed(m, id, c).value;
    ConsumeIff(m, id, c);
    IndexFramed(m.segments, n.segments, id);
    var i := IndexOf(m.segments, id).value;
    assert SameButCounter(m.segments[i], n.segments[i]);
    if c + 1 == 2_147_483_647 {
      ExhaustedDead(m, id, c);
    }
  }

  lemma ExhaustedDead(m: TumblerMap, id: string, c: int)
    requires CounterStateOk(m) && Consumable(m, id, c) && c + 1 == 2_147_483_647
    ensures !Alive(Consumed(m, id, c).value)
  {
    var segments := SetCounter(m.segments, id, c + 1);
    var k := IndexOf(m.segments, id).value;
    forall i | HotpAt(segments, i)
      ensures Counter(segments[i]) <= 2_147_483_647
    {
      assert SameButCounter(m.segments[i], segments[i]);
      assert i != k ==> segments[i] == m.segments[i];
    }
    assert HotpAt(segments, k) && Counter(segments[k]) == 2_147_483_647;
    LeftIsLeast(segments);
  }

  // ── the table ──

  /** The map stored under its own id at this revision, with its snapshot appended. */
  predicate Wrote(sha: Sha, t: Table, done: (Table, Option<Mutation>), m: TumblerMap, revision: nat) {
    && done.0 == t[m.who.clientId := Entry(m, revision)]
    && done.1 == Some(Snapshot(Snap(m.who.clientId, revision, m.(who := m.who.(secret := "")), sha(m.who.secret))))
  }

  predicate Refused(t: Table, done: (Table, Option<Mutation>)) { done == (t, None) }

  /** The revision a write of this id gets. */
  function NextRevision(t: Table, id: string): nat { if id in t then t[id].revision + 1 else 1 }

  predicate Storable(m: TumblerMap, revision: nat) { ValidMap(m) && revision <= 2_147_483_647 }

  lemma PersistOutcome(sha: Sha, t: Table, m: TumblerMap, revision: nat)
    requires revision >= 1
    ensures if Storable(m, revision) then Wrote(sha, t, Persist(sha, t, m, revision), m, revision)
            else Refused(t, Persist(sha, t, m, revision))
  {
  }

  /** set: an admissible map under its own id that follows the stored one. */
  lemma SetOutcome(sha: Sha, t: Table, id: string, value: TumblerMap)
    requires TableOk(t)
    ensures var done, follows := SetMap(sha, t, id, value), id !in t || Monotonic(t[id].value, value);
            if value.who.clientId == id && follows && Storable(value, NextRevision(t, id))
            then Wrote(sha, t, done, value, NextRevision(t, id)) else Refused(t, done)
  {
    if id in t {
      assert EntryOk(t, id);
    }
    PersistOutcome(sha, t, value, NextRevision(t, id));
  }

  /** delete: the row goes and a deletion at the next revision is appended. */
  lemma RemoveOutcome(t: Table, id: string)
    ensures var done := RemoveMap(t, id);
            if id in t && t[id].revision < 2_147_483_647
            then id !in done.0 && (forall other | other != id :: other in t <==> other in done.0) &&
                 (forall other | other in done.0 :: done.0[other] == t[other]) &&
                 done.1 == Some(Delete(id, t[id].revision + 1))
            else Refused(t, done)
  {
  }

  /** updateCounters: sound updates, and the status they lead to. */
  lemma UpdateOutcome(sha: Sha, t: Table, id: string, updates: seq<(string, nat)>)
    requires TableOk(t) && id in t
    ensures var m, done := t[id].value, UpdateMap(sha, t, id, updates);
            var moved := UpdateAll(m.segments, updates);
            && (moved.Some? <==> UpdatesSound(m.segments, updates))
            && if moved.Some? && Storable(Reconciled(m, moved.value), t[id].revision + 1)
               then Wrote(sha, t, done, Reconciled(m, moved.value), t[id].revision + 1)
               else Refused(t, done)
  {
    assert EntryOk(t, id);
    var moved := UpdateAll(t[id].value.segments, updates);
    UpdateAllIff(t[id].value.segments, updates);
    if moved.Some? {
      PersistOutcome(sha, t, Reconciled(t[id].value, moved.value), t[id].revision + 1);
    }
  }

  lemma ConsumeOutcome(sha: Sha, t: Table, id: string, segmentId: string, c: int)
    requires TableOk(t)
    ensures var done := ConsumeMap(sha, t, id, segmentId, c);
            if id in t && Consumed(t[id].value, segmentId, c).Some? &&
               Storable(Consumed(t[id].value, segmentId, c).value, t[id].revision + 1)
            then Wrote(sha, t, done, Consumed(t[id].value, segmentId, c).value, t[id].revision + 1)
            else Refused(t, done)
  {
    if id in t && Consumed(t[id].value, segmentId, c).Some? {
      assert EntryOk(t, id);
      ConsumedMoves(t[id].value, segmentId, c);
      PersistOutcome(sha, t, Consumed(t[id].value, segmentId, c).value, t[id].revision + 1);
    }
  }

  predicate InputSound(input: Input) {
    && input.usedAt <= 9_007_199_254_740_991
    && forall j | 0 <= j < |input.matches| ::
         IdOk(input.matches[j].segmentId) && 0 <= input.matches[j].counter <= 2_147_483_647
  }

  lemma ChangedOutcome(sha: Sha, t: Table, id: string, next: TumblerMap)
    requires id in t && t[id].revision >= 1
    ensures var done := PersistIfChanged(sha, t, id, next);
            if next != t[id].value && Storable(next, t[id].revision + 1)
            then Wrote(sha, t, done, next, t[id].revision + 1) else Refused(t, done)
  {
    PersistOutcome(sha, t, next, t[id].revision + 1);
  }

  /** commitValidation: on sound input the committed map is written exactly when it changed. */
  lemma CommitOutcome(sha: Sha, tenth: nat -> nat, t: Table, id: string, input: Input, next: TumblerMap)
    requires TableOk(t) && id in t && next == Commit(tenth, t[id].value, input).0
    ensures var done := CommitMap(sha, tenth, t, id, input);
            if InputSound(input) && next != t[id].value && Storable(next, t[id].revision + 1)
            then Wrote(sha, t, done, next, t[id].revision + 1) else Refused(t, done)
  {
    assert EntryOk(t, id);
    assert InputOk(input) <==> InputSound(input);
    ChangedOutcome(sha, t, id, next);
  }

  /** replaceCredential: a live credential is revoked and an admissible, live map under a new id
      takes its place, both or neither. */
  lemma ReplaceOutcome(sha: Sha, t: Table, oldId: string, value: TumblerMap)
    ensures var done := ReplaceMap(sha, t, oldId, value);
            if oldId in t && Alive(t[oldId].value) && value.who.clientId !in t && ValidMap(value) && Alive(value) &&
               t[oldId].revision < 2_147_483_647
            then
              var prior := t[oldId].value.(status := Some(Revoked));
              && done.0 == t[oldId := Entry(prior, t[oldId].revision + 1)][value.who.clientId := Entry(value, 1)]
              && done.1.Some? && done.1.value.Replace?
              && done.1.value.prior == SnapOf(sha, prior, t[oldId].revision + 1)
              && done.1.value.successor == SnapOf(sha, value, 1)
            else Refused(t, done)
  {
    if oldId in t {
      ReplaceableIff(t[oldId].value.status);
    }
  }

  lemma ReplaceableIff(s: Option<Status>)
    ensures Replaceable(s) <==> s != Some(Expired) && s != Some(Revoked)
  {
    if s.Some? {
      match s.value
      case Active =>
      case Expiring =>
      case Expired =>
      case Revoked =>
    }
  }

  // ── what no operation takes back ──

  /** From one stored map of an id to the next: the same identity, every counter and the use count
      no less, and a dead credential as dead as it was. */
  ghost predicate NoWayBack(a: TumblerMap, b: TumblerMap) {
    && a.who == b.who && CountersRise(a.segments, b.segments)
    && Or(a.requestCount, 0) <= Or(b.requestCount, 0) && StatusFollows(a.status, b.status)
  }

  lemma {:induction false} IdAt(b: seq<Segment>, id: string) returns (j: nat)
    requires id in Ids(b)
    ensures j < |b| && b[j].id == id
  {
    j :| j < |b| && b[j].id == id;
  }

  /** A map that may follow has every segment of the one before. */
  lemma SameIdsBack(a: seq<Segment>, b: seq<Segment>)
    requires UniqueIds(a) && UniqueIds(b) && |a| == |b| && forall i | 0 <= i < |b| :: ContinuedIn(a, b[i])
    ensures Ids(a) == Ids(b)
  {
    IdsCount(a);
    IdsCount(b);
    assert Ids(b) <= Ids(a);
    SubsetAll(Ids(b), Ids(a));
  }

  lemma SubsetAll(a: set<string>, b: set<string>)
    requires a <= b && |a| == |b|
    ensures a == b
  {
    if x :| x in b && x !in a {
      assert a <= b - {x};
      SubsetSmaller(a, b - {x});
    }
  }

  lemma {:induction false} SubsetSmaller(a: set<string>, b: set<string>)
    requires a <= b
    ensures |a| <= |b|
  {
    if x :| x in a {
      SubsetSmaller(a - {x}, b - {x});
    }
  }

  lemma CounterContinues(a: seq<Segment>, b: seq<Segment>, id: string)
    requires UniqueIds(a) && UniqueIds(b) && |a| == |b| && forall i | 0 <= i < |b| :: ContinuedIn(a, b[i])
    requires forall i | 0 <= i < |a| :: KindOk(a[i])
    ensures Stored(a, id) <= Stored(b, id)
  {
    if IndexOf(a, id).Some? {
      SameIdsBack(a, b);
      var j := IdAt(b, id);
      var i: nat :| i < |a| && Continues(a[i], b[j]);
      IndexUnique(a, i);
      IndexUnique(b, j);
    }
  }

  lemma MonotonicNoWayBack(a: TumblerMap, b: TumblerMap)
    requires Monotonic(a, b) && ValidMap(a) && ValidMap(b)
    ensures NoWayBack(a, b)
  {
    MonotonicIff(a, b);
    forall i | 0 <= i < |a.segments|
      ensures KindOk(a.segments[i])
    {
      assert SegmentOk(a.segments[i], a.policy.layout.keyLength);
    }
    forall id
      ensures Stored(a.segments, id) <= Stored(b.segments, id)
    {
      CounterContinues(a.segments, b.segments, id);
    }
  }

  lemma MoveNoWayBack(a: TumblerMap, b: TumblerMap)
    requires Moves(a, b)
    ensures NoWayBack(a, b)
  {
  }

  lemma SelfNoWayBack(a: TumblerMap)
    ensures NoWayBack(a, a)
  {
  }

  /** Every operation but a deletion keeps a stored credential and takes nothing of it back. */
  lemma OpNoWayBack(sha: Sha, tenth: nat -> nat, t: Table, op: Op, id: string)
    requires TableOk(t) && id in t && op != Remove(id)
    ensures id in Perform(sha, tenth, t, op).0 && NoWayBack(t[id].value, Perform(sha, tenth, t, op).0[id].value)
  {
    match op
    case Set(other, value) => SetNoWayBack(sha, t, other, value, id);
    case Remove(_) => SelfNoWayBack(t[id].value);
    case UpdateCounters(other, updates) => UpdateNoWayBack(sha, t, other, updates, id);
    case ConsumeCounter(other, segmentId, c) => ConsumeNoWayBack(sha, t, other, segmentId, c, id);
    case CommitValidation(other, input) => CommitNoWayBack(sha, tenth, t, other, input, id);
    case ReplaceCredential(other, value) => ReplaceNoWayBack(sha, t, other, value, id);
  }

  lemma ConsumeNoWayBack(sha: Sha, t: Table, other: string, segmentId: string, c: int, id: string)
    requires TableOk(t) && id in t
    ensures var u := ConsumeMap(sha, t, other, segmentId, c).0; id in u && NoWayBack(t[id].value, u[id].value)
  {
    SelfNoWayBack(t[id].value);
    if other in t && Consumed(t[other].value, segmentId, c).Some? {
      assert EntryOk(t, other);
      ConsumedMoves(t[other].value, segmentId, c);
      MoveNoWayBack(t[other].value, Consumed(t[other].value, segmentId, c).value);
    }
  }

  lemma CommitNoWayBack(sha: Sha, tenth: nat -> nat, t: Table, other: string, input: Input, id: string)
    requires TableOk(t) && id in t
    ensures var u := CommitMap(sha, tenth, t, other, input).0; id in u && NoWayBack(t[id].value, u[id].value)
  {
    SelfNoWayBack(t[id].value);
    if other in t {
      assert EntryOk(t, other);
      CommitMoves(tenth, t[other].value, input);
      MoveNoWayBack(t[other].value, Commit(tenth, t[other].value, input).0);
    }
  }

  lemma ReplaceNoWayBack(sha: Sha, t: Table, other: string, value: TumblerMap, id: string)
    requires TableOk(t) && id in t
    ensures var u := ReplaceMap(sha, t, other, value).0; id in u && NoWayBack(t[id].value, u[id].value)
  {
    SelfNoWayBack(t[id].value);
  }

  lemma SetNoWayBack(sha: Sha, t: Table, other: string, value: TumblerMap, id: string)
    requires TableOk(t) && id in t
    ensures var u := SetMap(sha, t, other, value).0; id in u && NoWayBack(t[id].value, u[id].value)
  {
    SelfNoWayBack(t[id].value);
    if other == id && ValidMap(value) && Monotonic(t[id].value, value) {
      assert EntryOk(t, id);
      MonotonicNoWayBack(t[id].value, value);
    }
  }

  lemma UpdateNoWayBack(sha: Sha, t: Table, other: string, updates: seq<(string, nat)>, id: string)
    requires TableOk(t) && id in t
    ensures var u := UpdateMap(sha, t, other, updates).0; id in u && NoWayBack(t[id].value, u[id].value)
  {
    SelfNoWayBack(t[id].value);
    if other in t && UpdateAll(t[other].value.segments, updates).Some? {
      var m, s := t[other].value, UpdateAll(t[other].value.segments, updates).value;
      assert EntryOk(t, other);
      UpdatesRise(m.segments, updates);
      ReconciledMoves(m, s);
      MoveNoWayBack(m, Reconciled(m, s));
    }
  }

  /** What the store holds for an id. */
  function Held(sha: Sha, tenth: nat -> nat, ops: seq<Op>, id: string): Option<TumblerMap> {
    var t := Store(sha, tenth, ops).table;
    if id in t then Some(t[id].value) else None
  }

  ghost predicate Kept(a: Option<TumblerMap>, b: Option<TumblerMap>) { a.Some? ==> b.Some? && NoWayBack(a.value, b.value) }

  lemma KeptTrans(a: Option<TumblerMap>, b: Option<TumblerMap>, c: Option<TumblerMap>)
    requires Kept(a, b) && Kept(b, c)
    ensures Kept(a, c)
  {
    if a.Some? {
      NoWayBackTrans(a.value, b.value, c.value);
    }
  }

  lemma StepKept(sha: Sha, tenth: nat -> nat, ops: seq<Op>, op: Op, id: string)
    requires op != Remove(id)
    ensures Kept(Held(sha, tenth, ops, id), Held(sha, tenth, ops + [op], id))
  {
    LogRefinement(sha, tenth, ops);
    StoreSnoc(sha, tenth, ops, op);
    if id in Store(sha, tenth, ops).table {
      OpNoWayBack(sha, tenth, Store(sha, tenth, ops).table, op, id);
    }
  }

  predicate NeverRemoved(ops: seq<Op>, id: string) { forall k | 0 <= k < |ops| :: ops[k] != Remove(id) }

  /** In every run of the store, from any point on: until it is deleted a credential keeps its
      identity and secret, no counter and no use is forgotten, and once expired or revoked it
      stays so. */
  lemma {:induction false} StoreNoWayBack(sha: Sha, tenth: nat -> nat, ops: seq<Op>, more: seq<Op>, id: string)
    requires NeverRemoved(more, id)
    ensures Kept(Held(sha, tenth, ops, id), Held(sha, tenth, ops + more, id))
  {
    var a := Held(sha, tenth, ops, id);
    if |more| == 0 {
      assert ops + more == ops;
      if a.Some? {
        SelfNoWayBack(a.value);
      }
    } else {
      var n := |more| - 1;
      StoreNoWayBack(sha, tenth, ops, more[..n], id);
      StepKept(sha, tenth, ops + more[..n], more[n], id);
      assert ops + more[..n] + [more[n]] == ops + more;
      KeptTrans(a, Held(sha, tenth, ops + more[..n], id), Held(sha, tenth, ops + more, id));
    }
  }

  lemma StoreSnoc(sha: Sha, tenth: nat -> nat, ops: seq<Op>, op: Op)
    requires TableOk(Store(sha, tenth, ops).table)
    ensures Store(sha, tenth, ops + [op]).table == Perform(sha, tenth, Store(sha, tenth, ops).table, op).0
  {
    assert (ops + [op])[..|ops + [op]| - 1] == ops;
    OpRefines(sha, tenth, Store(sha, tenth, ops).table, op);
  }

  lemma NoWayBackTrans(a: TumblerMap, b: TumblerMap, c: TumblerMap)
    requires NoWayBack(a, b) && NoWayBack(b, c)
    ensures NoWayBack(a, c)
  {
    forall id
      ensures Stored(a.segments, id) <= Stored(c.segments, id)
    {
      assert Stored(a.segments, id) <= Stored(b.segments, id);
    }
  }

  // ── what leaves the store ──

  /** A snapshot under its own id, without the secret, admissible, at a revision in range. */
  predicate SnapSound(s: Snap) {
    && s.public.who.clientId == s.clientId && s.public.who.secret == "" && ValidPublic(s.public)
    && 1 <= s.revision <= 2_147_483_647
  }

  /** What the sanitizer lets through. */
  lemma SanitizedIff(m: Mutation)
    ensures Sane(m) <==>
            match m
            case Snapshot(s) => SnapSound(s)
            case Delete(_, revision) => 1 <= revision <= 2_147_483_647
            case Replace(prior, next) =>
              && SnapSound(prior) && SnapSound(next) && prior.clientId != next.clientId
              && prior.public.status == Some(Revoked)
              && next.public.status != Some(Revoked) && next.public.status != Some(Expired)
  {
  }

  /** No mutation of any run carries a secret. */
  lemma NoSecretLeaves(sha: Sha, tenth: nat -> nat, ops: seq<Op>, i: nat)
    requires i < |Store(sha, tenth, ops).mutations|
    ensures match Store(sha, tenth, ops).mutations[i]
            case Snapshot(s) => s.public.who.secret == ""
            case Delete(_, _) => true
            case Replace(prior, next) => prior.public.who.secret == "" && next.public.who.secret == ""
  {
    LogRefinement(sha, tenth, ops);
    assert TakenUnlessLate(Store(sha, tenth, ops), i);
    SanitizedIff(Store(sha, tenth, ops).mutations[i]);
  }
}
