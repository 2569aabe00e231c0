/** The outbox of the credential store refines its table: folding the appended mutations gives
    the table's public image, and which of them the receiver takes. */
module CredentialRefinement {
  import opened Wrappers
  import opened Credential
  import opened CredentialMap
  import opened CredentialLog
  import opened OutboxLog
  import opened OutboxSystem

  // ── every operation moves a stored map forward ──

  lemma CommitMoves(tenth: nat -> nat, m: TumblerMap, input: Input)
    ensures Moves(m, Commit(tenth, m, input).0)
  {
    SelfRise(m.segments);
    if Commit(tenth, m, input).1.Ok? {
      SuccessConsumes(tenth, m, input);
      CommitFields(tenth, m, input);
      CommitStatus(tenth, m, input);
    } else {
      FailureChangesNothing(tenth, m, input);
    }
  }

  lemma ReconcileRank(m: TumblerMap, left: nat)
    requires !Dead(m.status)
    ensures Rank(m.status) <= Rank(Reconcile(m, left).0.status)
    ensures left > 0 ==> !Dead(Reconcile(m, left).0.status)
  {
  }

  lemma UsageRank(tenth: nat -> nat, m: TumblerMap, left: nat, rotate: bool)
    requires left > 0 ==> !Dead(m.status)
    ensures Rank(m.status) <= Rank(UsageStage(tenth, m, left, rotate).0.status)
  {
  }

  lemma CommitStatus(tenth: nat -> nat, m: TumblerMap, input: Input)
    requires Commit(tenth, m, input).1.Ok?
    ensures Rank(m.status) <= Rank(Commit(tenth, m, input).0.status)
  {
    CommitFields(tenth, m, input);
    HotpKept(m.segments, input.matches);
    var left := MinRemaining(Advance(m.segments, input.matches)).value;
    var settled := Reconcile(Used(m, input), left);
    ReconcileRank(Used(m, input), left);
    UsageRank(tenth, settled.0, left, settled.1);
  }

  lemma ReconciledMoves(m: TumblerMap, segments: seq<Segment>)
    requires SameLayout(m.segments, segments) && CountersRise(m.segments, segments)
    ensures Moves(m, Reconciled(m, segments)) && Reconciled(m, segments).lastUsedAt == m.lastUsedAt
  {
  }

  lemma ExhaustedMoves(m: TumblerMap)
    requires !Dead(m.status)
    ensures Moves(m, m.(status := Some(Expired)))
  {
    SelfRise(m.segments);
  }

  lemma ConsumeRises(m: TumblerMap, segmentId: string, n: nat)
    requires IndexOf(m.segments, segmentId).Some? && Stored(m.segments, segmentId) <= n
    ensures var next := Reconciled(m, SetCounter(m.segments, segmentId, n));
            Moves(m, next) && next.lastUsedAt == m.lastUsedAt
  {
    SelfRise(m.segments);
    SetRises(m.segments, m.segments, segmentId, n);
    ReconciledMoves(m, SetCounter(m.segments, segmentId, n));
  }

  lemma ConsumedMoves(m: TumblerMap, segmentId: string, matched: int)
    requires Consumed(m, segmentId, matched).Some?
    ensures var n := Consumed(m, segmentId, matched).value; Moves(m, n) && n.lastUsedAt == m.lastUsedAt
  {
    if Stored(m.segments, segmentId) < MAX_COUNTER {
      ConsumeRises(m, segmentId, matched + 1);
    } else {
      ExhaustedMoves(m);
    }
  }

  // ── one appended snapshot ──

  lemma PublicValid(m: TumblerMap)
    ensures ValidMap(m) ==> ValidPublic(Public(m))
  {
  }

  lemma SnapSane(sha: Sha, m: TumblerMap, revision: nat)
    requires ValidMap(m) && 1 <= revision <= MAX_REVISION
    ensures SaneSnap(SnapOf(sha, m, revision))
  {
    PublicValid(m);
  }

  lemma ImagePut(sha: Sha, t: Table, id: string, e: Entry)
    requires e.value.who.clientId == id
    ensures PublicImage(sha, t[id := e]) == PublicImage(sha, t)[id := SnapOf(sha, e.value, e.revision)]
  {
  }

  lemma TablePut(t: Table, id: string, e: Entry)
    requires TableOk(t) && e.value.who.clientId == id && ValidMap(e.value) && e.revision >= 1
    ensures TableOk(t[id := e])
  {
    var u := t[id := e];
    forall i | i in u
      ensures EntryOk(u, i)
    {
      if i != id {
        assert EntryOk(t, i);
      }
    }
  }

  /** The replica's view of writing m over the stored map. */
  predicate MapFollows(sha: Sha, t: Table, m: TumblerMap) {
    m.who.clientId in t ==>
      sha(m.who.secret) == sha(t[m.who.clientId].value.who.secret) && Monotonic(Public(t[m.who.clientId].value), Public(m))
  }

  lemma SnapFollowsIff(sha: Sha, t: Table, m: TumblerMap, revision: nat)
    requires revision == if m.who.clientId in t then t[m.who.clientId].revision + 1 else 1
    ensures SnapFollows(PublicImage(sha, t), SnapOf(sha, m, revision)) <==> MapFollows(sha, t, m)
  {
  }

  /** What one operation with a mutation guarantees; `taken` is whether the replica takes it. */
  predicate Refines(sha: Sha, t: Table, done: (Table, Option<Mutation>), taken: bool) {
    && TableOk(done.0) && done.1.Some? && Sane(done.1.value)
    && PublicImage(sha, done.0) == Reproduce(PublicImage(sha, t), done.1.value)
    && (Accepts(PublicImage(sha, t), done.1.value) <==> taken)
  }

  /** Writing one map appends its snapshot; the image and the fold stay equal. */
  lemma PersistRefines(sha: Sha, t: Table, m: TumblerMap, revision: nat, taken: bool)
    requires TableOk(t) && Persist(sha, t, m, revision).1.Some?
    requires revision == if m.who.clientId in t then t[m.who.clientId].revision + 1 else 1
    requires taken <==> MapFollows(sha, t, m)
    ensures Refines(sha, t, Persist(sha, t, m, revision), taken)
  {
    SnapSane(sha, m, revision);
    ImagePut(sha, t, m.who.clientId, Entry(m, revision));
    TablePut(t, m.who.clientId, Entry(m, revision));
    SnapFollowsIff(sha, t, m, revision);
  }

  /** An existing map moved forward is accepted exactly when its use time did not go back. */
  lemma MoveFollowsIff(sha: Sha, t: Table, id: string, n: TumblerMap)
    requires TableOk(t) && id in t && Moves(t[id].value, n)
    ensures n.who.clientId == id && UniqueIds(n.segments)
    ensures MapFollows(sha, t, n) <==> Or(t[id].value.lastUsedAt, 0) <= Or(n.lastUsedAt, 0)
  {
    assert EntryOk(t, id);
    MovesMonotonic(t[id].value, n);
  }

  lemma MoveRefines(sha: Sha, t: Table, id: string, n: TumblerMap, taken: bool)
    requires TableOk(t) && id in t && Moves(t[id].value, n)
    requires Persist(sha, t, n, t[id].revision + 1).1.Some?
    requires taken <==> Or(t[id].value.lastUsedAt, 0) <= Or(n.lastUsedAt, 0)
    ensures Refines(sha, t, Persist(sha, t, n, t[id].revision + 1), taken)
  {
    MoveFollowsIff(sha, t, id, n);
    PersistRefines(sha, t, n, t[id].revision + 1, taken);
  }

  lemma SetRefines(sha: Sha, t: Table, id: string, value: TumblerMap)
    requires TableOk(t) && ValidMap(value) && value.who.clientId == id
    requires id in t ==> Monotonic(t[id].value, value)
    requires Persist(sha, t, value, if id in t then t[id].revision + 1 else 1).1.Some?
    ensures Refines(sha, t, Persist(sha, t, value, if id in t then t[id].revision + 1 else 1), true)
  {
    if id in t {
      PublicMonotonic(t[id].value, value);
    }
    assert MapFollows(sha, t, value);
    PersistRefines(sha, t, value, if id in t then t[id].revision + 1 else 1, true);
  }

  lemma PublicMonotonic(a: TumblerMap, b: TumblerMap)
    requires Monotonic(a, b)
    ensures Monotonic(Public(a), Public(b)) && a.who.secret == b.who.secret
  {
  }

  lemma RemoveRefines(sha: Sha, t: Table, id: string)
    requires TableOk(t) && id in t && t[id].revision + 1 <= MAX_REVISION
    ensures Refines(sha, t, (t - {id}, Some(Delete(id, t[id].revision + 1))), true)
  {
    forall i | i in t - {id}
      ensures EntryOk(t - {id}, i)
    {
      assert EntryOk(t, i);
    }
    assert PublicImage(sha, t - {id}) == PublicImage(sha, t) - {id};
  }

  lemma ReplaceTaken(sha: Sha, t: Table, id: string, prior: TumblerMap, value: TumblerMap)
    requires TableOk(t) && id in t && Replaceable(t[id].value.status) && value.who.clientId !in t
    requires prior == t[id].value.(status := Some(Revoked))
    ensures Accepts(PublicImage(sha, t), Replace(SnapOf(sha, prior, t[id].revision + 1), SnapOf(sha, value, 1)))
  {
    assert EntryOk(t, id);
    SelfRise(prior.segments);
    MoveFollowsIff(sha, t, id, prior);
    SnapFollowsIff(sha, t, prior, t[id].revision + 1);
    SnapFollowsIff(sha, t, value, 1);
  }

  lemma RevokedValid(m: TumblerMap)
    requires ValidMap(m)
    ensures ValidMap(m.(status := Some(Revoked)))
  {
  }

  lemma ReplaceImage(sha: Sha, t: Table, prior: Entry, next: Entry)
    requires TableOk(t) && ValidMap(prior.value) && ValidMap(next.value) && prior.revision >= 1 && next.revision >= 1
    ensures var u := t[prior.value.who.clientId := prior][next.value.who.clientId := next];
            && TableOk(u)
            && PublicImage(sha, u) ==
               Reproduce(PublicImage(sha, t), Replace(SnapOf(sha, prior.value, prior.revision),
                                                      SnapOf(sha, next.value, next.revision)))
  {
    var id := prior.value.who.clientId;
    TablePut(t, id, prior);
    TablePut(t[id := prior], next.value.who.clientId, next);
    ImagePut(sha, t, id, prior);
    ImagePut(sha, t[id := prior], next.value.who.clientId, next);
  }

  lemma ReplaceSane(sha: Sha, m: TumblerMap, revision: nat, value: TumblerMap)
    requires ValidMap(m) && ValidMap(value) && 1 <= revision <= MAX_REVISION
    requires m.who.clientId != value.who.clientId && !Dead(value.status)
    ensures Sane(Replace(SnapOf(sha, m.(status := Some(Revoked)), revision), SnapOf(sha, value, 1)))
  {
    RevokedValid(m);
    SnapSane(sha, m.(status := Some(Revoked)), revision);
    SnapSane(sha, value, 1);
  }

  lemma PriorValid(t: Table, id: string)
    requires TableOk(t) && id in t
    ensures ValidMap(t[id].value) && ValidMap(t[id].value.(status := Some(Revoked)))
    ensures t[id].value.who.clientId == id && t[id].revision >= 1
  {
    assert EntryOk(t, id);
    RevokedValid(t[id].value);
  }

  /** A replacement keeps the table and the image, whether or not it is taken. */
  lemma ReplaceKeeps(sha: Sha, t: Table, id: string, prior: Entry, next: Entry, m: Mutation, taken: bool)
    requires TableOk(t) && id in t && next.value.who.clientId !in t && ValidMap(next.value) && !Dead(next.value.status)
    requires prior == Entry(t[id].value.(status := Some(Revoked)), t[id].revision + 1) && next.revision == 1
    requires prior.revision <= MAX_REVISION && taken == Accepts(PublicImage(sha, t), m)
    requires m == Replace(SnapOf(sha, prior.value, prior.revision), SnapOf(sha, next.value, 1))
    ensures Refines(sha, t, (t[id := prior][next.value.who.clientId := next], Some(m)), taken)
  {
    PriorValid(t, id);
    ReplaceImage(sha, t, prior, next);
    ReplaceSane(sha, t[id].value, prior.revision, next.value);
  }

  lemma ReplaceRefines(sha: Sha, t: Table, id: string, prior: TumblerMap, value: TumblerMap)
    requires TableOk(t) && id in t && Replaceable(t[id].value.status) && value.who.clientId !in t
    requires prior == t[id].value.(status := Some(Revoked))
    requires ValidMap(value) && !Dead(value.status) && t[id].revision + 1 <= MAX_REVISION
    ensures Refines(sha, t,
                    (t[id := Entry(prior, t[id].revision + 1)][value.who.clientId := Entry(value, 1)],
                     Some(Replace(SnapOf(sha, prior, t[id].revision + 1), SnapOf(sha, value, 1)))), true)
  {
    var rev := t[id].revision + 1;
    ReplaceTaken(sha, t, id, prior, value);
    ReplaceKeeps(sha, t, id, Entry(prior, rev), Entry(value, 1),
                 Replace(SnapOf(sha, prior, rev), SnapOf(sha, value, 1)), true);
  }

  /** Every appended mutation carries the table's public image forward, and the replica takes it
      exactly unless the operation is a commit that back-dates the last use. */
  predicate OpOk(sha: Sha, tenth: nat -> nat, t: Table, op: Op) {
    var done := Perform(sha, tenth, t, op);
    if done.1.None? then done.0 == t else Refines(sha, t, done, !Backdates(tenth, t, op))
  }

  lemma OpRefines(sha: Sha, tenth: nat -> nat, t: Table, op: Op)
    requires TableOk(t)
    ensures OpOk(sha, tenth, t, op)
  {
    if Perform(sha, tenth, t, op).1.Some? {
      match op
      case Set(id, value) => SetOp(sha, tenth, t, id, value);
      case Remove(id) => RemoveOp(sha, tenth, t, id);
      case ReplaceCredential(id, value) => ReplaceOp(sha, tenth, t, id, value);
      case CommitValidation(id, input) => CommitOp(sha, tenth, t, id, input);
      case UpdateCounters(id, updates) => UpdateOp(sha, tenth, t, id, updates);
      case ConsumeCounter(id, segmentId, matched) => ConsumeOp(sha, tenth, t, id, segmentId, matched);
    }
  }

  lemma RemoveOp(sha: Sha, tenth: nat -> nat, t: Table, id: string)
    requires TableOk(t) && Perform(sha, tenth, t, Remove(id)).1.Some?
    ensures OpOk(sha, tenth, t, Remove(id))
  {
    RemoveRefines(sha, t, id);
  }

  lemma CommitOp(sha: Sha, tenth: nat -> nat, t: Table, id: string, input: Input)
    requires TableOk(t) && Perform(sha, tenth, t, CommitValidation(id, input)).1.Some?
    ensures OpOk(sha, tenth, t, CommitValidation(id, input))
  {
    CommitRefines(sha, tenth, t, id, input, Commit(tenth, t[id].value, input).0);
  }

  lemma UpdateOp(sha: Sha, tenth: nat -> nat, t: Table, id: string, updates: seq<(string, nat)>)
    requires TableOk(t) && Perform(sha, tenth, t, UpdateCounters(id, updates)).1.Some?
    ensures OpOk(sha, tenth, t, UpdateCounters(id, updates))
  {
    UpdateRefines(sha, t, id, updates);
  }

  lemma ConsumeOp(sha: Sha, tenth: nat -> nat, t: Table, id: string, segmentId: string, matched: int)
    requires TableOk(t) && Perform(sha, tenth, t, ConsumeCounter(id, segmentId, matched)).1.Some?
    ensures OpOk(sha, tenth, t, ConsumeCounter(id, segmentId, matched))
  {
    ConsumeRefines(sha, t, id, segmentId, matched);
  }

  lemma SetOp(sha: Sha, tenth: nat -> nat, t: Table, id: string, value: TumblerMap)
    requires TableOk(t) && Perform(sha, tenth, t, Set(id, value)).1.Some?
    ensures OpOk(sha, tenth, t, Set(id, value))
  {
    SetRefines(sha, t, id, value);
  }

  lemma ReplaceOp(sha: Sha, tenth: nat -> nat, t: Table, id: string, value: TumblerMap)
    requires TableOk(t) && Perform(sha, tenth, t, ReplaceCredential(id, value)).1.Some?
    ensures OpOk(sha, tenth, t, ReplaceCredential(id, value))
  {
    ReplaceRefines(sha, t, id, t[id].value.(status := Some(Revoked)), value);
  }

  lemma ConsumeRefines(sha: Sha, t: Table, id: string, segmentId: string, matched: int)
    requires TableOk(t) && id in t && Consumed(t[id].value, segmentId, matched).Some?
    requires Persist(sha, t, Consumed(t[id].value, segmentId, matched).value, t[id].revision + 1).1.Some?
    ensures Refines(sha, t, Persist(sha, t, Consumed(t[id].value, segmentId, matched).value, t[id].revision + 1), true)
  {
    ConsumedMoves(t[id].value, segmentId, matched);
    MoveRefines(sha, t, id, Consumed(t[id].value, segmentId, matched).value, true);
  }

  lemma UpdateRefines(sha: Sha, t: Table, id: string, updates: seq<(string, nat)>)
    requires TableOk(t) && id in t && UpdateAll(t[id].value.segments, updates).Some?
    requires var n := Reconciled(t[id].value, UpdateAll(t[id].value.segments, updates).value);
             Persist(sha, t, n, t[id].revision + 1).1.Some?
    ensures var n := Reconciled(t[id].value, UpdateAll(t[id].value.segments, updates).value);
            Refines(sha, t, Persist(sha, t, n, t[id].revision + 1), true)
  {
    var m, s := t[id].value, UpdateAll(t[id].value.segments, updates).value;
    UpdatesRise(m.segments, updates);
    ReconciledMoves(m, s);
    MoveRefines(sha, t, id, Reconciled(m, s), true);
  }

  lemma CommitRefines(sha: Sha, tenth: nat -> nat, t: Table, id: string, input: Input, next: TumblerMap)
    requires TableOk(t) && id in t && next == Commit(tenth, t[id].value, input).0
    requires PersistIfChanged(sha, t, id, next).1.Some?
    ensures Refines(sha, t, PersistIfChanged(sha, t, id, next), !CommitsLate(tenth, t[id].value, input))
  {
    CommitMoves(tenth, t[id].value, input);
    CommitTime(tenth, t[id].value, input);
    MoveRefines(sha, t, id, next, !CommitsLate(tenth, t[id].value, input));
  }

  lemma CommitTime(tenth: nat -> nat, m: TumblerMap, input: Input)
    ensures Commit(tenth, m, input).0.lastUsedAt ==
            if Commit(tenth, m, input).1.Ok? then Some(input.usedAt) else m.lastUsedAt
  {
    if Commit(tenth, m, input).1.Ok? {
      CommitFields(tenth, m, input);
    } else {
      FailureChangesNothing(tenth, m, input);
    }
  }

  // ── whole runs of the store ──

  /** The table, the mutations appended so far, and for each whether it back-dates. */
  datatype Trace = Trace(table: Table, mutations: seq<Mutation>, late: seq<bool>)

  function Store(sha: Sha, tenth: nat -> nat, ops: seq<Op>): Trace {
    if |ops| == 0 then Trace(map[], [], [])
    else
      var s := Store(sha, tenth, ops[..|ops| - 1]);
      var done := Perform(sha, tenth, s.table, Last(ops));
      if done.1.None? then s
      else Trace(done.0, s.mutations + [done.1.value], s.late + [Backdates(tenth, s.table, Last(ops))])
  }

  function ReproduceAll(ms: seq<Mutation>): Replica {
    if |ms| == 0 then map[] else Reproduce(ReproduceAll(ms[..|ms| - 1]), Last(ms))
  }

  /** Mutation i is well-formed, and the replica of the mutations before it takes it exactly
      unless it back-dates. */
  predicate TakenUnlessLate(s: Trace, i: nat)
    requires i < |s.mutations| && |s.late| == |s.mutations|
  {
    Sane(s.mutations[i]) && (Accepts(ReproduceAll(s.mutations[..i]), s.mutations[i]) <==> !s.late[i])
  }

  /** Folding the appended mutations from empty gives exactly the public image of the table. */
  lemma {:induction false} LogRefinement(sha: Sha, tenth: nat -> nat, ops: seq<Op>)
    ensures var s := Store(sha, tenth, ops);
            && TableOk(s.table) && |s.late| == |s.mutations|
            && ReproduceAll(s.mutations) == PublicImage(sha, s.table)
            && forall i: nat | i < |s.mutations| :: TakenUnlessLate(s, i)
  {
    if |ops| > 0 {
      LogRefinement(sha, tenth, ops[..|ops| - 1]);
      var s, u := Store(sha, tenth, ops[..|ops| - 1]), Store(sha, tenth, ops);
      OpRefines(sha, tenth, s.table, Last(ops));
      if u != s {
        assert u.mutations[..|u.mutations| - 1] == s.mutations;
        forall i: nat | i < |u.mutations|
          ensures TakenUnlessLate(u, i)
        {
          if i < |s.mutations| {
            assert TakenUnlessLate(s, i);
            assert u.mutations[..i] == s.mutations[..i];
          }
        }
      }
    }
  }

  // ── a late commit is reached ──

  /** A static anchor and one counter-based segment. */
  function Pair(counter: nat): seq<Segment> {
    [Segment("a", Static, Shape(0, 8, None), None), Segment("h", Hotp, Shape(8, 16, None), Some(counter))]
  }

  function PairSecret(): (s: string)
    ensures SecretOk(s)
  {
    seq(SECRET_CHARS, _ => '0')
  }

  const PAIR_POLICY := Policy(None, None, None, None, Layout(28, 16, 28, None))

  function PairMap(counter: nat): TumblerMap {
    TumblerMap(Identity("c", PairSecret(), 0, "1"), PAIR_POLICY, Pair(counter), None, None, None)
  }

  /** A map that has only been used since. */
  predicate PairUsed(m: TumblerMap, counter: nat) {
    && m.who == PairMap(0).who && m.policy == PAIR_POLICY && m.segments == Pair(counter) && counter + 1 < MAX_COUNTER
    && FieldsOk(m)
  }

  lemma PairCounts(counter: nat)
    requires counter < MAX_COUNTER
    ensures MinRemaining(Pair(counter)) == Some(MAX_COUNTER - counter) && HotpCount(Pair(counter)) == 1
    ensures IndexOf(Pair(counter), "h") == Some(1)
  {
    var s := Pair(counter);
    assert s[..1] == [s[0]] && s[..1][..0] == [];
    assert MinRemaining(s[..1]).None? && HotpCount(s[..1]) == 0;
  }

  lemma PairValid(m: TumblerMap, counter: nat)
    requires PairUsed(m, counter)
    ensures ValidMap(m)
  {
    PairCounts(counter);
    assert m.segments[1].kind == Hotp;
    assert SegmentOk(m.segments[0], 28) && SegmentOk(m.segments[1], 28);
  }

  lemma PairCommit(tenth: nat -> nat, m: TumblerMap, counter: nat, usedAt: nat)
    requires PairUsed(m, counter) && !Dead(m.status) && counter + 2 < MAX_COUNTER && usedAt <= MAX_SAFE
    requires Or(m.requestCount, 0) < MAX_SAFE
    ensures Commit(tenth, m, Input([Match("h", counter)], usedAt)).1.Ok?
    ensures var n := Commit(tenth, m, Input([Match("h", counter)], usedAt)).0;
            && PairUsed(n, counter + 1) && n.lastUsedAt == Some(usedAt) && n != m && !Dead(n.status)
            && n.requestCount == Some(Or(m.requestCount, 0) + 1)
  {
    var input := Input([Match("h", counter)], usedAt);
    PairCounts(counter);
    PairCounts(counter + 1);
    PairValid(m, counter);
    assert MatchError(m.segments, input.matches, 0) == None;
    assert MatchesError(m.segments, input.matches, 1) == None;
    CommitFields(tenth, m, input);
    PairAdvanced(counter);
  }

  lemma PairAdvanced(counter: nat)
    requires counter < MAX_COUNTER
    ensures Advance(Pair(counter), [Match("h", counter)]) == Pair(counter + 1)
  {
    PairCounts(counter);
    assert [Match("h", counter)][..0] == [];
    assert Advance(Pair(counter), []) == Pair(counter);
  }

  lemma StoreNext(sha: Sha, tenth: nat -> nat, ops: seq<Op>, op: Op)
    requires var s := Store(sha, tenth, ops); Perform(sha, tenth, s.table, op).1.Some?
    ensures var s := Store(sha, tenth, ops);
            var u := Store(sha, tenth, ops + [op]);
            u.table == Perform(sha, tenth, s.table, op).0 && u.late == s.late + [Backdates(tenth, s.table, op)]
  {
    assert (ops + [op])[..|ops + [op]| - 1] == ops;
  }

  const EARLY := Input([Match("h", 0)], 9)
  const LATE := Input([Match("h", 1)], 4)

  /** One credential, then two commits whose use times come in the other order. */
  function LateOps(): seq<Op> {
    [Set("c", PairMap(0)), CommitValidation("c", EARLY), CommitValidation("c", LATE)]
  }

  /** The table holds the credential, used up to this counter. */
  predicate PairTable(t: Table, m: TumblerMap, counter: nat, revision: nat) {
    && "c" in t && t["c"] == Entry(m, revision) && PairUsed(m, counter) && !Dead(m.status)
    && Or(m.requestCount, 0) == counter
  }

  /** A commit of the next counter is stored, late exactly when its use time is earlier. */
  lemma PairNext(sha: Sha, tenth: nat -> nat, t: Table, m: TumblerMap, counter: nat, usedAt: nat, revision: nat)
    returns (n: TumblerMap)
    requires PairTable(t, m, counter, revision)
    requires counter + 2 < MAX_COUNTER && usedAt <= MAX_SAFE && 1 <= revision < MAX_REVISION
    ensures var input := Input([Match("h", counter)], usedAt);
            && CommitMap(sha, tenth, t, "c", input).1.Some? && n.lastUsedAt == Some(usedAt)
            && PairTable(CommitMap(sha, tenth, t, "c", input).0, n, counter + 1, revision + 1)
            && CommitsLate(tenth, m, input) == (usedAt < Or(m.lastUsedAt, 0))
  {
    var input := Input([Match("h", counter)], usedAt);
    PairCommit(tenth, m, counter, usedAt);
    n := Commit(tenth, m, input).0;
    PairValid(n, counter + 1);
    PairInput(counter, usedAt);
    ChangedPersists(sha, t, "c", n);
    CommitStores(sha, tenth, t, "c", input, n);
  }

  lemma PairStep(sha: Sha, tenth: nat -> nat, ops: seq<Op>, m: TumblerMap, counter: nat, usedAt: nat, revision: nat)
    returns (n: TumblerMap)
    requires PairTable(Store(sha, tenth, ops).table, m, counter, revision)
    requires counter + 2 < MAX_COUNTER && usedAt <= MAX_SAFE && 1 <= revision < MAX_REVISION
    ensures var u := Store(sha, tenth, ops + [CommitValidation("c", Input([Match("h", counter)], usedAt))]);
            && PairTable(u.table, n, counter + 1, revision + 1) && n.lastUsedAt == Some(usedAt)
            && u.late == Store(sha, tenth, ops).late + [usedAt < Or(m.lastUsedAt, 0)]
  {
    n := PairNext(sha, tenth, Store(sha, tenth, ops).table, m, counter, usedAt, revision);
    StoreCommits(sha, tenth, ops, "c", Input([Match("h", counter)], usedAt));
  }

  lemma StoreCommits(sha: Sha, tenth: nat -> nat, ops: seq<Op>, id: string, input: Input)
    requires id in Store(sha, tenth, ops).table
    requires CommitMap(sha, tenth, Store(sha, tenth, ops).table, id, input).1.Some?
    ensures var s, u := Store(sha, tenth, ops), Store(sha, tenth, ops + [CommitValidation(id, input)]);
            && u.table == CommitMap(sha, tenth, s.table, id, input).0
            && u.late == s.late + [CommitsLate(tenth, s.table[id].value, input)]
  {
    StoreNext(sha, tenth, ops, CommitValidation(id, input));
  }

  /** A changed, valid map is written at the next revision. */
  lemma ChangedPersists(sha: Sha, t: Table, id: string, n: TumblerMap)
    requires id in t && n != t[id].value && n.who.clientId == id && ValidMap(n) && 1 <= t[id].revision < MAX_REVISION
    ensures PersistIfChanged(sha, t, id, n).1.Some?
    ensures PersistIfChanged(sha, t, id, n).0 == t[id := Entry(n, t[id].revision + 1)]
  {
  }

  lemma CommitStores(sha: Sha, tenth: nat -> nat, t: Table, id: string, input: Input, n: TumblerMap)
    requires InputOk(input) && id in t && n == Commit(tenth, t[id].value, input).0
    requires PersistIfChanged(sha, t, id, n).1.Some?
    ensures CommitMap(sha, tenth, t, id, input) == PersistIfChanged(sha, t, id, n)
  {
  }

  lemma PairInput(counter: nat, usedAt: nat)
    requires counter <= MAX_COUNTER && usedAt <= MAX_SAFE
    ensures InputOk(Input([Match("h", counter)], usedAt))
  {
    assert IdChar("h"[0]);
  }

  lemma PairSet(sha: Sha, tenth: nat -> nat)
    ensures var s := Store(sha, tenth, [Set("c", PairMap(0))]);
            PairTable(s.table, PairMap(0), 0, 1) && s.late == [false]
  {
    PairValid(PairMap(0), 0);
    StoreNext(sha, tenth, [], Set("c", PairMap(0)));
    assert [] + [Set("c", PairMap(0))] == [Set("c", PairMap(0))];
  }

  lemma LateAfter(sha: Sha, tenth: nat -> nat, ops: seq<Op>, m: TumblerMap)
    requires PairTable(Store(sha, tenth, ops).table, m, 0, 1) && m.lastUsedAt.None?
    ensures Store(sha, tenth, ops + [CommitValidation("c", EARLY)] + [CommitValidation("c", LATE)]).late ==
            Store(sha, tenth, ops).late + [false] + [true]
  {
    var n := PairStep(sha, tenth, ops, m, 0, 9, 1);
    var _ := PairStep(sha, tenth, ops + [CommitValidation("c", EARLY)], n, 1, 4, 2);
  }

  /** Both commits succeed, and the second one is late. */
  lemma LateAppended(sha: Sha, tenth: nat -> nat)
    ensures Store(sha, tenth, LateOps()).late == [false, false, true]
  {
    var ops := [Set("c", PairMap(0))];
    PairSet(sha, tenth);
    LateAfter(sha, tenth, ops, PairMap(0));
    assert ops + [CommitValidation("c", EARLY)] + [CommitValidation("c", LATE)] == LateOps();
  }

  // ── the receiver ──

  function Machinery(): Machine<Mutation, Replica> {
    Machine(map[], (r, m) => Accepts(r, m), (r: Replica, m: Mutation) => Reproduce(r, m))
  }

  /** verifyAndApplyDelivered: the decision, in the order the checks are made. */
  function Decide(h: Hashes<Mutation>, r: Receiver<Replica>, rec: Record<Mutation>, head: Head, verified: bool): Decision {
    if !Sane(rec.mutation) || !Genuine(h, rec, head) || !verified then RejectFork
    else if r.fence != Some(rec.fence) then RejectFence
    else if rec.seqno < r.cpSeq + 1 then
      if (rec.epoch, rec.seqno) in r.applied && r.applied[(rec.epoch, rec.seqno)] == rec.opDigest then DuplicateOk
      else RejectFork
    else if rec.seqno != r.cpSeq + 1 then RejectGap
    else if r.epoch != rec.epoch || head.prev != r.cpHead || !Accepts(r.replica, rec.mutation) then RejectFork
    else Applied
  }

  /** Sanitized, digests recomputed, the head binding the record and its signature verified. */
  predicate Authentic(h: Hashes<Mutation>, rec: Record<Mutation>, head: Head, verified: bool) {
    && Sane(rec.mutation) && verified && rec.opDigest == h.op(rec.epoch, rec.seqno, rec.fence, rec.mutation)
    && head.seqno == rec.seqno && head.opDigest == rec.opDigest
    && head.headDigest == h.head(rec.seqno, head.prev, rec.opDigest, head.key)
  }

  /** Each decision has its own exact condition; a credential receiver gives no others. */
  lemma DecisionTable(h: Hashes<Mutation>, r: Receiver<Replica>, rec: Record<Mutation>, head: Head, verified: bool)
    ensures var d, key := Decide(h, r, rec, head, verified), (rec.epoch, rec.seqno);
            var here := Authentic(h, rec, head, verified) && r.fence == Some(rec.fence);
            && (d == RejectFence <==> Authentic(h, rec, head, verified) && r.fence != Some(rec.fence))
            && (d == DuplicateOk <==> here && rec.seqno <= r.cpSeq && key in r.applied && r.applied[key] == rec.opDigest)
            && (d == RejectGap <==> here && rec.seqno > r.cpSeq + 1)
            && (d == Applied <==>
                  && here && rec.seqno == r.cpSeq + 1 && rec.epoch == r.epoch && head.prev == r.cpHead
                  && Accepts(r.replica, rec.mutation))
            && (d == Applied || d == DuplicateOk || d == RejectGap || d == RejectFence || d == RejectFork)
  {
  }

  function Decider(h: Hashes<Mutation>): OutboxSystem.Decider<Mutation, Replica> {
    (r, rec, head, ok) => Decide(h, r, rec, head, ok)
  }

  lemma DeciderSensible(h: Hashes<Mutation>)
    ensures Sensible(h, Machinery(), Decider(h))
  {
  }

  lemma {:induction false} FoldIsReplay(log: seq<Row<Mutation>>, ms: seq<Mutation>, n: nat)
    requires Carries(log, ms) && n <= |log|
    ensures Fold(Machinery(), log, n) == ReproduceAll(ms[..n])
  {
    if n > 0 {
      FoldIsReplay(log, ms, n - 1);
      assert ms[..n][..n - 1] == ms[..n - 1];
    }
  }

  /** For every run of the store, its outbox and any deliveries the replica is the fold of the
      mutations up to its checkpoint. */
  lemma ReplicaFollows(sha: Sha, tenth: nat -> nat, ops: seq<Op>, h: Hashes<Mutation>, epoch: string,
                       events: seq<Event<Mutation>>)
    requires Injective(h)
    requires Carries(Run(h, Machinery(), Decider(h), epoch, events).src.log, Store(sha, tenth, ops).mutations)
    ensures var s, store := Run(h, Machinery(), Decider(h), epoch, events), Store(sha, tenth, ops);
            && s.recv.cpSeq <= |store.mutations|
            && s.recv.replica == ReproduceAll(store.mutations[..s.recv.cpSeq])
  {
    DeciderSensible(h);
    RunInv(h, Machinery(), Decider(h), epoch, events);
    var s, store := Run(h, Machinery(), Decider(h), epoch, events), Store(sha, tenth, ops);
    FoldIsReplay(s.src.log, store.mutations, s.recv.cpSeq);
  }

  /** Any delivery of a committed row of the store's outbox at an equal fence and epoch: applied
      rows are duplicates, rows ahead are gaps, and the next row is applied exactly unless it
      back-dates, in which case it is a fork. */
  lemma CommittedRowDecision(sha: Sha, tenth: nat -> nat, ops: seq<Op>, h: Hashes<Mutation>, epoch: string,
                             events: seq<Event<Mutation>>, i: nat)
    requires Injective(h)
    requires Carries(Run(h, Machinery(), Decider(h), epoch, events).src.log, Store(sha, tenth, ops).mutations)
    requires var s := Run(h, Machinery(), Decider(h), epoch, events);
             i < |s.src.log| && s.recv.fence == Some(s.src.log[i].record.fence) && s.recv.epoch == s.src.log[i].record.epoch
    ensures var s, store := Run(h, Machinery(), Decider(h), epoch, events), Store(sha, tenth, ops);
            && i < |store.late|
            && Decide(h, s.recv, s.src.log[i].record, s.src.log[i].head, true) ==
               if i < s.recv.cpSeq then DuplicateOk
               else if i > s.recv.cpSeq then RejectGap
               else if store.late[i] then RejectFork
               else Applied
  {
    DeciderSensible(h);
    RunInv(h, Machinery(), Decider(h), epoch, events);
    LogRefinement(sha, tenth, ops);
    var s, store := Run(h, Machinery(), Decider(h), epoch, events), Store(sha, tenth, ops);
    assert RowOk(h, s.src.log, i);
    assert TakenUnlessLate(store, i);
    if i < s.recv.cpSeq {
      assert Took(Machinery(), s.src.log, s.recv, i);
    } else if i == s.recv.cpSeq {
      FoldIsReplay(s.src.log, store.mutations, i);
    }
  }

  /** A late row is never passed: whatever is delivered, the checkpoint of a receiver of this
      outbox stays before it. */
  lemma LateBlocks(sha: Sha, tenth: nat -> nat, ops: seq<Op>, h: Hashes<Mutation>, epoch: string,
                   events: seq<Event<Mutation>>, i: nat)
    requires Injective(h)
    requires Carries(Run(h, Machinery(), Decider(h), epoch, events).src.log, Store(sha, tenth, ops).mutations)
    requires i < |Store(sha, tenth, ops).late| && Store(sha, tenth, ops).late[i]
    ensures Run(h, Machinery(), Decider(h), epoch, events).recv.cpSeq <= i
  {
    DeciderSensible(h);
    RunInv(h, Machinery(), Decider(h), epoch, events);
    LogRefinement(sha, tenth, ops);
    var s, store := Run(h, Machinery(), Decider(h), epoch, events), Store(sha, tenth, ops);
    if s.recv.cpSeq > i {
      assert Took(Machinery(), s.src.log, s.recv, i);
      assert TakenUnlessLate(store, i);
      FoldIsReplay(s.src.log, store.mutations, i);
    }
  }

  /** And it is reached: with the rows of LateOps appended and the first two delivered, the
      receiver rejects the third, committed and next in order, as a fork. */
  lemma LateReached(sha: Sha, tenth: nat -> nat, h: Hashes<Mutation>, epoch: string)
    returns (events: seq<Event<Mutation>>)
    requires Injective(h)
    ensures var s, store := Run(h, Machinery(), Decider(h), epoch, events), Store(sha, tenth, LateOps());
            && Carries(s.src.log, store.mutations) && |store.mutations| == 3 && store.late == [false, false, true]
            && s.recv.cpSeq == 2
            && Decide(h, s.recv, s.src.log[2].record, s.src.log[2].head, true) == RejectFork
  {
    var k, d, ms := Machinery(), Decider(h), Store(sha, tenth, LateOps()).mutations;
    LateAppended(sha, tenth);
    LogRefinement(sha, tenth, LateOps());
    FeedRuns(h, k, d, epoch, ms, 3);
    events := Feed(ms, 3);
    for n := 0 to 2
      invariant LateRun(h, epoch, events, ms, n)
    {
      DeciderSensible(h);
      RunInv(h, k, d, epoch, events);
      CommittedRowDecision(sha, tenth, LateOps(), h, epoch, events, n);
      assert RowOk(h, Run(h, k, d, epoch, events).src.log, n);
      events := DeliverNext(h, k, d, epoch, events, n);
    }
    CommittedRowDecision(sha, tenth, LateOps(), h, epoch, events, 2);
  }

  /** The mutations appended and n of them delivered, at one fence and epoch. */
  ghost predicate LateRun(h: Hashes<Mutation>, epoch: string, events: seq<Event<Mutation>>, ms: seq<Mutation>, n: nat) {
    var s := Run(h, Machinery(), Decider(h), epoch, events);
    && Carries(s.src.log, ms) && AtFenceZero(s.src.log, epoch)
    && s.recv.cpSeq == n && s.recv.fence == Some(0) && s.recv.epoch == epoch
  }

  /** A replica that has caught up is the source table's public image. */
  lemma CaughtUp(sha: Sha, tenth: nat -> nat, ops: seq<Op>, h: Hashes<Mutation>, epoch: string,
                 events: seq<Event<Mutation>>)
    requires Injective(h)
    requires Carries(Run(h, Machinery(), Decider(h), epoch, events).src.log, Store(sha, tenth, ops).mutations)
    requires var s := Run(h, Machinery(), Decider(h), epoch, events); s.recv.cpSeq == |s.src.log|
    ensures Run(h, Machinery(), Decider(h), epoch, events).recv.replica == PublicImage(sha, Store(sha, tenth, ops).table)
  {
    ReplicaFollows(sha, tenth, ops, h, epoch, events);
    LogRefinement(sha, tenth, ops);
    var ms := Store(sha, tenth, ops).mutations;
    assert ms[..|ms|] == ms;
  }
}
