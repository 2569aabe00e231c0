/** The credential table, the mutations each store operation appends, and the replica built
    from them. */
module CredentialLog {
  import opened Wrappers
  import opened Credential
  import opened CredentialMap

  type Sha = string -> string

  /** A signed public snapshot. */
  datatype Snap = Snap(clientId: string, revision: nat, public: TumblerMap, secretDigest: string)

  datatype Mutation = Snapshot(snap: Snap) | Delete(clientId: string, revision: nat) | Replace(prior: Snap, successor: Snap)

  datatype Entry = Entry(value: TumblerMap, revision: nat)
  type Table = map<string, Entry>
  type Replica = map<string, Snap>

  const MAX_REVISION: nat := 2_147_483_647

  function Public(m: TumblerMap): TumblerMap { m.(who := m.who.(secret := "")) }

  function SnapOf(sha: Sha, m: TumblerMap, revision: nat): Snap {
    Snap(m.who.clientId, revision, Public(m), sha(m.who.secret))
  }

  /** The public image of a table. */
  function PublicImage(sha: Sha, t: Table): Replica {
    map id | id in t :: SnapOf(sha, t[id].value, t[id].revision)
  }

  // ── admissible maps and moves ──

  function Rank(s: Option<Status>): nat {
    match s
    case None => 0
    case Some(Active) => 0
    case Some(Expiring) => 1
    case _ => 2
  }

  /** The segment replaces the old one of its id without moving its counter back. */
  predicate SegmentFollows(before: seq<Segment>, s: Segment) {
    var i := IndexOf(before, s.id);
    i.Some? && SameButCounter(before[i.value], s) && (s.kind == Hotp ==> Counter(before[i.value]) <= Counter(s))
  }

  predicate UsageFollows(a: TumblerMap, b: TumblerMap) {
    && Or(a.requestCount, 0) <= Or(b.requestCount, 0)
    && Or(a.lastUsedAt, 0) <= Or(b.lastUsedAt, 0)
    && Rank(a.status) <= Rank(b.status) && (Dead(a.status) ==> b.status == a.status)
  }

  predicate SameIdentity(a: TumblerMap, b: TumblerMap) {
    a.who == b.who
  }

  /** assertMonotonicMap. */
  predicate Monotonic(a: TumblerMap, b: TumblerMap) {
    && SameIdentity(a, b)
    && |Ids(a.segments)| == |b.segments|
    && (forall i {:trigger SegmentFollows(a.segments, b.segments[i])} | 0 <= i < |b.segments| ::
          SegmentFollows(a.segments, b.segments[i]))
    && UsageFollows(a, b)
  }

  method AssertMonotonic(a: TumblerMap, b: TumblerMap) returns (ok: bool)
    ensures ok <==> Monotonic(a, b)
  {
    if !SameIdentity(a, b) || |Ids(a.segments)| != |b.segments| {
      return false;
    }
    for i := 0 to |b.segments|
      invariant forall j | 0 <= j < i :: SegmentFollows(a.segments, b.segments[j])
    {
      var s := b.segments[i];
      assert Monotonic(a, b) ==> SegmentFollows(a.segments, b.segments[i]);
      var at := IndexOf(a.segments, s.id);
      if at.None? {
        return false;
      }
      var o := a.segments[at.value];
      if o.kind != s.kind || o.shape != s.shape || (s.kind == Hotp && Counter(s) < Counter(o)) {
        return false;
      }
    }
    return UsageFollows(a, b);
  }

  // ── the replica ──

  predicate SnapFollows(r: Replica, s: Snap) {
    if s.clientId in r then
      var cur := r[s.clientId];
      s.revision == cur.revision + 1 && s.secretDigest == cur.secretDigest && Monotonic(cur.public, s.public)
    else s.revision == 1
  }

  /** The receiver's checks against its replica. */
  predicate Accepts(r: Replica, m: Mutation) {
    match m
    case Snapshot(s) => SnapFollows(r, s)
    case Delete(id, revision) => id in r && revision == r[id].revision + 1
    case Replace(prior, next) =>
      prior.clientId in r && next.clientId !in r && SnapFollows(r, prior) && SnapFollows(r, next)
  }

  function Reproduce(r: Replica, m: Mutation): Replica {
    match m
    case Snapshot(s) => r[s.clientId := s]
    case Delete(id, _) => r - {id}
    case Replace(prior, next) => r[prior.clientId := prior][next.clientId := next]
  }

  predicate SaneSnap(s: Snap) {
    && s.public.who.clientId == s.clientId && s.public.who.secret == "" && ValidPublic(s.public)
    && 1 <= s.revision <= MAX_REVISION
  }

  /** sanitizeMutation. */
  predicate Sane(m: Mutation) {
    match m
    case Snapshot(s) => SaneSnap(s)
    case Delete(_, revision) => 1 <= revision <= MAX_REVISION
    case Replace(prior, next) =>
      && SaneSnap(prior) && SaneSnap(next) && prior.clientId != next.clientId
      && prior.public.status == Some(Revoked) && !Dead(next.public.status)
  }

  // ── the store ──

  datatype Op =
    | Set(id: string, value: TumblerMap)
    | Remove(id: string)
    | UpdateCounters(id: string, updates: seq<(string, nat)>)
    | ConsumeCounter(id: string, segmentId: string, matched: int)
    | CommitValidation(id: string, input: Input)
    | ReplaceCredential(oldId: string, value: TumblerMap)

  function Persist(sha: Sha, t: Table, m: TumblerMap, revision: nat): (Table, Option<Mutation>) {
    if ValidMap(m) && 1 <= revision <= MAX_REVISION then
      (t[m.who.clientId := Entry(m, revision)], Some(Snapshot(SnapOf(sha, m, revision))))
    else (t, None)
  }

  function PersistIfChanged(sha: Sha, t: Table, id: string, next: TumblerMap): (Table, Option<Mutation>)
    requires id in t
  {
    if next == t[id].value then (t, None) else Persist(sha, t, next, t[id].revision + 1)
  }

  /** Counter updates in order; None when one has no HOTP target or moves back. */
  function UpdateAll(segments: seq<Segment>, updates: seq<(string, nat)>): (r: Option<seq<Segment>>)
    ensures r.Some? ==> SameLayout(segments, r.value)
  {
    if |updates| == 0 then Some(segments)
    else
      var before := UpdateAll(segments, updates[..|updates| - 1]);
      var u := Last(updates);
      if before.None? then None
      else
        var i := IndexOf(before.value, u.0);
        if i.None? || before.value[i.value].kind != Hotp || u.1 < Counter(before.value[i.value]) || u.1 > MAX_COUNTER
        then None else Some(SetCounter(before.value, u.0, u.1))
  }

  /** New counters, and the status they lead to. */
  function Reconciled(m: TumblerMap, segments: seq<Segment>): TumblerMap {
    var n := m.(segments := segments);
    var left := MinRemaining(segments);
    if left.None? then n else Reconcile(n, left.value).0
  }

  function Consumed(m: TumblerMap, segmentId: string, matched: int): Option<TumblerMap> {
    if !(0 <= matched < MAX_COUNTER) then None
    else
      var i := IndexOf(m.segments, segmentId);
      if i.None? || m.segments[i.value].kind != Hotp then None
      else
        var stored := Counter(m.segments[i.value]);
        if stored >= MAX_COUNTER then
          if stored == MAX_COUNTER && !Dead(m.status) then Some(m.(status := Some(Expired))) else None
        else if stored > matched then None
        else Some(Reconciled(m, SetCounter(m.segments, segmentId, matched + 1)))
  }

  predicate Replaceable(s: Option<Status>) { s == None || s == Some(Active) || s == Some(Expiring) }

  /** The checks on a commit's input, made before anything is read. */
  predicate InputOk(input: Input) {
    && input.usedAt <= MAX_SAFE
    && forall j | 0 <= j < |input.matches| ::
         IdOk(input.matches[j].segmentId) && 0 <= input.matches[j].counter <= MAX_COUNTER
  }

  function SetMap(sha: Sha, t: Table, id: string, value: TumblerMap): (Table, Option<Mutation>) {
    if !ValidMap(value) || value.who.clientId != id then (t, None)
    else if id !in t then Persist(sha, t, value, 1)
    else if !Monotonic(t[id].value, value) then (t, None)
    else Persist(sha, t, value, t[id].revision + 1)
  }

  function RemoveMap(t: Table, id: string): (Table, Option<Mutation>) {
    if id !in t || t[id].revision + 1 > MAX_REVISION then (t, None)
    else (t - {id}, Some(Delete(id, t[id].revision + 1)))
  }

  function UpdateMap(sha: Sha, t: Table, id: string, updates: seq<(string, nat)>): (Table, Option<Mutation>) {
    if id !in t then (t, None)
    else
      var segments := UpdateAll(t[id].value.segments, updates);
      if segments.None? then (t, None)
      else Persist(sha, t, Reconciled(t[id].value, segments.value), t[id].revision + 1)
  }

  function ConsumeMap(sha: Sha, t: Table, id: string, segmentId: string, matched: int): (Table, Option<Mutation>) {
    if id !in t then (t, None)
    else
      var next := Consumed(t[id].value, segmentId, matched);
      if next.None? then (t, None) else Persist(sha, t, next.value, t[id].revision + 1)
  }

  function CommitMap(sha: Sha, tenth: nat -> nat, t: Table, id: string, input: Input): (Table, Option<Mutation>) {
    if !InputOk(input) || id !in t then (t, None)
    else PersistIfChanged(sha, t, id, Commit(tenth, t[id].value, input).0)
  }

  function ReplaceMap(sha: Sha, t: Table, oldId: string, value: TumblerMap): (Table, Option<Mutation>) {
    if oldId !in t || !Replaceable(t[oldId].value.status) || value.who.clientId in t ||
       !ValidMap(value) || Dead(value.status) || t[oldId].revision + 1 > MAX_REVISION then (t, None)
    else
      var prior := t[oldId].value.(status := Some(Revoked));
      (t[oldId := Entry(prior, t[oldId].revision + 1)][value.who.clientId := Entry(value, 1)],
       Some(Replace(SnapOf(sha, prior, t[oldId].revision + 1), SnapOf(sha, value, 1))))
  }

  /** One store operation: the next table and the mutation it appended, if any. */
  function Perform(sha: Sha, tenth: nat -> nat, t: Table, op: Op): (Table, Option<Mutation>) {
    match op
    case Set(id, value) => SetMap(sha, t, id, value)
    case Remove(id) => RemoveMap(t, id)
    case UpdateCounters(id, updates) => UpdateMap(sha, t, id, updates)
    case ConsumeCounter(id, segmentId, matched) => ConsumeMap(sha, t, id, segmentId, matched)
    case CommitValidation(id, input) => CommitMap(sha, tenth, t, id, input)
    case ReplaceCredential(oldId, value) => ReplaceMap(sha, t, oldId, value)
  }

  predicate EntryOk(t: Table, id: string)
    requires id in t
  {
    t[id].value.who.clientId == id && ValidMap(t[id].value) && t[id].revision >= 1
  }

  predicate TableOk(t: Table) { forall id {:trigger EntryOk(t, id)} | id in t :: EntryOk(t, id) }

  /** A commit that succeeds with a use time before the stored one. */
  predicate CommitsLate(tenth: nat -> nat, m: TumblerMap, input: Input) {
    Commit(tenth, m, input).1.Ok? && input.usedAt < Or(m.lastUsedAt, 0)
  }

  predicate Backdates(tenth: nat -> nat, t: Table, op: Op) {
    op.CommitValidation? && op.id in t && CommitsLate(tenth, t[op.id].value, op.input)
  }

  // ── the layout half of a move ──

  lemma {:induction false} IndexUnique(segments: seq<Segment>, i: nat)
    requires UniqueIds(segments) && i < |segments|
    ensures IndexOf(segments, segments[i].id) == Some(i)
  {
    var r := IndexOf(segments, segments[i].id);
    assert r.Some?;
    assert i < r.value ==> Apart(segments[i], segments[r.value]);
  }

  lemma {:induction false} IdsCount(segments: seq<Segment>)
    requires UniqueIds(segments)
    ensures |Ids(segments)| == |segments|
  {
    if |segments| > 0 {
      var init := segments[..|segments| - 1];
      assert segments == init + [Last(segments)];
      SnocIds(init, Last(segments));
      IdsCount(init);
    }
  }

  /** Same layout, counters not moved back: every segment follows. */
  lemma LayoutFollows(a: seq<Segment>, b: seq<Segment>)
    requires UniqueIds(a) && SameLayout(a, b) && CountersRise(a, b)
    ensures UniqueIds(b) && |Ids(a)| == |b|
    ensures forall i | 0 <= i < |b| :: SegmentFollows(a, b[i])
  {
    IdsCount(a);
    SameIds(a, b);
    forall i | 0 <= i < |b|
      ensures SegmentFollows(a, b[i])
    {
      assert SameButCounter(a[i], b[i]);
      IndexUnique(a, i);
      IndexUnique(b, i);
      assert Stored(a, a[i].id) <= Stored(b, a[i].id);
    }
  }

  lemma SameIds(a: seq<Segment>, b: seq<Segment>)
    requires UniqueIds(a) && SameLayout(a, b)
    ensures UniqueIds(b)
  {
    forall i, j | 0 <= i < j < |b|
      ensures Apart(b[i], b[j])
    {
      assert Apart(a[i], a[j]) && SameButCounter(a[i], b[i]) && SameButCounter(a[j], b[j]);
    }
  }

  lemma SelfRise(a: seq<Segment>)
    ensures SameLayout(a, a) && CountersRise(a, a)
  {
  }

  lemma {:induction false} UpdatesRise(segments: seq<Segment>, updates: seq<(string, nat)>)
    requires UpdateAll(segments, updates).Some?
    ensures CountersRise(segments, UpdateAll(segments, updates).value)
  {
    if |updates| > 0 {
      var before := UpdateAll(segments, updates[..|updates| - 1]).value;
      UpdatesRise(segments, updates[..|updates| - 1]);
      SetRises(segments, before, Last(updates).0, Last(updates).1);
    }
  }

  lemma SetRises(start: seq<Segment>, segments: seq<Segment>, id: string, n: nat)
    requires CountersRise(start, segments) && IndexOf(segments, id).Some? && Stored(segments, id) <= n
    ensures CountersRise(start, SetCounter(segments, id, n))
  {
    forall other
      ensures Stored(start, other) <= Stored(SetCounter(segments, id, n), other)
    {
      SetCounterStores(segments, id, n, other);
    }
  }

  /** A move of one stored map: the same identity and layout, counters risen. */
  ghost predicate Moves(a: TumblerMap, b: TumblerMap) {
    && SameIdentity(a, b) && SameLayout(a.segments, b.segments) && CountersRise(a.segments, b.segments)
    && Or(a.requestCount, 0) <= Or(b.requestCount, 0)
    && Rank(a.status) <= Rank(b.status) && (Dead(a.status) ==> b.status == a.status)
  }

  /** A move is monotonic exactly when its use time is not earlier. */
  lemma MovesMonotonic(a: TumblerMap, b: TumblerMap)
    requires UniqueIds(a.segments) && Moves(a, b)
    ensures UniqueIds(b.segments)
    ensures Monotonic(Public(a), Public(b)) <==> Or(a.lastUsedAt, 0) <= Or(b.lastUsedAt, 0)
  {
    LayoutFollows(a.segments, b.segments);
  }
}
