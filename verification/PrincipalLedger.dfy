/** The principal session ledger: event chains per stream, checkpoints over all stream heads
    per principal, and what a checkpoint head pins. */
module PrincipalLedger {
  import opened Wrappers

  const GENESIS: string := "0000000000000000000000000000000000000000000000000000000000000000"

  /** The hashed fields of an event besides its sequence and link. */
  datatype Body = Body(
    principalId: string, streamId: string, provider: string, session: Option<string>, agent: string,
    timestamp: nat, kind: string, policy: Option<string>, proof: Option<string>, payloadHash: string, payload: string)

  datatype Event = Event(seqno: nat, prev: string, body: Body, hash: string)

  datatype StreamHead = StreamHead(seqno: nat, hash: string)
  type Heads = map<string, StreamHead>

  datatype Checkpoint = Checkpoint(
    seqno: nat, prev: string, principalId: string, timestamp: nat, heads: Heads, hash: string)

  datatype Stream = Stream(principalId: string, provider: string, agent: string, seqno: nat, head: string)
  datatype Principal = Principal(streamIds: seq<string>, head: string, seqno: nat)

  datatype Hashing = Hashing(
    event: (nat, string, Body) -> string,
    checkpoint: (nat, string, string, nat, Heads) -> string)

  ghost predicate Injective(h: Hashing) {
    && (forall n1, p1, b1, n2, p2, b2 ::
          h.event(n1, p1, b1) == h.event(n2, p2, b2) ==> n1 == n2 && p1 == p2 && b1 == b2)
    && (forall n1, p1, i1, t1, m1, n2, p2, i2, t2, m2 ::
          h.checkpoint(n1, p1, i1, t1, m1) == h.checkpoint(n2, p2, i2, t2, m2) ==>
            n1 == n2 && p1 == p2 && i1 == i2 && t1 == t2 && m1 == m2)
  }

  // ── chains ──

  function EventHead(es: seq<Event>): string { if |es| == 0 then GENESIS else Last(es).hash }
  function CheckpointHead(cs: seq<Checkpoint>): string { if |cs| == 0 then GENESIS else Last(cs).hash }

  predicate EventOk(h: Hashing, es: seq<Event>, i: nat)
    requires i < |es|
  {
    es[i].seqno == i + 1 && es[i].prev == EventHead(es[..i]) && h.event(es[i].seqno, es[i].prev, es[i].body) == es[i].hash
  }

  predicate EventsOk(h: Hashing, es: seq<Event>) { forall i: nat | i < |es| :: EventOk(h, es, i) }

  predicate CheckpointOk(h: Hashing, cs: seq<Checkpoint>, i: nat)
    requires i < |cs|
  {
    && cs[i].seqno == i + 1 && cs[i].prev == CheckpointHead(cs[..i])
    && h.checkpoint(cs[i].seqno, cs[i].prev, cs[i].principalId, cs[i].timestamp, cs[i].heads) == cs[i].hash
  }

  predicate CheckpointsOk(h: Hashing, cs: seq<Checkpoint>) { forall i: nat | i < |cs| :: CheckpointOk(h, cs, i) }

  lemma EventsAppend(h: Hashing, es: seq<Event>, e: Event)
    requires EventsOk(h, es) && e.seqno == |es| + 1 && e.prev == EventHead(es)
    requires h.event(e.seqno, e.prev, e.body) == e.hash
    ensures EventsOk(h, es + [e])
  {
    var next := es + [e];
    forall i: nat | i < |next|
      ensures EventOk(h, next, i)
    {
      if i < |es| {
        assert EventOk(h, es, i);
        assert next[..i] == es[..i];
      } else {
        assert next[..i] == es;
      }
    }
  }

  lemma CheckpointsAppend(h: Hashing, cs: seq<Checkpoint>, c: Checkpoint)
    requires CheckpointsOk(h, cs) && c.seqno == |cs| + 1 && c.prev == CheckpointHead(cs)
    requires h.checkpoint(c.seqno, c.prev, c.principalId, c.timestamp, c.heads) == c.hash
    ensures CheckpointsOk(h, cs + [c])
  {
    var next := cs + [c];
    forall i: nat | i < |next|
      ensures CheckpointOk(h, next, i)
    {
      if i < |cs| {
        assert CheckpointOk(h, cs, i);
        assert next[..i] == cs[..i];
      } else {
        assert next[..i] == cs;
      }
    }
  }

  // ── the ledger as a value ──

  datatype Ledger = Ledger(
    principals: map<string, Principal>, streams: map<string, Stream>,
    events: map<string, seq<Event>>, checkpoints: map<string, seq<Checkpoint>>)

  const EMPTY := Ledger(map[], map[], map[], map[])

  function EventsOf(l: Ledger, sid: string): seq<Event> { if sid in l.events then l.events[sid] else [] }
  function CheckpointsOf(l: Ledger, pid: string): seq<Checkpoint> {
    if pid in l.checkpoints then l.checkpoints[pid] else []
  }

  function CurrentHeads(l: Ledger, ids: seq<string>): Heads {
    map sid | sid in ids && sid in l.streams :: StreamHead(l.streams[sid].seqno, l.streams[sid].head)
  }

  /** A stream's record and its events agree. */
  predicate StreamOk(h: Hashing, l: Ledger, sid: string) {
    && sid in l.streams
    && EventsOk(h, EventsOf(l, sid))
    && l.streams[sid].seqno == |EventsOf(l, sid)| && l.streams[sid].head == EventHead(EventsOf(l, sid))
  }

  predicate CheckpointsCurrent(h: Hashing, l: Ledger, pid: string)
    requires pid in l.principals
  {
    var cs, p := CheckpointsOf(l, pid), l.principals[pid];
    && CheckpointsOk(h, cs) && |cs| > 0
    && Last(cs).hash == p.head && Last(cs).seqno == p.seqno
    && Last(cs).heads == CurrentHeads(l, p.streamIds)
  }

  /** What verifyPrincipalContinuity calls valid. */
  predicate Continuous(h: Hashing, l: Ledger, pid: string) {
    && pid in l.principals
    && (forall i | 0 <= i < |l.principals[pid].streamIds| :: StreamOk(h, l, l.principals[pid].streamIds[i]))
    && CheckpointsCurrent(h, l, pid)
  }

  // ── operations ──

  /** appendEventToStream; the event carries the stream record's own identity. */
  function AddEvent(h: Hashing, l: Ledger, sid: string, body: Body): Ledger
    requires sid in l.streams
  {
    var s := l.streams[sid];
    var b := body.(principalId := s.principalId, streamId := sid, provider := s.provider, agent := s.agent);
    var e := Event(s.seqno + 1, s.head, b, h.event(s.seqno + 1, s.head, b));
    l.(events := l.events[sid := EventsOf(l, sid) + [e]],
       streams := l.streams[sid := s.(seqno := e.seqno, head := e.hash)])
  }

  /** appendCheckpoint over the principal's current stream heads. */
  function AddCheckpoint(h: Hashing, l: Ledger, pid: string, now: nat): Ledger
    requires pid in l.principals
  {
    var p := l.principals[pid];
    var heads := CurrentHeads(l, p.streamIds);
    var hash := h.checkpoint(p.seqno + 1, p.head, pid, now, heads);
    l.(checkpoints := l.checkpoints[pid := CheckpointsOf(l, pid) + [Checkpoint(p.seqno + 1, p.head, pid, now, heads, hash)]],
       principals := l.principals[pid := p.(head := hash, seqno := p.seqno + 1)])
  }

  function UpsertPrincipal(l: Ledger, pid: string): Ledger {
    if pid in l.principals then l
    else l.(principals := l.principals[pid := Principal([], GENESIS, 0)], checkpoints := l.checkpoints[pid := []])
  }

  function UpsertStream(l: Ledger, pid: string, sid: string, provider: string, agent: string): Ledger
    requires pid in l.principals
  {
    if sid in l.streams then l
    else l.(streams := l.streams[sid := Stream(pid, provider, agent, 0, GENESIS)], events := l.events[sid := []],
            principals := l.principals[pid := l.principals[pid].(streamIds := l.principals[pid].streamIds + [sid])])
  }

  datatype Op =
    | Bind(pid: string, sid: string, provider: string, agent: string, body: Body, now: nat)
    | Append(pid: string, sid: string, body: Body, now: nat)   // also the close of a session

  /** bindSession, appendStreamEvent and closeSession on the chains; refused operations change nothing. */
  function Perform(h: Hashing, l: Ledger, op: Op): Ledger {
    match op
    case Bind(pid, sid, provider, agent, body, now) =>
      var m := UpsertStream(UpsertPrincipal(l, pid), pid, sid, provider, agent);
      AddCheckpoint(h, AddEvent(h, m, sid, body), pid, now)
    case Append(pid, sid, body, now) =>
      if pid in l.principals && sid in l.streams && l.streams[sid].principalId == pid then
        AddCheckpoint(h, AddEvent(h, l, sid, body), pid, now)
      else l
  }

  /** No bind reaches into a stream of another principal. */
  predicate Separate(l: Ledger, op: Op) {
    op.Bind? && op.sid in l.streams ==> l.streams[op.sid].principalId == op.pid
  }

  // ── every reachable ledger is continuous ──

  /** Streams and principals point at each other. */
  predicate Owned(l: Ledger) {
    && (forall sid {:trigger l.streams[sid]} | sid in l.streams ::
          l.streams[sid].principalId in l.principals && sid in l.principals[l.streams[sid].principalId].streamIds)
    && (forall pid, sid {:trigger sid in l.principals[pid].streamIds} |
          pid in l.principals && sid in l.principals[pid].streamIds ::
          sid in l.streams && l.streams[sid].principalId == pid)
  }

  ghost predicate Inv(h: Hashing, l: Ledger) {
    && Owned(l)
    && StreamsOk(h, l)
    && (forall pid {:trigger Chained(h, l, pid)} | pid in l.principals :: Chained(h, l, pid))
    && (forall pid {:trigger CheckpointsCurrent(h, l, pid)} | pid in l.principals :: CheckpointsCurrent(h, l, pid))
  }

  /** The checkpoint chain reaches the principal's head; a new principal's is empty. */
  predicate Chained(h: Hashing, l: Ledger, pid: string)
    requires pid in l.principals
  {
    var cs := CheckpointsOf(l, pid);
    CheckpointsOk(h, cs) && l.principals[pid].head == CheckpointHead(cs) && l.principals[pid].seqno == |cs|
  }

  /** The invariant while one principal's checkpoint is still to be written. */
  ghost predicate Pending(h: Hashing, l: Ledger, open: string) {
    && Owned(l) && open in l.principals
    && StreamsOk(h, l)
    && (forall pid {:trigger Chained(h, l, pid)} | pid in l.principals :: Chained(h, l, pid))
    && (forall pid {:trigger CheckpointsCurrent(h, l, pid)} | pid in l.principals && pid != open ::
          CheckpointsCurrent(h, l, pid))
  }

  lemma UpsertsKeep(h: Hashing, l: Ledger, pid: string, sid: string, provider: string, agent: string)
    requires Inv(h, l) && (sid in l.streams ==> l.streams[sid].principalId == pid)
    ensures var m := UpsertStream(UpsertPrincipal(l, pid), pid, sid, provider, agent);
            Pending(h, m, pid) && sid in m.streams && m.streams[sid].principalId == pid
  {
    PrincipalKept(h, l, pid);
    var k := UpsertPrincipal(l, pid);
    if sid !in k.streams {
      StreamAdded(h, k, pid, sid, provider, agent);
    }
  }

  ghost predicate StreamsOk(h: Hashing, l: Ledger) {
    forall sid {:trigger StreamOk(h, l, sid)} | sid in l.streams :: StreamOk(h, l, sid)
  }

  lemma StreamsFramed(h: Hashing, l: Ledger, m: Ledger)
    requires StreamsOk(h, l) && l.streams == m.streams && l.events == m.events
    ensures StreamsOk(h, m)
  {
    forall sid | sid in m.streams ensures StreamOk(h, m, sid) { assert StreamOk(h, l, sid); }
  }

  lemma CheckpointsFramed(h: Hashing, l: Ledger, m: Ledger, q: string)
    requires q in l.principals && q in m.principals && l.principals[q] == m.principals[q]
    requires CheckpointsOf(l, q) == CheckpointsOf(m, q)
    ensures Chained(h, l, q) ==> Chained(h, m, q)
    ensures l.streams == m.streams && CheckpointsCurrent(h, l, q) ==> CheckpointsCurrent(h, m, q)
  {
  }

  lemma PrincipalKept(h: Hashing, l: Ledger, pid: string)
    requires Inv(h, l)
    ensures Pending(h, UpsertPrincipal(l, pid), pid) && UpsertPrincipal(l, pid).streams == l.streams
  {
    if pid !in l.principals {
      PrincipalAdded(h, l, pid);
    }
  }

  lemma PrincipalAdded(h: Hashing, l: Ledger, pid: string)
    requires Inv(h, l) && pid !in l.principals
    ensures Pending(h, UpsertPrincipal(l, pid), pid)
  {
    var k := UpsertPrincipal(l, pid);
    StreamsFramed(h, l, k);
    forall q | q in k.principals ensures Chained(h, k, q) {
      if q != pid { assert Chained(h, l, q); CheckpointsFramed(h, l, k, q); }
    }
    forall q | q in k.principals && q != pid ensures CheckpointsCurrent(h, k, q) {
      assert CheckpointsCurrent(h, l, q);
      CheckpointsFramed(h, l, k, q);
    }
  }

  /** Another principal's heads do not see changes to streams it does not own. */
  lemma HeadsFramed(l: Ledger, m: Ledger, ids: seq<string>)
    requires forall sid | sid in ids :: (sid in l.streams <==> sid in m.streams)
    requires forall sid | sid in ids && sid in l.streams :: l.streams[sid] == m.streams[sid]
    ensures CurrentHeads(l, ids) == CurrentHeads(m, ids)
  {
  }

  lemma OwnedAdded(l: Ledger, pid: string, sid: string, provider: string, agent: string)
    requires Owned(l) && pid in l.principals && sid !in l.streams
    ensures Owned(UpsertStream(l, pid, sid, provider, agent))
  {
  }

  lemma StreamAdded(h: Hashing, l: Ledger, pid: string, sid: string, provider: string, agent: string)
    requires Pending(h, l, pid) && sid !in l.streams
    ensures Pending(h, UpsertStream(l, pid, sid, provider, agent), pid)
  {
    var m := UpsertStream(l, pid, sid, provider, agent);
    OwnedAdded(l, pid, sid, provider, agent);
    forall s | s in m.streams ensures StreamOk(h, m, s) {
      if s != sid { assert StreamOk(h, l, s); }
    }
    forall q | q in m.principals ensures Chained(h, m, q) { assert Chained(h, l, q); }
    forall q | q in m.principals && q != pid ensures CheckpointsCurrent(h, m, q) {
      assert CheckpointsCurrent(h, l, q);
      OthersCurrent(h, l, m, q, sid);
    }
  }

  lemma OthersCurrent(h: Hashing, l: Ledger, m: Ledger, q: string, sid: string)
    requires Owned(l) && q in l.principals && q in m.principals && l.principals[q] == m.principals[q]
    requires CheckpointsOf(l, q) == CheckpointsOf(m, q) && CheckpointsCurrent(h, l, q)
    requires sid in l.streams ==> l.streams[sid].principalId != q
    requires forall s | s != sid :: (s in l.streams <==> s in m.streams) && (s in l.streams ==> l.streams[s] == m.streams[s])
    ensures CheckpointsCurrent(h, m, q)
  {
    OthersUntouched(l, m, q, sid);
    HeadsFramed(l, m, l.principals[q].streamIds);
  }

  lemma OthersUntouched(l: Ledger, m: Ledger, q: string, sid: string)
    requires Owned(l) && q in l.principals && (sid in l.streams ==> l.streams[sid].principalId != q)
    requires forall s | s != sid :: (s in l.streams <==> s in m.streams) && (s in l.streams ==> l.streams[s] == m.streams[s])
    ensures forall s | s in l.principals[q].streamIds :: s != sid && s in l.streams && s in m.streams && l.streams[s] == m.streams[s]
  {
    forall s | s in l.principals[q].streamIds
      ensures s != sid && s in l.streams && s in m.streams && l.streams[s] == m.streams[s]
    {
      assert s in l.principals[q].streamIds;
    }
  }

  lemma EventStreams(h: Hashing, l: Ledger, sid: string, body: Body)
    requires StreamsOk(h, l) && sid in l.streams
    ensures StreamsOk(h, AddEvent(h, l, sid, body))
  {
    var m := AddEvent(h, l, sid, body);
    assert StreamOk(h, l, sid);
    EventsAppend(h, EventsOf(l, sid), Last(EventsOf(m, sid)));
    forall s | s in m.streams ensures StreamOk(h, m, s) {
      if s != sid { assert StreamOk(h, l, s); }
    }
  }

  lemma EventKept(h: Hashing, l: Ledger, pid: string, sid: string, body: Body)
    requires Pending(h, l, pid) && sid in l.streams && l.streams[sid].principalId == pid
    ensures Pending(h, AddEvent(h, l, sid, body), pid)
  {
    var m := AddEvent(h, l, sid, body);
    EventStreams(h, l, sid, body);
    forall q | q in m.principals ensures Chained(h, m, q) { assert Chained(h, l, q); }
    forall q | q in m.principals && q != pid ensures CheckpointsCurrent(h, m, q) {
      assert CheckpointsCurrent(h, l, q);
      OthersCurrent(h, l, m, q, sid);
    }
  }

  lemma CheckpointCloses(h: Hashing, l: Ledger, pid: string, now: nat)
    requires Pending(h, l, pid)
    ensures Inv(h, AddCheckpoint(h, l, pid, now))
  {
    var m := AddCheckpoint(h, l, pid, now);
    StreamsFramed(h, l, m);
    assert Chained(h, l, pid);
    CheckpointWritten(h, l, pid, now);
    forall q | q in m.principals ensures Chained(h, m, q) {
      if q != pid { assert Chained(h, l, q); CheckpointsFramed(h, l, m, q); }
    }
    forall q | q in m.principals ensures CheckpointsCurrent(h, m, q) {
      if q != pid { assert CheckpointsCurrent(h, l, q); CheckpointsFramed(h, l, m, q); }
    }
  }

  lemma CheckpointWritten(h: Hashing, l: Ledger, pid: string, now: nat)
    requires pid in l.principals && Chained(h, l, pid)
    ensures var m := AddCheckpoint(h, l, pid, now); Chained(h, m, pid) && CheckpointsCurrent(h, m, pid)
  {
    var m := AddCheckpoint(h, l, pid, now);
    CheckpointsAppend(h, CheckpointsOf(l, pid), Last(CheckpointsOf(m, pid)));
    HeadsFramed(l, m, l.principals[pid].streamIds);
  }

  lemma StepKeeps(h: Hashing, l: Ledger, op: Op)
    requires Inv(h, l) && Separate(l, op)
    ensures Inv(h, Perform(h, l, op))
  {
    match op
    case Bind(pid, sid, provider, agent, body, now) =>
      var m := UpsertStream(UpsertPrincipal(l, pid), pid, sid, provider, agent);
      UpsertsKeep(h, l, pid, sid, provider, agent);
      EventKept(h, m, pid, sid, body);
      CheckpointCloses(h, AddEvent(h, m, sid, body), pid, now);
    case Append(pid, sid, body, now) =>
      if pid in l.principals && sid in l.streams && l.streams[sid].principalId == pid {
        EventKept(h, l, pid, sid, body);
        CheckpointCloses(h, AddEvent(h, l, sid, body), pid, now);
      }
  }

  function Run(h: Hashing, ops: seq<Op>): Ledger {
    if |ops| == 0 then EMPTY else Perform(h, Run(h, ops[..|ops| - 1]), Last(ops))
  }

  predicate SeparateAt(h: Hashing, ops: seq<Op>, i: nat)
    requires i < |ops|
  {
    Separate(Run(h, ops[..i]), ops[i])
  }

  predicate AllSeparate(h: Hashing, ops: seq<Op>) {
    forall i: nat | i < |ops| :: SeparateAt(h, ops, i)
  }

  lemma SeparatePrefix(h: Hashing, ops: seq<Op>, k: nat)
    requires k <= |ops| && forall i: nat | i < k :: SeparateAt(h, ops, i)
    ensures AllSeparate(h, ops[..k])
  {
    forall i: nat | i < k
      ensures SeparateAt(h, ops[..k], i)
    {
      assert ops[..k][..i] == ops[..i];
      assert SeparateAt(h, ops, i);
    }
  }

  lemma {:induction false} RunInv(h: Hashing, ops: seq<Op>)
    requires AllSeparate(h, ops)
    ensures Inv(h, Run(h, ops))
  {
    if |ops| > 0 {
      var n := |ops| - 1;
      SeparatePrefix(h, ops, n);
      RunInv(h, ops[..n]);
      assert SeparateAt(h, ops, n);
      StepKeeps(h, Run(h, ops[..n]), ops[n]);
    }
  }

  /** Every principal of every ledger reached by binds, appends and closes with stream ids
      distinct across principals verifies as continuous. */
  lemma AlwaysContinuous(h: Hashing, ops: seq<Op>, pid: string)
    requires AllSeparate(h, ops) && pid in Run(h, ops).principals
    ensures Continuous(h, Run(h, ops), pid)
  {
    RunInv(h, ops);
    InvContinuous(h, Run(h, ops));
  }

  // ── and exactly those ──

  /** A bind onto a stream that another principal owns breaks that principal's continuity: its
      last checkpoint no longer shows the stream's head. */
  lemma ForeignBindBreaks(h: Hashing, l: Ledger, op: Op)
    requires Inv(h, l) && !Separate(l, op)
    ensures var owner := l.streams[op.sid].principalId;
            owner in Perform(h, l, op).principals && !Continuous(h, Perform(h, l, op), owner)
  {
    var owner := l.streams[op.sid].principalId;
    assert CheckpointsCurrent(h, l, owner);
    assert StreamOk(h, l, op.sid);
    var m := Perform(h, l, op);
    assert op.sid in l.principals[owner].streamIds;
    assert CheckpointsOf(m, owner) == CheckpointsOf(l, owner);
    assert CurrentHeads(l, l.principals[owner].streamIds)[op.sid].seqno == l.streams[op.sid].seqno;
    assert CurrentHeads(m, m.principals[owner].streamIds)[op.sid].seqno == l.streams[op.sid].seqno + 1;
  }

  /** Every principal's ledger verifies. */
  ghost predicate AllContinuous(h: Hashing, l: Ledger) {
    forall pid {:trigger Continuous(h, l, pid)} | pid in l.principals :: Continuous(h, l, pid)
  }

  lemma InvContinuous(h: Hashing, l: Ledger)
    requires Inv(h, l)
    ensures AllContinuous(h, l)
  {
    forall pid | pid in l.principals
      ensures Continuous(h, l, pid)
    {
      assert CheckpointsCurrent(h, l, pid);
      forall i | 0 <= i < |l.principals[pid].streamIds|
        ensures StreamOk(h, l, l.principals[pid].streamIds[i])
      {
        assert l.principals[pid].streamIds[i] in l.principals[pid].streamIds;
      }
    }
  }

  /** One operation leaves every principal continuous exactly when it stays in its own streams. */
  lemma StaysContinuousIff(h: Hashing, l: Ledger, op: Op)
    requires Inv(h, l)
    ensures AllContinuous(h, Perform(h, l, op)) <==> Separate(l, op)
  {
    if Separate(l, op) {
      StepKeeps(h, l, op);
      InvContinuous(h, Perform(h, l, op));
    } else {
      ForeignBindBreaks(h, l, op);
    }
  }

  /** A ledger is continuous after every operation of a run exactly when no bind of the run
      reaches into another principal's stream. */
  lemma ContinuousThroughoutIff(h: Hashing, ops: seq<Op>)
    ensures AllSeparate(h, ops) <==> forall k | 0 <= k <= |ops| :: AllContinuous(h, Run(h, ops[..k]))
  {
    if AllSeparate(h, ops) {
      forall k | 0 <= k <= |ops|
        ensures AllContinuous(h, Run(h, ops[..k]))
      {
        SeparatePrefix(h, ops, k);
        RunInv(h, ops[..k]);
        InvContinuous(h, Run(h, ops[..k]));
      }
    } else {
      var k := FirstForeign(h, ops, 0);
      SeparatePrefix(h, ops, k);
      RunInv(h, ops[..k]);
      StaysContinuousIff(h, Run(h, ops[..k]), ops[k]);
      assert ops[..k + 1][..k] == ops[..k];
      assert !AllContinuous(h, Run(h, ops[..k + 1]));
    }
  }

  /** The first bind that is not separate, from the n-th operation on. */
  lemma {:induction false} FirstForeign(h: Hashing, ops: seq<Op>, n: nat) returns (k: nat)
    requires !AllSeparate(h, ops) && n <= |ops| && forall i: nat | i < n :: SeparateAt(h, ops, i)
    ensures k < |ops| && !SeparateAt(h, ops, k) && forall i: nat | i < k :: SeparateAt(h, ops, i)
    decreases |ops| - n
  {
    if SeparateAt(h, ops, n) {
      k := FirstForeign(h, ops, n + 1);
    } else {
      k := n;
    }
  }

  /** Two principals whose truncated hashes give one stream id: binding the first and then the
      second, both new to the ledger, leaves the first one's ledger invalid. */
  lemma CollisionReached(h: Hashing, p: string, q: string, sid: string, body: Body, now: nat)
    requires p != q
    ensures var ops := [Bind(p, sid, "x", "a", body, now), Bind(q, sid, "x", "a", body, now)];
            p in Run(h, ops).principals && !Continuous(h, Run(h, ops), p)
  {
    var first, second := Bind(p, sid, "x", "a", body, now), Bind(q, sid, "x", "a", body, now);
    var l := Run(h, [first]);
    assert [first][..0] == [];
    assert Run(h, []) == EMPTY;
    assert l == Perform(h, EMPTY, first);
    StepKeeps(h, EMPTY, first);
    ForeignBindBreaks(h, l, second);
    assert [first, second][..1] == [first];
  }

  // ── what a checkpoint head pins ──

  lemma {:induction false} EventsPinned(h: Hashing, a: seq<Event>, b: seq<Event>)
    requires Injective(h) && EventsOk(h, a) && EventsOk(h, b) && |a| == |b| && EventHead(a) == EventHead(b)
    ensures a == b
  {
    if |a| > 0 {
      var n := |a| - 1;
      assert EventOk(h, a, n) && EventOk(h, b, n);
      EventPinned(h, a[n], b[n]);
      EventsPrefix(h, a);
      EventsPrefix(h, b);
      EventsPinned(h, a[..n], b[..n]);
      assert a == a[..n] + [a[n]] && b == b[..n] + [b[n]];
    }
  }

  lemma EventPinned(h: Hashing, x: Event, y: Event)
    requires Injective(h) && x.hash == y.hash
    requires h.event(x.seqno, x.prev, x.body) == x.hash && h.event(y.seqno, y.prev, y.body) == y.hash
    ensures x == y
  {
  }

  lemma EventsPrefix(h: Hashing, es: seq<Event>)
    requires EventsOk(h, es) && |es| > 0
    ensures EventsOk(h, es[..|es| - 1])
  {
    var init := es[..|es| - 1];
    forall i: nat | i < |init|
      ensures EventOk(h, init, i)
    {
      assert EventOk(h, es, i);
      assert init[..i] == es[..i];
    }
  }

  lemma CheckpointPinned(h: Hashing, x: Checkpoint, y: Checkpoint)
    requires Injective(h) && x.hash == y.hash
    requires h.checkpoint(x.seqno, x.prev, x.principalId, x.timestamp, x.heads) == x.hash
    requires h.checkpoint(y.seqno, y.prev, y.principalId, y.timestamp, y.heads) == y.hash
    ensures x == y
  {
  }

  lemma CheckpointsPrefix(h: Hashing, cs: seq<Checkpoint>)
    requires CheckpointsOk(h, cs) && |cs| > 0
    ensures CheckpointsOk(h, cs[..|cs| - 1])
  {
    var init := cs[..|cs| - 1];
    forall i: nat | i < |init|
      ensures CheckpointOk(h, init, i)
    {
      assert CheckpointOk(h, cs, i);
      assert init[..i] == cs[..i];
    }
  }

  /** Equal heads of non-empty chains: the sequence number is hashed, so they are as long. */
  lemma {:induction false} CheckpointsPinned(h: Hashing, a: seq<Checkpoint>, b: seq<Checkpoint>)
    requires Injective(h) && CheckpointsOk(h, a) && CheckpointsOk(h, b)
    requires |a| > 0 && |b| > 0 && CheckpointHead(a) == CheckpointHead(b)
    ensures a == b
  {
    var n, m := |a| - 1, |b| - 1;
    assert CheckpointOk(h, a, n) && CheckpointOk(h, b, m);
    CheckpointPinned(h, a[n], b[m]);
    assert n == m;
    if n > 0 {
      CheckpointsPrefix(h, a);
      CheckpointsPrefix(h, b);
      CheckpointsPinned(h, a[..n], b[..n]);
    }
    assert a == a[..n] + [a[n]] && b == b[..n] + [b[n]];
  }

  /** Two continuous ledgers with one checkpoint head hold the same checkpoints, and the same
      events in every stream of the principal. */
  lemma HeadPinsLedger(h: Hashing, l: Ledger, p: string, m: Ledger, q: string, sid: string)
    requires Injective(h) && Continuous(h, l, p) && Continuous(h, m, q)
    requires l.principals[p].head == m.principals[q].head
    ensures CheckpointsOf(l, p) == CheckpointsOf(m, q)
    ensures sid in l.principals[p].streamIds <==> sid in m.principals[q].streamIds
    ensures sid in l.principals[p].streamIds ==> EventsOf(l, sid) == EventsOf(m, sid)
  {
    CheckpointsPinned(h, CheckpointsOf(l, p), CheckpointsOf(m, q));
    var a, b := l.principals[p].streamIds, m.principals[q].streamIds;
    var x, y := CurrentHeads(l, a), CurrentHeads(m, b);
    assert x == y;
    HeadsListed(h, l, p, sid);
    HeadsListed(h, m, q, sid);
    if sid in a {
      assert x[sid] == y[sid];
      EventsPinned(h, EventsOf(l, sid), EventsOf(m, sid));
    }
  }

  lemma HeadsListed(h: Hashing, l: Ledger, p: string, sid: string)
    requires Continuous(h, l, p)
    ensures sid in l.principals[p].streamIds <==> sid in CurrentHeads(l, l.principals[p].streamIds)
    ensures sid in l.principals[p].streamIds ==>
              && StreamOk(h, l, sid)
              && CurrentHeads(l, l.principals[p].streamIds)[sid] == StreamHead(|EventsOf(l, sid)|, EventHead(EventsOf(l, sid)))
  {
    var ids := l.principals[p].streamIds;
    if sid in ids {
      var i :| 0 <= i < |ids| && ids[i] == sid;
      assert StreamOk(h, l, ids[i]);
    }
  }

  // ── the ledger in memory ──

  class SessionLedger {
    const h: Hashing
    var principals: map<string, Principal>
    var streams: map<string, Stream>
    var events: map<string, seq<Event>>
    var checkpoints: map<string, seq<Checkpoint>>

    function State(): Ledger
      reads this
    {
      Ledger(principals, streams, events, checkpoints)
    }

    constructor (h: Hashing)
      ensures this.h == h && State() == EMPTY
    {
      this.h := h;
      principals, streams, events, checkpoints := map[], map[], map[], map[];
    }

    method AppendEvent(sid: string, body: Body)
      requires sid in streams
      modifies this`events, this`streams
      ensures State() == AddEvent(h, old(State()), sid, body)
    {
      var s := streams[sid];
      var b := body.(principalId := s.principalId, streamId := sid, provider := s.provider, agent := s.agent);
      var hash := h.event(s.seqno + 1, s.head, b);
      var entries := if sid in events then events[sid] else [];
      events := events[sid := entries + [Event(s.seqno + 1, s.head, b, hash)]];
      streams := streams[sid := s.(seqno := s.seqno + 1, head := hash)];
    }

    method AppendCheckpoint(pid: string, now: nat)
      requires pid in principals
      modifies this`checkpoints, this`principals
      ensures State() == AddCheckpoint(h, old(State()), pid, now)
    {
      var p := principals[pid];
      var heads: Heads := map[];
      for i := 0 to |p.streamIds|
        invariant heads == CurrentHeads(State(), p.streamIds[..i])
        invariant State() == old(State())
      {
        var sid := p.streamIds[i];
        if sid in streams {
          heads := heads[sid := StreamHead(streams[sid].seqno, streams[sid].head)];
        }
        assert p.streamIds[..i + 1] == p.streamIds[..i] + [sid];
      }
      assert p.streamIds[..|p.streamIds|] == p.streamIds;
      var hash := h.checkpoint(p.seqno + 1, p.head, pid, now, heads);
      var existing := if pid in checkpoints then checkpoints[pid] else [];
      checkpoints := checkpoints[pid := existing + [Checkpoint(p.seqno + 1, p.head, pid, now, heads, hash)]];
      principals := principals[pid := p.(head := hash, seqno := p.seqno + 1)];
    }

    method BindSession(pid: string, sid: string, provider: string, agent: string, body: Body, now: nat)
      modifies this
      ensures State() == Perform(h, old(State()), Bind(pid, sid, provider, agent, body, now))
    {
      if pid !in principals {
        principals := principals[pid := Principal([], GENESIS, 0)];
        checkpoints := checkpoints[pid := []];
      }
      if sid !in streams {
        streams := streams[sid := Stream(pid, provider, agent, 0, GENESIS)];
        events := events[sid := []];
        principals := principals[pid := principals[pid].(streamIds := principals[pid].streamIds + [sid])];
      }
      AppendEvent(sid, body);
      AppendCheckpoint(pid, now);
    }

    method AppendStreamEvent(pid: string, sid: string, body: Body, now: nat) returns (ok: bool)
      modifies this
      ensures State() == Perform(h, old(State()), Append(pid, sid, body, now))
      ensures ok <==> pid in old(principals) && sid in old(streams) && old(streams)[sid].principalId == pid
    {
      if pid !in principals || sid !in streams || streams[sid].principalId != pid {
        return false;
      }
      AppendEvent(sid, body);
      AppendCheckpoint(pid, now);
      return true;
    }

    method VerifyStream(sid: string) returns (ok: bool)
      ensures ok <==> StreamOk(h, State(), sid)
    {
      if sid !in streams {
        return false;
      }
      var entries := if sid in events then events[sid] else [];
      var prev := VerifyEvents(h, entries);
      return prev == Some(streams[sid].head) && streams[sid].seqno == |entries|;
    }

    /** The current heads of intact streams, or None where one is broken. */
    method VerifyStreams(ids: seq<string>) returns (r: Option<Heads>)
      ensures r == if forall i | 0 <= i < |ids| :: StreamOk(h, State(), ids[i]) then Some(CurrentHeads(State(), ids)) else None
    {
      var heads: Heads := map[];
      for i := 0 to |ids|
        invariant forall k {:trigger StreamOk(h, State(), ids[k])} | 0 <= k < i :: StreamOk(h, State(), ids[k])
        invariant heads == CurrentHeads(State(), ids[..i])
      {
        var ok := VerifyStream(ids[i]);
        if !ok {
          return None;
        }
        heads := heads[ids[i] := StreamHead(streams[ids[i]].seqno, streams[ids[i]].head)];
        assert ids[..i + 1] == ids[..i] + [ids[i]];
      }
      assert ids[..|ids|] == ids;
      return Some(heads);
    }

    method VerifyPrincipalContinuity(pid: string) returns (valid: bool)
      ensures valid <==> Continuous(h, State(), pid)
    {
      if pid !in principals {
        return false;
      }
      var p := principals[pid];
      var heads := VerifyStreams(p.streamIds);
      if heads.None? {
        return false;
      }
      var cs := if pid in checkpoints then checkpoints[pid] else [];
      var linked := VerifyCheckpoints(h, cs);
      if !linked || |cs| == 0 {
        return false;
      }
      var latest := cs[|cs| - 1];
      return latest.hash == p.head && latest.seqno == p.seqno && latest.heads == heads.value;
    }
  }

  /** The chain's head hash, or None where a link is broken. */
  method VerifyEvents(h: Hashing, es: seq<Event>) returns (r: Option<string>)
    ensures r == if EventsOk(h, es) then Some(EventHead(es)) else None
  {
    var prev := GENESIS;
    for i := 0 to |es|
      invariant prev == EventHead(es[..i])
      invariant forall k: nat | k < i :: EventOk(h, es, k)
    {
      var e := es[i];
      if e.seqno != i + 1 || e.prev != prev || h.event(e.seqno, e.prev, e.body) != e.hash {
        assert !EventOk(h, es, i);
        return None;
      }
      prev := e.hash;
      assert Last(es[..i + 1]) == e;
    }
    assert es[..|es|] == es;
    return Some(prev);
  }

  method VerifyCheckpoints(h: Hashing, cs: seq<Checkpoint>) returns (ok: bool)
    ensures ok <==> CheckpointsOk(h, cs)
  {
    var prev := GENESIS;
    for i := 0 to |cs|
      invariant prev == CheckpointHead(cs[..i])
      invariant forall k: nat | k < i :: CheckpointOk(h, cs, k)
    {
      var c := cs[i];
      if c.seqno != i + 1 || c.prev != prev ||
         h.checkpoint(c.seqno, c.prev, c.principalId, c.timestamp, c.heads) != c.hash {
        assert !CheckpointOk(h, cs, i);
        return false;
      }
      prev := c.hash;
      assert Last(cs[..i + 1]) == c;
    }
    return true;
  }
}
