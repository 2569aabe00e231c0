/** What one operation of the principal session ledger writes, and whose names every event and
    checkpoint carries. */
module LedgerRules {
  import opened Wrappers
  import opened PrincipalLedger

  /** The event that one operation adds: next in the stream, linked to its head, in the stream's
      own name, otherwise as it was given. */
  predicate EventWritten(h: Hashing, s: Stream, sid: string, body: Body, e: Event) {
    && e.seqno == s.seqno + 1 && e.prev == s.head && e.hash == h.event(e.seqno, e.prev, e.body)
    && e.body.principalId == s.principalId && e.body.streamId == sid
    && e.body.provider == s.provider && e.body.agent == s.agent
    && e.body.session == body.session && e.body.timestamp == body.timestamp && e.body.kind == body.kind
    && e.body.policy == body.policy && e.body.proof == body.proof
    && e.body.payloadHash == body.payloadHash && e.body.payload == body.payload
  }

  /** The checkpoint that closes it: next in the principal's chain, over the heads of all its
      streams as they now are. */
  ghost predicate CheckpointWritten(h: Hashing, m: Ledger, p: Principal, pid: string, now: nat, c: Checkpoint) {
    && c.seqno == p.seqno + 1 && c.prev == p.head && c.principalId == pid && c.timestamp == now
    && c.hash == h.checkpoint(c.seqno, c.prev, pid, now, c.heads)
    && (forall sid :: sid in c.heads <==> sid in p.streamIds && sid in m.streams)
    && (forall sid | sid in c.heads && sid in m.streams ::
          c.heads[sid].seqno == m.streams[sid].seqno && c.heads[sid].hash == m.streams[sid].head)
  }

  /** From l to m one event joins the stream and one checkpoint the principal; nothing else moves. */
  ghost predicate Recorded(h: Hashing, l: Ledger, m: Ledger, pid: string, sid: string, body: Body, now: nat)
    requires pid in l.principals && sid in l.streams
  {
    var s, p, es, cs := l.streams[sid], l.principals[pid], EventsOf(m, sid), CheckpointsOf(m, pid);
    && |es| == |EventsOf(l, sid)| + 1 && es == EventsOf(l, sid) + [Last(es)] && EventWritten(h, s, sid, body, Last(es))
    && |cs| == |CheckpointsOf(l, pid)| + 1 && cs == CheckpointsOf(l, pid) + [Last(cs)]
    && CheckpointWritten(h, m, p, pid, now, Last(cs))
    && m.streams == l.streams[sid := s.(seqno := s.seqno + 1, head := Last(es).hash)]
    && m.principals == l.principals[pid := p.(seqno := p.seqno + 1, head := Last(cs).hash)]
    && (forall other | other != sid :: EventsOf(m, other) == EventsOf(l, other))
    && (forall other | other != pid :: CheckpointsOf(m, other) == CheckpointsOf(l, other))
  }

  lemma RecordOutcome(h: Hashing, l: Ledger, pid: string, sid: string, body: Body, now: nat)
    requires pid in l.principals && sid in l.streams
    ensures Recorded(h, l, AddCheckpoint(h, AddEvent(h, l, sid, body), pid, now), pid, sid, body, now)
  {
  }

  /** An append or a close is recorded exactly for a known principal's own stream. */
  lemma AppendOutcome(h: Hashing, l: Ledger, pid: string, sid: string, body: Body, now: nat)
    ensures var m := Perform(h, l, Append(pid, sid, body, now));
            if pid in l.principals && sid in l.streams && l.streams[sid].principalId == pid
            then Recorded(h, l, m, pid, sid, body, now) else m == l
  {
    if pid in l.principals && sid in l.streams && l.streams[sid].principalId == pid {
      RecordOutcome(h, l, pid, sid, body, now);
    }
  }

  /** The ledger in which a bind records: an unknown principal starts without streams, an unknown
      stream belongs to the binding principal, and what is known stays as it is. */
  predicate Admitted(l: Ledger, m: Ledger, pid: string, sid: string, provider: string, agent: string) {
    && pid in m.principals && sid in m.streams && m.events.Keys >= l.events.Keys
    && (if sid in l.streams then m.streams == l.streams
        else m.streams == l.streams[sid := Stream(pid, provider, agent, 0, GENESIS)] && EventsOf(m, sid) == [])
    && (var p := if pid in l.principals then l.principals[pid] else Principal([], GENESIS, 0);
        m.principals == l.principals[pid := if sid in l.streams then p else p.(streamIds := p.streamIds + [sid])])
  }

  lemma UpsertsAdmit(l: Ledger, pid: string, sid: string, provider: string, agent: string)
    ensures Admitted(l, UpsertStream(UpsertPrincipal(l, pid), pid, sid, provider, agent), pid, sid, provider, agent)
  {
  }

  /** A bind is always recorded, in the ledger m that admits its principal and stream. */
  lemma BindOutcome(h: Hashing, l: Ledger, pid: string, sid: string, provider: string, agent: string, body: Body, now: nat)
    returns (m: Ledger)
    ensures Admitted(l, m, pid, sid, provider, agent)
    ensures Recorded(h, m, Perform(h, l, Bind(pid, sid, provider, agent, body, now)), pid, sid, body, now)
  {
    m := UpsertStream(UpsertPrincipal(l, pid), pid, sid, provider, agent);
    UpsertsAdmit(l, pid, sid, provider, agent);
    RecordOutcome(h, m, pid, sid, body, now);
  }

  // ── over runs ──

  predicate EventsNamed(es: seq<Event>, sid: string, pid: string, provider: string, agent: string) {
    forall i | 0 <= i < |es| ::
      && es[i].body.principalId == pid && es[i].body.streamId == sid
      && es[i].body.provider == provider && es[i].body.agent == agent
  }

  predicate StreamNamed(l: Ledger, sid: string) {
    var es := EventsOf(l, sid);
    if sid in l.streams then EventsNamed(es, sid, l.streams[sid].principalId, l.streams[sid].provider, l.streams[sid].agent)
    else es == []
  }

  predicate AllOf(cs: seq<Checkpoint>, pid: string) { forall i | 0 <= i < |cs| :: cs[i].principalId == pid }

  predicate CheckpointsNamed(l: Ledger, pid: string) { AllOf(CheckpointsOf(l, pid), pid) }

  /** Every event carries its stream's names and every checkpoint its principal's. */
  ghost predicate NamesRight(l: Ledger) {
    (forall sid {:trigger StreamNamed(l, sid)} :: StreamNamed(l, sid)) &&
    (forall pid {:trigger CheckpointsNamed(l, pid)} :: CheckpointsNamed(l, pid))
  }

  lemma EventNames(h: Hashing, l: Ledger, sid: string, body: Body)
    requires sid in l.streams && NamesRight(l)
    ensures NamesRight(AddEvent(h, l, sid, body))
  {
    var m := AddEvent(h, l, sid, body);
    forall s ensures StreamNamed(m, s) { assert StreamNamed(l, s); }
    forall p ensures CheckpointsNamed(m, p) { assert CheckpointsNamed(l, p); }
  }

  lemma CheckpointNames(h: Hashing, l: Ledger, pid: string, now: nat)
    requires pid in l.principals && NamesRight(l)
    ensures NamesRight(AddCheckpoint(h, l, pid, now))
  {
    var m := AddCheckpoint(h, l, pid, now);
    forall s ensures StreamNamed(m, s) { assert StreamNamed(l, s); }
    forall p ensures CheckpointsNamed(m, p) { assert CheckpointsNamed(l, p); }
  }

  lemma RecordNames(h: Hashing, l: Ledger, pid: string, sid: string, body: Body, now: nat)
    requires pid in l.principals && sid in l.streams && NamesRight(l)
    ensures NamesRight(AddCheckpoint(h, AddEvent(h, l, sid, body), pid, now))
  {
    EventNames(h, l, sid, body);
    CheckpointNames(h, AddEvent(h, l, sid, body), pid, now);
  }

  lemma UpsertNames(l: Ledger, pid: string, sid: string, provider: string, agent: string)
    requires NamesRight(l)
    ensures NamesRight(UpsertStream(UpsertPrincipal(l, pid), pid, sid, provider, agent))
  {
    var k := UpsertPrincipal(l, pid);
    forall s ensures StreamNamed(k, s) { assert StreamNamed(l, s); }
    forall p ensures CheckpointsNamed(k, p) { assert CheckpointsNamed(l, p); }
    var m := UpsertStream(k, pid, sid, provider, agent);
    forall s ensures StreamNamed(m, s) { assert StreamNamed(k, s); }
    forall p ensures CheckpointsNamed(m, p) { assert CheckpointsNamed(k, p); }
  }

  /** In every run, separate or not, no event is ever in another stream's name and no checkpoint
      in another principal's. */
  lemma {:induction false} NamesAlwaysRight(h: Hashing, ops: seq<Op>)
    ensures NamesRight(Run(h, ops))
  {
    if |ops| > 0 {
      var l := Run(h, ops[..|ops| - 1]);
      NamesAlwaysRight(h, ops[..|ops| - 1]);
      match Last(ops)
      case Bind(pid, sid, provider, agent, body, now) =>
        UpsertNames(l, pid, sid, provider, agent);
        RecordNames(h, UpsertStream(UpsertPrincipal(l, pid), pid, sid, provider, agent), pid, sid, body, now);
      case Append(pid, sid, body, now) =>
        if pid in l.principals && sid in l.streams && l.streams[sid].principalId == pid {
          RecordNames(h, l, pid, sid, body, now);
        }
    }
  }
}
