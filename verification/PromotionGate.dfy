/** The replication queue, its receiver and the promotion that compares their checkpoints; and
    the fence that one writer holds. */
module PromotionGate {
  import opened Wrappers
  import opened ControlModel

  /** A replication stream and its epoch. */
  datatype Stream = Stream(id: string, epoch: nat)

  datatype Checkpoint = Checkpoint(stream: Stream, seqno: nat, head: string)

  const GENESIS: string := "0000000000000000000000000000000000000000000000000000000000000000"

  datatype Mutation =
    | SetMap(clientId: string, image: string, sealed: bool)
    | DeleteMap(clientId: string)
    | UpdateCounters(clientId: string, updates: seq<(string, int)>)
    | ConsumeCounter(clientId: string, segmentId: string, counter: int)

  /** One mutation at its place in the source's hash chain. */
  datatype Envelope = Envelope(stream: Stream, seqno: nat, prev: string, head: string, mutation: Mutation)

  /** An envelope as signed for one sending. */
  datatype Message = Message(envelope: Envelope, sentAt: int)

  type Hash = (Stream, nat, string, Mutation) -> string

  /** The chain's head after the first n mutations. */
  function Chain(h: Hash, st: Stream, ms: seq<Mutation>, n: nat): string
    requires n <= |ms|
  {
    if n == 0 then GENESIS else h(st, n, Chain(h, st, ms, n - 1), ms[n - 1])
  }

  lemma {:induction false} ChainGrows(h: Hash, st: Stream, ms: seq<Mutation>, m: Mutation, n: nat)
    requires n <= |ms|
    ensures Chain(h, st, ms + [m], n) == Chain(h, st, ms, n)
  {
    if n > 0 {
      ChainGrows(h, st, ms, m, n - 1);
    }
  }

  function EnvelopeAt(h: Hash, st: Stream, ms: seq<Mutation>, k: nat): Envelope
    requires 1 <= k <= |ms|
  {
    Envelope(st, k, Chain(h, st, ms, k - 1), Chain(h, st, ms, k), ms[k - 1])
  }

  // ── source and receiver ──

  /** `all` records every mutation ever enqueued; the rest is the store's own state. */
  datatype Source = Source(cp: Checkpoint, queue: seq<Envelope>, lost: bool, draining: bool, all: seq<Mutation>)

  function NextEnvelope(h: Hash, cp: Checkpoint, m: Mutation): Envelope {
    Envelope(cp.stream, cp.seqno + 1, cp.head, h(cp.stream, cp.seqno + 1, cp.head, m), m)
  }

  function Enqueue(h: Hash, s: Source, maxQueue: nat, m: Mutation): Source {
    var e := NextEnvelope(h, s.cp, m);
    var t := s.(cp := Checkpoint(s.cp.stream, e.seqno, e.head), all := s.all + [m]);
    if |s.queue| >= maxQueue then t.(lost := true) else t.(queue := s.queue + [e])
  }

  /** promotionCheckpoint of the source; `durable` is the deployment's attestation. */
  function SourceCheckpoint(s: Source, durable: bool): Option<Checkpoint> {
    if s.lost || s.draining || |s.queue| != 0 || !durable then None else Some(s.cp)
  }

  /** `applied` records what the replica's store was told, in order. */
  datatype Receiver = Receiver(cp: Checkpoint, lost: bool, ready: bool, applied: seq<Mutation>)

  /** What depends on the mutation and the world: its secret is usable, can be unsealed, and the
      store takes it. */
  datatype Fate = Fate(usable: bool, unsealed: bool, stored: bool)

  predicate Timely(sentAt: int, now: int, maxSkew: nat) { now - maxSkew <= sentAt <= now + maxSkew }

  /** ingest of an authentic message; the flag is a 200 answer. */
  function Ingest(h: Hash, maxSkew: nat, r: Receiver, m: Message, now: int, f: Fate): (Receiver, bool) {
    var e := m.envelope;
    if !Timely(m.sentAt, now, maxSkew) || e.stream != r.cp.stream then (r, false)
    else if e.seqno != r.cp.seqno + 1 then (r.(lost := r.lost || e.seqno > r.cp.seqno + 1), false)
    else if e.prev != r.cp.head || e.head != h(e.stream, e.seqno, e.prev, e.mutation) || !f.unsealed then
      (r.(lost := true), false)
    else
      var t := r.(ready := r.ready && f.usable);
      if !f.stored then (t.(lost := true), false)
      else (t.(cp := Checkpoint(e.stream, e.seqno, e.head), applied := t.applied + [e.mutation]), true)
  }

  function ReceiverCheckpoint(r: Receiver, durable: bool): Option<Checkpoint> {
    if r.lost || !r.ready || r.cp.seqno < 1 || !durable then None else Some(r.cp)
  }

  // ── the system ──

  /** `issued` pairs each issued checkpoint with the mutations enqueued at that moment. */
  datatype System = System(
    src: Source, recv: Receiver, sent: set<Message>, confirmed: set<nat>, dropped: set<nat>,
    issued: set<(Checkpoint, seq<Mutation>)>)

  datatype Event =
    | Write(m: Mutation) | Send(sentAt: int) | Deliver(msg: Message, now: int, fate: Fate)
    | Dequeue | DrainEnds | Issue(durable: bool)

  /** The fixed parameters of one deployment; source and receiver are configured apart. */
  datatype Setup = Setup(h: Hash, maxQueue: nat, maxSkew: nat, source: Stream, receiver: Stream)

  function Apply(u: Setup, s: System, ev: Event): System {
    match ev
    case Write(m) =>
      s.(src := Enqueue(u.h, s.src, u.maxQueue, m),
         dropped := if |s.src.queue| >= u.maxQueue then s.dropped + {s.src.cp.seqno + 1} else s.dropped)
    case Send(sentAt) =>
      if |s.src.queue| == 0 then s
      else s.(src := s.src.(draining := true), sent := s.sent + {Message(s.src.queue[0], sentAt)})
    case Deliver(msg, now, fate) =>
      if msg !in s.sent then s   // the signature does not verify
      else
        var (r, ok) := Ingest(u.h, u.maxSkew, s.recv, msg, now, fate);
        s.(recv := r, confirmed := if ok then s.confirmed + {msg.envelope.seqno} else s.confirmed)
    case Dequeue =>
      if |s.src.queue| > 0 && s.src.queue[0].seqno in s.confirmed then s.(src := s.src.(queue := s.src.queue[1..])) else s
    case DrainEnds => if |s.src.queue| == 0 then s.(src := s.src.(draining := false)) else s
    case Issue(durable) =>
      var cp := SourceCheckpoint(s.src, durable);
      if cp.Some? then s.(issued := s.issued + {(cp.value, s.src.all)}) else s
  }

  function Init(u: Setup): System {
    System(Source(Checkpoint(u.source, 0, GENESIS), [], false, false, []),
           Receiver(Checkpoint(u.receiver, 0, GENESIS), false, true, []), {}, {}, {}, {})
  }

  function Run(u: Setup, events: seq<Event>): System {
    if |events| == 0 then Init(u) else Apply(u, Run(u, events[..|events| - 1]), Last(events))
  }

  predicate Authentic(u: Setup, s: System, e: Envelope) {
    1 <= e.seqno <= |s.src.all| && e == EnvelopeAt(u.h, u.source, s.src.all, e.seqno) && e.seqno !in s.dropped
  }

  ghost predicate Inv(u: Setup, s: System) {
    && s.src.cp == Checkpoint(u.source, |s.src.all|, Chain(u.h, u.source, s.src.all, |s.src.all|))
    && (forall i | 0 <= i < |s.src.queue| :: Authentic(u, s, s.src.queue[i]))
    && (forall m | m in s.sent :: Authentic(u, s, m.envelope))
    && (forall k | k in s.dropped :: s.recv.cp.seqno < k <= |s.src.all|)
    && s.recv.cp.seqno <= |s.src.all|
    && s.recv.applied == s.src.all[..s.recv.cp.seqno]
    && s.recv.cp.head == Chain(u.h, u.source, s.src.all, s.recv.cp.seqno)
    && (forall c | c in s.issued :: IssuedOk(u, s, c))
  }

  predicate IssuedOk(u: Setup, s: System, c: (Checkpoint, seq<Mutation>)) {
    c.1 <= s.src.all && c.0 == Checkpoint(u.source, |c.1|, Chain(u.h, u.source, c.1, |c.1|))
  }

  lemma AuthenticKept(u: Setup, s: System, m: Mutation, e: Envelope)
    requires Inv(u, s) && Authentic(u, s, e)
    ensures Authentic(u, Apply(u, s, Write(m)), e)
  {
    ChainGrows(u.h, u.source, s.src.all, m, e.seqno);
    ChainGrows(u.h, u.source, s.src.all, m, e.seqno - 1);
  }

  /** The new envelope, if it is queued, continues the chain. */
  lemma WriteQueued(u: Setup, s: System, m: Mutation)
    requires Inv(u, s)
    ensures var t := Apply(u, s, Write(m));
            && t.src.cp == Checkpoint(u.source, |t.src.all|, Chain(u.h, u.source, t.src.all, |t.src.all|))
            && forall i | 0 <= i < |t.src.queue| :: Authentic(u, t, t.src.queue[i])
  {
    var t := Apply(u, s, Write(m));
    ChainGrows(u.h, u.source, s.src.all, m, |s.src.all|);
    forall i | 0 <= i < |t.src.queue|
      ensures Authentic(u, t, t.src.queue[i])
    {
      if i < |s.src.queue| {
        AuthenticKept(u, s, m, s.src.queue[i]);
      }
    }
  }

  lemma WriteKeeps(u: Setup, s: System, m: Mutation)
    requires Inv(u, s)
    ensures Inv(u, Apply(u, s, Write(m)))
  {
    var t := Apply(u, s, Write(m));
    WriteQueued(u, s, m);
    ChainGrows(u.h, u.source, s.src.all, m, s.recv.cp.seqno);
    forall x | x in t.sent
      ensures Authentic(u, t, x.envelope)
    {
      AuthenticKept(u, s, m, x.envelope);
    }
    forall c | c in t.issued
      ensures IssuedOk(u, t, c)
    {
      assert IssuedOk(u, s, c);
    }
  }

  lemma DeliverKeeps(u: Setup, s: System, msg: Message, now: int, fate: Fate)
    requires Inv(u, s)
    ensures Inv(u, Apply(u, s, Deliver(msg, now, fate)))
  {
    var t := Apply(u, s, Deliver(msg, now, fate));
    if msg in s.sent {
      assert Authentic(u, s, msg.envelope);
      if t.recv.cp != s.recv.cp {
        assert t.recv.applied == s.src.all[..msg.envelope.seqno];
      }
    }
    forall x | Authentic(u, s, x) ensures Authentic(u, t, x) { }
    forall c | c in t.issued ensures IssuedOk(u, t, c) { assert IssuedOk(u, s, c); }
  }

  lemma QuietKeeps(u: Setup, s: System, ev: Event)
    requires Inv(u, s) && (ev.Send? || ev.Dequeue? || ev.DrainEnds? || ev.Issue?)
    ensures Inv(u, Apply(u, s, ev))
  {
    var t := Apply(u, s, ev);
    forall x | Authentic(u, s, x) ensures Authentic(u, t, x) { }
    forall i | 0 <= i < |t.src.queue|
      ensures Authentic(u, t, t.src.queue[i])
    {
      if ev.Dequeue? && t != s {
        assert t.src.queue[i] == s.src.queue[i + 1];
      }
    }
    forall c | c in t.issued
      ensures IssuedOk(u, t, c)
    {
      if c in s.issued {
        assert IssuedOk(u, s, c);
      }
    }
  }

  lemma {:induction false} RunInv(u: Setup, events: seq<Event>)
    ensures Inv(u, Run(u, events))
  {
    if |events| > 0 {
      var s := Run(u, events[..|events| - 1]);
      RunInv(u, events[..|events| - 1]);
      match Last(events)
      case Write(m) => WriteKeeps(u, s, m);
      case Deliver(msg, now, fate) => DeliverKeeps(u, s, msg, now, fate);
      case _ => QuietKeeps(u, s, Last(events));
    }
  }

  /** What activate asks of a replica before it claims the fence. */
  predicate Converged(r: Receiver, durable: bool, required: Checkpoint) {
    ReceiverCheckpoint(r, durable) == Some(required)
  }

  /** If a replica converges to an issued checkpoint it has applied, in order and once each,
      exactly the mutations enqueued when that checkpoint was issued. */
  lemma PromotionIsComplete(u: Setup, events: seq<Event>, required: Checkpoint, enqueued: seq<Mutation>, durable: bool)
    requires var s := Run(u, events);
             (required, enqueued) in s.issued && Converged(s.recv, durable, required)
    ensures Run(u, events).recv.applied == enqueued
  {
    RunInv(u, events);
    var s := Run(u, events);
    assert IssuedOk(u, s, (required, enqueued));
  }

  /** A mutation dropped at the queue bound is never reached: the receiver's checkpoint stays
      below it, and the source issues no checkpoint from then on. */
  lemma DroppedNeverReached(u: Setup, events: seq<Event>, k: nat)
    requires k in Run(u, events).dropped
    ensures var s := Run(u, events);
            s.recv.cp.seqno < k && forall durable :: SourceCheckpoint(s.src, durable) == None
  {
    RunInv(u, events);
    DropLoses(u, events);
  }

  lemma {:induction false} DropLoses(u: Setup, events: seq<Event>)
    ensures var s := Run(u, events); s.dropped != {} ==> s.src.lost
  {
    if |events| > 0 {
      DropLoses(u, events[..|events| - 1]);
    }
  }

  // ── the classes ──

  /** The transport confirmed the envelope on some attempt. */
  ghost predicate Answered(push: (Envelope, nat) -> bool, e: Envelope) { exists a :: push(e, a) }

  ghost predicate AllAnswered(push: (Envelope, nat) -> bool, es: seq<Envelope>) {
    forall i | 0 <= i < |es| :: Answered(push, es[i])
  }

  lemma AnsweredNext(push: (Envelope, nat) -> bool, es: seq<Envelope>, e: Envelope, a: nat)
    requires AllAnswered(push, es) && push(e, a)
    ensures AllAnswered(push, es + [e])
  {
    assert Answered(push, e);
  }

  class ReplicatingStore {
    const h: Hash
    const maxQueue: nat
    var cp: Checkpoint
    var queue: seq<Envelope>
    var lost: bool
    var draining: bool
    ghost var all: seq<Mutation>

    ghost function State(): Source
      reads this
    {
      Source(cp, queue, lost, draining, all)
    }

    constructor (h: Hash, maxQueue: nat, stream: Stream)
      ensures this.h == h && this.maxQueue == maxQueue
      ensures State() == Source(Checkpoint(stream, 0, GENESIS), [], false, false, [])
    {
      this.h, this.maxQueue := h, maxQueue;
      cp, queue, lost, draining, all := Checkpoint(stream, 0, GENESIS), [], false, false, [];
    }

    method EnqueueMutation(m: Mutation)
      modifies this
      ensures State() == Enqueue(h, old(State()), maxQueue, m)
    {
      var prev, n := cp.head, cp.seqno + 1;
      var pending := Envelope(cp.stream, n, prev, h(cp.stream, n, prev, m), m);
      cp := Checkpoint(cp.stream, n, pending.head);
      all := all + [m];
      if |queue| >= maxQueue {
        lost := true;
        return;
      }
      queue := queue + [pending];
    }

    /** The writes that arrive while one answer is awaited. */
    method Arrive(ms: seq<Mutation>) returns (ghost added: seq<Envelope>)
      modifies this
      ensures queue == old(queue) + added && all == old(all) + ms && draining == old(draining)
      ensures old(lost) ==> lost
      ensures |added| <= |ms| && (!lost ==> |added| == |ms|)
    {
      added := [];
      for i := 0 to |ms|
        invariant queue == old(queue) + added && all == old(all) + ms[..i] && draining == old(draining)
        invariant old(lost) ==> lost
        invariant |added| <= i && (!lost ==> |added| == i)
      {
        if |queue| < maxQueue {
          added := added + [NextEnvelope(h, cp, ms[i])];
        }
        EnqueueMutation(ms[i]);
        assert ms[..i + 1] == ms[..i] + [ms[i]];
      }
      assert ms[..|ms|] == ms;
    }

    /** drain against a transport that answers at most `patience` times, with further writes
        arriving while each answer is awaited.  Only confirmed envelopes leave the queue, from
        its front and in order; nothing else is lost from it. */
    method Drain(push: (Envelope, nat) -> bool, arrivals: nat -> seq<Mutation>, patience: nat)
      returns (ghost sentOff: seq<Envelope>, ghost added: seq<Envelope>)
      modifies this
      ensures old(draining) ==> State() == old(State()) && sentOff == [] && added == []
      ensures !old(draining) ==> (draining <==> |queue| > 0)
      ensures sentOff + queue == old(queue) + added
      ensures (old(lost) ==> lost) && old(all) <= all
      ensures AllAnswered(push, sentOff)
    {
      sentOff, added := [], [];
      if draining {
        return;
      }
      draining := true;
      for a := 0 to patience
        invariant sentOff + queue == old(queue) + added && draining
        invariant (old(lost) ==> lost) && old(all) <= all
        invariant AllAnswered(push, sentOff)
      {
        if |queue| == 0 {
          break;
        }
        var pending := queue[0];
        ghost var more := Arrive(arrivals(a));
        Requeue(sentOff, queue, old(queue), added, more);
        added := added + more;
        if push(pending, a) {
          assert queue[0] == pending;
          AnsweredNext(push, sentOff, pending, a);
          sentOff := sentOff + [pending];
          assert [pending] + queue[1..] == queue;
          queue := queue[1..];
        }
      }
      if |queue| == 0 {
        draining := false;
      }
    }
  }

  lemma Requeue(sent: seq<Envelope>, queue: seq<Envelope>, start: seq<Envelope>, added: seq<Envelope>, more: seq<Envelope>)
    requires |more| <= |queue| && queue[|queue| - |more|..] == more
    requires sent + queue[..|queue| - |more|] == start + added
    ensures sent + queue == start + (added + more)
  {
    var before := queue[..|queue| - |more|];
    assert queue == before + more;
    assert sent + (before + more) == (sent + before) + more;
  }

  class ReplicaReceiver {
    const h: Hash
    const maxSkew: nat
    var cp: Checkpoint
    var lost: bool
    var ready: bool
    ghost var applied: seq<Mutation>

    ghost function State(): Receiver
      reads this
    {
      Receiver(cp, lost, ready, applied)
    }

    constructor (h: Hash, maxSkew: nat, stream: Stream)
      ensures this.h == h && this.maxSkew == maxSkew
      ensures State() == Receiver(Checkpoint(stream, 0, GENESIS), false, true, [])
    {
      this.h, this.maxSkew := h, maxSkew;
      cp, lost, ready, applied := Checkpoint(stream, 0, GENESIS), false, true, [];
    }

    method IngestEnvelope(m: Message, now: int, f: Fate) returns (ok: bool)
      modifies this
      ensures (State(), ok) == Ingest(h, maxSkew, old(State()), m, now, f)
    {
      var e := m.envelope;
      if m.sentAt < now - maxSkew || m.sentAt > now + maxSkew {
        return false;
      }
      if e.stream.id != cp.stream.id || e.stream.epoch != cp.stream.epoch {
        return false;
      }
      var expected := cp.seqno + 1;
      if e.seqno != expected {
        if e.seqno > expected {
          lost := true;
        }
        return false;
      }
      if e.prev != cp.head {
        lost := true;
        return false;
      }
      if e.head != h(e.stream, e.seqno, e.prev, e.mutation) || !f.unsealed {
        lost := true;
        return false;
      }
      if !f.usable {
        ready := false;
      }
      if !f.stored {
        lost := true;
        return false;
      }
      cp := Checkpoint(e.stream, e.seqno, e.head);
      applied := applied + [e.mutation];
      return true;
    }
  }

  // ── the fence ──

  class FencingStore {
    var record: Option<FenceRecord>

    constructor ()
      ensures record == None
    {
      record := None;
    }

    method ClaimFence(next: FenceRecord) returns (ok: bool)
      requires next.active
      modifies this
      ensures record == Claim(old(record), next)
      ensures ok <==> old(record).None? || old(record).value.fenceEpoch < next.fenceEpoch
    {
      if record.Some? && next.fenceEpoch <= record.value.fenceEpoch {
        return false;
      }
      record := Some(next);
      return true;
    }

    method ReleaseFence(nodeId: string, epoch: nat, commandId: string) returns (ok: bool)
      modifies this
      ensures record == Released(old(record), nodeId, epoch, commandId)
      ensures ok <==> record != old(record)
    {
      if record.None? || !record.value.active || record.value.nodeId != nodeId ||
         record.value.fenceEpoch != epoch || record.value.commandId != commandId {
        return false;
      }
      record := Some(record.value.(active := false));
      return true;
    }
  }

  function Released(r: Option<FenceRecord>, nodeId: string, epoch: nat, commandId: string): Option<FenceRecord> {
    if r.Some? && r.value.active && r.value.nodeId == nodeId && r.value.fenceEpoch == epoch && r.value.commandId == commandId
    then Some(r.value.(active := false)) else r
  }

  /** isWritable: the lease is unexpired and is the store's active record. */
  predicate Writable(lease: FenceRecord, record: Option<FenceRecord>, now: nat) {
    && lease.expiresAt > now && record.Some? && record.value.active
    && record.value == lease.(active := true)
  }

  datatype FenceStep = Claimed(next: FenceRecord) | Release(nodeId: string, epoch: nat, commandId: string)

  function FenceRun(r: Option<FenceRecord>, steps: seq<FenceStep>): Option<FenceRecord> {
    if |steps| == 0 then r
    else
      var before := FenceRun(r, steps[..|steps| - 1]);
      match Last(steps)
      case Claimed(next) => Claim(before, next)
      case Release(n, e, c) => Released(before, n, e, c)
  }

  /** A lease that was released, or overtaken by a higher epoch, is never writable again. */
  lemma {:induction false} LostForever(lease: FenceRecord, r: Option<FenceRecord>, steps: seq<FenceStep>, now: nat)
    requires r.Some? && lease.fenceEpoch <= r.value.fenceEpoch
    requires lease.fenceEpoch == r.value.fenceEpoch ==> !r.value.active
    ensures !Writable(lease, FenceRun(r, steps), now)
    ensures var t := FenceRun(r, steps);
            t.Some? && lease.fenceEpoch <= t.value.fenceEpoch &&
            (lease.fenceEpoch == t.value.fenceEpoch ==> !t.value.active)
  {
    if |steps| > 0 {
      LostForever(lease, r, steps[..|steps| - 1], now);
    }
  }

  // ── the controller ──

  datatype Role = Primary | Replica
  datatype CommandKind = ActivatePrimary | Promote | Demote
  datatype Command = Command(kind: CommandKind, nodeId: string, fenceEpoch: nat, expiresAt: nat, commandId: string,
                             required: Option<Checkpoint>)

  function LeaseOf(c: Command): FenceRecord { FenceRecord(c.nodeId, c.fenceEpoch, c.expiresAt, c.commandId, true) }

  /** A command this node may act on: for a replica, only at the required checkpoint. */
  predicate MayActivate(role: Role, nodeId: string, local: Option<Checkpoint>, c: Command) {
    && c.nodeId == nodeId
    && match role
       case Primary => c.kind == ActivatePrimary
       case Replica => c.kind == Promote && local.Some? && local == c.required && local.value.seqno >= 1
  }

  class Controller {
    const role: Role
    const nodeId: string
    const fence: FencingStore
    var lease: Option<Command>

    constructor (role: Role, nodeId: string, fence: FencingStore)
      ensures this.role == role && this.nodeId == nodeId && this.fence == fence && lease == None
    {
      this.role, this.nodeId, this.fence := role, nodeId, fence;
      lease := None;
    }

    /** Success means the node may act and its claim is now the store's record; a refused
        command leaves lease and fence as they were. */
    method Activate(c: Command, local: Option<Checkpoint>) returns (ok: bool)
      modifies this, fence
      ensures ok <==> MayActivate(role, nodeId, local, c) &&
                      (old(fence.record).None? || old(fence.record).value.fenceEpoch < c.fenceEpoch)
      ensures ok ==> lease == Some(c) && fence.record == Some(LeaseOf(c))
      ensures !ok ==> lease == old(lease) && fence.record == old(fence.record)
    {
      if c.nodeId != nodeId || (role == Primary && c.kind != ActivatePrimary) || (role == Replica && c.kind != Promote) {
        return false;
      }
      if role == Replica && (local.None? || c.required.None? || local.value.seqno < 1 || local.value != c.required.value) {
        return false;
      }
      ok := fence.ClaimFence(LeaseOf(c));
      if ok {
        lease := Some(c);
      }
    }

    method StepDown(c: Command) returns (ok: bool)
      modifies this, fence
      ensures ok <==> c.kind == Demote && c.nodeId == nodeId && old(lease).Some? &&
                      old(lease).value.fenceEpoch == c.fenceEpoch &&
                      Released(old(fence.record), nodeId, c.fenceEpoch, old(lease).value.commandId) != old(fence.record)
      ensures ok ==> && lease == None
                     && fence.record == Released(old(fence.record), nodeId, c.fenceEpoch, old(lease).value.commandId)
      ensures !ok ==> lease == old(lease) && fence.record == old(fence.record)
    {
      if c.kind != Demote || c.nodeId != nodeId || lease.None? || lease.value.fenceEpoch != c.fenceEpoch {
        return false;
      }
      ok := fence.ReleaseFence(nodeId, lease.value.fenceEpoch, lease.value.commandId);
      if ok {
        lease := None;
      }
    }

    method IsWritable(now: nat) returns (ok: bool)
      requires lease.Some? ==> lease.value.nodeId == nodeId
      ensures ok <==> lease.Some? && Writable(LeaseOf(lease.value), fence.record, now)
    {
      if lease.None? || lease.value.expiresAt <= now || fence.record.None? {
        return false;
      }
      var current := fence.record.value;
      return current.active && current.nodeId == nodeId && current.fenceEpoch == lease.value.fenceEpoch &&
             current.commandId == lease.value.commandId && current.expiresAt == lease.value.expiresAt &&
             current.expiresAt > now;
    }
  }

  // ── any number of controllers on one fence ──

  /** The shared record and the lease each controller holds; node ids need not be distinct. */
  datatype Fleet = Fleet(record: Option<FenceRecord>, leases: map<nat, Command>)

  datatype FleetEvent =
    | Activating(i: nat, role: Role, c: Command, local: Option<Checkpoint>)
    | SteppingDown(i: nat, c: Command)

  /** Controller i's activate succeeds. */
  predicate Activates(nodes: nat -> string, f: Fleet, e: FleetEvent) {
    && e.Activating? && MayActivate(e.role, nodes(e.i), e.local, e.c)
    && (f.record.None? || f.record.value.fenceEpoch < e.c.fenceEpoch)
  }

  predicate StepsDown(nodes: nat -> string, f: Fleet, e: FleetEvent) {
    && e.SteppingDown? && e.c.kind == Demote && e.c.nodeId == nodes(e.i)
    && e.i in f.leases && f.leases[e.i].fenceEpoch == e.c.fenceEpoch
    && Released(f.record, nodes(e.i), e.c.fenceEpoch, f.leases[e.i].commandId) != f.record
  }

  function FleetStep(nodes: nat -> string, f: Fleet, e: FleetEvent): Fleet {
    if Activates(nodes, f, e) then Fleet(Some(LeaseOf(e.c)), f.leases[e.i := e.c])
    else if StepsDown(nodes, f, e) then
      Fleet(Released(f.record, nodes(e.i), e.c.fenceEpoch, f.leases[e.i].commandId), f.leases - {e.i})
    else f
  }

  function FleetRun(nodes: nat -> string, f: Fleet, events: seq<FleetEvent>): Fleet {
    if |events| == 0 then f else FleetStep(nodes, FleetRun(nodes, f, events[..|events| - 1]), Last(events))
  }

  const NO_FLEET := Fleet(None, map[])

  predicate Writes(f: Fleet, i: nat, now: nat) {
    i in f.leases && Writable(LeaseOf(f.leases[i]), f.record, now)
  }

  /** No lease is ahead of the record, and no two are of one epoch. */
  predicate FleetInv(f: Fleet) {
    && (forall i | i in f.leases :: f.record.Some? && f.leases[i].fenceEpoch <= f.record.value.fenceEpoch)
    && (forall i, j | i in f.leases && j in f.leases && i != j :: f.leases[i].fenceEpoch != f.leases[j].fenceEpoch)
  }

  lemma FleetStepKeeps(nodes: nat -> string, f: Fleet, e: FleetEvent)
    requires FleetInv(f)
    ensures FleetInv(FleetStep(nodes, f, e))
    ensures f.record.Some? ==> FleetStep(nodes, f, e).record.Some? &&
                               f.record.value.fenceEpoch <= FleetStep(nodes, f, e).record.value.fenceEpoch
  {
  }

  lemma {:induction false} FleetRunInv(nodes: nat -> string, f: Fleet, events: seq<FleetEvent>)
    requires FleetInv(f)
    ensures FleetInv(FleetRun(nodes, f, events))
    ensures f.record.Some? ==> FleetRun(nodes, f, events).record.Some? &&
                               f.record.value.fenceEpoch <= FleetRun(nodes, f, events).record.value.fenceEpoch
  {
    if |events| > 0 {
      FleetRunInv(nodes, f, events[..|events| - 1]);
      FleetStepKeeps(nodes, FleetRun(nodes, f, events[..|events| - 1]), Last(events));
    }
  }

  /** Whatever is activated and stepped down in whatever order, no two controllers are writable
      at once, each by its own clock. */
  lemma OneWriter(nodes: nat -> string, events: seq<FleetEvent>, i: nat, j: nat, here: nat, there: nat)
    requires i != j
    ensures var f := FleetRun(nodes, NO_FLEET, events); !(Writes(f, i, here) && Writes(f, j, there))
  {
    FleetRunInv(nodes, NO_FLEET, events);
  }

  predicate NoneActivates(events: seq<FleetEvent>, i: nat) {
    forall k | 0 <= k < |events| :: !(events[k].Activating? && events[k].i == i)
  }

  /** A controller that does not activate keeps its lease or loses it. */
  lemma {:induction false} LeaseFades(nodes: nat -> string, f: Fleet, events: seq<FleetEvent>, i: nat)
    requires NoneActivates(events, i)
    ensures var g := FleetRun(nodes, f, events); i in g.leases ==> i in f.leases && g.leases[i] == f.leases[i]
  {
    if |events| > 0 {
      LeaseFades(nodes, f, events[..|events| - 1], i);
      assert !(Last(events).Activating? && Last(events).i == i);
    }
  }

  /** Once another controller has activated, the earlier one is not writable again until it
      activates again itself. */
  lemma OvertakenUntilReactivated(nodes: nat -> string, events: seq<FleetEvent>, e: FleetEvent, more: seq<FleetEvent>,
                                  i: nat, now: nat)
    requires Activates(nodes, FleetRun(nodes, NO_FLEET, events), e) && e.i != i && NoneActivates(more, i)
    ensures var f := FleetStep(nodes, FleetRun(nodes, NO_FLEET, events), e); !Writes(FleetRun(nodes, f, more), i, now)
  {
    var before := FleetRun(nodes, NO_FLEET, events);
    var f := FleetStep(nodes, before, e);
    FleetRunInv(nodes, NO_FLEET, events);
    FleetStepKeeps(nodes, before, e);
    FleetRunInv(nodes, f, more);
    LeaseFades(nodes, f, more, i);
  }
}
