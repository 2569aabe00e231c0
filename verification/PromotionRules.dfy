/** What a replica takes, when the source issues a checkpoint and who may write, in plain terms
    and over every run. */
module PromotionRules {
  import opened Wrappers
  import opened ControlModel
  import opened PromotionGate

  // ── the receiver ──

  /** Sent within the skew, and of the receiver's own stream and epoch. */
  predicate Addressed(maxSkew: nat, r: Receiver, m: Message, now: int) {
    && now - maxSkew <= m.sentAt <= now + maxSkew
    && m.envelope.stream.id == r.cp.stream.id && m.envelope.stream.epoch == r.cp.stream.epoch
  }

  /** The next envelope, linked to the checkpoint, with a head that recomputes. */
  predicate Continues(h: Hash, r: Receiver, e: Envelope) {
    e.seqno == r.cp.seqno + 1 && e.prev == r.cp.head && e.head == h(e.stream, e.seqno, e.prev, e.mutation)
  }

  /** A message is applied exactly when it is addressed, continues the chain, unseals and is
      stored.  Integrity is lost exactly on a gap, a broken link, or a mutation that cannot be
      unsealed or stored; a stale or foreign message changes nothing. */
  lemma IngestOutcome(h: Hash, maxSkew: nat, r: Receiver, m: Message, now: int, f: Fate)
    ensures var (t, ok) := Ingest(h, maxSkew, r, m, now, f);
            var e := m.envelope;
            && (ok <==> Addressed(maxSkew, r, m, now) && Continues(h, r, e) && f.unsealed && f.stored)
            && t.cp == (if ok then Checkpoint(e.stream, e.seqno, e.head) else r.cp)
            && t.applied == (if ok then r.applied + [e.mutation] else r.applied)
            && (t.lost <==> r.lost || (Addressed(maxSkew, r, m, now) && e.seqno > r.cp.seqno && !ok))
            && (t.ready <==> r.ready && (Addressed(maxSkew, r, m, now) && Continues(h, r, e) && f.unsealed ==> f.usable))
  {
  }

  /** A replica shows a checkpoint exactly with its integrity and its secrets intact. */
  lemma CheckpointShownIff(r: Receiver, durable: bool)
    ensures ReceiverCheckpoint(r, durable) == if !r.lost && r.ready && r.cp.seqno >= 1 && durable then Some(r.cp) else None
  {
  }

  function RunFrom(u: Setup, s: System, events: seq<Event>): System {
    if |events| == 0 then s else Apply(u, RunFrom(u, s, events[..|events| - 1]), Last(events))
  }

  /** A replica that lost integrity, or was given a secret it cannot use, never converges again. */
  lemma {:induction false} SpoiledForever(u: Setup, s: System, events: seq<Event>, durable: bool, required: Checkpoint)
    requires s.recv.lost || !s.recv.ready
    ensures var t := RunFrom(u, s, events); (t.recv.lost || !t.recv.ready) && !Converged(t.recv, durable, required)
  {
    if |events| > 0 {
      var t, e := RunFrom(u, s, events[..|events| - 1]), Last(events);
      SpoiledForever(u, s, events[..|events| - 1], durable, required);
      if e.Deliver? && e.msg in t.sent {
        IngestOutcome(u.h, u.maxSkew, t.recv, e.msg, e.now, e.fate);
      }
    }
  }

  // ── the source ──

  /** Exactly when a checkpoint is issued, and for what. */
  lemma IssuedIff(u: Setup, s: System, durable: bool)
    ensures var t := Apply(u, s, Issue(durable));
            t == if !s.src.lost && !s.src.draining && s.src.queue == [] && durable
                 then s.(issued := s.issued + {(s.src.cp, s.src.all)}) else s
  {
  }

  /** A write joins the chain behind everything before it; it is queued unless the queue is full,
      and then the source never issues a checkpoint again. */
  lemma EnqueueOutcome(h: Hash, s: Source, maxQueue: nat, m: Mutation)
    ensures var t := Enqueue(h, s, maxQueue, m);
            var e := Envelope(s.cp.stream, s.cp.seqno + 1, s.cp.head, h(s.cp.stream, s.cp.seqno + 1, s.cp.head, m), m);
            && t.cp == Checkpoint(s.cp.stream, s.cp.seqno + 1, e.head) && t.all == s.all + [m] && t.draining == s.draining
            && (if |s.queue| < maxQueue then t.queue == s.queue + [e] && t.lost == s.lost
                else t.queue == s.queue && t.lost)
  {
  }

  /** Where a mutation is: confirmed by the receiver, dropped, or still queued. */
  predicate Accounted(s: System, k: nat) {
    k in s.confirmed || k in s.dropped || exists i | 0 <= i < |s.src.queue| :: s.src.queue[i].seqno == k
  }

  ghost predicate AllAccounted(s: System) {
    && s.src.cp.seqno == |s.src.all|
    && (forall k: nat {:trigger Accounted(s, k)} | 1 <= k <= |s.src.all| :: Accounted(s, k))
    && (forall k | k in s.confirmed :: k <= s.recv.cp.seqno)
    && (s.dropped != {} ==> s.src.lost)
  }

  lemma AccountedStep(u: Setup, s: System, e: Event)
    requires AllAccounted(s)
    ensures AllAccounted(Apply(u, s, e))
  {
    var t := Apply(u, s, e);
    forall k: nat | 1 <= k <= |t.src.all|
      ensures Accounted(t, k)
    {
      if k <= |s.src.all| {
        assert Accounted(s, k);
        if k !in s.confirmed && k !in s.dropped {
          var i :| 0 <= i < |s.src.queue| && s.src.queue[i].seqno == k;
          QueueMoves(u, s, e, i);
        }
      } else if |s.src.queue| < u.maxQueue {
        assert t.src.queue[|s.src.queue|].seqno == k;
      }
    }
  }

  /** A queued envelope stays queued, or leaves as confirmed. */
  lemma QueueMoves(u: Setup, s: System, e: Event, i: nat)
    requires i < |s.src.queue|
    ensures Accounted(Apply(u, s, e), s.src.queue[i].seqno)
  {
    var t := Apply(u, s, e);
    if e.Dequeue? && t.src.queue != s.src.queue {
      if i > 0 {
        assert t.src.queue[i - 1] == s.src.queue[i];
      }
    } else {
      assert t.src.queue[i] == s.src.queue[i];
    }
  }

  lemma {:induction false} RunAccounted(u: Setup, events: seq<Event>)
    ensures AllAccounted(Run(u, events))
  {
    if |events| > 0 {
      RunAccounted(u, events[..|events| - 1]);
      AccountedStep(u, Run(u, events[..|events| - 1]), Last(events));
    }
  }

  /** A checkpoint is issued only when the replica has already applied every mutation behind it, in
      order. */
  lemma IssuedMeansApplied(u: Setup, events: seq<Event>, durable: bool)
    requires SourceCheckpoint(Run(u, events).src, durable).Some?
    ensures var s := Run(u, events); s.recv.applied == s.src.all && s.recv.cp.seqno == s.src.cp.seqno
  {
    RunInv(u, events);
    RunAccounted(u, events);
    var s := Run(u, events);
    if |s.src.all| > 0 {
      assert Accounted(s, |s.src.all|);
    }
    assert s.src.all[..|s.src.all|] == s.src.all;
  }

  // ── the fence ──

  /** A release frees exactly the active grant it names. */
  lemma ReleasedIff(r: Option<FenceRecord>, nodeId: string, epoch: nat, commandId: string)
    ensures var t := Released(r, nodeId, epoch, commandId);
            if r.Some? && r.value.active && r.value.nodeId == nodeId && r.value.fenceEpoch == epoch && r.value.commandId == commandId
            then t == Some(FenceRecord(nodeId, epoch, r.value.expiresAt, commandId, false)) else t == r
  {
  }

  /** A node may write exactly while its lease is unexpired and is, field for field, the store's
      active record. */
  lemma WritesIff(f: Fleet, i: nat, now: nat)
    ensures Writes(f, i, now) <==>
            && i in f.leases && f.record.Some? && f.record.value.active && now < f.leases[i].expiresAt
            && f.record.value.nodeId == f.leases[i].nodeId && f.record.value.fenceEpoch == f.leases[i].fenceEpoch
            && f.record.value.commandId == f.leases[i].commandId && f.record.value.expiresAt == f.leases[i].expiresAt
  {
  }

  /** The command an activation accepts: for this node, of the kind for its role, and for a replica
      at the very checkpoint it has reached. */
  predicate Ordered(node: string, role: Role, c: Command, local: Option<Checkpoint>) {
    && c.nodeId == node
    && (role == Primary ==> c.kind == ActivatePrimary)
    && (role == Replica ==> c.kind == Promote && local.Some? && c.required.Some? && local.value == c.required.value &&
                            local.value.seqno >= 1)
  }

  /** Step k gave controller i its lease. */
  predicate LeasedBy(nodes: nat -> string, events: seq<FleetEvent>, i: nat, c: Command, k: nat) {
    && k < |events| && events[k].Activating? && events[k].i == i && events[k].c == c
    && Ordered(nodes(i), events[k].role, c, events[k].local)
  }

  /** Whoever holds a lease was ordered to, at that step, in every run. */
  lemma {:induction false} LeasesOrdered(nodes: nat -> string, events: seq<FleetEvent>, i: nat)
    requires i in FleetRun(nodes, NO_FLEET, events).leases
    ensures exists k: nat :: LeasedBy(nodes, events, i, FleetRun(nodes, NO_FLEET, events).leases[i], k)
  {
    var n := |events| - 1;
    var init := events[..n];
    var f, g := FleetRun(nodes, NO_FLEET, init), FleetRun(nodes, NO_FLEET, events);
    if i in f.leases && g.leases[i] == f.leases[i] {
      LeasesOrdered(nodes, init, i);
      var k: nat :| LeasedBy(nodes, init, i, f.leases[i], k);
      assert LeasedBy(nodes, events, i, g.leases[i], k);
    } else {
      assert LeasedBy(nodes, events, i, g.leases[i], n);
    }
  }

  /** So a replica that may write was promoted at a checkpoint it had reached, by a command for its
      own node. */
  lemma WriterOrdered(nodes: nat -> string, events: seq<FleetEvent>, i: nat, now: nat)
    requires Writes(FleetRun(nodes, NO_FLEET, events), i, now)
    ensures var f := FleetRun(nodes, NO_FLEET, events);
            f.record.value.nodeId == nodes(i) && exists k: nat :: LeasedBy(nodes, events, i, f.leases[i], k)
  {
    LeasesOrdered(nodes, events, i);
  }

  /** An activation succeeds exactly when ordered and at a higher epoch than the record's. */
  lemma ActivatesIff(nodes: nat -> string, f: Fleet, e: FleetEvent)
    requires e.Activating?
    ensures FleetStep(nodes, f, e) ==
            if Ordered(nodes(e.i), e.role, e.c, e.local) && (f.record.None? || f.record.value.fenceEpoch < e.c.fenceEpoch)
            then Fleet(Some(FenceRecord(e.c.nodeId, e.c.fenceEpoch, e.c.expiresAt, e.c.commandId, true)), f.leases[e.i := e.c])
            else f
  {
  }

  /** A demotion succeeds exactly for this node's lease at its epoch whose fence is still that very
      grant; otherwise lease and record stay. */
  lemma StepDownOutcome(nodes: nat -> string, f: Fleet, e: FleetEvent)
    requires e.SteppingDown?
    ensures FleetStep(nodes, f, e) ==
            if e.c.kind == Demote && e.c.nodeId == nodes(e.i) && e.i in f.leases && f.leases[e.i].fenceEpoch == e.c.fenceEpoch &&
               f.record.Some? && f.record.value.active && f.record.value.nodeId == nodes(e.i) &&
               f.record.value.fenceEpoch == e.c.fenceEpoch && f.record.value.commandId == f.leases[e.i].commandId
            then Fleet(Some(f.record.value.(active := false)), f.leases - {e.i}) else f
  {
  }

  /** Stepping down takes writing from nobody else. */
  lemma StepDownHarmless(nodes: nat -> string, events: seq<FleetEvent>, e: FleetEvent, j: nat, now: nat)
    requires e.SteppingDown? && j != e.i && Writes(FleetRun(nodes, NO_FLEET, events), j, now)
    ensures Writes(FleetStep(nodes, FleetRun(nodes, NO_FLEET, events), e), j, now)
  {
    FleetRunInv(nodes, NO_FLEET, events);
  }

  /** And it does take writing from the node itself, whenever the command is for its own lease. */
  lemma StepDownStops(nodes: nat -> string, f: Fleet, e: FleetEvent, now: nat)
    requires e.SteppingDown? && Writes(f, e.i, now) && f.leases[e.i].nodeId == nodes(e.i)
    ensures !Writes(FleetStep(nodes, f, e), e.i, now) <==>
            e.c.kind == Demote && e.c.nodeId == nodes(e.i) && e.c.fenceEpoch == f.leases[e.i].fenceEpoch
  {
  }
}
