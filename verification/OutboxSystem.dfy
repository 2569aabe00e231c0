/** Source, publishers and receiver of one stream as a transition system.  Publishers may
    stall, lose their lease to another, crash or repeat themselves; the network may deliver
    any record at any time, any number of times. */
module OutboxSystem {
  import opened Wrappers
  import opened OutboxLog

  datatype Status = Pending | Acked | Quarantined

  datatype Lease = Lease(token: string, until: nat)

  datatype Source<M> = Source(
    epoch: string, fence: Option<nat>, log: seq<Row<M>>, status: seq<Status>, halted: bool, lease: Option<Lease>)

  /** What the receiver signed about one record. */
  datatype Receipt = Receipt(epoch: string, seqno: nat, opDigest: string, decision: Decision)

  /** A row a publisher has been handed. */
  datatype Picked = Picked(token: string, seqno: nat)

  // ── source transactions ──

  datatype Refusal = NotProvisioned | StaleFence | NotWritable | LeaseLost | Backpressure | Malformed | Exhausted | Undelivered | BadReceipt

  function PendingCount(status: seq<Status>): nat {
    if |status| == 0 then 0
    else PendingCount(status[..|status| - 1]) + if Last(status) == Pending then 1 else 0
  }

  /** appendInTx; `writable` is the verdict of the source lease gate, `well` the sanitizer's. */
  function Append<M>(h: Hashes<M>, s: Source<M>, maxPending: nat, m: M, writable: bool, well: bool, fence: nat, key: string)
    : Result<Source<M>, Refusal>
  {
    if !(s.fence.Some?) then Err(NotProvisioned) else
    :- Need(s.fence.value == fence, StaleFence);
    :- Need(writable, NotWritable);
    :- Need(PendingCount(s.status) < maxPending, Backpressure);
    :- Need(|s.log| < MAX_SAFE, Exhausted);
    :- Need(well, Malformed);
    Ok(s.(log := s.log + [NextRow(h, s.log, s.epoch, fence, m, key)], status := s.status + [Pending]))
  }

  predicate Holds<M>(s: Source<M>, token: string) { s.lease.Some? && s.lease.value.token == token }

  /** The oldest unsettled row, as a sequence number. */
  function Oldest(status: seq<Status>, from: nat): (r: Option<nat>)
    requires from <= |status|
    ensures r.Some? ==> from < r.value <= |status| && status[r.value - 1] == Pending
    ensures r.Some? ==> forall i | from <= i < r.value - 1 :: status[i] != Pending
    ensures r.None? ==> forall i | from <= i < |status| :: status[i] != Pending
    decreases |status| - from
  {
    if from == |status| then None
    else if status[from] == Pending then Some(from + 1)
    else Oldest(status, from + 1)
  }

  /** The two settling updates touch a row only while it is unsettled and the lease is held. */
  predicate MaySettle<M>(s: Source<M>, token: string, seqno: nat) {
    Holds(s, token) && 1 <= seqno <= |s.status| && s.status[seqno - 1] == Pending
  }

  function Settle<M>(s: Source<M>, seqno: nat, to: Status): Source<M>
    requires 1 <= seqno <= |s.status|
  {
    s.(status := s.status[seqno - 1 := to])
  }

  predicate ReceiptMatches<M>(s: Source<M>, seqno: nat, receipt: Receipt)
    requires 1 <= seqno <= |s.log|
  {
    var rec := s.log[seqno - 1].record;
    receipt.epoch == rec.epoch && receipt.seqno == seqno && receipt.opDigest == rec.opDigest
  }

  // ── the system ──

  datatype System<M, S> = System(
    src: Source<M>, recv: Receiver<S>, now: nat, picked: set<Picked>, receipts: set<Receipt>)

  datatype Event<M> =
    | Tick(ms: nat)
    | SetSourceFence(f: Option<nat>) | SetReceiverFence(f: Option<nat>)
    | AppendRow(maxPending: nat, m: M, writable: bool, well: bool, fence: nat, key: string)
    | Acquire(token: string, until: nat) | Release(token: string)
    | Pick(token: string)
    | Deliver(rec: Record<M>, head: Head, verified: bool)
    | AckRow(token: string, seqno: nat, receipt: Receipt)
    | QuarantineRow(token: string, seqno: nat)   // a terminal decision or a terminal transport failure

  /** How a receiver answers one delivery. */
  type Decider<!M, !S> = (Receiver<S>, Record<M>, Head, bool) -> Decision

  /** A receiver applies only what it may, and calls a duplicate only what it has recorded. */
  ghost predicate Sensible<M(!new), S(!new)>(h: Hashes<M>, k: Machine<M, S>, decide: Decider<M, S>) {
    && (forall r, rec, head, ok :: decide(r, rec, head, ok) == Applied ==> ok && MayApply(h, k, r, rec, head))
    && (forall r, rec, head, ok :: decide(r, rec, head, ok) == DuplicateOk ==>
          (rec.epoch, rec.seqno) in r.applied && r.applied[(rec.epoch, rec.seqno)] == rec.opDigest)
  }

  function DeliverTo<M, S>(k: Machine<M, S>, decide: Decider<M, S>, s: System<M, S>, rec: Record<M>, head: Head,
                           verified: bool): System<M, S>
  {
    // the verifier accepts only committed source heads
    var ok := verified && Committed(s.src.log, head);
    var d := decide(s.recv, rec, head, ok);
    s.(recv := if d == Applied then AfterApply(k, s.recv, rec, head) else s.recv,
       receipts := s.receipts + {Receipt(rec.epoch, rec.seqno, rec.opDigest, d)})
  }

  function Apply<M, S>(h: Hashes<M>, k: Machine<M, S>, decide: Decider<M, S>, s: System<M, S>, e: Event<M>): System<M, S> {
    match e
    case Tick(ms) => s.(now := s.now + ms)
    case SetSourceFence(f) => s.(src := s.src.(fence := f))
    case SetReceiverFence(f) => s.(recv := s.recv.(fence := f))
    case AppendRow(maxPending, m, writable, well, fence, key) =>
      var r := Append(h, s.src, maxPending, m, writable, well, fence, key);
      if r.Ok? then s.(src := r.value) else s
    case Acquire(token, until) =>
      if s.src.lease.None? || s.src.lease.value.until < s.now then s.(src := s.src.(lease := Some(Lease(token, until))))
      else s
    case Release(token) =>
      if Holds(s.src, token) then s.(src := s.src.(lease := None)) else s
    case Pick(token) =>
      var next := Oldest(s.src.status, 0);
      if Holds(s.src, token) && next.Some? then s.(picked := s.picked + {Picked(token, next.value)}) else s
    case Deliver(rec, head, verified) => DeliverTo(k, decide, s, rec, head, verified)
    case AckRow(token, seqno, receipt) =>
      if Picked(token, seqno) in s.picked && receipt in s.receipts && MaySettle(s.src, token, seqno) &&
         seqno <= |s.src.log| && ReceiptMatches(s.src, seqno, receipt) && AckDecision(receipt.decision)
      then s.(src := Settle(s.src, seqno, Acked)) else s
    case QuarantineRow(token, seqno) =>
      if Picked(token, seqno) in s.picked && MaySettle(s.src, token, seqno)
      then s.(src := Settle(s.src, seqno, Quarantined).(halted := true)) else s
  }

  function Init<M, S>(k: Machine<M, S>, epoch: string): System<M, S> {
    System(Source(epoch, None, [], [], false, None), Receiver(epoch, None, 0, GENESIS, map[], k.init), 0, {}, {})
  }

  function Run<M, S>(h: Hashes<M>, k: Machine<M, S>, decide: Decider<M, S>, epoch: string, events: seq<Event<M>>)
    : System<M, S>
  {
    if |events| == 0 then Init(k, epoch)
    else Apply(h, k, decide, Run(h, k, decide, epoch, events[..|events| - 1]), Last(events))
  }

  // ── what every step keeps ──

  /** No unsettled row before a settled one. */
  predicate SettledBelow(status: seq<Status>, n: nat) {
    n <= |status| && forall i | 0 <= i < n :: status[i] != Pending
  }

  predicate SettledPrefix(status: seq<Status>) {
    forall j | 0 <= j < |status| && status[j] != Pending :: SettledBelow(status, j)
  }

  predicate PickOk(status: seq<Status>, p: Picked) { 1 <= p.seqno && SettledBelow(status, p.seqno - 1) }

  predicate Recorded<S>(r: Receiver<S>, epoch: string, seqno: nat, digest: string) {
    (epoch, seqno) in r.applied && r.applied[(epoch, seqno)] == digest
  }

  predicate ReceiptOk<S>(r: Receiver<S>, t: Receipt) {
    AckDecision(t.decision) ==> Recorded(r, t.epoch, t.seqno, t.opDigest)
  }

  predicate AckedApplied<M, S>(s: System<M, S>, i: nat)
    requires i < |s.src.log| && i < |s.src.status|
  {
    s.src.status[i] == Acked ==> Recorded(s.recv, s.src.log[i].record.epoch, i + 1, s.src.log[i].record.opDigest)
  }

  ghost predicate Inv<M(!new), S>(h: Hashes<M>, k: Machine<M, S>, s: System<M, S>) {
    && LogOk(h, s.src.log) && |s.src.status| == |s.src.log|
    && Mirrors(k, s.src.log, s.recv)
    && SettledPrefix(s.src.status)
    && (forall p | p in s.picked :: PickOk(s.src.status, p))
    && (forall t | t in s.receipts :: ReceiptOk(s.recv, t))
    && (forall i: nat | i < |s.src.log| :: AckedApplied(s, i))
  }

  lemma AppendKeeps<M(!new), S>(h: Hashes<M>, k: Machine<M, S>, s: System<M, S>, fence: nat, m: M, key: string)
    requires Inv(h, k, s)
    ensures var row := NextRow(h, s.src.log, s.src.epoch, fence, m, key);
            Inv(h, k, s.(src := s.src.(log := s.src.log + [row], status := s.src.status + [Pending])))
  {
    var row := NextRow(h, s.src.log, s.src.epoch, fence, m, key);
    var t := s.(src := s.src.(log := s.src.log + [row], status := s.src.status + [Pending]));
    AppendKeepsLog(h, s.src.log, s.src.epoch, fence, m, key);
    MirrorsGrow(k, s.src.log, s.recv, row);
    forall j | 0 <= j < |t.src.status| && t.src.status[j] != Pending
      ensures SettledBelow(t.src.status, j)
    {
      assert SettledBelow(s.src.status, j);
    }
    forall p | p in t.picked
      ensures PickOk(t.src.status, p)
    {
      assert PickOk(s.src.status, p);
    }
    forall i: nat | i < |t.src.log|
      ensures AckedApplied(t, i)
    {
      if i < |s.src.log| {
        assert AckedApplied(s, i);
      }
    }
  }

  lemma DeliverKeeps<M(!new), S(!new)>(h: Hashes<M>, k: Machine<M, S>, decide: Decider<M, S>, s: System<M, S>,
                                       rec: Record<M>, head: Head, verified: bool)
    requires Injective(h) && Sensible(h, k, decide) && Inv(h, k, s)
    ensures Inv(h, k, DeliverTo(k, decide, s, rec, head, verified))
  {
    var t := DeliverTo(k, decide, s, rec, head, verified);
    var d := decide(s.recv, rec, head, verified && Committed(s.src.log, head));
    if d == Applied {
      ApplyMirrors(h, k, s.src.log, s.recv, rec, head);
      assert (rec.epoch, rec.seqno) !in s.recv.applied;
    }
    forall key | key in s.recv.applied
      ensures key in t.recv.applied && t.recv.applied[key] == s.recv.applied[key]
    {
    }
    forall u | u in t.receipts
      ensures ReceiptOk(t.recv, u)
    {
      if u in s.receipts {
        assert ReceiptOk(s.recv, u);
      }
    }
    forall i: nat | i < |t.src.log|
      ensures AckedApplied(t, i)
    {
      assert AckedApplied(s, i);
    }
  }

  /** Settling a row whose predecessors are settled. */
  lemma SettleKeeps<M(!new), S>(h: Hashes<M>, k: Machine<M, S>, s: System<M, S>, seqno: nat, to: Status, halted: bool)
    requires Inv(h, k, s) && 1 <= seqno <= |s.src.status| && to != Pending
    requires SettledBelow(s.src.status, seqno - 1)
    requires to == Acked ==>
               Recorded(s.recv, s.src.log[seqno - 1].record.epoch, seqno, s.src.log[seqno - 1].record.opDigest)
    ensures Inv(h, k, s.(src := Settle(s.src, seqno, to).(halted := halted)))
  {
    var t := s.(src := Settle(s.src, seqno, to).(halted := halted));
    forall j | 0 <= j < |t.src.status| && t.src.status[j] != Pending
      ensures SettledBelow(t.src.status, j)
    {
      if j >= seqno {
        assert SettledBelow(s.src.status, j);
      }
    }
    forall p | p in t.picked
      ensures PickOk(t.src.status, p)
    {
      assert PickOk(s.src.status, p);
    }
    forall i: nat | i < |t.src.log|
      ensures AckedApplied(t, i)
    {
      assert AckedApplied(s, i);
    }
  }

  lemma StepKeeps<M(!new), S(!new)>(h: Hashes<M>, k: Machine<M, S>, decide: Decider<M, S>, s: System<M, S>, e: Event<M>)
    requires Injective(h) && Sensible(h, k, decide) && Inv(h, k, s)
    ensures Inv(h, k, Apply(h, k, decide, s, e))
  {
    match e
    case AppendRow(maxPending, m, writable, well, fence, key) => AppendKeeps(h, k, s, fence, m, key);
    case Deliver(rec, head, verified) => DeliverKeeps(h, k, decide, s, rec, head, verified);
    case AckRow(token, seqno, receipt) =>
      if Apply(h, k, decide, s, e) != s {
        assert PickOk(s.src.status, Picked(token, seqno)) && ReceiptOk(s.recv, receipt);
        SettleKeeps(h, k, s, seqno, Acked, s.src.halted);
      }
    case QuarantineRow(token, seqno) =>
      if Picked(token, seqno) in s.picked && MaySettle(s.src, token, seqno) {
        assert PickOk(s.src.status, Picked(token, seqno));
        SettleKeeps(h, k, s, seqno, Quarantined, true);
      }
    case _ => QuietKeeps(h, k, decide, s, e);
  }

  /** The steps that touch neither the log nor what was applied. */
  lemma QuietKeeps<M(!new), S>(h: Hashes<M>, k: Machine<M, S>, decide: Decider<M, S>, s: System<M, S>, e: Event<M>)
    requires Inv(h, k, s)
    requires e.Tick? || e.SetSourceFence? || e.SetReceiverFence? || e.Acquire? || e.Release? || e.Pick?
    ensures Inv(h, k, Apply(h, k, decide, s, e))
  {
    var t := Apply(h, k, decide, s, e);
    forall i: nat | i < t.recv.cpSeq
      ensures Took(k, t.src.log, t.recv, i)
    {
      assert Took(k, s.src.log, s.recv, i);
    }
    forall p | p in t.picked
      ensures PickOk(t.src.status, p)
    {
      if p in s.picked {
        assert PickOk(s.src.status, p);
      }
    }
    forall u | u in t.receipts
      ensures ReceiptOk(t.recv, u)
    {
      assert ReceiptOk(s.recv, u);
    }
    forall i: nat | i < |t.src.log|
      ensures AckedApplied(t, i)
    {
      assert AckedApplied(s, i);
    }
  }

  lemma {:induction false} RunInv<M(!new), S(!new)>(h: Hashes<M>, k: Machine<M, S>, decide: Decider<M, S>,
                                                     epoch: string, events: seq<Event<M>>)
    requires Injective(h) && Sensible(h, k, decide)
    ensures Inv(h, k, Run(h, k, decide, epoch, events))
  {
    if |events| > 0 {
      RunInv(h, k, decide, epoch, events[..|events| - 1]);
      StepKeeps(h, k, decide, Run(h, k, decide, epoch, events[..|events| - 1]), Last(events));
    }
  }

  // ── theorems over every run ──

  /** The applied history is a prefix of the source log by digest, the receiver's head is the
      source's head at that sequence, and the replica is the fold of exactly that prefix. */
  lemma EndToEnd<M(!new), S(!new)>(h: Hashes<M>, k: Machine<M, S>, decide: Decider<M, S>, epoch: string,
                                   events: seq<Event<M>>)
    requires Injective(h) && Sensible(h, k, decide)
    ensures var s := Run(h, k, decide, epoch, events);
            var log, r := s.src.log, s.recv;
            && r.cpSeq <= |log| && r.cpHead == HeadAt(log, r.cpSeq)
            && (forall key :: key in r.applied <==> key.0 == r.epoch && 1 <= key.1 <= r.cpSeq)
            && (forall key | key in r.applied :: 1 <= key.1 <= |log| && r.applied[key] == log[key.1 - 1].record.opDigest)
            && r.replica == Fold(k, log, r.cpSeq)
  {
    RunInv(h, k, decide, epoch, events);
    var s := Run(h, k, decide, epoch, events);
    Exactly(h, k, s);
  }

  lemma Exactly<M(!new), S>(h: Hashes<M>, k: Machine<M, S>, s: System<M, S>)
    requires Inv(h, k, s)
    ensures forall key :: key in s.recv.applied <==> key.0 == s.recv.epoch && 1 <= key.1 <= s.recv.cpSeq
    ensures forall key | key in s.recv.applied ::
              1 <= key.1 <= |s.src.log| && s.recv.applied[key] == s.src.log[key.1 - 1].record.opDigest
  {
    forall key: (string, nat)
      ensures key in s.recv.applied <==> key.0 == s.recv.epoch && 1 <= key.1 <= s.recv.cpSeq
    {
      if key.0 == s.recv.epoch && 1 <= key.1 <= s.recv.cpSeq {
        assert Took(k, s.src.log, s.recv, key.1 - 1);
        assert key == (s.recv.epoch, key.1);
      }
    }
    forall key | key in s.recv.applied
      ensures 1 <= key.1 <= |s.src.log| && s.recv.applied[key] == s.src.log[key.1 - 1].record.opDigest
    {
      RecordedIsLogged(k, s.src.log, s.recv, key);
    }
  }

  /** Settled rows are a prefix of the sequence, and every acknowledged row was applied with
      the same digest. */
  lemma PublisherOrdering<M(!new), S(!new)>(h: Hashes<M>, k: Machine<M, S>, decide: Decider<M, S>, epoch: string,
                                            events: seq<Event<M>>)
    requires Injective(h) && Sensible(h, k, decide)
    ensures var s := Run(h, k, decide, epoch, events);
            && |s.src.status| == |s.src.log|
            && (forall i, j | 0 <= i < j < |s.src.status| && s.src.status[j] != Pending :: s.src.status[i] != Pending)
            && (forall i: nat | i < |s.src.log| && s.src.status[i] == Acked ::
                  Recorded(s.recv, s.src.log[i].record.epoch, i + 1, s.src.log[i].record.opDigest))
  {
    RunInv(h, k, decide, epoch, events);
    var s := Run(h, k, decide, epoch, events);
    forall i, j | 0 <= i < j < |s.src.status| && s.src.status[j] != Pending
      ensures s.src.status[i] != Pending
    {
      assert SettledBelow(s.src.status, j);
    }
    forall i: nat | i < |s.src.log| && s.src.status[i] == Acked
      ensures Recorded(s.recv, s.src.log[i].record.epoch, i + 1, s.src.log[i].record.opDigest)
    {
      assert AckedApplied(s, i);
    }
  }

  /** Once every row is acknowledged both checkpoints are the same. */
  lemma AllAckedAgree<M(!new), S(!new)>(h: Hashes<M>, k: Machine<M, S>, decide: Decider<M, S>, epoch: string,
                                        events: seq<Event<M>>)
    requires Injective(h) && Sensible(h, k, decide)
    requires var s := Run(h, k, decide, epoch, events);
             forall i: nat | i < |s.src.status| :: s.src.status[i] == Acked
    ensures var s := Run(h, k, decide, epoch, events);
            s.recv.cpSeq == |s.src.log| && s.recv.cpHead == HeadAt(s.src.log, |s.src.log|)
  {
    RunInv(h, k, decide, epoch, events);
    var s := Run(h, k, decide, epoch, events);
    if |s.src.log| > 0 {
      assert AckedApplied(s, |s.src.log| - 1);
    }
  }

  // ── runs that reach a given log ──

  lemma RunNext<M, S>(h: Hashes<M>, k: Machine<M, S>, decide: Decider<M, S>, epoch: string, events: seq<Event<M>>,
                      e: Event<M>)
    ensures Run(h, k, decide, epoch, events + [e]) == Apply(h, k, decide, Run(h, k, decide, epoch, events), e)
  {
    assert (events + [e])[..|events + [e]| - 1] == events;
  }

  /** The log only grows. */
  lemma {:induction false} LogGrows<M, S>(h: Hashes<M>, k: Machine<M, S>, decide: Decider<M, S>, epoch: string,
                                          events: seq<Event<M>>, more: seq<Event<M>>)
    ensures Run(h, k, decide, epoch, events).src.log <= Run(h, k, decide, epoch, events + more).src.log
  {
    if |more| == 0 {
      assert events + more == events;
    } else {
      var init := more[..|more| - 1];
      LogGrows(h, k, decide, epoch, events, init);
      RunNext(h, k, decide, epoch, events + init, Last(more));
      assert events + more == (events + init) + [Last(more)];
    }
  }

  /** Fence 0 on both sides, then one append per mutation. */
  function Feed<M>(ms: seq<M>, maxPending: nat): seq<Event<M>> {
    if |ms| == 0 then [SetSourceFence(Some(0)), SetReceiverFence(Some(0))]
    else Feed(ms[..|ms| - 1], maxPending) + [AppendRow(maxPending, Last(ms), true, true, 0, "k")]
  }

  /** The outbox rows carry exactly these mutations. */
  ghost predicate Carries<M>(log: seq<Row<M>>, ms: seq<M>) {
    |log| == |ms| && forall i | 0 <= i < |log| :: log[i].record.mutation == ms[i]
  }

  predicate AtFenceZero<M>(log: seq<Row<M>>, epoch: string) {
    forall i | 0 <= i < |log| :: log[i].record.fence == 0 && log[i].record.epoch == epoch
  }

  /** Every mutation appended, none delivered yet. */
  ghost predicate Fed<M, S>(k: Machine<M, S>, s: System<M, S>, epoch: string, ms: seq<M>) {
    && s.src.fence == Some(0) && s.src.epoch == epoch && PendingCount(s.src.status) == |ms|
    && Carries(s.src.log, ms) && AtFenceZero(s.src.log, epoch)
    && s.recv == Receiver(epoch, Some(0), 0, GENESIS, map[], k.init)
  }

  lemma {:induction false} FeedRuns<M, S>(h: Hashes<M>, k: Machine<M, S>, decide: Decider<M, S>, epoch: string,
                                          ms: seq<M>, maxPending: nat)
    requires |ms| <= maxPending && |ms| <= MAX_SAFE
    ensures Fed(k, Run(h, k, decide, epoch, Feed(ms, maxPending)), epoch, ms)
  {
    if |ms| == 0 {
      var first: seq<Event<M>> := [] + [SetSourceFence(Some(0))];
      RunNext(h, k, decide, epoch, [], SetSourceFence(Some(0)));
      RunNext(h, k, decide, epoch, first, SetReceiverFence(Some(0)));
      assert Feed(ms, maxPending) == first + [SetReceiverFence(Some(0))];
    } else {
      var init := ms[..|ms| - 1];
      FeedRuns(h, k, decide, epoch, init, maxPending);
      RunNext(h, k, decide, epoch, Feed(init, maxPending), AppendRow(maxPending, Last(ms), true, true, 0, "k"));
      var s := Run(h, k, decide, epoch, Feed(init, maxPending));
      FedNext(h, k, s, epoch, init, Last(ms), maxPending);
      assert init + [Last(ms)] == ms;
    }
  }

  lemma FedNext<M, S>(h: Hashes<M>, k: Machine<M, S>, s: System<M, S>, epoch: string, ms: seq<M>, m: M, maxPending: nat)
    requires Fed(k, s, epoch, ms) && |ms| < maxPending && |ms| < MAX_SAFE
    ensures Append(h, s.src, maxPending, m, true, true, 0, "k").Ok?
    ensures Fed(k, s.(src := Append(h, s.src, maxPending, m, true, true, 0, "k").value), epoch, ms + [m])
  {
    var t := Append(h, s.src, maxPending, m, true, true, 0, "k").value;
    assert t.status[..|t.status| - 1] == s.src.status;
  }

  /** Delivering the next row, where the receiver applies it, moves its checkpoint by one. */
  lemma DeliverNext<M, S>(h: Hashes<M>, k: Machine<M, S>, decide: Decider<M, S>, epoch: string, events: seq<Event<M>>,
                          n: nat) returns (next: seq<Event<M>>)
    requires var s := Run(h, k, decide, epoch, events);
             n < |s.src.log| && s.src.log[n].record.seqno == n + 1 &&
             decide(s.recv, s.src.log[n].record, s.src.log[n].head, true) == Applied
    ensures var s, t := Run(h, k, decide, epoch, events), Run(h, k, decide, epoch, next);
            t.src == s.src && t.recv.cpSeq == n + 1 && t.recv.fence == s.recv.fence && t.recv.epoch == s.recv.epoch
  {
    var s := Run(h, k, decide, epoch, events);
    var row := s.src.log[n];
    assert Committed(s.src.log, row.head);
    next := events + [Deliver(row.record, row.head, true)];
    RunNext(h, k, decide, epoch, events, Deliver(row.record, row.head, true));
  }
}
