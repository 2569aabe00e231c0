/** The HOTP counter stream: its receiver's decision, that no counter is consumed twice, and
    exactly which committed rows the receiver takes in order. */
module HotpOutbox {
  import opened Wrappers
  import opened OutboxLog
  import opened OutboxSystem

  datatype Mutation = Mutation(tumbler: string, counter: nat)

  const MAX_COUNTER: nat := 0x7FFF_FFFF

  predicate Sane(m: Mutation) { 1 <= |m.tumbler| <= 512 && 1 <= m.counter <= MAX_COUNTER }

  /** Highest consumed counter per tumbler. */
  type Consumed = map<string, nat>

  predicate Fresh(s: Consumed, m: Mutation) { m.tumbler in s ==> s[m.tumbler] < m.counter }

  function Machinery(): Machine<Mutation, Consumed> {
    Machine(map[], (s, m) => Fresh(s, m), (s: Consumed, m: Mutation) => s[m.tumbler := m.counter])
  }

  /** verifyAndApplyTumblerInTx: the decision, in the order the checks are made. */
  function Decide(h: Hashes<Mutation>, r: Receiver<Consumed>, rec: Record<Mutation>, head: Head, verified: bool)
    : Decision
  {
    if !Sane(rec.mutation) then RejectUnsanitized
    else if !Genuine(h, rec, head) || !verified then RejectFork
    else if r.fence != Some(rec.fence) then RejectFence
    else if rec.epoch != r.epoch then RejectEpoch
    else if rec.seqno <= r.cpSeq then
      if (rec.epoch, rec.seqno) !in r.applied then RejectStale
      else if r.applied[(rec.epoch, rec.seqno)] == rec.opDigest then DuplicateOk
      else RejectFork
    else if rec.seqno > r.cpSeq + 1 then RejectGap
    else if head.prev != r.cpHead || !Fresh(r.replica, rec.mutation) then RejectFork
    else Applied
  }

  function Decider(h: Hashes<Mutation>): OutboxSystem.Decider<Mutation, Consumed> {
    (r, rec, head, ok) => Decide(h, r, rec, head, ok)
  }

  lemma DeciderSensible(h: Hashes<Mutation>)
    ensures Sensible(h, Machinery(), Decider(h))
  {
  }

  /** A tumbler name and a counter in range. */
  predicate WellNamed(m: Mutation) { 1 <= |m.tumbler| <= 512 && 1 <= m.counter <= 2_147_483_647 }

  /** Digests recompute, the head binds the record, and its signature verifies. */
  predicate Authentic(h: Hashes<Mutation>, rec: Record<Mutation>, head: Head, verified: bool) {
    && verified && rec.opDigest == h.op(rec.epoch, rec.seqno, rec.fence, rec.mutation)
    && head.seqno == rec.seqno && head.opDigest == rec.opDigest
    && head.headDigest == h.head(rec.seqno, head.prev, rec.opDigest, head.key)
  }

  /** Each decision has its own exact condition. */
  lemma DecisionTable(h: Hashes<Mutation>, r: Receiver<Consumed>, rec: Record<Mutation>, head: Head, verified: bool)
    ensures var d, m, key := Decide(h, r, rec, head, verified), rec.mutation, (rec.epoch, rec.seqno);
            var here := WellNamed(m) && Authentic(h, rec, head, verified) && r.fence == Some(rec.fence) && rec.epoch == r.epoch;
            && (d == RejectUnsanitized <==> !WellNamed(m))
            && (d == RejectFence <==> WellNamed(m) && Authentic(h, rec, head, verified) && r.fence != Some(rec.fence))
            && (d == RejectEpoch <==>
                  WellNamed(m) && Authentic(h, rec, head, verified) && r.fence == Some(rec.fence) && rec.epoch != r.epoch)
            && (d == RejectStale <==> here && rec.seqno <= r.cpSeq && key !in r.applied)
            && (d == DuplicateOk <==> here && rec.seqno <= r.cpSeq && key in r.applied && r.applied[key] == rec.opDigest)
            && (d == RejectGap <==> here && rec.seqno > r.cpSeq + 1)
            && (d == Applied <==>
                  && here && rec.seqno == r.cpSeq + 1 && head.prev == r.cpHead
                  && (m.tumbler !in r.replica || r.replica[m.tumbler] < m.counter))
  {
  }

  function Hotp(h: Hashes<Mutation>, epoch: string, events: seq<Event<Mutation>>): System<Mutation, Consumed> {
    Run(h, Machinery(), Decider(h), epoch, events)
  }

  /** The high-water mark covers every counter applied so far. */
  lemma {:induction false} HighWater(log: seq<Row<Mutation>>, r: Receiver<Consumed>, n: nat, i: nat)
    requires i < n <= |log| && forall j: nat | j < n :: Took(Machinery(), log, r, j)
    ensures var m, s := log[i].record.mutation, Fold(Machinery(), log, n);
            m.tumbler in s && m.counter <= s[m.tumbler]
  {
    assert Took(Machinery(), log, r, n - 1);
    if i < n - 1 {
      HighWater(log, r, n - 1, i);
    }
  }

  /** And it is no higher than one of them. */
  lemma {:induction false} HighWaterSource(log: seq<Row<Mutation>>, n: nat, tumbler: string) returns (i: nat)
    requires n <= |log| && tumbler in Fold(Machinery(), log, n)
    ensures i < n && log[i].record.mutation == Mutation(tumbler, Fold(Machinery(), log, n)[tumbler])
  {
    assert n > 0;
    if log[n - 1].record.mutation.tumbler == tumbler {
      i := n - 1;
    } else {
      i := HighWaterSource(log, n - 1, tumbler);
    }
  }

  /** In every run the applied counters of a tumbler strictly increase: none is consumed twice. */
  lemma CountersIncrease(h: Hashes<Mutation>, epoch: string, events: seq<Event<Mutation>>, i: nat, j: nat)
    requires Injective(h)
    requires i < j < Hotp(h, epoch, events).recv.cpSeq
    ensures var s := Hotp(h, epoch, events);
            && s.recv.cpSeq <= |s.src.log|
            && var a, b := s.src.log[i].record.mutation, s.src.log[j].record.mutation;
               a.tumbler == b.tumbler ==> a.counter < b.counter
  {
    DeciderSensible(h);
    RunInv(h, Machinery(), Decider(h), epoch, events);
    var s := Hotp(h, epoch, events);
    assert Took(Machinery(), s.src.log, s.recv, j);
    HighWater(s.src.log, s.recv, j, i);
  }

  /** Its counter exceeds every earlier counter of its tumbler. */
  predicate CounterAdvances(log: seq<Row<Mutation>>, n: nat)
    requires n < |log|
  {
    forall i | 0 <= i < n && log[i].record.mutation.tumbler == log[n].record.mutation.tumbler ::
      log[i].record.mutation.counter < log[n].record.mutation.counter
  }

  /** Any delivery of a committed row at an equal fence and epoch: applied rows are duplicates
      however often they come back, and rows ahead are gaps.  The append does not look at
      earlier counters, so the next row is applied exactly when its counter advances and is
      otherwise a fork, for which the publisher halts the stream. */
  lemma CommittedRowDecision(h: Hashes<Mutation>, epoch: string, events: seq<Event<Mutation>>, i: nat)
    requires Injective(h)
    requires var s := Hotp(h, epoch, events);
             i < |s.src.log| &&
             var rec := s.src.log[i].record;
             Sane(rec.mutation) && s.recv.fence == Some(rec.fence) && s.recv.epoch == rec.epoch
    ensures var s := Hotp(h, epoch, events);
            var row := s.src.log[i];
            Decide(h, s.recv, row.record, row.head, true) ==
            if i < s.recv.cpSeq then DuplicateOk
            else if i > s.recv.cpSeq then RejectGap
            else if CounterAdvances(s.src.log, i) then Applied
            else RejectFork
  {
    DeciderSensible(h);
    RunInv(h, Machinery(), Decider(h), epoch, events);
    var s := Hotp(h, epoch, events);
    assert RowOk(h, s.src.log, i);
    if i < s.recv.cpSeq {
      assert Took(Machinery(), s.src.log, s.recv, i);
    } else if i == s.recv.cpSeq {
      FreshIff(s.src.log, s.recv);
    }
  }

  /** A row whose counter does not advance is never passed: in every continuation of the run
      the receiver's checkpoint stays before it. */
  lemma ForkBlocks(h: Hashes<Mutation>, epoch: string, events: seq<Event<Mutation>>, more: seq<Event<Mutation>>, i: nat)
    requires Injective(h)
    requires i < |Hotp(h, epoch, events).src.log| && !CounterAdvances(Hotp(h, epoch, events).src.log, i)
    ensures Hotp(h, epoch, events + more).recv.cpSeq <= i
  {
    DeciderSensible(h);
    RunInv(h, Machinery(), Decider(h), epoch, events + more);
    LogGrows(h, Machinery(), Decider(h), epoch, events, more);
    var s := Hotp(h, epoch, events + more);
    if s.recv.cpSeq > i {
      AppliedAdvances(s.src.log, s.recv, i);
    }
  }

  lemma AppliedAdvances(log: seq<Row<Mutation>>, r: Receiver<Consumed>, i: nat)
    requires Mirrors(Machinery(), log, r) && i < r.cpSeq
    ensures CounterAdvances(log, i)
  {
    assert Took(Machinery(), log, r, i);
    forall j | 0 <= j < i && log[j].record.mutation.tumbler == log[i].record.mutation.tumbler
      ensures log[j].record.mutation.counter < log[i].record.mutation.counter
    {
      HighWater(log, r, i, j);
    }
  }

  /** Two appends of one counter and a delivery of the first: the second committed row is a
      fork, and no continuation gets past it. */
  lemma ForkReached(h: Hashes<Mutation>, epoch: string, m: Mutation) returns (events: seq<Event<Mutation>>)
    requires Injective(h) && Sane(m)
    ensures var s := Hotp(h, epoch, events);
            && |s.src.log| == 2 && s.src.log[0].record.mutation == m == s.src.log[1].record.mutation
            && s.recv.cpSeq == 1
            && Decide(h, s.recv, s.src.log[1].record, s.src.log[1].head, true) == RejectFork
    ensures forall more :: Hotp(h, epoch, events + more).recv.cpSeq <= 1
  {
    var k, d := Machinery(), Decider(h);
    var appended := Feed([m, m], 2);
    FeedRuns(h, k, d, epoch, [m, m], 2);
    DeciderSensible(h);
    RunInv(h, k, d, epoch, appended);
    CommittedRowDecision(h, epoch, appended, 0);
    assert RowOk(h, Run(h, k, d, epoch, appended).src.log, 0);
    events := DeliverNext(h, k, d, epoch, appended, 0);
    var log := Hotp(h, epoch, events).src.log;
    assert !CounterAdvances(log, 1) by {
      assert log[0].record.mutation.tumbler == log[1].record.mutation.tumbler;
    }
    CommittedRowDecision(h, epoch, events, 1);
    forall more
      ensures Hotp(h, epoch, events + more).recv.cpSeq <= 1
    {
      ForkBlocks(h, epoch, events, more, 1);
    }
  }

  /** OutboxSystem.EndToEnd for the counter stream. */
  lemma HotpEndToEnd(h: Hashes<Mutation>, epoch: string, events: seq<Event<Mutation>>)
    requires Injective(h)
    ensures var s := Hotp(h, epoch, events);
            && s.recv.cpSeq <= |s.src.log| && s.recv.cpHead == HeadAt(s.src.log, s.recv.cpSeq)
            && (forall key :: key in s.recv.applied <==> key.0 == s.recv.epoch && 1 <= key.1 <= s.recv.cpSeq)
            && (forall key | key in s.recv.applied ::
                  1 <= key.1 <= |s.src.log| && s.recv.applied[key] == s.src.log[key.1 - 1].record.opDigest)
  {
    DeciderSensible(h);
    EndToEnd(h, Machinery(), Decider(h), epoch, events);
  }

  /** OutboxSystem.PublisherOrdering and AllAckedAgree for the counter stream. */
  lemma HotpPublished(h: Hashes<Mutation>, epoch: string, events: seq<Event<Mutation>>)
    requires Injective(h)
    ensures var s := Hotp(h, epoch, events);
            && |s.src.status| == |s.src.log|
            && (forall i, j | 0 <= i < j < |s.src.status| && s.src.status[j] != Pending :: s.src.status[i] != Pending)
            && (forall i: nat | i < |s.src.log| && s.src.status[i] == Acked ::
                  Recorded(s.recv, s.src.log[i].record.epoch, i + 1, s.src.log[i].record.opDigest))
            && ((forall i: nat | i < |s.src.status| :: s.src.status[i] == Acked) ==>
                  s.recv.cpSeq == |s.src.log| && s.recv.cpHead == HeadAt(s.src.log, |s.src.log|))
  {
    DeciderSensible(h);
    PublisherOrdering(h, Machinery(), Decider(h), epoch, events);
    var s := Hotp(h, epoch, events);
    if forall i: nat | i < |s.src.status| :: s.src.status[i] == Acked {
      AllAckedAgree(h, Machinery(), Decider(h), epoch, events);
    }
  }

  lemma FreshIff(log: seq<Row<Mutation>>, r: Receiver<Consumed>)
    requires Mirrors(Machinery(), log, r) && r.cpSeq < |log|
    ensures Fresh(r.replica, log[r.cpSeq].record.mutation) <==> CounterAdvances(log, r.cpSeq)
  {
    var n, m := r.cpSeq, log[r.cpSeq].record.mutation;
    if Fresh(r.replica, m) {
      forall i | 0 <= i < n && log[i].record.mutation.tumbler == m.tumbler
        ensures log[i].record.mutation.counter < m.counter
      {
        HighWater(log, r, n, i);
      }
    } else {
      var i := HighWaterSource(log, n, m.tumbler);
    }
  }

  // ── the receiver's tables ──

  class ReceiverTables {
    const h: Hashes<Mutation>
    var epoch: string
    var fence: Option<nat>
    var cpSeq: nat
    var cpHead: string
    var applied: map<(string, nat), string>
    var consumed: Consumed

    function State(): Receiver<Consumed>
      reads this
    {
      Receiver(epoch, fence, cpSeq, cpHead, applied, consumed)
    }

    constructor (h: Hashes<Mutation>, epoch: string, fence: Option<nat>)
      ensures this.h == h && State() == Receiver(epoch, fence, 0, GENESIS, map[], map[])
    {
      this.h, this.epoch, this.fence := h, epoch, fence;
      cpSeq, cpHead, applied, consumed := 0, GENESIS, map[], map[];
    }

    method VerifyAndApply(rec: Record<Mutation>, head: Head, verified: bool) returns (d: Decision)
      modifies this`cpSeq, this`cpHead, this`applied, this`consumed
      ensures d == Decide(h, old(State()), rec, head, verified)
      ensures State() == if d == Applied then AfterApply(Machinery(), old(State()), rec, head) else old(State())
    {
      if !Sane(rec.mutation) {
        return RejectUnsanitized;
      }
      if h.op(rec.epoch, rec.seqno, rec.fence, rec.mutation) != rec.opDigest {
        return RejectFork;
      }
      if head.seqno != rec.seqno || head.opDigest != rec.opDigest ||
         h.head(head.seqno, head.prev, head.opDigest, head.key) != head.headDigest {
        return RejectFork;
      }
      if !verified {
        return RejectFork;
      }
      if fence.None? || rec.fence != fence.value {
        return RejectFence;
      }
      if rec.epoch != epoch {
        return RejectEpoch;
      }
      var key := (rec.epoch, rec.seqno);
      if rec.seqno <= cpSeq {
        if key in applied {
          return if applied[key] == rec.opDigest then DuplicateOk else RejectFork;
        }
        return RejectStale;
      }
      if rec.seqno > cpSeq + 1 {
        return RejectGap;
      }
      if head.prev != cpHead {
        return RejectFork;
      }
      var m := rec.mutation;
      if m.tumbler in consumed && m.counter <= consumed[m.tumbler] {
        return RejectFork;
      }
      consumed := consumed[m.tumbler := m.counter];
      applied := applied[key := rec.opDigest];
      cpSeq := rec.seqno;
      cpHead := head.headDigest;
      return Applied;
    }
  }

  // ── the source's tables and one uninterrupted drain ──

  /** What one delivery came back with. */
  datatype Outcome = TransientFailure | TerminalFailure | Answer(receipt: Receipt, authentic: bool)

  datatype Drain = Drain(published: nat, acked: nat, quarantined: nat, retriable: bool, halted: bool)

  predicate Terminal(d: Decision) {
    d == RejectFork || d == RejectStale || d == RejectUnsanitized || d == RejectEpoch
  }

  /** The answer acknowledges exactly this row. */
  predicate Acknowledges(o: Outcome, row: Row<Mutation>) {
    && o.Answer? && o.authentic && AckDecision(o.receipt.decision)
    && Matches(o.receipt, row.record)
  }

  predicate Matches(t: Receipt, rec: Record<Mutation>) {
    t.epoch == rec.epoch && t.seqno == rec.seqno && t.opDigest == rec.opDigest
  }

  predicate Refuses(o: Outcome, row: Row<Mutation>) {
    || o.TerminalFailure?
    || (o.Answer? && o.authentic && Matches(o.receipt, row.record) && Terminal(o.receipt.decision))
  }

  /** The first n rows from p on acknowledged, and if q the next one quarantined. */
  predicate Advanced(before: seq<Status>, after: seq<Status>, p: nat, n: nat, q: bool) {
    && |after| == |before| && p + n + (if q then 1 else 0) <= |before|
    && (forall i | 0 <= i < p :: after[i] == before[i])
    && (forall i | p <= i < p + n :: after[i] == Acked)
    && (q ==> after[p + n] == Quarantined)
    && (forall i | p + n + (if q then 1 else 0) <= i < |before| :: after[i] == before[i])
  }

  /** Exactly the first p rows are settled. */
  predicate SplitAt(status: seq<Status>, p: nat) {
    && p <= |status|
    && (forall i | 0 <= i < p :: status[i] != Pending)
    && (forall i | p <= i < |status| :: status[i] == Pending)
  }

  lemma NextIs(before: seq<Status>, after: seq<Status>, p: nat, n: nat)
    requires SplitAt(before, p) && Advanced(before, after, p, n, false)
    ensures Oldest(after, 0) == if p + n == |after| then None else Some(p + n + 1)
  {
    var o := Oldest(after, 0);
    assert p + n < |after| ==> after[p + n] == Pending;
    assert o.Some? ==> o.value - 1 >= p + n;
  }

  predicate AllAcknowledged(transport: Row<Mutation> -> Outcome, rows: seq<Row<Mutation>>, p: nat, n: nat) {
    p + n <= |rows| && forall i | p <= i < p + n :: Acknowledges(transport(rows[i]), rows[i])
  }

  class SourceTables {
    const h: Hashes<Mutation>
    const maxPending: nat
    var epoch: string
    var fence: Option<nat>
    var rows: seq<Row<Mutation>>
    var status: seq<Status>
    var halted: bool
    var lease: Option<Lease>

    function State(): Source<Mutation>
      reads this
    {
      Source(epoch, fence, rows, status, halted, lease)
    }

    constructor (h: Hashes<Mutation>, maxPending: nat, epoch: string)
      ensures this.h == h && this.maxPending == maxPending
      ensures State() == Source(epoch, None, [], [], false, None)
    {
      this.h, this.maxPending, this.epoch := h, maxPending, epoch;
      fence, rows, status, halted, lease := None, [], [], false, None;
    }

    method AppendInTx(m: Mutation, writable: bool, token: nat, key: string) returns (r: Result<Row<Mutation>, Refusal>)
      modifies this`rows, this`status
      ensures match Append(h, old(State()), maxPending, m, writable, Sane(m), token, key)
              case Ok(s) => State() == s && r == Ok(Last(s.log))
              case Err(e) => State() == old(State()) && r == Err(e)
    {
      if fence.None? {
        return Err(NotProvisioned);
      }
      if fence.value != token {
        return Err(StaleFence);
      }
      if !writable {
        return Err(NotWritable);
      }
      var pending := 0;
      for i := 0 to |status|
        invariant pending == PendingCount(status[..i])
        invariant rows == old(rows) && status == old(status)
      {
        assert status[..i + 1][..i] == status[..i];
        if status[i] == Pending {
          pending := pending + 1;
        }
      }
      assert status[..|status|] == status;
      if pending >= maxPending {
        return Err(Backpressure);
      }
      if |rows| >= MAX_SAFE {
        return Err(Exhausted);
      }
      if !Sane(m) {
        return Err(Malformed);
      }
      var prev := if |rows| == 0 then GENESIS else rows[|rows| - 1].head.headDigest;
      var n := |rows| + 1;
      var op := h.op(epoch, n, token, m);
      var row := Row(Record(epoch, n, token, op, m), Head(n, prev, op, key, h.head(n, prev, op, key)));
      rows := rows + [row];
      status := status + [Pending];
      return Ok(row);
    }

    /** The row with the least sequence that is neither acknowledged nor quarantined. */
    method NextDeliverable() returns (r: Option<nat>)
      ensures r == Oldest(status, 0)
    {
      for i := 0 to |status|
        invariant Oldest(status, 0) == Oldest(status, i)
      {
        if status[i] == Pending {
          return Some(i + 1);
        }
      }
      return None;
    }

    /** drainOnce; `held` tells whether the n-th look at the lease row still finds this
        publisher's token.  Rows leave strictly in order, acknowledged only on an authentic
        matching answer; the first refusal quarantines one row and halts; a lost lease ends the
        drain with no further write. */
    method DrainOnce(token: string, now: nat, until: nat, transport: Row<Mutation> -> Outcome, held: nat -> bool)
      returns (r: Result<Drain, Refusal>, ghost p: nat, ghost n: nat)
      requires |status| == |rows| && SettledPrefix(status)
      modifies this`status, this`halted, this`lease
      ensures SplitAt(old(status), p)
      ensures Advanced(old(status), status, p, n, r.Ok? && r.value.quarantined > 0)
      ensures AllAcknowledged(transport, rows, p, n)
      ensures old(halted) ==> r == Ok(Drain(0, 0, 0, false, true)) && halted && n == 0
      ensures !old(halted) ==> (halted <==> r.Ok? && r.value.quarantined == 1)
      ensures r.Ok? ==> r.value.acked == n && r.value.quarantined <= 1 && r.value.halted == halted
      ensures r.Ok? && r.value.quarantined == 1 ==> Refuses(transport(rows[p + n]), rows[p + n])
      ensures r.Ok? && !r.value.retriable && !r.value.halted ==> p + n == |rows|
      // a refusal of the row it stopped at halts the stream, unless the lease was lost
      ensures (!old(halted) && Free(old(lease), now) && r != Err(LeaseLost) && p + n < |rows| &&
               WellStored(h, rows[p + n]) && Refuses(transport(rows[p + n]), rows[p + n])) ==> halted
    {
      p := Settled(status);
      n := 0;
      if halted {
        return Ok(Drain(0, 0, 0, false, true)), p, n;
      }
      if lease.Some? && lease.value.until >= now {
        return Ok(Drain(0, 0, 0, true, false)), p, n;
      }
      lease := Some(Lease(token, until));
      var published, acked, stop, at, looks := DrainRows(transport, held, p);
      n := acked;
      if stop == Some(Throw(LeaseLost)) || (stop == Some(Refuse) && !held(looks)) {
        return Err(LeaseLost), p, n;   // the release finds another token and leaves it
      }
      lease := None;
      if stop.None? {
        return Ok(Drain(published, acked, 0, false, false)), p, n;
      }
      if stop.value == Refuse {
        AdvanceOne(old(status), status, p, n);
        status := status[at := Quarantined];
        halted := true;
        return Ok(Drain(published, acked, 1, false, true)), p, n;
      }
      if stop.value == Retry {
        return Ok(Drain(published, acked, 0, true, false)), p, n;
      }
      return Err(stop.value.error), p, n;
    }

    /** Deliver and acknowledge rows in order until none is left, one is not acknowledged, or
        the lease is lost. */
    method DrainRows(transport: Row<Mutation> -> Outcome, held: nat -> bool, ghost p: nat)
      returns (published: nat, acked: nat, stop: Option<Step>, at: nat, looks: nat)
      requires |status| == |rows| && SplitAt(status, p)
      modifies this`status
      ensures Advanced(old(status), status, p, acked, false) && AllAcknowledged(transport, rows, p, acked)
      ensures stop.None? ==> p + acked == |rows|
      ensures stop.Some? && stop.value != Throw(LeaseLost) ==>
                && at == p + acked < |rows| && stop.value != Acknowledge
                && stop.value == Consider(h, rows[at], transport(rows[at]))
    {
      published, acked, at, looks := 0, 0, 0, 0;
      while true
        invariant |status| == |rows| && Advanced(old(status), status, p, acked, false)
        invariant AllAcknowledged(transport, rows, p, acked)
        decreases |rows| - acked
      {
        if !held(looks) {
          stop := Some(Throw(LeaseLost));
          return;
        }
        looks := looks + 1;
        var next := NextDeliverable();
        NextIs(old(status), status, p, acked);
        if next.None? {
          stop := None;
          return;
        }
        at := next.value - 1;
        var o := transport(rows[at]);
        var step := Consider(h, rows[at], o);
        published := published + if o.Answer? then 1 else 0;
        if step != Acknowledge {
          stop := Some(step);
          return;
        }
        if !held(looks) {
          stop := Some(Throw(LeaseLost));
          return;
        }
        looks := looks + 1;
        AdvanceOne(old(status), status, p, acked);
        assert AllAcknowledged(transport, rows, p, acked + 1);
        status := status[at := Acked];
        acked := acked + 1;
      }
    }
  }

  /** No unexpired lease is in the way. */
  predicate Free(lease: Option<Lease>, now: nat) { lease.None? || lease.value.until < now }

  predicate WellStored(h: Hashes<Mutation>, row: Row<Mutation>) {
    Sane(row.record.mutation) && Genuine(h, row.record, row.head)
  }

  lemma AdvanceOne(before: seq<Status>, after: seq<Status>, p: nat, n: nat)
    requires Advanced(before, after, p, n, false) && p + n < |after|
    ensures Advanced(before, after[p + n := Acked], p, n + 1, false)
    ensures Advanced(before, after[p + n := Quarantined], p, n, true)
  {
  }

  datatype Step = Acknowledge | Retry | Refuse | Throw(error: Refusal)

  /** What the drain does about one row and its delivery. */
  function Consider(h: Hashes<Mutation>, row: Row<Mutation>, o: Outcome): (s: Step)
    ensures s == Acknowledge ==> Acknowledges(o, row)
    ensures s == Refuse <==> WellStored(h, row) && Refuses(o, row)
    ensures s != Throw(LeaseLost)
  {
    if !WellStored(h, row) then Throw(Malformed)
    else
      match o
      case TransientFailure => Throw(Undelivered)
      case TerminalFailure => Refuse
      case Answer(receipt, authentic) =>
        if !authentic || !Matches(receipt, row.record) then Throw(BadReceipt)
        else if AckDecision(receipt.decision) then Acknowledge
        else if Terminal(receipt.decision) then Refuse
        else Retry
  }

  /** A drain finds the lease free exactly when the stream's next acquisition gets it. */
  lemma FreeIsAcquirable(h: Hashes<Mutation>, s: System<Mutation, Consumed>, token: string, until: nat)
    requires s.src.lease != Some(Lease(token, until))
    ensures Free(s.src.lease, s.now) <==>
            Apply(h, Machinery(), Decider(h), s, Acquire(token, until)).src.lease == Some(Lease(token, until))
  {
  }

  /** Which answers end a drain: only an authentic answer to this very row counts; applied and
      duplicate acknowledge it, a gap or a fence mismatch leaves it for a later drain, and every
      other decision, like a terminal transport failure, refuses it for good. */
  lemma ConsiderTable(h: Hashes<Mutation>, row: Row<Mutation>, o: Outcome)
    requires WellStored(h, row)
    ensures var s := Consider(h, row, o);
            match o
            case TransientFailure => s == Throw(Undelivered)
            case TerminalFailure => s == Refuse
            case Answer(t, authentic) =>
              if !authentic || t.epoch != row.record.epoch || t.seqno != row.record.seqno || t.opDigest != row.record.opDigest
              then s == Throw(BadReceipt)
              else match t.decision
                   case Applied => s == Acknowledge
                   case DuplicateOk => s == Acknowledge
                   case RejectGap => s == Retry
                   case RejectFence => s == Retry
                   case _ => s == Refuse
  {
  }

  /** How many rows are settled. */
  ghost function Settled(status: seq<Status>): (p: nat)
    requires SettledPrefix(status)
    ensures SplitAt(status, p)
  {
    SettledTail(status);
    match Oldest(status, 0)
    case None => |status|
    case Some(n) => n - 1
  }

  lemma SettledTail(status: seq<Status>)
    requires SettledPrefix(status)
    ensures var o := Oldest(status, 0); SplitAt(status, if o.None? then |status| else o.value - 1)
  {
    var o := Oldest(status, 0);
    if o.Some? {
      forall i | o.value - 1 <= i < |status|
        ensures status[i] == Pending
      {
        assert status[i] != Pending ==> SettledBelow(status, i);
      }
    }
  }
}
