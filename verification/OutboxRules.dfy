/** When the outbox admits an append and which publisher may settle a row, in plain terms and
    over every run. */
module OutboxRules {
  import opened Wrappers
  import opened OutboxLog
  import opened OutboxSystem

  // ── appends ──

  /** The rows neither acknowledged nor quarantined. */
  function PendingRows(status: seq<Status>): set<int> { set i | 0 <= i < |status| && status[i] == Pending }

  lemma {:induction false} PendingCounted(status: seq<Status>)
    ensures |PendingRows(status)| == PendingCount(status)
  {
    if |status| > 0 {
      var n := |status| - 1;
      PendingCounted(status[..n]);
      assert PendingRows(status) == PendingRows(status[..n]) + if Last(status) == Pending then {n} else {};
    }
  }

  /** The row written for a mutation: next in sequence, at the fence it was admitted under, linked
      to the head before it. */
  predicate RowWritten<M(==)>(h: Hashes<M>, s: Source<M>, row: Row<M>, m: M, fence: nat, key: string) {
    && row.record.epoch == s.epoch && row.record.seqno == |s.log| + 1 && row.record.fence == fence
    && row.record.mutation == m && row.record.opDigest == h.op(s.epoch, |s.log| + 1, fence, m)
    && row.head.seqno == |s.log| + 1 && row.head.opDigest == row.record.opDigest && row.head.key == key
    && row.head.prev == (if |s.log| == 0 then GENESIS else s.log[|s.log| - 1].head.headDigest)
    && row.head.headDigest == h.head(|s.log| + 1, row.head.prev, row.record.opDigest, key)
  }

  /** Each refusal has its own condition, in the order of the checks; with none the row is
      written, pending, and nothing else changes. */
  lemma AppendOutcome<M>(h: Hashes<M>, s: Source<M>, maxPending: nat, m: M, writable: bool, well: bool, fence: nat,
                         key: string)
    ensures var r := Append(h, s, maxPending, m, writable, well, fence, key);
            if s.fence.None? then r == Err(NotProvisioned)
            else if s.fence != Some(fence) then r == Err(StaleFence)
            else if !writable then r == Err(NotWritable)
            else if |PendingRows(s.status)| >= maxPending then r == Err(Backpressure)
            else if |s.log| >= 9_007_199_254_740_991 then r == Err(Exhausted)
            else if !well then r == Err(Malformed)
            else r.Ok? && |r.value.log| == |s.log| + 1 && RowWritten(h, s, Last(r.value.log), m, fence, key) &&
                 r.value == s.(log := s.log + [Last(r.value.log)], status := s.status + [Pending])
  {
    PendingCounted(s.status);
  }

  /** Every append of a run is bounded by b. */
  predicate BoundedBy<M>(events: seq<Event<M>>, b: nat) {
    forall k | 0 <= k < |events| && events[k].AppendRow? :: events[k].maxPending <= b
  }

  lemma {:induction false} PendingAtMost<M(!new), S>(h: Hashes<M>, k: Machine<M, S>, d: Decider<M, S>, epoch: string,
                                                     events: seq<Event<M>>, b: nat)
    requires BoundedBy(events, b)
    ensures PendingCount(Run(h, k, d, epoch, events).src.status) <= b
  {
    if |events| > 0 {
      var n := |events| - 1;
      var init := events[..n];
      assert BoundedBy(init, b);
      PendingAtMost(h, k, d, epoch, init, b);
      PendingStep(h, k, d, Run(h, k, d, epoch, init), events[n], b);
    }
  }

  lemma PendingStep<M(!new), S>(h: Hashes<M>, k: Machine<M, S>, d: Decider<M, S>, s: System<M, S>, e: Event<M>, b: nat)
    requires PendingCount(s.src.status) <= b && (e.AppendRow? ==> e.maxPending <= b)
    ensures PendingCount(Apply(h, k, d, s, e).src.status) <= b
  {
    var t := Apply(h, k, d, s, e);
    if e.AppendRow? && t.src != s.src {
      assert (s.src.status + [Pending])[..|s.src.status|] == s.src.status;
    } else if (e.AckRow? || e.QuarantineRow?) && t.src.status != s.src.status {
      SettledFewer(s.src.status, e.seqno - 1, if e.AckRow? then Acked else Quarantined);
    }
  }

  lemma {:induction false} SettledFewer(status: seq<Status>, i: nat, to: Status)
    requires i < |status| && to != Pending
    ensures PendingCount(status[i := to]) <= PendingCount(status)
  {
    var n, next := |status| - 1, status[i := to];
    if i < n {
      SettledFewer(status[..n], i, to);
      assert next[..n] == status[..n][i := to];
    } else {
      assert next[..n] == status[..n];
    }
  }

  /** Backpressure: in no run do more rows wait than the largest bound asked for. */
  lemma BackpressureHolds<M(!new), S>(h: Hashes<M>, k: Machine<M, S>, d: Decider<M, S>, epoch: string,
                                      events: seq<Event<M>>, b: nat)
    requires BoundedBy(events, b)
    ensures |PendingRows(Run(h, k, d, epoch, events).src.status)| <= b
  {
    PendingAtMost(h, k, d, epoch, events, b);
    PendingCounted(Run(h, k, d, epoch, events).src.status);
  }

  // ── publishers ──

  /** A publisher's lease is not taken over before it has run out: any step leaves it, or is its
      own release. */
  lemma LeaseHeld<M, S>(h: Hashes<M>, k: Machine<M, S>, d: Decider<M, S>, s: System<M, S>, e: Event<M>)
    requires s.src.lease.Some? && s.now <= s.src.lease.value.until
    ensures var t := Apply(h, k, d, s, e);
            t.src.lease == s.src.lease || (t.src.lease == None && e == Release(s.src.lease.value.token))
  {
  }

  /** Nobody releases this token. */
  predicate Unreleased<M(==)>(events: seq<Event<M>>, token: string) {
    forall k | 0 <= k < |events| :: events[k] != Release(token)
  }

  function RunFrom<M, S>(h: Hashes<M>, k: Machine<M, S>, d: Decider<M, S>, s: System<M, S>, events: seq<Event<M>>)
    : System<M, S>
  {
    if |events| == 0 then s else Apply(h, k, d, RunFrom(h, k, d, s, events[..|events| - 1]), Last(events))
  }

  lemma ClockGrows<M, S>(h: Hashes<M>, k: Machine<M, S>, d: Decider<M, S>, s: System<M, S>, e: Event<M>)
    ensures s.now <= Apply(h, k, d, s, e).now
  {
  }

  /** So until it runs out or is released, whatever else happens the holder keeps it. */
  lemma {:induction false} LeaseKept<M, S>(h: Hashes<M>, k: Machine<M, S>, d: Decider<M, S>, s: System<M, S>,
                                           events: seq<Event<M>>)
    requires s.src.lease.Some? && Unreleased(events, s.src.lease.value.token)
    requires RunFrom(h, k, d, s, events).now <= s.src.lease.value.until
    ensures RunFrom(h, k, d, s, events).src.lease == s.src.lease
  {
    if |events| > 0 {
      var n := |events| - 1;
      var init := events[..n];
      ClockGrows(h, k, d, RunFrom(h, k, d, s, init), events[n]);
      assert Unreleased(init, s.src.lease.value.token);
      LeaseKept(h, k, d, s, init);
      LeaseHeld(h, k, d, RunFrom(h, k, d, s, init), events[n]);
    }
  }

  /** A row is settled only by the publisher that holds the lease and was handed the row, only
      from pending, and acknowledged only on the receiver's own receipt for it. */
  lemma SettledBy<M, S>(h: Hashes<M>, k: Machine<M, S>, d: Decider<M, S>, s: System<M, S>, e: Event<M>, i: nat)
    requires |s.src.status| == |s.src.log| && i < |s.src.status|
    requires var t := Apply(h, k, d, s, e); i < |t.src.status| && t.src.status[i] != s.src.status[i]
    ensures (e.AckRow? || e.QuarantineRow?) && e.seqno == i + 1
    ensures s.src.status[i] == Pending && Picked(e.token, i + 1) in s.picked
    ensures s.src.lease.Some? && s.src.lease.value.token == e.token
    ensures var t := Apply(h, k, d, s, e);
            if e.AckRow? then
              && t.src.status[i] == Acked && e.receipt in s.receipts && e.receipt.seqno == i + 1
              && e.receipt.opDigest == s.src.log[i].record.opDigest && e.receipt.epoch == s.src.log[i].record.epoch
              && (e.receipt.decision == Applied || e.receipt.decision == DuplicateOk)
            else t.src.status[i] == Quarantined && t.src.halted
  {
  }

  /** The lease is acquired exactly when there is none or it has run out, and released exactly by
      its own token. */
  lemma LeaseOutcome<M, S>(h: Hashes<M>, k: Machine<M, S>, d: Decider<M, S>, s: System<M, S>, token: string, until: nat)
    ensures Apply(h, k, d, s, Acquire(token, until)) ==
            if s.src.lease.Some? && s.now <= s.src.lease.value.until then s
            else s.(src := s.src.(lease := Some(Lease(token, until))))
    ensures Apply(h, k, d, s, Release(token)) ==
            if s.src.lease.Some? && s.src.lease.value.token == token then s.(src := s.src.(lease := None)) else s
  {
  }

  /** The holder's own picked, pending row. */
  predicate MayBeSettled<M, S>(s: System<M, S>, token: string, seqno: nat) {
    && 1 <= seqno <= |s.src.status| && s.src.status[seqno - 1] == Pending && Picked(token, seqno) in s.picked
    && s.src.lease.Some? && s.src.lease.value.token == token
  }

  /** And that is enough: with a receipt that acknowledges it such a row is acknowledged, and on a
      refusal it is quarantined and the stream halted. */
  lemma SettleOutcome<M, S>(h: Hashes<M>, k: Machine<M, S>, d: Decider<M, S>, s: System<M, S>, token: string, seqno: nat,
                            t: Receipt)
    requires |s.src.status| == |s.src.log|
    ensures Apply(h, k, d, s, AckRow(token, seqno, t)) ==
            if MayBeSettled(s, token, seqno) && t in s.receipts && t.epoch == s.src.log[seqno - 1].record.epoch &&
               t.seqno == seqno && t.opDigest == s.src.log[seqno - 1].record.opDigest &&
               (t.decision == Applied || t.decision == DuplicateOk)
            then s.(src := s.src.(status := s.src.status[seqno - 1 := Acked])) else s
    ensures Apply(h, k, d, s, QuarantineRow(token, seqno)) ==
            if MayBeSettled(s, token, seqno)
            then s.(src := s.src.(status := s.src.status[seqno - 1 := Quarantined], halted := true)) else s
  {
  }

  /** The stream is halted exactly when a row has been quarantined. */
  predicate HaltedRight<M>(s: Source<M>) { s.halted <==> exists i | 0 <= i < |s.status| :: s.status[i] == Quarantined }

  lemma HaltedStep<M, S>(h: Hashes<M>, k: Machine<M, S>, d: Decider<M, S>, s: System<M, S>, e: Event<M>)
    requires HaltedRight(s.src)
    ensures HaltedRight(Apply(h, k, d, s, e).src)
  {
    var t := Apply(h, k, d, s, e);
    if t.src.status != s.src.status {
      if e.AppendRow? {
        assert forall i | 0 <= i < |s.src.status| :: t.src.status[i] == s.src.status[i];
      } else {
        assert t.src.status == s.src.status[e.seqno - 1 := if e.AckRow? then Acked else Quarantined];
        assert e.QuarantineRow? ==> t.src.status[e.seqno - 1] == Quarantined;
        assert forall i | 0 <= i < |s.src.status| && i != e.seqno - 1 :: t.src.status[i] == s.src.status[i];
      }
    }
  }

  lemma {:induction false} HaltedIff<M(!new), S>(h: Hashes<M>, k: Machine<M, S>, d: Decider<M, S>, epoch: string,
                                                 events: seq<Event<M>>)
    ensures HaltedRight(Run(h, k, d, epoch, events).src)
  {
    if |events| > 0 {
      HaltedIff(h, k, d, epoch, events[..|events| - 1]);
      HaltedStep(h, k, d, Run(h, k, d, epoch, events[..|events| - 1]), Last(events));
    }
  }

  /** A publisher is handed exactly the oldest unsettled row, while it holds the lease. */
  lemma PickedIs<M, S>(h: Hashes<M>, k: Machine<M, S>, d: Decider<M, S>, s: System<M, S>, token: string)
    ensures var t := Apply(h, k, d, s, Pick(token));
            forall p | p in t.picked && p !in s.picked ::
              && p.token == token && s.src.lease.Some? && s.src.lease.value.token == token
              && 1 <= p.seqno <= |s.src.status| && s.src.status[p.seqno - 1] == Pending
              && forall i | 0 <= i < p.seqno - 1 :: s.src.status[i] != Pending
  {
  }
}
