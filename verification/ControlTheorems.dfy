/** What holds in every state of every run of the control system. */
module ControlTheorems {
  import opened Wrappers
  import opened ControlModel
  import opened ControlSystem
  import opened CutoverShape
  import opened ControlInvariant

  /** Two active grants with different holders are never both unexpired on the control clock. */
  lemma WriterMutualExclusion(cfg: Config, s: System)
    requires Reachable(cfg, s)
    ensures forall i, j | 0 <= i < |s.db.lease| && 0 <= j < |s.db.lease| &&
                          s.db.lease[i].status == LeaseActive && s.db.lease[j].status == LeaseActive &&
                          s.db.lease[i].holder != s.db.lease[j].holder ::
              s.db.lease[i].maxExpiry <= s.now || s.db.lease[j].maxExpiry <= s.now
  {
    ReachableInv(cfg, s);
    forall i, j | 0 <= i < |s.db.lease| && 0 <= j < |s.db.lease| && s.db.lease[i].holder != s.db.lease[j].holder
      ensures s.db.lease[i].maxExpiry <= s.now || s.db.lease[j].maxExpiry <= s.now
    {
      assert i < j || j < i;
    }
  }

  /** No step, crash or retry rewrites history: every table only grows. */
  lemma {:induction false} HistoriesGrow(cfg: Config, s: System, more: seq<Event>)
    ensures Grows(s, Run(cfg, s, more))
  {
    if |more| > 0 {
      var init := more[..|more| - 1];
      HistoriesGrow(cfg, s, init);
      StepGrows(cfg, Run(cfg, s, init), Last(more));
    }
  }

  predicate Grows(s: System, t: System) { Extends(s.db, t.db) && s.now <= t.now }

  lemma StepGrows(cfg: Config, s: System, e: Event)
    ensures Grows(s, Apply(cfg, s, e))
  {
    match e
    case Begin(cmd, target) => BeginGrows(cfg, s, cmd, target);
    case Bind(cmd, target, fr, ok) => BindGrows(cfg, s, cmd, target, fr, ok);
    case Import(cmd, target) => ImportGrows(cfg, s, cmd, target);
    case Ratify(cmd, target, br, ok) => RatifyGrows(cfg, s, cmd, target, br, ok);
    case GoLive(cmd, target) => GoLiveGrows(cfg, s, cmd, target);
    case Abort(cmd, target, reason) => AbortGrows(cfg, s, cmd, target, reason);
    case Lease(row) => LeaseGrows(cfg, s, row);
    case Tx2(call, lag) => Tx2Grows(cfg, s, call, lag);
    case ActivateSrc(cmd, target, br, ok, valid, chain) => ActivateSrcGrows(cfg, s, cmd, target, br, ok, valid, chain);
    case _ => OthersGrow(cfg, s, e);
  }

  lemma BeginGrows(cfg: Config, s: System, cmd: string, target: nat)
    ensures Grows(s, Apply(cfg, s, Begin(cmd, target)))
  {
  }

  lemma BindGrows(cfg: Config, s: System, cmd: string, target: nat, fr: FrozenReceipt, ok: bool)
    ensures Grows(s, Apply(cfg, s, Bind(cmd, target, fr, ok)))
  {
  }

  lemma ImportGrows(cfg: Config, s: System, cmd: string, target: nat)
    ensures Grows(s, Apply(cfg, s, Import(cmd, target)))
  {
  }

  lemma RatifyGrows(cfg: Config, s: System, cmd: string, target: nat, br: FinalizedReceipt, ok: bool)
    ensures Grows(s, Apply(cfg, s, Ratify(cmd, target, br, ok)))
  {
  }

  lemma GoLiveGrows(cfg: Config, s: System, cmd: string, target: nat)
    ensures Grows(s, Apply(cfg, s, GoLive(cmd, target)))
  {
  }

  lemma AbortGrows(cfg: Config, s: System, cmd: string, target: nat, reason: string)
    ensures Grows(s, Apply(cfg, s, Abort(cmd, target, reason)))
  {
  }

  lemma LeaseGrows(cfg: Config, s: System, row: LeaseRow)
    ensures Grows(s, Apply(cfg, s, Lease(row)))
  {
  }

  lemma Tx2Grows(cfg: Config, s: System, call: Call, lag: nat)
    ensures Grows(s, Apply(cfg, s, Tx2(call, lag)))
  {
  }

  lemma ActivateSrcGrows(cfg: Config, s: System, cmd: string, target: nat, br: FinalizedReceipt, ok: bool,
                         valid: Grant -> bool, chain: seq<Grant>)
    ensures Grows(s, Apply(cfg, s, ActivateSrc(cmd, target, br, ok, valid, chain)))
  {
  }

  lemma OthersGrow(cfg: Config, s: System, e: Event)
    requires e.Tick? || e.ProvisionA? || e.ProvisionB? || e.ProvisionC? || e.Tx1? || e.ClaimRedis? || e.ReadBack?
    ensures Grows(s, Apply(cfg, s, e))
  {
  }

  /** The activation ledger: epochs strictly increase, each activation has an ACTIVE cutover
      of its own command, and every skipped epoch has exactly one terminal row, ABORTED. */
  lemma ActivationLedger(cfg: Config, s: System)
    requires Reachable(cfg, s)
    ensures var c := s.db;
            && (forall i, j | 0 <= i < j < |c.act| :: c.act[i].epoch < c.act[j].epoch)
            && (forall i | 0 <= i < |c.act| :: WentLive(c.cut, c.act[i]))
            && (forall i: nat, e | i < |c.act| && PrevEpoch(c.act, i) < e < c.act[i].epoch ::
                  TerminalsAt(c.cut, e) == [Aborted])
  {
    ReachableInv(cfg, s);
    var c := s.db;
    forall i, j | 0 <= i < j < |c.act|
      ensures c.act[i].epoch < c.act[j].epoch
    {
      LedgerIncreases(c, i, j);
    }
    forall i: nat | i < |c.act|
      ensures WentLive(c.cut, c.act[i])
    {
      assert LedgerRow(c.cut, c.act, i);
    }
    forall i: nat, e | i < |c.act| && PrevEpoch(c.act, i) < e < c.act[i].epoch
      ensures TerminalsAt(c.cut, e) == [Aborted]
    {
      assert LedgerRow(c.cut, c.act, i);
    }
  }

  lemma {:induction false} LedgerIncreases(c: Control, i: nat, j: nat)
    requires LedgerInv(c) && i < j < |c.act|
    ensures c.act[i].epoch < c.act[j].epoch
  {
    assert LedgerRow(c.cut, c.act, j);
    if i < j - 1 {
      LedgerIncreases(c, i, j - 1);
    }
  }

  function RedisEpoch(redis: Option<FenceRecord>): nat {
    if redis.None? then 0 else redis.value.fenceEpoch
  }

  /** The fence record and the signed witness never drift by more than the one claim in
      flight, and from FENCED on the record is the signed tuple. */
  lemma TwoResourceAgreement(cfg: Config, s: System)
    requires Reachable(cfg, s)
    ensures var w := WitnessEpoch(s.db);
            && w <= RedisEpoch(s.redis) <= w + 1
            && (RedisEpoch(s.redis) == w + 1 ==>
                  HeadIs(s.db.cut, SourceFenced, s.redis.value.commandId, w + 1))
            && (w >= 1 && RedisEpoch(s.redis) == w ==>
                  exists k | 0 <= k < |s.db.cut| ::
                    && s.db.cut[k].phase == Fenced && s.db.cut[k].epoch == w
                    && s.db.cut[k].evidence.FencedEv?
                    && RedisMatches(cfg, s.redis, s.db.cut[k].evidence.fence, s.db.cut[k].cmd))
  {
    ReachableInv(cfg, s);
    var w := WitnessEpoch(s.db);
    if w >= 1 && RedisEpoch(s.redis) == w {
      var k := FenceOf(s.db.cut, w);
      assert EvidenceFits(s.db.cut[k]);
    }
  }

  /** Every epoch the witness has reached was fenced by a FENCED row. */
  lemma {:induction false} FenceOf(cut: seq<CutRow>, w: nat) returns (k: nat)
    requires Shape(cut) && 1 <= w <= ImpliedWitness(cut)
    ensures k < |cut| && cut[k].phase == Fenced && cut[k].epoch == w
  {
    EpochPath(cut, w);
    var p := PhasesAt(cut, w);
    assert |p| >= 3 && p[2] == Fenced;
    k := PhaseSource(cut, w, Fenced);
  }

  lemma {:induction false} PhaseSource(cut: seq<CutRow>, e: nat, p: Phase) returns (k: nat)
    requires p in PhasesAt(cut, e)
    ensures k < |cut| && cut[k].epoch == e && cut[k].phase == p
  {
    if Last(cut).epoch == e && Last(cut).phase == p {
      k := |cut| - 1;
    } else {
      k := PhaseSource(cut[..|cut| - 1], e, p);
    }
  }

  // ── what a FENCED row proves ──

  /** The lease named by a FENCED row: the revocation that closed the epoch before, by its
      holder, sequence and digest, with the horizon of that epoch's grants. */
  predicate FencedLease(cfg: Config, lease: seq<LeaseRow>, row: CutRow)
    requires row.evidence.FencedEv?
  {
    var ev := row.evidence.fence;
    && 1 <= ev.grantSeq <= |lease|
    && lease[ev.grantSeq - 1].status == LeaseRevoked
    && lease[ev.grantSeq - 1].epoch + 1 == row.epoch
    && lease[ev.grantSeq - 1].holder == ev.holderNodeId
    && LeaseHeadDigest(cfg, lease[..ev.grantSeq]) == Some(ev.grantDigest)
    && (forall i | 0 <= i < |lease| && lease[i].epoch + 1 == row.epoch :: lease[i].maxExpiry <= ev.maxExpiryMs)
    && (forall i | ev.grantSeq <= i < |lease| :: lease[i].epoch >= row.epoch)
  }

  predicate LeaseBehind(cfg: Config, c: Control, i: nat)
    requires i < |c.cut|
  {
    c.cut[i].phase == Fenced ==> c.cut[i].evidence.FencedEv? && FencedLease(cfg, c.lease, c.cut[i])
  }

  predicate LeasesBehind(cfg: Config, c: Control) {
    forall i: nat {:trigger LeaseBehind(cfg, c, i)} | i < |c.cut| :: LeaseBehind(cfg, c, i)
  }

  /** The witness has reached every fenced epoch. */
  lemma FencedWitnessed(c: Control, i: nat)
    requires CutoverInv(c) && i < |c.cut| && c.cut[i].phase == Fenced
    ensures c.cut[i].epoch <= WitnessEpoch(c)
  {
    if i < |c.cut| - 1 {
      RowOrder(c.cut, i, |c.cut| - 1);
    }
  }

  lemma LeaseAppendKeeps(cfg: Config, lease: seq<LeaseRow>, row: LeaseRow, fenced: CutRow)
    requires fenced.evidence.FencedEv? && FencedLease(cfg, lease, fenced) && fenced.epoch <= row.epoch
    ensures FencedLease(cfg, lease + [row], fenced)
  {
    var ev := fenced.evidence.fence;
    assert (lease + [row])[..ev.grantSeq] == lease[..ev.grantSeq];
  }

  /** The row that Tx2 writes names the newest lease, a revocation of the epoch before. */
  lemma Tx2NamesLease(cfg: Config, s: System, call: Call, lag: nat)
    requires LeaseInv(s.db, s.now)
    requires AdvanceTx2(cfg, s.db, s.redis, s.now, s.now + lag, call).Ok?
    requires !HeadIs(s.db.cut, Fenced, call.cmd, call.target)
    ensures var d := AdvanceTx2(cfg, s.db, s.redis, s.now, s.now + lag, call).value;
            && d.lease == s.db.lease && |d.cut| == |s.db.cut| + 1 && d.cut[..|s.db.cut|] == s.db.cut
            && Last(d.cut).evidence.FencedEv? && FencedLease(cfg, d.lease, Last(d.cut))
  {
    assert s.db.lease[..|s.db.lease|] == s.db.lease;
  }

  lemma LeasesBehindCut(cfg: Config, c: Control, d: Control)
    requires LeasesBehind(cfg, c) && FencesNothing(c, d)
    ensures LeasesBehind(cfg, d)
  {
    forall i: nat | i < |d.cut|
      ensures LeaseBehind(cfg, d, i)
    {
      if i < |c.cut| {
        assert LeaseBehind(cfg, c, i);
      }
    }
  }

  lemma LeasesBehindLease(cfg: Config, s: System, row: LeaseRow)
    requires Inv(cfg, s) && LeasesBehind(cfg, s.db)
    ensures LeasesBehind(cfg, Apply(cfg, s, Lease(row)).db)
  {
    var d := Apply(cfg, s, Lease(row)).db;
    if d != s.db {
      LeaseAppended(s.db, s.now, row);
      forall i: nat | i < |d.cut|
        ensures LeaseBehind(cfg, d, i)
      {
        assert LeaseBehind(cfg, s.db, i);
        if d.cut[i].phase == Fenced {
          FencedWitnessed(s.db, i);
          LeaseAppendKeeps(cfg, s.db.lease, row, d.cut[i]);
        }
      }
    }
  }

  lemma LeasesBehindTx2(cfg: Config, s: System, call: Call, lag: nat)
    requires Inv(cfg, s) && LeasesBehind(cfg, s.db)
    ensures LeasesBehind(cfg, Apply(cfg, s, Tx2(call, lag)).db)
  {
    var d := Apply(cfg, s, Tx2(call, lag)).db;
    if d != s.db {
      Tx2NamesLease(cfg, s, call, lag);
      forall i: nat | i < |d.cut|
        ensures LeaseBehind(cfg, d, i)
      {
        if i < |s.db.cut| {
          assert d.cut[i] == s.db.cut[i];
          assert LeaseBehind(cfg, s.db, i);
        }
      }
    }
  }

  predicate FencesNothing(c: Control, d: Control) {
    d.lease == c.lease && c.cut <= d.cut && forall i | |c.cut| <= i < |d.cut| :: d.cut[i].phase != Fenced
  }

  /** Only Tx2 writes a FENCED row, and only lease writes extend the lease history. */
  lemma CutoverFencesNothing(cfg: Config, s: System, e: Event)
    requires e.Begin? || e.Bind? || e.Import? || e.Ratify? || e.GoLive? || e.Abort?
    ensures FencesNothing(s.db, Apply(cfg, s, e).db)
  {
  }

  lemma OthersFenceNothing(cfg: Config, s: System, e: Event)
    requires !e.Tx2? && !e.Lease? && !(e.Begin? || e.Bind? || e.Import? || e.Ratify? || e.GoLive? || e.Abort?)
    ensures FencesNothing(s.db, Apply(cfg, s, e).db)
  {
  }

  lemma StepLeasesBehind(cfg: Config, s: System, e: Event)
    requires Inv(cfg, s) && LeasesBehind(cfg, s.db)
    ensures LeasesBehind(cfg, Apply(cfg, s, e).db)
  {
    match e
    case Lease(row) => LeasesBehindLease(cfg, s, row);
    case Tx2(call, lag) => LeasesBehindTx2(cfg, s, call, lag);
    case _ =>
      if e.Begin? || e.Bind? || e.Import? || e.Ratify? || e.GoLive? || e.Abort? {
        CutoverFencesNothing(cfg, s, e);
      } else {
        OthersFenceNothing(cfg, s, e);
      }
      LeasesBehindCut(cfg, s.db, Apply(cfg, s, e).db);
  }

  lemma {:induction false} RunLeasesBehind(cfg: Config, events: seq<Event>)
    ensures LeasesBehind(cfg, Run(cfg, INIT, events).db)
  {
    if |events| > 0 {
      var init, e := events[..|events| - 1], Last(events);
      var s := Run(cfg, INIT, init);
      RunLeasesBehind(cfg, init);
      RunInv(cfg, init);
      StepLeasesBehind(cfg, s, e);
    }
  }

  /** Every FENCED row is signed over a complete proof: the witness step it made, the claim it
      read back, the revoked lease it closed with its digest, the elapsed horizon of the fenced
      epoch and the time the claim had left. */
  lemma FenceProofComplete(cfg: Config, s: System, k: nat)
    requires Reachable(cfg, s) && k < |s.db.cut| && s.db.cut[k].phase == Fenced
    ensures s.db.cut[k].evidence.FencedEv? && FencedRowOk(cfg, s.db.cut[k]) && FencedLease(cfg, s.db.lease, s.db.cut[k])
  {
    ReachableInv(cfg, s);
    var events :| Run(cfg, INIT, events) == s;
    RunLeasesBehind(cfg, events);
    assert LeaseBehind(cfg, s.db, k);
  }

  /** With a fence record that only advanceEpoch claims and that is never lost, neither the
      cross-check of Tx1 nor the reconciliation of a retry can ever quarantine. */
  lemma RedisNeverQuarantines(cfg: Config, s: System, cmd: string, target: nat)
    requires Reachable(cfg, s)
    ensures && (HeadIs(s.db.cut, SourceFenced, cmd, target) ==>
                  RedisAuthority(s.redis, WitnessEpoch(s.db), cmd, target))
            && (HeadIs(s.db.cut, Fenced, cmd, target) ==>
                  ReconcileRetry(cfg, s.redis, Last(s.db.cut).evidence, cmd).Ok?)
  {
    ReachableInv(cfg, s);
    if HeadIs(s.db.cut, Fenced, cmd, target) {
      assert EvidenceFits(Last(s.db.cut));
      EpochBound(s.db.cut, |s.db.cut| - 1);
    }
  }

  /** Every activation traces through ACTIVE and READY to the one SOURCE_FENCED row of its
      command and epoch; the finalized receipt behind it carries that row's freeze, N,
      head@N and state@N, and the freeze is of the previously activated epoch. */
  lemma NoSplice(cfg: Config, s: System, i: nat)
    requires Reachable(cfg, s)
    requires i < |s.db.act|
    ensures var c := s.db;
            exists a, r, f, b :: TracesTo(cfg, c, i, a, r, f, b) && SoleFreeze(c.cut, f)
  {
    ReachableInv(cfg, s);
    var c := s.db;
    assert Traced(cfg, c, i);
    var a, r, f, b :| TracesTo(cfg, c, i, a, r, f, b);
    forall k | 0 <= k < |c.cut| && c.cut[k].phase == SourceFenced && c.cut[k].epoch == c.cut[f].epoch
      ensures k == f
    {
      UniqueRank(c.cut, k, f);
    }
    assert SoleFreeze(c.cut, f);
  }

  predicate SoleFreeze(cut: seq<CutRow>, f: int) {
    && 0 <= f < |cut|
    && forall k | 0 <= k < |cut| && cut[k].phase == SourceFenced && cut[k].epoch == cut[f].epoch :: k == f
  }

  /** Cutover history: epochs 1, 2, 3, ... in order, each a legal path under one command,
      all but the newest finished; the witness follows from the newest row. */
  lemma CutoverPaths(cfg: Config, s: System, e: nat)
    requires Reachable(cfg, s)
    ensures var c := s.db;
            && LegalPath(PhasesAt(c.cut, e))
            && (PhasesAt(c.cut, e) != [] <==> |c.cut| > 0 && 1 <= e <= Last(c.cut).epoch)
            && (|c.cut| > 0 && 1 <= e < Last(c.cut).epoch ==> Finished(PhasesAt(c.cut, e)))
            && (forall i, j | 0 <= i < j < |c.cut| ::
                  && c.cut[i].epoch <= c.cut[j].epoch
                  && (c.cut[i].epoch == c.cut[j].epoch ==> c.cut[i].cmd == c.cut[j].cmd))
            && WitnessEpoch(c) == ImpliedWitness(c.cut)
  {
    ReachableInv(cfg, s);
    var c := s.db;
    EpochPath(c.cut, e);
    forall i, j | 0 <= i < j < |c.cut|
      ensures c.cut[i].epoch <= c.cut[j].epoch
      ensures c.cut[i].epoch == c.cut[j].epoch ==> c.cut[i].cmd == c.cut[j].cmd
    {
      RowOrder(c.cut, i, j);
    }
  }

  // ── a promotion begun before its predecessor was activated ──

  /** Some ACTIVE cutover is newer than the newest source activation. */
  predicate LiveUnactivated(c: Control) {
    exists k | 0 <= k < |c.cut| :: c.cut[k].phase == Active && c.cut[k].epoch > ActivationEpoch(c)
  }

  /** For an intent in PREPARING the gap rule of bindSourceFenced passes exactly when every
      ACTIVE cutover has been activated. */
  lemma GapPassesIff(cfg: Config, s: System)
    requires Reachable(cfg, s)
    requires var c := s.db; |c.cut| > 0 && Last(c.cut).phase == Preparing
    ensures var c := s.db;
            GapConsumed(c.cut, c.act, ActivationEpoch(c), Last(c.cut).epoch) <==> !LiveUnactivated(c)
  {
    ReachableInv(cfg, s);
    if LiveUnactivated(s.db) {
      LiveBlocks(s.db);
    } else {
      ActivatedBelow(s.db);
      forall e: nat | ActivationEpoch(s.db) < e < Last(s.db.cut).epoch
        ensures TerminalsAt(s.db.cut, e) == [Aborted]
        ensures forall i | 0 <= i < |s.db.act| :: s.db.act[i].epoch != e
      {
        GapClosed(s.db, e);
      }
    }
  }

  lemma LiveBlocks(c: Control)
    requires Shape(c.cut) && |c.cut| > 0 && Last(c.cut).phase == Preparing && LiveUnactivated(c)
    ensures !GapConsumed(c.cut, c.act, ActivationEpoch(c), Last(c.cut).epoch)
  {
    var k :| 0 <= k < |c.cut| && c.cut[k].phase == Active && c.cut[k].epoch > ActivationEpoch(c);
    RowOrder(c.cut, k, |c.cut| - 1);
    TerminalUnique(c.cut, k);
  }

  lemma GapClosed(c: Control, e: nat)
    requires Shape(c.cut) && LedgerInv(c) && |c.cut| > 0 && !LiveUnactivated(c)
    requires ActivationEpoch(c) < e < Last(c.cut).epoch
    ensures TerminalsAt(c.cut, e) == [Aborted]
    ensures forall i | 0 <= i < |c.act| :: c.act[i].epoch != e
  {
    EpochPath(c.cut, e);
    var k := PhaseSource(c.cut, e, Last(PhasesAt(c.cut, e)));
    TerminalUnique(c.cut, k);
    forall i | 0 <= i < |c.act|
      ensures c.act[i].epoch != e
    {
      if i < |c.act| - 1 {
        LedgerIncreases(c, i, |c.act| - 1);
      }
    }
  }

  /** So a well-formed freeze of the current source is bound exactly in that case. */
  lemma BindPassesIff(cfg: Config, s: System, fr: FrozenReceipt)
    requires Reachable(cfg, s)
    requires |s.db.cut| > 0 && Last(s.db.cut).phase == Preparing
    requires CommandOk(Last(s.db.cut).cmd, Last(s.db.cut).epoch)
    requires fr.commandId == Last(s.db.cut).cmd && fr.streamId == cfg.streamId && fr.epoch == ActivationEpoch(s.db)
    ensures BindSourceFenced(cfg, s.db, fr.commandId, Last(s.db.cut).epoch, fr, true).Ok? <==>
            !LiveUnactivated(s.db)
  {
    GapPassesIff(cfg, s);
  }

  lemma ActivatedBelow(c: Control)
    requires LedgerInv(c) && Shape(c.cut) && |c.cut| > 0 && Last(c.cut).phase == Preparing
    ensures ActivationEpoch(c) < Last(c.cut).epoch
  {
    if |c.act| > 0 {
      var i: nat := |c.act| - 1;
      assert LedgerRow(c.cut, c.act, i);
      var a :| 0 <= a < |c.cut| && c.cut[a].phase == Active && c.cut[a].epoch == c.act[i].epoch;
      RowOrder(c.cut, a, |c.cut| - 1);
    } else {
      EpochBound(c.cut, |c.cut| - 1);
    }
  }

  /** Such an intent is stuck: no later run changes the cutover history, the witness or the
      activation ledger again. */
  lemma {:induction false} StrandedForever(cfg: Config, s: System, more: seq<Event>)
    requires Reachable(cfg, s)
    requires |s.db.cut| > 0 && Last(s.db.cut).phase == Preparing && LiveUnactivated(s.db)
    ensures var d := Run(cfg, s, more).db; d.cut == s.db.cut && d.wit == s.db.wit && d.act == s.db.act
  {
    if |more| > 0 {
      var init := more[..|more| - 1];
      StrandedForever(cfg, s, init);
      ReachRun(cfg, s, init);
      var t := Run(cfg, s, init);
      ReachableInv(cfg, t);
      GapPassesIff(cfg, t);
      StrandedStep(cfg, t, Last(more));
    }
  }

  lemma StrandedStep(cfg: Config, s: System, e: Event)
    requires ProvisionInv(s.db)
    requires |s.db.cut| > 0 && Last(s.db.cut).phase == Preparing
    requires !GapConsumed(s.db.cut, s.db.act, ActivationEpoch(s.db), Last(s.db.cut).epoch)
    ensures var t := Apply(cfg, s, e); t.db.cut == s.db.cut && t.db.wit == s.db.wit && t.db.act == s.db.act
  {
  }

  /** beginPromotionIntent admits that intent: it does not ask whether the ACTIVE head was
      activated, so begun too early it strands the stream. */
  lemma IntentStrands(cfg: Config, s: System, cmd: string)
    requires Reachable(cfg, s)
    requires |s.db.cut| > 0 && Last(s.db.cut).phase == Active && Last(s.db.cut).epoch > ActivationEpoch(s.db)
    requires CommandOk(cmd, Last(s.db.cut).epoch + 1)
    ensures var t := Apply(cfg, s, Begin(cmd, Last(s.db.cut).epoch + 1));
            HeadIs(t.db.cut, Preparing, cmd, Last(s.db.cut).epoch + 1) && LiveUnactivated(t.db)
  {
    ReachableInv(cfg, s);
    var t := Apply(cfg, s, Begin(cmd, Last(s.db.cut).epoch + 1));
    assert t.db.cut[|s.db.cut| - 1] == Last(s.db.cut);
  }
}
