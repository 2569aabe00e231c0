/** When the control plane admits a provisioning step, a lease, a cutover phase or a fence, in
    plain terms and over every run. */
module ControlAdmission {
  import opened Wrappers
  import opened ControlModel
  import opened ControlSystem
  import opened CutoverShape
  import opened ControlInvariant
  import opened ControlTheorems

  // ── leases ──

  /** A promotion has begun and is neither live nor aborted. */
  predicate Promoting(cut: seq<CutRow>) {
    |cut| > 0 &&
    var p := Last(cut).phase;
    p == Preparing || p == SourceFenced || p == Fenced || p == Importing || p == Ready
  }

  /** From row n on the lease history holds revocations only. */
  predicate OnlyRevoked(lease: seq<LeaseRow>, n: nat) {
    forall i | n <= i < |lease| :: lease[i].status == LeaseRevoked
  }

  lemma OnlyLeasesGrant(cfg: Config, s: System, e: Event)
    requires !e.Lease?
    ensures Apply(cfg, s, e).db.lease == s.db.lease
  {
  }

  /** During a promotion no step adds an active grant. */
  lemma FrozenStep(cfg: Config, s: System, e: Event)
    requires Promoting(s.db.cut)
    ensures s.db.lease <= Apply(cfg, s, e).db.lease && OnlyRevoked(Apply(cfg, s, e).db.lease, |s.db.lease|)
  {
    if !e.Lease? {
      OnlyLeasesGrant(cfg, s, e);
    }
  }

  /** Between two states of one promotion every state is of that promotion. */
  lemma StillPromoting(c: Control, d: Control, f: Control)
    requires Shape(f.cut) && c.cut <= d.cut <= f.cut && Promoting(c.cut) && Promoting(f.cut)
    requires Last(c.cut).epoch == Last(f.cut).epoch
    ensures Promoting(d.cut) && Last(d.cut).epoch == Last(f.cut).epoch
  {
    var i, j, k := |c.cut| - 1, |d.cut| - 1, |f.cut| - 1;
    assert f.cut[i] == Last(c.cut) && f.cut[j] == Last(d.cut);
    if i < j {
      RowOrder(f.cut, i, j);
    }
    if j < k {
      RowOrder(f.cut, j, k);
    }
  }

  /** As long as one promotion is in flight no run adds an active grant. */
  lemma {:induction false} FrozenThroughout(cfg: Config, s: System, more: seq<Event>)
    requires Reachable(cfg, s) && Promoting(s.db.cut)
    requires var t := Run(cfg, s, more); Promoting(t.db.cut) && Last(t.db.cut).epoch == Last(s.db.cut).epoch
    ensures var t := Run(cfg, s, more); s.db.lease <= t.db.lease && OnlyRevoked(t.db.lease, |s.db.lease|)
  {
    if |more| > 0 {
      var init := more[..|more| - 1];
      var u, t := Run(cfg, s, init), Run(cfg, s, more);
      HistoriesGrow(cfg, s, init);
      StepGrows(cfg, u, Last(more));
      ReachRun(cfg, s, more);
      ReachableInv(cfg, t);
      StillPromoting(s.db, u.db, t.db);
      FrozenThroughout(cfg, s, init);
      FrozenStep(cfg, u, Last(more));
    }
  }

  /** Within bounds and written for the current epoch. */
  predicate LeaseFits(s: System, row: LeaseRow) {
    && IdOk(row.leaseId) && IdOk(row.holder) && IdOk(row.grantCmd)
    && IsProvisioned(s.db) && row.epoch == WitnessEpoch(s.db) <= 1_099_511_627_776
    && row.maxExpiry <= s.now + 86_400_000 && row.maxExpiry <= 8_640_000_000_000_000
    && (row.status == LeaseActive ==> !Promoting(s.db.cut))
  }

  /** A new command by the epoch's one writer that does not shorten the horizon. */
  predicate LeaseFollows(lease: seq<LeaseRow>, row: LeaseRow) {
    forall i | 0 <= i < |lease| ::
      && lease[i].grantCmd != row.grantCmd
      && (lease[i].epoch == row.epoch ==>
            lease[i].holder == row.holder && lease[i].leaseId == row.leaseId && lease[i].maxExpiry <= row.maxExpiry)
  }

  /** The three reads of a lease write, as one condition on the history. */
  lemma LeaseFollowsIff(c: Control, now: nat, row: LeaseRow)
    requires LeaseInv(c, now)
    ensures LeaseFollows(c.lease, row) <==>
            && FindGrant(c.lease, row.grantCmd).None?
            && (var first := FirstAtEpoch(c.lease, row.epoch);
                first.Some? ==> first.value.holder == row.holder && first.value.leaseId == row.leaseId)
            && MaxExpiryAt(c.lease, row.epoch) <= row.maxExpiry
  {
    var lease, first := c.lease, FirstAtEpoch(c.lease, row.epoch);
    if first.Some? {
      var k :| 0 <= k < |lease| && lease[k] == first.value;
      forall i | 0 <= i < |lease| && lease[i].epoch == row.epoch
        ensures lease[i].holder == lease[k].holder && lease[i].leaseId == lease[k].leaseId
      {
        assert i == k || i < k || k < i;
      }
    }
  }

  /** Exactly when a grant is appended and when it is a repeat; either way the answer is the
      row asked for. */
  lemma LeaseAdmittedIff(cfg: Config, s: System, row: LeaseRow)
    requires Reachable(cfg, s)
    ensures var r := WriteLease(s.db, s.now, row);
            && (r.Ok? ==> r.value.1 == row)
            && (r.Ok? && r.value.0 == s.db.(lease := s.db.lease + [row]) <==>
                  LeaseFits(s, row) && LeaseFollows(s.db.lease, row))
            && (r.Ok? && r.value.0 == s.db <==>
                  LeaseFits(s, row) && FindGrant(s.db.lease, row.grantCmd) == Some(row))
            && (r.Ok? ==> r.value.0 == s.db || r.value.0 == s.db.(lease := s.db.lease + [row]))
  {
    ReachableInv(cfg, s);
    LeaseDecided(s, row);
  }

  lemma LeaseDecided(s: System, row: LeaseRow)
    requires LeaseInv(s.db, s.now)
    ensures var r := WriteLease(s.db, s.now, row);
            && (r.Ok? ==> r.value.1 == row)
            && (r.Ok? && r.value.0 == s.db.(lease := s.db.lease + [row]) <==>
                  LeaseFits(s, row) && LeaseFollows(s.db.lease, row))
            && (r.Ok? && r.value.0 == s.db <==>
                  LeaseFits(s, row) && FindGrant(s.db.lease, row.grantCmd) == Some(row))
            && (r.Ok? ==> r.value.0 == s.db || r.value.0 == s.db.(lease := s.db.lease + [row]))
  {
    LeaseFollowsIff(s.db, s.now, row);
    assert |s.db.lease + [row]| != |s.db.lease|;
  }

  /** Row i of the lease history was appended by step k, and was admissible then. */
  ghost predicate GrantedBy(cfg: Config, events: seq<Event>, i: nat, row: LeaseRow, k: nat) {
    && k < |events|
    && var s := Run(cfg, INIT, events[..k]);
       events[k] == Lease(row) && |s.db.lease| == i && LeaseFits(s, row) && LeaseFollows(s.db.lease, row)
  }

  /** Every row of the lease history was admissible in the state and at the clock of its step. */
  lemma {:induction false} LeasesAdmitted(cfg: Config, events: seq<Event>, i: nat)
    requires i < |Run(cfg, INIT, events).db.lease|
    ensures exists k: nat :: GrantedBy(cfg, events, i, Run(cfg, INIT, events).db.lease[i], k)
  {
    var n := |events| - 1;
    var init := events[..n];
    var s, t := Run(cfg, INIT, init), Run(cfg, INIT, events);
    var row := t.db.lease[i];
    StepGrows(cfg, s, events[n]);
    if i < |s.db.lease| {
      LeasesAdmitted(cfg, init, i);
      var k: nat :| GrantedBy(cfg, init, i, row, k);
      assert init[..k] == events[..k];
      assert GrantedBy(cfg, events, i, row, k);
    } else {
      if !events[n].Lease? {
        OnlyLeasesGrant(cfg, s, events[n]);
      }
      assert Run(cfg, INIT, init) == s;
      LeaseAdmittedIff(cfg, s, events[n].row);
      assert GrantedBy(cfg, events, i, row, n);
    }
  }

  // ── a bound promotion stays a promotion of the current source ──

  predicate Bound(p: Phase) { p == SourceFenced || p == Fenced || p == Importing || p == Ready }

  /** Bound, or live and not yet activated. */
  predicate Pending(c: Control) {
    && |c.cut| > 0
    && (Bound(Last(c.cut).phase) || (Last(c.cut).phase == Active && ActivationEpoch(c) != Last(c.cut).epoch))
  }

  /** From the binding of its freeze to its activation, a promotion is of the current source. */
  predicate BoundInv(c: Control) {
    Pending(c) ==>
      && GapConsumed(c.cut, c.act, ActivationEpoch(c), Last(c.cut).epoch)
      && forall f: nat | f < |c.cut| :: FreezeCurrent(c, f)
  }

  lemma GapKept(cut: seq<CutRow>, act: seq<ActRow>, current: nat, row: CutRow)
    requires GapConsumed(cut, act, current, row.epoch)
    ensures GapConsumed(cut + [row], act, current, row.epoch)
  {
    var next := cut + [row];
    assert next[..|next| - 1] == cut;
  }

  /** The next phase of a bound promotion. */
  lemma BoundNext(c: Control, d: Control, row: CutRow)
    requires BoundInv(c) && |c.cut| > 0 && Bound(Last(c.cut).phase)
    requires d.cut == c.cut + [row] && d.act == c.act && row.epoch == Last(c.cut).epoch && row.phase != SourceFenced
    ensures BoundInv(d)
  {
    GapKept(c.cut, c.act, ActivationEpoch(c), row);
    forall f: nat | f < |d.cut|
      ensures FreezeCurrent(d, f)
    {
      if f < |c.cut| {
        assert FreezeCurrent(c, f);
      }
    }
  }

  lemma BoundFramed(c: Control, d: Control)
    requires BoundInv(c) && d.cut == c.cut && d.act == c.act
    ensures BoundInv(d)
  {
    forall f: nat | f < |d.cut|
      ensures FreezeCurrent(c, f) ==> FreezeCurrent(d, f)
    {
    }
  }

  lemma BoundBind(cfg: Config, s: System, cmd: string, target: nat, fr: FrozenReceipt, verified: bool)
    requires Inv(cfg, s) && BoundInv(s.db)
    ensures BoundInv(Apply(cfg, s, Bind(cmd, target, fr, verified)).db)
  {
    var c, d := s.db, Apply(cfg, s, Bind(cmd, target, fr, verified)).db;
    if d != c {
      var row := CutRow(target, cmd, SourceFenced, BoundFreeze(fr));
      GapKept(c.cut, c.act, ActivationEpoch(c), row);
      ShapeAppend(c.cut, row);
      forall f: nat | f < |d.cut|
        ensures FreezeCurrent(d, f)
      {
        if d.cut[f].phase == SourceFenced && d.cut[f].epoch == target {
          UniqueRank(d.cut, f, |c.cut|);
        }
      }
    }
  }

  /** Neither history moves, the ledger moves under an ACTIVE head, or one row joins the cutover,
      bound only as the next phase of a bound promotion. */
  predicate BoundMove(c: Control, d: Control) {
    || (d.cut == c.cut && d.act == c.act)
    || (d.cut == c.cut && |c.cut| > 0 && Last(c.cut).phase == Active && ActivationEpoch(d) == Last(c.cut).epoch)
    || (|d.cut| > 0 && d.cut == c.cut + [Last(d.cut)] && d.act == c.act &&
        (Last(d.cut).phase == Preparing || Last(d.cut).phase == Aborted ||
         (|c.cut| > 0 && Bound(Last(c.cut).phase) && Last(d.cut).epoch == Last(c.cut).epoch &&
          Last(d.cut).phase != SourceFenced)))
  }

  lemma CutoverMoves(cfg: Config, s: System, e: Event)
    requires e.Begin? || e.Import? || e.Ratify? || e.GoLive? || e.Abort?
    ensures BoundMove(s.db, Apply(cfg, s, e).db)
  {
  }

  lemma OtherMoves(cfg: Config, s: System, e: Event)
    requires !(e.Bind? || e.Begin? || e.Import? || e.Ratify? || e.GoLive? || e.Abort?)
    ensures BoundMove(s.db, Apply(cfg, s, e).db)
  {
  }

  lemma BoundMoveKeeps(c: Control, d: Control)
    requires BoundInv(c) && BoundMove(c, d)
    ensures BoundInv(d)
  {
    if d.cut == c.cut && d.act == c.act {
      BoundFramed(c, d);
    } else if Pending(d) {
      BoundNext(c, d, Last(d.cut));
    }
  }

  lemma BoundStep(cfg: Config, s: System, e: Event)
    requires Inv(cfg, s) && BoundInv(s.db)
    ensures BoundInv(Apply(cfg, s, e).db)
  {
    if e.Bind? {
      BoundBind(cfg, s, e.cmd, e.target, e.fr, e.verified);
    } else {
      if e.Begin? || e.Import? || e.Ratify? || e.GoLive? || e.Abort? {
        CutoverMoves(cfg, s, e);
      } else {
        OtherMoves(cfg, s, e);
      }
      BoundMoveKeeps(s.db, Apply(cfg, s, e).db);
    }
  }

  lemma {:induction false} RunBound(cfg: Config, events: seq<Event>)
    ensures BoundInv(Run(cfg, INIT, events).db)
  {
    if |events| > 0 {
      RunBound(cfg, events[..|events| - 1]);
      RunInv(cfg, events[..|events| - 1]);
      BoundStep(cfg, Run(cfg, INIT, events[..|events| - 1]), Last(events));
    }
  }

  lemma ReachableBound(cfg: Config, s: System)
    requires Reachable(cfg, s)
    ensures Inv(cfg, s) && BoundInv(s.db)
  {
    ReachableInv(cfg, s);
    var events :| Run(cfg, INIT, events) == s;
    RunBound(cfg, events);
  }

  // ── the cutover transactions ──

  /** The transaction appends this row and answers it. */
  predicate Adds(r: Result<(Control, CutRow), Fault>, c: Control, row: CutRow) {
    r == Ok((c.(cut := c.cut + [row]), row))
  }

  predicate AddsOne(r: Result<(Control, CutRow), Fault>, c: Control) {
    r.Ok? && Adds(r, c, r.value.1)
  }

  /** The transaction answers the head and changes nothing. */
  predicate Repeats(r: Result<(Control, CutRow), Fault>, c: Control) {
    |c.cut| > 0 && r == Ok((c, Last(c.cut)))
  }

  lemma AddedIsMore(c: Control, row: CutRow)
    ensures c.(cut := c.cut + [row]) != c
  {
    assert |c.cut + [row]| != |c.cut|;
  }

  predicate Named(cmd: string, target: nat) { IdOk(cmd) && 1 <= target <= 1_099_511_627_776 }

  lemma BeginAdmittedIff(cfg: Config, s: System, cmd: string, target: nat)
    requires Reachable(cfg, s)
    ensures var r := BeginIntent(s.db, cmd, target);
            && (AddsOne(r, s.db) <==>
                  && Named(cmd, target) && IsProvisioned(s.db) && target == WitnessEpoch(s.db) + 1
                  && (s.db.cut == [] || Last(s.db.cut).phase == Active || Last(s.db.cut).phase == Aborted))
            && (AddsOne(r, s.db) ==> r.value.1 == CutRow(target, cmd, Preparing, NoEvidence))
            && (Repeats(r, s.db) <==>
                  Named(cmd, target) && (HeadIs(s.db.cut, Preparing, cmd, target) || HeadIs(s.db.cut, SourceFenced, cmd, target)))
            && (r.Ok? ==> AddsOne(r, s.db) || Repeats(r, s.db))
  {
    ReachableInv(cfg, s);
    AddedIsMore(s.db, CutRow(target, cmd, Preparing, NoEvidence));
  }

  /** A promotion can be abandoned exactly from FENCED, IMPORTING or READY, by its own command. */
  lemma AbortAdmittedIff(cfg: Config, s: System, cmd: string, target: nat, reason: string)
    requires Reachable(cfg, s)
    ensures var r := AbortFenced(s.db, cmd, target, reason);
            && (AddsOne(r, s.db) <==>
                  && Named(cmd, target) && IdOk(reason)
                  && (HeadIs(s.db.cut, Fenced, cmd, target) || HeadIs(s.db.cut, Importing, cmd, target) ||
                      HeadIs(s.db.cut, Ready, cmd, target)))
            && (AddsOne(r, s.db) ==> r.value.1 == CutRow(target, cmd, Aborted, AbortEv(reason)))
            && (Repeats(r, s.db) <==>
                  && Named(cmd, target) && IdOk(reason) && HeadIs(s.db.cut, Aborted, cmd, target)
                  && Last(s.db.cut).evidence == AbortEv(reason))
            && (r.Ok? ==> AddsOne(r, s.db) || Repeats(r, s.db))
  {
    ReachableInv(cfg, s);
    AddedIsMore(s.db, CutRow(target, cmd, Aborted, AbortEv(reason)));
  }

  /** The column written for a freeze. */
  predicate FreezeWritten(ev: Evidence, fr: FrozenReceipt) {
    && ev.SourceFencedEv? && ev.frozenDigest == fr.receiptDigest && ev.sourceEpoch == fr.epoch && ev.n == fr.n
    && ev.headAtN == fr.headAtN && ev.stateAtN == fr.stateAtN && ev.sourceNodeId == fr.sourceNodeId
    && ev.revokeCommandId == fr.revokeCommandId && ev.leaseId == fr.leaseId
    && ev.leaseGrantDigest == fr.leaseGrantDigest && ev.sourceKeyId == fr.sourceKeyId
  }

  /** A freeze is bound exactly when it is a verified one of the current source for the command in
      PREPARING and every earlier promotion that went live was activated. */
  lemma BindAdmittedIff(cfg: Config, s: System, cmd: string, target: nat, fr: FrozenReceipt, verified: bool)
    requires Reachable(cfg, s)
    ensures var r := BindSourceFenced(cfg, s.db, cmd, target, fr, verified);
            && (AddsOne(r, s.db) <==>
                  && Named(cmd, target) && verified && fr.commandId == cmd && fr.streamId == cfg.streamId
                  && fr.epoch == ActivationEpoch(s.db)
                  && HeadIs(s.db.cut, Preparing, cmd, target) && !LiveUnactivated(s.db))
            && (AddsOne(r, s.db) ==>
                  r.value.1.epoch == target && r.value.1.cmd == cmd && r.value.1.phase == SourceFenced &&
                  FreezeWritten(r.value.1.evidence, fr))
            && (Repeats(r, s.db) <==>
                  && Named(cmd, target) && verified && fr.commandId == cmd && fr.streamId == cfg.streamId
                  && HeadIs(s.db.cut, SourceFenced, cmd, target) && FreezeWritten(Last(s.db.cut).evidence, fr))
            && (r.Ok? ==> AddsOne(r, s.db) || Repeats(r, s.db))
  {
    ReachableBound(cfg, s);
    AddedIsMore(s.db, CutRow(target, cmd, SourceFenced, BoundFreeze(fr)));
    if HeadIs(s.db.cut, Preparing, cmd, target) {
      GapPassesIff(cfg, s);
    }
    if HeadIs(s.db.cut, SourceFenced, cmd, target) {
      assert FreezeCurrent(s.db, |s.db.cut| - 1);
    }
  }

  /** The import opens exactly from FENCED and carries the fence's evidence on. */
  lemma ImportAdmittedIff(cfg: Config, s: System, cmd: string, target: nat)
    requires Reachable(cfg, s)
    ensures var r := MarkImporting(s.db, cmd, target);
            && (AddsOne(r, s.db) <==> Named(cmd, target) && HeadIs(s.db.cut, Fenced, cmd, target))
            && (AddsOne(r, s.db) ==> r.value.1 == CutRow(target, cmd, Importing, Last(s.db.cut).evidence))
            && (Repeats(r, s.db) <==> Named(cmd, target) && HeadIs(s.db.cut, Importing, cmd, target))
            && (r.Ok? ==> AddsOne(r, s.db) || Repeats(r, s.db))
  {
    ReachableInv(cfg, s);
    if HeadIs(s.db.cut, Fenced, cmd, target) {
      AddedIsMore(s.db, CutRow(target, cmd, Importing, Last(s.db.cut).evidence));
      var f := FreezeBehind(s.db.cut, |s.db.cut| - 1);
    }
  }

  /** The receipt is B's verified one for this command and stream. */
  predicate ReceiptSound(cfg: Config, cmd: string, br: FinalizedReceipt, verified: bool) {
    && verified && KeyIdOk(br.bKeyId) && cfg.finalizedDigest(br.body) == br.receiptDigest
    && br.body.commandId == cmd && br.body.streamId == cfg.streamId
    && br.body.bSystemId != br.body.sourceSystemId && br.body.bSystemId != cfg.systemId
  }

  /** B finalized the freeze that the epoch's SOURCE_FENCED row holds. */
  predicate FinalizesFreeze(cut: seq<CutRow>, target: nat, b: FinalizedBody) {
    forall f | 0 <= f < |cut| && cut[f].phase == SourceFenced && cut[f].epoch == target ::
      var ev := cut[f].evidence;
      && ev.SourceFencedEv? && b.frozenDigest == ev.frozenDigest && b.n == ev.n && b.headAtN == ev.headAtN
      && b.stateAtN == ev.stateAtN && b.epoch == ev.sourceEpoch
  }

  predicate RatificationWritten(cfg: Config, ev: Evidence, br: FinalizedReceipt) {
    && ev.ReadyEv? && ev.bReceiptDigest == br.receiptDigest && ev.generationId == br.body.generationId
    && ev.manifestDigest == br.body.manifestDigest && ev.manifestRoot == br.body.manifestRoot
    && ev.frozenDigest == br.body.frozenDigest && ev.n == br.body.n && ev.bSystemId == br.body.bSystemId
    && ev.sourceSystemId == br.body.sourceSystemId && ev.controlSystemId == cfg.systemId && ev.bKeyId == br.bKeyId
  }

  /** The freeze read back for a bound promotion is the one its epoch holds. */
  lemma FreezeFound(c: Control, cmd: string, target: nat, b: FinalizedBody)
    requires CutoverInv(c) && BoundInv(c) && |c.cut| > 0 && Bound(Last(c.cut).phase)
    requires Last(c.cut).cmd == cmd && Last(c.cut).epoch == target
    ensures FreezeBound(c, cmd, target, b) <==> FinalizesFreeze(c.cut, target, b)
  {
    var k := FreezeBehind(c.cut, |c.cut| - 1);
    var sf := FindPhase(c.cut, cmd, target, SourceFenced);
    var f: nat :| f < |c.cut| && c.cut[f] == CutRow(target, cmd, SourceFenced, sf.value);
    assert EvidenceFits(c.cut[f]) && FreezeCurrent(c, f);
    forall g | 0 <= g < |c.cut| && c.cut[g].phase == SourceFenced && c.cut[g].epoch == target
      ensures g == f
    {
      UniqueRank(c.cut, g, f);
    }
  }

  /** B is ratified exactly from IMPORTING, by a sound receipt for the bound freeze. */
  lemma RatifyAdmittedIff(cfg: Config, s: System, cmd: string, target: nat, br: FinalizedReceipt, verified: bool)
    requires Reachable(cfg, s)
    ensures var r := MarkReady(cfg, s.db, cmd, target, br, verified);
            && (AddsOne(r, s.db) <==>
                  && Named(cmd, target) && ReceiptSound(cfg, cmd, br, verified)
                  && HeadIs(s.db.cut, Importing, cmd, target) && FinalizesFreeze(s.db.cut, target, br.body))
            && (AddsOne(r, s.db) ==>
                  r.value.1.epoch == target && r.value.1.cmd == cmd && r.value.1.phase == Ready &&
                  RatificationWritten(cfg, r.value.1.evidence, br))
            && (Repeats(r, s.db) <==>
                  && Named(cmd, target) && ReceiptSound(cfg, cmd, br, verified)
                  && HeadIs(s.db.cut, Ready, cmd, target) && FinalizesFreeze(s.db.cut, target, br.body)
                  && RatificationWritten(cfg, Last(s.db.cut).evidence, br))
            && (r.Ok? ==> AddsOne(r, s.db) || Repeats(r, s.db))
  {
    ReachableBound(cfg, s);
    AddedIsMore(s.db, CutRow(target, cmd, Ready, RatifiedEvidence(cfg, br)));
    if HeadIs(s.db.cut, Importing, cmd, target) || HeadIs(s.db.cut, Ready, cmd, target) {
      FreezeFound(s.db, cmd, target, br.body);
    }
  }

  predicate GoLiveWritten(ev: Evidence, rd: Evidence) {
    && ev.ActiveEv? && rd.ReadyEv? && ev.bReceiptDigest == rd.bReceiptDigest && ev.generationId == rd.generationId
    && ev.bSystemId == rd.bSystemId && ev.sourceSystemId == rd.sourceSystemId
    && ev.controlSystemId == rd.controlSystemId && ev.n == rd.n && ev.frozenDigest == rd.frozenDigest
    && ev.bKeyId == rd.bKeyId
  }

  lemma ReadyFound(c: Control, cmd: string, target: nat, k: nat)
    requires CutoverInv(c) && k < |c.cut| && c.cut[k].phase == Ready && c.cut[k].epoch == target && c.cut[k].cmd == cmd
    ensures FindPhase(c.cut, cmd, target, Ready) == Some(c.cut[k].evidence) && c.cut[k].evidence.ReadyEv?
  {
    var rd := FindPhase(c.cut, cmd, target, Ready);
    var f: nat :| f < |c.cut| && c.cut[f] == CutRow(target, cmd, Ready, rd.value);
    UniqueRank(c.cut, f, k);
    assert EvidenceFits(c.cut[k]);
  }

  lemma LiveFound(cfg: Config, c: Control, cmd: string, target: nat)
    requires CutoverInv(c) && ReceiptInv(cfg, c) && HeadIs(c.cut, Active, cmd, target)
    ensures var rd := FindPhase(c.cut, cmd, target, Ready);
            rd.Some? && rd.value.ReadyEv? && Last(c.cut).evidence == GoLiveEvidence(rd.value)
  {
    var k :| GoesLive(c.cut, |c.cut| - 1, k);
    ReadyFound(c, cmd, target, k);
  }

  /** A promotion goes live exactly from READY, and its repeat is always answered. */
  lemma GoLiveAdmittedIff(cfg: Config, s: System, cmd: string, target: nat)
    requires Reachable(cfg, s)
    ensures var r := Activate(s.db, cmd, target);
            && (AddsOne(r, s.db) <==> Named(cmd, target) && HeadIs(s.db.cut, Ready, cmd, target))
            && (AddsOne(r, s.db) ==>
                  r.value.1.epoch == target && r.value.1.cmd == cmd && r.value.1.phase == Active &&
                  GoLiveWritten(r.value.1.evidence, Last(s.db.cut).evidence))
            && (Repeats(r, s.db) <==> Named(cmd, target) && HeadIs(s.db.cut, Active, cmd, target))
            && (r.Ok? ==> AddsOne(r, s.db) || Repeats(r, s.db))
  {
    ReachableInv(cfg, s);
    var cut := s.db.cut;
    if HeadIs(cut, Ready, cmd, target) {
      ReadyFound(s.db, cmd, target, |cut| - 1);
      AddedIsMore(s.db, CutRow(target, cmd, Active, GoLiveEvidence(Last(cut).evidence)));
    } else if HeadIs(cut, Active, cmd, target) {
      LiveFound(cfg, s.db, cmd, target);
    }
  }

  // ── advanceEpoch ──

  /** The newest lease is a revocation of the epoch before, and every grant of that epoch has
      been expired for the margin. */
  predicate WriterGone(c: Control, now: nat, target: nat, margin: nat) {
    && |c.lease| > 0 && Last(c.lease).status == LeaseRevoked && Last(c.lease).epoch + 1 == target
    && forall i | 0 <= i < |c.lease| && c.lease[i].epoch + 1 == target :: c.lease[i].maxExpiry + margin <= now
  }

  lemma WriterGoneIff(c: Control, now: nat, target: nat, margin: nat)
    ensures OldFenced(c, now, target, margin) <==> WriterGone(c, now, target, margin)
  {
    if |c.lease| > 0 && Last(c.lease).epoch + 1 == target {
      var i := |c.lease| - 1;
      assert c.lease[i].epoch + 1 == target;
    }
  }

  predicate CallFits(cmd: string, target: nat, holder: string, margin: nat, claimExpiry: nat) {
    Named(cmd, target) && IdOk(holder) && margin <= 3_600_000 && 1 <= claimExpiry <= 8_640_000_000_000_000
  }

  /** The first transaction lets a call proceed exactly over a bound freeze whose writer is gone. */
  lemma PrepareAdmittedIff(cfg: Config, s: System, cmd: string, target: nat, holder: string, margin: nat, claimExpiry: nat)
    requires Reachable(cfg, s)
    ensures var r := AdvanceTx1(cfg, s.db, s.redis, s.now, cmd, target, holder, margin, claimExpiry);
            && (r == Ok(Proceed(Call(cmd, target, holder, margin, claimExpiry, LeaseHeadDigest(cfg, s.db.lease)))) <==>
                  && CallFits(cmd, target, holder, margin, claimExpiry) && HeadIs(s.db.cut, SourceFenced, cmd, target)
                  && WriterGone(s.db, s.now, target, margin))
            && (r.Ok? && r.value.AlreadyFenced? <==>
                  CallFits(cmd, target, holder, margin, claimExpiry) && HeadIs(s.db.cut, Fenced, cmd, target))
            && (r.Ok? && r.value.AlreadyFenced? ==> r.value.evidence == Last(s.db.cut).evidence)
            && (r.Ok? && r.value.Proceed? ==>
                  r.value.call == Call(cmd, target, holder, margin, claimExpiry, LeaseHeadDigest(cfg, s.db.lease)))
  {
    ReachableInv(cfg, s);
    RedisNeverQuarantines(cfg, s, cmd, target);
    WriterGoneIff(s.db, s.now, target, margin);
  }

  /** The evidence column says who claimed, until when, when and with what margin. */
  predicate FenceWritten(ev: FenceEvidence, now: nat, call: Call) {
    && ev.controlNowMs == now && ev.safetyMarginMs == call.margin && ev.redisNodeId == call.holder
    && ev.redisExpiresMs == call.claimExpiry && ev.redisEpoch == call.target
  }

  /** The second transaction fences exactly over the lease of the first, with the call's own
      claim read back and enough of it left; the witness moves with the row. */
  lemma FenceAdmittedIff(cfg: Config, s: System, call: Call, lag: nat)
    requires Reachable(cfg, s) && call in s.claimed
    ensures var r := AdvanceTx2(cfg, s.db, s.redis, s.now, s.now + lag, call);
            && (r.Ok? && r.value != s.db <==>
                  && HeadIs(s.db.cut, SourceFenced, call.cmd, call.target)
                  && WriterGone(s.db, s.now, call.target, call.margin)
                  && LeaseHeadDigest(cfg, s.db.lease) == call.leaseDigest
                  && s.redis == Some(FenceRecord(call.holder, call.target, call.claimExpiry, call.cmd, true))
                  && s.now + lag + cfg.minRemaining <= call.claimExpiry)
            && (r.Ok? && r.value != s.db ==>
                  && r.value.wit == s.db.wit + [WitnessRow(call.target, true)] && |r.value.cut| == |s.db.cut| + 1
                  && HeadIs(r.value.cut, Fenced, call.cmd, call.target)
                  && Last(r.value.cut).evidence.FencedEv? && FenceWritten(Last(r.value.cut).evidence.fence, s.now, call))
            && (r.Ok? && r.value == s.db <==> HeadIs(s.db.cut, Fenced, call.cmd, call.target))
  {
    ReachableInv(cfg, s);
    RedisNeverQuarantines(cfg, s, call.cmd, call.target);
    WriterGoneIff(s.db, s.now, call.target, call.margin);
    assert |s.db.wit + [WitnessRow(call.target, true)]| != |s.db.wit|;
  }

  // ── whatever the tables and the fence record hold ──

  /** The record is missing only before the first fence, never behind the witness, and ahead of it
      only as this command's own claim. */
  predicate RecordFits(redis: Option<FenceRecord>, floor: nat, cmd: string, target: nat) {
    && (redis.None? ==> floor == 0)
    && (redis.Some? ==> redis.value.fenceEpoch >= floor)
    && (redis.Some? && redis.value.fenceEpoch > floor ==> redis.value.fenceEpoch == target && redis.value.commandId == cmd)
  }

  /** The first transaction for any database and any fence record: every cross-check fails closed. */
  lemma PrepareAnyState(cfg: Config, c: Control, redis: Option<FenceRecord>, now: nat, cmd: string, target: nat,
                        holder: string, margin: nat, claimExpiry: nat)
    ensures var r := AdvanceTx1(cfg, c, redis, now, cmd, target, holder, margin, claimExpiry);
            r.Ok? && r.value.Proceed? <==>
            && CallFits(cmd, target, holder, margin, claimExpiry) && HeadIs(c.cut, SourceFenced, cmd, target)
            && IsProvisioned(c) && WitnessEpoch(c) + 1 == target && WriterGone(c, now, target, margin)
            && RecordFits(redis, WitnessEpoch(c), cmd, target)
  {
    WriterGoneIff(c, now, target, margin);
  }

  /** And the second. */
  lemma FenceAnyState(cfg: Config, c: Control, redis: Option<FenceRecord>, now: nat, lag: nat, call: Call)
    ensures var r := AdvanceTx2(cfg, c, redis, now, now + lag, call);
            r.Ok? && !HeadIs(c.cut, Fenced, call.cmd, call.target) <==>
            && HeadIs(c.cut, SourceFenced, call.cmd, call.target)
            && IsProvisioned(c) && WitnessEpoch(c) + 1 == call.target && WriterGone(c, now, call.target, call.margin)
            && LeaseHeadDigest(cfg, c.lease) == call.leaseDigest
            && redis == Some(FenceRecord(call.holder, call.target, call.claimExpiry, call.cmd, true))
            && now + lag + cfg.minRemaining <= call.claimExpiry
  {
    WriterGoneIff(c, now, call.target, call.margin);
  }

  /** A retry over a FENCED head passes exactly when the fence record, whatever it is, is the very
      tuple the row was signed over. */
  lemma ReconcileIff(cfg: Config, s: System, redis: Option<FenceRecord>, cmd: string, target: nat)
    requires Reachable(cfg, s) && HeadIs(s.db.cut, Fenced, cmd, target)
    ensures var ev := Last(s.db.cut).evidence;
            && ev.FencedEv?
            && (ReconcileRetry(cfg, redis, ev, cmd).Ok? <==>
                  redis == Some(FenceRecord(ev.fence.redisNodeId, target, ev.fence.redisExpiresMs, cmd, true)))
  {
    ReachableInv(cfg, s);
    var k := |s.db.cut| - 1;
    assert s.db.cut[k].phase == Fenced && FencedRowOk(cfg, s.db.cut[k]);
  }

  /** Abandoning asks for the witness at the promotion's own epoch, opening the import for a bound
      freeze, and ratification for a consumed gap, whatever else the tables hold. */
  lemma GuardsAnyState(cfg: Config, c: Control, cmd: string, target: nat, reason: string, br: FinalizedReceipt, ok: bool)
    ensures AddsOne(AbortFenced(c, cmd, target, reason), c) <==>
            && Named(cmd, target) && IdOk(reason) && IsProvisioned(c) && WitnessEpoch(c) == target
            && (HeadIs(c.cut, Fenced, cmd, target) || HeadIs(c.cut, Importing, cmd, target) || HeadIs(c.cut, Ready, cmd, target))
    ensures AddsOne(MarkImporting(c, cmd, target), c) <==>
            && Named(cmd, target) && HeadIs(c.cut, Fenced, cmd, target)
            && exists f | 0 <= f < |c.cut| :: c.cut[f].phase == SourceFenced && c.cut[f].cmd == cmd && c.cut[f].epoch == target
    ensures MarkReady(cfg, c, cmd, target, br, ok).Ok? ==>
              GapConsumed(c.cut, c.act, ActivationEpoch(c), target) && br.body.epoch == ActivationEpoch(c)
  {
    AddedIsMore(c, CutRow(target, cmd, Aborted, AbortEv(reason)));
    if |c.cut| > 0 {
      AddedIsMore(c, CutRow(target, cmd, Importing, Last(c.cut).evidence));
    }
  }

  // ── provisioning ──

  predicate ProvisioningAt(c: Control, genesis: string, state: ProvState) {
    |c.prov| > 0 && Last(c.prov).genesis == genesis && Last(c.prov).state == state
  }

  /** The first step needs an empty stream or its own marker; the second and third move exactly
      one state on, with the witness. */
  lemma ProvisioningAdmittedIff(cfg: Config, s: System, genesis: string)
    requires Reachable(cfg, s)
    ensures var c, r := s.db, ProvisionIntent(s.db, genesis);
            if 1 <= |genesis| <= 512 && c.prov == [] then r == Ok(c.(prov := [ProvRow(genesis, Intent)]))
            else if 1 <= |genesis| <= 512 && Last(c.prov).genesis == genesis then r == Ok(c)
            else r == Err(Invalid)
    ensures var c, r := s.db, ProvisionGenesis(s.db, genesis);
            if ProvisioningAt(c, genesis, Intent)
            then r == Ok(c.(prov := c.prov + [ProvRow(genesis, Incomplete)], wit := [WitnessRow(0, false)]))
            else if c.prov != [] && Last(c.prov).genesis == genesis then r == Ok(c)
            else r == Err(Invalid)
    ensures var c, r := s.db, ProvisionFinish(s.db, genesis);
            if ProvisioningAt(c, genesis, Incomplete)
            then r == Ok(c.(prov := c.prov + [ProvRow(genesis, Provisioned)], wit := c.wit + [WitnessRow(0, true)]))
            else if c.prov != [] && Last(c.prov).genesis == genesis then r == Ok(c)
            else r == Err(Invalid)
  {
    ReachableInv(cfg, s);
  }
}
