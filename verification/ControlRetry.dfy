/** A caller that repeats an operation after losing its answer changes nothing more, however
    much has happened in between. */
module ControlRetry {
  import opened Wrappers
  import opened ControlModel
  import opened ControlSystem
  import opened CutoverShape
  import opened ControlInvariant
  import opened ControlTheorems

  /** The operation was answered, not refused. */
  predicate Accepted(cfg: Config, s: System, e: Event) {
    match e
    case ProvisionA(g) => ProvisionIntent(s.db, g).Ok?
    case ProvisionB(g) => ProvisionGenesis(s.db, g).Ok?
    // the third transaction of a provision call follows its second
    case ProvisionC(g) => ProvisionFinish(s.db, g).Ok? && Last(s.db.prov).state != Intent
    case Lease(row) => WriteLease(s.db, s.now, row).Ok?
    case Begin(cmd, target) => BeginIntent(s.db, cmd, target).Ok?
    case Bind(cmd, target, fr, ok) => BindSourceFenced(cfg, s.db, cmd, target, fr, ok).Ok?
    case ClaimRedis(call) => call in s.prepared
    case Tx2(call, lag) => call in s.claimed && AdvanceTx2(cfg, s.db, s.redis, s.now, s.now + lag, call).Ok?
    case Import(cmd, target) => MarkImporting(s.db, cmd, target).Ok?
    case Ratify(cmd, target, br, ok) => MarkReady(cfg, s.db, cmd, target, br, ok).Ok?
    case GoLive(cmd, target) => Activate(s.db, cmd, target).Ok?
    case ActivateSrc(cmd, target, br, ok, valid, chain) =>
      ActivateSource(cfg, s.db, s.now, cmd, target, br, ok, valid, chain).Ok?
    case Abort(cmd, target, reason) => AbortFenced(s.db, cmd, target, reason).Ok?
    case _ => true
  }

  // ── the trace an accepted operation leaves ──

  /** The epoch's cutover has come at least as far as rank r. */
  predicate Passed(cut: seq<CutRow>, epoch: nat, r: nat) {
    exists k | 0 <= k < |cut| :: cut[k].epoch == epoch && Rank(cut[k].phase) >= r
  }

  predicate Activated(act: seq<ActRow>, cmd: string) { exists i | 0 <= i < |act| :: act[i].cmd == cmd }

  predicate Done(s: System, e: Event) {
    match e
    case ProvisionA(_) => |s.db.prov| > 0
    case ProvisionB(_) => |s.db.prov| > 0 && Last(s.db.prov).state != Intent
    case ProvisionC(_) => |s.db.prov| > 0 && Last(s.db.prov).state == Provisioned
    case Lease(row) => FindGrant(s.db.lease, row.grantCmd) == Some(row)
    case Begin(_, target) => Passed(s.db.cut, target, 0)
    case Bind(_, target, _, _) => Passed(s.db.cut, target, 1)
    case ClaimRedis(call) => s.redis.Some? && s.redis.value.fenceEpoch >= call.target
    case Tx2(call, _) => Passed(s.db.cut, call.target, 2)
    case Import(_, target) => Passed(s.db.cut, target, 3)
    case Ratify(_, target, _, _) => Passed(s.db.cut, target, 4)
    case GoLive(_, target) => Passed(s.db.cut, target, 5)
    case Abort(_, target, _) => Passed(s.db.cut, target, 5)
    case ActivateSrc(cmd, _, _, _, _, _) => Activated(s.db.act, cmd)
    case _ => true
  }

  lemma {:induction false} FindGrantAppended(rows: seq<LeaseRow>, row: LeaseRow)
    requires FindGrant(rows, row.grantCmd).None?
    ensures FindGrant(rows + [row], row.grantCmd) == Some(row)
  {
    if |rows| > 0 {
      assert (rows + [row])[1..] == rows[1..] + [row];
      FindGrantAppended(rows[1..], row);
    } else {
      assert (rows + [row])[0] == row;
    }
  }

  lemma {:induction false} FindGrantKept(a: seq<LeaseRow>, b: seq<LeaseRow>, cmd: string)
    requires a <= b && FindGrant(a, cmd).Some?
    ensures FindGrant(b, cmd) == FindGrant(a, cmd)
  {
    if a[0].grantCmd != cmd {
      assert a[1..] <= b[1..];
      FindGrantKept(a[1..], b[1..], cmd);
    }
  }

  lemma AcceptedCutover(cfg: Config, s: System, e: Event)
    requires Accepted(cfg, s, e)
    requires e.Begin? || e.Bind? || e.Import? || e.Abort?
    ensures Done(Apply(cfg, s, e), e)
  {
    var t := Apply(cfg, s, e);
    var k := |t.db.cut| - 1;
    assert 0 <= k && t.db.cut[k].epoch == e.target;
  }

  lemma AcceptedRatify(cfg: Config, s: System, e: Event)
    requires Accepted(cfg, s, e) && (e.Ratify? || e.GoLive?)
    ensures Done(Apply(cfg, s, e), e)
  {
    var t := Apply(cfg, s, e);
    var k := |t.db.cut| - 1;
    assert 0 <= k && t.db.cut[k].epoch == e.target;
  }

  lemma AcceptedFence(cfg: Config, s: System, call: Call, lag: nat)
    requires Accepted(cfg, s, Tx2(call, lag))
    ensures Done(Apply(cfg, s, Tx2(call, lag)), Tx2(call, lag))
  {
    var t := Apply(cfg, s, Tx2(call, lag));
    var k := |t.db.cut| - 1;
    assert 0 <= k && t.db.cut[k].epoch == call.target && t.db.cut[k].phase == Fenced;
  }

  lemma AcceptedActivation(cfg: Config, s: System, e: Event)
    requires Accepted(cfg, s, e) && e.ActivateSrc?
    ensures Done(Apply(cfg, s, e), e)
  {
    var t := Apply(cfg, s, e);
    var i := |t.db.act| - 1;
    assert 0 <= i && t.db.act[i].cmd == e.cmd;
  }

  lemma AcceptedDone(cfg: Config, s: System, e: Event)
    requires Accepted(cfg, s, e)
    ensures Done(Apply(cfg, s, e), e)
  {
    if e.Begin? || e.Bind? || e.Import? || e.Abort? {
      AcceptedCutover(cfg, s, e);
    } else if e.Ratify? || e.GoLive? {
      AcceptedRatify(cfg, s, e);
    } else if e.Tx2? {
      AcceptedFence(cfg, s, e.call, e.lag);
    } else if e.ActivateSrc? {
      AcceptedActivation(cfg, s, e);
    } else if e.Lease? && FindGrant(s.db.lease, e.row.grantCmd).None? {
      FindGrantAppended(s.db.lease, e.row);
    }
  }

  // ── it stays ──

  lemma PassedKept(a: seq<CutRow>, b: seq<CutRow>, epoch: nat, r: nat)
    requires a <= b && Passed(a, epoch, r)
    ensures Passed(b, epoch, r)
  {
    var k :| 0 <= k < |a| && a[k].epoch == epoch && Rank(a[k].phase) >= r;
    assert b[k] == a[k];
  }

  lemma ActivatedKept(a: seq<ActRow>, b: seq<ActRow>, cmd: string)
    requires a <= b && Activated(a, cmd)
    ensures Activated(b, cmd)
  {
    var i :| 0 <= i < |a| && a[i].cmd == cmd;
    assert b[i] == a[i];
  }

  /** Provisioning states and the fence record only move forward. */
  lemma ForwardStep(cfg: Config, s: System, e: Event)
    ensures var t := Apply(cfg, s, e);
            && (s.redis.Some? ==> t.redis.Some? && s.redis.value.fenceEpoch <= t.redis.value.fenceEpoch)
            && (|s.db.prov| > 0 ==> |t.db.prov| > 0)
            && (|s.db.prov| > 0 && Last(s.db.prov).state != Intent ==> Last(t.db.prov).state != Intent)
            && (|s.db.prov| > 0 && Last(s.db.prov).state == Provisioned ==> Last(t.db.prov).state == Provisioned)
  {
    if e.ProvisionA? || e.ProvisionB? || e.ProvisionC? || e.ClaimRedis? {
    } else {
      ProvisioningFramed(cfg, s, e);
    }
  }

  lemma ProvisioningFramed(cfg: Config, s: System, e: Event)
    requires !e.ProvisionA? && !e.ProvisionB? && !e.ProvisionC? && !e.ClaimRedis?
    ensures Apply(cfg, s, e).db.prov == s.db.prov && Apply(cfg, s, e).redis == s.redis
  {
  }

  /** What has been done stays done. */
  lemma DoneKept(cfg: Config, s: System, done: Event, e: Event)
    requires Done(s, done)
    ensures Done(Apply(cfg, s, e), done)
  {
    var t := Apply(cfg, s, e);
    StepGrows(cfg, s, e);
    ForwardStep(cfg, s, e);
    match done
    case Lease(row) => FindGrantKept(s.db.lease, t.db.lease, row.grantCmd);
    case Begin(_, target) => PassedKept(s.db.cut, t.db.cut, target, 0);
    case Bind(_, target, _, _) => PassedKept(s.db.cut, t.db.cut, target, 1);
    case Tx2(call, _) => PassedKept(s.db.cut, t.db.cut, call.target, 2);
    case Import(_, target) => PassedKept(s.db.cut, t.db.cut, target, 3);
    case Ratify(_, target, _, _) => PassedKept(s.db.cut, t.db.cut, target, 4);
    case GoLive(_, target) => PassedKept(s.db.cut, t.db.cut, target, 5);
    case Abort(_, target, _) => PassedKept(s.db.cut, t.db.cut, target, 5);
    case ActivateSrc(cmd, _, _, _, _, _) => ActivatedKept(s.db.act, t.db.act, cmd);
    case _ =>
  }

  // ── and makes a repeat quiet ──

  /** A cutover that has passed rank r is never again at an earlier phase of that epoch. */
  lemma HeadNotBefore(cut: seq<CutRow>, phase: Phase, cmd: string, epoch: nat, r: nat)
    requires Shape(cut) && Passed(cut, epoch, r) && Rank(phase) < r
    ensures !HeadIs(cut, phase, cmd, epoch)
  {
    var k :| 0 <= k < |cut| && cut[k].epoch == epoch && Rank(cut[k].phase) >= r;
    if k < |cut| - 1 {
      RowOrder(cut, k, |cut| - 1);
    }
  }

  predicate Quiet(cfg: Config, s: System, e: Event) {
    Apply(cfg, s, e).db == s.db && Apply(cfg, s, e).redis == s.redis
  }

  lemma CutoverQuiet(cfg: Config, s: System, e: Event)
    requires CutoverInv(s.db) && Done(s, e) && (e.Bind? || e.Import? || e.Ratify? || e.GoLive?)
    ensures Quiet(cfg, s, e)
  {
    match e
    case Bind(cmd, target, _, _) => HeadNotBefore(s.db.cut, Preparing, cmd, target, 1);
    case Import(cmd, target) => HeadNotBefore(s.db.cut, Fenced, cmd, target, 3);
    case Ratify(cmd, target, _, _) => HeadNotBefore(s.db.cut, Importing, cmd, target, 4);
    case GoLive(cmd, target) => HeadNotBefore(s.db.cut, Ready, cmd, target, 5);
  }

  lemma AbortQuiet(cfg: Config, s: System, cmd: string, target: nat, reason: string)
    requires CutoverInv(s.db) && Done(s, Abort(cmd, target, reason))
    ensures Quiet(cfg, s, Abort(cmd, target, reason))
  {
    HeadNotBefore(s.db.cut, Fenced, cmd, target, 5);
    HeadNotBefore(s.db.cut, Importing, cmd, target, 5);
    HeadNotBefore(s.db.cut, Ready, cmd, target, 5);
  }

  lemma FenceQuiet(cfg: Config, s: System, call: Call, lag: nat)
    requires CutoverInv(s.db) && Done(s, Tx2(call, lag))
    ensures Quiet(cfg, s, Tx2(call, lag))
  {
    HeadNotBefore(s.db.cut, SourceFenced, call.cmd, call.target, 2);
  }

  lemma BeginQuiet(cfg: Config, s: System, cmd: string, target: nat)
    requires CutoverInv(s.db) && Done(s, Begin(cmd, target))
    ensures Quiet(cfg, s, Begin(cmd, target))
  {
    var k :| 0 <= k < |s.db.cut| && s.db.cut[k].epoch == target;
    EpochBound(s.db.cut, k);
  }

  lemma ActivationQuiet(cfg: Config, s: System, e: Event)
    requires Done(s, e) && e.ActivateSrc?
    ensures Quiet(cfg, s, e)
  {
    var i :| 0 <= i < |s.db.act| && s.db.act[i].cmd == e.cmd;
  }

  lemma DoneQuiet(cfg: Config, s: System, e: Event)
    requires CutoverInv(s.db) && Done(s, e)
    ensures Quiet(cfg, s, e)
  {
    match e
    case Begin(cmd, target) => BeginQuiet(cfg, s, cmd, target);
    case Abort(cmd, target, reason) => AbortQuiet(cfg, s, cmd, target, reason);
    case Tx2(call, lag) => FenceQuiet(cfg, s, call, lag);
    case ActivateSrc(_, _, _, _, _, _) => ActivationQuiet(cfg, s, e);
    case Bind(_, _, _, _) => CutoverQuiet(cfg, s, e);
    case Import(_, _) => CutoverQuiet(cfg, s, e);
    case Ratify(_, _, _, _) => CutoverQuiet(cfg, s, e);
    case GoLive(_, _) => CutoverQuiet(cfg, s, e);
    case _ =>
  }

  lemma {:induction false} DoneForever(cfg: Config, s: System, e: Event, more: seq<Event>)
    requires Done(s, e)
    ensures Done(Run(cfg, s, more), e)
  {
    if |more| > 0 {
      DoneForever(cfg, s, e, more[..|more| - 1]);
      DoneKept(cfg, Run(cfg, s, more[..|more| - 1]), e, Last(more));
    }
  }

  /** An operation accepted in a reachable state and repeated after any run whatever changes
      neither a table nor the fence record. */
  lemma RetryIsQuiet(cfg: Config, s: System, e: Event, more: seq<Event>)
    requires Reachable(cfg, s) && Accepted(cfg, s, e)
    ensures var t := Run(cfg, Apply(cfg, s, e), more); Quiet(cfg, t, e)
  {
    var first := Apply(cfg, s, e);
    AcceptedDone(cfg, s, e);
    DoneForever(cfg, first, e, more);
    ReachNext(cfg, s, e);
    ReachRun(cfg, first, more);
    ReachableInv(cfg, Run(cfg, first, more));
    DoneQuiet(cfg, Run(cfg, first, more), e);
  }

  // ── the answer of a repeated source activation ──

  /** On the same ledger and cutover a repeat at any clock returns the grant of the first call. */
  lemma SameLedgerSameGrant(cfg: Config, c: Control, d: Control, now: nat, later: nat, cmd: string, target: nat,
                            br: FinalizedReceipt, verified: bool, valid: Grant -> bool, chain: seq<Grant>)
    requires var r := ActivateSource(cfg, c, now, cmd, target, br, verified, valid, chain);
             r.Ok? && valid(r.value.1) && d.act == r.value.0.act && d.cut == r.value.0.cut
    ensures var r := ActivateSource(cfg, c, now, cmd, target, br, verified, valid, chain);
            ActivateSource(cfg, d, later, cmd, target, br, verified, valid, chain) == Ok((d, r.value.1))
  {
  }

  /** An activation is of the cutover's head, and the ledger's newest. */
  lemma ActivationIsNewest(cfg: Config, c: Control, now: nat, cmd: string, target: nat, br: FinalizedReceipt,
                           verified: bool, valid: Grant -> bool, chain: seq<Grant>)
    requires ActivateSource(cfg, c, now, cmd, target, br, verified, valid, chain).Ok?
    ensures var d := ActivateSource(cfg, c, now, cmd, target, br, verified, valid, chain).value.0;
            && d.cut == c.cut && |d.cut| > 0 && RatifiedRow(Last(d.cut), cmd, target, br)
            && |d.act| > 0 && Last(d.act).epoch == target
  {
  }

  /** While the cutover stands, no further activation is possible. */
  lemma LedgerStands(cfg: Config, s: System, t: System)
    requires Reachable(cfg, s) && Reachable(cfg, t) && Extends(s.db, t.db) && t.db.cut == s.db.cut
    requires |s.db.act| > 0 && |s.db.cut| > 0 && Last(s.db.act).epoch == Last(s.db.cut).epoch
    ensures t.db.act == s.db.act
  {
    if |t.db.act| > |s.db.act| {
      var n := |s.db.act|;
      ActivationLedger(cfg, t);
      assert t.db.act[n - 1].epoch < t.db.act[n].epoch;
      assert WentLive(t.db.cut, t.db.act[n]);
      var a :| 0 <= a < |t.db.cut| && t.db.cut[a].epoch == t.db.act[n].epoch;
      ReachableInv(cfg, t);
      EpochBound(t.db.cut, a);
    }
  }

  /** Once the cutover has moved on, its head is no ACTIVE row of the activated epoch. */
  lemma HeadMovedOn(cut: seq<CutRow>, n: nat)
    requires Shape(cut) && 0 < n < |cut| && cut[n - 1].phase == Active
    ensures Last(cut).epoch != cut[n - 1].epoch
  {
    RowOrder(cut, n - 1, |cut| - 1);
  }

  /** A source activation repeated after any run, at its later clock: it returns the first
      call's grant exactly until the next promotion begins and is refused from then on; a second
      grant is never minted. */
  lemma ActivateRetry(cfg: Config, s: System, e: Event, more: seq<Event>, r: Result<(Control, Grant), Fault>)
    requires Reachable(cfg, s) && e.ActivateSrc?
    requires r == ActivateSource(cfg, s.db, s.now, e.cmd, e.target, e.br, e.verified, e.valid, e.chain)
    requires r.Ok? && e.valid(r.value.1)
    ensures var t := Run(cfg, Apply(cfg, s, e), more);
            ActivateSource(cfg, t.db, t.now, e.cmd, e.target, e.br, e.verified, e.valid, e.chain) ==
            if t.db.cut == s.db.cut then Ok((t.db, r.value.1)) else Err(Quarantine)
  {
    var first := Apply(cfg, s, e);
    var t := Run(cfg, first, more);
    ActivationIsNewest(cfg, s.db, s.now, e.cmd, e.target, e.br, e.verified, e.valid, e.chain);
    ReachNext(cfg, s, e);
    ReachRun(cfg, first, more);
    HistoriesGrow(cfg, first, more);
    if t.db.cut == s.db.cut {
      LedgerStands(cfg, first, t);
      SameLedgerSameGrant(cfg, s.db, t.db, s.now, t.now, e.cmd, e.target, e.br, e.verified, e.valid, e.chain);
    } else {
      ReachableInv(cfg, t);
      HeadMovedOn(t.db.cut, |s.db.cut|);
    }
  }

  // ── minted grants continue the target's chain ──

  lemma {:induction false} NoFaultLater(cfg: Config, chain: seq<Grant>, valid: Grant -> bool, target: nat, later: nat)
    requires PriorChainFault(cfg, chain, valid, target).None? && target <= later
    ensures PriorChainFault(cfg, chain, valid, later).None?
    ensures forall i | 0 <= i < |chain| :: chain[i].body.leaseEpoch < target
  {
    if |chain| > 0 {
      NoFaultLater(cfg, chain[..|chain| - 1], valid, target, later);
    }
  }

  lemma {:induction false} LatestAbsent(chain: seq<Grant>, e: nat)
    requires forall i | 0 <= i < |chain| :: chain[i].body.leaseEpoch != e
    ensures LatestAtEpoch(chain, e).None?
  {
    if |chain| > 0 {
      LatestAbsent(chain[..|chain| - 1], e);
    }
  }

  /** A fresh activation's grant, appended to the chain the target presented, is again a chain
      that a later activation accepts: contiguous, linked, at a new epoch. */
  lemma GrantExtendsChain(cfg: Config, c: Control, now: nat, cmd: string, target: nat, br: FinalizedReceipt,
                          verified: bool, valid: Grant -> bool, chain: seq<Grant>, later: nat)
    requires var r := ActivateSource(cfg, c, now, cmd, target, br, verified, valid, chain);
             r.Ok? && r.value.0 != c && valid(r.value.1)
    requires target < later
    ensures var grant := ActivateSource(cfg, c, now, cmd, target, br, verified, valid, chain).value.1;
            && PriorChainFault(cfg, chain + [grant], valid, later).None?
            && grant.body.holder == br.bKeyId && grant.body.leaseEpoch == target
  {
    var grant := MintGrant(cfg, now, cmd, target, br.bKeyId, chain);
    NoFaultLater(cfg, chain, valid, target, later);
    LatestAbsent(chain, target);
    assert (chain + [grant])[..|chain + [grant]| - 1] == chain;
    assert GrantFault(cfg, chain, grant, valid, later).None?;
  }
}
