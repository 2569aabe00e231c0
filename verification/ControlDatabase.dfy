/** The control tables with their signed links, updated in place.  Every method is proved
    against its transaction in ControlModel; every table a method leaves behind verifies. */
module ControlDatabase {
  import opened Wrappers
  import opened ControlModel
  import opened CutoverShape
  import opened SignedChain

  datatype Guards = Guards(
    prov: Guard<ProvRow>, wit: Guard<WitnessRow>, lease: Guard<LeaseRow>, cut: Guard<CutRow>, act: Guard<ActRow>)

  ghost predicate SoundGuards(g: Guards) {
    Sound(g.prov) && Sound(g.wit) && Sound(g.lease) && Sound(g.cut) && Sound(g.act)
  }

  /** Verify a table before its head is used; a table that only Write has touched always
      verifies. */
  method Read<Row(!new)>(g: Guard<Row>, t: Table<Row>) returns (head: Option<Link<Row>>)
    requires TableOk(g, t)
    ensures head == t.head
    ensures head.Some? ==> head.value.seqno == |t.history| && head.value.row == Last(Rows(t.history))
    ensures head.None? ==> Rows(t.history) == []
  {
    if t.head.Some? {
      LastLink(g, t.history);
      var ok := VerifyChain(g, t.history, t.head.value);
      assert ok;
    }
    return t.head;
  }

  // ── the activation gap rule as the source computes it ──

  function TerminalsOf(p: seq<Phase>): seq<Phase> {
    if |p| == 0 then [] else TerminalsOf(p[..|p| - 1]) + if Terminal(Last(p)) then [Last(p)] else []
  }

  lemma {:induction false} TerminalsArePhases(cut: seq<CutRow>, e: nat)
    ensures TerminalsOf(PhasesAt(cut, e)) == TerminalsAt(cut, e)
  {
    if |cut| > 0 {
      var before := PhasesAt(cut[..|cut| - 1], e);
      TerminalsArePhases(cut[..|cut| - 1], e);
      var all := before + [Last(cut).phase];
      assert all[..|all| - 1] == before && Last(all) == Last(cut).phase;
      assert Last(cut).epoch != e ==> PhasesAt(cut, e) == before;
    }
  }

  function PhaseList(phases: map<nat, seq<Phase>>, e: nat): seq<Phase> {
    if e in phases then phases[e] else []
  }

  method AssertConsumedActivationEpochs(current: nat, target: nat, cut: seq<CutRow>, act: seq<ActRow>)
    returns (r: Result<(), Fault>)
    ensures r == if GapConsumed(cut, act, current, target) then Ok(()) else Err(Quarantine)
  {
    if target <= current {
      return Err(Quarantine);
    }
    var activated := set i | 0 <= i < |act| :: act[i].epoch;
    var phases: map<nat, seq<Phase>> := map[];
    for i := 0 to |cut|
      invariant forall e :: PhaseList(phases, e) == PhasesAt(cut[..i], e)
    {
      var list := PhaseList(phases, cut[i].epoch) + [cut[i].phase];
      assert cut[..i + 1][..i] == cut[..i];
      phases := phases[cut[i].epoch := list];
    }
    assert cut[..|cut|] == cut;
    assert forall i | 0 <= i < |act| :: act[i].epoch in activated;
    for epoch := current + 1 to target
      invariant forall e: nat | current < e < epoch ::
                  TerminalsAt(cut, e) == [Aborted] && forall i | 0 <= i < |act| :: act[i].epoch != e
    {
      TerminalsArePhases(cut, epoch);
      if epoch in activated {
        var i :| 0 <= i < |act| && act[i].epoch == epoch;
        return Err(Quarantine);
      }
      if TerminalsOf(PhaseList(phases, epoch)) != [Aborted] {
        return Err(Quarantine);
      }
    }
    return Ok(());
  }

  // ── a returning target's lease chain ──

  datatype Identity = Identity(holder: string, leaseId: string, revoked: bool)

  function IdentityOf(g: Grant): Identity {
    Identity(g.body.holder, g.body.leaseId, g.body.leaseStatus == LeaseRevoked)
  }

  lemma {:induction false} FaultSticks(cfg: Config, chain: seq<Grant>, valid: Grant -> bool, target: nat, k: nat)
    requires k <= |chain| && PriorChainFault(cfg, chain[..k], valid, target).Some?
    ensures PriorChainFault(cfg, chain, valid, target) == PriorChainFault(cfg, chain[..k], valid, target)
  {
    if k == |chain| {
      assert chain[..k] == chain;
    } else {
      var init := chain[..|chain| - 1];
      assert init[..k] == chain[..k];
      FaultSticks(cfg, init, valid, target, k);
    }
  }

  method CheckPriorChain(cfg: Config, chain: seq<Grant>, valid: Grant -> bool, target: nat)
    returns (fault: Option<Fault>)
    ensures fault == PriorChainFault(cfg, chain, valid, target)
  {
    var chainPrev: Option<string> := None;
    var identities: map<nat, Identity> := map[];
    for i := 0 to |chain|
      invariant PriorChainFault(cfg, chain[..i], valid, target).None?
      invariant chainPrev == PriorDigest(chain[..i])
      invariant forall e :: e in identities <==> LatestAtEpoch(chain[..i], e).Some?
      invariant forall e | e in identities :: identities[e] == IdentityOf(LatestAtEpoch(chain[..i], e).value)
    {
      var g := chain[i];
      assert chain[..i + 1][..i] == chain[..i];
      assert PriorChainFault(cfg, chain[..i + 1], valid, target) == GrantFault(cfg, chain[..i], g, valid, target);
      fault := None;
      if !valid(g) {
        fault := Some(Invalid);
      } else if g.body.streamId != cfg.streamId {
        fault := Some(Quarantine);
      } else if g.body.grantSeq != i + 1 || g.body.prevGrantDigest != chainPrev {
        fault := Some(Quarantine);
      } else if g.body.leaseEpoch >= target {
        fault := Some(Quarantine);
      } else if g.body.leaseEpoch in identities {
        var id := identities[g.body.leaseEpoch];
        if id.holder != g.body.holder || id.leaseId != g.body.leaseId || id.revoked {
          fault := Some(Quarantine);
        }
      }
      if fault.Some? {
        FaultSticks(cfg, chain, valid, target, i + 1);
        return;
      }
      identities := identities[g.body.leaseEpoch := IdentityOf(g)];
      chainPrev := Some(g.grantDigest);
    }
    assert chain[..|chain|] == chain;
    return None;
  }

  /** What a transaction promises: the specified result and state, or its fault and no change. */
  ghost predicate Outcome<R>(spec: Result<(Control, R), Fault>, before: Control, r: Result<R, Fault>, after: Control) {
    match spec
    case Ok(p) => r == Ok(p.1) && after == p.0
    case Err(f) => r == Err(f) && after == before
  }

  ghost predicate OutcomeBare(spec: Result<Control, Fault>, before: Control, r: Result<(), Fault>, after: Control) {
    match spec
    case Ok(c) => r == Ok(()) && after == c
    case Err(f) => r == Err(f) && after == before
  }

  class ControlTables {
    const cfg: Config
    const guards: Guards
    var prov: Table<ProvRow>
    var wit: Table<WitnessRow>
    var lease: Table<LeaseRow>
    var cut: Table<CutRow>
    var act: Table<ActRow>

    ghost predicate Valid()
      reads this
    {
      && SoundGuards(guards) && guards.lease.digestOf == cfg.leaseDigest
      && TableOk(guards.prov, prov) && TableOk(guards.wit, wit) && TableOk(guards.lease, lease)
      && TableOk(guards.cut, cut) && TableOk(guards.act, act)
    }

    /** The database as ControlModel sees it. */
    ghost function View(): Control
      reads this
    {
      Control(Rows(prov.history), Rows(wit.history), Rows(lease.history), Rows(cut.history), Rows(act.history))
    }

    constructor (cfg: Config, guards: Guards)
      requires SoundGuards(guards) && guards.lease.digestOf == cfg.leaseDigest
      ensures Valid() && View() == EMPTY && this.cfg == cfg && this.guards == guards
    {
      this.cfg, this.guards := cfg, guards;
      prov, wit, lease := Table(None, []), Table(None, []), Table(None, []);
      cut, act := Table(None, []), Table(None, []);
    }

    // ── signed transitions of each table ──

    method AppendProvisioning(row: ProvRow)
      requires Valid()
      modifies this`prov
      ensures Valid() && View() == old(View()).(prov := old(View()).prov + [row])
    {
      WriteKeeps(guards.prov, prov, row);
      prov := Write(guards.prov, prov, row);
    }

    method AppendWitness(row: WitnessRow)
      requires Valid()
      modifies this`wit
      ensures Valid() && View() == old(View()).(wit := old(View()).wit + [row])
    {
      WriteKeeps(guards.wit, wit, row);
      wit := Write(guards.wit, wit, row);
    }

    method AppendLease(row: LeaseRow)
      requires Valid()
      modifies this`lease
      ensures Valid() && View() == old(View()).(lease := old(View()).lease + [row])
    {
      WriteKeeps(guards.lease, lease, row);
      lease := Write(guards.lease, lease, row);
    }

    method AppendActivation(row: ActRow)
      requires Valid()
      modifies this`act
      ensures Valid() && View() == old(View()).(act := old(View()).act + [row])
    {
      WriteKeeps(guards.act, act, row);
      act := Write(guards.act, act, row);
    }

    // ── provisioning saga ──

    method ProvisionA(genesis: string) returns (r: Result<(), Fault>)
      requires Valid()
      modifies this`prov
      ensures Valid() && OutcomeBare(ProvisionIntent(old(View()), genesis), old(View()), r, View())
    {
      if !(1 <= |genesis| <= 512) {
        return Err(Invalid);
      }
      var cur := Read(guards.prov, prov);
      if cur.Some? {
        return if cur.value.row.genesis == genesis then Ok(()) else Err(Invalid);
      }
      AppendProvisioning(ProvRow(genesis, Intent));
      return Ok(());
    }

    method ProvisionB(genesis: string) returns (r: Result<(), Fault>)
      requires Valid()
      modifies this`prov, this`wit
      ensures Valid() && OutcomeBare(ProvisionGenesis(old(View()), genesis), old(View()), r, View())
    {
      var cur := Read(guards.prov, prov);
      if cur.None? || cur.value.row.genesis != genesis {
        return Err(Invalid);
      }
      if cur.value.row.state == Intent {
        AppendProvisioning(ProvRow(genesis, Incomplete));
        if wit.head.None? {
          AppendWitness(WitnessRow(0, false));
        }
      }
      return Ok(());
    }

    method ProvisionC(genesis: string) returns (r: Result<(), Fault>)
      requires Valid()
      modifies this`prov, this`wit
      ensures Valid() && OutcomeBare(ProvisionFinish(old(View()), genesis), old(View()), r, View())
    {
      var cur := Read(guards.prov, prov);
      if cur.None? || cur.value.row.genesis != genesis {
        return Err(Invalid);
      }
      if cur.value.row.state == Incomplete {
        var w := Read(guards.wit, wit);
        if w.None? {
          return Err(Invalid);
        }
        AppendProvisioning(ProvRow(genesis, Provisioned));
        AppendWitness(WitnessRow(0, true));
      }
      return Ok(());
    }

    // ── leases ──

    method GrantLease(now: nat, row: LeaseRow) returns (r: Result<LeaseRow, Fault>)
      requires Valid()
      modifies this`lease
      ensures Valid() && Outcome(WriteLease(old(View()), now, row), old(View()), r, View())
    {
      if !(IdOk(row.leaseId) && IdOk(row.holder) && IdOk(row.grantCmd)) || row.epoch > MAX_EPOCH || row.maxExpiry > MAX_MS {
        return Err(Invalid);
      }
      var w := Read(guards.wit, wit);
      if w.None? || !w.value.row.provisioned {
        return Err(Quarantine);
      }
      if row.epoch != w.value.row.epoch || row.maxExpiry > now + MAX_LEASE_HORIZON_MS {
        return Err(Invalid);
      }
      var cur := Read(guards.cut, cut);
      if cur.Some? && InFlight(cur.value.row.phase) && row.status == LeaseActive {
        return Err(Quarantine);
      }
      var _ := Read(guards.lease, lease);
      var rows := Rows(lease.history);
      var byCmd := FindGrant(rows, row.grantCmd);
      if byCmd.Some? {
        return if byCmd.value == row then Ok(byCmd.value) else Err(Quarantine);
      }
      var first := FirstAtEpoch(rows, row.epoch);
      if first.Some? && (first.value.holder != row.holder || first.value.leaseId != row.leaseId) {
        return Err(Quarantine);
      }
      if row.maxExpiry < MaxExpiryAt(rows, row.epoch) {
        return Err(Invalid);
      }
      AppendLease(row);
      return Ok(row);
    }

    // ── cutover ──

    /** cutTransition. */
    method Transition(row: CutRow) returns (r: Result<CutRow, Fault>)
      requires Valid()
      modifies this`cut
      ensures Valid() && r == Ok(row) && View() == Append(old(View()), row).0
    {
      WriteKeeps(guards.cut, cut, row);
      cut := Write(guards.cut, cut, row);
      return Ok(row);
    }

    method ReadCutover() returns (cur: Option<CutRow>)
      requires Valid()
      ensures cur == if |View().cut| == 0 then None else Some(Last(View().cut))
    {
      var head := Read(guards.cut, cut);
      return if head.None? then None else Some(head.value.row);
    }

    /** The witnessed epoch of a provisioned stream. */
    method ReadWitness() returns (w: Option<nat>)
      requires Valid()
      ensures w == if IsProvisioned(View()) then Some(WitnessEpoch(View())) else None
    {
      var head := Read(guards.wit, wit);
      return if head.None? || !head.value.row.provisioned then None else Some(head.value.row.epoch);
    }

    method ReadActivationEpoch() returns (e: nat)
      requires Valid()
      ensures e == ActivationEpoch(View())
    {
      var head := Read(guards.act, act);
      return if head.None? then 0 else head.value.row.epoch;
    }

    method AssertActivationGap(current: nat, target: nat) returns (r: Result<(), Fault>)
      ensures r == if GapConsumed(View().cut, View().act, current, target) then Ok(()) else Err(Quarantine)
    {
      r := AssertConsumedActivationEpochs(current, target, Rows(cut.history), Rows(act.history));
    }

    method BeginPromotionIntent(cmd: string, target: nat) returns (r: Result<CutRow, Fault>)
      requires Valid()
      modifies this`cut
      ensures Valid() && Outcome(BeginIntent(old(View()), cmd, target), old(View()), r, View())
    {
      if !CommandOk(cmd, target) {
        return Err(Invalid);
      }
      var w := ReadWitness();
      if w.None? {
        return Err(Quarantine);
      }
      if target != w.value + 1 {
        return Err(Invalid);
      }
      var cur := ReadCutover();
      if cur.Some? && !Terminal(cur.value.phase) {
        return if cur.value.cmd == cmd && cur.value.epoch == target then Ok(cur.value) else Err(Quarantine);
      }
      r := Transition(CutRow(target, cmd, Preparing, NoEvidence));
    }

    method AbortFencedPromotion(cmd: string, target: nat, reason: string) returns (r: Result<CutRow, Fault>)
      requires Valid()
      modifies this`cut
      ensures Valid() && Outcome(AbortFenced(old(View()), cmd, target, reason), old(View()), r, View())
    {
      if !CommandOk(cmd, target) || !IdOk(reason) {
        return Err(Invalid);
      }
      var cur := ReadCutover();
      if cur.Some? && cur.value.phase == Aborted && cur.value.cmd == cmd && cur.value.epoch == target {
        return if cur.value.evidence == AbortEv(reason) then Ok(cur.value) else Err(Quarantine);
      }
      if cur.None? || cur.value.cmd != cmd || cur.value.epoch != target ||
         cur.value.phase !in {Fenced, Importing, Ready} {
        return Err(Quarantine);
      }
      assert HeadIs(View().cut, cur.value.phase, cmd, target);
      var w := ReadWitness();
      if w != Some(target) {
        return Err(Quarantine);
      }
      r := Transition(CutRow(target, cmd, Aborted, AbortEv(reason)));
    }

    method Bind(cmd: string, target: nat, fr: FrozenReceipt, verified: bool) returns (r: Result<CutRow, Fault>)
      requires Valid()
      modifies this`cut
      ensures Valid() && Outcome(BindSourceFenced(cfg, old(View()), cmd, target, fr, verified), old(View()), r, View())
    {
      if !CommandOk(cmd, target) || !verified {
        return Err(Invalid);
      }
      if fr.commandId != cmd || fr.streamId != cfg.streamId {
        return Err(Quarantine);
      }
      var sourceEpoch := ReadActivationEpoch();
      var _ :- AssertActivationGap(sourceEpoch, target);
      if fr.epoch != sourceEpoch {
        return Err(Quarantine);
      }
      var cur := ReadCutover();
      if cur.None? || cur.value.cmd != cmd || cur.value.epoch != target {
        return Err(Quarantine);
      }
      if cur.value.phase == SourceFenced {
        return if cur.value.evidence == BoundFreeze(fr) then Ok(cur.value) else Err(Quarantine);
      }
      if cur.value.phase != Preparing {
        return Err(Quarantine);
      }
      r := Transition(CutRow(target, cmd, SourceFenced, BoundFreeze(fr)));
    }

    // ── advanceEpoch ──

    /** proveOldFenced: the fenced lease's holder, sequence, digest and horizon. */
    method ProveOldFenced(now: nat, target: nat, margin: nat) returns (r: Result<(string, nat, string, nat), Fault>)
      requires Valid()
      ensures r.Ok? <==> OldFenced(View(), now, target, margin)
      ensures r.Err? ==> r.error == Quarantine
      ensures r.Ok? ==> var rows := View().lease;
                        r.value == (Last(rows).holder, |rows|, LeaseHeadDigest(cfg, rows).value,
                                    MaxExpiryAt(rows, Last(rows).epoch))
    {
      var head := Read(guards.lease, lease);
      if head.None? || head.value.row.epoch + 1 != target || head.value.row.status != LeaseRevoked {
        return Err(Quarantine);
      }
      var horizon := MaxExpiryAt(Rows(lease.history), head.value.row.epoch);
      if now < horizon + margin {
        return Err(Quarantine);
      }
      LastLink(guards.lease, lease.history);
      LeaseDigestIsHead(cfg, guards.lease, lease.history);
      return Ok((head.value.row.holder, head.value.seqno, head.value.digest, horizon));
    }

    method AdvanceEpochTx1(redis: Option<FenceRecord>, now: nat, cmd: string, target: nat, holder: string,
                           margin: nat, claimExpiry: nat) returns (r: Result<Prepared, Fault>)
      requires Valid()
      ensures r == AdvanceTx1(cfg, View(), redis, now, cmd, target, holder, margin, claimExpiry)
    {
      if !CallOk(cmd, target, holder, margin, claimExpiry) {
        return Err(Invalid);
      }
      var cur := ReadCutover();
      if cur.None? || cur.value.cmd != cmd || cur.value.epoch != target {
        return Err(Invalid);
      }
      if cur.value.phase == Fenced {
        return Ok(AlreadyFenced(cur.value.evidence));
      }
      if cur.value.phase != SourceFenced {
        return Err(Invalid);
      }
      var w := ReadWitness();
      if w.None? {
        return Err(Quarantine);
      }
      if w.value + 1 != target {
        return Err(Invalid);
      }
      var ev :- ProveOldFenced(now, target, margin);
      if !RedisAuthority(redis, w.value, cmd, target) {
        return Err(Quarantine);
      }
      return Ok(Proceed(Call(cmd, target, holder, margin, claimExpiry, Some(ev.2))));
    }

    method AdvanceEpochTx2(redis: Option<FenceRecord>, now: nat, nowFinal: nat, call: Call) returns (r: Result<(), Fault>)
      requires Valid()
      modifies this`wit, this`cut
      ensures Valid()
      ensures OutcomeBare(AdvanceTx2(cfg, old(View()), redis, now, nowFinal, call), old(View()), r, View())
    {
      var cur := ReadCutover();
      if cur.None? || cur.value.cmd != call.cmd || cur.value.epoch != call.target {
        return Err(Invalid);
      }
      if cur.value.phase == Fenced {
        r := ReconcileRetry(cfg, redis, cur.value.evidence, call.cmd);
        return;
      }
      if cur.value.phase != SourceFenced {
        return Err(Invalid);
      }
      var evidence :- CheckFence(redis, now, nowFinal, call);
      AppendWitness(WitnessRow(call.target, true));
      var _ := Transition(CutRow(call.target, call.cmd, Fenced, FencedEv(evidence)));
      return Ok(());
    }

    /** The re-assertions of Tx2, and the evidence they give. */
    method CheckFence(redis: Option<FenceRecord>, now: nat, nowFinal: nat, call: Call)
      returns (r: Result<FenceEvidence, Fault>)
      requires Valid()
      ensures r.Ok? <==> FenceHolds(cfg, View(), redis, now, nowFinal, call)
      ensures r == if r.Ok? then Ok(EvidenceOf(cfg, View(), now, call, ClaimOf(call))) else Err(Quarantine)
    {
      var w := ReadWitness();
      if w.None? || w.value + 1 != call.target {
        return Err(Quarantine);
      }
      var ev :- ProveOldFenced(now, call.target, call.margin);
      if Some(ev.2) != call.leaseDigest || redis != Some(ClaimOf(call)) ||
         redis.value.expiresAt < nowFinal + cfg.minRemaining {
        return Err(Quarantine);
      }
      return Ok(FenceEvidence(ev.0, ev.1, ev.2, ev.3, now, call.margin,
                              redis.value.nodeId, redis.value.fenceEpoch, redis.value.expiresAt,
                              cfg.claimDigest(redis.value), call.target - 1, call.target));
    }

    // ── import, ratification, go-live ──

    method Import(cmd: string, target: nat) returns (r: Result<CutRow, Fault>)
      requires Valid()
      modifies this`cut
      ensures Valid() && Outcome(MarkImporting(old(View()), cmd, target), old(View()), r, View())
    {
      if !CommandOk(cmd, target) {
        return Err(Invalid);
      }
      var cur := ReadCutover();
      if cur.None? || cur.value.cmd != cmd || cur.value.epoch != target {
        return Err(Quarantine);
      }
      if cur.value.phase == Importing {
        return Ok(cur.value);
      }
      if cur.value.phase != Fenced || FindPhase(Rows(cut.history), cmd, target, SourceFenced).None? {
        return Err(Quarantine);
      }
      r := Transition(CutRow(target, cmd, Importing, cur.value.evidence));
    }

    /** B's receipt against the bound freeze and the current source. */
    method CheckFreeze(cmd: string, target: nat, b: FinalizedBody) returns (ok: bool)
      requires Valid()
      ensures ok <==> FreezeBound(View(), cmd, target, b)
    {
      var sf := FindPhase(Rows(cut.history), cmd, target, SourceFenced);
      if sf.None? || !sf.value.SourceFencedEv? {
        return false;
      }
      if b.frozenDigest != sf.value.frozenDigest || b.n != sf.value.n ||
         b.headAtN != sf.value.headAtN || b.stateAtN != sf.value.stateAtN {
        return false;
      }
      var sourceEpoch := ReadActivationEpoch();
      var gap := AssertActivationGap(sourceEpoch, target);
      return gap.Ok? && sf.value.sourceEpoch == sourceEpoch && b.epoch == sf.value.sourceEpoch;
    }

    method Ratify(cmd: string, target: nat, br: FinalizedReceipt, verified: bool) returns (r: Result<CutRow, Fault>)
      requires Valid()
      modifies this`cut
      ensures Valid() && Outcome(MarkReady(cfg, old(View()), cmd, target, br, verified), old(View()), r, View())
    {
      if !CommandOk(cmd, target) || !FinalizedOk(cfg, br, verified) {
        return Err(Invalid);
      }
      if br.body.commandId != cmd || br.body.streamId != cfg.streamId {
        return Err(Quarantine);
      }
      var cur := ReadCutover();
      if cur.None? || cur.value.cmd != cmd || cur.value.epoch != target || cur.value.phase !in {Importing, Ready} {
        return Err(Quarantine);
      }
      var bound := CheckFreeze(cmd, target, br.body);
      if !bound {
        return Err(Quarantine);
      }
      if br.body.bSystemId == br.body.sourceSystemId || br.body.bSystemId == cfg.systemId {
        return Err(Quarantine);
      }
      var evidence := RatifiedEvidence(cfg, br);
      if cur.value.phase == Ready {
        return if cur.value.evidence == evidence then Ok(cur.value) else Err(Quarantine);
      }
      r := Transition(CutRow(target, cmd, Ready, evidence));
    }

    method GoLive(cmd: string, target: nat) returns (r: Result<CutRow, Fault>)
      requires Valid()
      modifies this`cut
      ensures Valid() && Outcome(Activate(old(View()), cmd, target), old(View()), r, View())
    {
      if !CommandOk(cmd, target) {
        return Err(Invalid);
      }
      var cur := ReadCutover();
      if cur.None? || cur.value.cmd != cmd || cur.value.epoch != target || cur.value.phase !in {Ready, Active} {
        return Err(Quarantine);
      }
      var rd := FindPhase(Rows(cut.history), cmd, target, Ready);
      if rd.None? || !rd.value.ReadyEv? {
        return Err(Quarantine);
      }
      var evidence := GoLiveEvidence(rd.value);
      if cur.value.phase == Active {
        return if cur.value.evidence == evidence then Ok(cur.value) else Err(Quarantine);
      }
      r := Transition(CutRow(target, cmd, Active, evidence));
    }

    // ── source activation ──

    method ActivateTarget(now: nat, cmd: string, target: nat, br: FinalizedReceipt, verified: bool,
                          valid: Grant -> bool, chain: seq<Grant>) returns (r: Result<Grant, Fault>)
      requires Valid()
      modifies this`act
      ensures Valid()
      ensures Outcome(ActivateSource(cfg, old(View()), now, cmd, target, br, verified, valid, chain), old(View()), r, View())
    {
      var fault := CheckRequest(cfg, cmd, target, br, verified, valid, chain);
      if fault.Some? {
        return Err(fault.value);
      }
      r := ActivateRatified(now, cmd, target, br, valid, chain);
    }

    method ActivateRatified(now: nat, cmd: string, target: nat, br: FinalizedReceipt,
                            valid: Grant -> bool, chain: seq<Grant>) returns (r: Result<Grant, Fault>)
      requires Valid()
      modifies this`act
      ensures Valid()
      ensures Outcome(ActivateInTx(cfg, old(View()), now, cmd, target, br, valid, chain), old(View()), r, View())
    {
      var cur := ReadCutover();
      if cur.None? || !RatifiedRow(cur.value, cmd, target, br) {
        return Err(Quarantine);
      }
      var bound := AllBound(cfg, valid, Rows(act.history));
      if !bound {
        return Err(Quarantine);
      }
      var head := Read(guards.act, act);
      if head.Some? && head.value.row.cmd == cmd {
        var h := head.value.row;
        if h.epoch != target || h.targetKey != br.bKeyId || h.receiptDigest != br.receiptDigest ||
           h.priorGrantDigest != PriorDigest(chain) {
          return Err(Quarantine);
        }
        return Ok(h.grant);
      }
      r := ActivateNew(now, cmd, target, br, chain);
    }

    method ActivateNew(now: nat, cmd: string, target: nat, br: FinalizedReceipt, chain: seq<Grant>)
      returns (r: Result<Grant, Fault>)
      requires Valid()
      modifies this`act
      ensures Valid()
      ensures Outcome(ActivateFresh(cfg, old(View()), now, cmd, target, br, chain), old(View()), r, View())
    {
      var holder, rows := br.bKeyId, Rows(act.history);
      if !RootedAt(rows, holder, chain) {
        return Err(Quarantine);
      }
      var current := ReadActivationEpoch();
      var _ :- AssertActivationGap(current, target);
      if br.body.epoch != current {
        return Err(Quarantine);
      }
      if exists i | 0 <= i < |rows| :: rows[i].cmd == cmd {
        return Err(Invalid);
      }
      var grant := MintGrant(cfg, now, cmd, target, holder, chain);
      AppendActivation(ActRow(cmd, target, holder, br.receiptDigest, PriorDigest(chain), grant));
      return Ok(grant);
    }
  }

  method CheckRequest(cfg: Config, cmd: string, target: nat, br: FinalizedReceipt, verified: bool,
                      valid: Grant -> bool, chain: seq<Grant>) returns (fault: Option<Fault>)
    ensures fault == RequestFault(cfg, cmd, target, br, verified, valid, chain)
  {
    if !CommandOk(cmd, target) || cfg.guardTtl.None? || |chain| > MAX_PRIOR_CHAIN {
      return Some(Invalid);
    }
    if !FinalizedOk(cfg, br, verified) {
      return Some(Invalid);
    }
    fault := CheckPriorChain(cfg, chain, valid, target);
    if fault.Some? {
      return;
    }
    if br.body.commandId != cmd || br.body.streamId != cfg.streamId ||
       (|chain| > 0 && (Last(chain).body.leaseStatus != LeaseRevoked || Last(chain).body.holder != br.bKeyId)) {
      return Some(Quarantine);
    }
    return if IdOk("bsrc-" + cmd) then None else Some(Invalid);
  }

  method AllBound(cfg: Config, valid: Grant -> bool, rows: seq<ActRow>) returns (ok: bool)
    ensures ok <==> forall i | 0 <= i < |rows| :: RowBindsGrant(cfg, valid, rows[i])
  {
    for i := 0 to |rows|
      invariant forall k | 0 <= k < i :: RowBindsGrant(cfg, valid, rows[k])
    {
      if !RowBindsGrant(cfg, valid, rows[i]) {
        return false;
      }
    }
    return true;
  }

  /** The head digest of a verified lease history is the digest the fence evidence names. */
  lemma {:induction false} LeaseDigestIsHead(cfg: Config, g: Guard<LeaseRow>, links: seq<Link<LeaseRow>>)
    requires ChainOk(g, links) && g.digestOf == cfg.leaseDigest
    ensures LeaseHeadDigest(cfg, Rows(links)) == HeadDigest(links)
  {
    if |links| > 0 {
      var init := links[..|links| - 1];
      ChainPrefix(g, links);
      LeaseDigestIsHead(cfg, g, init);
      LastLink(g, links);
      assert Rows(links)[..|links| - 1] == Rows(init);
    }
  }
}
