/** The control database of one stream as a value, and every control transaction
    as a function from that value to the next one or to a fault.  Each history is
    kept as the sequence of its row bodies: the signed links between rows are the
    subject of module SignedChain, and ControlDatabase keeps both. */
module ControlModel {
  import opened Wrappers

  const MAX_EPOCH: nat := 0x100_0000_0000
  const MAX_MS: nat := 8_640_000_000_000_000
  const MAX_LEASE_HORIZON_MS: nat := 24 * 3600 * 1000
  const MAX_SAFETY_MARGIN_MS: nat := 3600 * 1000
  const MAX_PRIOR_CHAIN: nat := 10_000

  /** ContractValidationError, and its subclass that quarantines the authority. */
  datatype Fault = Invalid | Quarantine

  // ── identifier grammars ──

  predicate KeyIdChar(c: char) {
    'A' <= c <= 'Z' || 'a' <= c <= 'z' || '0' <= c <= '9' || c == '.' || c == '_' || c == '-'
  }

  predicate IdOk(s: string) {
    1 <= |s| <= 128 && forall i | 0 <= i < |s| :: KeyIdChar(s[i]) || s[i] == ':'
  }

  predicate KeyIdOk(s: string) {
    1 <= |s| <= 64 && forall i | 0 <= i < |s| :: KeyIdChar(s[i])
  }

  // ── rows ──

  datatype ProvState = Intent | Incomplete | Provisioned
  datatype ProvRow = ProvRow(genesis: string, state: ProvState)

  datatype WitnessRow = WitnessRow(epoch: nat, provisioned: bool)

  datatype LeaseStatus = LeaseActive | LeaseRevoked
  datatype LeaseRow = LeaseRow(
    leaseId: string, holder: string, epoch: nat, status: LeaseStatus, maxExpiry: nat, grantCmd: string)

  datatype FenceRecord = FenceRecord(
    nodeId: string, fenceEpoch: nat, expiresAt: nat, commandId: string, active: bool)

  datatype FenceEvidence = FenceEvidence(
    holderNodeId: string, grantSeq: nat, grantDigest: string, maxExpiryMs: nat,
    controlNowMs: nat, safetyMarginMs: nat,
    redisNodeId: string, redisEpoch: nat, redisExpiresMs: nat, redisClaimDigest: string,
    witnessFrom: nat, witnessTo: nat)

  /** The evidence column: JSON text in the source, compared byte for byte. */
  datatype Evidence =
    | NoEvidence
    | SourceFencedEv(frozenDigest: string, sourceEpoch: nat, n: nat, headAtN: string, stateAtN: string,
                     sourceNodeId: string, revokeCommandId: string, leaseId: string,
                     leaseGrantDigest: string, sourceKeyId: string)
    | FencedEv(fence: FenceEvidence)
    | ReadyEv(bReceiptDigest: string, generationId: string, manifestDigest: string, manifestRoot: string,
              frozenDigest: string, n: nat, bSystemId: string, sourceSystemId: string,
              controlSystemId: string, bKeyId: string)
    | ActiveEv(bReceiptDigest: string, generationId: string, bSystemId: string, sourceSystemId: string,
               controlSystemId: string, n: nat, frozenDigest: string, bKeyId: string)
    | AbortEv(reason: string)

  datatype Phase = Preparing | SourceFenced | Fenced | Importing | Ready | Active | Aborted
  datatype CutRow = CutRow(epoch: nat, cmd: string, phase: Phase, evidence: Evidence)

  predicate Terminal(p: Phase) { p == Active || p == Aborted }

  /** CUTOVER_FROZEN: a promotion is in flight. */
  predicate InFlight(p: Phase) {
    p in {Preparing, SourceFenced, Fenced, Importing, Ready}
  }

  // ── receipts and source lease grants (their signatures are an input) ──

  datatype FrozenReceipt = FrozenReceipt(
    streamId: string, commandId: string, epoch: nat, n: nat, headAtN: string, stateAtN: string,
    sourceNodeId: string, revokeCommandId: string, leaseId: string, leaseGrantDigest: string,
    receiptDigest: string, sourceKeyId: string)

  /** The digested fields of a BFinalizedReceipt; its signing key id is not among them. */
  datatype FinalizedBody = FinalizedBody(
    streamId: string, commandId: string, epoch: nat, n: nat, generationId: string,
    frozenDigest: string, manifestDigest: string, manifestRoot: string, sourceSystemId: string,
    headAtN: string, stateAtN: string, bSystemId: string)
  datatype FinalizedReceipt = FinalizedReceipt(body: FinalizedBody, receiptDigest: string, bKeyId: string)

  datatype GrantBody = GrantBody(
    streamId: string, leaseEpoch: nat, leaseStatus: LeaseStatus, holder: string, leaseId: string,
    commandId: string, expiresAt: nat, grantSeq: nat, prevGrantDigest: Option<string>)
  datatype Grant = Grant(body: GrantBody, grantDigest: string)

  datatype ActRow = ActRow(
    cmd: string, epoch: nat, targetKey: string, receiptDigest: string,
    priorGrantDigest: Option<string>, grant: Grant)

  // ── the database and its deployment ──

  datatype Control = Control(
    prov: seq<ProvRow>, wit: seq<WitnessRow>, lease: seq<LeaseRow>, cut: seq<CutRow>, act: seq<ActRow>)

  const EMPTY := Control([], [], [], [], [])

  datatype Config = Config(
    streamId: string, systemId: string, minRemaining: nat,
    guardTtl: Option<nat>,   // lease horizon of the configured source guard; None without one
    leaseDigest: (LeaseRow, nat, Option<string>) -> string,
    claimDigest: FenceRecord -> string,
    grantDigest: GrantBody -> string,
    finalizedDigest: FinalizedBody -> string)

  // ── reads ──

  predicate IsProvisioned(c: Control) { |c.wit| > 0 && Last(c.wit).provisioned }

  /** The signed epoch floor; 0 before genesis. */
  function WitnessEpoch(c: Control): nat { if |c.wit| == 0 then 0 else Last(c.wit).epoch }

  /** The current source activation epoch; 0 before the first activation. */
  function ActivationEpoch(c: Control): nat { if |c.act| == 0 then 0 else Last(c.act).epoch }

  predicate HeadIs(cut: seq<CutRow>, phase: Phase, cmd: string, epoch: nat) {
    |cut| > 0 && Last(cut).phase == phase && Last(cut).cmd == cmd && Last(cut).epoch == epoch
  }

  /** Digest of the newest row of a lease history. */
  function LeaseHeadDigest(cfg: Config, rows: seq<LeaseRow>): Option<string> {
    if |rows| == 0 then None
    else Some(cfg.leaseDigest(Last(rows), |rows|, LeaseHeadDigest(cfg, rows[..|rows| - 1])))
  }

  /** SELECT ... WHERE grant_command_id = cmd. */
  function FindGrant(rows: seq<LeaseRow>, cmd: string): (r: Option<LeaseRow>)
    ensures r.Some? ==> r.value in rows && r.value.grantCmd == cmd
    ensures r.None? ==> forall i | 0 <= i < |rows| :: rows[i].grantCmd != cmd
  {
    if |rows| == 0 then None
    else if rows[0].grantCmd == cmd then Some(rows[0])
    else FindGrant(rows[1..], cmd)
  }

  /** SELECT ... WHERE epoch = e ORDER BY grant_seq LIMIT 1. */
  function FirstAtEpoch(rows: seq<LeaseRow>, e: nat): (r: Option<LeaseRow>)
    ensures r.Some? ==> r.value in rows && r.value.epoch == e
    ensures r.None? ==> forall i | 0 <= i < |rows| :: rows[i].epoch != e
  {
    if |rows| == 0 then None
    else if rows[0].epoch == e then Some(rows[0])
    else FirstAtEpoch(rows[1..], e)
  }

  /** SELECT COALESCE(max(granted_max_expiry_ms), 0) WHERE epoch = e. */
  function MaxExpiryAt(rows: seq<LeaseRow>, e: nat): (m: nat)
    ensures forall i | 0 <= i < |rows| && rows[i].epoch == e :: rows[i].maxExpiry <= m
    ensures m == 0 || exists i | 0 <= i < |rows| :: rows[i].epoch == e && rows[i].maxExpiry == m
  {
    if |rows| == 0 then 0
    else
      var rest := MaxExpiryAt(rows[..|rows| - 1], e);
      if Last(rows).epoch == e && Last(rows).maxExpiry > rest then Last(rows).maxExpiry else rest
  }

  /** SELECT evidence FROM history WHERE command, epoch and phase match. */
  function FindPhase(cut: seq<CutRow>, cmd: string, epoch: nat, phase: Phase): (r: Option<Evidence>)
    ensures r.Some? ==>
              exists i | 0 <= i < |cut| :: cut[i] == CutRow(epoch, cmd, phase, r.value)
    ensures r.None? ==>
              forall i | 0 <= i < |cut| :: !(cut[i].cmd == cmd && cut[i].epoch == epoch && cut[i].phase == phase)
  {
    if |cut| == 0 then None
    else if Last(cut).cmd == cmd && Last(cut).epoch == epoch && Last(cut).phase == phase then
      Some(Last(cut).evidence)
    else FindPhase(cut[..|cut| - 1], cmd, epoch, phase)
  }

  /** The terminal phases recorded for an epoch, in order. */
  function TerminalsAt(cut: seq<CutRow>, e: nat): seq<Phase> {
    if |cut| == 0 then []
    else
      TerminalsAt(cut[..|cut| - 1], e) +
      if Last(cut).epoch == e && Terminal(Last(cut).phase) then [Last(cut).phase] else []
  }

  /** assertConsumedActivationEpochs: every epoch strictly between is one ABORTED cutover
      and was never activated. */
  predicate GapConsumed(cut: seq<CutRow>, act: seq<ActRow>, current: nat, target: nat) {
    && current < target
    && forall e: nat | current < e < target ::
         && TerminalsAt(cut, e) == [Aborted]
         && forall i | 0 <= i < |act| :: act[i].epoch != e
  }

  // ── provisioning saga ──

  function ProvisionIntent(c: Control, genesis: string): Result<Control, Fault> {
    if !(1 <= |genesis| <= 512) then Err(Invalid)
    else if |c.prov| > 0 then
      :- Need(Last(c.prov).genesis == genesis, Invalid);
      Ok(c)
    else Ok(c.(prov := [ProvRow(genesis, Intent)]))
  }

  function ProvisionGenesis(c: Control, genesis: string): Result<Control, Fault> {
    if !(|c.prov| > 0 && Last(c.prov).genesis == genesis) then Err(Invalid)
    else if Last(c.prov).state == Intent then
      // the witness genesis insert is ON CONFLICT DO NOTHING
      Ok(c.(prov := c.prov + [ProvRow(genesis, Incomplete)],
            wit := if |c.wit| == 0 then [WitnessRow(0, false)] else c.wit))
    else Ok(c)
  }

  function ProvisionFinish(c: Control, genesis: string): Result<Control, Fault> {
    if !(|c.prov| > 0 && Last(c.prov).genesis == genesis) then Err(Invalid)
    else if Last(c.prov).state == Incomplete then
      :- Need(|c.wit| > 0, Invalid);
      Ok(c.(prov := c.prov + [ProvRow(genesis, Provisioned)], wit := c.wit + [WitnessRow(0, true)]))
    else Ok(c)
  }

  // ── leases ──

  function WriteLease(c: Control, now: nat, row: LeaseRow): Result<(Control, LeaseRow), Fault> {
    if !(IdOk(row.leaseId) && IdOk(row.holder) && IdOk(row.grantCmd)) then Err(Invalid) else
    :- Need(row.epoch <= MAX_EPOCH && row.maxExpiry <= MAX_MS, Invalid);
    :- Need(IsProvisioned(c), Quarantine);
    :- Need(row.epoch == WitnessEpoch(c), Invalid);
    :- Need(row.maxExpiry <= now + MAX_LEASE_HORIZON_MS, Invalid);
    :- Need(!(|c.cut| > 0 && InFlight(Last(c.cut).phase) && row.status == LeaseActive), Quarantine);
    match FindGrant(c.lease, row.grantCmd)
    case Some(prior) =>
      :- Need(prior == row, Quarantine);
      Ok((c, prior))
    case None =>
      var first := FirstAtEpoch(c.lease, row.epoch);
      :- Need(first.Some? ==> first.value.holder == row.holder && first.value.leaseId == row.leaseId, Quarantine);
      :- Need(MaxExpiryAt(c.lease, row.epoch) <= row.maxExpiry, Invalid);
      Ok((c.(lease := c.lease + [row]), row))
  }

  // ── cutover ──

  predicate CommandOk(cmd: string, target: nat) { IdOk(cmd) && 1 <= target <= MAX_EPOCH }

  function Append(c: Control, row: CutRow): (Control, CutRow) {
    (c.(cut := c.cut + [row]), row)
  }

  function BeginIntent(c: Control, cmd: string, target: nat): Result<(Control, CutRow), Fault> {
    if !(CommandOk(cmd, target)) then Err(Invalid) else
    :- Need(IsProvisioned(c), Quarantine);
    :- Need(target == WitnessEpoch(c) + 1, Invalid);
    if |c.cut| > 0 && !Terminal(Last(c.cut).phase) then
      :- Need(Last(c.cut).cmd == cmd && Last(c.cut).epoch == target, Quarantine);
      Ok((c, Last(c.cut)))
    else Ok(Append(c, CutRow(target, cmd, Preparing, NoEvidence)))
  }

  function AbortFenced(c: Control, cmd: string, target: nat, reason: string): Result<(Control, CutRow), Fault> {
    if !(CommandOk(cmd, target) && IdOk(reason)) then Err(Invalid)
    else if HeadIs(c.cut, Aborted, cmd, target) then
      :- Need(Last(c.cut).evidence == AbortEv(reason), Quarantine);
      Ok((c, Last(c.cut)))
    else
      :- Need(exists p | p in {Fenced, Importing, Ready} :: HeadIs(c.cut, p, cmd, target), Quarantine);
      :- Need(IsProvisioned(c) && WitnessEpoch(c) == target, Quarantine);
      Ok(Append(c, CutRow(target, cmd, Aborted, AbortEv(reason))))
  }

  function BoundFreeze(fr: FrozenReceipt): Evidence {
    SourceFencedEv(fr.receiptDigest, fr.epoch, fr.n, fr.headAtN, fr.stateAtN, fr.sourceNodeId,
                   fr.revokeCommandId, fr.leaseId, fr.leaseGrantDigest, fr.sourceKeyId)
  }

  function BindSourceFenced(cfg: Config, c: Control, cmd: string, target: nat, fr: FrozenReceipt, verified: bool)
    : Result<(Control, CutRow), Fault>
  {
    if !(CommandOk(cmd, target) && verified) then Err(Invalid) else
    :- Need(fr.commandId == cmd && fr.streamId == cfg.streamId, Quarantine);
    :- Need(GapConsumed(c.cut, c.act, ActivationEpoch(c), target), Quarantine);
    :- Need(fr.epoch == ActivationEpoch(c), Quarantine);
    if HeadIs(c.cut, SourceFenced, cmd, target) then
      :- Need(Last(c.cut).evidence == BoundFreeze(fr), Quarantine);
      Ok((c, Last(c.cut)))
    else
      :- Need(HeadIs(c.cut, Preparing, cmd, target), Quarantine);
      Ok(Append(c, CutRow(target, cmd, SourceFenced, BoundFreeze(fr))))
  }

  // ── advanceEpoch: Tx1, the Redis claim, Tx2 ──

  /** The caller's arguments and the lease digest captured by Tx1. */
  datatype Call = Call(cmd: string, target: nat, holder: string, margin: nat, claimExpiry: nat,
                       leaseDigest: Option<string>)

  function ClaimOf(call: Call): FenceRecord {
    FenceRecord(call.holder, call.target, call.claimExpiry, call.cmd, true)
  }

  predicate CallOk(cmd: string, target: nat, holder: string, margin: nat, claimExpiry: nat) {
    CommandOk(cmd, target) && IdOk(holder) && margin <= MAX_SAFETY_MARGIN_MS && 1 <= claimExpiry <= MAX_MS
  }

  /** assertRedisAuthority. */
  predicate RedisAuthority(redis: Option<FenceRecord>, floor: nat, cmd: string, target: nat) {
    match redis
    case None => floor == 0
    case Some(r) =>
      && r.fenceEpoch >= floor
      && (r.fenceEpoch > floor ==> r.fenceEpoch == target && r.commandId == cmd)
  }

  /** reconcileFencedRedis. */
  predicate RedisMatches(cfg: Config, redis: Option<FenceRecord>, ev: FenceEvidence, cmd: string) {
    && redis.Some?
    && redis.value.fenceEpoch == ev.witnessTo
    && redis.value.active
    && redis.value.nodeId == ev.redisNodeId
    && redis.value.commandId == cmd
    && redis.value.expiresAt == ev.redisExpiresMs
    && cfg.claimDigest(redis.value) == ev.redisClaimDigest
  }

  /** FencingStore.claim: only a strictly higher epoch replaces the record. */
  function Claim(redis: Option<FenceRecord>, next: FenceRecord): (r: Option<FenceRecord>)
    ensures r.Some?
  {
    if redis.Some? && next.fenceEpoch <= redis.value.fenceEpoch then redis else Some(next)
  }

  /** proveOldFenced: the newest lease is a revocation at target - 1 and every grant of
      that epoch has been expired for the margin. */
  predicate OldFenced(c: Control, now: nat, target: nat, margin: nat) {
    && |c.lease| > 0
    && Last(c.lease).epoch + 1 == target
    && Last(c.lease).status == LeaseRevoked
    && MaxExpiryAt(c.lease, Last(c.lease).epoch) + margin <= now
  }

  datatype Prepared = AlreadyFenced(evidence: Evidence) | Proceed(call: Call)

  function AdvanceTx1(cfg: Config, c: Control, redis: Option<FenceRecord>, now: nat,
                      cmd: string, target: nat, holder: string, margin: nat, claimExpiry: nat)
    : Result<Prepared, Fault>
  {
    if !(CallOk(cmd, target, holder, margin, claimExpiry)) then Err(Invalid)
    else if HeadIs(c.cut, Fenced, cmd, target) then Ok(AlreadyFenced(Last(c.cut).evidence))
    else
      :- Need(HeadIs(c.cut, SourceFenced, cmd, target), Invalid);
      :- Need(IsProvisioned(c), Quarantine);
      :- Need(WitnessEpoch(c) + 1 == target, Invalid);
      :- Need(OldFenced(c, now, target, margin), Quarantine);
      :- Need(RedisAuthority(redis, WitnessEpoch(c), cmd, target), Quarantine);
      Ok(Proceed(Call(cmd, target, holder, margin, claimExpiry, LeaseHeadDigest(cfg, c.lease))))
  }

  /** The retry path of a completed advance: Redis must hold the signed tuple. */
  function ReconcileRetry(cfg: Config, redis: Option<FenceRecord>, evidence: Evidence, cmd: string)
    : Result<(), Fault>
  {
    if !(evidence.FencedEv?) then Err(Quarantine) else
    :- Need(RedisMatches(cfg, redis, evidence.fence, cmd), Quarantine);
    Ok(())
  }

  function EvidenceOf(cfg: Config, c: Control, now: nat, call: Call, r: FenceRecord): FenceEvidence
    requires |c.lease| > 0
  {
    var lease := Last(c.lease);
    var digest := LeaseHeadDigest(cfg, c.lease);
    FenceEvidence(lease.holder, |c.lease|, digest.value, MaxExpiryAt(c.lease, lease.epoch), now, call.margin,
                  r.nodeId, r.fenceEpoch, r.expiresAt, cfg.claimDigest(ClaimOf(call)),
                  if call.target == 0 then 0 else call.target - 1, call.target)
  }

  /** Witness, revoked lease, fence record and remaining claim time, read again in Tx2. */
  predicate FenceHolds(cfg: Config, c: Control, redis: Option<FenceRecord>, now: nat, nowFinal: nat, call: Call) {
    && IsProvisioned(c) && WitnessEpoch(c) + 1 == call.target
    && OldFenced(c, now, call.target, call.margin)
    && LeaseHeadDigest(cfg, c.lease) == call.leaseDigest
    && redis == Some(ClaimOf(call))
    && nowFinal + cfg.minRemaining <= redis.value.expiresAt
  }

  /** Tx2 of a call whose claim read back exactly: everything is asserted again, then the
      witness and the FENCED row are written together. */
  function AdvanceTx2(cfg: Config, c: Control, redis: Option<FenceRecord>, now: nat, nowFinal: nat, call: Call)
    : Result<Control, Fault>
  {
    if HeadIs(c.cut, Fenced, call.cmd, call.target) then
      var _ :- ReconcileRetry(cfg, redis, Last(c.cut).evidence, call.cmd);
      Ok(c)
    else
      :- Need(HeadIs(c.cut, SourceFenced, call.cmd, call.target), Invalid);
      :- Need(FenceHolds(cfg, c, redis, now, nowFinal, call), Quarantine);
      var row := CutRow(call.target, call.cmd, Fenced, FencedEv(EvidenceOf(cfg, c, now, call, redis.value)));
      Ok(c.(wit := c.wit + [WitnessRow(call.target, true)], cut := c.cut + [row]))
  }

  // ── import, ratification, go-live ──

  function MarkImporting(c: Control, cmd: string, target: nat): Result<(Control, CutRow), Fault> {
    if !(CommandOk(cmd, target)) then Err(Invalid)
    else if HeadIs(c.cut, Importing, cmd, target) then Ok((c, Last(c.cut)))
    else
      :- Need(HeadIs(c.cut, Fenced, cmd, target), Quarantine);
      :- Need(FindPhase(c.cut, cmd, target, SourceFenced).Some?, Quarantine);
      Ok(Append(c, CutRow(target, cmd, Importing, Last(c.cut).evidence)))
  }

  /** verifyBFinalizedReceipt: the digest recomputes and the signature verifies. */
  predicate FinalizedOk(cfg: Config, br: FinalizedReceipt, verified: bool) {
    verified && KeyIdOk(br.bKeyId) && cfg.finalizedDigest(br.body) == br.receiptDigest
  }

  /** B finalized exactly the freeze that control bound. */
  predicate BindsFreeze(b: FinalizedBody, sf: Evidence)
    requires sf.SourceFencedEv?
  {
    && b.frozenDigest == sf.frozenDigest
    && b.n == sf.n && b.headAtN == sf.headAtN && b.stateAtN == sf.stateAtN
    && b.epoch == sf.sourceEpoch
  }

  /** The bound freeze is of the current source, and B finalized it. */
  predicate FreezeBound(c: Control, cmd: string, target: nat, b: FinalizedBody) {
    var sf := FindPhase(c.cut, cmd, target, SourceFenced);
    && sf.Some? && sf.value.SourceFencedEv?
    && GapConsumed(c.cut, c.act, ActivationEpoch(c), target)
    && sf.value.sourceEpoch == ActivationEpoch(c)
    && BindsFreeze(b, sf.value)
  }

  function RatifiedEvidence(cfg: Config, br: FinalizedReceipt): Evidence {
    var b := br.body;
    ReadyEv(br.receiptDigest, b.generationId, b.manifestDigest, b.manifestRoot, b.frozenDigest, b.n,
            b.bSystemId, b.sourceSystemId, cfg.systemId, br.bKeyId)
  }

  function MarkReady(cfg: Config, c: Control, cmd: string, target: nat, br: FinalizedReceipt, verified: bool)
    : Result<(Control, CutRow), Fault>
  {
    if !(CommandOk(cmd, target) && FinalizedOk(cfg, br, verified)) then Err(Invalid) else
    :- Need(br.body.commandId == cmd && br.body.streamId == cfg.streamId, Quarantine);
    var retry := HeadIs(c.cut, Ready, cmd, target);
    :- Need(retry || HeadIs(c.cut, Importing, cmd, target), Quarantine);
    :- Need(FreezeBound(c, cmd, target, br.body), Quarantine);
    :- Need(br.body.bSystemId != br.body.sourceSystemId && br.body.bSystemId != cfg.systemId, Quarantine);
    if retry then
      :- Need(Last(c.cut).evidence == RatifiedEvidence(cfg, br), Quarantine);
      Ok((c, Last(c.cut)))
    else Ok(Append(c, CutRow(target, cmd, Ready, RatifiedEvidence(cfg, br))))
  }

  function GoLiveEvidence(rd: Evidence): Evidence
    requires rd.ReadyEv?
  {
    ActiveEv(rd.bReceiptDigest, rd.generationId, rd.bSystemId, rd.sourceSystemId, rd.controlSystemId,
             rd.n, rd.frozenDigest, rd.bKeyId)
  }

  function Activate(c: Control, cmd: string, target: nat): Result<(Control, CutRow), Fault> {
    if !(CommandOk(cmd, target)) then Err(Invalid) else
    var retry := HeadIs(c.cut, Active, cmd, target);
    :- Need(retry || HeadIs(c.cut, Ready, cmd, target), Quarantine);
    var rd := FindPhase(c.cut, cmd, target, Ready);
    :- Need(rd.Some? && rd.value.ReadyEv?, Quarantine);
    if retry then
      :- Need(Last(c.cut).evidence == GoLiveEvidence(rd.value), Quarantine);
      Ok((c, Last(c.cut)))
    else Ok(Append(c, CutRow(target, cmd, Active, GoLiveEvidence(rd.value))))
  }

  // ── source activation ──

  /** The newest grant of an epoch in a presented lease chain. */
  function LatestAtEpoch(chain: seq<Grant>, e: nat): (r: Option<Grant>)
    ensures r.None? ==> forall i | 0 <= i < |chain| :: chain[i].body.leaseEpoch != e
  {
    if |chain| == 0 then None
    else if Last(chain).body.leaseEpoch == e then Some(Last(chain))
    else LatestAtEpoch(chain[..|chain| - 1], e)
  }

  /** What is wrong with grant `g` after the grants `before`; `valid` is the outcome of
      verifying one grant's digest and signature. */
  function GrantFault(cfg: Config, before: seq<Grant>, g: Grant, valid: Grant -> bool, target: nat): Option<Fault> {
    if !valid(g) then Some(Invalid)
    else if g.body.streamId != cfg.streamId || g.body.grantSeq != |before| + 1 ||
            g.body.prevGrantDigest != PriorDigest(before) || g.body.leaseEpoch >= target then Some(Quarantine)
    else
      match LatestAtEpoch(before, g.body.leaseEpoch)
      case None => None
      case Some(p) =>
        if p.body.holder != g.body.holder || p.body.leaseId != g.body.leaseId || p.body.leaseStatus == LeaseRevoked
        then Some(Quarantine) else None
  }

  /** The first fault in a returning target's lease chain. */
  function PriorChainFault(cfg: Config, chain: seq<Grant>, valid: Grant -> bool, target: nat): Option<Fault> {
    if |chain| == 0 then None
    else
      match PriorChainFault(cfg, chain[..|chain| - 1], valid, target)
      case Some(f) => Some(f)
      case None => GrantFault(cfg, chain[..|chain| - 1], Last(chain), valid, target)
  }

  function PriorDigest(chain: seq<Grant>): Option<string> {
    if |chain| == 0 then None else Some(Last(chain).grantDigest)
  }

  /** The newest activation row of a target key. */
  function LastActivationOf(act: seq<ActRow>, key: string): (r: Option<ActRow>)
    ensures r.Some? ==> r.value in act && r.value.targetKey == key
    ensures r.None? ==> forall i | 0 <= i < |act| :: act[i].targetKey != key
  {
    if |act| == 0 then None
    else if Last(act).targetKey == key then Some(Last(act))
    else LastActivationOf(act[..|act| - 1], key)
  }

  predicate RootedAt(act: seq<ActRow>, key: string, chain: seq<Grant>) {
    match LastActivationOf(act, key)
    case None => |chain| > 0 ==> chain[0].body.grantSeq == 1 && chain[0].body.prevGrantDigest.None?
    case Some(row) =>
      var s := row.grant.body.grantSeq;
      1 <= s <= |chain| && chain[s - 1].grantDigest == row.grant.grantDigest
  }

  /** A stored activation row binds its stored grant. */
  predicate RowBindsGrant(cfg: Config, valid: Grant -> bool, r: ActRow) {
    && valid(r.grant)
    && r.grant.body.streamId == cfg.streamId && r.grant.body.commandId == r.cmd
    && r.grant.body.leaseEpoch == r.epoch && r.grant.body.holder == r.targetKey
  }

  function Min(a: nat, b: nat): nat { if a <= b then a else b }

  function MintGrant(cfg: Config, now: nat, cmd: string, target: nat, holder: string, chain: seq<Grant>): Grant {
    var ttl := if cfg.guardTtl.Some? then cfg.guardTtl.value else 0;
    var body := GrantBody(cfg.streamId, target, LeaseActive, holder, "bsrc-" + cmd, cmd,
                          Min(now + ttl, MAX_MS), |chain| + 1, PriorDigest(chain));
    Grant(body, cfg.grantDigest(body))
  }

  /** What is wrong with an activation request before any table is read. */
  function RequestFault(cfg: Config, cmd: string, target: nat, br: FinalizedReceipt, verified: bool,
                        valid: Grant -> bool, chain: seq<Grant>): Option<Fault>
  {
    if !CommandOk(cmd, target) || cfg.guardTtl.None? || |chain| > MAX_PRIOR_CHAIN then Some(Invalid)
    else if !FinalizedOk(cfg, br, verified) then Some(Invalid)
    else if PriorChainFault(cfg, chain, valid, target).Some? then PriorChainFault(cfg, chain, valid, target)
    else if br.body.commandId != cmd || br.body.streamId != cfg.streamId then Some(Quarantine)
    else if |chain| > 0 && (Last(chain).body.leaseStatus != LeaseRevoked || Last(chain).body.holder != br.bKeyId) then
      Some(Quarantine)
    else if !IdOk("bsrc-" + cmd) then Some(Invalid)
    else None
  }

  /** The receipt is the one ratified into the ACTIVE head. */
  predicate RatifiedRow(head: CutRow, cmd: string, target: nat, br: FinalizedReceipt) {
    && head.phase == Active && head.cmd == cmd && head.epoch == target
    && var rd := head.evidence;
       rd.ActiveEv? && rd.bReceiptDigest == br.receiptDigest && rd.n == br.body.n &&
       rd.bSystemId == br.body.bSystemId && rd.bKeyId == br.bKeyId
  }

  function ActivateSource(cfg: Config, c: Control, now: nat, cmd: string, target: nat,
                          br: FinalizedReceipt, verified: bool, valid: Grant -> bool, chain: seq<Grant>)
    : Result<(Control, Grant), Fault>
  {
    var fault := RequestFault(cfg, cmd, target, br, verified, valid, chain);
    if fault.Some? then Err(fault.value) else ActivateInTx(cfg, c, now, cmd, target, br, valid, chain)
  }

  function ActivateInTx(cfg: Config, c: Control, now: nat, cmd: string, target: nat,
                        br: FinalizedReceipt, valid: Grant -> bool, chain: seq<Grant>)
    : Result<(Control, Grant), Fault>
  {
    if !(|c.cut| > 0 && RatifiedRow(Last(c.cut), cmd, target, br)) then Err(Quarantine) else
    :- Need(forall i | 0 <= i < |c.act| :: RowBindsGrant(cfg, valid, c.act[i]), Quarantine);
    if |c.act| > 0 && Last(c.act).cmd == cmd then
      var head := Last(c.act);
      :- Need(head.epoch == target && head.targetKey == br.bKeyId && head.receiptDigest == br.receiptDigest &&
              head.priorGrantDigest == PriorDigest(chain), Quarantine);
      Ok((c, head.grant))
    else ActivateFresh(cfg, c, now, cmd, target, br, chain)
  }

  function ActivateFresh(cfg: Config, c: Control, now: nat, cmd: string, target: nat,
                         br: FinalizedReceipt, chain: seq<Grant>): Result<(Control, Grant), Fault>
  {
    var holder := br.bKeyId;
    :- Need(RootedAt(c.act, holder, chain), Quarantine);
    :- Need(GapConsumed(c.cut, c.act, ActivationEpoch(c), target), Quarantine);
    :- Need(br.body.epoch == ActivationEpoch(c), Quarantine);
    // UNIQUE (stream_id, command_id)
    :- Need(forall i | 0 <= i < |c.act| :: c.act[i].cmd != cmd, Invalid);
    var grant := MintGrant(cfg, now, cmd, target, holder, chain);
    Ok((c.(act := c.act + [ActRow(cmd, target, holder, br.receiptDigest, PriorDigest(chain), grant)]), grant))
  }
}
