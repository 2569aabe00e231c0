/** What every step of the control system keeps. */
module ControlInvariant {
  import opened Wrappers
  import opened ControlModel
  import opened ControlSystem
  import opened CutoverShape

  /** Provisioning and the genesis witness advance together; nothing else happens before. */
  predicate ProvisionInv(c: Control) {
    && (IsProvisioned(c) <==> |c.prov| > 0 && Last(c.prov).state == Provisioned)
    && (|c.wit| > 0 <==> |c.prov| > 0 && Last(c.prov).state != Intent)
    && (!IsProvisioned(c) ==> c.lease == [] && c.cut == [] && c.act == [] && WitnessEpoch(c) == 0)
  }

  predicate EvidenceFits(row: CutRow) {
    match row.phase
    case Preparing => row.evidence.NoEvidence?
    case SourceFenced => row.evidence.SourceFencedEv?
    case Fenced => row.evidence.FencedEv?
    case Importing => row.evidence.FencedEv?
    case Ready => row.evidence.ReadyEv?
    case Active => row.evidence.ActiveEv?
    case Aborted => row.evidence.AbortEv?
  }

  predicate CutoverInv(c: Control) {
    && Shape(c.cut)
    && WitnessEpoch(c) == ImpliedWitness(c.cut)
    && forall i | 0 <= i < |c.cut| :: EvidenceFits(c.cut[i])
  }

  /** Grants of a superseded epoch have expired; within an epoch the writer is fixed. */
  predicate LeaseInv(c: Control, now: nat) {
    && (forall i | 0 <= i < |c.lease| ::
          && c.lease[i].epoch <= WitnessEpoch(c)
          && (c.lease[i].epoch < WitnessEpoch(c) ==> c.lease[i].maxExpiry <= now))
    && (forall i, j | 0 <= i < j < |c.lease| ::
          && c.lease[i].epoch <= c.lease[j].epoch
          && (c.lease[i].epoch == c.lease[j].epoch ==>
                c.lease[i].holder == c.lease[j].holder && c.lease[i].leaseId == c.lease[j].leaseId &&
                c.lease[i].maxExpiry <= c.lease[j].maxExpiry))
  }

  /** The signed FENCED evidence is a complete proof: the claim it names, the witness step,
      and the elapsed horizon of the fenced epoch. */
  predicate FencedRowOk(cfg: Config, row: CutRow)
    requires row.evidence.FencedEv?
  {
    var ev := row.evidence.fence;
    && ev.redisEpoch == row.epoch && ev.witnessTo == row.epoch && ev.witnessFrom + 1 == row.epoch
    && ev.redisClaimDigest ==
       cfg.claimDigest(FenceRecord(ev.redisNodeId, ev.redisEpoch, ev.redisExpiresMs, row.cmd, true))
    && ev.maxExpiryMs + ev.safetyMarginMs <= ev.controlNowMs
    && ev.controlNowMs + cfg.minRemaining <= ev.redisExpiresMs
  }

  predicate RedisInv(cfg: Config, s: System) {
    && (forall i | 0 <= i < |s.db.cut| && s.db.cut[i].phase == Fenced ::
          s.db.cut[i].evidence.FencedEv? && FencedRowOk(cfg, s.db.cut[i]))
    && match s.redis
       case None => WitnessEpoch(s.db) == 0
       case Some(r) =>
         && r.active
         && WitnessEpoch(s.db) <= r.fenceEpoch <= WitnessEpoch(s.db) + 1
         && 1 <= r.fenceEpoch
         && (r.fenceEpoch == WitnessEpoch(s.db) + 1 ==> HeadIs(s.db.cut, SourceFenced, r.commandId, r.fenceEpoch))
         && (forall i | 0 <= i < |s.db.cut| && s.db.cut[i].phase == Fenced && s.db.cut[i].epoch == r.fenceEpoch ::
               RedisMatches(cfg, s.redis, s.db.cut[i].evidence.fence, s.db.cut[i].cmd))
  }

  /** A caller past Tx1 either is overtaken or still faces the intent it prepared for. */
  predicate CallFresh(s: System, call: Call) {
    && 1 <= call.target
    && (call.target <= WitnessEpoch(s.db) || HeadIs(s.db.cut, SourceFenced, call.cmd, call.target))
  }

  predicate CallsInv(s: System) {
    && (forall call | call in s.prepared :: CallFresh(s, call))
    && s.claimed <= s.prepared
  }

  // ── receipts behind READY, ACTIVE and the activation ledger ──

  /** Row k is READY and ratifies receipt body b, which binds the freeze in row f. */
  predicate Ratifies(cfg: Config, cut: seq<CutRow>, k: int, f: int, b: FinalizedBody) {
    && 0 <= f < k < |cut|
    && cut[f].phase == SourceFenced && cut[f].epoch == cut[k].epoch && cut[f].cmd == cut[k].cmd
    && cut[f].evidence.SourceFencedEv? && cut[k].evidence.ReadyEv?
    && BindsFreeze(b, cut[f].evidence)
    && cut[k].evidence.bReceiptDigest == cfg.finalizedDigest(b)
    && cut[k].evidence.frozenDigest == b.frozenDigest && cut[k].evidence.n == b.n
    && cut[k].evidence.bSystemId == b.bSystemId
    && b.bSystemId != b.sourceSystemId && b.bSystemId != cfg.systemId
  }

  predicate GoesLive(cut: seq<CutRow>, a: int, r: int) {
    && 0 <= r < a < |cut|
    && cut[r].phase == Ready && cut[r].epoch == cut[a].epoch && cut[r].cmd == cut[a].cmd
    && cut[r].evidence.ReadyEv? && cut[a].evidence == GoLiveEvidence(cut[r].evidence)
  }

  ghost predicate ReceiptInv(cfg: Config, c: Control) {
    && (forall k | 0 <= k < |c.cut| && c.cut[k].phase == Ready :: exists f, b :: Ratifies(cfg, c.cut, k, f, b))
    && (forall a | 0 <= a < |c.cut| && c.cut[a].phase == Active :: exists r :: GoesLive(c.cut, a, r))
  }

  function PrevEpoch(act: seq<ActRow>, i: nat): nat
    requires i < |act|
  {
    if i == 0 then 0 else act[i - 1].epoch
  }

  /** Activation i traced back: ACTIVE row a, READY row r, SOURCE_FENCED row f, receipt b. */
  predicate TracesTo(cfg: Config, c: Control, i: int, a: int, r: int, f: int, b: FinalizedBody) {
    && 0 <= i < |c.act|
    && GoesLive(c.cut, a, r) && c.cut[a].phase == Active
    && Ratifies(cfg, c.cut, r, f, b)
    && c.cut[a].epoch == c.act[i].epoch && c.cut[a].cmd == c.act[i].cmd
    && c.act[i].receiptDigest == cfg.finalizedDigest(b)
    && c.act[i].targetKey == c.cut[r].evidence.bKeyId
    && c.cut[f].evidence.sourceEpoch == PrevEpoch(c.act, i)
  }

  ghost predicate Traced(cfg: Config, c: Control, i: nat) {
    exists a, r, f, b :: TracesTo(cfg, c, i, a, r, f, b)
  }

  /** Activation i advances, and every epoch it skipped was consumed by one ABORTED cutover. */
  predicate Advances(cut: seq<CutRow>, act: seq<ActRow>, i: nat)
    requires i < |act|
  {
    && PrevEpoch(act, i) < act[i].epoch
    && forall e | PrevEpoch(act, i) < e < act[i].epoch :: TerminalsAt(cut, e) == [Aborted]
  }

  /** The activated command has an ACTIVE cutover row at the activated epoch. */
  predicate WentLive(cut: seq<CutRow>, act: ActRow) {
    exists a | 0 <= a < |cut| :: cut[a].phase == Active && cut[a].epoch == act.epoch && cut[a].cmd == act.cmd
  }

  predicate LedgerRow(cut: seq<CutRow>, act: seq<ActRow>, i: nat)
    requires i < |act|
  {
    WentLive(cut, act[i]) && Advances(cut, act, i)
  }

  predicate LedgerInv(c: Control) {
    forall i: nat | i < |c.act| :: LedgerRow(c.cut, c.act, i)
  }

  /** Until a ratified promotion is activated, the freeze behind it is of the current source. */
  predicate HeadBound(c: Control) {
    |c.cut| > 0 && (Last(c.cut).phase == Ready || Last(c.cut).phase == Active) && ActivationEpoch(c) != Last(c.cut).epoch ==>
      forall f: nat | f < |c.cut| :: FreezeCurrent(c, f)
  }

  predicate FreezeCurrent(c: Control, f: nat)
    requires f < |c.cut| && |c.cut| > 0
  {
    c.cut[f].phase == SourceFenced && c.cut[f].epoch == Last(c.cut).epoch ==>
      c.cut[f].evidence.SourceFencedEv? && c.cut[f].evidence.sourceEpoch == ActivationEpoch(c)
  }

  ghost predicate TraceInv(cfg: Config, c: Control) {
    forall i: nat | i < |c.act| :: Traced(cfg, c, i)
  }

  ghost predicate Inv(cfg: Config, s: System) {
    && ProvisionInv(s.db)
    && CutoverInv(s.db)
    && LeaseInv(s.db, s.now)
    && RedisInv(cfg, s)
    && CallsInv(s)
    && ReceiptInv(cfg, s.db)
    && LedgerInv(s.db)
    && TraceInv(cfg, s.db)
    && HeadBound(s.db)
  }

  // ── histories only grow, so what was traced stays traced ──

  predicate Extends(c: Control, d: Control) {
    c.prov <= d.prov && c.wit <= d.wit && c.lease <= d.lease && c.cut <= d.cut && c.act <= d.act
  }

  lemma ReceiptsKept(cfg: Config, c: Control, row: CutRow)
    requires ReceiptInv(cfg, c)
    requires row.phase == Ready ==> exists f, b :: Ratifies(cfg, c.cut + [row], |c.cut|, f, b)
    requires row.phase == Active ==> exists r :: GoesLive(c.cut + [row], |c.cut|, r)
    ensures ReceiptInv(cfg, c.(cut := c.cut + [row]))
  {
    var next := c.cut + [row];
    forall k | 0 <= k < |next| && next[k].phase == Ready
      ensures exists f, b :: Ratifies(cfg, next, k, f, b)
    {
      if k < |c.cut| {
        var f, b :| Ratifies(cfg, c.cut, k, f, b);
        assert Ratifies(cfg, next, k, f, b);
      }
    }
    forall a | 0 <= a < |next| && next[a].phase == Active
      ensures exists r :: GoesLive(next, a, r)
    {
      if a < |c.cut| {
        var r :| GoesLive(c.cut, a, r);
        assert GoesLive(next, a, r);
      }
    }
  }

  lemma LedgerKept(c: Control, row: CutRow)
    requires LedgerInv(c) && Shape(c.cut) && Shape(c.cut + [row])
    ensures LedgerInv(c.(cut := c.cut + [row]))
  {
    var d := c.(cut := c.cut + [row]);
    forall i: nat | i < |d.act|
      ensures LedgerRow(d.cut, d.act, i)
    {
      assert LedgerRow(c.cut, c.act, i);
      var a :| 0 <= a < |c.cut| && c.cut[a].phase == Active && c.cut[a].epoch == c.act[i].epoch && c.cut[a].cmd == c.act[i].cmd;
      assert d.cut[a] == c.cut[a];
      RowOrder(d.cut, a, |c.cut|);
      forall e | PrevEpoch(d.act, i) < e < d.act[i].epoch
        ensures TerminalsAt(d.cut, e) == [Aborted]
      {
        assert d.cut[..|d.cut| - 1] == c.cut;
        assert TerminalsAt(c.cut, e) == [Aborted];
      }
    }
  }

  lemma TracesKept(cfg: Config, c: Control, row: CutRow)
    requires TraceInv(cfg, c)
    ensures TraceInv(cfg, c.(cut := c.cut + [row]))
  {
    var d := c.(cut := c.cut + [row]);
    forall i: nat | i < |d.act|
      ensures Traced(cfg, d, i)
    {
      assert Traced(cfg, c, i);
      var a, r, f, b :| TracesTo(cfg, c, i, a, r, f, b);
      assert TracesTo(cfg, d, i, a, r, f, b);
    }
  }

  lemma ActivationsKept(cfg: Config, c: Control, row: CutRow)
    requires LedgerInv(c) && TraceInv(cfg, c)
    requires Shape(c.cut) && Shape(c.cut + [row])
    ensures LedgerInv(c.(cut := c.cut + [row])) && TraceInv(cfg, c.(cut := c.cut + [row]))
  {
    LedgerKept(c, row);
    TracesKept(cfg, c, row);
  }

  /** A new cutover row that does not touch the witness. */
  lemma CutoverRowKept(cfg: Config, s: System, row: CutRow)
    requires Inv(cfg, s) && IsProvisioned(s.db)
    requires |s.db.cut| == 0 ==> row.phase == Preparing && row.epoch == 1
    requires |s.db.cut| > 0 ==> Follows(Last(s.db.cut), row)
    requires EvidenceFits(row) && row.phase != Fenced
    requires row.phase == Ready ==> exists f, b :: Ratifies(cfg, s.db.cut + [row], |s.db.cut|, f, b)
    requires row.phase == Active ==> exists r :: GoesLive(s.db.cut + [row], |s.db.cut|, r)
    requires HeadBound(s.db.(cut := s.db.cut + [row]))
    ensures Inv(cfg, s.(db := s.db.(cut := s.db.cut + [row])))
  {
    var t := s.(db := s.db.(cut := s.db.cut + [row]));
    ShapeAppend(s.db.cut, row);
    ReceiptsKept(cfg, s.db, row);
    ActivationsKept(cfg, s.db, row);
    assert WitnessEpoch(t.db) == ImpliedWitness(t.db.cut);
    forall call | call in t.prepared
      ensures CallFresh(t, call)
    {
      assert CallFresh(s, call);
    }
  }

  // ── each step ──

  lemma InitHolds(cfg: Config)
    ensures Inv(cfg, INIT)
  {
  }

  lemma TickKeeps(cfg: Config, s: System, ms: nat)
    requires Inv(cfg, s)
    ensures Inv(cfg, s.(now := s.now + ms))
  {
    var t := s.(now := s.now + ms);
    forall call | call in t.prepared
      ensures CallFresh(t, call)
    {
      assert CallFresh(s, call);
    }
  }

  lemma ProvisionKeeps(cfg: Config, s: System, e: Event)
    requires Inv(cfg, s) && (e.ProvisionA? || e.ProvisionB? || e.ProvisionC?)
    ensures Inv(cfg, Apply(cfg, s, e))
  {
    var t := Apply(cfg, s, e);
    if t.db != s.db {
      assert s.db.cut == [] && WitnessEpoch(t.db) == 0;
      forall call | call in t.prepared
        ensures CallFresh(t, call)
      {
        assert CallFresh(s, call);
      }
    }
  }

  lemma LeaseKeeps(cfg: Config, s: System, row: LeaseRow)
    requires Inv(cfg, s)
    ensures Inv(cfg, Apply(cfg, s, Lease(row)))
  {
    var r := WriteLease(s.db, s.now, row);
    if r.Ok? && r.value.0 != s.db {
      LeaseAppended(s.db, s.now, row);
      LeasesFramed(cfg, s, row);
    }
  }

  /** A granted lease keeps the epoch's writer and never shortens its horizon. */
  lemma LeaseAppended(c: Control, now: nat, row: LeaseRow)
    requires LeaseInv(c, now)
    requires var r := WriteLease(c, now, row); r.Ok? && r.value.0 != c
    ensures WriteLease(c, now, row).value.0 == c.(lease := c.lease + [row])
    ensures IsProvisioned(c) && LeaseInv(c.(lease := c.lease + [row]), now)
  {
    forall i | 0 <= i < |c.lease| && c.lease[i].epoch == row.epoch
      ensures c.lease[i].holder == row.holder && c.lease[i].leaseId == row.leaseId
      ensures c.lease[i].maxExpiry <= row.maxExpiry
    {
      var first := FirstAtEpoch(c.lease, row.epoch);
      var k :| 0 <= k < |c.lease| && c.lease[k] == first.value;
      assert i == k || i < k || k < i;
    }
  }

  /** The rest of the invariant does not read the lease history. */
  lemma LeasesFramed(cfg: Config, s: System, row: LeaseRow)
    requires Inv(cfg, s) && IsProvisioned(s.db) && LeaseInv(s.db.(lease := s.db.lease + [row]), s.now)
    ensures Inv(cfg, s.(db := s.db.(lease := s.db.lease + [row])))
  {
    var t := s.(db := s.db.(lease := s.db.lease + [row]));
    forall call | call in t.prepared
      ensures CallFresh(t, call)
    {
      assert CallFresh(s, call);
    }
    ActivationsFramed(cfg, s.db, t.db);
  }

  /** Receipts and the activation ledger read only the cutover and activation histories. */
  lemma ActivationsFramed(cfg: Config, c: Control, d: Control)
    requires c.cut == d.cut && c.act == d.act && ReceiptInv(cfg, c) && LedgerInv(c)
    ensures ReceiptInv(cfg, d) && LedgerInv(d)
    ensures TraceInv(cfg, c) ==> TraceInv(cfg, d)
    ensures HeadBound(c) ==> HeadBound(d)
  {
    forall i: nat | i < |d.act|
      ensures LedgerRow(d.cut, d.act, i)
    {
      assert LedgerRow(c.cut, c.act, i);
    }
    if HeadBound(c) {
      forall f: nat | f < |d.cut| && |d.cut| > 0
        ensures FreezeCurrent(c, f) ==> FreezeCurrent(d, f)
      {
      }
    }
    if TraceInv(cfg, c) {
      forall i: nat | i < |d.act|
        ensures Traced(cfg, d, i)
      {
        assert Traced(cfg, c, i);
        var a, r, f, b :| TracesTo(cfg, c, i, a, r, f, b);
        assert TracesTo(cfg, d, i, a, r, f, b);
      }
    }
  }

  lemma BeginKeeps(cfg: Config, s: System, cmd: string, target: nat)
    requires Inv(cfg, s)
    ensures Inv(cfg, Apply(cfg, s, Begin(cmd, target)))
  {
    var r := BeginIntent(s.db, cmd, target);
    if r.Ok? && r.value.0 != s.db {
      CutoverRowKept(cfg, s, CutRow(target, cmd, Preparing, NoEvidence));
    }
  }

  lemma BindKeeps(cfg: Config, s: System, cmd: string, target: nat, fr: FrozenReceipt, verified: bool)
    requires Inv(cfg, s)
    ensures Inv(cfg, Apply(cfg, s, Bind(cmd, target, fr, verified)))
  {
    var r := BindSourceFenced(cfg, s.db, cmd, target, fr, verified);
    if r.Ok? && r.value.0 != s.db {
      CutoverRowKept(cfg, s, CutRow(target, cmd, SourceFenced, BoundFreeze(fr)));
    }
  }

  lemma ImportKeeps(cfg: Config, s: System, cmd: string, target: nat)
    requires Inv(cfg, s)
    ensures Inv(cfg, Apply(cfg, s, Import(cmd, target)))
  {
    var r := MarkImporting(s.db, cmd, target);
    if r.Ok? && r.value.0 != s.db {
      assert EvidenceFits(Last(s.db.cut));
      CutoverRowKept(cfg, s, CutRow(target, cmd, Importing, Last(s.db.cut).evidence));
    }
  }

  lemma AbortKeeps(cfg: Config, s: System, cmd: string, target: nat, reason: string)
    requires Inv(cfg, s)
    ensures Inv(cfg, Apply(cfg, s, Abort(cmd, target, reason)))
  {
    var r := AbortFenced(s.db, cmd, target, reason);
    if r.Ok? && r.value.0 != s.db {
      CutoverRowKept(cfg, s, CutRow(target, cmd, Aborted, AbortEv(reason)));
    }
  }

  lemma RatifyKeeps(cfg: Config, s: System, cmd: string, target: nat, br: FinalizedReceipt, verified: bool)
    requires Inv(cfg, s)
    ensures Inv(cfg, Apply(cfg, s, Ratify(cmd, target, br, verified)))
  {
    var r := MarkReady(cfg, s.db, cmd, target, br, verified);
    if r.Ok? && r.value.0 != s.db {
      FreezeBehindReady(cfg, s.db, cmd, target, br, verified);
      CutoverRowKept(cfg, s, r.value.1);
    }
  }

  /** The ratified receipt binds the epoch's one freeze, which is of the current source. */
  lemma FreezeBehindReady(cfg: Config, c: Control, cmd: string, target: nat, br: FinalizedReceipt, verified: bool)
    requires Shape(c.cut)
    requires var r := MarkReady(cfg, c, cmd, target, br, verified); r.Ok? && r.value.0 != c
    ensures var row := MarkReady(cfg, c, cmd, target, br, verified).value.1;
            && MarkReady(cfg, c, cmd, target, br, verified).value.0 == c.(cut := c.cut + [row])
            && row.phase == Ready && row.evidence.ReadyEv?
            && HeadIs(c.cut, Importing, row.cmd, row.epoch)
            && (exists f, b :: Ratifies(cfg, c.cut + [row], |c.cut|, f, b))
            && HeadBound(c.(cut := c.cut + [row]))
  {
    var row := CutRow(target, cmd, Ready, RatifiedEvidence(cfg, br));
    var d := c.(cut := c.cut + [row]);
    var sf := FindPhase(c.cut, cmd, target, SourceFenced);
    var f :| 0 <= f < |c.cut| && c.cut[f] == CutRow(target, cmd, SourceFenced, sf.value);
    assert Ratifies(cfg, d.cut, |c.cut|, f, br.body);
    forall g: nat | g < |d.cut|
      ensures FreezeCurrent(d, g)
    {
      if d.cut[g].phase == SourceFenced && d.cut[g].epoch == target {
        UniqueRank(c.cut, g, f);
      }
    }
  }

  lemma GoLiveKeeps(cfg: Config, s: System, cmd: string, target: nat)
    requires Inv(cfg, s)
    ensures Inv(cfg, Apply(cfg, s, GoLive(cmd, target)))
  {
    var r := Activate(s.db, cmd, target);
    if r.Ok? && r.value.0 != s.db {
      ReadyBehind(s.db, cmd, target);
      CutoverRowKept(cfg, s, r.value.1);
    }
  }

  lemma ReadyBehind(c: Control, cmd: string, target: nat)
    requires HeadBound(c)
    requires var r := Activate(c, cmd, target); r.Ok? && r.value.0 != c
    ensures var row := Activate(c, cmd, target).value.1;
            && Activate(c, cmd, target).value.0 == c.(cut := c.cut + [row])
            && row.phase == Active && row.evidence.ActiveEv?
            && |c.cut| > 0 && HeadIs(c.cut, Ready, row.cmd, row.epoch)
            && (exists k :: GoesLive(c.cut + [row], |c.cut|, k))
            && HeadBound(c.(cut := c.cut + [row]))
  {
    var rd := FindPhase(c.cut, cmd, target, Ready);
    var row := CutRow(target, cmd, Active, GoLiveEvidence(rd.value));
    var k :| 0 <= k < |c.cut| && c.cut[k] == CutRow(target, cmd, Ready, rd.value);
    var d := c.(cut := c.cut + [row]);
    assert GoesLive(d.cut, |c.cut|, k);
    if ActivationEpoch(d) != target {
      forall g: nat | g < |d.cut|
        ensures FreezeCurrent(d, g)
      {
        if g < |c.cut| {
          assert FreezeCurrent(c, g);
        }
      }
    }
  }

  lemma Tx1Keeps(cfg: Config, s: System, e: Event)
    requires Inv(cfg, s) && e.Tx1?
    ensures Inv(cfg, Apply(cfg, s, e))
  {
    var t := Apply(cfg, s, e);
    forall call | call in t.prepared
      ensures CallFresh(t, call)
    {
      if call in s.prepared {
        assert CallFresh(s, call);
      }
    }
  }

  lemma ClaimKeeps(cfg: Config, s: System, call: Call)
    requires Inv(cfg, s) && call in s.prepared
    ensures Inv(cfg, s.(redis := Claim(s.redis, ClaimOf(call))))
  {
    var t := s.(redis := Claim(s.redis, ClaimOf(call)));
    assert CallFresh(s, call);
    forall x | x in t.prepared
      ensures CallFresh(t, x)
    {
      assert CallFresh(s, x);
    }
    if t.redis != s.redis {
      forall i | 0 <= i < |t.db.cut| && t.db.cut[i].phase == Fenced
        ensures t.db.cut[i].epoch != call.target
      {
        EpochBound(t.db.cut, i);
        if t.db.cut[i].epoch == call.target {
          RowOrder(t.db.cut, i, |t.db.cut| - 1);
        }
      }
    }
  }

  lemma Tx2Keeps(cfg: Config, s: System, call: Call, lag: nat)
    requires Inv(cfg, s) && call in s.claimed
    ensures Inv(cfg, Apply(cfg, s, Tx2(call, lag)))
  {
    var r := AdvanceTx2(cfg, s.db, s.redis, s.now, s.now + lag, call);
    TickKeeps(cfg, s, lag);
    if r.Ok? && r.value != s.db {
      Tx2Fences(cfg, s, call, lag);
    }
  }

  /** The fencing commit itself: the witness moves, the old epoch's horizon has elapsed. */
  lemma Tx2Fences(cfg: Config, s: System, call: Call, lag: nat)
    requires Inv(cfg, s) && call in s.claimed
    requires AdvanceTx2(cfg, s.db, s.redis, s.now, s.now + lag, call).Ok?
    requires !HeadIs(s.db.cut, Fenced, call.cmd, call.target)
    ensures Inv(cfg, Apply(cfg, s, Tx2(call, lag)))
  {
    var t := Apply(cfg, s, Tx2(call, lag));
    var row := Last(t.db.cut);
    ShapeAppend(s.db.cut, row);
    ReceiptsKept(cfg, s.db, row);
    ActivationsKept(cfg, s.db, row);
    ActivationsFramed(cfg, s.db.(cut := t.db.cut), t.db);
    forall x | x in t.prepared
      ensures CallFresh(t, x)
    {
      assert CallFresh(s, x);
    }
    forall i | 0 <= i < |t.db.cut| && t.db.cut[i].phase == Fenced && t.db.cut[i].epoch == call.target
      ensures i == |s.db.cut|
    {
      UniqueRank(t.db.cut, i, |s.db.cut|);
    }
    FencedNow(cfg, s, call, lag);
  }

  lemma FencedNow(cfg: Config, s: System, call: Call, lag: nat)
    requires Inv(cfg, s) && call in s.claimed
    requires AdvanceTx2(cfg, s.db, s.redis, s.now, s.now + lag, call).Ok?
    requires !HeadIs(s.db.cut, Fenced, call.cmd, call.target)
    ensures LeaseInv(Apply(cfg, s, Tx2(call, lag)).db, s.now + lag)
    ensures FencedRowOk(cfg, Last(Apply(cfg, s, Tx2(call, lag)).db.cut))
  {
    var t := Apply(cfg, s, Tx2(call, lag));
    assert WitnessEpoch(t.db) == call.target == WitnessEpoch(s.db) + 1;
    ElapsedHorizon(s.db, s.now, call.target, call.margin);
  }

  /** A revoked, elapsed current lease leaves no unexpired grant behind. */
  lemma ElapsedHorizon(c: Control, now: nat, target: nat, margin: nat)
    requires LeaseInv(c, now) && target == WitnessEpoch(c) + 1 && OldFenced(c, now, target, margin)
    ensures forall i | 0 <= i < |c.lease| :: c.lease[i].maxExpiry <= now
  {
    forall i | 0 <= i < |c.lease|
      ensures c.lease[i].maxExpiry <= now
    {
      if c.lease[i].epoch == WitnessEpoch(c) {
        assert c.lease[i].maxExpiry <= MaxExpiryAt(c.lease, WitnessEpoch(c));
      }
    }
  }

  lemma ActivateSrcKeeps(cfg: Config, s: System, e: Event)
    requires Inv(cfg, s) && e.ActivateSrc?
    ensures Inv(cfg, Apply(cfg, s, e))
  {
    var t := Apply(cfg, s, e);
    if t.db != s.db {
      ActivationStep(cfg, s.db, s.now, e);
      var row := Last(t.db.act);
      var a := |s.db.cut| - 1;
      assert s.db.cut[a].phase == Active && s.db.cut[a].epoch == row.epoch && s.db.cut[a].cmd == row.cmd;
      LedgerAppended(s.db, row);
      ActivationTraced(cfg, s.db, t.db, e.br);
      TraceAppended(cfg, s.db, row);
      ActivationHistoryFramed(cfg, s, row);
    }
  }

  /** The rest of the invariant does not read the activation history. */
  lemma ActivationHistoryFramed(cfg: Config, s: System, row: ActRow)
    requires Inv(cfg, s) && IsProvisioned(s.db)
    requires LedgerInv(s.db.(act := s.db.act + [row])) && TraceInv(cfg, s.db.(act := s.db.act + [row]))
    requires |s.db.cut| > 0 && Last(s.db.cut).epoch == row.epoch
    ensures Inv(cfg, s.(db := s.db.(act := s.db.act + [row])))
  {
    var t := s.(db := s.db.(act := s.db.act + [row]));
    forall call | call in t.prepared
      ensures CallFresh(t, call)
    {
      assert CallFresh(s, call);
    }
  }

  lemma LedgerAppended(c: Control, row: ActRow)
    requires LedgerInv(c) && WentLive(c.cut, row)
    requires GapConsumed(c.cut, c.act, ActivationEpoch(c), row.epoch)
    ensures LedgerInv(c.(act := c.act + [row]))
  {
    var d := c.(act := c.act + [row]);
    forall i: nat | i < |d.act|
      ensures LedgerRow(d.cut, d.act, i)
    {
      if i < |c.act| {
        assert LedgerRow(c.cut, c.act, i);
        assert PrevEpoch(d.act, i) == PrevEpoch(c.act, i);
      } else {
        assert PrevEpoch(d.act, i) == ActivationEpoch(c);
      }
    }
  }

  lemma TraceAppended(cfg: Config, c: Control, row: ActRow)
    requires TraceInv(cfg, c) && Traced(cfg, c.(act := c.act + [row]), |c.act|)
    ensures TraceInv(cfg, c.(act := c.act + [row]))
  {
    var d := c.(act := c.act + [row]);
    forall i: nat | i < |d.act|
      ensures Traced(cfg, d, i)
    {
      if i < |c.act| {
        assert Traced(cfg, c, i);
        var a, r, f, b :| TracesTo(cfg, c, i, a, r, f, b);
        assert PrevEpoch(d.act, i) == PrevEpoch(c.act, i);
        assert TracesTo(cfg, d, i, a, r, f, b);
      }
    }
  }

  /** An activation that changes the ledger appends one row for the ACTIVE head it was asked
      for, across a consumed gap. */
  lemma ActivationStep(cfg: Config, c: Control, now: nat, e: Event)
    requires e.ActivateSrc?
    requires var r := ActivateSource(cfg, c, now, e.cmd, e.target, e.br, e.verified, e.valid, e.chain);
             r.Ok? && r.value.0 != c
    ensures var d := ActivateSource(cfg, c, now, e.cmd, e.target, e.br, e.verified, e.valid, e.chain).value.0;
            && |d.act| == |c.act| + 1 && d == c.(act := c.act + [Last(d.act)])
            && Last(d.act).cmd == e.cmd && Last(d.act).epoch == e.target
            && Last(d.act).targetKey == e.br.bKeyId && Last(d.act).receiptDigest == e.br.receiptDigest
    ensures |c.cut| > 0 && RatifiedRow(Last(c.cut), e.cmd, e.target, e.br)
    ensures cfg.finalizedDigest(e.br.body) == e.br.receiptDigest && e.br.body.epoch == ActivationEpoch(c)
    ensures GapConsumed(c.cut, c.act, ActivationEpoch(c), e.target)
  {
  }

  /** The activation's receipt digest is the ratified one, and the freeze behind it is of the
      source it replaces. */
  lemma ActivationTraced(cfg: Config, c: Control, d: Control, br: FinalizedReceipt)
    requires ReceiptInv(cfg, c) && HeadBound(c)
    requires |d.act| == |c.act| + 1 && d == c.(act := c.act + [Last(d.act)])
    requires |c.cut| > 0 && RatifiedRow(Last(c.cut), Last(d.act).cmd, Last(d.act).epoch, br)
    requires Last(d.act).targetKey == br.bKeyId && Last(d.act).receiptDigest == br.receiptDigest
    requires ActivationEpoch(c) < Last(d.act).epoch
    ensures Traced(cfg, d, |c.act|)
  {
    var a := |c.cut| - 1;
    var r :| GoesLive(c.cut, a, r);
    var f, b :| Ratifies(cfg, c.cut, r, f, b);
    assert FreezeCurrent(c, f);
    assert PrevEpoch(d.act, |c.act|) == ActivationEpoch(c);
    assert TracesTo(cfg, d, |c.act|, a, r, f, b);
  }

  lemma StepKeeps(cfg: Config, s: System, e: Event)
    requires Inv(cfg, s)
    ensures Inv(cfg, Apply(cfg, s, e))
  {
    match e
    case Tick(ms) => TickStep(cfg, s, ms);
    case Tx1(_, _, _, _, _) => Tx1Keeps(cfg, s, e);
    case ClaimRedis(call) => ClaimStep(cfg, s, call);
    case ReadBack(call) => ReadBackKeeps(cfg, s, call);
    case Tx2(call, lag) => Tx2Step(cfg, s, call, lag);
    case ActivateSrc(_, _, _, _, _, _) => ActivateSrcKeeps(cfg, s, e);
    case _ => TransactionKeeps(cfg, s, e);
  }

  lemma TickStep(cfg: Config, s: System, ms: nat)
    requires Inv(cfg, s)
    ensures Inv(cfg, Apply(cfg, s, Tick(ms)))
  {
    TickKeeps(cfg, s, ms);
  }

  lemma ClaimStep(cfg: Config, s: System, call: Call)
    requires Inv(cfg, s)
    ensures Inv(cfg, Apply(cfg, s, ClaimRedis(call)))
  {
    if call in s.prepared {
      ClaimKeeps(cfg, s, call);
    }
  }

  lemma Tx2Step(cfg: Config, s: System, call: Call, lag: nat)
    requires Inv(cfg, s)
    ensures Inv(cfg, Apply(cfg, s, Tx2(call, lag)))
  {
    if call in s.claimed {
      Tx2Keeps(cfg, s, call, lag);
    }
  }

  /** The single-transaction operations. */
  lemma TransactionKeeps(cfg: Config, s: System, e: Event)
    requires Inv(cfg, s)
    requires e.ProvisionA? || e.ProvisionB? || e.ProvisionC? || e.Lease? || e.Begin? || e.Bind? || e.Import? ||
             e.Ratify? || e.GoLive? || e.Abort?
    ensures Inv(cfg, Apply(cfg, s, e))
  {
    match e
    case ProvisionA(_) => ProvisionKeeps(cfg, s, e);
    case ProvisionB(_) => ProvisionKeeps(cfg, s, e);
    case ProvisionC(_) => ProvisionKeeps(cfg, s, e);
    case Lease(row) => LeaseKeeps(cfg, s, row);
    case Begin(cmd, target) => BeginKeeps(cfg, s, cmd, target);
    case Bind(cmd, target, fr, ok) => BindKeeps(cfg, s, cmd, target, fr, ok);
    case Import(cmd, target) => ImportKeeps(cfg, s, cmd, target);
    case Ratify(cmd, target, br, ok) => RatifyKeeps(cfg, s, cmd, target, br, ok);
    case GoLive(cmd, target) => GoLiveKeeps(cfg, s, cmd, target);
    case Abort(cmd, target, reason) => AbortKeeps(cfg, s, cmd, target, reason);
  }

  lemma ReadBackKeeps(cfg: Config, s: System, call: Call)
    requires Inv(cfg, s)
    ensures Inv(cfg, Apply(cfg, s, ReadBack(call)))
  {
    var t := Apply(cfg, s, ReadBack(call));
    forall x | x in t.prepared
      ensures CallFresh(t, x)
    {
      assert CallFresh(s, x);
    }
  }

  lemma {:induction false} RunInv(cfg: Config, events: seq<Event>)
    ensures Inv(cfg, Run(cfg, INIT, events))
  {
    if |events| == 0 {
      InitHolds(cfg);
    } else {
      RunInv(cfg, events[..|events| - 1]);
      StepKeeps(cfg, Run(cfg, INIT, events[..|events| - 1]), Last(events));
    }
  }

  /** Every state of every run satisfies the invariant. */
  lemma ReachableInv(cfg: Config, s: System)
    requires Reachable(cfg, s)
    ensures Inv(cfg, s)
  {
    var events :| Run(cfg, INIT, events) == s;
    RunInv(cfg, events);
  }
}
