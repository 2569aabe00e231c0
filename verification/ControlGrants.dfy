/** Which source activations are admitted, what a presented lease chain must be, and what the
    minted grant says. */
module ControlGrants {
  import opened Wrappers
  import opened ControlModel
  import opened ControlSystem
  import opened CutoverShape
  import opened ControlInvariant
  import opened ControlTheorems
  import opened ControlAdmission

  // ── minted source grants ──

  /** What a minted grant says: the target's own lease for the activated epoch, in the configured
      stream, for the guard's horizon from the clock of its step. */
  predicate Minted(cfg: Config, now: nat, row: ActRow) {
    var g := row.grant.body;
    && cfg.guardTtl.Some?
    && g.expiresAt <= now + cfg.guardTtl.value && g.expiresAt <= 8_640_000_000_000_000
    && (g.expiresAt == now + cfg.guardTtl.value || g.expiresAt == 8_640_000_000_000_000)
    && g.leaseStatus == LeaseActive && g.streamId == cfg.streamId
    && g.commandId == row.cmd && g.leaseId == "bsrc-" + row.cmd
    && g.leaseEpoch == row.epoch && g.holder == row.targetKey
    && g.prevGrantDigest == row.priorGrantDigest && row.grant.grantDigest == cfg.grantDigest(g)
  }

  /** A fresh activation stores and answers one such grant, next in the presented chain. */
  lemma FreshGrant(cfg: Config, c: Control, now: nat, e: Event)
    requires e.ActivateSrc?
    requires var r := ActivateSource(cfg, c, now, e.cmd, e.target, e.br, e.verified, e.valid, e.chain);
             r.Ok? && r.value.0 != c
    ensures var r := ActivateSource(cfg, c, now, e.cmd, e.target, e.br, e.verified, e.valid, e.chain);
            && |r.value.0.act| == |c.act| + 1 && r.value.0 == c.(act := c.act + [Last(r.value.0.act)])
            && Last(r.value.0.act).grant == r.value.1 && Minted(cfg, now, Last(r.value.0.act))
            && Last(r.value.0.act).cmd == e.cmd && Last(r.value.0.act).epoch == e.target
            && Last(r.value.0.act).targetKey == e.br.bKeyId
            && r.value.1.body.grantSeq == |e.chain| + 1 && Last(r.value.0.act).priorGrantDigest == PriorDigest(e.chain)
  {
  }

  lemma OnlyActivationsMint(cfg: Config, s: System, e: Event)
    requires !e.ActivateSrc?
    ensures Apply(cfg, s, e).db.act == s.db.act
  {
  }

  /** Activation row i was minted by step k, at the clock of that step. */
  ghost predicate MintedBy(cfg: Config, events: seq<Event>, i: nat, row: ActRow, k: nat) {
    && k < |events| && events[k].ActivateSrc? && events[k].cmd == row.cmd
    && var s := Run(cfg, INIT, events[..k]); |s.db.act| == i && Minted(cfg, s.now, row)
  }

  /** Every stored activation grant is the minted one of its own step. */
  lemma {:induction false} GrantsMinted(cfg: Config, events: seq<Event>, i: nat)
    requires i < |Run(cfg, INIT, events).db.act|
    ensures exists k: nat :: MintedBy(cfg, events, i, Run(cfg, INIT, events).db.act[i], k)
  {
    var n := |events| - 1;
    var init, e := events[..n], events[n];
    var s, t := Run(cfg, INIT, init), Run(cfg, INIT, events);
    var row := t.db.act[i];
    StepGrows(cfg, s, e);
    if i < |s.db.act| {
      GrantsMinted(cfg, init, i);
      var k: nat :| MintedBy(cfg, init, i, row, k);
      assert init[..k] == events[..k];
      assert MintedBy(cfg, events, i, row, k);
    } else {
      if !e.ActivateSrc? {
        OnlyActivationsMint(cfg, s, e);
      }
      FreshGrant(cfg, s.db, s.now, e);
      assert MintedBy(cfg, events, i, row, n);
    }
  }

  // ── a presented lease chain ──

  /** Grant j does not stand in the way of grant i: of one epoch they are one holder's one lease,
      and j did not revoke it. */
  predicate Compatible(g: Grant, h: Grant) {
    g.body.leaseEpoch == h.body.leaseEpoch ==>
      g.body.holder == h.body.holder && g.body.leaseId == h.body.leaseId && g.body.leaseStatus == LeaseActive
  }

  predicate GrantSound(cfg: Config, chain: seq<Grant>, valid: Grant -> bool, target: nat, i: nat)
    requires i < |chain|
  {
    var g := chain[i];
    && valid(g) && g.body.streamId == cfg.streamId && g.body.grantSeq == i + 1 && g.body.leaseEpoch < target
    && g.body.prevGrantDigest == (if i == 0 then None else Some(chain[i - 1].grantDigest))
    && forall j | 0 <= j < i :: Compatible(chain[j], g)
  }

  predicate ChainSound(cfg: Config, chain: seq<Grant>, valid: Grant -> bool, target: nat) {
    forall i: nat {:trigger GrantSound(cfg, chain, valid, target, i)} | i < |chain| ::
      GrantSound(cfg, chain, valid, target, i)
  }

  /** Grant k is the latest of its epoch. */
  predicate LatestAt(chain: seq<Grant>, e: nat, k: nat) {
    && k < |chain| && chain[k].body.leaseEpoch == e
    && forall j | k < j < |chain| :: chain[j].body.leaseEpoch != e
  }

  lemma {:induction false} LatestIs(chain: seq<Grant>, e: nat) returns (k: nat)
    requires LatestAtEpoch(chain, e).Some?
    ensures LatestAt(chain, e, k) && chain[k] == LatestAtEpoch(chain, e).value
  {
    if Last(chain).body.leaseEpoch == e {
      k := |chain| - 1;
    } else {
      k := LatestIs(chain[..|chain| - 1], e);
      forall j | k < j < |chain|
        ensures chain[j].body.leaseEpoch != e
      {
        assert j < |chain| - 1 ==> chain[j] == chain[..|chain| - 1][j];
      }
    }
  }

  predicate CompatibleWithAll(before: seq<Grant>, g: Grant) {
    forall j | 0 <= j < |before| :: Compatible(before[j], g)
  }

  /** Against a sound chain it is enough to look at the latest grant of the epoch. */
  lemma LatestSuffices(cfg: Config, before: seq<Grant>, g: Grant, valid: Grant -> bool, target: nat)
    requires ChainSound(cfg, before, valid, target)
    ensures CompatibleWithAll(before, g) <==>
            var p := LatestAtEpoch(before, g.body.leaseEpoch);
            p.Some? ==> p.value.body.holder == g.body.holder && p.value.body.leaseId == g.body.leaseId &&
                        p.value.body.leaseStatus != LeaseRevoked
  {
    var p := LatestAtEpoch(before, g.body.leaseEpoch);
    if p.Some? {
      var k := LatestIs(before, g.body.leaseEpoch);
      assert GrantSound(cfg, before, valid, target, k);
      if p.value.body.holder == g.body.holder && p.value.body.leaseId == g.body.leaseId && p.value.body.leaseStatus != LeaseRevoked {
        forall j | 0 <= j < |before|
          ensures Compatible(before[j], g)
        {
          if j < k {
            assert Compatible(before[j], before[k]);
          }
        }
      } else {
        assert !Compatible(before[k], g);
      }
    }
  }

  /** A presented chain passes exactly when every grant of it verifies, is of this stream and
      below the target, is numbered and linked in order, and no epoch has two leases or a grant
      after its revocation. */
  lemma {:induction false} ChainSoundIff(cfg: Config, chain: seq<Grant>, valid: Grant -> bool, target: nat)
    ensures PriorChainFault(cfg, chain, valid, target).None? <==> ChainSound(cfg, chain, valid, target)
  {
    if |chain| > 0 {
      var n := |chain| - 1;
      var init, g := chain[..n], Last(chain);
      ChainSoundIff(cfg, init, valid, target);
      ChainSnoc(cfg, init, g, valid, target);
      assert chain == init + [g];
      if ChainSound(cfg, init, valid, target) {
        LatestSuffices(cfg, init, g, valid, target);
      }
    }
  }

  lemma ChainSnoc(cfg: Config, init: seq<Grant>, g: Grant, valid: Grant -> bool, target: nat)
    ensures ChainSound(cfg, init + [g], valid, target) <==>
            && ChainSound(cfg, init, valid, target)
            && valid(g) && g.body.streamId == cfg.streamId && g.body.grantSeq == |init| + 1 && g.body.leaseEpoch < target
            && g.body.prevGrantDigest == PriorDigest(init) && CompatibleWithAll(init, g)
  {
    var chain := init + [g];
    forall i: nat | i < |init|
      ensures GrantSound(cfg, chain, valid, target, i) <==> GrantSound(cfg, init, valid, target, i)
    {
      assert forall j | 0 <= j <= i :: chain[j] == init[j];
    }
    assert forall j | 0 <= j < |init| :: chain[j] == init[j];
    assert GrantSound(cfg, chain, valid, target, |init|) <==>
           (&& valid(g) && g.body.streamId == cfg.streamId && g.body.grantSeq == |init| + 1 && g.body.leaseEpoch < target
            && g.body.prevGrantDigest == PriorDigest(init) && CompatibleWithAll(init, g));
    if ChainSound(cfg, chain, valid, target) {
      forall i: nat | i < |init|
        ensures GrantSound(cfg, init, valid, target, i)
      {
        assert GrantSound(cfg, chain, valid, target, i);
      }
    } else if ChainSound(cfg, init, valid, target) && GrantSound(cfg, chain, valid, target, |init|) {
      forall i: nat | i < |chain|
        ensures GrantSound(cfg, chain, valid, target, i)
      {
        if i < |init| {
          assert GrantSound(cfg, init, valid, target, i);
        }
      }
    }
  }

  // ── admission ──

  /** The request as such: a guard, B's verified receipt for the command, and a sound chain that
      ends with the target's own revocation. */
  predicate RequestSound(cfg: Config, e: Event)
    requires e.ActivateSrc?
  {
    && Named(e.cmd, e.target) && IdOk("bsrc-" + e.cmd) && cfg.guardTtl.Some?
    && e.verified && KeyIdOk(e.br.bKeyId) && cfg.finalizedDigest(e.br.body) == e.br.receiptDigest
    && e.br.body.commandId == e.cmd && e.br.body.streamId == cfg.streamId
    && |e.chain| <= 10_000 && ChainSound(cfg, e.chain, e.valid, e.target)
    && (|e.chain| > 0 ==> Last(e.chain).body.leaseStatus == LeaseRevoked && Last(e.chain).body.holder == e.br.bKeyId)
  }

  lemma RequestSoundIff(cfg: Config, e: Event)
    requires e.ActivateSrc?
    ensures RequestFault(cfg, e.cmd, e.target, e.br, e.verified, e.valid, e.chain).None? <==> RequestSound(cfg, e)
  {
    ChainSoundIff(cfg, e.chain, e.valid, e.target);
  }

  /** The receipt is the one ratified for the live promotion. */
  predicate RatifiedNow(c: Control, e: Event)
    requires e.ActivateSrc?
  {
    && HeadIs(c.cut, Active, e.cmd, e.target)
    && var ev := Last(c.cut).evidence;
       ev.ActiveEv? && ev.bReceiptDigest == e.br.receiptDigest && ev.n == e.br.body.n &&
       ev.bSystemId == e.br.body.bSystemId && ev.bKeyId == e.br.bKeyId
  }

  /** Row i is the newest activation of a key. */
  predicate NewestOf(act: seq<ActRow>, key: string, i: nat) {
    && i < |act| && act[i].targetKey == key
    && forall j | i < j < |act| :: act[j].targetKey != key
  }

  /** The presented chain holds the target's last activation grant, if it had one. */
  predicate Returns(act: seq<ActRow>, key: string, chain: seq<Grant>) {
    forall i: nat {:trigger NewestOf(act, key, i)} | i < |act| && NewestOf(act, key, i) ::
      var n := act[i].grant.body.grantSeq;
      1 <= n <= |chain| && chain[n - 1].grantDigest == act[i].grant.grantDigest
  }

  lemma {:induction false} NewestIs(act: seq<ActRow>, key: string) returns (i: nat)
    requires LastActivationOf(act, key).Some?
    ensures NewestOf(act, key, i) && act[i] == LastActivationOf(act, key).value
  {
    if Last(act).targetKey == key {
      i := |act| - 1;
    } else {
      i := NewestIs(act[..|act| - 1], key);
      forall j | i < j < |act|
        ensures act[j].targetKey != key
      {
        assert j < |act| - 1 ==> act[j] == act[..|act| - 1][j];
      }
    }
  }

  lemma ReturnsIff(cfg: Config, act: seq<ActRow>, key: string, chain: seq<Grant>, valid: Grant -> bool, target: nat)
    requires ChainSound(cfg, chain, valid, target)
    ensures RootedAt(act, key, chain) <==> Returns(act, key, chain)
  {
    if |chain| > 0 {
      assert GrantSound(cfg, chain, valid, target, 0);
    }
    var r := LastActivationOf(act, key);
    if r.Some? {
      var i := NewestIs(act, key);
      forall k: nat | k < |act| && NewestOf(act, key, k)
        ensures k == i
      {
        assert !(k < i) && !(i < k);
      }
    }
  }

  /** Every stored grant verifies. */
  predicate StoredValid(act: seq<ActRow>, valid: Grant -> bool) {
    forall i | 0 <= i < |act| :: valid(act[i].grant)
  }

  /** In every run a stored activation row binds its own grant. */
  lemma StoredBinds(cfg: Config, s: System, valid: Grant -> bool, i: nat)
    requires Reachable(cfg, s) && i < |s.db.act|
    ensures RowBindsGrant(cfg, valid, s.db.act[i]) <==> valid(s.db.act[i].grant)
  {
    var events :| Run(cfg, INIT, events) == s;
    GrantsMinted(cfg, events, i);
  }

  lemma StoredBindsAll(cfg: Config, s: System, valid: Grant -> bool)
    requires Reachable(cfg, s)
    ensures (forall i | 0 <= i < |s.db.act| :: RowBindsGrant(cfg, valid, s.db.act[i])) <==> StoredValid(s.db.act, valid)
  {
    forall i: nat | i < |s.db.act|
      ensures RowBindsGrant(cfg, valid, s.db.act[i]) <==> valid(s.db.act[i].grant)
    {
      StoredBinds(cfg, s, valid, i);
    }
  }

  predicate NeverActivated(act: seq<ActRow>, cmd: string) { forall i | 0 <= i < |act| :: act[i].cmd != cmd }

  /** What a first activation needs: a sound request for the live promotion's ratified receipt, from
      the source now active, by a command never activated, and a chain that returns the target. */
  predicate ActivationSound(cfg: Config, c: Control, e: Event)
    requires e.ActivateSrc?
  {
    && RequestSound(cfg, e) && RatifiedNow(c, e) && StoredValid(c.act, e.valid)
    && NeverActivated(c.act, e.cmd) && e.br.body.epoch == ActivationEpoch(c)
    && Returns(c.act, e.br.bKeyId, e.chain)
  }

  lemma NotYetActivated(c: Control, cmd: string)
    requires Shape(c.cut) && LedgerInv(c) && |c.cut| > 0 && Last(c.cut).phase == Active && Last(c.cut).cmd == cmd
    requires NeverActivated(c.act, cmd)
    ensures ActivationEpoch(c) != Last(c.cut).epoch
  {
    EpochBound(c.cut, |c.cut| - 1);
    if |c.act| > 0 && ActivationEpoch(c) == Last(c.cut).epoch {
      var n: nat := |c.act| - 1;
      assert LedgerRow(c.cut, c.act, n);
      var a: nat :| a < |c.cut| && c.cut[a].phase == Active && c.cut[a].epoch == c.act[n].epoch && c.cut[a].cmd == c.act[n].cmd;
      UniqueRank(c.cut, a, |c.cut| - 1);
    }
  }

  lemma LiveGapConsumed(cfg: Config, s: System, e: Event)
    requires Reachable(cfg, s) && e.ActivateSrc? && RatifiedNow(s.db, e) && NeverActivated(s.db.act, e.cmd)
    ensures GapConsumed(s.db.cut, s.db.act, ActivationEpoch(s.db), e.target)
  {
    ReachableBound(cfg, s);
    NotYetActivated(s.db, e.cmd);
  }

  /** A new source is activated exactly on a sound activation; what it stores and answers is
      FreshGrant. */
  lemma ActivationAdmittedIff(cfg: Config, s: System, e: Event)
    requires Reachable(cfg, s) && e.ActivateSrc?
    ensures var r := ActivateSource(cfg, s.db, s.now, e.cmd, e.target, e.br, e.verified, e.valid, e.chain);
            r.Ok? && r.value.0 != s.db <==> ActivationSound(cfg, s.db, e)
  {
    RequestSoundIff(cfg, e);
    StoredBindsAll(cfg, s, e.valid);
    if ChainSound(cfg, e.chain, e.valid, e.target) {
      ReturnsIff(cfg, s.db.act, e.br.bKeyId, e.chain, e.valid, e.target);
    }
    if RatifiedNow(s.db, e) && NeverActivated(s.db.act, e.cmd) {
      LiveGapConsumed(cfg, s, e);
    }
    var row := ActRow(e.cmd, e.target, e.br.bKeyId, e.br.receiptDigest, PriorDigest(e.chain),
                      MintGrant(cfg, s.now, e.cmd, e.target, e.br.bKeyId, e.chain));
    assert |s.db.act + [row]| != |s.db.act|;
  }

  /** Whatever the tables hold, no activation is answered over a stored row that does not bind its
      own verified grant. */
  lemma ActivationChecksRows(cfg: Config, c: Control, now: nat, e: Event, i: nat)
    requires e.ActivateSrc? && i < |c.act|
    requires ActivateSource(cfg, c, now, e.cmd, e.target, e.br, e.verified, e.valid, e.chain).Ok?
    ensures var row := c.act[i];
            && e.valid(row.grant) && row.grant.body.streamId == cfg.streamId && row.grant.body.commandId == row.cmd
            && row.grant.body.leaseEpoch == row.epoch && row.grant.body.holder == row.targetKey
  {
  }
}
