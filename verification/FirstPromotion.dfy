/** One complete promotion, from an empty database to the activated source, as a run of the
    control system: the states the theorems speak of are reached. */
module FirstPromotion {
  import opened Wrappers
  import opened ControlModel
  import opened ControlSystem
  import opened ControlInvariant
  import opened ControlTheorems

  const GENESIS := [ProvRow("g", Intent), ProvRow("g", Incomplete), ProvRow("g", Provisioned)]
  const LEASE := LeaseRow("lease", "a", 0, LeaseRevoked, 0, "revoke")

  function Freeze(cfg: Config): FrozenReceipt {
    FrozenReceipt(cfg.streamId, "c", 0, 7, "head", "state", "a", "revoke", "lease", "grant", "frozen", "key")
  }

  function FirstCall(cfg: Config): Call {
    Call("c", 1, "b", 0, MAX_MS, LeaseHeadDigest(cfg, [LEASE]))
  }

  function Finalized(cfg: Config): FinalizedReceipt {
    var body := FinalizedBody(cfg.streamId, "c", 0, 7, "gen", "frozen", "md", "mr",
                              cfg.systemId + "s", "head", "state", cfg.systemId + "b");
    FinalizedReceipt(body, cfg.finalizedDigest(body), "b")
  }

  const PROVISIONED := Control(GENESIS, [WitnessRow(0, false), WitnessRow(0, true)], [], [], [])

  function PreparingRow(): CutRow { CutRow(1, "c", Preparing, NoEvidence) }
  function FrozenRow(cfg: Config): CutRow { CutRow(1, "c", SourceFenced, BoundFreeze(Freeze(cfg))) }

  function Intended(): Control { PROVISIONED.(lease := [LEASE], cut := [PreparingRow()]) }
  function Frozen(cfg: Config): Control { Intended().(cut := [PreparingRow(), FrozenRow(cfg)]) }

  function FencedFirst(cfg: Config): Control {
    var ev := FencedEv(EvidenceOf(cfg, Frozen(cfg), 0, FirstCall(cfg), ClaimOf(FirstCall(cfg))));
    Frozen(cfg).(wit := PROVISIONED.wit + [WitnessRow(1, true)], cut := Frozen(cfg).cut + [CutRow(1, "c", Fenced, ev)])
  }

  lemma Provisioning(cfg: Config)
    ensures Reachable(cfg, INIT.(db := PROVISIONED))
  {
    assert Run(cfg, INIT, []) == INIT;
    ReachNext(cfg, INIT, ProvisionA("g"));
    var s1 := INIT.(db := EMPTY.(prov := [ProvRow("g", Intent)]));
    assert Apply(cfg, INIT, ProvisionA("g")) == s1;
    ReachNext(cfg, s1, ProvisionB("g"));
    var s2 := INIT.(db := EMPTY.(prov := [ProvRow("g", Intent), ProvRow("g", Incomplete)], wit := [WitnessRow(0, false)]));
    assert Apply(cfg, s1, ProvisionB("g")) == s2;
    ReachNext(cfg, s2, ProvisionC("g"));
    assert Apply(cfg, s2, ProvisionC("g")).db == PROVISIONED;
  }

  lemma Intending(cfg: Config)
    ensures Reachable(cfg, INIT.(db := Intended()))
  {
    Provisioning(cfg);
    var s := INIT.(db := PROVISIONED);
    ReachNext(cfg, s, Lease(LEASE));
    assert IdOk("lease") && IdOk("a") && IdOk("revoke") && IdOk("c");
    var t := INIT.(db := PROVISIONED.(lease := [LEASE]));
    assert Apply(cfg, s, Lease(LEASE)) == t;
    ReachNext(cfg, t, Begin("c", 1));
    assert Apply(cfg, t, Begin("c", 1)).db == Intended();
  }

  lemma Freezing(cfg: Config)
    ensures Reachable(cfg, INIT.(db := Frozen(cfg)))
  {
    Intending(cfg);
    var s := INIT.(db := Intended());
    ReachNext(cfg, s, Bind("c", 1, Freeze(cfg), true));
    assert IdOk("c");
    assert Apply(cfg, s, Bind("c", 1, Freeze(cfg), true)).db == Frozen(cfg);
  }

  function Claimed(cfg: Config, c: Control): System {
    var call := FirstCall(cfg);
    System(c, Some(ClaimOf(call)), 0, {call}, {call})
  }

  lemma Claiming(cfg: Config)
    ensures Reachable(cfg, Claimed(cfg, Frozen(cfg)))
  {
    Freezing(cfg);
    var s, call := INIT.(db := Frozen(cfg)), FirstCall(cfg);
    assert IdOk("c") && IdOk("b");
    ReachNext(cfg, s, Tx1("c", 1, "b", 0, MAX_MS));
    var t := s.(prepared := {call});
    assert MaxExpiryAt([LEASE], 0) == 0;
    assert Apply(cfg, s, Tx1("c", 1, "b", 0, MAX_MS)) == t;
    ReachNext(cfg, t, ClaimRedis(call));
    var u := t.(redis := Some(ClaimOf(call)));
    assert Apply(cfg, t, ClaimRedis(call)) == u;
    ReachNext(cfg, u, ReadBack(call));
    assert Apply(cfg, u, ReadBack(call)) == Claimed(cfg, Frozen(cfg));
  }

  lemma Fencing(cfg: Config)
    requires cfg.minRemaining <= MAX_MS
    ensures Reachable(cfg, Claimed(cfg, FencedFirst(cfg)))
  {
    Claiming(cfg);
    var s, call := Claimed(cfg, Frozen(cfg)), FirstCall(cfg);
    ReachNext(cfg, s, Tx2(call, 0));
    assert MaxExpiryAt([LEASE], 0) == 0;
    assert Apply(cfg, s, Tx2(call, 0)) == Claimed(cfg, FencedFirst(cfg));
  }

  function Add(c: Control, row: CutRow): Control { c.(cut := c.cut + [row]) }

  function Imported(cfg: Config): Control {
    Add(FencedFirst(cfg), CutRow(1, "c", Importing, FencedFirst(cfg).cut[2].evidence))
  }

  function Ratified(cfg: Config): Control {
    Add(Imported(cfg), CutRow(1, "c", Ready, RatifiedEvidence(cfg, Finalized(cfg))))
  }

  function Live(cfg: Config): Control {
    Add(Ratified(cfg), CutRow(1, "c", Active, GoLiveEvidence(RatifiedEvidence(cfg, Finalized(cfg)))))
  }

  lemma OpeningImport(cfg: Config)
    requires cfg.minRemaining <= MAX_MS
    ensures Reachable(cfg, Claimed(cfg, Imported(cfg)))
  {
    Fencing(cfg);
    var s := Claimed(cfg, FencedFirst(cfg));
    ReachNext(cfg, s, Import("c", 1));
    assert s.db.cut[1] == FrozenRow(cfg);
    assert IdOk("c");
    assert Apply(cfg, s, Import("c", 1)) == Claimed(cfg, Imported(cfg));
  }

  lemma Ratifying(cfg: Config)
    requires cfg.minRemaining <= MAX_MS
    ensures Reachable(cfg, Claimed(cfg, Ratified(cfg)))
  {
    OpeningImport(cfg);
    var s, br := Claimed(cfg, Imported(cfg)), Finalized(cfg);
    ReachNext(cfg, s, Ratify("c", 1, br, true));
    ReceiptRatified(cfg);
    assert Apply(cfg, s, Ratify("c", 1, br, true)) == Claimed(cfg, Ratified(cfg));
  }

  lemma ReceiptRatified(cfg: Config)
    ensures MarkReady(cfg, Imported(cfg), "c", 1, Finalized(cfg), true) == Ok((Ratified(cfg), Last(Ratified(cfg).cut)))
  {
    var br, c := Finalized(cfg), Imported(cfg);
    assert IdOk("c") && KeyIdOk("b");
    FindsFreeze(cfg);
    assert FreezeBound(c, "c", 1, br.body);
    assert Last(br.body.bSystemId) == 'b' && Last(br.body.sourceSystemId) == 's';
    assert |br.body.bSystemId| == |cfg.systemId| + 1;
    assert HeadIs(c.cut, Importing, "c", 1);
  }

  lemma FindsFreeze(cfg: Config)
    ensures FindPhase(Imported(cfg).cut, "c", 1, SourceFenced) == Some(BoundFreeze(Freeze(cfg)))
  {
    var cut := Imported(cfg).cut;
    assert cut[..3][..2] == Frozen(cfg).cut;
    assert cut[..3] == FencedFirst(cfg).cut;
    assert FindPhase(Frozen(cfg).cut, "c", 1, SourceFenced) == Some(BoundFreeze(Freeze(cfg)));
  }

  lemma GoingLive(cfg: Config)
    requires cfg.minRemaining <= MAX_MS
    ensures Reachable(cfg, Claimed(cfg, Live(cfg)))
  {
    Ratifying(cfg);
    var s := Claimed(cfg, Ratified(cfg));
    ReachNext(cfg, s, GoLive("c", 1));
    assert IdOk("c");
    assert Apply(cfg, s, GoLive("c", 1)) == Claimed(cfg, Live(cfg));
  }

  /** A first promotion can be carried to the end. */
  lemma FirstActivation(cfg: Config)
    requires cfg.minRemaining <= MAX_MS && cfg.guardTtl.Some?
    ensures exists s :: Reachable(cfg, s) && |s.db.act| == 1 && s.db.act[0].cmd == "c" && s.db.act[0].epoch == 1
  {
    GoingLive(cfg);
    var s, br := Claimed(cfg, Live(cfg)), Finalized(cfg);
    var e := ActivateSrc("c", 1, br, true, _ => true, []);
    ReachNext(cfg, s, e);
    assert IdOk("c") && KeyIdOk("b") && IdOk("bsrc-c");
    var t := Apply(cfg, s, e);
    assert "bsrc-" + "c" == "bsrc-c";
    assert |t.db.act| == 1;
  }

  /** The stranded state is reached too: the second intent, begun before the first target was
      activated, can never be bound, abandoned or overtaken. */
  lemma StrandedReached(cfg: Config, more: seq<Event>)
    requires cfg.minRemaining <= MAX_MS
    ensures var t := Apply(cfg, Claimed(cfg, Live(cfg)), Begin("d", 2));
            Reachable(cfg, t) && HeadIs(Run(cfg, t, more).db.cut, Preparing, "d", 2)
  {
    GoingLive(cfg);
    var s := Claimed(cfg, Live(cfg));
    assert IdOk("d");
    IntentStrands(cfg, s, "d");
    ReachNext(cfg, s, Begin("d", 2));
    StrandedForever(cfg, Apply(cfg, s, Begin("d", 2)), more);
  }
}
