/** The control database, the external fence record, the control clock and the callers of
    advanceEpoch that are between their transactions, as one transition system.
    A caller may stall, crash or be repeated at any point: the set of calls that have
    passed a stage only grows, and any of them may take its next step at any time. */
module ControlSystem {
  import opened Wrappers
  import opened ControlModel

  datatype System = System(
    db: Control,
    redis: Option<FenceRecord>,
    now: nat,
    prepared: set<Call>,   // passed Tx1
    claimed: set<Call>)    // read their claim back exactly

  const INIT := System(EMPTY, None, 0, {}, {})

  datatype Event =
    | Tick(ms: nat)
    | ProvisionA(genesis: string) | ProvisionB(genesis: string) | ProvisionC(genesis: string)
    | Lease(row: LeaseRow)
    | Begin(cmd: string, target: nat)
    | Bind(cmd: string, target: nat, fr: FrozenReceipt, verified: bool)
    | Tx1(cmd: string, target: nat, holder: string, margin: nat, claimExpiry: nat)
    | ClaimRedis(call: Call)
    | ReadBack(call: Call)
    | Tx2(call: Call, lag: nat)   // the clock is read twice in Tx2, `lag` apart
    | Import(cmd: string, target: nat)
    | Ratify(cmd: string, target: nat, br: FinalizedReceipt, verified: bool)
    | GoLive(cmd: string, target: nat)
    | ActivateSrc(cmd: string, target: nat, br: FinalizedReceipt, verified: bool, valid: Grant -> bool,
                  chain: seq<Grant>)
    | Abort(cmd: string, target: nat, reason: string)

  /** A transaction that fails leaves the database as it was. */
  function Commit<R>(s: System, r: Result<(Control, R), Fault>): System {
    if r.Ok? then s.(db := r.value.0) else s
  }

  function CommitBare(s: System, r: Result<Control, Fault>): System {
    if r.Ok? then s.(db := r.value) else s
  }

  function Apply(cfg: Config, s: System, e: Event): System {
    match e
    case Tick(ms) => s.(now := s.now + ms)
    case ProvisionA(g) => CommitBare(s, ProvisionIntent(s.db, g))
    case ProvisionB(g) => CommitBare(s, ProvisionGenesis(s.db, g))
    case ProvisionC(g) => CommitBare(s, ProvisionFinish(s.db, g))
    case Lease(row) => Commit(s, WriteLease(s.db, s.now, row))
    case Begin(cmd, target) => Commit(s, BeginIntent(s.db, cmd, target))
    case Bind(cmd, target, fr, ok) => Commit(s, BindSourceFenced(cfg, s.db, cmd, target, fr, ok))
    case Tx1(cmd, target, holder, margin, claimExpiry) =>
      var r := AdvanceTx1(cfg, s.db, s.redis, s.now, cmd, target, holder, margin, claimExpiry);
      if r.Ok? && r.value.Proceed? then s.(prepared := s.prepared + {r.value.call}) else s
    case ClaimRedis(call) =>
      if call in s.prepared then s.(redis := Claim(s.redis, ClaimOf(call))) else s
    case ReadBack(call) =>
      if call in s.prepared && s.redis == Some(ClaimOf(call)) then s.(claimed := s.claimed + {call}) else s
    case Tx2(call, lag) =>
      if call in s.claimed then
        CommitBare(s.(now := s.now + lag), AdvanceTx2(cfg, s.db, s.redis, s.now, s.now + lag, call))
      else s
    case Import(cmd, target) => Commit(s, MarkImporting(s.db, cmd, target))
    case Ratify(cmd, target, br, ok) => Commit(s, MarkReady(cfg, s.db, cmd, target, br, ok))
    case GoLive(cmd, target) => Commit(s, Activate(s.db, cmd, target))
    case ActivateSrc(cmd, target, br, ok, valid, chain) =>
      Commit(s, ActivateSource(cfg, s.db, s.now, cmd, target, br, ok, valid, chain))
    case Abort(cmd, target, reason) => Commit(s, AbortFenced(s.db, cmd, target, reason))
  }

  /** The state after a whole run. */
  function Run(cfg: Config, s: System, events: seq<Event>): System {
    if |events| == 0 then s
    else Apply(cfg, Run(cfg, s, events[..|events| - 1]), Last(events))
  }

  ghost predicate Reachable(cfg: Config, s: System) {
    exists events :: Run(cfg, INIT, events) == s
  }

  lemma ReachNext(cfg: Config, s: System, e: Event)
    requires Reachable(cfg, s)
    ensures Reachable(cfg, Apply(cfg, s, e))
  {
    var events :| Run(cfg, INIT, events) == s;
    assert (events + [e])[..|events + [e]| - 1] == events;
    assert Run(cfg, INIT, events + [e]) == Apply(cfg, s, e);
  }

  lemma {:induction false} ReachRun(cfg: Config, s: System, events: seq<Event>)
    requires Reachable(cfg, s)
    ensures Reachable(cfg, Run(cfg, s, events))
  {
    if |events| > 0 {
      ReachRun(cfg, s, events[..|events| - 1]);
      ReachNext(cfg, Run(cfg, s, events[..|events| - 1]), Last(events));
    }
  }
}
