/** One PostgreSQL transaction attempt as it drives its connection and its COMMIT, and the
    retry loop around it, for every pattern of query results, aborts and release failures. */
module CommitOutcome {
  import opened Wrappers

  /** How one awaited step before COMMIT ends. */
  datatype Outcome = Good | Unconfirmed | Fails(code: string) | Aborts

  /** What came back for COMMIT: a command tag, an error, or an abort while it was in flight. */
  datatype CommitReply = Tag(tag: string) | Lost(code: string) | AbortedInFlight

  /** How the pool answers: a client, an error, or none within the bound or before an abort; in
      the last two a client may still arrive late and is then destroyed on arrival. */
  datatype Acquire = Connected | Refused(code: string) | TimedOut(late: bool) | GivenUp(late: bool)

  /** Everything the outside does to one attempt.  `before` is BEGIN, the timeout and sentinel
      set-up, the durability check, the callback, the hook and the checks after it. */
  datatype World = World(
    acquire: Acquire, before: seq<Outcome>, commit: CommitReply, discard: Outcome, releaseFails: bool)

  datatype Error = Plain(code: string) | Contract | Abort | Ambiguous | PostCommit | Disposal

  datatype ReleaseState = Open | Returned | Destroyed | Failed

  predicate AllGood(steps: seq<Outcome>) { forall i | 0 <= i < |steps| :: steps[i] == Good }

  /** COMMIT was sent. */
  predicate Dispatched(w: World) { w.acquire == Connected && AllGood(w.before) }
  predicate Confirmed(w: World) { Dispatched(w) && w.commit == Tag("COMMIT") }
  predicate RolledBack(w: World) { Dispatched(w) && w.commit == Tag("ROLLBACK") }

  const RETRYABLE: set<string> := {"40001", "40P01"}

  /** An error that may be retried. */
  predicate Retryable(e: Error) { e.Plain? && e.code in RETRYABLE }

  function StepError(o: Outcome): Error
    requires o != Good
  {
    match o
    case Unconfirmed => Contract
    case Fails(code) => Plain(code)
    case Aborts => Abort
  }

  /** The first step before COMMIT that did not go well. */
  predicate FirstBad(w: World, i: nat) { i < |w.before| && w.before[i] != Good && AllGood(w.before[..i]) }

  /** What a failed step is reported as; where the connection could not be disposed of, as that. */
  predicate Reported(w: World, i: nat, e: Error)
    requires i < |w.before|
  {
    if w.releaseFails then e == Disposal
    else match w.before[i]
         case Fails(code) => e == Plain(code)
         case Unconfirmed => e == Contract
         case _ => e == Abort
  }

  /** A commit that was confirmed and whose connection could be scrubbed and handed back. */
  predicate Clean(w: World) { Confirmed(w) && w.discard == Good && !w.releaseFails }

  class Attempt {
    var release: ReleaseState
    var releases: nat          // calls of client.release
    var disposalFailed: bool
    var dispatched: bool
    var committed: bool
    var definitelyAborted: bool

    constructor ()
      ensures release == Open && releases == 0 && !disposalFailed
      ensures !dispatched && !committed && !definitelyAborted
    {
      release, releases, disposalFailed := Open, 0, false;
      dispatched, committed, definitelyAborted := false, false, false;
    }

    /** Release at most once; remember a release that throws. */
    method TerminalRelease(destroy: bool, fails: bool)
      modifies this`release, this`releases, this`disposalFailed
      ensures old(release) != Open ==> release == old(release) && releases == old(releases) && disposalFailed == old(disposalFailed)
      ensures old(release) == Open ==>
                && releases == old(releases) + 1 && disposalFailed == fails
                && release == if fails then Failed else if destroy then Destroyed else Returned
    {
      if release != Open {
        return;
      }
      release := if destroy then Destroyed else Returned;
      releases := releases + 1;
      disposalFailed := fails;
      if fails {
        release := Failed;
      }
    }

    /** The catch block: make sure the client is disposed of, then name the error. */
    method Conclude(cause: Error, fails: bool) returns (e: Error)
      requires release == Open ==> releases == 0
      requires release != Open ==> releases == 1
      modifies this`release, this`releases, this`disposalFailed
      ensures releases == 1 && release != Open
      ensures old(release) != Open ==> disposalFailed == old(disposalFailed) && release == old(release)
      ensures old(release) == Open ==> disposalFailed == fails && release == if fails then Failed else Destroyed
      ensures e == if dispatched && !committed && !definitelyAborted then Ambiguous
                   else if !committed && disposalFailed then Disposal
                   else cause
    {
      if release == Open {
        TerminalRelease(true, fails);
      }
      if dispatched && !committed && !definitelyAborted {
        return Ambiguous;
      }
      if !committed && disposalFailed {
        return Disposal;
      }
      return cause;
    }

    /** runOnce after the connection was acquired; Ok stands for the callback's value. */
    method Run(w: World) returns (r: Result<(), Error>)
      requires w.acquire == Connected && release == Open && releases == 0 && !disposalFailed
      requires !dispatched && !committed && !definitelyAborted
      modifies this
      ensures releases == 1
      ensures dispatched <==> Dispatched(w)
      ensures committed <==> Confirmed(w)
      ensures r.Ok? ==> Confirmed(w)
      ensures r == Err(Ambiguous) <==> Dispatched(w) && !Confirmed(w) && !RolledBack(w)
      ensures Confirmed(w) && r.Err? ==> r.error == PostCommit
      ensures r.Err? && Retryable(r.error) ==> !Dispatched(w)
      // the callback's value is returned, and the connection reused, exactly after a clean commit
      ensures r.Ok? <==> Clean(w)
      ensures release == Returned <==> Clean(w)
      ensures RolledBack(w) ==> r == Err(if w.releaseFails then Disposal else Contract)
      // before COMMIT the first step that went wrong is reported
      ensures forall i: nat | FirstBad(w, i) :: r.Err? && Reported(w, i, r.error)
    {
      for i := 0 to |w.before|
        invariant forall k | 0 <= k < i :: w.before[k] == Good
        invariant release == Open && releases == 0 && !disposalFailed && !dispatched && !committed && !definitelyAborted
      {
        if w.before[i] != Good {
          FirstBadUnique(w, i);
          if w.before[i] == Aborts {
            TerminalRelease(true, w.releaseFails);   // the abort listener
          }
          var e := Conclude(StepError(w.before[i]), w.releaseFails);
          return Err(e);
        }
      }
      dispatched := true;
      if w.commit != Tag("COMMIT") {
        var cause := Contract;
        match w.commit {
          case Tag(tag) => definitelyAborted := tag == "ROLLBACK";
          case Lost(code) => cause := Plain(code);
          case AbortedInFlight =>
            TerminalRelease(true, w.releaseFails);
            cause := Abort;
        }
        var e := Conclude(cause, w.releaseFails);
        return Err(e);
      }
      committed := true;
      if w.discard != Good {
        TerminalRelease(true, w.releaseFails);
        var e := Conclude(PostCommit, w.releaseFails);
        return Err(e);
      }
      TerminalRelease(false, w.releaseFails);
      if release == Failed {
        var e := Conclude(PostCommit, w.releaseFails);
        return Err(e);
      }
      return Ok(());
    }
  }

  lemma FirstBadUnique(w: World, i: nat)
    requires i < |w.before| && w.before[i] != Good && forall k | 0 <= k < i :: w.before[k] == Good
    ensures FirstBad(w, i) && forall j: nat | FirstBad(w, j) :: j == i
  {
    forall j: nat | FirstBad(w, j)
      ensures j == i
    {
    }
  }

  /** What one pass of the retry loop did. */
  datatype Round = Round(world: World, releases: nat, result: Result<(), Error>)

  /** The pool handed out a client, in time or late. */
  predicate GotClient(w: World) {
    match w.acquire
    case Connected => true
    case Refused(_) => false
    case TimedOut(late) => late
    case GivenUp(late) => late
  }

  predicate PassOk(p: Round) {
    && p.releases == (if GotClient(p.world) then 1 else 0)
    && (p.result.Ok? ==> Confirmed(p.world))
    && (p.result == Err(Ambiguous) <==> Dispatched(p.world) && !Confirmed(p.world) && !RolledBack(p.world))
    && (p.result.Err? && Retryable(p.result.error) ==> !Dispatched(p.world))
    && (p.result.Ok? <==> Clean(p.world))
  }

  /** The retry loop: `worlds` is what happens to the n-th pass, `before` and `after` whether the
      signal has fired at the check before it and the one after it. */
  method Transaction(worlds: nat -> World, before: nat -> bool, after: nat -> bool, maxRetries: nat)
    returns (r: Result<(), Error>, passes: seq<Round>)
    ensures |passes| <= maxRetries + 1
    ensures forall i | 0 <= i < |passes| :: passes[i].world == worlds(i) && PassOk(passes[i])
    // the callback is run again only after passes that never sent COMMIT
    ensures forall i | 0 <= i < |passes| - 1 :: !Dispatched(passes[i].world) && passes[i].result.Err?
    // the outcome is the last pass's, or an abort before any pass sent COMMIT
    ensures || (|passes| > 0 && r == Last(passes).result)
            || (r == Err(Abort) && forall i | 0 <= i < |passes| :: !Dispatched(passes[i].world))
    ensures r.Ok? ==> |passes| > 0 && Confirmed(Last(passes).world)
    ensures r == Err(Ambiguous) ==> |passes| > 0 && Dispatched(Last(passes).world) &&
                                    !Confirmed(Last(passes).world) && !RolledBack(Last(passes).world)
    // a COMMIT whose reply was neither COMMIT nor ROLLBACK is never reported as anything else
    ensures (exists i | 0 <= i < |passes| :: Dispatched(passes[i].world) && !Confirmed(passes[i].world) &&
                                             !RolledBack(passes[i].world)) ==> r == Err(Ambiguous)
    // and a confirmed COMMIT is never reported as a failure that may be retried
    ensures |passes| > 0 && Confirmed(Last(passes).world) ==> r.Ok? || !Retryable(r.error)
    // what may be retried is given up only for the bound or the signal, and nothing else is retried
    ensures |passes| > 0 && r == Last(passes).result && r.Err? && Retryable(r.error) ==>
              |passes| == maxRetries + 1 || after(|passes| - 1) || before(|passes|)
    ensures forall i | 0 <= i < |passes| - 1 :: passes[i].result.Err? && Retryable(passes[i].result.error)
    ensures |passes| == 0 ==> before(0) && r == Err(Abort)
    ensures (exists i | 0 <= i < |passes| :: Clean(passes[i].world)) ==> r.Ok?
  {
    passes := [];
    var attempt := 0;
    while true
      invariant |passes| == attempt <= maxRetries
      invariant forall i | 0 <= i < |passes| :: passes[i].world == worlds(i) && PassOk(passes[i])
      invariant forall i | 0 <= i < |passes| ::
                  !Dispatched(passes[i].world) && passes[i].result.Err? && Retryable(passes[i].result.error)
      decreases maxRetries - attempt
    {
      if before(attempt) {
        return Err(Abort), passes;
      }
      var pass := RunPass(worlds(attempt));
      passes := passes + [pass];
      if pass.result.Ok? || !Retryable(pass.result.error) || attempt >= maxRetries || after(attempt) {
        return pass.result, passes;
      }
      attempt := attempt + 1;
    }
  }

  method RunPass(w: World) returns (p: Round)
    ensures p.world == w && PassOk(p)
    ensures Confirmed(w) ==> p.result.Ok? || p.result.error == PostCommit
    ensures match w.acquire
            case Connected => forall i: nat | FirstBad(w, i) :: p.result.Err? && Reported(w, i, p.result.error)
            case Refused(code) => p.result == Err(Plain(code))
            case TimedOut(_) => p.result == Err(Contract)
            case GivenUp(_) => p.result == Err(Abort)
  {
    match w.acquire {
      case Connected =>
      case Refused(code) => return Round(w, 0, Err(Plain(code)));
      case TimedOut(late) => return Round(w, if late then 1 else 0, Err(Contract));
      case GivenUp(late) => return Round(w, if late then 1 else 0, Err(Abort));
    }
    var a := new Attempt();
    var result := a.Run(w);
    return Round(w, a.releases, result);
  }
}
