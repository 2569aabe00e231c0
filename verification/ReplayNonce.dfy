/** Replay protection by retained nonces: how long the path from the freshness check to the
    nonce check may take before a request can be accepted twice. */
module ReplayNonce {
  import opened Wrappers

  /** freshness and retention windows, the asserted clock skew, and the longest time a request
      takes from its freshness check to its nonce check.  `strict` tells the two stores apart:
      the database deletes rows past their expiry, the in-memory store also those at it. */
  datatype Params = Params(freshness: nat, retention: nat, skew: nat, delay: nat, strict: bool)

  /** The retention the constructor guarantees, less the acceptance horizon. */
  function Slack(p: Params): int { p.retention - 2 * p.skew - 2 * p.freshness }

  /** The exact condition under which no request is ever accepted twice. */
  predicate Safe(p: Params) { if p.strict then p.delay <= Slack(p) else p.delay < Slack(p) }

  /** A signed request. */
  datatype Request = Request(ts: int, nonce: string)

  /** A request that was fresh at its check. */
  datatype Checked = Checked(req: Request, at: int)

  type Table = map<string, int>

  datatype System = System(now: int, table: Table, checked: set<Checked>, accepted: seq<Request>)

  datatype Event =
    | Tick(ms: nat)
    | Check(req: Request)                 // the freshness check
    | Prune(db: int)                      // any request's DELETE, on the database clock
    | Store(c: Checked, db: int)          // the INSERT of a checked request

  predicate Fresh(p: Params, ts: int, now: int) { now - p.freshness <= ts <= now + p.freshness }

  predicate Skewed(p: Params, db: int, now: int) { now - p.skew <= db <= now + p.skew }

  /** Kept by a prune at this clock reading. */
  predicate Kept(p: Params, expiry: int, db: int) { if p.strict then expiry >= db else expiry > db }

  function Pruned(p: Params, t: Table, db: int): Table { map n | n in t && Kept(p, t[n], db) :: t[n] }

  function Apply(p: Params, s: System, e: Event): System {
    match e
    case Tick(ms) => s.(now := s.now + ms)
    case Check(req) => if Fresh(p, req.ts, s.now) then s.(checked := s.checked + {Checked(req, s.now)}) else s
    case Prune(db) => if Skewed(p, db, s.now) then s.(table := Pruned(p, s.table, db)) else s
    case Store(c, db) =>
      if c in s.checked && s.now - c.at <= p.delay && Skewed(p, db, s.now) && c.req.nonce !in s.table then
        s.(table := s.table[c.req.nonce := db + p.retention], accepted := s.accepted + [c.req])
      else s
  }

  function Run(p: Params, start: int, events: seq<Event>): System {
    if |events| == 0 then System(start, map[], {}, [])
    else Apply(p, Run(p, start, events[..|events| - 1]), Last(events))
  }

  predicate OnceEach(a: seq<Request>) { forall i, j | 0 <= i < j < |a| :: a[i] != a[j] }

  // ── safety ──

  /** The nonce is still held to the end of the request's horizon, or the horizon is over. */
  predicate Held(p: Params, s: System, r: Request) {
    || (r.nonce in s.table && s.table[r.nonce] >= r.ts - p.freshness - p.skew + p.retention)
    || Over(p, s.now, r)
  }

  predicate Over(p: Params, now: int, r: Request) {
    var end := r.ts - p.freshness - 2 * p.skew + p.retention;
    if p.strict then now > end else now >= end
  }

  ghost predicate Inv(p: Params, s: System) {
    && OnceEach(s.accepted)
    && (forall i | 0 <= i < |s.accepted| :: Held(p, s, s.accepted[i]))
    && (forall c | c in s.checked :: Fresh(p, c.req.ts, c.at) && c.at <= s.now)
  }

  lemma StepKeeps(p: Params, s: System, e: Event)
    requires Safe(p) && Inv(p, s)
    ensures Inv(p, Apply(p, s, e))
  {
    var t := Apply(p, s, e);
    forall i | 0 <= i < |t.accepted|
      ensures Held(p, t, t.accepted[i])
    {
      if i < |s.accepted| {
        assert Held(p, s, s.accepted[i]);
      }
    }
    if t.accepted != s.accepted {
      forall i | 0 <= i < |s.accepted|
        ensures s.accepted[i] != e.c.req
      {
        assert Held(p, s, s.accepted[i]);
      }
    }
  }

  lemma {:induction false} RunInv(p: Params, start: int, events: seq<Event>)
    requires Safe(p)
    ensures Inv(p, Run(p, start, events))
  {
    if |events| > 0 {
      RunInv(p, start, events[..|events| - 1]);
      StepKeeps(p, Run(p, start, events[..|events| - 1]), Last(events));
    }
  }

  // ── and when it is too slow ──

  /** A request checked at both ends of its freshness window, the second time stored `delay`
      after its check. */
  function SlowRun(p: Params): seq<Event> {
    var r := Request(p.freshness, "n");
    var late := 2 * p.freshness + p.delay;
    [Check(r), Store(Checked(r, 0), 0 - p.skew), Tick(2 * p.freshness), Check(r), Tick(p.delay), Prune(late + p.skew),
     Store(Checked(r, 2 * p.freshness), late)]
  }

  lemma RunNext(p: Params, start: int, events: seq<Event>, e: Event)
    ensures Run(p, start, events + [e]) == Apply(p, Run(p, start, events), e)
  {
    assert (events + [e])[..|events + [e]| - 1] == events;
  }

  lemma SlowRunReplays(p: Params)
    requires !Safe(p)
    ensures var r := Request(p.freshness, "n"); Run(p, 0, SlowRun(p)).accepted == [r, r]
  {
    var r := Request(p.freshness, "n");
    var es := SlowRun(p);
    var s1 := System(0, map[], {Checked(r, 0)}, []);
    RunNext(p, 0, [], es[0]);
    assert [] + [es[0]] == es[..1];
    assert Run(p, 0, es[..1]) == s1;
    RunNext(p, 0, es[..1], es[1]);
    assert es[..1] + [es[1]] == es[..2];
    var s2 := System(0, map["n" := p.retention - p.skew], {Checked(r, 0)}, [r]);
    assert Run(p, 0, es[..2]) == s2;
    RunNext(p, 0, es[..2], es[2]);
    assert es[..2] + [es[2]] == es[..3];
    RunNext(p, 0, es[..3], es[3]);
    assert es[..3] + [es[3]] == es[..4];
    RunNext(p, 0, es[..4], es[4]);
    assert es[..4] + [es[4]] == es[..5];
    SlowRunEnds(p, es, Run(p, 0, es[..5]));
    RunNext(p, 0, es[..5], es[5]);
    assert es[..5] + [es[5]] == es[..6];
    RunNext(p, 0, es[..6], es[6]);
    assert es[..6] + [es[6]] == es;
  }

  /** The row is pruned, and the second copy stored. */
  lemma SlowRunEnds(p: Params, es: seq<Event>, s: System)
    requires !Safe(p) && es == SlowRun(p)
    requires s.now == 2 * p.freshness + p.delay && s.table == map["n" := p.retention - p.skew]
    requires s.accepted == [Request(p.freshness, "n")]
    requires Checked(Request(p.freshness, "n"), 2 * p.freshness) in s.checked
    ensures Apply(p, Apply(p, s, es[5]), es[6]).accepted == [Request(p.freshness, "n"), Request(p.freshness, "n")]
  {
    assert Pruned(p, s.table, s.now + p.skew) == map[];
  }

  /** No run accepts a request twice exactly when the delay stays within the retention's slack. */
  lemma AcceptedOnceIff(p: Params)
    ensures Safe(p) <==> forall start, events :: OnceEach(Run(p, start, events).accepted)
  {
    if Safe(p) {
      forall start, events
        ensures OnceEach(Run(p, start, events).accepted)
      {
        RunInv(p, start, events);
      }
    } else {
      SlowRunReplays(p);
      var a := Run(p, 0, SlowRun(p)).accepted;
      assert a[0] == a[1];
      assert !OnceEach(a);
    }
  }

  /** The constructor's inequality: its safety margin is a delay that is always covered. */
  lemma MarginCovers(p: Params, safety: nat)
    requires p.retention - 2 * p.skew >= 2 * p.freshness + safety
    ensures p.delay < safety ==> Safe(p)
    ensures p.strict && p.delay == safety ==> Safe(p)
  {
  }

  // ── the two stores ──

  class MemoryNonces {
    const retention: nat
    var seen: Table

    constructor (retention: nat)
      ensures this.retention == retention && seen == map[]
    {
      this.retention, seen := retention, map[];
    }

    method CheckAndStore(p: Params, nonce: string, now: int) returns (ok: bool)
      requires !p.strict && p.retention == retention
      modifies this
      ensures var t := Pruned(p, old(seen), now);
              ok == (nonce !in t) && seen == if ok then t[nonce := now + retention] else t
    {
      var keys := seen.Keys;
      ghost var start := seen;
      while keys != {}
        invariant keys <= start.Keys
        invariant forall n :: n in seen <==> n in start && (n in keys || Kept(p, start[n], now))
        invariant forall n | n in seen :: seen[n] == start[n]
        decreases keys
      {
        var k :| k in keys;
        if seen[k] <= now {
          seen := seen - {k};
        }
        keys := keys - {k};
      }
      assert seen == Pruned(p, start, now);
      if nonce in seen {
        return false;
      }
      seen := seen[nonce := now + retention];
      return true;
    }
  }

  class DatabaseNonces {
    const retention: nat
    const skew: nat
    var rows: Table

    constructor (retention: nat, skew: nat)
      ensures this.retention == retention && this.skew == skew && rows == map[]
    {
      this.retention, this.skew, rows := retention, skew, map[];
    }

    /** The three statements read the database clock at `db1`, `db2` and `db3`. */
    method CheckAndStore(p: Params, nonce: string, now: int, db1: int, db2: int, db3: int) returns (r: Result<bool, string>)
      requires p.strict && p.retention == retention && p.skew == skew
      modifies this
      ensures r.Err? <==> !Skewed(p, db1, now)
      ensures r.Err? ==> rows == old(rows)
      ensures r.Ok? ==> var t := Pruned(p, old(rows), db2);
                        r.value == (nonce !in t) && rows == if r.value then t[nonce := db3 + retention] else t
    {
      if db1 - now > skew || now - db1 > skew {
        return Err("clock skew");
      }
      rows := map n | n in rows && rows[n] >= db2 :: rows[n];
      if nonce in rows {
        return Ok(false);
      }
      rows := rows[nonce := db3 + retention];
      return Ok(true);
    }
  }
}
