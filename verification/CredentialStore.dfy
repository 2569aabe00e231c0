/** The credential store and its receiver as they update their tables, proved against
    CredentialLog and CredentialRefinement. */
module CredentialStore {
  import opened Wrappers
  import opened Credential
  import opened CredentialMap
  import opened CredentialLog
  import opened OutboxLog
  import CredentialRefinement

  /** What a commit returns, or that it threw and its transaction was rolled back. */
  datatype Answer = Answered(result: Result<Success, CommitError>) | Thrown

  class CredentialTable {
    const sha: Sha
    const tenth: nat -> nat
    var rows: Table

    constructor (sha: Sha, tenth: nat -> nat)
      ensures this.sha == sha && this.tenth == tenth && rows == map[]
    {
      this.sha, this.tenth, rows := sha, tenth, map[];
    }

    /** Append the snapshot and write the row; refused when the map or revision is out of range. */
    method Write(m: TumblerMap, revision: nat) returns (appended: Option<Mutation>)
      modifies this`rows
      ensures (rows, appended) == Persist(sha, old(rows), m, revision)
    {
      var valid := ValidateMap(m, true);
      if !valid || revision < 1 || revision > MAX_REVISION {
        return None;
      }
      rows := rows[m.who.clientId := Entry(m, revision)];
      return Some(Snapshot(SnapOf(sha, m, revision)));
    }

    method Put(id: string, value: TumblerMap) returns (appended: Option<Mutation>)
      modifies this`rows
      ensures (rows, appended) == SetMap(sha, old(rows), id, value)
    {
      var valid := ValidateMap(value, true);
      if !valid || value.who.clientId != id {
        return None;
      }
      var revision := 1;
      if id in rows {
        var ok := AssertMonotonic(rows[id].value, value);
        if !ok {
          return None;
        }
        revision := rows[id].revision + 1;
      }
      appended := Write(value, revision);
    }

    method Drop(id: string) returns (appended: Option<Mutation>)
      modifies this`rows
      ensures (rows, appended) == RemoveMap(old(rows), id)
    {
      if id !in rows || rows[id].revision + 1 > MAX_REVISION {
        return None;
      }
      appended := Some(Delete(id, rows[id].revision + 1));
      rows := rows - {id};
    }

    method SetCounters(id: string, updates: seq<(string, nat)>) returns (appended: Option<Mutation>)
      modifies this`rows
      ensures (rows, appended) == UpdateMap(sha, old(rows), id, updates)
    {
      if id !in rows {
        return None;
      }
      var segments := ApplyUpdates(rows[id].value.segments, updates);
      if segments.None? {
        return None;
      }
      appended := Write(Reconciled(rows[id].value, segments.value), rows[id].revision + 1);
    }

    method Consume(id: string, segmentId: string, matched: int) returns (appended: Option<Mutation>)
      modifies this`rows
      ensures (rows, appended) == ConsumeMap(sha, old(rows), id, segmentId, matched)
    {
      if !(0 <= matched < MAX_COUNTER) || id !in rows {
        return None;
      }
      var m := rows[id].value;
      var i := IndexOf(m.segments, segmentId);
      if i.None? || m.segments[i.value].kind != Hotp {
        return None;
      }
      var stored := Counter(m.segments[i.value]);
      if stored >= MAX_COUNTER {
        if stored == MAX_COUNTER && !Dead(m.status) {
          appended := Write(m.(status := Some(Expired)), rows[id].revision + 1);
          return;
        }
        return None;
      }
      if stored > matched {
        return None;
      }
      appended := Write(Reconciled(m, SetCounter(m.segments, segmentId, matched + 1)), rows[id].revision + 1);
    }

    method CommitUse(id: string, input: Input) returns (appended: Option<Mutation>, r: Answer)
      modifies this`rows
      ensures (rows, appended) == CommitMap(sha, tenth, old(rows), id, input)
      ensures r == if !InputOk(input) then Thrown
                   else if id !in old(rows) then Answered(Err(KeyExpired))
                   else
                     var done := Commit(tenth, old(rows)[id].value, input);
                     if done.0 != old(rows)[id].value && appended.None? then Thrown else Answered(done.1)
    {
      if !InputOk(input) {
        return None, Thrown;
      }
      if id !in rows {
        return None, Answered(Err(KeyExpired));
      }
      var done, before := Commit(tenth, rows[id].value, input), rows[id].value;
      appended := WriteIfChanged(id, done.0);
      r := if done.0 != before && appended.None? then Thrown else Answered(done.1);
    }

    method WriteIfChanged(id: string, next: TumblerMap) returns (appended: Option<Mutation>)
      requires id in rows
      modifies this`rows
      ensures (rows, appended) == PersistIfChanged(sha, old(rows), id, next)
    {
      if next == rows[id].value {
        return None;
      }
      appended := Write(next, rows[id].revision + 1);
    }

    method Rotate(oldId: string, value: TumblerMap) returns (appended: Option<Mutation>)
      modifies this`rows
      ensures (rows, appended) == ReplaceMap(sha, old(rows), oldId, value)
    {
      var valid := ValidateMap(value, true);
      if !valid || oldId !in rows || !Replaceable(rows[oldId].value.status) || value.who.clientId in rows {
        return None;
      }
      if Dead(value.status) || rows[oldId].revision + 1 > MAX_REVISION {
        return None;
      }
      var prior, revision := rows[oldId].value.(status := Some(Revoked)), rows[oldId].revision + 1;
      rows := rows[oldId := Entry(prior, revision)][value.who.clientId := Entry(value, 1)];
      return Some(Replace(SnapOf(sha, prior, revision), SnapOf(sha, value, 1)));
    }
  }

  method ApplyUpdates(segments: seq<Segment>, updates: seq<(string, nat)>) returns (r: Option<seq<Segment>>)
    ensures r == UpdateAll(segments, updates)
  {
    var moved := segments;
    for n := 0 to |updates|
      invariant UpdateAll(segments, updates[..n]) == Some(moved)
    {
      UpdateNext(segments, updates, n, moved);
      var u := updates[n];
      var i := IndexOf(moved, u.0);
      if i.None? || moved[i.value].kind != Hotp || u.1 < Counter(moved[i.value]) || u.1 > MAX_COUNTER {
        UpdateStuck(segments, updates, n + 1);
        return None;
      }
      moved := SetCounter(moved, u.0, u.1);
    }
    assert updates[..|updates|] == updates;
    return Some(moved);
  }

  lemma UpdateNext(segments: seq<Segment>, updates: seq<(string, nat)>, n: nat, sofar: seq<Segment>)
    requires n < |updates| && UpdateAll(segments, updates[..n]) == Some(sofar)
    ensures var u, i := updates[n], IndexOf(sofar, updates[n].0);
            UpdateAll(segments, updates[..n + 1]) ==
            if i.None? || sofar[i.value].kind != Hotp || u.1 < Counter(sofar[i.value]) || u.1 > MAX_COUNTER
            then None else Some(SetCounter(sofar, u.0, u.1))
  {
    assert updates[..n + 1][..n] == updates[..n];
  }

  lemma {:induction false} UpdateStuck(segments: seq<Segment>, updates: seq<(string, nat)>, n: nat)
    requires n <= |updates| && UpdateAll(segments, updates[..n]).None?
    ensures UpdateAll(segments, updates).None?
  {
    if n == |updates| {
      assert updates[..n] == updates;
    } else {
      assert updates[..|updates| - 1][..n] == updates[..n];
      UpdateStuck(segments, updates[..|updates| - 1], n);
    }
  }

  class ReplicaTables {
    const h: Hashes<Mutation>
    var epoch: string
    var fence: Option<nat>
    var cpSeq: nat
    var cpHead: string
    var applied: map<(string, nat), string>
    var replica: Replica

    function State(): Receiver<Replica>
      reads this
    {
      Receiver(epoch, fence, cpSeq, cpHead, applied, replica)
    }

    constructor (h: Hashes<Mutation>, epoch: string, fence: Option<nat>)
      ensures this.h == h && State() == Receiver(epoch, fence, 0, GENESIS, map[], map[])
    {
      this.h, this.epoch, this.fence := h, epoch, fence;
      cpSeq, cpHead, applied, replica := 0, GENESIS, map[], map[];
    }

    method VerifyAndApply(rec: Record<Mutation>, head: Head, verified: bool) returns (d: Decision)
      modifies this`cpSeq, this`cpHead, this`applied, this`replica
      ensures d == CredentialRefinement.Decide(h, old(State()), rec, head, verified)
      ensures State() == if d == Applied then AfterApply(CredentialRefinement.Machinery(), old(State()), rec, head)
                         else old(State())
    {
      if !Sane(rec.mutation) || !Genuine(h, rec, head) || !verified {
        return RejectFork;
      }
      if fence.None? || fence.value != rec.fence {
        return RejectFence;
      }
      var key := (rec.epoch, rec.seqno);
      if rec.seqno < cpSeq + 1 {
        return if key in applied && applied[key] == rec.opDigest then DuplicateOk else RejectFork;
      }
      if rec.seqno != cpSeq + 1 {
        return RejectGap;
      }
      if epoch != rec.epoch || cpHead != head.prev {
        return RejectFork;
      }
      match rec.mutation {
        case Replace(prior, next) =>
          if prior.clientId !in replica || next.clientId in replica || !SnapFollows(replica, prior) ||
             !SnapFollows(replica, next) {
            return RejectFork;
          }
          replica := replica[prior.clientId := prior];
          replica := replica[next.clientId := next];
        case Delete(id, revision) =>
          if id !in replica || revision != replica[id].revision + 1 {
            return RejectFork;
          }
          replica := replica - {id};
        case Snapshot(s) =>
          if !SnapFollows(replica, s) {
            return RejectFork;
          }
          replica := replica[s.clientId := s];
      }
      applied := applied[key := rec.opDigest];
      cpSeq, cpHead := rec.seqno, head.headDigest;
      return Applied;
    }
  }
}
