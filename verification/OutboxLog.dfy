/** A hash-linked outbox log and a receiver that follows it, for any kind of mutation and any
    replica.  What one delivered record may change, and what the receiver then knows about the
    source. */
module OutboxLog {
  import opened Wrappers

  datatype Record<M> = Record(epoch: string, seqno: nat, fence: nat, opDigest: string, mutation: M)

  /** A signed stream head; `key` stands for the signing key id and algorithm. */
  datatype Head = Head(seqno: nat, prev: string, opDigest: string, key: string, headDigest: string)

  datatype Row<M> = Row(record: Record<M>, head: Head)

  datatype Hashes<!M> = Hashes(
    op: (string, nat, nat, M) -> string,
    head: (nat, string, string, string) -> string)

  ghost predicate Injective<M(!new)>(h: Hashes<M>) {
    && (forall e1, n1, f1, m1, e2, n2, f2, m2 ::
          h.op(e1, n1, f1, m1) == h.op(e2, n2, f2, m2) ==> e1 == e2 && n1 == n2 && f1 == f2 && m1 == m2)
    && (forall n1, p1, o1, k1, n2, p2, o2, k2 ::
          h.head(n1, p1, o1, k1) == h.head(n2, p2, o2, k2) ==> n1 == n2 && p1 == p2 && o1 == o2 && k1 == k2)
  }

  const GENESIS: string := "0000000000000000000000000000000000000000000000000000000000000000"

  /** The head digest after the first n rows. */
  function HeadAt<M>(log: seq<Row<M>>, n: nat): string
    requires n <= |log|
  {
    if n == 0 then GENESIS else log[n - 1].head.headDigest
  }

  /** The record's digest recomputes and the head binds the record. */
  predicate Genuine<M>(h: Hashes<M>, rec: Record<M>, head: Head) {
    && h.op(rec.epoch, rec.seqno, rec.fence, rec.mutation) == rec.opDigest
    && head.seqno == rec.seqno && head.opDigest == rec.opDigest
    && h.head(head.seqno, head.prev, head.opDigest, head.key) == head.headDigest
  }

  predicate RowOk<M>(h: Hashes<M>, log: seq<Row<M>>, i: nat)
    requires i < |log|
  {
    Genuine(h, log[i].record, log[i].head) && log[i].record.seqno == i + 1 && log[i].head.prev == HeadAt(log, i)
  }

  predicate LogOk<M>(h: Hashes<M>, log: seq<Row<M>>) {
    forall i: nat | i < |log| :: RowOk(h, log, i)
  }

  function NextRow<M>(h: Hashes<M>, log: seq<Row<M>>, epoch: string, fence: nat, m: M, key: string): Row<M> {
    var n := |log| + 1;
    var op := h.op(epoch, n, fence, m);
    var prev := HeadAt(log, |log|);
    Row(Record(epoch, n, fence, op, m), Head(n, prev, op, key, h.head(n, prev, op, key)))
  }

  lemma AppendKeepsLog<M>(h: Hashes<M>, log: seq<Row<M>>, epoch: string, fence: nat, m: M, key: string)
    requires LogOk(h, log)
    ensures LogOk(h, log + [NextRow(h, log, epoch, fence, m, key)])
  {
    var next := log + [NextRow(h, log, epoch, fence, m, key)];
    forall i: nat | i < |next|
      ensures RowOk(h, next, i)
    {
      if i < |log| {
        assert RowOk(h, log, i);
      }
    }
  }

  /** The verifier accepts heads that the source committed, and no others. */
  predicate Committed<M>(log: seq<Row<M>>, head: Head) {
    exists i | 0 <= i < |log| :: log[i].head.headDigest == head.headDigest
  }

  /** A genuine record under a committed head is a row of the log, field for field. */
  lemma CommittedPins<M(!new)>(h: Hashes<M>, log: seq<Row<M>>, rec: Record<M>, head: Head)
    requires Injective(h) && LogOk(h, log) && Genuine(h, rec, head) && Committed(log, head)
    ensures 1 <= rec.seqno <= |log|
    ensures log[rec.seqno - 1] == Row(rec, head)
  {
    var i: nat :| i < |log| && log[i].head.headDigest == head.headDigest;
    assert RowOk(h, log, i);
    HeadPins(h, log[i].head, head);
    OpPins(h, log[i].record, rec);
  }

  lemma HeadPins<M(!new)>(h: Hashes<M>, a: Head, b: Head)
    requires Injective(h) && a.headDigest == b.headDigest
    requires h.head(a.seqno, a.prev, a.opDigest, a.key) == a.headDigest
    requires h.head(b.seqno, b.prev, b.opDigest, b.key) == b.headDigest
    ensures a == b
  {
  }

  lemma OpPins<M(!new)>(h: Hashes<M>, a: Record<M>, b: Record<M>)
    requires Injective(h) && a.opDigest == b.opDigest
    requires h.op(a.epoch, a.seqno, a.fence, a.mutation) == a.opDigest
    requires h.op(b.epoch, b.seqno, b.fence, b.mutation) == b.opDigest
    ensures a == b
  {
  }

  // ── the receiver ──

  datatype Receiver<S> = Receiver(
    epoch: string, fence: Option<nat>, cpSeq: nat, cpHead: string,
    applied: map<(string, nat), string>, replica: S)

  /** What a replica is: where it starts, which mutation it takes next, what it becomes. */
  datatype Machine<!M, !S> = Machine(init: S, accepts: (S, M) -> bool, apply: (S, M) -> S)

  /** The replica after the first n mutations of a log. */
  function Fold<M, S>(k: Machine<M, S>, log: seq<Row<M>>, n: nat): S
    requires n <= |log|
  {
    if n == 0 then k.init else k.apply(Fold(k, log, n - 1), log[n - 1].record.mutation)
  }

  lemma {:induction false} FoldPrefix<M, S>(k: Machine<M, S>, log: seq<Row<M>>, more: seq<Row<M>>, n: nat)
    requires n <= |log|
    ensures Fold(k, log + more, n) == Fold(k, log, n)
  {
    if n > 0 {
      FoldPrefix(k, log, more, n - 1);
    }
  }

  datatype Decision =
    | Applied | DuplicateOk | RejectGap | RejectFence | RejectFork | RejectStale | RejectUnsanitized | RejectEpoch

  predicate AckDecision(d: Decision) { d == Applied || d == DuplicateOk }

  /** The only conditions under which a receiver may apply. */
  predicate MayApply<M, S>(h: Hashes<M>, k: Machine<M, S>, r: Receiver<S>, rec: Record<M>, head: Head) {
    && Genuine(h, rec, head)
    && r.fence == Some(rec.fence) && r.epoch == rec.epoch
    && rec.seqno == r.cpSeq + 1 && head.prev == r.cpHead
    && k.accepts(r.replica, rec.mutation)
  }

  function AfterApply<M, S>(k: Machine<M, S>, r: Receiver<S>, rec: Record<M>, head: Head): Receiver<S> {
    r.(cpSeq := rec.seqno, cpHead := head.headDigest,
       applied := r.applied[(rec.epoch, rec.seqno) := rec.opDigest],
       replica := k.apply(r.replica, rec.mutation))
  }

  /** Row i of the log has been applied: taken in order from the state before it, and recorded. */
  ghost predicate Took<M, S>(k: Machine<M, S>, log: seq<Row<M>>, r: Receiver<S>, i: nat)
    requires i < |log|
  {
    && log[i].record.epoch == r.epoch
    && k.accepts(Fold(k, log, i), log[i].record.mutation)
    && (r.epoch, i + 1) in r.applied && r.applied[(r.epoch, i + 1)] == log[i].record.opDigest
  }

  /** The receiver is the image of a prefix of the log, and of nothing else. */
  ghost predicate Mirrors<M, S>(k: Machine<M, S>, log: seq<Row<M>>, r: Receiver<S>) {
    && r.cpSeq <= |log|
    && r.cpHead == HeadAt(log, r.cpSeq)
    && r.replica == Fold(k, log, r.cpSeq)
    && (forall i: nat | i < r.cpSeq :: Took(k, log, r, i))
    && (forall key | key in r.applied :: key.0 == r.epoch && 1 <= key.1 <= r.cpSeq)
  }

  lemma MirrorsGrow<M, S>(k: Machine<M, S>, log: seq<Row<M>>, r: Receiver<S>, row: Row<M>)
    requires Mirrors(k, log, r)
    ensures Mirrors(k, log + [row], r)
  {
    FoldPrefix(k, log, [row], r.cpSeq);
    forall i: nat | i < r.cpSeq
      ensures Took(k, log + [row], r, i)
    {
      assert Took(k, log, r, i);
      FoldPrefix(k, log, [row], i);
    }
  }

  /** Applying one record keeps the receiver a prefix image. */
  lemma ApplyMirrors<M(!new), S>(h: Hashes<M>, k: Machine<M, S>, log: seq<Row<M>>, r: Receiver<S>,
                                 rec: Record<M>, head: Head)
    requires Injective(h) && LogOk(h, log) && Mirrors(k, log, r)
    requires MayApply(h, k, r, rec, head) && Committed(log, head)
    ensures Mirrors(k, log, AfterApply(k, r, rec, head))
  {
    CommittedPins(h, log, rec, head);
    var t := AfterApply(k, r, rec, head);
    forall i: nat | i < t.cpSeq
      ensures Took(k, log, t, i)
    {
      if i < r.cpSeq {
        assert Took(k, log, r, i);
      }
    }
  }

  /** A row that is recorded as applied is the log's row at that sequence, by digest. */
  lemma RecordedIsLogged<M, S>(k: Machine<M, S>, log: seq<Row<M>>, r: Receiver<S>, key: (string, nat))
    requires Mirrors(k, log, r) && key in r.applied
    ensures 1 <= key.1 <= |log| && r.applied[key] == log[key.1 - 1].record.opDigest
  {
    assert Took(k, log, r, key.1 - 1);
  }
}
