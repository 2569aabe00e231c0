/** A signed append-only history with a head row: what verifyChain accepts, that writing a row
    keeps it acceptable, and that the head digest pins the whole history. */
module SignedChain {
  import opened Wrappers

  datatype Link<Row> = Link(row: Row, seqno: nat, prev: Option<string>, digest: string, keyId: string, sig: string)

  datatype Table<Row> = Table(head: Option<Link<Row>>, history: seq<Link<Row>>)

  /** The guard of one table: the digest of a row's framed fields, the signer, and the
      verifier of a link's signature under the key it names. */
  datatype Guard<!Row> = Guard(
    digestOf: (Row, nat, Option<string>) -> string,
    keyId: string,
    sign: (Row, nat, Option<string>, string) -> string,
    verifies: Link<Row> -> bool)

  /** The guard's own signatures verify. */
  ghost predicate Sound<Row(!new)>(g: Guard<Row>) {
    forall row, n, prev, digest ::
      g.verifies(Link(row, n, prev, digest, g.keyId, g.sign(row, n, prev, digest)))
  }

  ghost predicate Injective<Row(!new)>(g: Guard<Row>) {
    forall r1, r2, n1, n2, p1, p2 ::
      g.digestOf(r1, n1, p1) == g.digestOf(r2, n2, p2) ==> r1 == r2 && n1 == n2 && p1 == p2
  }

  function HeadDigest<Row>(links: seq<Link<Row>>): Option<string> {
    if |links| == 0 then None else Some(Last(links).digest)
  }

  predicate LinkOk<Row(!new)>(g: Guard<Row>, l: Link<Row>, n: nat, prev: Option<string>) {
    && l.seqno == n && l.prev == prev
    && g.digestOf(l.row, l.seqno, l.prev) == l.digest
    && g.verifies(l)
  }

  predicate LinkedAt<Row(!new)>(g: Guard<Row>, links: seq<Link<Row>>, i: nat)
    requires i < |links|
  {
    LinkOk(g, links[i], i + 1, HeadDigest(links[..i]))
  }

  predicate ChainOk<Row(!new)>(g: Guard<Row>, links: seq<Link<Row>>) {
    forall i: nat | i < |links| :: LinkedAt(g, links, i)
  }

  /** The head row repeats the newest history row, up to who signed it. */
  predicate HeadOk<Row(!new)>(g: Guard<Row>, history: seq<Link<Row>>, head: Link<Row>)
    requires |history| > 0
  {
    && head.seqno == Last(history).seqno && head.digest == Last(history).digest
    && g.digestOf(head.row, head.seqno, head.prev) == head.digest
    && g.verifies(head)
  }

  method VerifyChain<Row(!new)>(g: Guard<Row>, history: seq<Link<Row>>, head: Link<Row>) returns (ok: bool)
    ensures ok <==> |history| > 0 && ChainOk(g, history) && HeadOk(g, history, head)
    // every accepted row is signed over its own fields, its place and the digest before it
    ensures ok ==> forall i | 0 <= i < |history| ::
              && g.verifies(history[i]) && history[i].seqno == i + 1
              && history[i].digest == g.digestOf(history[i].row, i + 1, history[i].prev)
              && history[i].prev == (if i == 0 then None else Some(history[i - 1].digest))
    ensures ok ==> g.verifies(head) && head.seqno == |history| && head.digest == history[|history| - 1].digest &&
                   head.digest == g.digestOf(head.row, head.seqno, head.prev)
  {
    if |history| == 0 {
      return false;
    }
    var prev: Option<string> := None;
    for i := 0 to |history|
      invariant prev == HeadDigest(history[..i])
      invariant forall k: nat | k < i :: LinkedAt(g, history, k)
    {
      var l := history[i];
      if l.seqno != i + 1 || l.prev != prev || g.digestOf(l.row, l.seqno, l.prev) != l.digest || !g.verifies(l) {
        assert !LinkedAt(g, history, i);
        return false;
      }
      prev := Some(l.digest);
      assert Last(history[..i + 1]) == l;
    }
    var last := history[|history| - 1];
    if head.seqno != last.seqno || head.digest != last.digest {
      return false;
    }
    ChainMeans(g, history);
    return g.digestOf(head.row, head.seqno, head.prev) == head.digest && g.verifies(head);
  }

  lemma ChainMeans<Row(!new)>(g: Guard<Row>, history: seq<Link<Row>>)
    requires ChainOk(g, history)
    ensures forall i | 0 <= i < |history| ::
              && g.verifies(history[i]) && history[i].seqno == i + 1
              && history[i].digest == g.digestOf(history[i].row, i + 1, history[i].prev)
              && history[i].prev == (if i == 0 then None else Some(history[i - 1].digest))
  {
    forall i: nat | i < |history|
      ensures && g.verifies(history[i]) && history[i].seqno == i + 1
              && history[i].digest == g.digestOf(history[i].row, i + 1, history[i].prev)
              && history[i].prev == (if i == 0 then None else Some(history[i - 1].digest))
    {
      assert LinkedAt(g, history, i);
    }
  }

  // ── writing ──

  function Signed<Row>(g: Guard<Row>, row: Row, n: nat, prev: Option<string>): Link<Row> {
    var digest := g.digestOf(row, n, prev);
    Link(row, n, prev, digest, g.keyId, g.sign(row, n, prev, digest))
  }

  /** The history insert and the head insert or forward compare-and-set, as one transition. */
  function Write<Row>(g: Guard<Row>, t: Table<Row>, row: Row): Table<Row> {
    var link := match t.head
      case None => Signed(g, row, 1, None)
      case Some(h) => Signed(g, row, h.seqno + 1, Some(h.digest));
    Table(Some(link), t.history + [link])
  }

  function Rows<Row>(links: seq<Link<Row>>): (rows: seq<Row>)
    ensures |rows| == |links| && forall i | 0 <= i < |links| :: rows[i] == links[i].row
  {
    seq(|links|, i requires 0 <= i < |links| => links[i].row)
  }

  ghost predicate TableOk<Row(!new)>(g: Guard<Row>, t: Table<Row>) {
    && ChainOk(g, t.history)
    && (t.head.None? <==> |t.history| == 0)
    && (t.head.Some? ==> t.head.value == Last(t.history))
  }

  /** A written table still verifies, and its rows are the old ones and the new one. */
  lemma WriteKeeps<Row(!new)>(g: Guard<Row>, t: Table<Row>, row: Row)
    requires Sound(g) && TableOk(g, t)
    ensures TableOk(g, Write(g, t, row))
    ensures Rows(Write(g, t, row).history) == Rows(t.history) + [row]
  {
    var u := Write(g, t, row);
    if t.head.Some? {
      var n := |t.history| - 1;
      assert LinkedAt(g, t.history, n);
    }
    forall i: nat | i < |u.history|
      ensures LinkedAt(g, u.history, i)
    {
      if i < |t.history| {
        assert LinkedAt(g, t.history, i);
        assert u.history[..i] == t.history[..i];
      } else {
        assert u.history[..i] == t.history;
      }
    }
  }

  // ── what an accepted head pins ──

  lemma ChainPrefix<Row(!new)>(g: Guard<Row>, links: seq<Link<Row>>)
    requires ChainOk(g, links) && |links| > 0
    ensures ChainOk(g, links[..|links| - 1])
  {
    var init := links[..|links| - 1];
    forall i: nat | i < |init|
      ensures LinkedAt(g, init, i)
    {
      assert LinkedAt(g, links, i);
      assert init[..i] == links[..i];
    }
  }

  lemma LinkPinned<Row(!new)>(g: Guard<Row>, x: Link<Row>, y: Link<Row>)
    requires Injective(g) && x.digest == y.digest
    requires g.digestOf(x.row, x.seqno, x.prev) == x.digest && g.digestOf(y.row, y.seqno, y.prev) == y.digest
    ensures x.row == y.row && x.seqno == y.seqno && x.prev == y.prev
  {
  }

  lemma LastLink<Row(!new)>(g: Guard<Row>, links: seq<Link<Row>>)
    requires ChainOk(g, links) && |links| > 0
    ensures LinkOk(g, Last(links), |links|, HeadDigest(links[..|links| - 1]))
    ensures Rows(links) == Rows(links[..|links| - 1]) + [Last(links).row]
  {
    var n := |links| - 1;
    assert LinkedAt(g, links, n);
  }

  /** Two accepted histories with the same head digest hold the same rows. */
  lemma {:induction false} HeadPinsHistory<Row(!new)>(g: Guard<Row>, a: seq<Link<Row>>, b: seq<Link<Row>>)
    requires Injective(g) && ChainOk(g, a) && ChainOk(g, b)
    requires HeadDigest(a) == HeadDigest(b)
    ensures Rows(a) == Rows(b)
  {
    if |a| > 0 {
      LastLink(g, a);
      LastLink(g, b);
      LinkPinned(g, Last(a), Last(b));
      ChainPrefix(g, a);
      ChainPrefix(g, b);
      HeadPinsHistory(g, a[..|a| - 1], b[..|b| - 1]);
    }
  }

  /** An older signed row put back over the head is refused, and so is any other content:
      an accepted head carries exactly the newest history row. */
  lemma HeadIsNewest<Row(!new)>(g: Guard<Row>, history: seq<Link<Row>>, head: Link<Row>)
    requires Injective(g) && |history| > 0 && ChainOk(g, history) && HeadOk(g, history, head)
    ensures head.row == Last(history).row && head.seqno == |history| && head.prev == Last(history).prev
  {
    LastLink(g, history);
    LinkPinned(g, head, Last(history));
  }
}
