/** The order of cutover rows: which row may follow which, and what that says about the
    rows of one epoch. */
module CutoverShape {
  import opened Wrappers
  import opened ControlModel

  predicate Succeeds(p: Phase, q: Phase) {
    match p
    case Preparing => q == SourceFenced
    case SourceFenced => q == Fenced
    case Fenced => q == Importing || q == Aborted
    case Importing => q == Ready || q == Aborted
    case Ready => q == Active || q == Aborted
    case _ => false
  }

  function Rank(p: Phase): nat {
    match p
    case Preparing => 0
    case SourceFenced => 1
    case Fenced => 2
    case Importing => 3
    case Ready => 4
    case _ => 5
  }

  /** A terminal row is followed by the next epoch's intent, any other row by its own
      epoch's next phase under the same command. */
  predicate Follows(a: CutRow, b: CutRow) {
    if Terminal(a.phase) then b.phase == Preparing && b.epoch == a.epoch + 1
    else b.epoch == a.epoch && b.cmd == a.cmd && Succeeds(a.phase, b.phase)
  }

  predicate Shape(cut: seq<CutRow>) {
    && (|cut| > 0 ==> cut[0].phase == Preparing && cut[0].epoch == 1)
    && forall i | 0 < i < |cut| :: Follows(cut[i - 1], cut[i])
  }

  /** The witness epoch a cutover history implies. */
  function ImpliedWitness(cut: seq<CutRow>): nat {
    if |cut| == 0 then 0
    else if Rank(Last(cut).phase) < 2 && Last(cut).epoch > 0 then Last(cut).epoch - 1
    else Last(cut).epoch
  }

  lemma {:induction false} RowOrder(cut: seq<CutRow>, i: nat, j: nat)
    requires Shape(cut) && i < j < |cut|
    ensures || cut[i].epoch < cut[j].epoch
            || (cut[i].epoch == cut[j].epoch && cut[i].cmd == cut[j].cmd &&
                Rank(cut[i].phase) < Rank(cut[j].phase))
  {
    assert Follows(cut[j - 1], cut[j]);
    if i < j - 1 {
      RowOrder(cut, i, j - 1);
    }
  }

  /** Two rows of one epoch with one rank are one row. */
  lemma UniqueRank(cut: seq<CutRow>, i: nat, j: nat)
    requires Shape(cut) && i < |cut| && j < |cut|
    requires cut[i].epoch == cut[j].epoch && Rank(cut[i].phase) == Rank(cut[j].phase)
    ensures i == j
  {
    if i < j {
      RowOrder(cut, i, j);
    } else if j < i {
      RowOrder(cut, j, i);
    }
  }

  lemma EpochBound(cut: seq<CutRow>, i: nat)
    requires Shape(cut) && i < |cut|
    ensures 1 <= cut[i].epoch <= Last(cut).epoch
  {
    if 0 < i {
      RowOrder(cut, 0, i);
    }
    if i < |cut| - 1 {
      RowOrder(cut, i, |cut| - 1);
    }
  }

  /** Every row past the intent has its epoch's SOURCE_FENCED row at or before it. */
  lemma {:induction false} FreezeBehind(cut: seq<CutRow>, k: nat) returns (i: nat)
    requires Shape(cut) && k < |cut| && Rank(cut[k].phase) >= 1
    ensures i <= k && cut[i].phase == SourceFenced && cut[i].epoch == cut[k].epoch && cut[i].cmd == cut[k].cmd
  {
    if cut[k].phase == SourceFenced {
      i := k;
    } else {
      assert Follows(cut[k - 1], cut[k]);
      i := FreezeBehind(cut, k - 1);
    }
  }

  lemma ShapeAppend(cut: seq<CutRow>, row: CutRow)
    requires Shape(cut)
    requires |cut| == 0 ==> row.phase == Preparing && row.epoch == 1
    requires |cut| > 0 ==> Follows(Last(cut), row)
    ensures Shape(cut + [row])
  {
    var next := cut + [row];
    forall i | 0 < i < |next|
      ensures Follows(next[i - 1], next[i])
    {
      if i < |cut| {
        assert Follows(cut[i - 1], cut[i]);
      }
    }
  }

  // ── the rows of one epoch ──

  function PhasesAt(cut: seq<CutRow>, e: nat): seq<Phase> {
    if |cut| == 0 then []
    else PhasesAt(cut[..|cut| - 1], e) + if Last(cut).epoch == e then [Last(cut).phase] else []
  }

  const PROMOTION: seq<Phase> := [Preparing, SourceFenced, Fenced, Importing, Ready, Active]

  /** A prefix of the full promotion, or a post-fence prefix closed by ABORTED. */
  predicate LegalPath(p: seq<Phase>) {
    || p <= PROMOTION
    || (4 <= |p| <= 6 && p[..|p| - 1] <= PROMOTION && Last(p) == Aborted)
  }

  predicate Finished(p: seq<Phase>) { |p| > 0 && Terminal(Last(p)) }

  lemma ShapePrefix(cut: seq<CutRow>)
    requires Shape(cut) && |cut| > 0
    ensures Shape(cut[..|cut| - 1])
  {
    var init := cut[..|cut| - 1];
    forall i | 0 < i < |init|
      ensures Follows(init[i - 1], init[i])
    {
      assert Follows(cut[i - 1], cut[i]);
    }
  }

  lemma {:induction false} PhasesBeyond(cut: seq<CutRow>, e: nat)
    requires Shape(cut) && (|cut| == 0 || e > Last(cut).epoch)
    ensures PhasesAt(cut, e) == []
  {
    if |cut| > 0 {
      ShapePrefix(cut);
      var init := cut[..|cut| - 1];
      if |init| > 0 {
        EpochBound(cut, |cut| - 2);
        assert Last(init) == cut[|cut| - 2];
      }
      PhasesBeyond(init, e);
    }
  }

  predicate EpochPathOk(cut: seq<CutRow>, e: nat) {
    var p := PhasesAt(cut, e);
    && LegalPath(p)
    && (p != [] <==> |cut| > 0 && 1 <= e <= Last(cut).epoch)
    && (|cut| > 0 && 1 <= e < Last(cut).epoch ==> Finished(p))
    && (|cut| > 0 && e == Last(cut).epoch ==> Last(p) == Last(cut).phase)
  }

  /** The phases of an epoch are a legal path; only the newest epoch may be unfinished. */
  lemma {:induction false} EpochPath(cut: seq<CutRow>, e: nat)
    requires Shape(cut)
    ensures EpochPathOk(cut, e)
  {
    if |cut| > 0 {
      ShapePrefix(cut);
      EpochPath(cut[..|cut| - 1], e);
      if |cut| > 1 {
        PathGrows(cut, e);
      }
    }
  }

  lemma PathGrows(cut: seq<CutRow>, e: nat)
    requires |cut| > 1 && Shape(cut) && Shape(cut[..|cut| - 1]) && EpochPathOk(cut[..|cut| - 1], e)
    ensures EpochPathOk(cut, e)
  {
    var init := cut[..|cut| - 1];
    assert Last(init) == cut[|cut| - 2];
    assert Follows(Last(init), Last(cut));
    EpochBound(cut, |cut| - 2);
    if e == Last(cut).epoch {
      if Terminal(Last(init).phase) {
        PhasesBeyond(init, e);
      } else {
        PathStep(PhasesAt(init, e), Last(cut).phase);
      }
    }
  }

  lemma PathStep(p: seq<Phase>, q: Phase)
    requires LegalPath(p) && |p| > 0 && Succeeds(Last(p), q)
    ensures LegalPath(p + [q])
  {
    assert p <= PROMOTION;
    var n := |p|;
    assert Last(p) == PROMOTION[n - 1];
    if q == Aborted {
      assert (p + [q])[..n] == p;
    } else {
      assert q == PROMOTION[n];
      assert p + [q] <= PROMOTION;
    }
  }

  // ── terminal rows ──

  lemma {:induction false} TerminalsBeyond(cut: seq<CutRow>, e: nat)
    requires forall i | 0 <= i < |cut| :: !(cut[i].epoch == e && Terminal(cut[i].phase))
    ensures TerminalsAt(cut, e) == []
  {
    if |cut| > 0 {
      TerminalsBeyond(cut[..|cut| - 1], e);
    }
  }

  /** An epoch has at most one terminal row, and TerminalsAt finds it. */
  lemma {:induction false} TerminalUnique(cut: seq<CutRow>, k: nat)
    requires Shape(cut) && k < |cut| && Terminal(cut[k].phase)
    ensures TerminalsAt(cut, cut[k].epoch) == [cut[k].phase]
  {
    var init := cut[..|cut| - 1];
    ShapePrefix(cut);
    if k < |init| {
      TerminalUnique(init, k);
      if Last(cut).epoch == cut[k].epoch && Terminal(Last(cut).phase) {
        UniqueRank(cut, k, |cut| - 1);
      }
    } else {
      forall i | 0 <= i < |init|
        ensures !(init[i].epoch == cut[k].epoch && Terminal(init[i].phase))
      {
        RowOrder(cut, i, k);
      }
      TerminalsBeyond(init, cut[k].epoch);
    }
  }

  lemma {:induction false} TerminalsSource(cut: seq<CutRow>, e: nat) returns (k: nat)
    requires TerminalsAt(cut, e) != []
    ensures k < |cut| && cut[k].epoch == e && Terminal(cut[k].phase)
  {
    var init := cut[..|cut| - 1];
    if Last(cut).epoch == e && Terminal(Last(cut).phase) {
      k := |cut| - 1;
    } else {
      k := TerminalsSource(init, e);
    }
  }
}
