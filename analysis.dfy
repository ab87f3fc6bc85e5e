/** The three comparisons the script reports: all states of the two
    policy groups (lines 79-102), the dem-leaning states (lines 110-143)
    and the rep-leaning states (lines 152-185). */
module Analysis {
  import opened Wrappers
  import opened Survey
  import opened Stats
  import opened Classify

  /** The overall test: mean share of the EarlyVoting group minus that of
      the NoEarlyVoting group, with the group sizes `n_true_early` and
      `n_no_early`. It runs on numpy scalars, so it never raises on a
      division, and it is non-finite exactly when a group has no defined
      share. */
  function OverallTest(rows: seq<StateRow>, root: real): (r: TestOutcome)
    requires RootFor(GroupMean(rows, EarlyVoting), CountLabel(rows, EarlyVoting),
                     GroupMean(rows, NoEarlyVoting), CountLabel(rows, NoEarlyVoting), root)
    ensures !r.ZeroDivisionError?
    ensures r.NonFinite? <==> GroupMean(rows, EarlyVoting).None? || GroupMean(rows, NoEarlyVoting).None?
  {
    TwoSampleTest(NumpyScalars,
                  GroupMean(rows, EarlyVoting), CountLabel(rows, EarlyVoting),
                  GroupMean(rows, NoEarlyVoting), CountLabel(rows, NoEarlyVoting), root)
  }

  /** The test within the dem-leaning or rep-leaning states. Its means are
      Python floats, and it is non-finite exactly when a subgroup is
      empty. */
  function LeaningTest(rows: seq<StateRow>, lean: Lean, root: real): (r: TestOutcome)
    requires RootFor(SubgroupMean(rows, EarlyVoting, lean), SubgroupCount(rows, EarlyVoting, lean),
                     SubgroupMean(rows, NoEarlyVoting, lean), SubgroupCount(rows, NoEarlyVoting, lean), root)
    ensures r.NonFinite? <==> SubgroupCount(rows, EarlyVoting, lean) == 0 || SubgroupCount(rows, NoEarlyVoting, lean) == 0
  {
    TwoSampleTest(PythonFloats,
                  SubgroupMean(rows, EarlyVoting, lean), SubgroupCount(rows, EarlyVoting, lean),
                  SubgroupMean(rows, NoEarlyVoting, lean), SubgroupCount(rows, NoEarlyVoting, lean), root)
  }

  /** Every share in the per-state table is undefined or in [0, 1]. */
  lemma TableSharesInUnitRange(recs: seq<VotingRecord>)
    ensures SharesInUnitRange(StateTable(recs))
  {
    var t := StateTable(recs);
    forall i | 0 <= i < |t| && t[i].pDem.Some? ensures 0.0 <= t[i].pDem.value <= 1.0 {
      assert WellFormedRow(t[i]);
    }
  }

  /** On the per-state table the overall test never makes `math.sqrt`
      raise; it is computed exactly when each policy group has a state with
      a defined share, and then its interval brackets the difference. */
  lemma OverallTestOutcome(recs: seq<VotingRecord>, root: real)
    requires RootFor(GroupMean(StateTable(recs), EarlyVoting), CountLabel(StateTable(recs), EarlyVoting),
                     GroupMean(StateTable(recs), NoEarlyVoting), CountLabel(StateTable(recs), NoEarlyVoting), root)
    ensures !OverallTest(StateTable(recs), root).MathDomainError?
    ensures OverallTest(StateTable(recs), root).Computed? <==>
      && (exists row :: row in StateTable(recs) && row.earlyVoting == EarlyVoting && row.pDem.Some?)
      && (exists row :: row in StateTable(recs) && row.earlyVoting == NoEarlyVoting && row.pDem.Some?)
    ensures OverallTest(StateTable(recs), root).Computed? ==>
      var r := OverallTest(StateTable(recs), root).result;
      r.lower <= r.difference <= r.upper
  {
    var rows := StateTable(recs);
    TableSharesInUnitRange(recs);
    GroupMeanProperties(rows, EarlyVoting);
    GroupMeanProperties(rows, NoEarlyVoting);
    TestComputable(NumpyScalars, GroupMean(rows, EarlyVoting), CountLabel(rows, EarlyVoting),
                   GroupMean(rows, NoEarlyVoting), CountLabel(rows, NoEarlyVoting), root);
  }

  /** On any table with shares in [0, 1] a leaning test never makes
      `math.sqrt` raise. With both subgroups non-empty it raises
      `ZeroDivisionError` at the t ratio (lines 141, 183) exactly when the
      standard error is zero: both dem-leaning means are 1.0, or both
      rep-leaning means are 0.0. Otherwise it is computed, and then both
      dem-leaning means lie above 0.5 (both rep-leaning means below it). */
  lemma LeaningTestOutcome(rows: seq<StateRow>, lean: Lean, root: real)
    requires SharesInUnitRange(rows)
    requires RootFor(SubgroupMean(rows, EarlyVoting, lean), SubgroupCount(rows, EarlyVoting, lean),
                     SubgroupMean(rows, NoEarlyVoting, lean), SubgroupCount(rows, NoEarlyVoting, lean), root)
    ensures !LeaningTest(rows, lean, root).MathDomainError?
    ensures LeaningTest(rows, lean, root).ZeroDivisionError? <==>
            if lean == DemLean then
              SubgroupMean(rows, EarlyVoting, lean) == Some(1.0) && SubgroupMean(rows, NoEarlyVoting, lean) == Some(1.0)
            else
              SubgroupMean(rows, EarlyVoting, lean) == Some(0.0) && SubgroupMean(rows, NoEarlyVoting, lean) == Some(0.0)
    ensures LeaningTest(rows, lean, root).Computed? <==>
            SubgroupCount(rows, EarlyVoting, lean) > 0 && SubgroupCount(rows, NoEarlyVoting, lean) > 0
            && !LeaningTest(rows, lean, root).ZeroDivisionError?
    ensures LeaningTest(rows, lean, root).Computed? && lean == DemLean ==>
            SubgroupMean(rows, EarlyVoting, lean).value > 0.5 && SubgroupMean(rows, NoEarlyVoting, lean).value > 0.5
    ensures LeaningTest(rows, lean, root).Computed? && lean == RepLean ==>
            SubgroupMean(rows, EarlyVoting, lean).value < 0.5 && SubgroupMean(rows, NoEarlyVoting, lean).value < 0.5
  {
    var mE, nE := SubgroupMean(rows, EarlyVoting, lean), SubgroupCount(rows, EarlyVoting, lean);
    var mN, nN := SubgroupMean(rows, NoEarlyVoting, lean), SubgroupCount(rows, NoEarlyVoting, lean);
    SubgroupMeanInRange(rows, EarlyVoting, lean);
    SubgroupMeanInRange(rows, NoEarlyVoting, lean);
    if nE > 0 {
      SubgroupMeanSide(rows, EarlyVoting, lean);
    }
    if nN > 0 {
      SubgroupMeanSide(rows, NoEarlyVoting, lean);
    }
    if nE > 0 && nN > 0 {
      RadicandZero(mE.value, nE, mN.value, nN);
    }
    TestComputable(PythonFloats, mE, nE, mN, nN, root);
  }

  /** A subgroup mean is defined exactly for a non-empty subgroup and is
      then a share in [0, 1]. */
  lemma SubgroupMeanInRange(rows: seq<StateRow>, policy: string, lean: Lean)
    requires SharesInUnitRange(rows)
    ensures SubgroupMean(rows, policy, lean).Some? <==> SubgroupCount(rows, policy, lean) > 0
    ensures SubgroupMean(rows, policy, lean).Some? ==> 0.0 <= SubgroupMean(rows, policy, lean).value <= 1.0
  {
    var s := Select(rows, Leaning(policy, lean));
    SelectKeepsShareRange(rows, Leaning(policy, lean));
    DefinedSharesWithin(s);
    if s != [] {
      LeaningShares(s, policy, lean);
      MeanWithin(DefinedShares(s), 0.0, 1.0);
    }
  }

  /** Two states, A with 60 Democratic and 40 Republican votes and early
      voting, B with 30 and 70 and none: the shares are 0.6 and 0.3, the
      overall difference is 0.3 (radicand 0.24 + 0.21), A is the only
      dem-leaning state and B the only rep-leaning one, so neither leaning
      test has two non-empty subgroups. */
  lemma TwoStateScenario(root: real)
    requires IsRoot(root, 0.45)
    ensures
      var a := StateRow("A", 0, 0, 60, 40, 0, 0, 100, Share(60, 100), EarlyVoting);
      var b := StateRow("B", 0, 0, 30, 70, 0, 0, 100, Share(30, 100), NoEarlyVoting);
      && a.pDem == Some(0.6) && b.pDem == Some(0.3)
      && GroupMean([a, b], EarlyVoting) == Some(0.6) && CountLabel([a, b], EarlyVoting) == 1
      && GroupMean([a, b], NoEarlyVoting) == Some(0.3) && CountLabel([a, b], NoEarlyVoting) == 1
      && Radicand(Some(0.6), 1, Some(0.3), 1) == Some(0.45)
      && OverallTest([a, b], root).Computed?
      && OverallTest([a, b], root).result.difference == 0.3
      && SubgroupCount([a, b], EarlyVoting, DemLean) == 1
      && SubgroupCount([a, b], NoEarlyVoting, RepLean) == 1
      && SubgroupCount([a, b], NoEarlyVoting, DemLean) == 0
      && SubgroupCount([a, b], EarlyVoting, RepLean) == 0
  {
    var a := StateRow("A", 0, 0, 60, 40, 0, 0, 100, Share(60, 100), EarlyVoting);
    var b := StateRow("B", 0, 0, 30, 70, 0, 0, 100, Share(30, 100), NoEarlyVoting);
    var rows := [a, b];
    assert EarlyVoting != NoEarlyVoting by {
      assert |EarlyVoting| == 11 && |NoEarlyVoting| == 13;
    }
    assert Select(rows, Label(EarlyVoting)) == [a];
    assert Select(rows, Label(NoEarlyVoting)) == [b];
    assert rows[1..] == [b] && [b][1..] == [] && [a][1..] == [];
    assert DefinedShares([a]) == [0.6];
    assert DefinedShares([b]) == [0.3];
    assert Sum([0.6]) == 0.6 && Sum([0.3]) == 0.3 by {
      assert [0.6][1..] == [] && [0.3][1..] == [];
    }
    assert GroupMean(rows, EarlyVoting) == Some(0.6);
    assert GroupMean(rows, NoEarlyVoting) == Some(0.3);
    assert CountLabel([b], EarlyVoting) == 0;
    assert CountLabel(rows, EarlyVoting) == 1;
    assert CountLabel([b], NoEarlyVoting) == 1;
    assert CountLabel(rows, NoEarlyVoting) == 1;
    assert Radicand(Some(0.6), 1, Some(0.3), 1) == Some(0.45);
    assert OverallTest(rows, root).result.difference == 0.3;
    assert MaskApply(rows, EarlyVoting, DemLean) == [true, false];
    assert MaskApply(rows, NoEarlyVoting, RepLean) == [false, true];
    assert MaskApply(rows, NoEarlyVoting, DemLean) == [false, false];
    assert MaskApply(rows, EarlyVoting, RepLean) == [false, false];
    assert [true, false][1..] == [false] && [false, true][1..] == [true];
    assert [false, false][1..] == [false] && [false][1..] == [] && [true][1..] == [];
  }

  /** Two states whose every partisan vote is Democratic, A with early
      voting and B without: both dem-leaning means are 1.0 and the
      standard error is 0.0. The overall test, on numpy scalars, is
      computed with a non-finite t; the dem-leaning test divides the
      Python float 0.0 by 0.0 at line 141 and raises. */
  lemma UnanimousScenario()
    ensures
      var a := StateRow("A", 0, 0, 1, 0, 0, 0, 1, Share(1, 1), EarlyVoting);
      var b := StateRow("B", 0, 0, 1, 0, 0, 0, 1, Share(1, 1), NoEarlyVoting);
      && GroupMean([a, b], EarlyVoting) == Some(1.0) && CountLabel([a, b], EarlyVoting) == 1
      && GroupMean([a, b], NoEarlyVoting) == Some(1.0) && CountLabel([a, b], NoEarlyVoting) == 1
      && SubgroupMean([a, b], EarlyVoting, DemLean) == Some(1.0) && SubgroupCount([a, b], EarlyVoting, DemLean) == 1
      && SubgroupMean([a, b], NoEarlyVoting, DemLean) == Some(1.0) && SubgroupCount([a, b], NoEarlyVoting, DemLean) == 1
      && Radicand(Some(1.0), 1, Some(1.0), 1) == Some(0.0)
      && OverallTest([a, b], 0.0).Computed? && OverallTest([a, b], 0.0).result.t.None?
      && LeaningTest([a, b], DemLean, 0.0).ZeroDivisionError?
  {
    var a := StateRow("A", 0, 0, 1, 0, 0, 0, 1, Share(1, 1), EarlyVoting);
    var b := StateRow("B", 0, 0, 1, 0, 0, 0, 1, Share(1, 1), NoEarlyVoting);
    var rows := [a, b];
    assert EarlyVoting != NoEarlyVoting by {
      assert |EarlyVoting| == 11 && |NoEarlyVoting| == 13;
    }
    assert a.pDem == Some(1.0) && b.pDem == Some(1.0);
    assert rows[1..] == [b] && [b][1..] == [] && [a][1..] == [];
    assert Select(rows, Label(EarlyVoting)) == [a];
    assert Select(rows, Label(NoEarlyVoting)) == [b];
    assert Select(rows, Leaning(EarlyVoting, DemLean)) == [a];
    assert Select(rows, Leaning(NoEarlyVoting, DemLean)) == [b];
    assert DefinedShares([a]) == [1.0] && DefinedShares([b]) == [1.0];
    assert Sum([1.0]) == 1.0 by {
      assert [1.0][1..] == [];
    }
    assert Radicand(Some(1.0), 1, Some(1.0), 1) == Some(0.0);
  }
}
