/** Classification of the per-state table: the policy filter, the split
    into the EarlyVoting and NoEarlyVoting groups with their sizes, the
    dem- and rep-leaning subgroups selected row by row, and the group and
    subgroup means (short_paper_code.py, lines 53-63, 73-90, 110-169). */
module Classify {
  import opened Wrappers
  import opened Survey
  import opened Stats

  /** Which side of 0.5 a subgroup keeps. */
  datatype Lean = DemLean | RepLean

  /** A share that is defined and on the given side of 0.5. A NaN share
      compares false both ways, so it leans neither way. */
  predicate Leans(p: Option<real>, lean: Lean)
  {
    p.Some? && (if lean == DemLean then p.value > 0.5 else p.value < 0.5)
  }

  /** The row conditions the script filters on. */
  datatype Selector =
    | Policy                       // label is EarlyVoting or NoEarlyVoting (line 53)
    | Label(policy: string)         // label matches exactly (lines 60, 63, 73-90)
    | Leaning(policy: string, lean: Lean)  // label matches and the share leans (lines 110-169)

  predicate Selects(sel: Selector, row: StateRow)
  {
    match sel
    case Policy => row.earlyVoting == EarlyVoting || row.earlyVoting == NoEarlyVoting
    case Label(l) => row.earlyVoting == l
    case Leaning(l, lean) => row.earlyVoting == l && Leans(row.pDem, lean)
  }

  /** Boolean-mask indexing: the rows the selector keeps, in table order. */
  function Select(rows: seq<StateRow>, sel: Selector): (r: seq<StateRow>)
    ensures |r| <= |rows|
    ensures forall row :: row in r <==> row in rows && Selects(sel, row)
  {
    if rows == [] then []
    else if Selects(sel, rows[0]) then [rows[0]] + Select(rows[1..], sel)
    else Select(rows[1..], sel)
  }

  /** Selection works row by row: selecting from a concatenation is
      concatenating the selections. With `SelectOne` this fixes the order
      and the multiplicity of the kept rows. */
  lemma {:induction false} SelectAppend(xs: seq<StateRow>, ys: seq<StateRow>, sel: Selector)
    ensures Select(xs + ys, sel) == Select(xs, sel) + Select(ys, sel)
  {
    if xs == [] {
      assert xs + ys == ys;
    } else {
      var zs := xs + ys;
      assert zs[0] == xs[0] && zs[1..] == xs[1..] + ys;
      SelectAppend(xs[1..], ys, sel);
      if Selects(sel, xs[0]) {
        assert Select(zs, sel) == [xs[0]] + Select(xs[1..] + ys, sel);
        assert Select(xs, sel) == [xs[0]] + Select(xs[1..], sel);
      } else {
        assert Select(zs, sel) == Select(xs[1..] + ys, sel);
        assert Select(xs, sel) == Select(xs[1..], sel);
      }
    }
  }

  /** A single row is kept exactly when it meets the condition. */
  lemma SelectOne(row: StateRow, sel: Selector)
    ensures Select([row], sel) == if Selects(sel, row) then [row] else []
  {
    assert [row][1..] == [];
  }

  // ---------------------------------------------------------------------
  // Policy groups (lines 53-63, 73-76)
  // ---------------------------------------------------------------------

  /** `table_1` (lines 53-57): the rows with one of the two recognised labels. */
  function Specific(rows: seq<StateRow>): (r: seq<StateRow>)
    ensures |r| <= |rows|
    ensures forall row :: row in r <==>
              row in rows && (row.earlyVoting == EarlyVoting || row.earlyVoting == NoEarlyVoting)
  {
    Select(rows, Policy)
  }

  /** `table_1_true_early` / `table_1_no_early` (lines 60, 63): a policy
      group taken from `table_1`. */
  function PolicyTable(rows: seq<StateRow>, policy: string): (r: seq<StateRow>)
    ensures policy == EarlyVoting || policy == NoEarlyVoting ==> r == Select(rows, Label(policy))
  {
    if policy == EarlyVoting || policy == NoEarlyVoting then
      SelectNarrow(rows, Policy, Label(policy));
      Select(Specific(rows), Label(policy))
    else
      Select(Specific(rows), Label(policy))
  }

  /** `(state_df['earlyVoting'] == label).sum()` (lines 73, 76): the
      size of the group the label selects. */
  function CountLabel(rows: seq<StateRow>, policy: string): (r: nat)
    ensures r == |Select(rows, Label(policy))|
  {
    if rows == [] then 0
    else (if rows[0].earlyVoting == policy then 1 else 0) + CountLabel(rows[1..], policy)
  }

  /** Selecting by a condition that implies the first one, from what the
      first one kept, is selecting by the stronger condition directly. */
  lemma {:induction false} SelectNarrow(rows: seq<StateRow>, outer: Selector, inner: Selector)
    requires forall row :: Selects(inner, row) ==> Selects(outer, row)
    ensures Select(Select(rows, outer), inner) == Select(rows, inner)
  {
    if rows != [] {
      SelectNarrow(rows[1..], outer, inner);
    }
  }

  /** One step of `Select`: the first row is kept exactly when selected. */
  lemma SelectStep(rows: seq<StateRow>, sel: Selector)
    requires rows != []
    ensures multiset(Select(rows, sel))
         == multiset(Select(rows[1..], sel)) + (if Selects(sel, rows[0]) then multiset{rows[0]} else multiset{})
  {
    if Selects(sel, rows[0]) {
      assert Select(rows, sel) == [rows[0]] + Select(rows[1..], sel);
    }
  }

  /** Two selectors that never agree, each implying a third, select
      together at most what the third selects. */
  lemma {:induction false} SelectDisjointWithin(rows: seq<StateRow>, a: Selector, b: Selector, whole: Selector)
    requires forall row :: !(Selects(a, row) && Selects(b, row))
    requires forall row :: Selects(a, row) || Selects(b, row) ==> Selects(whole, row)
    ensures multiset(Select(rows, a)) + multiset(Select(rows, b)) <= multiset(Select(rows, whole))
  {
    if rows != [] {
      SelectDisjointWithin(rows[1..], a, b, whole);
      SelectStep(rows, a);
      SelectStep(rows, b);
      SelectStep(rows, whole);
    }
  }

  /** Two selectors that never agree and between them select exactly what
      a third selects split its rows: the multisets add up. */
  lemma {:induction false} SelectPartition(rows: seq<StateRow>, a: Selector, b: Selector, whole: Selector)
    requires forall row :: !(Selects(a, row) && Selects(b, row))
    requires forall row :: Selects(whole, row) <==> Selects(a, row) || Selects(b, row)
    ensures multiset(Select(rows, a)) + multiset(Select(rows, b)) == multiset(Select(rows, whole))
  {
    if rows != [] {
      SelectPartition(rows[1..], a, b, whole);
      SelectStep(rows, a);
      SelectStep(rows, b);
      SelectStep(rows, whole);
    }
  }

  /** The EarlyVoting and NoEarlyVoting tables are disjoint, together they
      are exactly `table_1`, they agree with filtering the whole table by
      label, and `n_true_early`, `n_no_early` are their sizes. */
  lemma PolicyPartition(rows: seq<StateRow>)
    ensures forall row :: !(row in PolicyTable(rows, EarlyVoting) && row in PolicyTable(rows, NoEarlyVoting))
    ensures multiset(PolicyTable(rows, EarlyVoting)) + multiset(PolicyTable(rows, NoEarlyVoting))
         == multiset(Specific(rows))
    ensures PolicyTable(rows, EarlyVoting) == Select(rows, Label(EarlyVoting))
    ensures PolicyTable(rows, NoEarlyVoting) == Select(rows, Label(NoEarlyVoting))
    ensures CountLabel(rows, EarlyVoting) == |PolicyTable(rows, EarlyVoting)|
    ensures CountLabel(rows, NoEarlyVoting) == |PolicyTable(rows, NoEarlyVoting)|
    ensures CountLabel(rows, EarlyVoting) + CountLabel(rows, NoEarlyVoting) == |Specific(rows)|
  {
    assert EarlyVoting != NoEarlyVoting by {
      assert |EarlyVoting| == 11 && |NoEarlyVoting| == 13;
    }
    var sp := Specific(rows);
    SelectPartition(sp, Label(EarlyVoting), Label(NoEarlyVoting), Policy);
    SelectNarrow(sp, Policy, Policy);
    SelectNarrow(rows, Policy, Label(EarlyVoting));
    SelectNarrow(rows, Policy, Label(NoEarlyVoting));
    SelectNarrow(rows, Policy, Policy);
    var e := PolicyTable(rows, EarlyVoting);
    var n := PolicyTable(rows, NoEarlyVoting);
    assert |multiset(e) + multiset(n)| == |multiset(sp)|;
  }

  /** A row is in the EarlyVoting group, the NoEarlyVoting group, or
      neither, and in neither exactly when its label is not recognised. */
  lemma RowPlacement(rows: seq<StateRow>, row: StateRow)
    requires row in rows
    ensures row in Specific(rows) <==> row in PolicyTable(rows, EarlyVoting) || row in PolicyTable(rows, NoEarlyVoting)
    ensures row !in Specific(rows) <==> row.earlyVoting != EarlyVoting && row.earlyVoting != NoEarlyVoting
  {
  }

  // ---------------------------------------------------------------------
  // Group means (lines 79, 86)
  // ---------------------------------------------------------------------

  /** The defined shares of the rows, in order: pandas drops NaN before
      taking a mean. */
  function DefinedShares(rows: seq<StateRow>): (r: seq<real>)
    ensures |r| <= |rows|
  {
    if rows == [] then []
    else if rows[0].pDem.Some? then [rows[0].pDem.value] + DefinedShares(rows[1..])
    else DefinedShares(rows[1..])
  }

  /** `state_df.loc[state_df['earlyVoting'] == label, 'p_dem'].mean()`:
      NaN exactly when no state with the label has a defined share. */
  function GroupMean(rows: seq<StateRow>, policy: string): (r: Option<real>)
    ensures r.None? <==> forall row :: row in rows && row.earlyVoting == policy ==> row.pDem.None?
  {
    DefinedSharesEmpty(Select(rows, Label(policy)));
    Mean(DefinedShares(Select(rows, Label(policy))))
  }

  /** Every row has a share that is undefined or in [0, 1]. */
  predicate SharesInUnitRange(rows: seq<StateRow>)
  {
    forall i :: 0 <= i < |rows| ==> rows[i].pDem.Some? ==> 0.0 <= rows[i].pDem.value <= 1.0
  }

  lemma {:induction false} DefinedSharesWithin(rows: seq<StateRow>)
    requires SharesInUnitRange(rows)
    ensures Within(DefinedShares(rows), 0.0, 1.0)
  {
    if rows != [] {
      assert SharesInUnitRange(rows[1..]) by {
        assert forall i :: 0 <= i < |rows[1..]| ==> rows[1..][i] == rows[i + 1];
      }
      DefinedSharesWithin(rows[1..]);
    }
  }

  lemma SelectKeepsShareRange(rows: seq<StateRow>, sel: Selector)
    requires SharesInUnitRange(rows)
    ensures SharesInUnitRange(Select(rows, sel))
  {
    var s := Select(rows, sel);
    forall i | 0 <= i < |s| && s[i].pDem.Some? ensures 0.0 <= s[i].pDem.value <= 1.0 {
      assert s[i] in rows;
    }
  }

  /** The mean of a group counts only states with a defined share, while
      the group size counts every state with the label; the mean is
      undefined exactly when no state of the group has a defined share,
      and lies in [0, 1] otherwise. */
  lemma GroupMeanProperties(rows: seq<StateRow>, policy: string)
    requires SharesInUnitRange(rows)
    ensures |DefinedShares(Select(rows, Label(policy)))| <= CountLabel(rows, policy)
    ensures GroupMean(rows, policy).None? <==>
            forall row :: row in rows && row.earlyVoting == policy ==> row.pDem.None?
    ensures GroupMean(rows, policy).Some? ==> 0.0 <= GroupMean(rows, policy).value <= 1.0
  {
    var g := Select(rows, Label(policy));
    DefinedSharesEmpty(g);
    SelectKeepsShareRange(rows, Label(policy));
    DefinedSharesWithin(g);
    if DefinedShares(g) != [] {
      MeanWithin(DefinedShares(g), 0.0, 1.0);
    }
  }

  lemma {:induction false} DefinedSharesEmpty(rows: seq<StateRow>)
    ensures DefinedShares(rows) == [] <==> forall row :: row in rows ==> row.pDem.None?
  {
    if rows != [] {
      DefinedSharesEmpty(rows[1..]);
      assert forall row :: row in rows <==> row == rows[0] || row in rows[1..];
    }
  }

  // ---------------------------------------------------------------------
  // Leaning subgroups (lines 110-169)
  // ---------------------------------------------------------------------

  /** The boolean apply of lines 110, 114, 152, 156. */
  function MaskApply(rows: seq<StateRow>, policy: string, lean: Lean): (r: seq<bool>)
    ensures |r| == |rows|
    ensures forall i :: 0 <= i < |rows| ==>
              (r[i] <==> rows[i].earlyVoting == policy && rows[i].pDem.Some?
                         && (if lean == DemLean then rows[i].pDem.value > 0.5 else rows[i].pDem.value < 0.5))
  {
    seq(|rows|, i requires 0 <= i < |rows| => Selects(Leaning(policy, lean), rows[i]))
  }

  /** `len(mask[mask == True].index)`. */
  function CountTrue(mask: seq<bool>): (r: nat)
    ensures r <= |mask|
    ensures r == 0 <==> true !in mask
  {
    if mask == [] then 0 else (if mask[0] then 1 else 0) + CountTrue(mask[1..])
  }

  /** The value apply of lines 118, 126, 160, 168: the share where the row
      is selected and `False`, which sums as 0, everywhere else. */
  function ValueApply(rows: seq<StateRow>, policy: string, lean: Lean): (r: seq<real>)
    ensures |r| == |rows|
    ensures SharesInUnitRange(rows) ==> Within(r, 0.0, 1.0)
  {
    seq(|rows|, i requires 0 <= i < |rows| =>
      if Selects(Leaning(policy, lean), rows[i]) then rows[i].pDem.value else 0.0)
  }

  /** Number of states in a subgroup (`n_true_early_dem` and the others):
      the number of True entries of the mask is the size of the subgroup. */
  function SubgroupCount(rows: seq<StateRow>, policy: string, lean: Lean): (r: nat)
    ensures r == |Select(rows, Leaning(policy, lean))|
  {
    MaskedSums(rows, policy, lean);
    CountTrue(MaskApply(rows, policy, lean))
  }

  /** `value_apply.sum() / count`, with NaN from 0/0 for an empty
      subgroup: the masked-sum trick is the true arithmetic mean of the
      subgroup's shares. */
  function SubgroupMean(rows: seq<StateRow>, policy: string, lean: Lean): (r: Option<real>)
    ensures r.None? <==> SubgroupCount(rows, policy, lean) == 0
    ensures r == Mean(DefinedShares(Select(rows, Leaning(policy, lean))))
  {
    var n := SubgroupCount(rows, policy, lean);
    MaskedSums(rows, policy, lean);
    AllDefined(Select(rows, Leaning(policy, lean)));
    if n == 0 then None else Some(Sum(ValueApply(rows, policy, lean)) / n as real)
  }

  lemma {:induction false} MaskedSums(rows: seq<StateRow>, policy: string, lean: Lean)
    ensures CountTrue(MaskApply(rows, policy, lean)) == |Select(rows, Leaning(policy, lean))|
    ensures Sum(ValueApply(rows, policy, lean)) == Sum(DefinedShares(Select(rows, Leaning(policy, lean))))
  {
    if rows != [] {
      assert MaskApply(rows, policy, lean)[1..] == MaskApply(rows[1..], policy, lean);
      assert ValueApply(rows, policy, lean)[1..] == ValueApply(rows[1..], policy, lean);
      MaskedSums(rows[1..], policy, lean);
    }
  }

  /** Rows whose shares are all defined contribute one share each. */
  lemma {:induction false} AllDefined(rows: seq<StateRow>)
    requires forall row :: row in rows ==> row.pDem.Some?
    ensures |DefinedShares(rows)| == |rows|
  {
    if rows != [] {
      AllDefined(rows[1..]);
    }
  }

  /** Within a policy group the dem and rep subgroups are disjoint, a state
      is left out of both exactly when its share is undefined or exactly
      0.5, and so the two subgroup sizes add up to at most the group size. */
  lemma SubgroupSplit(rows: seq<StateRow>, policy: string)
    ensures forall row :: !(row in Select(rows, Leaning(policy, DemLean)) && row in Select(rows, Leaning(policy, RepLean)))
    ensures forall row :: row in Select(rows, Label(policy)) ==>
              (row !in Select(rows, Leaning(policy, DemLean)) && row !in Select(rows, Leaning(policy, RepLean))
               <==> row.pDem.None? || row.pDem.value == 0.5)
    ensures SubgroupCount(rows, policy, DemLean) + SubgroupCount(rows, policy, RepLean) <= CountLabel(rows, policy)
  {
    SelectDisjointWithin(rows, Leaning(policy, DemLean), Leaning(policy, RepLean), Label(policy));
    var d := Select(rows, Leaning(policy, DemLean));
    var r := Select(rows, Leaning(policy, RepLean));
    var g := Select(rows, Label(policy));
    assert |multiset(d) + multiset(r)| <= |multiset(g)| by {
      assert multiset(g) == (multiset(d) + multiset(r)) + (multiset(g) - (multiset(d) + multiset(r)));
    }
  }

  /** For a well-formed row the subgroups are the comparison of the
      counts: dem-leaning exactly when dem > rep, rep-leaning exactly when
      dem < rep. */
  lemma LeaningIsCountComparison(row: StateRow, policy: string)
    requires WellFormedRow(row)
    ensures Selects(Leaning(policy, DemLean), row) <==> row.earlyVoting == policy && row.dem > row.rep
    ensures Selects(Leaning(policy, RepLean), row) <==> row.earlyVoting == policy && row.dem < row.rep
  {
    ShareThreshold(row.dem, row.rep);
  }

  /** A non-empty dem subgroup has mean above 0.5, a non-empty rep
      subgroup has mean below 0.5. */
  lemma SubgroupMeanSide(rows: seq<StateRow>, policy: string, lean: Lean)
    requires SubgroupCount(rows, policy, lean) > 0
    ensures lean == DemLean ==> SubgroupMean(rows, policy, lean).value > 0.5
    ensures lean == RepLean ==> SubgroupMean(rows, policy, lean).value < 0.5
  {
    var s := Select(rows, Leaning(policy, lean));
    var xs := DefinedShares(s);
    LeaningShares(s, policy, lean);
    MeanAboveBelow(xs, 0.5);
  }

  lemma {:induction false} LeaningShares(rows: seq<StateRow>, policy: string, lean: Lean)
    requires forall row :: row in rows ==> Selects(Leaning(policy, lean), row)
    ensures lean == DemLean ==> Above(DefinedShares(rows), 0.5)
    ensures lean == RepLean ==> Below(DefinedShares(rows), 0.5)
    ensures |DefinedShares(rows)| == |rows|
  {
    if rows != [] {
      assert rows[0] in rows;
      assert forall row :: row in rows[1..] ==> row in rows;
      LeaningShares(rows[1..], policy, lean);
      assert DefinedShares(rows) == [rows[0].pDem.value] + DefinedShares(rows[1..]);
    }
  }
}
