/** Survey records and their per-state aggregation: the group-by sums,
    the partisan total, the Democratic share and the per-state
    early-voting label (short_paper_code.py, lines 15-49). */
module Survey {
  import opened Wrappers

  /** One survey respondent, a row of the input table. The six counted
      columns are 0/1 indicators in the data; the model admits any
      non-negative count. */
  datatype VotingRecord = VotingRecord(
    state: string,
    voted: nat,
    registered: nat,
    democrat: nat,
    republican: nat,
    demSenate: nat,
    repSenate: nat,
    earlyVoting: string)

  /** The six columns that are summed per state. */
  datatype Column = Voted | Registered | Democrat | Republican | DemSenate | RepSenate

  function Get(r: VotingRecord, c: Column): nat
  {
    match c
    case Voted => r.voted
    case Registered => r.registered
    case Democrat => r.democrat
    case Republican => r.republican
    case DemSenate => r.demSenate
    case RepSenate => r.repSenate
  }

  /** One row of the per-state table after all columns are added. */
  datatype StateRow = StateRow(
    state: string,
    voted: nat,
    registered: nat,
    dem: nat,
    rep: nat,
    demSenate: nat,
    repSenate: nat,
    demOrRep: nat,
    pDem: Option<real>,
    earlyVoting: string)

  function RowValue(row: StateRow, c: Column): nat
  {
    match c
    case Voted => row.voted
    case Registered => row.registered
    case Democrat => row.dem
    case Republican => row.rep
    case DemSenate => row.demSenate
    case RepSenate => row.repSenate
  }

  // ---------------------------------------------------------------------
  // Distinct values in order of first appearance (pandas `unique()`)
  // ---------------------------------------------------------------------

  predicate NoDuplicates<T(==)>(xs: seq<T>)
  {
    forall i, j :: 0 <= i < j < |xs| ==> xs[i] != xs[j]
  }

  /** The distinct elements of `xs`, each once, in order of first appearance. */
  function Distinct<T(==,!new)>(xs: seq<T>): (r: seq<T>)
    ensures NoDuplicates(r)
    ensures forall x :: x in r <==> x in xs
    ensures |r| <= |xs|
  {
    if xs == [] then []
    else
      var d := Distinct(xs[..|xs| - 1]);
      var x := xs[|xs| - 1];
      assert forall y :: y in xs <==> y in xs[..|xs| - 1] || y == x by {
        assert xs == xs[..|xs| - 1] + [x];
      }
      if x in d then d else d + [x]
  }

  /** The order of first appearance: one more element is appended to the
      distinct elements exactly when it has not been seen before. */
  lemma DistinctSnoc<T(!new)>(xs: seq<T>, x: T)
    ensures Distinct(xs + [x]) == if x in Distinct(xs) then Distinct(xs) else Distinct(xs) + [x]
  {
    assert (xs + [x])[..|xs + [x]| - 1] == xs;
  }

  /** A non-empty sequence holding one value throughout has that value as
      its only distinct element. */
  lemma {:induction false} DistinctConstant<T(!new)>(xs: seq<T>, x: T)
    requires |xs| > 0
    requires forall i :: 0 <= i < |xs| ==> xs[i] == x
    ensures Distinct(xs) == [x]
  {
    if |xs| > 1 {
      DistinctConstant(xs[..|xs| - 1], x);
    }
  }

  // ---------------------------------------------------------------------
  // Group-by sums (lines 15-30)
  // ---------------------------------------------------------------------

  /** The `state` column of the records, in input order. */
  function Keys(recs: seq<VotingRecord>): (r: seq<string>)
    ensures |r| == |recs|
    ensures forall i :: 0 <= i < |recs| ==> r[i] == recs[i].state
  {
    if recs == [] then [] else Keys(recs[..|recs| - 1]) + [recs[|recs| - 1].state]
  }

  /** `voting_file.state.unique()`: the states in order of first appearance. */
  function States(recs: seq<VotingRecord>): (r: seq<string>)
    ensures NoDuplicates(r)
    ensures forall s :: s in r <==> s in Keys(recs)
  {
    Distinct(Keys(recs))
  }

  /** Sum of a column over every record. */
  function ColumnTotal(recs: seq<VotingRecord>, c: Column): nat
  {
    if recs == [] then 0
    else ColumnTotal(recs[..|recs| - 1], c) + Get(recs[|recs| - 1], c)
  }

  /** `voting_file.groupby('state')[c].sum()` at key `s`: a part of the
      column total. */
  function StateTotal(recs: seq<VotingRecord>, s: string, c: Column): (r: nat)
    ensures r <= ColumnTotal(recs, c)
  {
    if recs == [] then 0
    else
      StateTotal(recs[..|recs| - 1], s, c)
      + (if recs[|recs| - 1].state == s then Get(recs[|recs| - 1], c) else 0)
  }

  /** Sum of the per-state totals over a list of states. */
  function SumOverStates(recs: seq<VotingRecord>, ss: seq<string>, c: Column): nat
  {
    if ss == [] then 0 else StateTotal(recs, ss[0], c) + SumOverStates(recs, ss[1..], c)
  }

  /** A state that no record carries has total zero. */
  lemma {:induction false} StateTotalAbsent(recs: seq<VotingRecord>, s: string, c: Column)
    requires s !in Keys(recs)
    ensures StateTotal(recs, s, c) == 0
  {
    if recs != [] {
      var p := recs[..|recs| - 1];
      assert Keys(recs) == Keys(p) + [recs[|recs| - 1].state];
      StateTotalAbsent(p, s, c);
    }
  }

  /** Appending one record adds its value to exactly the state it belongs to. */
  lemma {:induction false} SumOverStatesSnoc(p: seq<VotingRecord>, x: VotingRecord, ss: seq<string>, c: Column)
    requires NoDuplicates(ss)
    ensures SumOverStates(p + [x], ss, c)
         == SumOverStates(p, ss, c) + (if x.state in ss then Get(x, c) else 0)
  {
    if ss != [] {
      assert (p + [x])[..|p + [x]| - 1] == p;
      assert x.state in ss[1..] ==> x.state != ss[0];
      assert x.state in ss <==> x.state == ss[0] || x.state in ss[1..];
      SumOverStatesSnoc(p, x, ss[1..], c);
    }
  }

  lemma {:induction false} SumOverStatesAppend(recs: seq<VotingRecord>, ss: seq<string>, s: string, c: Column)
    ensures SumOverStates(recs, ss + [s], c) == SumOverStates(recs, ss, c) + StateTotal(recs, s, c)
  {
    if ss != [] {
      assert (ss + [s])[1..] == ss[1..] + [s];
      SumOverStatesAppend(recs, ss[1..], s, c);
    }
  }

  /** Grouping preserves mass: the per-state totals over the distinct
      states add up to the column total over all records. */
  lemma {:induction false} GroupingPreservesMass(recs: seq<VotingRecord>, c: Column)
    ensures SumOverStates(recs, States(recs), c) == ColumnTotal(recs, c)
  {
    if recs != [] {
      var p := recs[..|recs| - 1];
      var x := recs[|recs| - 1];
      assert recs == p + [x];
      assert Keys(recs) == Keys(p) + [x.state];
      assert Keys(recs)[..|Keys(recs)| - 1] == Keys(p);
      var k := States(p);
      GroupingPreservesMass(p, c);
      SumOverStatesSnoc(p, x, k, c);
      if x.state !in k {
        assert States(recs) == k + [x.state];
        SumOverStatesAppend(recs, k, x.state, c);
        StateTotalAbsent(p, x.state, c);
        assert StateTotal(recs, x.state, c) == StateTotal(p, x.state, c) + Get(x, c);
      }
    }
  }

  // ---------------------------------------------------------------------
  // Partisan total and Democratic share (lines 39, 42)
  // ---------------------------------------------------------------------

  /** `dem / dem_or_rep`: undefined (NaN) when the partisan total is zero,
      a fraction in [0, 1] otherwise. */
  function Share(dem: nat, total: nat): (r: Option<real>)
    ensures r.None? <==> total == 0
    ensures r.Some? && dem <= total ==> 0.0 <= r.value <= 1.0
    ensures r.Some? ==> r.value * total as real == dem as real
  {
    if total == 0 then None else Some(dem as real / total as real)
  }

  lemma MulStrict(a: real, b: real, t: real)
    requires t > 0.0
    ensures a < b <==> a * t < b * t
  {
  }

  /** A quotient against 0.5 compares the numerator with half the divisor. */
  lemma HalfThreshold(d: real, tr: real)
    requires tr > 0.0
    ensures d / tr < 0.5 <==> d < 0.5 * tr
    ensures d / tr > 0.5 <==> d > 0.5 * tr
  {
    assert (d / tr) * tr == d;
    MulStrict(d / tr, 0.5, tr);
    MulStrict(0.5, d / tr, tr);
  }

  /** The 0.5 threshold on the share is the comparison of the two counts:
      `p_dem > 0.5` exactly when dem > rep, `p_dem < 0.5` exactly when
      dem < rep, and the share is undefined only when both are zero. */
  lemma ShareThreshold(dem: nat, rep: nat)
    ensures Share(dem, dem + rep).None? <==> dem == 0 && rep == 0
    ensures (Share(dem, dem + rep).Some? && Share(dem, dem + rep).value > 0.5) <==> dem > rep
    ensures (Share(dem, dem + rep).Some? && Share(dem, dem + rep).value < 0.5) <==> dem < rep
  {
    var t := dem + rep;
    if t > 0 {
      var p := Share(dem, t).value;
      var d, r, tr := dem as real, rep as real, t as real;
      assert tr == d + r;
      assert p == d / tr;
      HalfThreshold(d, tr);
      assert d < 0.5 * tr <==> d < r;
      assert 0.5 * tr < d <==> r < d;
      assert dem < rep <==> d < r;
      assert rep < dem <==> r < d;
      assert Share(dem, dem + rep).value == p;
    }
  }

  // ---------------------------------------------------------------------
  // Early-voting label of a state (line 47)
  // ---------------------------------------------------------------------

  const EarlyVoting: string := "EarlyVoting"
  const NoEarlyVoting: string := "NoEarlyVoting"

  /** The `earlyVoting` values of the records of state `s`, in input order. */
  function LabelsOf(recs: seq<VotingRecord>, s: string): (r: seq<string>)
    ensures forall l :: l in r <==> exists i :: 0 <= i < |recs| && recs[i].state == s && recs[i].earlyVoting == l
  {
    if recs == [] then []
    else
      var p := recs[..|recs| - 1];
      var x := recs[|recs| - 1];
      var lp := LabelsOf(p, s);
      assert forall i :: 0 <= i < |p| ==> p[i] == recs[i];
      var r := if x.state == s then lp + [x.earlyVoting] else lp;
      assert forall l :: (exists i :: 0 <= i < |recs| && recs[i].state == s && recs[i].earlyVoting == l) ==> l in r by {
        forall l | exists i :: 0 <= i < |recs| && recs[i].state == s && recs[i].earlyVoting == l
          ensures l in r
        {
          var i :| 0 <= i < |recs| && recs[i].state == s && recs[i].earlyVoting == l;
          if i < |p| { assert p[i] == recs[i]; }
        }
      }
      r
  }

  /** `unique()` of the state's labels. */
  function UniqueLabels(recs: seq<VotingRecord>, s: string): seq<string>
  {
    Distinct(LabelsOf(recs, s))
  }

  /** The text numpy prints for an array of strings: each label quoted,
      separated by single spaces, inside brackets. */
  function Items(labels: seq<string>): string
  {
    if labels == [] then ""
    else if |labels| == 1 then "'" + labels[0] + "'"
    else "'" + labels[0] + "' " + Items(labels[1..])
  }

  function ArrayText(labels: seq<string>): string
  {
    "[" + Items(labels) + "]"
  }

  /** Python's `s[2:-2]`. */
  function DropTwoEachEnd(s: string): (r: string)
    ensures |s| >= 4 ==> |r| == |s| - 4 && forall i :: 0 <= i < |r| ==> r[i] == s[i + 2]
    ensures |s| < 4 ==> r == ""
  {
    if |s| >= 4 then s[2..|s| - 2] else ""
  }

  /** `str(labels.unique())[2:-2]`, the label stored for state `s`: the
      label itself when the state's records agree on one, a text holding
      a quote character when they carry two or more. */
  function StateLabel(recs: seq<VotingRecord>, s: string): (r: string)
    ensures |UniqueLabels(recs, s)| == 1 ==> r == UniqueLabels(recs, s)[0]
    ensures |UniqueLabels(recs, s)| >= 2 ==> '\'' in r
  {
    var u := UniqueLabels(recs, s);
    if |u| == 1 then
      assert u == [u[0]];
      SingleLabelText(u[0]);
      DropTwoEachEnd(ArrayText(u))
    else if |u| >= 2 then
      MultiLabelText(u);
      DropTwoEachEnd(ArrayText(u))
    else
      DropTwoEachEnd(ArrayText(u))
  }

  /** A single distinct label is stored unchanged. */
  lemma SingleLabelText(l: string)
    ensures DropTwoEachEnd(ArrayText([l])) == l
  {
    var t := ArrayText([l]);
    assert t == ['[', '\''] + l + ['\'', ']'];
    assert DropTwoEachEnd(t) == t[2..|t| - 2];
    assert t[2..|t| - 2] == l;
  }

  /** Two or more distinct labels give a text holding a quote character. */
  lemma MultiLabelText(labels: seq<string>)
    requires |labels| >= 2
    ensures '\'' in DropTwoEachEnd(ArrayText(labels))
  {
    var rest := Items(labels[1..]);
    assert |rest| >= 2;
    var items := "'" + labels[0] + "' " + rest;
    assert Items(labels) == items;
    var t := ArrayText(labels);
    assert t == "[" + items + "]";
    var k := 2 + |labels[0]|;
    assert t[k] == '\'';
    var r := DropTwoEachEnd(t);
    assert r[k - 2] == t[k];
  }

  /** The two recognised policy labels hold no quote character. */
  lemma PolicyLabelsUnquoted()
    ensures '\'' !in EarlyVoting && '\'' !in NoEarlyVoting
  {
    assert EarlyVoting == ['E', 'a', 'r', 'l', 'y', 'V', 'o', 't', 'i', 'n', 'g'];
    assert NoEarlyVoting == ['N', 'o', 'E', 'a', 'r', 'l', 'y', 'V', 'o', 't', 'i', 'n', 'g'];
  }

  /** A state whose records all carry one label gets exactly that label. */
  lemma ConsistentStateLabel(recs: seq<VotingRecord>, s: string, l: string)
    requires exists i :: 0 <= i < |recs| && recs[i].state == s
    requires forall i :: 0 <= i < |recs| && recs[i].state == s ==> recs[i].earlyVoting == l
    ensures StateLabel(recs, s) == l
  {
    var ls := LabelsOf(recs, s);
    var i :| 0 <= i < |recs| && recs[i].state == s;
    assert l in ls;
    assert forall k :: 0 <= k < |ls| ==> ls[k] == l by {
      forall k | 0 <= k < |ls| ensures ls[k] == l {
        assert ls[k] in ls;
      }
    }
    DistinctConstant(ls, l);
    SingleLabelText(l);
  }

  /** A state whose records disagree on the label gets a text that is
      neither recognised policy label, so it joins no policy group. */
  lemma InconsistentStateLabel(recs: seq<VotingRecord>, s: string, i: nat, j: nat)
    requires i < |recs| && j < |recs|
    requires recs[i].state == s && recs[j].state == s
    requires recs[i].earlyVoting != recs[j].earlyVoting
    ensures StateLabel(recs, s) != EarlyVoting
    ensures StateLabel(recs, s) != NoEarlyVoting
  {
    var u := UniqueLabels(recs, s);
    var a, b := recs[i].earlyVoting, recs[j].earlyVoting;
    assert a in LabelsOf(recs, s) && b in LabelsOf(recs, s);
    assert a in u && b in u;
    assert |u| >= 2;
    MultiLabelText(u);
    PolicyLabelsUnquoted();
  }

  // ---------------------------------------------------------------------
  // The per-state table (lines 33-49)
  // ---------------------------------------------------------------------

  /** The complete row of state `s`: its six sums, `dem_or_rep`, `p_dem`
      and its label. */
  function Summarize(recs: seq<VotingRecord>, s: string): (r: StateRow)
    ensures r.state == s && WellFormedRow(r)
    ensures r.pDem.Some? ==> 0.0 <= r.pDem.value <= 1.0
  {
    var dem := StateTotal(recs, s, Democrat);
    var rep := StateTotal(recs, s, Republican);
    StateRow(s,
      StateTotal(recs, s, Voted), StateTotal(recs, s, Registered),
      dem, rep,
      StateTotal(recs, s, DemSenate), StateTotal(recs, s, RepSenate),
      dem + rep, Share(dem, dem + rep), StateLabel(recs, s))
  }

  /** `state_df`: one row per distinct state, in order of first appearance. */
  function StateTable(recs: seq<VotingRecord>): (r: seq<StateRow>)
    ensures |r| == |States(recs)|
    ensures forall i :: 0 <= i < |r| ==> r[i].state == States(recs)[i] && WellFormedRow(r[i])
  {
    var ss := States(recs);
    seq(|ss|, i requires 0 <= i < |ss| => Summarize(recs, ss[i]))
  }

  /** A row whose derived columns agree with its counts. */
  predicate WellFormedRow(row: StateRow)
  {
    row.demOrRep == row.dem + row.rep && row.pDem == Share(row.dem, row.demOrRep)
  }

  /** Sum of a column of the per-state table. */
  function SumColumn(rows: seq<StateRow>, c: Column): nat
  {
    if rows == [] then 0 else RowValue(rows[0], c) + SumColumn(rows[1..], c)
  }

  lemma {:induction false} SumColumnOfSummaries(recs: seq<VotingRecord>, ss: seq<string>, c: Column)
    ensures SumColumn(seq(|ss|, i requires 0 <= i < |ss| => Summarize(recs, ss[i])), c)
         == SumOverStates(recs, ss, c)
  {
    var rows := seq(|ss|, i requires 0 <= i < |ss| => Summarize(recs, ss[i]));
    if ss != [] {
      var tail := seq(|ss[1..]|, i requires 0 <= i < |ss[1..]| => Summarize(recs, ss[1..][i]));
      assert rows[1..] == tail;
      SumColumnOfSummaries(recs, ss[1..], c);
      assert RowValue(rows[0], c) == StateTotal(recs, ss[0], c) by {
        match c
        case Voted => case Registered => case Democrat =>
        case Republican => case DemSenate => case RepSenate =>
      }
    }
  }

  /** The `state` column of a table. */
  function StatesOf(rows: seq<StateRow>): (r: seq<string>)
    ensures |r| == |rows|
    ensures forall k :: 0 <= k < |rows| ==> r[k] == rows[k].state
  {
    seq(|rows|, k requires 0 <= k < |rows| => rows[k].state)
  }

  /** The per-state table has each state of the records exactly once. */
  lemma StateTableKeys(recs: seq<VotingRecord>)
    ensures NoDuplicates(StatesOf(StateTable(recs)))
    ensures forall s :: s in StatesOf(StateTable(recs)) <==> s in Keys(recs)
  {
    assert StatesOf(StateTable(recs)) == States(recs);
  }

  /** Every row of the table carries `dem_or_rep = dem + rep` and the
      share of that total. */
  lemma StateTableWellFormed(recs: seq<VotingRecord>)
    ensures forall k :: 0 <= k < |StateTable(recs)| ==> WellFormedRow(StateTable(recs)[k])
  {
  }

  /** Each of the six columns of the table sums to the column total over
      all records. */
  lemma StateTablePreservesMass(recs: seq<VotingRecord>, c: Column)
    ensures SumColumn(StateTable(recs), c) == ColumnTotal(recs, c)
  {
    SumColumnOfSummaries(recs, States(recs), c);
    GroupingPreservesMass(recs, c);
  }
}
