# Early-voting survey analysis, modelled in Dafny

This project models the analysis script `short_paper_code.py`. The script reads survey records of voters. Each record carries a state, six 0/1 columns (voted, registered, voted Democrat or Republican for President, and the same for the Senate) and the state's early-voting policy label. The script then does four things:

1. It sums the six columns per state into a per-state table, `state_df`. It adds `dem_or_rep = dem + rep` and the Democratic share `p_dem = dem / dem_or_rep` as columns. It also adds each state's policy label, built from the distinct labels of that state's records.
2. It splits the states into an `EarlyVoting` group and a `NoEarlyVoting` group by exact label match. All other labels are dropped.
3. It splits each group into dem-leaning states (`p_dem > 0.5`) and rep-leaning states (`p_dem < 0.5`).
4. It runs three two-sample comparisons: over all states, over the dem-leaning states and over the rep-leaning states. Each comparison reports the difference of the mean shares, a proportion-style standard error `sqrt(mA(1-mA)/nA + mB(1-mB)/nB)`, the t ratio and the interval `difference ± 1.96·SE`.

Counts are `nat` and shares are exact `real` ratios, so the model has no rounding. An undefined share (NaN in pandas, when `dem_or_rep == 0`) is `None` in an `Option<real>`. An undefined mean is also `None`: this covers the mean of an empty or all-NaN selection and the 0/0 of an empty subgroup.

Modules:
- `Wrappers` (`wrappers.dfy`): `Option`.
- `Survey` (`survey.dfy`): records, the group-by sums, the share and the per-state label text. This part is pure, so it is written as functions and lemmas.
- `Frame` (`state_frame.dfy`): `state_df` as a class whose columns are `seq` fields. The script changes this table in place with `reset_index(inplace=True)` and three column assignments. Each of these steps is a method with a loop, and `BuildStateFrame` runs them in the script's order. Its postcondition says the result is the pure per-state table, row for row.
- `Classify` (`classify.dfy`): the boolean-mask selections, the policy groups and their counts, the group means, and the mask/value `apply` series with the subgroup means.
- `Stats` (`stats.dfy`): sums, means, the radicand, the two-sample test and the interval.
- `Analysis` (`analysis.dfy`): the three comparisons as the script wires them, and a two-state scenario.

Behaviour of the code worth knowing:
- A state whose records carry different labels does not raise. Line 47 stores the text of the numpy array of distinct labels with its first two and last two characters removed. For two or more labels this text contains a quote character, so it equals neither recognised label and the state joins no group (`InconsistentStateLabel`).
- The overall test computes with numpy scalars, so a zero standard error gives an infinite or NaN t. The leaning tests compute with Python floats: the apply series mixes floats with `False`, so its `sum()` is a Python float and the counts come from `len`. There a zero standard error makes the t ratio (lines 141, 183) raise `ZeroDivisionError`. This happens when both dem-leaning means are 1.0, or both rep-leaning means are 0.0 (`LeaningTestOutcome`, `UnanimousScenario`).
- The group sizes `n_true_early` and `n_no_early` (lines 73, 76) count every labelled state, including states with an undefined share. The group means (lines 79, 86) skip those states. The model keeps the two apart (`GroupMeanProperties`).

## Model

| member | source | states |
|---|---|---|
| `Survey.Distinct` | short_paper_code.py:33 | `unique()`: the result has no duplicates and holds exactly the elements of the input, so each state appears once |
| `Survey.DistinctSnoc` | short_paper_code.py:33 | `unique()` keeps the order of first appearance: a further element is appended exactly when it has not been seen before |
| `Survey.States` | short_paper_code.py:33 | the `state` column of the new table: each state of the records exactly once |
| `Survey.StateTotal` | short_paper_code.py:15-30 | the group-by sum of one column at one state never exceeds that column's total over all records |
| `Survey.GroupingPreservesMass` | short_paper_code.py:15-30 | for each summed column, the per-state group-by totals over the distinct states add up to the column total over all records |
| `Survey.StateTablePreservesMass` | short_paper_code.py:15-36 | each of the six columns of the finished per-state table sums to that column's total over all records |
| `Survey.Summarize` | short_paper_code.py:33-49 | the row of a state carries that state, `dem_or_rep = dem + rep`, `p_dem` as the share of that total, and a share that is undefined or in [0, 1] |
| `Survey.StateTable` | short_paper_code.py:33-49 | the per-state table has one row per distinct state, in the order of `unique()`, and every row is well formed |
| `Survey.StateTableKeys` | short_paper_code.py:33-36 | the table has one row per state of the records, and each state appears only once |
| `Survey.StateTableWellFormed` | short_paper_code.py:39-42 | every row of the table has `dem_or_rep = dem + rep` and `p_dem` equal to the share of that total |
| `Survey.Share` | short_paper_code.py:42 | `p_dem` is undefined exactly when `dem_or_rep = 0`; otherwise it lies in [0, 1] when dem ≤ total, and share × total = dem |
| `Survey.ShareThreshold` | short_paper_code.py:42 | the share is undefined only when dem = rep = 0; `p_dem > 0.5` holds exactly when dem > rep, and `p_dem < 0.5` exactly when dem < rep |
| `Survey.DropTwoEachEnd` | short_paper_code.py:47 | Python's `s[2:-2]`: four characters shorter, shifted by two, and empty for a string shorter than four |
| `Survey.StateLabel` | short_paper_code.py:47 | the stored label is the state's label when its records agree on one, and a text holding a quote character when they carry two or more |
| `Survey.SingleLabelText` | short_paper_code.py:47 | the text of a one-element label array with two characters cut from each end is the label itself |
| `Survey.MultiLabelText` | short_paper_code.py:47 | the text for two or more labels contains a quote character |
| `Survey.ConsistentStateLabel` | short_paper_code.py:45-49 | a state whose records all carry label L gets exactly L |
| `Survey.InconsistentStateLabel` | short_paper_code.py:45-53 | a state whose records carry two different labels gets a text equal to neither 'EarlyVoting' nor 'NoEarlyVoting' |
| `Frame.StateFrame.constructor` | short_paper_code.py:15-35 | the new table has one row per distinct state in first-appearance order, each row holds that state's six group-by sums, and the index labels are the state keys |
| `Frame.StateFrame.ResetIndex` | short_paper_code.py:36 | the row labels become the positions 0, 1, …; no column changes |
| `Frame.StateFrame.AddDemOrRep` | short_paper_code.py:39 | adds a `dem_or_rep` column equal to dem + rep in every row; no other column changes |
| `Frame.StateFrame.AddPDem` | short_paper_code.py:42 | adds a `p_dem` column equal to the share of `dem_or_rep` in every row; no other column changes |
| `Frame.StateFrame.AddEarlyVoting` | short_paper_code.py:45-49 | the loop adds one label text per state, in table order, and the list becomes the `earlyVoting` column |
| `Frame.BuildStateFrame` | short_paper_code.py:15-49 | running the construction and the four in-place steps gives exactly the pure per-state table, row for row, with a positional index |
| `Classify.Select` | short_paper_code.py:53-63 | boolean-mask indexing keeps exactly the rows that meet the condition and never more rows than the input |
| `Classify.SelectAppend` | short_paper_code.py:53-63 | selection goes row by row: selecting from a concatenation concatenates the selections, so the kept rows stay in table order |
| `Classify.SelectOne` | short_paper_code.py:53-63 | one row is kept exactly when it meets the condition; with `SelectAppend` this fixes the order and multiplicity of every selection |
| `Classify.Specific` | short_paper_code.py:53 | `table_1` holds exactly the rows labelled EarlyVoting or NoEarlyVoting |
| `Classify.PolicyTable` | short_paper_code.py:60-63 | filtering `table_1` by a recognised label gives the same rows as filtering the whole table by it |
| `Classify.SelectNarrow` | short_paper_code.py:57-63 | filtering by a condition within the rows of a weaker one is filtering by the stronger condition directly |
| `Classify.PolicyPartition` | short_paper_code.py:53-76 | the EarlyVoting and NoEarlyVoting tables are disjoint; as multisets they add up to `table_1`; `n_true_early` and `n_no_early` are their sizes and add up to the size of `table_1` |
| `Classify.RowPlacement` | short_paper_code.py:53-63 | a row is in `table_1` exactly when it is in one of the two policy tables, and it is excluded exactly when its label is neither recognised label |
| `Classify.CountLabel` | short_paper_code.py:73-76 | the count of a label over the table equals the number of rows the label filter keeps |
| `Classify.GroupMean` | short_paper_code.py:79-86 | the group mean is NaN exactly when no state with the label has a defined share |
| `Classify.GroupMeanProperties` | short_paper_code.py:73-90 | the mean of a group uses at most as many states as the group size counts; it is undefined exactly when no state of the group has a defined share; otherwise it lies in [0, 1] |
| `Classify.MaskApply` | short_paper_code.py:110-115 | the boolean apply has one entry per state, True exactly when the state has the label and a defined share on the required side of 0.5 |
| `Classify.CountTrue` | short_paper_code.py:111-115 | the number of True entries is at most the length, and zero exactly when no entry is True |
| `Classify.SubgroupCount` | short_paper_code.py:110-115 | the subgroup count is the number of states the subgroup condition selects |
| `Classify.ValueApply` | short_paper_code.py:118-126 | the value apply has one entry per state, and every entry lies in [0, 1] when the shares do |
| `Classify.MaskedSums` | short_paper_code.py:110-127 | the number of True entries in the boolean apply is the subgroup size, and the sum of the value apply (False counts as 0) is the sum of the subgroup's shares |
| `Classify.SubgroupMean` | short_paper_code.py:118-127 | `apply.sum() / n` equals the arithmetic mean of `p_dem` over the subgroup, and is undefined exactly for an empty subgroup |
| `Classify.SubgroupSplit` | short_paper_code.py:110-115 | within a group, the dem and rep subgroups are disjoint; a state is in neither exactly when its share is undefined or exactly 0.5; so `n_dem + n_rep <= n` |
| `Classify.LeaningIsCountComparison` | short_paper_code.py:152-157 | for a well-formed row, the dem-leaning test holds exactly when dem > rep and the rep-leaning test exactly when dem < rep |
| `Classify.SubgroupMeanSide` | short_paper_code.py:160-169 | a non-empty dem subgroup has mean above 0.5, and a non-empty rep subgroup has mean below 0.5 |
| `Stats.Mean` | short_paper_code.py:79 | the mean is undefined exactly for an empty sample |
| `Stats.MeanWithin` | short_paper_code.py:86 | the mean of a non-empty sample lies within any bounds that hold for all its elements |
| `Stats.MeanAboveBelow` | short_paper_code.py:119 | a sample that lies strictly above (or below) a threshold has its mean strictly above (or below) it |
| `Stats.RadicandTerm` | short_paper_code.py:96-97 | `m(1-m)/n` is undefined exactly for n = 0, and is ≥ 0 when 0 ≤ m ≤ 1 |
| `Stats.Radicand` | short_paper_code.py:96-98 | the radicand is defined exactly when both means are defined and both counts are positive, and it is ≥ 0 when both means are in [0, 1] |
| `Stats.RadicandZero` | short_paper_code.py:137-139 | for means in [0, 1] and positive counts, the radicand is zero exactly when each mean is 0 or 1 |
| `Stats.TwoSampleTest` | short_paper_code.py:94-102 | non-finite exactly when the radicand is undefined; a sqrt domain error exactly when it is negative; `ZeroDivisionError` exactly when it is zero and the arithmetic is on Python floats; otherwise difference = meanA − meanB, SE ≥ 0 with SE² equal to the radicand, the interval is [difference − 1.96·SE, difference + 1.96·SE] and brackets the difference, and t is defined exactly when SE > 0, with t·SE = difference |
| `Stats.TestComputable` | short_paper_code.py:135-143 | for means in [0, 1] the test never makes `math.sqrt` raise; it is computed exactly when both means are defined, both counts are positive and, on Python floats, the radicand is non-zero |
| `Analysis.OverallTest` | short_paper_code.py:94-102 | the overall test never raises on a division, and it is non-finite exactly when one of the two group means is NaN |
| `Analysis.LeaningTest` | short_paper_code.py:135-143 | a leaning test (lines 135-143, and 177-185 for the rep side) is non-finite exactly when one of its two subgroups is empty |
| `Analysis.TableSharesInUnitRange` | short_paper_code.py:39-42 | every share in the per-state table is undefined or in [0, 1] |
| `Analysis.OverallTestOutcome` | short_paper_code.py:79-102 | on the per-state table the overall test never raises; it is computed exactly when each policy group has a state with a defined share; its interval then brackets the difference |
| `Analysis.LeaningTestOutcome` | short_paper_code.py:177-185 | on shares in [0, 1] the dem and rep tests never make `math.sqrt` raise; they raise `ZeroDivisionError` exactly when both dem means are 1.0 (both rep means 0.0); they are computed exactly when both subgroups are non-empty and they do not raise; both dem means then lie above 0.5 and both rep means below it |
| `Analysis.SubgroupMeanInRange` | short_paper_code.py:168-169 | a subgroup mean is defined exactly when the subgroup is non-empty, and then lies in [0, 1] |
| `Analysis.TwoStateScenario` | short_paper_code.py:39-115 | state A (60 dem, 40 rep, EarlyVoting) and state B (30 dem, 70 rep, NoEarlyVoting) have shares 0.6 and 0.3 and a radicand of 0.45; the overall difference is 0.3; A is the only dem-leaning state and B the only rep-leaning one |
| `Analysis.UnanimousScenario` | short_paper_code.py:94-143 | two states with only Democratic votes, one per policy: the radicand is 0, the overall test is computed with an undefined t, and the dem-leaning test raises `ZeroDivisionError` |

## Left out

- Reading `Voting.csv` (line 12), all console printing, and the pandas display options (lines 66-68) are input and output. The model starts from a sequence of records.
- The column projection `table_1 = state_df_specific[[...]]` (line 57) is not modelled. It only chooses which columns are displayed, and the model works on whole rows.
- The standard deviations (lines 83, 90, 123, 131, 165, 173) are not modelled. They are Bessel-corrected floating-point `std` calls. The subgroup ones run over the whole apply series, including the False placeholders.
- `TwoSampleTest`: `math.sqrt` is not computed. The caller supplies `root`, and the precondition `RootFor` says that it is the non-negative square root of the radicand whenever `math.sqrt` would return one. Floating-point rounding is not modelled either: all arithmetic is exact. NaN and infinity in a mean or the radicand give the `NonFinite` outcome, without telling them apart; a NaN or infinite t from a zero standard error on numpy scalars is `t = None` inside `Computed`.
- `Survey.Share`: a positive `dem` over a zero total (infinity in pandas) also gives `None`. With non-negative counts, a zero total forces `dem = 0`, so this case never arises from records.
- The index alignment of the `DataFrame` constructor (line 33) is not modelled. There, the `state` column comes from `unique()` in first-appearance order, while the group-by sums are indexed by state in sorted order. The model keys every row's sums by that row's own state.
- `Survey.DropTwoEachEnd`/`Survey.StateLabel`: the model renders the label array as `['a' 'b' ...]`. It does not model numpy's line wrapping of long arrays, its choice of double quotes for labels that contain a single quote, or NaN labels. Only the single-label versus multiple-label distinction is claimed.
- Record columns are modelled as non-negative counts. The data holds 0/1 values, and the model does not check that.
