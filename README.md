# FIGNEWS agreement metrics — Dafny model

This project models the label-comparison core of `get_metrics.py`. That script
compares the annotation labels of teams (MAIN rows) and of annotators within
teams (IAA rows). It works on two tasks, Bias and Propaganda. The model covers:

- the label normalisations: `replace_labels`, the "else" normalisation and the
  bias grouping;
- the slice selector `get_slice_by`;
- exact accuracy and its normalised variants;
- the empty-slice guard of the per-pair score functions;
- the enumeration of group keys, their ordered pairs and the same-batch filter,
  with the scoring loop;
- the within-team / across-team split and the membership of the averaged groups;
- the section order of the output table.

Files, one module each, in dependency order:

- `base.dfy` (`Base`): `Option` and `Result`. `Fail` stands for a Python
  exception that ends the run.
- `labels.dfy` (`Labels`): `BIAS_VALUES`, `Replaced` (the value `replace_labels`
  computes), the in-place `ReplaceLabels` method over an `array<string>`, and the
  copy-then-replace helpers.
- `metrics.dfy` (`Metrics`): accuracy as an exact `Fraction`. sklearn's kappa and
  F1 scores are kept as symbolic `Metric` values that record the label sequences
  handed to the library.
- `table.dfy` (`Table`): records, `sheet_type` cells (text or NaN), group keys and
  `SliceBy`.
- `scores.dfy` (`Scores`): `get_annotator_details`, `get_pair_bias_score` and
  `get_pair_prop_score`.
- `pairs.dfy` (`Pairs`): unique group keys (`drop_duplicates`),
  `itertools.permutations(keys, 2)`, the same-batch filter, row construction and
  the scoring loop (`ScorePairs`). Also `get_team_iaa_metrics`.
- `report.dfy` (`Report`): `get_team_main_metrics` with its grouping, the
  within/across filters and averaging groups, and the assembled output table.

Behaviour that follows the code where a plain reading could differ:

- **Empty input.** With an empty input table, or one with no two MAIN keys in the
  same batch, the script raises. It builds a DataFrame from an empty list, and that
  frame has no `s_type` column to group by (`get_metrics.py:164-167`). With no IAA
  pair, `get_within_team_avgs` asks for a `team_2` column that does not exist. The
  model returns `Fail` in both cases: `Report.MetricsTableOf` fails exactly when the
  MAIN metrics fail (`Report.MainMetricsOf`, empty MAIN pair rows), the IAA scoring
  raises, or there is no IAA pair row, and `Report.EmptyTableRaises` applies this to the empty table. It does
  not produce an empty output table.
- **Truthy annotator.** The annotator filter of `get_slice_by` applies when the
  annotator is truthy, not merely when one is given. A NaN `sheet_type` is truthy
  and equals no cell, so such a key selects nothing. An empty string is falsy and
  selects every sheet type.
- **Mismatched lengths in `get_accuracy`.** `Series.eq` aligns the two series on
  their index. Positions beyond the shorter series count as disagreements, and the
  count is divided by the length of the first series, so 0/0 gives NaN. In the
  pair scores, `cohen_kappa_score` runs first and raises on series of different
  lengths. The model returns `Fail` there.

## Model

| member | source | states |
|---|---|---|
| `Labels.ReplaceEach` | get_metrics.py:50 | one `series.replace(f_label, to_label)`: every occurrence of one label rewritten; its effect is stated through `Replaced` |
| `Labels.Replaced` | get_metrics.py:48-51 | replacing the labels one after another preserves the length; a position becomes `to_label` exactly when it held one of `from_labels`, and every other position is unchanged |
| `Labels.ReplaceLabels` | get_metrics.py:48-51 | rewrites the series in place; its new contents are `Replaced` of its old contents |
| `Labels.Copy` | get_metrics.py:54-55 | `series.copy()`: a fresh array with the same contents, so later in-place rewrites leave the original alone |
| `Labels.ElseNormalisedCopy` | get_metrics.py:63-65 | returns a fresh array holding the else-normalised labels; the caller's series is outside the frame and so stays unchanged |
| `Labels.ElseNormalised` | get_metrics.py:64-65 | the value of the else normalisation (Unclear and Not Applicable to Un/NA); its per-position rule is `ElseNormalisedAt` and its idempotence `ElseNormalisedIdempotent` |
| `Labels.ToBiasGroupedElseSeries` | get_metrics.py:53-55 | returns a fresh array holding the bias-grouped labels (two rounds of `replace_labels` on copies); the caller's series stays unchanged |
| `Labels.BiasGrouped` | get_metrics.py:53-55 | the value `to_bias_grp_else_series` returns; its per-position rule is `BiasGroupedAt`, its output labels `BiasGroupedLabels` |
| `Labels.ReplacedIdempotent` | get_metrics.py:48-51 | replacing twice with the same labels gives the same series as replacing once |
| `Labels.ElseNormalisedIdempotent` | get_metrics.py:63-65 | the else normalisation is idempotent |
| `Labels.ElseNormalisedAt` | get_metrics.py:64 | a position becomes Un/NA exactly when it held Unclear, Not Applicable or Un/NA; any other position keeps its label; no output label is Unclear or Not Applicable |
| `Labels.BiasGroupedAt` | get_metrics.py:53-55 | a position becomes Biased exactly when it held one of the first four BIAS_VALUES (or Biased); it becomes Un/NA exactly when it held Unclear, Not Applicable (or Un/NA); any other label is unchanged |
| `Labels.BiasGroupedIdempotent` | get_metrics.py:53-55 | the bias grouping is idempotent |
| `Labels.BiasGroupedLabels` | get_metrics.py:26-34 | for labels drawn from BIAS_VALUES, every bias-grouped label is Biased, Unbiased or Un/NA |
| `Metrics.AgreeCount` | get_metrics.py:61 | the number of agreeing positions below k is at most k, and equals k exactly when the series agree at every such position |
| `Metrics.AgreeCountIsCardinality` | get_metrics.py:61 | the agreement count is the number of indices at which the two series agree |
| `Metrics.Accuracy` | get_metrics.py:60-61 | NaN exactly for an empty first series; otherwise a fraction over the first series' length that lies in [0, 1] and equals 1 exactly when the first series agrees with the second at every one of its positions |
| `Metrics.AccuracyCountsAgreements` | get_metrics.py:60-61 | on two series of the same non-zero length, accuracy is the number of agreeing indices over the length |
| `Metrics.AccuracySelf` | get_metrics.py:60-61 | a non-empty series compared with itself has accuracy 1 |
| `Metrics.AgreeCountMonotone` | get_metrics.py:60-73 | relabelling that keeps agreeing positions agreeing cannot lower the agreement count |
| `Metrics.AgreeCountReplaced` | get_metrics.py:63-73 | applying the same replacement to both series never turns a match into a mismatch |
| `Metrics.AccuracyElse` | get_metrics.py:63-67 | the else-normalised accuracy is NaN exactly when the raw accuracy is; otherwise it has the same denominator and is at least the raw accuracy |
| `Metrics.AccuracyBiasGrouped` | get_metrics.py:69-73 | the bias-grouped accuracy has the same denominator and is at least both the raw and the else-normalised accuracy |
| `Metrics.FscoreBias` | get_metrics.py:78-81 | the Biased-class F1 is computed over sequences that hold Biased exactly where the input held a directed bias label |
| `Metrics.FscoreProp` | get_metrics.py:83-87 | the Propaganda-class F1 is computed over else-normalised sequences that hold Propaganda exactly where the input did |
| `Metrics.ExampleAccuracy` | get_metrics.py:60-61 | worked example: the two raw series agree at one position of three (accuracy 1/3) |
| `Metrics.ExampleBiasGrouped` | get_metrics.py:53-55 | worked example: both series group to Unbiased, Biased, Un/NA |
| `Metrics.ExampleGroupedAccuracy` | get_metrics.py:69-73 | worked example: the bias-grouped accuracy is 3/3 |
| `Table.SliceBy` | get_metrics.py:36-40 | `get_slice_by` as a filter in table order; its contents are stated by `SliceByMembers`, its order by `SliceByAppend` |
| `Table.LabelColumn` | get_metrics.py:97-99 | the `.label` column of a slice: same length, the k-th entry the k-th row's label |
| `Table.SliceByMembers` | get_metrics.py:36-40 | the slice holds exactly the table rows that match type, batch, team and task, and also the sheet type when the annotator is truthy; it is no longer than the table |
| `Table.SliceByAppend` | get_metrics.py:40 | selecting from two consecutive parts of a table gives the two selections in order, so table order is preserved |
| `Table.SliceByIdempotent` | get_metrics.py:40 | selecting again from a slice with the same arguments returns the slice |
| `Table.SliceByFalsyAnnotator` | get_metrics.py:37-38 | a falsy annotator (None or "") gives the same slice as no annotator |
| `Table.SliceByMissingAnnotator` | get_metrics.py:38 | a NaN annotator, which is truthy and equals no cell, selects no row |
| `Scores.AnnotatorDetails` | get_metrics.py:42-46 | the two sheet types when the first key has one, otherwise None twice; its effect on slicing is `UnkeyedSheetsUnfiltered` and `MissingSheetScoresNothing` |
| `Scores.PairBiasScore` | get_metrics.py:89-112 | `get_pair_bias_score`; its guard, error case and keys are stated by `PairBiasScoreSpec` |
| `Scores.PairPropScore` | get_metrics.py:114-135 | `get_pair_prop_score`; its guard, error case and keys are stated by `PairPropScoreSpec` |
| `Scores.PairBiasScoreSpec` | get_metrics.py:89-112 | the result is the empty mapping exactly when either Bias slice is empty; it raises exactly when both are non-empty and of different lengths; otherwise it holds exactly the four bias keys, with an accuracy in [0, 1] |
| `Scores.PairPropScoreSpec` | get_metrics.py:114-135 | the same guard and error case for the Propaganda slices; otherwise exactly the four propaganda keys, with an accuracy in [0, 1] |
| `Scores.ScoreKeysDisjoint` | get_metrics.py:162 | the bias and propaganda key sets are disjoint, so merging the two mappings loses nothing |
| `Scores.UnkeyedSheetsUnfiltered` | get_metrics.py:42-46 | for a key without sheet_type (MAIN) both slices are taken without a sheet-type filter |
| `Scores.MissingSheetScoresNothing` | get_metrics.py:89-95 | an IAA pair in which either key has a NaN sheet_type gets empty mappings for both tasks |
| `Pairs.TypedKeys` | get_metrics.py:139 | a key appears exactly when some row of the requested type has those key columns |
| `Pairs.Dedup` | get_metrics.py:139 | keeps exactly the keys of its input, each once |
| `Pairs.DedupFirstOccurrenceOrder` | get_metrics.py:139 | the kept keys come in the order of their first occurrence in the input |
| `Pairs.GroupKeys` | get_metrics.py:139 | the unique keys of one record type, used both for the MAIN keys (line 139) and the IAA keys (line 173): no duplicates, and exactly the keys some row of that type has |
| `Pairs.PairsFromLength` | get_metrics.py:141 | the pairs with a fixed first position: one per other position below the bound |
| `Pairs.PairsFromMembers` | get_metrics.py:141 | a pair has the fixed first position exactly when its second is another position below the bound |
| `Pairs.PermutationsUpToLength` | get_metrics.py:141 | the permutations whose first position is below the bound number bound × (n − 1) |
| `Pairs.PermutationsUpToMembers` | get_metrics.py:141 | they are exactly the pairs of two distinct positions whose first position is below the bound |
| `Pairs.Permutations` | get_metrics.py:141 | `itertools.permutations(keys, 2)` in itertools order; its size and members are stated by `PermutationsSpec` |
| `Pairs.PermutationsSpec` | get_metrics.py:141 | n × (n − 1) ordered pairs, exactly the pairs of keys at two distinct positions |
| `Pairs.SameBatch` | get_metrics.py:144-146 | the pairs the loop does not skip, in order; stated by `SameBatchMembers` and `SameBatchAppend` |
| `Pairs.SameBatchMembers` | get_metrics.py:144-146 | keeps exactly the pairs whose two batches are equal and is no longer than its input |
| `Pairs.SameBatchAppend` | get_metrics.py:144-146 | the batch filter distributes over concatenation |
| `Pairs.CandidatePairsSound` | get_metrics.py:141-146 | for unique keys, every scored pair joins two different keys of the same batch, its reverse is scored too, and every two different keys of one batch are scored as a pair |
| `Pairs.Classify` | get_metrics.py:182-185 | across_team for two different team names, within_team for one; stated through `BuildRow` and `IaaRowsClassified` |
| `Pairs.RowFor` | get_metrics.py:149-162 | one loop iteration: `BuildRow` of the pair with its Bias and Propaganda scores; its columns are stated by `RowScoreColumns` |
| `Pairs.BuildRow` | get_metrics.py:149-162 | a row raises exactly when one of its task scores raises, the Bias exception first; it carries the pair's type, batch and teams, the sheet types for IAA and none for MAIN; it is within_team exactly for an IAA pair of one team; its numeric columns are the merge of the two task mappings |
| `Pairs.MergedColumns` | get_metrics.py:162 | merging a Bias and a Propaganda mapping, each empty or complete, gives all four columns of a task exactly when that task was scored, and no other column |
| `Pairs.RowScoreColumns` | get_metrics.py:158-162 | a row has all four bias columns exactly when both Bias slices are non-empty, likewise for Propaganda, and no other numeric column |
| `Pairs.CollectAt` | get_metrics.py:143-162 | collected rows, on success, are one per step and in step order |
| `Pairs.CollectFailAt` | get_metrics.py:158-162 | a step that raises makes the whole run raise |
| `Pairs.CollectFailWitness` | get_metrics.py:158-162 | a run raises only because one of its steps raises |
| `Pairs.OutcomesAt` | get_metrics.py:143-162 | the k-th step outcome is the scoring of the k-th pair |
| `Pairs.OutcomesAppend` | get_metrics.py:143-162 | scoring a concatenation of pairs scores both parts, in order |
| `Pairs.PairRowsOfAt` | get_metrics.py:143-162 | on success, one row per pair, the k-th row being the row of the k-th pair |
| `Pairs.PairRowsOfFails` | get_metrics.py:158-162 | the scoring of a pair list raises exactly when some pair's row raises |
| `Pairs.CollectFailExtends` | get_metrics.py:158-162 | once a step has raised, later steps change nothing |
| `Pairs.ScoreStepKeep` | get_metrics.py:144-162 | a same-batch pair appends its row to those collected so far, or ends the run with its exception |
| `Pairs.ScoreStopsAfter` | get_metrics.py:158-162 | after the loop has raised, the pairs still to come change nothing |
| `Pairs.ScorePairs` | get_metrics.py:143-162 | the loop returns the rows of the same-batch permutations of the keys, in order, or the first exception |
| `Pairs.IaaRowsClassified` | get_metrics.py:182-185 | an IAA row is within_team exactly when its two teams are equal and across_team otherwise; a within_team row compares two different annotator sheets |
| `Pairs.MainRowsAcrossTeams` | get_metrics.py:139-165 | two MAIN keys of one batch name different teams, so every MAIN row compares two teams and is labelled across_team |
| `Pairs.IaaPairRows` | get_metrics.py:172-205 | the value of the IAA scoring loop; `TeamIaaMetrics` is proved equal to it, and `IaaRowsClassified` states its type and within/across classification |
| `Pairs.MainPairRows` | get_metrics.py:137-162 | the value of the MAIN scoring loop; `MainRowsAcrossTeams` states that every row is across_team between two different teams |
| `Pairs.TeamIaaMetrics` | get_metrics.py:172-205 | returns the IAA pair rows, each of type IAA and within_team exactly when its teams are equal |
| `Report.Members` | get_metrics.py:167 | a group's rows are exactly the rows with that (s_type, team_1) |
| `Report.GroupByTeam` | get_metrics.py:167 | every row enters the group of its (s_type, team_1); each group holds only rows of its key; no group is empty |
| `Report.WithinTeamRows` | get_metrics.py:208 | keeps exactly the rows whose two teams are equal |
| `Report.AcrossTeamRows` | get_metrics.py:214 | keeps exactly the rows whose two teams differ |
| `Report.WithinAcrossPartition` | get_metrics.py:207-218 | the within and across filters split the rows: their multisets add up to the rows' multiset |
| `Report.IaaSplitFollowsClassification` | get_metrics.py:207-218 | on IAA rows, the within filter keeps exactly the within_team rows and the across filter exactly the across_team rows |
| `Report.MainMetricsOf` | get_metrics.py:137-170 | the value of `get_team_main_metrics`; `TeamMainMetrics` is proved equal to it and states its rows and groups |
| `Report.TeamMainMetrics` | get_metrics.py:137-170 | scores the MAIN pairs and groups them; it raises when no pair row exists; every row is across_team between two different teams; every group is a MAIN group |
| `Report.WithinTeamAvgs` | get_metrics.py:207-211 | raises exactly on an empty IAA frame; otherwise every same-team row enters the group of its key, and only such rows do |
| `Report.AcrossTeamAvgs` | get_metrics.py:213-218 | raises exactly on an empty IAA frame; otherwise every different-team row enters the group of its key, and only such rows do |
| `Report.MetricsTableOf` | get_metrics.py:224-235 | raises exactly when the MAIN metrics raise, the IAA scoring raises or there is no IAA pair row; otherwise the sections are the MAIN metrics, the IAA rows, and `WithinTeamAvgs` and `AcrossTeamAvgs` of those rows in that order, so every IAA row enters exactly one of the two averages |
| `Report.EmptyTableRaises` | get_metrics.py:164-167 | an empty input table makes the run raise (no `s_type` column to group by) rather than write an empty table |

## Left out

- Command-line parsing with docopt, `pd.read_csv`, `to_csv` and the `print` calls are I/O. The model takes the table as a sequence of records and returns the output table as a value.
- The values of `cohen_kappa_score` and `f1_score` come from a floating-point library. The model records the label sequences each call receives, as `Metric` values. `get_cohens_kappa` and `get_fscore` are these constructors.
- Accuracy is an unreduced fraction, not a float.
- The means computed by `groupby(...).mean(numeric_only=True)` are not modelled. The model keeps only which rows enter each group.
- Report.GroupByTeam: returns a map, so it does not give the order of the average rows. pandas sorts the groups by key.
- Column order and the final `reset_index` of the output frame are not modelled.
- The commented-out `get_accuracy_else` and `get_accuracy_bias_grp` calls in `get_pair_bias_score` are not modelled.
- Only `sheet_type` may hold NaN in this model. NaN in `type`, `batch`, `team_name`, `task` or `label` is not modelled, and batches are compared as strings.
- `get_annotator_details` would raise a KeyError if only the first key carried a `sheet_type`. This cannot happen, because both keys come from the same frame, so it is not modelled.
