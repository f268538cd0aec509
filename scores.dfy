/** The per-pair, per-task scores and their empty-slice guard
    (get_metrics.py, get_annotator_details, get_pair_bias_score, get_pair_prop_score). */
module Scores {
  import opened Base
  import opened Metrics
  import opened Table

  const BIAS_KEYS: set<string> := {"bias_cohen_kappa", "bias_accuracy", "bias_macro_f1", "bias*_f1"}
  const PROP_KEYS: set<string> := {"propaganda_cohen_kappa", "propaganda_accuracy", "propaganda_macro_f1", "propaganda_f1"}

  /** The ValueError sklearn raises when the two label series differ in length. */
  const INCONSISTENT_SAMPLES: string := "Found input variables with inconsistent numbers of samples"

  /** get_annotator_details: the two sheet types when the first key carries one,
      otherwise (None, None). */
  function AnnotatorDetails(pair: Pair): (Option<Cell>, Option<Cell>)
  {
    if pair.0.sheet.Some? then (pair.0.sheet, pair.1.sheet) else (None, None)
  }

  /** The label columns of the two slices compared for one pair and one task. */
  function PairLabels(table: seq<Record>, sType: string, pair: Pair, task: string): (seq<string>, seq<string>)
  {
    var annotators := AnnotatorDetails(pair);
    (LabelColumn(SliceBy(table, sType, pair.0.batch, pair.0.team, task, annotators.0)),
     LabelColumn(SliceBy(table, sType, pair.1.batch, pair.1.team, task, annotators.1)))
  }

  /** An accuracy entry that lies in [0, 1] over a non-empty first series of length n. */
  predicate UnitAccuracy(m: Metric, n: nat)
  {
    m.AccuracyOf? && m.accuracy.Frac? && m.accuracy.den == n > 0 && m.accuracy.num <= n
  }

  /** get_pair_bias_score: no scores when either slice is empty; otherwise kappa (which
      raises on series of different lengths), accuracy, macro F1 and the Biased-class F1. */
  function PairBiasScore(table: seq<Record>, sType: string, pair: Pair): Result<map<string, Metric>>
  {
    var labels := PairLabels(table, sType, pair, "Bias");
    var l1, l2 := labels.0, labels.1;
    if |l1| == 0 || |l2| == 0 then Ok(map[])
    else if |l1| != |l2| then Fail(INCONSISTENT_SAMPLES)
    else
      var accuracy := Accuracy(l1, l2);
      var scores := map[
        "bias_cohen_kappa" := KappaOf(l1, l2),
        "bias_accuracy" := AccuracyOf(accuracy),
        "bias_macro_f1" := MacroF1Of(l1, l2),
        "bias*_f1" := FscoreBias(l1, l2)
      ];
      Ok(scores)
  }

  /** get_pair_prop_score: the same guard and shape with the Propaganda-class F1. */
  function PairPropScore(table: seq<Record>, sType: string, pair: Pair): Result<map<string, Metric>>
  {
    var labels := PairLabels(table, sType, pair, "Propaganda");
    var l1, l2 := labels.0, labels.1;
    if |l1| == 0 || |l2| == 0 then Ok(map[])
    else if |l1| != |l2| then Fail(INCONSISTENT_SAMPLES)
    else
      var accuracy := Accuracy(l1, l2);
      var scores := map[
        "propaganda_cohen_kappa" := KappaOf(l1, l2),
        "propaganda_accuracy" := AccuracyOf(accuracy),
        "propaganda_macro_f1" := MacroF1Of(l1, l2),
        "propaganda_f1" := FscoreProp(l1, l2)
      ];
      Ok(scores)
  }

  /** The guard of PairBiasScore: no scores exactly when a slice is empty, an exception
      exactly when both are non-empty and differ in length, otherwise the four Bias keys
      with an accuracy in [0, 1]. */
  lemma PairBiasScoreSpec(table: seq<Record>, sType: string, pair: Pair)
    ensures var r := PairBiasScore(table, sType, pair);
            var labels := PairLabels(table, sType, pair, "Bias");
            var l1, l2 := labels.0, labels.1;
            && (r == Ok(map[]) <==> |l1| == 0 || |l2| == 0)
            && (r.Fail? <==> |l1| != 0 && |l2| != 0 && |l1| != |l2|)
            && (r.Ok? && r.value != map[] ==>
                  r.value.Keys == BIAS_KEYS && UnitAccuracy(r.value["bias_accuracy"], |l1|))
  {
    var labels := PairLabels(table, sType, pair, "Bias");
    var l1, l2 := labels.0, labels.1;
    if |l1| != 0 && |l2| != 0 && |l1| == |l2| {
      assert "bias_accuracy" in PairBiasScore(table, sType, pair).value;
    }
  }

  /** The guard of PairPropScore: no scores exactly when a slice is empty, an exception
      exactly when both are non-empty and differ in length, otherwise the four Propaganda keys
      with an accuracy in [0, 1]. */
  lemma PairPropScoreSpec(table: seq<Record>, sType: string, pair: Pair)
    ensures var r := PairPropScore(table, sType, pair);
            var labels := PairLabels(table, sType, pair, "Propaganda");
            var l1, l2 := labels.0, labels.1;
            && (r == Ok(map[]) <==> |l1| == 0 || |l2| == 0)
            && (r.Fail? <==> |l1| != 0 && |l2| != 0 && |l1| != |l2|)
            && (r.Ok? && r.value != map[] ==>
                  r.value.Keys == PROP_KEYS && UnitAccuracy(r.value["propaganda_accuracy"], |l1|))
  {
    var labels := PairLabels(table, sType, pair, "Propaganda");
    var l1, l2 := labels.0, labels.1;
    if |l1| != 0 && |l2| != 0 && |l1| == |l2| {
      assert "propaganda_accuracy" in PairPropScore(table, sType, pair).value;
    }
  }

  /** The two tasks' key sets are disjoint, so merging a pair's two mappings loses nothing. */
  lemma ScoreKeysDisjoint()
    ensures BIAS_KEYS !! PROP_KEYS
  {
  }

  /** A key without a sheet type (a MAIN key) compares every sheet type of both slices. */
  lemma UnkeyedSheetsUnfiltered(table: seq<Record>, sType: string, pair: Pair, task: string)
    requires pair.0.sheet.None?
    ensures PairLabels(table, sType, pair, task)
         == (LabelColumn(SliceBy(table, sType, pair.0.batch, pair.0.team, task, None)),
             LabelColumn(SliceBy(table, sType, pair.1.batch, pair.1.team, task, None)))
  {
  }

  /** An IAA key whose sheet_type is NaN selects no row, on either side of a pair, so
      neither task is scored. */
  lemma MissingSheetScoresNothing(table: seq<Record>, sType: string, pair: Pair)
    requires pair.0.sheet.Some? && (pair.0.sheet == Some(Missing) || pair.1.sheet == Some(Missing))
    ensures PairBiasScore(table, sType, pair) == Ok(map[])
    ensures PairPropScore(table, sType, pair) == Ok(map[])
  {
    SliceByMissingAnnotator(table, sType, pair.0.batch, pair.0.team, "Bias");
    SliceByMissingAnnotator(table, sType, pair.0.batch, pair.0.team, "Propaganda");
    SliceByMissingAnnotator(table, sType, pair.1.batch, pair.1.team, "Bias");
    SliceByMissingAnnotator(table, sType, pair.1.batch, pair.1.team, "Propaganda");
  }
}
