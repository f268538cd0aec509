/** The metric engine: accuracy computed exactly, and the sklearn statistics kept as
    symbolic values recording the label sequences they are computed over
    (get_metrics.py, get_cohens_kappa .. get_fscore_prop). */
module Metrics {
  import opened Labels

  /** A quotient num / den as numpy computes it: NaN for 0 / 0. */
  datatype Fraction = NaN | Frac(num: nat, den: nat)

  /** The value of a metric. Cohen's kappa and the F1 scores come from sklearn and are
      not computed here: the value records the arguments handed to the library. */
  datatype Metric =
    | KappaOf(kappaLabels1: seq<string>, kappaLabels2: seq<string>)
    | AccuracyOf(accuracy: Fraction)
    | MacroF1Of(macroLabels1: seq<string>, macroLabels2: seq<string>)
    | ClassF1Of(classLabels1: seq<string>, classLabels2: seq<string>, positive: string)

  function Min(a: nat, b: nat): nat
  {
    if a <= b then a else b
  }

  /** The number of positions below k at which the two series agree. */
  function AgreeCount(s1: seq<string>, s2: seq<string>, k: nat): (c: nat)
    requires k <= |s1| && k <= |s2|
    ensures c <= k
    ensures c == k <==> forall i :: 0 <= i < k ==> s1[i] == s2[i]
  {
    if k == 0 then 0
    else AgreeCount(s1, s2, k - 1) + (if s1[k - 1] == s2[k - 1] then 1 else 0)
  }

  /** The agreeing positions, as a set of indices. */
  function AgreeSet(s1: seq<string>, s2: seq<string>, k: nat): set<nat>
    requires k <= |s1| && k <= |s2|
  {
    set i: nat | i < k && s1[i] == s2[i]
  }

  /** AgreeCount counts exactly the indices at which the two series agree. */
  lemma {:induction false} AgreeCountIsCardinality(s1: seq<string>, s2: seq<string>, k: nat)
    requires k <= |s1| && k <= |s2|
    ensures AgreeCount(s1, s2, k) == |AgreeSet(s1, s2, k)|
  {
    if k > 0 {
      AgreeCountIsCardinality(s1, s2, k - 1);
      if s1[k - 1] == s2[k - 1] {
        assert AgreeSet(s1, s2, k) == AgreeSet(s1, s2, k - 1) + {k - 1};
      } else {
        assert AgreeSet(s1, s2, k) == AgreeSet(s1, s2, k - 1);
      }
    } else {
      assert AgreeSet(s1, s2, k) == {};
    }
  }

  /** get_accuracy: series_1.eq(series_2).sum() / series_1.shape[0]. Series.eq aligns
      the two series on their index, so positions past the shorter series never agree;
      the count is divided by the length of the first series, and 0 / 0 is NaN. */
  function Accuracy(s1: seq<string>, s2: seq<string>): (r: Fraction)
    ensures r.NaN? <==> |s1| == 0
    ensures r.Frac? ==> r.den == |s1| && r.num <= r.den
    ensures r.Frac? ==> (r.num == r.den <==> |s1| <= |s2| && forall i :: 0 <= i < |s1| ==> s1[i] == s2[i])
  {
    if |s1| == 0 then NaN else Frac(AgreeCount(s1, s2, Min(|s1|, |s2|)), |s1|)
  }

  /** On two series of the same length the accuracy is the share of agreeing indices. */
  lemma AccuracyCountsAgreements(s1: seq<string>, s2: seq<string>)
    requires |s1| == |s2| > 0
    ensures Accuracy(s1, s2) == Frac(|set i: nat | i < |s1| && s1[i] == s2[i]|, |s1|)
  {
    AgreeCountIsCardinality(s1, s2, |s1|);
  }

  /** A series agrees with itself everywhere: accuracy 1. */
  lemma AccuracySelf(s: seq<string>)
    requires |s| > 0
    ensures Accuracy(s, s) == Frac(|s|, |s|)
  {
  }

  /** Whatever maps agreeing positions of s1, s2 to agreeing positions of t1, t2
      agrees at least as often. */
  lemma {:induction false} AgreeCountMonotone(s1: seq<string>, s2: seq<string>, t1: seq<string>, t2: seq<string>, k: nat)
    requires k <= |s1| && k <= |s2| && k <= |t1| && k <= |t2|
    requires forall i :: 0 <= i < k && s1[i] == s2[i] ==> t1[i] == t2[i]
    ensures AgreeCount(t1, t2, k) >= AgreeCount(s1, s2, k)
  {
    if k > 0 {
      AgreeCountMonotone(s1, s2, t1, t2, k - 1);
    }
  }

  /** Rewriting both series with the same replacement never turns an agreeing
      position into a disagreeing one. */
  lemma AgreeCountReplaced(s1: seq<string>, s2: seq<string>, fromLabels: seq<string>, toLabel: string, k: nat)
    requires k <= |s1| && k <= |s2|
    ensures AgreeCount(Replaced(s1, fromLabels, toLabel), Replaced(s2, fromLabels, toLabel), k) >= AgreeCount(s1, s2, k)
  {
    var r1, r2 := Replaced(s1, fromLabels, toLabel), Replaced(s2, fromLabels, toLabel);
    AgreeCountMonotone(s1, s2, r1, r2, k);
  }

  /** get_accuracy_else: the accuracy of the else-normalised copies. It is never below
      the accuracy of the raw labels. */
  function AccuracyElse(s1: seq<string>, s2: seq<string>): (r: Fraction)
    ensures r.NaN? <==> Accuracy(s1, s2).NaN?
    ensures r.Frac? ==> r.den == Accuracy(s1, s2).den && Accuracy(s1, s2).num <= r.num <= r.den
  {
    AgreeCountReplaced(s1, s2, ELSE_LABELS, UN_NA, Min(|s1|, |s2|));
    Accuracy(ElseNormalised(s1), ElseNormalised(s2))
  }

  /** get_accuracy_bias_grp: the accuracy of the bias-grouped copies. It is never below
      the accuracy of the raw labels, nor below the else-normalised accuracy. */
  function AccuracyBiasGrouped(s1: seq<string>, s2: seq<string>): (r: Fraction)
    ensures r.NaN? <==> Accuracy(s1, s2).NaN?
    ensures r.Frac? ==> r.den == Accuracy(s1, s2).den && AccuracyElse(s1, s2).num <= r.num <= r.den
    ensures r.Frac? ==> Accuracy(s1, s2).num <= r.num
  {
    var e1, e2 := ElseNormalised(s1), ElseNormalised(s2);
    AgreeCountReplaced(e1, e2, BiasedValues(), BIASED, Min(|s1|, |s2|));
    Accuracy(BiasGrouped(s1), BiasGrouped(s2))
  }

  /** get_fscore_bias: the F1 score of class Biased over the bias-grouped copies. The
      library sees Biased exactly where a series held a directed bias label (or Biased). */
  function FscoreBias(s1: seq<string>, s2: seq<string>): (r: Metric)
    ensures r.ClassF1Of? && r.positive == BIASED
    ensures |r.classLabels1| == |s1| && |r.classLabels2| == |s2|
    ensures forall i :: 0 <= i < |s1| ==> (r.classLabels1[i] == BIASED <==> s1[i] in BiasedValues() || s1[i] == BIASED)
    ensures forall i :: 0 <= i < |s2| ==> (r.classLabels2[i] == BIASED <==> s2[i] in BiasedValues() || s2[i] == BIASED)
  {
    var x, y := BiasGrouped(s1), BiasGrouped(s2);
    assert forall i :: 0 <= i < |s1| ==> (x[i] == BIASED <==> s1[i] in BiasedValues() || s1[i] == BIASED) by {
      forall i | 0 <= i < |s1| { BiasGroupedAt(s1, i); }
    }
    assert forall i :: 0 <= i < |s2| ==> (y[i] == BIASED <==> s2[i] in BiasedValues() || s2[i] == BIASED) by {
      forall i | 0 <= i < |s2| { BiasGroupedAt(s2, i); }
    }
    ClassF1Of(x, y, BIASED)
  }

  /** get_fscore_prop: the F1 score of class Propaganda over the else-normalised copies.
      The normalisation leaves every Propaganda label where it was. */
  function FscoreProp(s1: seq<string>, s2: seq<string>): (r: Metric)
    ensures r.ClassF1Of? && r.positive == "Propaganda"
    ensures |r.classLabels1| == |s1| && |r.classLabels2| == |s2|
    ensures forall i :: 0 <= i < |s1| ==> (r.classLabels1[i] == "Propaganda" <==> s1[i] == "Propaganda")
    ensures forall i :: 0 <= i < |s2| ==> (r.classLabels2[i] == "Propaganda" <==> s2[i] == "Propaganda")
  {
    ClassF1Of(ElseNormalised(s1), ElseNormalised(s2), "Propaganda")
  }

  /** Two annotators label three posts: Unbiased / Unbiased, Biased against Israel /
      Biased against Palestine, Unclear / Not Applicable. On the raw labels they agree
      only on the first post: accuracy 1/3. */
  lemma ExampleAccuracy()
    ensures Accuracy(["Unbiased", "Biased against Israel", "Unclear"],
                     ["Unbiased", "Biased against Palestine", "Not Applicable"]) == Frac(1, 3)
  {
    var s1 := ["Unbiased", "Biased against Israel", "Unclear"];
    var s2 := ["Unbiased", "Biased against Palestine", "Not Applicable"];
    assert s1[1] != s2[1];
    assert s1[2] != s2[2];
    assert AgreeCount(s1, s2, 1) == 1;
    assert AgreeCount(s1, s2, 2) == 1;
  }

  /** The same three posts after bias grouping: both directed bias labels become
      Biased and both else labels Un/NA, so each series reads Unbiased, Biased, Un/NA. */
  lemma ExampleBiasGrouped()
    ensures BiasGrouped(["Unbiased", "Biased against Israel", "Unclear"]) == ["Unbiased", "Biased", "Un/NA"]
    ensures BiasGrouped(["Unbiased", "Biased against Palestine", "Not Applicable"]) == ["Unbiased", "Biased", "Un/NA"]
  {
    var s1 := ["Unbiased", "Biased against Israel", "Unclear"];
    var s2 := ["Unbiased", "Biased against Palestine", "Not Applicable"];
    var g := ["Unbiased", "Biased", "Un/NA"];
    forall i | 0 <= i < 3 ensures BiasGrouped(s1)[i] == g[i] {
      BiasGroupedAt(s1, i);
    }
    forall i | 0 <= i < 3 ensures BiasGrouped(s2)[i] == g[i] {
      BiasGroupedAt(s2, i);
    }
  }

  /** The same three posts: after bias grouping the two series agree on every post,
      so the grouped accuracy is 3/3 where the raw one was 1/3. */
  lemma ExampleGroupedAccuracy()
    ensures AccuracyBiasGrouped(["Unbiased", "Biased against Israel", "Unclear"],
                                ["Unbiased", "Biased against Palestine", "Not Applicable"]) == Frac(3, 3)
  {
    ExampleBiasGrouped();
    var g := ["Unbiased", "Biased", "Un/NA"];
    assert Accuracy(g, g) == Frac(3, 3);
  }
}
