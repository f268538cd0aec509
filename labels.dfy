/** Label normalisation: the Bias label set and the rewriting of label series
    (get_metrics.py, BIAS_VALUES, replace_labels, to_bias_grp_else_series). */
module Labels {

  /** The seven labels of the Bias task, in their declared order. */
  const BIAS_VALUES: seq<string> := [
    "Biased against Palestine",
    "Biased against Israel",
    "Biased against both Palestine and Israel",
    "Biased against others",
    "Unbiased",
    "Unclear",
    "Not Applicable"
  ]

  /** The labels folded together by the "else" normalisation. */
  const ELSE_LABELS: seq<string> := ["Unclear", "Not Applicable"]

  const UN_NA: string := "Un/NA"
  const BIASED: string := "Biased"
  const UNBIASED: string := "Unbiased"

  /** The four directed bias labels, BIAS_VALUES[:4]. */
  function BiasedValues(): seq<string>
  {
    BIAS_VALUES[..4]
  }

  /** One call of pandas' Series.replace(f, t): every entry equal to f becomes t. */
  function ReplaceEach(s: seq<string>, f: string, t: string): seq<string>
  {
    seq(|s|, i requires 0 <= i < |s| => if s[i] == f then t else s[i])
  }

  /** replace_labels on a value: the replacements done one after another, in the
      order of fromLabels. Whatever that order, a position ends up as toLabel
      exactly when it held one of fromLabels. */
  function Replaced(s: seq<string>, fromLabels: seq<string>, toLabel: string): (r: seq<string>)
    ensures |r| == |s|
    ensures forall i :: 0 <= i < |s| ==> r[i] == (if s[i] in fromLabels then toLabel else s[i])
    decreases |fromLabels|
  {
    if fromLabels == [] then s
    else Replaced(ReplaceEach(s, fromLabels[0], toLabel), fromLabels[1..], toLabel)
  }

  /** The "else" normalisation: Unclear and Not Applicable become Un/NA. */
  function ElseNormalised(s: seq<string>): seq<string>
  {
    Replaced(s, ELSE_LABELS, UN_NA)
  }

  /** to_bias_grp_else_series on a value: the else normalisation, then the four
      directed bias labels become Biased. */
  function BiasGrouped(s: seq<string>): seq<string>
  {
    Replaced(ElseNormalised(s), BiasedValues(), BIASED)
  }

  /** replace_labels: rewrites the series in place, one label of fromLabels at a time. */
  method ReplaceLabels(series: array<string>, fromLabels: seq<string>, toLabel: string)
    modifies series
    ensures series[..] == Replaced(old(series[..]), fromLabels, toLabel)
  {
    ghost var s0 := series[..];
    for k := 0 to |fromLabels|
      invariant forall i :: 0 <= i < series.Length ==>
        series[i] == (if s0[i] in fromLabels[..k] then toLabel else s0[i])
    {
      var f := fromLabels[k];
      assert fromLabels[..k + 1] == fromLabels[..k] + [f];
      for i := 0 to series.Length
        invariant forall j :: 0 <= j < i ==>
          series[j] == (if s0[j] in fromLabels[..k + 1] then toLabel else s0[j])
        invariant forall j :: i <= j < series.Length ==>
          series[j] == (if s0[j] in fromLabels[..k] then toLabel else s0[j])
      {
        if series[i] == f {
          series[i] := toLabel;
        }
      }
    }
    assert fromLabels[..|fromLabels|] == fromLabels;
  }

  /** Series.copy(): a fresh array with the same entries. */
  method Copy(series: array<string>) returns (r: array<string>)
    ensures fresh(r)
    ensures r[..] == series[..]
  {
    r := new string[series.Length](i reads series requires 0 <= i < series.Length => series[i]);
  }

  /** The else normalisation as the source performs it: replace_labels on a copy.
      The caller's series is not in the frame, so it is left as it was. */
  method ElseNormalisedCopy(series: array<string>) returns (r: array<string>)
    ensures fresh(r)
    ensures r[..] == ElseNormalised(series[..])
  {
    r := Copy(series);
    ReplaceLabels(r, ELSE_LABELS, UN_NA);
  }

  /** to_bias_grp_else_series: two rounds of replace_labels, each on a fresh copy. */
  method ToBiasGroupedElseSeries(series: array<string>) returns (r: array<string>)
    ensures fresh(r)
    ensures r[..] == BiasGrouped(series[..])
  {
    var x := Copy(series);
    ReplaceLabels(x, ELSE_LABELS, UN_NA);
    r := Copy(x);
    ReplaceLabels(r, BiasedValues(), BIASED);
  }

  /** Replacing twice with the same labels is the same as replacing once. */
  lemma ReplacedIdempotent(s: seq<string>, fromLabels: seq<string>, toLabel: string)
    ensures Replaced(Replaced(s, fromLabels, toLabel), fromLabels, toLabel)
         == Replaced(s, fromLabels, toLabel)
  {
    var once := Replaced(s, fromLabels, toLabel);
    var twice := Replaced(once, fromLabels, toLabel);
    assert |twice| == |once|;
    forall i | 0 <= i < |once| ensures twice[i] == once[i] {
    }
  }

  /** The else normalisation is idempotent. */
  lemma ElseNormalisedIdempotent(s: seq<string>)
    ensures ElseNormalised(ElseNormalised(s)) == ElseNormalised(s)
  {
    ReplacedIdempotent(s, ELSE_LABELS, UN_NA);
  }

  /** Position by position: what the else normalisation yields. */
  lemma ElseNormalisedAt(s: seq<string>, i: int)
    requires 0 <= i < |s|
    ensures |ElseNormalised(s)| == |s|
    ensures ElseNormalised(s)[i] == UN_NA <==> s[i] == "Unclear" || s[i] == "Not Applicable" || s[i] == UN_NA
    ensures ElseNormalised(s)[i] != UN_NA ==> ElseNormalised(s)[i] == s[i]
    ensures ElseNormalised(s)[i] !in ELSE_LABELS
  {
  }

  /** Position by position: a bias-grouped label is Biased exactly where the input held
      one of the four directed bias labels (or Biased itself), Un/NA exactly where it
      held Unclear, Not Applicable (or Un/NA), and otherwise the input label. */
  lemma BiasGroupedAt(s: seq<string>, i: int)
    requires 0 <= i < |s|
    ensures |BiasGrouped(s)| == |s|
    ensures BiasGrouped(s)[i] == BIASED <==> s[i] in BiasedValues() || s[i] == BIASED
    ensures BiasGrouped(s)[i] == UN_NA <==> s[i] in ELSE_LABELS || s[i] == UN_NA
    ensures BiasGrouped(s)[i] !in BiasedValues() && BiasGrouped(s)[i] !in ELSE_LABELS
    ensures s[i] !in BiasedValues() && s[i] !in ELSE_LABELS ==> BiasGrouped(s)[i] == s[i]
  {
    ElseNormalisedAt(s, i);
  }

  /** The bias grouping is idempotent. */
  lemma BiasGroupedIdempotent(s: seq<string>)
    ensures BiasGrouped(BiasGrouped(s)) == BiasGrouped(s)
  {
    var once := BiasGrouped(s);
    var twice := BiasGrouped(once);
    assert |twice| == |once| == |s|;
    forall i | 0 <= i < |s| ensures twice[i] == once[i] {
      BiasGroupedAt(s, i);
      BiasGroupedAt(once, i);
    }
  }

  /** For Bias-task input, the bias grouping leaves only Biased, Unbiased and Un/NA. */
  lemma BiasGroupedLabels(s: seq<string>)
    requires forall i :: 0 <= i < |s| ==> s[i] in BIAS_VALUES
    ensures forall l :: l in BiasGrouped(s) ==> l == BIASED || l == UNBIASED || l == UN_NA
  {
    forall l | l in BiasGrouped(s) ensures l == BIASED || l == UNBIASED || l == UN_NA {
      var i :| 0 <= i < |BiasGrouped(s)| && BiasGrouped(s)[i] == l;
      BiasGroupedAt(s, i);
    }
  }
}
