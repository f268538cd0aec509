/** The pair enumerator: unique group keys, their ordered 2-permutations, the
    same-batch filter and the loop that scores each surviving pair
    (get_metrics.py, get_team_main_metrics and get_team_iaa_metrics up to the loop). */
module Pairs {
  import opened Base
  import opened Table
  import opened Metrics
  import opened Scores

  /** The two record types the pipeline compares. */
  datatype Kind = Main | Iaa

  function TypeName(kind: Kind): string
  {
    match kind
    case Main => "MAIN"
    case Iaa => "IAA"
  }

  /** The key columns of one row: team_name and batch, with sheet_type for IAA. */
  function KeyOf(kind: Kind, x: Record): GroupKey
  {
    match kind
    case Main => GroupKey(x.team, x.batch, None)
    case Iaa => GroupKey(x.team, x.batch, Some(x.sheet))
  }

  /** The key columns of the rows of one type, in table order, duplicates kept. */
  function TypedKeys(table: seq<Record>, kind: Kind): (ks: seq<GroupKey>)
    ensures forall k :: k in ks <==> exists x :: x in table && x.rtype == TypeName(kind) && KeyOf(kind, x) == k
  {
    if table == [] then []
    else
      var rest := TypedKeys(table[..|table| - 1], kind);
      var last := table[|table| - 1];
      assert table == table[..|table| - 1] + [last];
      if last.rtype == TypeName(kind) then rest + [KeyOf(kind, last)] else rest
  }

  predicate NoDuplicates(s: seq<GroupKey>)
  {
    forall i, j :: 0 <= i < j < |s| ==> s[i] != s[j]
  }

  /** drop_duplicates: the first occurrence of every key, in order. */
  function Dedup(s: seq<GroupKey>): (r: seq<GroupKey>)
    ensures forall k :: k in r <==> k in s
    ensures NoDuplicates(r)
  {
    if s == [] then []
    else
      var d := Dedup(s[..|s| - 1]);
      var last := s[|s| - 1];
      assert s == s[..|s| - 1] + [last];
      if last in d then d else d + [last]
  }

  /** The position of the first occurrence of k in s. */
  function FirstIndex(s: seq<GroupKey>, k: GroupKey): (i: nat)
    requires k in s
    ensures i < |s| && s[i] == k
    ensures forall j :: 0 <= j < i ==> s[j] != k
  {
    if s[0] == k then 0 else 1 + FirstIndex(s[1..], k)
  }

  /** A key already present in a prefix has its first occurrence there. */
  lemma FirstIndexInPrefix(s: seq<GroupKey>, m: nat, k: GroupKey)
    requires m <= |s| && k in s[..m]
    ensures FirstIndex(s, k) == FirstIndex(s[..m], k)
  {
  }

  /** drop_duplicates keeps first-occurrence order: the kept keys appear in the order in
      which each first occurs in the input. */
  lemma {:induction false} DedupFirstOccurrenceOrder(s: seq<GroupKey>)
    ensures forall i, j :: 0 <= i < j < |Dedup(s)| ==> FirstIndex(s, Dedup(s)[i]) < FirstIndex(s, Dedup(s)[j])
  {
    if s != [] {
      var p := s[..|s| - 1];
      var last := s[|s| - 1];
      var d := Dedup(p);
      DedupFirstOccurrenceOrder(p);
      assert s[..|s| - 1] == p;
      forall x | x in d ensures FirstIndex(s, x) == FirstIndex(p, x) {
        FirstIndexInPrefix(s, |s| - 1, x);
      }
      if last !in d {
        assert last !in p;
        assert FirstIndex(s, last) == |s| - 1;
        assert Dedup(s) == d + [last];
        forall i, j | 0 <= i < j < |Dedup(s)|
          ensures FirstIndex(s, Dedup(s)[i]) < FirstIndex(s, Dedup(s)[j])
        {
          assert Dedup(s)[i] == d[i];
          if j < |d| {
            assert Dedup(s)[j] == d[j];
          }
        }
      }
    }
  }

  /** The unique group keys of one record type: [[..]].drop_duplicates(). */
  function GroupKeys(table: seq<Record>, kind: Kind): (keys: seq<GroupKey>)
    ensures NoDuplicates(keys)
    ensures forall k :: k in keys <==> exists x :: x in table && x.rtype == TypeName(kind) && KeyOf(kind, x) == k
  {
    Dedup(TypedKeys(table, kind))
  }

  /** The pairs (keys[i], keys[j]) for j below bound and j != i, in increasing j. */
  function PairsFrom(keys: seq<GroupKey>, i: nat, bound: nat): seq<Pair>
    requires i < |keys| && bound <= |keys|
  {
    if bound == 0 then []
    else
      var rest := PairsFrom(keys, i, bound - 1);
      if bound - 1 == i then rest else rest + [(keys[i], keys[bound - 1])]
  }

  /** PairsFrom skips only position i itself. */
  lemma {:induction false} PairsFromLength(keys: seq<GroupKey>, i: nat, bound: nat)
    requires i < |keys| && bound <= |keys|
    ensures |PairsFrom(keys, i, bound)| == if i < bound then bound - 1 else bound
  {
    if bound != 0 {
      PairsFromLength(keys, i, bound - 1);
    }
  }

  /** PairsFrom pairs keys[i] with every other position below bound. */
  lemma {:induction false} PairsFromMembers(keys: seq<GroupKey>, i: nat, bound: nat)
    requires i < |keys| && bound <= |keys|
    ensures forall p :: p in PairsFrom(keys, i, bound) <==> exists j :: 0 <= j < bound && j != i && p == (keys[i], keys[j])
  {
    if bound != 0 {
      PairsFromMembers(keys, i, bound - 1);
    }
  }

  /** The ordered 2-permutations whose first position is below bound, in the order
      itertools.permutations yields them. */
  function PermutationsUpTo(keys: seq<GroupKey>, bound: nat): seq<Pair>
    requires bound <= |keys|
  {
    if bound == 0 then []
    else PermutationsUpTo(keys, bound - 1) + PairsFrom(keys, bound - 1, |keys|)
  }

  lemma MulStep(b: nat, m: nat)
    requires b > 0
    ensures b * m == (b - 1) * m + m
  {
  }

  /** Each of the first bound positions is paired with the |keys| - 1 others. */
  lemma {:induction false} PermutationsUpToLength(keys: seq<GroupKey>, bound: nat)
    requires bound <= |keys|
    ensures |PermutationsUpTo(keys, bound)| == bound * (|keys| - 1)
  {
    if bound != 0 {
      var rest, row := PermutationsUpTo(keys, bound - 1), PairsFrom(keys, bound - 1, |keys|);
      PermutationsUpToLength(keys, bound - 1);
      PairsFromLength(keys, bound - 1, |keys|);
      assert |rest + row| == (bound - 1) * (|keys| - 1) + (|keys| - 1);
      MulStep(bound, |keys| - 1);
    }
  }

  /** The pairs with first position below bound are exactly those enumerated. */
  lemma {:induction false} PermutationsUpToMembers(keys: seq<GroupKey>, bound: nat)
    requires bound <= |keys|
    ensures forall p :: p in PermutationsUpTo(keys, bound) <==>
      exists i, j :: 0 <= i < bound && 0 <= j < |keys| && i != j && p == (keys[i], keys[j])
  {
    if bound != 0 {
      var rest, row := PermutationsUpTo(keys, bound - 1), PairsFrom(keys, bound - 1, |keys|);
      PermutationsUpToMembers(keys, bound - 1);
      PairsFromMembers(keys, bound - 1, |keys|);
      assert PermutationsUpTo(keys, bound) == rest + row;
      forall p | exists i, j :: 0 <= i < bound && 0 <= j < |keys| && i != j && p == (keys[i], keys[j])
        ensures p in rest + row
      {
        var i, j :| 0 <= i < bound && 0 <= j < |keys| && i != j && p == (keys[i], keys[j]);
        if i == bound - 1 {
          assert p in row;
        } else {
          assert p in rest;
        }
      }
    }
  }

  /** itertools.permutations(keys, 2): every ordered pair of distinct positions. */
  function Permutations(keys: seq<GroupKey>): seq<Pair>
  {
    PermutationsUpTo(keys, |keys|)
  }

  /** There are n * (n - 1) permutations of n keys, and they are exactly the ordered
      pairs of two distinct positions. */
  lemma PermutationsSpec(keys: seq<GroupKey>)
    ensures |Permutations(keys)| == |keys| * (|keys| - 1)
    ensures forall p :: p in Permutations(keys) <==>
      exists i, j :: 0 <= i < |keys| && 0 <= j < |keys| && i != j && p == (keys[i], keys[j])
  {
    PermutationsUpToLength(keys, |keys|);
    PermutationsUpToMembers(keys, |keys|);
  }

  /** The pairs the loop does not skip: both keys from the same batch, in order. */
  function SameBatch(ps: seq<Pair>): seq<Pair>
  {
    if ps == [] then []
    else
      var rest := SameBatch(ps[..|ps| - 1]);
      var last := ps[|ps| - 1];
      if last.0.batch == last.1.batch then rest + [last] else rest
  }

  /** The filter keeps exactly the pairs whose two keys share a batch, and drops the others. */
  lemma {:induction false} SameBatchMembers(ps: seq<Pair>)
    ensures |SameBatch(ps)| <= |ps|
    ensures forall p :: p in SameBatch(ps) <==> p in ps && p.0.batch == p.1.batch
  {
    if ps != [] {
      SameBatchMembers(ps[..|ps| - 1]);
      assert ps == ps[..|ps| - 1] + [ps[|ps| - 1]];
    }
  }

  lemma {:induction false} SameBatchAppend(a: seq<Pair>, b: seq<Pair>)
    ensures SameBatch(a + b) == SameBatch(a) + SameBatch(b)
  {
    if b == [] {
      assert a + b == a;
    } else {
      var b' := b[..|b| - 1];
      SameBatchAppend(a, b');
      assert (a + b)[..|a + b| - 1] == a + b';
      assert (a + b)[|a + b| - 1] == b[|b| - 1];
    }
  }

  /** The pairs scored for a list of unique keys. */
  function CandidatePairs(keys: seq<GroupKey>): seq<Pair>
  {
    SameBatch(Permutations(keys))
  }

  /** Every scored pair joins two different keys of the same batch, its reverse is
      scored too, and every such two keys are scored as a pair. */
  lemma CandidatePairsSound(keys: seq<GroupKey>)
    requires NoDuplicates(keys)
    ensures forall p :: p in CandidatePairs(keys) ==>
      && p.0.batch == p.1.batch && p.0 != p.1 && p.0 in keys && p.1 in keys
      && (p.1, p.0) in CandidatePairs(keys)
    ensures forall a, b :: a in keys && b in keys && a != b && a.batch == b.batch ==> (a, b) in CandidatePairs(keys)
  {
    var ps := Permutations(keys);
    PermutationsSpec(keys);
    SameBatchMembers(ps);
    forall p | p in CandidatePairs(keys)
      ensures p.0 != p.1 && p.0 in keys && p.1 in keys && (p.1, p.0) in CandidatePairs(keys)
    {
      var i, j :| 0 <= i < |keys| && 0 <= j < |keys| && i != j && p == (keys[i], keys[j]);
      assert (keys[j], keys[i]) in ps;
    }
    forall a, b | a in keys && b in keys && a != b && a.batch == b.batch
      ensures (a, b) in CandidatePairs(keys)
    {
      var i :| 0 <= i < |keys| && keys[i] == a;
      var j :| 0 <= j < |keys| && keys[j] == b;
      assert (keys[i], keys[j]) in ps;
    }
  }

  const WITHIN_TEAM: string := "within_team"
  const ACROSS_TEAM: string := "across_team"

  /** One pairwise output row: the identifying columns and the merged score mappings.
      MAIN rows carry no annotator columns (None). */
  datatype PairRow = PairRow(
    sType: string, metrics: string, batch: string,
    team1: string, annot1: Option<Cell>, team2: string, annot2: Option<Cell>,
    scores: map<string, Metric>)

  /** The IAA classification of a pair by its team names. */
  function Classify(pair: Pair): string
  {
    if pair.0.team != pair.1.team then ACROSS_TEAM else WITHIN_TEAM
  }

  /** The row built from a pair and its two task results: an exception from either task
      propagates (Bias is scored first); otherwise the pair details and the merged
      mappings. MAIN rows get the metrics column across_team, which the source assigns
      to the whole frame. */
  function BuildRow(kind: Kind, pair: Pair, bias: Result<map<string, Metric>>, prop: Result<map<string, Metric>>): (r: Result<PairRow>)
    ensures r.Fail? <==> bias.Fail? || prop.Fail?
    ensures bias.Fail? ==> r == Fail(bias.error)
    ensures r.Ok? ==>
      && r.value.sType == TypeName(kind) && r.value.batch == pair.0.batch
      && r.value.team1 == pair.0.team && r.value.team2 == pair.1.team
      && (r.value.metrics == WITHIN_TEAM <==> kind == Iaa && pair.0.team == pair.1.team)
      && (r.value.metrics == ACROSS_TEAM <==> kind == Main || pair.0.team != pair.1.team)
      && (kind == Iaa ==> r.value.annot1 == pair.0.sheet && r.value.annot2 == pair.1.sheet)
      && (kind == Main ==> r.value.annot1 == None && r.value.annot2 == None)
      && r.value.scores == bias.value + prop.value
  {
    if bias.Fail? then Fail(bias.error)
    else if prop.Fail? then Fail(prop.error)
    else
      var scores := bias.value + prop.value;
      match kind
      case Main => Ok(PairRow(TypeName(kind), ACROSS_TEAM, pair.0.batch, pair.0.team, None, pair.1.team, None, scores))
      case Iaa => Ok(PairRow(TypeName(kind), Classify(pair), pair.0.batch, pair.0.team, pair.0.sheet, pair.1.team, pair.1.sheet, scores))
  }

  /** One iteration of the scoring loop on a pair it does not skip: the pair details,
      the Bias scores, then the Propaganda scores, merged into one row. */
  function RowFor(table: seq<Record>, kind: Kind, pair: Pair): Result<PairRow>
  {
    BuildRow(kind, pair, PairBiasScore(table, TypeName(kind), pair), PairPropScore(table, TypeName(kind), pair))
  }

  /** Merging a task mapping that is empty or has exactly its task's keys: the merged
      columns hold each task's keys exactly when that task was scored. */
  lemma MergedColumns(bias: map<string, Metric>, prop: map<string, Metric>)
    requires bias == map[] || bias.Keys == BIAS_KEYS
    requires prop == map[] || prop.Keys == PROP_KEYS
    ensures (bias + prop).Keys <= BIAS_KEYS + PROP_KEYS
    ensures BIAS_KEYS <= (bias + prop).Keys <==> bias != map[]
    ensures PROP_KEYS <= (bias + prop).Keys <==> prop != map[]
  {
    assert "bias_accuracy" in BIAS_KEYS && "bias_accuracy" !in PROP_KEYS;
    assert "propaganda_accuracy" in PROP_KEYS && "propaganda_accuracy" !in BIAS_KEYS;
    if bias == map[] {
      assert "bias_accuracy" !in (bias + prop).Keys;
    }
    if prop == map[] {
      assert "propaganda_accuracy" !in (bias + prop).Keys;
    }
  }

  /** The numeric columns of a row: the four Bias keys exactly when both Bias slices
      are non-empty, the four Propaganda keys exactly when both Propaganda slices are,
      and nothing else. */
  lemma RowScoreColumns(table: seq<Record>, kind: Kind, pair: Pair)
    requires RowFor(table, kind, pair).Ok?
    ensures var b := PairLabels(table, TypeName(kind), pair, "Bias");
            var p := PairLabels(table, TypeName(kind), pair, "Propaganda");
            var keys := RowFor(table, kind, pair).value.scores.Keys;
            && keys <= BIAS_KEYS + PROP_KEYS
            && (BIAS_KEYS <= keys <==> |b.0| != 0 && |b.1| != 0)
            && (PROP_KEYS <= keys <==> |p.0| != 0 && |p.1| != 0)
  {
    var bias := PairBiasScore(table, TypeName(kind), pair);
    var prop := PairPropScore(table, TypeName(kind), pair);
    PairBiasScoreSpec(table, TypeName(kind), pair);
    PairPropScoreSpec(table, TypeName(kind), pair);
    MergedColumns(bias.value, prop.value);
  }

  /** The outcomes of a run of steps collected in order: all the rows, or the first
      exception raised. */
  function Collect(outcomes: seq<Result<PairRow>>): Result<seq<PairRow>>
  {
    if outcomes == [] then Ok([])
    else
      match Collect(outcomes[..|outcomes| - 1])
      case Fail(e) => Fail(e)
      case Ok(rows) =>
        match outcomes[|outcomes| - 1]
        case Fail(e) => Fail(e)
        case Ok(row) => Ok(rows + [row])
  }

  /** On success there is one row per outcome. */
  lemma {:induction false} CollectLength(outcomes: seq<Result<PairRow>>)
    requires Collect(outcomes).Ok?
    ensures |Collect(outcomes).value| == |outcomes|
  {
    if outcomes != [] {
      CollectLength(outcomes[..|outcomes| - 1]);
    }
  }

  /** On success, the k-th row is the k-th outcome's row: rows keep step order. */
  lemma {:induction false} CollectAt(outcomes: seq<Result<PairRow>>, k: nat)
    requires Collect(outcomes).Ok? && k < |outcomes|
    ensures |Collect(outcomes).value| == |outcomes|
    ensures outcomes[k] == Ok(Collect(outcomes).value[k])
  {
    var front := outcomes[..|outcomes| - 1];
    CollectLength(outcomes);
    CollectLength(front);
    if k < |front| {
      CollectAt(front, k);
    }
  }

  /** A step that raises makes the whole run raise. */
  lemma {:induction false} CollectFailAt(outcomes: seq<Result<PairRow>>, k: nat)
    requires k < |outcomes| && outcomes[k].Fail?
    ensures Collect(outcomes).Fail?
  {
    var front := outcomes[..|outcomes| - 1];
    if k < |front| {
      CollectFailAt(front, k);
    }
  }

  /** A run raises only because some step raises. */
  lemma {:induction false} CollectFailWitness(outcomes: seq<Result<PairRow>>) returns (k: nat)
    requires Collect(outcomes).Fail?
    ensures k < |outcomes| && outcomes[k].Fail?
  {
    var front := outcomes[..|outcomes| - 1];
    if Collect(front).Fail? {
      k := CollectFailWitness(front);
    } else {
      k := |outcomes| - 1;
    }
  }

  /** Once a step has raised, later steps change nothing: the exception propagates. */
  lemma {:induction false} CollectFailExtends(a: seq<Result<PairRow>>, b: seq<Result<PairRow>>)
    requires Collect(a).Fail?
    ensures Collect(a + b) == Collect(a)
  {
    if b == [] {
      assert a + b == a;
    } else {
      CollectFailExtends(a, b[..|b| - 1]);
      assert (a + b)[..|a + b| - 1] == a + b[..|b| - 1];
    }
  }

  /** Collecting one more outcome: an Ok row is appended, a Fail is the result. */
  lemma CollectSnoc(outcomes: seq<Result<PairRow>>, o: Result<PairRow>, rows: seq<PairRow>)
    requires Collect(outcomes) == Ok(rows)
    ensures Collect(outcomes + [o]) == if o.Ok? then Ok(rows + [o.value]) else Fail(o.error)
  {
    assert (outcomes + [o])[..|outcomes|] == outcomes;
  }

  /** The loop body as a value: the row outcome of one pair. */
  function Scorer(table: seq<Record>, kind: Kind): Pair -> Result<PairRow>
  {
    pair => RowFor(table, kind, pair)
  }

  /** The outcome of every pair under one scoring step, in order. */
  function Outcomes(score: Pair -> Result<PairRow>, ps: seq<Pair>): (os: seq<Result<PairRow>>)
    ensures |os| == |ps|
  {
    if ps == [] then []
    else Outcomes(score, ps[..|ps| - 1]) + [score(ps[|ps| - 1])]
  }

  /** The k-th outcome is the outcome of the k-th pair. */
  lemma {:induction false} OutcomesAt(score: Pair -> Result<PairRow>, ps: seq<Pair>, k: nat)
    requires k < |ps|
    ensures Outcomes(score, ps)[k] == score(ps[k])
  {
    var front := ps[..|ps| - 1];
    if k < |front| {
      OutcomesAt(score, front, k);
      assert ps[k] == front[k];
    }
  }

  /** Scoring one more pair appends its outcome. */
  lemma OutcomesSnoc(score: Pair -> Result<PairRow>, ps: seq<Pair>, p: Pair)
    ensures Outcomes(score, ps + [p]) == Outcomes(score, ps) + [score(p)]
  {
    assert (ps + [p])[..|ps|] == ps;
  }

  /** Scoring a concatenation scores both parts. */
  lemma {:induction false} OutcomesAppend(score: Pair -> Result<PairRow>, a: seq<Pair>, b: seq<Pair>)
    ensures Outcomes(score, a + b) == Outcomes(score, a) + Outcomes(score, b)
  {
    if b == [] {
      assert a + b == a;
    } else {
      var front, last := b[..|b| - 1], b[|b| - 1];
      assert (a + b)[..|a + b| - 1] == a + front;
      calc {
        Outcomes(score, a + b);
        Outcomes(score, a + front) + [score(last)];
        { OutcomesAppend(score, a, front); }
        (Outcomes(score, a) + Outcomes(score, front)) + [score(last)];
        Outcomes(score, a) + (Outcomes(score, front) + [score(last)]);
        Outcomes(score, a) + Outcomes(score, b);
      }
    }
  }

  /** The rows of a sequence of pairs scored in order, or the first exception raised. */
  function PairRowsOf(table: seq<Record>, kind: Kind, ps: seq<Pair>): Result<seq<PairRow>>
  {
    Collect(Outcomes(Scorer(table, kind), ps))
  }

  /** On success, one row per pair, the k-th being the row of the k-th pair. */
  lemma PairRowsOfAt(table: seq<Record>, kind: Kind, ps: seq<Pair>, k: nat)
    requires PairRowsOf(table, kind, ps).Ok? && k < |ps|
    ensures |PairRowsOf(table, kind, ps).value| == |ps|
    ensures RowFor(table, kind, ps[k]) == Ok(PairRowsOf(table, kind, ps).value[k])
  {
    CollectAt(Outcomes(Scorer(table, kind), ps), k);
    OutcomesAt(Scorer(table, kind), ps, k);
  }

  /** A pair whose row raises makes the whole loop raise, and the loop raises only
      because some pair's row raises. */
  lemma PairRowsOfFails(table: seq<Record>, kind: Kind, ps: seq<Pair>)
    ensures PairRowsOf(table, kind, ps).Fail? <==> exists k :: 0 <= k < |ps| && RowFor(table, kind, ps[k]).Fail?
  {
    var os := Outcomes(Scorer(table, kind), ps);
    if Collect(os).Fail? {
      var k := CollectFailWitness(os);
      OutcomesAt(Scorer(table, kind), ps, k);
    }
    forall k | 0 <= k < |ps| && RowFor(table, kind, ps[k]).Fail?
      ensures Collect(os).Fail?
    {
      OutcomesAt(Scorer(table, kind), ps, k);
      CollectFailAt(os, k);
    }
  }

  /** A loop step over a pair from two batches: the pairs scored so far stay as they are. */
  lemma ScoreStepSkip(pairs: seq<Pair>, k: nat)
    requires k < |pairs| && pairs[k].0.batch != pairs[k].1.batch
    ensures SameBatch(pairs[..k + 1]) == SameBatch(pairs[..k])
  {
    assert pairs[..k + 1][..k] == pairs[..k];
  }

  /** A loop step over a same-batch pair: its outcome is collected after the rows
      so far, an Ok row appended and a Fail the result. */
  lemma ScoreStepKeep(score: Pair -> Result<PairRow>, pairs: seq<Pair>, k: nat, rows: seq<PairRow>)
    requires k < |pairs| && pairs[k].0.batch == pairs[k].1.batch
    requires Collect(Outcomes(score, SameBatch(pairs[..k]))) == Ok(rows)
    ensures var o := score(pairs[k]);
            Collect(Outcomes(score, SameBatch(pairs[..k + 1]))) == if o.Ok? then Ok(rows + [o.value]) else Fail(o.error)
  {
    assert pairs[..k + 1][..k] == pairs[..k];
    assert SameBatch(pairs[..k + 1]) == SameBatch(pairs[..k]) + [pairs[k]];
    OutcomesSnoc(score, SameBatch(pairs[..k]), pairs[k]);
    CollectSnoc(Outcomes(score, SameBatch(pairs[..k])), score(pairs[k]), rows);
  }

  /** Once the loop has raised on the pairs a, the pairs b after them change nothing. */
  lemma ScoreStopsAfter(score: Pair -> Result<PairRow>, a: seq<Pair>, b: seq<Pair>)
    requires Collect(Outcomes(score, SameBatch(a))).Fail?
    ensures Collect(Outcomes(score, SameBatch(a + b))) == Collect(Outcomes(score, SameBatch(a)))
  {
    SameBatchAppend(a, b);
    OutcomesAppend(score, SameBatch(a), SameBatch(b));
    CollectFailExtends(Outcomes(score, SameBatch(a)), Outcomes(score, SameBatch(b)));
  }

  /** The loop of get_team_main_metrics / get_team_iaa_metrics: walk the permutations
      of the keys, skip pairs from different batches, append one row per other pair;
      an exception while scoring ends the loop. */
  method ScorePairs(table: seq<Record>, kind: Kind, keys: seq<GroupKey>) returns (r: Result<seq<PairRow>>)
    ensures r == PairRowsOf(table, kind, CandidatePairs(keys))
  {
    var pairs := Permutations(keys);
    var rows: seq<PairRow> := [];
    for k := 0 to |pairs|
      invariant Collect(Outcomes(Scorer(table, kind), SameBatch(pairs[..k]))) == Ok(rows)
    {
      var pair := pairs[k];
      if pair.0.batch != pair.1.batch {
        ScoreStepSkip(pairs, k);
        continue;
      }
      ScoreStepKeep(Scorer(table, kind), pairs, k, rows);
      var row := RowFor(table, kind, pair);
      if row.Fail? {
        assert pairs == pairs[..k + 1] + pairs[k + 1..];
        ScoreStopsAfter(Scorer(table, kind), pairs[..k + 1], pairs[k + 1..]);
        return Fail(row.error);
      }
      rows := rows + [row.value];
    }
    assert pairs[..|pairs|] == pairs;
    r := Ok(rows);
  }

  /** The rows get_team_iaa_metrics builds, as a value. */
  function IaaPairRows(table: seq<Record>): Result<seq<PairRow>>
  {
    PairRowsOf(table, Iaa, CandidatePairs(GroupKeys(table, Iaa)))
  }

  /** The rows the MAIN loop of get_team_main_metrics builds, as a value. */
  function MainPairRows(table: seq<Record>): Result<seq<PairRow>>
  {
    PairRowsOf(table, Main, CandidatePairs(GroupKeys(table, Main)))
  }

  /** A scored IAA pair is within_team exactly when both sides name the same team, and
      two sides of the same team are then two different annotator sheets. */
  lemma IaaRowsClassified(table: seq<Record>)
    requires IaaPairRows(table).Ok?
    ensures forall row :: row in IaaPairRows(table).value ==>
      && row.sType == "IAA"
      && (row.metrics == WITHIN_TEAM <==> row.team1 == row.team2)
      && (row.metrics == ACROSS_TEAM <==> row.team1 != row.team2)
      && (row.team1 == row.team2 ==> row.annot1 != row.annot2)
  {
    var keys := GroupKeys(table, Iaa);
    var ps := CandidatePairs(keys);
    var rows := IaaPairRows(table).value;
    CandidatePairsSound(keys);
    CollectLength(Outcomes(Scorer(table, Iaa), ps));
    forall row | row in rows
      ensures && row.sType == "IAA"
              && (row.metrics == WITHIN_TEAM <==> row.team1 == row.team2)
              && (row.metrics == ACROSS_TEAM <==> row.team1 != row.team2)
              && (row.team1 == row.team2 ==> row.annot1 != row.annot2)
    {
      var k :| 0 <= k < |rows| && rows[k] == row;
      PairRowsOfAt(table, Iaa, ps, k);
      assert ps[k] in ps;
    }
  }

  /** Two MAIN keys of one batch always name different teams, so every MAIN row
      compares two teams and is rightly labelled across_team. */
  lemma MainRowsAcrossTeams(table: seq<Record>)
    requires MainPairRows(table).Ok?
    ensures forall row :: row in MainPairRows(table).value ==>
      row.sType == "MAIN" && row.metrics == ACROSS_TEAM && row.team1 != row.team2
  {
    var keys := GroupKeys(table, Main);
    var ps := CandidatePairs(keys);
    var rows := MainPairRows(table).value;
    CandidatePairsSound(keys);
    CollectLength(Outcomes(Scorer(table, Main), ps));
    forall row | row in rows
      ensures row.sType == "MAIN" && row.metrics == ACROSS_TEAM && row.team1 != row.team2
    {
      var k :| 0 <= k < |rows| && rows[k] == row;
      PairRowsOfAt(table, Main, ps, k);
      assert ps[k] in ps;
      assert ps[k].0 in keys && ps[k].1 in keys;
    }
  }

  /** get_team_iaa_metrics: the IAA pairwise rows, built by the loop of ScorePairs.
      The procedure the program runs; IaaPairRows is its value, which the output table
      and the lemmas use, since they cannot call a method. */
  method TeamIaaMetrics(table: seq<Record>) returns (r: Result<seq<PairRow>>)
    ensures r == IaaPairRows(table)
    ensures r.Ok? ==> forall row :: row in r.value ==> row.sType == "IAA" && (row.metrics == WITHIN_TEAM <==> row.team1 == row.team2)
  {
    var keys := GroupKeys(table, Iaa);
    r := ScorePairs(table, Iaa, keys);
    if r.Ok? {
      IaaRowsClassified(table);
    }
  }
}
