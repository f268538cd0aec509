/** The aggregator and the output assembly: which pairwise rows enter each averaged
    group, the within-team / across-team split of the IAA rows, and the order of the
    output sections (get_metrics.py, the tail of get_team_main_metrics,
    get_within_team_avgs, get_across_team_avgs and the main block). */
module Report {
  import opened Base
  import opened Table
  import opened Pairs

  /** A groupby key of the averaging passes: (s_type, team_1). */
  datatype TeamGroup = TeamGroup(sType: string, team1: string)

  function GroupOf(row: PairRow): TeamGroup
  {
    TeamGroup(row.sType, row.team1)
  }

  /** The rows of one group, in row order. */
  function Members(rows: seq<PairRow>, g: TeamGroup): (r: seq<PairRow>)
    ensures |r| <= |rows|
    ensures forall x :: x in r <==> x in rows && GroupOf(x) == g
  {
    if rows == [] then []
    else
      var rest := Members(rows[..|rows| - 1], g);
      var last := rows[|rows| - 1];
      assert rows == rows[..|rows| - 1] + [last];
      if GroupOf(last) == g then rest + [last] else rest
  }

  /** groupby(['s_type', 'team_1']): the groups present in the rows, each with the rows
      that enter its mean. Every row enters exactly one group and no group is empty. */
  function GroupByTeam(rows: seq<PairRow>): (groups: map<TeamGroup, seq<PairRow>>)
    ensures forall x :: x in rows ==> GroupOf(x) in groups && x in groups[GroupOf(x)]
    ensures forall g, x :: g in groups && x in groups[g] ==> x in rows && GroupOf(x) == g
    ensures forall g :: g in groups ==> groups[g] != []
  {
    var keys := set x | x in rows :: GroupOf(x);
    var groups := map g | g in keys :: Members(rows, g);
    assert forall g :: g in groups ==> groups[g] != [] by {
      forall g | g in groups ensures groups[g] != [] {
        var x :| x in rows && GroupOf(x) == g;
        assert x in groups[g];
      }
    }
    groups
  }

  /** The row filter of get_within_team_avgs: team_2 == team_1, in row order. */
  function WithinTeamRows(rows: seq<PairRow>): (r: seq<PairRow>)
    ensures |r| <= |rows|
    ensures forall x :: x in r <==> x in rows && x.team1 == x.team2
  {
    if rows == [] then []
    else
      var rest := WithinTeamRows(rows[..|rows| - 1]);
      var last := rows[|rows| - 1];
      assert rows == rows[..|rows| - 1] + [last];
      if last.team2 == last.team1 then rest + [last] else rest
  }

  /** The row filter of get_across_team_avgs: team_2 != team_1, in row order. */
  function AcrossTeamRows(rows: seq<PairRow>): (r: seq<PairRow>)
    ensures |r| <= |rows|
    ensures forall x :: x in r <==> x in rows && x.team1 != x.team2
  {
    if rows == [] then []
    else
      var rest := AcrossTeamRows(rows[..|rows| - 1]);
      var last := rows[|rows| - 1];
      assert rows == rows[..|rows| - 1] + [last];
      if last.team2 != last.team1 then rest + [last] else rest
  }

  /** The two filters split the rows: each row, with its multiplicity, goes to exactly
      one side. */
  lemma {:induction false} WithinAcrossPartition(rows: seq<PairRow>)
    ensures multiset(WithinTeamRows(rows)) + multiset(AcrossTeamRows(rows)) == multiset(rows)
    ensures |WithinTeamRows(rows)| + |AcrossTeamRows(rows)| == |rows|
  {
    if rows != [] {
      var p := rows[..|rows| - 1];
      WithinAcrossPartition(p);
      assert rows == p + [rows[|rows| - 1]];
    }
  }

  /** On the IAA rows the split follows the metrics column: within_team rows to one
      side, across_team rows to the other. */
  lemma IaaSplitFollowsClassification(table: seq<Record>)
    requires IaaPairRows(table).Ok?
    ensures var rows := IaaPairRows(table).value;
            && (forall x :: x in WithinTeamRows(rows) <==> x in rows && x.metrics == WITHIN_TEAM)
            && (forall x :: x in AcrossTeamRows(rows) <==> x in rows && x.metrics == ACROSS_TEAM)
  {
    IaaRowsClassified(table);
  }

  /** The error pandas raises when a frame built from no rows is grouped by s_type. */
  const NO_S_TYPE_COLUMN: string := "KeyError: 's_type'"
  /** The error pandas raises when a frame built from no rows is asked for team_2. */
  const NO_TEAM_2_COLUMN: string := "AttributeError: 'DataFrame' object has no attribute 'team_2'"

  /** The result of get_team_main_metrics: the pairwise rows followed by the per-team
      groups (metrics across_team_avg). */
  datatype MainMetrics = MainMetrics(pairRows: seq<PairRow>, teamAvgs: map<TeamGroup, seq<PairRow>>)

  /** get_team_main_metrics as a value. With no pair to score, the frame has no columns
      and grouping it raises. */
  function MainMetricsOf(table: seq<Record>): Result<MainMetrics>
  {
    match MainPairRows(table)
    case Fail(e) => Fail(e)
    case Ok(rows) =>
      if rows == [] then Fail(NO_S_TYPE_COLUMN)
      else Ok(MainMetrics(rows, GroupByTeam(rows)))
  }

  /** get_team_main_metrics: score the MAIN pairs with the loop of ScorePairs, then
      group them by (s_type, team_1). The procedure the program runs; MainMetricsOf is
      its value, which the output table and the lemmas use, since they cannot call a
      method. */
  method TeamMainMetrics(table: seq<Record>) returns (r: Result<MainMetrics>)
    ensures r == MainMetricsOf(table)
    ensures r.Ok? ==> r.value.pairRows != []
    ensures r.Ok? ==> forall row :: row in r.value.pairRows ==> row.metrics == ACROSS_TEAM && row.team1 != row.team2
    ensures r.Ok? ==> forall g :: g in r.value.teamAvgs ==> g.sType == "MAIN"
  {
    var keys := GroupKeys(table, Main);
    var rows := ScorePairs(table, Main, keys);
    if rows.Fail? {
      return Fail(rows.error);
    }
    if rows.value == [] {
      return Fail(NO_S_TYPE_COLUMN);
    }
    MainRowsAcrossTeams(table);
    var groups := GroupByTeam(rows.value);
    forall g | g in groups ensures g.sType == "MAIN" {
      var x :| x in groups[g];
    }
    r := Ok(MainMetrics(rows.value, groups));
  }

  /** get_within_team_avgs: the groups of the within-team rows. An empty IAA frame has
      no team_2 column and raises. */
  function WithinTeamAvgs(iaaRows: seq<PairRow>): (r: Result<map<TeamGroup, seq<PairRow>>>)
    ensures r.Fail? <==> iaaRows == []
    ensures r.Ok? ==> forall g, x :: g in r.value && x in r.value[g] ==>
      x in iaaRows && x.team1 == x.team2 && GroupOf(x) == g
    ensures r.Ok? ==> forall x :: x in iaaRows && x.team1 == x.team2 ==>
      GroupOf(x) in r.value && x in r.value[GroupOf(x)]
  {
    if iaaRows == [] then Fail(NO_TEAM_2_COLUMN) else Ok(GroupByTeam(WithinTeamRows(iaaRows)))
  }

  /** get_across_team_avgs: the groups of the across-team rows, with the same failure. */
  function AcrossTeamAvgs(iaaRows: seq<PairRow>): (r: Result<map<TeamGroup, seq<PairRow>>>)
    ensures r.Fail? <==> iaaRows == []
    ensures r.Ok? ==> forall g, x :: g in r.value && x in r.value[g] ==>
      x in iaaRows && x.team1 != x.team2 && GroupOf(x) == g
    ensures r.Ok? ==> forall x :: x in iaaRows && x.team1 != x.team2 ==>
      GroupOf(x) in r.value && x in r.value[GroupOf(x)]
  {
    if iaaRows == [] then Fail(NO_TEAM_2_COLUMN) else Ok(GroupByTeam(AcrossTeamRows(iaaRows)))
  }

  /** The output table, section by section in concatenation order: MAIN pairwise rows,
      MAIN team averages, IAA pairwise rows, IAA within-team averages, IAA across-team
      averages. */
  datatype MetricsTable = MetricsTable(
    main: MainMetrics,
    iaaPairRows: seq<PairRow>,
    withinTeamAvgs: map<TeamGroup, seq<PairRow>>,
    acrossTeamAvgs: map<TeamGroup, seq<PairRow>>)

  /** The main block: the MAIN metrics, the IAA rows, then their two averaging passes;
      the first exception ends the run. Every IAA row enters exactly one of the two
      averaging passes. */
  function MetricsTableOf(table: seq<Record>): (r: Result<MetricsTable>)
    ensures r.Fail? <==> MainMetricsOf(table).Fail? || IaaPairRows(table).Fail? || IaaPairRows(table) == Ok([])
    ensures r.Ok? ==> MainMetricsOf(table) == Ok(r.value.main) && IaaPairRows(table) == Ok(r.value.iaaPairRows)
    ensures r.Ok? ==> WithinTeamAvgs(r.value.iaaPairRows) == Ok(r.value.withinTeamAvgs)
    ensures r.Ok? ==> AcrossTeamAvgs(r.value.iaaPairRows) == Ok(r.value.acrossTeamAvgs)
    ensures r.Ok? ==> forall x :: x in r.value.iaaPairRows ==>
      var g := GroupOf(x);
      (g in r.value.withinTeamAvgs && x in r.value.withinTeamAvgs[g])
        != (g in r.value.acrossTeamAvgs && x in r.value.acrossTeamAvgs[g])
  {
    match MainMetricsOf(table)
    case Fail(e) => Fail(e)
    case Ok(main) =>
      match IaaPairRows(table)
      case Fail(e) => Fail(e)
      case Ok(iaa) =>
        match WithinTeamAvgs(iaa)
        case Fail(e) => Fail(e)
        case Ok(within) =>
          match AcrossTeamAvgs(iaa)
          case Fail(e) => Fail(e)
          case Ok(across) => Ok(MetricsTable(main, iaa, within, across))
  }

  /** An empty table has no MAIN pair to score, so the run raises instead of writing an
      empty table. */
  lemma EmptyTableRaises()
    ensures MetricsTableOf([]) == Fail(NO_S_TYPE_COLUMN)
  {
    assert GroupKeys([], Main) == [];
    assert CandidatePairs([]) == [];
  }
}
