/**
 * The team leaderboard: which attribute keys count as numeric metrics, per-team
 * averages of those metrics, and the view sorted by one metric.
 */
module Leaderboard {
  import opened Wrappers
  import opened JsValue
  import opened StringOrder
  import opened Seqs
  import opened StableSort

  /** A stored match record as the leaderboard selects it; `metrics` is None when null. */
  datatype Entry = Entry(teamNumber: int, metrics: Option<Attrs>, eventCode: string, season: int)

  /** `r.metrics || {}`. */
  function AttrsOf(e: Entry): Attrs {
    e.metrics.GetOr(map[])
  }

  /** `Number(m[k])` is not NaN; a missing key reads as `undefined`, whose number is NaN. */
  predicate NumericAt(m: Attrs, k: string, strNum: StrCoercion) {
    k in m && IsNumeric(m[k], strNum)
  }

  /** Some record holds `k` with a value that coerces to a number. */
  predicate IsMetric(rows: seq<Entry>, k: string, strNum: StrCoercion) {
    exists i :: 0 <= i < |rows| && NumericAt(AttrsOf(rows[i]), k, strNum)
  }

  lemma IsMetricSnoc(rows: seq<Entry>, i: nat, strNum: StrCoercion)
    requires i < |rows|
    ensures forall k :: (IsMetric(rows[..i + 1], k, strNum)
      <==> IsMetric(rows[..i], k, strNum) || NumericAt(AttrsOf(rows[i]), k, strNum))
  {
    assert rows[..i + 1][i] == rows[i];
    assert forall j :: 0 <= j < i ==> rows[..i + 1][j] == rows[..i][j];
  }

  /**
   * `numericMetrics`: every key that some record holds with a numeric value, each
   * once, in ascending string order.
   */
  method NumericMetrics(rows: seq<Entry>, strNum: StrCoercion) returns (list: seq<string>)
    ensures StrictlySorted(list)
    ensures forall k :: k in list <==> IsMetric(rows, k, strNum)
  {
    var found: set<string> := {};
    var i := 0;
    while i < |rows|
      invariant 0 <= i <= |rows|
      invariant forall k :: k in found <==> IsMetric(rows[..i], k, strNum)
    {
      var m := AttrsOf(rows[i]);
      var pending := m.Keys;
      ghost var before := found;
      while pending != {}
        invariant pending <= m.Keys
        invariant forall k :: k in found <==> k in before || (k in m.Keys - pending && IsNumeric(m[k], strNum))
        decreases |pending|
      {
        var k :| k in pending;
        if IsNumeric(m[k], strNum) {
          found := found + {k};
        }
        pending := pending - {k};
      }
      IsMetricSnoc(rows, i, strNum);
      i := i + 1;
    }
    assert rows[..|rows|] == rows;
    list := SortedListing(found);
  }

  /**
   * Since `Number(true)`, `Number(false)` and `Number("")` are numbers, a checkbox
   * value or a blank text value makes its key a metric.
   */
  lemma CheckboxAndBlankAreMetrics(rows: seq<Entry>, i: nat, k: string, strNum: StrCoercion)
    requires EmptyIsZero(strNum)
    requires i < |rows| && k in AttrsOf(rows[i])
    requires AttrsOf(rows[i])[k].Bool? || AttrsOf(rows[i])[k] == Str("")
    ensures IsMetric(rows, k, strNum)
  {
  }

  /** One row of `teamAverages`. */
  datatype TeamAvg = TeamAvg(team: int, count: nat, avgs: map<string, real>)

  /** The team number of each record, in record order. */
  function TeamsOf(rows: seq<Entry>): seq<int> {
    seq(|rows|, i requires 0 <= i < |rows| => rows[i].teamNumber)
  }

  /** The teams in the order a `Map` keyed by team number first meets them. */
  function TeamOrder(rows: seq<Entry>): seq<int> {
    Distinct(TeamsOf(rows))
  }

  /** What one record adds to its team's sum for `key`: its number, or 0 when NaN. */
  function Contribution(e: Entry, key: string, strNum: StrCoercion): real {
    if NumericAt(AttrsOf(e), key, strNum) then ToNumber(AttrsOf(e)[key], strNum).value else 0.0
  }

  /** The sum of the numeric `key` values of `team`'s records. */
  function MetricSum(rows: seq<Entry>, team: int, key: string, strNum: StrCoercion): real {
    if rows == [] then 0.0
    else
      var last := rows[|rows| - 1];
      MetricSum(rows[..|rows| - 1], team, key, strNum)
        + (if last.teamNumber == team then Contribution(last, key, strNum) else 0.0)
  }

  /** `rec.sums[key] || 0` divided by the team's record count (every record, numeric or not). */
  function Average(rows: seq<Entry>, team: int, key: string, strNum: StrCoercion): real
    requires team in TeamsOf(rows)
  {
    MetricSum(rows, team, key, strNum) / (Count(TeamsOf(rows), team) as real)
  }

  /** `r` is the leaderboard row of its team: record count, and an average for every metric. */
  ghost predicate IsAverageRow(rows: seq<Entry>, metrics: seq<string>, strNum: StrCoercion, r: TeamAvg) {
    && r.team in TeamsOf(rows)
    && r.count == Count(TeamsOf(rows), r.team)
    && (forall key :: key in r.avgs <==> key in metrics)
    && (forall key :: key in metrics ==> r.avgs[key] == Average(rows, r.team, key, strNum))
  }

  /** `rec.sums[key] || 0`. */
  function SumOrZero(sums: map<string, real>, key: string): real {
    if key in sums then sums[key] else 0.0
  }

  lemma MetricSumSnoc(rows: seq<Entry>, i: nat, team: int, key: string, strNum: StrCoercion)
    requires i < |rows|
    ensures MetricSum(rows[..i + 1], team, key, strNum)
         == MetricSum(rows[..i], team, key, strNum)
            + (if rows[i].teamNumber == team then Contribution(rows[i], key, strNum) else 0.0)
  {
    assert rows[..i + 1][..i] == rows[..i];
  }

  lemma {:induction false} MetricSumOfAbsent(rows: seq<Entry>, team: int, key: string, strNum: StrCoercion)
    requires team !in TeamsOf(rows)
    ensures MetricSum(rows, team, key, strNum) == 0.0
  {
    if rows != [] {
      var init := rows[..|rows| - 1];
      assert forall j :: 0 <= j < |init| ==> TeamsOf(init)[j] == TeamsOf(rows)[j];
      assert TeamsOf(rows)[|rows| - 1] == rows[|rows| - 1].teamNumber;
      MetricSumOfAbsent(init, team, key, strNum);
    }
  }

  /** Each team's record count is its number of records among `rows`. */
  ghost predicate CountsMatch(rows: seq<Entry>, counts: map<int, nat>) {
    && (forall t :: t in counts <==> t in TeamsOf(rows))
    && (forall t :: t in counts ==> counts[t] == Count(TeamsOf(rows), t))
  }

  /** Each team's sums are the sums of its numeric metric values among `rows`. */
  ghost predicate SumsMatch(rows: seq<Entry>, metrics: seq<string>, strNum: StrCoercion, sums: map<int, map<string, real>>) {
    forall t, q :: t in sums && 0 <= q < |metrics| ==>
      SumOrZero(sums[t], metrics[q]) == MetricSum(rows, t, metrics[q], strNum)
  }

  /**
   * The state `teamAverages` has built after reading `rows`: the teams in the order
   * the `Map` met them, and each team's record count and per-metric sums.
   */
  ghost predicate Accumulated(rows: seq<Entry>, metrics: seq<string>, strNum: StrCoercion,
                              teams: seq<int>, counts: map<int, nat>, sums: map<int, map<string, real>>) {
    && teams == Distinct(TeamsOf(rows))
    && counts.Keys == sums.Keys
    && CountsMatch(rows, counts)
    && SumsMatch(rows, metrics, strNum, sums)
  }

  lemma TeamsOfSnoc(rows: seq<Entry>, i: nat)
    requires i < |rows|
    ensures TeamsOf(rows[..i + 1]) == TeamsOf(rows[..i]) + [rows[i].teamNumber]
    ensures TeamsOf(rows[..i + 1])[..i] == TeamsOf(rows[..i])
  {
    assert TeamsOf(rows[..i + 1]) == TeamsOf(rows[..i]) + [rows[i].teamNumber];
  }

  lemma CountsStep(rows: seq<Entry>, i: nat, counts: map<int, nat>)
    requires i < |rows| && CountsMatch(rows[..i], counts)
    ensures var t := rows[i].teamNumber;
      CountsMatch(rows[..i + 1], counts[t := (if t in counts then counts[t] else 0) + 1])
  {
    var t := rows[i].teamNumber;
    TeamsOfSnoc(rows, i);
    forall t' ensures Count(TeamsOf(rows[..i + 1]), t') == Count(TeamsOf(rows[..i]), t') + (if t == t' then 1 else 0) {
      CountSnoc(TeamsOf(rows[..i]), t, t');
    }
  }

  lemma SumsStep(rows: seq<Entry>, i: nat, metrics: seq<string>, strNum: StrCoercion,
                 sums: map<int, map<string, real>>, rs: map<string, real>)
    requires i < |rows| && SumsMatch(rows[..i], metrics, strNum, sums)
    requires forall q :: 0 <= q < |metrics| ==>
      SumOrZero(rs, metrics[q]) == MetricSum(rows[..i + 1], rows[i].teamNumber, metrics[q], strNum)
    ensures SumsMatch(rows[..i + 1], metrics, strNum, sums[rows[i].teamNumber := rs])
  {
    forall t', q | t' in sums && t' != rows[i].teamNumber && 0 <= q < |metrics|
      ensures SumOrZero(sums[t'], metrics[q]) == MetricSum(rows[..i + 1], t', metrics[q], strNum)
    {
      MetricSumSnoc(rows, i, t', metrics[q], strNum);
    }
  }

  lemma TeamsStep(rows: seq<Entry>, i: nat, teams: seq<int>, counts: map<int, nat>)
    requires i < |rows| && teams == Distinct(TeamsOf(rows[..i])) && CountsMatch(rows[..i], counts)
    ensures var t := rows[i].teamNumber;
      (if t in counts then teams else teams + [t]) == Distinct(TeamsOf(rows[..i + 1]))
  {
    TeamsOfSnoc(rows, i);
    var t := rows[i].teamNumber;
    var xs := TeamsOf(rows[..i + 1]);
    assert xs[|xs| - 1] == t;
    assert t in teams <==> t in TeamsOf(rows[..i]);
  }

  /**
   * The inner loop of `teamAverages` for one record: each metric's sum grows by the
   * record's numeric value for it, if any.
   */
  method AddToSums(rs: map<string, real>, e: Entry, metrics: seq<string>, strNum: StrCoercion)
    returns (rs': map<string, real>)
    requires NoDups(metrics)
    ensures forall q :: 0 <= q < |metrics| ==>
      SumOrZero(rs', metrics[q]) == SumOrZero(rs, metrics[q]) + Contribution(e, metrics[q], strNum)
  {
    var m := AttrsOf(e);
    rs' := rs;
    var j := 0;
    while j < |metrics|
      invariant 0 <= j <= |metrics|
      invariant forall q :: 0 <= q < j ==>
        SumOrZero(rs', metrics[q]) == SumOrZero(rs, metrics[q]) + Contribution(e, metrics[q], strNum)
      invariant forall q :: j <= q < |metrics| ==> SumOrZero(rs', metrics[q]) == SumOrZero(rs, metrics[q])
    {
      var key := metrics[j];
      var val := if key in m then ToNumber(m[key], strNum) else None;
      if val.Some? {
        rs' := rs'[key := SumOrZero(rs', key) + val.value];
      }
      j := j + 1;
    }
  }

  /** One turn of the outer loop of `teamAverages`: record `rows[i]` joins its team. */
  method AddRecord(rows: seq<Entry>, i: nat, metrics: seq<string>, strNum: StrCoercion,
                   teams: seq<int>, counts: map<int, nat>, sums: map<int, map<string, real>>)
    returns (teams': seq<int>, counts': map<int, nat>, sums': map<int, map<string, real>>)
    requires i < |rows| && NoDups(metrics)
    requires Accumulated(rows[..i], metrics, strNum, teams, counts, sums)
    ensures Accumulated(rows[..i + 1], metrics, strNum, teams', counts', sums')
  {
    var t := rows[i].teamNumber;
    var rs: map<string, real> := if t in sums then sums[t] else map[];
    forall q | 0 <= q < |metrics|
      ensures SumOrZero(rs, metrics[q]) == MetricSum(rows[..i], t, metrics[q], strNum)
    {
      if t !in sums {
        TeamsOfSnoc(rows, i);
        MetricSumOfAbsent(rows[..i], t, metrics[q], strNum);
      }
    }
    TeamsStep(rows, i, teams, counts);
    teams' := if t in counts then teams else teams + [t];
    rs := AddToSums(rs, rows[i], metrics, strNum);
    forall q | 0 <= q < |metrics|
      ensures SumOrZero(rs, metrics[q]) == MetricSum(rows[..i + 1], t, metrics[q], strNum)
    {
      MetricSumSnoc(rows, i, t, metrics[q], strNum);
    }
    SumsStep(rows, i, metrics, strNum, sums, rs);
    CountsStep(rows, i, counts);
    counts' := counts[t := (if t in counts then counts[t] else 0) + 1];
    sums' := sums[t := rs];
  }

  /**
   * `teamAverages`: one row per team in order of first appearance, carrying the
   * team's record count and, for every metric, its average over all its records.
   */
  method TeamAverages(rows: seq<Entry>, metrics: seq<string>, strNum: StrCoercion) returns (out: seq<TeamAvg>)
    requires NoDups(metrics)
    ensures |out| == |TeamOrder(rows)|
    ensures forall i :: 0 <= i < |out| ==>
      out[i].team == TeamOrder(rows)[i] && IsAverageRow(rows, metrics, strNum, out[i])
  {
    var teams: seq<int> := [];
    var counts: map<int, nat> := map[];
    var sums: map<int, map<string, real>> := map[];
    var i := 0;
    while i < |rows|
      invariant 0 <= i <= |rows|
      invariant Accumulated(rows[..i], metrics, strNum, teams, counts, sums)
    {
      teams, counts, sums := AddRecord(rows, i, metrics, strNum, teams, counts, sums);
      i := i + 1;
    }
    assert rows[..|rows|] == rows;
    out := Project(rows, teams, counts, sums, metrics, strNum);
  }

  /** The `Array.from(byTeam.entries()).map(...)` projection of the accumulated state. */
  function Project(rows: seq<Entry>, teams: seq<int>, counts: map<int, nat>, sums: map<int, map<string, real>>,
                   metrics: seq<string>, strNum: StrCoercion): (out: seq<TeamAvg>)
    requires teams == TeamOrder(rows)
    requires forall t :: t in teams ==> t in counts && t in sums && counts[t] == Count(TeamsOf(rows), t)
    requires forall t, q :: t in sums && 0 <= q < |metrics| ==>
      SumOrZero(sums[t], metrics[q]) == MetricSum(rows, t, metrics[q], strNum)
    ensures |out| == |teams|
    ensures forall i :: 0 <= i < |out| ==> out[i].team == teams[i] && IsAverageRow(rows, metrics, strNum, out[i])
  {
    seq(|teams|, i requires 0 <= i < |teams| =>
      var t := teams[i];
      var avgs := map key | key in metrics ::
        if counts[t] != 0 then SumOrZero(sums[t], key) / (counts[t] as real) else 0.0;
      TeamAvg(t, counts[t], avgs))
  }

  /** The record counts of the rows, added up. */
  function TotalCount(out: seq<TeamAvg>): nat {
    if out == [] then 0 else TotalCount(out[..|out| - 1]) + out[|out| - 1].count
  }

  lemma {:induction false} TotalCountIsSumCounts(rows: seq<Entry>, out: seq<TeamAvg>, ds: seq<int>)
    requires |out| == |ds|
    requires forall i :: 0 <= i < |out| ==> out[i].team == ds[i] && out[i].count == Count(TeamsOf(rows), ds[i])
    ensures TotalCount(out) == SumCounts(ds, TeamsOf(rows))
  {
    if out != [] {
      TotalCountIsSumCounts(rows, out[..|out| - 1], ds[..|ds| - 1]);
    }
  }

  /** The team record counts account for every record exactly once. */
  lemma CountsCoverRows(rows: seq<Entry>, metrics: seq<string>, strNum: StrCoercion, out: seq<TeamAvg>)
    requires |out| == |TeamOrder(rows)|
    requires forall i :: 0 <= i < |out| ==>
      out[i].team == TeamOrder(rows)[i] && IsAverageRow(rows, metrics, strNum, out[i])
    ensures TotalCount(out) == |rows|
    ensures forall i :: 0 <= i < |out| ==> out[i].count >= 1
  {
    TotalCountIsSumCounts(rows, out, TeamOrder(rows));
    SumCountsDistinct(TeamsOf(rows));
    forall i | 0 <= i < |out| ensures out[i].count >= 1 {
      assert TeamOrder(rows)[i] in TeamsOf(rows);
    }
  }

  /**
   * A record of the team that lacks `key` or holds a non-numeric value for it adds
   * nothing to the sum and one to the count, so it pulls the average towards 0.
   */
  lemma NonNumericDilutes(rows: seq<Entry>, e: Entry, key: string, strNum: StrCoercion)
    requires !NumericAt(AttrsOf(e), key, strNum)
    ensures MetricSum(rows + [e], e.teamNumber, key, strNum) == MetricSum(rows, e.teamNumber, key, strNum)
    ensures Count(TeamsOf(rows + [e]), e.teamNumber) == Count(TeamsOf(rows), e.teamNumber) + 1
  {
    assert (rows + [e])[..|rows|] == rows;
    assert TeamsOf(rows + [e]) == TeamsOf(rows) + [e.teamNumber];
    CountSnoc(TeamsOf(rows), e.teamNumber, e.teamNumber);
  }

  /** A team none of whose records has a numeric `key` value averages 0 for it. */
  lemma {:induction false} NoNumericAveragesZero(rows: seq<Entry>, team: int, key: string, strNum: StrCoercion)
    requires team in TeamsOf(rows)
    requires forall i :: 0 <= i < |rows| && rows[i].teamNumber == team ==> !NumericAt(AttrsOf(rows[i]), key, strNum)
    ensures Average(rows, team, key, strNum) == 0.0
  {
    MetricSumNoNumeric(rows, team, key, strNum);
  }

  lemma {:induction false} MetricSumNoNumeric(rows: seq<Entry>, team: int, key: string, strNum: StrCoercion)
    requires forall i :: 0 <= i < |rows| && rows[i].teamNumber == team ==> !NumericAt(AttrsOf(rows[i]), key, strNum)
    ensures MetricSum(rows, team, key, strNum) == 0.0
  {
    if rows != [] {
      MetricSumNoNumeric(rows[..|rows| - 1], team, key, strNum);
    }
  }

  /** The key `sorted` orders by: the chosen metric, else the first metric, else none (""). */
  function SortKey(selected: string, metrics: seq<string>): (key: string)
    ensures selected != "" ==> key == selected
    ensures selected == "" && metrics != [] ==> key == metrics[0]
    ensures selected == "" && metrics == [] ==> key == ""
  {
    if selected != "" then selected else if |metrics| > 0 then metrics[0] else ""
  }

  /** `b.avgs[key] || 0` as the sort key of a row. */
  function MetricOf(key: string): TeamAvg -> real {
    (r: TeamAvg) => if key in r.avgs then r.avgs[key] else 0.0
  }

  /**
   * `sorted`: without a sort key the team list as it is; otherwise its stable sort by
   * the key's average, highest first.
   */
  function SortedView(teams: seq<TeamAvg>, selected: string, metrics: seq<string>): (r: seq<TeamAvg>)
    ensures multiset(r) == multiset(teams)
    ensures SortKey(selected, metrics) != "" ==> NonIncreasing(r, MetricOf(SortKey(selected, metrics)))
    ensures SortKey(selected, metrics) == "" ==> r == teams
  {
    var key := SortKey(selected, metrics);
    if key == "" then teams else SortDesc(teams, MetricOf(key))
  }

  /** Teams with equal averages for the sort key keep their first-appearance order. */
  lemma SortedViewStable(teams: seq<TeamAvg>, selected: string, metrics: seq<string>, v: real)
    ensures var key := SortKey(selected, metrics);
      KeyClass(SortedView(teams, selected, metrics), MetricOf(key), v) == KeyClass(teams, MetricOf(key), v)
  {
    var key := SortKey(selected, metrics);
    if key != "" {
      SortDescStable(teams, MetricOf(key), v);
    }
  }
}
