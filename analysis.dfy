/**
 * The analysis page: the metric keys offered for charting, one chart point per
 * record for the chosen key, and the mean of those points.
 */
module Analysis {
  import opened Wrappers
  import opened JsValue
  import opened StringOrder

  /** A stored record as the page reads it; `metrics` is None when null. */
  datatype Record = Record(matchKey: string, teamNumber: int, metrics: Option<Attrs>)

  /** Record `i` holds key `k` in its metrics object. */
  predicate HasKey(rows: seq<Record>, k: string) {
    exists i :: 0 <= i < |rows| && rows[i].metrics.Some? && k in rows[i].metrics.value
  }

  /**
   * `metricOptions`: every key of every record's metrics object (numeric or not), each
   * once, in ascending string order.
   */
  method MetricOptions(rows: seq<Record>) returns (list: seq<string>)
    ensures StrictlySorted(list)
    ensures forall k :: k in list <==> HasKey(rows, k)
  {
    var keys: set<string> := {};
    var i := 0;
    while i < |rows|
      invariant 0 <= i <= |rows|
      invariant forall k :: k in keys <==> HasKey(rows[..i], k)
    {
      if rows[i].metrics.Some? {
        keys := keys + rows[i].metrics.value.Keys;
      }
      assert forall j :: 0 <= j < i ==> rows[..i + 1][j] == rows[..i][j];
      assert rows[..i + 1][i] == rows[i];
      i := i + 1;
    }
    assert rows[..|rows|] == rows;
    list := SortedListing(keys);
  }

  datatype Point = Point(name: string, value: real)

  /**
   * `Number(r.metrics?.[key]) || 0`: a missing metrics object or key reads as
   * `undefined`, whose number is NaN, and NaN reads as 0.
   */
  function PointValue(r: Record, key: string, strNum: StrCoercion): (v: real)
    ensures r.metrics.None? || key !in r.metrics.value ==> v == 0.0
    ensures r.metrics.Some? && key in r.metrics.value ==> v == NumberOrZero(r.metrics.value[key], strNum)
  {
    if r.metrics.Some? && key in r.metrics.value then NumberOrZero(r.metrics.value[key], strNum) else 0.0
  }

  /**
   * `chartData`: nothing while no key is chosen; otherwise one point per record, in
   * record order, named by its match key. Since every value went through `|| 0`,
   * the NaN filter that follows keeps every point.
   */
  function ChartData(rows: seq<Record>, key: string, strNum: StrCoercion): (pts: seq<Point>)
    ensures key == "" ==> pts == []
    ensures key != "" ==> |pts| == |rows|
    ensures key != "" ==> forall i :: 0 <= i < |rows| ==>
      pts[i].name == rows[i].matchKey && pts[i].value == PointValue(rows[i], key, strNum)
  {
    if key == "" then []
    else seq(|rows|, i requires 0 <= i < |rows| => Point(rows[i].matchKey, PointValue(rows[i], key, strNum)))
  }

  /** The `reduce` sum of the point values. */
  function Total(pts: seq<Point>): real {
    if pts == [] then 0.0 else Total(pts[..|pts| - 1]) + pts[|pts| - 1].value
  }

  /** `avg`: 0 for no points, else the exact mean (the two-decimal rounding is not modelled). */
  function Avg(pts: seq<Point>): (a: real)
    ensures pts == [] ==> a == 0.0
    ensures pts != [] ==> a * (|pts| as real) == Total(pts)
  {
    if pts == [] then 0.0 else Total(pts) / (|pts| as real)
  }

  lemma {:induction false} TotalWithin(pts: seq<Point>, lo: real, hi: real)
    requires forall i :: 0 <= i < |pts| ==> lo <= pts[i].value <= hi
    ensures lo * (|pts| as real) <= Total(pts) <= hi * (|pts| as real)
  {
    if pts != [] {
      var init := pts[..|pts| - 1];
      assert forall i :: 0 <= i < |init| ==> init[i] == pts[i];
      TotalWithin(init, lo, hi);
    }
  }

  /** The mean of the points lies between any lower and any upper bound of their values. */
  lemma AvgWithin(pts: seq<Point>, lo: real, hi: real)
    requires pts != []
    requires forall i :: 0 <= i < |pts| ==> lo <= pts[i].value <= hi
    ensures lo <= Avg(pts) <= hi
  {
    TotalWithin(pts, lo, hi);
  }

  /** Index of a smallest and of a largest point. */
  function ArgMin(pts: seq<Point>): (m: nat)
    requires pts != []
    ensures m < |pts| && forall i :: 0 <= i < |pts| ==> pts[m].value <= pts[i].value
  {
    if |pts| == 1 then 0
    else
      var m := ArgMin(pts[..|pts| - 1]);
      assert forall i :: 0 <= i < |pts| - 1 ==> pts[..|pts| - 1][i] == pts[i];
      if pts[|pts| - 1].value < pts[m].value then |pts| - 1 else m
  }

  function ArgMax(pts: seq<Point>): (m: nat)
    requires pts != []
    ensures m < |pts| && forall i :: 0 <= i < |pts| ==> pts[i].value <= pts[m].value
  {
    if |pts| == 1 then 0
    else
      var m := ArgMax(pts[..|pts| - 1]);
      assert forall i :: 0 <= i < |pts| - 1 ==> pts[..|pts| - 1][i] == pts[i];
      if pts[|pts| - 1].value > pts[m].value then |pts| - 1 else m
  }

  /** The mean of a chart lies between its smallest and its largest point. */
  lemma AvgBetweenMinAndMax(pts: seq<Point>)
    requires pts != []
    ensures pts[ArgMin(pts)].value <= Avg(pts) <= pts[ArgMax(pts)].value
  {
    AvgWithin(pts, pts[ArgMin(pts)].value, pts[ArgMax(pts)].value);
  }

  /** Records without the chosen key chart as zeros and average to 0. */
  lemma AbsentKeyAveragesZero(rows: seq<Record>, key: string, strNum: StrCoercion)
    requires key != "" && !HasKey(rows, key)
    ensures Avg(ChartData(rows, key, strNum)) == 0.0
  {
    var pts := ChartData(rows, key, strNum);
    if pts != [] {
      AvgWithin(pts, 0.0, 0.0);
    }
  }
}
