/**
 What a reader of a metric series gets, in terms of the stored rows: which rows a filter picks,
 which buckets a window emits and what the value at each of them is.
 */
module SeriesReading {
  import opened Options
  import opened Rollup
  import opened RollupTable
  import opened Series

  // ---- filters ------------------------------------------------------------------------------

  function OfModel(dims: seq<Dims>, model: string): seq<Dims> {
    if dims == [] then []
    else
      var front, d := OfModel(dims[..|dims| - 1], model), dims[|dims| - 1];
      if d.model == model then front + [d] else front
  }

  function OfRoute(dims: seq<Dims>, route: string): seq<Dims> {
    if dims == [] then []
    else
      var front, d := OfRoute(dims[..|dims| - 1], route), dims[|dims| - 1];
      if d.route == route then front + [d] else front
  }

  /** Every stored row of a metric at one bucket. */
  function Stored(t: Table, dims: seq<Dims>, m: Metric, b: int, step: Step): seq<Stats> {
    if dims == [] then []
    else
      var front, d := Stored(t, dims[..|dims| - 1], m, b, step), dims[|dims| - 1];
      if d.metric == m && RowKey(b, step, d) in t then front + [t[RowKey(b, step, d)]] else front
  }

  lemma {:induction false} RowsOfModel(t: Table, dims: seq<Dims>, q: Query, model: string, b: int, step: Step)
    requires !q.metric.Errors? && model != ""
    ensures RowsAt(t, dims, q.(model := Some(model)), b, step)
         == RowsAt(t, OfModel(dims, model), q.(model := None), b, step)
  {
    if dims != [] {
      var front := OfModel(dims[..|dims| - 1], model);
      RowsOfModel(t, dims[..|dims| - 1], q, model, b, step);
      assert (front + [dims[|dims| - 1]])[..|front|] == front;
    }
  }

  lemma {:induction false} RowsOfRoute(t: Table, dims: seq<Dims>, q: Query, route: string, b: int, step: Step)
    requires !q.metric.Errors? && route != ""
    ensures RowsAt(t, dims, q.(route := Some(route)), b, step)
         == RowsAt(t, OfRoute(dims, route), q.(route := None), b, step)
  {
    if dims != [] {
      var front := OfRoute(dims[..|dims| - 1], route);
      RowsOfRoute(t, dims[..|dims| - 1], q, route, b, step);
      assert (front + [dims[|dims| - 1]])[..|front|] == front;
    }
  }

  predicate NoFilter(filter: Option<string>) { filter.None? || filter.value == "" }

  lemma {:induction false} RowsUnfiltered(t: Table, dims: seq<Dims>, q: Query, b: int, step: Step)
    requires q.metric.Errors? || (NoFilter(q.model) && NoFilter(q.route))
    ensures RowsAt(t, dims, q, b, step) == Stored(t, dims, q.metric, b, step)
  {
    if dims != [] {
      RowsUnfiltered(t, dims[..|dims| - 1], q, b, step);
    }
  }

  lemma {:induction false} SameRowsSamePoints(t: Table, d1: seq<Dims>, q1: Query, d2: seq<Dims>, q2: Query,
                                              grid: seq<int>, step: Step)
    requires q1.metric == q2.metric
    requires forall b :: RowsAt(t, d1, q1, b, step) == RowsAt(t, d2, q2, b, step)
    ensures PointsOver(t, d1, q1, grid, step) == PointsOver(t, d2, q2, grid, step)
  {
    if grid != [] {
      SameRowsSamePoints(t, d1, q1, d2, q2, grid[1..], step);
    }
  }

  /** The series of one model is the series of the rows that carry it. */
  lemma SeriesOfModel(t: Table, dims: seq<Dims>, q: Query, model: string,
                      since: real, until: real, step: Step)
    requires !q.metric.Errors? && model != ""
    ensures MetricsSeries(t, dims, q.(model := Some(model)), since, until, step)
         == MetricsSeries(t, OfModel(dims, model), q.(model := None), since, until, step)
  {
    forall b ensures RowsAt(t, dims, q.(model := Some(model)), b, step)
                  == RowsAt(t, OfModel(dims, model), q.(model := None), b, step) {
      RowsOfModel(t, dims, q, model, b, step);
    }
    SameRowsSamePoints(t, dims, q.(model := Some(model)), OfModel(dims, model), q.(model := None),
                       Grid(FloorBucket(since, step), until, step), step);
  }

  /** And likewise for a route. */
  lemma SeriesOfRoute(t: Table, dims: seq<Dims>, q: Query, route: string,
                      since: real, until: real, step: Step)
    requires !q.metric.Errors? && route != ""
    ensures MetricsSeries(t, dims, q.(route := Some(route)), since, until, step)
         == MetricsSeries(t, OfRoute(dims, route), q.(route := None), since, until, step)
  {
    forall b ensures RowsAt(t, dims, q.(route := Some(route)), b, step)
                  == RowsAt(t, OfRoute(dims, route), q.(route := None), b, step) {
      RowsOfRoute(t, dims, q, route, b, step);
    }
    SameRowsSamePoints(t, dims, q.(route := Some(route)), OfRoute(dims, route), q.(route := None),
                       Grid(FloorBucket(since, step), until, step), step);
  }

  // ---- buckets ------------------------------------------------------------------------------

  /** The first bucket holds `since`, each next starts where the one before ends, the last reaches `until`. */
  predicate Covers(points: Points, since: real, until: real, step: Step) {
    && points != []
    && points[0].0 as real <= since < (points[0].0 + step) as real
    && (forall i | 0 <= i < |points| :: points[i].0 == points[0].0 + i * step)
    && points[|points| - 1].0 as real < until <= (points[|points| - 1].0 + step) as real
  }

  lemma {:induction false} PointsAt(t: Table, dims: seq<Dims>, q: Query, grid: seq<int>, step: Step)
    ensures var points := PointsOver(t, dims, q, grid, step);
            && |points| == |grid|
            && forall i | 0 <= i < |grid| ::
                 points[i] == (grid[i], BucketPoint(q.metric, RowsAt(t, dims, q, grid[i], step), step))
  {
    if grid != [] {
      PointsAt(t, dims, q, grid[1..], step);
    }
  }

  lemma GridCovers(since: real, until: real, step: Step)
    requires since < until
    ensures var g := Grid(FloorBucket(since, step), until, step);
            && g != [] && g[0] as real <= since < (g[0] + step) as real && g[0] % step == 0
            && (forall i | 0 <= i < |g| :: g[i] == g[0] + i * step)
            && g[|g| - 1] as real < until <= (g[|g| - 1] + step) as real
  {
    FloorBucketIsTheBucket(since, step);
    GridHasNoGaps(FloorBucket(since, step), until, step);
    LastStep(Grid(FloorBucket(since, step), until, step), FloorBucket(since, step), step);
  }

  lemma LastStep(g: seq<int>, start: int, step: Step)
    requires g != [] && forall i | 0 <= i < |g| :: g[i] == start + i * step
    ensures g[0] == start && g[|g| - 1] + step == start + |g| * step
  {
    var n := |g|;
    assert g[n - 1] == start + (n - 1) * step;
    assert (n - 1) * step + step == n * step;
  }

  /** A served window is covered bucket by bucket. */
  lemma SeriesCovers(t: Table, dims: seq<Dims>, q: Query, since: real, until: real, step: Step)
    requires MetricsSeries(t, dims, q, since, until, step).Some?
    ensures Covers(MetricsSeries(t, dims, q, since, until, step).value, since, until, step)
  {
    GridCovers(since, until, step);
    PointsAt(t, dims, q, Grid(FloorBucket(since, step), until, step), step);
  }

  /** Does the window still begin before it ends after `n` buckets? */
  predicate LongerThan(first: int, n: nat, until: real, step: Step) { (first + n * step) as real < until }

  lemma GridIsLong(start: int, until: real, step: Step, n: nat)
    ensures |Grid(start, until, step)| > n <==> LongerThan(start, n, until, step)
  {
    var g := Grid(start, until, step);
    GridHasNoGaps(start, until, step);
    if |g| > n {
      assert g[n] == start + n * step;
    } else {
      Grows(|g|, n, step);
    }
  }

  lemma Grows(a: nat, b: nat, step: Step)
    requires a <= b
    ensures a * step <= b * step
  {
  }

  /** Refused: an empty window, or one that reaches past 100000 buckets from the one `since` is in. */
  lemma RefusedIff(t: Table, dims: seq<Dims>, q: Query, since: real, until: real, step: Step, first: int)
    requires first % step == 0 && first as real <= since < (first + step) as real
    ensures MetricsSeries(t, dims, q, since, until, step) == None
       <==> since >= until || LongerThan(first, 100000, until, step)
  {
    assert IsBucketOf(first, since, step);
    FloorBucketIsTheBucket(since, step);
    GridIsLong(first, until, step, 100000);
  }

  // ---- values -------------------------------------------------------------------------------

  /** Column by column, each row as often as its count. */
  function Weighed(rows: seq<Stats>): Pct {
    if rows == [] then Pct(0.0, 0.0, 0.0, 0.0)
    else
      var front, last := Weighed(rows[..|rows| - 1]), rows[|rows| - 1];
      var p, n := PctOf(last), last.count;
      Pct(front.p50 + Times(p.p50, n), front.p90 + Times(p.p90, n),
          front.p95 + Times(p.p95, n), front.p99 + Times(p.p99, n))
  }

  predicate IsWeightedMean(p: Pct, rows: seq<Stats>) {
    Pct(Times(p.p50, CountSum(rows)), Times(p.p90, CountSum(rows)),
        Times(p.p95, CountSum(rows)), Times(p.p99, CountSum(rows))) == Weighed(rows)
  }

  /** Requests are a rate, errors a count, queue an average, latency percentiles by weight. */
  predicate Tells(p: Point, m: Metric, rows: seq<Stats>, step: Step) {
    match m
    case Requests => p.Rate? && Times(p.perSecond, step) == CountSum(rows) as real
    case Errors => p.Count? && p.n == CountSum(rows)
    case Queue => p.Average? && Times(p.value, CountSum(rows)) == SumOfSums(rows)
                  && (rows == [] ==> p.value == 0.0)
    case Latency => p.Percentiles? && IsWeightedMean(p.pct, rows)
                    && (rows == [] ==> p.pct == Pct(0.0, 0.0, 0.0, 0.0))
  }

  /** The merge of some rows weighs as all of them together. */
  ghost predicate MergeWeighs(rows: seq<Stats>) {
    rows != [] ==>
      JoinAll(false, rows).Some? && JoinAll(false, rows).value.count == CountSum(rows)
      && IsWeightedMean(PctOf(JoinAll(false, rows).value), rows)
  }

  lemma OneMoreWeighs(front: seq<Stats>, last: Stats)
    requires AllWellFormed(false, front) && WellFormed(false, last) && MergeWeighs(front)
    ensures MergeWeighs(front + [last])
  {
    assert (front + [last])[..|front|] == front;
    JoinAllAppend(false, front, last);
    if front != [] {
      JoinAllWellFormed(false, front);
      MergeIsWeightedMean(JoinAll(false, front).value, last);
    }
  }

  lemma {:induction false} MergesWeigh(rows: seq<Stats>)
    requires AllWellFormed(false, rows)
    ensures MergeWeighs(rows)
  {
    if rows != [] {
      var front, last := rows[..|rows| - 1], rows[|rows| - 1];
      MergesWeigh(front);
      OneMoreWeighs(front, last);
      assert rows == front + [last];
    }
  }

  lemma ShareBack(x: real, k: int)
    requires k > 0
    ensures Times(Share(x, k), k) == x
  {
  }

  lemma PointTells(m: Metric, rows: seq<Stats>, step: Step)
    requires AllWellFormed(IsCounter(m), rows)
    ensures Tells(BucketPoint(m, rows, step), m, rows, step)
  {
    CountSumPositive(IsCounter(m), rows);
    if m.Requests? {
      RateBack(CountSum(rows) as real, step);
    } else if m.Queue? && rows != [] {
      ShareBack(SumOfSums(rows), CountSum(rows));
    } else if m.Latency? {
      PointIsOfMerge(m, rows, step);
      MergesWeigh(rows);
    }
  }

  lemma {:induction false} CountSumPositive(counter: bool, rows: seq<Stats>)
    requires AllWellFormed(counter, rows)
    ensures if rows == [] then CountSum(rows) == 0 else CountSum(rows) > 0
  {
    if rows != [] {
      CountSumPositive(counter, rows[..|rows| - 1]);
    }
  }

  /** Each value of a served series tells what the rows selected at its own bucket hold. */
  lemma SeriesTells(t: Table, dims: seq<Dims>, q: Query, since: real, until: real, step: Step)
    requires TableWellFormed(t) && MetricsSeries(t, dims, q, since, until, step).Some?
    ensures var points := MetricsSeries(t, dims, q, since, until, step).value;
            forall i | 0 <= i < |points| ::
              Tells(points[i].1, q.metric, RowsAt(t, dims, q, points[i].0, step), step)
  {
    var grid := Grid(FloorBucket(since, step), until, step);
    PointsAt(t, dims, q, grid, step);
    forall i | 0 <= i < |grid|
      ensures Tells(BucketPoint(q.metric, RowsAt(t, dims, q, grid[i], step), step), q.metric,
                    RowsAt(t, dims, q, grid[i], step), step)
    {
      RowsAtWellFormed(t, dims, q, grid[i], step);
      PointTells(q.metric, RowsAt(t, dims, q, grid[i], step), step);
    }
  }
}
