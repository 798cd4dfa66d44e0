/**
 The rollup-backed read path of layawatch/store/queries.py: metric series and the model mix.
 Rows come out of the table through any list of its dimension tuples.
 */
module Series {
  import opened Options
  import opened Rollup
  import opened RollupTable
  import opened WriterModel
  import opened WriterRollupLaws

  const MAX_BUCKETS := 100000

  datatype Query = Query(metric: Metric, model: Option<string>, route: Option<string>)

  /** An empty filter value is no filter. */
  predicate Passes(filter: Option<string>, value: string) {
    filter.None? || filter.value == "" || filter.value == value
  }

  /** Errors rows carry no model or route, so their filter is ignored. */
  predicate Matches(q: Query, d: Dims) {
    d.metric == q.metric && (q.metric.Errors? || (Passes(q.model, d.model) && Passes(q.route, d.route)))
  }

  datatype Point =
    | Rate(perSecond: real)
    | Count(n: int)
    | Average(value: real)
    | Percentiles(pct: Pct)

  type Points = seq<(int, Point)>

  function SumOfSums(rows: seq<Stats>): real {
    if rows == [] then 0.0 else SumOfSums(rows[..|rows| - 1]) + rows[|rows| - 1].sum
  }

  /** `_bucket_point` */
  function BucketPoint(m: Metric, rows: seq<Stats>, step: Step): Point {
    match m
    case Requests => Rate(if rows == [] then 0.0 else Share(CountSum(rows) as real, step))
    case Errors => Count(if rows == [] then 0 else CountSum(rows))
    case Queue =>
      Average(if rows == [] || CountSum(rows) == 0 then 0.0
              else Share(SumOfSums(rows), CountSum(rows)))
    case Latency =>
      Percentiles(if rows == [] then NO_PCT
                  else PctOf(if |rows| == 1 then rows[0] else MergeRows(rows)))
  }

  /** The rows of one bucket, one per matching dimension tuple that has one. */
  function RowsAt(t: Table, dims: seq<Dims>, q: Query, b: int, step: Step): seq<Stats> {
    if dims == [] then []
    else
      var d := dims[|dims| - 1];
      RowsAt(t, dims[..|dims| - 1], q, b, step)
      + (if Matches(q, d) && RowKey(b, step, d) in t then [t[RowKey(b, step, d)]] else [])
  }

  /** Aligned bucket starts from `start` on, up to `until`. */
  function Grid(start: int, until: real, step: Step): seq<int>
    decreases until.Floor + 1 - start
  {
    if start as real >= until then [] else [start] + Grid(start + step, until, step)
  }

  function PointsOver(t: Table, dims: seq<Dims>, q: Query, grid: seq<int>, step: Step): Points {
    if grid == [] then []
    else [(grid[0], BucketPoint(q.metric, RowsAt(t, dims, q, grid[0], step), step))]
         + PointsOver(t, dims, q, grid[1..], step)
  }

  /** None is InvalidFilter: an empty window, or more buckets than the safety valve allows. */
  function MetricsSeries(t: Table, dims: seq<Dims>, q: Query, since: real, until: real, step: Step): Option<Points> {
    var grid := Grid(FloorBucket(since, step), until, step);
    if since >= until || |grid| > MAX_BUCKETS then None else Some(PointsOver(t, dims, q, grid, step))
  }

  // ---- a row is the merge of the 10 s rows under it -----------------------------------------

  lemma RowIsJoin(t: Table, d: Dims, b: int, step: Step, from: Option<real>)
    requires TableWellFormed(t) && CompleteWithin(t, from) && Within(from, b) && b % step == 0
    ensures Load(t, RowKey(b, step, d)) == ChildMerge(t, d, b, b + step)
  {
    if step == 10 {
      ChildRowsWellFormed(t, d, b, b + 9);
      TenSecondRow(t, d, b, 9);
    } else {
      assert Complete(t, RowKey(b, step, d));
    }
  }

  /** Between two grid points there is no row. */
  lemma {:induction false} TenSecondRow(t: Table, d: Dims, b: int, n: nat)
    requires TableWellFormed(t) && b % 10 == 0 && n <= 9
    ensures ChildMerge(t, d, b, b + n + 1) == Load(t, RowKey(b, 10, d))
  {
    ChildMergeLast(t, d, b, b + n + 1);
    if n > 0 {
      TenSecondRow(t, d, b, n - 1);
      assert (b + n) % 10 != 0;
    }
  }

  /** All stored 10 s rows of the matching dimensions with `lo <= bucket < hi`. */
  function Beneath(t: Table, dims: seq<Dims>, q: Query, lo: int, hi: int): seq<Stats> {
    if dims == [] then []
    else
      var d := dims[|dims| - 1];
      Beneath(t, dims[..|dims| - 1], q, lo, hi) + (if Matches(q, d) then ChildRows(t, d, lo, hi) else [])
  }

  lemma {:induction false} JoinAllSplits(c: bool, a: seq<Stats>, b: seq<Stats>)
    requires AllWellFormed(c, a) && AllWellFormed(c, b)
    ensures JoinAll(c, a + b) == Join(c, JoinAll(c, a), JoinAll(c, b))
  {
    if b == [] {
      assert a + b == a;
    } else {
      var front, last := b[..|b| - 1], b[|b| - 1];
      assert a + b == (a + front) + [last];
      JoinAllAppend(c, a + front, last);
      JoinAllSplits(c, a, front);
      JoinAllWellFormed(c, a);
      JoinAllWellFormed(c, front);
      JoinAssociates(c, JoinAll(c, a), JoinAll(c, front), Some(last));
    }
  }

  lemma {:induction false} RowsAtWellFormed(t: Table, dims: seq<Dims>, q: Query, b: int, step: Step)
    requires TableWellFormed(t)
    ensures AllWellFormed(IsCounter(q.metric), RowsAt(t, dims, q, b, step))
  {
    if dims != [] {
      RowsAtWellFormed(t, dims[..|dims| - 1], q, b, step);
    }
  }

  lemma {:induction false} BeneathWellFormed(t: Table, dims: seq<Dims>, q: Query, lo: int, hi: int)
    requires TableWellFormed(t)
    ensures AllWellFormed(IsCounter(q.metric), Beneath(t, dims, q, lo, hi))
  {
    if dims != [] {
      var d := dims[|dims| - 1];
      BeneathWellFormed(t, dims[..|dims| - 1], q, lo, hi);
      ChildRowsWellFormed(t, d, lo, hi);
    }
  }

  /** The rows of a coarse bucket merge to what the 10 s rows beneath them merge to. */
  ghost predicate SameMerge(t: Table, dims: seq<Dims>, q: Query, b: int, step: Step) {
    JoinAll(IsCounter(q.metric), RowsAt(t, dims, q, b, step))
    == JoinAll(IsCounter(q.metric), Beneath(t, dims, q, b, b + step))
  }

  lemma OneMoreDims(t: Table, front: seq<Dims>, d: Dims, q: Query, b: int, step: Step, from: Option<real>)
    requires TableWellFormed(t) && CompleteWithin(t, from) && Within(from, b) && b % step == 0
    requires SameMerge(t, front, q, b, step) && Matches(q, d)
    ensures SameMerge(t, front + [d], q, b, step)
  {
    RowIsJoin(t, d, b, step, from);
    LastRow(t, front, d, q, b, step);
    LastBeneath(t, front, d, q, b, b + step);
  }

  lemma OtherDims(t: Table, front: seq<Dims>, d: Dims, q: Query, b: int, step: Step)
    requires !Matches(q, d)
    ensures RowsAt(t, front + [d], q, b, step) == RowsAt(t, front, q, b, step)
    ensures Beneath(t, front + [d], q, b, b + step) == Beneath(t, front, q, b, b + step)
  {
    assert (front + [d])[..|front|] == front;
  }

  lemma {:induction false} CoarseIsFine(t: Table, dims: seq<Dims>, q: Query, b: int, step: Step,
                                        from: Option<real>)
    requires TableWellFormed(t) && CompleteWithin(t, from) && Within(from, b) && b % step == 0
    ensures SameMerge(t, dims, q, b, step)
  {
    if dims != [] {
      var front, d := dims[..|dims| - 1], dims[|dims| - 1];
      assert dims == front + [d];
      CoarseIsFine(t, front, q, b, step, from);
      if Matches(q, d) {
        OneMoreDims(t, front, d, q, b, step, from);
      } else {
        OtherDims(t, front, d, q, b, step);
      }
    }
  }

  lemma LastBeneath(t: Table, front: seq<Dims>, d: Dims, q: Query, lo: int, hi: int)
    requires TableWellFormed(t) && Matches(q, d)
    ensures JoinAll(IsCounter(q.metric), Beneath(t, front + [d], q, lo, hi))
         == Join(IsCounter(q.metric), JoinAll(IsCounter(q.metric), Beneath(t, front, q, lo, hi)),
                 ChildMerge(t, d, lo, hi))
  {
    assert (front + [d])[..|front|] == front;
    BeneathWellFormed(t, front, q, lo, hi);
    ChildRowsWellFormed(t, d, lo, hi);
    JoinAllSplits(IsCounter(q.metric), Beneath(t, front, q, lo, hi), ChildRows(t, d, lo, hi));
  }

  lemma LastRow(t: Table, front: seq<Dims>, d: Dims, q: Query, b: int, step: Step)
    requires Matches(q, d)
    ensures JoinAll(IsCounter(q.metric), RowsAt(t, front + [d], q, b, step))
         == Join(IsCounter(q.metric), JoinAll(IsCounter(q.metric), RowsAt(t, front, q, b, step)),
                 Load(t, RowKey(b, step, d)))
  {
    var rows := RowsAt(t, front, q, b, step);
    assert (front + [d])[..|front|] == front;
    if RowKey(b, step, d) in t {
      JoinAllAppend(IsCounter(q.metric), rows, t[RowKey(b, step, d)]);
    } else {
      assert rows + [] == rows;
    }
  }

  // ---- points -------------------------------------------------------------------------------

  /** A point depends on its rows through their merge only. */
  function PointOf(m: Metric, merged: Option<Stats>, step: Step): Point {
    match m
    case Requests => Rate(if merged.None? then 0.0 else Share(merged.value.count as real, step))
    case Errors => Count(if merged.None? then 0 else merged.value.count)
    case Queue =>
      Average(if merged.None? || merged.value.count == 0 then 0.0
              else Share(merged.value.sum, merged.value.count))
    case Latency => Percentiles(if merged.None? then NO_PCT else PctOf(merged.value))
  }

  lemma {:induction false} MergedSum(rows: seq<Stats>)
    requires AllWellFormed(false, rows)
    ensures rows != [] ==> JoinAll(false, rows).value.sum == SumOfSums(rows)
  {
    if rows != [] {
      var front, last := rows[..|rows| - 1], rows[|rows| - 1];
      MergedSum(front);
      JoinAllWellFormed(false, front);
      if front != [] {
        PairWeight(JoinAll(false, front).value, last);
      }
    }
  }

  lemma PointIsOfMerge(m: Metric, rows: seq<Stats>, step: Step)
    requires AllWellFormed(IsCounter(m), rows)
    ensures BucketPoint(m, rows, step) == PointOf(m, JoinAll(IsCounter(m), rows), step)
  {
    JoinAllWellFormed(IsCounter(m), rows);
    if m.Queue? {
      MergedSum(rows);
    }
    if m.Latency? && rows != [] {
      FoldIsListMerge(rows);
      if |rows| == 1 {
        assert rows[..0] == [];
      }
    }
  }

  /**
   Whatever the step, a point is the one the stored 10 s rows beneath its bucket give: rates,
   counts, averages and merged percentiles alike.
   */
  lemma PointIsOverTenSecondRows(t: Table, dims: seq<Dims>, q: Query, b: int, step: Step,
                                 from: Option<real>)
    requires TableWellFormed(t) && CompleteWithin(t, from) && Within(from, b) && b % step == 0
    ensures BucketPoint(q.metric, RowsAt(t, dims, q, b, step), step)
         == BucketPoint(q.metric, Beneath(t, dims, q, b, b + step), step)
  {
    CoarseIsFine(t, dims, q, b, step, from);
    RowsAtWellFormed(t, dims, q, b, step);
    BeneathWellFormed(t, dims, q, b, b + step);
    PointIsOfMerge(q.metric, RowsAt(t, dims, q, b, step), step);
    PointIsOfMerge(q.metric, Beneath(t, dims, q, b, b + step), step);
  }

  // ---- totals -------------------------------------------------------------------------------

  /** What a point adds to a window total: points of a rate are spread over the step. */
  function Amount(p: Point, step: Step): real {
    match p
    case Rate(x) => Times(x, step)
    case Count(n) => n as real
    case _ => 0.0
  }

  function Total(points: Points, step: Step): real {
    if points == [] then 0.0 else Amount(points[0].1, step) + Total(points[1..], step)
  }

  lemma AmountIsCount(m: Metric, rows: seq<Stats>, step: Step)
    requires IsCounter(m)
    ensures Amount(BucketPoint(m, rows, step), step) == CountSum(rows) as real
  {
    if m.Requests? {
      RateBack(CountSum(rows) as real, step);
    }
  }

  lemma RateBack(x: real, step: Step)
    ensures Times(Share(x, step), step) == x
    ensures Times(0.0, step) == 0.0
  {
  }

  lemma {:induction false} CountSumSplits(a: seq<Stats>, b: seq<Stats>)
    ensures CountSum(a + b) == CountSum(a) + CountSum(b)
  {
    if b == [] {
      assert a + b == a;
    } else {
      assert (a + b)[..|a + b| - 1] == a + b[..|b| - 1];
      CountSumSplits(a, b[..|b| - 1]);
    }
  }

  lemma {:induction false} ChildRowsSplit(t: Table, d: Dims, lo: int, mid: int, hi: int)
    requires lo <= mid <= hi
    ensures ChildRows(t, d, lo, hi) == ChildRows(t, d, lo, mid) + ChildRows(t, d, mid, hi)
    decreases hi - mid
  {
    if mid < hi {
      ChildRowsSplit(t, d, lo, mid, hi - 1);
    }
  }

  lemma {:induction false} BeneathSplits(t: Table, dims: seq<Dims>, q: Query, lo: int, mid: int, hi: int)
    requires lo <= mid <= hi
    ensures CountSum(Beneath(t, dims, q, lo, hi))
         == CountSum(Beneath(t, dims, q, lo, mid)) + CountSum(Beneath(t, dims, q, mid, hi))
  {
    if dims != [] {
      var front, d := dims[..|dims| - 1], dims[|dims| - 1];
      BeneathSplits(t, front, q, lo, mid, hi);
      BeneathLast(t, front, d, q, lo, hi);
      BeneathLast(t, front, d, q, lo, mid);
      BeneathLast(t, front, d, q, mid, hi);
      ChildRowsSplit(t, d, lo, mid, hi);
      CountSumSplits(ChildRows(t, d, lo, mid), ChildRows(t, d, mid, hi));
      assert dims == front + [d];
    }
  }

  lemma BeneathLast(t: Table, front: seq<Dims>, d: Dims, q: Query, lo: int, hi: int)
    ensures CountSum(Beneath(t, front + [d], q, lo, hi))
         == CountSum(Beneath(t, front, q, lo, hi))
            + (if Matches(q, d) then CountSum(ChildRows(t, d, lo, hi)) else 0)
  {
    assert (front + [d])[..|front|] == front;
    CountSumSplits(Beneath(t, front, q, lo, hi), if Matches(q, d) then ChildRows(t, d, lo, hi) else []);
  }

  lemma {:induction false} NothingBeneath(t: Table, dims: seq<Dims>, q: Query, lo: int)
    ensures Beneath(t, dims, q, lo, lo) == []
  {
    if dims != [] {
      NothingBeneath(t, dims[..|dims| - 1], q, lo);
    }
  }

  /** The points of a window add up to the 10 s rows stored in it. */
  lemma {:induction false} GridTotal(t: Table, dims: seq<Dims>, q: Query, lo: int, hi: int, step: Step,
                                     from: Option<real>)
    requires TableWellFormed(t) && CompleteWithin(t, from) && Within(from, lo) && IsCounter(q.metric)
    requires lo % step == 0 && hi % step == 0 && lo <= hi
    ensures Total(PointsOver(t, dims, q, Grid(lo, hi as real, step), step), step)
         == CountSum(Beneath(t, dims, q, lo, hi)) as real
    decreases hi - lo
  {
    if lo == hi {
      NothingBeneath(t, dims, q, lo);
    } else {
      NextGridPoint(lo, hi, step);
      GridTotal(t, dims, q, lo + step, hi, step, from);
      PointIsOverTenSecondRows(t, dims, q, lo, step, from);
      AmountIsCount(q.metric, Beneath(t, dims, q, lo, lo + step), step);
      BeneathSplits(t, dims, q, lo, lo + step, hi);
      PointsOverCons(t, dims, q, lo, Grid(lo + step, hi as real, step), step);
    }
  }

  lemma NextGridPoint(lo: int, hi: int, step: Step)
    requires lo % step == 0 && hi % step == 0 && lo < hi
    ensures lo + step <= hi && (lo + step) % step == 0
    ensures Grid(lo, hi as real, step) == [lo] + Grid(lo + step, hi as real, step)
  {
    StepBelow(lo, hi, step);
  }

  lemma StepBelow(lo: int, b: int, step: Step)
    requires lo % step == 0 && b % step == 0 && lo < b
    ensures lo + step <= b && (lo + step) % step == 0
  {
    if step == 10 {
      TenBelow(lo, b);
    } else if step == 60 {
      MinuteBelow(lo, b);
    } else {
      HourBelow(lo, b);
    }
  }

  lemma TenBelow(lo: int, b: int)
    requires lo % 10 == 0 && b % 10 == 0 && lo < b
    ensures lo + 10 <= b && (lo + 10) % 10 == 0
  {
  }

  lemma MinuteBelow(lo: int, b: int)
    requires lo % 60 == 0 && b % 60 == 0 && lo < b
    ensures lo + 60 <= b && (lo + 60) % 60 == 0
  {
  }

  lemma HourBelow(lo: int, b: int)
    requires lo % 3600 == 0 && b % 3600 == 0 && lo < b
    ensures lo + 3600 <= b && (lo + 3600) % 3600 == 0
  {
  }

  lemma PointsOverCons(t: Table, dims: seq<Dims>, q: Query, b: int, rest: seq<int>, step: Step)
    ensures var points := PointsOver(t, dims, q, [b] + rest, step);
            && points != [] && points[0].0 == b
            && points[0].1 == BucketPoint(q.metric, RowsAt(t, dims, q, b, step), step)
            && points[1..] == PointsOver(t, dims, q, rest, step)
  {
    assert ([b] + rest)[1..] == rest;
  }

  // ---- main results -------------------------------------------------------------------------

  /**
   Step independence: over a window aligned to 3600 s that begins at or past the prune horizon,
   points times step (errors: points) add up to the same total at every step, namely the counts
   of the 10 s rows stored in the window.
   */
  lemma StepIndependence(t: Table, dims: seq<Dims>, q: Query, lo: int, hi: int, step: Step,
                         from: Option<real>)
    requires TableWellFormed(t) && CompleteWithin(t, from) && Within(from, lo) && IsCounter(q.metric)
    requires lo % 3600 == 0 && hi % 3600 == 0 && lo < hi
    requires MetricsSeries(t, dims, q, lo as real, hi as real, step).Some?
    ensures Total(MetricsSeries(t, dims, q, lo as real, hi as real, step).value, step)
         == CountSum(Beneath(t, dims, q, lo, hi)) as real
  {
    AlignedToAll(lo, step);
    AlignedToAll(hi, step);
    GridTotal(t, dims, q, lo, hi, step, from);
  }

  lemma AlignedToAll(b: int, step: Step)
    requires b % 3600 == 0
    ensures b % step == 0 && FloorBucket(b as real, step) == b
  {
    AlignedMod(b, step);
    FloorBucketIsTheBucket(b as real, step);
    assert IsBucketOf(b, b as real, step);
  }

  lemma AlignedMod(b: int, step: Step)
    requires b % 3600 == 0
    ensures b % step == 0
  {
    if step == 10 {
    } else if step == 60 {
    } else {
    }
  }

  function WindowTotal(t: Table, dims: seq<Dims>, q: Query, lo: int, hi: int, step: Step): real
    requires MetricsSeries(t, dims, q, lo as real, hi as real, step).Some?
  {
    Total(MetricsSeries(t, dims, q, lo as real, hi as real, step).value, step)
  }

  /** So for whatever a writer has stored, any two steps give one total. */
  lemma SeriesOfAnyRun(cfg: Config, actions: seq<Action>, dims: seq<Dims>, q: Query, lo: int, hi: int,
                       s1: Step, s2: Step)
    requires IsCounter(q.metric) && lo % 3600 == 0 && hi % 3600 == 0 && lo < hi
    requires MetricsSeries(Execute(cfg, actions).store.rollup, dims, q, lo as real, hi as real, s1).Some?
    requires MetricsSeries(Execute(cfg, actions).store.rollup, dims, q, lo as real, hi as real, s2).Some?
    ensures WindowTotal(Execute(cfg, actions).store.rollup, dims, q, lo, hi, s1)
         == WindowTotal(Execute(cfg, actions).store.rollup, dims, q, lo, hi, s2)
  {
    RollupInvAlways(cfg, actions);
    StepIndependence(Execute(cfg, actions).store.rollup, dims, q, lo, hi, s1, None);
    StepIndependence(Execute(cfg, actions).store.rollup, dims, q, lo, hi, s2, None);
  }

  /** Emitted buckets are the aligned starts of the window, one after the other, no gaps. */
  lemma {:induction false} GridHasNoGaps(start: int, until: real, step: Step)
    ensures var g := Grid(start, until, step);
            && (forall i | 0 <= i < |g| :: g[i] == start + i * step && g[i] as real < until)
            && (start + |g| * step) as real >= until
    decreases until.Floor + 1 - start
  {
    if start as real < until {
      GridHasNoGaps(start + step, until, step);
    }
  }

  // ---- the loops ----------------------------------------------------------------------------

  /** The bucket loop with its safety valve; None is InvalidFilter. */
  method Buckets(start: int, until: real, step: Step) returns (buckets: Option<seq<int>>)
    ensures var g := Grid(start, until, step);
            buckets == if |g| > MAX_BUCKETS then None else Some(g)
  {
    var out: seq<int> := [];
    var bucket := start;
    while bucket as real < until
      invariant |out| <= MAX_BUCKETS
      invariant out + Grid(bucket, until, step) == Grid(start, until, step)
      decreases until.Floor + 1 - bucket
    {
      assert Grid(bucket, until, step) == [bucket] + Grid(bucket + step, until, step);
      out := out + [bucket];
      bucket := bucket + step;
      if |out| > MAX_BUCKETS {
        return None;
      }
    }
    assert out + [] == out;
    return Some(out);
  }

  method RowsOfBucket(t: Table, dims: seq<Dims>, q: Query, b: int, step: Step) returns (rows: seq<Stats>)
    ensures rows == RowsAt(t, dims, q, b, step)
  {
    rows := [];
    for i := 0 to |dims|
      invariant rows == RowsAt(t, dims[..i], q, b, step)
    {
      assert dims[..i + 1][..i] == dims[..i];
      if Matches(q, dims[i]) && RowKey(b, step, dims[i]) in t {
        rows := rows + [t[RowKey(b, step, dims[i])]];
      }
    }
    assert dims[..|dims|] == dims;
  }

  lemma PointsOverAt(t: Table, dims: seq<Dims>, q: Query, g: seq<int>, i: nat, step: Step)
    requires i < |g|
    ensures PointsOver(t, dims, q, g[i..], step)
         == [(g[i], BucketPoint(q.metric, RowsAt(t, dims, q, g[i], step), step))]
            + PointsOver(t, dims, q, g[i + 1..], step)
  {
    assert g[i..][1..] == g[i + 1..];
  }

  lemma Shift(points: Points, p: (int, Point), rest: Points)
    ensures points + ([p] + rest) == (points + [p]) + rest
  {
  }

  method ReadSeries(t: Table, dims: seq<Dims>, q: Query, since: real, until: real, step: Step)
    returns (series: Option<Points>)
    ensures series == MetricsSeries(t, dims, q, since, until, step)
  {
    if since >= until {
      return None;
    }
    var grid := Buckets(FloorBucket(since, step), until, step);
    if grid.None? {
      return None;
    }
    var g, points := grid.value, [];
    for i := 0 to |g|
      invariant points + PointsOver(t, dims, q, g[i..], step) == PointsOver(t, dims, q, g, step)
    {
      var rows := RowsOfBucket(t, dims, q, g[i], step);
      var point := BucketPoint(q.metric, rows, step);
      PointsOverAt(t, dims, q, g, i, step);
      Shift(points, (g[i], point), PointsOver(t, dims, q, g[i + 1..], step));
      points := points + [(g[i], point)];
    }
    assert points + [] == points;
    return Some(points);
  }
}
