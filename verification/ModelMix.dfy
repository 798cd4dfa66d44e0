/**
 `metrics_models` of layawatch/store/queries.py: requests per model and bucket, every bucket of
 the window emitted. The query's rows come in any order.
 */
module ModelMix {
  import opened Options
  import opened Rollup
  import opened RollupTable
  import opened Series

  datatype MixRow = MixRow(bucket: int, model: string, count: int)

  type Counts = map<string, int>

  datatype Mix = Mix(step: Step, buckets: seq<(int, Counts)>, models: set<string>, total: int)

  /** `step_for_range`: up to 15 minutes, up to 6 hours, longer. */
  function StepForRange(seconds: real): Step {
    if seconds <= 900.0 then 10 else if seconds <= 21600.0 then 60 else 3600
  }

  /** Ten seconds while that makes at most 90 buckets, a minute while that makes at most 360. */
  lemma StepIsFinest(seconds: real)
    ensures StepForRange(seconds) == 10 <==> Share(seconds, 10) <= 90.0
    ensures StepForRange(seconds) != 3600 <==> Share(seconds, 60) <= 360.0
  {
  }

  function CountIn(counts: Counts, model: string): int {
    if model in counts then counts[model] else 0
  }

  function CountsOf(dict: map<int, Counts>, bucket: int): Counts {
    if bucket in dict then dict[bucket] else map[]
  }

  function AddCount(counts: Counts, model: string, n: int): Counts {
    counts[model := CountIn(counts, model) + n]
  }

  function AddRow(dict: map<int, Counts>, r: MixRow): map<int, Counts> {
    dict[r.bucket := AddCount(CountsOf(dict, r.bucket), r.model, r.count)]
  }

  /** The dict of dicts after the row loop. */
  function ByBucket(rows: seq<MixRow>): map<int, Counts> {
    if rows == [] then map[] else AddRow(ByBucket(rows[..|rows| - 1]), rows[|rows| - 1])
  }

  function RowTotal(rows: seq<MixRow>): int {
    if rows == [] then 0 else RowTotal(rows[..|rows| - 1]) + rows[|rows| - 1].count
  }

  function Emitted(dict: map<int, Counts>, grid: seq<int>): seq<(int, Counts)> {
    if grid == [] then []
    else Emitted(dict, grid[..|grid| - 1]) + [(grid[|grid| - 1], CountsOf(dict, grid[|grid| - 1]))]
  }

  // ---- the buckets add up -------------------------------------------------------------------

  ghost predicate Distinct<T>(s: seq<T>) {
    forall i, j | 0 <= i < j < |s| :: s[i] != s[j]
  }

  function BucketSum(counts: Counts, models: seq<string>): int {
    if models == [] then 0
    else BucketSum(counts, models[..|models| - 1]) + CountIn(counts, models[|models| - 1])
  }

  function MixSum(buckets: seq<(int, Counts)>, models: seq<string>): int {
    if buckets == [] then 0
    else MixSum(buckets[..|buckets| - 1], models) + BucketSum(buckets[|buckets| - 1].1, models)
  }

  /** One count changed in one dict changes that bucket's sum by as much. */
  lemma {:induction false} RaiseOne(counts: Counts, model: string, n: int, models: seq<string>)
    requires Distinct(models)
    ensures BucketSum(AddCount(counts, model, n), models)
         == BucketSum(counts, models) + (if model in models then n else 0)
  {
    if models != [] {
      var front, last := models[..|models| - 1], models[|models| - 1];
      RaiseOne(counts, model, n, front);
      assert models == front + [last];
      assert last !in front;
    }
  }

  lemma OneBucketRaised(dict: map<int, Counts>, r: MixRow, b: int, models: seq<string>)
    requires Distinct(models) && r.model in models
    ensures BucketSum(CountsOf(AddRow(dict, r), b), models)
         == BucketSum(CountsOf(dict, b), models) + (if b == r.bucket then r.count else 0)
  {
    RaiseOne(CountsOf(dict, r.bucket), r.model, r.count, models);
  }

  lemma LastEmitted(dict: map<int, Counts>, front: seq<int>, last: int, models: seq<string>)
    ensures MixSum(Emitted(dict, front + [last]), models)
         == MixSum(Emitted(dict, front), models) + BucketSum(CountsOf(dict, last), models)
  {
    assert (front + [last])[..|front|] == front;
    var done := Emitted(dict, front);
    assert (done + [(last, CountsOf(dict, last))])[..|done|] == done;
  }

  lemma {:induction false} RaiseBucket(dict: map<int, Counts>, r: MixRow, grid: seq<int>, models: seq<string>)
    requires Distinct(models) && Distinct(grid) && r.model in models
    ensures MixSum(Emitted(AddRow(dict, r), grid), models)
         == MixSum(Emitted(dict, grid), models) + (if r.bucket in grid then r.count else 0)
  {
    if grid != [] {
      var front, last := grid[..|grid| - 1], grid[|grid| - 1];
      RaiseBucket(dict, r, front, models);
      OneBucketRaised(dict, r, last, models);
      LastEmitted(dict, front, last, models);
      LastEmitted(AddRow(dict, r), front, last, models);
      assert grid == front + [last];
      assert last !in front;
    }
  }

  lemma {:induction false} NothingYet(grid: seq<int>, models: seq<string>)
    ensures MixSum(Emitted(map[], grid), models) == 0
  {
    if grid != [] {
      NothingYet(grid[..|grid| - 1], models);
      EmptyCounts(models);
    }
  }

  lemma {:induction false} EmptyCounts(models: seq<string>)
    ensures BucketSum(map[], models) == 0
  {
    if models != [] {
      EmptyCounts(models[..|models| - 1]);
    }
  }

  /** Nothing is counted that is not emitted, and nothing is emitted twice. */
  lemma {:induction false} BucketsAddUp(rows: seq<MixRow>, grid: seq<int>, models: seq<string>)
    requires Distinct(models) && Distinct(grid)
    requires forall i | 0 <= i < |rows| :: rows[i].model in models && rows[i].bucket in grid
    ensures MixSum(Emitted(ByBucket(rows), grid), models) == RowTotal(rows)
  {
    if rows == [] {
      NothingYet(grid, models);
    } else {
      var front, r := rows[..|rows| - 1], rows[|rows| - 1];
      BucketsAddUp(front, grid, models);
      RaiseBucket(ByBucket(front), r, grid, models);
    }
  }

  // ---- the window ---------------------------------------------------------------------------

  ghost predicate InWindow(rows: seq<MixRow>, start: int, until: real, step: Step) {
    forall i | 0 <= i < |rows| ::
      start <= rows[i].bucket && rows[i].bucket as real < until && rows[i].bucket % step == 0
  }

  lemma GridDistinct(start: int, until: real, step: Step)
    ensures Distinct(Grid(start, until, step))
  {
    GridHasNoGaps(start, until, step);
  }

  /** An aligned bucket of the window is emitted. */
  lemma {:induction false} GridCovers(start: int, until: real, step: Step, b: int)
    requires start % step == 0 && b % step == 0 && start <= b && b as real < until
    ensures b in Grid(start, until, step)
    decreases b - start
  {
    if start < b {
      StepBelow(start, b, step);
      GridCovers(start + step, until, step, b);
    }
  }

  function ModelsOf(rows: seq<MixRow>): set<string> { set i | 0 <= i < |rows| :: rows[i].model }

  /** The total is the sum of the emitted buckets over the listed models, in any order. */
  lemma MixTotalIsItsBuckets(rows: seq<MixRow>, start: int, until: real, step: Step, models: seq<string>)
    requires start % step == 0 && InWindow(rows, start, until, step)
    requires Distinct(models) && (set m | m in models) == ModelsOf(rows)
    ensures MixSum(Emitted(ByBucket(rows), Grid(start, until, step)), models) == RowTotal(rows)
  {
    GridDistinct(start, until, step);
    forall i | 0 <= i < |rows|
      ensures rows[i].model in models && rows[i].bucket in Grid(start, until, step)
    {
      GridCovers(start, until, step, rows[i].bucket);
      assert rows[i].model in ModelsOf(rows);
    }
    BucketsAddUp(rows, Grid(start, until, step), models);
  }

  // ---- the query ----------------------------------------------------------------------------

  /** Requests rows of one step that have a model, inside the window. */
  predicate Selected(r: RowKey, start: int, until: real, step: Step) {
    && r.step == step && r.dims.metric.Requests? && r.dims.model != ""
    && start <= r.bucket && r.bucket as real < until
  }

  /** `keys` lists the selected rows of the table, each once, in whatever order. */
  ghost predicate Answers(t: Table, keys: seq<RowKey>, start: int, until: real, step: Step) {
    Distinct(keys) && forall r: RowKey :: r in keys <==> r in t && Selected(r, start, until, step)
  }

  function RowsOf(t: Table, keys: seq<RowKey>): (rows: seq<MixRow>)
    requires forall i | 0 <= i < |keys| :: keys[i] in t
    ensures |rows| == |keys|
    ensures forall i | 0 <= i < |keys| ::
              rows[i] == MixRow(keys[i].bucket, keys[i].dims.model, t[keys[i]].count)
  {
    if keys == [] then []
    else
      var last := keys[|keys| - 1];
      RowsOf(t, keys[..|keys| - 1]) + [MixRow(last.bucket, last.dims.model, t[last].count)]
  }

  /** For the answer to the query on any table of well-formed rows. */
  lemma MixOfTable(t: Table, keys: seq<RowKey>, since: real, until: real, models: seq<string>)
    requires TableWellFormed(t) && since < until
    requires var step := StepForRange(until - since);
             Answers(t, keys, FloorBucket(since, step), until, step)
    requires forall i | 0 <= i < |keys| :: keys[i] in t
    requires Distinct(models) && (set m | m in models) == ModelsOf(RowsOf(t, keys))
    ensures var step := StepForRange(until - since);
            var grid := Grid(FloorBucket(since, step), until, step);
            MixSum(Emitted(ByBucket(RowsOf(t, keys)), grid), models) == RowTotal(RowsOf(t, keys))
  {
    var step := StepForRange(until - since);
    var start, rows := FloorBucket(since, step), RowsOf(t, keys);
    FloorBucketIsTheBucket(since, step);
    forall i | 0 <= i < |rows|
      ensures start <= rows[i].bucket && rows[i].bucket as real < until && rows[i].bucket % step == 0
    {
      assert keys[i] in keys && Selected(keys[i], start, until, step);
    }
    MixTotalIsItsBuckets(rows, start, until, step, models);
  }

  lemma OneMoreRow(rows: seq<MixRow>, i: nat)
    requires i < |rows|
    ensures ByBucket(rows[..i + 1]) == AddRow(ByBucket(rows[..i]), rows[i])
    ensures RowTotal(rows[..i + 1]) == RowTotal(rows[..i]) + rows[i].count
    ensures ModelsOf(rows[..i + 1]) == ModelsOf(rows[..i]) + {rows[i].model}
  {
    assert rows[..i + 1][..i] == rows[..i];
    ModelsSnoc(rows[..i], rows[i]);
    assert rows[..i + 1] == rows[..i] + [rows[i]];
  }

  lemma ModelsSnoc(front: seq<MixRow>, r: MixRow)
    ensures ModelsOf(front + [r]) == ModelsOf(front) + {r.model}
  {
    var rows := front + [r];
    assert rows[|front|] == r && forall i | 0 <= i < |front| :: rows[i] == front[i];
  }

  /** The loop over the query's rows. */
  method Tally(rows: seq<MixRow>) returns (dict: map<int, Counts>, models: set<string>, total: int)
    ensures dict == ByBucket(rows) && models == ModelsOf(rows) && total == RowTotal(rows)
  {
    dict, models, total := map[], {}, 0;
    for i := 0 to |rows|
      invariant dict == ByBucket(rows[..i]) && total == RowTotal(rows[..i])
      invariant models == ModelsOf(rows[..i])
    {
      OneMoreRow(rows, i);
      dict := AddRow(dict, rows[i]);
      models := models + {rows[i].model};
      total := total + rows[i].count;
    }
    assert rows[..|rows|] == rows;
  }

  /** The gap-free emission, empty buckets included. */
  method Emit(dict: map<int, Counts>, grid: seq<int>) returns (buckets: seq<(int, Counts)>)
    ensures buckets == Emitted(dict, grid)
  {
    buckets := [];
    for i := 0 to |grid|
      invariant buckets == Emitted(dict, grid[..i])
    {
      assert grid[..i + 1][..i] == grid[..i];
      buckets := buckets + [(grid[i], CountsOf(dict, grid[i]))];
    }
    assert grid[..|grid|] == grid;
  }

  /** None is InvalidFilter: an empty window or too many buckets. */
  method MetricsModels(rows: seq<MixRow>, since: real, until: real) returns (mix: Option<Mix>)
    ensures var step := StepForRange(until - since);
            var grid := Grid(FloorBucket(since, step), until, step);
            mix == if since >= until || |grid| > MAX_BUCKETS then None
                   else Some(Mix(step, Emitted(ByBucket(rows), grid), ModelsOf(rows), RowTotal(rows)))
  {
    if since >= until {
      return None;
    }
    var step := StepForRange(until - since);
    var dict, models, total := Tally(rows);
    var grid := Buckets(FloorBucket(since, step), until, step);
    if grid.None? {
      return None;
    }
    var buckets := Emit(dict, grid.value);
    return Some(Mix(step, buckets, models, total));
  }
}
