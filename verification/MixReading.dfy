/**
 The model mix and the metric series of layawatch/store/queries.py read the same rows in two ways;
 here they are proved to agree, bucket by bucket and model by model.
 */
module MixReading {
  import opened Options
  import opened Rollup
  import opened RollupTable
  import opened Series
  import opened SeriesReading
  import opened ModelMix

  /** The requests series filtered by one model. */
  function OfOne(model: string): Query { Query(Requests, Some(model), None) }

  lemma MatchesOne(model: string, d: Dims)
    requires model != ""
    ensures Matches(OfOne(model), d) <==> d.metric.Requests? && d.model == model
  {
  }

  /** The counts of those of the rows `keys` that the series reads at one bucket. */
  function Among(t: Table, dims: seq<Dims>, keys: set<RowKey>, q: Query, b: int, step: Step): int {
    if dims == [] then 0
    else
      var d := dims[|dims| - 1];
      var r := RowKey(b, step, d);
      Among(t, dims[..|dims| - 1], keys, q, b, step)
      + (if Matches(q, d) && r in keys && r in t then t[r].count else 0)
  }

  lemma {:induction false} AmongNone(t: Table, dims: seq<Dims>, q: Query, b: int, step: Step)
    ensures Among(t, dims, {}, q, b, step) == 0
  {
    if dims != [] {
      AmongNone(t, dims[..|dims| - 1], q, b, step);
    }
  }

  lemma {:induction false} AmongOneMore(t: Table, dims: seq<Dims>, keys: set<RowKey>, k: RowKey, q: Query,
                                        b: int, step: Step)
    requires Distinct(dims) && k in t && k !in keys
    ensures Among(t, dims, keys + {k}, q, b, step)
         == Among(t, dims, keys, q, b, step)
            + (if k.bucket == b && k.step == step && k.dims in dims && Matches(q, k.dims)
               then t[k].count else 0)
  {
    if dims != [] {
      var front, d := dims[..|dims| - 1], dims[|dims| - 1];
      AmongOneMore(t, front, keys, k, q, b, step);
      assert dims == front + [d];
      assert d !in front;
      assert RowKey(b, step, d) in keys + {k} <==> RowKey(b, step, d) in keys || RowKey(b, step, d) == k;
    }
  }

  lemma CountSumSnoc(rows: seq<Stats>, s: Stats)
    ensures CountSum(rows + [s]) == CountSum(rows) + s.count
  {
    assert (rows + [s])[..|rows|] == rows;
  }

  /** When `keys` has every row the series reads, they are all the series reads. */
  lemma {:induction false} AmongAll(t: Table, dims: seq<Dims>, keys: set<RowKey>, q: Query, b: int, step: Step)
    requires forall d | Matches(q, d) && RowKey(b, step, d) in t :: RowKey(b, step, d) in keys
    ensures Among(t, dims, keys, q, b, step) == CountSum(RowsAt(t, dims, q, b, step))
  {
    if dims != [] {
      var front, d := dims[..|dims| - 1], dims[|dims| - 1];
      AmongAll(t, front, keys, q, b, step);
      if Matches(q, d) && RowKey(b, step, d) in t {
        CountSumSnoc(RowsAt(t, front, q, b, step), t[RowKey(b, step, d)]);
      } else {
        assert RowsAt(t, front, q, b, step) + [] == RowsAt(t, front, q, b, step);
      }
    }
  }

  /** One cell of the mix. */
  function Cell(rows: seq<MixRow>, b: int, model: string): int {
    CountIn(CountsOf(ByBucket(rows), b), model)
  }

  lemma CellSnoc(rows: seq<MixRow>, r: MixRow, b: int, model: string)
    ensures Cell(rows + [r], b, model)
         == Cell(rows, b, model) + (if r.bucket == b && r.model == model then r.count else 0)
  {
    assert (rows + [r])[..|rows|] == rows;
  }

  predicate IsSelected(t: Table, dims: seq<Dims>, k: RowKey, step: Step) {
    k in t && k.step == step && k.dims.metric.Requests? && k.dims in dims
  }

  ghost predicate AreSelected(t: Table, dims: seq<Dims>, keys: seq<RowKey>, step: Step) {
    forall i | 0 <= i < |keys| :: IsSelected(t, dims, keys[i], step)
  }

  function SetOf(keys: seq<RowKey>): set<RowKey> { set k | k in keys }

  /** One selected row more adds its count to its own cell on both sides. */
  lemma CellStep(t: Table, dims: seq<Dims>, front: seq<RowKey>, k: RowKey, b: int, step: Step, model: string)
    requires Distinct(dims) && AreSelected(t, dims, front, step) && IsSelected(t, dims, k, step)
    requires k !in front && model != ""
    requires Cell(RowsOf(t, front), b, model) == Among(t, dims, SetOf(front), OfOne(model), b, step)
    ensures Cell(RowsOf(t, front) + [MixRow(k.bucket, k.dims.model, t[k].count)], b, model)
         == Among(t, dims, SetOf(front) + {k}, OfOne(model), b, step)
  {
    CellSnoc(RowsOf(t, front), MixRow(k.bucket, k.dims.model, t[k].count), b, model);
    AmongOneMore(t, dims, SetOf(front), k, OfOne(model), b, step);
    MatchesOne(model, k.dims);
  }

  lemma SelectedSplit(t: Table, dims: seq<Dims>, front: seq<RowKey>, k: RowKey, step: Step)
    requires AreSelected(t, dims, front + [k], step) && Distinct(front + [k])
    ensures AreSelected(t, dims, front, step) && IsSelected(t, dims, k, step)
    ensures Distinct(front) && k !in front && SetOf(front + [k]) == SetOf(front) + {k}
  {
    var keys := front + [k];
    assert keys[|front|] == k && forall i | 0 <= i < |front| :: keys[i] == front[i];
  }

  lemma {:induction false} CellIsAmong(t: Table, dims: seq<Dims>, keys: seq<RowKey>, b: int, step: Step,
                                       model: string)
    requires Distinct(dims) && Distinct(keys) && AreSelected(t, dims, keys, step) && model != ""
    ensures Cell(RowsOf(t, keys), b, model)
         == Among(t, dims, SetOf(keys), OfOne(model), b, step)
  {
    if keys == [] {
      AmongNone(t, dims, OfOne(model), b, step);
      assert SetOf(keys) == {};
    } else {
      var front, k := keys[..|keys| - 1], keys[|keys| - 1];
      assert keys == front + [k];
      SelectedSplit(t, dims, front, k, step);
      CellIsAmong(t, dims, front, b, step, model);
      CellStep(t, dims, front, k, b, step, model);
    }
  }

  /** The dimensions of all rows, each once. */
  ghost predicate ListsDims(t: Table, dims: seq<Dims>) {
    Distinct(dims) && forall r: RowKey | r in t :: r.dims in dims
  }

  lemma CellIsSeries(t: Table, dims: seq<Dims>, keys: seq<RowKey>, start: int, until: real, step: Step,
                     b: int, model: string)
    requires ListsDims(t, dims) && Answers(t, keys, start, until, step) && model != ""
    requires forall i | 0 <= i < |keys| :: keys[i] in t
    requires start <= b && b as real < until
    ensures Cell(RowsOf(t, keys), b, model) == CountSum(RowsAt(t, dims, OfOne(model), b, step))
  {
    assert forall i | 0 <= i < |keys| :: keys[i] in keys && Selected(keys[i], start, until, step);
    CellIsAmong(t, dims, keys, b, step, model);
    forall d | Matches(OfOne(model), d) && RowKey(b, step, d) in t
      ensures RowKey(b, step, d) in SetOf(keys)
    {
      MatchesOne(model, d);
      assert Selected(RowKey(b, step, d), start, until, step);
    }
    AmongAll(t, dims, SetOf(keys), OfOne(model), b, step);
  }

  lemma {:induction false} EmittedAt(dict: map<int, Counts>, grid: seq<int>)
    ensures |Emitted(dict, grid)| == |grid|
    ensures forall i | 0 <= i < |grid| :: Emitted(dict, grid)[i] == (grid[i], CountsOf(dict, grid[i]))
  {
    if grid != [] {
      EmittedAt(dict, grid[..|grid| - 1]);
    }
  }

  /** The rate of a point over its whole step. */
  predicate CountsTo(p: Point, n: int, step: Step) { p.Rate? && Times(p.perSecond, step) == n as real }

  /**
   Over one window the mix has a bucket for each point of the requests series filtered by a model,
   and its count for that model is what the point's rate amounts to.
   */
  lemma MixAgreesWithSeries(t: Table, dims: seq<Dims>, keys: seq<RowKey>, since: real, until: real,
                            model: string)
    requires TableWellFormed(t) && ListsDims(t, dims) && model != ""
    requires var step := StepForRange(until - since);
             && Answers(t, keys, FloorBucket(since, step), until, step)
             && MetricsSeries(t, dims, OfOne(model), since, until, step).Some?
    requires forall i | 0 <= i < |keys| :: keys[i] in t
    ensures var step := StepForRange(until - since);
            var points := MetricsSeries(t, dims, OfOne(model), since, until, step).value;
            var buckets := Emitted(ByBucket(RowsOf(t, keys)), Grid(FloorBucket(since, step), until, step));
            && |buckets| == |points|
            && forall i | 0 <= i < |points| ::
                 buckets[i].0 == points[i].0 && CountsTo(points[i].1, CountIn(buckets[i].1, model), step)
  {
    var step := StepForRange(until - since);
    var start := FloorBucket(since, step);
    var grid := Grid(start, until, step);
    EmittedAt(ByBucket(RowsOf(t, keys)), grid);
    PointsAt(t, dims, OfOne(model), grid, step);
    GridHasNoGaps(start, until, step);
    forall i | 0 <= i < |grid|
      ensures CountsTo(BucketPoint(Requests, RowsAt(t, dims, OfOne(model), grid[i], step), step),
                       Cell(RowsOf(t, keys), grid[i], model), step)
    {
      CellIsSeries(t, dims, keys, start, until, step, grid[i], model);
      RowsAtWellFormed(t, dims, OfOne(model), grid[i], step);
      PointTells(Requests, RowsAt(t, dims, OfOne(model), grid[i], step), step);
    }
  }
}
