/** What the rollup table and the open buckets say about the committed traces, always. */
module WriterRollupLaws {
  import opened Options
  import opened Rollup
  import opened RollupTable
  import opened WriterModel

  // ---- exact columns as a monoid ----------------------------------------------------------

  function ExactRow(r: Option<Stats>): Option<Exact> {
    if r.Some? then Some(ExactOf(r.value)) else None
  }

  function ExactJoin(a: Option<Exact>, b: Option<Exact>): Option<Exact> {
    if a.None? then b else if b.None? then a
    else
      var x, y := a.value, b.value;
      Some(Exact(x.count + y.count, x.sum + y.sum,
                 if x.min <= y.min then x.min else y.min,
                 if x.max >= y.max then x.max else y.max))
  }

  lemma JoinExact(counter: bool, a: Option<Stats>, b: Option<Stats>)
    requires WellFormedRow(counter, a) && WellFormedRow(counter, b)
    ensures ExactRow(Join(counter, a, b)) == ExactJoin(ExactRow(a), ExactRow(b))
  {
    if !counter && a.Some? && b.Some? {
      PairWeight(a.value, b.value);
    }
  }

  ghost predicate Shaped(m: Metric, b: Bucket) {
    if IsCounter(m) then b.vals == [] && b.n >= 0 else b.n == 0
  }

  lemma StatsOfWellFormed(m: Metric, b: Bucket)
    ensures WellFormedRow(IsCounter(m), StatsOf(m, b))
  {
    if !IsCounter(m) && b.vals != [] {
      SummarizeWellFormed(b.vals);
    }
  }

  function ExactSummary(xs: seq<real>): Exact
    requires xs != []
  {
    Exact(|xs|, Sum(xs), MinOf(xs), MaxOf(xs))
  }

  /** The exact columns of an open bucket. */
  function ExactBucket(m: Metric, b: Bucket): Option<Exact> {
    if IsCounter(m) then if b.n <= 0 then None else Some(Exact(b.n, b.n as real, 1.0, 1.0))
    else if b.vals == [] then None else Some(ExactSummary(b.vals))
  }

  lemma ExactBucketIsExact(m: Metric, b: Bucket)
    ensures ExactRow(StatsOf(m, b)) == ExactBucket(m, b)
  {
  }

  lemma SampleExact(xs: seq<real>, v: real)
    requires xs != []
    ensures Some(ExactSummary(xs + [v]))
         == ExactJoin(Some(ExactSummary(xs)), Some(ExactSummary([v])))
  {
    SumSplit(xs, [v]);
    ExtremesOfBoth(xs, [v]);
  }

  lemma AddExact(m: Metric, b: Bucket, i: Item, k: BucketKey)
    requires m == k.dims.metric && Shaped(m, b)
    ensures Shaped(m, Add(b, i, k))
    ensures ExactBucket(m, Add(b, i, k))
         == ExactJoin(ExactBucket(m, b), ExactBucket(m, Add(EMPTY, i, k)))
  {
    if Contributes(i, k) && !IsCounter(m) {
      var v := if m.Latency? then i.trace.durationMs else i.trace.queueMs;
      assert EMPTY.vals + [v] == [v];
      if b.vals == [] {
        assert b.vals + [v] == [v];
      } else {
        SampleExact(b.vals, v);
      }
    }
  }

  lemma {:induction false} ContributionShaped(items: seq<Item>, k: BucketKey)
    ensures Shaped(k.dims.metric, Contribution(items, k))
  {
    if items != [] {
      ContributionShaped(items[..|items| - 1], k);
      AddExact(k.dims.metric, Contribution(items[..|items| - 1], k), items[|items| - 1], k);
    }
  }

  // ---- accumulation -----------------------------------------------------------------------

  lemma AccumulateAdds(work: OpenMap, t: Trace, k: BucketKey)
    ensures BucketAt(Accumulate(work, t), k) == Add(BucketAt(work, k), TraceItem(t), k)
    ensures k in Accumulate(work, t) <==> k in work || Contributes(TraceItem(t), k)
  {
    match k.dims.metric
    case Requests =>
    case Errors =>
    case Latency =>
    case Queue =>
  }

  // ---- the invariant ----------------------------------------------------------------------

  /**
   Key `k` accounts for `total`: stored row and open bucket together have its exact columns,
   and while no row is stored the open bucket holds precisely its samples.
   */
  ghost predicate KeyInv(open: OpenMap, t: Table, k: BucketKey, total: Bucket) {
    var m, row, b := k.dims.metric, Load(t, RowOf(k)), BucketAt(open, k);
    && (k in open ==> k.bucket % 10 == 0 && total != EMPTY)
    && Shaped(m, b) && Shaped(m, total)
    && (row.None? ==> b == total)
    && ExactJoin(ExactRow(row), ExactBucket(m, b)) == ExactBucket(m, total)
  }

  ghost predicate OpenAligned(open: OpenMap) { forall k | k in open :: k.bucket % 10 == 0 }

  /** Every row is well formed, every parent within the horizon the merge of its children. */
  ghost predicate TableOk(from: Option<real>, open: OpenMap, t: Table) {
    TableWellFormed(t) && CompleteWithin(t, from) && OpenAligned(open)
  }

  ghost predicate KeysOk(from: Option<real>, open: OpenMap, t: Table, committed: seq<Item>) {
    forall k: BucketKey | Within(from, k.bucket) :: KeyInv(open, t, k, Contribution(committed, k))
  }

  lemma ItemKeepsKey(open: OpenMap, t: Table, i: Item, k: BucketKey, total: Bucket)
    requires i.TraceItem? && KeyInv(open, t, k, total)
    ensures KeyInv(Accumulate(open, i.trace), t, k, Add(total, i, k))
  {
    AccumulateAdds(open, i.trace, k);
    AddExact(k.dims.metric, BucketAt(open, k), i, k);
    AddExact(k.dims.metric, total, i, k);
    FloorBucketIsTheBucket(i.trace.tsStart, 10);
  }

  lemma {:induction false} AccumulateKeepsKey(open: OpenMap, t: Table, done: seq<Item>, batch: seq<Item>, k: BucketKey)
    requires KeyInv(open, t, k, Contribution(done, k))
    ensures KeyInv(AccumulateAll(open, batch), t, k, Contribution(done + batch, k))
  {
    if batch == [] {
      assert done + batch == done;
    } else {
      var front, last := batch[..|batch| - 1], batch[|batch| - 1];
      AccumulateKeepsKey(open, t, done, front, k);
      assert (done + batch)[..|done + batch| - 1] == done + front;
      if last.TraceItem? {
        ItemKeepsKey(AccumulateAll(open, front), t, last, k, Contribution(done + front, k));
      }
    }
  }

  lemma CloseKeepsKey(open: OpenMap, t: Table, k: BucketKey, c: BucketKey, total: Bucket)
    requires TableWellFormed(t) && c in open && c.bucket % 10 == 0
    requires KeyInv(open, t, k, total)
    ensures KeyInv(open - {c}, CloseOne(t, c, open[c]), k, total)
  {
    ClosedRow(t, c, open[c], k);
    if k == c {
      var m, s := c.dims.metric, StatsOf(c.dims.metric, open[c]);
      ExactBucketIsExact(m, open[c]);
      StatsOfWellFormed(m, open[c]);
      JoinExact(IsCounter(m), Load(t, RowOf(c)), s);
    }
  }

  /** Closing bucket `c` merges its increment into its own 10 s row and no other. */
  lemma ClosedRow(t: Table, c: BucketKey, b: Bucket, k: BucketKey)
    requires c.bucket % 10 == 0
    ensures Load(CloseOne(t, c, b), RowOf(k))
         == if k == c then Join(IsCounter(c.dims.metric), Load(t, RowOf(c)), StatsOf(c.dims.metric, b))
            else Load(t, RowOf(k))
  {
    var s := StatsOf(c.dims.metric, b);
    if s.Some? && k.bucket % 10 == 0 {
      CascadeRows(t, c, s.value, RowOf(k));
    } else if s.Some? {
      CascadeFramesUnaligned(t, c, s.value, RowOf(k));
    }
  }

  lemma CascadeFramesUnaligned(t: Table, c: BucketKey, s: Stats, r: RowKey)
    requires c.bucket % 10 == 0 && r.step == 10 && r.bucket % 10 != 0
    ensures Load(Cascade(t, c, s), r) == Load(t, r)
  {
  }

  lemma CloseOneKeepsTable(from: Option<real>, open: OpenMap, t: Table, c: BucketKey)
    requires TableOk(from, open, t) && c in open
    ensures TableOk(from, open - {c}, CloseOne(t, c, open[c]))
  {
    var s := StatsOf(c.dims.metric, open[c]);
    StatsOfWellFormed(c.dims.metric, open[c]);
    if s.Some? {
      CascadeWellFormed(t, c, s.value);
      CascadeKeepsComplete(t, c, s.value, from);
    }
  }

  lemma CloseOneKeepsKeys(from: Option<real>, open: OpenMap, t: Table, done: seq<Item>, c: BucketKey)
    requires TableOk(from, open, t) && KeysOk(from, open, t, done) && c in open
    ensures KeysOk(from, open - {c}, CloseOne(t, c, open[c]), done)
  {
    forall k: BucketKey | Within(from, k.bucket)
      ensures KeyInv(open - {c}, CloseOne(t, c, open[c]), k, Contribution(done, k))
    {
      CloseKeepsKey(open, t, k, c, Contribution(done, k));
    }
  }

  /** What is still open once these keys are closed. */
  function Without(work: OpenMap, due: seq<BucketKey>): OpenMap { work - (set k | k in due) }

  lemma WithoutOneMore(work: OpenMap, due: seq<BucketKey>)
    requires due != [] && ValidDue(work, due)
    ensures var front, c := due[..|due| - 1], due[|due| - 1];
            && ValidDue(work, front) && c in Without(work, front)
            && Without(work, front)[c] == BucketAt(work, c)
            && Without(work, due) == Without(work, front) - {c}
  {
    var front, c := due[..|due| - 1], due[|due| - 1];
    assert due == front + [c] && c !in front;
  }

  lemma {:induction false} CloseAllKeepsTable(from: Option<real>, work: OpenMap, t: Table, due: seq<BucketKey>)
    requires TableOk(from, work, t) && ValidDue(work, due)
    ensures TableOk(from, Without(work, due), CloseAll(t, work, due))
  {
    if due == [] {
      assert Without(work, due) == work;
    } else {
      var front := due[..|due| - 1];
      WithoutOneMore(work, due);
      CloseAllKeepsTable(from, work, t, front);
      CloseOneKeepsTable(from, Without(work, front), CloseAll(t, work, front), due[|due| - 1]);
    }
  }

  lemma {:induction false} CloseAllKeepsKeys(from: Option<real>, work: OpenMap, t: Table, done: seq<Item>,
                                             due: seq<BucketKey>)
    requires TableOk(from, work, t) && KeysOk(from, work, t, done) && ValidDue(work, due)
    ensures KeysOk(from, Without(work, due), CloseAll(t, work, due), done)
  {
    if due == [] {
      assert Without(work, due) == work;
    } else {
      var front := due[..|due| - 1];
      WithoutOneMore(work, due);
      CloseAllKeepsTable(from, work, t, front);
      CloseAllKeepsKeys(from, work, t, done, front);
      CloseOneKeepsKeys(from, Without(work, front), CloseAll(t, work, front), done, due[|due| - 1]);
    }
  }

  lemma {:induction false} AccumulateAligned(open: OpenMap, batch: seq<Item>)
    requires OpenAligned(open)
    ensures OpenAligned(AccumulateAll(open, batch))
  {
    if batch != [] {
      var front, last := batch[..|batch| - 1], batch[|batch| - 1];
      AccumulateAligned(open, front);
      if last.TraceItem? {
        var work := AccumulateAll(open, front);
        FloorBucketIsTheBucket(last.trace.tsStart, 10);
        forall k | k in Accumulate(work, last.trace) ensures k.bucket % 10 == 0 {
          AccumulateAdds(work, last.trace, k);
        }
      }
    }
  }

  lemma CommitKeepsTable(from: Option<real>, s: State, due: seq<BucketKey>)
    requires TableOk(from, s.open, s.store.rollup) && ValidDue(Work(s), due)
    ensures TableOk(from, CommitOk(s, due).open, CommitOk(s, due).store.rollup)
  {
    AccumulateAligned(s.open, s.inflight);
    CloseAllKeepsTable(from, Work(s), s.store.rollup, due);
  }

  lemma CommitKeepsKeys(from: Option<real>, s: State, due: seq<BucketKey>)
    requires TableOk(from, s.open, s.store.rollup) && ValidDue(Work(s), due)
    requires KeysOk(from, s.open, s.store.rollup, s.hist.committed)
    ensures KeysOk(from, CommitOk(s, due).open, CommitOk(s, due).store.rollup, CommitOk(s, due).hist.committed)
  {
    var done := s.hist.committed + s.inflight;
    forall k: BucketKey | Within(from, k.bucket) ensures KeyInv(Work(s), s.store.rollup, k, Contribution(done, k)) {
      AccumulateKeepsKey(s.open, s.store.rollup, s.hist.committed, s.inflight, k);
    }
    AccumulateAligned(s.open, s.inflight);
    CloseAllKeepsKeys(from, Work(s), s.store.rollup, done, due);
  }

  lemma InitRollups()
    ensures TableOk(None, map[], map[]) && KeysOk(None, map[], map[], [])
  {
    forall p | IsParent(p) ensures Complete(map[], p) {
      ChildRowsWellFormed(map[], p.dims, p.bucket, p.bucket + p.step);
    }
  }

  // ---- every step ---------------------------------------------------------------------------

  ghost predicate StateTableOk(from: Option<real>, s: State) { TableOk(from, s.open, s.store.rollup) }

  ghost predicate StateKeysOk(from: Option<real>, s: State) {
    KeysOk(from, s.open, s.store.rollup, s.hist.committed)
  }

  predicate SameRollups(s: State, u: State) {
    u.open == s.open && u.store == s.store && u.hist.committed == s.hist.committed
  }

  predicate Commits(s: State, a: Action) {
    a.Commit? && a.outcome.Committed? && ValidDue(Work(s), a.due)
  }

  lemma OnlyCommitsTouchRollups(cfg: Config, s: State, a: Action)
    requires !Commits(s, a)
    ensures SameRollups(s, Next(cfg, s, a))
  {
    match a
    case Offer(t) => assert SameRollups(s, OfferTrace(cfg, s, t));
    case OfferLog(l) => assert SameRollups(s, OfferLogEntry(cfg, s, l));
    case Wake(i, timeUp) => assert SameRollups(s, WakeWaiter(cfg, s, i, timeUp));
    case Pop => assert SameRollups(s, PopOne(cfg, s));
    case Commit(outcome, due) => assert SameRollups(s, Finish(s, outcome, due));
    case BeginStop =>
  }

  lemma StepKeepsTable(from: Option<real>, cfg: Config, s: State, a: Action)
    requires StateTableOk(from, s)
    ensures StateTableOk(from, Next(cfg, s, a))
  {
    if Commits(s, a) {
      CommitKeepsTable(from, s, a.due);
      assert Next(cfg, s, a) == CommitOk(s, a.due);
    } else {
      OnlyCommitsTouchRollups(cfg, s, a);
    }
  }

  lemma StepKeepsKeys(from: Option<real>, cfg: Config, s: State, a: Action)
    requires StateTableOk(from, s) && StateKeysOk(from, s)
    ensures StateKeysOk(from, Next(cfg, s, a))
  {
    if Commits(s, a) {
      CommitKeepsKeys(from, s, a.due);
      assert Next(cfg, s, a) == CommitOk(s, a.due);
    } else {
      OnlyCommitsTouchRollups(cfg, s, a);
    }
  }

  lemma {:induction false} RollupInvAlways(cfg: Config, actions: seq<Action>)
    ensures StateTableOk(None, Execute(cfg, actions)) && StateKeysOk(None, Execute(cfg, actions))
  {
    if actions == [] {
      InitRollups();
    } else {
      var front := actions[..|actions| - 1];
      RollupInvAlways(cfg, front);
      StepKeepsTable(None, cfg, Execute(cfg, front), actions[|actions| - 1]);
      StepKeepsKeys(None, cfg, Execute(cfg, front), actions[|actions| - 1]);
    }
  }

  // ---- main results -----------------------------------------------------------------------

  /**
   Incremental equals batch: after any list of actions each 60 s and 3600 s row is the merge
   of the stored 10 s rows below it, in every column, percentiles included.
   */
  lemma IncrementalEqualsBatch(cfg: Config, actions: seq<Action>, parent: RowKey)
    requires IsParent(parent)
    ensures var t := Execute(cfg, actions).store.rollup;
            Load(t, parent) == JoinAll(IsCounter(parent.dims.metric), ChildrenOf(t, parent))
  {
    RollupInvAlways(cfg, actions);
    assert Complete(Execute(cfg, actions).store.rollup, parent);
  }

  /**
   Rollup conservation: stored row plus open bucket account for exactly the committed traces
   of the key, sampled-out ones included, however often the bucket was closed and refilled.
   */
  lemma RollupConservation(cfg: Config, actions: seq<Action>, k: BucketKey)
    ensures var s := Execute(cfg, actions);
            var m := k.dims.metric;
            ExactJoin(ExactRow(Load(s.store.rollup, RowOf(k))), ExactBucket(m, BucketAt(s.open, k)))
            == ExactBucket(m, Contribution(s.hist.committed, k))
  {
    RollupInvAlways(cfg, actions);
    var s := Execute(cfg, actions);
    assert KeyInv(s.open, s.store.rollup, k, Contribution(s.hist.committed, k));
  }

  /** Every stored row keeps its percentile chain and its bounds on the sum. */
  lemma StoredRowsAreOrdered(cfg: Config, actions: seq<Action>, r: RowKey)
    requires r in Execute(cfg, actions).store.rollup
    ensures WellFormed(IsCounter(r.dims.metric), Execute(cfg, actions).store.rollup[r])
  {
    RollupInvAlways(cfg, actions);
  }
}
