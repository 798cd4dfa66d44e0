/**
 The writer and the retention passes of one database over its lifetime: writer actions, passes
 and crashes in any order. A pass is one event, since it must not be interleaved with a commit,
 and none of its pending keys is still open in the writer.
 */
module Upkeep {
  import opened Options
  import opened Rollup
  import opened RollupTable
  import opened WriterModel
  import opened WriterLaws
  import opened WriterRollupLaws
  import opened Retention
  import opened Series

  /** The writer's state, and the horizon of the last pass. */
  datatype World = World(s: State, horizon: Option<real>)

  datatype Event =
    | Write(a: Action)
    | Prune(p: PassRecord)
    | Crash                      // the queue, the batch and the open buckets are gone; a new start

  const START := World(INIT, None)

  /** The raw rows of the pass are the stored traces, and nothing pending is open. */
  ghost predicate CanPass(w: World, p: PassRecord) {
    && multiset(Bodies(p.rows)) == multiset(w.s.store.traces)
    && Advances(w.horizon, p.horizon)
    && (forall k | k in p.pending :: k !in w.s.open)
    && IsPass(w.s.store.rollup, Unexpired(p.cascaded, p.horizon), p)
  }

  function PassOn(w: World, p: PassRecord): World {
    var kept := Bodies(p.rows[..KeepCount(p.rows, p.cutoff, p.cap)]);
    World(w.s.(store := Store(kept, w.s.store.logs, Unexpired(p.cascaded, p.horizon))), Some(p.horizon))
  }

  /** A new process on the same tables. */
  function Restart(s: State): State {
    s.(queue := [], inflight := [], waiting := [], open := map[], retried := false, stopping := false,
       obsDropped := 0, logsDropped := 0, writes := 0)
  }

  ghost function After(cfg: Config, w: World, e: Event): World {
    match e
    case Write(a) => w.(s := Next(cfg, w.s, a))
    case Prune(p) => if CanPass(w, p) then PassOn(w, p) else w
    case Crash => w.(s := Restart(w.s))
  }

  ghost function Live(cfg: Config, events: seq<Event>): World {
    if events == [] then START
    else After(cfg, Live(cfg, events[..|events| - 1]), events[|events| - 1])
  }

  // ---- parents, through crashes too ---------------------------------------------------------

  ghost predicate ParentsOk(w: World) { StateTableOk(w.horizon, w.s) }

  lemma PassKeepsParents(w: World, p: PassRecord)
    requires ParentsOk(w) && CanPass(w, p)
    ensures ParentsOk(PassOn(w, p))
  {
    PassKeepsComplete(w.s.store.rollup, Unexpired(p.cascaded, p.horizon), p, w.horizon);
  }

  lemma EventKeepsParents(cfg: Config, w: World, e: Event)
    requires ParentsOk(w)
    ensures ParentsOk(After(cfg, w, e))
  {
    match e
    case Write(a) => StepKeepsTable(w.horizon, cfg, w.s, a);
    case Prune(p) =>
      if CanPass(w, p) {
        PassKeepsParents(w, p);
      }
    case Crash =>
  }

  lemma {:induction false} ParentsAlways(cfg: Config, events: seq<Event>)
    ensures ParentsOk(Live(cfg, events))
  {
    if events == [] {
      InitRollups();
    } else {
      ParentsAlways(cfg, events[..|events| - 1]);
      EventKeepsParents(cfg, Live(cfg, events[..|events| - 1]), events[|events| - 1]);
    }
  }

  /**
   Over a whole lifetime of commits, passes and crashes: every parent at or past the last
   horizon is the merge of the 10 s rows beneath it.
   */
  lemma CompleteForLife(cfg: Config, events: seq<Event>, parent: RowKey)
    requires IsParent(parent) && Within(Live(cfg, events).horizon, parent.bucket)
    ensures Complete(Live(cfg, events).s.store.rollup, parent)
  {
    ParentsAlways(cfg, events);
  }

  /** So the series of a lifetime's table are step-independent from the last horizon on. */
  lemma SeriesForLife(cfg: Config, events: seq<Event>, dims: seq<Dims>, q: Query, lo: int, hi: int,
                      s1: Step, s2: Step)
    requires IsCounter(q.metric) && lo % 3600 == 0 && hi % 3600 == 0 && lo < hi
    requires Within(Live(cfg, events).horizon, lo)
    requires MetricsSeries(Live(cfg, events).s.store.rollup, dims, q, lo as real, hi as real, s1).Some?
    requires MetricsSeries(Live(cfg, events).s.store.rollup, dims, q, lo as real, hi as real, s2).Some?
    ensures WindowTotal(Live(cfg, events).s.store.rollup, dims, q, lo, hi, s1)
         == WindowTotal(Live(cfg, events).s.store.rollup, dims, q, lo, hi, s2)
  {
    var w := Live(cfg, events);
    ParentsAlways(cfg, events);
    StepIndependence(w.s.store.rollup, dims, q, lo, hi, s1, w.horizon);
    StepIndependence(w.s.store.rollup, dims, q, lo, hi, s2, w.horizon);
  }

  // ---- conservation, while no open bucket is lost -------------------------------------------

  /** The process ended with nothing open, if it ended: stopped in order, or nothing to lose. */
  ghost predicate LosesNoBucket(w: World, e: Event) { e.Crash? ==> w.s.open == map[] }

  ghost predicate Clean(cfg: Config, events: seq<Event>) {
    events == []
    || (Clean(cfg, events[..|events| - 1])
        && LosesNoBucket(Live(cfg, events[..|events| - 1]), events[|events| - 1]))
  }

  /** The raw table holds committed traces only, some perhaps pruned. */
  ghost predicate RawOk(s: State) {
    multiset(s.store.traces) <= multiset(KeptOf(TracesOf(s.hist.committed)))
  }

  ghost predicate CountsOk(w: World) { StateKeysOk(w.horizon, w.s) && RawOk(w.s) }

  lemma {:induction false} KeptIsCommitted(items: seq<Item>, t: Trace)
    requires t in multiset(KeptOf(TracesOf(items)))
    ensures TraceItem(t) in items
  {
    var front, last := items[..|items| - 1], items[|items| - 1];
    var ts := TracesOf(front);
    assert items == front + [last];
    if last.TraceItem? {
      assert (ts + [last.trace])[..|ts|] == ts;
    }
    if last != TraceItem(t) {
      KeptIsCommitted(front, t);
    }
  }

  /** A key some item counts towards has a contribution. */
  lemma {:induction false} ContributorCounts(items: seq<Item>, i: Item, k: BucketKey)
    requires i in items && Contributes(i, k)
    ensures Contribution(items, k) != EMPTY
  {
    var front, last := items[..|items| - 1], items[|items| - 1];
    assert items == front + [last];
    ContributionShaped(front, k);
    if !Contributes(last, k) {
      ContributorCounts(front, i, k);
    }
  }

  lemma BodyIsStored(rows: seq<TraceRow>, i: nat)
    requires i < |rows|
    ensures rows[i].body in multiset(Bodies(rows))
  {
    BodyAt(rows, i);
    assert Bodies(rows)[i] in multiset(Bodies(rows));
  }

  lemma {:induction false} BodyAt(rows: seq<TraceRow>, i: nat)
    requires i < |rows|
    ensures Bodies(rows)[i] == rows[i].body
  {
    if i < |rows| - 1 {
      BodyAt(rows[..|rows| - 1], i);
    }
  }

  lemma PendingRowIsThere(w: World, p: PassRecord, k: BucketKey)
    requires ParentsOk(w) && CountsOk(w) && CanPass(w, p) && k in p.pending
    ensures RowOf(k) in w.s.store.rollup
  {
    var s := w.s;
    assert Pends(p.rows, k, p.cutoff, p.cap, p.horizon);
    var i :| 0 <= i < |p.rows| && Doomed(p.rows, i, p.cutoff, p.cap)
             && Contributes(TraceItem(p.rows[i].body), k);
    BodyIsStored(p.rows, i);
    KeptIsCommitted(s.hist.committed, p.rows[i].body);
    ContributorCounts(s.hist.committed, TraceItem(p.rows[i].body), k);
    assert KeyInv(s.open, s.store.rollup, k, Contribution(s.hist.committed, k));
  }

  lemma PassKeepsRow(w: World, p: PassRecord, k: BucketKey)
    requires ParentsOk(w) && CountsOk(w) && CanPass(w, p) && k.bucket as real >= p.horizon
    ensures Load(Unexpired(p.cascaded, p.horizon), RowOf(k)) == Load(w.s.store.rollup, RowOf(k))
  {
    var t := w.s.store.rollup;
    assert Load(p.built, RowOf(k)) == BuiltRow(t, p.rows, p.pending, RowOf(k));
    assert Load(p.cascaded, RowOf(k)) == CascadedRow(p.built, ParentsOf(p.pending), RowOf(k));
    if k in p.pending {
      PendingRowIsThere(w, p, k);
    }
  }

  lemma PassKeepsKeys(w: World, p: PassRecord)
    requires ParentsOk(w) && CountsOk(w) && CanPass(w, p)
    ensures StateKeysOk(Some(p.horizon), PassOn(w, p).s)
  {
    var s, u := w.s, PassOn(w, p).s;
    forall k: BucketKey | Within(Some(p.horizon), k.bucket)
      ensures KeyInv(u.open, u.store.rollup, k, Contribution(u.hist.committed, k))
    {
      assert KeyInv(s.open, s.store.rollup, k, Contribution(s.hist.committed, k));
      PassKeepsRow(w, p, k);
    }
  }

  lemma {:induction false} BodiesOfPrefix(rows: seq<TraceRow>, n: nat)
    requires n <= |rows|
    ensures Bodies(rows[..n]) == Bodies(rows)[..n]
  {
    if n < |rows| {
      var front := rows[..|rows| - 1];
      BodiesOfPrefix(front, n);
      assert front[..n] == rows[..n];
      assert Bodies(rows)[..|rows| - 1] == Bodies(front);
    } else {
      assert rows[..n] == rows;
    }
  }

  lemma PassKeepsRaw(w: World, p: PassRecord)
    requires RawOk(w.s) && CanPass(w, p)
    ensures RawOk(PassOn(w, p).s)
  {
    var n, all := KeepCount(p.rows, p.cutoff, p.cap), Bodies(p.rows);
    BodiesOfPrefix(p.rows, n);
    assert all == all[..n] + all[n..];
  }

  lemma StepKeepsRaw(cfg: Config, s: State, a: Action)
    requires RawOk(s)
    ensures RawOk(Next(cfg, s, a))
  {
    if Commits(s, a) {
      CommitKeepsRaw(s, a.due);
      assert Next(cfg, s, a) == CommitOk(s, a.due);
    } else {
      OnlyCommitsTouchRollups(cfg, s, a);
    }
  }

  lemma CommitKeepsRaw(s: State, due: seq<BucketKey>)
    requires RawOk(s)
    ensures RawOk(CommitOk(s, due))
  {
    KeptOfBoth(s.hist.committed, s.inflight);
  }

  lemma KeptOfBoth(a: seq<Item>, b: seq<Item>)
    ensures KeptOf(TracesOf(a + b)) == KeptOf(TracesOf(a)) + KeptOf(TracesOf(b))
  {
    ListsSplit(a, b);
    KeptSplit(TracesOf(a), TracesOf(b));
  }

  lemma EventKeepsCounts(cfg: Config, w: World, e: Event)
    requires ParentsOk(w) && CountsOk(w) && LosesNoBucket(w, e)
    ensures CountsOk(After(cfg, w, e))
  {
    match e
    case Write(a) =>
      StepKeepsKeys(w.horizon, cfg, w.s, a);
      StepKeepsRaw(cfg, w.s, a);
    case Prune(p) =>
      if CanPass(w, p) {
        PassKeepsKeys(w, p);
        PassKeepsRaw(w, p);
      }
    case Crash => RestartKeepsKeys(w);
  }

  lemma RestartKeepsKeys(w: World)
    requires CountsOk(w) && w.s.open == map[]
    ensures CountsOk(w.(s := Restart(w.s)))
  {
    var s, u := w.s, Restart(w.s);
    forall k: BucketKey | Within(w.horizon, k.bucket)
      ensures KeyInv(u.open, u.store.rollup, k, Contribution(u.hist.committed, k))
    {
      assert KeyInv(s.open, s.store.rollup, k, Contribution(s.hist.committed, k));
    }
  }

  lemma {:induction false} CountsAlways(cfg: Config, events: seq<Event>)
    requires Clean(cfg, events)
    ensures CountsOk(Live(cfg, events))
  {
    if events == [] {
      InitRollups();
    } else {
      CountsAlways(cfg, events[..|events| - 1]);
      ParentsAlways(cfg, events[..|events| - 1]);
      EventKeepsCounts(cfg, Live(cfg, events[..|events| - 1]), events[|events| - 1]);
    }
  }

  /**
   As long as no open bucket was ever lost, a pass finds every 10 s row it looks for: what it
   rolls up was closed by the writer, so nothing is built and nothing counted twice.
   */
  lemma PassBuildsNothing(cfg: Config, events: seq<Event>, p: PassRecord, k: BucketKey)
    requires Clean(cfg, events) && CanPass(Live(cfg, events), p) && k in p.pending
    ensures RowOf(k) in Live(cfg, events).s.store.rollup
  {
    ParentsAlways(cfg, events);
    CountsAlways(cfg, events);
    PendingRowIsThere(Live(cfg, events), p, k);
  }

  /**
   Through any passes and restarts that lose no open bucket, stored row plus open bucket of a key
   at or past the last horizon account for exactly the committed traces of the key, whether or
   not their raw rows are still there.
   */
  lemma ConservationForLife(cfg: Config, events: seq<Event>, k: BucketKey)
    requires Clean(cfg, events) && Within(Live(cfg, events).horizon, k.bucket)
    ensures var s := Live(cfg, events).s;
            var m := k.dims.metric;
            ExactJoin(ExactRow(Load(s.store.rollup, RowOf(k))), ExactBucket(m, BucketAt(s.open, k)))
            == ExactBucket(m, Contribution(s.hist.committed, k))
  {
    CountsAlways(cfg, events);
    var s := Live(cfg, events).s;
    assert KeyInv(s.open, s.store.rollup, k, Contribution(s.hist.committed, k));
  }

  // ---- never too much, through any crash ----------------------------------------------------

  /** Units or samples in a bucket. */
  function Weight(m: Metric, b: Bucket): int { if IsCounter(m) then b.n else |b.vals| }

  function RowCount(r: Option<Stats>): int { if r.Some? then r.value.count else 0 }

  /** Stored row and open bucket of `k` together count no more than `total`. */
  ghost predicate NotOver(open: OpenMap, t: Table, k: BucketKey, total: Bucket) {
    var m := k.dims.metric;
    && Shaped(m, BucketAt(open, k)) && Shaped(m, total)
    && RowCount(Load(t, RowOf(k))) + Weight(m, BucketAt(open, k)) <= Weight(m, total)
  }

  ghost predicate NoneOver(s: State) {
    forall k :: NotOver(s.open, s.store.rollup, k, Contribution(s.hist.committed, k))
  }

  lemma AddWeighs(b: Bucket, i: Item, k: BucketKey)
    requires Shaped(k.dims.metric, b)
    ensures Shaped(k.dims.metric, Add(b, i, k))
    ensures Weight(k.dims.metric, Add(b, i, k))
         == Weight(k.dims.metric, b) + (if Contributes(i, k) then 1 else 0)
  {
  }

  lemma StatsWeigh(m: Metric, b: Bucket)
    requires Shaped(m, b)
    ensures RowCount(StatsOf(m, b)) == Weight(m, b)
  {
  }

  lemma JoinCounts(counter: bool, a: Option<Stats>, b: Option<Stats>)
    requires WellFormedRow(counter, a) && WellFormedRow(counter, b)
    ensures RowCount(Join(counter, a, b)) == RowCount(a) + RowCount(b)
  {
    JoinExact(counter, a, b);
  }

  lemma ItemKeepsNotOver(open: OpenMap, t: Table, i: Item, k: BucketKey, total: Bucket)
    requires i.TraceItem? && NotOver(open, t, k, total)
    ensures NotOver(Accumulate(open, i.trace), t, k, Add(total, i, k))
  {
    AccumulateAdds(open, i.trace, k);
    AddWeighs(BucketAt(open, k), i, k);
    AddWeighs(total, i, k);
  }

  lemma {:induction false} BatchKeepsNotOver(open: OpenMap, t: Table, done: seq<Item>, batch: seq<Item>, k: BucketKey)
    requires NotOver(open, t, k, Contribution(done, k))
    ensures NotOver(AccumulateAll(open, batch), t, k, Contribution(done + batch, k))
  {
    if batch == [] {
      assert done + batch == done;
    } else {
      var front, last := batch[..|batch| - 1], batch[|batch| - 1];
      BatchKeepsNotOver(open, t, done, front, k);
      assert (done + batch)[..|done + batch| - 1] == done + front;
      if last.TraceItem? {
        ItemKeepsNotOver(AccumulateAll(open, front), t, last, k, Contribution(done + front, k));
      }
    }
  }

  lemma CloseKeepsNotOver(open: OpenMap, t: Table, c: BucketKey, k: BucketKey, total: Bucket)
    requires TableWellFormed(t) && c in open && c.bucket % 10 == 0 && NotOver(open, t, k, total)
    ensures NotOver(open - {c}, CloseOne(t, c, open[c]), k, total)
  {
    ClosedRow(t, c, open[c], k);
    if k == c {
      var m := c.dims.metric;
      StatsWeigh(m, open[c]);
      StatsOfWellFormed(m, open[c]);
      JoinCounts(IsCounter(m), Load(t, RowOf(c)), StatsOf(m, open[c]));
    }
  }

  lemma {:induction false} CloseAllKeepsNotOver(from: Option<real>, work: OpenMap, t: Table, due: seq<BucketKey>,
                                                k: BucketKey, total: Bucket)
    requires TableOk(from, work, t) && ValidDue(work, due) && NotOver(work, t, k, total)
    ensures NotOver(Without(work, due), CloseAll(t, work, due), k, total)
  {
    if due == [] {
      assert Without(work, due) == work;
    } else {
      var front := due[..|due| - 1];
      WithoutOneMore(work, due);
      CloseAllKeepsTable(from, work, t, front);
      CloseAllKeepsNotOver(from, work, t, front, k, total);
      CloseKeepsNotOver(Without(work, front), CloseAll(t, work, front), due[|due| - 1], k, total);
    }
  }

  lemma CommitKeepsNoneOver(from: Option<real>, s: State, due: seq<BucketKey>)
    requires StateTableOk(from, s) && NoneOver(s) && ValidDue(Work(s), due)
    ensures NoneOver(CommitOk(s, due))
  {
    var done := s.hist.committed + s.inflight;
    var u := CommitOk(s, due);
    AccumulateAligned(s.open, s.inflight);
    forall k ensures NotOver(u.open, u.store.rollup, k, Contribution(u.hist.committed, k)) {
      assert NotOver(s.open, s.store.rollup, k, Contribution(s.hist.committed, k));
      BatchKeepsNotOver(s.open, s.store.rollup, s.hist.committed, s.inflight, k);
      CloseAllKeepsNotOver(from, Work(s), s.store.rollup, due, k, Contribution(done, k));
    }
  }

  lemma StepKeepsNoneOver(from: Option<real>, cfg: Config, s: State, a: Action)
    requires StateTableOk(from, s) && NoneOver(s)
    ensures NoneOver(Next(cfg, s, a))
  {
    if Commits(s, a) {
      CommitKeepsNoneOver(from, s, a.due);
      assert Next(cfg, s, a) == CommitOk(s, a.due);
    } else {
      OnlyCommitsTouchRollups(cfg, s, a);
      NoneOverFrame(s, Next(cfg, s, a));
    }
  }

  lemma NoneOverFrame(s: State, u: State)
    requires NoneOver(s) && SameRollups(s, u)
    ensures NoneOver(u)
  {
    forall k ensures NotOver(u.open, u.store.rollup, k, Contribution(u.hist.committed, k)) {
      assert NotOver(s.open, s.store.rollup, k, Contribution(s.hist.committed, k));
    }
  }

  // ---- what retention builds is no more than what was committed -----------------------------

  lemma {:induction false} OfTracesShaped(ts: seq<Trace>, k: BucketKey)
    ensures Shaped(k.dims.metric, OfTraces(ts, k)) && Weight(k.dims.metric, OfTraces(ts, k)) >= 0
  {
    if ts != [] {
      OfTracesShaped(ts[..|ts| - 1], k);
      AddWeighs(OfTraces(ts[..|ts| - 1], k), TraceItem(ts[|ts| - 1]), k);
    }
  }

  lemma SameBagSameWeight(m: Metric, a: Bucket, b: Bucket)
    requires SameBag(a, b)
    ensures Weight(m, a) == Weight(m, b)
  {
    SameBagSameLength(a.vals, b.vals);
  }

  lemma {:induction false} SubBagWeighsLess(a: seq<Trace>, b: seq<Trace>, k: BucketKey)
    requires multiset(a) <= multiset(b)
    ensures Weight(k.dims.metric, OfTraces(a, k)) <= Weight(k.dims.metric, OfTraces(b, k))
  {
    OfTracesShaped(b, k);
    if a != [] {
      var front, t := a[..|a| - 1], a[|a| - 1];
      assert a == front + [t] && t in multiset(a);
      var j :| 0 <= j < |b| && b[j] == t;
      RemovedBag(front, t, b, j);
      SubBagWeighsLess(front, RemoveAt(b, j), k);
      OfTracesShaped(front, k);
      OfTracesShaped(RemoveAt(b, j), k);
      OfTracesSnoc(front, t, k);
      TakeOut(b, j, k);
      AddWeighs(OfTraces(front, k), TraceItem(t), k);
      AddWeighs(OfTraces(RemoveAt(b, j), k), TraceItem(t), k);
      SameBagSameWeight(k.dims.metric, OfTraces(b, k), Add(OfTraces(RemoveAt(b, j), k), TraceItem(t), k));
    }
  }

  lemma RemovedBag(front: seq<Trace>, t: Trace, b: seq<Trace>, j: nat)
    requires j < |b| && b[j] == t && multiset(front + [t]) <= multiset(b)
    ensures multiset(front) <= multiset(RemoveAt(b, j))
  {
    assert b == b[..j] + [b[j]] + b[j + 1..];
    assert multiset(b) == multiset(RemoveAt(b, j)) + multiset{t};
    assert multiset(front + [t]) == multiset(front) + multiset{t};
  }

  lemma KeptOneMore(front: seq<Item>, last: Item)
    ensures KeptOf(TracesOf(front + [last]))
         == if last.TraceItem? && IsKept(last.trace) then KeptOf(TracesOf(front)) + [last.trace]
            else KeptOf(TracesOf(front))
  {
    var ts := TracesOf(front);
    assert (front + [last])[..|front|] == front;
    if last.TraceItem? {
      assert (ts + [last.trace])[..|ts|] == ts;
    }
  }

  lemma WeighOneMore(ts: seq<Trace>, t: Trace, k: BucketKey)
    ensures Weight(k.dims.metric, OfTraces(ts + [t], k))
         == Weight(k.dims.metric, OfTraces(ts, k)) + (if Contributes(TraceItem(t), k) then 1 else 0)
  {
    OfTracesShaped(ts, k);
    OfTracesSnoc(ts, t, k);
    AddWeighs(OfTraces(ts, k), TraceItem(t), k);
  }

  lemma {:induction false} KeptWeighLess(items: seq<Item>, k: BucketKey)
    ensures Weight(k.dims.metric, OfTraces(KeptOf(TracesOf(items)), k))
         <= Weight(k.dims.metric, Contribution(items, k))
  {
    if items != [] {
      var front, last := items[..|items| - 1], items[|items| - 1];
      assert items == front + [last];
      KeptWeighLess(front, k);
      ContributionShaped(front, k);
      AddWeighs(Contribution(front, k), last, k);
      KeptOneMore(front, last);
      if last.TraceItem? {
        WeighOneMore(KeptOf(TracesOf(front)), last.trace, k);
      }
    }
  }

  lemma BuiltWeighsLess(w: World, p: PassRecord, k: BucketKey)
    requires RawOk(w.s) && CanPass(w, p) && k in p.pending
    ensures RowCount(GatherStats(p.rows, k))
         <= Weight(k.dims.metric, Contribution(w.s.hist.committed, k))
  {
    assert Pends(p.rows, k, p.cutoff, p.cap, p.horizon);
    var i :| 0 <= i < |p.rows| && Doomed(p.rows, i, p.cutoff, p.cap)
             && Contributes(TraceItem(p.rows[i].body), k);
    ContributedKeysAreWriterKeys(TraceItem(p.rows[i].body), k);
    GatheredShaped(p.rows, k);
    StatsWeigh(k.dims.metric, Gathered(p.rows, k));
    GatheredIsOfTraces(p.rows, k);
    SubBagWeighsLess(Bodies(p.rows), KeptOf(TracesOf(w.s.hist.committed)), k);
    KeptWeighLess(w.s.hist.committed, k);
  }

  lemma PassKeepsNotOver(w: World, p: PassRecord, k: BucketKey)
    requires RawOk(w.s) && CanPass(w, p) && TableWellFormed(w.s.store.rollup)
    requires NotOver(w.s.open, w.s.store.rollup, k, Contribution(w.s.hist.committed, k))
    ensures NotOver(w.s.open, Unexpired(p.cascaded, p.horizon), k, Contribution(w.s.hist.committed, k))
  {
    var t := w.s.store.rollup;
    PassedRow(w, p, k);
    if k in p.pending && Buildable(t, p.rows, k) {
      BuiltWeighsLess(w, p, k);
    }
  }

  /** A pass leaves the row of a 10 s key, builds it if it is missing and pending, or prunes it. */
  lemma PassedRow(w: World, p: PassRecord, k: BucketKey)
    requires CanPass(w, p)
    ensures var row := Load(Unexpired(p.cascaded, p.horizon), RowOf(k));
            || row == None
            || row == Load(w.s.store.rollup, RowOf(k))
            || (k in p.pending && Buildable(w.s.store.rollup, p.rows, k) && row == GatherStats(p.rows, k))
  {
    assert Load(p.built, RowOf(k)) == BuiltRow(w.s.store.rollup, p.rows, p.pending, RowOf(k));
    assert Load(p.cascaded, RowOf(k)) == CascadedRow(p.built, ParentsOf(p.pending), RowOf(k));
  }

  lemma PassKeepsNoneOver(w: World, p: PassRecord)
    requires RawOk(w.s) && NoneOver(w.s) && CanPass(w, p) && TableWellFormed(w.s.store.rollup)
    ensures NoneOver(PassOn(w, p).s)
  {
    var u := PassOn(w, p).s;
    forall k ensures NotOver(u.open, u.store.rollup, k, Contribution(u.hist.committed, k)) {
      assert NotOver(w.s.open, w.s.store.rollup, k, Contribution(w.s.hist.committed, k));
      PassKeepsNotOver(w, p, k);
    }
  }

  lemma RestartKeepsNoneOver(s: State)
    requires NoneOver(s)
    ensures NoneOver(Restart(s))
  {
    forall k ensures NotOver(map[], s.store.rollup, k, Contribution(s.hist.committed, k)) {
      assert NotOver(s.open, s.store.rollup, k, Contribution(s.hist.committed, k));
    }
  }

  lemma EventKeepsNoneOver(cfg: Config, w: World, e: Event)
    requires ParentsOk(w) && RawOk(w.s) && NoneOver(w.s)
    ensures RawOk(After(cfg, w, e).s) && NoneOver(After(cfg, w, e).s)
  {
    match e
    case Write(a) =>
      StepKeepsRaw(cfg, w.s, a);
      StepKeepsNoneOver(w.horizon, cfg, w.s, a);
    case Prune(p) =>
      if CanPass(w, p) {
        PassKeepsRaw(w, p);
        PassKeepsNoneOver(w, p);
      }
    case Crash => RestartKeepsNoneOver(w.s);
  }

  lemma {:induction false} NoneOverAlways(cfg: Config, events: seq<Event>)
    ensures RawOk(Live(cfg, events).s) && NoneOver(Live(cfg, events).s)
  {
    if events != [] {
      NoneOverAlways(cfg, events[..|events| - 1]);
      ParentsAlways(cfg, events[..|events| - 1]);
      EventKeepsNoneOver(cfg, Live(cfg, events[..|events| - 1]), events[|events| - 1]);
    }
  }

  /**
   Whatever crashes and passes there were, stored row and open bucket of a key never count more
   than the committed traces of the key: a crash can lose counts, nothing counts a trace twice.
   */
  lemma NeverCountedTwice(cfg: Config, events: seq<Event>, k: BucketKey)
    ensures var s := Live(cfg, events).s;
            RowCount(Load(s.store.rollup, RowOf(k))) + Weight(k.dims.metric, BucketAt(s.open, k))
            <= Weight(k.dims.metric, Contribution(s.hist.committed, k))
  {
    NoneOverAlways(cfg, events);
    var s := Live(cfg, events).s;
    assert NotOver(s.open, s.store.rollup, k, Contribution(s.hist.committed, k));
  }

  // ---- what a pass and a crash leave --------------------------------------------------------

  lemma LastEvent(cfg: Config, events: seq<Event>, e: Event)
    ensures Live(cfg, events + [e]) == After(cfg, Live(cfg, events), e)
  {
    assert (events + [e])[..|events|] == events;
  }

  /** Exactly the rows within cap and cutoff stand for a stored trace, in order. */
  ghost predicate PrunedTo(traces: seq<Trace>, p: PassRecord) {
    && |traces| <= |p.rows|
    && (forall i | 0 <= i < |traces| :: traces[i] == p.rows[i].body)
    && (forall i | 0 <= i < |p.rows| :: i < |traces| <==> p.rows[i].ts >= p.cutoff && i < p.cap)
  }

  lemma KeptArePruned(p: PassRecord)
    requires NewestFirst(p.rows)
    ensures PrunedTo(Bodies(p.rows[..KeepCount(p.rows, p.cutoff, p.cap)]), p)
  {
    var n := KeepCount(p.rows, p.cutoff, p.cap);
    BodiesOfPrefix(p.rows, n);
    forall i | 0 <= i < |p.rows| ensures i < n <==> p.rows[i].ts >= p.cutoff && i < p.cap {
      DoomedIsTheTail(p.rows, i, p.cutoff, p.cap);
    }
    forall i | 0 <= i < n ensures Bodies(p.rows)[..n][i] == p.rows[i].body {
      BodyAt(p.rows, i);
    }
  }

  /** A pass leaves the raw traces within cap and cutoff, no row before its horizon, and the writer alone. */
  lemma PassLeaves(cfg: Config, events: seq<Event>, p: PassRecord)
    requires CanPass(Live(cfg, events), p)
    ensures var s, u := Live(cfg, events).s, Live(cfg, events + [Prune(p)]).s;
            && PrunedTo(u.store.traces, p)
            && (forall r | r in u.store.rollup :: r.bucket as real >= p.horizon)
            && u == s.(store := Store(u.store.traces, s.store.logs, u.store.rollup))
  {
    LastEvent(cfg, events, Prune(p));
    KeptArePruned(p);
  }

  /** A crash leaves a new writer over the tables there were. */
  lemma CrashLeaves(cfg: Config, events: seq<Event>)
    ensures var w := Live(cfg, events);
            Live(cfg, events + [Crash]) == World(INIT.(store := w.s.store, hist := w.s.hist), w.horizon)
  {
    LastEvent(cfg, events, Crash);
  }

  // ---- a child that outlives its parent -----------------------------------------------------

  const SMALL := Config(1, 1)
  const TEN := Trace(1, 10.0, 5.0, 0.0, "/predict", None, 200, None, None)
  const TEN_KEYS := [KeyOf(TEN, Requests), KeyOf(TEN, Latency), KeyOf(TEN, Queue)]
  const EVENTS := [Write(Offer(TEN))] + [Write(Pop)] + [Write(Commit(Committed, TEN_KEYS))]

  lemma OneMore(cfg: Config, events: seq<Event>, e: Event)
    ensures Live(cfg, events + [e]) == After(cfg, Live(cfg, events), e)
  {
    assert (events + [e])[..|events|] == events;
  }

  lemma TenInFlight()
    ensures var w := Live(SMALL, [Write(Offer(TEN))] + [Write(Pop)]);
            && w.s.inflight == [TraceItem(TEN)] && w.s.open == map[] && w.s.hist.committed == []
            && w.s.store.traces == [] && w.horizon == None
  {
    OneMore(SMALL, [], Write(Offer(TEN)));
    assert [] + [Write(Offer(TEN))] == [Write(Offer(TEN))];
    assert [] + [TraceItem(TEN)] == [TraceItem(TEN)];
    OneMore(SMALL, [Write(Offer(TEN))], Write(Pop));
  }

  lemma TenKeysAreDue(s: State)
    requires s.inflight == [TraceItem(TEN)] && s.open == map[]
    ensures ValidDue(Work(s), TEN_KEYS) && forall k :: k in Work(s) <==> k in TEN_KEYS
  {
    assert [TraceItem(TEN)][..0] == [];
    assert AccumulateAll(map[], [TraceItem(TEN)][..0]) == map[];
    assert Work(s) == Accumulate(map[], TEN);
    forall k ensures k in Work(s) <==> k in TEN_KEYS {
      AccumulateAdds(map[], TEN, k);
      match k.dims.metric
      case Requests =>
      case Errors =>
      case Latency =>
      case Queue =>
    }
  }

  lemma TenStored()
    ensures var w := Live(SMALL, EVENTS);
            && w.s.hist.committed == [TraceItem(TEN)] && w.s.open == map[] && w.horizon == None
            && w.s.store.traces == [TEN]
  {
    var w := Live(SMALL, [Write(Offer(TEN))] + [Write(Pop)]);
    TenInFlight();
    TenKeysAreDue(w.s);
    OneMore(SMALL, [Write(Offer(TEN))] + [Write(Pop)], Write(Commit(Committed, TEN_KEYS)));
    assert Live(SMALL, EVENTS).s == CommitOk(w.s, TEN_KEYS);
    AllClosed(w.s, TEN_KEYS);
    OneCommitted(w.s, TEN, TEN_KEYS);
  }

  lemma AllClosed(s: State, due: seq<BucketKey>)
    requires s.inflight != [] && forall k :: k in Work(s) <==> k in due
    ensures CommitOk(s, due).open == map[]
  {
    assert forall k :: k !in CommitOk(s, due).open;
  }

  lemma OneTrace(t: Trace)
    requires IsKept(t)
    ensures KeptOf(TracesOf([TraceItem(t)])) == [t]
  {
    assert TracesOf([TraceItem(t)][..0]) == [] && TracesOf([TraceItem(t)]) == [t];
    assert KeptOf([t][..0]) == [];
  }

  lemma OneCommitted(s: State, t: Trace, due: seq<BucketKey>)
    requires s.inflight == [TraceItem(t)] && IsKept(t) && s.hist.committed == [] && s.store.traces == []
    ensures CommitOk(s, due).hist.committed == [TraceItem(t)] && CommitOk(s, due).store.traces == [t]
  {
    OneTrace(t);
    assert [] + [TraceItem(t)] == [TraceItem(t)] && [] + [t] == [t];
  }

  /** The 10 s row at 10 s is there, and its minute is complete. */
  lemma TenHasRow()
    ensures var t := Live(SMALL, EVENTS).s.store.rollup;
            && RowOf(KeyOf(TEN, Requests)) in t && TableWellFormed(t)
            && Complete(t, RowKey(0, 60, DimsOf(TEN, Requests)))
  {
    var s, k := Live(SMALL, EVENTS).s, KeyOf(TEN, Requests);
    TenStored();
    NoCrash();
    CountsAlways(SMALL, EVENTS);
    ParentsAlways(SMALL, EVENTS);
    assert KeyInv(s.open, s.store.rollup, k, Contribution(s.hist.committed, k));
    ContributorCounts(s.hist.committed, TraceItem(TEN), k);
  }

  lemma NoCrash()
    ensures Clean(SMALL, EVENTS)
  {
    var a, b := [Write(Offer(TEN))], [Write(Offer(TEN))] + [Write(Pop)];
    assert EVENTS[..2] == b && b[..1] == a && a[..0] == [];
    assert Clean(SMALL, a) && Clean(SMALL, b);
  }

  /** A pass that prunes nothing but rollup rows before 10 s. */
  ghost function TenPass(): PassRecord {
    var t := Live(SMALL, EVENTS).s.store.rollup;
    PassRecord([Row(1, 10.0, TEN)], {}, t, t, 0.0, 1, 10.0)
  }

  /**
   The prune can take a parent and leave its child: a trace at 10 s is stored and rolled up, a
   pass with its horizon at 10 s drops the rows of the minute and the hour that begin at 0 s.
   */
  lemma ChildCanOutliveItsParent()
    ensures var t := Live(SMALL, EVENTS + [Prune(TenPass())]).s.store.rollup;
            && CanPass(Live(SMALL, EVENTS), TenPass())
            && RowOf(KeyOf(TEN, Requests)) in t && !Complete(t, RowKey(0, 60, DimsOf(TEN, Requests)))
  {
    var t, minute := Live(SMALL, EVENTS).s.store.rollup, RowKey(0, 60, DimsOf(TEN, Requests));
    TenCanPass();
    TenHasRow();
    OneMore(SMALL, EVENTS, Prune(TenPass()));
    FloorBucketIsTheBucket(10.0, 10);
    assert IsBucketOf(10, 10.0, 10);
    assert RowKey(10, 10, DimsOf(TEN, Requests)) in Unexpired(t, 10.0);
    PrunedParentCompleteIff(t, 10.0, minute);
  }

  lemma TenCanPass()
    ensures CanPass(Live(SMALL, EVENTS), TenPass())
  {
    var p := TenPass();
    TenStored();
    assert Bodies(p.rows[..0]) == [] && Bodies(p.rows) == [TEN];
    assert !Doomed(p.rows, 0, p.cutoff, p.cap);
    assert forall q :: !Pends(p.rows, q, p.cutoff, p.cap, p.horizon);
    assert ParentsOf({}) == {};
    forall r: RowKey ensures Load(p.built, r) == BuiltRow(p.built, p.rows, {}, r) {
    }
    forall r: RowKey ensures Load(p.cascaded, r) == CascadedRow(p.built, {}, r) {
    }
  }
}
