/**
 The counters and rollup keys of layawatch/store/writer.py in terms of the columns of single
 traces: what each trace counts for, which counters its fate moves, when a batch is requeued.
 */
module WriterCounts {
  import opened Options
  import opened Rollup
  import opened RollupTable
  import opened WriterModel
  import opened WriterLaws
  import opened WriterRollupLaws
  import opened WriterTables

  // ---- offers, drops and commits ------------------------------------------------------------

  function AnyTrace(): Item -> bool { (i: Item) => i.TraceItem? }

  function SampledOutTrace(): Item -> bool { (i: Item) => i.TraceItem? && i.trace.sampled == Some(false) }

  function Number(items: seq<Item>, p: Item -> bool): nat { |Positions(items, p)| }

  lemma {:induction false} CountsArePositions(items: seq<Item>)
    ensures CountTraces(items) == Number(items, AnyTrace())
    ensures CountLogs(items) == Number(items, LogLine())
  {
    if items != [] {
      CountsArePositions(items[..|items| - 1]);
    }
  }

  lemma NumberSnoc(front: seq<Item>, x: Item, p: Item -> bool)
    ensures Number(front + [x], p) == Number(front, p) + (if p(x) then 1 else 0)
  {
    assert (front + [x])[..|front|] == front;
  }

  /** The step offers nothing, or one item that is counted if it was sampled out. */
  predicate CountsOffer(s: State, u: State) {
    || OffersNothing(s, u)
    || (u.hist.offered != [] && u.hist.offered[..|u.hist.offered| - 1] == s.hist.offered
        && u.hist.sampledOut == s.hist.sampledOut
             + (if SampledOutTrace()(u.hist.offered[|u.hist.offered| - 1]) then 1 else 0))
  }

  lemma OfferedCounts(s: State, i: Item)
    ensures CountsOffer(s, Offered(s, i))
  {
    assert (s.hist.offered + [i])[..|s.hist.offered|] == s.hist.offered;
  }

  lemma TraceCounts(cfg: Config, s: State, t: Trace)
    ensures CountsOffer(s, OfferTrace(cfg, s, t))
  {
    OfferedCounts(s, TraceItem(t));
  }

  lemma LogCounts(cfg: Config, s: State, l: Log)
    ensures CountsOffer(s, OfferLogEntry(cfg, s, l))
  {
    OfferedCounts(s, LogItem(l));
  }

  predicate OffersNothing(s: State, u: State) {
    u.hist.offered == s.hist.offered && u.hist.sampledOut == s.hist.sampledOut
  }

  lemma StepCountsOffer(cfg: Config, s: State, a: Action)
    ensures CountsOffer(s, Next(cfg, s, a))
  {
    match a
    case Offer(t) => TraceCounts(cfg, s, t);
    case OfferLog(l) => LogCounts(cfg, s, l);
    case Wake(i, timeUp) => assert OffersNothing(s, WakeWaiter(cfg, s, i, timeUp));
    case Pop => assert OffersNothing(s, PopOne(cfg, s));
    case Commit(outcome, due) => assert OffersNothing(s, Finish(s, outcome, due));
    case BeginStop =>
  }

  ghost predicate SampledOutOk(s: State) {
    s.hist.sampledOut == Number(s.hist.offered, SampledOutTrace())
  }

  lemma OfferKeepsCount(s: State, u: State)
    requires SampledOutOk(s) && CountsOffer(s, u)
    ensures SampledOutOk(u)
  {
  }

  lemma {:induction false} SampledOutCounted(cfg: Config, actions: seq<Action>)
    ensures SampledOutOk(Execute(cfg, actions))
  {
    if actions != [] {
      var front, a := actions[..|actions| - 1], actions[|actions| - 1];
      SampledOutCounted(cfg, front);
      StepCountsOffer(cfg, Execute(cfg, front), a);
      OfferKeepsCount(Execute(cfg, front), Execute(cfg, actions));
    }
  }

  /**
   Conservation, each list counted by the items in it: traces offered, those sampled out a second
   time, are queued, in flight, committed, waiting or in `obs_dropped`; logs likewise.
   */
  lemma ConservationByItems(cfg: Config, actions: seq<Action>)
    ensures var s := Execute(cfg, actions);
            && Number(s.hist.offered, AnyTrace()) + Number(s.hist.offered, SampledOutTrace())
               == Number(s.queue, AnyTrace()) + Number(s.inflight, AnyTrace())
                  + Number(s.hist.committed, AnyTrace()) + |s.waiting| + s.obsDropped
            && Number(s.hist.offered, LogLine())
               == Number(s.queue, LogLine()) + Number(s.inflight, LogLine())
                  + Number(s.hist.committed, LogLine()) + s.logsDropped
  {
    var s := Execute(cfg, actions);
    Conservation(cfg, actions);
    SampledOutCounted(cfg, actions);
    CountsArePositions(s.hist.offered);
    CountsArePositions(s.queue);
    CountsArePositions(s.inflight);
    CountsArePositions(s.hist.committed);
  }

  // ---- what a trace counts for --------------------------------------------------------------

  /**
   A trace counts for the 10 s bucket its start lies in: requests, latency and queue by model (or
   none) and route, errors from status 400 on by status alone.
   */
  function CountsFor(k: BucketKey): Item -> bool {
    (i: Item) =>
      && i.TraceItem?
      && k.bucket % 10 == 0 && k.bucket as real <= i.trace.tsStart < (k.bucket + 10) as real
      && if k.dims.metric.Errors?
         then k.dims.model == "" && k.dims.route == "" && k.dims.status == i.trace.status >= 400
         else k.dims.status == 0 && k.dims.route == i.trace.route
              && (i.trace.model == Some(k.dims.model) || (i.trace.model == None && k.dims.model == ""))
  }

  lemma ContributesIff(i: Item, k: BucketKey)
    ensures Contributes(i, k) <==> CountsFor(k)(i)
  {
    if i.TraceItem? {
      FloorBucketIsTheBucket(i.trace.tsStart, 10);
      assert IsBucketOf(k.bucket, i.trace.tsStart, 10) <==>
        k.bucket % 10 == 0 && k.bucket as real <= i.trace.tsStart < (k.bucket + 10) as real;
    }
  }

  /** One unit, or one sample of its own column, for each of the traces at `at`. */
  predicate HoldsColumn(b: Bucket, m: Metric, items: seq<Item>, at: seq<nat>)
    requires forall i | 0 <= i < |at| :: at[i] < |items| && items[at[i]].TraceItem?
  {
    match m
    case Latency =>
      b.n == 0 && |b.vals| == |at| && forall i | 0 <= i < |at| :: b.vals[i] == items[at[i]].trace.durationMs
    case Queue =>
      b.n == 0 && |b.vals| == |at| && forall i | 0 <= i < |at| :: b.vals[i] == items[at[i]].trace.queueMs
    case _ => b.n == |at| && b.vals == []
  }

  lemma {:induction false} ContributionIs(items: seq<Item>, k: BucketKey)
    ensures HoldsColumn(Contribution(items, k), k.dims.metric, items, Positions(items, CountsFor(k)))
  {
    if items != [] {
      var front, last := items[..|items| - 1], items[|items| - 1];
      ContributionIs(front, k);
      ContributesIff(last, k);
    }
  }

  /** Stored row and open bucket of a counter together count exactly the committed traces of the key. */
  lemma CountersCountTraces(cfg: Config, actions: seq<Action>, k: BucketKey)
    requires k.dims.metric.Requests? || k.dims.metric.Errors?
    ensures var s := Execute(cfg, actions);
            (if RowOf(k) in s.store.rollup then s.store.rollup[RowOf(k)].count else 0)
            + (if k in s.open && s.open[k].n > 0 then s.open[k].n else 0)
            == Number(s.hist.committed, CountsFor(k))
  {
    RollupConservation(cfg, actions, k);
    ContributionIs(Execute(cfg, actions).hist.committed, k);
  }

  /**
   And those of a sampled metric count them and add up their own column: durations for latency,
   queue times for queue.
   */
  lemma SamplesAddUp(cfg: Config, actions: seq<Action>, k: BucketKey) returns (column: seq<real>)
    requires k.dims.metric.Latency? || k.dims.metric.Queue?
    ensures var s := Execute(cfg, actions);
            var at := Positions(s.hist.committed, CountsFor(k));
            && HoldsColumn(Bucket(0, column), k.dims.metric, s.hist.committed, at)
            && RowCount(s, k) + |OpenSamples(s, k)| == |at|
            && RowSum(s, k) + Sum(OpenSamples(s, k)) == Sum(column)
  {
    var s := Execute(cfg, actions);
    RollupConservation(cfg, actions, k);
    ContributionIs(s.hist.committed, k);
    column := Contribution(s.hist.committed, k).vals;
  }

  function RowCount(s: State, k: BucketKey): int {
    if RowOf(k) in s.store.rollup then s.store.rollup[RowOf(k)].count else 0
  }

  function RowSum(s: State, k: BucketKey): real {
    if RowOf(k) in s.store.rollup then s.store.rollup[RowOf(k)].sum else 0.0
  }

  function OpenSamples(s: State, k: BucketKey): seq<real> { if k in s.open then s.open[k].vals else [] }

  // ---- requeues -----------------------------------------------------------------------------

  /** Some batch was requeued among the first `n` actions and none was settled after it. */
  ghost predicate Unsettled(cfg: Config, actions: seq<Action>, n: nat) {
    exists i: nat :: i < n && RequeuesAt(cfg, actions, i) && NoneSettled(cfg, actions, i + 1, n)
  }

  ghost predicate NoneSettled(cfg: Config, actions: seq<Action>, from: nat, to: nat) {
    forall m | from <= m < to :: !SettlesAt(cfg, actions, m)
  }

  lemma RetriedAfter(cfg: Config, s: State, a: Action)
    ensures Next(cfg, s, a).retried
       <==> (a.Commit? && a.outcome.Requeued?) || (s.retried && !Settles(s, a))
  {
    match a
    case Offer(t) => assert OfferTrace(cfg, s, t).retried == s.retried;
    case OfferLog(l) => assert OfferLogEntry(cfg, s, l).retried == s.retried;
    case Wake(i, timeUp) => assert WakeWaiter(cfg, s, i, timeUp).retried == s.retried;
    case Pop =>
    case Commit(outcome, due) =>
    case BeginStop =>
  }

  predicate Retried(s: State) { s.retried }

  lemma RetriedAt(cfg: Config, actions: seq<Action>, n: nat)
    requires n < |actions|
    ensures Retried(StateAt(cfg, actions, n + 1))
       <==> RequeuesAt(cfg, actions, n)
            || (Retried(StateAt(cfg, actions, n)) && !SettlesAt(cfg, actions, n))
  {
    ExecutePrefix(cfg, actions, n);
    RetriedAfter(cfg, StateAt(cfg, actions, n), actions[n]);
  }

  lemma {:induction false} RetriedMeansUnsettled(cfg: Config, actions: seq<Action>, n: nat)
    requires n <= |actions|
    ensures Retried(StateAt(cfg, actions, n)) <==> Unsettled(cfg, actions, n)
  {
    if n > 0 {
      RetriedMeansUnsettled(cfg, actions, n - 1);
      RetriedAt(cfg, actions, n - 1);
      UnsettledStep(cfg, actions, n - 1);
    }
  }

  lemma UnsettledStep(cfg: Config, actions: seq<Action>, n: nat)
    ensures Unsettled(cfg, actions, n + 1)
       <==> RequeuesAt(cfg, actions, n) || (Unsettled(cfg, actions, n) && !SettlesAt(cfg, actions, n))
  {
    if i: nat :| i < n && RequeuesAt(cfg, actions, i) && NoneSettled(cfg, actions, i + 1, n) {
      assert SettlesAt(cfg, actions, n) || NoneSettled(cfg, actions, i + 1, n + 1);
    }
    assert NoneSettled(cfg, actions, n + 1, n + 1);
    if i: nat :| i < n + 1 && RequeuesAt(cfg, actions, i) && NoneSettled(cfg, actions, i + 1, n + 1) {
      assert i == n || (NoneSettled(cfg, actions, i + 1, n) && !SettlesAt(cfg, actions, n));
    }
  }

  /**
   A busy batch goes back to the front of the queue iff every batch requeued before has been
   settled since.
   */
  lemma RequeuesIff(cfg: Config, actions: seq<Action>, due: seq<BucketKey>)
    ensures var s := Execute(cfg, actions);
            Next(cfg, s, Commit(Requeued, due))
            == if Unsettled(cfg, actions, |actions|) then s
               else s.(queue := s.inflight + s.queue, inflight := [], retried := true)
  {
    RetriedMeansUnsettled(cfg, actions, |actions|);
    assert actions[..|actions|] == actions;
  }
}
