/**
 What the writer of layawatch/store/writer.py has put into its tables, and why it evicts, said
 over the fields of traces and logs.
 */
module WriterTables {
  import opened Options
  import opened Rollup
  import opened RollupTable
  import opened WriterModel
  import opened WriterLaws
  import opened WriterRollupLaws
  import opened Writer

  // ---- rows of the log and trace tables -----------------------------------------------------

  predicate Ascending(at: seq<nat>) { forall i, j | 0 <= i < j < |at| :: at[i] < at[j] }

  /** Positions of the items that `p` picks, in order. */
  function Positions(items: seq<Item>, p: Item -> bool): (at: seq<nat>)
    ensures Ascending(at) && forall i | 0 <= i < |at| :: at[i] < |items| && p(items[at[i]])
    ensures forall j | 0 <= j < |items| && p(items[j]) :: j in at
  {
    if items == [] then []
    else
      var n := |items| - 1;
      var front := Positions(items[..n], p);
      if p(items[n]) then front + [n] else front
  }

  /** `meta["sampled"]` is not False. */
  function KeptTrace(): Item -> bool { (i: Item) => i.TraceItem? && i.trace.sampled != Some(false) }

  function LogLine(): Item -> bool { (i: Item) => i.LogItem? }

  lemma {:induction false} LogsAtPositions(items: seq<Item>)
    ensures var at := Positions(items, LogLine());
            && |LogsOf(items)| == |at|
            && forall i | 0 <= i < |at| :: LogItem(LogsOf(items)[i]) == items[at[i]]
  {
    if items != [] {
      LogsAtPositions(items[..|items| - 1]);
    }
  }

  lemma {:induction false} TracesAtPositions(items: seq<Item>)
    ensures var at := Positions(items, KeptTrace());
            && |KeptOf(TracesOf(items))| == |at|
            && forall i | 0 <= i < |at| :: TraceItem(KeptOf(TracesOf(items))[i]) == items[at[i]]
  {
    if items != [] {
      var front, last := items[..|items| - 1], items[|items| - 1];
      TracesAtPositions(front);
      if last.TraceItem? {
        var ts := TracesOf(front);
        assert (ts + [last.trace])[..|ts|] == ts;
      }
    }
  }

  /**
   After any actions the log table holds exactly the committed log entries and the trace table
   exactly the committed traces that were not sampled out, each as it was given, in order.
   */
  lemma StoredAsGiven(cfg: Config, actions: seq<Action>)
    ensures var s := Execute(cfg, actions);
            var at := Positions(s.hist.committed, LogLine());
            && |s.store.logs| == |at|
            && forall i | 0 <= i < |at| :: LogItem(s.store.logs[i]) == s.hist.committed[at[i]]
    ensures var s := Execute(cfg, actions);
            var at := Positions(s.hist.committed, KeptTrace());
            && |s.store.traces| == |at|
            && forall i | 0 <= i < |at| :: TraceItem(s.store.traces[i]) == s.hist.committed[at[i]]
  {
    QueueInvAlways(cfg, actions);
    LogsAtPositions(Execute(cfg, actions).hist.committed);
    TracesAtPositions(Execute(cfg, actions).hist.committed);
  }

  /** Every stored counter row is so many unit events, its percentile columns NULL. */
  lemma StoredCounters(cfg: Config, actions: seq<Action>, r: RowKey)
    requires r in Execute(cfg, actions).store.rollup && (r.dims.metric.Requests? || r.dims.metric.Errors?)
    ensures var row := Execute(cfg, actions).store.rollup[r];
            && row.count > 0 && row.sum == row.count as real
            && row.min == 1.0 && row.max == 1.0 && row.pct == None
  {
    StoredRowsAreOrdered(cfg, actions, r);
  }

  // ---- eviction -----------------------------------------------------------------------------

  /** A success that was not sampled out. */
  predicate PlainSuccess(i: Item) {
    && i.TraceItem? && i.trace.status < 400
    && (i.trace.errorCode == None || i.trace.errorCode == Some(""))
    && i.trace.sampled != Some(false)
  }

  lemma PlainIsDroppable(i: Item)
    ensures Droppable(i) <==> PlainSuccess(i)
  {
  }

  /** The oldest plain success of the queue gives way, and nothing else. */
  ghost predicate Evicts(s: State, u: State, newcomer: Item) {
    exists i ::
      && 0 <= i < |s.queue| && PlainSuccess(s.queue[i])
      && (forall j | 0 <= j < i :: !PlainSuccess(s.queue[j]))
      && u.queue == s.queue[..i] + s.queue[i + 1..] + [newcomer]
      && u.hist.discarded == s.hist.discarded + [s.queue[i]]
  }

  /**
   An offered trace evicts iff the queue is full, it is itself a plain success, and one is queued;
   sampled-out traces and errors neither evict nor are evicted.
   */
  lemma EvictsIff(cfg: Config, s: State, t: Trace)
    ensures Evicts(s, OfferTrace(cfg, s, t), TraceItem(t))
       <==> && !s.stopping && |s.queue| >= cfg.queueMax && PlainSuccess(TraceItem(t))
            && exists i :: 0 <= i < |s.queue| && PlainSuccess(s.queue[i])
    ensures !Evicts(s, OfferTrace(cfg, s, t), TraceItem(t)) ==>
              OfferTrace(cfg, s, t).hist.discarded == s.hist.discarded
  {
    var item, u, i := TraceItem(t), OfferTrace(cfg, s, t), FirstDroppable(s.queue);
    PlainIsDroppable(item);
    forall j | 0 <= j < |s.queue| ensures Droppable(s.queue[j]) <==> PlainSuccess(s.queue[j]) {
      PlainIsDroppable(s.queue[j]);
    }
    if !s.stopping && |s.queue| >= cfg.queueMax && Droppable(item) && i < |s.queue| {
      assert u.queue == s.queue[..i] + s.queue[i + 1..] + [item];
      assert Evicts(s, u, item);
    } else {
      assert u.hist.discarded == s.hist.discarded;
      assert forall k: Item :: |s.hist.discarded + [k]| == |s.hist.discarded| + 1;
    }
  }

  // ---- stopping and counting ----------------------------------------------------------------

  lemma {:induction false} StopsAccepting(cfg: Config, before: seq<Action>, after: seq<Action>)
    requires Execute(cfg, before).stopping
    ensures var s, u := Execute(cfg, before), Execute(cfg, before + after);
            u.stopping && u.hist.offered == s.hist.offered
  {
    if after == [] {
      assert before + after == before;
    } else {
      var front, a := before + after[..|after| - 1], after[|after| - 1];
      assert before + after == front + [a];
      StopsAccepting(cfg, before, after[..|after| - 1]);
      OneMoreAction(cfg, front, a);
      StoppedStep(cfg, Execute(cfg, front), a);
    }
  }

  predicate SameOffers(s: State, u: State) { u.stopping && u.hist.offered == s.hist.offered }

  lemma StoppedStep(cfg: Config, s: State, a: Action)
    requires s.stopping
    ensures SameOffers(s, Next(cfg, s, a))
  {
    match a
    case Offer(t) => assert SameOffers(s, OfferTrace(cfg, s, t));
    case OfferLog(l) => assert SameOffers(s, OfferLogEntry(cfg, s, l));
    case Wake(i, timeUp) => assert SameOffers(s, WakeWaiter(cfg, s, i, timeUp));
    case Pop => assert SameOffers(s, PopOne(cfg, s));
    case Commit(outcome, due) => assert SameOffers(s, Finish(s, outcome, due));
    case BeginStop =>
  }

  /** Once stop has begun nothing more is accepted. */
  lemma NothingAcceptedAfterStop(cfg: Config, before: seq<Action>, after: seq<Action>)
    ensures Execute(cfg, before + [BeginStop] + after).hist.offered == Execute(cfg, before).hist.offered
  {
    OneMoreAction(cfg, before, BeginStop);
    StopsAccepting(cfg, before + [BeginStop], after);
  }

  /** A transaction that went through: something was written and the attempt succeeded. */
  predicate Transacts(s: State, a: Action) { Commits(s, a) && (s.inflight != [] || a.due != []) }

  function Transactions(cfg: Config, actions: seq<Action>): nat {
    if actions == [] then 0
    else
      var front := actions[..|actions| - 1];
      Transactions(cfg, front)
      + (if Transacts(Execute(cfg, front), actions[|actions| - 1]) then 1 else 0)
  }

  predicate WritesMoveBy(s: State, u: State, n: nat) { u.writes == s.writes + n }

  lemma StepCountsWrite(cfg: Config, s: State, a: Action)
    ensures WritesMoveBy(s, Next(cfg, s, a), if Transacts(s, a) then 1 else 0)
  {
    match a
    case Offer(t) => assert WritesMoveBy(s, OfferTrace(cfg, s, t), 0);
    case OfferLog(l) => assert WritesMoveBy(s, OfferLogEntry(cfg, s, l), 0);
    case Wake(i, timeUp) => assert WritesMoveBy(s, WakeWaiter(cfg, s, i, timeUp), 0);
    case Pop => assert WritesMoveBy(s, PopOne(cfg, s), 0);
    case Commit(outcome, due) =>
      assert WritesMoveBy(s, Finish(s, outcome, due), if Transacts(s, a) then 1 else 0);
    case BeginStop =>
  }

  /** `writes_total` is the number of transactions that went through. */
  lemma {:induction false} WritesAreTransactions(cfg: Config, actions: seq<Action>)
    ensures Execute(cfg, actions).writes == Transactions(cfg, actions)
  {
    if actions != [] {
      var front := actions[..|actions| - 1];
      WritesAreTransactions(cfg, front);
      StepCountsWrite(cfg, Execute(cfg, front), actions[|actions| - 1]);
    }
  }

  // ---- how a commit ends --------------------------------------------------------------------

  predicate FailsBusy(a: Attempt) { a.Fails? && a.failure.Busy? }

  /** Attempt `i` is made, that is, every one before it found the database busy. */
  predicate Reached(attempts: seq<Attempt>, i: nat)
    requires i <= |attempts|
  {
    forall j | 0 <= j < i :: FailsBusy(attempts[j])
  }

  lemma {:induction false} DecideFrom(attempts: seq<Attempt>, retried: bool, i: nat)
    requires i <= BUSY_RETRIES < |attempts| && Reached(attempts, i)
    ensures Decide(attempts, retried, i).Committed?
       <==> exists k :: i <= k <= BUSY_RETRIES && attempts[k].Succeeds? && Reached(attempts, k)
    ensures Decide(attempts, retried, i).Requeued? <==> Reached(attempts, BUSY_RETRIES + 1) && !retried
    decreases BUSY_RETRIES - i
  {
    if attempts[i].Succeeds? {
      assert i <= i <= BUSY_RETRIES && attempts[i].Succeeds? && Reached(attempts, i);
    } else if FailsBusy(attempts[i]) && i < BUSY_RETRIES {
      DecideFrom(attempts, retried, i + 1);
    }
  }

  /**
   A batch is committed iff an attempt succeeds with only busy ones before it, requeued iff all
   four found the database busy for the first time, and dropped otherwise.
   */
  lemma DecideIs(attempts: seq<Attempt>, retried: bool)
    requires |attempts| == 4
    ensures Decide(attempts, retried, 0).Committed?
       <==> exists k :: 0 <= k <= 3 && attempts[k].Succeeds? && Reached(attempts, k)
    ensures Decide(attempts, retried, 0).Requeued? <==> Reached(attempts, 4) && !retried
  {
    DecideFrom(attempts, retried, 0);
  }

  /** A bucket is due iff its ten seconds are over: the present moment lies in a later one. */
  lemma DueIffOver(k: BucketKey, now: real)
    requires k.bucket % 10 == 0
    ensures IsDue(k, false, now) <==> FloorBucket(now, 10) > k.bucket
    ensures IsDue(k, true, now)
  {
    FloorBucketIsTheBucket(now, 10);
    var b := FloorBucket(now, 10);
    assert b > k.bucket <==> b >= k.bucket + 10;
  }
}
