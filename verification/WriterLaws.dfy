/** Laws of the write pipeline that hold after every list of actions. */
module WriterLaws {
  import opened Options
  import opened Rollup
  import opened RollupTable
  import opened Subsequences
  import opened WriterModel

  // ---- queue, order and accounting --------------------------------------------------------

  ghost predicate Bounded(cfg: Config, s: State) {
    && |s.inflight| <= cfg.batchRows
    && |s.queue| + |s.inflight| <= cfg.queueMax + cfg.batchRows
  }

  /** Everything past the queue's mouth is still in the order it was appended. */
  ghost predicate InOrder(s: State) {
    Subseq(s.hist.committed + s.inflight + s.queue, s.hist.appended)
  }

  /** Each accepted item is in exactly one place, or in the hands of the current step. */
  ghost predicate Partitioned(s: State, inHand: multiset<Item>) {
    multiset(s.hist.offered)
    == multiset(s.hist.committed) + multiset(s.inflight) + multiset(s.queue)
       + multiset(s.waiting) + multiset(s.hist.discarded) + inHand
  }

  ghost predicate Counted(s: State) {
    && s.obsDropped == s.hist.sampledOut + CountTraces(s.hist.discarded)
    && s.logsDropped == CountLogs(s.hist.discarded)
  }

  /** The tables hold the committed items and nothing else. */
  ghost predicate Stored(s: State) {
    && s.store.traces == KeptOf(TracesOf(s.hist.committed))
    && s.store.logs == LogsOf(s.hist.committed)
  }

  ghost predicate QueueInv(cfg: Config, s: State) {
    && Bounded(cfg, s) && InOrder(s) && Partitioned(s, multiset{}) && Counted(s) && Stored(s)
    && CountLogs(s.waiting) == 0
  }

  lemma {:induction false} ListsSplit(a: seq<Item>, b: seq<Item>)
    ensures TracesOf(a + b) == TracesOf(a) + TracesOf(b)
    ensures LogsOf(a + b) == LogsOf(a) + LogsOf(b)
  {
    if b == [] {
      assert a + b == a;
    } else {
      assert (a + b)[..|a + b| - 1] == a + b[..|b| - 1];
      ListsSplit(a, b[..|b| - 1]);
    }
  }

  lemma {:induction false} KeptSplit(a: seq<Trace>, b: seq<Trace>)
    ensures KeptOf(a + b) == KeptOf(a) + KeptOf(b)
  {
    if b == [] {
      assert a + b == a;
    } else {
      assert (a + b)[..|a + b| - 1] == a + b[..|b| - 1];
      KeptSplit(a, b[..|b| - 1]);
    }
  }

  lemma CutOut(s: seq<Item>, i: nat)
    requires i < |s|
    ensures CountTraces(RemoveAt(s, i)) + CountTraces([s[i]]) == CountTraces(s)
    ensures CountLogs(RemoveAt(s, i)) + CountLogs([s[i]]) == CountLogs(s)
  {
    assert s == s[..i] + ([s[i]] + s[i + 1..]);
    ListsSplit(s[..i], [s[i]] + s[i + 1..]);
    ListsSplit([s[i]], s[i + 1..]);
    ListsSplit(s[..i], s[i + 1..]);
  }

  lemma {:induction false} CountsOfBag(a: seq<Item>, b: seq<Item>)
    requires multiset(a) == multiset(b)
    ensures CountTraces(a) == CountTraces(b) && CountLogs(a) == CountLogs(b)
  {
    SameBagSameLength(a, b);
    if a != [] {
      assert a[0] in multiset(b);
      var i :| 0 <= i < |b| && b[i] == a[0];
      CutOut(a, 0);
      CutOut(b, i);
      CountsOfBag(RemoveAt(a, 0), RemoveAt(b, i));
    }
  }

  /** All of `QueueInv` except the bound, with one item in hand. */
  ghost predicate Holding(s: State, i: Item) {
    && InOrder(s) && Partitioned(s, multiset{i}) && Counted(s) && Stored(s)
    && CountLogs(s.waiting) == 0
  }

  lemma OfferedHolds(cfg: Config, s: State, i: Item)
    requires QueueInv(cfg, s)
    ensures Holding(Offered(s, i), i)
  {
  }

  lemma AppendSettles(cfg: Config, s: State, i: Item)
    requires Holding(s, i) && |s.inflight| <= cfg.batchRows
    requires |s.queue| < cfg.queueMax || |s.queue| + |s.inflight| < cfg.queueMax + cfg.batchRows
    ensures QueueInv(cfg, Append(s, i))
  {
    SubseqSnocRight(s.hist.committed + s.inflight, s.queue, i, s.hist.appended);
  }

  lemma DiscardSettles(cfg: Config, s: State, i: Item)
    requires Holding(s, i) && Bounded(cfg, s)
    ensures QueueInv(cfg, Discard(s, [i]))
  {
    ListsSplit(s.hist.discarded, [i]);
  }

  lemma EvictInOrder(s: State, at: nat)
    requires InOrder(s) && at < |s.queue|
    ensures InOrder(EvictAt(s, at))
  {
    SubseqRemoveAt(s.hist.committed + s.inflight, s.queue, at, s.hist.appended);
  }

  lemma EvictHolds(s: State, i: Item, at: nat)
    requires Holding(s, i) && at < |s.queue|
    ensures Holding(EvictAt(s, at), i)
  {
    EvictInOrder(s, at);
    DiscardedIsCounted(s.hist.discarded, s.queue[at]);
    MovedToDiscarded(s.queue, s.hist.discarded, at);
  }

  lemma DiscardedIsCounted(d: seq<Item>, i: Item)
    ensures CountTraces(d + [i]) == CountTraces(d) + CountTraces([i])
    ensures CountLogs(d + [i]) == CountLogs(d) + CountLogs([i])
  {
    ListsSplit(d, [i]);
  }

  lemma MovedToDiscarded(q: seq<Item>, d: seq<Item>, at: nat)
    requires at < |q|
    ensures multiset(RemoveAt(q, at)) + multiset(d + [q[at]]) == multiset(q) + multiset(d)
  {
  }

  lemma WaitSettles(cfg: Config, s: State, i: Item)
    requires Holding(s, i) && Bounded(cfg, s) && i.TraceItem?
    ensures QueueInv(cfg, s.(waiting := s.waiting + [i]))
  {
    ListsSplit(s.waiting, [i]);
  }

  lemma EvictSettles(cfg: Config, s: State, i: Item, at: nat)
    requires Holding(s, i) && Bounded(cfg, s) && at < |s.queue|
    ensures QueueInv(cfg, Append(EvictAt(s, at), i))
  {
    EvictHolds(s, i, at);
    AppendSettles(cfg, EvictAt(s, at), i);
  }

  lemma OfferKeepsQueueInv(cfg: Config, s: State, t: Trace)
    requires QueueInv(cfg, s)
    ensures QueueInv(cfg, OfferTrace(cfg, s, t))
  {
    var item, at := TraceItem(t), FirstDroppable(s.queue);
    OfferedHolds(cfg, s, item);
    if |s.queue| < cfg.queueMax {
      AppendSettles(cfg, Offered(s, item), item);
    } else if Droppable(item) && at < |s.queue| {
      EvictSettles(cfg, Offered(s, item), item, at);
    } else {
      WaitSettles(cfg, Offered(s, item), item);
    }
  }

  lemma OfferLogKeepsQueueInv(cfg: Config, s: State, l: Log)
    requires QueueInv(cfg, s)
    ensures QueueInv(cfg, OfferLogEntry(cfg, s, l))
  {
    var s1 := Offered(s, LogItem(l));
    OfferedHolds(cfg, s, LogItem(l));
    if |s.queue| < cfg.queueMax {
      AppendSettles(cfg, s1, LogItem(l));
    } else {
      DiscardSettles(cfg, s1, LogItem(l));
    }
  }

  lemma WakeKeepsQueueInv(cfg: Config, s: State, i: nat, timeUp: bool)
    requires QueueInv(cfg, s)
    ensures QueueInv(cfg, WakeWaiter(cfg, s, i, timeUp))
  {
    if i < |s.waiting| {
      var s1, item := s.(waiting := RemoveAt(s.waiting, i)), s.waiting[i];
      WokenHolds(cfg, s, i);
      if |s.queue| < cfg.queueMax {
        AppendSettles(cfg, s1, item);
      } else {
        DiscardSettles(cfg, s1, item);
      }
    }
  }

  lemma WokenHolds(cfg: Config, s: State, i: nat)
    requires QueueInv(cfg, s) && i < |s.waiting|
    ensures Holding(s.(waiting := RemoveAt(s.waiting, i)), s.waiting[i])
  {
    CutOut(s.waiting, i);
    assert multiset(RemoveAt(s.waiting, i)) + multiset{s.waiting[i]} == multiset(s.waiting);
  }

  lemma PopKeepsQueueInv(cfg: Config, s: State)
    requires QueueInv(cfg, s)
    ensures QueueInv(cfg, PopOne(cfg, s))
  {
    if s.queue != [] && |s.inflight| < cfg.batchRows {
      assert s.queue == [s.queue[0]] + s.queue[1..];
      assert s.hist.committed + s.inflight + s.queue
          == s.hist.committed + (s.inflight + [s.queue[0]]) + s.queue[1..];
    }
  }

  lemma CommitKeepsQueueInv(cfg: Config, s: State, due: seq<BucketKey>)
    requires QueueInv(cfg, s)
    ensures QueueInv(cfg, CommitOk(s, due))
  {
    var c, b := s.hist.committed, s.inflight;
    assert c + b + s.queue == (c + b) + [] + s.queue;
    ListsSplit(c, b);
    KeptSplit(TracesOf(c), TracesOf(b));
  }

  lemma RequeueKeepsQueueInv(cfg: Config, s: State)
    requires QueueInv(cfg, s)
    ensures QueueInv(cfg, s.(queue := s.inflight + s.queue, inflight := [], retried := true))
  {
    var c, b, q := s.hist.committed, s.inflight, s.queue;
    assert c + b + q == c + [] + (b + q);
  }

  lemma DropKeepsQueueInv(cfg: Config, s: State)
    requires QueueInv(cfg, s)
    ensures QueueInv(cfg, Discard(s, s.inflight).(inflight := [], retried := false))
  {
    DropCounts(s.hist.discarded, s.inflight);
    DropInOrder(s);
  }

  lemma DropCounts(d: seq<Item>, batch: seq<Item>)
    ensures CountTraces(d + batch) == CountTraces(d) + CountTraces(batch)
    ensures CountLogs(d + batch) == CountLogs(d) + CountLogs(batch)
    ensures multiset(d + batch) == multiset(d) + multiset(batch)
  {
    ListsSplit(d, batch);
  }

  lemma DropInOrder(s: State)
    requires InOrder(s)
    ensures Subseq(s.hist.committed + [] + s.queue, s.hist.appended)
  {
    SubseqWithout(s.hist.committed, s.inflight, s.queue, s.hist.appended);
    assert s.hist.committed + [] == s.hist.committed;
  }

  lemma FinishKeepsQueueInv(cfg: Config, s: State, outcome: Outcome, due: seq<BucketKey>)
    requires QueueInv(cfg, s)
    ensures QueueInv(cfg, Finish(s, outcome, due))
  {
    match outcome
    case Committed => CommitKeepsQueueInv(cfg, s, due);
    case Requeued => RequeueKeepsQueueInv(cfg, s);
    case Dropped => DropKeepsQueueInv(cfg, s);
  }

  /** `u` is what one action makes of `s`. */
  predicate IsStep(cfg: Config, s: State, a: Action, u: State) {
    match a
    case Offer(t) => u == OfferTrace(cfg, s, t)
    case OfferLog(l) => u == OfferLogEntry(cfg, s, l)
    case Wake(i, timeUp) => u == WakeWaiter(cfg, s, i, timeUp)
    case Pop => u == PopOne(cfg, s)
    case Commit(outcome, due) => u == Finish(s, outcome, due)
    case BeginStop => u == s.(stopping := true)
  }

  lemma StepKeepsQueueInv(cfg: Config, s: State, a: Action)
    requires QueueInv(cfg, s)
    ensures QueueInv(cfg, Next(cfg, s, a))
  {
    assert IsStep(cfg, s, a, Next(cfg, s, a));
    if a.Pop? || a.Commit? {
      WriterStepKeepsQueueInv(cfg, s, a, Next(cfg, s, a));
    } else {
      OtherStepKeepsQueueInv(cfg, s, a, Next(cfg, s, a));
    }
  }

  lemma WriterStepKeepsQueueInv(cfg: Config, s: State, a: Action, u: State)
    requires QueueInv(cfg, s) && IsStep(cfg, s, a, u) && (a.Pop? || a.Commit?)
    ensures QueueInv(cfg, u)
  {
    match a
    case Pop => PopKeepsQueueInv(cfg, s);
    case Commit(outcome, due) => FinishKeepsQueueInv(cfg, s, outcome, due);
  }

  lemma OtherStepKeepsQueueInv(cfg: Config, s: State, a: Action, u: State)
    requires QueueInv(cfg, s) && IsStep(cfg, s, a, u) && !a.Pop? && !a.Commit?
    ensures QueueInv(cfg, u)
  {
    match a
    case Offer(t) => OfferKeepsQueueInv(cfg, s, t);
    case OfferLog(l) => OfferLogKeepsQueueInv(cfg, s, l);
    case Wake(i, timeUp) => WakeKeepsQueueInv(cfg, s, i, timeUp);
    case BeginStop => StopKeepsQueueInv(cfg, s);
  }

  lemma StopKeepsQueueInv(cfg: Config, s: State)
    requires QueueInv(cfg, s)
    ensures QueueInv(cfg, s.(stopping := true))
  {
  }

  /** Bound, order, partition and counters hold after every list of actions. */
  lemma {:induction false} QueueInvAlways(cfg: Config, actions: seq<Action>)
    ensures QueueInv(cfg, Execute(cfg, actions))
  {
    if actions != [] {
      QueueInvAlways(cfg, actions[..|actions| - 1]);
      StepKeepsQueueInv(cfg, Execute(cfg, actions[..|actions| - 1]), actions[|actions| - 1]);
    }
  }

  /** Nothing is lost silently: the published counters balance every accepted item. */
  lemma Conservation(cfg: Config, actions: seq<Action>)
    ensures var s := Execute(cfg, actions);
            && CountTraces(s.hist.offered) + s.hist.sampledOut
               == CountTraces(s.queue) + CountTraces(s.inflight) + CountTraces(s.hist.committed)
                  + |s.waiting| + s.obsDropped
            && CountLogs(s.hist.offered)
               == CountLogs(s.queue) + CountLogs(s.inflight) + CountLogs(s.hist.committed)
                  + s.logsDropped
  {
    var s := Execute(cfg, actions);
    QueueInvAlways(cfg, actions);
    var a, b := s.hist.committed + s.inflight, s.queue + s.waiting;
    CountsOfBag(s.hist.offered, a + b + s.hist.discarded);
    ListsSplit(a + b, s.hist.discarded);
    ListsSplit(a, b);
    ListsSplit(s.hist.committed, s.inflight);
    ListsSplit(s.queue, s.waiting);
    TracesAndLogs(s.waiting);
  }

  lemma {:induction false} TracesAndLogs(items: seq<Item>)
    ensures CountTraces(items) + CountLogs(items) == |items|
  {
    if items != [] {
      TracesAndLogs(items[..|items| - 1]);
    }
  }

  // ---- what can be lost, and how often a batch comes back ---------------------------------

  const ONE_SLOT := Config(1, 1)
  const FIRST := Trace(1, 0.0, 1.0, 0.0, "/predict", None, 500, None, None)
  const SECOND := Trace(2, 0.0, 1.0, 0.0, "/predict", None, 500, None, None)
  const TWO_OFFERS := [Offer(FIRST)] + [Offer(SECOND)]
  const GIVES_UP := TWO_OFFERS + [Wake(0, true)]

  lemma OneMoreAction(cfg: Config, actions: seq<Action>, a: Action)
    ensures Execute(cfg, actions + [a]) == Next(cfg, Execute(cfg, actions), a)
  {
    assert (actions + [a])[..|actions|] == actions;
  }

  /** Nothing dropped yet. */
  predicate Backlog(s: State, queue: seq<Item>, waiting: seq<Item>) {
    && s.queue == queue && s.waiting == waiting && !s.stopping
    && s.obsDropped == 0 && s.hist.discarded == []
  }

  lemma FirstFillsTheQueue()
    ensures Backlog(Execute(ONE_SLOT, [Offer(FIRST)]), [TraceItem(FIRST)], [])
  {
    OneMoreAction(ONE_SLOT, [], Offer(FIRST));
    assert [] + [Offer(FIRST)] == [Offer(FIRST)];
  }

  lemma SecondWaits()
    ensures Backlog(Execute(ONE_SLOT, TWO_OFFERS), [TraceItem(FIRST)], [TraceItem(SECOND)])
  {
    FirstFillsTheQueue();
    OneMoreAction(ONE_SLOT, [Offer(FIRST)], Offer(SECOND));
    assert !Droppable(TraceItem(SECOND));
  }

  lemma CountOne(t: Trace)
    ensures CountTraces([TraceItem(t)]) == 1
  {
    assert TracesOf([TraceItem(t)][..0]) == [];
  }

  /** The documentation says backpressure never drops an error; this run drops one. */
  lemma ErrorsCanBeDropped()
    ensures var u := Execute(ONE_SLOT, GIVES_UP);
            u.hist.discarded == [TraceItem(SECOND)] && IsError(SECOND) && u.obsDropped == 1
  {
    SecondWaits();
    CountOne(SECOND);
    OneMoreAction(ONE_SLOT, TWO_OFFERS, Wake(0, true));
    assert [] + [TraceItem(SECOND)] == [TraceItem(SECOND)];
  }

  /** Exactly when a producer that had to wait loses its trace, error or not. */
  lemma WaiterIsDroppedIff(cfg: Config, s: State, i: nat, timeUp: bool)
    requires i < |s.waiting|
    ensures WakeWaiter(cfg, s, i, timeUp).hist.discarded != s.hist.discarded
        <==> |s.queue| >= cfg.queueMax && (s.stopping || timeUp)
  {
    assert |s.hist.discarded + [s.waiting[i]]| != |s.hist.discarded|;
  }

  ghost predicate Loses(s: State, u: State, e: Item) {
    multiset(u.hist.discarded)[e] > multiset(s.hist.discarded)[e]
  }

  /**
   An error trace is lost in exactly two ways: its producer gives up waiting for room, or the
   batch it is in is dropped. Eviction never takes one.
   */
  lemma ErrorIsLostIff(cfg: Config, s: State, a: Action, e: Item)
    requires e.TraceItem? && IsError(e.trace)
    ensures Loses(s, Next(cfg, s, a), e)
        <==> || (a.Wake? && a.index < |s.waiting| && s.waiting[a.index] == e
                 && |s.queue| >= cfg.queueMax && (s.stopping || a.timeUp))
             || (a.Commit? && a.outcome.Dropped? && e in s.inflight)
  {
    match a
    case Offer(t) => OfferLosesNoError(cfg, s, t, e);
    case OfferLog(l) => LogLosesNoTrace(cfg, s, l, e);
    case Wake(i, timeUp) => WakeLosesItsOwn(cfg, s, i, timeUp, e);
    case Pop => assert !Loses(s, PopOne(cfg, s), e);
    case Commit(outcome, due) => FinishLosesTheBatch(s, outcome, due, e);
    case BeginStop =>
  }

  lemma LogLosesNoTrace(cfg: Config, s: State, l: Log, e: Item)
    requires e.TraceItem?
    ensures !Loses(s, OfferLogEntry(cfg, s, l), e)
  {
    GainOne(s.hist.discarded, LogItem(l), e);
  }

  lemma WakeLosesItsOwn(cfg: Config, s: State, i: nat, timeUp: bool, e: Item)
    ensures Loses(s, WakeWaiter(cfg, s, i, timeUp), e)
        <==> i < |s.waiting| && s.waiting[i] == e && |s.queue| >= cfg.queueMax && (s.stopping || timeUp)
  {
    if i < |s.waiting| {
      GainOne(s.hist.discarded, s.waiting[i], e);
    }
  }

  lemma FinishLosesTheBatch(s: State, outcome: Outcome, due: seq<BucketKey>, e: Item)
    ensures Loses(s, Finish(s, outcome, due), e) <==> outcome.Dropped? && e in s.inflight
  {
    var d := s.hist.discarded;
    assert multiset(d + s.inflight) == multiset(d) + multiset(s.inflight);
    assert e in s.inflight <==> multiset(s.inflight)[e] > 0;
  }

  lemma OfferLosesNoError(cfg: Config, s: State, t: Trace, e: Item)
    requires e.TraceItem? && IsError(e.trace)
    ensures !Loses(s, OfferTrace(cfg, s, t), e)
  {
    var i := FirstDroppable(s.queue);
    if i < |s.queue| {
      GainOne(s.hist.discarded, s.queue[i], e);
    }
  }

  lemma GainOne(d: seq<Item>, x: Item, e: Item)
    ensures multiset(d + [x])[e] == multiset(d)[e] + (if x == e then 1 else 0)
  {
  }

  /** The state after the first `i` actions. */
  function StateAt(cfg: Config, actions: seq<Action>, i: nat): State
    requires i <= |actions|
  {
    Execute(cfg, actions[..i])
  }

  ghost predicate RequeuesAt(cfg: Config, actions: seq<Action>, i: nat) {
    && i < |actions| && actions[i].Commit? && actions[i].outcome.Requeued?
    && !StateAt(cfg, actions, i).retried
  }

  /** The batch in flight is really committed or dropped by this step. */
  predicate Settles(s: State, a: Action) {
    && a.Commit?
    && (a.outcome.Dropped?
        || (a.outcome.Committed? && ValidDue(Work(s), a.due) && (s.inflight != [] || a.due != [])))
  }

  ghost predicate SettlesAt(cfg: Config, actions: seq<Action>, i: nat) {
    i < |actions| && Settles(StateAt(cfg, actions, i), actions[i])
  }

  lemma StepKeepsRetried(cfg: Config, s: State, a: Action)
    requires s.retried && !Settles(s, a)
    ensures Next(cfg, s, a).retried
  {
  }

  lemma RetriedSticksOnce(cfg: Config, actions: seq<Action>, i: nat)
    requires i < |actions| && StateAt(cfg, actions, i).retried && !SettlesAt(cfg, actions, i)
    ensures StateAt(cfg, actions, i + 1).retried
  {
    StepKeepsRetried(cfg, StateAt(cfg, actions, i), actions[i]);
    ExecutePrefix(cfg, actions, i);
  }

  lemma {:induction false} RetriedSticks(cfg: Config, actions: seq<Action>, i: nat, j: nat)
    requires i <= j <= |actions| && StateAt(cfg, actions, i).retried
    requires forall m | i <= m < j :: !SettlesAt(cfg, actions, m)
    ensures StateAt(cfg, actions, j).retried
  {
    if i < j {
      RetriedSticks(cfg, actions, i, j - 1);
      RetriedSticksOnce(cfg, actions, j - 1);
    }
  }

  lemma ExecutePrefix(cfg: Config, actions: seq<Action>, i: nat)
    requires i < |actions|
    ensures StateAt(cfg, actions, i + 1) == Next(cfg, StateAt(cfg, actions, i), actions[i])
  {
    assert actions[..i + 1][..i] == actions[..i];
  }

  lemma RequeueMarks(cfg: Config, actions: seq<Action>, i: nat)
    requires RequeuesAt(cfg, actions, i)
    ensures StateAt(cfg, actions, i + 1).retried
  {
    ExecutePrefix(cfg, actions, i);
  }

  /** Between two requeues some batch was committed or dropped: the retry is one-shot. */
  lemma RequeueIsOneShot(cfg: Config, actions: seq<Action>, i: nat, j: nat)
    requires i < j && RequeuesAt(cfg, actions, i) && RequeuesAt(cfg, actions, j)
    ensures exists m | i < m < j :: SettlesAt(cfg, actions, m)
  {
    if forall m | i < m < j :: !SettlesAt(cfg, actions, m) {
      RequeueMarks(cfg, actions, i);
      RetriedSticks(cfg, actions, i + 1, j);
    }
  }
}
