/**
 The `Writer` object of layawatch/store/writer.py. Each method is one region that runs under
 the queue lock, or one commit, and is proved to be the matching step of `WriterModel`.
 SQLite is the `store` field; how each transaction attempt ends is a parameter.
 */
module Writer {
  import opened Options
  import opened Rollup
  import opened RollupTable
  import opened WriterModel

  const PARENT_STEPS: seq<Step> := [60, 3600]
  const BUSY_RETRIES := 3

  datatype Admission = Rejected | Queued | MustWait | DroppedAndCounted

  datatype Failure = Busy | Operational | OtherError

  /** How one attempt of a transaction ends; a failing one fails after closing some buckets. */
  datatype Attempt = Succeeds | Fails(after: nat, failure: Failure)

  /** Busy attempts are retried; what is left decides the batch's fate. */
  function Decide(attempts: seq<Attempt>, retried: bool, i: nat): Outcome
    requires i <= BUSY_RETRIES < |attempts|
    decreases BUSY_RETRIES - i
  {
    if attempts[i].Succeeds? then Committed
    else if !attempts[i].failure.Busy? then Dropped
    else if i < BUSY_RETRIES then Decide(attempts, retried, i + 1)
    else if retried then Dropped else Requeued
  }

  predicate IsDue(k: BucketKey, closeAll: bool, now: real) {
    closeAll || (k.bucket + 10) as real <= now
  }

  method DueKeys(work: OpenMap, closeAll: bool, now: real) returns (due: seq<BucketKey>)
    ensures ValidDue(work, due)
    ensures forall k :: k in due <==> k in work && IsDue(k, closeAll, now)
  {
    var left := work.Keys;
    due := [];
    while left != {}
      invariant left <= work.Keys && ValidDue(work, due)
      invariant forall k :: k in due <==> k in work && k !in left && IsDue(k, closeAll, now)
    {
      var k :| k in left;
      left := left - {k};
      if IsDue(k, closeAll, now) {
        due := due + [k];
      }
    }
  }

  function ParentRow(table: Table, k: BucketKey, step: Step, s: Stats): (RowKey, Stats) {
    var parent := ParentOf(k, step);
    (parent, MergeStats(IsCounter(k.dims.metric), Load(table, parent), s))
  }

  lemma OneItem(i: Item)
    ensures CountTraces([i]) == (if i.TraceItem? then 1 else 0)
    ensures CountLogs([i]) == (if i.LogItem? then 1 else 0)
  {
    assert TracesOf([i][..0]) == [] && LogsOf([i][..0]) == [];
  }

  function Upsert(t: Table, row: (RowKey, Stats)): Table { t[row.0 := row.1] }

  lemma CascadeIsThreeUpserts(t: Table, k: BucketKey, s: Stats)
    ensures var own := MergeStats(IsCounter(k.dims.metric), Load(t, RowOf(k)), s);
            Cascade(t, k, s)
            == Upsert(Upsert(Upsert(t, (RowOf(k), own)), ParentRow(t, k, 60, s)),
                      ParentRow(t, k, 3600, s))
  {
  }

  /** `_rollup_rows` and the upserts of its rows: all reads come before all writes. */
  method CloseBucket(table: Table, k: BucketKey, b: Bucket) returns (r: Table)
    ensures r == CloseOne(table, k, b)
  {
    var stats := StatsOf(k.dims.metric, b);
    if stats.None? {
      return table;
    }
    var own := MergeStats(IsCounter(k.dims.metric), Load(table, RowOf(k)), stats.value);
    var rows := [(RowOf(k), own)];
    for i := 0 to |PARENT_STEPS|
      invariant |rows| == i + 1 && rows[0] == (RowOf(k), own)
      invariant i > 0 ==> rows[1] == ParentRow(table, k, 60, stats.value)
      invariant i > 1 ==> rows[2] == ParentRow(table, k, 3600, stats.value)
    {
      rows := rows + [ParentRow(table, k, PARENT_STEPS[i], stats.value)];
    }
    CascadeIsThreeUpserts(table, k, stats.value);
    r := Upsert(Upsert(Upsert(table, rows[0]), rows[1]), rows[2]);
  }

  /** One attempt: every due bucket is popped from a copy and closed, unless a failure stops it. */
  method RunAttempt(table: Table, work: OpenMap, due: seq<BucketKey>, a: Attempt)
      returns (attemptTable: Table, attemptWork: OpenMap)
    requires ValidDue(work, due)
    ensures a.Succeeds? ==> attemptTable == CloseAll(table, work, due)
    ensures a.Succeeds? ==> attemptWork == work - (set k | k in due)
  {
    attemptTable, attemptWork := table, work;
    var closed := 0;
    while closed < |due| && (a.Succeeds? || closed < a.after)
      invariant 0 <= closed <= |due|
      invariant attemptWork == work - (set k | k in due[..closed])
      invariant attemptTable == CloseAll(table, work, due[..closed])
    {
      var k := due[closed];
      assert k !in due[..closed] && due[..closed + 1][..closed] == due[..closed];
      attemptTable := CloseBucket(attemptTable, k, attemptWork[k]);
      attemptWork := attemptWork - {k};
      closed := closed + 1;
    }
    assert closed == |due| ==> due[..closed] == due;
  }

  class Writer {
    const cfg: Config
    var queue: seq<Item>
    var inflight: seq<Item>
    var open: OpenMap
    var retried: bool
    var stopping: bool
    var obsDropped: nat
    var logsDropped: nat
    var writes: nat
    var store: Store
    ghost var waiting: seq<Item>
    ghost var hist: History

    ghost function View(): State
      reads this
    {
      State(queue, inflight, waiting, open, retried, stopping, obsDropped, logsDropped, writes,
            store, hist)
    }

    constructor (queueMax: nat, batchRows: nat)
      requires queueMax >= 1 && batchRows >= 1
      ensures View() == INIT && cfg == Config(queueMax, batchRows)
    {
      cfg := Config(queueMax, batchRows);
      queue, inflight, open, retried, stopping := [], [], map[], false, false;
      obsDropped, logsDropped, writes, store := 0, 0, 0, Store([], [], map[]);
      waiting, hist := [], History([], 0, [], [], []);
    }

    /** Remove the oldest kept non-error trace; False when none is queued. */
    method EvictKeptNonError() returns (evicted: bool)
      modifies this`queue
      ensures evicted == (FirstDroppable(old(queue)) < |old(queue)|)
      ensures queue == if evicted then RemoveAt(old(queue), FirstDroppable(old(queue)))
                       else old(queue)
    {
      for i := 0 to |queue|
        invariant queue == old(queue)
        invariant forall j | 0 <= j < i :: !Droppable(queue[j])
      {
        if Droppable(queue[i]) {
          queue := queue[..i] + queue[i + 1..];
          return true;
        }
      }
      return false;
    }

    /** A kept success may push out an older one; anything else has to wait. */
    method MakeRoom(item: Item) returns (room: bool)
      modifies this
      ensures var i := FirstDroppable(old(queue));
              && room == (Droppable(item) && i < |old(queue)|)
              && View() == if room then EvictAt(old(View()), i) else old(View())
    {
      if !Droppable(item) {
        return false;
      }
      ghost var q, i := queue, FirstDroppable(queue);
      room := EvictKeptNonError();
      if room {
        hist := hist.(discarded := hist.discarded + [q[i]]);
        obsDropped := obsDropped + 1;
        OneItem(q[i]);
      }
    }

    method Enqueue(t: Trace) returns (r: Admission)
      modifies this
      ensures View() == OfferTrace(cfg, old(View()), t)
      ensures r.Rejected? <==> old(stopping)
      ensures r.MustWait? <==> waiting != old(waiting)
    {
      if stopping {
        return Rejected;
      }
      var item := TraceItem(t);
      CountOffer(t);
      if |queue| >= cfg.queueMax {
        var room := MakeRoom(item);
        if !room {
          waiting := waiting + [item];
          return MustWait;
        }
      }
      Admit(item);
      return Queued;
    }

    /** A sampled-out trace counts as dropped when it is offered. */
    method CountOffer(t: Trace)
      modifies this`obsDropped, this`hist
      ensures View() == Offered(old(View()), TraceItem(t))
    {
      hist := Offered(View(), TraceItem(t)).hist;
      if !IsKept(t) {
        obsDropped := obsDropped + 1;
      }
    }

    method Admit(item: Item)
      modifies this`queue, this`hist
      ensures View() == Append(old(View()), item)
    {
      queue := queue + [item];
      hist := hist.(appended := hist.appended + [item]);
    }

    /** A blocked producer, woken or timed out, looks at the queue again. */
    method Recheck(ghost i: nat, item: Item, timeUp: bool) returns (waits: bool)
      requires i < |waiting| && waiting[i] == item && item.TraceItem?
      modifies this
      ensures View() == WakeWaiter(cfg, old(View()), i, timeUp)
      ensures waits <==> waiting == old(waiting)
    {
      if |queue| >= cfg.queueMax {
        if !stopping && !timeUp {
          return true;
        }
        obsDropped := obsDropped + 1;
        hist := hist.(discarded := hist.discarded + [item]);
        OneItem(item);
      } else {
        queue := queue + [item];
        hist := hist.(appended := hist.appended + [item]);
      }
      waiting := RemoveAt(waiting, i);
      return false;
    }

    method EnqueueLog(l: Log) returns (r: Admission)
      modifies this
      ensures View() == OfferLogEntry(cfg, old(View()), l)
    {
      if stopping {
        return Rejected;
      }
      hist := Offered(View(), LogItem(l)).hist;
      if |queue| >= cfg.queueMax {
        logsDropped := logsDropped + 1;
        hist := hist.(discarded := hist.discarded + [LogItem(l)]);
        OneItem(LogItem(l));
        return DroppedAndCounted;
      }
      queue := queue + [LogItem(l)];
      hist := hist.(appended := hist.appended + [LogItem(l)]);
      return Queued;
    }

    /** `_collect`: items leave in order until the batch is full, the window is over or the
        queue is empty; `window` is how many items the time window lets through. */
    method Collect(window: nat)
      requires inflight == [] && cfg.batchRows >= 1 && window >= 1
      modifies this`queue, this`inflight
      ensures View() == Pops(cfg, old(View()), |inflight|)
      ensures inflight + queue == old(queue)
      ensures |inflight| <= cfg.batchRows && |inflight| <= window
      ensures queue == [] || |inflight| == cfg.batchRows || |inflight| == window
    {
      while queue != [] && |inflight| < window
        invariant inflight + queue == old(queue)
        invariant View() == Pops(cfg, old(View()), |inflight|)
        invariant |inflight| < cfg.batchRows && |inflight| <= window
        decreases |queue|
      {
        inflight, queue := inflight + [queue[0]], queue[1..];
        if |inflight| >= cfg.batchRows {
          break;
        }
      }
    }

    /** `_drop_batch` */
    method DropBatch()
      modifies this
      ensures View() == Finish(old(View()), Dropped, [])
    {
      for i := 0 to |inflight|
        invariant View() == old(View()).(obsDropped := obsDropped, logsDropped := logsDropped)
        invariant obsDropped == old(obsDropped) + CountTraces(inflight[..i])
        invariant logsDropped == old(logsDropped) + CountLogs(inflight[..i])
      {
        assert inflight[..i + 1][..i] == inflight[..i];
        if inflight[i].TraceItem? {
          obsDropped := obsDropped + 1;
        } else {
          logsDropped := logsDropped + 1;
        }
      }
      assert inflight[..|inflight|] == inflight;
      hist := hist.(discarded := hist.discarded + inflight);
      inflight, retried := [], false;
    }

    method AccumulateBatch() returns (work: OpenMap)
      ensures work == Work(View())
    {
      work := open;
      for i := 0 to |inflight|
        invariant work == AccumulateAll(open, inflight[..i])
      {
        assert inflight[..i + 1][..i] == inflight[..i];
        if inflight[i].TraceItem? {
          work := Accumulate(work, inflight[i].trace);
        }
      }
      assert inflight[..|inflight|] == inflight;
    }

    /** COMMIT went through: the tables and the in-memory buckets advance together. */
    method Publish(table: Table, buckets: OpenMap, ghost due: seq<BucketKey>)
      requires inflight != [] || due != []
      requires table == CloseAll(store.rollup, Work(View()), due)
      requires buckets == Work(View()) - (set k | k in due)
      modifies this
      ensures View() == CommitOk(old(View()), due)
    {
      store := Store(store.traces + KeptOf(TracesOf(inflight)), store.logs + LogsOf(inflight), table);
      open, retried, writes := buckets, false, writes + 1;
      hist := hist.(committed := hist.committed + inflight);
      inflight := [];
    }

    /** The busy batch goes back to the front of the queue, once. */
    method Requeue()
      requires !retried
      modifies this`queue, this`inflight, this`retried
      ensures View() == Finish(old(View()), Requeued, [])
    {
      queue, inflight, retried := inflight + queue, [], true;
    }

    /**
     `_commit`: one atomic batch. Every attempt works on its own copy of the buckets, so a
     failing attempt, however far it got, leaves `open` and the tables untouched.
     */
    method Commit(closeAll: bool, now: real, attempts: seq<Attempt>)
        returns (status: Outcome, ghost due: seq<BucketKey>)
      requires |attempts| > BUSY_RETRIES
      modifies this
      ensures ValidDue(Work(old(View())), due)
      ensures forall k :: k in due <==> k in Work(old(View())) && IsDue(k, closeAll, now)
      ensures status == if old(inflight) == [] && due == [] then Committed
                        else Decide(attempts, old(retried), 0)
      ensures View() == Finish(old(View()), status, due)
      ensures !status.Committed? ==> open == old(open) && store == old(store)
    {
      var work := AccumulateBatch();
      var dueNow := DueKeys(work, closeAll, now);
      due := dueNow;
      if inflight == [] && dueNow == [] {
        return Committed, due;
      }
      var attempt := 0;
      while attempt <= BUSY_RETRIES
        invariant 0 <= attempt <= BUSY_RETRIES
        invariant Decide(attempts, retried, 0) == Decide(attempts, retried, attempt)
        invariant View() == old(View())
        decreases BUSY_RETRIES - attempt
      {
        var table, attemptWork := RunAttempt(store.rollup, work, dueNow, attempts[attempt]);
        if attempts[attempt].Succeeds? {
          Publish(table, attemptWork, dueNow);
          return Committed, due;
        }
        if attempts[attempt].failure.Busy? && attempt < BUSY_RETRIES {
          attempt := attempt + 1;
        } else if attempts[attempt].failure.Busy? && !retried {
          Requeue();
          return Requeued, due;
        } else {
          DropBatch();
          return Dropped, due;
        }
      }
      assert false;
    }

    method Stop()
      modifies this`stopping
      ensures View() == old(View()).(stopping := true)
    {
      stopping := true;
    }
  }
}
