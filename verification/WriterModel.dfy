/**
 The write pipeline of layawatch/store/writer.py as a state machine. One `Action` is one
 region that the source runs under the queue lock, or one transaction; `Execute` runs any
 list of actions, so a theorem about it covers every interleaving of producers and writer.
 */
module WriterModel {
  import opened Options
  import opened Rollup
  import opened RollupTable

  datatype Trace = Trace(
    id: nat, tsStart: real, durationMs: real, queueMs: real, route: string,
    model: Option<string>, status: int, errorCode: Option<string>, sampled: Option<bool>)

  datatype Log = Log(ts: real, message: string)

  datatype Item = TraceItem(trace: Trace) | LogItem(log: Log)

  /** `meta["sampled"]` defaults to True. */
  predicate IsKept(t: Trace) { t.sampled != Some(false) }

  predicate IsError(t: Trace) {
    t.status >= 400 || (t.errorCode.Some? && t.errorCode.value != "")
  }

  predicate Droppable(i: Item) { i.TraceItem? && IsKept(i.trace) && !IsError(i.trace) }

  // ---- open buckets -----------------------------------------------------------------------

  datatype Bucket = Bucket(n: int, vals: seq<real>)
  type OpenMap = map<BucketKey, Bucket>

  const EMPTY := Bucket(0, [])

  function BucketAt(open: OpenMap, k: BucketKey): Bucket {
    if k in open then open[k] else EMPTY
  }

  function DimsOf(t: Trace, m: Metric): Dims {
    if m.Errors? then Dims(Errors, "", "", t.status)
    else Dims(m, if t.model.Some? then t.model.value else "", t.route, 0)
  }

  function KeyOf(t: Trace, m: Metric): BucketKey {
    BucketKey(FloorBucket(t.tsStart, 10), DimsOf(t, m))
  }

  function Tally(b: Bucket): Bucket { Bucket(b.n + 1, b.vals) }

  function Sample(b: Bucket, v: real): Bucket { Bucket(b.n, b.vals + [v]) }

  /** `_bump(work, key, n=1)`; buckets are replaced, never mutated. */
  function BumpCount(work: OpenMap, k: BucketKey): OpenMap { work[k := Tally(BucketAt(work, k))] }

  /** `_bump(work, key, value=v)` */
  function BumpValue(work: OpenMap, k: BucketKey, v: real): OpenMap {
    work[k := Sample(BucketAt(work, k), v)]
  }

  function Accumulate(work: OpenMap, t: Trace): OpenMap {
    var w1 := BumpCount(work, KeyOf(t, Requests));
    var w2 := if t.status >= 400 then BumpCount(w1, KeyOf(t, Errors)) else w1;
    var w3 := BumpValue(w2, KeyOf(t, Latency), t.durationMs);
    BumpValue(w3, KeyOf(t, Queue), t.queueMs)
  }

  function AccumulateAll(work: OpenMap, batch: seq<Item>): OpenMap {
    if batch == [] then work
    else
      var before, last := AccumulateAll(work, batch[..|batch| - 1]), batch[|batch| - 1];
      if last.TraceItem? then Accumulate(before, last.trace) else before
  }

  /** Which keys a trace counts towards, said without reference to the accumulation. */
  predicate Contributes(i: Item, k: BucketKey) {
    && i.TraceItem?
    && k == KeyOf(i.trace, k.dims.metric)
    && (k.dims.metric.Errors? ==> i.trace.status >= 400)
  }

  function Add(b: Bucket, i: Item, k: BucketKey): Bucket {
    if !Contributes(i, k) then b
    else match k.dims.metric
      case Latency => Sample(b, i.trace.durationMs)
      case Queue => Sample(b, i.trace.queueMs)
      case _ => Tally(b)
  }

  /** What a list of items amounts to for key `k`: one unit or one sample per trace. */
  function Contribution(items: seq<Item>, k: BucketKey): Bucket {
    if items == [] then EMPTY
    else Add(Contribution(items[..|items| - 1], k), items[|items| - 1], k)
  }

  /** The increment `_rollup_rows` computes for one closed bucket. */
  function StatsOf(m: Metric, b: Bucket): Option<Stats> {
    if IsCounter(m) then if b.n <= 0 then None else Some(CounterStats(b.n))
    else if b.vals == [] then None else Some(Summarize(b.vals))
  }

  function CloseOne(t: Table, k: BucketKey, b: Bucket): Table {
    match StatsOf(k.dims.metric, b)
    case None => t
    case Some(s) => Cascade(t, k, s)
  }

  function CloseAll(t: Table, work: OpenMap, due: seq<BucketKey>): Table {
    if due == [] then t
    else
      var k := due[|due| - 1];
      CloseOne(CloseAll(t, work, due[..|due| - 1]), k, BucketAt(work, k))
  }

  // ---- the machine ------------------------------------------------------------------------

  datatype Config = Config(queueMax: nat, batchRows: nat)

  datatype Store = Store(traces: seq<Trace>, logs: seq<Log>, rollup: Table)

  /** What happened so far; the program does not keep it. */
  datatype History = History(
    offered: seq<Item>, sampledOut: nat, appended: seq<Item>, committed: seq<Item>,
    discarded: seq<Item>)

  datatype State = State(
    queue: seq<Item>, inflight: seq<Item>, waiting: seq<Item>, open: OpenMap, retried: bool,
    stopping: bool, obsDropped: nat, logsDropped: nat, writes: nat, store: Store, hist: History)

  datatype Outcome = Committed | Requeued | Dropped

  datatype Action =
    | Offer(trace: Trace)                // enqueue, up to the wait for room
    | OfferLog(log: Log)                 // enqueue_log
    | Wake(index: nat, timeUp: bool)     // a waiting producer re-checks the queue
    | Pop                                // _collect takes one item
    | Commit(outcome: Outcome, due: seq<BucketKey>)
    | BeginStop

  const INIT := State([], [], [], map[], false, false, 0, 0, 0, Store([], [], map[]),
                      History([], 0, [], [], []))

  function TracesOf(items: seq<Item>): seq<Trace> {
    if items == [] then []
    else
      var front, last := TracesOf(items[..|items| - 1]), items[|items| - 1];
      if last.TraceItem? then front + [last.trace] else front
  }

  function KeptOf(ts: seq<Trace>): seq<Trace> {
    if ts == [] then []
    else
      var front, last := KeptOf(ts[..|ts| - 1]), ts[|ts| - 1];
      if IsKept(last) then front + [last] else front
  }

  function LogsOf(items: seq<Item>): seq<Log> {
    if items == [] then []
    else
      var front, last := LogsOf(items[..|items| - 1]), items[|items| - 1];
      if last.LogItem? then front + [last.log] else front
  }

  function CountTraces(items: seq<Item>): nat { |TracesOf(items)| }

  function CountLogs(items: seq<Item>): nat { |LogsOf(items)| }

  /** Index of the oldest droppable item, or the length when there is none. */
  function FirstDroppable(q: seq<Item>): (i: nat)
    ensures i <= |q|
    ensures i < |q| ==> Droppable(q[i])
    ensures forall j | 0 <= j < i :: !Droppable(q[j])
  {
    if q == [] || Droppable(q[0]) then 0 else 1 + FirstDroppable(q[1..])
  }

  function Append(s: State, i: Item): State {
    s.(queue := s.queue + [i], hist := s.hist.(appended := s.hist.appended + [i]))
  }

  function Discard(s: State, items: seq<Item>): State {
    s.(obsDropped := s.obsDropped + CountTraces(items),
       logsDropped := s.logsDropped + CountLogs(items),
       hist := s.hist.(discarded := s.hist.discarded + items))
  }

  function Offered(s: State, i: Item): State {
    var out := if i.TraceItem? && !IsKept(i.trace) then 1 else 0;
    s.(obsDropped := s.obsDropped + out,
       hist := s.hist.(offered := s.hist.offered + [i], sampledOut := s.hist.sampledOut + out))
  }

  function EvictAt(s: State, i: nat): State
    requires i < |s.queue|
  {
    Discard(s.(queue := RemoveAt(s.queue, i)), [s.queue[i]])
  }

  function OfferTrace(cfg: Config, s: State, t: Trace): State {
    var item := TraceItem(t);
    if s.stopping then s                                   // RuntimeError: rejected
    else
      var s1 := Offered(s, item);
      var i := FirstDroppable(s.queue);
      if |s.queue| < cfg.queueMax then Append(s1, item)
      else if Droppable(item) && i < |s.queue| then Append(EvictAt(s1, i), item)
      else s1.(waiting := s1.waiting + [item])
  }

  function OfferLogEntry(cfg: Config, s: State, l: Log): State {
    if s.stopping then s
    else
      var s1 := Offered(s, LogItem(l));
      if |s.queue| < cfg.queueMax then Append(s1, LogItem(l)) else Discard(s1, [LogItem(l)])
  }

  function WakeWaiter(cfg: Config, s: State, i: nat, timeUp: bool): State {
    if i >= |s.waiting| then s
    else
      var s1 := s.(waiting := RemoveAt(s.waiting, i));
      if |s.queue| < cfg.queueMax then Append(s1, s.waiting[i])
      else if s.stopping || timeUp then Discard(s1, [s.waiting[i]])
      else s
  }

  function PopOne(cfg: Config, s: State): State {
    if s.queue == [] || |s.inflight| >= cfg.batchRows then s
    else s.(inflight := s.inflight + [s.queue[0]], queue := s.queue[1..])
  }

  function Pops(cfg: Config, s: State, n: nat): State {
    if n == 0 then s else PopOne(cfg, Pops(cfg, s, n - 1))
  }

  function Work(s: State): OpenMap { AccumulateAll(s.open, s.inflight) }

  predicate ValidDue(work: OpenMap, due: seq<BucketKey>) {
    && (forall i | 0 <= i < |due| :: due[i] in work)
    && (forall i, j | 0 <= i < j < |due| :: due[i] != due[j])
  }

  function CommitOk(s: State, due: seq<BucketKey>): State {
    if s.inflight == [] && due == [] then s
    else
      s.(inflight := [], retried := false, writes := s.writes + 1,
         open := Work(s) - (set k | k in due),
         store := Store(s.store.traces + KeptOf(TracesOf(s.inflight)),
                        s.store.logs + LogsOf(s.inflight),
                        CloseAll(s.store.rollup, Work(s), due)),
         hist := s.hist.(committed := s.hist.committed + s.inflight))
  }

  function Finish(s: State, outcome: Outcome, due: seq<BucketKey>): State {
    match outcome
    case Committed => if ValidDue(Work(s), due) then CommitOk(s, due) else s
    case Requeued =>
      if s.retried then s else s.(queue := s.inflight + s.queue, inflight := [], retried := true)
    case Dropped => Discard(s, s.inflight).(inflight := [], retried := false)
  }

  function Next(cfg: Config, s: State, a: Action): State {
    match a
    case Offer(t) => OfferTrace(cfg, s, t)
    case OfferLog(l) => OfferLogEntry(cfg, s, l)
    case Wake(i, timeUp) => WakeWaiter(cfg, s, i, timeUp)
    case Pop => PopOne(cfg, s)
    case Commit(outcome, due) => Finish(s, outcome, due)
    case BeginStop => s.(stopping := true)
  }

  function Execute(cfg: Config, actions: seq<Action>): State {
    if actions == [] then INIT
    else Next(cfg, Execute(cfg, actions[..|actions| - 1]), actions[|actions| - 1])
  }
}
