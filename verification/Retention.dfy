/**
 One retention pass of layawatch/store/retention.py: build missing 10 s rows from raw traces,
 complete the parents, then prune in chunks. Raw tables are lists in the order of the prune
 query, `ts DESC, rowid DESC`.
 */
module Retention {
  import opened Options
  import opened Common
  import opened Rollup
  import opened RollupTable
  import opened WriterModel
  import WriterLaws
  import opened WriterRollupLaws

  const DELETE_CHUNK := 500

  datatype Row<T> = Row(rowid: nat, ts: real, body: T)

  predicate Newer<T>(a: Row<T>, b: Row<T>) {
    a.ts > b.ts || (a.ts == b.ts && a.rowid > b.rowid)
  }

  ghost predicate NewestFirst<T>(rows: seq<Row<T>>) {
    forall i, j | 0 <= i < j < |rows| :: Newer(rows[i], rows[j])
  }

  // ---- pruning by age and count -----------------------------------------------------------

  /** Row `i` of the sorted table meets one of the two delete predicates. */
  predicate Doomed<T>(rows: seq<Row<T>>, i: nat, cutoff: real, cap: nat)
    requires i < |rows|
  {
    rows[i].ts < cutoff || i >= cap
  }

  function KeepCount<T>(rows: seq<Row<T>>, cutoff: real, cap: nat): (k: nat)
    ensures k <= |rows| && k <= cap
  {
    if rows == [] || cap == 0 || rows[0].ts < cutoff then 0
    else 1 + KeepCount(rows[1..], cutoff, cap - 1)
  }

  /** The doomed rows are exactly the tail behind the first `KeepCount` rows. */
  lemma {:induction false} DoomedIsTheTail<T>(rows: seq<Row<T>>, i: nat, cutoff: real, cap: nat)
    requires NewestFirst(rows) && i < |rows|
    ensures Doomed(rows, i, cutoff, cap) <==> i >= KeepCount(rows, cutoff, cap)
  {
    if cap > 0 && rows[0].ts >= cutoff && i > 0 {
      DoomedIsTheTail(rows[1..], i - 1, cutoff, cap - 1);
    } else if i > 0 {
      assert Newer(rows[0], rows[i]);
    }
  }

  /** Deleting any doomed row changes nothing for the rows in front. */
  lemma {:induction false} DeletingKeepsCount<T>(rows: seq<Row<T>>, i: nat, cutoff: real, cap: nat)
    requires NewestFirst(rows) && KeepCount(rows, cutoff, cap) <= i < |rows|
    ensures NewestFirst(RemoveAt(rows, i))
    ensures KeepCount(RemoveAt(rows, i), cutoff, cap) == KeepCount(rows, cutoff, cap)
  {
    var left := RemoveAt(rows, i);
    StillNewestFirst(rows, i);
    if cap > 0 && rows[0].ts >= cutoff {
      assert left[1..] == RemoveAt(rows[1..], i - 1);
      DeletingKeepsCount(rows[1..], i - 1, cutoff, cap - 1);
    } else if i == 0 && |rows| > 1 {
      assert Newer(rows[0], rows[1]);
    }
  }

  lemma StillNewestFirst<T>(rows: seq<Row<T>>, i: nat)
    requires NewestFirst(rows) && i < |rows|
    ensures NewestFirst(RemoveAt(rows, i))
  {
    var left := RemoveAt(rows, i);
    forall a, b | 0 <= a < b < |left| ensures Newer(left[a], left[b]) {
      assert Newer(rows[if a < i then a else a + 1], rows[if b < i then b else b + 1]);
    }
  }

  class RawTable<T> {
    var rows: seq<Row<T>>

    constructor (rows: seq<Row<T>>)
      ensures this.rows == rows
    {
      this.rows := rows;
    }

    /**
     `_prune_traces` and `_prune_logs`: each statement re-evaluates the predicate and deletes
     an arbitrary chunk of the doomed rows. What is left is exactly the undoomed rows.
     */
    method Prune(cutoff: real, cap: nat) returns (total: nat)
      requires NewestFirst(rows)
      modifies this
      ensures rows == old(rows)[..KeepCount(old(rows), cutoff, cap)]
      ensures total == |old(rows)| - |rows|
      ensures forall i | 0 <= i < |old(rows)| ::
                old(rows)[i] in rows <==> old(rows)[i].ts >= cutoff && i < cap
    {
      ghost var k := KeepCount(rows, cutoff, cap);
      total := 0;
      var deleted := DELETE_CHUNK;
      while deleted >= DELETE_CHUNK
        invariant NewestFirst(rows) && KeepCount(rows, cutoff, cap) == k
        invariant rows[..k] == old(rows)[..k] && total + |rows| == |old(rows)|
        invariant deleted < DELETE_CHUNK ==> |rows| == k
        decreases |rows|, deleted
      {
        deleted := DeleteChunk(cutoff, cap);
        total := total + deleted;
      }
      SurvivorsAreUndoomed(old(rows), cutoff, cap);
    }

    /** One DELETE statement with its LIMIT. */
    method DeleteChunk(cutoff: real, cap: nat) returns (deleted: nat)
      requires NewestFirst(rows)
      modifies this
      ensures NewestFirst(rows) && deleted <= 500 && |rows| + deleted == |old(rows)|
      ensures var k := KeepCount(old(rows), cutoff, cap);
              KeepCount(rows, cutoff, cap) == k && rows[..k] == old(rows)[..k]
              && (deleted < DELETE_CHUNK ==> |rows| == k)
    {
      var keep := KeepCount(rows, cutoff, cap);
      deleted := 0;
      while deleted < DELETE_CHUNK && |rows| > keep
        invariant NewestFirst(rows) && KeepCount(rows, cutoff, cap) == keep
        invariant deleted <= DELETE_CHUNK && |rows| + deleted == |old(rows)|
        invariant rows[..keep] == old(rows)[..keep]
      {
        var i :| keep <= i < |rows|;
        DeletingKeepsCount(rows, i, cutoff, cap);
        assert RemoveAt(rows, i)[..keep] == rows[..keep];
        rows := RemoveAt(rows, i);
        deleted := deleted + 1;
      }
    }
  }

  lemma SurvivorsAreUndoomed<T>(rows: seq<Row<T>>, cutoff: real, cap: nat)
    requires NewestFirst(rows)
    ensures forall i | 0 <= i < |rows| ::
              rows[i] in rows[..KeepCount(rows, cutoff, cap)] <==> !Doomed(rows, i, cutoff, cap)
  {
    var k := KeepCount(rows, cutoff, cap);
    forall i | 0 <= i < |rows| ensures rows[i] in rows[..k] <==> !Doomed(rows, i, cutoff, cap) {
      DoomedIsTheTail(rows, i, cutoff, cap);
      if i < k {
        assert rows[..k][i] == rows[i];
      } else {
        assert forall j | 0 <= j < k :: Newer(rows[j], rows[i]);
      }
    }
  }

  // ---- pending keys and raw samples -------------------------------------------------------

  type TraceRow = Row<Trace>

  ghost predicate Stamped(rows: seq<TraceRow>) {
    forall i | 0 <= i < |rows| :: rows[i].ts == rows[i].body.tsStart
  }

  /** The WHERE clause of `_gather_stats`. */
  predicate Matches(r: TraceRow, k: BucketKey) {
    && k.bucket as real <= r.ts < (k.bucket + 10) as real
    && if k.dims.metric.Errors? then r.body.status == k.dims.status
       else (if r.body.model.Some? then r.body.model.value else "") == k.dims.model
            && r.body.route == k.dims.route
  }

  function Gathered(rows: seq<TraceRow>, k: BucketKey): Bucket {
    if rows == [] then EMPTY
    else
      var b, r := Gathered(rows[..|rows| - 1], k), rows[|rows| - 1];
      if !Matches(r, k) then b
      else match k.dims.metric
        case Latency => Sample(b, r.body.durationMs)
        case Queue => Sample(b, r.body.queueMs)
        case _ => Tally(b)
  }

  /** `_gather_stats` */
  function GatherStats(rows: seq<TraceRow>, k: BucketKey): Option<Stats> {
    StatsOf(k.dims.metric, Gathered(rows, k))
  }

  /** Keys have the dimensions the writer gives them. */
  ghost predicate WriterKey(k: BucketKey) {
    && k.bucket % 10 == 0
    && if k.dims.metric.Errors? then k.dims == Dims(Errors, "", "", k.dims.status) && k.dims.status >= 400
       else k.dims.status == 0
  }

  /** Retention's WHERE clause and the writer's grouping select the same traces. */
  lemma GroupingAgrees(r: TraceRow, k: BucketKey)
    requires r.ts == r.body.tsStart && WriterKey(k)
    ensures Matches(r, k) <==> Contributes(TraceItem(r.body), k)
  {
    FloorBucketIsTheBucket(r.ts, 10);
  }

  lemma ContributedKeysAreWriterKeys(i: Item, k: BucketKey)
    requires Contributes(i, k)
    ensures WriterKey(k)
  {
    FloorBucketIsTheBucket(i.trace.tsStart, 10);
  }

  /** Key `k` belongs to a row about to be pruned and will itself outlive the pass. */
  ghost predicate Pends(rows: seq<TraceRow>, k: BucketKey, cutoff: real, cap: nat, rollupCutoff: real) {
    && k.bucket as real >= rollupCutoff
    && exists i | 0 <= i < |rows| ::
         Doomed(rows, i, cutoff, cap) && Contributes(TraceItem(rows[i].body), k)
  }

  /** The keys the loop body adds for one trace. */
  function KeysOf(t: Trace): set<BucketKey> {
    {KeyOf(t, Requests), KeyOf(t, Latency), KeyOf(t, Queue)}
    + (if t.status >= 400 then {KeyOf(t, Errors)} else {})
  }

  lemma KeysAreContributions(t: Trace)
    ensures forall k :: k in KeysOf(t) <==> Contributes(TraceItem(t), k)
    ensures forall k | k in KeysOf(t) :: k.bucket == FloorBucket(t.tsStart, 10)
  {
    forall k ensures k in KeysOf(t) <==> Contributes(TraceItem(t), k) {
      match k.dims.metric
      case Requests =>
      case Errors =>
      case Latency =>
      case Queue =>
    }
  }

  // ---- building and cascading -------------------------------------------------------------

  predicate Buildable(t: Table, rows: seq<TraceRow>, k: BucketKey) {
    RowOf(k) !in t && GatherStats(rows, k).Some?
  }

  /** `_build_pending` as a function of the table: missing 10 s rows appear, nothing changes. */
  ghost predicate IsBuilt(t: Table, u: Table, rows: seq<TraceRow>, pending: set<BucketKey>) {
    forall r: RowKey :: Load(u, r) == BuiltRow(t, rows, pending, r)
  }

  function BuiltRow(t: Table, rows: seq<TraceRow>, pending: set<BucketKey>, r: RowKey): Option<Stats> {
    var k := BucketKey(r.bucket, r.dims);
    if r.step == 10 && k in pending && Buildable(t, rows, k) then GatherStats(rows, k)
    else Load(t, r)
  }

  /** One round of the build loop. */
  lemma BuildStep(t: Table, u: Table, rows: seq<TraceRow>, done: set<BucketKey>, k: BucketKey)
    requires IsBuilt(t, u, rows, done) && k !in done
    ensures RowOf(k) in u <==> RowOf(k) in t
    ensures IsBuilt(t, if Buildable(t, rows, k) then u[RowOf(k) := GatherStats(rows, k).value] else u,
                    rows, done + {k})
  {
    var v := if Buildable(t, rows, k) then u[RowOf(k) := GatherStats(rows, k).value] else u;
    assert Load(u, RowOf(k)) == BuiltRow(t, rows, done, RowOf(k));
    forall r: RowKey ensures Load(v, r) == BuiltRow(t, rows, done + {k}, r) {
      assert Load(u, r) == BuiltRow(t, rows, done, r);
      if r.step == 10 && BucketKey(r.bucket, r.dims) == k {
        assert r == RowOf(k);
      }
    }
  }

  function ParentsOf(pending: set<BucketKey>): set<RowKey> {
    (set k | k in pending :: ParentOf(k, 60)) + (set k | k in pending :: ParentOf(k, 3600))
  }

  /** The completeness check of `_cascade_parents`. */
  predicate Stale(t: Table, p: RowKey) {
    var children := ChildrenOf(t, p);
    children != [] && !(p in t && t[p].count == CountSum(children))
  }

  function StaleAmong(t: Table, parents: set<RowKey>): set<RowKey> {
    set p | p in parents && Stale(t, p)
  }

  /** `_cascade_parents` as a function of the table: stale parents become their batch. */
  ghost predicate IsCascaded(t: Table, u: Table, parents: set<RowKey>) {
    forall r: RowKey :: Load(u, r) == CascadedRow(t, parents, r)
  }

  function CascadedRow(t: Table, parents: set<RowKey>, r: RowKey): Option<Stats> {
    if r in parents && Stale(t, r) then JoinAll(IsCounter(r.dims.metric), ChildrenOf(t, r))
    else Load(t, r)
  }

  ghost predicate CoarseOnly(parents: set<RowKey>) { forall p | p in parents :: p.step != 10 }

  lemma CascadeKeepsChildren(t: Table, u: Table, parents: set<RowKey>, p: RowKey)
    requires CoarseOnly(parents) && IsCascaded(t, u, parents)
    ensures ChildrenOf(u, p) == ChildrenOf(t, p)
  {
    forall b | p.bucket <= b < p.bucket + p.step
      ensures Load(t, RowKey(b, 10, p.dims)) == Load(u, RowKey(b, 10, p.dims))
    {
      assert Load(u, RowKey(b, 10, p.dims)) == CascadedRow(t, parents, RowKey(b, 10, p.dims));
    }
    ChildRowsFrame(t, u, p.dims, p.bucket, p.bucket + p.step);
  }

  lemma StaleOneMore(t: Table, seen: set<RowKey>, p: RowKey)
    requires p !in seen
    ensures |StaleAmong(t, seen + {p})| == |StaleAmong(t, seen)| + (if Stale(t, p) then 1 else 0)
  {
    assert StaleAmong(t, seen + {p}) == StaleAmong(t, seen) + (if Stale(t, p) then {p} else {});
  }

  /** One round of the cascade loop. */
  lemma CascadeStep(t: Table, u: Table, seen: set<RowKey>, p: RowKey, merged: Option<Stats>)
    requires CoarseOnly(seen) && IsCascaded(t, u, seen) && p !in seen
    requires Stale(t, p) ==> merged.Some? && merged == JoinAll(IsCounter(p.dims.metric), ChildrenOf(t, p))
    ensures Stale(u, p) == Stale(t, p)
    ensures IsCascaded(t, if Stale(t, p) then u[p := merged.value] else u, seen + {p})
  {
    var v := if Stale(t, p) then u[p := merged.value] else u;
    CascadeKeepsChildren(t, u, seen, p);
    assert Load(u, p) == CascadedRow(t, seen, p);
    forall r: RowKey ensures Load(v, r) == CascadedRow(t, seen + {p}, r) {
      assert Load(u, r) == CascadedRow(t, seen, r);
    }
  }

  // ---- what one build-and-cascade leaves behind -------------------------------------------

  lemma {:induction false} GatheredShaped(rows: seq<TraceRow>, k: BucketKey)
    ensures Shaped(k.dims.metric, Gathered(rows, k))
    ensures (exists i | 0 <= i < |rows| :: Matches(rows[i], k)) ==> GatherStats(rows, k).Some?
  {
    if rows != [] {
      GatheredShaped(rows[..|rows| - 1], k);
    }
  }

  lemma BuildKeepsWellFormed(t: Table, u: Table, rows: seq<TraceRow>, pending: set<BucketKey>)
    requires TableWellFormed(t) && IsBuilt(t, u, rows, pending)
    requires forall k | k in pending :: k.bucket % 10 == 0
    ensures TableWellFormed(u)
  {
    forall r | r in u ensures WellFormed(IsCounter(r.dims.metric), u[r]) && r.bucket % r.step == 0 {
      assert Load(u, r) == BuiltRow(t, rows, pending, r);
      StatsOfWellFormed(r.dims.metric, Gathered(rows, BucketKey(r.bucket, r.dims)));
    }
  }

  /** Rows that were there keep their place, so the children only gain rows and count. */
  lemma {:induction false} BuildGrowsChildren(t: Table, u: Table, rows: seq<TraceRow>,
      pending: set<BucketKey>, d: Dims, lo: int, hi: int)
    requires TableWellFormed(t) && TableWellFormed(u) && IsBuilt(t, u, rows, pending)
    ensures CountSum(ChildRows(t, d, lo, hi)) <= CountSum(ChildRows(u, d, lo, hi))
    ensures CountSum(ChildRows(t, d, lo, hi)) == CountSum(ChildRows(u, d, lo, hi))
        ==> ChildRows(t, d, lo, hi) == ChildRows(u, d, lo, hi)
    decreases hi - lo
  {
    if lo < hi {
      BuildGrowsChildren(t, u, rows, pending, d, lo, hi - 1);
      BuiltAt(t, u, rows, pending, RowKey(hi - 1, 10, d));
      LastChildCount(t, d, lo, hi);
      LastChildCount(u, d, lo, hi);
    }
  }

  lemma BuiltAt(t: Table, u: Table, rows: seq<TraceRow>, pending: set<BucketKey>, r: RowKey)
    requires TableWellFormed(u) && IsBuilt(t, u, rows, pending) && r.step == 10
    ensures r in t ==> r in u && u[r] == t[r]
    ensures r in u ==> u[r].count > 0
  {
    assert Load(u, r) == BuiltRow(t, rows, pending, r);
  }

  lemma LastChildCount(t: Table, d: Dims, lo: int, hi: int)
    requires lo < hi
    ensures var r := RowKey(hi - 1, 10, d);
            CountSum(ChildRows(t, d, lo, hi))
            == CountSum(ChildRows(t, d, lo, hi - 1)) + (if r in t then t[r].count else 0)
  {
    var r, front := RowKey(hi - 1, 10, d), ChildRows(t, d, lo, hi - 1);
    if r in t {
      CountSumSnoc(front, t[r]);
    } else {
      assert front + [] == front;
    }
  }

  lemma CountSumSnoc(rows: seq<Stats>, s: Stats)
    ensures CountSum(rows + [s]) == CountSum(rows) + s.count
  {
    assert (rows + [s])[..|rows|] == rows;
  }

  /** A parent with no pending bucket below it has the children it had. */
  lemma BuildFramesChildren(t: Table, u: Table, rows: seq<TraceRow>, pending: set<BucketKey>, p: RowKey)
    requires IsParent(p) && IsBuilt(t, u, rows, pending) && p !in ParentsOf(pending)
    ensures ChildrenOf(u, p) == ChildrenOf(t, p)
  {
    forall b | p.bucket <= b < p.bucket + p.step
      ensures Load(t, RowKey(b, 10, p.dims)) == Load(u, RowKey(b, 10, p.dims))
    {
      var k := BucketKey(b, p.dims);
      TheParent(k, p.step);
      assert Covers(p, k);
      assert Load(u, RowOf(k)) == BuiltRow(t, rows, pending, RowOf(k));
    }
    ChildRowsFrame(t, u, p.dims, p.bucket, p.bucket + p.step);
  }

  /** A parent that was the merge of its children is so again after build and cascade. */
  lemma RollUpKeepsParent(t: Table, u: Table, v: Table, rows: seq<TraceRow>, pending: set<BucketKey>, p: RowKey)
    requires TableWellFormed(t) && TableWellFormed(u) && IsParent(p) && Complete(t, p)
    requires IsBuilt(t, u, rows, pending) && IsCascaded(u, v, ParentsOf(pending))
    ensures Complete(v, p)
  {
    assert Load(v, p) == CascadedRow(u, ParentsOf(pending), p);
    assert Load(u, p) == BuiltRow(t, rows, pending, p);
    CascadeKeepsChildren(u, v, ParentsOf(pending), p);
    if p !in ParentsOf(pending) {
      BuildFramesChildren(t, u, rows, pending, p);
    } else if !Stale(u, p) {
      SkippedParentIsComplete(t, u, rows, pending, p);
    }
  }

  /** The count check skips a parent only if its children are the ones it was merged from. */
  lemma SkippedParentIsComplete(t: Table, u: Table, rows: seq<TraceRow>, pending: set<BucketKey>, p: RowKey)
    requires TableWellFormed(t) && TableWellFormed(u) && Complete(t, p) && p.step != 10
    requires IsBuilt(t, u, rows, pending) && !Stale(u, p)
    ensures Complete(u, p)
  {
    assert Load(u, p) == BuiltRow(t, rows, pending, p);
    BuildGrowsChildren(t, u, rows, pending, p.dims, p.bucket, p.bucket + p.step);
    CompleteCounts(t, p);
    SkippedHasRow(u, p);
  }

  /** A complete parent counts its children, and is there iff it has some. */
  lemma CompleteCounts(t: Table, p: RowKey)
    requires TableWellFormed(t) && Complete(t, p)
    ensures p in t <==> ChildrenOf(t, p) != []
    ensures p in t ==> t[p].count == CountSum(ChildrenOf(t, p))
  {
    ChildRowsWellFormed(t, p.dims, p.bucket, p.bucket + p.step);
    JoinAllWellFormed(IsCounter(p.dims.metric), ChildrenOf(t, p));
  }

  lemma SkippedHasRow(u: Table, p: RowKey)
    requires !Stale(u, p)
    ensures ChildrenOf(u, p) == [] || (p in u && u[p].count == CountSum(ChildrenOf(u, p)))
  {
  }

  /**
   Build and cascade keep every parent the merge of its children, from any horizon on: also the
   ones the count check skips, and whatever an earlier prune has cut off before the horizon.
   */
  lemma RollUpKeepsComplete(t: Table, u: Table, v: Table, rows: seq<TraceRow>, pending: set<BucketKey>,
      from: Option<real>)
    requires TableWellFormed(t) && CompleteWithin(t, from)
    requires forall k | k in pending :: k.bucket % 10 == 0
    requires IsBuilt(t, u, rows, pending) && IsCascaded(u, v, ParentsOf(pending))
    ensures CompleteWithin(v, from)
  {
    BuildKeepsWellFormed(t, u, rows, pending);
    forall p | IsParent(p) && Within(from, p.bucket) ensures Complete(v, p) {
      assert Complete(t, p);
      RollUpKeepsParent(t, u, v, rows, pending, p);
    }
  }

  lemma CascadeKeepsWellFormed(u: Table, v: Table, parents: set<RowKey>)
    requires TableWellFormed(u) && IsCascaded(u, v, parents)
    requires forall p | p in parents :: IsParent(p)
    ensures TableWellFormed(v)
  {
    forall r | r in v ensures WellFormed(IsCounter(r.dims.metric), v[r]) && r.bucket % r.step == 0 {
      assert Load(v, r) == CascadedRow(u, parents, r);
      ChildRowsWellFormed(u, r.dims, r.bucket, r.bucket + r.step);
      JoinAllWellFormed(IsCounter(r.dims.metric), ChildrenOf(u, r));
    }
  }

  /** A parent that is there and counts all of its children. */
  predicate Covered(t: Table, p: RowKey) {
    p in t && t[p].count == CountSum(ChildrenOf(t, p))
  }

  /**
   Roll up before pruning: each doomed trace has, for every key it counts towards that
   outlives the pass, its 10 s row and both complete parents.
   */
  lemma RollUpBeforePrune(t: Table, u: Table, v: Table, rows: seq<TraceRow>, pending: set<BucketKey>,
      cutoff: real, cap: nat, rollupCutoff: real, i: nat, k: BucketKey)
    requires TableWellFormed(t) && Stamped(rows)
    requires forall q :: q in pending <==> Pends(rows, q, cutoff, cap, rollupCutoff)
    requires IsBuilt(t, u, rows, pending) && IsCascaded(u, v, ParentsOf(pending))
    requires i < |rows| && Doomed(rows, i, cutoff, cap)
    requires Contributes(TraceItem(rows[i].body), k) && k.bucket as real >= rollupCutoff
    ensures RowOf(k) in v && Covered(v, ParentOf(k, 60)) && Covered(v, ParentOf(k, 3600))
  {
    assert k in pending;
    PendingAligned(rows, pending, cutoff, cap, rollupCutoff);
    BuildKeepsWellFormed(t, u, rows, pending);
    RowBuilt(t, u, rows, pending, i, k);
    assert Load(v, RowOf(k)) == CascadedRow(u, ParentsOf(pending), RowOf(k));
    ParentCovered(u, v, pending, k, 60);
    ParentCovered(u, v, pending, k, 3600);
  }

  lemma RowBuilt(t: Table, u: Table, rows: seq<TraceRow>, pending: set<BucketKey>, i: nat, k: BucketKey)
    requires Stamped(rows) && i < |rows| && Contributes(TraceItem(rows[i].body), k)
    requires k in pending && IsBuilt(t, u, rows, pending)
    ensures RowOf(k) in u
  {
    ContributedKeysAreWriterKeys(TraceItem(rows[i].body), k);
    GroupingAgrees(rows[i], k);
    GatheredShaped(rows, k);
    assert Load(u, RowOf(k)) == BuiltRow(t, rows, pending, RowOf(k));
  }

  lemma ExistingRowsUntouched(t: Table, u: Table, v: Table, rows: seq<TraceRow>, pending: set<BucketKey>, r: RowKey)
    requires IsBuilt(t, u, rows, pending) && IsCascaded(u, v, ParentsOf(pending))
    requires r.step == 10 && r in t
    ensures Load(v, r) == Load(t, r)
  {
    assert Load(u, r) == BuiltRow(t, rows, pending, r);
    assert Load(v, r) == CascadedRow(u, ParentsOf(pending), r);
  }

  lemma PendingAligned(rows: seq<TraceRow>, pending: set<BucketKey>, cutoff: real, cap: nat, rollupCutoff: real)
    requires forall q :: q in pending <==> Pends(rows, q, cutoff, cap, rollupCutoff)
    ensures forall q | q in pending :: q.bucket % 10 == 0
  {
    forall q | q in pending ensures q.bucket % 10 == 0 {
      assert Pends(rows, q, cutoff, cap, rollupCutoff);
      var j :| 0 <= j < |rows| && Doomed(rows, j, cutoff, cap) && Contributes(TraceItem(rows[j].body), q);
      ContributedKeysAreWriterKeys(TraceItem(rows[j].body), q);
    }
  }

  lemma ParentCovered(u: Table, v: Table, pending: set<BucketKey>, k: BucketKey, step: Step)
    requires TableWellFormed(u) && step != 10 && k in pending && RowOf(k) in u
    requires IsCascaded(u, v, ParentsOf(pending))
    ensures Covered(v, ParentOf(k, step))
  {
    var p := ParentOf(k, step);
    TheParent(k, step);
    CascadeKeepsChildren(u, v, ParentsOf(pending), p);
    ChildRowsWellFormed(u, p.dims, p.bucket, p.bucket + p.step);
    JoinAllWellFormed(IsCounter(p.dims.metric), ChildrenOf(u, p));
    assert Load(v, p) == CascadedRow(u, ParentsOf(pending), p);
    assert ChildrenOf(u, p) != [] by {
      assert RowKey(k.bucket, 10, p.dims) in u;
    }
  }

  /** Running both phases again builds nothing. */
  lemma RollUpIsIdempotent(t: Table, u: Table, v: Table, rows: seq<TraceRow>, pending: set<BucketKey>)
    requires TableWellFormed(t) && IsBuilt(t, u, rows, pending)
    requires forall k | k in pending :: k.bucket % 10 == 0
    requires IsCascaded(u, v, ParentsOf(pending))
    ensures forall k | k in pending :: !Buildable(v, rows, k)
    ensures StaleAmong(v, ParentsOf(pending)) == {}
  {
    BuildKeepsWellFormed(t, u, rows, pending);
    forall k | k in pending ensures !Buildable(v, rows, k) {
      assert Load(u, RowOf(k)) == BuiltRow(t, rows, pending, RowOf(k));
      assert Load(v, RowOf(k)) == CascadedRow(u, ParentsOf(pending), RowOf(k));
    }
    forall p | p in ParentsOf(pending) ensures !Stale(v, p) {
      CascadeKeepsChildren(u, v, ParentsOf(pending), p);
      assert Load(v, p) == CascadedRow(u, ParentsOf(pending), p);
      ChildRowsWellFormed(u, p.dims, p.bucket, p.bucket + p.step);
      JoinAllWellFormed(IsCounter(p.dims.metric), ChildrenOf(u, p));
    }
  }

  /** `sum(...)` and the merge loop over the child rows of one parent. */
  method MergeChildren(counter: bool, children: seq<Stats>) returns (want: int, merged: Option<Stats>)
    ensures want == CountSum(children) && merged == JoinAll(counter, children)
  {
    want, merged := 0, None;
    for i := 0 to |children|
      invariant want == CountSum(children[..i]) && merged == JoinAll(counter, children[..i])
    {
      assert children[..i + 1][..i] == children[..i];
      want := want + children[i].count;
      merged := Some(MergeStats(counter, merged, children[i]));
    }
    assert children[..|children|] == children;
  }

  class Pass {
    const traces: RawTable<Trace>
    const logs: RawTable<Log>
    var rollup: Table

    constructor (traces: RawTable<Trace>, logs: RawTable<Log>, rollup: Table)
      ensures this.traces == traces && this.logs == logs && this.rollup == rollup
    {
      this.traces, this.logs, this.rollup := traces, logs, rollup;
    }

    /** `_pending_keys`; `_accumulate`'s grouping, read back from the raw rows. */
    method PendingKeys(cutoff: real, cap: nat, rollupCutoff: real) returns (keys: set<BucketKey>)
      requires NewestFirst(traces.rows) && Stamped(traces.rows)
      ensures forall k :: k in keys <==> Pends(traces.rows, k, cutoff, cap, rollupCutoff)
    {
      keys := {};
      for i := 0 to |traces.rows|
        invariant forall k :: k in keys <==>
          k.bucket as real >= rollupCutoff && exists j | 0 <= j < i ::
            Doomed(traces.rows, j, cutoff, cap) && Contributes(TraceItem(traces.rows[j].body), k)
      {
        var t := traces.rows[i].body;
        KeysAreContributions(t);
        if Doomed(traces.rows, i, cutoff, cap) && FloorBucket(t.tsStart, 10) as real >= rollupCutoff {
          keys := keys + KeysOf(t);
        }
      }
    }

    /** `_build_pending` */
    method BuildPending(pending: set<BucketKey>) returns (built: nat)
      modifies this
      ensures IsBuilt(old(rollup), rollup, traces.rows, pending)
      ensures built == |set k | k in pending && Buildable(old(rollup), traces.rows, k)|
    {
      built := 0;
      var left := pending;
      ghost var done: set<BucketKey> := {};
      while left != {}
        invariant left <= pending && done == pending - left
        invariant IsBuilt(old(rollup), rollup, traces.rows, done)
        invariant built == |set k | k in done && Buildable(old(rollup), traces.rows, k)|
      {
        var k :| k in left;
        left := left - {k};
        ghost var before := set k | k in done && Buildable(old(rollup), traces.rows, k);
        BuildStep(old(rollup), rollup, traces.rows, done, k);
        var stats := GatherStats(traces.rows, k);
        done := done + {k};
        ghost var after := set k | k in done && Buildable(old(rollup), traces.rows, k);
        if RowOf(k) !in rollup && stats.Some? {
          assert after == before + {k};
          rollup := rollup[RowOf(k) := stats.value];
          built := built + 1;
        } else {
          assert after == before;
        }
      }
      assert done == pending;
    }

    /** `_cascade_parents` */
    method CascadeParents(pending: set<BucketKey>) returns (built: nat)
      modifies this
      ensures IsCascaded(old(rollup), rollup, ParentsOf(pending))
      ensures built == |StaleAmong(old(rollup), ParentsOf(pending))|
    {
      built := 0;
      var left, seen: set<RowKey> := pending, {};
      while left != {}
        invariant left <= pending && seen == ParentsOf(pending - left)
        invariant IsCascaded(old(rollup), rollup, seen)
        invariant built == |StaleAmong(old(rollup), seen)|
      {
        var k :| k in left;
        ghost var done := pending - left;
        left := left - {k};
        assert pending - left == done + {k};
        assert ParentsOf(done + {k}) == ParentsOf(done) + {ParentOf(k, 60)} + {ParentOf(k, 3600)};
        var more;
        more, seen := CompleteParent(ParentOf(k, 60), seen, old(rollup));
        built := built + more;
        more, seen := CompleteParent(ParentOf(k, 3600), seen, old(rollup));
        built := built + more;
      }
      assert pending - left == pending;
    }

    /** One parent of the loop: skipped when seen, left alone when complete, else rebuilt. */
    method CompleteParent(p: RowKey, seen: set<RowKey>, ghost start: Table)
        returns (built: nat, seen': set<RowKey>)
      requires CoarseOnly(seen) && p.step != 10 && IsCascaded(start, rollup, seen)
      modifies this
      ensures seen' == seen + {p} && IsCascaded(start, rollup, seen')
      ensures |StaleAmong(start, seen')| == |StaleAmong(start, seen)| + built
    {
      seen' := seen + {p};
      if p in seen {
        assert seen' == seen;
        return 0, seen';
      }
      var children := ChildrenOf(rollup, p);
      CascadeKeepsChildren(start, rollup, seen, p);
      var want, merged := MergeChildren(IsCounter(p.dims.metric), children);
      CascadeStep(start, rollup, seen, p, merged);
      StaleOneMore(start, seen, p);
      if children == [] || (p in rollup && rollup[p].count == want) {
        return 0, seen';
      }
      rollup := rollup[p := merged.value];
      built := 1;
    }

    /** `_prune_rollups`: the LIMIT picks rows, the DELETE takes every row sharing a bucket. */
    method PruneRollups(cutoff: real) returns (total: nat)
      modifies this
      ensures rollup == Unexpired(old(rollup), cutoff)
      ensures total == |old(rollup)| - |rollup|
    {
      total := 0;
      var deleted := DELETE_CHUNK;
      while deleted >= DELETE_CHUNK
        invariant Unexpired(rollup, cutoff) == Unexpired(old(rollup), cutoff)
        invariant total + |rollup| == |old(rollup)|
        invariant deleted < DELETE_CHUNK ==> rollup == Unexpired(rollup, cutoff)
        decreases |rollup|, deleted
      {
        var picked := PickExpired(rollup, cutoff);
        var gone := set r | r in rollup && exists q | q in picked :: q.bucket == r.bucket;
        DeletedRows(rollup, picked, gone, cutoff);
        deleted := |gone|;
        rollup := rollup - gone;
        total := total + deleted;
      }
    }

    /**
     `apply`: roll up, then prune. The raw tables end up with exactly the rows within the caps;
     `PassRollsUp` and `PassKeepsComplete` say what that makes of the rollup table.
     */
    method Apply(now: real, maxTraces: nat, maxLogs: nat, maxAgeDays: real, rollupDays: real)
        returns (ghost p: PassRecord)
      requires traces as object != logs && NewestFirst(traces.rows) && NewestFirst(logs.rows)
      requires Stamped(traces.rows) && TableWellFormed(rollup)
      modifies this, traces, logs
      ensures p.rows == old(traces.rows) && p.cutoff == now - maxAgeDays * 86400.0
      ensures p.cap == maxTraces && p.horizon == now - rollupDays * 86400.0
      ensures IsPass(old(rollup), rollup, p)
      ensures traces.rows == old(traces.rows)[..KeepCount(old(traces.rows), p.cutoff, maxTraces)]
      ensures logs.rows == old(logs.rows)[..KeepCount(old(logs.rows), p.cutoff, maxLogs)]
    {
      var cutoff, horizon := now - maxAgeDays * 86400.0, now - rollupDays * 86400.0;
      p := RollUp(cutoff, maxTraces, horizon);
      var tracesPruned := traces.Prune(cutoff, maxTraces);
      var logsPruned := logs.Prune(cutoff, maxLogs);
      var rollupsPruned := PruneRollups(horizon);
    }

    /** The first two phases, committed before anything is deleted. */
    method RollUp(cutoff: real, cap: nat, horizon: real) returns (ghost p: PassRecord)
      requires NewestFirst(traces.rows) && Stamped(traces.rows)
      modifies this
      ensures p.rows == traces.rows && p.cutoff == cutoff && p.cap == cap && p.horizon == horizon
      ensures IsPass(old(rollup), Unexpired(rollup, horizon), p)
    {
      var pending := PendingKeys(cutoff, cap, horizon);
      var built := BuildPending(pending);
      ghost var middle := rollup;
      var parents := CascadeParents(pending);
      p := PassRecord(traces.rows, pending, middle, rollup, cutoff, cap, horizon);
    }
  }

  /** Every pruned trace lives on in each 10 s row and parent that is within the horizon. */
  ghost predicate RolledUp(rows: seq<TraceRow>, t: Table, cutoff: real, cap: nat, horizon: real) {
    forall i, k | 0 <= i < |rows| && Doomed(rows, i, cutoff, cap)
               && Contributes(TraceItem(rows[i].body), k) && k.bucket as real >= horizon ::
      RowOf(k) in t && CoveredFrom(t, ParentOf(k, 60), horizon) && CoveredFrom(t, ParentOf(k, 3600), horizon)
  }

  predicate CoveredFrom(t: Table, p: RowKey, horizon: real) {
    p.bucket as real >= horizon ==> Covered(t, p)
  }

  ghost predicate KeptRows(before: Table, after: Table, horizon: real) {
    forall r: RowKey | r.step == 10 && r in before && r.bucket as real >= horizon ::
      Load(after, r) == Load(before, r)
  }

  /** A horizon that has not moved back. */
  predicate Advances(from: Option<real>, horizon: real) { from.None? || from.value <= horizon }

  /** What one pass worked with: the sorted raw rows, the pending keys, the two middle tables. */
  datatype PassRecord = PassRecord(
    rows: seq<TraceRow>, pending: set<BucketKey>, built: Table, cascaded: Table,
    cutoff: real, cap: nat, horizon: real)

  /** The pass `p` takes the rollup table from `before` to `after`. */
  ghost predicate IsPass(before: Table, after: Table, p: PassRecord) {
    && NewestFirst(p.rows) && Stamped(p.rows)
    && (forall q :: q in p.pending <==> Pends(p.rows, q, p.cutoff, p.cap, p.horizon))
    && IsBuilt(before, p.built, p.rows, p.pending)
    && IsCascaded(p.built, p.cascaded, ParentsOf(p.pending))
    && after == Unexpired(p.cascaded, p.horizon)
  }

  /** A pass that begins with complete parents from some horizon on ends with them from its own. */
  lemma PassKeepsComplete(before: Table, after: Table, p: PassRecord, from: Option<real>)
    requires TableWellFormed(before) && CompleteWithin(before, from) && Advances(from, p.horizon)
    requires IsPass(before, after, p)
    ensures TableWellFormed(after) && CompleteWithin(after, Some(p.horizon))
  {
    PendingAligned(p.rows, p.pending, p.cutoff, p.cap, p.horizon);
    RollUpKeepsComplete(before, p.built, p.cascaded, p.rows, p.pending, from);
    PassKeepsWellFormed(before, after, p);
    forall q | IsParent(q) && Within(Some(p.horizon), q.bucket) ensures Complete(after, q) {
      assert Complete(p.cascaded, q);
      PruneKeepsComplete(p.cascaded, p.horizon, q);
    }
  }

  lemma PassKeepsWellFormed(before: Table, after: Table, p: PassRecord)
    requires TableWellFormed(before) && IsPass(before, after, p)
    ensures TableWellFormed(after)
  {
    PendingAligned(p.rows, p.pending, p.cutoff, p.cap, p.horizon);
    BuildKeepsWellFormed(before, p.built, p.rows, p.pending);
    forall q | q in ParentsOf(p.pending) ensures IsParent(q) {
      ParentsAreParents(p.pending, q);
    }
    CascadeKeepsWellFormed(p.built, p.cascaded, ParentsOf(p.pending));
  }

  lemma ParentsAreParents(pending: set<BucketKey>, q: RowKey)
    requires q in ParentsOf(pending)
    ensures IsParent(q)
  {
    if k :| k in pending && q == ParentOf(k, 60) {
      TheParent(k, 60);
    } else {
      var k :| k in pending && q == ParentOf(k, 3600);
      TheParent(k, 3600);
    }
  }

  /** A pass also rolls up every trace it is about to delete, and leaves old rows alone. */
  lemma PassRollsUp(before: Table, after: Table, p: PassRecord)
    requires TableWellFormed(before) && IsPass(before, after, p)
    ensures RolledUp(p.rows, after, p.cutoff, p.cap, p.horizon)
    ensures KeptRows(before, after, p.horizon)
  {
    var v := p.cascaded;
    forall i, k | 0 <= i < |p.rows| && Doomed(p.rows, i, p.cutoff, p.cap)
               && Contributes(TraceItem(p.rows[i].body), k) && k.bucket as real >= p.horizon
      ensures RowOf(k) in after && CoveredFrom(after, ParentOf(k, 60), p.horizon)
           && CoveredFrom(after, ParentOf(k, 3600), p.horizon)
    {
      RollUpBeforePrune(before, p.built, v, p.rows, p.pending, p.cutoff, p.cap, p.horizon, i, k);
      CoveredSurvives(v, ParentOf(k, 60), p.horizon);
      CoveredSurvives(v, ParentOf(k, 3600), p.horizon);
    }
    forall r: RowKey | r.step == 10 && r in before && r.bucket as real >= p.horizon
      ensures Load(after, r) == Load(before, r)
    {
      ExistingRowsUntouched(before, p.built, v, p.rows, p.pending, r);
    }
  }

  lemma CoveredSurvives(t: Table, p: RowKey, horizon: real)
    requires Covered(t, p)
    ensures CoveredFrom(Unexpired(t, horizon), p, horizon)
  {
    if p.bucket as real >= horizon {
      ChildRowsFrame(t, Unexpired(t, horizon), p.dims, p.bucket, p.bucket + p.step);
    }
  }

  function Unexpired(t: Table, cutoff: real): Table {
    map r | r in t && r.bucket as real >= cutoff :: t[r]
  }

  /** `SELECT bucket ... WHERE bucket < ? LIMIT ?`, in whatever order the rows come. */
  method PickExpired(t: Table, cutoff: real) returns (picked: set<RowKey>)
    ensures forall r | r in picked :: r in t && (r.bucket as real) < cutoff
    ensures |picked| == DELETE_CHUNK
         || forall r | r in t && (r.bucket as real) < cutoff :: r in picked
  {
    picked := {};
    var left := set r | r in t && (r.bucket as real) < cutoff;
    while left != {} && |picked| < DELETE_CHUNK
      invariant |picked| <= DELETE_CHUNK && picked !! left
      invariant picked + left == set r | r in t && (r.bucket as real) < cutoff
    {
      var r :| r in left;
      picked, left := picked + {r}, left - {r};
    }
  }

  lemma DeletedRows(t: Table, picked: set<RowKey>, gone: set<RowKey>, cutoff: real)
    requires forall r | r in picked :: r in t && (r.bucket as real) < cutoff
    requires |picked| == DELETE_CHUNK
         || forall r | r in t && (r.bucket as real) < cutoff :: r in picked
    requires gone == set r | r in t && exists q | q in picked :: q.bucket == r.bucket
    ensures Unexpired(t - gone, cutoff) == Unexpired(t, cutoff)
    ensures |t - gone| + |gone| == |t|
    ensures |gone| < DELETE_CHUNK ==> t - gone == Unexpired(t - gone, cutoff)
  {
    GoneAreExpired(t, picked, gone, cutoff);
    RemovedSize(t, gone);
    SubsetSize(picked, gone);
    SubsetIn(t, gone, cutoff);
    if |gone| < DELETE_CHUNK {
      NoneExpired(t - gone, cutoff);
    }
  }

  lemma NoneExpired(t: Table, cutoff: real)
    requires forall r | r in t :: r.bucket as real >= cutoff
    ensures t == Unexpired(t, cutoff)
  {
  }

  lemma GoneAreExpired(t: Table, picked: set<RowKey>, gone: set<RowKey>, cutoff: real)
    requires forall r | r in picked :: r in t && (r.bucket as real) < cutoff
    requires gone == set r | r in t && exists q | q in picked :: q.bucket == r.bucket
    ensures picked <= gone && forall r | r in gone :: r in t && (r.bucket as real) < cutoff
  {
    forall r | r in gone ensures r in t && (r.bucket as real) < cutoff {
      var q :| q in picked && q.bucket == r.bucket;
    }
    forall r | r in picked ensures r in gone {
      assert r.bucket == r.bucket;
    }
  }

  lemma SubsetIn(t: Table, gone: set<RowKey>, cutoff: real)
    requires forall r | r in gone :: r in t && (r.bucket as real) < cutoff
    ensures Unexpired(t - gone, cutoff) == Unexpired(t, cutoff)
  {
  }

  /** Pruning by bucket never leaves a parent whose children it deleted, ... */
  lemma NoParentOutlivesItsChildren(t: Table, cutoff: real, p: RowKey, k: BucketKey)
    requires p.step != 10 && Covers(p, k) && RowOf(k) in t && RowOf(k) !in Unexpired(t, cutoff)
    ensures p !in Unexpired(t, cutoff)
  {
  }

  /** ... so every parent at or past the cutoff is still the merge of all its children. */
  lemma PruneKeepsComplete(t: Table, cutoff: real, p: RowKey)
    requires Complete(t, p) && p.bucket as real >= cutoff
    ensures Complete(Unexpired(t, cutoff), p)
  {
    ChildRowsFrame(t, Unexpired(t, cutoff), p.dims, p.bucket, p.bucket + p.step);
  }

  /** The converse fails; exactly when a complete parent is complete after the prune. */
  lemma PrunedParentCompleteIff(t: Table, cutoff: real, p: RowKey)
    requires TableWellFormed(t) && Complete(t, p) && IsParent(p)
    ensures Complete(Unexpired(t, cutoff), p)
       <==> p.bucket as real >= cutoff
            || forall b | p.bucket <= b < p.bucket + p.step :: RowKey(b, 10, p.dims) !in Unexpired(t, cutoff)
  {
    var w := Unexpired(t, cutoff);
    if p.bucket as real >= cutoff {
      PruneKeepsComplete(t, cutoff, p);
    } else {
      ChildRowsWellFormed(w, p.dims, p.bucket, p.bucket + p.step);
      JoinAllWellFormed(IsCounter(p.dims.metric), ChildrenOf(w, p));
    }
  }

  // ---- crash equivalence ------------------------------------------------------------------

  function OfTraces(ts: seq<Trace>, k: BucketKey): Bucket {
    if ts == [] then EMPTY
    else Add(OfTraces(ts[..|ts| - 1], k), TraceItem(ts[|ts| - 1]), k)
  }

  function Bodies(rows: seq<TraceRow>): (ts: seq<Trace>)
    ensures |ts| == |rows|
  {
    if rows == [] then [] else Bodies(rows[..|rows| - 1]) + [rows[|rows| - 1].body]
  }

  lemma {:induction false} GatheredIsOfTraces(rows: seq<TraceRow>, k: BucketKey)
    requires Stamped(rows) && WriterKey(k)
    ensures Gathered(rows, k) == OfTraces(Bodies(rows), k)
  {
    if rows != [] {
      GatheredIsOfTraces(rows[..|rows| - 1], k);
      GroupingAgrees(rows[|rows| - 1], k);
      assert Bodies(rows)[..|rows| - 1] == Bodies(rows[..|rows| - 1]);
    }
  }

  /** With no sampled-out contributor, the stored traces say what the committed items say. */
  lemma {:induction false} KeptSayTheSame(items: seq<Item>, k: BucketKey)
    requires forall i | 0 <= i < |items| && Contributes(items[i], k) :: IsKept(items[i].trace)
    ensures OfTraces(KeptOf(TracesOf(items)), k) == Contribution(items, k)
  {
    if items != [] {
      var front, last := items[..|items| - 1], items[|items| - 1];
      KeptSayTheSame(front, k);
      if last.TraceItem? {
        var ts := TracesOf(front);
        assert (ts + [last.trace])[..|ts|] == ts;
        var kept := KeptOf(ts);
        assert (kept + [last.trace])[..|kept|] == kept;
      }
    }
  }

  lemma {:induction false} ContributionIsWriterKey(items: seq<Item>, k: BucketKey)
    requires Contribution(items, k) != EMPTY
    ensures WriterKey(k)
  {
    var i := items[|items| - 1];
    if Contributes(i, k) {
      ContributedKeysAreWriterKeys(i, k);
    } else {
      ContributionIsWriterKey(items[..|items| - 1], k);
    }
  }

  /** Two buckets with the same units and the same bag of samples. */
  ghost predicate SameBag(a: Bucket, b: Bucket) {
    a.n == b.n && multiset(a.vals) == multiset(b.vals)
  }

  lemma AddSameBag(a: Bucket, b: Bucket, i: Item, k: BucketKey)
    requires SameBag(a, b)
    ensures SameBag(Add(a, i, k), Add(b, i, k))
  {
  }

  lemma AddCommutes(b: Bucket, i: Item, j: Item, k: BucketKey)
    ensures SameBag(Add(Add(b, i, k), j, k), Add(Add(b, j, k), i, k))
  {
  }

  lemma OfTracesSnoc(front: seq<Trace>, t: Trace, k: BucketKey)
    ensures OfTraces(front + [t], k) == Add(OfTraces(front, k), TraceItem(t), k)
  {
    assert (front + [t])[..|front|] == front;
  }

  lemma RemoveBeforeLast<T>(front: seq<T>, last: T, i: nat)
    requires i < |front|
    ensures RemoveAt(front + [last], i) == RemoveAt(front, i) + [last]
  {
  }

  lemma {:induction false} TakeOut(ts: seq<Trace>, i: nat, k: BucketKey)
    requires i < |ts|
    ensures SameBag(OfTraces(ts, k), Add(OfTraces(RemoveAt(ts, i), k), TraceItem(ts[i]), k))
  {
    var front, last := ts[..|ts| - 1], ts[|ts| - 1];
    assert ts == front + [last];
    OfTracesSnoc(front, last, k);
    if i < |front| {
      TakeOut(front, i, k);
      RemoveBeforeLast(front, last, i);
      OfTracesSnoc(RemoveAt(front, i), last, k);
      SwapLast(OfTraces(front, k), OfTraces(RemoveAt(front, i), k), TraceItem(ts[i]), TraceItem(last), k);
    } else {
      assert RemoveAt(ts, i) == front;
    }
  }

  lemma SwapLast(whole: Bucket, base: Bucket, i: Item, last: Item, k: BucketKey)
    requires SameBag(whole, Add(base, i, k))
    ensures SameBag(Add(whole, last, k), Add(Add(base, last, k), i, k))
  {
    AddSameBag(whole, Add(base, i, k), last, k);
    AddCommutes(base, i, last, k);
  }

  lemma {:induction false} OfTracesPermuted(a: seq<Trace>, b: seq<Trace>, k: BucketKey)
    requires multiset(a) == multiset(b)
    ensures SameBag(OfTraces(a, k), OfTraces(b, k))
  {
    SameBagSameLength(a, b);
    if a != [] {
      assert a[0] in multiset(b);
      var i :| 0 <= i < |b| && b[i] == a[0];
      OfTracesPermuted(RemoveAt(a, 0), RemoveAt(b, i), k);
      PutBack(a, 0, b, i, k);
    }
  }

  lemma PutBack(a: seq<Trace>, i: nat, b: seq<Trace>, j: nat, k: BucketKey)
    requires i < |a| && j < |b| && a[i] == b[j]
    requires SameBag(OfTraces(RemoveAt(a, i), k), OfTraces(RemoveAt(b, j), k))
    ensures SameBag(OfTraces(a, k), OfTraces(b, k))
  {
    TakeOut(a, i, k);
    TakeOut(b, j, k);
    AddSameBag(OfTraces(RemoveAt(a, i), k), OfTraces(RemoveAt(b, j), k), TraceItem(a[i]), k);
  }

  lemma StatsOfBag(m: Metric, a: Bucket, b: Bucket)
    requires SameBag(a, b)
    ensures StatsOf(m, a) == StatsOf(m, b)
  {
    SameBagSameLength(a.vals, b.vals);
    SummarizePermuted(a.vals, b.vals);
  }

  /** The traces that count towards `k`. */
  function Only(ts: seq<Trace>, k: BucketKey): seq<Trace> {
    if ts == [] then []
    else
      var front, t := Only(ts[..|ts| - 1], k), ts[|ts| - 1];
      if Contributes(TraceItem(t), k) then front + [t] else front
  }

  lemma {:induction false} OnlyTheyCount(ts: seq<Trace>, k: BucketKey)
    ensures OfTraces(Only(ts, k), k) == OfTraces(ts, k)
  {
    if ts != [] {
      var front, t := ts[..|ts| - 1], ts[|ts| - 1];
      OnlyTheyCount(front, k);
      assert (Only(front, k) + [t])[..|Only(front, k)|] == Only(front, k);
    }
  }

  /**
   Crash equivalence: if key `k` was never closed, none of its committed traces was sampled out
   and the raw rows still hold those traces, in whatever order and whatever else was pruned,
   then the row retention builds after the open bucket is lost is the row the writer was going
   to write.
   */
  lemma CrashEquivalence(cfg: Config, actions: seq<Action>, rows: seq<TraceRow>, k: BucketKey)
    requires var s := Execute(cfg, actions);
             && RowOf(k) !in s.store.rollup && k in s.open && Stamped(rows)
             && multiset(Only(Bodies(rows), k)) == multiset(Only(s.store.traces, k))
             && forall i | 0 <= i < |s.hist.committed| && Contributes(s.hist.committed[i], k) ::
                  IsKept(s.hist.committed[i].trace)
    ensures GatherStats(rows, k) == StatsOf(k.dims.metric, Execute(cfg, actions).open[k])
  {
    var s := Execute(cfg, actions);
    RollupInvAlways(cfg, actions);
    WriterLaws.QueueInvAlways(cfg, actions);
    assert KeyInv(s.open, s.store.rollup, k, Contribution(s.hist.committed, k));
    ContributionIsWriterKey(s.hist.committed, k);
    KeptSayTheSame(s.hist.committed, k);
    GatheredIsOfTraces(rows, k);
    OnlyTheyCount(Bodies(rows), k);
    OnlyTheyCount(s.store.traces, k);
    OfTracesPermuted(Only(Bodies(rows), k), Only(s.store.traces, k), k);
    StatsOfBag(k.dims.metric, Gathered(rows, k), s.open[k]);
  }
}
