/**
 The `metric_rollup` table of layawatch/store/queries.py as a map from primary keys to stats,
 and the cascade that layawatch/store/writer.py runs when it closes a 10 s bucket.
 */
module RollupTable {
  import opened Options
  import opened Rollup

  datatype Metric = Requests | Errors | Latency | Queue

  /** `COUNTER_METRICS` */
  predicate IsCounter(m: Metric) { m.Requests? || m.Errors? }

  /** The primary-key columns other than bucket and step. */
  datatype Dims = Dims(metric: Metric, model: string, route: string, status: int)

  datatype RowKey = RowKey(bucket: int, step: Step, dims: Dims)

  /** The key of one open 10 s bucket. */
  datatype BucketKey = BucketKey(bucket: int, dims: Dims)

  type Table = map<RowKey, Stats>

  function RowOf(k: BucketKey): RowKey { RowKey(k.bucket, 10, k.dims) }

  function ParentOf(k: BucketKey, step: Step): RowKey {
    RowKey(FloorBucket(k.bucket as real, step), step, k.dims)
  }

  /** `load_rollup_row` */
  function Load(t: Table, r: RowKey): Option<Stats> {
    if r in t then Some(t[r]) else None
  }

  /** `upsert_rollup` of one contribution merged into the row that is there. */
  function Absorb(t: Table, r: RowKey, s: Stats): Table {
    t[r := MergeStats(IsCounter(r.dims.metric), Load(t, r), s)]
  }

  /** The three rows written for one increment: its own row and both parents. */
  function Cascade(t: Table, k: BucketKey, s: Stats): Table {
    Absorb(Absorb(Absorb(t, RowOf(k), s), ParentOf(k, 60), s), ParentOf(k, 3600), s)
  }

  /** Stats of the stored 10 s rows with `lo <= bucket < hi`, in primary-key order. */
  function ChildRows(t: Table, d: Dims, lo: int, hi: int): seq<Stats>
    decreases hi - lo
  {
    if lo >= hi then []
    else
      ChildRows(t, d, lo, hi - 1)
      + (if RowKey(hi - 1, 10, d) in t then [t[RowKey(hi - 1, 10, d)]] else [])
  }

  function ChildrenOf(t: Table, p: RowKey): seq<Stats> {
    ChildRows(t, p.dims, p.bucket, p.bucket + p.step)
  }

  /** Every row has the shape of its metric and sits on its step's grid. */
  ghost predicate TableWellFormed(t: Table) {
    forall r | r in t :: WellFormed(IsCounter(r.dims.metric), t[r]) && r.bucket % r.step == 0
  }

  predicate IsParent(p: RowKey) { p.step != 10 && p.bucket % p.step == 0 }

  /** Incremental equals batch at `p`: the parent row is the merge of its stored children. */
  ghost predicate Complete(t: Table, p: RowKey) {
    Load(t, p) == JoinAll(IsCounter(p.dims.metric), ChildrenOf(t, p))
  }

  /** At or past the horizon, when rows before one have been pruned. */
  predicate Within(from: Option<real>, bucket: int) { from.None? || bucket as real >= from.value }

  ghost predicate CompleteWithin(t: Table, from: Option<real>) {
    forall p | IsParent(p) && Within(from, p.bucket) :: Complete(t, p)
  }

  lemma {:induction false} ChildRowsWellFormed(t: Table, d: Dims, lo: int, hi: int)
    requires TableWellFormed(t)
    ensures AllWellFormed(IsCounter(d.metric), ChildRows(t, d, lo, hi))
    ensures ChildRows(t, d, lo, hi) == []
        <==> forall b | lo <= b < hi :: RowKey(b, 10, d) !in t
    decreases hi - lo
  {
    if lo < hi {
      ChildRowsWellFormed(t, d, lo, hi - 1);
    }
  }

  /** Tables that agree on the 10 s rows of a window have the same children there. */
  lemma {:induction false} ChildRowsFrame(t: Table, u: Table, d: Dims, lo: int, hi: int)
    requires forall b | lo <= b < hi :: Load(t, RowKey(b, 10, d)) == Load(u, RowKey(b, 10, d))
    ensures ChildRows(t, d, lo, hi) == ChildRows(u, d, lo, hi)
    decreases hi - lo
  {
    if lo < hi {
      ChildRowsFrame(t, u, d, lo, hi - 1);
      assert Load(t, RowKey(hi - 1, 10, d)) == Load(u, RowKey(hi - 1, 10, d));
    }
  }

  lemma JoinAllAppend(counter: bool, rows: seq<Stats>, s: Stats)
    ensures JoinAll(counter, rows + [s]) == Join(counter, JoinAll(counter, rows), Some(s))
  {
    assert (rows + [s])[..|rows|] == rows;
  }

  lemma JoinThrough(c: bool, f: Option<Stats>, last: Option<Stats>, s: Stats)
    requires WellFormedRow(c, f) && WellFormedRow(c, last) && WellFormed(c, s)
    ensures Join(c, Join(c, f, Some(s)), last) == Join(c, Join(c, f, last), Some(s))
    ensures Join(c, f, Join(c, last, Some(s))) == Join(c, Join(c, f, last), Some(s))
  {
    JoinAssociates(c, f, Some(s), last);
    JoinCommutes(c, Some(s), last);
    JoinAssociates(c, f, last, Some(s));
  }

  /** The merge of the children of a window, and how its last bucket enters it. */
  function ChildMerge(t: Table, d: Dims, lo: int, hi: int): Option<Stats> {
    JoinAll(IsCounter(d.metric), ChildRows(t, d, lo, hi))
  }

  lemma ChildMergeLast(t: Table, d: Dims, lo: int, hi: int)
    requires lo < hi
    ensures ChildMerge(t, d, lo, hi)
         == Join(IsCounter(d.metric), ChildMerge(t, d, lo, hi - 1), Load(t, RowKey(hi - 1, 10, d)))
  {
    var front := ChildRows(t, d, lo, hi - 1);
    if RowKey(hi - 1, 10, d) in t {
      JoinAllAppend(IsCounter(d.metric), front, t[RowKey(hi - 1, 10, d)]);
    } else {
      assert front + [] == front;
    }
  }

  lemma ChildMergeWellFormed(t: Table, d: Dims, lo: int, hi: int)
    requires TableWellFormed(t)
    ensures WellFormedRow(IsCounter(d.metric), ChildMerge(t, d, lo, hi))
  {
    ChildRowsWellFormed(t, d, lo, hi);
    JoinAllWellFormed(IsCounter(d.metric), ChildRows(t, d, lo, hi));
  }

  /** Absorbing an increment into one child changes the merge of the children by it. */
  lemma {:induction false} ChildAbsorbed(t: Table, k: BucketKey, s: Stats, lo: int, hi: int)
    requires TableWellFormed(t) && k.bucket % 10 == 0
    requires WellFormed(IsCounter(k.dims.metric), s)
    requires lo <= k.bucket < hi
    ensures ChildMerge(Absorb(t, RowOf(k), s), k.dims, lo, hi)
         == Join(IsCounter(k.dims.metric), ChildMerge(t, k.dims, lo, hi), Some(s))
    decreases hi - lo
  {
    if k.bucket == hi - 1 {
      AbsorbedLast(t, k, s, lo);
    } else {
      ChildAbsorbed(t, k, s, lo, hi - 1);
      AbsorbedEarlier(t, k, s, lo, hi);
    }
  }

  lemma AbsorbedLast(t: Table, k: BucketKey, s: Stats, lo: int)
    requires TableWellFormed(t) && WellFormed(IsCounter(k.dims.metric), s) && lo <= k.bucket
    ensures ChildMerge(Absorb(t, RowOf(k), s), k.dims, lo, k.bucket + 1)
         == Join(IsCounter(k.dims.metric), ChildMerge(t, k.dims, lo, k.bucket + 1), Some(s))
  {
    var u, hi := Absorb(t, RowOf(k), s), k.bucket + 1;
    ChildMergeLast(t, k.dims, lo, hi);
    ChildMergeLast(u, k.dims, lo, hi);
    LastAbsorbs(t, k.dims, lo, hi, s);
    ChildRowsFrame(t, u, k.dims, lo, hi - 1);
    AbsorbedRow(t, k, s);
  }

  lemma AbsorbedEarlier(t: Table, k: BucketKey, s: Stats, lo: int, hi: int)
    requires TableWellFormed(t) && WellFormed(IsCounter(k.dims.metric), s) && lo <= k.bucket < hi - 1
    requires ChildMerge(Absorb(t, RowOf(k), s), k.dims, lo, hi - 1)
          == Join(IsCounter(k.dims.metric), ChildMerge(t, k.dims, lo, hi - 1), Some(s))
    ensures ChildMerge(Absorb(t, RowOf(k), s), k.dims, lo, hi)
         == Join(IsCounter(k.dims.metric), ChildMerge(t, k.dims, lo, hi), Some(s))
  {
    var u, last := Absorb(t, RowOf(k), s), RowKey(hi - 1, 10, k.dims);
    ChildMergeLast(t, k.dims, lo, hi);
    ChildMergeLast(u, k.dims, lo, hi);
    LastAbsorbs(t, k.dims, lo, hi, s);
    assert Load(u, last) == Load(t, last);
  }

  lemma AbsorbedRow(t: Table, k: BucketKey, s: Stats)
    ensures Load(Absorb(t, RowOf(k), s), RowOf(k)) == Join(IsCounter(k.dims.metric), Load(t, RowOf(k)), Some(s))
  {
  }

  /** Where the increment enters the merge, at the last bucket or before it, does not show. */
  lemma LastAbsorbs(t: Table, d: Dims, lo: int, hi: int, s: Stats)
    requires TableWellFormed(t) && WellFormed(IsCounter(d.metric), s) && lo < hi
    ensures var c, front, last := IsCounter(d.metric), ChildMerge(t, d, lo, hi - 1), Load(t, RowKey(hi - 1, 10, d));
            && Join(c, Join(c, front, Some(s)), last) == Join(c, Join(c, front, last), Some(s))
            && Join(c, front, Join(c, last, Some(s))) == Join(c, Join(c, front, last), Some(s))
  {
    ChildMergeWellFormed(t, d, lo, hi - 1);
    JoinThrough(IsCounter(d.metric), ChildMerge(t, d, lo, hi - 1), Load(t, RowKey(hi - 1, 10, d)), s);
  }

  predicate Covers(p: RowKey, k: BucketKey) {
    p.dims == k.dims && p.bucket <= k.bucket < p.bucket + p.step
  }

  /** Each bucket has exactly one parent on each coarser grid. */
  lemma TheParent(k: BucketKey, step: Step)
    requires step != 10
    ensures IsParent(ParentOf(k, step)) && Covers(ParentOf(k, step), k)
    ensures forall p: RowKey | p.step == step && IsParent(p) && Covers(p, k) :: p == ParentOf(k, step)
  {
    FloorBucketIsTheBucket(k.bucket as real, step);
    forall p: RowKey | p.step == step && IsParent(p) && Covers(p, k)
      ensures p == ParentOf(k, step)
    {
      assert IsBucketOf(p.bucket, k.bucket as real, step);
    }
  }

  lemma AbsorbWellFormed(t: Table, r: RowKey, s: Stats)
    requires TableWellFormed(t) && r.bucket % r.step == 0
    requires WellFormed(IsCounter(r.dims.metric), s)
    ensures TableWellFormed(Absorb(t, r, s))
  {
    JoinWellFormed(IsCounter(r.dims.metric), Load(t, r), Some(s));
  }

  lemma CascadeWellFormed(t: Table, k: BucketKey, s: Stats)
    requires TableWellFormed(t) && k.bucket % 10 == 0
    requires WellFormed(IsCounter(k.dims.metric), s)
    ensures TableWellFormed(Cascade(t, k, s))
  {
    TheParent(k, 60);
    TheParent(k, 3600);
    AbsorbWellFormed(t, RowOf(k), s);
    AbsorbWellFormed(Absorb(t, RowOf(k), s), ParentOf(k, 60), s);
    AbsorbWellFormed(Absorb(Absorb(t, RowOf(k), s), ParentOf(k, 60), s), ParentOf(k, 3600), s);
  }

  /** The cascade merges the increment into exactly the three rows covering the bucket. */
  lemma CascadeRows(t: Table, k: BucketKey, s: Stats, r: RowKey)
    requires r.bucket % r.step == 0
    ensures Load(Cascade(t, k, s), r)
         == if r == RowOf(k) || (r.step != 10 && Covers(r, k))
            then Join(IsCounter(r.dims.metric), Load(t, r), Some(s)) else Load(t, r)
  {
    TheParent(k, 60);
    TheParent(k, 3600);
  }

  lemma CascadeKeepsParent(t: Table, k: BucketKey, s: Stats, p: RowKey)
    requires TableWellFormed(t) && Complete(t, p) && IsParent(p) && k.bucket % 10 == 0
    requires WellFormed(IsCounter(k.dims.metric), s)
    ensures Complete(Cascade(t, k, s), p)
  {
    var t1, u := Absorb(t, RowOf(k), s), Cascade(t, k, s);
    CascadeRows(t, k, s, p);
    if Covers(p, k) {
      ChildAbsorbed(t, k, s, p.bucket, p.bucket + p.step);
      ChildRowsFrame(t1, u, p.dims, p.bucket, p.bucket + p.step);
    } else {
      ChildRowsFrame(t, u, p.dims, p.bucket, p.bucket + p.step);
    }
  }

  /** Cascading the increment, never the merged row, keeps every parent equal to its batch. */
  lemma CascadeKeepsComplete(t: Table, k: BucketKey, s: Stats, from: Option<real>)
    requires TableWellFormed(t) && CompleteWithin(t, from) && k.bucket % 10 == 0
    requires WellFormed(IsCounter(k.dims.metric), s)
    ensures CompleteWithin(Cascade(t, k, s), from)
  {
    forall p | IsParent(p) && Within(from, p.bucket) ensures Complete(Cascade(t, k, s), p) {
      assert Complete(t, p);
      CascadeKeepsParent(t, k, s, p);
    }
  }
}
