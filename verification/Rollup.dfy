/**
 The pure rollup algebra of layawatch/obs/rollup.py together with the merge rules of
 layawatch/store/queries.py. Floats are reals.

 A stored row is an `Option<Stats>`: None is the absent row. `Join` combines two such rows
 with the program's own merge rule; the laws at the end say that `Join` is a commutative
 monoid on well-formed rows, which is what makes incremental maintenance order-independent.
 */
module Rollup {
  import opened Options
  import opened Common

  // ---- bucket starts ----------------------------------------------------------------------

  /** The persisted steps; other steps are a ValueError in the source. */
  type Step = s: int | s == 10 || s == 60 || s == 3600 witness 10

  function FloorBucket(ts: real, step: Step): int {
    (ts / step as real).Floor * step
  }

  /** `b` is the aligned bucket start whose half-open window contains `ts`. */
  ghost predicate IsBucketOf(b: int, ts: real, step: Step) {
    b % step == 0 && b as real <= ts < (b + step) as real
  }

  lemma FloorBucketContains(ts: real, step: Step)
    ensures IsBucketOf(FloorBucket(ts, step), ts, step)
  {
    var q := (ts / step as real).Floor;
    assert q as real * step as real <= ts < (q as real + 1.0) * step as real by {
      assert ts == (ts / step as real) * step as real;
    }
    assert FloorBucket(ts, step) as real == q as real * step as real;
  }

  lemma FloorBucketIsTheBucket(ts: real, step: Step)
    ensures IsBucketOf(FloorBucket(ts, step), ts, step)
    ensures forall b | IsBucketOf(b, ts, step) :: b == FloorBucket(ts, step)
  {
    FloorBucketContains(ts, step);
    forall b | IsBucketOf(b, ts, step) ensures b == FloorBucket(ts, step) {
      MultiplesApart(b, FloorBucket(ts, step), step);
    }
  }

  lemma MultiplesApart(a: int, b: int, step: Step)
    requires a % step == 0 && b % step == 0
    requires a - step < b < a + step
    ensures a == b
  {
    if step == 10 {
    } else if step == 60 {
    } else {
    }
  }

  lemma TenDividesWindow(b: int, c: int, step: Step)
    requires b % 10 == 0 && c % step == 0 && c <= b < c + step
    ensures b + 10 <= c + step
  {
    if step == 10 {
    } else if step == 60 {
    } else {
    }
  }

  /** Flooring to 10 s first never changes the coarser bucket. */
  lemma FloorBucketsNest(ts: real, step: Step)
    ensures FloorBucket(FloorBucket(ts, 10) as real, step) == FloorBucket(ts, step)
  {
    var b := FloorBucket(ts, 10);
    var c := FloorBucket(b as real, step);
    FloorBucketIsTheBucket(ts, 10);
    FloorBucketIsTheBucket(b as real, step);
    FloorBucketIsTheBucket(ts, step);
    TenDividesWindow(b, c, step);
    assert IsBucketOf(c, ts, step);
  }

  // ---- samples ----------------------------------------------------------------------------

  ghost predicate Sorted(xs: seq<real>) {
    forall i, j | 0 <= i < j < |xs| :: xs[i] <= xs[j]
  }

  lemma ConsSorted(x: real, xs: seq<real>)
    requires Sorted(xs) && forall y | y in multiset(xs) :: x <= y
    ensures Sorted([x] + xs)
  {
    forall i | 0 <= i < |xs| ensures x <= xs[i] {
      assert xs[i] in multiset(xs);
    }
  }

  lemma ConsBag(x: real, xs: seq<real>)
    ensures multiset([x] + xs) == multiset{x} + multiset(xs)
  {
  }

  lemma TailAbove(xs: seq<real>)
    requires Sorted(xs) && xs != []
    ensures forall y | y in multiset(xs[1..]) :: xs[0] <= y
  {
    forall y | y in multiset(xs[1..]) ensures xs[0] <= y {
      var i :| 0 <= i < |xs[1..]| && xs[1..][i] == y;
    }
  }

  function Insert(x: real, xs: seq<real>): (r: seq<real>)
    requires Sorted(xs)
    ensures Sorted(r) && multiset(r) == multiset(xs) + multiset{x}
  {
    if xs == [] then [x]
    else if x <= xs[0] then [x] + xs
    else
      assert xs == [xs[0]] + xs[1..];
      var rest := Insert(x, xs[1..]);
      TailAbove(xs);
      ConsSorted(xs[0], rest);
      ConsBag(xs[0], rest);
      ConsBag(xs[0], xs[1..]);
      [xs[0]] + rest
  }

  function SortSamples(xs: seq<real>): (r: seq<real>)
    ensures Sorted(r) && multiset(r) == multiset(xs) && |r| == |xs|
  {
    if xs == [] then []
    else
      assert xs == [xs[0]] + xs[1..];
      var r := Insert(xs[0], SortSamples(xs[1..]));
      assert |r| == |multiset(r)| && |xs| == |multiset(xs)|;
      r
  }

  lemma HeadIsLeast(a: seq<real>, x: real)
    requires Sorted(a) && x in multiset(a)
    ensures a != [] && a[0] <= x
  {
    var i :| 0 <= i < |a| && a[i] == x;
  }

  lemma TailBag<T>(a: seq<T>)
    requires a != []
    ensures multiset(a[1..]) == multiset(a) - multiset{a[0]}
  {
    assert a == [a[0]] + a[1..];
  }

  lemma SameBagSameLength<T>(a: seq<T>, b: seq<T>)
    requires multiset(a) == multiset(b)
    ensures |a| == |b|
  {
    assert |a| == |multiset(a)| && |b| == |multiset(b)|;
  }

  lemma SameHead(a: seq<real>, b: seq<real>)
    requires a != [] && Sorted(a) && Sorted(b) && multiset(a) == multiset(b)
    ensures b != [] && a[0] == b[0] && multiset(a[1..]) == multiset(b[1..])
  {
    SameBagSameLength(a, b);
    assert a[0] in multiset(a) && b[0] in multiset(b);
    HeadIsLeast(a, b[0]);
    HeadIsLeast(b, a[0]);
    TailBag(a);
    TailBag(b);
  }

  lemma {:induction false} SortedIsUnique(a: seq<real>, b: seq<real>)
    requires Sorted(a) && Sorted(b) && multiset(a) == multiset(b)
    ensures a == b
    decreases |a|
  {
    if a == [] {
      SameBagSameLength(a, b);
    } else {
      SameHead(a, b);
      SortedIsUnique(a[1..], b[1..]);
      assert a == [a[0]] + a[1..] && b == [b[0]] + b[1..];
    }
  }

  function Times(x: real, k: int): real { x * k as real }

  function Rank(q: real, n: nat): int { Ceil(Times(q, n)) }

  lemma RankInRange(q: real, n: nat)
    requires 0.0 < q <= 1.0 && n > 0
    ensures 1 <= Rank(q, n) <= n
  {
    assert 0.0 < Times(q, n) <= n as real;
  }

  /** Nearest-rank percentile; q outside (0, 1] is a ValueError in the source. */
  function Percentile(values: seq<real>, q: real): real
    requires 0.0 < q <= 1.0
  {
    if values == [] then 0.0
    else
      RankInRange(q, |values|);
      SortSamples(values)[Rank(q, |values|) - 1]
  }

  function CountAtMost(xs: seq<real>, v: real): nat {
    if xs == [] then 0 else (if xs[0] <= v then 1 else 0) + CountAtMost(xs[1..], v)
  }

  lemma {:induction false} CountAtMostSplit(xs: seq<real>, ys: seq<real>, v: real)
    ensures CountAtMost(xs + ys, v) == CountAtMost(xs, v) + CountAtMost(ys, v)
  {
    if xs == [] {
      assert xs + ys == ys;
    } else {
      assert (xs + ys)[1..] == xs[1..] + ys;
      CountAtMostSplit(xs[1..], ys, v);
    }
  }

  lemma {:induction false} CountAtMostInsert(x: real, xs: seq<real>, v: real)
    requires Sorted(xs)
    ensures CountAtMost(Insert(x, xs), v) == CountAtMost([x] + xs, v)
  {
    assert ([x] + xs)[1..] == xs;
    if xs != [] && x > xs[0] {
      assert Insert(x, xs) == [xs[0]] + Insert(x, xs[1..]);
      assert Insert(x, xs)[1..] == Insert(x, xs[1..]);
      CountAtMostInsert(x, xs[1..], v);
      assert ([x] + xs[1..])[1..] == xs[1..];
    }
  }

  lemma {:induction false} CountAtMostSort(xs: seq<real>, v: real)
    ensures CountAtMost(SortSamples(xs), v) == CountAtMost(xs, v)
  {
    if xs != [] {
      CountAtMostSort(xs[1..], v);
      CountAtMostInsert(xs[0], SortSamples(xs[1..]), v);
      assert ([xs[0]] + SortSamples(xs[1..]))[1..] == SortSamples(xs[1..]);
    }
  }

  lemma {:induction false} CountAtMostAll(xs: seq<real>, v: real)
    ensures (forall i | 0 <= i < |xs| :: xs[i] <= v) ==> CountAtMost(xs, v) == |xs|
    ensures (forall i | 0 <= i < |xs| :: xs[i] > v) ==> CountAtMost(xs, v) == 0
    ensures CountAtMost(xs, v) <= |xs|
  {
    if xs != [] {
      var t := xs[1..];
      assert forall i | 0 <= i < |t| :: t[i] == xs[i + 1];
      CountAtMostAll(t, v);
    }
  }

  /** In a sorted sample, at least r values are at or below the r-th and fewer below it. */
  lemma {:induction false} CountAroundRank(s: seq<real>, r: int, v: real)
    requires Sorted(s) && 1 <= r <= |s|
    ensures v >= s[r - 1] ==> CountAtMost(s, v) >= r
    ensures v < s[r - 1] ==> CountAtMost(s, v) < r
  {
    if r > 1 {
      CountAroundRank(s[1..], r - 1, v);
    } else {
      CountAtMostAll(s, v);
    }
  }

  lemma CountAroundPercentile(xs: seq<real>, q: real, v: real)
    requires xs != [] && 0.0 < q <= 1.0
    ensures CountAtMost(xs, v) >= Rank(q, |xs|) <==> v >= Percentile(xs, q)
  {
    var s, r := SortSamples(xs), Rank(q, |xs|);
    RankInRange(q, |xs|);
    assert Percentile(xs, q) == s[r - 1];
    CountAroundRank(s, r, v);
    CountAtMostSort(xs, v);
  }

  lemma PercentileInSample(xs: seq<real>, q: real)
    requires xs != [] && 0.0 < q <= 1.0
    ensures Percentile(xs, q) in multiset(xs)
  {
    RankInRange(q, |xs|);
    var s := SortSamples(xs);
    assert s[Rank(q, |xs|) - 1] in multiset(s);
  }

  /** The percentile is the least sample with at least ceil(q*n) samples at or below it. */
  lemma PercentileIsNearestRank(xs: seq<real>, q: real)
    requires xs != [] && 0.0 < q <= 1.0
    ensures Percentile(xs, q) in multiset(xs)
    ensures forall v :: CountAtMost(xs, v) >= Rank(q, |xs|) <==> v >= Percentile(xs, q)
  {
    PercentileInSample(xs, q);
    forall v ensures CountAtMost(xs, v) >= Rank(q, |xs|) <==> v >= Percentile(xs, q) {
      CountAroundPercentile(xs, q, v);
    }
  }

  // ---- summaries --------------------------------------------------------------------------

  datatype Pct = Pct(p50: real, p90: real, p95: real, p99: real)

  /** The eight stat columns; `pct` is None when the percentile columns are NULL. */
  datatype Stats = Stats(count: int, sum: real, min: real, max: real, pct: Option<Pct>)

  const NO_PCT := Pct(0.0, 0.0, 0.0, 0.0)
  const ZERO := Stats(0, 0.0, 0.0, 0.0, Some(NO_PCT))

  function Sum(xs: seq<real>): real {
    if xs == [] then 0.0 else xs[0] + Sum(xs[1..])
  }

  function MinOf(xs: seq<real>): real
    requires xs != []
  {
    if |xs| == 1 || xs[0] <= MinOf(xs[1..]) then xs[0] else MinOf(xs[1..])
  }

  function MaxOf(xs: seq<real>): real
    requires xs != []
  {
    if |xs| == 1 || xs[0] >= MaxOf(xs[1..]) then xs[0] else MaxOf(xs[1..])
  }

  lemma {:induction false} Extremes(xs: seq<real>, i: nat)
    requires i < |xs|
    ensures MinOf(xs) <= xs[i] <= MaxOf(xs)
    ensures MinOf(xs) in multiset(xs) && MaxOf(xs) in multiset(xs)
  {
    if |xs| > 1 {
      TailBag(xs);
      Extremes(xs[1..], if i > 0 then i - 1 else 0);
    }
  }

  lemma BetweenExtremes(xs: seq<real>, x: real)
    requires x in multiset(xs)
    ensures xs != [] && MinOf(xs) <= x <= MaxOf(xs)
  {
    var i :| 0 <= i < |xs| && xs[i] == x;
    Extremes(xs, i);
  }

  lemma ExtremesPermuted(xs: seq<real>, ys: seq<real>)
    requires xs != [] && multiset(xs) == multiset(ys)
    ensures ys != [] && MinOf(xs) == MinOf(ys) && MaxOf(xs) == MaxOf(ys)
  {
    SameBagSameLength(xs, ys);
    Extremes(xs, 0);
    Extremes(ys, 0);
    BetweenExtremes(ys, MinOf(xs));
    BetweenExtremes(ys, MaxOf(xs));
    BetweenExtremes(xs, MinOf(ys));
    BetweenExtremes(xs, MaxOf(ys));
  }

  function Summarize(values: seq<real>): Stats {
    if values == [] then ZERO
    else
      Stats(|values|, Sum(values), MinOf(values), MaxOf(values),
            Some(Pct(Percentile(values, 0.5), Percentile(values, 0.9),
                     Percentile(values, 0.95), Percentile(values, 0.99))))
  }

  function CounterStats(n: int): Stats {
    Stats(n, n as real, 1.0, 1.0, None)
  }

  lemma {:induction false} SumSplit(xs: seq<real>, ys: seq<real>)
    ensures Sum(xs + ys) == Sum(xs) + Sum(ys)
  {
    if xs == [] {
      assert xs + ys == ys;
    } else {
      assert (xs + ys)[1..] == xs[1..] + ys;
      SumSplit(xs[1..], ys);
    }
  }

  function RemoveAt<T>(s: seq<T>, i: nat): (r: seq<T>)
    requires i < |s|
    ensures multiset(r) == multiset(s) - multiset{s[i]}
  {
    assert s == s[..i] + [s[i]] + s[i + 1..];
    s[..i] + s[i + 1..]
  }

  lemma {:induction false} SumPermuted(xs: seq<real>, ys: seq<real>)
    requires multiset(xs) == multiset(ys)
    ensures Sum(xs) == Sum(ys)
  {
    SameBagSameLength(xs, ys);
    if xs != [] {
      assert xs[0] in multiset(xs);
      var i :| 0 <= i < |ys| && ys[i] == xs[0];
      TailBag(xs);
      SumPermuted(xs[1..], RemoveAt(ys, i));
      SumWithout(ys, i);
    }
  }

  lemma SumWithout(ys: seq<real>, i: nat)
    requires i < |ys|
    ensures Sum(ys) == ys[i] + Sum(RemoveAt(ys, i))
  {
    var a, b := ys[..i], ys[i..];
    assert ys == a + b && b[1..] == ys[i + 1..];
    SumSplit(a, b);
    SumSplit(a, b[1..]);
  }

  lemma PercentilePermuted(xs: seq<real>, ys: seq<real>, q: real)
    requires multiset(xs) == multiset(ys) && 0.0 < q <= 1.0
    ensures Percentile(xs, q) == Percentile(ys, q)
  {
    SameBagSameLength(xs, ys);
    SortedIsUnique(SortSamples(xs), SortSamples(ys));
  }

  /** A summary depends on the bag of samples only, not on their order. */
  lemma SummarizePermuted(xs: seq<real>, ys: seq<real>)
    requires multiset(xs) == multiset(ys)
    ensures Summarize(xs) == Summarize(ys)
  {
    SameBagSameLength(xs, ys);
    SumPermuted(xs, ys);
    if xs != [] {
      ExtremesPermuted(xs, ys);
    }
    PercentilePermuted(xs, ys, 0.5);
    PercentilePermuted(xs, ys, 0.9);
    PercentilePermuted(xs, ys, 0.95);
    PercentilePermuted(xs, ys, 0.99);
  }

  // ---- merging ----------------------------------------------------------------------------

  /** What the merge loop carries: exact totals and percentiles multiplied by their counts. */
  datatype Weighted = Weighted(count: int, sum: real, lo: Option<real>, hi: Option<real>, w: Pct)

  const NOTHING := Weighted(0, 0.0, None, None, NO_PCT)

  function PctOf(s: Stats): Pct {
    if s.pct.Some? then s.pct.value else NO_PCT
  }

  function Share(x: real, k: int): real
    requires k != 0
  {
    x / k as real
  }

  function Scale(p: Pct, k: int): Pct {
    Pct(Times(p.p50, k), Times(p.p90, k), Times(p.p95, k), Times(p.p99, k))
  }

  function Shares(p: Pct, k: int): Pct
    requires k != 0
  {
    Pct(Share(p.p50, k), Share(p.p90, k), Share(p.p95, k), Share(p.p99, k))
  }

  function Weigh(s: Stats): Weighted {
    if s.count == 0 then NOTHING.(sum := s.sum)
    else Weighted(s.count, s.sum, Some(s.min), Some(s.max), Scale(PctOf(s), s.count))
  }

  function Least(a: Option<real>, b: Option<real>): Option<real> {
    if a.None? then b else if b.None? then a else if a.value <= b.value then a else b
  }

  function Greatest(a: Option<real>, b: Option<real>): Option<real> {
    if a.None? then b else if b.None? then a else if a.value >= b.value then a else b
  }

  function Plus(a: Weighted, b: Weighted): Weighted {
    Weighted(a.count + b.count, a.sum + b.sum, Least(a.lo, b.lo), Greatest(a.hi, b.hi),
             Pct(a.w.p50 + b.w.p50, a.w.p90 + b.w.p90, a.w.p95 + b.w.p95, a.w.p99 + b.w.p99))
  }

  function WeighAll(rows: seq<Stats>): Weighted {
    if rows == [] then NOTHING
    else Plus(WeighAll(rows[..|rows| - 1]), Weigh(rows[|rows| - 1]))
  }

  function Unweigh(t: Weighted): Stats {
    Stats(t.count, t.sum,
          if t.lo.Some? then t.lo.value else 0.0,
          if t.hi.Some? then t.hi.value else 0.0,
          Some(if t.count == 0 then NO_PCT else Shares(t.w, t.count)))
  }

  function MergeRows(rows: seq<Stats>): Stats {
    Unweigh(WeighAll(rows))
  }

  /** The loop of `merge_rows`: lists of minima and maxima, and running weighted sums. */
  method MergeRowsLoop(rows: seq<Stats>) returns (merged: Stats)
    ensures merged == MergeRows(rows)
  {
    var count, total, weighted := 0, 0.0, NO_PCT;
    var minimum: Option<real>, maximum: Option<real> := None, None;
    for i := 0 to |rows|
      invariant Weighted(count, total, minimum, maximum, weighted) == WeighAll(rows[..i])
    {
      var row := rows[i];
      assert rows[..i + 1][..i] == rows[..i];
      count, total := count + row.count, total + row.sum;
      if row.count != 0 {
        minimum := Least(minimum, Some(row.min));
        maximum := Greatest(maximum, Some(row.max));
        var child := Scale(PctOf(row), row.count);
        weighted := Pct(weighted.p50 + child.p50, weighted.p90 + child.p90,
                        weighted.p95 + child.p95, weighted.p99 + child.p99);
      }
    }
    assert rows[..|rows|] == rows;
    merged := Unweigh(Weighted(count, total, minimum, maximum, weighted));
  }

  /** The shape of every stored row: an exact counter, or an ordered distribution. */
  ghost predicate WellFormed(counter: bool, s: Stats) {
    && s.count > 0
    && if counter then s == CounterStats(s.count) else s.pct.Some? && Ordered(s, s.pct.value)
  }

  ghost predicate Ordered(s: Stats, p: Pct) {
    && Chain(s.min, p, s.max)
    && Times(s.min, s.count) <= s.sum <= Times(s.max, s.count)
  }

  ghost predicate Chain(lo: real, p: Pct, hi: real) {
    lo <= p.p50 <= p.p90 <= p.p95 <= p.p99 <= hi
  }

  ghost predicate Balanced(t: Weighted) {
    && t.count > 0 && t.lo.Some? && t.hi.Some?
    && Chain(Times(t.lo.value, t.count), t.w, Times(t.hi.value, t.count))
    && Times(t.lo.value, t.count) <= t.sum <= Times(t.hi.value, t.count)
  }

  lemma TimesMono(a: real, b: real, k: int)
    requires a <= b && k >= 0
    ensures Times(a, k) <= Times(b, k)
  {
  }

  lemma TimesShare(x: real, k: int)
    requires k != 0
    ensures Times(Share(x, k), k) == x && Share(Times(x, k), k) == x
  {
  }

  lemma ShareMono(a: real, b: real, k: int)
    requires a <= b && k > 0
    ensures Share(a, k) <= Share(b, k)
  {
    if Share(a, k) > Share(b, k) {
      TimesShare(a, k);
      TimesShare(b, k);
      TimesMono(Share(b, k), Share(a, k), k);
    }
  }

  lemma TimesSplit(m: real, j: int, k: int)
    ensures Times(m, j + k) == Times(m, j) + Times(m, k)
  {
  }

  lemma PctTimesShare(p: Pct, k: int)
    requires k != 0
    ensures Scale(Shares(p, k), k) == p && Shares(Scale(p, k), k) == p
  {
    TimesShare(p.p50, k);
    TimesShare(p.p90, k);
    TimesShare(p.p95, k);
    TimesShare(p.p99, k);
  }

  lemma WeighBalanced(s: Stats)
    requires WellFormed(false, s)
    ensures Balanced(Weigh(s)) && Unweigh(Weigh(s)) == s
  {
    var p, k := s.pct.value, s.count;
    PctTimesShare(p, k);
    TimesMono(s.min, p.p50, k);
    TimesMono(p.p50, p.p90, k);
    TimesMono(p.p90, p.p95, k);
    TimesMono(p.p95, p.p99, k);
    TimesMono(p.p99, s.max, k);
  }

  lemma UnweighWellFormed(t: Weighted)
    requires Balanced(t)
    ensures WellFormed(false, Unweigh(t)) && Weigh(Unweigh(t)) == t
  {
    var p, k := t.w, t.count;
    PctTimesShare(p, k);
    TimesShare(t.lo.value, k);
    TimesShare(t.hi.value, k);
    ShareMono(Times(t.lo.value, k), p.p50, k);
    ShareMono(p.p50, p.p90, k);
    ShareMono(p.p90, p.p95, k);
    ShareMono(p.p95, p.p99, k);
    ShareMono(p.p99, Times(t.hi.value, k), k);
  }

  lemma PlusBalanced(a: Weighted, b: Weighted)
    requires Balanced(a) && Balanced(b)
    ensures Balanced(Plus(a, b))
  {
    var c := Plus(a, b);
    TimesMono(c.lo.value, a.lo.value, a.count);
    TimesMono(c.lo.value, b.lo.value, b.count);
    TimesMono(a.hi.value, c.hi.value, a.count);
    TimesMono(b.hi.value, c.hi.value, b.count);
    TimesSplit(c.lo.value, a.count, b.count);
    TimesSplit(c.hi.value, a.count, b.count);
  }

  /** `merge_stats`: one contribution into an existing row, by the rule of its metric. */
  function MergeStats(counter: bool, existing: Option<Stats>, new_: Stats): Stats {
    match existing
    case None => new_
    case Some(old_) =>
      if counter then CounterStats(old_.count + new_.count) else MergeRows([old_, new_])
  }

  /** `MergeStats` on rows that may both be absent. */
  function Join(counter: bool, a: Option<Stats>, b: Option<Stats>): Option<Stats> {
    if b.None? then a else Some(MergeStats(counter, a, b.value))
  }

  ghost predicate WellFormedRow(counter: bool, row: Option<Stats>) {
    row.Some? ==> WellFormed(counter, row.value)
  }

  lemma PairWeight(a: Stats, b: Stats)
    ensures WeighAll([a, b]) == Plus(Weigh(a), Weigh(b))
  {
    assert [a, b][..1] == [a] && [a][..0] == [];
    assert WeighAll([a]) == Plus(NOTHING, Weigh(a)) == Weigh(a);
  }

  lemma JoinWellFormed(counter: bool, a: Option<Stats>, b: Option<Stats>)
    requires WellFormedRow(counter, a) && WellFormedRow(counter, b)
    ensures WellFormedRow(counter, Join(counter, a, b))
    ensures Join(counter, a, b).None? <==> a.None? && b.None?
    ensures !counter && a.Some? && b.Some? ==>
              Weigh(Join(counter, a, b).value) == Plus(Weigh(a.value), Weigh(b.value))
  {
    if !counter && a.Some? && b.Some? {
      PairWeight(a.value, b.value);
      WeighBalanced(a.value);
      WeighBalanced(b.value);
      PlusBalanced(Weigh(a.value), Weigh(b.value));
      UnweighWellFormed(Plus(Weigh(a.value), Weigh(b.value)));
    }
  }

  /** Merging rows is commutative, ... */
  lemma JoinCommutes(counter: bool, a: Option<Stats>, b: Option<Stats>)
    requires WellFormedRow(counter, a) && WellFormedRow(counter, b)
    ensures Join(counter, a, b) == Join(counter, b, a)
  {
    if !counter && a.Some? && b.Some? {
      PairWeight(a.value, b.value);
      PairWeight(b.value, a.value);
    }
  }

  /** ... associative, percentiles included, ... */
  lemma JoinAssociates(counter: bool, a: Option<Stats>, b: Option<Stats>, c: Option<Stats>)
    requires WellFormedRow(counter, a) && WellFormedRow(counter, b) && WellFormedRow(counter, c)
    ensures Join(counter, Join(counter, a, b), c) == Join(counter, a, Join(counter, b, c))
  {
    JoinWellFormed(counter, a, b);
    JoinWellFormed(counter, b, c);
    if !counter && a.Some? && b.Some? && c.Some? {
      var ab, bc := Join(counter, a, b).value, Join(counter, b, c).value;
      PairWeight(ab, c.value);
      PairWeight(a.value, bc);
      assert Plus(Plus(Weigh(a.value), Weigh(b.value)), Weigh(c.value))
          == Plus(Weigh(a.value), Plus(Weigh(b.value), Weigh(c.value)));
    }
  }

  /** ... and the left fold from the absent row is what retention's rebuild loop computes. */
  function JoinAll(counter: bool, rows: seq<Stats>): Option<Stats> {
    if rows == [] then None
    else Join(counter, JoinAll(counter, rows[..|rows| - 1]), Some(rows[|rows| - 1]))
  }

  ghost predicate AllWellFormed(counter: bool, rows: seq<Stats>) {
    forall i | 0 <= i < |rows| :: WellFormed(counter, rows[i])
  }

  function CountSum(rows: seq<Stats>): int {
    if rows == [] then 0 else CountSum(rows[..|rows| - 1]) + rows[|rows| - 1].count
  }

  lemma {:induction false} JoinAllWellFormed(counter: bool, rows: seq<Stats>)
    requires AllWellFormed(counter, rows)
    ensures WellFormedRow(counter, JoinAll(counter, rows))
    ensures JoinAll(counter, rows).None? <==> rows == []
    ensures rows != [] ==> JoinAll(counter, rows).value.count == CountSum(rows)
    ensures CountSum(rows) >= |rows|
  {
    if rows != [] {
      var front, last := rows[..|rows| - 1], rows[|rows| - 1];
      JoinAllWellFormed(counter, front);
      JoinWellFormed(counter, JoinAll(counter, front), Some(last));
      if !counter && front != [] {
        PairWeight(JoinAll(counter, front).value, last);
      }
    }
  }

  /** Folding pairwise merges gives exactly the one-pass list merge used by the read path. */
  lemma {:induction false} FoldIsListMerge(rows: seq<Stats>)
    requires rows != [] && AllWellFormed(false, rows)
    ensures JoinAll(false, rows) == Some(MergeRows(rows))
  {
    var front, last := rows[..|rows| - 1], rows[|rows| - 1];
    WeighBalanced(last);
    if front == [] {
      assert WeighAll(rows) == Plus(NOTHING, Weigh(last)) == Weigh(last);
      assert JoinAll(false, front) == None;
    } else {
      FoldIsListMerge(front);
      JoinAllWellFormed(false, front);
      JoinWellFormed(false, JoinAll(false, front), Some(last));
      PairWeight(MergeRows(front), last);
      WeighAllBalanced(front);
      UnweighWellFormed(WeighAll(front));
    }
  }

  lemma {:induction false} WeighAllBalanced(rows: seq<Stats>)
    requires rows != [] && AllWellFormed(false, rows)
    ensures Balanced(WeighAll(rows))
  {
    var front, last := rows[..|rows| - 1], rows[|rows| - 1];
    WeighBalanced(last);
    if front == [] {
      assert Plus(NOTHING, Weigh(last)) == Weigh(last);
    } else {
      WeighAllBalanced(front);
      PlusBalanced(WeighAll(front), Weigh(last));
    }
  }

  lemma {:induction false} SumBetweenExtremes(xs: seq<real>)
    requires xs != []
    ensures Times(MinOf(xs), |xs|) <= Sum(xs) <= Times(MaxOf(xs), |xs|)
  {
    if |xs| > 1 {
      var t := xs[1..];
      SumBetweenExtremes(t);
      TimesMono(MinOf(xs), MinOf(t), |t|);
      TimesMono(MaxOf(t), MaxOf(xs), |t|);
      TimesSplit(MinOf(xs), |t|, 1);
      TimesSplit(MaxOf(xs), |t|, 1);
    } else {
      assert xs[1..] == [];
    }
  }

  lemma RankMonotone(q: real, r: real, n: nat)
    requires 0.0 < q <= r <= 1.0 && n > 0
    ensures Rank(q, n) <= Rank(r, n)
  {
    TimesMono(q, r, n);
  }

  lemma PercentileBounded(values: seq<real>, q: real)
    requires values != [] && 0.0 < q <= 1.0
    ensures MinOf(values) <= Percentile(values, q) <= MaxOf(values)
  {
    PercentileInSample(values, q);
    BetweenExtremes(values, Percentile(values, q));
  }

  lemma PercentilesMonotone(values: seq<real>, q: real, r: real)
    requires values != [] && 0.0 < q <= r <= 1.0
    ensures Percentile(values, q) <= Percentile(values, r)
  {
    RankMonotone(q, r, |values|);
    CountAroundPercentile(values, r, Percentile(values, r));
    CountAroundPercentile(values, q, Percentile(values, r));
  }

  /** Summarising a non-empty sample yields an ordered row. */
  lemma SummarizeWellFormed(values: seq<real>)
    requires values != []
    ensures WellFormed(false, Summarize(values))
  {
    SumBetweenExtremes(values);
    PercentileBounded(values, 0.5);
    PercentilesMonotone(values, 0.5, 0.9);
    PercentilesMonotone(values, 0.9, 0.95);
    PercentilesMonotone(values, 0.95, 0.99);
    PercentileBounded(values, 0.99);
  }

  /** The four columns that merge exactly. */
  datatype Exact = Exact(count: int, sum: real, min: real, max: real)

  function ExactOf(s: Stats): Exact { Exact(s.count, s.sum, s.min, s.max) }

  lemma {:induction false} ExtremesOfBoth(xs: seq<real>, ys: seq<real>)
    requires xs != [] && ys != []
    ensures Some(MinOf(xs + ys)) == Least(Some(MinOf(xs)), Some(MinOf(ys)))
    ensures Some(MaxOf(xs + ys)) == Greatest(Some(MaxOf(xs)), Some(MaxOf(ys)))
  {
    assert (xs + ys)[1..] == xs[1..] + ys;
    if |xs| > 1 {
      ExtremesOfBoth(xs[1..], ys);
    } else {
      assert xs[1..] + ys == ys;
    }
  }

  // ---- what the columns hold ----------------------------------------------------------------

  /** `a` of `b` parts of the sample lie at or below `v`. */
  predicate ShareAtMost(xs: seq<real>, v: real, a: nat, b: nat) { b * CountAtMost(xs, v) >= a * |xs| }

  /** `x` is the least sample that has `a` of `b` parts of the sample at or below it. */
  ghost predicate IsColumn(xs: seq<real>, x: real, a: nat, b: nat) {
    x in xs && forall v :: ShareAtMost(xs, v, a, b) <==> v >= x
  }

  lemma RankIsShare(q: real, n: nat, c: int, a: nat, b: nat)
    requires b > 0 && q * b as real == a as real
    ensures c >= Rank(q, n) <==> b * c >= a * n
  {
    assert Times(q, n) * b as real == (a * n) as real by {
      assert q * n as real * b as real == q * b as real * n as real;
    }
    assert c >= Rank(q, n) <==> c as real >= Times(q, n);
    assert c as real >= Times(q, n) <==> c as real * b as real >= Times(q, n) * b as real;
    assert c as real * b as real == (b * c) as real;
  }

  lemma PercentileIsColumn(xs: seq<real>, q: real, a: nat, b: nat)
    requires xs != [] && 0.0 < q <= 1.0 && b > 0 && q * b as real == a as real
    ensures IsColumn(xs, Percentile(xs, q), a, b)
  {
    PercentileIsNearestRank(xs, q);
    forall v ensures ShareAtMost(xs, v, a, b) <==> v >= Percentile(xs, q) {
      RankIsShare(q, |xs|, CountAtMost(xs, v), a, b);
    }
  }

  /**
   The four percentile columns of a closed bucket, by counting samples: the least with half, nine
   tenths, nineteen twentieths and ninety-nine hundredths of the samples at or below it.
   */
  lemma SummaryColumns(xs: seq<real>)
    requires xs != []
    ensures var s := Summarize(xs);
            && s.pct.Some?
            && IsColumn(xs, s.pct.value.p50, 1, 2) && IsColumn(xs, s.pct.value.p90, 9, 10)
            && IsColumn(xs, s.pct.value.p95, 19, 20) && IsColumn(xs, s.pct.value.p99, 99, 100)
  {
    PercentileIsColumn(xs, 0.5, 1, 2);
    PercentileIsColumn(xs, 0.9, 9, 10);
    PercentileIsColumn(xs, 0.95, 19, 20);
    PercentileIsColumn(xs, 0.99, 99, 100);
  }

  lemma TotalsOf(xs: seq<real>)
    requires xs != []
    ensures MinOf(xs) in xs && MaxOf(xs) in xs
    ensures forall i | 0 <= i < |xs| :: MinOf(xs) <= xs[i] <= MaxOf(xs)
    ensures Sum(xs) == xs[0] + Sum(xs[1..])
  {
    Extremes(xs, 0);
    forall i | 0 <= i < |xs| ensures MinOf(xs) <= xs[i] <= MaxOf(xs) {
      Extremes(xs, i);
    }
  }

  /** The other columns: how many, the least and greatest of them, and their total. */
  lemma SummaryTotals(xs: seq<real>)
    requires xs != []
    ensures Summarize(xs).count == |xs|
    ensures Summarize(xs).min in xs && Summarize(xs).max in xs
    ensures forall i | 0 <= i < |xs| :: Summarize(xs).min <= xs[i] <= Summarize(xs).max
    ensures Summarize(xs).sum == xs[0] + Summarize(xs[1..]).sum
  {
    TotalsOf(xs);
    assert xs[1..] == [] ==> Sum(xs[1..]) == 0.0;
  }

  /** Weighted with its count, each percentile column of a merge is the sum of the two parts'. */
  predicate WeighsAs(m: Stats, a: Stats, b: Stats) {
    var p, q, r := PctOf(m), PctOf(a), PctOf(b);
    && Times(p.p50, m.count) == Times(q.p50, a.count) + Times(r.p50, b.count)
    && Times(p.p90, m.count) == Times(q.p90, a.count) + Times(r.p90, b.count)
    && Times(p.p95, m.count) == Times(q.p95, a.count) + Times(r.p95, b.count)
    && Times(p.p99, m.count) == Times(q.p99, a.count) + Times(r.p99, b.count)
  }

  /** A merge adds counts and sums, keeps the extremes, and averages percentiles by count. */
  lemma MergeIsWeightedMean(a: Stats, b: Stats)
    requires WellFormed(false, a) && WellFormed(false, b)
    ensures MergeRows([a, b]).count == a.count + b.count && MergeRows([a, b]).sum == a.sum + b.sum
    ensures MergeRows([a, b]).min == (if a.min <= b.min then a.min else b.min)
    ensures MergeRows([a, b]).max == (if a.max >= b.max then a.max else b.max)
    ensures WeighsAs(MergeRows([a, b]), a, b)
  {
    PairWeight(a, b);
    PctTimesShare(Plus(Weigh(a), Weigh(b)).w, a.count + b.count);
  }
}
