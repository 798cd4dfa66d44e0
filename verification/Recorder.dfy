/**
 The span tree of layawatch/obs/recorder.py. Times are milliseconds since the context was
 created, read from one nondecreasing clock. Observations are named by their position in the
 list; the stack holds the open ones, and an exit pops only if the span is on top.
 */
module Recorder {
  import opened Options

  /** `open` from a span's enter to its exit; events are never open. */
  datatype Obs = Obs(start: real, duration: real, parent: Option<nat>, open: bool, failed: bool)

  datatype Trace = Trace(duration: real, framework: real, kept: bool, observations: seq<Obs>)

  datatype State = State(clock: real, obs: seq<Obs>, stack: seq<nat>, trace: Option<Trace>)

  const INIT := State(0.0, [], [], None)

  datatype Action =
    | Enter(at: real)
    | Exit(span: nat, at: real, raised: bool)
    | Event(at: real, ok: bool)
    | Finish(at: real, keep: bool)

  function Top(stack: seq<nat>): Option<nat> {
    if stack == [] then None else Some(stack[|stack| - 1])
  }

  function Max(x: real, y: real): real { if x >= y then x else y }

  function End(o: Obs): real { o.start + o.duration }

  /** Spans still on the stack at finish are closed there, also those that exited out of order. */
  function Closed(obs: seq<Obs>, stack: seq<nat>, total: real): (r: seq<Obs>) {
    seq(|obs|, i requires 0 <= i < |obs| =>
      if i in stack then obs[i].(duration := Max(0.0, total - obs[i].start)) else obs[i])
  }

  function TopLevelTotal(obs: seq<Obs>): real {
    if obs == [] then 0.0
    else
      var o := obs[|obs| - 1];
      TopLevelTotal(obs[..|obs| - 1]) + (if o.parent.None? then o.duration else 0.0)
  }

  function Assemble(s: State, total: real, keep: bool): Trace {
    if !keep then Trace(total, total, false, [])
    else
      var obs := Closed(s.obs, s.stack, total);
      Trace(total, Max(0.0, total - TopLevelTotal(obs)), true, obs)
  }

  function EnterSpan(s: State, at: real): State {
    s.(clock := at, obs := s.obs + [Obs(at, 0.0, Top(s.stack), true, false)],
       stack := s.stack + [|s.obs|])
  }

  function ExitSpan(s: State, i: nat, at: real, raised: bool): State
    requires i < |s.obs|
  {
    var o := s.obs[i];
    s.(clock := at, obs := s.obs[i := o.(duration := at - o.start, open := false, failed := raised)],
       stack := if Top(s.stack) == Some(i) then s.stack[..|s.stack| - 1] else s.stack)
  }

  function RecordEvent(s: State, at: real, ok: bool): State {
    s.(clock := at, obs := s.obs + [Obs(at, 0.0, Top(s.stack), false, !ok)])
  }

  /** A span exits at most once, and nothing happens after finish or back in time. */
  function Next(s: State, a: Action): State {
    if s.trace.Some? || a.at < s.clock then s
    else
      match a
      case Enter(at) => EnterSpan(s, at)
      case Exit(i, at, raised) =>
        if i < |s.obs| && s.obs[i].open then ExitSpan(s, i, at, raised) else s
      case Event(at, ok) => RecordEvent(s, at, ok)
      case Finish(at, keep) =>
        s.(clock := at, stack := [], trace := Some(Assemble(s, at, keep)),
           obs := if keep then Closed(s.obs, s.stack, at) else s.obs)
  }

  function Execute(actions: seq<Action>): State {
    if actions == [] then INIT
    else Next(Execute(actions[..|actions| - 1]), actions[|actions| - 1])
  }

  // ---- invariants -------------------------------------------------------------------------

  ghost predicate Clocked(obs: seq<Obs>, clock: real) {
    forall i | 0 <= i < |obs| :: InTime(obs[i], clock)
  }

  predicate InTime(o: Obs, clock: real) {
    0.0 <= o.start && 0.0 <= o.duration && End(o) <= clock
  }

  predicate Increasing(stack: seq<nat>) {
    forall k, m | 0 <= k < m < |stack| :: stack[k] < stack[m]
  }

  /** The span at depth `k` of the stack was entered while the one below it was on top. */
  predicate Linked(s: State, k: nat)
    requires k < |s.stack| && s.stack[k] < |s.obs|
  {
    s.obs[s.stack[k]].parent == if k == 0 then None else Some(s.stack[k - 1])
  }

  /** The stack is a path down from a root, and every open span is on it. */
  ghost predicate Chain(s: State) {
    && Increasing(s.stack)
    && (forall k | 0 <= k < |s.stack| :: s.stack[k] < |s.obs|)
    && (forall k | 0 <= k < |s.stack| :: Linked(s, k))
    && (forall i | 0 <= i < |s.obs| :: s.obs[i].open ==> i in s.stack)
  }

  /** How the earlier of two observations relates to the later one. */
  predicate Apart(s: State, i: nat, j: nat)
    requires i < j < |s.obs|
  {
    i !in s.stack && End(s.obs[i]) <= s.obs[j].start
  }

  predicate Around(s: State, i: nat, j: nat)
    requires i < j < |s.obs|
  {
    && s.obs[i].start <= s.obs[j].start
    && (i in s.stack || (j !in s.stack && End(s.obs[j]) <= End(s.obs[i])))
  }

  predicate PairOk(s: State, i: nat, j: nat)
    requires i < j < |s.obs|
  {
    && (Apart(s, i, j) || Around(s, i, j))
    && (s.obs[i].parent == s.obs[j].parent ==> Apart(s, i, j))
    && (s.obs[j].parent == Some(i) ==> Around(s, i, j))
  }

  ghost predicate Pairs(s: State) {
    forall i, j | 0 <= i < j < |s.obs| :: PairOk(s, i, j)
  }

  ghost predicate ParentsFirst(obs: seq<Obs>) {
    forall i | 0 <= i < |obs| && obs[i].parent.Some? :: obs[i].parent.value < i
  }

  ghost predicate Inv(s: State) {
    Clocked(s.obs, s.clock) && Chain(s) && Pairs(s) && ParentsFirst(s.obs)
  }

  lemma NotUnderTop(s: State, k: nat)
    requires Chain(s) && k < |s.stack|
    ensures s.obs[s.stack[k]].parent != Top(s.stack)
  {
    assert Linked(s, k);
    assert k > 0 ==> s.stack[k - 1] < s.stack[|s.stack| - 1];
  }

  /** What shares its parent with the next observation is off the stack. */
  lemma SiblingsAreOff(s: State, i: nat)
    requires Chain(s) && i < |s.obs| && s.obs[i].parent == Top(s.stack)
    ensures i !in s.stack
  {
    forall k | 0 <= k < |s.stack| ensures s.stack[k] != i {
      NotUnderTop(s, k);
    }
  }

  /** A new observation is after or inside everything recorded before it. */
  lemma NewestPairs(s: State, u: State, o: Obs)
    requires Inv(s) && s.clock <= o.start && o.parent == Top(s.stack)
    requires u.obs == s.obs + [o] && (u.stack == s.stack || u.stack == s.stack + [|s.obs|])
    ensures Pairs(u)
  {
    forall i, j | 0 <= i < j < |u.obs| ensures PairOk(u, i, j) {
      if j < |s.obs| {
        assert PairOk(s, i, j);
      } else {
        assert InTime(s.obs[i], s.clock);
        if s.obs[i].parent == o.parent {
          SiblingsAreOff(s, i);
        }
      }
    }
  }

  lemma NewestInTime(s: State, at: real, o: Obs)
    requires Clocked(s.obs, s.clock) && s.clock <= at && 0.0 <= at && o.start == at && o.duration == 0.0
    ensures Clocked(s.obs + [o], at)
  {
    forall i | 0 <= i < |s.obs| + 1 ensures InTime((s.obs + [o])[i], at) {
      if i < |s.obs| {
        assert InTime(s.obs[i], s.clock);
      }
    }
  }

  lemma EnterKeepsChain(s: State, at: real)
    requires Chain(s)
    ensures Chain(EnterSpan(s, at))
  {
    var u := EnterSpan(s, at);
    assert u.stack[|s.stack|] == |s.obs|;
    forall k | 0 <= k < |u.stack| ensures Linked(u, k) {
      if k < |s.stack| {
        assert Linked(s, k);
      }
    }
  }

  lemma ExitKeepsChain(s: State, i: nat, at: real, raised: bool)
    requires Chain(s) && i < |s.obs|
    ensures Chain(ExitSpan(s, i, at, raised))
  {
    var u := ExitSpan(s, i, at, raised);
    forall k | 0 <= k < |u.stack| ensures Linked(u, k) {
      assert Linked(s, k);
    }
    forall k | 0 <= k < |u.obs| && u.obs[k].open ensures k in u.stack {
      assert k != i && k in s.stack;
      var m :| 0 <= m < |s.stack| && s.stack[m] == k;
      assert u.stack != s.stack ==> m < |u.stack| && u.stack[m] == k;
    }
  }

  lemma ExitKeepsTime(s: State, i: nat, at: real, raised: bool)
    requires Clocked(s.obs, s.clock) && i < |s.obs| && s.clock <= at
    ensures Clocked(ExitSpan(s, i, at, raised).obs, at)
  {
    var u := ExitSpan(s, i, at, raised);
    assert InTime(s.obs[i], s.clock);
    forall k | 0 <= k < |u.obs| ensures InTime(u.obs[k], at) {
      if k != i {
        assert InTime(s.obs[k], s.clock);
      }
    }
  }

  /** The stack after an exit: unchanged, or without its top, which is the largest index on it. */
  lemma PoppedStack(s: State, i: nat, at: real, raised: bool)
    requires Chain(s) && i < |s.obs| && s.obs[i].open
    ensures var u := ExitSpan(s, i, at, raised);
            && i in s.stack
            && (forall k :: k in u.stack ==> k in s.stack)
            && (forall k :: k in s.stack && k != i ==> k in u.stack)
            && (i !in u.stack ==> forall k :: k in s.stack ==> k <= i)
  {
    var u := ExitSpan(s, i, at, raised);
    forall k | k in s.stack && k != i ensures k in u.stack {
      var m :| 0 <= m < |s.stack| && s.stack[m] == k;
      assert u.stack != s.stack ==> m < |u.stack| && u.stack[m] == k;
    }
  }

  lemma ExitKeepsPairs(s: State, i: nat, at: real, raised: bool)
    requires Inv(s) && i < |s.obs| && s.obs[i].open && s.clock <= at
    ensures Pairs(ExitSpan(s, i, at, raised))
  {
    var u := ExitSpan(s, i, at, raised);
    PoppedStack(s, i, at, raised);
    forall a, b | 0 <= a < b < |u.obs| ensures PairOk(u, a, b) {
      assert PairOk(s, a, b) && InTime(s.obs[b], s.clock);
    }
  }

  lemma EventKeepsChain(s: State, at: real, ok: bool)
    requires Chain(s)
    ensures Chain(RecordEvent(s, at, ok))
  {
    var u := RecordEvent(s, at, ok);
    forall k | 0 <= k < |u.stack| ensures Linked(u, k) {
      assert Linked(s, k);
    }
  }

  lemma EnterKeepsInv(s: State, at: real)
    requires Inv(s) && 0.0 <= s.clock <= at
    ensures Inv(EnterSpan(s, at))
  {
    var o := Obs(at, 0.0, Top(s.stack), true, false);
    NewestPairs(s, EnterSpan(s, at), o);
    NewestInTime(s, at, o);
    EnterKeepsChain(s, at);
  }

  lemma EventKeepsInv(s: State, at: real, ok: bool)
    requires Inv(s) && 0.0 <= s.clock <= at
    ensures Inv(RecordEvent(s, at, ok))
  {
    var o := Obs(at, 0.0, Top(s.stack), false, !ok);
    NewestPairs(s, RecordEvent(s, at, ok), o);
    NewestInTime(s, at, o);
    EventKeepsChain(s, at, ok);
  }

  lemma ExitKeepsInv(s: State, i: nat, at: real, raised: bool)
    requires Inv(s) && i < |s.obs| && s.obs[i].open && s.clock <= at
    ensures Inv(ExitSpan(s, i, at, raised))
  {
    ExitKeepsPairs(s, i, at, raised);
    ExitKeepsTime(s, i, at, raised);
    ExitKeepsChain(s, i, at, raised);
  }

  // ---- the assembled trace ----------------------------------------------------------------

  predicate Disjoint(a: Obs, b: Obs) { End(a) <= b.start }

  predicate Inside(inner: Obs, outer: Obs) { outer.start <= inner.start && End(inner) <= End(outer) }

  /** A laminar family: any two intervals nest or do not overlap, siblings never overlap. */
  predicate TreePair(obs: seq<Obs>, i: nat, j: nat)
    requires i < j < |obs|
  {
    && (Disjoint(obs[i], obs[j]) || Inside(obs[j], obs[i]))
    && (obs[i].parent == obs[j].parent ==> Disjoint(obs[i], obs[j]))
    && (obs[j].parent == Some(i) ==> Inside(obs[j], obs[i]))
  }

  ghost predicate IntervalTree(obs: seq<Obs>, total: real) {
    && Clocked(obs, total) && ParentsFirst(obs)
    && forall i, j | 0 <= i < j < |obs| :: TreePair(obs, i, j)
  }

  lemma ClosingCompletesTheTree(s: State, total: real)
    requires Inv(s) && s.clock <= total
    ensures IntervalTree(Closed(s.obs, s.stack, total), total)
  {
    var r := Closed(s.obs, s.stack, total);
    forall i | 0 <= i < |r| ensures InTime(r[i], total) {
      assert InTime(s.obs[i], s.clock);
    }
    forall i, j | 0 <= i < j < |r| ensures TreePair(r, i, j) {
      assert PairOk(s, i, j) && InTime(s.obs[i], s.clock) && InTime(s.obs[j], s.clock);
    }
  }

  lemma {:induction false} TopLevelFits(obs: seq<Obs>, n: nat, total: real, bound: real)
    requires IntervalTree(obs, total) && n <= |obs| && 0.0 <= bound
    requires forall i | 0 <= i < n && obs[i].parent.None? :: End(obs[i]) <= bound
    ensures TopLevelTotal(obs[..n]) <= bound
  {
    if n > 0 {
      var o := obs[n - 1];
      assert obs[..n][..n - 1] == obs[..n - 1];
      assert InTime(o, total);
      if o.parent.None? {
        forall i | 0 <= i < n - 1 && obs[i].parent.None? ensures End(obs[i]) <= o.start {
          assert TreePair(obs, i, n - 1);
        }
        TopLevelFits(obs, n - 1, total, o.start);
      } else {
        TopLevelFits(obs, n - 1, total, bound);
      }
    }
  }

  /** What a delivered trace promises. */
  ghost predicate TraceOk(t: Trace) {
    && 0.0 <= t.framework <= t.duration
    && (t.kept ==> IntervalTree(t.observations, t.duration)
                   && t.framework + TopLevelTotal(t.observations) == t.duration)
    && (!t.kept ==> t.observations == [] && t.framework == t.duration)
  }

  lemma {:induction false} TotalNonNegative(obs: seq<Obs>, clock: real)
    requires Clocked(obs, clock)
    ensures 0.0 <= TopLevelTotal(obs)
  {
    if obs != [] {
      assert InTime(obs[|obs| - 1], clock);
      assert forall i | 0 <= i < |obs| - 1 :: InTime(obs[i], clock);
      TotalNonNegative(obs[..|obs| - 1], clock);
    }
  }

  lemma AssembleOk(s: State, total: real, keep: bool)
    requires Inv(s) && 0.0 <= s.clock <= total
    ensures TraceOk(Assemble(s, total, keep))
  {
    var r := Closed(s.obs, s.stack, total);
    ClosingCompletesTheTree(s, total);
    assert forall i | 0 <= i < |r| :: InTime(r[i], total);
    TopLevelFits(r, |r|, total, total);
    assert r[..|r|] == r;
    TotalNonNegative(r, total);
  }

  ghost predicate StateOk(s: State) {
    if s.trace.Some? then TraceOk(s.trace.value) else Inv(s) && 0.0 <= s.clock
  }

  lemma NextKeepsOk(s: State, a: Action)
    requires StateOk(s)
    ensures StateOk(Next(s, a))
  {
    if s.trace.None? && a.at >= s.clock {
      match a
      case Enter(at) => EnterKeepsInv(s, at);
      case Exit(i, at, raised) =>
        if i < |s.obs| && s.obs[i].open {
          ExitKeepsInv(s, i, at, raised);
        }
      case Event(at, ok) => EventKeepsInv(s, at, ok);
      case Finish(at, keep) => AssembleOk(s, at, keep);
    }
  }

  lemma {:induction false} OkAlways(actions: seq<Action>)
    ensures StateOk(Execute(actions))
  {
    if actions != [] {
      OkAlways(actions[..|actions| - 1]);
      NextKeepsOk(Execute(actions[..|actions| - 1]), actions[|actions| - 1]);
    }
  }

  // ---- main results -----------------------------------------------------------------------

  /**
   Whatever order the spans exited in, also when some never did: the kept intervals form a
   tree, siblings (top-level spans among them) are disjoint, children lie inside their parents.
   */
  lemma IntervalsFormATree(actions: seq<Action>, i: nat, j: nat)
    requires var t := Execute(actions).trace; t.Some? && i < j < |t.value.observations|
    ensures var obs := Execute(actions).trace.value.observations;
            && (End(obs[i]) <= obs[j].start
                || (obs[i].start <= obs[j].start && End(obs[j]) <= End(obs[i])))
            && (obs[i].parent == obs[j].parent ==> End(obs[i]) <= obs[j].start)
            && (obs[j].parent == Some(i) ==>
                  obs[i].start <= obs[j].start && End(obs[j]) <= End(obs[i]))
  {
    OkAlways(actions);
    assert TreePair(Execute(actions).trace.value.observations, i, j);
  }

  /** The accounting identity of a kept trace; the clamp at zero never has to act. */
  lemma FrameworkIsTheRest(actions: seq<Action>)
    requires Execute(actions).trace.Some?
    ensures var t := Execute(actions).trace.value;
            && 0.0 <= t.framework <= t.duration
            && t.framework == t.duration - (if t.kept then TopLevelTotal(t.observations) else 0.0)
            && (t.kept || t.observations == [])
  {
    OkAlways(actions);
  }

  // ---- the object -------------------------------------------------------------------------

  class Context {
    var observations: seq<Obs>
    var stack: seq<nat>
    ghost var clock: real
    var delivered: Option<Trace>

    ghost function View(): State
      reads this
    {
      State(clock, observations, stack, delivered)
    }

    constructor ()
      ensures View() == INIT
    {
      observations, stack, clock, delivered := [], [], 0.0, None;
    }

    method Enter(now: real) returns (span: nat)
      requires delivered.None? && clock <= now
      modifies this
      ensures View() == Next(old(View()), Action.Enter(now)) && span == |old(observations)|
    {
      span := |observations|;
      var parent := if stack == [] then None else Some(stack[|stack| - 1]);
      observations := observations + [Obs(now, 0.0, parent, true, false)];
      stack := stack + [span];
      clock := now;
    }

    method Exit(span: nat, now: real, raised: bool)
      requires delivered.None? && clock <= now && span < |observations| && observations[span].open
      modifies this
      ensures View() == Next(old(View()), Action.Exit(span, now, raised))
    {
      var o := observations[span];
      observations := observations[span := o.(duration := now - o.start, open := false, failed := raised)];
      if stack != [] && stack[|stack| - 1] == span {
        stack := stack[..|stack| - 1];
      }
      clock := now;
    }

    method Event(now: real, ok: bool)
      requires delivered.None? && clock <= now
      modifies this
      ensures View() == Next(old(View()), Action.Event(now, ok))
    {
      var parent := if stack == [] then None else Some(stack[|stack| - 1]);
      observations := observations + [Obs(now, 0.0, parent, false, !ok)];
      clock := now;
    }

    /** Close what is left on the stack, front to back. */
    method CloseLeaked(total: real)
      requires forall k | 0 <= k < |stack| :: stack[k] < |observations|
      modifies this`observations
      ensures observations == Closed(old(observations), stack, total)
    {
      for k := 0 to |stack|
        invariant observations == Closed(old(observations), stack[..k], total)
      {
        var i := stack[k];
        assert stack[..k + 1] == stack[..k] + [i];
        observations := observations[i := observations[i].(
          duration := Max(0.0, total - observations[i].start))];
      }
      assert stack[..|stack|] == stack;
    }

    /** The accumulation loop over `_observations`. */
    method SumTopLevel() returns (sum: real)
      ensures sum == TopLevelTotal(observations)
    {
      sum := 0.0;
      for k := 0 to |observations|
        invariant sum == TopLevelTotal(observations[..k])
      {
        assert observations[..k + 1][..k] == observations[..k];
        if observations[k].parent.None? {
          sum := sum + observations[k].duration;
        }
      }
      assert observations[..|observations|] == observations;
    }

    /** None is a double close. */
    method Finish(now: real, keep: bool) returns (trace: Option<Trace>)
      requires clock <= now && forall k | 0 <= k < |stack| :: stack[k] < |observations|
      modifies this
      ensures View() == Next(old(View()), Action.Finish(now, keep))
      ensures trace == if old(delivered).Some? then None else delivered
    {
      if delivered.Some? {
        return None;
      }
      clock := now;
      if keep {
        CloseLeaked(now);
        var sum := SumTopLevel();
        var framework := now - sum;
        if framework < 0.0 {
          framework := 0.0;
        }
        delivered := Some(Trace(now, framework, true, observations));
      } else {
        delivered := Some(Trace(now, now, false, []));
      }
      stack := [];
      return delivered;
    }
  }
}
