/**
 What the recorder of layawatch/obs/recorder.py reports of one observation, however long the run
 goes on: its times, its status, and how the delivered trace shows it.
 */
module RecorderReports {
  import opened Options
  import opened Recorder

  /** Exited from the top of the stack, or never a span at all. */
  ghost predicate Settled(s: State, i: nat) {
    i < |s.obs| && !s.obs[i].open && i !in s.stack
  }

  predicate SameButDuration(a: Obs, b: Obs) {
    a.start == b.start && a.parent == b.parent && a.open == b.open && a.failed == b.failed
  }

  lemma ExecuteSnoc(front: seq<Action>, a: Action)
    ensures Execute(front + [a]) == Next(Execute(front), a)
  {
    assert (front + [a])[..|front|] == front;
  }

  lemma SettledStays(s: State, a: Action, i: nat)
    requires Settled(s, i)
    ensures Settled(Next(s, a), i) && Next(s, a).obs[i] == s.obs[i]
  {
  }

  lemma ExitedStays(s: State, a: Action, i: nat)
    requires i < |s.obs| && !s.obs[i].open
    ensures i < |Next(s, a).obs| && SameButDuration(Next(s, a).obs[i], s.obs[i])
  {
  }

  lemma {:induction false} SettledForGood(before: seq<Action>, after: seq<Action>, i: nat)
    requires Settled(Execute(before), i)
    ensures Settled(Execute(before + after), i)
    ensures Execute(before + after).obs[i] == Execute(before).obs[i]
  {
    if after == [] {
      assert before + after == before;
    } else {
      var front, a := after[..|after| - 1], after[|after| - 1];
      SettledForGood(before, front, i);
      assert before + after == (before + front) + [a];
      ExecuteSnoc(before + front, a);
      SettledStays(Execute(before + front), a, i);
    }
  }

  lemma {:induction false} ExitedForGood(before: seq<Action>, after: seq<Action>, i: nat)
    requires i < |Execute(before).obs| && !Execute(before).obs[i].open
    ensures i < |Execute(before + after).obs|
    ensures SameButDuration(Execute(before + after).obs[i], Execute(before).obs[i])
  {
    if after == [] {
      assert before + after == before;
    } else {
      var front, a := after[..|after| - 1], after[|after| - 1];
      ExitedForGood(before, front, i);
      assert before + after == (before + front) + [a];
      ExecuteSnoc(before + front, a);
      ExitedStays(Execute(before + front), a, i);
    }
  }

  lemma {:induction false} DeliveredForGood(before: seq<Action>, after: seq<Action>)
    requires Execute(before).trace.Some?
    ensures Execute(before + after).trace == Execute(before).trace
  {
    if after == [] {
      assert before + after == before;
    } else {
      var front, a := after[..|after| - 1], after[|after| - 1];
      DeliveredForGood(before, front);
      assert before + after == (before + front) + [a];
      ExecuteSnoc(before + front, a);
    }
  }

  /** The call is not late and nothing has been delivered. */
  predicate Live(s: State, at: real) { s.trace.None? && s.clock <= at }

  predicate IsOpen(s: State, i: nat) { i < |s.obs| && s.obs[i].open }

  lemma ExitSettles(s: State, i: nat, at: real, raised: bool)
    requires Inv(s) && Live(s, at) && IsOpen(s, i)
    ensures var o := Obs(s.obs[i].start, at - s.obs[i].start, s.obs[i].parent, false, raised);
            var u := Next(s, Exit(i, at, raised));
            && i < |u.obs| && u.obs[i] == o && End(o) == at
            && (Settled(u, i) <==> Top(s.stack) == Some(i))
  {
    if Top(s.stack) == Some(i) {
      assert forall k | 0 <= k < |s.stack| - 1 :: s.stack[k] < s.stack[|s.stack| - 1];
    } else {
      assert i in s.stack;
    }
  }

  /**
   A span has failed iff its body raised, whatever comes later; if it was the innermost one, its
   interval stays from its enter to its exit.
   */
  lemma SpanIsReported(before: seq<Action>, i: nat, at: real, raised: bool, after: seq<Action>)
    requires Live(Execute(before), at) && IsOpen(Execute(before), i)
    ensures var s, u := Execute(before), Execute(before + [Exit(i, at, raised)] + after);
            && i < |u.obs| && !u.obs[i].open && u.obs[i].failed == raised
            && u.obs[i].start == s.obs[i].start && u.obs[i].parent == s.obs[i].parent
            && (Top(s.stack) == Some(i) ==> End(u.obs[i]) == at)
  {
    var s := Execute(before);
    OkAlways(before);
    ExecuteSnoc(before, Exit(i, at, raised));
    ExitSettles(s, i, at, raised);
    ExitedForGood(before + [Exit(i, at, raised)], after, i);
    if Top(s.stack) == Some(i) {
      SettledForGood(before + [Exit(i, at, raised)], after, i);
    }
  }

  lemma EventSettles(s: State, at: real, ok: bool)
    requires Inv(s) && Live(s, at)
    ensures var u := Next(s, Event(at, ok));
            Settled(u, |s.obs|) && u.obs[|s.obs|] == Obs(at, 0.0, Top(s.stack), false, !ok)
  {
  }

  /** An event has failed iff it says so, takes no time and belongs to the innermost span. */
  lemma EventIsReported(before: seq<Action>, at: real, ok: bool, after: seq<Action>)
    requires Live(Execute(before), at)
    ensures var i, u := |Execute(before).obs|, Execute(before + [Event(at, ok)] + after);
            i < |u.obs| && u.obs[i] == Obs(at, 0.0, Top(Execute(before).stack), false, !ok)
  {
    OkAlways(before);
    ExecuteSnoc(before, Event(at, ok));
    EventSettles(Execute(before), at, ok);
    SettledForGood(before + [Event(at, ok)], after, |Execute(before).obs|);
  }

  /** The trace shows every observation; what is still on the stack ends with the trace. */
  predicate Shows(t: Trace, s: State, at: real) {
    && |t.observations| == |s.obs|
    && forall i | 0 <= i < |s.obs| ::
         && SameButDuration(t.observations[i], s.obs[i])
         && End(t.observations[i]) == if i in s.stack then at else End(s.obs[i])
  }

  lemma AssembledShows(s: State, at: real)
    requires Inv(s) && Live(s, at)
    ensures Shows(Assemble(s, at, true), s, at)
  {
    forall i | 0 <= i < |s.obs| ensures s.obs[i].start <= at {
      assert InTime(s.obs[i], s.clock);
    }
  }

  /** The one trace of a run lasts from its start to the finish, and is kept iff it was to be. */
  lemma TraceIsReported(before: seq<Action>, at: real, keep: bool, after: seq<Action>)
    requires Live(Execute(before), at)
    ensures var t := Execute(before + [Finish(at, keep)] + after).trace;
            && t.Some? && t.value.duration == at && t.value.kept == keep
            && if keep then Shows(t.value, Execute(before), at) else t.value.observations == []
  {
    OkAlways(before);
    AssembledShows(Execute(before), at);
    ExecuteSnoc(before, Finish(at, keep));
    DeliveredForGood(before + [Finish(at, keep)], after);
  }
}
