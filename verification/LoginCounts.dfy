/**
 Which events of a run the login backoff of layawatch/auth/login_limit.py holds against a
 subject, counted over the run itself, and what the two counting calls answer.
 */
module LoginCounts {
  import opened Common
  import opened LoginLimit
  import opened LoginLaws

  /** A wrong password, or an attempt that was refused. */
  predicate CountsAt(cfg: Config, run: seq<Event>, i: nat, s: Subject) {
    && i < |run|
    && (run[i].call == RecordFailure(s)
        || (run[i].call == Refused(s) && Ask(cfg, run[..i], s, run[i].at).Blocked?))
  }

  predicate Forgets(call: Call, s: Subject) { call == Clear(s) || call == ClearEmail(s.email) }

  predicate ForgottenBy(run: seq<Event>, i: nat, n: nat, s: Subject) {
    exists j :: i < j < n && j < |run| && Forgets(run[j].call, s)
  }

  /** Of the first `n` events those that count, were not forgotten and are younger than the cutoff. */
  predicate Stands(cfg: Config, run: seq<Event>, n: nat, s: Subject, cutoff: real, i: nat) {
    CountsAt(cfg, run, i, s) && !ForgottenBy(run, i, n, s) && run[i].at > cutoff
  }

  ghost function Against(cfg: Config, run: seq<Event>, n: nat, s: Subject, cutoff: real): set<nat> {
    set i: nat | i < n && Stands(cfg, run, n, s, cutoff, i)
  }

  lemma ForgottenLater(run: seq<Event>, i: nat, n: nat, s: Subject)
    requires i < n < |run|
    ensures ForgottenBy(run, i, n + 1, s) <==> ForgottenBy(run, i, n, s) || Forgets(run[n].call, s)
  {
  }

  lemma AgainstStep(cfg: Config, run: seq<Event>, n: nat, s: Subject, cutoff: real)
    requires n < |run|
    ensures Against(cfg, run, n + 1, s, cutoff)
         == if Forgets(run[n].call, s) then {}
            else Against(cfg, run, n, s, cutoff)
                 + (if CountsAt(cfg, run, n, s) && run[n].at > cutoff then {n} else {})
  {
    forall i: nat | i < n
      ensures ForgottenBy(run, i, n + 1, s) <==> ForgottenBy(run, i, n, s) || Forgets(run[n].call, s)
    {
      ForgottenLater(run, i, n, s);
    }
  }

  /** The step of the log: forgotten, one entry more, or as it was. */
  lemma LogStep(cfg: Config, log: Table, e: Event, s: Subject, refused: bool, cutoff: real)
    requires refused <==> |InWindow(Stored(log, s), Cutoff(cfg, e.at))| >= cfg.limit
    ensures InWindow(Stored(NextLog(cfg, log, e.call, e.at), s), cutoff)
         == if Forgets(e.call, s) then []
            else InWindow(Stored(log, s), cutoff)
                 + (if (e.call == RecordFailure(s) || (e.call == Refused(s) && refused)) && e.at > cutoff
                    then [e.at] else [])
  {
    InWindowSnoc(Stored(log, s), e.at, cutoff);
  }

  lemma PrefixInOrder(run: seq<Event>, n: nat)
    requires Monotone(run) && n < |run|
    ensures InOrder(run[..n], run[n].at)
  {
  }

  /** The log's entries in the window are as many as the events that stand. */
  ghost predicate SameNumber(cfg: Config, run: seq<Event>, n: nat, s: Subject, cutoff: real)
    requires n <= |run|
  {
    |InWindow(Stored(RunLog(cfg, run[..n]), s), cutoff)| == |Against(cfg, run, n, s, cutoff)|
  }

  lemma LogAfter(cfg: Config, run: seq<Event>, n: nat, s: Subject, cutoff: real)
    requires Monotone(run) && n < |run|
    ensures InWindow(Stored(RunLog(cfg, run[..n + 1]), s), cutoff)
         == if Forgets(run[n].call, s) then []
            else InWindow(Stored(RunLog(cfg, run[..n]), s), cutoff)
                 + (if CountsAt(cfg, run, n, s) && run[n].at > cutoff then [run[n].at] else [])
  {
    assert run[..n + 1] == run[..n] + [run[n]];
    OneMore(cfg, run[..n], run[n]);
    PrefixInOrder(run, n);
    RefusedIffLimitReached(cfg, run[..n], s, run[n].at);
    LogStep(cfg, RunLog(cfg, run[..n]), run[n], s, Ask(cfg, run[..n], s, run[n].at).Blocked?, cutoff);
  }

  lemma {:induction false} EntriesAreEvents(cfg: Config, run: seq<Event>, n: nat, s: Subject, cutoff: real)
    requires Monotone(run) && n <= |run|
    ensures SameNumber(cfg, run, n, s, cutoff)
  {
    if n > 0 {
      EntriesAreEvents(cfg, run, n - 1, s, cutoff);
      LogAfter(cfg, run, n - 1, s, cutoff);
      AgainstStep(cfg, run, n - 1, s, cutoff);
    }
  }

  lemma WholeRun(cfg: Config, run: seq<Event>, s: Subject, now: real)
    requires InOrder(run, now)
    ensures |RecentOf(cfg, run, s, now)| == |Against(cfg, run, |run|, s, now - cfg.window)|
  {
    EntriesAreEvents(cfg, run, |run|, s, Cutoff(cfg, now));
    assert run[..|run|] == run;
  }

  /**
   In any run a subject is refused iff at least `limit` of its wrong passwords and refused attempts
   lie inside the window with no clear of the subject or its email after them.
   */
  lemma RefusedIffSoMany(cfg: Config, run: seq<Event>, s: Subject, now: real)
    requires InOrder(run, now)
    ensures Ask(cfg, run, s, now).Blocked?
       <==> |Against(cfg, run, |run|, s, now - cfg.window)| >= cfg.limit
  {
    WholeRun(cfg, run, s, now);
    RefusedIffLimitReached(cfg, run, s, now);
  }

  lemma CountsOf(cfg: Config, t: Table, log: Table, s: Subject, now: real)
    requires Refined(cfg, t, log, now)
    ensures NextAnswer(cfg, t, Failures(s), now) == Counted(|InWindow(Stored(log, s), Cutoff(cfg, now))|)
    ensures NextAnswer(cfg, t, RecordFailure(s), now)
         == Counted(|InWindow(Stored(log, s), Cutoff(cfg, now))| + 1)
  {
    PruneStays(cfg, t, log, s, now);
    assert ListSorted(t, s, now) && SameWindow(t, log, s, Cutoff(cfg, now));
  }

  /** The counting calls answer that number, the new failure included. */
  lemma AnswersAreTheNumber(cfg: Config, run: seq<Event>, s: Subject, now: real)
    requires InOrder(run, now)
    ensures var n := |Against(cfg, run, |run|, s, now - cfg.window)|;
            && NextAnswer(cfg, Run(cfg, run), Failures(s), now) == Counted(n)
            && NextAnswer(cfg, Run(cfg, run), RecordFailure(s), now) == Counted(n + 1)
  {
    WholeRun(cfg, run, s, now);
    RunRefines(cfg, run, now);
    CountsOf(cfg, Run(cfg, run), RunLog(cfg, run), s, now);
  }
}
