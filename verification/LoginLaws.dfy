/**
 What the login backoff of layawatch/auth/login_limit.py answers after a run of calls: who is
 refused and until when, what the wait is worth, and which subjects stay in the map.
 */
module LoginLaws {
  import opened Options
  import opened Common
  import opened LoginLimit

  // ---- asking after a run -------------------------------------------------------------------

  predicate InOrder(run: seq<Event>, now: real) {
    Monotone(run) && (run != [] ==> run[|run| - 1].at <= now)
  }

  /** What `refused` answers at `now` after a run. */
  function Ask(cfg: Config, run: seq<Event>, s: Subject, now: real): Answer {
    NextAnswer(cfg, Run(cfg, run), Refused(s), now)
  }

  /** Failures and refusals of `s` since its last clear that are still in the window. */
  function RecentOf(cfg: Config, run: seq<Event>, s: Subject, now: real): seq<real> {
    InWindow(Stored(RunLog(cfg, run), s), Cutoff(cfg, now))
  }

  lemma RecentIs(cfg: Config, t: Table, log: Table, s: Subject, now: real)
    requires Refined(cfg, t, log, now)
    ensures SortedUpTo(InWindow(Stored(log, s), Cutoff(cfg, now)), now)
    ensures NextAnswer(cfg, t, Refused(s), now)
         == RefusedAnswer(cfg, InWindow(Stored(log, s), Cutoff(cfg, now)), now)
  {
    PruneStays(cfg, t, log, s, now);
    assert ListSorted(t, s, now) && SameWindow(t, log, s, Cutoff(cfg, now));
    WindowSorted(Stored(t, s), Cutoff(cfg, now), now);
  }

  lemma AskIs(cfg: Config, run: seq<Event>, s: Subject, now: real)
    requires InOrder(run, now)
    ensures SortedUpTo(RecentOf(cfg, run, s, now), now)
    ensures Ask(cfg, run, s, now) == RefusedAnswer(cfg, RecentOf(cfg, run, s, now), now)
  {
    RunRefines(cfg, run, now);
    RecentIs(cfg, Run(cfg, run), RunLog(cfg, run), s, now);
  }

  /**
   After any run, a request at `now` is refused iff the subject's failures and refusals since
   its last clear that are still in the window reach the limit.
   */
  lemma RefusedIffLimitReached(cfg: Config, run: seq<Event>, s: Subject, now: real)
    requires InOrder(run, now)
    ensures Ask(cfg, run, s, now).Blocked? <==> |RecentOf(cfg, run, s, now)| >= cfg.limit
    ensures !Ask(cfg, run, s, now).Blocked? ==> Ask(cfg, run, s, now) == Allowed
  {
    AskIs(cfg, run, s, now);
  }

  // ---- the wait -----------------------------------------------------------------------------

  lemma CeilIs(x: real)
    ensures x <= Ceil(x) as real < x + 1.0
  {
  }

  lemma CeilMonotone(x: real, y: real)
    ensures x <= y ==> Ceil(x) <= Ceil(y)
  {
  }

  lemma RetryInRange(cfg: Config, recent: seq<real>, now: real)
    requires |recent| > cfg.limit && SortedUpTo(recent, now) && cfg.window > 0.0
    ensures 1 <= RetryAfter(cfg, recent, now) <= Ceil(cfg.window)
  {
    var wait := Smaller(Pow2(|recent| - cfg.limit) as real, cfg.window);
    CeilMonotone(Smaller(wait, recent[0] + cfg.window - now), cfg.window);
  }

  /** Every wait that a run is ever answered lies between 1 and ceil(window). */
  lemma WaitIsBounded(cfg: Config, run: seq<Event>, s: Subject, now: real)
    requires InOrder(run, now) && cfg.window > 0.0 && Ask(cfg, run, s, now).Blocked?
    ensures 1 <= Ask(cfg, run, s, now).retryAfter <= Ceil(cfg.window)
  {
    AskIs(cfg, run, s, now);
    var recent := RecentOf(cfg, run, s, now);
    SnocSortedUpTo(recent, now);
    RetryInRange(cfg, recent + [now], now);
  }

  lemma SnocSortedUpTo(recent: seq<real>, now: real)
    requires SortedUpTo(recent, now)
    ensures SortedUpTo(recent + [now], now)
  {
    SnocSorted(recent, now);
  }

  // ---- how long a refusal lasts -------------------------------------------------------------

  /** Does the call add to, or clear, what is counted for `s`? */
  predicate Touches(call: Call, s: Subject) {
    match call
    case Refused(u) => u == s
    case RecordFailure(u) => u == s
    case Clear(u) => u == s
    case ClearEmail(email) => email == s.email
    case Failures(_) => false
  }

  predicate Spares(events: seq<Event>, s: Subject) {
    forall i | 0 <= i < |events| :: !Touches(events[i].call, s)
  }

  lemma OneMore(cfg: Config, run: seq<Event>, e: Event)
    ensures RunLog(cfg, run + [e]) == NextLog(cfg, RunLog(cfg, run), e.call, e.at)
  {
    assert (run + [e])[..|run|] == run;
  }

  lemma StepSpares(cfg: Config, log: Table, e: Event, s: Subject)
    requires !Touches(e.call, s)
    ensures Stored(NextLog(cfg, log, e.call, e.at), s) == Stored(log, s)
  {
  }

  lemma {:induction false} LogSpared(cfg: Config, run: seq<Event>, others: seq<Event>, s: Subject)
    requires Spares(others, s)
    ensures Stored(RunLog(cfg, run + others), s) == Stored(RunLog(cfg, run), s)
  {
    if others == [] {
      assert run + others == run;
    } else {
      var front, e := others[..|others| - 1], others[|others| - 1];
      LogSpared(cfg, run, front, s);
      assert run + others == (run + front) + [e];
      OneMore(cfg, run + front, e);
      StepSpares(cfg, RunLog(cfg, run + front), e, s);
    }
  }

  /** A refusal of `s` at `now`, and then events that leave `s` alone. */
  function LeftAlone(run: seq<Event>, s: Subject, now: real, others: seq<Event>): seq<Event> {
    run + [Event(now, Refused(s))] + others
  }

  /** The window with the refusal just counted. */
  function Standing(cfg: Config, run: seq<Event>, s: Subject, now: real): seq<real> {
    RecentOf(cfg, run, s, now) + [now]
  }

  /** When the `limit`-th newest entry ages out. */
  function UnblockTime(cfg: Config, standing: seq<real>): real
    requires |standing| > cfg.limit
  {
    standing[|standing| - cfg.limit] + cfg.window
  }

  lemma LogAfterRefusal(cfg: Config, run: seq<Event>, s: Subject, now: real, others: seq<Event>)
    requires |RecentOf(cfg, run, s, now)| >= cfg.limit && Spares(others, s)
    ensures Stored(RunLog(cfg, LeftAlone(run, s, now, others)), s) == Stored(RunLog(cfg, run), s) + [now]
  {
    OneMore(cfg, run, Event(now, Refused(s)));
    LogSpared(cfg, run + [Event(now, Refused(s))], others, s);
  }

  /** Looking back from a later time, only the standing window matters. */
  lemma WindowLater(times: seq<real>, now: real, early: real, late: real)
    requires early <= late
    ensures InWindow(times + [now], late) == InWindow(InWindow(times, early) + [now], late)
  {
    WindowOfWindow(times, early, late);
    InWindowSnoc(times, now, late);
    InWindowSnoc(InWindow(times, early), now, late);
  }

  /** How many entries are still inside the window, read off the sorted list. */
  lemma {:induction false} AgesOutAt(g: seq<real>, k: nat, cutoff: real)
    requires Sorted(g) && k < |g|
    ensures |InWindow(g, cutoff)| < |g| - k <==> g[k] <= cutoff
    decreases |g|
  {
    var front, t := g[..|g| - 1], g[|g| - 1];
    if k < |front| {
      AgesOutAt(front, k, cutoff);
      if t <= cutoff {
        AllOldDropped(g, cutoff);
      }
    } else {
      WindowLength(front, cutoff);
      if t <= cutoff {
        AllOldDropped(g, cutoff);
      }
    }
  }

  lemma {:induction false} WindowLength(g: seq<real>, cutoff: real)
    ensures |InWindow(g, cutoff)| <= |g|
  {
    if g != [] {
      WindowLength(g[..|g| - 1], cutoff);
    }
  }

  lemma RecentLater(cfg: Config, run: seq<Event>, s: Subject, now: real, others: seq<Event>, later: real)
    requires |RecentOf(cfg, run, s, now)| >= cfg.limit && Spares(others, s) && now <= later
    ensures RecentOf(cfg, LeftAlone(run, s, now, others), s, later)
         == InWindow(Standing(cfg, run, s, now), Cutoff(cfg, later))
  {
    LogAfterRefusal(cfg, run, s, now, others);
    WindowLater(Stored(RunLog(cfg, run), s), now, Cutoff(cfg, now), Cutoff(cfg, later));
  }

  lemma InOrderSplit(run: seq<Event>, e: Event, others: seq<Event>, later: real)
    requires InOrder(run + [e] + others, later)
    ensures InOrder(run, e.at) && e.at <= later
  {
    var all := run + [e] + others;
    assert all[|run|] == e && all[|all| - 1].at <= later;
    assert forall i | 0 <= i < |run| :: all[i] == run[i];
  }

  /**
   The true end of a lockout: after any run and a refusal, with others calling in between, the
   subject is let in exactly from the unblock time on.
   */
  lemma BlockedUntil(cfg: Config, run: seq<Event>, s: Subject, now: real, others: seq<Event>, later: real)
    requires InOrder(LeftAlone(run, s, now, others), later) && Spares(others, s)
    requires Ask(cfg, run, s, now).Blocked?
    ensures |Standing(cfg, run, s, now)| > cfg.limit
    ensures Ask(cfg, LeftAlone(run, s, now, others), s, later) == Allowed
       <==> later >= UnblockTime(cfg, Standing(cfg, run, s, now))
  {
    InOrderSplit(run, Event(now, Refused(s)), others, later);
    RefusedIffLimitReached(cfg, run, s, now);
    AskIs(cfg, run, s, now);
    RecentLater(cfg, run, s, now, others, later);
    RefusedIffLimitReached(cfg, LeftAlone(run, s, now, others), s, later);
    var standing := Standing(cfg, run, s, now);
    SnocSortedUpTo(RecentOf(cfg, run, s, now), now);
    AgesOutAt(standing, |standing| - cfg.limit, Cutoff(cfg, later));
  }

  /** A lockout that is left alone never outlives the window. */
  lemma LockoutEndsWithTheWindow(cfg: Config, run: seq<Event>, s: Subject, now: real, others: seq<Event>, later: real)
    requires InOrder(LeftAlone(run, s, now, others), later) && Spares(others, s)
    requires Ask(cfg, run, s, now).Blocked? && later >= now + cfg.window
    ensures Ask(cfg, LeftAlone(run, s, now, others), s, later) == Allowed
  {
    BlockedUntil(cfg, run, s, now, others, later);
    InOrderSplit(run, Event(now, Refused(s)), others, later);
    AskIs(cfg, run, s, now);
    SnocSortedUpTo(RecentOf(cfg, run, s, now), now);
  }

  /**
   The wait the doubling term and the oldest entry allow covers what is left, or there is at
   most a second left anyway.
   */
  predicate WaitCovers(cfg: Config, standing: seq<real>, now: real)
    requires |standing| > cfg.limit
  {
    var left := UnblockTime(cfg, standing) - now;
    left <= 1.0 || (left <= Pow2(|standing| - cfg.limit) as real
                    && left <= Ceil(standing[0] + cfg.window - now) as real)
  }

  lemma CeilOfLeast(p: int, w: real, o: real)
    ensures Ceil(Smaller(Smaller(p as real, w), o)) as real
         == Smaller(Smaller(p as real, Ceil(w) as real), Ceil(o) as real)
  {
    CeilMonotone(w, p as real);
    CeilMonotone(p as real, w);
    CeilMonotone(w, o);
    CeilMonotone(o, w);
    CeilMonotone(o, p as real);
    CeilMonotone(p as real, o);
    assert Ceil(p as real) == p;
  }

  lemma RetryReaches(cfg: Config, standing: seq<real>, now: real)
    requires |standing| > cfg.limit && SortedUpTo(standing, now) && cfg.window > 0.0
    ensures now + RetryAfter(cfg, standing, now) as real >= UnblockTime(cfg, standing)
       <==> WaitCovers(cfg, standing, now)
  {
    CeilOfLeast(Pow2(|standing| - cfg.limit), cfg.window, standing[0] + cfg.window - now);
    CeilIs(cfg.window);
  }

  /** Coming back after the answered wait, the subject is let in iff the wait covers the lockout. */
  lemma RetrySufficesIff(cfg: Config, run: seq<Event>, s: Subject, now: real, others: seq<Event>, later: real)
    requires InOrder(LeftAlone(run, s, now, others), later) && Spares(others, s) && cfg.window > 0.0
    requires Ask(cfg, run, s, now).Blocked? && later == now + Ask(cfg, run, s, now).retryAfter as real
    ensures |Standing(cfg, run, s, now)| > cfg.limit
    ensures Ask(cfg, LeftAlone(run, s, now, others), s, later) == Allowed
       <==> WaitCovers(cfg, Standing(cfg, run, s, now), now)
  {
    BlockedUntil(cfg, run, s, now, others, later);
    InOrderSplit(run, Event(now, Refused(s)), others, later);
    AskIs(cfg, run, s, now);
    SnocSortedUpTo(RecentOf(cfg, run, s, now), now);
    RetryReaches(cfg, Standing(cfg, run, s, now), now);
  }

  // ---- how the wait grows -------------------------------------------------------------------

  /** The window, and what is left of the oldest entry's own time. */
  function Cap(cfg: Config, standing: seq<real>, now: real): real
    requires standing != []
  {
    Smaller(cfg.window, standing[0] + cfg.window - now)
  }

  /** So many seconds, or the cap's ceiling when they are more than the cap, at least one. */
  function Capped(seconds: int, cap: real): int {
    if seconds as real <= cap then seconds else if Ceil(cap) < 1 then 1 else Ceil(cap)
  }

  lemma CappedIs(p: int, w: real, o: real)
    requires p >= 1
    ensures var c := Ceil(Smaller(Smaller(p as real, w), o));
            Capped(p, Smaller(w, o)) == if c < 1 then 1 else c
  {
    assert Ceil(p as real) == p;
  }

  lemma Pow2Positive(n: nat)
    ensures Pow2(n) >= 1
  {
  }

  lemma WaitIs(cfg: Config, run: seq<Event>, s: Subject, now: real)
    requires InOrder(run, now) && Ask(cfg, run, s, now).Blocked?
    ensures var standing := Standing(cfg, run, s, now);
            && |standing| > cfg.limit
            && Ask(cfg, run, s, now).retryAfter
               == Capped(Pow2(|standing| - cfg.limit), Cap(cfg, standing, now))
  {
    AskIs(cfg, run, s, now);
    var standing := Standing(cfg, run, s, now);
    Pow2Positive(|standing| - cfg.limit);
    CappedIs(Pow2(|standing| - cfg.limit), cfg.window, standing[0] + cfg.window - now);
  }

  /** A subject that has just reached the limit is told two seconds, or its cap. */
  lemma FirstRefusalIsTwo(cfg: Config, run: seq<Event>, s: Subject, now: real)
    requires InOrder(run, now) && |RecentOf(cfg, run, s, now)| == cfg.limit
    ensures Ask(cfg, run, s, now) == Blocked(Capped(2, Cap(cfg, Standing(cfg, run, s, now), now)))
  {
    RefusedIffLimitReached(cfg, run, s, now);
    WaitIs(cfg, run, s, now);
    assert Pow2(1) == 2;
  }

  /** Was the answered wait short of what would have capped it? */
  predicate Uncapped(cfg: Config, run: seq<Event>, s: Subject, now: real)
    requires Ask(cfg, run, s, now).Blocked?
  {
    (Ask(cfg, run, s, now).retryAfter as real) < Cap(cfg, Standing(cfg, run, s, now), now)
  }

  lemma CappedDoubles(p: int, early: real, late: real)
    requires p >= 1 && late <= early
    ensures (Capped(p, early) as real) < early ==> Capped(2 * p, late) == Capped(2 * Capped(p, early), late)
    ensures (Capped(p, early) as real) >= early ==>
              Capped(2 * p, late) == if Ceil(late) < 1 then 1 else Ceil(late)
  {
    CeilIs(early);
  }

  lemma NextStanding(cfg: Config, run: seq<Event>, s: Subject, now: real, others: seq<Event>, later: real)
    requires RecentOf(cfg, LeftAlone(run, s, now, others), s, later) == Standing(cfg, run, s, now)
    requires now <= later
    ensures var first, second := Standing(cfg, run, s, now), Standing(cfg, LeftAlone(run, s, now, others), s, later);
            |second| == |first| + 1 && Cap(cfg, second, later) <= Cap(cfg, first, now)
  {
  }

  /**
   Two refusals one after the other, with nothing aged out in between: the second wait is twice
   the first, or its own cap; and once a wait was capped, so is the next.
   */
  lemma WaitDoubles(cfg: Config, run: seq<Event>, s: Subject, now: real, others: seq<Event>, later: real)
    requires InOrder(LeftAlone(run, s, now, others), later) && Spares(others, s)
    requires Ask(cfg, run, s, now).Blocked?
    requires RecentOf(cfg, LeftAlone(run, s, now, others), s, later) == Standing(cfg, run, s, now)
    ensures var again := LeftAlone(run, s, now, others);
            var cap := Cap(cfg, Standing(cfg, again, s, later), later);
            && Ask(cfg, again, s, later).Blocked?
            && (Uncapped(cfg, run, s, now) ==>
                  Ask(cfg, again, s, later).retryAfter == Capped(2 * Ask(cfg, run, s, now).retryAfter, cap))
            && (!Uncapped(cfg, run, s, now) ==>
                  Ask(cfg, again, s, later).retryAfter == if Ceil(cap) < 1 then 1 else Ceil(cap))
  {
    var again := LeftAlone(run, s, now, others);
    var first := Standing(cfg, run, s, now);
    InOrderSplit(run, Event(now, Refused(s)), others, later);
    WaitIs(cfg, run, s, now);
    RefusedIffLimitReached(cfg, again, s, later);
    WaitIs(cfg, again, s, later);
    NextStanding(cfg, run, s, now, others, later);
    Pow2Positive(|first| - cfg.limit);
    CappedDoubles(Pow2(|first| - cfg.limit), Cap(cfg, first, now), Cap(cfg, Standing(cfg, again, s, later), later));
  }

  // ---- forgetting ---------------------------------------------------------------------------

  lemma ForgottenStep(cfg: Config, log: Table, e: Event, s: Subject)
    requires e.call == Clear(s) || e.call == ClearEmail(s.email)
    ensures Stored(NextLog(cfg, log, e.call, e.at), s) == []
  {
  }

  /** After a successful login, or an owner's edit of the account, the subject starts afresh. */
  lemma ClearLetsIn(cfg: Config, run: seq<Event>, e: Event, s: Subject, now: real)
    requires InOrder(run + [e], now) && (e.call == Clear(s) || e.call == ClearEmail(s.email))
    ensures RecentOf(cfg, run + [e], s, now) == [] && Ask(cfg, run + [e], s, now) == Allowed
  {
    OneMore(cfg, run, e);
    ForgottenStep(cfg, RunLog(cfg, run), e, s);
    RefusedIffLimitReached(cfg, run + [e], s, now);
  }

  // ---- a wait that is too short -------------------------------------------------------------

  const WHO := Subject("10.0.0.1", "a@example.org")
  const FIVE := Config(5, 900.0)

  function Failed(n: nat): seq<Event> {
    if n == 0 then [] else Failed(n - 1) + [Event(0.0, RecordFailure(WHO))]
  }

  function Zeros(n: nat): (r: seq<real>)
    ensures |r| == n && forall i | 0 <= i < n :: r[i] == 0.0
  {
    if n == 0 then [] else Zeros(n - 1) + [0.0]
  }

  lemma {:induction false} FailedLog(n: nat)
    ensures Stored(RunLog(FIVE, Failed(n)), WHO) == Zeros(n)
    ensures |Failed(n)| == n && forall i | 0 <= i < n :: Failed(n)[i] == Event(0.0, RecordFailure(WHO))
  {
    if n > 0 {
      FailedLog(n - 1);
      OneMore(FIVE, Failed(n - 1), Event(0.0, RecordFailure(WHO)));
    }
  }

  lemma FiveFailuresWait()
    ensures RecentOf(FIVE, Failed(5), WHO, 1.0) == Zeros(5)
  {
    FailedLog(5);
    AllYoungKept(Zeros(5), 1.0 - 900.0);
  }

  lemma SixthWaitsTwo()
    ensures RetryAfter(FIVE, Zeros(5) + [1.0], 1.0) == 2
    ensures !WaitCovers(FIVE, Zeros(5) + [1.0], 1.0)
  {
    assert Pow2(1) == 2;
  }

  lemma FirstAnswer()
    ensures Ask(FIVE, Failed(5), WHO, 1.0) == Blocked(2)
  {
    FailedLog(5);
    FiveFailuresWait();
    SixthWaitsTwo();
    AskIs(FIVE, Failed(5), WHO, 1.0);
  }

  /**
   Retry-After does not always name the unblock time: after five failures at 0 s, `refused`
   answers 2 s at 1 s; asked again at 3 s, it refuses again.
   */
  lemma RetryCanBeTooShort()
    ensures Ask(FIVE, Failed(5), WHO, 1.0) == Blocked(2)
    ensures Ask(FIVE, LeftAlone(Failed(5), WHO, 1.0, []), WHO, 3.0).Blocked?
  {
    FirstAnswer();
    SecondAnswer();
  }

  lemma SecondAnswer()
    ensures Ask(FIVE, LeftAlone(Failed(5), WHO, 1.0, []), WHO, 3.0).Blocked?
  {
    var run := LeftAlone(Failed(5), WHO, 1.0, []);
    ShortRunInOrder();
    FirstAnswer();
    FiveFailuresWait();
    SixthWaitsTwo();
    RetrySufficesIff(FIVE, Failed(5), WHO, 1.0, [], 3.0);
    RefusedIffLimitReached(FIVE, run, WHO, 3.0);
  }

  lemma ShortRunInOrder()
    ensures InOrder(LeftAlone(Failed(5), WHO, 1.0, []), 3.0)
  {
    FailedLog(5);
    assert LeftAlone(Failed(5), WHO, 1.0, []) == Failed(5) + [Event(1.0, Refused(WHO))];
  }

  // ---- which subjects stay in the map -------------------------------------------------------

  function LiveAt(log: Table, cutoff: real): set<Subject> {
    set s | s in log && InWindow(log[s], cutoff) != []
  }

  /** Subjects with a failure or refusal still in the window. */
  function Live(cfg: Config, log: Table, now: real): set<Subject> { LiveAt(log, Cutoff(cfg, now)) }

  /** A recorded failure, or a refusal. */
  predicate Counts(cfg: Config, log: Table, call: Call, now: real) {
    || call.RecordFailure?
    || (call.Refused? && |InWindow(Stored(log, call.subject), Cutoff(cfg, now))| >= cfg.limit)
  }

  /** What a sweep leaves of these subjects: all of them, or the live ones of a large map. */
  function SweptFrom(keys: set<Subject>, log: Table, cutoff: real): set<Subject> {
    if |keys| <= SWEEP_AT then keys else LiveAt(log, cutoff)
  }

  /** The stored subjects after a call, from those before it and the plain log. */
  function KeysLeft(cfg: Config, keys: set<Subject>, log: Table, call: Call, now: real): set<Subject> {
    match call
    case Clear(s) => keys - {s}
    case ClearEmail(email) => set s | s in keys && s.email != email
    case _ =>
      if Counts(cfg, log, call, now)
      then SweptFrom(keys + {call.subject}, NextLog(cfg, log, call, now), Cutoff(cfg, now))
      else keys + {call.subject}
  }

  lemma SweptKeys(t: Table, log: Table, cutoff: real, now: real)
    requires Agree(t, log, cutoff) && TableSorted(t, now)
    ensures LiveAt(log, cutoff) <= t.Keys && Sweep(t, cutoff).Keys == SweptFrom(t.Keys, log, cutoff)
  {
    assert |t| == |t.Keys|;
    forall s ensures s in LiveAt(log, cutoff) <==> s in t && !Stale(t[s], cutoff) {
      assert SameWindow(t, log, s, cutoff) && ListSorted(t, s, now);
      StaleIsEmptyWindow(Stored(t, s), cutoff);
    }
  }

  /** The keys a counted call leaves. */
  lemma CountedKeys(t: Table, log: Table, s: Subject, cutoff: real, now: real)
    requires Agree(t, log, cutoff) && TableSorted(t, now)
    ensures LiveAt(Logged(log, s, now), cutoff) <= t.Keys + {s}
    ensures Append(Prune(t, s, cutoff), s, now, cutoff).Keys
         == SweptFrom(t.Keys + {s}, Logged(log, s, now), cutoff)
  {
    var p := Prune(t, s, cutoff);
    PruneRefines(t, log, s, cutoff, now);
    SnocAgrees(p, log, s, cutoff, now);
    SnocTableSorted(p, s, now);
    assert Logged(p, s, now).Keys == t.Keys + {s};
    SweptKeys(Logged(p, s, now), Logged(log, s, now), cutoff, now);
  }

  /** A call leaves these keys, and none that is live is missing. */
  ghost predicate StepOk(cfg: Config, t: Table, log: Table, call: Call, now: real) {
    && NextTable(cfg, t, call, now).Keys == KeysLeft(cfg, t.Keys, log, call, now)
    && (Counts(cfg, log, call, now) ==>
          Live(cfg, NextLog(cfg, log, call, now), now) <= t.Keys + {call.subject})
  }

  lemma RecordUnfolds(cfg: Config, t: Table, log: Table, s: Subject, now: real, cutoff: real)
    requires cutoff == Cutoff(cfg, now)
    ensures NextTable(cfg, t, RecordFailure(s), now) == Append(Prune(t, s, cutoff), s, now, cutoff)
    ensures NextLog(cfg, log, RecordFailure(s), now) == Logged(log, s, now)
    ensures KeysLeft(cfg, t.Keys, log, RecordFailure(s), now)
         == SweptFrom(t.Keys + {s}, Logged(log, s, now), cutoff)
  {
  }

  lemma RefusedUnfolds(cfg: Config, t: Table, log: Table, s: Subject, now: real, cutoff: real)
    requires cutoff == Cutoff(cfg, now) && Recent(t, s, cutoff) == InWindow(Stored(log, s), cutoff)
    ensures Counts(cfg, log, Refused(s), now) ==>
              && NextTable(cfg, t, Refused(s), now) == Append(Prune(t, s, cutoff), s, now, cutoff)
              && NextLog(cfg, log, Refused(s), now) == Logged(log, s, now)
              && KeysLeft(cfg, t.Keys, log, Refused(s), now)
                 == SweptFrom(t.Keys + {s}, Logged(log, s, now), cutoff)
    ensures !Counts(cfg, log, Refused(s), now) ==>
              && NextTable(cfg, t, Refused(s), now) == Prune(t, s, cutoff)
              && KeysLeft(cfg, t.Keys, log, Refused(s), now) == t.Keys + {s}
  {
  }

  lemma RecordKeys(cfg: Config, t: Table, log: Table, s: Subject, now: real)
    requires Refined(cfg, t, log, now)
    ensures StepOk(cfg, t, log, RecordFailure(s), now)
  {
    RecordUnfolds(cfg, t, log, s, now, Cutoff(cfg, now));
    CountedKeys(t, log, s, Cutoff(cfg, now), now);
  }

  lemma RefusedKeys(cfg: Config, t: Table, log: Table, s: Subject, now: real)
    requires Refined(cfg, t, log, now)
    ensures StepOk(cfg, t, log, Refused(s), now)
  {
    PruneStays(cfg, t, log, s, now);
    RefusedUnfolds(cfg, t, log, s, now, Cutoff(cfg, now));
    CountedKeys(t, log, s, Cutoff(cfg, now), now);
  }

  lemma StepKeys(cfg: Config, t: Table, log: Table, call: Call, now: real)
    requires Refined(cfg, t, log, now)
    ensures StepOk(cfg, t, log, call, now)
  {
    match call
    case Refused(s) => RefusedKeys(cfg, t, log, s, now);
    case RecordFailure(s) => RecordKeys(cfg, t, log, s, now);
    case Clear(_) =>
    case ClearEmail(_) =>
    case Failures(_) =>
  }

  /** After any run and any call: exactly these subjects are in the map. */
  lemma SubjectsLeft(cfg: Config, run: seq<Event>, call: Call, now: real)
    requires InOrder(run, now)
    ensures NextTable(cfg, Run(cfg, run), call, now).Keys
         == KeysLeft(cfg, Run(cfg, run).Keys, RunLog(cfg, run), call, now)
  {
    RunRefines(cfg, run, now);
    StepKeys(cfg, Run(cfg, run), RunLog(cfg, run), call, now);
  }

  /** A counted call leaves the map within its bound iff no more subjects than that are live. */
  lemma MapBoundedIff(cfg: Config, run: seq<Event>, call: Call, now: real)
    requires InOrder(run, now) && Counts(cfg, RunLog(cfg, run), call, now)
    ensures |NextTable(cfg, Run(cfg, run), call, now)| <= 1024
       <==> |Live(cfg, NextLog(cfg, RunLog(cfg, run), call, now), now)| <= 1024
  {
    RunRefines(cfg, run, now);
    var t, log := Run(cfg, run), RunLog(cfg, run);
    StepKeys(cfg, t, log, call, now);
    SubsetSize(Live(cfg, NextLog(cfg, log, call, now), now), t.Keys + {call.subject});
    assert |NextTable(cfg, t, call, now)| == |NextTable(cfg, t, call, now).Keys|;
  }

  // ---- and how many there can be ------------------------------------------------------------

  function Subjects(run: seq<Event>): set<Subject> {
    set e | e in run && !e.call.ClearEmail? :: e.call.subject
  }

  /** Distinct subjects fail once each, all within one window. */
  ghost predicate FreshFailures(cfg: Config, run: seq<Event>) {
    && (forall i | 0 <= i < |run| :: run[i].call.RecordFailure?)
    && (forall i, j | 0 <= i < j < |run| :: run[i].call.subject != run[j].call.subject)
    && (forall i, j | 0 <= i <= j < |run| :: run[i].at <= run[j].at < run[i].at + cfg.window)
  }

  lemma FreshPrefix(cfg: Config, front: seq<Event>, e: Event)
    requires FreshFailures(cfg, front + [e])
    ensures FreshFailures(cfg, front) && InOrder(front, e.at) && e.call.RecordFailure?
    ensures forall i | 0 <= i < |front| ::
              front[i].call.subject != e.call.subject && front[i].at > e.at - cfg.window
    ensures cfg.window > 0.0
  {
    var run := front + [e];
    assert run[|front|] == e && run[|front|].at < run[|front|].at + cfg.window;
    assert forall i | 0 <= i < |front| :: run[i] == front[i] && run[i].at <= run[|front|].at;
  }

  lemma SubjectsSnoc(front: seq<Event>, e: Event)
    requires !e.call.ClearEmail?
    ensures Subjects(front + [e]) == Subjects(front) + {e.call.subject}
  {
    assert forall x :: x in front + [e] <==> x in front || x == e;
  }

  predicate Holds(log: Table, e: Event)
    requires !e.call.ClearEmail?
  {
    Stored(log, e.call.subject) == [e.at]
  }

  /** One entry for each event, and no other subject. */
  ghost predicate LogHolds(log: Table, run: seq<Event>) {
    && log.Keys == Subjects(run) && |Subjects(run)| == |run|
    && forall i | 0 <= i < |run| :: !run[i].call.ClearEmail? && Holds(log, run[i])
  }

  lemma LogHoldsOneMore(log: Table, front: seq<Event>, e: Event)
    requires LogHolds(log, front) && e.call.RecordFailure?
    requires forall i | 0 <= i < |front| ::
               !front[i].call.ClearEmail? && front[i].call.subject != e.call.subject
    ensures LogHolds(Logged(log, e.call.subject, e.at), front + [e])
  {
    var run, u := front + [e], Logged(log, e.call.subject, e.at);
    SubjectsSnoc(front, e);
    NewSubject(front, e);
    assert u.Keys == log.Keys + {e.call.subject};
    forall i | 0 <= i < |run| ensures !run[i].call.ClearEmail? && Holds(u, run[i]) {
      if i < |front| {
        assert Holds(log, front[i]);
        HoldsStill(log, e.call.subject, e.at, front[i]);
      }
    }
  }

  lemma HoldsStill(log: Table, s: Subject, at: real, e: Event)
    requires !e.call.ClearEmail? && e.call.subject != s && Holds(log, e)
    ensures Holds(Logged(log, s, at), e)
  {
  }

  lemma NewSubject(front: seq<Event>, e: Event)
    requires e.call.RecordFailure?
    requires forall i | 0 <= i < |front| ::
               !front[i].call.ClearEmail? && front[i].call.subject != e.call.subject
    ensures e.call.subject !in Subjects(front)
  {
  }

  lemma {:induction false} FreshLog(cfg: Config, run: seq<Event>)
    requires FreshFailures(cfg, run)
    ensures LogHolds(RunLog(cfg, run), run)
  {
    if run != [] {
      var front, e := run[..|run| - 1], run[|run| - 1];
      assert run == front + [e];
      FreshPrefix(cfg, front, e);
      FreshLog(cfg, front);
      OneMore(cfg, front, e);
      LogHoldsOneMore(RunLog(cfg, front), front, e);
    }
  }

  lemma YoungAreLive(log: Table, run: seq<Event>, cutoff: real)
    requires LogHolds(log, run) && forall i | 0 <= i < |run| :: run[i].at > cutoff
    ensures LiveAt(log, cutoff) == Subjects(run)
  {
    forall s | s in Subjects(run) ensures InWindow(log[s], cutoff) != [] {
      var x :| x in run && !x.call.ClearEmail? && x.call.subject == s;
      var i :| 0 <= i < |run| && run[i] == x;
      assert Holds(log, run[i]);
      InWindowSnoc([], x.at, cutoff);
    }
  }

  lemma RunOneMore(cfg: Config, front: seq<Event>, e: Event)
    ensures Run(cfg, front + [e]) == NextTable(cfg, Run(cfg, front), e.call, e.at)
  {
    assert (front + [e])[..|front|] == front;
  }

  lemma GrowKeys(cfg: Config, keys: set<Subject>, log: Table, s: Subject, now: real, all: set<Subject>)
    requires keys + {s} == all && LiveAt(Logged(log, s, now), Cutoff(cfg, now)) == all
    ensures KeysLeft(cfg, keys, log, RecordFailure(s), now) == all
  {
  }

  lemma AllLive(cfg: Config, front: seq<Event>, e: Event)
    requires FreshFailures(cfg, front + [e]) && e.call.RecordFailure?
    ensures LiveAt(Logged(RunLog(cfg, front), e.call.subject, e.at), Cutoff(cfg, e.at)) == Subjects(front + [e])
  {
    FreshPrefix(cfg, front, e);
    FreshLog(cfg, front);
    LogHoldsOneMore(RunLog(cfg, front), front, e);
    YoungAreLive(Logged(RunLog(cfg, front), e.call.subject, e.at), front + [e], Cutoff(cfg, e.at));
  }

  lemma GrowStep(cfg: Config, front: seq<Event>, e: Event)
    requires FreshFailures(cfg, front + [e]) && Run(cfg, front).Keys == Subjects(front)
    ensures Run(cfg, front + [e]).Keys == Subjects(front + [e])
  {
    FreshPrefix(cfg, front, e);
    AllLive(cfg, front, e);
    SubjectsSnoc(front, e);
    RunOneMore(cfg, front, e);
    SubjectsLeft(cfg, front, e.call, e.at);
    GrowKeys(cfg, Subjects(front), RunLog(cfg, front), e.call.subject, e.at, Subjects(front + [e]));
  }

  /** So the map is not bounded: failures of distinct subjects within one window all stay. */
  lemma {:induction false} FailuresGrowTheMap(cfg: Config, run: seq<Event>)
    requires FreshFailures(cfg, run)
    ensures Run(cfg, run).Keys == Subjects(run) && |Run(cfg, run).Keys| == |run|
  {
    FreshLog(cfg, run);
    if run != [] {
      var front, e := run[..|run| - 1], run[|run| - 1];
      assert run == front + [e];
      FreshPrefix(cfg, front, e);
      FailuresGrowTheMap(cfg, front);
      GrowStep(cfg, front, e);
    }
  }

  /** Checks alone are never swept: `_prune` stores an empty list for whoever is asked about. */
  lemma {:induction false} ChecksGrowTheMap(cfg: Config, run: seq<Event>)
    requires forall i | 0 <= i < |run| :: run[i].call.Refused?
    requires forall i, j | 0 <= i < j < |run| :: run[i].call.subject != run[j].call.subject
    ensures |Run(cfg, run)| == |run|
    ensures forall s :: s in Run(cfg, run) <==> exists i :: 0 <= i < |run| && run[i].call.subject == s
  {
    if run != [] {
      var front, e := run[..|run| - 1], run[|run| - 1];
      ChecksGrowTheMap(cfg, front);
      var t := Run(cfg, front);
      assert e.call.subject !in t && Recent(t, e.call.subject, Cutoff(cfg, e.at)) == [];
      assert Run(cfg, run) == t[e.call.subject := []];
      assert run == front + [e];
    }
  }
}
