/**
 Login failure backoff of layawatch/auth/login_limit.py. `NextTable` is the program: lists pruned
 on access by looking at their first entry only, stale subjects swept when the map is large.
 `NextLog` is the plain reading: an ever-growing log per subject, counted on demand. The two
 give the same answers on every run of a nondecreasing clock.
 */
module LoginLimit {
  import opened Options
  import opened Common

  type Pos = n: int | 1 <= n witness 1

  datatype Subject = Subject(ip: string, email: string)

  datatype Config = Config(limit: Pos, window: real)

  type Table = map<Subject, seq<real>>

  datatype Call =
    | Refused(subject: Subject)
    | RecordFailure(subject: Subject)
    | Clear(subject: Subject)
    | ClearEmail(email: string)
    | Failures(subject: Subject)

  datatype Answer =
    | Allowed
    | Blocked(retryAfter: int)
    | Counted(n: nat)
    | Cleared

  const SWEEP_AT := 1024

  /** Entries at or before it are out of the window. */
  function Cutoff(cfg: Config, now: real): real { now - cfg.window }

  // ---- the program ------------------------------------------------------------------------

  /** Entries younger than the cutoff. */
  function InWindow(times: seq<real>, cutoff: real): (r: seq<real>) {
    if times == [] then []
    else
      var front, t := InWindow(times[..|times| - 1], cutoff), times[|times| - 1];
      if t > cutoff then front + [t] else front
  }

  function Stored(t: Table, s: Subject): seq<real> { if s in t then t[s] else [] }

  /** `_prune`: only the first entry decides whether the list is filtered at all. */
  function PrunedList(times: seq<real>, cutoff: real): seq<real> {
    if times != [] && times[0] <= cutoff then InWindow(times, cutoff) else times
  }

  function Recent(t: Table, s: Subject, cutoff: real): seq<real> {
    PrunedList(Stored(t, s), cutoff)
  }

  function Prune(t: Table, s: Subject, cutoff: real): Table { t[s := Recent(t, s, cutoff)] }

  predicate Stale(times: seq<real>, cutoff: real) { times == [] || times[|times| - 1] <= cutoff }

  function Sweep(t: Table, cutoff: real): Table {
    if |t| <= SWEEP_AT then t else map s | s in t && !Stale(t[s], cutoff) :: t[s]
  }

  function Pow2(n: nat): nat { if n == 0 then 1 else 2 * Pow2(n - 1) }

  /** `recent` ends with the refusal itself. */
  function RetryAfter(cfg: Config, recent: seq<real>, now: real): int
    requires |recent| > cfg.limit
  {
    var wait := Smaller(Pow2(|recent| - cfg.limit) as real, cfg.window);
    var left := recent[0] + cfg.window - now;
    var seconds := Ceil(Smaller(wait, left));
    if seconds < 1 then 1 else seconds
  }

  function Logged(log: Table, s: Subject, now: real): Table { log[s := Stored(log, s) + [now]] }

  function Append(t: Table, s: Subject, now: real, cutoff: real): Table {
    Sweep(Logged(t, s, now), cutoff)
  }

  function ForgetEmail(t: Table, email: string): Table {
    map s | s in t && s.email != email :: t[s]
  }

  function NextTable(cfg: Config, t: Table, call: Call, now: real): Table {
    var cutoff := Cutoff(cfg, now);
    match call
    case Refused(s) =>
      if |Recent(t, s, cutoff)| < cfg.limit then Prune(t, s, cutoff)
      else Append(Prune(t, s, cutoff), s, now, cutoff)
    case RecordFailure(s) => Append(Prune(t, s, cutoff), s, now, cutoff)
    case Clear(s) => t - {s}
    case ClearEmail(email) => ForgetEmail(t, email)
    case Failures(s) => Prune(t, s, cutoff)
  }

  function NextAnswer(cfg: Config, t: Table, call: Call, now: real): Answer {
    match call
    case Refused(s) => RefusedAnswer(cfg, Recent(t, s, Cutoff(cfg, now)), now)
    case RecordFailure(s) => Counted(|Recent(t, s, Cutoff(cfg, now)) + [now]|)
    case Clear(_) => Cleared
    case ClearEmail(_) => Cleared
    case Failures(s) => Counted(|Recent(t, s, Cutoff(cfg, now))|)
  }

  function RefusedAnswer(cfg: Config, recent: seq<real>, now: real): Answer {
    if |recent| < cfg.limit then Allowed else Blocked(RetryAfter(cfg, recent + [now], now))
  }

  // ---- the plain reading: failures and refusals since the last clear, nothing dropped ------

  function NextLog(cfg: Config, log: Table, call: Call, now: real): Table {
    match call
    case Refused(s) =>
      if |InWindow(Stored(log, s), Cutoff(cfg, now))| < cfg.limit then log else Logged(log, s, now)
    case RecordFailure(s) => Logged(log, s, now)
    case Clear(s) => log - {s}
    case ClearEmail(email) => ForgetEmail(log, email)
    case Failures(s) => log
  }

  function LogAnswer(cfg: Config, log: Table, call: Call, now: real): Answer {
    match call
    case Refused(s) => RefusedAnswer(cfg, InWindow(Stored(log, s), Cutoff(cfg, now)), now)
    case RecordFailure(s) => Counted(|InWindow(Stored(log, s), Cutoff(cfg, now)) + [now]|)
    case Clear(_) => Cleared
    case ClearEmail(_) => Cleared
    case Failures(s) => Counted(|InWindow(Stored(log, s), Cutoff(cfg, now))|)
  }

  // ---- runs of both -------------------------------------------------------------------------

  datatype Event = Event(at: real, call: Call)

  function Run(cfg: Config, run: seq<Event>): Table {
    if run == [] then map[]
    else
      var e := run[|run| - 1];
      NextTable(cfg, Run(cfg, run[..|run| - 1]), e.call, e.at)
  }

  function Answers(cfg: Config, run: seq<Event>): seq<Answer> {
    if run == [] then []
    else
      var front, e := run[..|run| - 1], run[|run| - 1];
      Answers(cfg, front) + [NextAnswer(cfg, Run(cfg, front), e.call, e.at)]
  }

  function RunLog(cfg: Config, run: seq<Event>): Table {
    if run == [] then map[]
    else
      var e := run[|run| - 1];
      NextLog(cfg, RunLog(cfg, run[..|run| - 1]), e.call, e.at)
  }

  function LogAnswers(cfg: Config, run: seq<Event>): seq<Answer> {
    if run == [] then []
    else
      var front, e := run[..|run| - 1], run[|run| - 1];
      LogAnswers(cfg, front) + [LogAnswer(cfg, RunLog(cfg, front), e.call, e.at)]
  }

  predicate Monotone(run: seq<Event>) {
    forall i, j | 0 <= i <= j < |run| :: run[i].at <= run[j].at
  }

  // ---- window lemmas ----------------------------------------------------------------------

  predicate Sorted(times: seq<real>) {
    forall i, j | 0 <= i <= j < |times| :: times[i] <= times[j]
  }

  predicate SortedUpTo(times: seq<real>, now: real) {
    Sorted(times) && (forall i | 0 <= i < |times| :: times[i] <= now)
  }

  lemma InWindowSnoc(times: seq<real>, t: real, cutoff: real)
    ensures InWindow(times + [t], cutoff)
         == InWindow(times, cutoff) + (if t > cutoff then [t] else [])
  {
    assert (times + [t])[..|times|] == times;
  }

  /** A later window can be taken from an earlier one. */
  lemma {:induction false} WindowOfWindow(times: seq<real>, early: real, late: real)
    requires early <= late
    ensures InWindow(InWindow(times, early), late) == InWindow(times, late)
  {
    if times != [] {
      var front, t := times[..|times| - 1], times[|times| - 1];
      WindowOfWindow(front, early, late);
      InWindowSnoc(InWindow(front, early), t, late);
    }
  }

  lemma {:induction false} AllYoungKept(times: seq<real>, cutoff: real)
    requires forall i | 0 <= i < |times| :: times[i] > cutoff
    ensures InWindow(times, cutoff) == times
  {
    if times != [] {
      AllYoungKept(times[..|times| - 1], cutoff);
      assert times == times[..|times| - 1] + [times[|times| - 1]];
    }
  }

  lemma {:induction false} AllOldDropped(times: seq<real>, cutoff: real)
    requires forall i | 0 <= i < |times| :: times[i] <= cutoff
    ensures InWindow(times, cutoff) == []
  {
    if times != [] {
      AllOldDropped(times[..|times| - 1], cutoff);
    }
  }

  /** Looking at the first entry is enough because appends keep the list sorted. */
  lemma PrunedIsWindow(times: seq<real>, cutoff: real)
    requires Sorted(times)
    ensures PrunedList(times, cutoff) == InWindow(times, cutoff)
  {
    if times == [] || times[0] > cutoff {
      AllYoungKept(times, cutoff);
    }
  }

  lemma StaleIsEmptyWindow(times: seq<real>, cutoff: real)
    requires Sorted(times)
    ensures Stale(times, cutoff) <==> InWindow(times, cutoff) == []
  {
    if Stale(times, cutoff) {
      AllOldDropped(times, cutoff);
    }
  }

  lemma SnocSorted(times: seq<real>, t: real)
    requires Sorted(times) && (times == [] || times[|times| - 1] <= t)
    ensures Sorted(times + [t])
  {
  }

  lemma {:induction false} WindowSorted(times: seq<real>, cutoff: real, now: real)
    requires SortedUpTo(times, now)
    ensures SortedUpTo(InWindow(times, cutoff), now)
    ensures times != [] ==>
      var w := InWindow(times, cutoff); w == [] || w[|w| - 1] <= times[|times| - 1]
  {
    if times != [] {
      var front, t := times[..|times| - 1], times[|times| - 1];
      WindowSorted(front, cutoff, now);
      SnocSorted(InWindow(front, cutoff), t);
    }
  }

  // ---- refinement -------------------------------------------------------------------------

  /** Same entries inside the window, for every subject there could be. */
  ghost predicate Agree(t: Table, log: Table, cutoff: real) {
    forall s :: SameWindow(t, log, s, cutoff)
  }

  predicate SameWindow(t: Table, log: Table, s: Subject, cutoff: real) {
    InWindow(Stored(t, s), cutoff) == InWindow(Stored(log, s), cutoff)
  }

  ghost predicate TableSorted(t: Table, now: real) {
    forall s :: ListSorted(t, s, now)
  }

  predicate ListSorted(t: Table, s: Subject, now: real) { SortedUpTo(Stored(t, s), now) }

  lemma AgreeLater(t: Table, log: Table, early: real, late: real)
    requires Agree(t, log, early) && early <= late
    ensures Agree(t, log, late)
  {
    forall s ensures SameWindow(t, log, s, late) {
      assert SameWindow(t, log, s, early);
      WindowOfWindow(Stored(t, s), early, late);
      WindowOfWindow(Stored(log, s), early, late);
    }
  }

  lemma PruneAgrees(t: Table, log: Table, s: Subject, cutoff: real)
    requires Agree(t, log, cutoff) && Sorted(Stored(t, s))
    ensures Agree(Prune(t, s, cutoff), log, cutoff)
    ensures Recent(t, s, cutoff) == InWindow(Stored(log, s), cutoff)
  {
    var times, p := Stored(t, s), Prune(t, s, cutoff);
    assert SameWindow(t, log, s, cutoff);
    PrunedIsWindow(times, cutoff);
    WindowOfWindow(times, cutoff, cutoff);
    forall u ensures SameWindow(p, log, u, cutoff) {
      assert SameWindow(t, log, u, cutoff);
      assert u != s ==> Stored(p, u) == Stored(t, u);
    }
  }

  lemma PruneKeepsSorted(t: Table, s: Subject, cutoff: real, now: real)
    requires TableSorted(t, now)
    ensures TableSorted(Prune(t, s, cutoff), now)
  {
    assert ListSorted(t, s, now);
    PrunedIsWindow(Stored(t, s), cutoff);
    WindowSorted(Stored(t, s), cutoff, now);
    forall u ensures ListSorted(Prune(t, s, cutoff), u, now) {
      assert ListSorted(t, u, now);
    }
  }

  lemma PruneRefines(t: Table, log: Table, s: Subject, cutoff: real, now: real)
    requires Agree(t, log, cutoff) && TableSorted(t, now)
    ensures Agree(Prune(t, s, cutoff), log, cutoff) && TableSorted(Prune(t, s, cutoff), now)
    ensures Recent(t, s, cutoff) == InWindow(Stored(log, s), cutoff)
  {
    assert ListSorted(t, s, now);
    PruneAgrees(t, log, s, cutoff);
    PruneKeepsSorted(t, s, cutoff, now);
  }

  lemma SweepRefines(t: Table, log: Table, cutoff: real, now: real)
    requires Agree(t, log, cutoff) && TableSorted(t, now)
    ensures Agree(Sweep(t, cutoff), log, cutoff) && TableSorted(Sweep(t, cutoff), now)
  {
    var u := Sweep(t, cutoff);
    forall s ensures SameWindow(u, log, s, cutoff) {
      assert SameWindow(t, log, s, cutoff) && ListSorted(t, s, now);
      if s in t {
        StaleIsEmptyWindow(t[s], cutoff);
      }
    }
    forall s ensures ListSorted(u, s, now) {
      assert ListSorted(t, s, now);
    }
  }

  lemma SnocAgrees(t: Table, log: Table, s: Subject, cutoff: real, now: real)
    requires Agree(t, log, cutoff)
    ensures Agree(Logged(t, s, now), Logged(log, s, now), cutoff)
  {
    forall u ensures SameWindow(Logged(t, s, now), Logged(log, s, now), u, cutoff) {
      assert SameWindow(t, log, u, cutoff);
      if u == s {
        InWindowSnoc(Stored(t, s), now, cutoff);
        InWindowSnoc(Stored(log, s), now, cutoff);
      }
    }
  }

  lemma SnocTableSorted(t: Table, s: Subject, now: real)
    requires TableSorted(t, now)
    ensures TableSorted(Logged(t, s, now), now)
  {
    forall u ensures ListSorted(Logged(t, s, now), u, now) {
      assert ListSorted(t, u, now);
      if u == s {
        SnocSorted(Stored(t, s), now);
      }
    }
  }

  lemma AppendRefines(t: Table, log: Table, s: Subject, cutoff: real, now: real)
    requires Agree(t, log, cutoff) && TableSorted(t, now)
    ensures Agree(Append(t, s, now, cutoff), Logged(log, s, now), cutoff)
    ensures TableSorted(Append(t, s, now, cutoff), now)
  {
    SnocAgrees(t, log, s, cutoff, now);
    SnocTableSorted(t, s, now);
    SweepRefines(Logged(t, s, now), Logged(log, s, now), cutoff, now);
  }

  lemma ClearRefines(t: Table, log: Table, call: Call, cfg: Config, now: real)
    requires call.Clear? || call.ClearEmail?
    requires Agree(t, log, Cutoff(cfg, now))
    ensures Agree(NextTable(cfg, t, call, now), NextLog(cfg, log, call, now), Cutoff(cfg, now))
  {
    var t1, log1 := NextTable(cfg, t, call, now), NextLog(cfg, log, call, now);
    var cutoff := Cutoff(cfg, now);
    forall s ensures SameWindow(t1, log1, s, cutoff) {
      assert SameWindow(t, log, s, cutoff);
      var gone := if call.Clear? then s == call.subject else s.email == call.email;
      assert Stored(t1, s) == if gone then [] else Stored(t, s);
      assert Stored(log1, s) == if gone then [] else Stored(log, s);
    }
  }

  /** What the two forms share after an event at `now`. */
  ghost predicate Refined(cfg: Config, t: Table, log: Table, now: real) {
    Agree(t, log, Cutoff(cfg, now)) && TableSorted(t, now)
  }

  lemma PruneStays(cfg: Config, t: Table, log: Table, s: Subject, now: real)
    requires Refined(cfg, t, log, now)
    ensures Refined(cfg, Prune(t, s, Cutoff(cfg, now)), log, now)
    ensures Recent(t, s, Cutoff(cfg, now)) == InWindow(Stored(log, s), Cutoff(cfg, now))
  {
    PruneRefines(t, log, s, Cutoff(cfg, now), now);
  }

  lemma AppendStays(cfg: Config, p: Table, log: Table, s: Subject, now: real)
    requires Refined(cfg, p, log, now)
    ensures Refined(cfg, Append(p, s, now, Cutoff(cfg, now)), Logged(log, s, now), now)
  {
    AppendRefines(p, log, s, Cutoff(cfg, now), now);
  }

  lemma NextRefines(cfg: Config, t: Table, log: Table, call: Call, now: real)
    requires Refined(cfg, t, log, now)
    ensures NextAnswer(cfg, t, call, now) == LogAnswer(cfg, log, call, now)
    ensures Refined(cfg, NextTable(cfg, t, call, now), NextLog(cfg, log, call, now), now)
  {
    if call.Clear? || call.ClearEmail? {
      ClearKeepsSorted(cfg, t, call, now);
      ClearRefines(t, log, call, cfg, now);
    } else {
      PruneStays(cfg, t, log, call.subject, now);
      AppendStays(cfg, Prune(t, call.subject, Cutoff(cfg, now)), log, call.subject, now);
    }
  }

  lemma ClearKeepsSorted(cfg: Config, t: Table, call: Call, now: real)
    requires (call.Clear? || call.ClearEmail?) && TableSorted(t, now)
    ensures TableSorted(NextTable(cfg, t, call, now), now)
  {
    var u := NextTable(cfg, t, call, now);
    forall s ensures ListSorted(u, s, now) {
      assert ListSorted(t, s, now);
    }
  }

  lemma RefinedLater(cfg: Config, t: Table, log: Table, early: real, late: real)
    requires Refined(cfg, t, log, early) && early <= late
    ensures Refined(cfg, t, log, late)
  {
    AgreeLater(t, log, Cutoff(cfg, early), Cutoff(cfg, late));
    forall s ensures ListSorted(t, s, late) {
      assert ListSorted(t, s, early);
    }
  }

  /** Every run keeps the two forms in step. */
  lemma {:induction false} RunRefines(cfg: Config, run: seq<Event>, now: real)
    requires Monotone(run) && (run != [] ==> run[|run| - 1].at <= now)
    ensures Refined(cfg, Run(cfg, run), RunLog(cfg, run), now)
  {
    if run != [] {
      var front, e := run[..|run| - 1], run[|run| - 1];
      RunRefines(cfg, front, e.at);
      NextRefines(cfg, Run(cfg, front), RunLog(cfg, front), e.call, e.at);
      RefinedLater(cfg, Run(cfg, run), RunLog(cfg, run), e.at, now);
    }
  }

  /** Pruning and sweeping never show: every answer of every run is the plain count's answer. */
  lemma {:induction false} AnswersAreThePlainCount(cfg: Config, run: seq<Event>)
    requires Monotone(run)
    ensures Answers(cfg, run) == LogAnswers(cfg, run)
  {
    if run != [] {
      var front, e := run[..|run| - 1], run[|run| - 1];
      AnswersAreThePlainCount(cfg, front);
      RunRefines(cfg, front, e.at);
      NextRefines(cfg, Run(cfg, front), RunLog(cfg, front), e.call, e.at);
    }
  }

  // ---- the object -------------------------------------------------------------------------

  class FailureList {
    var items: seq<real>

    constructor (items: seq<real>)
      ensures this.items == items
    {
      this.items := items;
    }
  }

  /** The lists are shared by reference: an append after `_prune` is an append to the map. */
  class LoginBackoff {
    const cfg: Config
    var failures: map<Subject, FailureList>

    /** No list belongs to two subjects. */
    ghost predicate Valid()
      reads this
    {
      forall s, u | s in failures && u in failures && failures[s] == failures[u] :: s == u
    }

    ghost function View(): Table
      reads this, failures.Values
    {
      map s | s in failures :: failures[s].items
    }

    constructor (limit: int, window: real)
      ensures Valid() && View() == map[] && cfg == Config(if limit < 1 then 1 else limit, window)
    {
      cfg := Config(if limit < 1 then 1 else limit, window);
      failures := map[];
    }

    /** The comprehension `[ts for ts in failures if ts > cutoff]`. */
    method Younger(items: seq<real>, cutoff: real) returns (kept: seq<real>)
      ensures kept == InWindow(items, cutoff)
    {
      kept := [];
      for i := 0 to |items|
        invariant kept == InWindow(items[..i], cutoff)
      {
        assert items[..i + 1][..i] == items[..i];
        if items[i] > cutoff {
          kept := kept + [items[i]];
        }
      }
      assert items[..|items|] == items;
    }

    /** Returns the map's own list, so that the caller can append to it. */
    method PruneSubject(s: Subject, now: real) returns (list: FailureList)
      requires Valid()
      modifies this`failures
      ensures Valid() && View() == Prune(old(View()), s, Cutoff(cfg, now))
      ensures s in failures && failures[s] == list
      ensures list.items == Recent(old(View()), s, Cutoff(cfg, now))
      ensures forall l | l in failures.Values :: l in old(failures.Values) || fresh(l)
    {
      if s !in failures {
        var empty := new FailureList([]);
        failures := failures[s := empty];
      }
      list := failures[s];
      var cutoff := Cutoff(cfg, now);
      if list.items != [] && list.items[0] <= cutoff {
        var kept := Younger(list.items, cutoff);
        list := new FailureList(kept);
        failures := failures[s := list];
      }
    }

    method DropStale(now: real)
      requires Valid()
      modifies this`failures
      ensures Valid() && View() == Sweep(old(View()), Cutoff(cfg, now))
      ensures failures.Values <= old(failures.Values)
    {
      assert View().Keys == failures.Keys;
      if |failures| <= SWEEP_AT {
        assert |View()| == |failures.Keys|;
        return;
      }
      assert |View()| == |failures.Keys|;
      var cutoff := Cutoff(cfg, now);
      failures := map s | s in failures && !Stale(failures[s].items, cutoff) :: failures[s];
    }

    method AppendNow(s: Subject, list: FailureList, now: real)
      requires Valid() && s in failures && failures[s] == list
      modifies this`failures, list
      ensures Valid() && View() == Append(old(View()), s, now, Cutoff(cfg, now))
      ensures list.items == old(list.items) + [now]
      ensures failures.Values <= old(failures.Values)
    {
      list.items := list.items + [now];
      assert View() == old(View())[s := Stored(old(View()), s) + [now]];
      DropStale(now);
    }

    method Refuse(s: Subject, now: real) returns (retryAfter: Option<int>)
      requires Valid()
      modifies this, failures.Values
      ensures Valid() && View() == NextTable(cfg, old(View()), Refused(s), now)
      ensures NextAnswer(cfg, old(View()), Refused(s), now)
           == match retryAfter { case None => Allowed case Some(seconds) => Blocked(seconds) }
    {
      var list := PruneSubject(s, now);
      if |list.items| < cfg.limit {
        return None;
      }
      AppendNow(s, list, now);
      return Some(RetryAfter(cfg, list.items, now));
    }

    method Record(s: Subject, now: real) returns (count: nat)
      requires Valid()
      modifies this, failures.Values
      ensures Valid() && View() == NextTable(cfg, old(View()), RecordFailure(s), now)
      ensures count == |Recent(old(View()), s, Cutoff(cfg, now)) + [now]|
    {
      var list := PruneSubject(s, now);
      AppendNow(s, list, now);
      count := |list.items|;
    }

    method Count(s: Subject, now: real) returns (count: nat)
      requires Valid()
      modifies this
      ensures Valid() && View() == NextTable(cfg, old(View()), Failures(s), now)
      ensures count == |Recent(old(View()), s, Cutoff(cfg, now))|
    {
      var list := PruneSubject(s, now);
      count := |list.items|;
    }

    method Forget(s: Subject)
      requires Valid()
      modifies this
      ensures Valid() && View() == old(View()) - {s}
    {
      failures := failures - {s};
    }

    /** Owner edit: every subject of one email goes, whatever its address. */
    method ForgetAll(email: string) returns (cleared: nat)
      requires Valid()
      modifies this
      ensures Valid() && View() == ForgetEmail(old(View()), email)
      ensures cleared == |set s | s in old(failures) && s.email == email|
    {
      var doomed := set s | s in failures && s.email == email;
      var left := doomed;
      cleared := 0;
      while left != {}
        invariant left <= doomed && cleared + |left| == |doomed|
        invariant failures == map s | s in old(failures) && (s !in doomed || s in left) :: old(failures)[s]
      {
        var s :| s in left;
        left := left - {s};
        failures := failures - {s};
        cleared := cleared + 1;
      }
    }
  }
}
