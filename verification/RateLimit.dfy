/**
 The token buckets of layawatch/auth/ratelimit.py. `Take` is the registry call as a
 function, `BucketRegistry` the object that runs it in place; the laws compare the lazy
 buckets with the plain history of admitted calls.
 */
module RateLimit {
  import opened Options
  import opened Common

  const SWEEP_AT := 1024
  const SLACK := 0.000000001

  datatype Subject = Subject(name: string, scope: string)

  datatype Bucket = Bucket(tokens: real, updated: real, limit: int, burst: int, window: real)

  type Registry = map<Subject, Bucket>

  datatype Policy = Policy(limit: int, burst: int, window: real)

  ghost predicate ValidPolicy(p: Policy) { p.limit > 0 && p.burst >= 1 && p.window > 0.0 }

  /** Tokens earned in `dt` seconds. */
  function Gain(p: Policy, dt: real): real
    requires p.window > 0.0
  {
    dt * (p.limit as real / p.window)
  }

  function PolicyOf(b: Bucket): Policy { Policy(b.limit, b.burst, b.window) }

  function Refill(b: Bucket, now: real): real
    requires b.window > 0.0
  {
    Smaller(b.burst as real, b.tokens + Gain(PolicyOf(b), now - b.updated))
  }

  /** Whole seconds until one token is there, at least 1. */
  function RetryAfter(p: Policy, tokens: real): int
    requires ValidPolicy(p)
  {
    var seconds := Ceil((1.0 - tokens) / (p.limit as real / p.window));
    if seconds < 1 then 1 else seconds
  }

  ghost predicate Usable(r: Registry) {
    forall s | s in r :: ValidPolicy(PolicyOf(r[s]))
  }

  function Swept(r: Registry): Registry {
    map s | s in r && r[s].tokens < r[s].burst as real - SLACK :: r[s]
  }

  /** The bucket a call sees: a full new one, or the stored one refilled under its old policy. */
  function Touched(r: Registry, s: Subject, p: Policy, now: real): Bucket
    requires Usable(r)
  {
    if s !in r then Bucket(p.burst as real, now, p.limit, p.burst, p.window)
    else Bucket(Refill(r[s], now), now, p.limit, p.burst, p.window)
  }

  datatype Answer = Answer(registry: Registry, allowed: bool)

  /** The registry a call works on. */
  function Shown(r: Registry): Registry { if |r| > SWEEP_AT then Swept(r) else r }

  function Take(r: Registry, s: Subject, p: Policy, now: real): Answer
    requires Usable(r) && ValidPolicy(p)
  {
    var b := Touched(Shown(r), s, p, now);
    if b.tokens >= 1.0 then Answer(Shown(r)[s := b.(tokens := b.tokens - 1.0)], true)
    else Answer(Shown(r)[s := b], false)
  }

  /** The seconds that come with the answer. */
  function Retry(r: Registry, s: Subject, p: Policy, now: real): int
    requires Usable(r) && ValidPolicy(p)
  {
    var b := Touched(Shown(r), s, p, now);
    if b.tokens >= 1.0 then 0 else RetryAfter(p, b.tokens)
  }

  class BucketRegistry {
    var buckets: Registry

    constructor ()
      ensures buckets == map[]
    {
      buckets := map[];
    }

    /** `consume`; a limit of 0 or less is unlimited and tracks nothing. */
    method Consume(s: Subject, limit: int, burst: Option<int>, window: real, now: real)
        returns (allowed: bool, retry: int)
      requires Usable(buckets) && window > 0.0
      modifies this
      ensures Usable(buckets)
      ensures limit <= 0 ==> allowed && retry == 0 && buckets == old(buckets)
      ensures limit > 0 ==>
                var wanted := if burst.Some? then burst.value else limit;
                var p := Policy(limit, if wanted < 1 then 1 else wanted, window);
                && Answer(buckets, allowed) == Take(old(buckets), s, p, now)
                && retry == Retry(old(buckets), s, p, now)
    {
      if limit <= 0 {
        return true, 0;
      }
      var capacity := if burst.Some? then burst.value else limit;
      if capacity < 1 {
        capacity := 1;
      }
      if |buckets| > SWEEP_AT {
        Sweep();
      }
      var bucket: Bucket;
      if s !in buckets {
        bucket := Bucket(capacity as real, now, limit, capacity, window);
      } else {
        bucket := buckets[s].(tokens := Refill(buckets[s], now));
        bucket := bucket.(updated := now, limit := limit, burst := capacity, window := window);
      }
      if bucket.tokens >= 1.0 {
        buckets := buckets[s := bucket.(tokens := bucket.tokens - 1.0)];
        return true, 0;
      }
      buckets := buckets[s := bucket];
      return false, RetryAfter(PolicyOf(bucket), bucket.tokens);
    }

    method Sweep()
      modifies this
      ensures buckets == Swept(old(buckets))
    {
      var left := buckets.Keys;
      while left != {}
        invariant left <= old(buckets).Keys
        invariant buckets == map s | s in old(buckets)
          && (s in left || old(buckets)[s].tokens < old(buckets)[s].burst as real - SLACK)
          :: old(buckets)[s]
      {
        var s :| s in left;
        left := left - {s};
        if buckets[s].tokens >= buckets[s].burst as real - SLACK {
          buckets := buckets - {s};
        }
      }
    }

    /** `reset`: a bucket stays iff something that was asked for is not its own. */
    method Reset(name: Option<string>, scope: Option<string>, all: bool) returns (cleared: nat)
      modifies this
      ensures forall s :: s in buckets <==>
                s in old(buckets) && !all
                && ((name.Some? && s.name != name.value) || (scope.Some? && s.scope != scope.value))
      ensures buckets == map s | s in old(buckets) && !ResetHits(s, name, scope, all) :: old(buckets)[s]
      ensures cleared + |buckets| == |old(buckets)|
    {
      var gone := set s | s in buckets && ResetHits(s, name, scope, all);
      cleared := |gone|;
      RemovedSize(buckets, gone);
      buckets := buckets - gone;
    }
  }

  predicate ResetHits(s: Subject, name: Option<string>, scope: Option<string>, all: bool) {
    all || ((name.None? || name.value == s.name) && (scope.None? || scope.value == s.scope))
  }

  // ---- one bucket against its admitted calls ----------------------------------------------

  lemma GainAdds(p: Policy, a: real, b: real)
    requires ValidPolicy(p)
    ensures Gain(p, a + b) == Gain(p, a) + Gain(p, b)
    ensures a >= 0.0 ==> Gain(p, a) >= 0.0
  {
    var rate := p.limit as real / p.window;
    assert rate > 0.0;
    assert (a + b) * rate == a * rate + b * rate;
  }

  ghost predicate Ascending(ts: seq<real>) {
    forall i, j | 0 <= i < j < |ts| :: ts[i] <= ts[j]
  }

  /** Admitted calls come in order and none is later than `now`. */
  ghost predicate Past(admitted: seq<real>, now: real) {
    Ascending(admitted) && (admitted != [] ==> admitted[|admitted| - 1] <= now)
  }

  /** What a bucket that only remembers admitted calls would hold at `now`. */
  function Level(p: Policy, admitted: seq<real>, now: real): real
    requires p.window > 0.0
  {
    if admitted == [] then p.burst as real
    else
      var a := admitted[|admitted| - 1];
      Smaller(p.burst as real, Level(p, admitted[..|admitted| - 1], a) - 1.0 + Gain(p, now - a))
  }

  /** Admitted calls at or after `s`. */
  function CountSince(admitted: seq<real>, s: real): nat {
    if admitted == [] then 0
    else
      CountSince(admitted[..|admitted| - 1], s)
      + (if admitted[|admitted| - 1] >= s then 1 else 0)
  }

  /** Room left in the window [s, now] of the envelope burst + rate * length. */
  function Room(p: Policy, admitted: seq<real>, s: real, now: real): real
    requires p.window > 0.0
  {
    p.burst as real - CountSince(admitted, s) as real + Gain(p, now - s)
  }

  lemma {:induction false} CountNone(admitted: seq<real>, now: real, s: real)
    requires Past(admitted, now) && now < s
    ensures CountSince(admitted, s) == 0
  {
    if admitted != [] {
      CountNone(admitted[..|admitted| - 1], now, s);
    }
  }

  lemma {:induction false} LevelBelowRoom(p: Policy, admitted: seq<real>, now: real, s: real)
    requires ValidPolicy(p) && Past(admitted, now) && s <= now
    ensures Level(p, admitted, now) <= Room(p, admitted, s, now)
  {
    GainAdds(p, now - s, 0.0);
    if admitted != [] {
      var front, a := admitted[..|admitted| - 1], admitted[|admitted| - 1];
      if s <= a {
        LevelBelowRoom(p, front, a, s);
        GainAdds(p, a - s, now - a);
      } else {
        CountNone(admitted, a, s);
      }
    }
  }

  lemma {:induction false} LevelMeetsRoom(p: Policy, admitted: seq<real>, now: real) returns (s: real)
    requires ValidPolicy(p) && Past(admitted, now)
    ensures s <= now && Level(p, admitted, now) == Room(p, admitted, s, now)
  {
    s := now;
    GainAdds(p, 0.0, 0.0);
    if admitted != [] {
      var front, a := admitted[..|admitted| - 1], admitted[|admitted| - 1];
      var earlier := Level(p, front, a) - 1.0 + Gain(p, now - a);
      if earlier < p.burst as real || a == now {
        LevelAtMostBurst(p, front, a);
        s := LevelMeetsRoom(p, front, a);
        GainAdds(p, a - s, now - a);
      } else {
        CountNone(admitted, a, now);
      }
    }
  }

  /** Would a call at `now` find a token? */
  predicate HasToken(p: Policy, admitted: seq<real>, now: real)
    requires p.window > 0.0
  {
    Level(p, admitted, now) >= 1.0
  }

  lemma LevelAtMostBurst(p: Policy, admitted: seq<real>, now: real)
    requires p.window > 0.0
    ensures Level(p, admitted, now) <= p.burst as real
  {
  }

  /** One more call keeps the window [s, now] within burst + (limit / window) * length. */
  predicate FitsWindow(p: Policy, admitted: seq<real>, s: real, now: real)
    requires p.window > 0.0
  {
    (CountSince(admitted, s) + 1) as real <= p.burst as real + (now - s) * (p.limit as real / p.window)
  }

  ghost predicate FitsEnvelope(p: Policy, admitted: seq<real>, now: real)
    requires p.window > 0.0
  {
    forall s | s <= now :: FitsWindow(p, admitted, s, now)
  }

  /** The bucket is the exact greedy envelope: a token is there iff one more call fits. */
  lemma Envelope(p: Policy, admitted: seq<real>, now: real)
    requires ValidPolicy(p) && Past(admitted, now)
    ensures HasToken(p, admitted, now) <==> FitsEnvelope(p, admitted, now)
  {
    if Level(p, admitted, now) >= 1.0 {
      forall s | s <= now ensures FitsWindow(p, admitted, s, now) {
        LevelBelowRoom(p, admitted, now, s);
      }
    } else {
      var s := LevelMeetsRoom(p, admitted, now);
      assert !FitsWindow(p, admitted, s, now);
    }
  }

  /** Stored tokens stand for the admitted calls: refilling gives the level at any later time. */
  ghost predicate Tracks(b: Bucket, p: Policy, admitted: seq<real>, now: real) {
    && PolicyOf(b) == p && ValidPolicy(p) && b.updated <= now && Past(admitted, b.updated)
    && b.tokens == Level(p, admitted, b.updated)
    && (b.tokens <= p.burst as real - 1.0 || b.tokens < 1.0)
  }

  lemma LevelLater(p: Policy, admitted: seq<real>, t: real, now: real)
    requires ValidPolicy(p) && Past(admitted, t) && t <= now
    ensures Smaller(p.burst as real, Level(p, admitted, t) + Gain(p, now - t)) == Level(p, admitted, now)
  {
    GainAdds(p, now - t, 0.0);
    if admitted != [] {
      GainAdds(p, t - admitted[|admitted| - 1], now - t);
    }
  }

  // ---- runs under fixed policies ----------------------------------------------------------

  datatype Call = Call(subject: Subject, now: real)

  type Policies = Subject -> Policy

  ghost predicate ValidPolicies(pol: Policies) { forall s :: ValidPolicy(pol(s)) }

  /** The clock that the registry reads under its lock does not run backwards. */
  ghost predicate InTime(calls: seq<Call>) {
    forall i, j | 0 <= i < j < |calls| :: calls[i].now <= calls[j].now
  }

  /** Registry and admitted times after a run. */
  datatype Run = Run(registry: Registry, admitted: map<Subject, seq<real>>)

  function AdmittedOf(run: Run, s: Subject): seq<real> {
    if s in run.admitted then run.admitted[s] else []
  }

  function Serve(run: Run, pol: Policies, c: Call): (after: Run)
    requires Usable(run.registry) && ValidPolicy(pol(c.subject))
    ensures Usable(after.registry)
  {
    var a := Take(run.registry, c.subject, pol(c.subject), c.now);
    Record(run, c, a)
  }

  function Record(run: Run, c: Call, a: Answer): Run {
    Run(a.registry,
        if a.allowed then run.admitted[c.subject := AdmittedOf(run, c.subject) + [c.now]]
        else run.admitted)
  }

  function Callers(calls: seq<Call>): set<Subject> { set c | c in calls :: c.subject }

  function RunOf(pol: Policies, calls: seq<Call>): (run: Run)
    requires ValidPolicies(pol)
    ensures Usable(run.registry)
  {
    if calls == [] then Run(map[], map[])
    else Serve(RunOf(pol, calls[..|calls| - 1]), pol, calls[|calls| - 1])
  }

  /** A subject without a bucket is one whose bucket would be full. */
  ghost predicate Full(p: Policy, admitted: seq<real>, now: real) {
    ValidPolicy(p) && Past(admitted, now) && Level(p, admitted, now) == p.burst as real
  }

  ghost predicate Stands(r: Registry, s: Subject, p: Policy, admitted: seq<real>, now: real) {
    if s in r then Tracks(r[s], p, admitted, now) else Full(p, admitted, now)
  }

  /** After serving calls up to `now` every subject's bucket stands for its admitted calls. */
  ghost predicate RunInv(run: Run, pol: Policies, now: real) {
    forall s :: Stands(run.registry, s, pol(s), AdmittedOf(run, s), now)
  }

  /** What the sweep takes for full is full, were it refilled now. */
  ghost predicate HonestSweep(r: Registry, now: real)
    requires Usable(r)
  {
    |r| > SWEEP_AT ==>
      forall s | s in r && r[s].tokens >= r[s].burst as real - SLACK :: Refill(r[s], now) >= r[s].burst as real
  }

  /** The sweep of a call at `now`, after the given run. */
  ghost predicate HonestNext(pol: Policies, calls: seq<Call>, now: real)
    requires ValidPolicies(pol)
  {
    HonestSweep(RunOf(pol, calls).registry, now)
  }

  ghost predicate HonestSweeps(pol: Policies, calls: seq<Call>)
    requires ValidPolicies(pol)
  {
    calls == []
    || (HonestSweeps(pol, calls[..|calls| - 1])
        && HonestNext(pol, calls[..|calls| - 1], calls[|calls| - 1].now))
  }

  lemma FullLater(p: Policy, admitted: seq<real>, before: real, now: real)
    requires Full(p, admitted, before) && before <= now
    ensures Full(p, admitted, now)
  {
    LevelLater(p, admitted, before, now);
    GainAdds(p, now - before, 0.0);
  }

  lemma TracksLater(b: Bucket, p: Policy, admitted: seq<real>, before: real, now: real)
    requires Tracks(b, p, admitted, before) && before <= now
    ensures Tracks(b, p, admitted, now)
  {
  }

  /** An honest sweep leaves every bucket standing for its subject. */
  lemma SweptStillStands(r: Registry, s: Subject, p: Policy, admitted: seq<real>, before: real, now: real)
    requires Usable(r) && Stands(r, s, p, admitted, before) && before <= now && HonestSweep(r, now)
    ensures Stands(Shown(r), s, p, admitted, now)
  {
    if s !in r {
      FullLater(p, admitted, before, now);
    } else {
      LevelLater(p, admitted, r[s].updated, now);
      LevelAtMostBurst(p, admitted, now);
      TracksLater(r[s], p, admitted, before, now);
    }
  }

  lemma TouchedIsLevel(r: Registry, s: Subject, p: Policy, admitted: seq<real>, now: real)
    requires Usable(r) && ValidPolicy(p) && Stands(r, s, p, admitted, now)
    ensures Touched(r, s, p, now) == Bucket(Level(p, admitted, now), now, p.limit, p.burst, p.window)
    ensures Past(admitted, now) && Level(p, admitted, now) <= p.burst as real
  {
    if s in r {
      LevelLater(p, admitted, r[s].updated, now);
    }
    LevelAtMostBurst(p, admitted, now);
  }

  lemma PastSnoc(admitted: seq<real>, now: real)
    requires Past(admitted, now)
    ensures Past(admitted + [now], now)
  {
  }

  lemma LevelSnoc(p: Policy, admitted: seq<real>, now: real)
    requires ValidPolicy(p) && Past(admitted, now)
    ensures Level(p, admitted + [now], now) == Level(p, admitted, now) - 1.0
  {
    GainAdds(p, 0.0, 0.0);
    LevelAtMostBurst(p, admitted, now);
    assert (admitted + [now])[..|admitted|] == admitted;
  }

  lemma TakeOfLevel(r: Registry, s: Subject, p: Policy, level: real, now: real)
    requires Usable(r) && ValidPolicy(p)
    requires Touched(Shown(r), s, p, now) == Bucket(level, now, p.limit, p.burst, p.window)
    ensures Take(r, s, p, now).allowed == (level >= 1.0)
    ensures Take(r, s, p, now).registry
         == Shown(r)[s := Bucket(if level >= 1.0 then level - 1.0 else level, now, p.limit, p.burst, p.window)]
  {
  }

  lemma TakeFromOne(r: Registry, s: Subject, p: Policy, admitted: seq<real>, now: real)
    requires Usable(r) && ValidPolicy(p) && Stands(Shown(r), s, p, admitted, now)
    ensures var a := Take(r, s, p, now);
            && a.allowed == HasToken(p, admitted, now)
            && a.registry == Shown(r)[s := a.registry[s]]
            && Tracks(a.registry[s], p, if a.allowed then admitted + [now] else admitted, now)
  {
    TouchedIsLevel(Shown(r), s, p, admitted, now);
    TakeOfLevel(r, s, p, Level(p, admitted, now), now);
    TakenTracks(p, admitted, now);
  }

  lemma TakenTracks(p: Policy, admitted: seq<real>, now: real)
    requires ValidPolicy(p) && Past(admitted, now)
    ensures HasToken(p, admitted, now) ==>
              Tracks(Bucket(Level(p, admitted, now) - 1.0, now, p.limit, p.burst, p.window), p, admitted + [now], now)
    ensures !HasToken(p, admitted, now) ==>
              Tracks(Bucket(Level(p, admitted, now), now, p.limit, p.burst, p.window), p, admitted, now)
  {
    LevelAtMostBurst(p, admitted, now);
    PastSnoc(admitted, now);
    LevelSnoc(p, admitted, now);
  }

  lemma RecordKeepsOne(run: Run, pol: Policies, c: Call, a: Answer, s: Subject)
    requires c.subject in a.registry && a.registry == Shown(run.registry)[c.subject := a.registry[c.subject]]
    requires Stands(Shown(run.registry), s, pol(s), AdmittedOf(run, s), c.now)
    requires var old_ := AdmittedOf(run, c.subject);
             Tracks(a.registry[c.subject], pol(c.subject), if a.allowed then old_ + [c.now] else old_, c.now)
    ensures Stands(a.registry, s, pol(s), AdmittedOf(Record(run, c, a), s), c.now)
  {
  }

  lemma ServeKeepsRunInv(run: Run, pol: Policies, before: real, c: Call)
    requires ValidPolicies(pol) && RunInv(run, pol, before) && before <= c.now
    requires Usable(run.registry) && HonestSweep(run.registry, c.now)
    ensures RunInv(Serve(run, pol, c), pol, c.now)
  {
    var a := Take(run.registry, c.subject, pol(c.subject), c.now);
    AllStillStand(run, pol, before, c.now);
    TakeFromOne(run.registry, c.subject, pol(c.subject), AdmittedOf(run, c.subject), c.now);
    forall s ensures Stands(a.registry, s, pol(s), AdmittedOf(Record(run, c, a), s), c.now) {
      RecordKeepsOne(run, pol, c, a, s);
    }
  }

  lemma AllStillStand(run: Run, pol: Policies, before: real, now: real)
    requires RunInv(run, pol, before) && before <= now
    requires Usable(run.registry) && HonestSweep(run.registry, now)
    ensures forall s :: Stands(Shown(run.registry), s, pol(s), AdmittedOf(run, s), now)
  {
    forall s ensures Stands(Shown(run.registry), s, pol(s), AdmittedOf(run, s), now) {
      SweptStillStands(run.registry, s, pol(s), AdmittedOf(run, s), before, now);
    }
  }

  lemma HonestPrefix(pol: Policies, front: seq<Call>, c: Call)
    requires ValidPolicies(pol)
    ensures HonestSweeps(pol, front + [c]) <==> HonestSweeps(pol, front) && HonestNext(pol, front, c.now)
  {
    assert (front + [c])[..|front|] == front;
  }

  lemma RunInvStep(pol: Policies, front: seq<Call>, c: Call)
    requires ValidPolicies(pol) && RunInv(RunOf(pol, front), pol, c.now)
    requires HonestNext(pol, front, c.now)
    ensures RunInv(RunOf(pol, front + [c]), pol, c.now)
  {
    assert (front + [c])[..|front|] == front;
    ServeKeepsRunInv(RunOf(pol, front), pol, c.now, c);
  }

  ghost predicate Kept(pol: Policies, calls: seq<Call>, now: real)
    requires ValidPolicies(pol)
  {
    RunInv(RunOf(pol, calls), pol, now)
  }

  lemma KeptExtends(pol: Policies, front: seq<Call>, c: Call, now: real)
    requires ValidPolicies(pol) && Kept(pol, front, c.now)
    requires HonestNext(pol, front, c.now) && c.now <= now
    ensures Kept(pol, front + [c], now)
  {
    RunInvStep(pol, front, c);
    RunInvLater(RunOf(pol, front + [c]), pol, c.now, now);
  }

  lemma {:induction false} RunInvAlways(pol: Policies, calls: seq<Call>, now: real)
    requires ValidPolicies(pol) && InTime(calls) && HonestSweeps(pol, calls)
    requires calls != [] ==> calls[|calls| - 1].now <= now
    ensures Kept(pol, calls, now)
  {
    if calls != [] {
      var front, c := calls[..|calls| - 1], calls[|calls| - 1];
      assert calls == front + [c];
      HonestPrefix(pol, front, c);
      InTimePrefix(front, c);
      RunInvAlways(pol, front, c.now);
      KeptExtends(pol, front, c, now);
    }
  }

  lemma RunInvLater(run: Run, pol: Policies, before: real, now: real)
    requires RunInv(run, pol, before) && before <= now
    ensures RunInv(run, pol, now)
  {
    forall s ensures Stands(run.registry, s, pol(s), AdmittedOf(run, s), now) {
      assert Stands(run.registry, s, pol(s), AdmittedOf(run, s), before);
      if s in run.registry {
        TracksLater(run.registry[s], pol(s), AdmittedOf(run, s), before, now);
      } else {
        FullLater(pol(s), AdmittedOf(run, s), before, now);
      }
    }
  }

  /** Is the call admitted after the given run? */
  predicate Allows(pol: Policies, calls: seq<Call>, c: Call)
    requires ValidPolicies(pol)
  {
    Take(RunOf(pol, calls).registry, c.subject, pol(c.subject), c.now).allowed
  }

  /** The admitted times of `s` in a run. */
  function History(pol: Policies, calls: seq<Call>, s: Subject): seq<real>
    requires ValidPolicies(pol)
  {
    AdmittedOf(RunOf(pol, calls), s)
  }

  /**
   Every decision of every run whose sweeps are honest, over any number of subjects: the call is
   admitted iff admitting it keeps each window ending now within the envelope of its own subject.
   */
  lemma DecisionIsEnvelope(pol: Policies, calls: seq<Call>, c: Call)
    requires ValidPolicies(pol) && InTime(calls + [c]) && HonestSweeps(pol, calls + [c])
    ensures Allows(pol, calls, c)
       <==> FitsEnvelope(pol(c.subject), History(pol, calls, c.subject), c.now)
  {
    DecisionIsLevel(pol, calls, c);
    Envelope(pol(c.subject), History(pol, calls, c.subject), c.now);
  }

  lemma DecisionIsLevel(pol: Policies, calls: seq<Call>, c: Call)
    requires ValidPolicies(pol) && InTime(calls + [c]) && HonestSweeps(pol, calls + [c])
    ensures var p, past := pol(c.subject), History(pol, calls, c.subject);
            && Past(past, c.now)
            && Allows(pol, calls, c) == HasToken(p, past, c.now)
  {
    var run := RunOf(pol, calls);
    InTimePrefix(calls, c);
    HonestPrefix(pol, calls, c);
    RunInvAlways(pol, calls, c.now);
    AllStillStand(run, pol, c.now, c.now);
    TakeFromOne(run.registry, c.subject, pol(c.subject), AdmittedOf(run, c.subject), c.now);
  }

  /** Whole seconds until the level reaches one token. */
  function WaitOf(p: Policy, admitted: seq<real>, now: real): int
    requires ValidPolicy(p)
  {
    RetryAfter(p, Level(p, admitted, now))
  }

  lemma RetryIsWait(r: Registry, s: Subject, p: Policy, admitted: seq<real>, now: real)
    requires Usable(r) && ValidPolicy(p) && Stands(Shown(r), s, p, admitted, now)
    ensures HasToken(p, admitted, now) || Retry(r, s, p, now) == WaitOf(p, admitted, now)
  {
    TouchedIsLevel(Shown(r), s, p, admitted, now);
  }

  /** The retry that comes with a refusal is that of the subject's own admitted calls. */
  lemma RetryIsOfLevel(pol: Policies, calls: seq<Call>, c: Call)
    requires ValidPolicies(pol) && InTime(calls + [c]) && HonestSweeps(pol, calls + [c])
    ensures Allows(pol, calls, c)
            || Retry(RunOf(pol, calls).registry, c.subject, pol(c.subject), c.now)
               == WaitOf(pol(c.subject), History(pol, calls, c.subject), c.now)
  {
    var run := RunOf(pol, calls);
    InTimePrefix(calls, c);
    HonestPrefix(pol, calls, c);
    RunInvAlways(pol, calls, c.now);
    AllStillStand(run, pol, c.now, c.now);
    DecisionIsLevel(pol, calls, c);
    RetryIsWait(run.registry, c.subject, pol(c.subject), AdmittedOf(run, c.subject), c.now);
  }

  /** A refused call leaves no trace in any history, so it can be deleted from the run. */
  lemma {:induction false} RefusedCallsAreInvisible(pol: Policies, before: seq<Call>, refused: Call,
                                                    after: seq<Call>, s: Subject)
    requires ValidPolicies(pol) && InTime(before + [refused] + after)
    requires HonestSweeps(pol, before + [refused] + after) && HonestSweeps(pol, before + after)
    ensures !Allows(pol, before, refused) ==>
            History(pol, before + after, s) == History(pol, before + [refused] + after, s)
  {
    if Allows(pol, before, refused) {
    } else if after == [] {
      assert before + after == before && before + [refused] + after == before + [refused];
      HistoryStep(pol, before, refused, s);
    } else {
      var mid, c := after[..|after| - 1], after[|after| - 1];
      var full, less := before + [refused] + mid, before + mid;
      LastCall(before, refused, after);
      InTimeWithout(before, refused, after);
      InTimePrefix(full, c);
      HonestPrefix(pol, full, c);
      HonestPrefix(pol, less, c);
      RefusedCallsAreInvisible(pol, before, refused, mid, s);
      RefusedCallsAreInvisible(pol, before, refused, mid, c.subject);
      ExtendSame(pol, full, less, c, s);
    }
  }

  lemma LastCall(before: seq<Call>, refused: Call, after: seq<Call>)
    requires after != []
    ensures before + [refused] + after == (before + [refused] + after[..|after| - 1]) + [after[|after| - 1]]
    ensures before + after == (before + after[..|after| - 1]) + [after[|after| - 1]]
  {
  }

  /** Runs with the same histories still have the same histories after one more call. */
  lemma ExtendSame(pol: Policies, full: seq<Call>, less: seq<Call>, c: Call, s: Subject)
    requires ValidPolicies(pol) && InTime(full + [c]) && InTime(less + [c])
    requires HonestSweeps(pol, full + [c]) && HonestSweeps(pol, less + [c])
    requires History(pol, full, c.subject) == History(pol, less, c.subject)
    requires History(pol, full, s) == History(pol, less, s)
    ensures History(pol, full + [c], s) == History(pol, less + [c], s)
  {
    DecisionIsLevel(pol, full, c);
    DecisionIsLevel(pol, less, c);
    HistoryStep(pol, full, c, s);
    HistoryStep(pol, less, c, s);
  }

  lemma InTimePrefix(calls: seq<Call>, c: Call)
    requires InTime(calls + [c])
    ensures InTime(calls) && (calls != [] ==> calls[|calls| - 1].now <= c.now)
  {
    assert forall i | 0 <= i < |calls| :: (calls + [c])[i] == calls[i];
    assert (calls + [c])[|calls|] == c;
  }

  lemma InTimeWithout(before: seq<Call>, refused: Call, after: seq<Call>)
    requires InTime(before + [refused] + after)
    ensures InTime(before + after)
  {
    var full, less := before + [refused] + after, before + after;
    assert forall i | 0 <= i < |less| :: less[i] == full[if i < |before| then i else i + 1];
  }

  lemma HistoryStep(pol: Policies, calls: seq<Call>, c: Call, s: Subject)
    requires ValidPolicies(pol)
    ensures History(pol, calls + [c], s)
         == if s == c.subject && Allows(pol, calls, c) then History(pol, calls, s) + [c.now]
            else History(pol, calls, s)
  {
    assert (calls + [c])[..|calls|] == calls;
  }

  function After(now: real, n: nat): real { now + n as real }

  lemma LevelAfterWait(p: Policy, admitted: seq<real>, now: real, n: nat)
    requires ValidPolicy(p) && Past(admitted, now) && !HasToken(p, admitted, now)
    ensures HasToken(p, admitted, After(now, n)) <==> n >= WaitOf(p, admitted, now)
  {
    var level, rate := Level(p, admitted, now), p.limit as real / p.window;
    LevelLater(p, admitted, now, now + n as real);
    CeilIsLeast((1.0 - level) / rate, n);
    Cross(1.0 - level, rate, n as real);
  }

  /** Calls of other subjects leave a history as it is. */
  lemma {:induction false} HistorySpared(pol: Policies, calls: seq<Call>, others: seq<Call>, s: Subject)
    requires ValidPolicies(pol) && forall i | 0 <= i < |others| :: others[i].subject != s
    ensures History(pol, calls + others, s) == History(pol, calls, s)
  {
    if others == [] {
      assert calls + others == calls;
    } else {
      var front, c := others[..|others| - 1], others[|others| - 1];
      HistorySpared(pol, calls, front, s);
      assert calls + others == (calls + front) + [c];
      HistoryStep(pol, calls + front, c, s);
    }
  }

  lemma {:induction false} HonestBefore(pol: Policies, calls: seq<Call>, rest: seq<Call>)
    requires ValidPolicies(pol) && HonestSweeps(pol, calls + rest)
    ensures HonestSweeps(pol, calls)
  {
    if rest == [] {
      assert calls + rest == calls;
    } else {
      var front, c := rest[..|rest| - 1], rest[|rest| - 1];
      assert calls + rest == (calls + front) + [c];
      HonestPrefix(pol, calls + front, c);
      HonestBefore(pol, calls, front);
    }
  }

  lemma InTimeBefore(calls: seq<Call>, rest: seq<Call>)
    requires InTime(calls + rest)
    ensures InTime(calls)
  {
    assert forall i | 0 <= i < |calls| :: (calls + rest)[i] == calls[i];
  }

  /** The call `c`, then calls of others, then the same subject again `n` seconds after `c`. */
  function Again(calls: seq<Call>, c: Call, others: seq<Call>, n: nat): seq<Call> {
    calls + [c] + others + [Call(c.subject, After(c.now, n))]
  }

  /**
   The returned retry is the least number of whole seconds: in any honest run, whatever others
   call in between, the subject of a refused call is admitted `n` seconds later iff n >= retry.
   */
  lemma RetryIsLeast(pol: Policies, calls: seq<Call>, c: Call, others: seq<Call>, n: nat)
    requires ValidPolicies(pol) && InTime(Again(calls, c, others, n))
    requires HonestSweeps(pol, Again(calls, c, others, n)) && !Allows(pol, calls, c)
    requires forall i | 0 <= i < |others| :: others[i].subject != c.subject
    ensures Allows(pol, calls + [c] + others, Call(c.subject, After(c.now, n)))
       <==> n >= Retry(RunOf(pol, calls).registry, c.subject, pol(c.subject), c.now)
  {
    FirstPart(pol, calls, c, others, n);
    AgainIsLevel(pol, calls, c, others, n);
    DecisionIsLevel(pol, calls, c);
    RetryIsOfLevel(pol, calls, c);
    LevelAfterWait(pol(c.subject), History(pol, calls, c.subject), c.now, n);
  }

  lemma FirstPart(pol: Policies, calls: seq<Call>, c: Call, others: seq<Call>, n: nat)
    requires ValidPolicies(pol) && InTime(Again(calls, c, others, n))
    requires HonestSweeps(pol, Again(calls, c, others, n))
    ensures InTime(calls + [c]) && HonestSweeps(pol, calls + [c])
  {
    var rest := others + [Call(c.subject, After(c.now, n))];
    assert Again(calls, c, others, n) == (calls + [c]) + rest;
    InTimeBefore(calls + [c], rest);
    HonestBefore(pol, calls + [c], rest);
  }

  lemma AgainIsLevel(pol: Policies, calls: seq<Call>, c: Call, others: seq<Call>, n: nat)
    requires ValidPolicies(pol) && InTime(Again(calls, c, others, n))
    requires HonestSweeps(pol, Again(calls, c, others, n)) && !Allows(pol, calls, c)
    requires forall i | 0 <= i < |others| :: others[i].subject != c.subject
    ensures Allows(pol, calls + [c] + others, Call(c.subject, After(c.now, n)))
         == HasToken(pol(c.subject), History(pol, calls, c.subject), After(c.now, n))
  {
    SameHistory(pol, calls, c, others);
    DecisionIsLevel(pol, calls + [c] + others, Call(c.subject, After(c.now, n)));
  }

  lemma SameHistory(pol: Policies, calls: seq<Call>, c: Call, others: seq<Call>)
    requires ValidPolicies(pol) && !Allows(pol, calls, c)
    requires forall i | 0 <= i < |others| :: others[i].subject != c.subject
    ensures History(pol, calls + [c] + others, c.subject) == History(pol, calls, c.subject)
  {
    HistoryStep(pol, calls, c, c.subject);
    HistorySpared(pol, calls + [c], others, c.subject);
  }

  lemma CeilIsLeast(x: real, n: int)
    ensures n >= Ceil(x) <==> n as real >= x
  {
  }

  lemma Cross(short: real, rate: real, n: real)
    requires rate > 0.0 && short > 0.0
    ensures n * rate >= short <==> n >= short / rate
    ensures short / rate > 0.0
  {
    assert short / rate * rate == short;
  }
}
