/**
 What the sweep of layawatch/auth/ratelimit.py does and does not do: which buckets it drops,
 when decisions survive it, and how far the map can grow.
 */
module RateLimitSweep {
  import opened Options
  import opened Common
  import opened RateLimit

  /**
   The documentation says a sweep drops fully refilled buckets. It looks at stored tokens, and
   under a fixed policy it drops a bucket exactly in one corner: capacity 1 and a refused call
   within the slack of a whole token.
   */
  lemma SweepDropsIff(b: Bucket, p: Policy, admitted: seq<real>, now: real, s: Subject, r: Registry)
    requires Tracks(b, p, admitted, now) && s in r && r[s] == b
    ensures s !in Swept(r) <==> p.burst == 1 && b.tokens >= 0.999999999
  {
  }

  /**
   Exactly when the envelope law goes on holding: after a run with honest sweeps, the decisions
   at `now` are right for every subject iff the sweep at `now` is honest too.
   */
  lemma DecisionsAreRightIff(pol: Policies, calls: seq<Call>, now: real)
    requires ValidPolicies(pol) && InTime(calls) && HonestSweeps(pol, calls)
    requires calls != [] ==> calls[|calls| - 1].now <= now
    ensures (forall s :: Allows(pol, calls, Call(s, now)) == HasToken(pol(s), History(pol, calls, s), now))
       <==> HonestNext(pol, calls, now)
  {
    var run := RunOf(pol, calls);
    RunInvAlways(pol, calls, now);
    if HonestSweep(run.registry, now) {
      AllStillStand(run, pol, now, now);
      forall s ensures Allows(pol, calls, Call(s, now)) == HasToken(pol(s), History(pol, calls, s), now) {
        TakeFromOne(run.registry, s, pol(s), AdmittedOf(run, s), now);
      }
    } else {
      var s :| s in run.registry && run.registry[s].tokens >= run.registry[s].burst as real - SLACK
               && Refill(run.registry[s], now) < run.registry[s].burst as real;
      assert Stands(run.registry, s, pol(s), AdmittedOf(run, s), now);
      SweptTooEarly(run.registry, s, pol(s), AdmittedOf(run, s), now);
      assert Allows(pol, calls, Call(s, now)) != HasToken(pol(s), History(pol, calls, s), now);
    }
  }

  lemma SweptTooEarly(r: Registry, s: Subject, p: Policy, admitted: seq<real>, now: real)
    requires Usable(r) && s in r && |r| > SWEEP_AT && Tracks(r[s], p, admitted, now)
    requires r[s].tokens >= r[s].burst as real - SLACK && Refill(r[s], now) < r[s].burst as real
    ensures Take(r, s, p, now).allowed && !HasToken(p, admitted, now)
  {
    LevelLater(p, admitted, r[s].updated, now);
  }

  /** Runs of at most 1024 calls, and runs in which every capacity is at least 2, are honest. */
  lemma {:induction false} OrdinaryRunsAreHonest(pol: Policies, calls: seq<Call>)
    requires ValidPolicies(pol) && InTime(calls)
    requires |calls| <= 1024 || forall s :: pol(s).burst >= 2
    ensures HonestSweeps(pol, calls) && RunOf(pol, calls).registry.Keys <= Callers(calls)
    ensures (forall s :: pol(s).burst >= 2) ==> RunOf(pol, calls).registry.Keys == Callers(calls)
  {
    if calls != [] {
      var front, c := calls[..|calls| - 1], calls[|calls| - 1];
      assert calls == front + [c];
      InTimePrefix(front, c);
      OrdinaryRunsAreHonest(pol, front);
      FewCallers(front);
      SubsetSize(RunOf(pol, front).registry.Keys, Callers(front));
      RunInvAlways(pol, front, c.now);
      OrdinarySweep(pol, RunOf(pol, front), c.now);
      HonestPrefix(pol, front, c);
      KeysStep(pol, front, c);
      CallersSnoc(front, c);
    }
  }

  /** There is no sweep yet, or it finds nothing to drop. */
  lemma OrdinarySweep(pol: Policies, run: Run, now: real)
    requires Usable(run.registry) && RunInv(run, pol, now)
    requires |run.registry| <= SWEEP_AT || forall s :: pol(s).burst >= 2
    ensures Shown(run.registry) == run.registry && HonestSweep(run.registry, now)
  {
    forall s | s in run.registry && |run.registry| > SWEEP_AT
      ensures run.registry[s].tokens < run.registry[s].burst as real - SLACK
    {
      assert Stands(run.registry, s, pol(s), AdmittedOf(run, s), now);
    }
  }

  lemma TakeKeys(r: Registry, s: Subject, p: Policy, now: real)
    requires Usable(r) && ValidPolicy(p)
    ensures Take(r, s, p, now).registry.Keys == Shown(r).Keys + {s}
  {
  }

  lemma KeysStep(pol: Policies, front: seq<Call>, c: Call)
    requires ValidPolicies(pol) && Shown(RunOf(pol, front).registry) == RunOf(pol, front).registry
    ensures RunOf(pol, front + [c]).registry.Keys == RunOf(pol, front).registry.Keys + {c.subject}
  {
    assert (front + [c])[..|front|] == front;
    TakeKeys(RunOf(pol, front).registry, c.subject, pol(c.subject), c.now);
  }

  lemma CallersSnoc(front: seq<Call>, c: Call)
    ensures Callers(front + [c]) == Callers(front) + {c.subject}
  {
    assert forall x :: x in front + [c] <==> x in front || x == c;
  }

  // ---- which subjects stay in the map -------------------------------------------------------

  /** A used bucket is a token short of full, or lacks part of its only one. */
  predicate Short(b: Bucket) { b.tokens <= b.burst as real - 1.0 || b.tokens < 1.0 }

  ghost predicate AllShort(r: Registry, pol: Policies) {
    forall s | s in r :: PolicyOf(r[s]) == pol(s) && Short(r[s])
  }

  lemma TakeLeavesShort(r: Registry, pol: Policies, s: Subject, now: real)
    requires Usable(r) && ValidPolicy(pol(s)) && AllShort(r, pol)
    ensures AllShort(Take(r, s, pol(s), now).registry, pol)
  {
    var u := Take(r, s, pol(s), now).registry;
    forall x | x in u ensures PolicyOf(u[x]) == pol(x) && Short(u[x]) {
      if x != s {
        assert u[x] == r[x];
      }
    }
  }

  /** Whatever the clock does. */
  lemma {:induction false} AlwaysShort(pol: Policies, calls: seq<Call>)
    requires ValidPolicies(pol)
    ensures AllShort(RunOf(pol, calls).registry, pol)
  {
    if calls != [] {
      var front, c := calls[..|calls| - 1], calls[|calls| - 1];
      AlwaysShort(pol, front);
      TakeLeavesShort(RunOf(pol, front).registry, pol, c.subject, c.now);
    }
  }

  /** The subjects a sweep leaves: capacity at least 2, or short of their only token. */
  function Stay(r: Registry, pol: Policies): set<Subject> {
    set s | s in r && (pol(s).burst >= 2 || r[s].tokens < 1.0 - SLACK)
  }

  lemma SweptIsStay(r: Registry, pol: Policies)
    requires ValidPolicies(pol) && AllShort(r, pol)
    ensures Swept(r).Keys == Stay(r, pol)
  {
    forall s ensures s in Swept(r) <==> s in Stay(r, pol) {
      if s in r {
        assert PolicyOf(r[s]) == pol(s) && Short(r[s]);
      }
    }
  }

  /** The subjects a call finds before it adds its own. */
  function SubjectsShown(r: Registry, pol: Policies): set<Subject> {
    if |r| <= SWEEP_AT then r.Keys else Stay(r, pol)
  }

  lemma ShownIs(r: Registry, pol: Policies)
    requires ValidPolicies(pol) && AllShort(r, pol)
    ensures Shown(r).Keys == SubjectsShown(r, pol)
  {
    SweptIsStay(r, pol);
  }

  /** After any run and any call: exactly these subjects are in the map. */
  lemma SubjectsLeft(pol: Policies, calls: seq<Call>, c: Call)
    requires ValidPolicies(pol)
    ensures RunOf(pol, calls + [c]).registry.Keys
         == SubjectsShown(RunOf(pol, calls).registry, pol) + {c.subject}
  {
    var r := RunOf(pol, calls).registry;
    assert (calls + [c])[..|calls|] == calls;
    AlwaysShort(pol, calls);
    ShownIs(r, pol);
    TakeKeys(r, c.subject, pol(c.subject), c.now);
  }

  /** A call leaves the map within its bound iff the map was small or few enough subjects stay. */
  lemma MapBoundedIff(pol: Policies, calls: seq<Call>, c: Call)
    requires ValidPolicies(pol)
    ensures |RunOf(pol, calls + [c]).registry| <= 1025
       <==> |RunOf(pol, calls).registry| <= 1024
            || |Stay(RunOf(pol, calls).registry, pol) + {c.subject}| <= 1025
  {
    SubjectsLeft(pol, calls, c);
    OneMoreKey(RunOf(pol, calls).registry, c.subject);
    assert |RunOf(pol, calls + [c]).registry| == |RunOf(pol, calls + [c]).registry.Keys|;
  }

  lemma OneMoreKey(r: Registry, s: Subject)
    ensures |r.Keys + {s}| <= |r| + 1
  {
    assert s in r ==> r.Keys + {s} == r.Keys;
  }

  // ---- subjects that call once --------------------------------------------------------------

  /** What a first call leaves of a full bucket. */
  function Spent(p: Policy, at: real): Bucket {
    Bucket(p.burst as real - 1.0, at, p.limit, p.burst, p.window)
  }

  ghost predicate OnceEach(calls: seq<Call>) {
    forall i, j | 0 <= i < j < |calls| :: calls[i].subject != calls[j].subject
  }

  predicate HoldsSpent(r: Registry, pol: Policies, c: Call) {
    c.subject in r && r[c.subject] == Spent(pol(c.subject), c.now)
  }

  /** One bucket per call, a token short of full, and no other. */
  ghost predicate AllSpent(r: Registry, pol: Policies, calls: seq<Call>) {
    && r.Keys == Callers(calls) && |r.Keys| == |calls|
    && (forall i | 0 <= i < |calls| :: HoldsSpent(r, pol, calls[i]))
  }

  lemma SpentIsKept(r: Registry, pol: Policies, calls: seq<Call>)
    requires AllSpent(r, pol, calls)
    ensures Swept(r) == r && Shown(r) == r
  {
    forall s | s in r ensures r[s].tokens < r[s].burst as real - SLACK {
      var c :| c in calls && c.subject == s;
      var i :| 0 <= i < |calls| && calls[i] == c;
      assert HoldsSpent(r, pol, calls[i]);
    }
  }

  lemma NewCaller(front: seq<Call>, c: Call)
    requires OnceEach(front + [c])
    ensures OnceEach(front) && c.subject !in Callers(front)
    ensures forall i | 0 <= i < |front| :: front[i].subject != c.subject
  {
    var calls := front + [c];
    assert calls[|front|] == c && forall i | 0 <= i < |front| :: calls[i] == front[i];
  }

  lemma FirstCall(r: Registry, s: Subject, p: Policy, now: real)
    requires Usable(r) && ValidPolicy(p) && s !in r && Shown(r) == r
    ensures Take(r, s, p, now).registry == r[s := Spent(p, now)]
  {
  }

  lemma SpendOne(r: Registry, pol: Policies, front: seq<Call>, c: Call)
    requires ValidPolicies(pol) && Usable(r) && AllSpent(r, pol, front) && OnceEach(front + [c])
    ensures AllSpent(Take(r, c.subject, pol(c.subject), c.now).registry, pol, front + [c])
  {
    SpentIsKept(r, pol, front);
    NewCaller(front, c);
    FirstCall(r, c.subject, pol(c.subject), c.now);
    SpentOneMore(r, pol, front, c);
  }

  lemma SpentOneMore(r: Registry, pol: Policies, front: seq<Call>, c: Call)
    requires AllSpent(r, pol, front) && OnceEach(front + [c]) && c.subject !in r
    ensures AllSpent(r[c.subject := Spent(pol(c.subject), c.now)], pol, front + [c])
  {
    var u, calls := r[c.subject := Spent(pol(c.subject), c.now)], front + [c];
    NewCaller(front, c);
    CallersSnoc(front, c);
    assert u.Keys == r.Keys + {c.subject};
    forall i | 0 <= i < |calls| ensures HoldsSpent(u, pol, calls[i]) {
      if i < |front| {
        assert HoldsSpent(r, pol, front[i]);
      }
    }
  }

  lemma {:induction false} OnceEachSpends(pol: Policies, calls: seq<Call>)
    requires ValidPolicies(pol) && OnceEach(calls)
    ensures AllSpent(RunOf(pol, calls).registry, pol, calls) && HonestSweeps(pol, calls)
  {
    if calls != [] {
      var front, c := calls[..|calls| - 1], calls[|calls| - 1];
      assert calls == front + [c];
      NewCaller(front, c);
      OnceEachSpends(pol, front);
      SpendOne(RunOf(pol, front).registry, pol, front, c);
      SpentIsHonest(pol, front, c.now);
    }
  }

  lemma SpentIsHonest(pol: Policies, calls: seq<Call>, now: real)
    requires ValidPolicies(pol) && AllSpent(RunOf(pol, calls).registry, pol, calls)
    ensures HonestNext(pol, calls, now)
  {
    SpentIsKept(RunOf(pol, calls).registry, pol, calls);
  }

  /** So the map is not bounded: distinct subjects all keep their buckets, at any capacity. */
  lemma MapGrowsWithSubjects(pol: Policies, calls: seq<Call>)
    requires ValidPolicies(pol) && OnceEach(calls)
    ensures |RunOf(pol, calls).registry| == |calls|
  {
    OnceEachSpends(pol, calls);
    assert |RunOf(pol, calls).registry| == |RunOf(pol, calls).registry.Keys|;
  }

  lemma {:induction false} FewCallers(calls: seq<Call>)
    ensures |Callers(calls)| <= |calls|
  {
    if calls != [] {
      var front, c := calls[..|calls| - 1], calls[|calls| - 1];
      FewCallers(front);
      assert calls == front + [c];
      CallersSnoc(front, c);
    }
  }

  // ---- a run whose sweep is too early -------------------------------------------------------

  const ONE := Policy(1, 1, 1.0)
  const SHORT := 1.0 - SLACK

  function Name(n: nat): string { if n == 0 then "" else Name(n - 1) + "a" }

  lemma {:induction false} NameLength(n: nat)
    ensures |Name(n)| == n
  {
    if n > 0 {
      NameLength(n - 1);
    }
  }

  function Named(n: nat): Subject { Subject(Name(n), "infer") }

  function Crowd(n: nat): (calls: seq<Call>)
    ensures |calls| == n && forall i | 0 <= i < n :: calls[i] == Call(Named(i), 0.0)
  {
    if n == 0 then [] else Crowd(n - 1) + [Call(Named(n - 1), 0.0)]
  }

  lemma CrowdIsDistinct(n: nat)
    ensures OnceEach(Crowd(n)) && InTime(Crowd(n))
  {
    forall i, j | 0 <= i < j < n ensures Crowd(n)[i].subject != Crowd(n)[j].subject {
      NameLength(i);
      NameLength(j);
    }
  }

  const LAST := Named(SWEEP_AT)
  const CROWD := Crowd(SWEEP_AT + 1)

  function AllOne(): Policies { s => ONE }

  /** 1025 subjects call once at 0 s, one of them again a billionth short of 1 s. */
  function EarlyRun(): seq<Call> { CROWD + [Call(LAST, SHORT)] }

  lemma OneToken(r: Registry, s: Subject)
    requires Usable(r) && s in r && r[s] == Spent(ONE, 0.0) && Shown(r) == r
    ensures Take(r, s, ONE, SHORT) == Answer(r[s := Bucket(SHORT, SHORT, 1, 1, 1.0)], false)
  {
    assert Gain(ONE, SHORT) == SHORT;
  }

  lemma CrowdIsLarge()
    ensures ValidPolicies(AllOne()) && HonestSweeps(AllOne(), CROWD)
    ensures var r := RunOf(AllOne(), CROWD).registry;
            LAST in r && r[LAST] == Spent(ONE, 0.0) && Shown(r) == r && |r| > SWEEP_AT
  {
    CrowdIsDistinct(SWEEP_AT + 1);
    OnceEachSpends(AllOne(), CROWD);
    var r := RunOf(AllOne(), CROWD).registry;
    SpentIsKept(r, AllOne(), CROWD);
    assert CROWD[SWEEP_AT] == Call(LAST, 0.0) && HoldsSpent(r, AllOne(), CROWD[SWEEP_AT]);
    assert |r| == |r.Keys|;
  }

  /** The run is honest up to its end, where the sweep of any further call is not. */
  lemma SweepsCanBeDishonest()
    ensures ValidPolicies(AllOne()) && HonestSweeps(AllOne(), EarlyRun())
    ensures !HonestNext(AllOne(), EarlyRun(), SHORT)
    ensures !Allows(AllOne(), CROWD, Call(LAST, SHORT))
    ensures Allows(AllOne(), EarlyRun(), Call(LAST, SHORT))
  {
    CrowdIsLarge();
    var pol, r := AllOne(), RunOf(AllOne(), CROWD).registry;
    OneToken(r, LAST);
    HonestPrefix(pol, CROWD, Call(LAST, SHORT));
    assert EarlyRun()[..|CROWD|] == CROWD;
    var u := RunOf(pol, EarlyRun()).registry;
    assert u == r[LAST := Bucket(SHORT, SHORT, 1, 1, 1.0)];
    SweepCanAdmitEarly(u, LAST, ONE, SHORT);
  }

  /** What that sweep does: it takes a bucket for full that lacks part of its only token. */
  lemma SweepCanAdmitEarly(r: Registry, s: Subject, p: Policy, now: real)
    requires Usable(r) && ValidPolicy(p) && p.burst == 1 && |r| > SWEEP_AT && s in r
    requires r[s] == Bucket(1.0 - SLACK, now, p.limit, p.burst, p.window)
    ensures Take(r, s, p, now).allowed
    ensures Touched(r, s, p, now).tokens < 1.0 && !HonestSweep(r, now)
  {
    GainAdds(p, 0.0, 0.0);
  }
}
