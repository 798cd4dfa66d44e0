/**
 Policy edits in layawatch/auth/ratelimit.py: each call brings the policy of its moment. Until the
 sweep's size is reached, a subject's decisions are those of an account of its own calls alone.
 */
module RateLimitEdits {
  import opened Common
  import opened RateLimit

  /** A call under the policy in force; a limit of 0 or less is unlimited. */
  datatype Use = Use(subject: Subject, policy: Policy, now: real)

  ghost predicate ValidUse(u: Use) { u.policy.burst >= 1 && u.policy.window > 0.0 }

  ghost predicate ValidUses(uses: seq<Use>) { forall i | 0 <= i < |uses| :: ValidUse(uses[i]) }

  function Served(r: Registry, u: Use): (after: Registry)
    requires Usable(r) && ValidUse(u)
    ensures Usable(after) && after.Keys <= r.Keys + {u.subject}
  {
    if u.policy.limit <= 0 then r else Take(r, u.subject, u.policy, u.now).registry
  }

  function Registered(uses: seq<Use>): (r: Registry)
    requires ValidUses(uses)
    ensures Usable(r)
  {
    if uses == [] then map[] else Served(Registered(uses[..|uses| - 1]), uses[|uses| - 1])
  }

  predicate Admits(uses: seq<Use>, u: Use)
    requires ValidUses(uses) && ValidUse(u)
  {
    u.policy.limit <= 0 || Take(Registered(uses), u.subject, u.policy, u.now).allowed
  }

  // ---- the account of one subject -----------------------------------------------------------

  /** The limited calls of one subject. */
  function Own(uses: seq<Use>, s: Subject): seq<Use> {
    if uses == [] then []
    else
      var front, u := Own(uses[..|uses| - 1], s), uses[|uses| - 1];
      if u.subject == s && u.policy.limit > 0 then front + [u] else front
  }

  /**
   What a call at `now` finds: a first one the burst it brings, a later one what the call before
   left plus `limit` tokens a `window` since then, up to `burst`, all three as that call brought
   them.
   */
  function Found(own: seq<Use>, burst: int, now: real): real
    requires ValidUses(own)
    decreases |own|
  {
    if own == [] then burst as real
    else
      var last := own[|own| - 1];
      var found := Found(own[..|own| - 1], last.policy.burst, last.now);
      var left := if found >= 1.0 then found - 1.0 else found;
      Smaller(last.policy.burst as real,
              left + (now - last.now) * (last.policy.limit as real / last.policy.window))
  }

  ghost predicate Accounts(r: Registry, s: Subject, own: seq<Use>)
    requires Usable(r) && ValidUses(own)
  {
    if own == [] then s !in r
    else
      var last := own[|own| - 1];
      var found := Found(own[..|own| - 1], last.policy.burst, last.now);
      && s in r
      && r[s] == Bucket(if found >= 1.0 then found - 1.0 else found, last.now,
                        last.policy.limit, last.policy.burst, last.policy.window)
  }

  lemma {:induction false} OwnValid(uses: seq<Use>, s: Subject)
    requires ValidUses(uses)
    ensures ValidUses(Own(uses, s))
  {
    if uses != [] {
      OwnValid(uses[..|uses| - 1], s);
    }
  }

  /** The bucket a call sees holds what the account says, under the policy the call brings. */
  lemma SeenIsFound(r: Registry, s: Subject, own: seq<Use>, p: Policy, now: real)
    requires Usable(r) && ValidUses(own) && ValidPolicy(p) && Accounts(r, s, own) && |r| <= SWEEP_AT
    ensures Take(r, s, p, now).allowed <==> Found(own, p.burst, now) >= 1.0
    ensures Retry(r, s, p, now) == if Found(own, p.burst, now) >= 1.0 then 0
                                   else RetryAfter(p, Found(own, p.burst, now))
    ensures Accounts(Take(r, s, p, now).registry, s, own + [Use(s, p, now)])
  {
    TouchedIsFound(r, s, own, p, now);
    AccountGrows(Take(r, s, p, now).registry, s, own, Use(s, p, now));
  }

  lemma TouchedIsFound(r: Registry, s: Subject, own: seq<Use>, p: Policy, now: real)
    requires Usable(r) && ValidUses(own) && Accounts(r, s, own)
    ensures Touched(r, s, p, now) == Bucket(Found(own, p.burst, now), now, p.limit, p.burst, p.window)
  {
  }

  lemma AccountGrows(r: Registry, s: Subject, own: seq<Use>, u: Use)
    requires Usable(r) && ValidUses(own) && ValidUse(u) && s in r
    requires var found := Found(own, u.policy.burst, u.now);
             r[s] == Bucket(if found >= 1.0 then found - 1.0 else found, u.now,
                            u.policy.limit, u.policy.burst, u.policy.window)
    ensures Accounts(r, s, own + [u])
  {
    assert (own + [u])[..|own|] == own;
  }

  lemma OthersKeep(r: Registry, s: Subject, own: seq<Use>, u: Use)
    requires Usable(r) && ValidUses(own) && ValidUse(u) && Accounts(r, s, own) && |r| <= SWEEP_AT
    requires u.subject != s || u.policy.limit <= 0
    ensures Accounts(Served(r, u), s, own)
  {
  }

  function Subjects(uses: seq<Use>): set<Subject> { set u | u in uses :: u.subject }

  lemma {:induction false} FewRegistered(uses: seq<Use>)
    requires ValidUses(uses)
    ensures Registered(uses).Keys <= Subjects(uses)
    ensures |Registered(uses)| <= |Subjects(uses)|
  {
    if uses != [] {
      FewRegistered(uses[..|uses| - 1]);
      assert uses[|uses| - 1] in uses;
    }
    SubsetSize(Registered(uses).Keys, Subjects(uses));
  }

  lemma FewBefore(front: seq<Use>, u: Use)
    requires |Subjects(front + [u])| <= SWEEP_AT
    ensures |Subjects(front)| <= SWEEP_AT
  {
    SubsetSize(Subjects(front), Subjects(front + [u]));
  }

  /** While no more than 1024 subjects have called, every bucket is its subject's account. */
  lemma {:induction false} BucketsAreAccounts(uses: seq<Use>, s: Subject)
    requires ValidUses(uses) && |Subjects(uses)| <= SWEEP_AT
    ensures ValidUses(Own(uses, s)) && Accounts(Registered(uses), s, Own(uses, s))
  {
    OwnValid(uses, s);
    if uses != [] {
      var front, u := uses[..|uses| - 1], uses[|uses| - 1];
      assert uses == front + [u];
      FewBefore(front, u);
      FewRegistered(front);
      BucketsAreAccounts(front, s);
      if u.subject == s && u.policy.limit > 0 {
        SeenIsFound(Registered(front), s, Own(front, s), u.policy, u.now);
      } else {
        OthersKeep(Registered(front), s, Own(front, s), u);
      }
    }
  }

  /**
   Policy edits apply on the next use: in any run, whatever policies the calls bring, a limited
   call is admitted iff its subject's account holds a token, where each stretch between two calls
   refills at the rate, and up to the burst, that the earlier of the two brought.
   */
  lemma EditsApplyOnTheNextUse(uses: seq<Use>, u: Use)
    requires ValidUses(uses) && ValidUse(u) && u.policy.limit > 0 && |Subjects(uses)| <= 1024
    ensures ValidUses(Own(uses, u.subject))
    ensures Admits(uses, u) <==> Found(Own(uses, u.subject), u.policy.burst, u.now) >= 1.0
  {
    FewRegistered(uses);
    BucketsAreAccounts(uses, u.subject);
    SeenIsFound(Registered(uses), u.subject, Own(uses, u.subject), u.policy, u.now);
  }

  /** Do `n` seconds make up what is missing to a token? */
  predicate Suffices(p: Policy, tokens: real, n: nat)
    requires p.window > 0.0
  {
    tokens + n as real * (p.limit as real / p.window) >= 1.0
  }

  /** A refusal's retry is already at the rate it brings: the least whole seconds to a token. */
  lemma RetryIsAtTheNewRate(uses: seq<Use>, u: Use, n: nat)
    requires ValidUses(uses) && ValidUse(u) && u.policy.limit > 0 && |Subjects(uses)| <= 1024
    requires !Admits(uses, u)
    ensures ValidUses(Own(uses, u.subject))
    ensures n >= Retry(Registered(uses), u.subject, u.policy, u.now)
       <==> Suffices(u.policy, Found(Own(uses, u.subject), u.policy.burst, u.now), n)
  {
    FewRegistered(uses);
    BucketsAreAccounts(uses, u.subject);
    var own := Own(uses, u.subject);
    SeenIsFound(Registered(uses), u.subject, own, u.policy, u.now);
    WaitReaches(u.policy, Found(own, u.policy.burst, u.now), n);
  }

  lemma WaitReaches(p: Policy, tokens: real, n: nat)
    requires ValidPolicy(p) && tokens < 1.0
    ensures n >= RetryAfter(p, tokens) <==> Suffices(p, tokens, n)
  {
    var rate := p.limit as real / p.window;
    CeilIsLeast((1.0 - tokens) / rate, n);
    Cross(1.0 - tokens, rate, n as real);
  }
}
