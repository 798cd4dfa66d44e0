/**
 When the hub of layawatch/api/stream.py calls the pulse provider ahead of time, when a waiting
 client moves on and how many clients there can be, in terms of what happened before.
 */
module StreamPulse {
  import opened Options
  import opened Common
  import opened Stream

  function StateAt(cfg: Config, actions: seq<Action>, n: nat): State
    requires n <= |actions|
  {
    Execute(cfg, actions[..n])
  }

  lemma NextState(cfg: Config, actions: seq<Action>, n: nat)
    requires n < |actions|
    ensures StateAt(cfg, actions, n + 1) == Next(cfg, StateAt(cfg, actions, n), actions[n])
  {
    assert actions[..n + 1][..n] == actions[..n];
  }

  predicate StoppedBy(actions: seq<Action>, n: nat)
    requires n <= |actions|
  {
    exists i :: 0 <= i < n && actions[i].Stop?
  }

  lemma StoppingStep(cfg: Config, s: State, a: Action)
    ensures Next(cfg, s, a).stopping <==> s.stopping || a.Stop?
  {
  }

  lemma {:induction false} StoppingIff(cfg: Config, actions: seq<Action>, n: nat)
    requires n <= |actions|
    ensures StateAt(cfg, actions, n).stopping <==> StoppedBy(actions, n)
  {
    if n > 0 {
      StoppingIff(cfg, actions, n - 1);
      NextState(cfg, actions, n - 1);
      StoppingStep(cfg, StateAt(cfg, actions, n - 1), actions[n - 1]);
      assert StoppedBy(actions, n) <==> StoppedBy(actions, n - 1) || actions[n - 1].Stop?;
    }
  }

  // ---- the refresh timer --------------------------------------------------------------------

  /** A timer was asked for, with a client connected and before any stop. */
  predicate ArmsAt(cfg: Config, actions: seq<Action>, i: nat) {
    && i < |actions| && actions[i].Arm? && !StoppedBy(actions, i)
    && StateAt(cfg, actions, i).clients != map[]
  }

  /** Neither fired nor cancelled. */
  predicate Undisturbed(actions: seq<Action>, from: nat, to: nat) {
    forall m | from <= m < to && m < |actions| :: !actions[m].TimerFires? && !actions[m].Stop?
  }

  ghost predicate Armed(cfg: Config, actions: seq<Action>, n: nat) {
    exists i: nat :: i < n && ArmsAt(cfg, actions, i) && Undisturbed(actions, i + 1, n)
  }

  lemma TimerStep(cfg: Config, s: State, a: Action)
    ensures Next(cfg, s, a).timer
       <==> (a.Arm? && !s.stopping && s.clients != map[]) || (s.timer && !a.TimerFires? && !a.Stop?)
  {
  }

  lemma ArmedStep(cfg: Config, actions: seq<Action>, n: nat)
    requires n < |actions|
    ensures Armed(cfg, actions, n + 1)
       <==> ArmsAt(cfg, actions, n)
            || (Armed(cfg, actions, n) && !actions[n].TimerFires? && !actions[n].Stop?)
  {
    if i: nat :| i < n && ArmsAt(cfg, actions, i) && Undisturbed(actions, i + 1, n) {
      assert Undisturbed(actions, i + 1, n + 1) || actions[n].TimerFires? || actions[n].Stop?;
    }
    assert Undisturbed(actions, n + 1, n + 1);
    if i: nat :| i < n + 1 && ArmsAt(cfg, actions, i) && Undisturbed(actions, i + 1, n + 1) {
      assert i == n || Undisturbed(actions, i + 1, n);
    }
  }

  predicate HasTimer(s: State) { s.timer }

  predicate CanArm(s: State, a: Action) { a.Arm? && !s.stopping && s.clients != map[] }

  lemma TimerAfter(cfg: Config, actions: seq<Action>, n: nat)
    requires n < |actions|
    ensures HasTimer(StateAt(cfg, actions, n + 1))
       <==> CanArm(StateAt(cfg, actions, n), actions[n])
            || (HasTimer(StateAt(cfg, actions, n)) && !actions[n].TimerFires? && !actions[n].Stop?)
  {
    NextState(cfg, actions, n);
    TimerStep(cfg, StateAt(cfg, actions, n), actions[n]);
  }

  lemma CanArmIff(cfg: Config, actions: seq<Action>, n: nat)
    requires n < |actions|
    ensures CanArm(StateAt(cfg, actions, n), actions[n]) <==> ArmsAt(cfg, actions, n)
  {
    StoppingIff(cfg, actions, n);
  }

  lemma {:induction false} TimerIff(cfg: Config, actions: seq<Action>, n: nat)
    requires n <= |actions|
    ensures HasTimer(StateAt(cfg, actions, n)) <==> Armed(cfg, actions, n)
  {
    if n > 0 {
      TimerIff(cfg, actions, n - 1);
      TimerAfter(cfg, actions, n - 1);
      CanArmIff(cfg, actions, n - 1);
      ArmedStep(cfg, actions, n - 1);
    }
  }

  lemma {:induction false} ArmedIsNotStopped(cfg: Config, actions: seq<Action>, n: nat)
    requires n <= |actions| && Armed(cfg, actions, n)
    ensures !StoppedBy(actions, n)
  {
    var i: nat :| i < n && ArmsAt(cfg, actions, i) && Undisturbed(actions, i + 1, n);
    forall m | 0 <= m < n ensures !actions[m].Stop? {
      if m < i {
        assert !StoppedBy(actions, i);
      }
    }
  }

  /**
   In any run, a timer that fires calls the provider iff it was asked for while clients were
   connected and has neither fired nor been stopped since, and at that moment somebody is
   connected and no call is running.
   */
  lemma PrefetchIff(cfg: Config, actions: seq<Action>)
    ensures var s := Execute(cfg, actions);
            Next(cfg, s, TimerFires).computers == s.computers + 1
            <==> Armed(cfg, actions, |actions|) && s.clients != map[] && s.computers == 0
  {
    InvAlways(cfg, actions);
    FiringCalls(cfg, Execute(cfg, actions));
    TimerNow(cfg, actions);
  }

  lemma FiringCalls(cfg: Config, s: State)
    requires PulseInv(s)
    ensures Next(cfg, s, TimerFires).computers == s.computers + 1
       <==> HasTimer(s) && !s.stopping && s.clients != map[] && s.computers == 0
  {
  }

  /** An armed timer means a hub that runs. */
  lemma TimerNow(cfg: Config, actions: seq<Action>)
    ensures HasTimer(Execute(cfg, actions)) <==> Armed(cfg, actions, |actions|)
    ensures HasTimer(Execute(cfg, actions)) ==> !Execute(cfg, actions).stopping
  {
    var n := |actions|;
    assert actions[..n] == actions;
    TimerIff(cfg, actions, n);
    StoppingIff(cfg, actions, n);
    if Armed(cfg, actions, n) {
      ArmedIsNotStopped(cfg, actions, n);
    }
  }

  /** After a stop the timer is never armed again. */
  lemma NothingArmedAfterStop(cfg: Config, before: seq<Action>, after: seq<Action>)
    ensures !Execute(cfg, before + [Stop] + after).timer
  {
    var actions := before + [Stop] + after;
    var n := |actions|;
    assert actions[..n] == actions;
    TimerIff(cfg, actions, n);
    assert actions[|before|] == Stop;
    if Armed(cfg, actions, n) {
      ArmedIsNotStopped(cfg, actions, n);
    }
  }

  // ---- clients that wait for a frame --------------------------------------------------------

  /** A waiter moves on iff no call is running, or the hub has been stopped. */
  lemma WaiterMovesOnIff(cfg: Config, actions: seq<Action>)
    requires Execute(cfg, actions).waiters > 0
    ensures var s := Execute(cfg, actions);
            Next(cfg, s, Resume).waiters == s.waiters - 1
            <==> s.computers == 0 || StoppedBy(actions, |actions|)
    ensures var s := Execute(cfg, actions);
            Next(cfg, s, Resume).waiters == s.waiters - 1 || Next(cfg, s, Resume) == s
  {
    assert actions[..|actions|] == actions;
    StoppingIff(cfg, actions, |actions|);
    InvAlways(cfg, actions);
  }

  /** A client that needs a frame calls the provider iff no call is running, and else waits. */
  lemma NeedIff(cfg: Config, actions: seq<Action>)
    ensures var s := Execute(cfg, actions);
            var u := Next(cfg, s, NeedPulse);
            if s.computers == 0 then u.computers == 1 && u.waiters == s.waiters
            else u.computers == s.computers && u.waiters == s.waiters + 1
  {
    InvAlways(cfg, actions);
  }

  // ---- how many clients ---------------------------------------------------------------------

  ghost predicate Bounded(cfg: Config, s: State) { |s.clients| <= cfg.maxClients }

  lemma ClientsStep(cfg: Config, s: State, a: Action)
    requires Bounded(cfg, s)
    ensures Bounded(cfg, Next(cfg, s, a))
  {
    var u := Next(cfg, s, a);
    if a.Disconnect? {
      SubsetSize(u.clients.Keys, s.clients.Keys);
    } else if !a.Connect? {
      assert u.clients.Keys == s.clients.Keys;
      SameSize(s.clients, u.clients);
    }
  }

  lemma SameSize(a: Clients, b: Clients)
    requires a.Keys == b.Keys
    ensures |a| == |b|
  {
    assert |a.Keys| == |a| && |b.Keys| == |b|;
  }

  /** There are never more clients than the limit. */
  lemma {:induction false} ClientsBounded(cfg: Config, actions: seq<Action>)
    ensures |Execute(cfg, actions).clients| <= cfg.maxClients
  {
    if actions != [] {
      ClientsBounded(cfg, actions[..|actions| - 1]);
      ClientsStep(cfg, Execute(cfg, actions[..|actions| - 1]), actions[|actions| - 1]);
    }
  }

  /** A new client is refused only when the hub is full. */
  lemma ConnectIff(cfg: Config, actions: seq<Action>, cid: nat, lastId: Option<int>)
    requires cid !in Execute(cfg, actions).clients
    ensures cid in Next(cfg, Execute(cfg, actions), Connect(cid, lastId)).clients
       <==> |Execute(cfg, actions).clients| != cfg.maxClients
  {
    ClientsBounded(cfg, actions);
  }
}
