/**
 What the clients of the hub of layawatch/api/stream.py are handed, event by event, compared with
 the calls that published it: traces with their own summaries, log and model events among them.
 */
module StreamDelivery {
  import opened Options
  import opened Stream

  // ---- what was published, read off the calls -----------------------------------------------

  /** The summaries given to publish_trace. */
  function Summaries(actions: seq<Action>): seq<nat> {
    if actions == [] then []
    else
      var front, a := Summaries(actions[..|actions| - 1]), actions[|actions| - 1];
      if a.PublishTrace? then front + [a.summary] else front
  }

  /** What a call publishes when `n` traces were published before it. */
  function Says(a: Action, n: nat): seq<Event> {
    if a.PublishTrace? then [Event("trace", a.summary, Some(n + 1))]
    else if a.Publish? then [Event(a.name, a.payload, None)]
    else []
  }

  /** All events in order of publication; the i-th trace has id i. */
  function Said(actions: seq<Action>): seq<Event> {
    if actions == [] then []
    else
      var front := actions[..|actions| - 1];
      Said(front) + Says(actions[|actions| - 1], |Summaries(front)|)
  }

  /** How many events had been published when the client `cid` that is there now connected. */
  function HeardFrom(cfg: Config, actions: seq<Action>, cid: nat): nat {
    if actions == [] then 0
    else
      var front := actions[..|actions| - 1];
      if cid in Execute(cfg, front).clients then HeardFrom(cfg, front, cid) else |Said(front)|
  }

  // ---- the list of sent traces --------------------------------------------------------------

  lemma LastSaid(front: seq<Action>, a: Action)
    ensures Said(front + [a]) == Said(front) + Says(a, |Summaries(front)|)
    ensures Summaries(front + [a]) == if a.PublishTrace? then Summaries(front) + [a.summary] else Summaries(front)
  {
    assert (front + [a])[..|front|] == front;
  }

  lemma OneMoreAction(cfg: Config, front: seq<Action>, a: Action)
    ensures Execute(cfg, front + [a]) == Next(cfg, Execute(cfg, front), a)
  {
    assert (front + [a])[..|front|] == front;
  }

  /** The i-th sent trace carries the summary of the i-th call, untouched, and the id i + 1. */
  ghost predicate SentOk(sent: seq<Event>, summaries: seq<nat>) {
    && |sent| == |summaries|
    && forall i | 0 <= i < |sent| :: sent[i] == Event("trace", summaries[i], Some(i + 1))
  }

  lemma StepSends(cfg: Config, s: State, a: Action)
    ensures Next(cfg, s, a).sent
         == if a.PublishTrace? then s.sent + [Event("trace", a.summary, Some(s.nextId))] else s.sent
  {
  }

  lemma {:induction false} SentIsGiven(cfg: Config, actions: seq<Action>)
    ensures SentOk(Execute(cfg, actions).sent, Summaries(actions))
  {
    if actions != [] {
      var front, a := actions[..|actions| - 1], actions[|actions| - 1];
      SentIsGiven(cfg, front);
      InvAlways(cfg, front);
      StepSends(cfg, Execute(cfg, front), a);
    }
  }

  lemma {:induction false} SentIsTraces(cfg: Config, actions: seq<Action>)
    ensures TracePart(Said(actions)) == Execute(cfg, actions).sent
  {
    if actions != [] {
      var front, a := actions[..|actions| - 1], actions[|actions| - 1];
      assert actions == front + [a];
      SentIsTraces(cfg, front);
      SentIsGiven(cfg, front);
      InvAlways(cfg, front);
      StepSends(cfg, Execute(cfg, front), a);
      LastSaid(front, a);
      if a.PublishTrace? {
        TracePartSnoc(Said(front), Event("trace", a.summary, Some(|Summaries(front)| + 1)));
      } else if a.Publish? {
        TracePartSnoc(Said(front), Event(a.name, a.payload, None));
      } else {
        assert Said(front) + [] == Said(front);
      }
    }
  }

  // ---- one client ---------------------------------------------------------------------------

  /** All a client was or will be handed, in order. */
  function Held(c: Client): seq<Event> { c.delivered + c.pending + c.queue }

  ghost predicate Gains(s: State, u: State, k: nat, more: seq<Event>) {
    && k in s.clients && k in u.clients && u.clients[k].start == s.clients[k].start
    && Held(u.clients[k]) == Held(s.clients[k]) + more
  }

  lemma QueueGains(c: Client, e: Event)
    ensures Held(c.(queue := c.queue + [e])) == Held(c) + [e]
  {
  }

  lemma HandOverSame(c: Client)
    ensures Held(c.(pending := [], delivered := c.delivered + c.pending)) == Held(c) + []
    ensures c.pending == [] ==> Held(c.(pending := c.queue, queue := [])) == Held(c) + []
  {
  }

  lemma StepGains(cfg: Config, s: State, a: Action, k: nat)
    requires k in s.clients && a != Disconnect(k)
    ensures s.nextId >= 1 ==> Gains(s, Next(cfg, s, a), k, Says(a, s.nextId - 1))
  {
    var c := s.clients[k];
    HandOverSame(c);
    assert Held(c) + [] == Held(c);
    match a
    case PublishTrace(summary) => QueueGains(c, Event("trace", summary, Some(s.nextId)));
    case Publish(name, payload) => QueueGains(c, Event(name, payload, None));
    case _ =>
  }

  /** Replayed traces up to the connection, then every event since. */
  ghost predicate HeldOk(c: Client, said: seq<Event>, heard: nat) {
    && heard <= |said| && 1 <= c.start <= |TracePart(said[..heard])| + 1
    && Held(c) == TracePart(said[..heard])[c.start - 1..] + said[heard..]
  }

  lemma HeldLater(c: Client, d: Client, said: seq<Event>, more: seq<Event>, heard: nat)
    requires HeldOk(c, said, heard) && d.start == c.start && Held(d) == Held(c) + more
    ensures HeldOk(d, said + more, heard)
  {
    assert (said + more)[..heard] == said[..heard];
    assert (said + more)[heard..] == said[heard..] + more;
  }

  lemma HeldAtConnect(cfg: Config, s: State, lastId: Option<int>, said: seq<Event>)
    requires RingInv(cfg, s) && TracePart(said) == s.sent
    ensures HeldOk(NewClient(s, lastId), said, |said|)
  {
    StartsAtTail(cfg, s, lastId);
    FreshHolds(NewClient(s, lastId), said);
  }

  lemma StartsAtTail(cfg: Config, s: State, lastId: Option<int>)
    requires RingInv(cfg, s)
    ensures var c := NewClient(s, lastId);
            && c.delivered == [] && c.queue == []
            && 1 <= c.start <= |s.sent| + 1 && c.pending == s.sent[c.start - 1..]
  {
    if lastId.Some? {
      WindowIsTail(cfg, s, lastId.value);
    }
  }

  lemma FreshHolds(c: Client, said: seq<Event>)
    requires c.delivered == [] && c.queue == [] && 1 <= c.start <= |TracePart(said)| + 1
    requires c.pending == TracePart(said)[c.start - 1..]
    ensures HeldOk(c, said, |said|)
  {
    assert said[..|said|] == said && said[|said|..] == [];
    assert Held(c) == c.pending;
  }

  lemma OnlyConnectAdds(cfg: Config, s: State, a: Action, k: nat)
    requires k in Next(cfg, s, a).clients && k !in s.clients
    ensures a.Connect? && Next(cfg, s, a).clients[k] == NewClient(s, a.lastId)
  {
  }

  lemma NextIdCounts(cfg: Config, actions: seq<Action>)
    ensures Execute(cfg, actions).nextId == |Summaries(actions)| + 1
  {
    SentIsGiven(cfg, actions);
    InvAlways(cfg, actions);
  }

  // ---- main result --------------------------------------------------------------------------

  /**
   Whatever was interleaved, a connected client has received, holds or will be handed the replayed
   traces from its start id up to its connection and then every event published since: each trace
   with the summary of its own call, each log and model event, once, in order.
   */
  lemma {:induction false} EveryEventOnce(cfg: Config, actions: seq<Action>, cid: nat)
    requires cid in Execute(cfg, actions).clients
    ensures HeldOk(Execute(cfg, actions).clients[cid], Said(actions), HeardFrom(cfg, actions, cid))
  {
    if actions != [] {
      var front, a := actions[..|actions| - 1], actions[|actions| - 1];
      var s := Execute(cfg, front);
      assert actions == front + [a];
      LastSaid(front, a);
      NextIdCounts(cfg, front);
      if cid in s.clients {
        EveryEventOnce(cfg, front, cid);
        StepGains(cfg, s, a, cid);
        HeldLater(s.clients[cid], Execute(cfg, actions).clients[cid], Said(front),
                  Says(a, |Summaries(front)|), HeardFrom(cfg, front, cid));
      } else {
        OnlyConnectAdds(cfg, s, a, cid);
        InvAlways(cfg, front);
        SentIsTraces(cfg, front);
        HeldAtConnect(cfg, s, a.lastId, Said(front));
        assert Said(front) + [] == Said(front);
      }
    }
  }

  /** In particular the traces, with the summaries of their calls. */
  lemma TracesOnceWithTheirSummaries(cfg: Config, actions: seq<Action>, cid: nat)
    requires cid in Execute(cfg, actions).clients
    ensures var c := Execute(cfg, actions).clients[cid];
            var traces, summaries := TracePart(Held(c)), Summaries(actions);
            && 1 <= c.start <= |summaries| + 1 && |traces| == |summaries| + 1 - c.start
            && forall i | 0 <= i < |traces| ::
                 traces[i] == Event("trace", summaries[c.start - 1 + i], Some(c.start + i))
  {
    ExactlyOnce(cfg, actions, cid);
    SentIsGiven(cfg, actions);
  }
}
