/**
 The SSE hub of layawatch/api/stream.py: publish fan-out, replay ring, client queues and the
 shared pulse claim. One `Action` is one region under the hub's condition variable, or one
 write of a client's batch to its socket. `attach` runs once, before everything here.
 */
module Stream {
  import opened Options

  /** `id` is present on trace events only. */
  datatype Event = Event(name: string, payload: nat, id: Option<nat>)

  /**
   One connected stream. `queue` is the registry's deque; `pending` is what the handler thread
   took out of the hub and has not written yet (first the replay window, then tick batches).
   The rest is history: what was written, the first id promised, the last seen id the client
   connected with, and the next id at that moment.
   */
  datatype Client = Client(
    queue: seq<Event>, pending: seq<Event>, delivered: seq<Event>, start: int,
    asked: Option<int>, joined: nat)

  type Clients = map<nat, Client>

  datatype Config = Config(replay: nat, maxClients: nat)

  /** `sent` is the list of all published trace events; the program only keeps the ring. */
  datatype State = State(
    clients: Clients, ring: seq<Event>, nextId: nat, stopping: bool,
    computing: bool, computers: nat, waiters: nat, frame: bool, timer: bool, sent: seq<Event>)

  const INIT := State(map[], [], 1, false, false, 0, 0, false, false, [])

  datatype Action =
    | PublishTrace(summary: nat)
    | Publish(name: string, payload: nat)          // publish_log, publish_model
    | Connect(cid: nat, lastId: Option<int>)       // _handle, under the lock
    | Write(cid: nat)                              // writer.write of the pending batch
    | Tick(cid: nat)                               // _tick_batch takes the queue
    | Disconnect(cid: nat)
    | Stop
    | NeedPulse                                    // a due pulse with no fresh frame
    | PulseDone                                    // end of _compute_pulse
    | Resume                                       // a waiter re-checks the claim
    | Arm                                          // _arm_prefetch
    | TimerFires                                   // _prefetch

  function Push(ring: seq<Event>, e: Event, cap: nat): seq<Event> {
    var all := ring + [e];
    if |all| > cap then all[1..] else all
  }

  function Fanned(clients: Clients, e: Event): Clients {
    map c | c in clients :: clients[c].(queue := clients[c].queue + [e])
  }

  /** Ring entries newer than the client's last seen id. */
  function Missed(ring: seq<Event>, lastId: int): seq<Event> {
    if ring == [] then []
    else
      var front, e := Missed(ring[..|ring| - 1], lastId), ring[|ring| - 1];
      if e.id.Some? && e.id.value as int > lastId then front + [e] else front
  }

  function NewClient(s: State, lastId: Option<int>): Client {
    var window := if lastId.Some? then Missed(s.ring, lastId.value) else [];
    Client([], window, [], s.nextId - |window|, lastId, s.nextId)
  }

  function PublishOne(cfg: Config, s: State, summary: nat): State {
    var e := Event("trace", summary, Some(s.nextId));
    s.(nextId := s.nextId + 1, ring := Push(s.ring, e, cfg.replay), clients := Fanned(s.clients, e),
       sent := s.sent + [e])
  }

  function Claim(s: State): State { s.(computing := true, computers := s.computers + 1) }

  function Next(cfg: Config, s: State, a: Action): State {
    match a
    case PublishTrace(summary) => PublishOne(cfg, s, summary)
    case Publish(name, payload) => s.(clients := Fanned(s.clients, Event(name, payload, None)))
    case Connect(cid, lastId) =>
      if cid in s.clients || |s.clients| >= cfg.maxClients then s      // 503 sse_unavailable
      else s.(clients := s.clients[cid := NewClient(s, lastId)])
    case Write(cid) =>
      if cid !in s.clients then s
      else
        var c := s.clients[cid];
        s.(clients := s.clients[cid := c.(pending := [], delivered := c.delivered + c.pending)])
    case Tick(cid) =>
      if cid !in s.clients || s.stopping || s.clients[cid].pending != [] then s
      else
        var c := s.clients[cid];
        s.(clients := s.clients[cid := c.(pending := c.queue, queue := [])])
    case Disconnect(cid) => s.(clients := s.clients - {cid})
    case Stop => s.(stopping := true, timer := false)
    case NeedPulse =>
      if s.computing then s.(waiters := s.waiters + 1) else Claim(s)
    case PulseDone =>
      if s.computers == 0 then s
      else s.(frame := true, computing := false, computers := s.computers - 1)
    case Resume =>
      if s.waiters == 0 || (s.computing && !s.stopping) then s else s.(waiters := s.waiters - 1)
    case Arm =>
      if s.stopping || s.clients == map[] || s.timer then s else s.(timer := true)
    case TimerFires =>
      if !s.timer then s                                               // superseded
      else
        var s1 := s.(timer := false);
        if s.stopping || s.clients == map[] || s.computing then s1 else Claim(s1)
  }

  function Execute(cfg: Config, actions: seq<Action>): State {
    if actions == [] then INIT
    else Next(cfg, Execute(cfg, actions[..|actions| - 1]), actions[|actions| - 1])
  }

  // ---- invariants -------------------------------------------------------------------------

  function TracePart(events: seq<Event>): seq<Event> {
    if events == [] then []
    else
      var front, e := TracePart(events[..|events| - 1]), events[|events| - 1];
      if e.id.Some? then front + [e] else front
  }

  ghost predicate Numbered(sent: seq<Event>) {
    forall i | 0 <= i < |sent| :: sent[i].id == Some(i + 1)
  }

  /** The ring is the newest `replay` events, or all of them. */
  ghost predicate RingInv(cfg: Config, s: State) {
    && s.nextId == |s.sent| + 1 && Numbered(s.sent)
    && |s.ring| == (if |s.sent| <= cfg.replay then |s.sent| else cfg.replay)
    && s.ring == s.sent[|s.sent| - |s.ring|..]
  }

  /** Delivered, pending and queued trace events are one gap-free run of what was published. */
  ghost predicate ClientInv(s: State, c: Client) {
    && 1 <= c.start <= |s.sent| + 1
    && TracePart(c.delivered + c.pending + c.queue) == s.sent[c.start - 1..]
  }

  ghost predicate ClientsInv(s: State) {
    forall c | c in s.clients :: ClientInv(s, s.clients[c])
  }

  ghost predicate PulseInv(s: State) {
    && s.computers == (if s.computing then 1 else 0)
    && (s.waiters > 0 ==> s.frame || s.computing)
  }

  ghost predicate Inv(cfg: Config, s: State) {
    RingInv(cfg, s) && PulseInv(s) && ClientsInv(s)
  }

  lemma TracePartSnoc(a: seq<Event>, e: Event)
    ensures TracePart(a + [e]) == TracePart(a) + (if e.id.Some? then [e] else [])
  {
    assert (a + [e])[..|a|] == a;
  }

  /** The replay window is exactly the sent events after the last seen id that the ring holds. */
  lemma {:induction false} MissedIsTail(sent: seq<Event>, lo: nat, hi: nat, lastId: int)
    requires Numbered(sent) && lo <= hi <= |sent|
    ensures var from := if lastId > lo then (if lastId < hi then lastId else hi) else lo;
            Missed(sent[lo..hi], lastId) == sent[from..hi]
    decreases hi - lo
  {
    if lo < hi {
      MissedIsTail(sent, lo, hi - 1, lastId);
      SliceFront(sent, lo, hi);
    }
  }

  lemma SliceFront(sent: seq<Event>, lo: nat, hi: nat)
    requires lo < hi <= |sent|
    ensures |sent[lo..hi]| == hi - lo && sent[lo..hi][..hi - lo - 1] == sent[lo..hi - 1]
    ensures sent[lo..hi][hi - lo - 1] == sent[hi - 1]
  {
  }

  lemma {:induction false} TracePartOfSent(sent: seq<Event>, lo: nat, hi: nat)
    requires Numbered(sent) && lo <= hi <= |sent|
    ensures TracePart(sent[lo..hi]) == sent[lo..hi]
    decreases hi - lo
  {
    if lo < hi {
      TracePartOfSent(sent, lo, hi - 1);
      SliceFront(sent, lo, hi);
    }
  }

  lemma FanKeepsClient(s: State, c: Client, e: Event)
    requires ClientInv(s, c) && Numbered(s.sent)
    requires e.id.Some? ==> e.id.value == |s.sent| + 1
    ensures ClientInv(if e.id.Some? then s.(sent := s.sent + [e]) else s, c.(queue := c.queue + [e]))
  {
    var all := c.delivered + c.pending + c.queue;
    TracePartSnoc(all, e);
    assert c.delivered + c.pending + (c.queue + [e]) == all + [e];
  }

  lemma PublishKeepsInv(cfg: Config, s: State, summary: nat)
    requires Inv(cfg, s)
    ensures Inv(cfg, PublishOne(cfg, s, summary))
  {
    var e, u := Event("trace", summary, Some(s.nextId)), PublishOne(cfg, s, summary);
    forall c | c in u.clients ensures ClientInv(u, u.clients[c]) {
      FanKeepsClient(s, s.clients[c], e);
    }
  }

  /** The window a client gets, as a tail of everything sent. */
  lemma WindowIsTail(cfg: Config, s: State, lastId: int)
    requires RingInv(cfg, s)
    ensures var w, n := Missed(s.ring, lastId), |s.sent|;
            && |w| <= n && w == s.sent[n - |w|..]
            && |w| == (if lastId >= n then 0 else if lastId > n - |s.ring| then n - lastId else |s.ring|)
  {
    assert s.sent[|s.sent| - |s.ring|..] == s.sent[|s.sent| - |s.ring|..|s.sent|];
    MissedIsTail(s.sent, |s.sent| - |s.ring|, |s.sent|, lastId);
  }

  /** What a new connection is owed starts where the ring, or the last seen id, leaves off. */
  lemma ConnectKeepsClient(cfg: Config, s: State, lastId: Option<int>)
    requires RingInv(cfg, s)
    ensures ClientInv(s, NewClient(s, lastId))
  {
    var window := if lastId.Some? then Missed(s.ring, lastId.value) else [];
    if lastId.Some? {
      WindowIsTail(cfg, s, lastId.value);
    }
    TailStartsClient(s, window, lastId);
    assert NewClient(s, lastId) == Client([], window, [], |s.sent| + 1 - |window|, lastId, s.nextId);
  }

  lemma TailStartsClient(s: State, w: seq<Event>, lastId: Option<int>)
    requires Numbered(s.sent) && |w| <= |s.sent| && w == s.sent[|s.sent| - |w|..]
    ensures ClientInv(s, Client([], w, [], |s.sent| + 1 - |w|, lastId, s.nextId))
  {
    var n := |s.sent|;
    TracePartOfSent(s.sent, n - |w|, n);
    assert s.sent[n - |w|..n] == w;
    assert [] + w + [] == w;
  }

  lemma HandOverKeepsClient(s: State, c: Client)
    requires ClientInv(s, c)
    ensures ClientInv(s, c.(pending := [], delivered := c.delivered + c.pending))
    ensures c.pending == [] ==> ClientInv(s, c.(pending := c.queue, queue := []))
  {
    assert c.delivered + c.pending + c.queue == (c.delivered + c.pending) + [] + c.queue;
    assert c.delivered + c.queue == c.delivered + c.queue + [];
    assert c.pending == [] ==> c.delivered + c.pending == c.delivered;
  }

  lemma SameSentKeepsClients(s: State, u: State)
    requires u.sent == s.sent && ClientsInv(s)
    requires forall c | c in u.clients :: (c in s.clients && u.clients[c] == s.clients[c])
                                          || ClientInv(u, u.clients[c])
    ensures ClientsInv(u)
  {
    forall c | c in u.clients ensures ClientInv(u, u.clients[c]) {
      if c in s.clients && u.clients[c] == s.clients[c] {
        assert ClientInv(s, s.clients[c]);
      }
    }
  }

  lemma OneClientKept(s: State, cid: nat, c: Client)
    requires ClientsInv(s) && ClientInv(s, c)
    ensures var u := s.(clients := s.clients[cid := c]);
            ClientsInv(u)
  {
    var u := s.(clients := s.clients[cid := c]);
    SameSentKeepsClients(s, u);
  }

  lemma FannedKeepsClients(s: State, e: Event)
    requires ClientsInv(s) && Numbered(s.sent) && e.id.None?
    ensures var u := s.(clients := Fanned(s.clients, e));
            ClientsInv(u)
  {
    var u := s.(clients := Fanned(s.clients, e));
    forall d | d in u.clients ensures ClientInv(u, u.clients[d]) {
      FanKeepsClient(s, s.clients[d], e);
    }
  }

  lemma ConnectKeepsClients(cfg: Config, s: State, a: Action)
    requires RingInv(cfg, s) && ClientsInv(s) && a.Connect?
    ensures ClientsInv(Next(cfg, s, a))
  {
    ConnectKeepsClient(cfg, s, a.lastId);
    OneClientKept(s, a.cid, NewClient(s, a.lastId));
  }

  lemma HandOverKeepsClients(cfg: Config, s: State, a: Action)
    requires ClientsInv(s) && (a.Write? || a.Tick?)
    ensures ClientsInv(Next(cfg, s, a))
  {
    if a.cid in s.clients {
      var c := s.clients[a.cid];
      HandOverKeepsClient(s, c);
      if a.Write? {
        OneClientKept(s, a.cid, c.(pending := [], delivered := c.delivered + c.pending));
      } else if c.pending == [] {
        OneClientKept(s, a.cid, c.(pending := c.queue, queue := []));
      }
    }
  }

  lemma OtherStepsKeepClients(cfg: Config, s: State, a: Action)
    requires ClientsInv(s)
    requires !a.PublishTrace? && !a.Publish? && !a.Connect? && !a.Write? && !a.Tick?
    ensures ClientsInv(Next(cfg, s, a))
  {
    SameSentKeepsClients(s, Next(cfg, s, a));
  }

  lemma NextKeepsClients(cfg: Config, s: State, a: Action)
    requires RingInv(cfg, s) && ClientsInv(s) && !a.PublishTrace?
    ensures ClientsInv(Next(cfg, s, a))
  {
    match a
    case Publish(name, payload) => FannedKeepsClients(s, Event(name, payload, None));
    case Connect(_, _) => ConnectKeepsClients(cfg, s, a);
    case Write(_) => HandOverKeepsClients(cfg, s, a);
    case Tick(_) => HandOverKeepsClients(cfg, s, a);
    case _ => OtherStepsKeepClients(cfg, s, a);
  }

  lemma NextKeepsInv(cfg: Config, s: State, a: Action)
    requires Inv(cfg, s)
    ensures Inv(cfg, Next(cfg, s, a))
  {
    if a.PublishTrace? {
      PublishKeepsInv(cfg, s, a.summary);
    } else {
      NextKeepsClients(cfg, s, a);
      NextKeepsRing(cfg, s, a);
      NextKeepsPulse(cfg, s, a);
    }
  }

  predicate SameRing(s: State, u: State) {
    u.sent == s.sent && u.ring == s.ring && u.nextId == s.nextId
  }

  lemma OnlyTracesTouchTheRing(cfg: Config, s: State, a: Action)
    requires !a.PublishTrace?
    ensures SameRing(s, Next(cfg, s, a))
  {
  }

  lemma NextKeepsRing(cfg: Config, s: State, a: Action)
    requires RingInv(cfg, s) && !a.PublishTrace?
    ensures RingInv(cfg, Next(cfg, s, a))
  {
    OnlyTracesTouchTheRing(cfg, s, a);
  }

  lemma NextKeepsPulse(cfg: Config, s: State, a: Action)
    requires PulseInv(s)
    ensures PulseInv(Next(cfg, s, a))
  {
  }

  lemma {:induction false} InvAlways(cfg: Config, actions: seq<Action>)
    ensures Inv(cfg, Execute(cfg, actions))
  {
    if actions != [] {
      InvAlways(cfg, actions[..|actions| - 1]);
      NextKeepsInv(cfg, Execute(cfg, actions[..|actions| - 1]), actions[|actions| - 1]);
    }
  }

  // ---- main results -----------------------------------------------------------------------

  /** The first event a connection owes its client. */
  function FirstOwed(lastId: Option<int>, oldest: int, next: int): int {
    if lastId.None? || lastId.value >= next then next
    else if lastId.value + 1 >= oldest then lastId.value + 1 else oldest
  }

  predicate OwedFrom(s: State, lastId: Option<int>, start: int) {
    start == FirstOwed(lastId, s.nextId - |s.ring|, s.nextId)
  }

  lemma StartIsFirstOwed(cfg: Config, actions: seq<Action>, lastId: Option<int>)
    ensures OwedFrom(Execute(cfg, actions), lastId, NewClient(Execute(cfg, actions), lastId).start)
  {
    InvAlways(cfg, actions);
    FirstOwedIn(cfg, Execute(cfg, actions), lastId);
  }

  lemma FirstOwedIn(cfg: Config, s: State, lastId: Option<int>)
    requires RingInv(cfg, s)
    ensures OwedFrom(s, lastId, NewClient(s, lastId).start)
  {
    if lastId.Some? {
      WindowIsTail(cfg, s, lastId.value);
    }
  }

  /**
   Exactly once: whatever was interleaved, each connected client has received, holds or will be
   handed every trace event from its start id on, once each, in order, with its own payload.
   */
  lemma ExactlyOnce(cfg: Config, actions: seq<Action>, cid: nat)
    requires cid in Execute(cfg, actions).clients
    ensures var s := Execute(cfg, actions);
            var c := s.clients[cid];
            && 1 <= c.start <= |s.sent| + 1
            && TracePart(c.delivered + c.pending + c.queue) == s.sent[c.start - 1..]
            && forall i | 0 <= i < |s.sent| :: s.sent[i].id == Some(i + 1)
  {
    InvAlways(cfg, actions);
  }

  lemma {:induction false} TracePartSplit(a: seq<Event>, b: seq<Event>)
    ensures TracePart(a + b) == TracePart(a) + TracePart(b)
  {
    if b == [] {
      assert a + b == a;
    } else {
      assert (a + b)[..|a + b| - 1] == a + b[..|b| - 1];
      TracePartSplit(a, b[..|b| - 1]);
    }
  }

  lemma NextGrowsSent(cfg: Config, s: State, a: Action)
    ensures s.sent <= Next(cfg, s, a).sent
  {
  }

  lemma {:induction false} SentOnlyGrows(cfg: Config, before: seq<Action>, after: seq<Action>)
    ensures Execute(cfg, before).sent <= Execute(cfg, before + after).sent
  {
    if after == [] {
      assert before + after == before;
    } else {
      var front, a := before + after[..|after| - 1], after[|after| - 1];
      assert before + after == front + [a] && (front + [a])[..|front|] == front;
      SentOnlyGrows(cfg, before, after[..|after| - 1]);
      NextGrowsSent(cfg, Execute(cfg, front), a);
    }
  }

  lemma DeliveredIsARun(s: State, c: Client)
    requires ClientInv(s, c)
    ensures var got := TracePart(c.delivered);
            c.start - 1 + |got| <= |s.sent| && got == s.sent[c.start - 1..c.start - 1 + |got|]
  {
    TracePartSplit(c.delivered + c.pending, c.queue);
    TracePartSplit(c.delivered, c.pending);
    var got := TracePart(c.delivered);
    assert s.sent[c.start - 1..][..|got|] == got;
  }

  /** One provider call at a time, and nobody waits for a call that is not coming. */
  lemma OneProviderCall(cfg: Config, actions: seq<Action>)
    ensures var s := Execute(cfg, actions);
            s.computers <= 1 && (s.waiters > 0 && !s.frame ==> s.computers == 1)
  {
    InvAlways(cfg, actions);
  }

  // ---- the object -------------------------------------------------------------------------

  class StreamHub {
    const cfg: Config
    var clients: Clients
    var ring: seq<Event>
    var nextId: nat
    var stopping: bool
    var computing: bool
    var frame: bool
    var timer: bool
    ghost var computers: nat
    ghost var waiters: nat
    ghost var sent: seq<Event>

    ghost function View(): State
      reads this
    {
      State(clients, ring, nextId, stopping, computing, computers, waiters, frame, timer, sent)
    }

    constructor (replay: nat, maxClients: nat)
      ensures View() == INIT && cfg == Config(replay, maxClients)
    {
      cfg := Config(replay, maxClients);
      clients, ring, nextId, stopping := map[], [], 1, false;
      computing, frame, timer := false, false, false;
      computers, waiters, sent := 0, 0, [];
    }

    /** Append one event to every client's queue. */
    method FanOut(e: Event)
      modifies this`clients
      ensures clients == Fanned(old(clients), e)
    {
      var left := clients.Keys;
      while left != {}
        invariant left <= old(clients).Keys == clients.Keys
        invariant forall c | c in clients ::
          clients[c] == if c in left then old(clients)[c] else Fanned(old(clients), e)[c]
      {
        var c :| c in left;
        left := left - {c};
        clients := clients[c := clients[c].(queue := clients[c].queue + [e])];
      }
    }

    method PublishTrace(summary: nat) returns (eventId: nat)
      modifies this
      ensures View() == Next(cfg, old(View()), Action.PublishTrace(summary)) && eventId == old(nextId)
    {
      eventId := nextId;
      nextId := nextId + 1;
      var e := Event("trace", summary, Some(eventId));
      ring := ring + [e];
      if |ring| > cfg.replay {
        ring := ring[1..];
      }
      FanOut(e);
      sent := sent + [e];
    }

    method PublishOther(name: string, payload: nat)
      modifies this
      ensures View() == Next(cfg, old(View()), Publish(name, payload))
    {
      FanOut(Event(name, payload, None));
    }

    /** `_handle`: snapshot of the replay window and registration in one region. */
    method Connect(cid: nat, lastId: Option<int>) returns (accepted: bool)
      requires cid !in clients
      modifies this
      ensures View() == Next(cfg, old(View()), Action.Connect(cid, lastId))
      ensures accepted <==> |old(clients)| < cfg.maxClients
    {
      if |clients| >= cfg.maxClients {
        return false;
      }
      var replay: seq<Event> := [];
      if lastId.Some? {
        for i := 0 to |ring|
          invariant replay == Missed(ring[..i], lastId.value)
        {
          assert ring[..i + 1][..i] == ring[..i];
          if ring[i].id.Some? && ring[i].id.value as int > lastId.value {
            replay := replay + [ring[i]];
          }
        }
        assert ring[..|ring|] == ring;
      }
      clients := clients[cid := Client([], replay, [], nextId - |replay|, lastId, nextId)];
      return true;
    }

    /** `_tick_batch`: the whole queue leaves as one batch. */
    method TickBatch(cid: nat) returns (batch: Option<seq<Event>>)
      requires cid in clients && clients[cid].pending == []
      modifies this
      ensures View() == Next(cfg, old(View()), Tick(cid))
      ensures batch == if stopping then None else Some(old(clients)[cid].queue)
    {
      if stopping {
        return None;
      }
      var c := clients[cid];
      clients := clients[cid := c.(pending := c.queue, queue := [])];
      return Some(c.queue);
    }

    /** The pending batch reached the socket. */
    method Deliver(cid: nat)
      requires cid in clients
      modifies this`clients
      ensures View() == Next(cfg, old(View()), Action.Write(cid))
    {
      var c := clients[cid];
      clients := clients[cid := c.(pending := [], delivered := c.delivered + c.pending)];
    }

    /** The `finally` of a stream: gone from the registry, whether or not it was there. */
    method Leave(cid: nat)
      modifies this`clients
      ensures View() == Next(cfg, old(View()), Disconnect(cid))
    {
      if cid in clients {
        clients := clients - {cid};
      }
    }

    method Shutdown()
      modifies this`stopping, this`timer
      ensures View() == Next(cfg, old(View()), Action.Stop)
    {
      stopping := true;
      if timer {
        timer := false;
      }
    }

    /** The claim of `_tick_batch`: compute, or wait for the call in flight. */
    method ClaimPulse() returns (compute: bool)
      modifies this
      ensures View() == Next(cfg, old(View()), NeedPulse) && compute == !old(computing)
    {
      if computing {
        waiters := waiters + 1;
        return false;
      }
      computing, computers := true, computers + 1;
      return true;
    }

    /** The end of `_compute_pulse`. */
    method FinishPulse()
      requires computers > 0
      modifies this
      ensures View() == Next(cfg, old(View()), PulseDone)
    {
      frame, computing, computers := true, false, computers - 1;
    }

    method ArmPrefetch() returns (started: bool)
      modifies this`timer
      ensures View() == Next(cfg, old(View()), Arm)
    {
      if stopping || clients == map[] || timer {
        return false;
      }
      timer := true;
      return true;
    }

    /** `_prefetch`, up to the provider call. */
    method Prefetch() returns (compute: bool)
      modifies this
      ensures View() == Next(cfg, old(View()), TimerFires)
      ensures compute <==> computers == old(computers) + 1
    {
      if !timer {
        return false;
      }
      timer := false;
      if stopping || clients == map[] || computing {
        return false;
      }
      computing, computers := true, computers + 1;
      return true;
    }
  }
}
