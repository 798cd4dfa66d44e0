/**
 Two connections of one client to the hub of layawatch/api/stream.py: what the second one
 delivers after the first, given the last event id that the client really holds.
 */
module StreamReconnect {
  import opened Options
  import opened Stream

  // ---- where a connection stands ------------------------------------------------------------

  function IdOf(e: Event): int { if e.id.Some? then e.id.value else 0 }

  /** The last trace id delivered, else the id the client connected with, else none. */
  function HeldId(c: Client): Option<int> {
    var got := TracePart(c.delivered);
    if got == [] then c.asked else Some(IdOf(got[|got| - 1]))
  }

  /** Number of the last published event that is before what the connection still owes. */
  function Place(c: Client): int { c.start - 1 + |TracePart(c.delivered)| }

  function Missing(c: Client, u: State): int { |u.sent| - Place(c) }

  function Excess(missing: int, replay: nat): int {
    if missing > replay then missing - replay else 0
  }

  /** What no ring of this size could have kept. */
  function Unavoidable(cfg: Config, c: Client, u: State): int { Excess(Missing(c, u), cfg.replay) }

  /** What reconnecting in `u` with the held id skips. */
  function Lost(c: Client, u: State): int { NewClient(u, HeldId(c)).start - 1 - Place(c) }

  /**
   Nothing was missed, or there is no replay, or the client holds an id that is not ahead of its
   place, or one that has left the ring.
   */
  predicate KnowsItsPlace(cfg: Config, c: Client, u: State) {
    Tells(HeldId(c), Place(c), |u.sent|, cfg.replay)
  }

  predicate Tells(held: Option<int>, place: int, n: int, replay: nat) {
    || n - place == 0
    || replay == 0
    || (held.Some? && (held.value <= place || held.value <= n - replay))
  }

  // ---- what every client keeps --------------------------------------------------------------

  function OldestKept(cfg: Config, next: int): int {
    if next - 1 <= cfg.replay then 1 else next - cfg.replay
  }

  ghost predicate AskedInv(cfg: Config, s: State, c: Client) {
    && 1 <= c.joined <= s.nextId
    && c.start == FirstOwed(c.asked, OldestKept(cfg, c.joined), c.joined)
  }

  ghost predicate AllAsked(cfg: Config, s: State) {
    forall k | k in s.clients :: AskedInv(cfg, s, s.clients[k])
  }

  predicate SameConnection(c: Client, d: Client) {
    c.start == d.start && c.asked == d.asked && c.joined == d.joined
  }

  lemma ConnectAsks(cfg: Config, s: State, lastId: Option<int>)
    requires RingInv(cfg, s)
    ensures AskedInv(cfg, s, NewClient(s, lastId))
  {
    FirstOwedIn(cfg, s, lastId);
  }

  /** A connection keeps its terms for as long as it is there. */
  ghost predicate KeptIn(s: State, u: State, k: nat) {
    k in s.clients ==> k in u.clients && SameConnection(s.clients[k], u.clients[k])
  }

  lemma StepKeepsConnection(cfg: Config, s: State, a: Action, k: nat)
    requires a != Disconnect(k)
    ensures KeptIn(s, Next(cfg, s, a), k)
  {
    match a
    case PublishTrace(summary) => assert KeptIn(s, PublishOne(cfg, s, summary), k);
    case Publish(name, payload) =>
      assert KeptIn(s, s.(clients := Fanned(s.clients, Event(name, payload, None))), k);
    case _ =>
  }

  lemma OnlyConnectAdds(cfg: Config, s: State, a: Action, k: nat)
    requires k in Next(cfg, s, a).clients && k !in s.clients
    ensures a.Connect? && Next(cfg, s, a).clients[k] == NewClient(s, a.lastId)
  {
  }

  lemma NextIdGrows(cfg: Config, s: State, a: Action)
    ensures s.nextId <= Next(cfg, s, a).nextId
  {
  }

  lemma NextKeepsAsked(cfg: Config, s: State, a: Action)
    requires RingInv(cfg, s) && AllAsked(cfg, s)
    ensures AllAsked(cfg, Next(cfg, s, a))
  {
    var u := Next(cfg, s, a);
    NextIdGrows(cfg, s, a);
    forall k | k in u.clients ensures AskedInv(cfg, u, u.clients[k]) {
      if k in s.clients {
        assert AskedInv(cfg, s, s.clients[k]) && a != Disconnect(k);
        StepKeepsConnection(cfg, s, a, k);
      } else {
        OnlyConnectAdds(cfg, s, a, k);
        ConnectAsks(cfg, s, a.lastId);
      }
    }
  }

  lemma {:induction false} AskedAlways(cfg: Config, actions: seq<Action>)
    ensures AllAsked(cfg, Execute(cfg, actions))
  {
    if actions != [] {
      var front := actions[..|actions| - 1];
      AskedAlways(cfg, front);
      InvAlways(cfg, front);
      NextKeepsAsked(cfg, Execute(cfg, front), actions[|actions| - 1]);
    }
  }

  // ---- the gap ------------------------------------------------------------------------------

  lemma HeldIsPlace(cfg: Config, s: State, c: Client)
    requires ClientInv(s, c) && Numbered(s.sent)
    ensures TracePart(c.delivered) != [] ==> HeldId(c) == Some(Place(c))
    ensures TracePart(c.delivered) == [] ==> HeldId(c) == c.asked && Place(c) == c.start - 1
    ensures 0 <= Place(c) <= |s.sent|
  {
    DeliveredIsARun(s, c);
    var got := TracePart(c.delivered);
    if got != [] {
      assert got[|got| - 1] == s.sent[Place(c) - 1];
    }
  }

  /** What a held id skips when `n` events are published, of which the ring keeps `replay`. */
  function Skips(held: Option<int>, place: int, n: int, replay: nat): int {
    FirstOwed(held, if n <= replay then 1 else n + 1 - replay, n + 1) - 1 - place
  }

  lemma GapArithmetic(held: Option<int>, place: int, n: int, replay: nat)
    requires 0 <= place <= n
    requires held.Some? && held.value < place ==> place <= n - replay || place == 0
    ensures Skips(held, place, n, replay) >= Excess(n - place, replay)
    ensures Skips(held, place, n, replay) == Excess(n - place, replay) <==> Tells(held, place, n, replay)
  {
  }

  lemma LostIs(cfg: Config, u: State, c: Client)
    requires RingInv(cfg, u)
    ensures Lost(c, u) == Skips(HeldId(c), Place(c), |u.sent|, cfg.replay)
  {
    FirstOwedIn(cfg, u, HeldId(c));
  }

  /** An id behind the client's place was already off the ring when it was asked for. */
  lemma HeldBehind(cfg: Config, s: State, c: Client)
    requires RingInv(cfg, s) && ClientInv(s, c) && AskedInv(cfg, s, c)
    ensures 0 <= Place(c) <= |s.sent|
    ensures HeldId(c).Some? && HeldId(c).value < Place(c)
        ==> Place(c) <= |s.sent| - cfg.replay || Place(c) == 0
  {
    HeldIsPlace(cfg, s, c);
  }

  ghost predicate GapOk(cfg: Config, c: Client, u: State) {
    && Lost(c, u) >= Unavoidable(cfg, c, u)
    && (Lost(c, u) == Unavoidable(cfg, c, u) <==> KnowsItsPlace(cfg, c, u))
  }

  lemma GapIs(cfg: Config, s: State, u: State, c: Client)
    requires RingInv(cfg, s) && ClientInv(s, c) && AskedInv(cfg, s, c)
    requires RingInv(cfg, u) && |s.sent| <= |u.sent|
    ensures GapOk(cfg, c, u)
  {
    HeldBehind(cfg, s, c);
    LostIs(cfg, u, c);
    GapArithmetic(HeldId(c), Place(c), |u.sent|, cfg.replay);
  }

  // ---- two connections of one run -----------------------------------------------------------

  lemma {:induction false} ConnectionStays(cfg: Config, before: seq<Action>, rest: seq<Action>, cid: nat)
    requires cid in Execute(cfg, before).clients
    requires forall i | 0 <= i < |rest| :: rest[i] != Disconnect(cid)
    ensures cid in Execute(cfg, before + rest).clients
    ensures SameConnection(Execute(cfg, before).clients[cid], Execute(cfg, before + rest).clients[cid])
  {
    if rest == [] {
      assert before + rest == before;
    } else {
      var front, a := before + rest[..|rest| - 1], rest[|rest| - 1];
      assert before + rest == front + [a];
      ConnectionStays(cfg, before, rest[..|rest| - 1], cid);
      OneMore(cfg, front, a);
      StepKeepsConnection(cfg, Execute(cfg, front), a, cid);
    }
  }

  lemma OneMore(cfg: Config, run: seq<Action>, a: Action)
    ensures Execute(cfg, run + [a]) == Next(cfg, Execute(cfg, run), a)
  {
    assert (run + [a])[..|run|] == run;
  }

  /**
   What two connections deliver together: `c` is the first one as it ended, it reconnected in
   `u`, and `d` is the second one in the later state `e`. The second delivery lies behind the
   first, with exactly `Lost` events between them.
   */
  ghost predicate Joined(cfg: Config, c: Client, u: State, d: Client, e: State) {
    var first, second := TracePart(c.delivered), TracePart(d.delivered);
    var from := Place(c) + Lost(c, u);
    && 0 <= c.start - 1 <= Place(c) <= from <= from + |second| <= |e.sent|
    && first == e.sent[c.start - 1..Place(c)]
    && second == e.sent[from..from + |second|]
  }

  lemma JoinedIs(cfg: Config, s: State, u: State, e: State, c: Client, d: Client)
    requires RingInv(cfg, s) && ClientInv(s, c) && AskedInv(cfg, s, c)
    requires RingInv(cfg, u) && s.sent <= u.sent <= e.sent
    requires ClientInv(e, d) && d.start == NewClient(u, HeldId(c)).start
    ensures Joined(cfg, c, u, d, e)
  {
    GapIs(cfg, s, u, c);
    DeliveredIsARun(s, c);
    DeliveredIsARun(e, d);
    PrefixSlice(s.sent, e.sent, c.start - 1, Place(c));
  }

  lemma PrefixSlice(a: seq<Event>, b: seq<Event>, i: int, j: int)
    requires a <= b && 0 <= i <= j <= |a|
    ensures a[i..j] == b[i..j]
  {
  }

  /** The run in which client `cid`, as it was after `before`, comes back as `again`. */
  function Reconnected(cfg: Config, before: seq<Action>, after: seq<Action>, cid: nat, again: nat): seq<Action>
    requires cid in Execute(cfg, before).clients
  {
    before + after + [Connect(again, HeldId(Execute(cfg, before).clients[cid]))]
  }

  /** The second connection is there at the end, on the terms it was given. */
  lemma SecondConnection(cfg: Config, run: seq<Action>, held: Option<int>, rest: seq<Action>, again: nat)
    requires again !in Execute(cfg, run).clients && |Execute(cfg, run).clients| < cfg.maxClients
    requires forall i | 0 <= i < |rest| :: rest[i] != Disconnect(again)
    ensures var u, e := Execute(cfg, run), Execute(cfg, run + [Connect(again, held)] + rest);
            && again in e.clients && e.clients[again].start == NewClient(u, held).start
            && u.sent <= e.sent
  {
    var next := run + [Connect(again, held)];
    OneMore(cfg, run, Connect(again, held));
    ConnectionStays(cfg, next, rest, again);
    SentOnlyGrows(cfg, next, rest);
  }

  /**
   Across a reconnect, in any run: nothing comes twice, at least the unavoidable gap is lost, and
   only that is lost iff the client knows its place.
   */
  lemma ReconnectLosesOnlyTheGapIff(cfg: Config, before: seq<Action>, after: seq<Action>, rest: seq<Action>,
                                    cid: nat, again: nat)
    requires cid in Execute(cfg, before).clients
    requires again !in Execute(cfg, before + after).clients
    requires |Execute(cfg, before + after).clients| < cfg.maxClients
    requires forall i | 0 <= i < |rest| :: rest[i] != Disconnect(again)
    ensures var c, u := Execute(cfg, before).clients[cid], Execute(cfg, before + after);
            var e := Execute(cfg, Reconnected(cfg, before, after, cid, again) + rest);
            && again in e.clients && Joined(cfg, c, u, e.clients[again], e)
            && Lost(c, u) >= Unavoidable(cfg, c, u)
            && (Lost(c, u) == Unavoidable(cfg, c, u) <==> KnowsItsPlace(cfg, c, u))
  {
    var s, u := Execute(cfg, before), Execute(cfg, before + after);
    var run := Reconnected(cfg, before, after, cid, again) + rest;
    SecondConnection(cfg, before + after, HeldId(s.clients[cid]), rest, again);
    RunFacts(cfg, before, cid);
    RunFacts(cfg, run, again);
    InvAlways(cfg, before + after);
    SentOnlyGrows(cfg, before, after);
    TwoConnections(cfg, s, u, Execute(cfg, run), s.clients[cid], Execute(cfg, run).clients[again]);
  }

  lemma TwoConnections(cfg: Config, s: State, u: State, e: State, c: Client, d: Client)
    requires RingInv(cfg, s) && ClientInv(s, c) && AskedInv(cfg, s, c)
    requires RingInv(cfg, u) && s.sent <= u.sent <= e.sent
    requires ClientInv(e, d) && d.start == NewClient(u, HeldId(c)).start
    ensures Joined(cfg, c, u, d, e) && GapOk(cfg, c, u)
  {
    GapIs(cfg, s, u, c);
    JoinedIs(cfg, s, u, e, c, d);
  }

  lemma RunFacts(cfg: Config, run: seq<Action>, cid: nat)
    requires cid in Execute(cfg, run).clients
    ensures RingInv(cfg, Execute(cfg, run))
    ensures ClientInv(Execute(cfg, run), Execute(cfg, run).clients[cid])
    ensures AskedInv(cfg, Execute(cfg, run), Execute(cfg, run).clients[cid])
  {
    InvAlways(cfg, run);
    AskedAlways(cfg, run);
  }

  /** A client that was delivered a trace event always knows its place. */
  lemma OneDeliveryIsEnough(cfg: Config, before: seq<Action>, after: seq<Action>, cid: nat)
    requires cid in Execute(cfg, before).clients
    requires TracePart(Execute(cfg, before).clients[cid].delivered) != []
    ensures var c, u := Execute(cfg, before).clients[cid], Execute(cfg, before + after);
            KnowsItsPlace(cfg, c, u) && Lost(c, u) == Unavoidable(cfg, c, u)
  {
    var s, u := Execute(cfg, before), Execute(cfg, before + after);
    RunFacts(cfg, before, cid);
    HeldIsPlace(cfg, s, s.clients[cid]);
    InvAlways(cfg, before + after);
    SentOnlyGrows(cfg, before, after);
    GapIs(cfg, s, u, s.clients[cid]);
  }

  /** One that never was, and brought no id, loses everything published meanwhile. */
  lemma NothingDeliveredLosesAll(cfg: Config, before: seq<Action>, after: seq<Action>, cid: nat)
    requires cid in Execute(cfg, before).clients
    requires HeldId(Execute(cfg, before).clients[cid]).None?
    ensures var c, u := Execute(cfg, before).clients[cid], Execute(cfg, before + after);
            Lost(c, u) == Missing(c, u)
  {
    InvAlways(cfg, before + after);
    FirstOwedIn(cfg, Execute(cfg, before + after), None);
  }

  /** The losing run: the one event published is in the ring, and still lost. */
  lemma FirstEventCanBeLost()
    ensures var cfg := Config(200, 20);
            var s, u := Execute(cfg, [Connect(1, None)]), Execute(cfg, [Connect(1, None)] + [PublishTrace(7)]);
            && 1 in s.clients && |u.ring| == 1
            && Lost(s.clients[1], u) == 1 && Unavoidable(cfg, s.clients[1], u) == 0
  {
    var cfg := Config(200, 20);
    OneMore(cfg, [], Connect(1, None));
    assert [] + [Connect(1, None)] == [Connect(1, None)];
    OneMore(cfg, [Connect(1, None)], PublishTrace(7));
    NothingDeliveredLosesAll(cfg, [Connect(1, None)], [PublishTrace(7)], 1);
  }
}
