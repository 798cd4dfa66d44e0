/**
 The thread of layawatch/store/writer.py: the loop of `_run` around collect and commit, the flush
 acknowledgement and the exit. Other threads may act between any two of its steps.
 */
module WriterLoop {
  import opened Options
  import opened RollupTable
  import opened WriterModel
  import opened WriterLaws
  import WriterRollupLaws

  /** Where the writer thread is; the flags are the ones it read under the lock. */
  datatype Thread =
    | Collecting
    | Collected
    | Decided(stopping: bool, flush: bool)
    | Finished(stopping: bool, flush: bool, status: Outcome)
    | Exited(status: Outcome)

  /**
   `left` is how many producers were waiting for room when the thread left its loop; `gone` says
   that it has been through the lock region of its `finally` since.
   */
  datatype Loop = Loop(s: State, at: Thread, flushWanted: bool, acked: bool, left: nat, gone: bool)

  const BEGIN := Loop(INIT, Collecting, false, true, 0, false)

  datatype Turn =
    | Other(a: Action)                                   // a producer, or stop
    | FlushNow                                           // by a call that found the thread alive
    | Take                                               // one popleft of _collect
    | Return                                             // _collect returns its batch
    | ReadFlags
    | Write(outcome: Outcome, due: seq<BucketKey>)       // _commit
    | Check                                              // the lock region after it
    | Leave                                              // the lock region of the `finally`

  /** What other threads can do to the queue. */
  predicate Producing(a: Action) { a.Offer? || a.OfferLog? || a.Wake? || a.BeginStop? }

  /** How a commit may end; `close_all` closes every bucket there is. */
  predicate CanEnd(s: State, closeAll: bool, outcome: Outcome, due: seq<BucketKey>) {
    && ValidDue(Work(s), due)
    && (closeAll ==> forall k | k in Work(s) :: k in due)
    && (outcome.Requeued? ==> !s.retried)
    && (s.inflight == [] && due == [] ==> outcome.Committed?)
  }

  function After(cfg: Config, l: Loop, t: Turn): Loop {
    match t
    case Other(a) => if Producing(a) then l.(s := Next(cfg, l.s, a)) else l
    case FlushNow => l.(flushWanted := true, acked := false)
    case Take => if l.at.Collecting? then l.(s := PopOne(cfg, l.s)) else l
    case Return =>
      if l.at.Collecting? && (l.s.inflight != [] || l.s.queue == []) then l.(at := Collected) else l
    case ReadFlags =>
      if l.at.Collected? then l.(at := Decided(l.s.stopping, l.flushWanted)) else l
    case Write(outcome, due) =>
      if l.at.Decided? && CanEnd(l.s, l.at.stopping || l.at.flush, outcome, due)
      then l.(s := Finish(l.s, outcome, due), at := Finished(l.at.stopping, l.at.flush, outcome))
      else l
    case Check =>
      if !l.at.Finished? then l
      else if l.at.status.Requeued? || l.s.queue != [] then l.(at := Collecting)
      else
        l.(flushWanted := l.flushWanted && !l.at.flush, acked := l.acked || l.at.flush,
           at := if l.at.stopping then Exited(l.at.status) else Collecting,
           left := if l.at.stopping then |l.s.waiting| else l.left)
    case Leave =>
      if !l.at.Exited? || l.gone then l else l.(flushWanted := false, acked := true, gone := true)
  }

  function Turns(cfg: Config, turns: seq<Turn>): Loop {
    if turns == [] then BEGIN
    else After(cfg, Turns(cfg, turns[..|turns| - 1]), turns[|turns| - 1])
  }

  // ---- invariants ---------------------------------------------------------------------------

  /** After a commit the batch is gone, and a successful one that closes all leaves none open. */
  ghost predicate Settled(s: State, status: Outcome, closeAll: bool) {
    s.inflight == [] && (status.Committed? && closeAll ==> s.open == map[])
  }

  function Fewer(x: int, y: int): int { if x <= y then x else y }

  /** At the exit: of the producers that waited, those that have moved on fill the queue first. */
  ghost predicate ThreadOk(cfg: Config, l: Loop) {
    match l.at
    case Decided(stopping, _) => stopping ==> l.s.stopping
    case Finished(stopping, flush, status) =>
      Settled(l.s, status, stopping || flush) && (stopping ==> l.s.stopping)
    case Exited(status) =>
      && !status.Requeued? && Settled(l.s, status, true) && l.s.stopping
      && |l.s.waiting| <= l.left
      && |l.s.queue| == Fewer(l.left - |l.s.waiting|, cfg.queueMax)
    case _ => true
  }

  predicate SameBatch(s: State, u: State) {
    u.inflight == s.inflight && u.open == s.open && u.hist.committed == s.hist.committed
    && (s.stopping ==> u.stopping)
  }

  lemma ProducersLeaveTheBatch(cfg: Config, s: State, a: Action)
    requires Producing(a)
    ensures SameBatch(s, Next(cfg, s, a))
  {
    match a
    case Offer(t) => assert SameBatch(s, OfferTrace(cfg, s, t));
    case OfferLog(l) => assert SameBatch(s, OfferLogEntry(cfg, s, l));
    case Wake(i, timeUp) => assert SameBatch(s, WakeWaiter(cfg, s, i, timeUp));
    case BeginStop =>
  }

  /** Nobody waits, or one waiter less and one item more in the queue if it had room. */
  predicate MovedOn(cfg: Config, s: State, u: State) {
    || (u.queue == s.queue && u.waiting == s.waiting)
    || (|u.waiting| == |s.waiting| - 1 && |u.queue| == Fewer(|s.queue| + 1, cfg.queueMax))
  }

  lemma StoppedProducersMoveOn(cfg: Config, s: State, a: Action)
    requires Producing(a) && s.stopping && |s.queue| <= cfg.queueMax
    ensures MovedOn(cfg, s, Next(cfg, s, a))
  {
    match a
    case Offer(t) => assert MovedOn(cfg, s, OfferTrace(cfg, s, t));
    case OfferLog(l) => assert MovedOn(cfg, s, OfferLogEntry(cfg, s, l));
    case Wake(i, timeUp) => assert MovedOn(cfg, s, WakeWaiter(cfg, s, i, timeUp));
    case BeginStop =>
  }

  lemma FinishSettles(s: State, closeAll: bool, outcome: Outcome, due: seq<BucketKey>)
    requires CanEnd(s, closeAll, outcome, due)
    ensures Settled(Finish(s, outcome, due), outcome, closeAll)
    ensures Finish(s, outcome, due).stopping == s.stopping
  {
    if outcome.Committed? && closeAll {
      NothingLeft(s, due);
    }
  }

  lemma NothingLeft(s: State, due: seq<BucketKey>)
    requires ValidDue(Work(s), due) && forall k | k in Work(s) :: k in due
    ensures CommitOk(s, due).open == map[]
  {
    if s.inflight == [] && due == [] {
      assert Work(s) == s.open;
    }
    assert forall k :: k !in CommitOk(s, due).open;
  }

  lemma TurnKeepsThread(cfg: Config, l: Loop, t: Turn)
    requires ThreadOk(cfg, l)
    ensures ThreadOk(cfg, After(cfg, l, t))
  {
    match t
    case Other(a) =>
      if Producing(a) {
        ProducersLeaveTheBatch(cfg, l.s, a);
        if l.at.Exited? {
          StoppedProducersMoveOn(cfg, l.s, a);
        }
      }
    case Write(outcome, due) =>
      if l.at.Decided? && CanEnd(l.s, l.at.stopping || l.at.flush, outcome, due) {
        FinishSettles(l.s, l.at.stopping || l.at.flush, outcome, due);
      }
    case _ =>
  }

  /** What a turn does to the writer's state is one of its actions, or nothing. */
  predicate IsAction(cfg: Config, s: State, u: State, a: Action) { u == Next(cfg, s, a) }

  lemma TurnIsAction(cfg: Config, l: Loop, t: Turn)
    ensures After(cfg, l, t).s == l.s
            || match t
               case Other(a) => IsAction(cfg, l.s, After(cfg, l, t).s, a)
               case Take => IsAction(cfg, l.s, After(cfg, l, t).s, Pop)
               case Write(outcome, due) => IsAction(cfg, l.s, After(cfg, l, t).s, Commit(outcome, due))
               case _ => false
  {
    match t
    case Other(a) => assert IsAction(cfg, l.s, Next(cfg, l.s, a), a);
    case Take => assert IsAction(cfg, l.s, PopOne(cfg, l.s), Pop);
    case Write(outcome, due) => assert IsAction(cfg, l.s, Finish(l.s, outcome, due), Commit(outcome, due));
    case _ =>
  }

  lemma ActionKeepsQueue(cfg: Config, s: State, u: State, a: Action)
    requires QueueInv(cfg, s) && IsAction(cfg, s, u, a)
    ensures QueueInv(cfg, u)
  {
    StepKeepsQueueInv(cfg, s, a);
  }

  lemma TurnKeepsQueue(cfg: Config, l: Loop, t: Turn)
    requires QueueInv(cfg, l.s)
    ensures QueueInv(cfg, After(cfg, l, t).s)
  {
    var u := After(cfg, l, t).s;
    TurnIsAction(cfg, l, t);
    if u != l.s {
      match t
      case Other(a) => ActionKeepsQueue(cfg, l.s, u, a);
      case Take => ActionKeepsQueue(cfg, l.s, u, Pop);
      case Write(outcome, due) => ActionKeepsQueue(cfg, l.s, u, Commit(outcome, due));
      case _ =>
    }
  }

  lemma {:induction false} ThreadOkAlways(cfg: Config, turns: seq<Turn>)
    ensures ThreadOk(cfg, Turns(cfg, turns))
  {
    if turns != [] {
      ThreadOkAlways(cfg, turns[..|turns| - 1]);
      TurnKeepsThread(cfg, Turns(cfg, turns[..|turns| - 1]), turns[|turns| - 1]);
    }
  }

  lemma {:induction false} QueueInvForLife(cfg: Config, turns: seq<Turn>)
    ensures QueueInv(cfg, Turns(cfg, turns).s)
  {
    if turns == [] {
      QueueInvAlways(cfg, []);
    } else {
      QueueInvForLife(cfg, turns[..|turns| - 1]);
      TurnKeepsQueue(cfg, Turns(cfg, turns[..|turns| - 1]), turns[|turns| - 1]);
    }
  }

  // ---- main results -------------------------------------------------------------------------

  /** Everything accepted is committed, or dropped and counted, or still waiting for room. */
  ghost predicate AllSettled(s: State) {
    && s.queue == [] && s.inflight == []
    && multiset(s.hist.offered)
       == multiset(s.hist.committed) + multiset(s.hist.discarded) + multiset(s.waiting)
  }

  /** This turn sets the flush acknowledgement. */
  predicate Acknowledges(cfg: Config, l: Loop, t: Turn) { !l.acked && After(cfg, l, t).acked }

  /** In the loop it sets the acknowledgement, or it leaves the loop. */
  predicate Signals(cfg: Config, l: Loop, t: Turn) {
    !l.at.Exited? && (Acknowledges(cfg, l, t) || After(cfg, l, t).at.Exited?)
  }

  /**
   What an acknowledgement in the loop, and leaving the loop, mean in every interleaving: queue
   and batch are empty, all that was accepted is settled but for producers still waiting, and no
   bucket is open unless the batch of that turn was dropped.
   */
  lemma SignalMeansSettled(cfg: Config, turns: seq<Turn>, t: Turn)
    requires Signals(cfg, Turns(cfg, turns), t)
    ensures var l := Turns(cfg, turns);
            && l.at.Finished? && AllSettled(l.s) && After(cfg, l, t).s == l.s
            && (l.s.open != map[] ==> l.at.status.Dropped?)
  {
    ThreadOkAlways(cfg, turns);
    QueueInvForLife(cfg, turns);
    SettledByPartition(cfg, Turns(cfg, turns).s);
  }

  lemma SettledByPartition(cfg: Config, s: State)
    requires QueueInv(cfg, s)
    ensures s.queue == [] && s.inflight == [] ==> AllSettled(s)
  {
  }

  /** After the exit too, buckets are open only if the last batch was dropped. */
  lemma ExitKeepsOpenOnlyIfDropped(cfg: Config, turns: seq<Turn>)
    requires Turns(cfg, turns).at.Exited?
    ensures var l := Turns(cfg, turns);
            l.s.inflight == [] && (l.s.open != map[] ==> l.at.status.Dropped?)
  {
    ThreadOkAlways(cfg, turns);
  }

  /** A flush, or the exit, closes every bucket iff its batch is not dropped or none was open. */
  lemma ClosesAllIff(cfg: Config, l: Loop, outcome: Outcome, due: seq<BucketKey>)
    requires l.at.Decided? && (l.at.stopping || l.at.flush) && !outcome.Requeued?
    requires CanEnd(l.s, true, outcome, due)
    ensures After(cfg, l, Write(outcome, due)).s.open == map[] <==> outcome.Committed? || l.s.open == map[]
  {
    FinishSettles(l.s, true, outcome, due);
  }

  // ---- what is left behind ------------------------------------------------------------------

  lemma ExitedStep(cfg: Config, l: Loop, t: Turn)
    requires l.at.Exited?
    ensures var m := After(cfg, l, t);
            && m.at == l.at && m.left == l.left && m.s.hist.committed == l.s.hist.committed
  {
    if t.Other? && Producing(t.a) {
      ProducersLeaveTheBatch(cfg, l.s, t.a);
    }
  }

  lemma OneMore(cfg: Config, turns: seq<Turn>, t: Turn)
    ensures Turns(cfg, turns + [t]) == After(cfg, Turns(cfg, turns), t)
  {
    assert (turns + [t])[..|turns|] == turns;
  }

  /** After the exit nothing is committed any more, whatever the others do. */
  lemma {:induction false} NothingAfterExit(cfg: Config, turns: seq<Turn>, rest: seq<Turn>)
    requires Turns(cfg, turns).at.Exited?
    ensures var l, m := Turns(cfg, turns), Turns(cfg, turns + rest);
            && m.at == l.at && m.left == l.left && m.s.hist.committed == l.s.hist.committed
  {
    if rest == [] {
      assert turns + rest == turns;
    } else {
      var front, t := rest[..|rest| - 1], rest[|rest| - 1];
      NothingAfterExit(cfg, turns, front);
      assert turns + rest == (turns + front) + [t];
      OneMore(cfg, turns + front, t);
      ExitedStep(cfg, Turns(cfg, turns + front), t);
    }
  }

  /**
   How much is stranded, at any time after the exit: of the producers that waited then, as many
   as have moved on since, up to the size of the queue.
   */
  lemma StrandedExactly(cfg: Config, turns: seq<Turn>)
    requires Turns(cfg, turns).at.Exited?
    ensures var l := Turns(cfg, turns);
            && |l.s.waiting| <= l.left
            && |l.s.queue| == Fewer(l.left - |l.s.waiting|, cfg.queueMax)
  {
    ThreadOkAlways(cfg, turns);
  }

  /** Some continuation leaves something in the queue. */
  ghost predicate CanStrand(cfg: Config, turns: seq<Turn>) {
    exists rest :: Turns(cfg, turns + rest).s.queue != []
  }

  /** Something can be stranded iff some producer was waiting at the exit, ... */
  lemma StrandsIff(cfg: Config, turns: seq<Turn>)
    requires Turns(cfg, turns).at.Exited? && cfg.queueMax >= 1
    ensures CanStrand(cfg, turns) <==> Turns(cfg, turns).left > 0
  {
    if CanStrand(cfg, turns) {
      var rest :| Turns(cfg, turns + rest).s.queue != [];
      NoWaiterNothingLeft(cfg, turns, rest);
    }
    if Turns(cfg, turns).left > 0 {
      StrandOne(cfg, turns);
    }
  }

  /** ... which is so iff one still waits or has moved on into the queue. */
  lemma LeftIff(cfg: Config, turns: seq<Turn>)
    requires Turns(cfg, turns).at.Exited? && cfg.queueMax >= 1
    ensures Turns(cfg, turns).left > 0
       <==> Turns(cfg, turns).s.queue != [] || Turns(cfg, turns).s.waiting != []
  {
    StrandedExactly(cfg, turns);
  }

  lemma NoWaiterNothingLeft(cfg: Config, turns: seq<Turn>, rest: seq<Turn>)
    requires Turns(cfg, turns).at.Exited?
    ensures Turns(cfg, turns + rest).s.queue != [] ==> Turns(cfg, turns).left > 0
  {
    NothingAfterExit(cfg, turns, rest);
    StrandedExactly(cfg, turns + rest);
  }

  /** Waking one of those who wait is enough. */
  lemma StrandOne(cfg: Config, turns: seq<Turn>)
    requires Turns(cfg, turns).at.Exited? && cfg.queueMax >= 1 && Turns(cfg, turns).left > 0
    ensures CanStrand(cfg, turns)
  {
    var l := Turns(cfg, turns);
    ThreadOkAlways(cfg, turns);
    if l.s.queue != [] {
      assert turns + [] == turns;
      assert Turns(cfg, turns + []).s.queue != [];
    } else {
      var wake := Other(Wake(0, false));
      OneMore(cfg, turns, wake);
      assert |l.s.waiting| > 0;
      assert Turns(cfg, turns + [wake]).s.queue != [];
    }
  }

  // ---- acknowledgements after the loop ------------------------------------------------------

  /**
   A flush asked for too late for the loop is acknowledged on the way out, and means less there:
   what producers have moved into the queue since the exit stays unsettled.
   */
  lemma LeavingAcknowledges(cfg: Config, turns: seq<Turn>, t: Turn)
    requires Turns(cfg, turns).at.Exited? && Acknowledges(cfg, Turns(cfg, turns), t)
    ensures var l := Turns(cfg, turns);
            && !l.gone && SettledBut(l.s, l.s.queue)
            && |l.s.queue| == Fewer(l.left - |l.s.waiting|, cfg.queueMax)
            && (l.s.open != map[] ==> l.at.status.Dropped?)
  {
    ExitKeepsOpenOnlyIfDropped(cfg, turns);
    StrandedExactly(cfg, turns);
    QueueInvForLife(cfg, turns);
    OnlyQueuedLeft(cfg, Turns(cfg, turns).s);
    AcknowledgesBeforeGone(cfg, Turns(cfg, turns), t);
  }

  lemma AcknowledgesBeforeGone(cfg: Config, l: Loop, t: Turn)
    requires l.at.Exited? && Acknowledges(cfg, l, t)
    ensures !l.gone
  {
  }

  /** The batch is empty, and all accepted items but these are settled or waiting. */
  ghost predicate SettledBut(s: State, items: seq<Item>) {
    && s.inflight == []
    && multiset(s.hist.offered)
       == multiset(s.hist.committed) + multiset(s.hist.discarded) + multiset(s.waiting) + multiset(items)
  }

  lemma OnlyQueuedLeft(cfg: Config, s: State)
    requires QueueInv(cfg, s) && s.inflight == []
    ensures SettledBut(s, s.queue)
  {
  }

  predicate GoneOk(l: Loop) { l.gone ==> l.at.Exited? }

  lemma GoneStep(cfg: Config, l: Loop, t: Turn)
    requires GoneOk(l)
    ensures GoneOk(After(cfg, l, t))
    ensures l.gone ==> After(cfg, l, t).gone && (After(cfg, l, t).acked <==> l.acked && !t.FlushNow?)
    ensures !l.gone && After(cfg, l, t).gone ==> After(cfg, l, t).acked
  {
  }

  lemma {:induction false} GoneAlways(cfg: Config, turns: seq<Turn>)
    ensures GoneOk(Turns(cfg, turns))
  {
    if turns != [] {
      GoneAlways(cfg, turns[..|turns| - 1]);
      GoneStep(cfg, Turns(cfg, turns[..|turns| - 1]), turns[|turns| - 1]);
    }
  }

  /** The way out acknowledges whatever flush was asked for before it. */
  lemma LeaveAcknowledgesAll(cfg: Config, turns: seq<Turn>)
    requires Turns(cfg, turns).at.Exited? && !Turns(cfg, turns).gone
    ensures Turns(cfg, turns + [Leave]).acked && Turns(cfg, turns + [Leave]).gone
  {
    OneMore(cfg, turns, Leave);
  }

  predicate AsksForFlush(turns: seq<Turn>) { exists i :: 0 <= i < |turns| && turns[i].FlushNow? }

  /** Behind it nothing is: a flush is acknowledged then iff none was asked for since. */
  lemma {:induction false} FlushTimesOutIff(cfg: Config, turns: seq<Turn>, rest: seq<Turn>)
    requires Turns(cfg, turns).at.Exited? && !Turns(cfg, turns).gone
    ensures Turns(cfg, turns + [Leave] + rest).gone
    ensures Turns(cfg, turns + [Leave] + rest).acked <==> !AsksForFlush(rest)
  {
    if rest == [] {
      assert turns + [Leave] + rest == turns + [Leave];
      LeaveAcknowledgesAll(cfg, turns);
    } else {
      var front, t := rest[..|rest| - 1], rest[|rest| - 1];
      FlushTimesOutIff(cfg, turns, front);
      assert turns + [Leave] + rest == (turns + [Leave] + front) + [t];
      OneMore(cfg, turns + [Leave] + front, t);
      GoneAlways(cfg, turns + [Leave] + front);
      GoneStep(cfg, Turns(cfg, turns + [Leave] + front), t);
      AsksLast(front, t);
      assert rest == front + [t];
    }
  }

  lemma AsksLast(front: seq<Turn>, t: Turn)
    ensures AsksForFlush(front + [t]) <==> AsksForFlush(front) || t.FlushNow?
  {
    assert (front + [t])[|front|] == t && forall i | 0 <= i < |front| :: (front + [t])[i] == front[i];
  }

  // ---- a stranded trace ---------------------------------------------------------------------

  const TINY := Config(1, 1)
  const LINE := Log(0.0, "full")
  const LATE := Trace(1, 0.0, 1.0, 0.0, "/predict", None, 200, None, None)

  const FULL := [Other(OfferLog(LINE))]
  const WAITS := FULL + [Other(Offer(LATE))]
  const STOPS := WAITS + [Other(BeginStop)]
  const TAKES := STOPS + [Take]
  const RETURNS := TAKES + [Return]
  const READS := RETURNS + [ReadFlags]
  const WRITES := READS + [Write(Committed, [])]
  const LEAVES := WRITES + [Check]
  const STRANDS := LEAVES + [Other(Wake(0, false))]

  /** One log line on its way out, one trace waiting, nothing open or dropped. */
  predicate Stage(l: Loop, at: Thread, queue: seq<Item>, inflight: seq<Item>) {
    && l.at == at && l.s.queue == queue && l.s.inflight == inflight
    && l.s.waiting == [TraceItem(LATE)] && l.s.stopping && l.s.open == map[]
    && l.s.hist.discarded == []
  }

  lemma StageFull()
    ensures var l := Turns(TINY, FULL);
            && l.at == Collecting && l.s.queue == [LogItem(LINE)] && l.s.inflight == []
            && l.s.waiting == [] && !l.s.stopping && l.s.open == map[] && l.s.hist.discarded == []
  {
    OneMore(TINY, [], Other(OfferLog(LINE)));
    assert [] + [Other(OfferLog(LINE))] == FULL;
  }

  lemma FullQueueWaits(s: State)
    requires s.queue == [LogItem(LINE)] && !s.stopping
    ensures OfferTrace(TINY, s, LATE) == Offered(s, TraceItem(LATE)).(waiting := s.waiting + [TraceItem(LATE)])
  {
  }

  lemma StageWaiting()
    ensures var l := Turns(TINY, WAITS);
            && l.at == Collecting && l.s.queue == [LogItem(LINE)] && l.s.inflight == []
            && l.s.waiting == [TraceItem(LATE)] && l.s.open == map[] && l.s.hist.discarded == []
  {
    StageFull();
    FullQueueWaits(Turns(TINY, FULL).s);
    OneMore(TINY, FULL, Other(Offer(LATE)));
  }

  lemma StageStopping()
    ensures Stage(Turns(TINY, STOPS), Collecting, [LogItem(LINE)], [])
  {
    StageWaiting();
    OneMore(TINY, WAITS, Other(BeginStop));
  }

  lemma StageTaken()
    ensures Stage(Turns(TINY, TAKES), Collecting, [], [LogItem(LINE)])
  {
    StageStopping();
    OneMore(TINY, STOPS, Take);
    assert [] + [LogItem(LINE)] == [LogItem(LINE)] && [LogItem(LINE)][1..] == [];
  }

  lemma StageDecided()
    ensures Stage(Turns(TINY, READS), Decided(true, Turns(TINY, RETURNS).flushWanted), [], [LogItem(LINE)])
  {
    StageTaken();
    OneMore(TINY, TAKES, Return);
    OneMore(TINY, RETURNS, ReadFlags);
  }

  lemma NoBuckets(s: State)
    requires s.open == map[] && s.inflight == [LogItem(LINE)]
    ensures CanEnd(s, true, Committed, []) && Finish(s, Committed, []) == CommitOk(s, [])
    ensures CommitOk(s, []).open == map[]
  {
    assert [LogItem(LINE)][..0] == [];
    assert AccumulateAll(map[], [LogItem(LINE)][..0]) == map[];
    assert Work(s) == map[];
  }

  lemma StageWritten()
    ensures Stage(Turns(TINY, WRITES), Finished(true, Turns(TINY, RETURNS).flushWanted, Committed), [], [])
  {
    StageDecided();
    NoBuckets(Turns(TINY, READS).s);
    OneMore(TINY, READS, Write(Committed, []));
  }

  lemma StageLeft()
    ensures Stage(Turns(TINY, LEAVES), Exited(Committed), [], [])
  {
    StageWritten();
    OneMore(TINY, WRITES, Check);
  }

  /** A trace accepted before stop ends in the queue of a writer that is gone, uncounted. */
  lemma WaiterCanBeStranded()
    ensures var l := Turns(TINY, STRANDS);
            l.at.Exited? && l.s.queue == [TraceItem(LATE)] && l.s.hist.discarded == []
  {
    StageLeft();
    OneMore(TINY, LEAVES, Other(Wake(0, false)));
    assert [] + [TraceItem(LATE)] == [TraceItem(LATE)];
  }

  /**
   `flush_now` returns at once when the thread is not alive. A call that finds it alive and gets
   the lock only after the `finally` waits for an acknowledgement that never comes.
   */
  lemma FlushCanTimeOut(rest: seq<Turn>)
    ensures !Turns(TINY, LEAVES + [Leave] + [FlushNow] + rest).acked
  {
    StageLeft();
    NotGoneYet();
    FlushTimesOutIff(TINY, LEAVES, [FlushNow] + rest);
    assert ([FlushNow] + rest)[0].FlushNow?;
    assert LEAVES + [Leave] + [FlushNow] + rest == LEAVES + [Leave] + ([FlushNow] + rest);
  }

  lemma NotGoneYet()
    ensures !Turns(TINY, LEAVES).gone
  {
    StageWritten();
    GoneAlways(TINY, WRITES);
    OneMore(TINY, WRITES, Check);
  }

  // ---- a flush that leaves a bucket open ----------------------------------------------------

  const COLLECTS := [Other(Offer(LATE))] + [Take] + [Return] + [ReadFlags]
  const COMMITS := COLLECTS + [Write(Committed, [])] + [Check]
  const FLUSHES := COMMITS + [FlushNow] + [Return] + [ReadFlags]
  const ALL_KEYS := [KeyOf(LATE, Requests), KeyOf(LATE, Latency), KeyOf(LATE, Queue)]
  const FAILS := FLUSHES + [Write(Dropped, ALL_KEYS)]
  const OPENED := Accumulate(map[], LATE)

  /** The thread at `at` with nothing queued and these buckets open. */
  predicate Idle(l: Loop, at: Thread, inflight: seq<Item>, open: OpenMap) {
    && l.at == at && l.s.queue == [] && l.s.inflight == inflight && l.s.open == open && !l.s.stopping
  }

  lemma TraceCollected()
    ensures Idle(Turns(TINY, COLLECTS), Decided(false, false), [TraceItem(LATE)], map[])
  {
    OneMore(TINY, [], Other(Offer(LATE)));
    assert [] + [Other(Offer(LATE))] == [Other(Offer(LATE))];
    assert [] + [TraceItem(LATE)] == [TraceItem(LATE)] && [TraceItem(LATE)][1..] == [];
    OneMore(TINY, [Other(Offer(LATE))], Take);
    OneMore(TINY, [Other(Offer(LATE))] + [Take], Return);
    OneMore(TINY, [Other(Offer(LATE))] + [Take] + [Return], ReadFlags);
  }

  lemma WorkIsOpened(s: State)
    requires s.open == map[] && s.inflight == [TraceItem(LATE)]
    ensures Work(s) == OPENED
  {
    assert [TraceItem(LATE)][..0] == [];
    assert AccumulateAll(map[], [TraceItem(LATE)][..0]) == map[];
  }

  lemma BucketsOpened()
    ensures Idle(Turns(TINY, COMMITS), Collecting, [], OPENED)
  {
    TraceCollected();
    WorkIsOpened(Turns(TINY, COLLECTS).s);
    OneMore(TINY, COLLECTS, Write(Committed, []));
    OneMore(TINY, COLLECTS + [Write(Committed, [])], Check);
    assert (set k: BucketKey | k in []) == {};
    assert OPENED - {} == OPENED;
  }

  lemma FlushRead()
    ensures Idle(Turns(TINY, FLUSHES), Decided(false, true), [], OPENED) && !Turns(TINY, FLUSHES).acked
  {
    BucketsOpened();
    OneMore(TINY, COMMITS, FlushNow);
    OneMore(TINY, COMMITS + [FlushNow], Return);
    OneMore(TINY, COMMITS + [FlushNow] + [Return], ReadFlags);
  }

  lemma AllKeysAreDue(s: State)
    requires s.open == OPENED && s.inflight == []
    ensures CanEnd(s, true, Dropped, ALL_KEYS) && OPENED != map[]
  {
    assert Work(s) == OPENED;
    forall k ensures k in OPENED <==> k in ALL_KEYS {
      WriterRollupLaws.AccumulateAdds(map[], LATE, k);
      match k.dims.metric
      case Requests =>
      case Errors =>
      case Latency =>
      case Queue =>
    }
    assert KeyOf(LATE, Requests) in OPENED;
  }

  /**
   The documentation of `flush_now` says it closes every open bucket; when the flush's own batch
   fails it is acknowledged all the same, and the bucket is still open.
   */
  lemma FlushCanLeaveBucketsOpen()
    ensures var l := Turns(TINY, FAILS);
            && Signals(TINY, l, Check) && After(TINY, l, Check).acked
            && After(TINY, l, Check).s.open != map[]
  {
    FlushRead();
    AllKeysAreDue(Turns(TINY, FLUSHES).s);
    OneMore(TINY, FLUSHES, Write(Dropped, ALL_KEYS));
  }
}
