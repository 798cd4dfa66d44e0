/**
 The ASGI stream bridge, `_Writer` of layawatch/app.py: one producer thread, one consumer
 coroutine on the event loop, a bounded queue, a `done` flag and one sticky wake event. One
 `Action` is one operation the other side can observe: a put, a flag write, a scheduled
 callback, a poll.
 */
module StreamBridge {

  const MAX_QUEUE := 64

  type Chunk = nat

  /** Where the producer thread is inside `write` or `finish`. */
  datatype Producer =
    | Ready
    | Offering(chunk: Chunk)     // past the stop check, in queue.put
    | Signalling                 // put done, _signal still to run
    | Broken                     // BrokenPipeError raised, finish still to run
    | Finishing                  // done set, _signal still to run
    | Gone

  /** Where the consumer coroutine is. The loop runs callbacks only where it is suspended. */
  datatype Consumer =
    | Between                    // yielded a chunk; suspended in the response's send
    | Polling                    // about to get_nowait
    | Checking                   // the queue read empty, about to read done
    | Parking                    // done read clear, about to clear the event
    | Parked                     // suspended in wait
    | Ended                      // returned EOF
    | Draining                   // close: stop set, emptying the queue
    | Closed

  /** `written` lists every chunk put, `delivered` every chunk read. */
  datatype State = State(
    queue: seq<Chunk>, stop: bool, done: bool, wake: bool, callbacks: nat,
    producer: Producer, consumer: Consumer, written: seq<Chunk>, delivered: seq<Chunk>)

  const INIT := State([], false, false, false, 0, Ready, Between, [], [])

  datatype Action =
    | Offer(chunk: Chunk)        // write reads the stop flag
    | Put                        // queue.put succeeds
    | PutTimesOut                // queue.Full, back to the stop check
    | Signal                     // call_soon_threadsafe(wake.set)
    | SetDone
    | NextRead
    | Poll
    | CheckDone
    | Clear                      // wake.clear() and the start of wait()
    | RunCallback
    | Resume
    | Close                      // end of the response generator, also when cancelled
    | Drain

  function Suspended(c: Consumer): bool {
    c.Between? || c.Parked? || c.Ended? || c.Closed?
  }

  function NextProducer(s: State, a: Action): State {
    match a
    case Offer(chunk) =>
      if !s.producer.Ready? then s
      else s.(producer := if s.stop then Broken else Offering(chunk))
    case Put =>
      if !s.producer.Offering? || |s.queue| >= MAX_QUEUE then s
      else s.(queue := s.queue + [s.producer.chunk], written := s.written + [s.producer.chunk],
              producer := Signalling)
    case PutTimesOut =>
      if s.producer.Offering? && s.stop then s.(producer := Broken) else s
    case Signal =>
      if s.producer.Signalling? then s.(callbacks := s.callbacks + 1, producer := Ready)
      else if s.producer.Finishing? then s.(callbacks := s.callbacks + 1, producer := Gone)
      else s
    case SetDone =>
      if s.producer.Ready? || s.producer.Broken? then s.(done := true, producer := Finishing) else s
    case _ => s
  }

  function NextConsumer(s: State, a: Action): State {
    match a
    case NextRead => if s.consumer.Between? then s.(consumer := Polling) else s
    case Poll =>
      if !s.consumer.Polling? then s
      else if s.queue == [] then s.(consumer := Checking)
      else s.(consumer := Between, delivered := s.delivered + [s.queue[0]], queue := s.queue[1..])
    case CheckDone =>
      if !s.consumer.Checking? then s
      else s.(consumer := if s.done then Ended else Parking)
    case Clear => if s.consumer.Parking? then s.(wake := false, consumer := Parked) else s
    case RunCallback =>
      if s.callbacks == 0 || !Suspended(s.consumer) then s
      else s.(callbacks := s.callbacks - 1, wake := true)
    case Resume => if s.consumer.Parked? && s.wake then s.(consumer := Polling) else s
    case Close =>
      if s.consumer.Between? || s.consumer.Parked? || s.consumer.Ended?
      then s.(stop := true, consumer := Draining) else s
    case Drain =>
      if !s.consumer.Draining? then s
      else if s.queue == [] then s.(consumer := Closed)
      else s.(queue := s.queue[1..])
    case _ => s
  }

  predicate ProducerStep(a: Action) {
    a.Offer? || a.Put? || a.PutTimesOut? || a.Signal? || a.SetDone?
  }

  function Next(s: State, a: Action): State {
    if ProducerStep(a) then NextProducer(s, a) else NextConsumer(s, a)
  }

  /** A run from any state, so that runs can be continued. */
  function ExecuteFrom(s: State, actions: seq<Action>): State {
    if actions == [] then s
    else Next(ExecuteFrom(s, actions[..|actions| - 1]), actions[|actions| - 1])
  }

  function Execute(actions: seq<Action>): State { ExecuteFrom(INIT, actions) }

  // ---- invariants -------------------------------------------------------------------------

  /** A wake is scheduled, or the producer is between its put (or done) and its signal. */
  predicate WakeComing(s: State) {
    s.callbacks > 0 || s.producer.Signalling? || s.producer.Finishing?
  }

  predicate Asleep(s: State) { s.consumer.Parked? && !s.wake }

  ghost predicate WakeInv(s: State) {
    && (s.queue != [] && (s.consumer.Checking? || s.consumer.Parking? || Asleep(s)) ==> WakeComing(s))
    && (s.done && (s.consumer.Parking? || Asleep(s)) ==> WakeComing(s))
  }

  ghost predicate OrderInv(s: State) {
    && |s.queue| <= MAX_QUEUE && s.delivered <= s.written
    && (s.consumer.Draining? || s.consumer.Closed? || s.written == s.delivered + s.queue)
    && (s.done <==> s.producer.Finishing? || s.producer.Gone?)
    && (s.stop <==> s.consumer.Draining? || s.consumer.Closed?)
    && (s.consumer.Ended? ==> s.done)
  }

  lemma ProducerKeepsWake(s: State, a: Action)
    requires WakeInv(s)
    ensures WakeInv(NextProducer(s, a))
  {
  }

  lemma ConsumerKeepsWake(s: State, a: Action)
    requires WakeInv(s)
    ensures WakeInv(NextConsumer(s, a))
  {
  }

  lemma ProducerKeepsOrder(s: State, a: Action)
    requires OrderInv(s)
    ensures OrderInv(NextProducer(s, a))
  {
    if a.Put? && s.producer.Offering? {
      assert s.delivered + (s.queue + [s.producer.chunk]) == (s.delivered + s.queue) + [s.producer.chunk];
    }
  }

  lemma ConsumerKeepsOrder(s: State, a: Action)
    requires OrderInv(s)
    ensures OrderInv(NextConsumer(s, a))
  {
    if s.queue != [] {
      assert (s.delivered + [s.queue[0]]) + s.queue[1..] == s.delivered + s.queue;
    }
  }

  lemma {:induction false} InvAlways(actions: seq<Action>)
    ensures WakeInv(Execute(actions)) && OrderInv(Execute(actions))
  {
    if actions != [] {
      var s, a := Execute(actions[..|actions| - 1]), actions[|actions| - 1];
      InvAlways(actions[..|actions| - 1]);
      ProducerKeepsWake(s, a);
      ConsumerKeepsWake(s, a);
      ProducerKeepsOrder(s, a);
      ConsumerKeepsOrder(s, a);
    }
  }

  // ---- main results -----------------------------------------------------------------------

  /** No lost wakeup, in every interleaving. */
  lemma NoLostWakeup(actions: seq<Action>)
    ensures var s := Execute(actions);
            s.consumer.Parked? && !s.wake && (s.queue != [] || s.done)
            ==> s.callbacks > 0 || s.producer.Signalling? || s.producer.Finishing?
  {
    InvAlways(actions);
  }

  lemma OneMore(s: State, run: seq<Action>, a: Action)
    ensures ExecuteFrom(s, run + [a]) == Next(ExecuteFrom(s, run), a)
  {
    assert (run + [a])[..|run|] == run;
  }

  lemma RunThree(s: State, a: Action, b: Action, c: Action)
    ensures ExecuteFrom(s, [a, b, c]) == Next(Next(Next(s, a), b), c)
  {
    OneMore(s, [], a);
    OneMore(s, [a], b);
    OneMore(s, [a, b], c);
    assert [] + [a] == [a] && [a] + [b] == [a, b] && [a, b] + [c] == [a, b, c];
  }

  lemma RunsChain(s: State, run: seq<Action>, rest: seq<Action>)
    ensures ExecuteFrom(s, run + rest) == ExecuteFrom(ExecuteFrom(s, run), rest)
  {
    if rest == [] {
      assert run + rest == run;
    } else {
      var front := rest[..|rest| - 1];
      assert run + rest == (run + front) + [rest[|rest| - 1]];
      OneMore(s, run + front, rest[|rest| - 1]);
      RunsChain(s, run, front);
    }
  }

  /**
   What is coming does wake it: letting the producer finish its call and the loop run one
   callback brings a parked consumer back to its poll with the queue untouched.
   */
  lemma WakeArrives(actions: seq<Action>)
    requires var s := Execute(actions); s.consumer.Parked? && (s.queue != [] || s.done)
    ensures var s := Execute(actions);
            var u := ExecuteFrom(s, [Signal, RunCallback, Resume]);
            u.consumer.Polling? && u.queue == s.queue && u.done == s.done
  {
    InvAlways(actions);
    WakesFrom(Execute(actions));
  }

  lemma WakesFrom(s: State)
    requires WakeInv(s) && s.consumer.Parked? && (s.queue != [] || s.done)
    ensures var u := ExecuteFrom(s, [Signal, RunCallback, Resume]);
            u.consumer.Polling? && u.queue == s.queue && u.done == s.done
  {
    RunThree(s, Signal, RunCallback, Resume);
    var s1 := NextProducer(s, Signal);
    var s2 := NextConsumer(s1, RunCallback);
    assert s2.wake && s2.consumer.Parked?;
  }

  /** Delivered chunks are a prefix of the written ones; before close the queue is the rest. */
  lemma DeliveredIsPrefix(actions: seq<Action>)
    ensures var s := Execute(actions);
            && s.delivered <= s.written && |s.queue| <= 64
            && (!s.stop ==> s.written == s.delivered + s.queue)
  {
    InvAlways(actions);
  }

  lemma NothingAfterDoneStep(s: State, a: Action)
    requires OrderInv(s) && s.done
    ensures Next(s, a).done && Next(s, a).written == s.written
    ensures |Next(s, a).queue| <= |s.queue|
  {
  }

  lemma {:induction false} NothingAfterDone(s: State, after: seq<Action>)
    requires OrderInv(s) && s.done
    ensures var u := ExecuteFrom(s, after);
            OrderInv(u) && u.done && u.written == s.written && |u.queue| <= |s.queue|
  {
    if after != [] {
      var m, a := ExecuteFrom(s, after[..|after| - 1]), after[|after| - 1];
      NothingAfterDone(s, after[..|after| - 1]);
      NothingAfterDoneStep(m, a);
      ProducerKeepsOrder(m, a);
      ConsumerKeepsOrder(m, a);
    }
  }

  /**
   What EOF means: the reader that sees `done` has everything that was or ever will be written
   iff the queue is still empty at that check.
   */
  lemma EofIsCompleteIff(actions: seq<Action>, after: seq<Action>)
    requires var s := Execute(actions); s.consumer.Checking? && s.done
    ensures var s := Execute(actions);
            && Next(s, CheckDone).consumer == Ended
            && (s.delivered == ExecuteFrom(s, after).written <==> s.queue == [])
  {
    InvAlways(actions);
    NothingAfterDone(Execute(actions), after);
  }

  /** If `done` was set before the poll that found nothing, nothing can be lost. */
  lemma DoneBeforePollIsComplete(actions: seq<Action>, after: seq<Action>)
    requires var s := Execute(actions); s.consumer.Polling? && s.done && s.queue == []
    ensures var s := Execute(actions); s.delivered == ExecuteFrom(s, after).written
  {
    InvAlways(actions);
    NothingAfterDone(Execute(actions), after);
  }

  /** The race behind that condition: the last put and `done` both fall after the poll. */
  const EMPTY_POLL := [NextRead, Poll, Offer(7)]
  const LAST_CHUNK := [Put, Signal, SetDone]
  const LOSING_RUN := EMPTY_POLL + LAST_CHUNK + [CheckDone]

  lemma EofCanLoseAChunk()
    ensures var s := Execute(LOSING_RUN);
            s.consumer == Ended && s.written == [7] && s.delivered == []
  {
    OneMore(INIT, EMPTY_POLL + LAST_CHUNK, CheckDone);
    RunsChain(INIT, EMPTY_POLL, LAST_CHUNK);
    RunThree(INIT, NextRead, Poll, Offer(7));
    RunThree(Execute(EMPTY_POLL), Put, Signal, SetDone);
  }

  // ---- the object -------------------------------------------------------------------------

  class Bridge {
    var queue: seq<Chunk>
    var stop: bool
    var done: bool
    var wake: bool
    var callbacks: nat
    ghost var producer: Producer
    ghost var consumer: Consumer
    ghost var written: seq<Chunk>
    ghost var delivered: seq<Chunk>

    ghost function View(): State
      reads this
    {
      State(queue, stop, done, wake, callbacks, producer, consumer, written, delivered)
    }

    constructor ()
      ensures View() == INIT
    {
      queue, stop, done, wake, callbacks := [], false, false, false, 0;
      producer, consumer, written, delivered := Ready, Between, [], [];
    }

    /** The head of the loop in `write`: false is BrokenPipeError. */
    method CheckStop(chunk: Chunk) returns (open: bool)
      requires producer.Ready?
      modifies this
      ensures View() == Next(old(View()), Offer(chunk)) && open == !old(stop)
    {
      open := !stop;
      producer := if stop then Broken else Offering(chunk);
    }

    /** One `queue.put`; false is queue.Full. */
    method TryPut(chunk: Chunk) returns (ok: bool)
      requires producer == Offering(chunk)
      modifies this
      ensures View() == Next(old(View()), Put) && ok == (|old(queue)| < 64)
    {
      ok := |queue| < MAX_QUEUE;
      if ok {
        queue := queue + [chunk];
        written := written + [chunk];
        producer := Signalling;
      }
    }

    /** `_signal`: schedule one `wake.set` on the loop. */
    method ScheduleWake()
      requires producer.Signalling? || producer.Finishing?
      modifies this
      ensures View() == Next(old(View()), Signal)
    {
      callbacks := callbacks + 1;
      producer := if producer.Signalling? then Ready else Gone;
    }

    /** The first half of `finish`. */
    method MarkDone()
      requires producer.Ready? || producer.Broken?
      modifies this
      ensures View() == Next(old(View()), SetDone)
    {
      done := true;
      producer := Finishing;
    }

    /** The stretch of `read` that runs without a yield, with no producer step in between. */
    method ReadUntilYield() returns (chunk: seq<Chunk>, eof: bool)
      requires consumer.Polling?
      modifies this
      ensures var s := old(View());
              View() == if s.queue != [] then Next(s, Poll)
                        else if s.done then Next(Next(s, Poll), CheckDone)
                        else Next(Next(Next(s, Poll), CheckDone), Clear)
      ensures chunk == (if |old(queue)| > 0 then [old(queue)[0]] else [])
      ensures eof <==> old(queue) == [] && old(done)
    {
      if queue != [] {
        chunk, eof := [queue[0]], false;
        delivered := delivered + [queue[0]];
        queue := queue[1..];
        consumer := Between;
      } else if done {
        chunk, eof := [], true;
        consumer := Ended;
      } else {
        chunk, eof := [], false;
        wake := false;
        consumer := Parked;
      }
    }

    method RunOneCallback()
      requires callbacks > 0 && Suspended(consumer)
      modifies this
      ensures View() == Next(old(View()), RunCallback)
    {
      callbacks, wake := callbacks - 1, true;
    }

    /** The first half of `close`. */
    method BeginClose()
      requires consumer.Between? || consumer.Parked? || consumer.Ended?
      modifies this
      ensures View() == Next(old(View()), Close)
    {
      stop := true;
      consumer := Draining;
    }

    /** One pass of the drain loop of `close`; false once the queue reads empty. */
    method DrainOne() returns (more: bool)
      requires consumer.Draining?
      modifies this
      ensures View() == Next(old(View()), Drain) && more == (old(queue) != [])
    {
      more := queue != [];
      if more {
        queue := queue[1..];
      } else {
        consumer := Closed;
      }
    }
  }
}
