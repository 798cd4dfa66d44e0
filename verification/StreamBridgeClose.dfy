/** What closing the stream bridge of layawatch/app.py does to its queue and its producer. */
module StreamBridgeClose {
  import opened StreamBridge

  /** The one chunk a producer may still put after it has passed the stop check. */
  function InHand(p: Producer): seq<Chunk> { if p.Offering? then [p.chunk] else [] }

  /** Nothing more is written, or the chunk in hand. */
  predicate OnlyTheChunkInHand(s: State, u: State) {
    && u.stop
    && ((u.written == s.written && (InHand(u.producer) == InHand(s.producer) || InHand(u.producer) == []))
        || (InHand(s.producer) != [] && u.written == s.written + InHand(s.producer)
            && InHand(u.producer) == []))
  }

  lemma StoppedStep(s: State, a: Action)
    requires s.stop
    ensures OnlyTheChunkInHand(s, Next(s, a))
  {
  }

  lemma {:induction false} AfterStop(s: State, after: seq<Action>)
    requires s.stop
    ensures OnlyTheChunkInHand(s, ExecuteFrom(s, after))
  {
    if after != [] {
      var front, a := after[..|after| - 1], after[|after| - 1];
      AfterStop(s, front);
      StoppedStep(ExecuteFrom(s, front), a);
    }
  }

  /**
   Once the consumer has closed, in any interleaving the producer gets at most the chunk in hand
   into the queue, and every later write finds the stream broken.
   */
  lemma AtMostOneMoreChunk(actions: seq<Action>, after: seq<Action>, chunk: Chunk)
    requires Execute(actions).stop
    ensures var s, u := Execute(actions), ExecuteFrom(Execute(actions), after);
            && (u.written == s.written || u.written == s.written + InHand(s.producer))
            && (u.producer.Ready? ==> Next(u, Offer(chunk)).producer == Broken)
  {
    AfterStop(Execute(actions), after);
  }

  lemma RunStep(s: State, front: seq<Action>, a: Action)
    ensures ExecuteFrom(s, front + [a]) == Next(ExecuteFrom(s, front), a)
  {
    OneMore(s, front, a);
  }

  /** From wherever it is, the producer thread ends after a close: its write breaks and it finishes. */
  lemma ProducerEnds(actions: seq<Action>, chunk: Chunk)
    requires Execute(actions).stop
    ensures var leave := [PutTimesOut, Signal, Offer(chunk), SetDone, Signal];
            ExecuteFrom(Execute(actions), leave).producer == Gone
  {
    var s := Execute(actions);
    RunThree(s, PutTimesOut, Signal, Offer(chunk));
    RunStep(s, [PutTimesOut, Signal, Offer(chunk)], SetDone);
    RunStep(s, [PutTimesOut, Signal, Offer(chunk), SetDone], Signal);
    assert [PutTimesOut, Signal, Offer(chunk)] + [SetDone] == [PutTimesOut, Signal, Offer(chunk), SetDone];
    assert [PutTimesOut, Signal, Offer(chunk), SetDone] + [Signal]
        == [PutTimesOut, Signal, Offer(chunk), SetDone, Signal];
  }

  // ---- draining -----------------------------------------------------------------------------

  function Drains(n: nat): seq<Action> { if n == 0 then [] else Drains(n - 1) + [Drain] }

  /** `n` chunks have been taken from the front, and thrown away. */
  predicate DrainedBy(s: State, u: State, n: nat) {
    && n <= |s.queue| && u.queue == s.queue[n..] && u.consumer == s.consumer
    && u.stop == s.stop && u.delivered == s.delivered
  }

  lemma DrainStep(s: State, u: State, n: nat)
    requires s.consumer.Draining? && DrainedBy(s, u, n)
    ensures n < |s.queue| ==> DrainedBy(s, Next(u, Drain), n + 1)
    ensures n == |s.queue| ==> Emptied(s, Next(u, Drain))
  {
  }

  predicate Emptied(s: State, u: State) {
    u.consumer == Closed && u.queue == [] && u.stop == s.stop && u.delivered == s.delivered
  }

  lemma {:induction false} DrainsTakeFromTheFront(s: State, n: nat)
    requires s.consumer.Draining? && n <= |s.queue|
    ensures DrainedBy(s, ExecuteFrom(s, Drains(n)), n)
  {
    if n > 0 {
      DrainsTakeFromTheFront(s, n - 1);
      RunStep(s, Drains(n - 1), Drain);
      DrainStep(s, ExecuteFrom(s, Drains(n - 1)), n - 1);
    }
  }

  lemma DrainsEmpty(s: State)
    requires s.consumer.Draining?
    ensures Emptied(s, ExecuteFrom(s, Drains(|s.queue| + 1)))
  {
    DrainsTakeFromTheFront(s, |s.queue|);
    RunStep(s, Drains(|s.queue|), Drain);
    DrainStep(s, ExecuteFrom(s, Drains(|s.queue|)), |s.queue|);
  }

  lemma CloseThenDrain(s: State, n: nat)
    ensures ExecuteFrom(s, [Close] + Drains(n)) == ExecuteFrom(Next(s, Close), Drains(n))
  {
    RunsChain(s, [Close], Drains(n));
    RunStep(s, [], Close);
    assert [] + [Close] == [Close];
  }

  /**
   The response may end wherever the consumer can be suspended: after a chunk, parked, or past the
   end. Closing there stops the producer, empties the queue and delivers nothing more.
   */
  lemma CloseEmptiesTheQueue(actions: seq<Action>)
    requires var c := Execute(actions).consumer; c.Between? || c.Parked? || c.Ended?
    ensures var s := Execute(actions);
            var u := ExecuteFrom(s, [Close] + Drains(|s.queue| + 1));
            u.consumer == Closed && u.stop && u.queue == [] && u.delivered == s.delivered
  {
    var s := Execute(actions);
    CloseThenDrain(s, |s.queue| + 1);
    DrainsEmpty(Next(s, Close));
  }
}
