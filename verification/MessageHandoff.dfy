/**
 * How completed messages reach core 0: ten message buffers used in turn, a queue of ten pointers to them, and the
 * one message core 0 is showing to its callback. A message that is not done with in time is received over.
 */
module MessageHandoff {
  /** PHY_BMC_DECODER_MESSAGE_BUFFER_SIZE and PHY_BMC_DECODER_QUEUE_LENGTH */
  const BUFFERS: nat := 10
  const QUEUE_LENGTH: nat := 10

  /**
   * The buffers, the one being received into, the one core 0 has in hand, if any, and the ones queued. History:
   * every message published, and which of them each of those pointers was meant for.
   */
  datatype Handoff<M> = Handoff(
    buffers: seq<M>,
    index: nat,
    hand: seq<nat>,
    queue: seq<nat>,
    published: seq<M>,
    handMeant: seq<nat>,
    meant: seq<nat>)
  {
    /** The pointers core 0 has not done with, oldest first, and what each was meant for. */
    function Held(): seq<nat> { hand + queue }
    function HeldMeant(): seq<nat> { handMeant + meant }
  }

  predicate Shaped<M>(h: Handoff<M>) {
    && |h.buffers| == BUFFERS && h.index < BUFFERS
    && |h.hand| == |h.handMeant| <= 1 && |h.queue| == |h.meant| <= QUEUE_LENGTH
    && (forall i :: 0 <= i < |h.hand| ==> h.hand[i] < BUFFERS)
    && forall i :: 0 <= i < |h.queue| ==> h.queue[i] < BUFFERS
  }

  function Begin<M>(buffers: seq<M>): Handoff<M> {
    Handoff(buffers, 0, [], [], [], [], [])
  }

  /** A message is complete: its pointer is queued if there is room, and the next buffer is received into. */
  function Publish<M>(h: Handoff<M>, message: M): (r: Handoff<M>)
    requires Shaped(h)
    ensures Shaped(r)
  {
    var room := |h.queue| < QUEUE_LENGTH;
    h.(buffers := h.buffers[h.index := message], index := if h.index == BUFFERS - 1 then 0 else h.index + 1,
       queue := if room then h.queue + [h.index] else h.queue, published := h.published + [message],
       meant := if room then h.meant + [|h.published|] else h.meant)
  }

  /** Core 0, if it has nothing in hand, takes the first pointer off the queue. */
  function Take<M>(h: Handoff<M>): (r: Handoff<M>)
    requires Shaped(h)
    ensures Shaped(r)
  {
    if h.queue == [] || h.hand != [] then h
    else h.(hand := h.queue[..1], queue := h.queue[1..], handMeant := h.meant[..1], meant := h.meant[1..])
  }

  /** The callback has returned: core 0 is done with what it has in hand. */
  function PutDown<M>(h: Handoff<M>): Handoff<M> {
    h.(hand := [], handMeant := [])
  }

  datatype Step<M> = Publishes(message: M) | Takes | PutsDown

  function Advance<M>(h: Handoff<M>, step: Step<M>): (r: Handoff<M>)
    requires Shaped(h)
    ensures Shaped(r)
  {
    match step
    case Publishes(message) => Publish(h, message)
    case Takes => Take(h)
    case PutsDown => PutDown(h)
  }

  function Run<M>(h: Handoff<M>, steps: seq<Step<M>>): (r: Handoff<M>)
    requires Shaped(h)
    ensures Shaped(r)
  {
    if steps == [] then h else Advance(Run(h, steps[..|steps| - 1]), steps[|steps| - 1])
  }

  /** Every buffer but the one in use holds the last message published from it. */
  ghost predicate Holds<M>(h: Handoff<M>) {
    && Shaped(h) && h.index == |h.published| % BUFFERS
    && (forall i :: 0 <= i < |h.Held()| ==>
          h.HeldMeant()[i] < |h.published| && h.Held()[i] == h.HeldMeant()[i] % BUFFERS)
    && forall k :: 0 <= k < |h.published| < k + BUFFERS ==> h.buffers[k % BUFFERS] == h.published[k]
  }

  lemma PublishHolds<M>(h: Handoff<M>, message: M)
    requires Holds(h)
    ensures Holds(Publish(h, message))
  {
    var p, n := Publish(h, message), |h.published|;
    NextIndex(n);
    forall k | 0 <= k <= n < k + BUFFERS - 1
      ensures p.buffers[k % BUFFERS] == p.published[k]
    {
      if k < n {
        OtherBuffer(k, n);
      }
    }
    forall i | 0 <= i < |p.Held()|
      ensures p.HeldMeant()[i] < |p.published| && p.Held()[i] == p.HeldMeant()[i] % BUFFERS
    {
      if i < |h.Held()| {
        assert p.Held()[i] == h.Held()[i] && p.HeldMeant()[i] == h.HeldMeant()[i];
      }
    }
  }

  lemma NextIndex(n: nat)
    ensures (n + 1) % BUFFERS == if n % BUFFERS == BUFFERS - 1 then 0 else n % BUFFERS + 1
  {
  }

  lemma OtherBuffer(k: nat, n: nat)
    requires k < n < k + BUFFERS
    ensures k % BUFFERS != n % BUFFERS
  {
  }

  /** Taking a pointer leaves the pointers held as they are; putting one down drops the oldest. */
  lemma TakeKeepsHeld<M>(h: Handoff<M>)
    requires Shaped(h)
    ensures Take(h).Held() == h.Held() && Take(h).HeldMeant() == h.HeldMeant()
    ensures PutDown(h).Held() == h.Held()[|h.hand|..] && PutDown(h).HeldMeant() == h.HeldMeant()[|h.hand|..]
  {
  }

  lemma {:induction false} RunsHold<M>(buffers: seq<M>, steps: seq<Step<M>>)
    requires |buffers| == BUFFERS
    ensures Holds(Run(Begin(buffers), steps))
  {
    if steps == [] {
    } else {
      RunsHold(buffers, steps[..|steps| - 1]);
      AdvanceHolds(Run(Begin(buffers), steps[..|steps| - 1]), steps[|steps| - 1]);
    }
  }

  lemma AdvanceHolds<M>(h: Handoff<M>, step: Step<M>)
    requires Holds(h)
    ensures Holds(Advance(h, step))
  {
    match step
    case Publishes(message) => PublishHolds(h, message);
    case Takes => TakeHolds(h);
    case PutsDown => TakeHolds(h);
  }

  lemma TakeHolds<M>(h: Handoff<M>)
    requires Holds(h)
    ensures Holds(Take(h)) && Holds(PutDown(h))
  {
    TakeKeepsHeld(h);
    hide Take;
  }

  /** The pointer leads to the message it was meant for, which nothing has been received over. */
  ghost predicate Intact<M>(h: Handoff<M>, i: nat)
    requires Shaped(h) && i < |h.Held()|
  {
    var buffer, k := h.Held()[i], h.HeldMeant()[i];
    buffer != h.index && k < |h.published| < k + BUFFERS && h.buffers[buffer] == h.published[k]
  }

  /** A message held is intact if and only if fewer than ten have been published since, itself included. */
  lemma IntactIffRecent<M>(buffers: seq<M>, steps: seq<Step<M>>, i: nat)
    requires |buffers| == BUFFERS && i < |Run(Begin(buffers), steps).Held()|
    ensures var h := Run(Begin(buffers), steps); Intact(h, i) <==> |h.published| - h.HeldMeant()[i] < 10
  {
    var h := Run(Begin(buffers), steps);
    RunsHold(buffers, steps);
    if |h.published| - h.HeldMeant()[i] < 10 {
      OtherBuffer(h.HeldMeant()[i], |h.published|);
    }
  }

  ghost predicate AllIntact<M>(h: Handoff<M>)
    requires Shaped(h)
  {
    forall i :: 0 <= i < |h.Held()| ==> Intact(h, i)
  }

  /** Messages waiting and the one in hand have never come to ten. */
  predicate NeverTen<M>(buffers: seq<M>, steps: seq<Step<M>>)
    requires |buffers| == BUFFERS
  {
    |Run(Begin(buffers), steps).Held()| < 10 && (steps == [] || NeverTen(buffers, steps[..|steps| - 1]))
  }

  /** Every message has been intact from when it was queued until core 0 was done with it. */
  ghost predicate AlwaysIntact<M>(buffers: seq<M>, steps: seq<Step<M>>)
    requires |buffers| == BUFFERS
  {
    AllIntact(Run(Begin(buffers), steps)) && (steps == [] || AlwaysIntact(buffers, steps[..|steps| - 1]))
  }

  /** What is held is the last messages published, in order. */
  predicate InStep<M>(h: Handoff<M>)
    requires Shaped(h)
  {
    var n := |h.Held()|;
    n <= |h.published| && forall i :: 0 <= i < n ==> h.HeldMeant()[i] == |h.published| - n + i
  }

  lemma PublishInStep<M>(h: Handoff<M>, message: M)
    requires Shaped(h) && InStep(h) && |h.Held()| < 10
    ensures InStep(Publish(h, message))
  {
    var p := Publish(h, message);
    assert p.Held() == h.Held() + [h.index] && p.HeldMeant() == h.HeldMeant() + [|h.published|];
  }

  /** That is so up to the first time ten are held. */
  lemma {:induction false} HeldInStep<M>(buffers: seq<M>, steps: seq<Step<M>>)
    requires |buffers| == BUFFERS && (steps == [] || NeverTen(buffers, steps[..|steps| - 1]))
    ensures InStep(Run(Begin(buffers), steps))
  {
    if steps == [] {
    } else {
      var rest, last := steps[..|steps| - 1], steps[|steps| - 1];
      HeldInStep(buffers, rest);
      hide Advance, InStep;
      StepInStep(Run(Begin(buffers), rest), last);
    }
  }

  lemma StepInStep<M>(h: Handoff<M>, step: Step<M>)
    requires Shaped(h) && InStep(h) && |h.Held()| < 10
    ensures InStep(Advance(h, step))
  {
    hide Publish, Take, PutDown;
    TakeKeepsHeld(h);
    if step.Publishes? {
      PublishInStep(h, step.message);
    } else {
      TakePublishesNone(h);
    }
  }

  lemma TakePublishesNone<M>(h: Handoff<M>)
    requires Shaped(h)
    ensures Take(h).published == PutDown(h).published == h.published
  {
  }

  /**
   * Every message stays intact until core 0 is done with it if and only if the messages waiting and the one in hand
   * never come to ten: then the buffer being received into is the oldest one's.
   */
  lemma {:induction false} IntactIffNeverTen<M>(buffers: seq<M>, steps: seq<Step<M>>)
    requires |buffers| == BUFFERS
    ensures AlwaysIntact(buffers, steps) <==> NeverTen(buffers, steps)
  {
    if steps == [] {
    } else {
      IntactIffNeverTen(buffers, steps[..|steps| - 1]);
    }
    if steps == [] || NeverTen(buffers, steps[..|steps| - 1]) {
      HeldInStep(buffers, steps);
      AllIntactIff(buffers, steps);
    }
  }

  lemma AllIntactIff<M>(buffers: seq<M>, steps: seq<Step<M>>)
    requires |buffers| == BUFFERS && InStep(Run(Begin(buffers), steps))
    ensures AllIntact(Run(Begin(buffers), steps)) <==> |Run(Begin(buffers), steps).Held()| < 10
  {
    var h := Run(Begin(buffers), steps);
    forall i | 0 <= i < |h.Held()|
      ensures Intact(h, i) <==> |h.Held()| - i < 10
    {
      IntactIffRecent(buffers, steps, i);
    }
    if |h.Held()| >= 10 {
      assert !Intact(h, 0);
    }
  }

  // ----- It happens -----

  /** `n` messages one after another. */
  function Many<M>(message: M, n: nat): (steps: seq<Step<M>>)
    ensures |steps| == n
  {
    seq(n, i => Publishes(message))
  }

  /** While there is room, publications only queue up. */
  lemma {:induction false} ManyQueueUp<M>(buffers: seq<M>, first: seq<Step<M>>, message: M, n: nat)
    requires |buffers| == BUFFERS && |Run(Begin(buffers), first).queue| + n <= 10
    ensures var h, t := Run(Begin(buffers), first), Run(Begin(buffers), first + Many(message, n));
      && t.hand == h.hand && |t.queue| == |h.queue| + n && h.queue <= t.queue
      && |t.published| == |h.published| + n
  {
    var steps := first + Many(message, n);
    if n == 0 {
      assert steps == first;
    } else {
      ManyQueueUp(buffers, first, message, n - 1);
      assert steps[..|steps| - 1] == first + Many(message, n - 1);
    }
  }

  /** Ten waiting with none taken: the first one's buffer is being received into. */
  lemma TenWaitingLoseTheFirst<M>(buffers: seq<M>, message: M)
    requires |buffers| == BUFFERS
    ensures var h := Run(Begin(buffers), Many(message, 10));
      |h.queue| == 10 && h.queue[0] == h.index
  {
    var one, nine := Many(message, 1), Many(message, 9);
    assert one[..0] == [] && Run(Begin(buffers), one).queue == [0];
    ManyQueueUp(buffers, one, message, 9);
    assert one + nine == Many(message, 10);
    RunsHold(buffers, Many(message, 10));
  }

  /** One taken and nine waiting: core 0 is reading the buffer being received into. */
  lemma NineWaitingLoseTheOneInHand<M>(buffers: seq<M>, message: M)
    requires |buffers| == BUFFERS
    ensures var h := Run(Begin(buffers), [Publishes(message), Takes] + Many(message, 9));
      |h.queue| == 9 && h.hand == [h.index]
  {
    var first := [Publishes(message), Takes];
    assert first[..1] == [Publishes(message)] && first[..1][..0] == [];
    assert Run(Begin(buffers), first[..1]).queue == [0];
    var h := Run(Begin(buffers), first);
    assert h.hand == [0] && h.queue == [] && |h.published| == 1;
    ManyQueueUp(buffers, first, message, 9);
    RunsHold(buffers, first + Many(message, 9));
  }
}
