/**
 * The timestamps an interrupt latches at each frame start and the receive loop collects at each frame marker,
 * through a ring that drops its oldest entry when full and counts the drops. The ring is compared with a
 * model that never forgets anything.
 */
module IngressTimestamps {
  import opened Options

  const LENGTH := 16
  /** One slot stays free to tell a full ring from an empty one. */
  const CAPACITY := 15

  /** The ring, oldest entry first, with the count of answers still owed for dropped entries. */
  datatype Ring = Ring(queue: seq<nat>, pendingMissing: nat, frameStarts: nat, overflows: nat, missing: nat)

  const EMPTY := Ring([], 0, 0, 0, 0)

  function Latch(r: Ring, timestamp: nat): Ring {
    if |r.queue| == CAPACITY then
      Ring(r.queue[1..] + [timestamp], r.pendingMissing + 1, r.frameStarts + 1, r.overflows + 1, r.missing)
    else
      Ring(r.queue + [timestamp], r.pendingMissing, r.frameStarts + 1, r.overflows, r.missing)
  }

  function Consume(r: Ring): (Ring, Option<nat>) {
    if r.pendingMissing > 0 then (r.(pendingMissing := r.pendingMissing - 1, missing := r.missing + 1), None)
    else if r.queue == [] then (r.(missing := r.missing + 1), None)
    else (r.(queue := r.queue[1..]), Some(r.queue[0]))
  }

  // ----- Runs of interrupts and markers, in any order -----

  datatype Step = FrameStart(timestamp: nat) | Marker

  function After(steps: seq<Step>): Ring {
    if steps == [] then EMPTY
    else
      var r, last := After(steps[..|steps| - 1]), steps[|steps| - 1];
      if last.Marker? then Consume(r).0 else Latch(r, last.timestamp)
  }

  /** What the markers of the run were answered, in order. */
  function Answers(steps: seq<Step>): seq<Option<nat>> {
    if steps == [] then []
    else
      var rest := steps[..|steps| - 1];
      if steps[|steps| - 1].Marker? then Answers(rest) + [Consume(After(rest)).1] else Answers(rest)
  }

  /** The timestamps latched, all of them: frame k's is entry k. */
  function Stamps(steps: seq<Step>): seq<nat> {
    if steps == [] then []
    else
      var rest, last := steps[..|steps| - 1], steps[|steps| - 1];
      if last.Marker? then Stamps(rest) else Stamps(rest) + [last.timestamp]
  }

  /** How many of the frames so far have had their answer: a marker with no frame waiting answers for none. */
  function Served(steps: seq<Step>): nat {
    if steps == [] then 0
    else
      var rest := steps[..|steps| - 1];
      if steps[|steps| - 1].Marker? && Served(rest) < |Stamps(rest)| then Served(rest) + 1 else Served(rest)
  }

  /** The answer due to one more marker: the next frame's own timestamp, unless fifteen newer frames wait. */
  function Due(steps: seq<Step>): Option<nat>
    requires Served(steps) <= |Stamps(steps)|
  {
    var n, k := |Stamps(steps)|, Served(steps);
    if k < n <= k + CAPACITY then Some(Stamps(steps)[k]) else None
  }

  /** The ring holds the newest timestamps not yet answered for, and owes an answer for each older one. */
  ghost predicate Tracks(r: Ring, stamps: seq<nat>, served: nat) {
    && served <= |stamps|
    && |r.queue| <= CAPACITY && |r.queue| <= |stamps|
    && r.queue == stamps[|stamps| - |r.queue|..]
    && r.pendingMissing == |stamps| - |r.queue| - served
    && (r.pendingMissing > 0 ==> |r.queue| == CAPACITY)
    && r.frameStarts == |stamps|
  }

  lemma {:induction false} RingTracks(steps: seq<Step>)
    ensures Tracks(After(steps), Stamps(steps), Served(steps))
  {
    if steps == [] {
    } else {
      var rest := steps[..|steps| - 1];
      RingTracks(rest);
      StepTracks(After(rest), Stamps(rest), Served(rest));
    }
  }

  lemma StepTracks(r: Ring, stamps: seq<nat>, served: nat)
    requires Tracks(r, stamps, served)
    ensures forall t :: Tracks(Latch(r, t), stamps + [t], served)
    ensures Tracks(Consume(r).0, stamps, if served < |stamps| then served + 1 else served)
    ensures Consume(r).1 == if served < |stamps| <= served + CAPACITY then Some(stamps[served]) else None
  {
    var n, m := |stamps|, |r.queue|;
    forall t ensures Tracks(Latch(r, t), stamps + [t], served) {
      if m == CAPACITY {
        assert r.queue[1..] == stamps[n - m..][1..] == stamps[n - m + 1..];
        assert (stamps + [t])[n - m + 1..] == stamps[n - m + 1..] + [t];
      } else {
        assert (stamps + [t])[n - m..] == stamps[n - m..] + [t];
      }
    }
    if r.pendingMissing == 0 && m > 0 {
      assert r.queue[1..] == stamps[n - m..][1..] == stamps[n - m + 1..];
    }
  }

  /** The reference: what each marker of a run is owed. */
  function Owed(steps: seq<Step>): seq<Option<nat>> {
    if steps == [] then []
    else
      var rest := steps[..|steps| - 1];
      RingTracks(rest);
      if steps[|steps| - 1].Marker? then Owed(rest) + [Due(rest)] else Owed(rest)
  }

  /** Whatever the interleaving, and across any overflows, the ring answers as the unforgetting model does. */
  lemma {:induction false} RingAnswersAsOwed(steps: seq<Step>)
    ensures Answers(steps) == Owed(steps)
  {
    if steps == [] {
    } else {
      var rest := steps[..|steps| - 1];
      RingAnswersAsOwed(rest);
      RingTracks(rest);
      StepTracks(After(rest), Stamps(rest), Served(rest));
    }
  }

  function Markers(steps: seq<Step>): nat {
    if steps == [] then 0
    else Markers(steps[..|steps| - 1]) + (if steps[|steps| - 1].Marker? then 1 else 0)
  }

  /** Every frame's interrupt comes before its marker. */
  predicate Orderly(steps: seq<Step>) {
    steps == [] ||
    (Orderly(steps[..|steps| - 1])
     && (steps[|steps| - 1].Marker? ==> Markers(steps[..|steps| - 1]) < |Stamps(steps[..|steps| - 1])|))
  }

  /** Frames are answered for in step with the markers exactly while no marker has run ahead of its frame. */
  lemma {:induction false} ServedIffOrderly(steps: seq<Step>)
    ensures Served(steps) <= Markers(steps)
    ensures Served(steps) == Markers(steps) <==> Orderly(steps)
  {
    if steps == [] {
    } else {
      ServedIffOrderly(steps[..|steps| - 1]);
    }
  }

  lemma {:induction false} AnswersCount(steps: seq<Step>)
    ensures |Answers(steps)| == Markers(steps)
  {
    if steps == [] {
    } else {
      AnswersCount(steps[..|steps| - 1]);
    }
  }

  lemma {:induction false} StampsGrow(steps: seq<Step>, n: nat)
    requires n <= |steps|
    ensures Stamps(steps[..n]) <= Stamps(steps)
  {
    if n < |steps| {
      assert steps[..|steps| - 1][..n] == steps[..n];
      StampsGrow(steps[..|steps| - 1], n);
    } else {
      assert steps[..n] == steps;
    }
  }

  /** The next marker of an orderly run is answered exactly when fewer than sixteen frames wait. */
  lemma MissingIffSixteenWait(steps: seq<Step>)
    requires Orderly(steps) && Markers(steps) < |Stamps(steps)|
    ensures Consume(After(steps)).1 ==
      if |Stamps(steps)| - Markers(steps) >= 16 then None else Some(Stamps(steps)[Markers(steps)])
  {
    RingTracks(steps);
    ServedIffOrderly(steps);
    StepTracks(After(steps), Stamps(steps), Served(steps));
  }

  /** The k-th marker is answered with the k-th frame's timestamp or with none, never with another frame's. */
  lemma {:induction false} MarkersGetTheirOwn(steps: seq<Step>, k: nat)
    requires Orderly(steps) && k < Markers(steps)
    ensures k < |Answers(steps)| && k < |Stamps(steps)|
    ensures Answers(steps)[k] in {None, Some(Stamps(steps)[k])}
  {
    var rest := steps[..|steps| - 1];
    AnswersCount(steps);
    AnswersCount(rest);
    StampsGrow(steps, |steps| - 1);
    if k < Markers(rest) {
      hide Consume;
      MarkersGetTheirOwn(rest, k);
    } else {
      MissingIffSixteenWait(rest);
      hide Consume, Served;
    }
  }

  /** The clock moves between any two frame starts. */
  predicate Rising(stamps: seq<nat>) {
    forall i, j :: 0 <= i < j < |stamps| ==> stamps[i] < stamps[j]
  }

  /** The stamp is the one latched for the marker's own frame. */
  predicate IsOwn(steps: seq<Step>, stamp: nat) {
    Markers(steps) < |Stamps(steps)| && stamp == Stamps(steps)[Markers(steps)]
  }

  /** A marker that gets a timestamp gets its own frame's if and only if no marker ran ahead of its frame before it. */
  lemma StampIsOwnIffOrderly(steps: seq<Step>)
    requires Rising(Stamps(steps)) && Consume(After(steps)).1.Some?
    ensures IsOwn(steps, Consume(After(steps)).1.value) <==> Orderly(steps)
  {
    RingTracks(steps);
    ServedIffOrderly(steps);
    StepTracks(After(steps), Stamps(steps), Served(steps));
  }

  /** One that runs ahead is enough: its frame's timestamp goes to the next frame's marker. */
  lemma EarlyMarkerMisleadsTheNext(timestamp: nat)
    ensures var steps := [Marker, FrameStart(timestamp)];
      && !Orderly(steps) && Markers(steps) == 1 && Stamps(steps) == [timestamp]
      && Consume(After(steps)).1 == Some(timestamp)
  {
    var steps := [Marker, FrameStart(timestamp)];
    assert steps[..1] == [Marker] && steps[..1][..0] == [];
    assert After(steps[..1]).queue == [] && After(steps[..1]).pendingMissing == 0;
    assert Markers(steps[..1]) == 1 && Stamps(steps[..1]) == [] && !Orderly(steps[..1]);
  }

  /** And there is no way back: every timestamp that comes later is an earlier frame's. */
  lemma EarlyMarkerShiftsForGood(steps: seq<Step>)
    requires !Orderly(steps)
    ensures var answer := Consume(After(steps)).1;
      answer.Some? ==>
        && Served(steps) < Markers(steps) && Served(steps) < |Stamps(steps)|
        && answer.value == Stamps(steps)[Served(steps)]
    ensures forall s: Step :: !Orderly(steps + [s])
  {
    RingTracks(steps);
    ServedIffOrderly(steps);
    StepTracks(After(steps), Stamps(steps), Served(steps));
    forall s: Step ensures !Orderly(steps + [s]) {
      assert (steps + [s])[..|steps|] == steps;
    }
  }

  /** The counters: every frame start is counted, and every marker was answered or counted missing. */
  lemma {:induction false} CountersAddUp(steps: seq<Step>)
    ensures After(steps).frameStarts == |Stamps(steps)|
    ensures After(steps).missing == Missing(Answers(steps))
    ensures After(steps).overflows == After(steps).pendingMissing + Forgiven(steps)
  {
    if steps == [] {
    } else {
      var rest := steps[..|steps| - 1];
      CountersAddUp(rest);
      ConsumeCounts(After(rest));
      var answer := Consume(After(rest)).1;
      assert (Answers(rest) + [answer])[..|Answers(rest)|] == Answers(rest);
      hide Consume;
    }
  }

  lemma ConsumeCounts(r: Ring)
    ensures var (next, answer) := Consume(r);
      && next.frameStarts == r.frameStarts && next.overflows == r.overflows
      && next.missing == r.missing + (if answer.None? then 1 else 0)
      && next.pendingMissing == (if r.pendingMissing > 0 then r.pendingMissing - 1 else 0)
  {
  }

  function Missing(answers: seq<Option<nat>>): nat {
    if answers == [] then 0
    else Missing(answers[..|answers| - 1]) + (if answers[|answers| - 1].None? then 1 else 0)
  }

  /** The markers that took the answer of a dropped entry. */
  function Forgiven(steps: seq<Step>): nat {
    if steps == [] then 0
    else
      var rest := steps[..|steps| - 1];
      Forgiven(rest) + (if steps[|steps| - 1].Marker? && After(rest).pendingMissing > 0 then 1 else 0)
  }

  // ----- The ring in place -----

  /** The slots from `tail` up to `head`, around the end of the buffer. */
  function Slots(buffer: seq<nat>, tail: nat, head: nat): seq<nat>
    requires tail < |buffer| && head < |buffer|
  {
    if tail <= head then buffer[tail..head] else buffer[tail..] + buffer[..head]
  }

  /** Writing the free slot at the head and moving the head on appends to the ring. */
  lemma RingGrows(buffer: seq<nat>, tail: nat, head: nat, timestamp: nat)
    requires tail < |buffer| && head < |buffer|
    requires tail != if head == |buffer| - 1 then 0 else head + 1
    ensures var next := if head == |buffer| - 1 then 0 else head + 1;
      Slots(buffer[head := timestamp], tail, next) == Slots(buffer, tail, head) + [timestamp]
  {
    var after := buffer[head := timestamp];
    if tail <= head {
      assert after[tail..head + 1] == buffer[tail..head] + [timestamp];
      assert after[tail..] == after[tail..|after|];
    } else {
      assert after[..head + 1] == buffer[..head] + [timestamp];
    }
  }

  /** Moving the tail on drops the oldest. */
  lemma RingShrinks(buffer: seq<nat>, tail: nat, head: nat)
    requires tail < |buffer| && head < |buffer| && tail != head
    ensures var next := if tail == |buffer| - 1 then 0 else tail + 1;
      Slots(buffer, tail, head) == [buffer[tail]] + Slots(buffer, next, head)
  {
    if head < tail == |buffer| - 1 {
      assert buffer[tail..] == [buffer[tail]];
    }
  }

  class TimestampQueue {
    const queue: array<nat>
    var head: nat
    var tail: nat
    var pendingMissing: nat
    var rxFrameStartEvents: nat
    var rxTimestampFifoOverflow: nat
    var rxTimestampMissing: nat

    ghost predicate Valid()
      reads this`head, this`tail
    {
      queue.Length == LENGTH && head < LENGTH && tail < LENGTH
    }

    ghost function Contents(): seq<nat>
      requires Valid()
      reads this`head, this`tail, queue
    {
      Slots(queue[..], tail, head)
    }

    ghost function State(): Ring
      requires Valid()
      reads this, queue
    {
      Ring(Contents(), pendingMissing, rxFrameStartEvents, rxTimestampFifoOverflow, rxTimestampMissing)
    }

    constructor ()
      ensures Valid() && fresh(queue) && State() == EMPTY
    {
      queue := new nat[LENGTH](i => 0);
      head, tail, pendingMissing := 0, 0, 0;
      rxFrameStartEvents, rxTimestampFifoOverflow, rxTimestampMissing := 0, 0, 0;
    }

    method HandleFrameStartIRQ(timestamp: nat)
      requires Valid()
      modifies this, queue
      ensures Valid() && State() == Latch(old(State()), timestamp)
    {
      hide Contents;
      rxFrameStartEvents := rxFrameStartEvents + 1;
      FullIffNextIsTail();
      if (head + 1) % LENGTH == tail {
        AdvanceTail();
        pendingMissing := pendingMissing + 1;
        rxTimestampFifoOverflow := rxTimestampFifoOverflow + 1;
      }
      Store(timestamp);
    }

    lemma FullIffNextIsTail()
      requires Valid()
      ensures |Contents()| <= CAPACITY
      ensures (head + 1) % LENGTH == tail <==> |Contents()| == CAPACITY
      ensures head == tail <==> Contents() == []
    {
    }

    method AdvanceTail()
      requires Valid() && head != tail
      modifies this`tail
      ensures Valid() && Contents() == old(Contents()[1..]) && old(Contents()[0]) == queue[old(tail)]
    {
      RingShrinks(queue[..], tail, head);
      tail := (tail + 1) % LENGTH;
    }

    method Store(timestamp: nat)
      requires Valid() && (head + 1) % LENGTH != tail
      modifies this`head, queue
      ensures Valid() && Contents() == old(Contents()) + [timestamp]
    {
      ghost var was := queue[..];
      queue[head] := timestamp;
      RingGrows(was, tail, head, timestamp);
      assert queue[..] == was[head := timestamp];
      head := if head == LENGTH - 1 then 0 else head + 1;
    }

    method ConsumeFrameStartTimestamp() returns (timestamp: Option<nat>)
      requires Valid()
      modifies this
      ensures Valid() && (State(), timestamp) == Consume(old(State()))
    {
      hide Contents;
      if pendingMissing > 0 {
        pendingMissing := pendingMissing - 1;
        rxTimestampMissing := rxTimestampMissing + 1;
        return None;
      }
      FullIffNextIsTail();
      if head == tail {
        rxTimestampMissing := rxTimestampMissing + 1;
        return None;
      }
      timestamp := Some(queue[tail]);
      AdvanceTail();
    }
  }
}
