/**
 * Merging sync-trigger events into the captured messages by time. Events wait in a queue, and one taken off too
 * early is kept aside; a message first lets out the events before its start, then those up to its end.
 */
module CaptureMerge {
  import opened CaptureBlock
  import opened CircularArrays
  import opened Octets
  import opened Options

  type Captured = r: Record | r.Message? witness Message(0, 0, 0, [0, 0, 0, 0], [], [])

  /** The event type and text of a sync trigger. */
  const SYNC_TRIGGER: nat := 10
  const SYNC_TEXT: seq<Byte> := [83, 121, 110, 99, 32, 116, 114, 105, 103, 103, 101, 114]

  function Trigger(time: nat): Record {
    Event(time, SYNC_TRIGGER, SYNC_TEXT)
  }

  function Key(r: Record): nat {
    if r.Message? then r.start else r.timestamp
  }

  /** APP_RECEIVED_MESSAGE_QUEUE_LENGTH */
  const RECORDS: nat := 250

  /** LOGIC_SINK_MESSAGE_QUEUE_LENGTH */
  const QUEUE_LENGTH: nat := 16

  /** `accepted` is the history of the events taken in and not cleared. */
  datatype Merger = Merger(queue: seq<nat>, deferred: Option<nat>, emitted: seq<Record>, accepted: seq<nat>)

  const EMPTY := Merger([], None, [], [])

  /** The events not yet emitted, next first. */
  function Waiting(m: Merger): seq<nat> {
    (if m.deferred.Some? then [m.deferred.value] else []) + m.queue
  }

  function Triggers(times: seq<nat>): seq<Record> {
    seq(|times|, i requires 0 <= i < |times| => Trigger(times[i]))
  }

  /** How many events at the front are before the limit. */
  function Leading(times: seq<nat>, limit: nat): (n: nat)
    ensures n <= |times|
    ensures forall i :: 0 <= i < n ==> times[i] < limit
    ensures n < |times| ==> times[n] >= limit
  {
    if times == [] || times[0] >= limit then 0 else 1 + Leading(times[1..], limit)
  }

  /** Emits the events before the limit and keeps the next one, if any, aside. */
  function Release(m: Merger, limit: nat): Merger {
    var w := Waiting(m);
    var n := Leading(w, limit);
    m.(emitted := m.emitted + Triggers(w[..n]),
       deferred := if n < |w| then Some(w[n]) else None,
       queue := if n < |w| then w[n + 1..] else [])
  }

  predicate IsDue(m: Merger, limit: nat) {
    Waiting(m) != [] && Waiting(m)[0] < limit
  }

  /** The next event emitted if it is due, kept aside if it is not. */
  function ReleaseOne(m: Merger, limit: nat): Merger {
    var w := Waiting(m);
    if w == [] then m.(deferred := None, queue := [])
    else if w[0] >= limit then m.(deferred := Some(w[0]), queue := w[1..])
    else m.(emitted := m.emitted + [Trigger(w[0])], deferred := None, queue := w[1..])
  }

  /** Releasing one event after another, while one is due, releases them all. */
  lemma ReleaseUnfolds(m: Merger, limit: nat)
    ensures Release(m, limit) == if IsDue(m, limit) then Release(ReleaseOne(m, limit), limit) else ReleaseOne(m, limit)
  {
    if IsDue(m, limit) {
      DueIsReleased(m, limit);
    } else {
      NotDueIsKept(m, limit);
    }
  }

  lemma NotDueIsKept(m: Merger, limit: nat)
    requires !IsDue(m, limit)
    ensures Release(m, limit) == ReleaseOne(m, limit)
  {
    var w := Waiting(m);
    assert Leading(w, limit) == 0;
    NoTriggers(w[..0]);
    hide Triggers, Leading, Waiting;
  }

  lemma DueIsReleased(m: Merger, limit: nat)
    requires IsDue(m, limit)
    ensures Release(m, limit) == Release(ReleaseOne(m, limit), limit)
  {
    hide Triggers, Leading, Waiting;
    var w, next := Waiting(m), ReleaseOne(m, limit);
    var rest, n := w[1..], Leading(w[1..], limit);
    assert Waiting(next) == rest by { WaitsForRest(m, limit); }
    assert Leading(w, limit) == n + 1 by { LeadsOnce(w, limit); }
    var a, b := Release(m, limit), Release(next, limit);
    FirstTrigger(w, n);
    assert a.emitted == b.emitted;
    assert n < |rest| ==> w[n + 1] == rest[n] && w[n + 2..] == rest[n + 1..];
    assert a.queue == b.queue && a.deferred == b.deferred;
  }

  lemma WaitsForRest(m: Merger, limit: nat)
    requires IsDue(m, limit)
    ensures Waiting(ReleaseOne(m, limit)) == Waiting(m)[1..]
  {
  }

  lemma LeadsOnce(times: seq<nat>, limit: nat)
    requires times != [] && times[0] < limit
    ensures Leading(times, limit) == Leading(times[1..], limit) + 1
  {
  }

  lemma FirstTrigger(times: seq<nat>, n: nat)
    requires n < |times|
    ensures Triggers(times[..n + 1]) == [Trigger(times[0])] + Triggers(times[1..][..n])
  {
  }

  lemma NoTriggers(times: seq<nat>)
    requires times == []
    ensures Triggers(times) == []
  {
  }

  function Emit(m: Merger, message: Captured): Merger {
    m.(emitted := m.emitted + [message])
  }

  /** A captured message; an end is inclusive. */
  function Receive(m: Merger, message: Captured): Merger {
    Release(Emit(Release(m, message.start), message), message.end + 1)
  }

  /** A trigger: dropped when the queue is full. */
  function Fire(m: Merger, time: nat): Merger {
    if |m.queue| < QUEUE_LENGTH then m.(queue := m.queue + [time], accepted := m.accepted + [time]) else m
  }

  function ClearPending(m: Merger): Merger {
    m.(deferred := None, queue := [], accepted := TimesOf(m.emitted))
  }

  datatype Step = Fires(time: nat) | Receives(message: Captured) | Clears

  function Apply(m: Merger, s: Step): Merger {
    match s
    case Fires(time) => Fire(m, time)
    case Receives(message) => Receive(m, message)
    case Clears => ClearPending(m)
  }

  function Run(steps: seq<Step>): Merger {
    if steps == [] then EMPTY else Apply(Run(steps[..|steps| - 1]), steps[|steps| - 1])
  }

  // ----- Nothing is lost, doubled or reordered -----

  /** The triggers of a stream. */
  function TimesOf(records: seq<Record>): seq<nat> {
    if records == [] then []
    else
      var rest, last := TimesOf(records[..|records| - 1]), records[|records| - 1];
      if last.Event? then rest + [last.timestamp] else rest
  }

  lemma {:induction false} TimesOfTriggers(records: seq<Record>, times: seq<nat>)
    ensures TimesOf(records + Triggers(times)) == TimesOf(records) + times
  {
    if times == [] {
      assert records + Triggers(times) == records;
    } else {
      var rest, last := times[..|times| - 1], times[|times| - 1];
      TimesOfTriggers(records, rest);
      assert Triggers(times) == Triggers(rest) + [Trigger(last)] by { LastTrigger(times); }
      hide Triggers;
      assert records + Triggers(times) == records + Triggers(rest) + [Trigger(last)];
      OneMoreTime(records + Triggers(rest), last);
      assert times == rest + [last];
    }
  }

  lemma LastTrigger(times: seq<nat>)
    requires times != []
    ensures Triggers(times) == Triggers(times[..|times| - 1]) + [Trigger(times[|times| - 1])]
  {
  }

  lemma OneMoreTime(records: seq<Record>, time: nat)
    ensures TimesOf(records + [Trigger(time)]) == TimesOf(records) + [time]
  {
    assert (records + [Trigger(time)])[..|records|] == records;
  }

  lemma ReleaseConserves(m: Merger, limit: nat)
    ensures var r := Release(m, limit); TimesOf(r.emitted) + Waiting(r) == TimesOf(m.emitted) + Waiting(m)
  {
    hide Release, Waiting, TimesOf;
    var w := Waiting(m);
    var n := Leading(w, limit);
    ReleaseMoves(m, limit);
    TimesOfTriggers(m.emitted, w[..n]);
    assert w == w[..n] + w[n..];
  }

  lemma EmitConserves(m: Merger, message: Captured)
    ensures TimesOf(Emit(m, message).emitted) == TimesOf(m.emitted)
  {
    assert (m.emitted + [message])[..|m.emitted|] == m.emitted;
  }

  lemma ReceiveConserves(m: Merger, message: Captured)
    ensures var r := Receive(m, message); TimesOf(r.emitted) + Waiting(r) == TimesOf(m.emitted) + Waiting(m)
  {
    hide Release, TimesOf;
    var a := Release(m, message.start);
    ReleaseConserves(m, message.start);
    EmitConserves(a, message);
    ReleaseConserves(Emit(a, message), message.end + 1);
  }

  /** In every run the events emitted, then the one kept aside, then the queue, are the events accepted, in order. */
  lemma {:induction false} EventsAreConserved(steps: seq<Step>)
    ensures var m := Run(steps); TimesOf(m.emitted) + Waiting(m) == m.accepted
  {
    hide Receive, TimesOf;
    if steps == [] {
      NoTimes();
    } else {
      var m, s := Run(steps[..|steps| - 1]), steps[|steps| - 1];
      EventsAreConserved(steps[..|steps| - 1]);
      match s
      case Fires(time) =>
      case Receives(message) =>
        ReceiveConserves(m, message);
        ReceiveAcceptsNone(m, message);
      case Clears =>
    }
  }

  lemma NoTimes()
    ensures TimesOf([]) == []
  {
  }

  lemma ReceiveAcceptsNone(m: Merger, message: Captured)
    ensures Receive(m, message).accepted == m.accepted
  {
  }

  // ----- The stream is in order -----

  /** By start or time; at the same instant a message comes before an event. */
  predicate InOrder(a: Record, b: Record) {
    Key(a) < Key(b) || (Key(a) == Key(b) && !(a.Event? && b.Message?))
  }

  predicate Sorted(records: seq<Record>) {
    forall i, j :: 0 <= i < j < |records| ==> InOrder(records[i], records[j])
  }

  predicate Ascending(times: seq<nat>) {
    forall i, j :: 0 <= i < j < |times| ==> times[i] <= times[j]
  }

  /** Where time has got to: the last message and the last trigger. */
  datatype Horizon = Horizon(start: int, end: int, fired: int)

  function HorizonOf(steps: seq<Step>): Horizon {
    if steps == [] then Horizon(-1, -1, -1)
    else
      var h := HorizonOf(steps[..|steps| - 1]);
      match steps[|steps| - 1]
      case Fires(time) => h.(fired := time)
      case Receives(message) => h.(start := message.start, end := message.end)
      case Clears => h
  }

  /** Triggers fire in order and not before the start of a message already taken in; messages do not overlap. */
  predicate Timely(steps: seq<Step>) {
    steps == [] ||
    (var h := HorizonOf(steps[..|steps| - 1]);
     && Timely(steps[..|steps| - 1])
     && match steps[|steps| - 1]
        case Fires(time) => h.fired <= time && h.start <= time
        case Receives(message) => h.end < message.start <= message.end
        case Clears => true)
  }

  predicate Ordered(m: Merger, h: Horizon) {
    && Sorted(m.emitted) && Ascending(Waiting(m))
    && h.start <= h.end
    && (forall i :: 0 <= i < |m.emitted| ==> Key(m.emitted[i]) <= (if m.emitted[i].Message? then h.start else h.end))
    && (forall i :: 0 <= i < |Waiting(m)| ==> h.start <= Waiting(m)[i] <= h.fired)
    && (forall i, j :: 0 <= i < |m.emitted| && 0 <= j < |Waiting(m)| ==> InOrder(m.emitted[i], Trigger(Waiting(m)[j])))
    && (forall i :: 0 <= i < |m.emitted| ==> Key(m.emitted[i]) <= (if m.emitted[i].Event? then h.fired else h.start))
  }

  /** Releasing what is due by a limit moves events from the waiting ones to the stream and keeps both in order. */
  lemma ReleaseMoves(m: Merger, limit: nat)
    ensures var r, w, n := Release(m, limit), Waiting(m), Leading(Waiting(m), limit);
      r.emitted == m.emitted + Triggers(w[..n]) && Waiting(r) == w[n..]
  {
    var w, r := Waiting(m), Release(m, limit);
    var n := Leading(w, limit);
    hide Triggers, Leading;
    if n < |w| {
      assert r.queue == w[n + 1..] && r.deferred == Some(w[n]);
      assert w[n..] == [w[n]] + w[n + 1..];
    } else {
      assert w[n..] == [];
    }
  }

  predicate Joins(m: Merger) {
    && Sorted(m.emitted) && Ascending(Waiting(m))
    && forall i, j :: 0 <= i < |m.emitted| && 0 <= j < |Waiting(m)| ==> InOrder(m.emitted[i], Trigger(Waiting(m)[j]))
  }

  lemma ReleaseKeepsJoins(m: Merger, limit: nat)
    requires Joins(m)
    ensures Joins(Release(m, limit))
  {
    hide Release, Waiting;
    ReleaseMoves(m, limit);
  }

  /** Between the release of what precedes a message and the message itself. */
  predicate Ready(m: Merger, start: nat, fired: int) {
    && Joins(m)
    && (forall i :: 0 <= i < |m.emitted| ==>
          Key(m.emitted[i]) < start && (m.emitted[i].Event? ==> Key(m.emitted[i]) <= fired))
    && (forall i :: 0 <= i < |Waiting(m)| ==> start <= Waiting(m)[i] <= fired)
  }

  lemma ReleaseMakesReady(m: Merger, h: Horizon, start: nat)
    requires Ordered(m, h) && h.end < start
    ensures Ready(Release(m, start), start, h.fired)
  {
    hide Release, Waiting, Joins;
    ReleaseMoves(m, start);
    assert Joins(m) by { OrderedJoins(m, h); }
    ReleaseKeepsJoins(m, start);
    RestIsLate(Waiting(m), start);
  }

  lemma ReadyGivesOrdered(m: Merger, message: Captured, fired: int)
    requires Ready(m, message.start, fired) && message.start <= message.end
    ensures Ordered(Release(Emit(m, message), message.end + 1), Horizon(message.start, message.end, fired))
  {
    hide Release, Waiting, Joins;
    var e, limit := Emit(m, message), message.end + 1;
    EmitWaits(m, message);
    MessageJoins(m, message);
    ReleaseMoves(e, limit);
    ReleaseKeepsJoins(e, limit);
    JoinsOrdered(Release(e, limit), Horizon(message.start, message.end, fired));
  }

  lemma ReceiveKeepsOrdered(m: Merger, h: Horizon, message: Captured)
    requires Ordered(m, h) && h.end < message.start <= message.end
    ensures Ordered(Receive(m, message), h.(start := message.start, end := message.end))
  {
    hide Release, Ready, Ordered;
    ReleaseMakesReady(m, h, message.start);
    ReadyGivesOrdered(Release(m, message.start), message, h.fired);
  }

  lemma OrderedJoins(m: Merger, h: Horizon)
    requires Ordered(m, h)
    ensures Joins(m)
  {
  }

  lemma JoinsOrdered(m: Merger, h: Horizon)
    requires Joins(m) && h.start <= h.end
    requires forall i :: 0 <= i < |m.emitted| ==>
      Key(m.emitted[i]) <= (if m.emitted[i].Message? then h.start else h.end)
    requires forall i :: 0 <= i < |m.emitted| ==>
      Key(m.emitted[i]) <= (if m.emitted[i].Event? then h.fired else h.start)
    requires forall i :: 0 <= i < |Waiting(m)| ==> h.start <= Waiting(m)[i] <= h.fired
    ensures Ordered(m, h)
  {
  }

  lemma EmitWaits(m: Merger, message: Captured)
    ensures Waiting(Emit(m, message)) == Waiting(m)
  {
  }

  lemma RestIsLate(times: seq<nat>, limit: nat)
    requires Ascending(times)
    ensures forall j :: Leading(times, limit) <= j < |times| ==> times[j] >= limit
  {
  }

  lemma MessageJoins(m: Merger, message: Captured)
    requires Joins(m)
    requires forall i :: 0 <= i < |m.emitted| ==> InOrder(m.emitted[i], message)
    requires forall j :: 0 <= j < |Waiting(m)| ==> Waiting(m)[j] >= message.start
    ensures Joins(Emit(m, message))
  {
    hide Waiting;
    EmitWaits(m, message);
  }

  lemma FireKeepsOrdered(m: Merger, h: Horizon, time: nat)
    requires Ordered(m, h) && h.fired <= time && h.start <= time
    ensures Ordered(Fire(m, time), h.(fired := time))
  {
    var f := Fire(m, time);
    assert Waiting(f) == Waiting(m) || Waiting(f) == Waiting(m) + [time];
    hide Waiting;
  }

  /** While time moves forward the emitted stream is sorted: each event stands after the last message begun by then. */
  lemma {:induction false} TimelyRunsAreSorted(steps: seq<Step>)
    requires Timely(steps)
    ensures Ordered(Run(steps), HorizonOf(steps))
    ensures Sorted(Run(steps).emitted)
  {
    hide Receive, Fire, Ordered;
    if steps == [] {
      EmptyOrdered();
    } else {
      var rest, s := steps[..|steps| - 1], steps[|steps| - 1];
      TimelyRunsAreSorted(rest);
      match s
      case Fires(time) => FireKeepsOrdered(Run(rest), HorizonOf(rest), time);
      case Receives(message) => ReceiveKeepsOrdered(Run(rest), HorizonOf(rest), message);
      case Clears => ClearKeepsOrdered(Run(rest), HorizonOf(rest));
    }
    OrderedSorted(Run(steps), HorizonOf(steps));
  }

  lemma OrderedSorted(m: Merger, h: Horizon)
    requires Ordered(m, h)
    ensures Sorted(m.emitted)
  {
  }

  lemma EmptyOrdered()
    ensures Ordered(EMPTY, Horizon(-1, -1, -1))
  {
  }

  lemma ClearKeepsOrdered(m: Merger, h: Horizon)
    requires Ordered(m, h)
    ensures Ordered(ClearPending(m), h)
  {
  }

  // ----- Messages without a timestamp -----

  /** What stands for the start of a message whose frame start is missing: the largest 64-bit time. */
  const UNTIMED: nat := 0xFFFF_FFFF_FFFF_FFFF

  /** Triggers bear times of the clock, which never gets to the largest; a message may be without. */
  predicate Clocked(steps: seq<Step>) {
    forall i :: 0 <= i < |steps| ==>
      match steps[i]
      case Fires(time) => time < UNTIMED
      case Receives(message) => message.start <= UNTIMED
      case Clears => true
  }

  predicate Bounded(m: Merger) {
    && (forall i :: 0 <= i < |m.emitted| ==>
          Key(m.emitted[i]) <= UNTIMED && (m.emitted[i].Event? ==> Key(m.emitted[i]) < UNTIMED))
    && (forall i :: 0 <= i < |Waiting(m)| ==> Waiting(m)[i] < UNTIMED)
  }

  lemma ReleaseKeepsBounded(m: Merger, limit: nat)
    requires Bounded(m)
    ensures Bounded(Release(m, limit)) && m.emitted <= Release(m, limit).emitted
  {
    hide Release, Waiting;
    ReleaseMoves(m, limit);
  }

  lemma ReceiveKeepsBounded(m: Merger, message: Captured)
    requires Bounded(m) && message.start <= UNTIMED
    ensures Bounded(Receive(m, message))
    ensures Release(m, message.start).emitted + [message] <= Receive(m, message).emitted
  {
    hide Release, Waiting;
    var a := Release(m, message.start);
    ReleaseKeepsBounded(m, message.start);
    EmitWaits(a, message);
    ReleaseKeepsBounded(Emit(a, message), message.end + 1);
  }

  lemma FireKeepsBounded(m: Merger, time: nat)
    requires Bounded(m) && time < UNTIMED
    ensures Bounded(Fire(m, time)) && Waiting(Fire(m, time)) != []
  {
    var f := Fire(m, time);
    assert Waiting(f) == Waiting(m) || Waiting(f) == Waiting(m) + [time];
    assert |m.queue| >= QUEUE_LENGTH ==> Waiting(m) != [];
    hide Waiting;
  }

  lemma ClearKeepsBounded(m: Merger)
    requires Bounded(m)
    ensures Bounded(ClearPending(m)) && Waiting(ClearPending(m)) == []
  {
  }

  lemma ApplyKeepsBounded(m: Merger, s: Step)
    requires Bounded(m) && Clocked([s])
    ensures Bounded(Apply(m, s)) && m.emitted <= Apply(m, s).emitted
  {
    hide Receive, Bounded, Fire;
    assert [s][0] == s;
    match s
    case Fires(time) =>
      FireKeepsBounded(m, time);
      assert Fire(m, time).emitted == m.emitted by { FireEmitsNone(m, time); }
    case Receives(message) =>
      ReceiveKeepsBounded(m, message);
      ReleaseKeepsBounded(m, message.start);
    case Clears => ClearKeepsBounded(m);
  }

  lemma FireEmitsNone(m: Merger, time: nat)
    ensures Fire(m, time).emitted == m.emitted
  {
  }

  lemma {:induction false} ClockedRunsAreBounded(steps: seq<Step>)
    requires Clocked(steps)
    ensures Bounded(Run(steps))
  {
    hide Bounded, Apply;
    if steps == [] {
      assert Bounded(EMPTY) by { EmptyBounded(); }
    } else {
      ClockedRunsAreBounded(steps[..|steps| - 1]);
      ApplyKeepsBounded(Run(steps[..|steps| - 1]), steps[|steps| - 1]);
    }
  }

  lemma EmptyBounded()
    ensures Bounded(EMPTY)
  {
  }

  /** A message without a timestamp lets out every waiting event before it, and leaves none. */
  lemma UntimedReleasesAll(m: Merger, message: Captured)
    requires Bounded(m) && message.start == UNTIMED
    ensures var r := Receive(m, message);
      r.emitted == m.emitted + Triggers(Waiting(m)) + [message] && Waiting(r) == []
  {
    hide Release, Waiting, Triggers;
    var w := Waiting(m);
    ReleaseMoves(m, message.start);
    assert Leading(w, UNTIMED) == |w|;
    assert w[..|w|] == w && w[|w|..] == [];
    var e := Emit(Release(m, message.start), message);
    EmitWaits(Release(m, message.start), message);
    ReleaseMoves(e, message.end + 1);
    NoTriggers(Waiting(e)[..0]);
  }

  /** The steps after a message without a timestamp under which nothing with a time follows it. */
  predicate OnlyUntimed(steps: seq<Step>) {
    forall i :: 0 <= i < |steps| && steps[i].Receives? ==>
      steps[i].message.start == UNTIMED && (i > 0 ==> !steps[i - 1].Fires?)
  }

  /** The stream has such a message and is sorted; events wait just when the last step was a trigger. */
  predicate EndsUntimed(m: Merger, fired: bool) {
    && Bounded(m) && Sorted(m.emitted) && (Waiting(m) != [] <==> fired)
    && m.emitted != [] && Key(m.emitted[|m.emitted| - 1]) == UNTIMED
  }

  lemma FirstUntimed(m: Merger, message: Captured)
    requires Bounded(m) && Joins(m) && message.start == UNTIMED
    ensures EndsUntimed(Receive(m, message), false)
  {
    hide Receive, Waiting;
    UntimedReleasesAll(m, message);
    ReceiveKeepsBounded(m, message);
    var r := Receive(m, message);
    forall i, j | 0 <= i < j < |r.emitted|
      ensures InOrder(r.emitted[i], r.emitted[j])
    {
      assert j == |r.emitted| - 1 ==> r.emitted[j] == message;
    }
  }

  lemma UntimedGoesOn(m: Merger, s: Step, fired: bool)
    requires EndsUntimed(m, fired) && Clocked([s])
    requires s.Receives? ==> s.message.start == UNTIMED && !fired
    ensures EndsUntimed(Apply(m, s), s.Fires?)
  {
    hide Receive, Waiting;
    assert [s][0] == s;
    ApplyKeepsBounded(m, s);
    match s
    case Fires(time) => FireKeepsBounded(m, time);
    case Receives(message) => FirstUntimed(m, message);
    case Clears => ClearKeepsBounded(m);
  }

  /** Anything timed after it is out of order. */
  lemma UntimedBreaks(m: Merger, s: Step, fired: bool)
    requires EndsUntimed(m, fired) && Clocked([s])
    requires s.Receives? && !(s.message.start == UNTIMED && !fired)
    ensures !Sorted(Apply(m, s).emitted)
  {
    hide Receive, Waiting, Release;
    assert [s][0] == s;
    var message, n := s.message, |m.emitted|;
    var r := Receive(m, message);
    ReceiveKeepsBounded(m, message);
    ReleaseKeepsBounded(m, message.start);
    assert r.emitted[n - 1] == m.emitted[n - 1];
    if message.start == UNTIMED {
      UntimedReleasesAll(m, message);
      assert r.emitted[n] == Trigger(Waiting(m)[0]);
      assert !InOrder(r.emitted[n - 1], r.emitted[n]);
    } else {
      var k := |Release(m, message.start).emitted|;
      assert r.emitted[k] == message;
      assert !InOrder(r.emitted[n - 1], r.emitted[k]);
    }
  }

  lemma PrefixSorted(a: seq<Record>, b: seq<Record>)
    requires a <= b && Sorted(b)
    ensures Sorted(a)
  {
    forall i, j | 0 <= i < j < |a|
      ensures InOrder(a[i], a[j])
    {
      assert a[i] == b[i] && a[j] == b[j];
    }
  }

  /**
   * A message without a timestamp after a timely run: the stream stays sorted exactly when from then on every
   * message is without one too and none comes straight after a trigger.
   */
  lemma {:induction false} UntimedSortedIff(before: seq<Step>, message: Captured, after: seq<Step>)
    requires Timely(before) && Clocked(before) && message.start == UNTIMED && Clocked(after)
    ensures var m := Run(before + [Receives(message)] + after);
      && (Sorted(m.emitted) <==> OnlyUntimed(after))
      && (OnlyUntimed(after) ==> EndsUntimed(m, after != [] && after[|after| - 1].Fires?))
  {
    hide Apply, EndsUntimed, Sorted, Ordered, Timely;
    var first := before + [Receives(message)];
    if after == [] {
      assert first + after == first && first[..|before|] == before;
      ClockedRunsAreBounded(before);
      TimelyRunsAreSorted(before);
      OrderedJoins(Run(before), HorizonOf(before));
      FirstUntimed(Run(before), message);
      assert Run(first) == Receive(Run(before), message) by { ReceivesRun(before, message); }
      EndsSorted(Run(first), false);
    } else {
      var rest, last := after[..|after| - 1], after[|after| - 1];
      UntimedSortedIff(before, message, rest);
      assert (first + after)[..|first + after| - 1] == first + rest;
      OneMoreStep(rest, last);
      assert rest + [last] == after;
      var m := Run(first + rest);
      if OnlyUntimed(rest) {
        var fired := rest != [] && rest[|rest| - 1].Fires?;
        if OnlyUntimed(after) {
          UntimedGoesOn(m, last, fired);
          EndsSorted(Apply(m, last), last.Fires?);
        } else {
          UntimedBreaks(m, last, fired);
        }
      } else {
        ClockedRunsAreBounded(first + rest);
        ApplyKeepsBounded(m, last);
        if Sorted(Apply(m, last).emitted) {
          PrefixSorted(m.emitted, Apply(m, last).emitted);
        }
      }
    }
  }

  lemma OneMoreStep(steps: seq<Step>, last: Step)
    ensures OnlyUntimed(steps + [last]) <==>
      (OnlyUntimed(steps)
       && (last.Receives? ==> last.message.start == UNTIMED && (steps != [] ==> !steps[|steps| - 1].Fires?)))
    ensures Clocked(steps + [last]) <==> Clocked(steps) && Clocked([last])
  {
    var all := steps + [last];
    assert all[..|steps|] == steps && all[|steps|] == last;
    if Clocked(steps) && Clocked([last]) {
      assert [last][0] == last;
    }
    if Clocked(all) {
      assert forall i :: 0 <= i < |steps| ==> all[i] == steps[i];
    }
    if OnlyUntimed(all) {
      assert forall i :: 0 <= i < |steps| ==> all[i] == steps[i];
    }
  }

  lemma ReceivesRun(before: seq<Step>, message: Captured)
    ensures Run(before + [Receives(message)]) == Receive(Run(before), message)
  {
    assert (before + [Receives(message)])[..|before|] == before;
  }

  /** So one message without a timestamp and then one with it are out of order. */
  lemma UntimedThenTimed(untimed: Captured, timed: Captured)
    requires untimed.start == UNTIMED && timed.start < UNTIMED
    ensures !Sorted(Run([Receives(untimed), Receives(timed)]).emitted)
  {
    hide Sorted, Apply;
    assert [] + [Receives(untimed)] + [Receives(timed)] == [Receives(untimed), Receives(timed)];
    UntimedSortedIff([], untimed, [Receives(timed)]);
    assert [Receives(timed)][0].Receives?;
  }

  lemma EndsSorted(m: Merger, fired: bool)
    requires EndsUntimed(m, fired)
    ensures Sorted(m.emitted)
  {
  }

  // ----- The merger in place -----

  lemma {:induction false} PushedOn<T>(contents: seq<T>, a: seq<T>, b: seq<T>, size: nat)
    ensures PushedAll(PushedAll(contents, a, size), b, size) == PushedAll(contents, a + b, size)
  {
    if b == [] {
      assert a + b == a;
    } else {
      PushedOn(contents, a, b[..|b| - 1], size);
      assert (a + b)[..|a + b| - 1] == a + b[..|b| - 1];
    }
  }

  lemma PushedOne<T>(contents: seq<T>, item: T, size: nat)
    ensures PushedAll(contents, [item], size) == Pushed(contents, item, size)
    ensures PushedAll(contents, [], size) == contents
  {
    assert [item][..0] == [];
  }

  class CaptureMerger {
    var syncTriggerEventQueue: seq<nat>
    var deferredSyncTriggerEvent: Option<nat>
    var captureEnabled: bool
    const captureRecords: CircularArray<Record>
    /** History: what has been pushed to the capture records, and the events accepted. */
    ghost var emitted: seq<Record>
    ghost var accepted: seq<nat>

    ghost predicate Valid()
      reads captureRecords
    {
      captureRecords.Valid() && captureRecords.data.Length == RECORDS
    }

    ghost function State(): Merger
      reads this
    {
      Merger(syncTriggerEventQueue, deferredSyncTriggerEvent, emitted, accepted)
    }

    /** The store after the records that follow the first `n` ever emitted were pushed to it. */
    ghost predicate Stored(before: seq<Record>, n: nat)
      requires Valid() && n <= |emitted|
      reads this`emitted, captureRecords, captureRecords.data
    {
      captureRecords.Contents() == PushedAll(before, emitted[n..], RECORDS)
    }

    constructor ()
      ensures Valid() && fresh(captureRecords) && fresh(captureRecords.data) && captureRecords.Contents() == []
      ensures State() == EMPTY && !captureEnabled
    {
      syncTriggerEventQueue, deferredSyncTriggerEvent, captureEnabled, emitted, accepted := [], None, false, [], [];
      captureRecords := new CircularArray(RECORDS);
    }

    method MessageReceived(message: Captured)
      requires Valid()
      modifies this, captureRecords, captureRecords.data
      ensures Valid() && captureEnabled == old(captureEnabled)
      ensures State() == if old(captureEnabled) then Receive(old(State()), message) else old(State())
      ensures |old(emitted)| <= |emitted|
      ensures Stored(old(captureRecords.Contents()), |old(emitted)|)
    {
      hide Release, Stored, CircularArray.Valid;
      ghost var before, n := captureRecords.Contents(), |emitted|;
      NothingStored();
      if !captureEnabled {
        return;
      }
      PublishDueEvents(message.start, before, n);
      PushRecord(message, before, n);
      PublishDueEvents(message.end + 1, before, n);
    }

    lemma NothingStored()
      requires Valid()
      ensures Stored(captureRecords.Contents(), |emitted|)
    {
      assert emitted[|emitted|..] == [];
    }

    method PushRecord(record: Record, ghost before: seq<Record>, ghost n: nat)
      requires Valid() && n <= |emitted| && Stored(before, n)
      modifies this`emitted, captureRecords, captureRecords.data
      ensures Valid() && emitted == old(emitted) + [record] && Stored(before, n)
    {
      hide Pushed;
      ghost var more := emitted[n..];
      PushedOn(before, more, [record], RECORDS);
      PushedOne(captureRecords.Contents(), record, RECORDS);
      captureRecords.Push(record);
      emitted := emitted + [record];
      assert emitted[n..] == more + [record];
    }

    /** Before a message the limit is its start, after it the instant past its end. */
    method PublishDueEvents(limit: nat, ghost before: seq<Record>, ghost n: nat)
      requires Valid() && n <= |emitted| && Stored(before, n)
      modifies this`emitted, this`syncTriggerEventQueue, this`deferredSyncTriggerEvent
      modifies captureRecords, captureRecords.data
      ensures Valid() && State() == Release(old(State()), limit)
      ensures n <= |emitted| && Stored(before, n)
    {
      hide Release, ReleaseOne, Stored, Valid;
      var more := true;
      while more
        invariant Valid() && n <= |emitted| && Stored(before, n)
        invariant (if more then Release(State(), limit) else State()) == Release(old(State()), limit)
        decreases more, |Waiting(State())|
      {
        ReleaseUnfolds(State(), limit);
        more := PublishNext(limit, before, n);
      }
    }

    /** One turn: whether the next event was due and has been published; if not, it is kept aside. */
    method PublishNext(limit: nat, ghost before: seq<Record>, ghost n: nat) returns (published: bool)
      requires Valid() && n <= |emitted| && Stored(before, n)
      modifies this`emitted, this`syncTriggerEventQueue, this`deferredSyncTriggerEvent
      modifies captureRecords, captureRecords.data
      ensures Valid() && n <= |emitted| && Stored(before, n)
      ensures State() == ReleaseOne(old(State()), limit)
      ensures published <==> IsDue(old(State()), limit)
      ensures published ==> |Waiting(State())| < old(|Waiting(State())|)
    {
      hide Stored, Valid;
      var event := NextEvent();
      if event.None? {
        return false;
      }
      if event.value >= limit {
        deferredSyncTriggerEvent := event;
        return false;
      }
      PushRecord(Trigger(event.value), before, n);
      return true;
    }

    /** The event kept aside if there is one, else the queue's next. */
    method NextEvent() returns (event: Option<nat>)
      modifies this`syncTriggerEventQueue, this`deferredSyncTriggerEvent
      ensures event.None? <==> old(Waiting(State())) == []
      ensures event.Some? ==> old(Waiting(State())) == [event.value] + Waiting(State())
      ensures deferredSyncTriggerEvent == None && (event.None? ==> syncTriggerEventQueue == [])
    {
      if deferredSyncTriggerEvent.Some? {
        event := deferredSyncTriggerEvent;
        deferredSyncTriggerEvent := None;
        return;
      }
      if syncTriggerEventQueue == [] {
        return None;
      }
      event := Some(syncTriggerEventQueue[0]);
      syncTriggerEventQueue := syncTriggerEventQueue[1..];
    }

    method TriggerFired(time: nat)
      modifies this
      ensures captureEnabled == old(captureEnabled)
      ensures State() == if old(captureEnabled) then Fire(old(State()), time) else old(State())
    {
      if captureEnabled && |syncTriggerEventQueue| < QUEUE_LENGTH {
        syncTriggerEventQueue := syncTriggerEventQueue + [time];
        accepted := accepted + [time];
      }
    }

    /** Switching capture on drops what waits. */
    method SetCaptureEnabled(enabled: bool)
      modifies this
      ensures captureEnabled == enabled
      ensures State() == if enabled then ClearPending(old(State())) else old(State())
    {
      if enabled {
        deferredSyncTriggerEvent, syncTriggerEventQueue := None, [];
        accepted := TimesOf(emitted);
      }
      captureEnabled := enabled;
    }
  }
}
