/**
 * Starting and stopping the cable test across two cores: every interleaving of the atomic loads and stores of
 * CableTestController::enabled on core 0 with those of loopCore1 and _received on core 1.
 */
module CableTestHandshake {

  /** Where core 0 is: between calls, or before the named load or store of a call. */
  datatype Core0 =
    | Idle
    | StoreStart                    // enabled(true), before the request is set
    | CountStop                     // enabled(false), before the stop sequence is incremented
    | StoreStop(seqNo: nat)         // before the request is cleared
    | LoadReady(seqNo: nat)         // before the ready flag is read
    | AwaitAck(seqNo: nat)          // polling the acknowledgement
    | Panicked

  /** Where core 1 is in its loop. */
  datatype Core1 =
    | Top
    | CheckLease(expired: bool)     // lease and clock sampled, before running is read
    | StoreExpiry                   // before an expired session clears the request
    | LoadRequest                   // before the request is read
    | SawStop                       // no request seen, before running is read
    | Stopping                      // switching everything off, before that is published
    | StoreStopped                  // before running is cleared
    | LoadSequence                  // before the stop sequence is read
    | StoreAck(seqNo: nat)          // before it is acknowledged
    | SawStart                      // request seen, before running is read
    | Starting                      // taking over the bus after setting running, before that is published
    | Working                       // the rest of a pass
    | LoadMessageRequest            // a message arrived, before the request is read
    | Receiving                     // acting on the message

  datatype System = System(
    requested: bool, running: bool, ready: bool, powered: bool,
    // The published outcome is not Disabled: all that a caller can see of core 1.
    visible: bool,
    stopSequence: nat, stopAck: nat,
    core0: Core0, core1: Core1,
    // The last call to return was an acknowledged enabled(false), and no enabled(true) has set the request since.
    stopped: bool)

  const INITIAL := System(false, false, false, false, false, 0, 0, Idle, Top, false)

  /** One atomic step of core 0; a call may begin whenever none is in progress. */
  predicate Step0(s: System, t: System) {
    match s.core0
    case Idle => t == s.(core0 := StoreStart) || t == s.(core0 := CountStop)
    case StoreStart => t == s.(requested := true, core0 := Idle, stopped := false)
    case CountStop =>
      t == s.(stopSequence := s.stopSequence + 1, core0 := StoreStop(s.stopSequence + 1))
    case StoreStop(n) => t == s.(requested := false, core0 := LoadReady(n))
    case LoadReady(n) => t == s.(core0 := if s.ready then AwaitAck(n) else Idle)
    case AwaitAck(n) =>
      if s.stopAck == n then t == s.(core0 := Idle, stopped := true)
      else t == s || t == s.(core0 := Panicked)
    case Panicked => false
  }

  /** One atomic step of core 1, whatever the clock, the lease, the voltages and the bus do. */
  predicate Step1(s: System, t: System) {
    if !s.ready then t == s.(ready := true) else
    match s.core1
    case Top => (t.core1.LoadMessageRequest? || t.core1.CheckLease?) && t == s.(core1 := t.core1)
    case CheckLease(expired) => t == s.(core1 := if s.running && expired then StoreExpiry else LoadRequest)
    case StoreExpiry => t == s.(requested := false, core1 := LoadRequest)
    case LoadRequest => t == s.(core1 := if s.requested then SawStart else SawStop)
    case SawStop => t == s.(core1 := if s.running then Stopping else LoadSequence)
    case Stopping => t == s.(powered := false, visible := false, core1 := StoreStopped)
    case StoreStopped => t == s.(running := false, core1 := LoadSequence)
    case LoadSequence => t == s.(core1 := StoreAck(s.stopSequence))
    case StoreAck(n) => t == s.(stopAck := n, core1 := Top)
    case SawStart => t == if s.running then s.(core1 := Working) else s.(running := true, core1 := Starting)
    case Starting => t == s.(powered := false, visible := true, core1 := Working)
    case Working => t == s.(powered := t.powered, core1 := Top)
    case LoadMessageRequest => t == s.(core1 := if s.requested && s.powered then Receiving else Top)
    case Receiving => t == s.(powered := t.powered, core1 := Top) && (t.powered ==> s.powered)
  }

  predicate Step(s: System, t: System) {
    Step0(s, t) || Step1(s, t)
  }

  predicate IsRun(run: seq<System>) {
    && run != []
    && forall i :: 0 <= i < |run| - 1 ==> Step(run[i], run[i + 1])
  }

  /** Core 1 is touching, or committed to touching, the contacts, the bus, the encoder or the result. */
  predicate Acting(c: Core1) {
    c.SawStart? || c.Starting? || c.Working? || c.Receiving? || c.Stopping? || c.StoreStopped?
  }

  /** What an acknowledged stop promises. */
  predicate AtRest(s: System) {
    !s.requested && !s.running && !s.powered && !s.visible && !Acting(s.core1)
  }

  /** Core 1 has found no request but has not yet read the stop sequence it will acknowledge. */
  predicate InWindow(c: Core1) {
    c.SawStop? || c.Stopping? || c.StoreStopped? || c.LoadSequence?
  }

  /**
   * The state a stop may be counted in: no request is outstanding, or core 1 is not about to acknowledge a
   * sequence for a request it has not seen.
   */
  predicate SafeToStop(s: System) {
    s.requested ==> !InWindow(s.core1)
  }

  /** Every stop of the run is counted in a state that is safe to stop. */
  predicate StopsSafely(run: seq<System>) {
    forall i :: 0 <= i < |run| - 1 && run[i].core0 == CountStop && run[i + 1].core0 != CountStop ==> SafeToStop(run[i])
  }

  predicate Counted(c: Core0) {
    c.StoreStop? || c.LoadReady? || c.AwaitAck?
  }

  /** This stop, if any is in progress, has been acknowledged or is about to be. */
  predicate Answered(s: System) {
    s.stopAck == s.stopSequence || s.core1 == StoreAck(s.stopSequence)
  }

  predicate Invariant(s: System) {
    && s.stopAck <= s.stopSequence
    && (s.core1.StoreAck? ==> s.core1.seqNo <= s.stopSequence)
    && (Counted(s.core0) ==> s.core0.seqNo == s.stopSequence)
    && (s.powered || s.visible ==> s.running)
    && (s.core1.StoreStopped? ==> !s.powered && !s.visible)
    && (s.core1.LoadSequence? || s.core1.StoreAck? ==> !s.running)
    && (s.core1.Stopping? || s.core1.StoreStopped? || s.core1.Working? || s.core1.Starting? ==> s.running)
    && (s.core1.Receiving? || s.core1.StoreExpiry? ==> s.running)
    && (s.core0.LoadReady? || s.core0.AwaitAck? ==> !s.requested)
    && (Counted(s.core0) && InWindow(s.core1) ==> !s.requested)
    && (Counted(s.core0) && Answered(s) ==> AtRest(s))
    && (s.stopped ==> AtRest(s))
    && (!s.ready ==> s.core1 == Top && !s.running)
  }

  lemma InitiallyInvariant()
    ensures Invariant(INITIAL)
  {
  }

  lemma Step0KeepsInvariant(s: System, t: System)
    requires Invariant(s) && Step0(s, t)
    requires s.core0 == CountStop && t.core0 != CountStop ==> SafeToStop(s)
    ensures Invariant(t)
  {
  }

  lemma Step1KeepsInvariant(s: System, t: System)
    requires Invariant(s) && Step1(s, t)
    ensures Invariant(t)
  {
  }

  // ----- Safety over runs -----

  lemma {:induction false} RunsKeepInvariant(run: seq<System>, i: nat)
    requires IsRun(run) && Invariant(run[0]) && StopsSafely(run) && i < |run|
    ensures Invariant(run[i])
  {
    if i == 0 {
    } else {
      RunsKeepInvariant(run, i - 1);
      assert Step(run[i - 1], run[i - 1 + 1]);
      if Step0(run[i - 1], run[i]) {
        Step0KeepsInvariant(run[i - 1], run[i]);
      } else {
        Step1KeepsInvariant(run[i - 1], run[i]);
      }
    }
  }

  /**
   * In every interleaving whose stops are safe, once enabled(false) has returned acknowledged, core 1 is not
   * running and stays at rest until the next enabled(true) sets the request.
   */
  lemma AcknowledgedStopsHold(run: seq<System>, from: nat, to: nat)
    requires IsRun(run) && run[0] == INITIAL && StopsSafely(run)
    requires from <= to < |run| && run[from].stopped
    requires forall i :: from <= i < to ==> !(run[i].core0 == StoreStart && Step0(run[i], run[i + 1]))
    ensures run[to].stopped && AtRest(run[to])
  {
    InitiallyInvariant();
    RunsKeepInvariant(run, to);
    if from == to {
    } else {
      AcknowledgedStopsHold(run, from, to - 1);
      assert Step(run[to - 1], run[to - 1 + 1]);
    }
  }

  /** At rest, core 1 changes nothing but its own position and the acknowledgement. */
  lemma RestMeansNoAction(s: System, t: System)
    requires Invariant(s) && s.ready && AtRest(s) && Step1(s, t)
    ensures t == s.(core1 := t.core1, stopAck := t.stopAck) && !Acting(t.core1)
  {
  }

  // ----- When a stop is safe -----

  /** A run of one stop, from its counting to its acknowledged return, that leaves core 1 not at rest. */
  predicate Breaks(run: seq<System>) {
    && IsRun(run) && |run| >= 2
    && run[0].core0 == CountStop && Step0(run[0], run[1])
    && (forall i :: 1 <= i < |run| - 1 ==> Counted(run[i].core0))
    && var last := run[|run| - 1];
       last.core0 == Idle && last.stopped && !AtRest(last)
  }

  lemma SafeStopsDoNotBreak(run: seq<System>)
    requires |run| >= 2 && Invariant(run[0]) && run[0].core0 == CountStop && SafeToStop(run[0])
    ensures !Breaks(run)
  {
    if Breaks(run) {
      assert StopsSafely(run);
      RunsKeepInvariant(run, |run| - 1);
    }
  }

  /** Core 1 acknowledges the new sequence unseen, then picks up the request that is about to be cleared. */
  function BreakingRun(s: System): seq<System>
    requires s.core0 == CountStop && s.core1 == LoadSequence
  {
    var n := s.stopSequence + 1;
    var a := s.(stopSequence := n, core0 := StoreStop(n));
    var b := a.(core1 := StoreAck(n));
    var c := b.(stopAck := n, core1 := Top);
    var d := c.(core1 := CheckLease(false));
    var e := d.(core1 := LoadRequest);
    var f := e.(core1 := SawStart);
    var g := f.(running := true, core1 := Starting);
    var h := g.(requested := false, core0 := LoadReady(n));
    var i := h.(core0 := AwaitAck(n));
    [s, a, b, c, d, e, f, g, h, i, i.(core0 := Idle, stopped := true)]
  }

  lemma BreakingRunBreaks(s: System)
    requires Invariant(s) && s.ready && s.core0 == CountStop && s.core1 == LoadSequence && s.requested
    ensures Breaks(BreakingRun(s)) && BreakingRun(s)[0] == s
  {
    var run := BreakingRun(s);
    forall i | 0 <= i < |run| - 1
      ensures Step(run[i], run[i + 1])
    {
      if i == 0 || i >= 7 {
        assert Step0(run[i], run[i + 1]);
      } else {
        assert Step1(run[i], run[i + 1]);
      }
    }
  }

  /** From anywhere in the window, core 1 reaches the read of the sequence after the stop is counted. */
  function ToSequenceRead(s: System): (run: seq<System>)
    requires s.core0 == CountStop && InWindow(s.core1)
    ensures |run| >= 1 && run[0] == s
    ensures run[|run| - 1].core0 == CountStop && run[|run| - 1].core1 == LoadSequence
  {
    var stopping, off := s.(core1 := Stopping), s.(powered := false, visible := false, core1 := StoreStopped);
    var stopped := off.(running := false, core1 := LoadSequence);
    match s.core1
    case SawStop => if s.running then [s, stopping, off, stopped] else [s, s.(core1 := LoadSequence)]
    case Stopping => [s, off, stopped]
    case StoreStopped => [s, s.(running := false, core1 := LoadSequence)]
    case LoadSequence => [s]
  }

  /** `s`, reached by core 1 alone after the stop was counted, is what it would be counted a little earlier. */
  function CountedAt(s: System): System {
    s.(stopSequence := s.stopSequence + 1, core0 := StoreStop(s.stopSequence + 1))
  }

  /** Core 1 gets there by its own steps, with the stop not yet counted. */
  lemma SequenceReadIsReached(s: System)
    requires Invariant(s) && s.ready && s.core0 == CountStop && InWindow(s.core1)
    ensures var run := ToSequenceRead(s);
      && (forall i :: 0 <= i < |run| - 1 ==> Step1(run[i], run[i + 1]) && !run[i].core1.LoadSequence?)
      && (forall i :: 0 <= i < |run| ==> run[i].ready && run[i].core0 == CountStop && InWindow(run[i].core1))
      && var last := run[|run| - 1];
         Invariant(last) && last.requested == s.requested && last.core1 == LoadSequence
  {
  }

  /** The same steps of core 1, after the stop was counted instead of before. */
  function CountedEarlier(run: seq<System>): (counted: seq<System>)
    ensures |counted| == |run|
  {
    seq(|run|, k requires 0 <= k < |run| => CountedAt(run[k]))
  }

  lemma CountedEarlierIsRun(run: seq<System>)
    requires run != []
    requires forall i :: 0 <= i < |run| ==> run[i].ready && run[i].core0 == CountStop && InWindow(run[i].core1)
    requires forall i :: 0 <= i < |run| - 1 ==> Step1(run[i], run[i + 1]) && !run[i].core1.LoadSequence?
    ensures IsRun(CountedEarlier(run))
    ensures forall i :: 0 <= i < |run| ==> Counted(CountedEarlier(run)[i].core0)
  {
    var counted := CountedEarlier(run);
    forall i | 0 <= i < |counted| - 1
      ensures Step(counted[i], counted[i + 1])
    {
      assert Step1(run[i], run[i + 1]);
      CountingCommutes(run[i], run[i + 1]);
      assert counted[i] == CountedAt(run[i]) && counted[i + 1] == CountedAt(run[i + 1]);
    }
  }

  /** Only the read of the sequence can tell whether the stop was counted. */
  lemma CountingCommutes(s: System, t: System)
    requires Step1(s, t) && s.ready && s.core0 == CountStop && InWindow(s.core1) && !s.core1.LoadSequence?
    ensures Step1(CountedAt(s), CountedAt(t))
  {
  }

  lemma RunsJoin(a: seq<System>, b: seq<System>)
    requires IsRun(a) && IsRun(b) && a[|a| - 1] == b[0]
    ensures IsRun(a + b[1..])
  {
    var run := a + b[1..];
    forall i | 0 <= i < |run| - 1
      ensures Step(run[i], run[i + 1])
    {
      if i < |a| - 1 {
        assert Step(a[i], a[i + 1]);
      } else {
        var k := i - (|a| - 1);
        assert run[i] == b[k] && run[i + 1] == b[k + 1];
        assert Step(b[k], b[k + 1]);
      }
    }
  }

  /** A stop counted a few steps of core 1 earlier breaks just the same. */
  lemma CountingEarlierBreaks(before: seq<System>, breaking: seq<System>)
    requires before != [] && Breaks(breaking) && breaking[0] == before[|before| - 1]
    requires forall i :: 0 <= i < |before| ==>
      before[i].ready && before[i].core0 == CountStop && InWindow(before[i].core1)
    requires forall i :: 0 <= i < |before| - 1 ==> Step1(before[i], before[i + 1]) && !before[i].core1.LoadSequence?
    ensures Breaks([before[0]] + CountedEarlier(before) + breaking[2..])
  {
    hide Step1;
    var counted := CountedEarlier(before);
    CountedEarlierIsRun(before);
    var first := [before[0]] + counted;
    assert first[|first| - 1] == CountedAt(breaking[0]) == breaking[1];
    RunsJoin([before[0], counted[0]], counted);
    assert [before[0], counted[0]] + counted[1..] == first;
    var rest := breaking[1..];
    RestIsRun(breaking);
    RunsJoin(first, rest);
    assert breaking[1..][1..] == breaking[2..];
    var run := first + breaking[2..];
    assert |run| >= 2 && Step0(run[0], run[1]) by { assert run[1] == CountedAt(before[0]); }
    StaysCounted(first, breaking);
    LastOfJoined(first, breaking);
  }

  lemma RestIsRun(run: seq<System>)
    requires IsRun(run) && |run| >= 2
    ensures IsRun(run[1..])
  {
    hide Step;
    forall i | 0 <= i < |run[1..]| - 1
      ensures Step(run[1..][i], run[1..][i + 1])
    {
      assert Step(run[i + 1], run[i + 1 + 1]);
    }
  }

  lemma StaysCounted(first: seq<System>, breaking: seq<System>)
    requires |first| >= 2 && forall i :: 1 <= i < |first| ==> Counted(first[i].core0)
    requires |breaking| >= 3 && forall i :: 1 <= i < |breaking| - 1 ==> Counted(breaking[i].core0)
    ensures var run := first + breaking[2..]; forall i :: 1 <= i < |run| - 1 ==> Counted(run[i].core0)
  {
    var run := first + breaking[2..];
    forall i | |first| <= i < |run| - 1
      ensures Counted(run[i].core0)
    {
      assert run[i] == breaking[i - |first| + 2];
    }
  }

  lemma LastOfJoined(first: seq<System>, breaking: seq<System>)
    requires |breaking| >= 3
    ensures var run := first + breaking[2..]; run[|run| - 1] == breaking[|breaking| - 1]
  {
  }

  /** An unsafe stop can break: some interleaving returns it acknowledged with core 1 running. */
  lemma UnsafeStopsCanBreak(s: System)
    requires Invariant(s) && s.ready && s.core0 == CountStop && !SafeToStop(s)
    ensures exists run :: Breaks(run) && run[0] == s
  {
    hide Invariant, ToSequenceRead, BreakingRun, Breaks, Step1;
    SequenceReadIsReached(s);
    var before := ToSequenceRead(s);
    var breaking := BreakingRun(before[|before| - 1]);
    BreakingRunBreaks(before[|before| - 1]);
    CountingEarlierBreaks(before, breaking);
    assert ([before[0]] + CountedEarlier(before) + breaking[2..])[0] == s;
  }

  /** The stop handshake works from exactly the states that are safe to stop. */
  lemma StopHoldsIffSafe(s: System)
    requires Invariant(s) && s.ready && s.core0 == CountStop
    ensures SafeToStop(s) <==> !exists run :: |run| >= 2 && run[0] == s && Breaks(run)
  {
    if SafeToStop(s) {
      forall run | |run| >= 2 && run[0] == s
        ensures !Breaks(run)
      {
        SafeStopsDoNotBreak(run);
      }
    } else {
      UnsafeStopsCanBreak(s);
    }
  }

  predicate ReachesUnsafeStop(run: seq<System>) {
    && IsRun(run) && run[0] == INITIAL
    && var last := run[|run| - 1];
       Invariant(last) && last.ready && last.core0 == CountStop && !SafeToStop(last)
  }

  /**
   * An unsafe state does arise: core 1 finds no request just before enabled(true) sets one, and core 0 gets as
   * far as the next enabled(false) before core 1 reads the stop sequence.
   */
  lemma UnsafeStatesArise()
    ensures exists run: seq<System> :: ReachesUnsafeStop(run)
  {
    var a := INITIAL.(ready := true);
    var b := a.(core1 := CheckLease(false));
    var c := b.(core1 := LoadRequest);
    var d := c.(core1 := SawStop);
    var e := d.(core0 := StoreStart);
    var f := e.(requested := true, core0 := Idle);
    var g := f.(core0 := CountStop);
    var run := [INITIAL, a, b, c, d, e, f, g];
    forall i | 0 <= i < |run| - 1
      ensures Step(run[i], run[i + 1])
    {
      if i < 4 {
        assert Step1(run[i], run[i + 1]);
      } else {
        assert Step0(run[i], run[i + 1]);
      }
    }
    assert ReachesUnsafeStop(run);
  }

  // ----- The one caller there is -----

  datatype Call = Starts | Stops

  /** The calls CCBusController::role makes: a stop, without looking, and for the cable test role a start. */
  function RoleCalls(cableTest: bool): seq<Call> {
    if cableTest then [Stops, Starts] else [Stops]
  }

  function Begun(s: System, t: System): seq<Call> {
    if !s.core0.Idle? then [] else if t.core0.StoreStart? then [Starts] else if t.core0.CountStop? then [Stops] else []
  }

  /** The calls core 0 begins in a run. */
  function Calls(run: seq<System>): seq<Call> {
    if |run| <= 1 then [] else Begun(run[0], run[1]) + Calls(run[1..])
  }

  lemma {:induction false} CallsJoin(a: seq<System>, b: seq<System>)
    requires a != [] && b != [] && a[|a| - 1] == b[0]
    ensures Calls(a + b[1..]) == Calls(a) + Calls(b)
  {
    var run := a + b[1..];
    if |a| == 1 {
      assert run == b;
    } else {
      CallsJoin(a[1..], b);
      assert run[0] == a[0] && run[1] == a[1] && run[1..] == a[1..] + b[1..];
    }
  }

  lemma {:induction false} NoCallsBegun(run: seq<System>)
    requires forall i :: 0 <= i < |run| - 1 ==> Begun(run[i], run[i + 1]) == []
    ensures Calls(run) == []
  {
    if |run| <= 1 {
    } else {
      assert Begun(run[0], run[0 + 1]) == [];
      forall i | 0 <= i < |run[1..]| - 1
        ensures Begun(run[1..][i], run[1..][i + 1]) == []
      {
        assert Begun(run[i + 1], run[i + 1 + 1]) == [];
      }
      NoCallsBegun(run[1..]);
    }
  }

  /** A run that goes on from another, with the calls of both. */
  lemma RunGoesOn(a: seq<System>, b: seq<System>)
    requires IsRun(a) && IsRun(b) && a[|a| - 1] == b[0]
    ensures var run := a + b[1..];
      IsRun(run) && run[0] == a[0] && run[|run| - 1] == b[|b| - 1] && Calls(run) == Calls(a) + Calls(b)
  {
    hide Calls, Step;
    RunsJoin(a, b);
    CallsJoin(a, b);
  }

  /** Core 0 counts a stop as soon as core 1 is ready, and waits for its acknowledgement. */
  function FirstStop(): seq<System> {
    var a := INITIAL.(ready := true);
    [INITIAL, a, a.(core0 := CountStop), a.(stopSequence := 1, core0 := StoreStop(1)),
     a.(stopSequence := 1, core0 := LoadReady(1)), a.(stopSequence := 1, core0 := AwaitAck(1))]
  }

  /** Core 1 acknowledges it. */
  function FirstAnswer(): seq<System> {
    var a := INITIAL.(ready := true, stopSequence := 1, core0 := AwaitAck(1));
    [a, a.(core1 := CheckLease(false)), a.(core1 := LoadRequest), a.(core1 := SawStop), a.(core1 := LoadSequence),
     a.(core1 := StoreAck(1)), a.(stopAck := 1)]
  }

  /** The stop returns, and on its next pass core 1 finds no request again. */
  function NextPass(): seq<System> {
    var a := INITIAL.(ready := true, stopSequence := 1, stopAck := 1, core0 := AwaitAck(1));
    var b := a.(core0 := Idle, stopped := true);
    [a, b, b.(core1 := CheckLease(false)), b.(core1 := LoadRequest), b.(core1 := SawStop)]
  }

  /** Core 0 starts and at once stops, with core 1 where it was. */
  function StartAndStop(): seq<System> {
    var a := INITIAL.(ready := true, stopSequence := 1, stopAck := 1, stopped := true, core1 := SawStop);
    var b := a.(requested := true, stopped := false);
    [a, a.(core0 := StoreStart), b, b.(core0 := CountStop)]
  }

  lemma FirstStopIsRun()
    ensures IsRun(FirstStop()) && Calls(FirstStop()) == [Stops]
  {
    var run := FirstStop();
    forall i | 0 <= i < |run| - 1
      ensures Step(run[i], run[i + 1])
    {
      if i == 0 {
        assert Step1(run[i], run[i + 1]);
      } else {
        assert Step0(run[i], run[i + 1]);
      }
    }
    FirstStopBegins();
  }

  lemma FirstStopBegins()
    ensures Calls(FirstStop()) == [Stops]
  {
    hide Step;
    var run := FirstStop();
    NoCallsBegun(run[2..]);
    assert run[1..][1..] == run[2..];
  }

  lemma FirstAnswerIsRun()
    ensures IsRun(FirstAnswer()) && Calls(FirstAnswer()) == []
  {
    var run := FirstAnswer();
    forall i | 0 <= i < |run| - 1
      ensures Step(run[i], run[i + 1])
    {
      assert Step1(run[i], run[i + 1]);
    }
    NoCallsBegun(run);
  }

  lemma NextPassIsRun()
    ensures IsRun(NextPass()) && Calls(NextPass()) == []
  {
    var run := NextPass();
    forall i | 0 <= i < |run| - 1
      ensures Step(run[i], run[i + 1])
    {
      if i == 0 {
        assert Step0(run[i], run[i + 1]);
      } else {
        assert Step1(run[i], run[i + 1]);
      }
    }
    NoCallsBegun(run);
  }

  lemma StartAndStopIsRun()
    ensures IsRun(StartAndStop()) && Calls(StartAndStop()) == [Starts, Stops]
  {
    var run := StartAndStop();
    forall i | 0 <= i < |run| - 1
      ensures Step(run[i], run[i + 1])
    {
      assert Step0(run[i], run[i + 1]);
    }
    assert run[1..][1..] == run[2..] && run[2..][1..] == run[3..];
    assert Calls(run[2..]) == [Stops] && Calls(run[1..]) == [Stops];
  }

  /** The cable test role chosen and given up at once reaches a stop that is not safe. */
  lemma QuickRoleChangesAreUnsafe()
    ensures exists run: seq<System> :: ReachesUnsafeStop(run) && Calls(run) == RoleCalls(true) + RoleCalls(false)
  {
    FirstStopIsRun();
    FirstAnswerIsRun();
    NextPassIsRun();
    StartAndStopIsRun();
    hide IsRun, Calls;
    RunGoesOn(FirstStop(), FirstAnswer());
    var first := FirstStop() + FirstAnswer()[1..];
    RunGoesOn(first, NextPass());
    var second := first + NextPass()[1..];
    RunGoesOn(second, StartAndStop());
    var run := second + StartAndStop()[1..];
    assert ReachesUnsafeStop(run) && Calls(run) == RoleCalls(true) + RoleCalls(false);
  }

  /** A run from start-up whose last call was an acknowledged stop that did not stop core 1. */
  predicate EndsRunning(run: seq<System>) {
    && IsRun(run) && run[0] == INITIAL
    && var last := run[|run| - 1];
       last.core0 == Idle && last.stopped && !AtRest(last)
  }

  /** And that stop can return acknowledged with core 1 still at work. */
  lemma QuickRoleChangesBreak()
    ensures exists run: seq<System> :: EndsRunning(run) && Calls(run) == RoleCalls(true) + RoleCalls(false)
  {
    hide Invariant, Step, Calls, AtRest, SafeToStop;
    QuickRoleChangesAreUnsafe();
    var first: seq<System> :| ReachesUnsafeStop(first) && Calls(first) == RoleCalls(true) + RoleCalls(false);
    UnsafeStopsCanBreak(first[|first| - 1]);
    var rest :| Breaks(rest) && rest[0] == first[|first| - 1];
    BreakingBeginsNoCall(rest);
    RunGoesOn(first, rest);
    assert EndsRunning(first + rest[1..]);
  }

  lemma BreakingBeginsNoCall(run: seq<System>)
    requires Breaks(run)
    ensures Calls(run) == []
  {
    hide Step, AtRest;
    NoCallsBegun(run);
  }

  // ----- What a caller can do -----

  /** What core 0 knows of its last start: none outstanding, or one, and whether it has been seen to take effect. */
  datatype Knowledge = NotStarted | Unseen | Seen

  /** What core 0 knows after one more step. */
  function Learns(before: Knowledge, s: System, t: System): Knowledge {
    if s.core0.StoreStart? && t.core0.Idle? then Unseen
    else if s.core0.AwaitAck? && t.core0.Idle? then NotStarted
    else if before == Unseen && t.visible then Seen
    else before
  }

  function Knows(run: seq<System>): Knowledge {
    if |run| <= 1 then NotStarted
    else Learns(Knows(run[..|run| - 1]), run[|run| - 2], run[|run| - 1])
  }

  /**
   * Core 0 starts only after an acknowledged stop, and stops only when no start is outstanding or an outcome other
   * than Disabled has been published since the last one.
   */
  predicate Disciplined(run: seq<System>) {
    |run| <= 1 || (Disciplined(run[..|run| - 1]) && Permitted(run[..|run| - 1], run[|run| - 1]))
  }

  predicate Permitted(run: seq<System>, t: System)
    requires run != []
  {
    var s := run[|run| - 1];
    && (s.core0.StoreStart? && t.core0.Idle? ==> s.stopped)
    && (s.core0.CountStop? && !t.core0.CountStop? ==> Knows(run) != Unseen)
  }

  /** What the discipline keeps: a request core 1 is not about to overlook once it has published an outcome. */
  predicate Heeded(s: System, k: Knowledge) {
    && (s.requested && InWindow(s.core1) ==> !s.running)
    && (k == NotStarted ==> !s.requested)
    && (k == Seen && s.requested ==> s.running)
  }

  lemma HeededStep0(s: System, t: System, k: Knowledge)
    requires Invariant(s) && Heeded(s, k) && Step0(s, t)
    requires s.core0.StoreStart? && t.core0.Idle? ==> s.stopped
    ensures Heeded(t, Learns(k, s, t))
  {
  }

  lemma HeededStep1(s: System, t: System, k: Knowledge)
    requires Invariant(s) && Heeded(s, k) && Step1(s, t)
    ensures Heeded(t, Learns(k, s, t))
  {
  }

  /** A stop the discipline permits is counted in a safe state. */
  lemma PermittedIsSafe(s: System, k: Knowledge)
    requires Invariant(s) && Heeded(s, k) && k != Unseen
    ensures SafeToStop(s)
  {
  }

  lemma HeededStep(run: seq<System>, t: System)
    requires run != [] && Invariant(run[|run| - 1]) && Heeded(run[|run| - 1], Knows(run))
    requires Step(run[|run| - 1], t) && Permitted(run, t)
    ensures Invariant(t) && Heeded(t, Knows(run + [t]))
    ensures run[|run| - 1].core0 == CountStop && t.core0 != CountStop ==> SafeToStop(run[|run| - 1])
  {
    hide Invariant, Heeded, SafeToStop, Step0, Step1;
    var s, k := run[|run| - 1], Knows(run);
    assert (run + [t])[..|run|] == run;
    if s.core0 == CountStop && t.core0 != CountStop {
      PermittedIsSafe(s, k);
    }
    if Step0(s, t) {
      Step0KeepsInvariant(s, t);
      HeededStep0(s, t, k);
    } else {
      Step1KeepsInvariant(s, t);
      HeededStep1(s, t, k);
    }
  }

  lemma {:induction false} DisciplineIsHeeded(run: seq<System>)
    requires IsRun(run) && run[0] == INITIAL && Disciplined(run)
    ensures Invariant(run[|run| - 1]) && Heeded(run[|run| - 1], Knows(run)) && StopsSafely(run)
  {
    hide Invariant, Heeded, Step, Knows, Permitted, SafeToStop;
    var n := |run| - 1;
    if n == 0 {
      HeededInitially(run);
    } else {
      assert IsRun(run[..n]);
      assert Step(run[n - 1], run[n - 1 + 1]);
      DisciplineIsHeeded(run[..n]);
      HeededStep(run[..n], run[n]);
      assert run[..n] + [run[n]] == run;
    }
  }

  lemma HeededInitially(run: seq<System>)
    requires run == [INITIAL]
    ensures Invariant(INITIAL) && Heeded(INITIAL, Knows(run))
  {
  }

  /**
   * For a caller that keeps the discipline the handshake works: once enabled(false) has returned acknowledged,
   * core 1 is at rest until the next enabled(true) sets the request.
   */
  lemma DisciplinedStopsHold(run: seq<System>, from: nat, to: nat)
    requires IsRun(run) && run[0] == INITIAL && Disciplined(run)
    requires from <= to < |run| && run[from].stopped
    requires forall i :: from <= i < to ==> !(run[i].core0 == StoreStart && Step0(run[i], run[i + 1]))
    ensures run[to].stopped && AtRest(run[to])
  {
    hide Disciplined, StopsSafely, AtRest;
    DisciplineIsHeeded(run);
    AcknowledgedStopsHold(run, from, to);
  }
}
