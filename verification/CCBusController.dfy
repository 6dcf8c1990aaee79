/**
 * Routing the CC wires between the two ports. As Observer the controller looks for a source, then for a sink on
 * the other port, and joins them through the mux; as Sink it only watches its own port. `Router` is its state
 * with what the mux is set to; the class CCBusController refines it.
 */
module CCBusRouting {
  /** LOGIC_CC_BUS_CONTROLLER_DEBOUNCE_ITERATIONS */
  const DEBOUNCE: nat := 10
  const COUNTS: nat := 0x1_0000_0000

  datatype Role = Disabled | Observer | CableTest | Sink
  datatype State = Unattached | SourceFound | Attached
  datatype Port = DUT | USDS
  datatype Channel = CC1 | CC2

  /** The voltages of one reading. */
  datatype Voltages = Voltages(dut1: real, dut2: real, usds1: real, usds2: real)
  {
    function At(port: Port, channel: Channel): real {
      if port == DUT then (if channel == CC1 then dut1 else dut2) else (if channel == CC1 then usds1 else usds2)
    }
  }

  datatype Wire = Wire(port: Port, channel: Channel)

  datatype Termination = Open | SinkRd | CableDriven

  /** What the controller asks of the other parts: terminations, VBUS pass-through, sink engine and cable test. */
  datatype Drive = Drive(cc1: Termination, cc2: Termination, vbusMain: bool, vbusUSDS: bool, sinkEngine: bool,
    cableTest: bool)

  const IDLE := Drive(Open, Open, false, false, false, false)

  datatype Router = Router(
    role: Role,
    state: State,
    source: Wire,
    sink: Wire,
    sourceCount: nat,
    sinkCount: nat,
    muxActive: bool,
    dutChannel: Channel,
    usdsChannel: Channel,
    drive: Drive)

  predicate SourcePresent(voltage: real) { voltage > 0.75 }
  predicate SinkPresent(voltage: real) { 0.75 < voltage < 2.0 }

  predicate SourceOn(v: Voltages, w: Wire) { SourcePresent(v.At(w.port, w.channel)) }
  predicate SinkOn(v: Voltages, w: Wire) { SinkPresent(v.At(w.port, w.channel)) }

  function OtherPort(p: Port): Port { if p == DUT then USDS else DUT }
  function OtherChannel(c: Channel): Channel { if c == CC1 then CC2 else CC1 }
  function Next(count: nat): nat { (count + 1) % COUNTS }

  const CHECKS: seq<Wire> := [Wire(DUT, CC1), Wire(DUT, CC2), Wire(USDS, CC1), Wire(USDS, CC2)]

  /** The first of the wires that carries a source, or the number of wires. */
  function FirstSource(v: Voltages, wires: seq<Wire>): (k: nat)
    ensures k <= |wires|
    ensures k < |wires| ==> SourceOn(v, wires[k])
    ensures forall i :: 0 <= i < k ==> !SourceOn(v, wires[i])
  {
    if wires == [] || SourceOn(v, wires[0]) then 0 else 1 + FirstSource(v, wires[1..])
  }

  /** Sets the channel of one port's side of the mux. */
  function Select(r: Router, w: Wire): Router {
    if w.port == DUT then r.(dutChannel := w.channel) else r.(usdsChannel := w.channel)
  }

  function Selected(r: Router, port: Port): Channel {
    if port == DUT then r.dutChannel else r.usdsChannel
  }

  /** Every role change stops the cable test first; a cable test drives the terminations itself. */
  function DriveFor(role: Role, drive: Drive): Drive {
    match role
    case CableTest => Drive(drive.cc1, drive.cc2, false, false, false, true)
    case Observer => Drive(Open, Open, true, true, false, false)
    case Sink => Drive(SinkRd, SinkRd, true, false, true, false)
    case Disabled => IDLE
  }

  function SetRole(r: Router, role: Role): Router {
    r.(state := Unattached, muxActive := false, role := role, drive := DriveFor(role, r.drive))
  }

  function ObserveUnattached(r: Router, v: Voltages): Router {
    var k := FirstSource(v, CHECKS);
    if k == |CHECKS| then r.(sourceCount := 0)
    else
      var e := r.(source := CHECKS[k], sourceCount := Next(r.sourceCount));
      if r.sourceCount == DEBOUNCE then
        var sink := Wire(OtherPort(CHECKS[k].port), CC1);
        Select(Select(e.(state := SourceFound, sink := sink, sinkCount := 0, muxActive := true), CHECKS[k]), sink)
      else e
  }

  function ObserveSourceFound(r: Router, v: Voltages): Router {
    var present := SinkOn(v, r.sink);
    var e := if present then r.(sinkCount := Next(r.sinkCount)) else r;
    if present && r.sinkCount == DEBOUNCE then e.(state := Attached, sinkCount := 0)
    else
      var sink := r.sink.(channel := OtherChannel(r.sink.channel));
      CheckSource(Select(e.(sink := sink), sink), v)
  }

  function CheckSource(r: Router, v: Voltages): Router {
    if SourceOn(v, r.source) then r.(sourceCount := 0)
    else if r.sourceCount == DEBOUNCE then r.(state := Unattached, muxActive := false, sourceCount := 0)
    else r.(sourceCount := Next(r.sourceCount))
  }

  function ObserveAttached(r: Router, v: Voltages): Router {
    if SinkOn(v, r.sink) then r.(sinkCount := 0)
    else if r.sinkCount == DEBOUNCE then
      r.(state := Unattached, muxActive := false, sourceCount := 0, sinkCount := Next(r.sinkCount))
    else r.(sinkCount := Next(r.sinkCount))
  }

  function Observe(r: Router, v: Voltages): Router {
    match r.state
    case Unattached => ObserveUnattached(r, v)
    case SourceFound => ObserveSourceFound(r, v)
    case Attached => ObserveAttached(r, v)
  }

  /** A source for the sink's own port, seen on one channel. */
  function DebounceSource(r: Router): Router {
    if r.sourceCount >= DEBOUNCE then r.(state := Attached, sourceCount := 0)
    else r.(sourceCount := Next(r.sourceCount))
  }

  function WatchAsSink(r: Router, v: Voltages): Router {
    var e := r.(muxActive := false, source := r.source.(port := DUT));
    match r.state
    case Unattached =>
      var f := e.(sink := e.sink.(channel := CC1), sinkCount := 0);
      if SinkOn(v, Wire(DUT, CC1)) then DebounceSource(f.(source := Wire(DUT, CC1)))
      else if SinkOn(v, Wire(DUT, CC2)) then DebounceSource(f.(source := Wire(DUT, CC2), dutChannel := CC2))
      else f.(sourceCount := 0)
    case Attached =>
      if SinkOn(v, e.source) then e.(dutChannel := e.source.channel, sourceCount := 0)
      else if e.sourceCount >= DEBOUNCE then e.(state := Unattached, sourceCount := 0)
      else e.(sourceCount := Next(e.sourceCount))
    case SourceFound => e.(state := Attached)
  }

  /** What the loop sees of the cable test: whether the session is over, and the contact with VCONN. */
  datatype Cable = Cable(over: bool, vconnContact: nat)

  /** One tick of the loop. */
  function Tick(r: Router, v: Voltages, cable: Cable): Router {
    match r.role
    case CableTest =>
      if cable.over then SetRole(r, Disabled)
      else r.(state := if cable.vconnContact != 0 then Attached else Unattached)
    case Observer => Observe(r, v)
    case Sink => WatchAsSink(r, v)
    case Disabled => r.(muxActive := false, state := Unattached, sourceCount := 0, sinkCount := 0)
  }

  // ----- Runs -----

  datatype Event =
    | Ticks(v: Voltages, cable: Cable)
    | Switch(role: Role)
    /** The running cable test opens the mux, picks its DUT channel and drives the terminations. */
    | CableRoutes(channel: Channel)
    /** An unpolled cable test gives up its request. */
    | CableExpires

  function Apply(r: Router, e: Event): Router {
    match e
    case Ticks(v, cable) => Tick(r, v, cable)
    case Switch(role) => SetRole(r, role)
    case CableRoutes(channel) =>
      if r.role == CableTest then
        r.(muxActive := false, dutChannel := channel, drive := r.drive.(cc1 := CableDriven, cc2 := CableDriven))
      else r
    case CableExpires => r.(drive := r.drive.(cableTest := false))
  }

  function Run(r: Router, events: seq<Event>): Router {
    if events == [] then r else Apply(Run(r, events[..|events| - 1]), events[|events| - 1])
  }

  /** The state at start-up; the debounce counters hold whatever was there. */
  function Initial(sourceCount: nat, sinkCount: nat, dut: Channel, usds: Channel): Router {
    Router(Disabled, Unattached, Wire(DUT, CC1), Wire(USDS, CC1), sourceCount, sinkCount, false, dut, usds, IDLE)
  }

  predicate IsInitial(r: Router) {
    r == Initial(r.sourceCount, r.sinkCount, r.dutChannel, r.usdsChannel)
  }

  /**
   * The mux joins the ports exactly for an Observer that has found a source, and then joins the source's channel
   * to the sink's on the other port.
   */
  predicate Routed(r: Router) {
    && (r.muxActive <==> r.role == Observer && r.state != Unattached)
    && (r.muxActive ==>
          && r.source.port != r.sink.port
          && Selected(r, r.source.port) == r.source.channel
          && Selected(r, r.sink.port) == r.sink.channel)
    && (r.state == SourceFound ==> r.role == Observer && r.sinkCount <= DEBOUNCE)
    && (r.state == Attached && r.role == Observer ==> r.sinkCount <= DEBOUNCE)
  }

  /** Who drives what: VBUS passes for Observer and Sink only, and sink engine and cable test never run together. */
  predicate Driven(r: Router) {
    var d := r.drive;
    && (d.vbusMain <==> r.role == Observer || r.role == Sink)
    && (d.vbusUSDS <==> r.role == Observer)
    && (d.sinkEngine <==> r.role == Sink)
    && (d.cableTest ==> r.role == CableTest)
    && (r.role != CableTest ==> d.cc1 == d.cc2 == (if r.role == Sink then SinkRd else Open))
  }

  lemma ObserveKeepsRouted(r: Router, v: Voltages)
    requires Routed(r) && r.role == Observer
    ensures Routed(Observe(r, v)) && Observe(r, v).role == Observer && Observe(r, v).drive == r.drive
  {
    hide SourceOn, SinkOn, FirstSource;
    match r.state
    case Unattached => UnattachedKeepsRouted(r, v);
    case SourceFound => FoundKeepsRouted(r, v);
    case Attached =>
  }

  lemma UnattachedKeepsRouted(r: Router, v: Voltages)
    requires Routed(r) && r.role == Observer && r.state == Unattached
    ensures var s := ObserveUnattached(r, v); Routed(s) && s.role == Observer && s.drive == r.drive
  {
    hide SourceOn;
  }

  lemma FoundKeepsRouted(r: Router, v: Voltages)
    requires Routed(r) && r.role == Observer && r.state == SourceFound
    ensures var s := ObserveSourceFound(r, v); Routed(s) && s.role == Observer && s.drive == r.drive
  {
    hide SourceOn, SinkOn;
  }

  lemma SinkKeepsRouted(r: Router, v: Voltages)
    requires Routed(r) && r.role == Sink
    ensures Routed(WatchAsSink(r, v)) && WatchAsSink(r, v).role == Sink && WatchAsSink(r, v).drive == r.drive
  {
    hide SinkOn;
  }

  lemma ApplyKeepsRouted(r: Router, e: Event)
    requires Routed(r) && Driven(r)
    ensures Routed(Apply(r, e)) && Driven(Apply(r, e))
  {
    hide Observe, WatchAsSink;
    if e.Ticks? && r.role == Observer {
      ObserveKeepsRouted(r, e.v);
    } else if e.Ticks? && r.role == Sink {
      SinkKeepsRouted(r, e.v);
    }
  }

  /** From start-up, over every run of ticks, role changes and cable-test actions. */
  lemma {:induction false} RunsStayRouted(r: Router, events: seq<Event>)
    requires IsInitial(r)
    ensures Routed(Run(r, events)) && Driven(Run(r, events))
  {
    if events == [] {
    } else {
      hide Apply, Routed, Driven;
      RunsStayRouted(r, events[..|events| - 1]);
      ApplyKeepsRouted(Run(r, events[..|events| - 1]), events[|events| - 1]);
    }
  }

  // ----- When the state changes -----

  /** A tick that an Observer spends in a state, with the sink showing or not. */
  predicate SinkTick(r: Router, e: Event, state: State, shows: bool) {
    e.Ticks? && r.role == Observer && r.state == state && (SinkOn(e.v, r.sink) <==> shows)
  }

  /** The sink ticks of a run since a source was last found. */
  function SinkTicks(r: Router, events: seq<Event>): nat {
    if events == [] then 0
    else
      var rest, e := events[..|events| - 1], events[|events| - 1];
      NowSeen(Run(r, rest), e, SinkTicks(r, rest))
  }

  function NowSeen(s: Router, e: Event, before: nat): nat {
    if Apply(s, e).state == SourceFound && s.state != SourceFound then 0
    else before + (if SinkTick(s, e, SourceFound, true) then 1 else 0)
  }

  /** The ticks in a row, up to now, that an Observer was attached and no sink showed. */
  function AbsentTicks(r: Router, events: seq<Event>): nat {
    if events == [] then 0
    else
      var rest, e := events[..|events| - 1], events[|events| - 1];
      NowAbsent(Run(r, rest), e, AbsentTicks(r, rest))
  }

  function NowAbsent(s: Router, e: Event, before: nat): nat {
    if Apply(s, e).role != Observer || Apply(s, e).state != Attached then 0
    else if SinkTick(s, e, Attached, false) then before + 1
    else if e.Ticks? then 0
    else before
  }

  /** The debounce counter counts those ticks. */
  predicate CountsTicks(s: Router, sinkTicks: nat, absentTicks: nat) {
    && (s.state == SourceFound ==> s.sinkCount == sinkTicks)
    && (s.state == Attached && s.role == Observer ==> s.sinkCount == absentTicks)
  }

  lemma StepCountsTicks(s: Router, e: Event, sinkTicks: nat, absentTicks: nat)
    requires Routed(s) && CountsTicks(s, sinkTicks, absentTicks)
    ensures CountsTicks(Apply(s, e), NowSeen(s, e, sinkTicks), NowAbsent(s, e, absentTicks))
  {
    hide SourceOn, SinkOn, WatchAsSink, FirstSource;
    if e.Ticks? && s.role == Sink {
      SinkKeepsRouted(s, e.v);
    }
  }

  lemma {:induction false} RunsCountTicks(r: Router, events: seq<Event>)
    requires IsInitial(r)
    ensures CountsTicks(Run(r, events), SinkTicks(r, events), AbsentTicks(r, events))
  {
    if events == [] {
    } else {
      hide Apply, Routed, Driven, NowSeen, NowAbsent, CountsTicks;
      var rest := events[..|events| - 1];
      RunsCountTicks(r, rest);
      RunsStayRouted(r, rest);
      StepCountsTicks(Run(r, rest), events[|events| - 1], SinkTicks(r, rest), AbsentTicks(r, rest));
    }
  }

  /**
   * Over every run from start-up, an Observer that has found a source attaches exactly at the eleventh tick since
   * then that shows a sink on the channel it looks at, and lets go exactly at the eleventh tick in a row without.
   */
  lemma AttachesAtEleventhSinkTick(r: Router, events: seq<Event>, v: Voltages, cable: Cable)
    requires IsInitial(r) && Run(r, events).role == Observer
    ensures var s, t := Run(r, events), Apply(Run(r, events), Ticks(v, cable));
      && (s.state == SourceFound ==>
            (t.state == Attached <==> SinkOn(v, s.sink) && SinkTicks(r, events) == 10))
      && (s.state == Attached ==>
            (t.state != Attached <==> !SinkOn(v, s.sink) && AbsentTicks(r, events) == 10))
      && (s.state == Unattached ==> t.state != Attached)
  {
    hide SourceOn, SinkOn, Run, SinkTicks, AbsentTicks, FirstSource;
    RunsCountTicks(r, events);
  }

  /** The state of an Observer after some ticks. */
  function Observed(r: Router, vs: seq<Voltages>): Router {
    if vs == [] then r else Observe(Observed(r, vs[..|vs| - 1]), vs[|vs| - 1])
  }

  lemma ObservedNext(r: Router, vs: seq<Voltages>, n: nat)
    requires n < |vs|
    ensures Observed(r, vs[..n + 1]) == Observe(Observed(r, vs[..n]), vs[n])
    ensures Observed(r, vs[..0]) == r
  {
    assert vs[..n + 1][..n] == vs[..n];
  }

  predicate Reaches(r: Router, vs: seq<Voltages>, n: nat, state: State)
    requires n <= |vs|
  {
    Observed(r, vs[..n]).state == state
  }

  /** Every reading shows a source somewhere. */
  predicate SourceLasts(vs: seq<Voltages>) {
    forall i :: 0 <= i < |vs| ==> FirstSource(vs[i], CHECKS) < |CHECKS|
  }

  lemma {:induction false} SourceCountsUp(r: Router, vs: seq<Voltages>, n: nat)
    requires r.role == Observer && r.state == Unattached && SourceLasts(vs) && n <= |vs|
    requires r.sourceCount + n < COUNTS && (r.sourceCount + n <= 10 || r.sourceCount > 10)
    ensures var s := Observed(r, vs[..n]);
      s.role == Observer && s.state == Unattached && s.sourceCount == r.sourceCount + n
  {
    if n == 0 {
    } else {
      SourceCountsUp(r, vs, n - 1);
      ObservedNext(r, vs, n - 1);
      CountsSource(Observed(r, vs[..n - 1]), vs[n - 1]);
    }
  }

  lemma CountsSource(s: Router, v: Voltages)
    requires s.role == Observer && s.state == Unattached && FirstSource(v, CHECKS) < |CHECKS|
      && s.sourceCount + 1 < COUNTS
    ensures var t := Observe(s, v);
      t.role == Observer && t.sourceCount == s.sourceCount + 1
      && t.state == (if s.sourceCount == 10 then SourceFound else Unattached)
  {
    hide FirstSource;
  }

  /** A source that lasts is found if and only if it lasts to the eleventh count and the count was not past ten. */
  lemma SourceFoundIff(r: Router, vs: seq<Voltages>)
    requires r.role == Observer && r.state == Unattached && SourceLasts(vs) && r.sourceCount + |vs| < COUNTS
    ensures (exists n :: 0 <= n <= |vs| && Reaches(r, vs, n, SourceFound))
      <==> r.sourceCount <= 10 && r.sourceCount + |vs| >= 11
  {
    hide SourceLasts, Observed;
    if r.sourceCount <= 10 && r.sourceCount + |vs| >= 11 {
      var n := 10 - r.sourceCount;
      SourceCountsUp(r, vs, n);
      ObservedNext(r, vs, n);
      LastingSource(vs, n);
      CountsSource(Observed(r, vs[..n]), vs[n]);
      assert Reaches(r, vs, n + 1, SourceFound);
    } else {
      forall n | 0 <= n <= |vs|
        ensures !Reaches(r, vs, n, SourceFound)
      {
        SourceCountsUp(r, vs, n);
      }
    }
  }

  lemma LastingSource(vs: seq<Voltages>, n: nat)
    requires SourceLasts(vs) && n < |vs|
    ensures FirstSource(vs[n], CHECKS) < |CHECKS|
  {
  }

  /** The source is off its wire, whatever else the bus shows, and no sink is found meanwhile. */
  predicate SourceGone(r: Router, vs: seq<Voltages>) {
    && (forall i :: 0 <= i < |vs| ==> !SourceOn(vs[i], r.source))
    && (forall n :: 0 <= n <= |vs| ==> !Reaches(r, vs, n, Attached))
  }

  lemma MissesSource(s: Router, v: Voltages)
    requires s.state == SourceFound && !SourceOn(v, s.source) && Observe(s, v).state != Attached
      && s.sourceCount + 1 < COUNTS
    ensures var t := Observe(s, v);
      if s.sourceCount == 10 then t.state == Unattached && !t.muxActive && t.sourceCount == 0
      else t.state == SourceFound && t.muxActive == s.muxActive && t.source == s.source
           && t.sourceCount == s.sourceCount + 1
  {
    hide SourceOn, SinkOn;
  }

  lemma {:induction false} LossCountsUp(r: Router, vs: seq<Voltages>, n: nat)
    requires r.state == SourceFound && SourceGone(r, vs) && n <= |vs|
    requires r.sourceCount + n < COUNTS && (r.sourceCount + n <= 10 || r.sourceCount > 10)
    ensures var s := Observed(r, vs[..n]);
      && s.state == SourceFound && s.muxActive == r.muxActive && s.source == r.source
      && s.sourceCount == r.sourceCount + n
  {
    hide SourceOn, Observe;
    if n == 0 {
    } else {
      LossCountsUp(r, vs, n - 1);
      ObservedNext(r, vs, n - 1);
      assert !Reaches(r, vs, n, Attached);
      MissesSource(Observed(r, vs[..n - 1]), vs[n - 1]);
    }
  }

  /**
   * When the source goes before a sink is found, the Observer returns to Unattached within eleven ticks if and
   * only if its count was not past ten; otherwise it stays, with the mux as it was, until the count wraps.
   */
  lemma SourceLossNoticedIff(r: Router, vs: seq<Voltages>)
    requires r.state == SourceFound && SourceGone(r, vs) && |vs| >= 11 && r.sourceCount + |vs| < COUNTS
    ensures (exists n :: 0 <= n <= |vs| && Reaches(r, vs, n, Unattached)) <==> r.sourceCount <= 10
    ensures r.sourceCount > 10 ==> Observed(r, vs).muxActive == r.muxActive
  {
    hide Observe, SourceOn, Observed;
    if r.sourceCount <= 10 {
      var n := 10 - r.sourceCount;
      LossCountsUp(r, vs, n);
      ObservedNext(r, vs, n);
      assert !Reaches(r, vs, n + 1, Attached);
      MissesSource(Observed(r, vs[..n]), vs[n]);
      assert Reaches(r, vs, n + 1, Unattached);
    } else {
      forall n | 0 <= n <= |vs|
        ensures !Reaches(r, vs, n, Unattached)
      {
        LossCountsUp(r, vs, n);
      }
      LossCountsUp(r, vs, |vs|);
      assert vs[..|vs|] == vs;
    }
  }

  /** The count is past ten whenever the source has just been found, so losing it before the next tick is missed. */
  lemma FreshLossIsMissed(r: Router, found: Voltages, vs: seq<Voltages>)
    requires Routed(r) && r.role == Observer && r.state == Unattached && Observe(r, found).state == SourceFound
    requires SourceGone(Observe(r, found), vs) && 11 <= |vs| < COUNTS - 11
    ensures Observed(Observe(r, found), vs).muxActive
  {
    hide SourceGone, SourceOn, FirstSource;
    ObserveKeepsRouted(r, found);
    SourceLossNoticedIff(Observe(r, found), vs);
  }

  // ----- A count left over -----

  function TicksOf(vs: seq<Voltages>, cable: Cable): seq<Event> {
    seq(|vs|, i requires 0 <= i < |vs| => Ticks(vs[i], cable))
  }

  lemma {:induction false} RunObserves(r: Router, events: seq<Event>, vs: seq<Voltages>, cable: Cable)
    requires Routed(Run(r, events)) && Run(r, events).role == Observer
    ensures Run(r, events + TicksOf(vs, cable)) == Observed(Run(r, events), vs)
    ensures Routed(Observed(Run(r, events), vs)) && Observed(Run(r, events), vs).role == Observer
  {
    hide Observe, Routed;
    if vs == [] {
      assert events + TicksOf(vs, cable) == events;
    } else {
      var rest, last := vs[..|vs| - 1], vs[|vs| - 1];
      RunObserves(r, events, rest, cable);
      assert events + TicksOf(vs, cable) == events + TicksOf(rest, cable) + [Ticks(last, cable)];
      var all := events + TicksOf(rest, cable) + [Ticks(last, cable)];
      assert all[..|all| - 1] == events + TicksOf(rest, cable);
      ObserveKeepsRouted(Observed(Run(r, events), rest), last);
    }
  }

  /** Becoming an Observer, finding a source, and being made an Observer again. */
  function SwitchedAgain(vs: seq<Voltages>, cable: Cable): seq<Event> {
    [Switch(Observer)] + TicksOf(vs, cable) + [Switch(Observer)]
  }

  /**
   * A role change does not clear the count: after one at the moment a source is found, no source that keeps showing
   * is found again until the count wraps.
   */
  lemma RoleChangeHidesSource(r: Router, cable: Cable, before: seq<Voltages>, after: seq<Voltages>)
    requires IsInitial(r) && r.sourceCount == 0
    requires |before| == 11 && SourceLasts(before) && SourceLasts(after) && |after| < COUNTS - 11
    ensures var s := Run(r, SwitchedAgain(before, cable));
      s.role == Observer && s.state == Unattached
      && forall n :: 0 <= n <= |after| ==> !Reaches(s, after, n, SourceFound)
  {
    hide Observe, SourceLasts, Observed;
    var first := [Switch(Observer)];
    assert Run(r, first[..0]) == r;
    var o := Run(r, first);
    assert o == SetRole(r, Observer);
    RunObserves(r, first, before, cable);
    SourceCountsUp(o, before, 10);
    ObservedNext(o, before, 10);
    LastingSource(before, 10);
    CountsSource(Observed(o, before[..10]), before[10]);
    assert before[..11] == before;
    var all := SwitchedAgain(before, cable);
    assert all[..|all| - 1] == first + TicksOf(before, cable);
    var s := Run(r, all);
    assert s.sourceCount == 11 && s.role == Observer && s.state == Unattached;
    SourceFoundIff(s, after);
  }

  // ----- A steady bus -----

  /** The source stays, and a sink shows on one channel of the other port only. */
  predicate Steady(source: Wire, port: Port, c: Channel, vs: seq<Voltages>) {
    forall i :: 0 <= i < |vs| ==>
      SourceOn(vs[i], source) && SinkOn(vs[i], Wire(port, c)) && !SinkOn(vs[i], Wire(port, OtherChannel(c)))
  }

  /** Where a steady bus has the Observer after `n` ticks that have not attached it yet. */
  predicate Looking(r: Router, s: Router, c: Channel, n: nat) {
    && s.role == Observer && s.state == SourceFound && s.source == r.source && s.sink.port == r.sink.port
    && s.sink.channel == (if n % 2 == 0 then CC1 else CC2)
    && s.sinkCount == (if c == CC1 then (n + 1) / 2 else n / 2)
  }

  lemma LooksOn(r: Router, s: Router, v: Voltages, c: Channel, n: nat)
    requires Looking(r, s, c, n) && n < (if c == CC1 then 20 else 21)
    requires Steady(r.source, r.sink.port, c, [v])
    ensures Looking(r, Observe(s, v), c, n + 1)
  {
    hide SinkOn, SourceOn;
    assert [v][0] == v;
    assert s.sink == Wire(r.sink.port, s.sink.channel);
  }

  lemma AttachesNow(r: Router, s: Router, v: Voltages, c: Channel)
    requires Looking(r, s, c, if c == CC1 then 20 else 21) && Steady(r.source, r.sink.port, c, [v])
    ensures var t := Observe(s, v); t.state == Attached && t.sink == Wire(r.sink.port, c) && t.source == r.source
  {
    hide SinkOn, SourceOn;
    assert [v][0] == v;
    assert s.sink == Wire(r.sink.port, s.sink.channel);
  }

  lemma {:induction false} KeepsLooking(r: Router, vs: seq<Voltages>, c: Channel, n: nat)
    requires Looking(r, r, c, 0) && n <= |vs| && n <= (if c == CC1 then 20 else 21)
    requires Steady(r.source, r.sink.port, c, vs)
    ensures Looking(r, Observed(r, vs[..n]), c, n)
  {
    hide Looking, Observe;
    if n == 0 {
    } else {
      KeepsLooking(r, vs, c, n - 1);
      ObservedNext(r, vs, n - 1);
      LooksOn(r, Observed(r, vs[..n - 1]), vs[n - 1], c, n - 1);
    }
  }

  /**
   * With a steady source and sink the Observer attaches, to the sink's own channel, exactly at tick 21 if that is
   * CC1 and 22 if it is CC2.
   */
  lemma SteadyBusAttaches(r: Router, vs: seq<Voltages>, c: Channel)
    requires r.role == Observer && r.state == SourceFound && r.sinkCount == 0 && r.sink.channel == CC1
    requires Steady(r.source, r.sink.port, c, vs) && |vs| == (if c == CC1 then 21 else 22)
    ensures var s := Observed(r, vs);
      s.state == Attached && s.sink == Wire(r.sink.port, c) && s.source == r.source
    ensures forall n :: 0 <= n < |vs| ==> Reaches(r, vs, n, SourceFound)
  {
    hide Observe, Observed;
    var last := |vs| - 1;
    assert Looking(r, r, c, 0);
    KeepsLooking(r, vs, c, last);
    ObservedNext(r, vs, last);
    AttachesNow(r, Observed(r, vs[..last]), vs[last], c);
    assert vs[..last + 1] == vs;
    forall n | 0 <= n < |vs|
      ensures Reaches(r, vs, n, SourceFound)
    {
      KeepsLooking(r, vs, c, n);
    }
  }

  // ----- The Sink role -----

  function Watched(r: Router, vs: seq<Voltages>): Router {
    if vs == [] then r else WatchAsSink(Watched(r, vs[..|vs| - 1]), vs[|vs| - 1])
  }

  /** A source shows on the sink's own channel, CC1 looked at first. */
  predicate SourceFor(c: Channel, vs: seq<Voltages>) {
    forall i :: 0 <= i < |vs| ==> SinkOn(vs[i], Wire(DUT, c)) && (c == CC2 ==> !SinkOn(vs[i], Wire(DUT, CC1)))
  }

  /** As Sink, a source that lasts attaches on its channel at the eleventh tick and not before. */
  lemma {:induction false} SinkAttachesAtEleventhTick(r: Router, vs: seq<Voltages>, c: Channel)
    requires r.state == Unattached && r.sourceCount == 0 && 1 <= |vs| <= 11 && SourceFor(c, vs)
    ensures var s := Watched(r, vs);
      && s.source == Wire(DUT, c) && s.state == (if |vs| == 11 then Attached else Unattached)
      && s.sourceCount == (if |vs| == 11 then 0 else |vs|)
  {
    hide SinkOn;
    var rest := vs[..|vs| - 1];
    if |vs| == 1 {
      assert Watched(r, rest) == r;
    } else {
      SinkAttachesAtEleventhTick(r, rest, c);
    }
  }

  /** As Sink, a source that goes away is let go at the eleventh tick without it and not before. */
  lemma {:induction false} SinkLetsGoAtEleventhTick(r: Router, vs: seq<Voltages>)
    requires r.state == Attached && r.source.port == DUT && r.sourceCount == 0 && |vs| <= 11
    requires forall i :: 0 <= i < |vs| ==> !SinkOn(vs[i], r.source)
    ensures var s := Watched(r, vs);
      && s.source == r.source && s.state == (if |vs| == 11 then Unattached else Attached)
      && s.sourceCount == (if |vs| == 11 then 0 else |vs|)
  {
    hide SinkOn;
    if vs == [] {
    } else {
      SinkLetsGoAtEleventhTick(r, vs[..|vs| - 1]);
    }
  }

  // ----- The controller in place -----

  class CCBusController {
    var role: Role
    var state: State
    var sourcePort: Port
    var sourceChannel: Channel
    var sinkPort: Port
    var sinkChannel: Channel
    var sourceDebounceCounter: nat
    var sinkDebounceCounter: nat
    var muxActive: bool
    var dutChannel: Channel
    var usdsChannel: Channel
    /** What has been asked of the role manager, the VBUS manager, the sink engine and the cable test. */
    var drive: Drive

    ghost function Value(): Router
      reads this
    {
      Router(role, state, Wire(sourcePort, sourceChannel), Wire(sinkPort, sinkChannel), sourceDebounceCounter,
             sinkDebounceCounter, muxActive, dutChannel, usdsChannel, drive)
    }

    constructor (sourceCount: nat, sinkCount: nat, dut: Channel, usds: Channel)
      ensures Value() == Initial(sourceCount, sinkCount, dut, usds)
    {
      role, state := Disabled, Unattached;
      sourcePort, sourceChannel, sinkPort, sinkChannel := DUT, CC1, USDS, CC1;
      sourceDebounceCounter, sinkDebounceCounter := sourceCount, sinkCount;
      muxActive, dutChannel, usdsChannel, drive := false, dut, usds, IDLE;
    }

    method ChangeRole(newRole: Role)
      modifies this`role, this`state, this`muxActive, this`drive
      ensures Value() == SetRole(old(Value()), newRole)
    {
      drive := drive.(cableTest := false);
      state := Unattached;
      muxActive := false;
      role := newRole;
      match role
      case CableTest =>
        drive := drive.(sinkEngine := false, vbusMain := false, vbusUSDS := false, cableTest := true);
      case Observer =>
        drive := drive.(sinkEngine := false, cc1 := Open, cc2 := Open, vbusMain := true, vbusUSDS := true);
      case Sink =>
        drive := drive.(sinkEngine := true, cc1 := SinkRd, cc2 := SinkRd, vbusMain := true, vbusUSDS := false);
      case Disabled =>
        drive := drive.(sinkEngine := false, cc1 := Open, cc2 := Open, vbusMain := false, vbusUSDS := false);
    }

    method Loop(v: Voltages, cable: Cable)
      modifies this
      ensures Value() == Tick(old(Value()), v, cable)
    {
      hide Observe, WatchAsSink;
      match role
      case CableTest =>
        if cable.over {
          ChangeRole(Disabled);
          return;
        }
        state := if cable.vconnContact != 0 then Attached else Unattached;
      case Observer => LoopObserverMode(v);
      case Sink => LoopSinkMode(v);
      case Disabled =>
        muxActive := false;
        state := Unattached;
        sourceDebounceCounter, sinkDebounceCounter := 0, 0;
    }

    method LoopObserverMode(v: Voltages)
      modifies this
      ensures Value() == Observe(old(Value()), v)
    {
      hide ObserveUnattached, ObserveSourceFound, ObserveAttached;
      match state
      case Unattached => LookForSource(v);
      case SourceFound => LookForSink(v);
      case Attached => WatchSink(v);
    }

    method LookForSource(v: Voltages)
      requires state == Unattached
      modifies this
      ensures Value() == ObserveUnattached(old(Value()), v)
    {
      hide SourceOn;
      for i := 0 to |CHECKS|
        invariant Value() == old(Value())
        invariant FirstSource(v, CHECKS) == i + FirstSource(v, CHECKS[i..])
      {
        if SourceOn(v, CHECKS[i]) {
          sourcePort, sourceChannel := CHECKS[i].port, CHECKS[i].channel;
          var count := sourceDebounceCounter;
          sourceDebounceCounter := Next(count);
          if count == DEBOUNCE {
            EnterSourceFound();
          }
          return;
        }
      }
      sourceDebounceCounter := 0;
    }

    method EnterSourceFound()
      modifies this`state, this`sinkPort, this`sinkChannel, this`sinkDebounceCounter, this`muxActive,
        this`dutChannel, this`usdsChannel
      ensures var r, sink := old(Value()), Wire(OtherPort(old(sourcePort)), CC1);
        Value() == Select(Select(r.(state := SourceFound, sink := sink, sinkCount := 0, muxActive := true),
          r.source), sink)
    {
      state := SourceFound;
      sinkPort, sinkChannel := OtherPort(sourcePort), CC1;
      sinkDebounceCounter := 0;
      muxActive := true;
      if sourcePort == DUT {
        dutChannel, usdsChannel := sourceChannel, sinkChannel;
      } else {
        usdsChannel, dutChannel := sourceChannel, sinkChannel;
      }
    }

    method LookForSink(v: Voltages)
      requires state == SourceFound
      modifies this
      ensures Value() == ObserveSourceFound(old(Value()), v)
    {
      hide SourceOn, SinkOn, CheckSource;
      if SinkOn(v, Wire(sinkPort, sinkChannel)) {
        var count := sinkDebounceCounter;
        sinkDebounceCounter := Next(count);
        if count == DEBOUNCE {
          state := Attached;
          sinkDebounceCounter := 0;
          return;
        }
      }
      sinkChannel := OtherChannel(sinkChannel);
      if sinkPort == DUT {
        dutChannel := sinkChannel;
      } else {
        usdsChannel := sinkChannel;
      }
      VerifySource(v);
    }

    method VerifySource(v: Voltages)
      modifies this`state, this`muxActive, this`sourceDebounceCounter
      ensures Value() == CheckSource(old(Value()), v)
    {
      hide SourceOn;
      if SourceOn(v, Wire(sourcePort, sourceChannel)) {
        sourceDebounceCounter := 0;
        return;
      }
      var count := sourceDebounceCounter;
      sourceDebounceCounter := Next(count);
      if count == DEBOUNCE {
        state := Unattached;
        muxActive := false;
        sourceDebounceCounter := 0;
      }
    }

    method WatchSink(v: Voltages)
      requires state == Attached
      modifies this
      ensures Value() == ObserveAttached(old(Value()), v)
    {
      hide SinkOn;
      if SinkOn(v, Wire(sinkPort, sinkChannel)) {
        sinkDebounceCounter := 0;
        return;
      }
      var count := sinkDebounceCounter;
      sinkDebounceCounter := Next(count);
      if count == DEBOUNCE {
        state := Unattached;
        muxActive := false;
        sourceDebounceCounter := 0;
      }
    }

    method LoopSinkMode(v: Voltages)
      modifies this
      ensures Value() == WatchAsSink(old(Value()), v)
    {
      hide SinkOn, DebounceSource;
      muxActive := false;
      sourcePort := DUT;
      match state
      case Unattached =>
        sinkChannel := CC1;
        sinkDebounceCounter := 0;
        if SinkOn(v, Wire(sourcePort, CC1)) {
          sourceChannel := CC1;
          CountSource();
        } else if SinkOn(v, Wire(sourcePort, CC2)) {
          sourceChannel := CC2;
          dutChannel := sourceChannel;
          CountSource();
        } else {
          sourceDebounceCounter := 0;
        }
      case Attached =>
        if !SinkOn(v, Wire(sourcePort, sourceChannel)) {
          var count := sourceDebounceCounter;
          sourceDebounceCounter := Next(count);
          if count >= DEBOUNCE {
            state := Unattached;
            sourceDebounceCounter := 0;
          }
        } else {
          dutChannel := sourceChannel;
          sourceDebounceCounter := 0;
        }
      case SourceFound => state := Attached;
    }

    method CountSource()
      modifies this`state, this`sourceDebounceCounter
      ensures Value() == DebounceSource(old(Value()))
    {
      var count := sourceDebounceCounter;
      sourceDebounceCounter := Next(count);
      if count >= DEBOUNCE {
        state := Attached;
        sourceDebounceCounter := 0;
      }
    }
  }
}
