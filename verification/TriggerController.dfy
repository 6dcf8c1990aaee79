/**
 * The sync trigger: it counts the decoder events its mode and filters accept and fires at a threshold, once or
 * over and over. `Trigger` is its state with the number of firings; the class TriggerController refines it.
 */
module Triggering {
  import opened Symbols
  import opened BmcDecoding
  import opened Division

  /** LOGIC_TRIGGER_CONTROLLER_MAX_MESSAGE_TYPE_FILTERS */
  const SLOTS: nat := 8
  const COUNTS: nat := 0x1_0000_0000

  datatype Mode = Off | OnPreambleStart | OnSOPStart | OnHeaderStart | OnDataStart | OnMessageComplete | OnHardReset
    | OnRuntPulse | OnTimeout | OnInvalidKCode | OnCRCError | OnAnyError

  datatype Status = Idle | Armed | Triggered
  datatype Sender = AnySender | SourcePort | SinkPort | Cable
  datatype Filter = Filter(rawMessageType: nat, hasDataObjects: bool)

  const NO_FILTER := Filter(0, false)

  /** What a decoder event shows of its message. */
  datatype View = View(event: Event, sop: SOPType, dataLength: nat, header: nat)

  datatype Settings = Settings(mode: Mode, eventThreshold: nat, autoRepeat: bool, sender: Sender,
    filters: seq<Filter>, enabled: seq<bool>)
  {
    predicate Shaped() { |filters| == |enabled| == SLOTS }
  }

  datatype Trigger = Trigger(settings: Settings, eventCount: nat, status: Status, fired: nat)

  // ----- Which events count -----

  /** The events a mode watches for. */
  predicate Watches(mode: Mode, event: Event) {
    match mode
    case Off => false
    case OnPreambleStart => event == PreambleStart
    case OnSOPStart => event == SOPStart
    case OnHeaderStart => event == HeaderStart
    case OnDataStart => event == DataStart
    case OnMessageComplete => event == MessageComplete
    case OnHardReset => event == HardResetReceived
    case OnRuntPulse => event == RuntPulseError
    case OnTimeout => event == TimeoutError
    case OnInvalidKCode => event == InvalidKCodeError
    case OnCRCError => event == CRCError
    case OnAnyError => event.IsError() && event != TimeoutBeforeStartError
  }

  predicate HeaderKnown(v: View) {
    v.event == DataStart || (v.event.IsCompletion() && v.dataLength >= 2)
  }

  /** Who sent the message, if that can be told; a debug packet of the port's kind carries no role. */
  function SenderOf(v: View): (sender: Sender)
    ensures sender != AnySender || v.sop !in {SOP, SOPPrime, SOPDoublePrime, SOPPrimeDebug, SOPDoublePrimeDebug}
  {
    if v.sop == SOP then (if v.header / 0x100 % 2 == 1 then SourcePort else SinkPort)
    else if v.sop in {SOPPrime, SOPDoublePrime, SOPPrimeDebug, SOPDoublePrimeDebug} then
      (if v.header / 0x100 % 2 == 1 then Cable else SourcePort)
    else AnySender
  }

  predicate HasFilters(enabled: seq<bool>) {
    exists i :: 0 <= i < |enabled| && enabled[i]
  }

  predicate MatchesFilters(s: Settings, v: View)
    requires s.Shaped()
  {
    exists i :: 0 <= i < SLOTS && s.enabled[i] && s.filters[i] == Filter(v.header % 0x20, v.header / 0x1000 % 8 > 0)
  }

  /** An event counts unless a filter that can judge it turns it away. */
  predicate Accepts(s: Settings, v: View)
    requires s.Shaped()
  {
    && Watches(s.mode, v.event)
    && (s.sender != AnySender && HeaderKnown(v) ==> SenderOf(v) == s.sender)
    && (HasFilters(s.enabled) && HeaderKnown(v) ==> MatchesFilters(s, v))
  }

  // ----- Filter slots -----

  predicate Distinct(s: Settings)
    requires s.Shaped()
  {
    forall i, j :: 0 <= i < j < SLOTS && s.enabled[i] && s.enabled[j] ==> s.filters[i] != s.filters[j]
  }

  /** A slot out of use holds the default filter. */
  predicate Tidy(s: Settings)
    requires s.Shaped()
  {
    forall i :: 0 <= i < SLOTS && !s.enabled[i] ==> s.filters[i] == NO_FILTER
  }

  predicate MaySet(s: Settings, slot: nat, f: Filter)
    requires s.Shaped()
  {
    slot < SLOTS && f.rawMessageType <= 0x1F && forall i :: 0 <= i < SLOTS && i != slot && s.enabled[i] ==>
      s.filters[i] != f
  }

  function SetFilter(s: Settings, slot: nat, f: Filter): Settings
    requires s.Shaped()
  {
    if MaySet(s, slot, f) then s.(filters := s.filters[slot := f], enabled := s.enabled[slot := true]) else s
  }

  function ClearFilter(s: Settings, slot: nat): Settings
    requires s.Shaped()
  {
    if slot < SLOTS then s.(filters := s.filters[slot := NO_FILTER], enabled := s.enabled[slot := false]) else s
  }

  const NO_FILTERS: seq<Filter> := [NO_FILTER, NO_FILTER, NO_FILTER, NO_FILTER, NO_FILTER, NO_FILTER, NO_FILTER,
    NO_FILTER]
  const ALL_OFF: seq<bool> := [false, false, false, false, false, false, false, false]

  function ClearFilters(s: Settings): Settings {
    s.(filters := NO_FILTERS, enabled := ALL_OFF)
  }

  /** Setting and clearing slots keeps the filters in use different from each other and the slots tidy. */
  lemma SettersKeepSlots(s: Settings, slot: nat, f: Filter)
    requires s.Shaped() && Distinct(s) && Tidy(s)
    ensures var a, b := SetFilter(s, slot, f), ClearFilter(s, slot);
      && a.Shaped() && Distinct(a) && Tidy(a) && b.Shaped() && Distinct(b) && Tidy(b)
      && (MaySet(s, slot, f) <==>
            a.Shaped() && slot < SLOTS && f.rawMessageType <= 0x1F && a.enabled[slot] && a.filters[slot] == f)
  {
  }

  // ----- Counting and firing -----

  predicate FiresAt(s: Settings, count: nat)
    requires s.autoRepeat ==> s.eventThreshold > 0
  {
    if s.autoRepeat then count % s.eventThreshold == 0 else count == s.eventThreshold
  }

  function Count(t: Trigger): Trigger
    requires t.settings.autoRepeat ==> t.settings.eventThreshold > 0
  {
    var count := (t.eventCount + 1) % COUNTS;
    if FiresAt(t.settings, count) then
      Trigger(t.settings, count, if t.settings.autoRepeat then t.status else Triggered, t.fired + 1)
    else t.(eventCount := count)
  }

  function Handle(t: Trigger, v: View): Trigger
    requires t.settings.Shaped() && (t.settings.autoRepeat ==> t.settings.eventThreshold > 0)
  {
    if Accepts(t.settings, v) then Count(t) else t
  }

  /** Setting the mode, or any other setting that starts over, arms the trigger anew. */
  function Arm(t: Trigger, s: Settings): Trigger {
    Trigger(s, 0, if s.mode == Off then Idle else Armed, t.fired)
  }

  /** What reaches an armed trigger: decoder events, and filter changes, which do not arm it anew. */
  datatype Step = Sees(view: View) | SetsFilter(slot: nat, filter: Filter) | ClearsFilter(cleared: nat) | ClearsFilters

  function Refilter(s: Settings, step: Step): (r: Settings)
    requires s.Shaped()
    ensures r.Shaped() && r == s.(filters := r.filters, enabled := r.enabled)
  {
    match step
    case Sees(_) => s
    case SetsFilter(slot, filter) => SetFilter(s, slot, filter)
    case ClearsFilter(slot) => ClearFilter(s, slot)
    case ClearsFilters => ClearFilters(s)
  }

  function RefilterAll(s: Settings, steps: seq<Step>): (r: Settings)
    requires s.Shaped()
    ensures r.Shaped() && r == s.(filters := r.filters, enabled := r.enabled)
  {
    if steps == [] then s else Refilter(RefilterAll(s, steps[..|steps| - 1]), steps[|steps| - 1])
  }

  function Apply(t: Trigger, step: Step): Trigger
    requires t.settings.Shaped() && (t.settings.autoRepeat ==> t.settings.eventThreshold > 0)
  {
    if step.Sees? then Handle(t, step.view) else t.(settings := Refilter(t.settings, step))
  }

  function Run(t: Trigger, steps: seq<Step>): (r: Trigger)
    requires t.settings.Shaped() && (t.settings.autoRepeat ==> t.settings.eventThreshold > 0)
    ensures r.settings == RefilterAll(t.settings, steps)
  {
    if steps == [] then t else Apply(Run(t, steps[..|steps| - 1]), steps[|steps| - 1])
  }

  /** How many of the events were accepted, each by the filters in force when it came. */
  function Accepted(s: Settings, steps: seq<Step>): nat
    requires s.Shaped()
  {
    if steps == [] then 0
    else
      var rest, last := steps[..|steps| - 1], steps[|steps| - 1];
      Accepted(s, rest) + (if last.Sees? && Accepts(RefilterAll(s, rest), last.view) then 1 else 0)
  }

  /** How often the threshold is met while the wrapping counter takes `n` steps. */
  function Firings(s: Settings, n: nat): nat
    requires s.autoRepeat ==> s.eventThreshold > 0
  {
    if n == 0 then 0 else Firings(s, n - 1) + (if FiresAt(s, n % COUNTS) then 1 else 0)
  }

  /** The state of a trigger that was armed at `t` and has accepted `n` events since. */
  predicate Follows(r: Trigger, t: Trigger, n: nat)
    requires t.settings.eventThreshold > 0
  {
    && r.eventCount == n % COUNTS && r.fired == t.fired + Firings(t.settings, n)
    && r.status == if !t.settings.autoRepeat && Firings(t.settings, n) > 0 then Triggered
                   else if t.settings.mode == Off then Idle else Armed
  }

  lemma {:induction false} RunFollowsCount(t: Trigger, steps: seq<Step>)
    requires t.settings.Shaped() && t.settings.eventThreshold > 0
    ensures Follows(Run(Arm(t, t.settings), steps), t, Accepted(t.settings, steps))
  {
    hide Accepts, Refilter, Follows, Count;
    if steps == [] {
      ArmedFollows(t);
    } else {
      var rest := steps[..|steps| - 1];
      RunFollowsCount(t, rest);
      var r, n := Run(Arm(t, t.settings), rest), Accepted(t.settings, rest);
      CountFollows(r, t, n);
      RefilteredFollows(r, t, n, Refilter(r.settings, steps[|steps| - 1]));
    }
  }

  lemma ArmedFollows(t: Trigger)
    requires t.settings.eventThreshold > 0
    ensures Follows(Arm(t, t.settings), t, 0)
  {
  }

  lemma RefilteredFollows(r: Trigger, t: Trigger, n: nat, s: Settings)
    requires t.settings.eventThreshold > 0 && Follows(r, t, n)
    ensures Follows(r.(settings := s), t, n)
  {
    hide Firings;
  }

  lemma CountFollows(r: Trigger, t: Trigger, n: nat)
    requires t.settings.eventThreshold > 0 && Follows(r, t, n)
    requires r.settings == t.settings.(filters := r.settings.filters, enabled := r.settings.enabled)
    ensures Follows(Count(r), t, n + 1)
  {
    NextCount(n);
    var count := (n + 1) % COUNTS;
    assert FiresAt(r.settings, count) == FiresAt(t.settings, count);
    hide FiresAt;
  }

  lemma NextCount(n: nat)
    ensures (n % COUNTS + 1) % COUNTS == (n + 1) % COUNTS
  {
  }

  /** Without auto-repeat the threshold is met once, and once more each time the counter has wrapped around. */
  lemma {:induction false} SingleFirings(s: Settings, n: nat)
    requires !s.autoRepeat && 0 < s.eventThreshold < COUNTS
    ensures Firings(s, n) == if n < s.eventThreshold then 0 else 1 + (n - s.eventThreshold) / COUNTS
  {
    if n == 0 {
    } else {
      SingleFirings(s, n - 1);
      if n > s.eventThreshold {
        NextMultiple(n - s.eventThreshold, s.eventThreshold);
      }
    }
  }

  lemma NextMultiple(k: nat, threshold: nat)
    requires k > 0 && 0 < threshold < COUNTS
    ensures k / COUNTS == (k - 1) / COUNTS + (if (k + threshold) % COUNTS == threshold then 1 else 0)
  {
  }

  /** With auto-repeat, before the counter wraps, the threshold is met at each of its multiples. */
  lemma {:induction false} RepeatFirings(s: Settings, n: nat)
    requires s.autoRepeat && s.eventThreshold > 0 && n < COUNTS
    ensures Firings(s, n) == n / s.eventThreshold
  {
    if n == 0 {
      QuotientIsUnique(0, 0, 0, s.eventThreshold);
    } else {
      RepeatFirings(s, n - 1);
      QuotientStep(n, s.eventThreshold);
      hide Firings;
      assert n % COUNTS == n;
    }
  }

  /**
   * From arming on, below 2^32 accepted events: an auto-repeat trigger has fired once per full threshold and never
   * shows Triggered; a single-shot trigger has fired once, and shows it, exactly if the threshold was reached.
   */
  lemma RunLaw(t: Trigger, steps: seq<Step>)
    requires t.settings.Shaped() && 0 < t.settings.eventThreshold < COUNTS
    requires Accepted(t.settings, steps) < COUNTS
    ensures var r, n, s := Run(Arm(t, t.settings), steps), Accepted(t.settings, steps), t.settings;
      && (s.autoRepeat ==> r.fired == t.fired + n / s.eventThreshold && r.status != Triggered)
      && (!s.autoRepeat ==>
            && r.fired == t.fired + (if n >= s.eventThreshold then 1 else 0)
            && (r.status == Triggered <==> n >= s.eventThreshold))
      && (r.status == Idle <==> s.mode == Off)
  {
    hide Accepted, Accepts, Run, Firings, FiresAt, RefilterAll;
    var n, s := Accepted(t.settings, steps), t.settings;
    RunFollowsCount(t, steps);
    if s.autoRepeat {
      RepeatFirings(s, n);
    } else {
      SingleFirings(s, n);
      if s.mode == Off {
        OffAcceptsNothing(s, steps);
      }
    }
  }

  lemma {:induction false} OffAcceptsNothing(s: Settings, steps: seq<Step>)
    requires s.Shaped() && s.mode == Off
    ensures Accepted(s, steps) == 0
  {
    if steps == [] {
    } else {
      OffAcceptsNothing(s, steps[..|steps| - 1]);
    }
  }

  /** The law of auto-repeat after `n` accepted events. */
  predicate OnBeat(s: Settings, n: nat)
    requires s.autoRepeat && s.eventThreshold > 0
  {
    Firings(s, n) == n / s.eventThreshold
  }

  /**
   * Auto-repeat keeps its law over runs of any length if and only if the threshold divides 2^32. With any other
   * threshold it has fired once too often by the time the counter first wraps, which reads as a multiple of every
   * threshold.
   */
  lemma StaysOnBeatIff(s: Settings)
    requires s.autoRepeat && s.eventThreshold > 0
    ensures (forall n: nat :: OnBeat(s, n)) <==> COUNTS % s.eventThreshold == 0
    ensures COUNTS % s.eventThreshold != 0 ==> Firings(s, COUNTS) == COUNTS / s.eventThreshold + 1
  {
    if COUNTS % s.eventThreshold == 0 {
      forall n: nat
        ensures OnBeat(s, n)
      {
        DividingThresholdStaysOnBeat(s, n);
      }
    } else {
      FirstWrap(s);
      assert !OnBeat(s, COUNTS);
    }
  }

  lemma FirstWrap(s: Settings)
    requires s.autoRepeat && s.eventThreshold > 0 && COUNTS % s.eventThreshold != 0
    ensures Firings(s, COUNTS) == COUNTS / s.eventThreshold + 1
  {
    RepeatFirings(s, COUNTS - 1);
    QuotientStep(COUNTS, s.eventThreshold);
    QuotientIsUnique(0, 0, 0, s.eventThreshold);
  }

  lemma {:induction false} DividingThresholdStaysOnBeat(s: Settings, n: nat)
    requires s.autoRepeat && s.eventThreshold > 0 && COUNTS % s.eventThreshold == 0
    ensures OnBeat(s, n)
  {
    if n == 0 {
      QuotientIsUnique(0, 0, 0, s.eventThreshold);
    } else {
      DividingThresholdStaysOnBeat(s, n - 1);
      QuotientStep(n, s.eventThreshold);
      RemainderOfRemainder(n, COUNTS, s.eventThreshold);
    }
  }

  // ----- Persistence -----

  datatype SlotConfig = SlotConfig(rawMessageType: nat, hasDataObjects: bool, enabled: bool)
  datatype PersistentConfig = PersistentConfig(mode: Mode, eventThreshold: nat, autoRepeat: bool, sender: Sender,
    slots: seq<SlotConfig>)

  function Export(s: Settings): PersistentConfig
    requires s.Shaped()
  {
    PersistentConfig(s.mode, s.eventThreshold, s.autoRepeat, s.sender,
           seq(SLOTS, i requires 0 <= i < SLOTS =>
             SlotConfig(s.filters[i].rawMessageType, s.filters[i].hasDataObjects, s.enabled[i])))
  }

  function FilterOf(c: SlotConfig): Filter {
    if c.enabled then Filter(c.rawMessageType, c.hasDataObjects) else NO_FILTER
  }

  function Restored(c: PersistentConfig): Settings
    requires |c.slots| == SLOTS
  {
    Settings(c.mode, c.eventThreshold, c.autoRepeat, c.sender,
             seq(SLOTS, i requires 0 <= i < SLOTS => FilterOf(c.slots[i])),
             seq(SLOTS, i requires 0 <= i < SLOTS => c.slots[i].enabled))
  }

  /** Exported settings come back as they were, and only they do: what is restored is tidy. */
  lemma ExportThenRestore(s: Settings)
    requires s.Shaped()
    ensures Restored(Export(s)).Shaped() && Tidy(Restored(Export(s)))
    ensures Restored(Export(s)) == s <==> Tidy(s)
  {
    var r := Restored(Export(s));
    assert r.enabled == s.enabled;
    if Tidy(s) {
      assert r.filters == s.filters;
    }
  }

  /** What the controller stored from settings with different filters restores to different filters. */
  lemma OwnConfigsStayDistinct(s: Settings)
    requires s.Shaped() && Distinct(s)
    ensures Distinct(Restored(Export(s)))
  {
    var r := Restored(Export(s));
    assert r.enabled == s.enabled;
    assert forall i :: 0 <= i < SLOTS && s.enabled[i] ==> r.filters[i] == s.filters[i];
  }

  /** Restoring does not check: it brings in one filter twice if the stored slots hold one twice. */
  lemma RestoredDistinctIff(c: PersistentConfig)
    requires |c.slots| == SLOTS
    ensures Distinct(Restored(c)) <==>
      forall i, j :: 0 <= i < j < SLOTS && c.slots[i].enabled && c.slots[j].enabled ==> c.slots[i] != c.slots[j]
  {
    var s := Restored(c);
    forall i, j | 0 <= i < j < SLOTS && c.slots[i].enabled && c.slots[j].enabled
      ensures s.enabled[i] && s.enabled[j] && (s.filters[i] == s.filters[j] <==> c.slots[i] == c.slots[j])
    {
    }
  }

  /** Stored by nothing that exports settings with different filters. */
  ghost predicate IsForeign(c: PersistentConfig) {
    |c.slots| == SLOTS && !exists s: Settings :: s.Shaped() && Distinct(s) && Export(s) == c
  }

  /** Only a stored configuration the controller never wrote can bring in one filter twice, and one does. */
  lemma ForeignConfigMayDuplicate()
    ensures exists c: PersistentConfig :: IsForeign(c) && !Distinct(Restored(c))
  {
    var slot, off := SlotConfig(1, false, true), SlotConfig(0, false, false);
    var c := PersistentConfig(OnMessageComplete, 1, false, AnySender, [slot, slot, off, off, off, off, off, off]);
    assert c.slots[0] == c.slots[1];
    RestoredDistinctIff(c);
    if s: Settings :| s.Shaped() && Distinct(s) && Export(s) == c {
      OwnConfigsStayDistinct(s);
    }
    assert IsForeign(c);
  }

  // ----- The controller in place -----

  class TriggerController {
    var mode: Mode
    var eventThreshold: nat
    var autoRepeat: bool
    var senderFilter: Sender
    const messageTypeFilters: array<Filter>
    const messageTypeFilterEnabled: array<bool>
    var eventCount: nat
    var status: Status
    ghost var fired: nat

    ghost predicate Valid() {
      messageTypeFilters.Length == messageTypeFilterEnabled.Length == SLOTS
    }

    ghost function Config(): Settings
      requires Valid()
      reads this, messageTypeFilters, messageTypeFilterEnabled
      ensures Config().Shaped()
    {
      Settings(mode, eventThreshold, autoRepeat, senderFilter, messageTypeFilters[..], messageTypeFilterEnabled[..])
    }

    ghost function State(): Trigger
      requires Valid()
      reads this, messageTypeFilters, messageTypeFilterEnabled
    {
      Trigger(Config(), eventCount, status, fired)
    }

    constructor ()
      ensures Valid() && State() == Trigger(Settings(Off, 1, false, AnySender, NO_FILTERS, ALL_OFF), 0, Idle, 0)
    {
      mode, eventThreshold, autoRepeat, senderFilter := Off, 1, false, AnySender;
      messageTypeFilters := new Filter[SLOTS](i => NO_FILTER);
      messageTypeFilterEnabled := new bool[SLOTS](i => false);
      eventCount, status, fired := 0, Idle, 0;
      new;
      assert messageTypeFilters[..] == NO_FILTERS && messageTypeFilterEnabled[..] == ALL_OFF;
    }

    method SetMode(newMode: Mode)
      requires Valid()
      modifies this`mode, this`eventCount, this`status
      ensures State() == Arm(old(State()), old(Config()).(mode := newMode))
    {
      mode := newMode;
      eventCount := 0;
      var newStatus := if newMode == Off then Idle else Armed;
      if newStatus != status {
        status := newStatus;
      }
    }

    method SetEventThreshold(count: nat)
      requires Valid()
      modifies this
      ensures State() == Arm(old(State()), old(Config()).(eventThreshold := count))
    {
      eventThreshold := count;
      SetMode(mode);
    }

    method SetAutoRepeat(enable: bool)
      requires Valid()
      modifies this
      ensures State() == Arm(old(State()), old(Config()).(autoRepeat := enable))
    {
      autoRepeat := enable;
      SetMode(mode);
    }

    method SetSenderFilter(sender: Sender)
      requires Valid()
      modifies this
      ensures State() == Arm(old(State()), old(Config()).(sender := sender))
    {
      senderFilter := sender;
      SetMode(mode);
    }

    method SetMessageTypeFilter(slot: nat, filter: Filter) returns (accepted: bool)
      requires Valid()
      modifies messageTypeFilters, messageTypeFilterEnabled
      ensures accepted <==> MaySet(old(Config()), slot, filter)
      ensures State() == old(State()).(settings := SetFilter(old(Config()), slot, filter))
    {
      if slot >= SLOTS || filter.rawMessageType > 0x1F {
        return false;
      }
      for index := 0 to SLOTS
        invariant forall i :: 0 <= i < index && i != slot && messageTypeFilterEnabled[i] ==>
          messageTypeFilters[i] != filter
      {
        if index != slot && messageTypeFilterEnabled[index] && messageTypeFilters[index] == filter {
          assert Config().enabled[index] && Config().filters[index] == filter;
          return false;
        }
      }
      messageTypeFilters[slot] := filter;
      messageTypeFilterEnabled[slot] := true;
      return true;
    }

    method ClearMessageTypeFilter(slot: nat) returns (cleared: bool)
      requires Valid()
      modifies messageTypeFilters, messageTypeFilterEnabled
      ensures cleared <==> slot < SLOTS
      ensures State() == old(State()).(settings := ClearFilter(old(Config()), slot))
    {
      if slot >= SLOTS {
        return false;
      }
      messageTypeFilters[slot] := NO_FILTER;
      messageTypeFilterEnabled[slot] := false;
      return true;
    }

    method ClearMessageTypeFilters()
      requires Valid()
      modifies messageTypeFilters, messageTypeFilterEnabled
      ensures forall i :: 0 <= i < SLOTS ==> messageTypeFilters[i] == NO_FILTER && !messageTypeFilterEnabled[i]
    {
      for i := 0 to SLOTS
        invariant forall j :: 0 <= j < i ==> messageTypeFilters[j] == NO_FILTER && !messageTypeFilterEnabled[j]
      {
        messageTypeFilters[i] := NO_FILTER;
        messageTypeFilterEnabled[i] := false;
      }
    }

    method ApplyPersistentConfig(config: PersistentConfig)
      requires Valid() && |config.slots| == SLOTS
      modifies this, messageTypeFilters, messageTypeFilterEnabled
      ensures State() == Arm(old(State()), Restored(config))
    {
      autoRepeat := config.autoRepeat;
      senderFilter := config.sender;
      ApplySlots(config);
      eventThreshold := config.eventThreshold;
      SetMode(config.mode);
      assert messageTypeFilters[..] == Restored(config).filters;
      assert messageTypeFilterEnabled[..] == Restored(config).enabled;
    }

    method ApplySlots(config: PersistentConfig)
      requires Valid() && |config.slots| == SLOTS
      modifies messageTypeFilters, messageTypeFilterEnabled
      ensures forall i :: 0 <= i < SLOTS ==>
        messageTypeFilters[i] == FilterOf(config.slots[i]) && messageTypeFilterEnabled[i] == config.slots[i].enabled
    {
      ClearMessageTypeFilters();
      for index := 0 to SLOTS
        invariant forall i :: 0 <= i < index ==>
          messageTypeFilters[i] == FilterOf(config.slots[i]) && messageTypeFilterEnabled[i] == config.slots[i].enabled
        invariant forall i :: index <= i < SLOTS ==> messageTypeFilters[i] == NO_FILTER && !messageTypeFilterEnabled[i]
      {
        if config.slots[index].enabled {
          messageTypeFilters[index] := Filter(config.slots[index].rawMessageType, config.slots[index].hasDataObjects);
          messageTypeFilterEnabled[index] := true;
        }
      }
    }

    method ExportPersistentConfig() returns (config: PersistentConfig)
      requires Valid()
      ensures config == Export(Config())
    {
      var slots := [];
      for index := 0 to SLOTS
        invariant |slots| == index
        invariant forall i :: 0 <= i < index ==>
          slots[i] == SlotConfig(messageTypeFilters[i].rawMessageType, messageTypeFilters[i].hasDataObjects,
            messageTypeFilterEnabled[i])
      {
        var filter := messageTypeFilters[index];
        slots := slots + [SlotConfig(filter.rawMessageType, filter.hasDataObjects, messageTypeFilterEnabled[index])];
      }
      return PersistentConfig(mode, eventThreshold, autoRepeat, senderFilter, slots);
    }

    method HasMessageTypeFiltersConfigured() returns (any: bool)
      requires Valid()
      ensures any == HasFilters(messageTypeFilterEnabled[..])
    {
      for index := 0 to SLOTS
        invariant forall i :: 0 <= i < index ==> !messageTypeFilterEnabled[i]
      {
        if messageTypeFilterEnabled[index] {
          assert messageTypeFilterEnabled[..][index];
          return true;
        }
      }
      return false;
    }

    method MessageMatchesFilters(v: View) returns (matches: bool)
      requires Valid()
      ensures matches == MatchesFilters(Config(), v)
    {
      var candidate := Filter(v.header % 0x20, v.header / 0x1000 % 8 > 0);
      for index := 0 to SLOTS
        invariant forall i :: 0 <= i < index && messageTypeFilterEnabled[i] ==> messageTypeFilters[i] != candidate
      {
        if messageTypeFilterEnabled[index] && messageTypeFilters[index] == candidate {
          assert Config().enabled[index] && Config().filters[index] == candidate;
          return true;
        }
      }
      return false;
    }

    /** Every decoder event comes here; `didFire` tells whether the sync output is pulsed. */
    method HandleTriggerEvent(v: View) returns (didFire: bool)
      requires Valid() && (autoRepeat ==> eventThreshold > 0)
      modifies this
      ensures State() == Handle(old(State()), v)
      ensures fired == old(fired) + (if didFire then 1 else 0)
    {
      hide Watches, HeaderKnown, SenderOf, HasFilters, MatchesFilters;
      if !Watches(mode, v.event) {
        return false;
      }
      if senderFilter != AnySender && HeaderKnown(v) && SenderOf(v) != senderFilter {
        return false;
      }
      var configured := HasMessageTypeFiltersConfigured();
      if configured && HeaderKnown(v) {
        var matches := MessageMatchesFilters(v);
        if !matches {
          return false;
        }
      }
      didFire := CountEvent();
    }

    method CountEvent() returns (didFire: bool)
      requires Valid() && (autoRepeat ==> eventThreshold > 0)
      modifies this`eventCount, this`status, this`fired
      ensures State() == Count(old(State()))
      ensures fired == old(fired) + (if didFire then 1 else 0)
    {
      eventCount := (eventCount + 1) % COUNTS;
      if (autoRepeat && eventCount % eventThreshold == 0) || (!autoRepeat && eventCount == eventThreshold) {
        if !autoRepeat {
          status := Triggered;
        }
        fired := fired + 1;
        return true;
      }
      return false;
    }
  }
}
