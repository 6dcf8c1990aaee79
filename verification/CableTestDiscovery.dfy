/**
 * The core 1 side of the cable test: finding Ra, powering VCONN, asking for the cable's identity with retries
 * and a PD 2.0 fallback (section 6.4.4.3.1 of the USB Power Delivery Specification R3.x), and removing VCONN.
 * `Session` is its state and the functions what each call does; the class CableTestController refines them.
 */
module CableTestDiscovery {
  import opened CableTestPolicy
  import opened Octets

  /** LOGIC_SINK_GOODCRC_TIMEOUT_US */
  const GOODCRC_TIMEOUT := 10000
  const GENERATIONS := 0x1_0000_0000

  datatype Outcome = Disabled | Waiting | Discovering | Identity | NoResponse | ResponseTimeout
    | NakReceived | Malformed | PowerFault | UnsupportedConnection

  datatype CCRole = Off | SourceDefault | VConn

  datatype TestResult = TestResult(generation: nat, outcome: Outcome, vconnContact: nat, goodCRC: bool,
    revision: nat, body: seq<Byte>)

  function NewResult(generation: nat, outcome: Outcome, contact: nat): TestResult {
    TestResult((generation + 1) % GENERATIONS, outcome, contact, false, 2, [])
  }

  /** Message-ID and retry bookkeeping for one target. */
  datatype Transport = Transport(nextMessageId: nat, retryCount: nat, pending: bool, pendingMessageId: nat) {
    function Begin(): Transport {
      Transport((nextMessageId + 1) % 8, 0, true, nextMessageId)
    }

    predicate Acknowledges(messageId: nat) {
      pending && pendingMessageId == messageId % 8
    }

    function Acknowledged(): Transport {
      this.(pending := false, retryCount := 0)
    }

    function Retried(): Transport {
      this.(retryCount := (retryCount + 1) % 256)
    }

    function Abandon(): Transport {
      this.(pending := false, retryCount := 0)
    }
  }

  const IDLE_TRANSPORT := Transport(0, 0, false, 0)

  /** A received message, as far as the controller looks at it. */
  datatype Message = Message(success: bool, sopPrime: bool, header: nat, body: seq<Byte>) {
    function MessageId(): nat { header / 0x200 % 8 }
    function DataObjects(): nat { header / 0x1000 % 8 }
    function MessageType(): nat { header % 0x20 }
    function Revision(): nat { header / 0x40 % 4 }
    predicate Extended() { header / 0x8000 % 2 == 1 }
    predicate IsGoodCRC() { !Extended() && DataObjects() == 0 && MessageType() == 1 }
    predicate IsVendorDefined() { !Extended() && DataObjects() > 0 && MessageType() == 0x0F }
  }

  datatype Session = Session(
    running: bool,
    result: TestResult,
    snapshot: TestResult,
    transport: Transport,
    pending: bool,
    deadline: nat,
    scanAt: nat,
    retryAt: nat,
    candidate: nat,
    debounce: nat,
    attempts: nat,
    powered: bool,
    waitingResponse: bool,
    legacy: bool,
    lastMessageId: int,
    cc1Role: CCRole,
    cc2Role: CCRole,
    dutChannel: nat,
    // History: the scans since probing last began, the revisions asked with since VCONN last went on, when
    // that was, and what the encoder was given since then.
    scans: seq<Reading>,
    requests: seq<nat>,
    poweredAt: nat,
    sent: seq<Sending>)

  /** What the encoder is told: to send a request or an acknowledgement, or to drop what it has. */
  datatype Sending = DiscoverIdentity(revision: nat, messageId: nat) | Acknowledgement(acknowledged: nat) | Cancel


  /** The contact one scan chose, and when. */
  datatype Reading = Reading(contact: nat, at: nat)

  const NO_RESULT := TestResult(0, Disabled, 0, false, 2, [])
  const INITIAL := Session(false, NO_RESULT, NO_RESULT, IDLE_TRANSPORT, false, 0, 0, 0, 0, 0, 0,
                           false, false, false, -1, Off, Off, 1, [], [], 0, [])

  function Publish(s: Session): Session {
    s.(snapshot := s.result)
  }

  /** Both contacts under Rp, VCONN off, scanning from the start. */
  function Probe(s: Session, clock: nat): Session {
    s.(powered := false, cc1Role := SourceDefault, cc2Role := SourceDefault, scanAt := clock + 100000,
       candidate := 0, debounce := 0, scans := [])
  }

  /** Gives something to the encoder. */
  function Send(s: Session, sending: Sending): Session {
    s.(sent := s.sent + [sending])
  }

  function Revision(s: Session): nat {
    if s.legacy then 1 else 2
  }

  /** `clock` and `later` are the two readings the deadlines are set by. */
  function SendIdentity(s: Session, clock: nat, later: nat): Session {
    var e := Send(s, DiscoverIdentity(Revision(s), s.transport.nextMessageId));
    Publish(e.(pending := true, transport := s.transport.Begin(), result := s.result.(revision := Revision(s)),
               attempts := s.attempts + 1, waitingResponse := false, deadline := clock + GOODCRC_TIMEOUT,
               retryAt := later + 50000, requests := s.requests + [Revision(s)]))
  }

  /** Sends the request in flight once more. */
  function Resend(s: Session, now: nat): Session {
    Send(s, DiscoverIdentity(Revision(s), s.transport.pendingMessageId)).(deadline := now + GOODCRC_TIMEOUT)
  }

  function Finish(s: Session, outcome: Outcome, clock: nat): Session {
    var e := s.(result := s.result.(outcome := outcome), pending := false, transport := s.transport.Abandon(),
                waitingResponse := false);
    Publish(Probe(Send(e, Cancel), clock))
  }

  function Later(a: nat, b: nat): nat {
    if a >= b then a else b
  }

  /** Gives up on the request in flight: another attempt, the older revision, or the end. */
  function Retry(s: Session, clock: nat): Session {
    var e := s.(pending := false, transport := s.transport.Abandon(), waitingResponse := false);
    if e.attempts >= 3 && e.legacy then
      Finish(e, if e.result.goodCRC then ResponseTimeout else NoResponse, clock)
    else
      var f := if e.attempts >= 3 then e.(legacy := true, attempts := 0, transport := IDLE_TRANSPORT) else e;
      f.(deadline := Later(clock + 50000, f.retryAt))
  }

  /** Shutting a session down. */
  function Stop(s: Session): Session {
    Publish(Send(s, Cancel).(cc1Role := Off, cc2Role := Off, pending := false, powered := false,
                             result := NewResult(s.result.generation, Disabled, 0))).(running := false)
  }

  function Start(s: Session, clock: nat): Session {
    Publish(Probe(s.(running := true, result := NewResult(s.result.generation, Waiting, 0)), clock))
  }

  /** One pass while VCONN is on. */
  function ServicePowered(s: Session, now: nat, clock: nat, later: nat, cc1: real, cc2: real): Session {
    if now < s.deadline then s
    else if s.result.outcome != Discovering then Finish(s, s.result.outcome, clock)
    else if (if s.result.vconnContact == 1 then cc1 else cc2) < 2.7 then Finish(s, PowerFault, clock)
    else if !s.pending then SendIdentity(s, clock, later)
    else if s.waitingResponse then Retry(s, clock)
    else ResendOrRetry(s.(transport := s.transport.Retried()), now, clock)
  }

  /** A request nobody acknowledged goes out again, within limits. */
  function ResendOrRetry(s: Session, now: nat, clock: nat): Session {
    if s.transport.retryCount <= (if s.legacy then 3 else 2) then Resend(s, now) else Retry(s, clock)
  }

  /** Applies VCONN to a contact that has been stable for ten scans. */
  function PowerOn(s: Session, now: nat, contact: nat): Session {
    Publish(s.(result := NewResult(s.result.generation, Discovering, contact), legacy := false, attempts := 0,
               lastMessageId := -1, transport := IDLE_TRANSPORT, pending := false,
               dutChannel := if contact == 1 then 2 else 1,
               cc1Role := if contact == 1 then VConn else s.cc1Role,
               cc2Role := if contact == 1 then s.cc2Role else VConn,
               powered := true, deadline := now + 60000, requests := [], poweredAt := now, sent := []))
  }

  /** One pass while scanning. */
  function Scan(s: Session, now: nat, cc1: real, cc2: real): Session {
    if now < s.scanAt then s
    else
      var contact := Contact(cc1, cc2);
      var e := s.(scanAt := now + 10000, scans := s.scans + [Reading(contact, now)]);
      var f := if contact != e.candidate then e.(candidate := contact, debounce := 0) else e;
      if f.debounce + 1 < 10 then f.(debounce := f.debounce + 1)
      else Settled(f.(debounce := 10), now, cc1, cc2, contact)
  }

  function Settled(s: Session, now: nat, cc1: real, cc2: real, contact: nat): Session {
    if contact == 0 then
      var outcome := if IsOpen(cc1) && IsOpen(cc2) then Waiting else UnsupportedConnection;
      if s.result.outcome != outcome || s.result.vconnContact != 0 then
        Publish(s.(result := NewResult(s.result.generation, outcome, 0)))
      else s
    else if s.result.vconnContact == contact then s
    else PowerOn(s, now, contact)
  }

  /** One pass of core 1; `requested` is what it reads of the request, `clock` any later reading of the time. */
  function Loop(s: Session, now: nat, clock: nat, later: nat, requested: bool, cc1: real, cc2: real): Session {
    if !requested then (if s.running then Stop(s) else s)
    else
      var e := if s.running then s else Start(s, clock);
      if e.powered then ServicePowered(e, now, clock, later, cc1, cc2) else Scan(e, now, cc1, cc2)
  }

  /** A message delivered by the decoder. */
  function Received(s: Session, clock: nat, requested: bool, m: Message): Session {
    if !requested || !s.powered || s.result.outcome != Discovering || !m.success || !m.sopPrime
       || !ResponderHeader(m.header) then s
    else if m.IsGoodCRC() then
      if s.transport.Acknowledges(m.MessageId()) then
        Publish(s.(transport := s.transport.Acknowledged(), result := s.result.(goodCRC := true),
                   waitingResponse := true, deadline := clock + 33000))
      else s
    else if s.lastMessageId == m.MessageId() then Send(s, Acknowledgement(m.MessageId()))
    else
      var e := Noted(s, m);
      if !m.IsVendorDefined() || !e.pending || |m.body| < 4 then e
      else Answered(e, clock, m, VDO(m.body, 0))
  }

  /** A message is acknowledged at once and remembered by its ID. */
  function Noted(s: Session, m: Message): Session {
    Send(s, Acknowledgement(m.MessageId())).(lastMessageId := m.MessageId())
  }

  /** A vendor-defined message while a request is in flight. */
  function Answered(s: Session, clock: nat, m: Message, vdm: nat): Session
    requires |m.body| >= 4
  {
    if !Structured(vdm) || SVID(vdm) != 0xFF00 || Command(vdm) != 1 || TypeOf(vdm) == Request then s
    else
      var e := s.(result := s.result.(revision := m.Revision()));
      if TypeOf(vdm) == BUSY then Retry(e, clock)
      else
        Publish(e.(result := Judged(e.result, m, TypeOf(vdm) == NAK), pending := false,
                   transport := e.transport.Abandon(), deadline := clock + 5000))
  }

  function Judged(result: TestResult, m: Message, nak: bool): TestResult {
    if nak then result.(outcome := NakReceived)
    else if |m.body| != 4 * m.DataObjects() || !IdentityValid(m.body, result.revision == 2) then
      result.(outcome := Malformed)
    else result.(body := m.body, outcome := Identity)
  }

  // ----- Runs -----

  datatype Event =
    | Pass(now: nat, clock: nat, later: nat, requested: bool, cc1: real, cc2: real)
    | Delivery(clock: nat, requested: bool, message: Message)

  function Apply(s: Session, e: Event): Session {
    match e
    case Pass(now, clock, later, requested, cc1, cc2) => Loop(s, now, clock, later, requested, cc1, cc2)
    case Delivery(clock, requested, message) => Received(s, clock, requested, message)
  }

  function Run(s: Session, events: seq<Event>): Session
    decreases events
  {
    if events == [] then s else Run(Apply(s, events[0]), events[1..])
  }

  // ----- What every run keeps -----

  predicate HoldsIdentity(r: TestResult) {
    r.outcome == Identity ==> IdentityValid(r.body, r.revision == 2)
  }

  /** VCONN is on one contact at most: the published one, with the DUT channel on the other. */
  predicate VConnSafe(s: Session) {
    && (s.cc1Role == VConn <==> s.powered && s.result.vconnContact == 1)
    && (s.cc2Role == VConn <==> s.powered && s.result.vconnContact == 2)
    && (s.powered ==>
         && s.running && 1 <= s.result.vconnContact <= 2
         && s.snapshot.vconnContact == s.result.vconnContact
         && s.dutChannel == 3 - s.result.vconnContact)
  }

  /** The last `n` scans all found `contact`. */
  predicate LastScans(scans: seq<Reading>, n: nat, contact: nat) {
    n <= |scans| && forall i :: |scans| - n <= i < |scans| ==> scans[i].contact == contact
  }

  /** Scans are at least 10 ms apart, and the next is not due before. */
  predicate Spaced(scans: seq<Reading>, next: nat) {
    && (forall i :: 0 < i < |scans| ==> scans[i].at >= scans[i - 1].at + 10000)
    && (scans != [] ==> next >= scans[|scans| - 1].at + 10000)
  }

  /** The next request is not due until 60 ms after VCONN went on, nor until the last one's retry time. */
  predicate Timed(s: Session) {
    s.powered && s.result.outcome == Discovering && !s.pending ==>
      s.deadline >= (if s.requests == [] then s.poweredAt + 60000 else s.retryAt)
  }

  predicate Evidence(s: Session) {
    && s.debounce <= 10 && Spaced(s.scans, s.scanAt)
    && (s.powered ==> LastScans(s.scans, 10, s.result.vconnContact))
    && (s.running && !s.powered ==> LastScans(s.scans, s.debounce, s.candidate))
  }

  /** The revisions discovery asks with, in order: three times 3.x, then three times 2.0. */
  const LADDER: seq<nat> := [2, 2, 2, 1, 1, 1]

  predicate OnLadder(s: Session) {
    && s.attempts <= 3
    && |s.requests| == (if s.legacy then 3 else 0) + s.attempts
    && s.requests <= LADDER
  }

  predicate ProtocolShape(s: Session) {
    s.powered && s.result.outcome == Discovering ==>
      && OnLadder(s)
      && (s.pending ==> s.attempts > 0)
      && (!s.pending ==> s.attempts < 3 && !s.transport.pending)
      && (s.pending && s.waitingResponse ==> !s.transport.pending)
      && (s.pending && !s.waitingResponse ==> s.transport.retryCount <= (if s.legacy then 3 else 2))
  }

  predicate Invariant(s: Session) {
    && VConnSafe(s) && Evidence(s) && ProtocolShape(s) && Timed(s)
    && HoldsIdentity(s.result) && HoldsIdentity(s.snapshot)
    && (s.powered ==> s.result.outcome in {Discovering, Identity, NakReceived, Malformed})
    && (!s.powered ==> s.result.outcome != Discovering)
    && |s.requests| <= 6
  }

  lemma InitiallyInvariant()
    ensures Invariant(INITIAL)
  {
  }

  lemma ProbeKeeps(s: Session, clock: nat)
    requires HoldsIdentity(s.result) && s.result.outcome != Discovering && |s.requests| <= 6
    ensures Invariant(Publish(Probe(s, clock)))
  {
    hide IdentityValid;
  }

  lemma RetryKeeps(s: Session, clock: nat)
    requires Invariant(s) && s.powered && s.result.outcome == Discovering && s.pending
    ensures Invariant(Retry(s, clock))
  {
    hide IdentityValid;
    var e := s.(pending := false, transport := s.transport.Abandon(), waitingResponse := false);
    if e.attempts >= 3 && e.legacy {
      var outcome := if e.result.goodCRC then ResponseTimeout else NoResponse;
      ProbeKeeps(Send(e.(result := e.result.(outcome := outcome)), Cancel), clock);
    }
  }

  lemma FinishKeeps(s: Session, outcome: Outcome, clock: nat)
    requires Invariant(s) && outcome != Discovering
    requires outcome == Identity ==> s.result.outcome == Identity
    ensures Invariant(Finish(s, outcome, clock))
  {
    hide IdentityValid;
    var e := s.(result := s.result.(outcome := outcome), pending := false, transport := s.transport.Abandon(),
                waitingResponse := false);
    ProbeKeeps(Send(e, Cancel), clock);
  }

  lemma SendKeeps(s: Session, clock: nat, later: nat)
    requires Invariant(s) && s.powered && s.result.outcome == Discovering && !s.pending
    ensures Invariant(SendIdentity(s, clock, later))
  {
    hide IdentityValid, VConnSafe, Evidence;
    var revision := if s.legacy then 1 else 2;
    assert s.requests + [revision] <= LADDER;
    SendKeepsPower(s, clock, later);
  }

  lemma SendKeepsPower(s: Session, clock: nat, later: nat)
    requires VConnSafe(s) && Evidence(s)
    ensures VConnSafe(SendIdentity(s, clock, later)) && Evidence(SendIdentity(s, clock, later))
  {
  }

  lemma ServiceKeeps(s: Session, now: nat, clock: nat, later: nat, cc1: real, cc2: real)
    requires Invariant(s) && s.powered
    ensures Invariant(ServicePowered(s, now, clock, later, cc1, cc2))
  {
    hide IdentityValid, Finish, SendIdentity, Retry, VConnSafe, Evidence;
    if now < s.deadline {
    } else if s.result.outcome != Discovering {
      FinishKeeps(s, s.result.outcome, clock);
    } else if (if s.result.vconnContact == 1 then cc1 else cc2) < 2.7 {
      FinishKeeps(s, PowerFault, clock);
    } else if !s.pending {
      SendKeeps(s, clock, later);
    } else if s.waitingResponse {
      RetryKeeps(s, clock);
    } else {
      ResendKeeps(s, now, clock);
    }
  }

  lemma ResendKeeps(s: Session, now: nat, clock: nat)
    requires Invariant(s) && s.powered && s.result.outcome == Discovering && s.pending && !s.waitingResponse
    ensures Invariant(ResendOrRetry(s.(transport := s.transport.Retried()), now, clock))
  {
    hide IdentityValid, Retry;
    var e := s.(transport := s.transport.Retried());
    if e.transport.retryCount > (if e.legacy then 3 else 2) {
      RetryIgnoresTransport(s, e, clock);
      RetryKeeps(s, clock);
    }
  }

  lemma RetryIgnoresTransport(s: Session, e: Session, clock: nat)
    requires e == s.(transport := s.transport.(retryCount := e.transport.retryCount))
    ensures Retry(e, clock) == Retry(s, clock)
  {
    assert s.transport.Abandon() == e.transport.Abandon();
  }

  lemma ScanKeeps(s: Session, now: nat, cc1: real, cc2: real)
    requires Invariant(s) && s.running && !s.powered
    ensures Invariant(Scan(s, now, cc1, cc2))
  {
    hide IdentityValid, Settled, Contact;
    if now >= s.scanAt {
      var contact := Contact(cc1, cc2);
      ContactRange(cc1, cc2);
      var e := s.(scanAt := now + 10000, scans := s.scans + [Reading(contact, now)]);
      var f := if contact != e.candidate then e.(candidate := contact, debounce := 0) else e;
      assert LastScans(f.scans, f.debounce + 1, contact);
      if f.debounce + 1 >= 10 {
        SettledKeeps(f.(debounce := 10), now, cc1, cc2, contact);
      }
    }
  }

  lemma ContactRange(cc1: real, cc2: real)
    ensures Contact(cc1, cc2) <= 2
  {
  }

  lemma SettledKeeps(s: Session, now: nat, cc1: real, cc2: real, contact: nat)
    requires Invariant(s) && s.running && !s.powered && contact <= 2
    requires LastScans(s.scans, 10, contact) && s.candidate == contact && s.debounce == 10
    ensures Invariant(Settled(s, now, cc1, cc2, contact))
  {
    hide IdentityValid, IsOpen;
  }

  lemma LoopKeeps(s: Session, now: nat, clock: nat, later: nat, requested: bool, cc1: real, cc2: real)
    requires Invariant(s)
    ensures Invariant(Loop(s, now, clock, later, requested, cc1, cc2))
  {
    hide IdentityValid, ServicePowered, Scan, Probe;
    if requested {
      var e := if s.running then s else Start(s, clock);
      if !s.running {
        ProbeKeeps(s.(running := true, result := NewResult(s.result.generation, Waiting, 0)), clock);
        ProbeUnpowers(s.(running := true, result := NewResult(s.result.generation, Waiting, 0)), clock);
      }
      if e.powered {
        ServiceKeeps(e, now, clock, later, cc1, cc2);
      } else {
        ScanKeeps(e, now, cc1, cc2);
      }
    }
  }

  lemma ProbeUnpowers(s: Session, clock: nat)
    ensures !Probe(s, clock).powered && Probe(s, clock).running == s.running
  {
  }

  lemma AnsweredKeeps(s: Session, clock: nat, m: Message, vdm: nat)
    requires Invariant(s) && s.powered && s.result.outcome == Discovering && s.pending && |m.body| >= 4
    ensures Invariant(Answered(s, clock, m, vdm))
  {
    hide IdentityValid, Retry, TypeOf, Structured, SVID, Command;
    var e := s.(result := s.result.(revision := m.Revision()));
    assert Invariant(e);
    RetryKeeps(e, clock);
  }

  lemma ReceivedKeeps(s: Session, clock: nat, requested: bool, m: Message)
    requires Invariant(s)
    ensures Invariant(Received(s, clock, requested, m))
  {
    hide IdentityValid, Answered, ResponderHeader, VDO;
    if requested && s.powered && s.result.outcome == Discovering && m.success && m.sopPrime && ResponderHeader(m.header)
       && !m.IsGoodCRC() && s.lastMessageId != m.MessageId() {
      var e := Noted(s, m);
      assert Invariant(e);
      if m.IsVendorDefined() && e.pending && |m.body| >= 4 {
        AnsweredKeeps(e, clock, m, VDO(m.body, 0));
      }
    }
  }

  lemma ApplyKeeps(s: Session, e: Event)
    requires Invariant(s)
    ensures Invariant(Apply(s, e))
  {
    hide Invariant, Loop, Received;
    match e
    case Pass(now, clock, later, requested, cc1, cc2) => LoopKeeps(s, now, clock, later, requested, cc1, cc2);
    case Delivery(clock, requested, message) => ReceivedKeeps(s, clock, requested, message);
  }

  /**
   * Over every run: VCONN is on at most one contact, the published one, with the DUT channel on the other, and
   * only after ten scans in a row chose it; an Identity outcome carries a valid identity; and from
   * one power-on to the next there are at most six attempts, three as PD 3.x and then three as PD 2.0.
   */
  lemma {:induction false} RunsKeepInvariant(s: Session, events: seq<Event>)
    requires Invariant(s)
    ensures Invariant(Run(s, events))
    decreases events
  {
    hide Invariant, Apply;
    if events == [] {
    } else {
      ApplyKeeps(s, events[0]);
      RunsKeepInvariant(Apply(s, events[0]), events[1..]);
    }
  }

  lemma RunsAreSafe(events: seq<Event>)
    ensures Invariant(Run(INITIAL, events))
  {
    hide Run, Invariant;
    InitiallyInvariant();
    RunsKeepInvariant(INITIAL, events);
  }

  // ----- Nothing is done too soon -----

  /** VCONN goes on only after ten scans in a row, over at least 90 ms, chose the contact. */
  lemma PowerFollowsLongEvidence(s: Session, e: Event)
    requires Invariant(s) && !s.powered && Apply(s, e).powered
    ensures var t := Apply(s, e); var n := |t.scans|;
      && n >= 10 && LastScans(t.scans, 10, t.result.vconnContact)
      && t.scans[n - 1].at >= t.scans[n - 10].at + 90000
      && e.Pass? && t.scans[n - 1].at == t.poweredAt == e.now
  {
    hide ServicePowered, Received, Contact;
    ApplyKeeps(s, e);
    var t := Apply(s, e);
    if e.Delivery? {
      DeliveryPowersNothing(s, e);
    }
    SpacedOver(t.scans, t.scanAt, 9);
    PowerOnNow(s, e);
  }

  lemma DeliveryPowersNothing(s: Session, e: Event)
    requires !s.powered && e.Delivery?
    ensures Apply(s, e) == s
  {
  }

  /** A scan that powers a contact does so with that scan recorded. */
  lemma ScanPowers(s: Session, now: nat, cc1: real, cc2: real) returns (f: Session)
    requires !s.powered && Scan(s, now, cc1, cc2).powered
    ensures Scan(s, now, cc1, cc2) == PowerOn(f, now, Contact(cc1, cc2))
    ensures f.scans == s.scans + [Reading(Contact(cc1, cc2), now)]
  {
    hide Contact, Settled, PowerOn;
    var contact := Contact(cc1, cc2);
    f := s.(scanAt := now + 10000, scans := s.scans + [Reading(contact, now)], candidate := contact, debounce := 10);
    SettledPowers(f, now, cc1, cc2, contact);
  }

  lemma SettledPowers(s: Session, now: nat, cc1: real, cc2: real, contact: nat)
    requires !s.powered
    ensures Settled(s, now, cc1, cc2, contact).powered ==>
      Settled(s, now, cc1, cc2, contact) == PowerOn(s, now, contact)
  {
    hide IsOpen, PowerOn;
  }

  lemma PowerOnNow(s: Session, e: Event)
    requires !s.powered && e.Pass? && Apply(s, e).powered
    ensures var t := Apply(s, e); t.scans != [] && t.scans[|t.scans| - 1].at == t.poweredAt == e.now
  {
    hide ServicePowered, Contact, Scan;
    var f := ScanPowers(if s.running then s else Start(s, e.clock), e.now, e.cc1, e.cc2);
  }

  lemma {:induction false} SpacedOver(scans: seq<Reading>, next: nat, k: nat)
    requires Spaced(scans, next) && k < |scans|
    ensures scans[|scans| - 1].at >= scans[|scans| - 1 - k].at + 10000 * k
  {
    if k == 0 {
    } else {
      SpacedOver(scans, next, k - 1);
      assert scans[|scans| - k].at >= scans[|scans| - k - 1].at + 10000;
    }
  }

  /** An identity request goes out at least 60 ms after VCONN went on, and 50 ms after the last request went out. */
  lemma RequestsWait(s: Session, e: Event)
    requires Invariant(s) && |Apply(s, e).requests| > |s.requests|
    ensures e.Pass? && s.powered && Apply(s, e).retryAt == e.later + 50000
    ensures e.now >= (if s.requests == [] then s.poweredAt + 60000 else s.retryAt)
  {
    hide Scan, Received, Contact;
    match e
    case Pass(now, clock, later, requested, cc1, cc2) =>
      if !s.powered {
        ScanAsksNothing(if s.running then s else Start(s, clock), now, cc1, cc2);
      }
    case Delivery(clock, requested, m) => AnswersAskNothing(s, clock, requested, m);
  }

  lemma ScanAsksNothing(s: Session, now: nat, cc1: real, cc2: real)
    ensures |Scan(s, now, cc1, cc2).requests| <= |s.requests|
  {
    hide Contact, Settled;
    forall f: Session, contact: nat | f.requests == s.requests
      ensures |Settled(f, now, cc1, cc2, contact).requests| <= |s.requests|
    {
      SettledAsksNothing(f, now, cc1, cc2, contact);
    }
  }

  lemma SettledAsksNothing(s: Session, now: nat, cc1: real, cc2: real, contact: nat)
    ensures |Settled(s, now, cc1, cc2, contact).requests| <= |s.requests|
  {
    hide IsOpen;
  }

  lemma AnswersAskNothing(s: Session, clock: nat, requested: bool, m: Message)
    ensures Received(s, clock, requested, m).requests == s.requests
  {
    hide Answered, ResponderHeader, VDO;
    if m.IsVendorDefined() && |m.body| >= 4 {
      AnswerAsksNothing(Noted(s, m), clock, m, VDO(m.body, 0));
    }
  }

  lemma AnswerAsksNothing(s: Session, clock: nat, m: Message, vdm: nat)
    requires |m.body| >= 4
    ensures Answered(s, clock, m, vdm).requests == s.requests
  {
    hide TypeOf, Structured, SVID, Command, Judged, Retry;
    RetryAsksNothing(s.(result := s.result.(revision := m.Revision())), clock);
  }

  lemma RetryAsksNothing(s: Session, clock: nat)
    ensures Retry(s, clock).requests == s.requests
  {
  }

  // ----- Discovery ends -----

  /** How many more deadlines can pass before VCONN is removed. */
  function Remaining(s: Session): nat {
    if !s.powered then 0
    else if s.result.outcome != Discovering || s.attempts > 3 then 1
    else (if s.legacy then 5 * (3 - s.attempts) else 15 + 4 * (3 - s.attempts)) + Stage(s)
  }

  function Stage(s: Session): nat {
    var limit := if s.legacy then 3 else 2;
    if !s.pending then 0
    else if s.waitingResponse || s.transport.retryCount > limit then 1
    else limit + 1 - s.transport.retryCount
  }

  /** A pass that finds the deadline over. */
  predicate Overdue(s: Session, e: Event) {
    s.powered && e.Pass? && e.requested && e.now >= s.deadline
  }

  lemma RetryProgress(s: Session, clock: nat)
    requires Invariant(s) && s.powered && s.result.outcome == Discovering && s.pending
    ensures Remaining(Retry(s, clock)) < Remaining(s)
  {
    hide VConnSafe, Evidence, HoldsIdentity;
  }

  lemma OverdueProgress(s: Session, e: Event)
    requires Invariant(s) && Overdue(s, e)
    ensures Remaining(Apply(s, e)) < Remaining(s)
  {
    hide Evidence, HoldsIdentity, Retry, Contact;
    ServiceProgress(s, e.now, e.clock, e.later, e.cc1, e.cc2);
  }

  lemma ServiceProgress(s: Session, now: nat, clock: nat, later: nat, cc1: real, cc2: real)
    requires Invariant(s) && s.powered && now >= s.deadline
    ensures Remaining(ServicePowered(s, now, clock, later, cc1, cc2)) < Remaining(s)
  {
    hide Evidence, HoldsIdentity, Retry;
    if s.result.outcome == Discovering && s.pending {
      RetryProgress(s, clock);
      var e := s.(transport := s.transport.Retried());
      RetryIgnoresTransport(s, e, clock);
    }
  }

  /** Nothing else a powered session meets puts the end further off. */
  lemma OtherwiseNoLonger(s: Session, e: Event)
    requires Invariant(s) && s.powered && !Overdue(s, e)
    ensures Remaining(Apply(s, e)) <= Remaining(s)
  {
    hide Evidence, HoldsIdentity, Retry, Contact, Scan;
    if e.Delivery? {
      DeliveryNoLonger(s, e.clock, e.requested, e.message);
    }
  }

  lemma DeliveryNoLonger(s: Session, clock: nat, requested: bool, m: Message)
    requires Invariant(s) && s.powered
    ensures Remaining(Received(s, clock, requested, m)) <= Remaining(s)
  {
    hide Evidence, HoldsIdentity, Retry, IdentityValid, ResponderHeader, VDO, TypeOf, Structured, SVID, Command;
    if s.result.outcome == Discovering && s.pending {
      var e := Noted(s, m).(result := s.result.(revision := m.Revision()));
      assert Invariant(e) by { RevisionDoesNotMatter(s, e); }
      RetryProgress(e, clock);
    }
  }

  lemma RevisionDoesNotMatter(s: Session, e: Session)
    requires Invariant(s) && s.result.outcome == Discovering
    requires e == s.(lastMessageId := e.lastMessageId, sent := e.sent,
      result := s.result.(revision := e.result.revision))
    ensures Invariant(e)
  {
    hide IdentityValid;
  }

  /** The overdue passes of a run, up to the removal of VCONN. */
  function OverduePasses(s: Session, events: seq<Event>): nat
    decreases events
  {
    if events == [] || !s.powered then 0
    else (if Overdue(s, events[0]) then 1 else 0) + OverduePasses(Apply(s, events[0]), events[1..])
  }

  /** Whatever the cable answers, BUSY included, VCONN is off after at most 27 passed deadlines. */
  lemma {:induction false} DiscoveryEnds(s: Session, events: seq<Event>)
    requires Invariant(s)
    ensures OverduePasses(s, events) <= Remaining(s) <= 27
    decreases events
  {
    hide Apply, Invariant, Overdue;
    RemainingBound(s);
    if events == [] || !s.powered {
    } else {
      ApplyKeeps(s, events[0]);
      if Overdue(s, events[0]) {
        OverdueProgress(s, events[0]);
      } else {
        OtherwiseNoLonger(s, events[0]);
      }
      DiscoveryEnds(Apply(s, events[0]), events[1..]);
    }
  }

  lemma RemainingBound(s: Session)
    requires Invariant(s)
    ensures Remaining(s) <= 27
  {
    hide VConnSafe, Evidence, HoldsIdentity;
  }

  /** VCONN never goes off without a verdict: a diagnosis of the cable, or the session was stopped. */
  lemma PowerEndsWithVerdict(s: Session, e: Event)
    requires Invariant(s) && s.powered && !Apply(s, e).powered
    ensures Verdict(s, e, Apply(s, e))
  {
    hide Evidence, HoldsIdentity, Scan, ServicePowered, Answered, ResponderHeader, VDO;
    match e
    case Pass(now, clock, later, requested, cc1, cc2) =>
      if requested {
        ServiceEndsWithVerdict(s, e);
      }
    case Delivery(clock, requested, m) =>
      if m.IsVendorDefined() && |m.body| >= 4 && s.result.outcome == Discovering {
        AnswerEndsWithVerdict(s, Noted(s, m), e, VDO(m.body, 0));
      }
  }

  predicate Verdict(s: Session, e: Event, t: Session) {
    && t.cc1Role != VConn && t.cc2Role != VConn && t.snapshot == t.result
    && (t.result.outcome in {Identity, NoResponse, ResponseTimeout, NakReceived, Malformed, PowerFault}
        || (t.result.outcome == Disabled && e.Pass? && !e.requested))
  }

  lemma ServiceEndsWithVerdict(s: Session, e: Event)
    requires s.powered && e.Pass? && s.result.outcome in {Discovering, Identity, NakReceived, Malformed}
    ensures var t := ServicePowered(s, e.now, e.clock, e.later, e.cc1, e.cc2); !t.powered ==> Verdict(s, e, t)
  {
  }

  lemma AnswerEndsWithVerdict(s: Session, f: Session, e: Event, vdm: nat)
    requires f == s.(lastMessageId := f.lastMessageId, sent := f.sent) && s.powered && e.Delivery?
      && |e.message.body| >= 4
    requires s.result.outcome == Discovering
    ensures var t := Answered(f, e.clock, e.message, vdm); !t.powered ==> Verdict(s, e, t)
  {
    hide TypeOf, Structured, SVID, Command, Judged;
  }

  // ----- The controller -----

  /** Core 1's fields and the hardware outputs it drives; each method refines the function of its name. */
  class CableTestController {
    var running: bool
    var result: TestResult
    var snapshot: TestResult
    var transport: Transport
    var pending: bool
    var deadline: nat
    var scanAt: nat
    var retryAt: nat
    var candidate: nat
    var debounce: nat
    var attempts: nat
    var powered: bool
    var waitingResponse: bool
    var legacy: bool
    var lastMessageId: int
    var cc1Role: CCRole
    var cc2Role: CCRole
    var dutChannel: nat
    ghost var scans: seq<Reading>
    ghost var requests: seq<nat>
    ghost var poweredAt: nat
    ghost var sent: seq<Sending>

    ghost function State(): Session
      reads this
    {
      Session(running, result, snapshot, transport, pending, deadline, scanAt, retryAt, candidate, debounce, attempts,
              powered, waitingResponse, legacy, lastMessageId, cc1Role, cc2Role, dutChannel, scans, requests,
              poweredAt, sent)
    }

    constructor ()
      ensures State() == INITIAL && Invariant(State())
    {
      running, result, snapshot, transport, pending := false, NO_RESULT, NO_RESULT, IDLE_TRANSPORT, false;
      deadline, scanAt, retryAt, candidate, debounce, attempts := 0, 0, 0, 0, 0, 0;
      powered, waitingResponse, legacy, lastMessageId := false, false, false, -1;
      cc1Role, cc2Role, dutChannel, scans, requests, poweredAt, sent := Off, Off, 1, [], [], 0, [];
    }

    method PublishResult()
      modifies this`snapshot
      ensures State() == Publish(old(State()))
    {
      snapshot := result;
    }

    method ProbeContacts(clock: nat)
      modifies this
      ensures State() == Probe(old(State()), clock)
    {
      SetRoles(Off);
      powered := false;
      SetRoles(SourceDefault);
      RestartScan(clock);
    }

    method SetRoles(role: CCRole)
      modifies this`cc1Role, this`cc2Role
      ensures State() == old(State()).(cc1Role := role, cc2Role := role)
    {
      cc1Role, cc2Role := role, role;
    }

    method RestartScan(clock: nat)
      modifies this`scanAt, this`candidate, this`debounce, this`scans
      ensures State() == old(State()).(scanAt := clock + 100000, candidate := 0, debounce := 0, scans := [])
    {
      scanAt := clock + 100000;
      candidate, debounce := 0, 0;
      scans := [];
    }

    /** Gives something to the encoder, which is not part of this class. */
    method Encode(sending: Sending)
      modifies this`sent
      ensures State() == Send(old(State()), sending)
    {
      sent := sent + [sending];
    }

    method SendIdentityRequest(clock: nat, later: nat)
      modifies this
      ensures State() == SendIdentity(old(State()), clock, later)
    {
      var revision, messageId := if legacy then 1 else 2, transport.nextMessageId;
      Encode(DiscoverIdentity(revision, messageId));
      RecordRequest(revision);
      OpenRequest();
      SetDeadlines(clock, later);
      PublishResult();
    }

    method OpenRequest()
      modifies this`pending, this`transport, this`attempts, this`waitingResponse
      ensures State() == old(State()).(pending := true, transport := old(transport).Begin(),
                                       attempts := old(attempts) + 1,
                                       waitingResponse := false)
    {
      pending := true;
      transport := transport.Begin();
      attempts := attempts + 1;
      waitingResponse := false;
    }

    method RecordRequest(revision: nat)
      modifies this`result, this`requests
      ensures State() == old(State()).(result := old(result).(revision := revision),
                                       requests := old(requests) + [revision])
    {
      result := result.(revision := revision);
      requests := requests + [revision];
    }

    method SetDeadlines(clock: nat, later: nat)
      modifies this`deadline, this`retryAt
      ensures State() == old(State()).(deadline := clock + GOODCRC_TIMEOUT, retryAt := later + 50000)
    {
      deadline := clock + GOODCRC_TIMEOUT;
      retryAt := later + 50000;
    }

    method FinishDiscovery(outcome: Outcome, clock: nat)
      modifies this
      ensures State() == Finish(old(State()), outcome, clock)
    {
      result := result.(outcome := outcome);
      AbandonRequest();
      Encode(Cancel);
      ProbeContacts(clock);
      PublishResult();
    }

    method AbandonRequest()
      modifies this`pending, this`transport, this`waitingResponse
      ensures State() == old(State()).(pending := false, transport := old(transport).Abandon(),
        waitingResponse := false)
    {
      pending := false;
      transport := transport.Abandon();
      waitingResponse := false;
    }

    /** To PD 2.0, with fresh message IDs. */
    method FallBack()
      modifies this`legacy, this`attempts, this`transport
      ensures State() == old(State()).(legacy := true, attempts := 0, transport := IDLE_TRANSPORT)
    {
      legacy := true;
      attempts := 0;
      transport := IDLE_TRANSPORT;
    }

    method RetryDiscovery(clock: nat)
      modifies this
      ensures State() == Retry(old(State()), clock)
    {
      hide Finish;
      AbandonRequest();
      if attempts >= 3 {
        if !legacy {
          FallBack();
        } else {
          FinishDiscovery(if result.goodCRC then ResponseTimeout else NoResponse, clock);
          return;
        }
      }
      deadline := Later(clock + 50000, retryAt);
    }

    /** One pass of core 1. A session that keeps the invariant keeps it, whatever is read. */
    method LoopCore1(now: nat, clock: nat, later: nat, requested: bool, dutCC1: real, dutCC2: real)
      modifies this
      ensures State() == Loop(old(State()), now, clock, later, requested, dutCC1, dutCC2)
    {
      hide Stop, Start, ServicePowered, Scan;
      if !requested {
        if running {
          StopSession();
        }
        return;
      }
      if !running {
        StartSession(clock);
      }
      if powered {
        LoopPowered(now, clock, later, dutCC1, dutCC2);
      } else {
        LoopScanning(now, dutCC1, dutCC2);
      }
    }

    method StopSession()
      modifies this
      ensures State() == Stop(old(State()))
    {
      Encode(Cancel);
      SwitchOff();
      result := NewResult(result.generation, Disabled, 0);
      PublishResult();
      running := false;
    }

    method SwitchOff()
      modifies this`cc1Role, this`cc2Role, this`pending, this`powered
      ensures State() == old(State()).(cc1Role := Off, cc2Role := Off, pending := false, powered := false)
    {
      SetRoles(Off);
      pending := false;
      powered := false;
    }

    method StartSession(clock: nat)
      modifies this
      ensures State() == Start(old(State()), clock)
    {
      hide Probe;
      running := true;
      result := NewResult(result.generation, Waiting, 0);
      ProbeContacts(clock);
      PublishResult();
    }

    method LoopPowered(now: nat, clock: nat, later: nat, dutCC1: real, dutCC2: real)
      modifies this
      ensures State() == ServicePowered(old(State()), now, clock, later, dutCC1, dutCC2)
    {
      hide Finish, Retry, SendIdentity, ResendOrRetry;
      if now < deadline {
        return;
      }
      if result.outcome != Discovering {
        FinishDiscovery(result.outcome, clock);
        return;
      }
      var vconn := if result.vconnContact == 1 then dutCC1 else dutCC2;
      if vconn < 2.7 {
        FinishDiscovery(PowerFault, clock);
        return;
      }
      if !pending {
        SendIdentityRequest(clock, later);
        return;
      }
      if waitingResponse {
        RetryDiscovery(clock);
        return;
      }
      transport := transport.Retried();
      ResendRequest(now, clock);
    }

    method ResendRequest(now: nat, clock: nat)
      modifies this
      ensures State() == ResendOrRetry(old(State()), now, clock)
    {
      hide Retry;
      if transport.retryCount <= (if legacy then 3 else 2) {
        Encode(DiscoverIdentity(if legacy then 1 else 2, transport.pendingMessageId));
        deadline := now + GOODCRC_TIMEOUT;
      } else {
        RetryDiscovery(clock);
      }
    }

    method LoopScanning(now: nat, dutCC1: real, dutCC2: real)
      modifies this
      ensures State() == Scan(old(State()), now, dutCC1, dutCC2)
    {
      hide Settled, Contact;
      if now < scanAt {
        return;
      }
      var contact := Contact(dutCC1, dutCC2);
      RecordScan(now, contact);
      if contact != candidate {
        candidate, debounce := contact, 0;
      }
      debounce := debounce + 1;
      if debounce < 10 {
        return;
      }
      debounce := 10;
      SettleContact(now, dutCC1, dutCC2, contact);
    }

    method RecordScan(now: nat, contact: nat)
      modifies this`scanAt, this`scans
      ensures State() == old(State()).(scanAt := now + 10000, scans := old(scans) + [Reading(contact, now)])
    {
      scanAt := now + 10000;
      scans := scans + [Reading(contact, now)];
    }

    method SettleContact(now: nat, dutCC1: real, dutCC2: real, contact: nat)
      modifies this
      ensures State() == Settled(old(State()), now, dutCC1, dutCC2, contact)
    {
      hide IsOpen, PowerOn;
      if contact == 0 {
        var outcome := if IsOpen(dutCC1) && IsOpen(dutCC2) then Waiting else UnsupportedConnection;
        if result.outcome != outcome || result.vconnContact != 0 {
          result := NewResult(result.generation, outcome, 0);
          PublishResult();
        }
        return;
      }
      if result.vconnContact == contact {
        return;
      }
      PowerContact(now, contact);
    }

    method PowerContact(now: nat, contact: nat)
      modifies this
      ensures State() == PowerOn(old(State()), now, contact)
    {
      result := NewResult(result.generation, Discovering, contact);
      ForgetRequests();
      ApplyVConn(now, contact);
      deadline := now + 60000;
      PublishResult();
    }

    method ForgetRequests()
      modifies this`legacy, this`attempts, this`lastMessageId, this`transport, this`pending, this`requests, this`sent
      ensures State() == old(State()).(legacy := false, attempts := 0, lastMessageId := -1, transport := IDLE_TRANSPORT,
                                       pending := false, requests := [], sent := [])
    {
      ForgetAttempts();
      transport, pending := IDLE_TRANSPORT, false;
      requests, sent := [], [];
    }

    method ForgetAttempts()
      modifies this`legacy, this`attempts, this`lastMessageId
      ensures State() == old(State()).(legacy := false, attempts := 0, lastMessageId := -1)
    {
      legacy, attempts, lastMessageId := false, 0, -1;
    }

    method ApplyVConn(now: nat, contact: nat)
      modifies this`dutChannel, this`cc1Role, this`cc2Role, this`powered, this`poweredAt
      ensures State() == old(State()).(dutChannel := if contact == 1 then 2 else 1,
                                       cc1Role := if contact == 1 then VConn else old(cc1Role),
                                       cc2Role := if contact == 1 then old(cc2Role) else VConn,
                                       powered := true, poweredAt := now)
    {
      dutChannel := if contact == 1 then 2 else 1;
      if contact == 1 {
        cc1Role := VConn;
      } else {
        cc2Role := VConn;
      }
      powered := true;
      poweredAt := now;
    }

    /** A message from the decoder; `acknowledged` tells whether a GoodCRC goes back for it. */
    method MessageReceived(clock: nat, requested: bool, m: Message) returns (acknowledged: bool)
      modifies this
      ensures State() == Received(old(State()), clock, requested, m)
      ensures acknowledged ==> m.success && m.sopPrime && ResponderHeader(m.header) && !m.IsGoodCRC()
    {
      hide Answered, VDO, ResponderHeader;
      if !requested || !powered || result.outcome != Discovering || !m.success || !m.sopPrime
        || !ResponderHeader(m.header) {
        return false;
      }
      if m.IsGoodCRC() {
        if transport.Acknowledges(m.MessageId()) {
          RequestDelivered(clock);
        }
        return false;
      }
      Encode(Acknowledgement(m.MessageId()));
      acknowledged := true;
      if lastMessageId == m.MessageId() {
        return;
      }
      lastMessageId := m.MessageId();
      if !m.IsVendorDefined() || !pending || |m.body| < 4 {
        return;
      }
      VendorMessageReceived(clock, m, VDO(m.body, 0));
    }

    method RequestDelivered(clock: nat)
      modifies this
      ensures State() == Publish(old(State()).(transport := old(transport).Acknowledged(), waitingResponse := true,
                                               result := old(result).(goodCRC := true), deadline := clock + 33000))
    {
      transport := transport.Acknowledged();
      result := result.(goodCRC := true);
      AwaitResponse(clock);
      PublishResult();
    }

    method AwaitResponse(clock: nat)
      modifies this`waitingResponse, this`deadline
      ensures State() == old(State()).(waitingResponse := true, deadline := clock + 33000)
    {
      waitingResponse := true;
      deadline := clock + 33000;
    }

    method VendorMessageReceived(clock: nat, m: Message, vdm: nat)
      requires |m.body| >= 4
      modifies this
      ensures State() == Answered(old(State()), clock, m, vdm)
    {
      hide Retry, IdentityValid, Structured, SVID, Command, TypeOf;
      if !Structured(vdm) || SVID(vdm) != 0xFF00 || Command(vdm) != 1 || TypeOf(vdm) == Request {
        return;
      }
      result := result.(revision := m.Revision());
      if TypeOf(vdm) == BUSY {
        RetryDiscovery(clock);
        return;
      }
      JudgeAnswer(m, TypeOf(vdm) == NAK);
      CloseRequest(clock);
    }

    method JudgeAnswer(m: Message, nak: bool)
      modifies this`result
      ensures State() == old(State()).(result := Judged(old(result), m, nak))
    {
      hide IdentityValid;
      if nak {
        result := result.(outcome := NakReceived);
      } else if |m.body| != 4 * m.DataObjects() || !IdentityValid(m.body, result.revision == 2) {
        result := result.(outcome := Malformed);
      } else {
        result := result.(body := m.body, outcome := Identity);
      }
    }

    method CloseRequest(clock: nat)
      modifies this
      ensures State() == Publish(old(State()).(pending := false, transport := old(transport).Abandon(),
        deadline := clock + 5000))
    {
      pending := false;
      transport := transport.Abandon();
      deadline := clock + 5000;
      PublishResult();
    }
  }
}
