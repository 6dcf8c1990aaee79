/** How much the cable test puts on the wire: each attempt is sent three times as PD 3.x or four times as PD 2.0. */
module CableTestTraffic {
  import opened CableTestDiscovery
  import opened CableTestPolicy
  import opened CableTestTiming

  /** The identity requests among what the encoder was given. */
  function IdentityRequests(sent: seq<Sending>): nat {
    if sent == [] then 0
    else IdentityRequests(sent[..|sent| - 1]) + (if sent[|sent| - 1].DiscoverIdentity? then 1 else 0)
  }

  lemma OneMoreSent(sent: seq<Sending>, sending: Sending)
    ensures IdentityRequests(sent + [sending]) == IdentityRequests(sent) + (if sending.DiscoverIdentity? then 1 else 0)
  {
    assert (sent + [sending])[..|sent|] == sent;
  }

  function Limit(legacy: bool): nat {
    if legacy then 3 else 2
  }

  /** How many more requests can go out before VCONN goes off. */
  function SendsLeft(s: Session): nat {
    if !s.powered || s.result.outcome != Discovering then 0
    else
      (if s.pending && !s.waitingResponse && s.transport.retryCount <= Limit(s.legacy)
       then Limit(s.legacy) - s.transport.retryCount else 0)
      + AttemptsLeft(s.attempts, Limit(s.legacy) + 1) + (if s.legacy then 0 else 12)
  }

  predicate Sparing(s: Session) {
    IdentityRequests(s.sent) + SendsLeft(s) <= 21
  }

  lemma RetrySparing(s: Session, clock: nat)
    requires Sparing(s) && Invariant(s) && s.powered && s.result.outcome == Discovering && s.pending
    ensures Sparing(Retry(s, clock))
  {
    hide VConnSafe, Evidence, HoldsIdentity, IdentityRequests;
    OneMoreSent(s.sent, Cancel);
  }

  lemma FinishSparing(s: Session, outcome: Outcome, clock: nat)
    requires Sparing(s)
    ensures Sparing(Finish(s, outcome, clock))
  {
    hide IdentityRequests;
    OneMoreSent(s.sent, Cancel);
  }

  lemma SendSparing(s: Session, clock: nat, later: nat)
    requires Sparing(s) && Invariant(s) && s.powered && s.result.outcome == Discovering && !s.pending
    ensures Sparing(SendIdentity(s, clock, later))
  {
    hide VConnSafe, Evidence, HoldsIdentity, IdentityRequests;
    OneMoreSent(s.sent, DiscoverIdentity(Revision(s), s.transport.nextMessageId));
  }

  lemma ResendSparing(s: Session, now: nat)
    requires Sparing(s) && s.powered && s.result.outcome == Discovering && s.pending && !s.waitingResponse
    requires s.transport.retryCount < Limit(s.legacy)
    ensures Sparing(Resend(s.(transport := s.transport.Retried()), now))
  {
    hide IdentityRequests;
    OneMoreSent(s.sent, DiscoverIdentity(Revision(s), s.transport.pendingMessageId));
  }

  lemma ServiceSparing(s: Session, now: nat, clock: nat, later: nat, cc1: real, cc2: real)
    requires Sparing(s) && Invariant(s) && s.powered
    ensures Sparing(ServicePowered(s, now, clock, later, cc1, cc2))
  {
    hide VConnSafe, Evidence, HoldsIdentity, Finish, Retry, SendIdentity, Resend, Sparing;
    if now < s.deadline {
    } else if s.result.outcome != Discovering {
      FinishSparing(s, s.result.outcome, clock);
    } else {
      FinishSparing(s, PowerFault, clock);
      if !s.pending {
        SendSparing(s, clock, later);
      } else {
        RetrySparing(s, clock);
        RetryIgnoresTransport(s, s.(transport := s.transport.Retried()), clock);
        if !s.waitingResponse && s.transport.retryCount < Limit(s.legacy) {
          ResendSparing(s, now);
        }
      }
    }
  }

  lemma AcknowledgeSparing(s: Session, messageId: nat, lastMessageId: int)
    requires Sparing(s)
    ensures Sparing(Send(s, Acknowledgement(messageId)).(lastMessageId := lastMessageId))
  {
    hide IdentityRequests;
    OneMoreSent(s.sent, Acknowledgement(messageId));
  }

  lemma AnsweredSparing(s: Session, clock: nat, m: Message, vdm: nat)
    requires Sparing(s) && Invariant(s) && s.powered && s.result.outcome == Discovering && s.pending && |m.body| >= 4
    ensures Sparing(Answered(s, clock, m, vdm))
  {
    hide IdentityValid, Retry, TypeOf, Structured, SVID, Command, Judged, IdentityRequests, Invariant, AttemptsLeft;
    var e := s.(result := s.result.(revision := m.Revision()));
    assert Invariant(e) by { RevisionDoesNotMatter(s, e); }
    RetrySparing(e, clock);
    JudgementEnds(e.result, m, TypeOf(vdm) == NAK);
  }

  lemma ReceivedSparing(s: Session, clock: nat, requested: bool, m: Message)
    requires Sparing(s) && Invariant(s)
    ensures Sparing(Received(s, clock, requested, m))
  {
    hide Answered, ResponderHeader, VDO, Invariant, Sparing;
    AcknowledgeSparing(s, m.MessageId(), s.lastMessageId);
    AcknowledgeSparing(s, m.MessageId(), m.MessageId());
    if s.powered && s.result.outcome == Discovering {
      DeliveredSparing(s, clock);
      var e := Noted(s, m);
      if e.pending && |m.body| >= 4 {
        assert Invariant(e) by { RevisionDoesNotMatter(s, e); }
        AnsweredSparing(e, clock, m, VDO(m.body, 0));
      }
    }
  }

  lemma DeliveredSparing(s: Session, clock: nat)
    requires Sparing(s)
    ensures Sparing(Publish(s.(transport := s.transport.Acknowledged(), result := s.result.(goodCRC := true),
                               waitingResponse := true, deadline := clock + 33000)))
  {
    hide IdentityRequests, AttemptsLeft;
  }

  lemma ScanSparing(s: Session, now: nat, cc1: real, cc2: real)
    requires Sparing(s) && !s.powered
    ensures Sparing(Scan(s, now, cc1, cc2))
  {
    hide Contact, IsOpen, IdentityRequests;
    NothingSent();
  }

  lemma NothingSent()
    ensures IdentityRequests([]) == 0
  {
  }

  lemma StopSparing(s: Session)
    requires Sparing(s)
    ensures Sparing(Stop(s))
  {
    hide IdentityRequests, AttemptsLeft;
    OneMoreSent(s.sent, Cancel);
  }

  lemma StartSparing(s: Session, clock: nat)
    requires Sparing(s)
    ensures Sparing(Start(s, clock)) && !Start(s, clock).powered
  {
    hide IdentityRequests, AttemptsLeft;
  }

  lemma ApplySparing(s: Session, e: Event)
    requires Sparing(s) && Invariant(s)
    ensures Sparing(Apply(s, e))
  {
    hide Sparing, Invariant, ServicePowered, Scan, Received, Stop, Start;
    match e
    case Pass(now, clock, later, requested, cc1, cc2) =>
      StopSparing(s);
      StartSparing(s, clock);
      if s.running && s.powered {
        ServiceSparing(s, now, clock, later, cc1, cc2);
      } else {
        ScanSparing(if s.running then s else Start(s, clock), now, cc1, cc2);
      }
    case Delivery(clock, requested, message) => ReceivedSparing(s, clock, requested, message);
  }

  lemma {:induction false} RunsStaySparing(s: Session, events: seq<Event>)
    requires Sparing(s) && Invariant(s)
    ensures Sparing(Run(s, events))
    decreases events
  {
    if events == [] {
    } else {
      hide Sparing, Invariant, Apply;
      ApplySparing(s, events[0]);
      ApplyKeeps(s, events[0]);
      RunsStaySparing(Apply(s, events[0]), events[1..]);
    }
  }

  /**
   * Over every run from start-up at most 21 identity requests go out from one power-on to the next: three times
   * three, then three times four.
   */
  lemma RunsSendAtMost21(events: seq<Event>)
    ensures IdentityRequests(Run(INITIAL, events).sent) <= 21
  {
    hide Run;
    InitiallyInvariant();
    RunsStaySparing(INITIAL, events);
  }
}
