/**
 * How long VCONN can stay on. Passes of core 1 come at most `gap` apart, a clock read within a call is at most
 * `slack` past the call's time, and whatever the cable answers the session has a horizon that never recedes.
 */
module CableTestTiming {
  import opened CableTestDiscovery
  import opened CableTestPolicy

  function Time(e: Event): nat {
    if e.Pass? then e.now else e.clock
  }

  /** The event comes in order, not later than a pass is due, and reads the clock promptly. */
  predicate OnTime(e: Event, before: nat, lastPass: nat, gap: nat, slack: nat) {
    before <= Time(e) <= lastPass + gap && Time(e) <= e.clock <= Time(e) + slack
    && (e.Pass? ==> e.now <= e.later <= e.now + slack)
  }

  predicate Punctual(events: seq<Event>, before: nat, lastPass: nat, gap: nat, slack: nat)
    decreases events
  {
    events == [] ||
    (OnTime(events[0], before, lastPass, gap, slack)
     && Punctual(events[1..], Time(events[0]), if events[0].Pass? then events[0].now else lastPass, gap, slack))
  }

  // ----- The horizon -----

  /** The longest an attempt takes: each sending 10 ms, an acknowledgement 33 ms, the retry 50 ms, each met late. */
  function AttemptTime(legacy: bool, late: nat): nat {
    (if legacy then 4 else 3) * (10000 + late) + (33000 + late) + (50000 + late)
  }

  function AttemptsLeft(attempts: nat, time: nat): nat {
    (if attempts < 1 then time else 0) + (if attempts < 2 then time else 0) + (if attempts < 3 then time else 0)
  }

  function ResendsLeft(legacy: bool, retryCount: nat, late: nat): nat {
    var time := 10000 + late;
    (if retryCount < 1 then time else 0) + (if retryCount < 2 then time else 0)
    + (if legacy && retryCount < 3 then time else 0)
  }

  function RequestLeft(s: Session, late: nat): nat {
    if !s.pending then 0
    else if s.waitingResponse then 50000 + late
    else ResendsLeft(s.legacy, s.transport.retryCount, late) + (33000 + late) + (50000 + late)
  }

  /** The longest from the present deadline to the removal of VCONN. */
  function TimeLeft(s: Session, late: nat): nat {
    if s.result.outcome != Discovering then 0
    else
      RequestLeft(s, late) + AttemptsLeft(s.attempts, AttemptTime(s.legacy, late))
      + (if s.legacy then 0 else AttemptsLeft(0, AttemptTime(true, late)))
  }

  /** The deadline is not behind the last pass, and the retry time not far ahead. */
  predicate InTime(s: Session, before: nat, lastPass: nat, slack: nat) {
    && lastPass <= s.deadline && lastPass <= before
    && (s.result.outcome == Discovering && s.pending ==> s.retryAt <= before + slack + 50000)
  }

  /** While VCONN stays on, the horizon does not recede. */
  predicate Holds(s: Session, t: Session, e: Event, lastPass: nat, late: nat, slack: nat) {
    t.powered ==>
      && t.deadline + TimeLeft(t, late) <= s.deadline + TimeLeft(s, late)
      && InTime(t, Time(e), if e.Pass? then e.now else lastPass, slack)
  }

  lemma RetryHolds(s: Session, clock: nat, time: nat, lastPass: nat, late: nat, slack: nat)
    requires Invariant(s) && s.powered && s.result.outcome == Discovering && s.pending
    requires lastPass <= time <= clock <= time + slack <= s.deadline + late
    requires s.retryAt <= time + slack + 50000
    ensures var t := Retry(s, clock);
      t.powered ==>
        && t.deadline + TimeLeft(t, late) <= s.deadline + TimeLeft(s, late)
        && InTime(t, time, lastPass, slack) && t.deadline >= time
  {
    hide VConnSafe, Evidence, HoldsIdentity, AttemptTime;
    if s.attempts >= 3 && s.legacy {
    } else {
      assert Retry(s, clock).deadline <= s.deadline + late + 50000;
    }
  }

  lemma ServiceHolds(s: Session, e: Event, before: nat, lastPass: nat, gap: nat, slack: nat)
    requires Invariant(s) && s.powered && InTime(s, before, lastPass, slack) && OnTime(e, before, lastPass, gap, slack)
    requires e.Pass?
    ensures Holds(s, ServicePowered(s, e.now, e.clock, e.later, e.cc1, e.cc2), e, lastPass, gap + slack, slack)
  {
    hide Evidence, VConnSafe, HoldsIdentity, Retry, AttemptTime;
    var late := gap + slack;
    if s.result.outcome == Discovering && s.pending && e.now >= s.deadline {
      RetryHolds(s, e.clock, e.now, e.now, late, slack);
      RetryIgnoresTransport(s, s.(transport := s.transport.Retried()), e.clock);
    } else if s.result.outcome == Discovering && !s.pending && e.now >= s.deadline {
      SendHolds(s, e, before, lastPass, gap, slack);
    }
  }

  lemma SendHolds(s: Session, e: Event, before: nat, lastPass: nat, gap: nat, slack: nat)
    requires Invariant(s) && s.powered && InTime(s, before, lastPass, slack) && OnTime(e, before, lastPass, gap, slack)
    requires e.Pass? && s.result.outcome == Discovering && !s.pending
    ensures Holds(s, SendIdentity(s, e.clock, e.later), e, lastPass, gap + slack, slack)
  {
    hide Evidence, VConnSafe, HoldsIdentity;
  }

  lemma DeliveryHolds(s: Session, e: Event, before: nat, lastPass: nat, gap: nat, slack: nat)
    requires Invariant(s) && s.powered && InTime(s, before, lastPass, slack) && OnTime(e, before, lastPass, gap, slack)
    requires e.Delivery?
    ensures Holds(s, Received(s, e.clock, e.requested, e.message), e, lastPass, gap + slack, slack)
  {
    hide Invariant, Retry, Answered, ResponderHeader, VDO, TimeLeft;
    var m := e.message;
    RevisionTakesNoTime(s, Noted(s, m), gap + slack);
    RevisionTakesNoTime(s, Send(s, Acknowledgement(m.MessageId())), gap + slack);
    if s.result.outcome == Discovering && s.transport.pending {
      AcknowledgedInTime(s, e.clock, gap + slack);
    }
    if m.IsVendorDefined() && |m.body| >= 4 && s.result.outcome == Discovering && s.pending {
      AnswerHolds(s, Noted(s, m), e, VDO(m.body, 0), before, lastPass, gap, slack);
    }
  }

  /** An acknowledged request has its resends behind it. */
  lemma AcknowledgedInTime(s: Session, clock: nat, late: nat)
    requires Invariant(s) && s.powered && s.result.outcome == Discovering && s.transport.pending
    requires clock <= s.deadline + late
    ensures s.pending
    ensures var t := Publish(s.(transport := s.transport.Acknowledged(), result := s.result.(goodCRC := true),
                                waitingResponse := true, deadline := clock + 33000));
      t.deadline + TimeLeft(t, late) <= s.deadline + TimeLeft(s, late)
  {
    hide VConnSafe, Evidence, HoldsIdentity, AttemptsLeft, ResendsLeft;
  }

  lemma AnswerHolds(s: Session, f: Session, e: Event, vdm: nat, before: nat, lastPass: nat, gap: nat, slack: nat)
    requires Invariant(s) && s.powered && InTime(s, before, lastPass, slack) && OnTime(e, before, lastPass, gap, slack)
    requires e.Delivery? && |e.message.body| >= 4 && s.result.outcome == Discovering && s.pending
    requires f == s.(lastMessageId := f.lastMessageId, sent := f.sent)
    ensures Holds(s, Answered(f, e.clock, e.message, vdm), e, lastPass, gap + slack, slack)
  {
    hide Invariant, Retry, TypeOf, Structured, SVID, Command, TimeLeft, Judged;
    var g := f.(result := f.result.(revision := e.message.Revision()));
    assert Invariant(g) by { RevisionDoesNotMatter(s, g); }
    RevisionTakesNoTime(s, f, gap + slack);
    RevisionTakesNoTime(s, g, gap + slack);
    RetryHolds(g, e.clock, e.clock, lastPass, gap + slack, slack);
    PendingTakesTime(s, gap + slack);
    JudgementEnds(g.result, e.message, TypeOf(vdm) == NAK);
    if Answered(f, e.clock, e.message, vdm).result.outcome != Discovering {
      EndTakesNoTime(Answered(f, e.clock, e.message, vdm), gap + slack);
    }
  }

  lemma RevisionTakesNoTime(s: Session, g: Session, late: nat)
    requires g == s.(lastMessageId := g.lastMessageId, sent := g.sent,
      result := s.result.(revision := g.result.revision))
    ensures TimeLeft(g, late) == TimeLeft(s, late)
  {
  }

  lemma EndTakesNoTime(s: Session, late: nat)
    requires s.result.outcome != Discovering
    ensures TimeLeft(s, late) == 0
  {
  }

  lemma PendingTakesTime(s: Session, late: nat)
    requires s.pending && s.result.outcome == Discovering
    ensures TimeLeft(s, late) >= 50000 + late
  {
    hide ResendsLeft, AttemptsLeft;
  }

  lemma JudgementEnds(result: TestResult, m: Message, nak: bool)
    ensures Judged(result, m, nak).outcome in {NakReceived, Malformed, Identity}
  {
    hide IdentityValid;
  }

  lemma EventHolds(s: Session, e: Event, before: nat, lastPass: nat, gap: nat, slack: nat)
    requires Invariant(s) && s.powered && InTime(s, before, lastPass, slack) && OnTime(e, before, lastPass, gap, slack)
    ensures Holds(s, Apply(s, e), e, lastPass, gap + slack, slack)
  {
    hide Invariant, InTime, OnTime, Holds, ServicePowered, Received, Scan;
    if e.Delivery? {
      DeliveryHolds(s, e, before, lastPass, gap, slack);
    } else if e.requested {
      RunningWhilePowered(s);
      ServiceHolds(s, e, before, lastPass, gap, slack);
    } else {
      RunningWhilePowered(s);
      StopHolds(s, e, lastPass, gap + slack, slack);
    }
  }

  lemma RunningWhilePowered(s: Session)
    requires Invariant(s) && s.powered
    ensures s.running
  {
  }

  lemma StopHolds(s: Session, e: Event, lastPass: nat, late: nat, slack: nat)
    ensures Holds(s, Stop(s), e, lastPass, late, slack)
  {
  }

  // ----- From power-on to power-off -----

  /** As long as VCONN stays on, no event comes after the bound. */
  predicate OffBy(s: Session, events: seq<Event>, bound: nat)
    decreases events
  {
    events == [] || !s.powered || (Time(events[0]) <= bound && OffBy(Apply(s, events[0]), events[1..], bound))
  }

  lemma {:induction false} HorizonBounds(s: Session, events: seq<Event>, before: nat, lastPass: nat,
                                         gap: nat, slack: nat,
                                         bound: nat)
    requires Invariant(s) && (s.powered ==> InTime(s, before, lastPass, slack))
    requires Punctual(events, before, lastPass, gap, slack)
    requires s.powered ==> s.deadline + TimeLeft(s, gap + slack) + gap <= bound
    ensures OffBy(s, events, bound)
    decreases events
  {
    hide Invariant, Apply, TimeLeft;
    if events == [] || !s.powered {
    } else {
      var e := events[0];
      EventHolds(s, e, before, lastPass, gap, slack);
      ApplyKeeps(s, e);
      HorizonBounds(Apply(s, e), events[1..], Time(e), if e.Pass? then e.now else lastPass, gap, slack, bound);
    }
  }

  /**
   * Whatever the cable answers, VCONN is off within 768 ms of going on, and what lateness adds: 33 times the gap
   * and the slack, and a last gap.
   */
  lemma VConnIsOffInTime(s: Session, e: Event, events: seq<Event>, gap: nat, slack: nat)
    requires Invariant(s) && !s.powered && Apply(s, e).powered
    requires Punctual(events, e.now, e.now, gap, slack)
    ensures e.Pass? && Apply(s, e).poweredAt == e.now
    ensures OffBy(Apply(s, e), events, e.now + 768000 + 33 * (gap + slack) + gap)
  {
    hide Invariant, Punctual, OffBy, Apply;
    PowerFollowsLongEvidence(s, e);
    ApplyKeeps(s, e);
    FreshHorizon(s, e, gap + slack);
    HorizonBounds(Apply(s, e), events, e.now, e.now, gap, slack, e.now + 768000 + 33 * (gap + slack) + gap);
  }

  lemma FreshHorizon(s: Session, e: Event, late: nat)
    requires !s.powered && e.Pass? && Apply(s, e).powered
    ensures var t := Apply(s, e);
      t.deadline + TimeLeft(t, late) == e.now + 768000 + 33 * late && t.deadline >= e.now && !t.pending
  {
    hide TimeLeft;
    FreshlyPowered(s, e);
    FreshTime(Apply(s, e), late);
  }

  lemma FreshlyPowered(s: Session, e: Event)
    requires !s.powered && e.Pass? && Apply(s, e).powered
    ensures var t := Apply(s, e);
      t.deadline == e.now + 60000 && !t.pending && t.attempts == 0 && !t.legacy && t.result.outcome == Discovering
  {
    hide ServicePowered, Contact, Scan;
    var f := ScanPowers(if s.running then s else Start(s, e.clock), e.now, e.cc1, e.cc2);
  }

  lemma FreshTime(t: Session, late: nat)
    requires !t.pending && t.attempts == 0 && !t.legacy && t.result.outcome == Discovering
    ensures TimeLeft(t, late) == 708000 + 33 * late
  {
  }
}
