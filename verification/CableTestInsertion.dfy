/**
 * One insertion: from the moment a contact is powered until ten scans in a row choose something else, or the
 * session stops. VCONN goes on once for it, so what is bounded since VCONN last went on is bounded for the insertion.
 */
module CableTestInsertion {
  import opened CableTestDiscovery
  import opened CableTestPolicy
  import opened CableTestTraffic

  predicate Powers(s: Session, e: Event) {
    !s.powered && Apply(s, e).powered
  }

  /** The last ten scans all chose one thing, and it was not this contact. */
  predicate ChoseAnother(scans: seq<Reading>, contact: nat) {
    && |scans| >= 10
    && var other := scans[|scans| - 1].contact;
       other != contact && LastScans(scans, 10, other)
  }

  /** The end of an insertion. */
  predicate Removed(s: Session, contact: nat) {
    !s.running || ChoseAnother(s.scans, contact)
  }

  /** The contact is not given up anywhere in the run. */
  predicate StaysInserted(s: Session, events: seq<Event>, contact: nat)
    decreases events
  {
    events == [] ||
    var t := Apply(s, events[0]);
    !Removed(t, contact) && StaysInserted(t, events[1..], contact)
  }

  /** How often VCONN goes on in a run. */
  function PowerOns(s: Session, events: seq<Event>): nat
    decreases events
  {
    if events == [] then 0
    else (if Powers(s, events[0]) then 1 else 0) + PowerOns(Apply(s, events[0]), events[1..])
  }

  /** The contact is still the published one and nothing asked or sent for it has been forgotten. */
  predicate SameInsertion(s: Session, t: Session) {
    t.result.vconnContact == s.result.vconnContact && s.requests <= t.requests && s.sent <= t.sent
  }

  // ----- One event -----

  lemma FinishSame(s: Session, outcome: Outcome, clock: nat)
    ensures SameInsertion(s, Finish(s, outcome, clock)) && !Finish(s, outcome, clock).powered
  {
  }

  lemma RetrySame(s: Session, clock: nat)
    ensures SameInsertion(s, Retry(s, clock))
  {
    hide Finish;
    var e := s.(pending := false, transport := s.transport.Abandon(), waitingResponse := false);
    FinishSame(e, if e.result.goodCRC then ResponseTimeout else NoResponse, clock);
  }

  lemma ServiceSame(s: Session, now: nat, clock: nat, later: nat, cc1: real, cc2: real)
    ensures SameInsertion(s, ServicePowered(s, now, clock, later, cc1, cc2))
  {
    hide Finish, Retry;
    FinishSame(s, s.result.outcome, clock);
    FinishSame(s, PowerFault, clock);
    RetrySame(s, clock);
    RetrySame(s.(transport := s.transport.Retried()), clock);
  }

  lemma AnsweredSame(s: Session, clock: nat, m: Message, vdm: nat)
    requires |m.body| >= 4
    ensures SameInsertion(s, Answered(s, clock, m, vdm))
  {
    hide Retry, IdentityValid, Structured, SVID, Command, TypeOf;
    RetrySame(s.(result := s.result.(revision := m.Revision())), clock);
  }

  lemma ReceivedSame(s: Session, clock: nat, requested: bool, m: Message)
    ensures SameInsertion(s, Received(s, clock, requested, m))
  {
    hide Answered, ResponderHeader, VDO;
    if |m.body| >= 4 {
      AnsweredSame(Noted(s, m), clock, m, VDO(m.body, 0));
    }
  }

  lemma ScanSame(s: Session, now: nat, cc1: real, cc2: real)
    requires Evidence(s) && s.running && !s.powered && s.result.vconnContact != 0
    requires !ChoseAnother(Scan(s, now, cc1, cc2).scans, s.result.vconnContact)
    ensures var t := Scan(s, now, cc1, cc2); SameInsertion(s, t) && !t.powered
  {
    hide Contact, IsOpen, Settled;
    if now >= s.scanAt {
      var contact := Contact(cc1, cc2);
      var e := s.(scanAt := now + 10000, scans := s.scans + [Reading(contact, now)]);
      var f := if contact != e.candidate then e.(candidate := contact, debounce := 0) else e;
      assert LastScans(f.scans, f.debounce + 1, contact);
      if f.debounce + 1 >= 10 {
        SettledScans(f.(debounce := 10), now, cc1, cc2, contact);
        assert contact == s.result.vconnContact;
        SettledSame(f.(debounce := 10), now, cc1, cc2, contact);
      }
    }
  }

  lemma SettledScans(s: Session, now: nat, cc1: real, cc2: real, contact: nat)
    ensures Settled(s, now, cc1, cc2, contact).scans == s.scans
  {
    hide IsOpen;
  }

  lemma SettledSame(s: Session, now: nat, cc1: real, cc2: real, contact: nat)
    requires contact != 0 && s.result.vconnContact == contact
    ensures Settled(s, now, cc1, cc2, contact) == s
  {
  }

  lemma EventSame(s: Session, e: Event)
    requires Invariant(s) && s.running && s.result.vconnContact != 0
    requires !Removed(Apply(s, e), s.result.vconnContact)
    ensures SameInsertion(s, Apply(s, e)) && !Powers(s, e)
  {
    hide ServicePowered, Scan, Received, ChoseAnother, SameInsertion, VConnSafe, Evidence, ProtocolShape, Timed;
    hide HoldsIdentity;
    match e
    case Pass(now, clock, later, requested, cc1, cc2) =>
      if !requested {
        StopsRunning(s);
      } else if s.powered {
        ServiceSame(s, now, clock, later, cc1, cc2);
      } else {
        ScanSame(s, now, cc1, cc2);
      }
    case Delivery(clock, requested, m) =>
      ReceivedSame(s, clock, requested, m);
      if !s.powered {
        DeliveryPowersNothing(s, e);
      }
  }

  lemma StopsRunning(s: Session)
    ensures !Stop(s).running
  {
  }

  // ----- Whole insertions -----

  /** As long as a contact that was powered is not given up, VCONN does not go on again, for it or the other. */
  lemma {:induction false} InsertionPowersOnce(s: Session, events: seq<Event>)
    requires Invariant(s) && s.running && s.result.vconnContact != 0
    requires StaysInserted(s, events, s.result.vconnContact)
    ensures PowerOns(s, events) == 0 && SameInsertion(s, Run(s, events))
    decreases events
  {
    hide Invariant, Apply, ChoseAnother;
    if events == [] {
    } else {
      EventSame(s, events[0]);
      ApplyKeeps(s, events[0]);
      InsertionPowersOnce(Apply(s, events[0]), events[1..]);
    }
  }

  /** A run that does not stay inserted has a first moment at which the contact is given up. */
  lemma {:induction false} RemovalHasMoment(s: Session, events: seq<Event>, contact: nat)
    requires !StaysInserted(s, events, contact)
    ensures exists n :: 0 < n <= |events| && Removed(Run(s, events[..n]), contact)
    decreases events
  {
    hide Apply, Removed;
    if events == [] {
    } else {
      var t := Apply(s, events[0]);
      var n: nat;
      if Removed(t, contact) {
        n := 1;
        assert events[..1][1..] == [];
        assert Run(t, []) == t;
      } else {
        RemovalHasMoment(t, events[1..], contact);
        var k :| 0 < k <= |events[1..]| && Removed(Run(t, events[1..][..k]), contact);
        n := k + 1;
        assert events[..n][1..] == events[1..][..k];
      }
      assert Removed(Run(s, events[..n]), contact);
    }
  }

  /** After VCONN went on, it goes on again only after ten scans in a row chose something else, or a stop. */
  lemma SecondPowerOnNeedsRemoval(s: Session, e: Event, events: seq<Event>)
    requires Invariant(s) && Powers(s, e) && PowerOns(Apply(s, e), events) > 0
    ensures var t := Apply(s, e);
      exists n :: 0 < n <= |events| && Removed(Run(t, events[..n]), t.result.vconnContact)
  {
    hide Apply, Removed, Invariant, Powers;
    var t := Apply(s, e);
    ApplyKeeps(s, e);
    PoweredIsInserted(s, e);
    if StaysInserted(t, events, t.result.vconnContact) {
      InsertionPowersOnce(t, events);
      assert false;
    }
    RemovalHasMoment(t, events, t.result.vconnContact);
  }

  /** The runs of one insertion, from start-up: everything asked and sent for it is still counted, and bounded. */
  lemma InsertionAsksAtMost21(before: seq<Event>, e: Event, events: seq<Event>)
    requires Powers(Run(INITIAL, before), e)
    requires var t := Apply(Run(INITIAL, before), e); StaysInserted(t, events, t.result.vconnContact)
    ensures var t := Apply(Run(INITIAL, before), e); var u := Run(t, events);
      && PowerOns(t, events) == 0 && SameInsertion(t, u)
      && |u.requests| <= 6 && IdentityRequests(u.sent) <= 21
  {
    hide Apply, Run, Powers, StaysInserted, Invariant, Sparing, SameInsertion;
    InitiallyInvariant();
    RunsKeepInvariant(INITIAL, before);
    assert Sparing(INITIAL) by { InitiallySparing(); }
    RunsStaySparing(INITIAL, before);
    var s := Run(INITIAL, before);
    var t := Apply(s, e);
    ApplyKeeps(s, e);
    ApplySparing(s, e);
    PoweredIsInserted(s, e);
    InsertionPowersOnce(t, events);
    RunsKeepInvariant(t, events);
    RunsStaySparing(t, events);
    Bounds(Run(t, events));
  }

  lemma InitiallySparing()
    ensures Sparing(INITIAL)
  {
  }

  lemma PoweredIsInserted(s: Session, e: Event)
    requires Invariant(Apply(s, e)) && Powers(s, e)
    ensures Apply(s, e).running && Apply(s, e).result.vconnContact != 0
  {
    hide Apply;
  }

  lemma Bounds(s: Session)
    requires Invariant(s) && Sparing(s)
    ensures |s.requests| <= 6 && IdentityRequests(s.sent) <= 21
  {
    hide VConnSafe, Evidence, ProtocolShape, Timed, HoldsIdentity, IdentityRequests;
  }
}
