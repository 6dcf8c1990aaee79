/**
 * The lease joined to the session: every poll of the host renews it, every pass of core 1 judges it, and a session
 * nobody polls ends by itself with VCONN off.
 */
module CableTestLease {
  import opened CableTestDiscovery
  import opened CableTestPolicy
  import opened Octets

  /** Three seconds in microseconds, and the longest a lease judged in whole milliseconds can last. */
  const LEASE := 3000000
  const LONGEST_LEASE := 3001000
  /** Elapsed time that half the 32-bit millisecond counter can hold. */
  const HALF_COUNTER := 0x8000_0000 * 1000 - 1000

  /** The session with what core 0 shares with it: the request and when the lease was last renewed. */
  datatype Leased = Leased(session: Session, requested: bool, renewedAt: nat)

  /** What happens: the host polls, starts or stops the test; core 1 passes; a message is delivered. */
  datatype Turn =
    | Polls(at: nat)
    | Asks(at: nat, on: bool)
    | Passes(now: nat, clock: nat, later: nat, cc1: real, cc2: real)
    | Hears(clock: nat, message: Message)

  function When(t: Turn): nat {
    match t
    case Polls(at) => at
    case Asks(at, _) => at
    case Passes(now, _, _, _, _) => now
    case Hears(clock, _) => clock
  }

  /** What a pass finds: only a running session is judged, by its counters of whole milliseconds. */
  predicate LeaseOver(l: Leased, now: nat) {
    l.session.running && LeaseExpired(now / 1000 % U32, l.renewedAt / 1000 % U32)
  }

  function Take(l: Leased, t: Turn): Leased {
    match t
    case Polls(at) => l.(renewedAt := at)
    case Asks(at, on) => l.(renewedAt := at, requested := on)
    case Passes(now, clock, later, cc1, cc2) =>
      var wanted := l.requested && !LeaseOver(l, now);
      l.(session := Apply(l.session, Pass(now, clock, later, wanted, cc1, cc2)), requested := wanted)
    case Hears(clock, m) => l.(session := Apply(l.session, Delivery(clock, l.requested, m)))
  }

  function TakeAll(l: Leased, turns: seq<Turn>): Leased
    decreases turns
  {
    if turns == [] then l else TakeAll(Take(l, turns[0]), turns[1..])
  }

  // ----- The session follows the request -----

  lemma PassFollowsRequest(s: Session, e: Event)
    requires e.Pass?
    ensures Apply(s, e).running == e.requested
  {
    hide Finish, Retry, Contact, Settled, ServicePowered, Scan;
    var f := if s.running then s else Start(s, e.clock);
    ServiceKeepsRunning(f, e);
    ScanKeepsRunning(f, e.now, e.cc1, e.cc2);
  }

  lemma ServiceKeepsRunning(s: Session, e: Event)
    requires e.Pass?
    ensures ServicePowered(s, e.now, e.clock, e.later, e.cc1, e.cc2).running == s.running
  {
    hide Retry;
    RetryKeepsRunning(s, e.clock);
    RetryKeepsRunning(s.(transport := s.transport.Retried()), e.clock);
  }

  lemma RetryKeepsRunning(s: Session, clock: nat)
    ensures Retry(s, clock).running == s.running
  {
  }

  lemma ScanKeepsRunning(s: Session, now: nat, cc1: real, cc2: real)
    ensures Scan(s, now, cc1, cc2).running == s.running
  {
    hide Contact, IsOpen;
  }

  lemma DeliveryKeepsRunning(s: Session, e: Event)
    requires e.Delivery?
    ensures Apply(s, e).running == s.running
  {
    hide Answered, ResponderHeader, VDO;
    if |e.message.body| >= 4 {
      AnswerKeepsRunning(Noted(s, e.message), e.clock, e.message, VDO(e.message.body, 0));
    }
  }

  lemma AnswerKeepsRunning(s: Session, clock: nat, m: Message, vdm: nat)
    requires |m.body| >= 4
    ensures Answered(s, clock, m, vdm).running == s.running
  {
    hide Retry, Judged, Structured, SVID, Command, TypeOf;
    RetryKeepsRunning(s.(result := s.result.(revision := m.Revision())), clock);
  }

  // ----- A session nobody polls -----

  /** Over for good: not wanted, not running, and VCONN on neither contact. */
  predicate Over(l: Leased) {
    !l.requested && !l.session.running && l.session.cc1Role != VConn && l.session.cc2Role != VConn
  }

  predicate Unpolled(turns: seq<Turn>) {
    forall i :: 0 <= i < |turns| ==> turns[i].Passes? || turns[i].Hears?
  }

  /** Turns come in order, and none later than a pass is due. */
  predicate Punctual(turns: seq<Turn>, before: nat, lastPass: nat, gap: nat)
    decreases turns
  {
    turns == [] ||
    var t := turns[0];
    && before <= When(t) <= lastPass + gap
    && Punctual(turns[1..], When(t), if t.Passes? then t.now else lastPass, gap)
  }

  /** As long as the session is not over, no turn comes after the bound. */
  predicate EndsBy(l: Leased, turns: seq<Turn>, bound: nat)
    decreases turns
  {
    turns == [] || Over(l) || (When(turns[0]) <= bound && EndsBy(Take(l, turns[0]), turns[1..], bound))
  }

  /** How long after the last renewal a pass can still leave the session running. */
  function Grace(gap: nat): nat {
    Later(LONGEST_LEASE, gap)
  }

  /** A session not yet over had its last pass within the lease, or has had none since the renewal. */
  predicate WithinLease(l: Leased, lastPass: nat, gap: nat) {
    Over(l) || (lastPass <= l.renewedAt + Grace(gap) && (!l.session.running ==> lastPass <= l.renewedAt))
  }

  /** A pass that leaves a running session running came within the lease. */
  lemma LeaseInMicroseconds(l: Leased, now: nat)
    requires l.session.running && l.renewedAt <= now <= l.renewedAt + HALF_COUNTER
    ensures now >= l.renewedAt + LONGEST_LEASE ==> LeaseOver(l, now)
    ensures now <= l.renewedAt + LEASE ==> !LeaseOver(l, now)
  {
    hide LeaseExpired;
    LeaseFollowsElapsedTime(now / 1000, l.renewedAt / 1000);
  }

  lemma NotWantedIsOver(l: Leased)
    requires Invariant(l.session) && !l.requested && !l.session.running
    ensures Over(l)
  {
    hide Evidence, ProtocolShape, Timed, HoldsIdentity;
  }

  lemma OverStaysOver(l: Leased, t: Turn)
    requires Invariant(l.session) && Over(l) && (t.Passes? || t.Hears?)
    ensures Over(Take(l, t))
  {
    hide Invariant, Apply, LeaseOver;
    SessionKeeps(l, t);
    SessionFollows(l, t);
    NotWantedIsOver(Take(l, t));
  }

  lemma SessionKeeps(l: Leased, t: Turn)
    requires Invariant(l.session)
    ensures Invariant(Take(l, t).session)
  {
    hide Invariant, Apply, LeaseOver;
    if t.Passes? {
      ApplyKeeps(l.session, Pass(t.now, t.clock, t.later, l.requested && !LeaseOver(l, t.now), t.cc1, t.cc2));
    } else if t.Hears? {
      ApplyKeeps(l.session, Delivery(t.clock, l.requested, t.message));
    }
  }

  lemma SessionFollows(l: Leased, t: Turn)
    ensures t.Passes? ==> Take(l, t).session.running == Take(l, t).requested == (l.requested && !LeaseOver(l, t.now))
    ensures !t.Passes? ==> Take(l, t).session.running == l.session.running
  {
    hide Apply, LeaseOver;
    if t.Passes? {
      PassFollowsRequest(l.session, Pass(t.now, t.clock, t.later, l.requested && !LeaseOver(l, t.now), t.cc1, t.cc2));
    } else if t.Hears? {
      DeliveryKeepsRunning(l.session, Delivery(t.clock, l.requested, t.message));
    }
  }

  lemma TurnWithinLease(l: Leased, t: Turn, before: nat, lastPass: nat, gap: nat)
    requires Invariant(l.session) && WithinLease(l, lastPass, gap) && (t.Passes? || t.Hears?)
    requires l.renewedAt <= before <= When(t) <= lastPass + gap && Grace(gap) + gap <= HALF_COUNTER
    ensures WithinLease(Take(l, t), if t.Passes? then t.now else lastPass, gap)
  {
    hide Invariant, Take, LeaseOver, Over;
    SessionKeeps(l, t);
    SessionFollows(l, t);
    TakeRenewsNothing(l, t);
    var n := Take(l, t);
    if Over(l) {
      OverStaysOver(l, t);
    } else if t.Passes? && !n.requested {
      NotWantedIsOver(n);
    } else if t.Passes? && l.session.running {
      LeaseInMicroseconds(l, t.now);
    }
  }

  lemma TakeRenewsNothing(l: Leased, t: Turn)
    requires t.Passes? || t.Hears?
    ensures Take(l, t).renewedAt == l.renewedAt
  {
  }

  /**
   * A session nobody polls is over, VCONN off, within 3.001 seconds of the last poll and the lateness of a pass;
   * only if passes are further apart than the lease does a request not yet taken up last longer.
   */
  lemma UnpolledSessionEnds(l: Leased, turns: seq<Turn>, lastPass: nat, gap: nat)
    requires Invariant(l.session) && lastPass <= l.renewedAt
    requires Unpolled(turns) && Punctual(turns, l.renewedAt, lastPass, gap)
    requires Later(LONGEST_LEASE, gap) + gap <= HALF_COUNTER
    ensures EndsBy(l, turns, l.renewedAt + Later(LONGEST_LEASE, gap) + gap)
  {
    UnpolledTurns(l, turns, l.renewedAt, lastPass, gap);
  }

  lemma {:induction false} UnpolledTurns(l: Leased, turns: seq<Turn>, before: nat, lastPass: nat, gap: nat)
    requires Invariant(l.session) && WithinLease(l, lastPass, gap) && l.renewedAt <= before
    requires Unpolled(turns) && Punctual(turns, before, lastPass, gap) && Grace(gap) + gap <= HALF_COUNTER
    ensures EndsBy(l, turns, l.renewedAt + Grace(gap) + gap)
    decreases turns
  {
    hide Invariant, Take, Grace;
    if turns == [] || Over(l) {
    } else {
      var t := turns[0];
      TurnWithinLease(l, t, before, lastPass, gap);
      SessionKeeps(l, t);
      TakeRenewsNothing(l, t);
      UnpolledTurns(Take(l, t), turns[1..], When(t), if t.Passes? then t.now else lastPass, gap);
    }
  }

  // ----- A session that is polled -----

  /** No pass comes more than three seconds after the last poll, and nobody stops the test. */
  predicate Polled(l: Leased, turns: seq<Turn>)
    decreases turns
  {
    turns == [] ||
    var t := turns[0];
    && (t.Passes? ==> l.renewedAt <= t.now <= l.renewedAt + LEASE)
    && (t.Asks? ==> t.on)
    && Polled(Take(l, t), turns[1..])
  }

  /** Such a session is never ended by its lease. */
  lemma {:induction false} PolledSessionGoesOn(l: Leased, turns: seq<Turn>)
    requires l.requested && Polled(l, turns)
    ensures var n := TakeAll(l, turns); n.requested && (l.session.running ==> n.session.running)
    decreases turns
  {
    hide Apply, LeaseOver;
    if turns == [] {
    } else {
      var t := turns[0];
      SessionFollows(l, t);
      if t.Passes? && l.session.running {
        LeaseInMicroseconds(l, t.now);
      } else if t.Passes? {
        IdleIsNotJudged(l, t.now);
      }
      PolledSessionGoesOn(Take(l, t), turns[1..]);
    }
  }

  lemma IdleIsNotJudged(l: Leased, now: nat)
    requires !l.session.running
    ensures !LeaseOver(l, now)
  {
  }
}
