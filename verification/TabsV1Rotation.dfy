/** Over all runs of v1 tabs: when a session was started, and that encrypt rotates by that and by what was spent. */
module TabsV1Rotation {
  import opened Wrappers
  import opened Parties
  import opened SessionV1
  import opened ServiceV1
  import opened TabsV1
  import opened TabsV1Counters
  import T = TabsV1Theorems

  // -- When a session was started ----------------------------------------------

  /** The event puts a new session of this id on p's side: initiated by an encrypt, or accepted by a decrypt. */
  predicate Starts(sys: System, ev: Event, p: Party, id: nat) {
    match ev
    case End(q, _, supply, now) =>
      && q == p && id == supply.sessionId && sys.Of(p).held.Some?
      && Prepare(sys.Of(p).talk, sys.Of(p).sessions, sys.Of(p).held.value, supply, now).init.Some?
    case Accept(q, tab, now) =>
      var c := sys.Of(p).CopyOf(tab);
      q == p && ToAccept(sys, p, c) && sys.sent[c.k].e.sessionId == id && Accepted(sys, p, c.k, now).Ok?
    case _ => false
  }

  /** At this time p initiated a session of this id, or accepted one, as the role says. */
  predicate WasStarted(start: System, events: seq<Event>, p: Party, id: nat, role: Role, at: int) {
    events != [] &&
    var earlier, ev := events[..|events| - 1], events[|events| - 1];
    || WasStarted(start, earlier, p, id, role, at)
    || (Starts(Run(start, earlier), ev, p, id) && ev.now == at && (role == Init <==> ev.End?))
  }

  // -- The dates are true ------------------------------------------------------

  predicate IsDated(start: System, events: seq<Event>, p: Party, s: Session) {
    WasStarted(start, events, p, s.sessionId, s.role, s.createdAt)
  }

  predicate CopyDated(start: System, events: seq<Event>, p: Party, c: Copy) {
    c.Loaded? && c.session.Some? ==> IsDated(start, events, p, c.session.value)
  }

  predicate StoreDated(start: System, events: seq<Event>, p: Party, sessions: Sessions) {
    forall id :: id in sessions ==> sessions[id].sessionId == id && IsDated(start, events, p, sessions[id])
  }

  predicate HeldDated(start: System, events: seq<Event>, p: Party, held: Option<Option<Session>>) {
    held.Some? && held.value.Some? ==> IsDated(start, events, p, held.value.value)
  }

  ghost predicate AllDated(start: System, events: seq<Event>, p: Party, d: Device) {
    && StoreDated(start, events, p, d.sessions) && HeldDated(start, events, p, d.held)
    && (forall t: TabId :: CopyDated(start, events, p, d.CopyOf(t)))
  }

  /** What a step puts into the store and into a copy: what was there, or what was saved now. */
  lemma SavedIsDated(start: System, events: seq<Event>)
    requires events != []
    requires var sys, ev := Run(start, events[..|events| - 1]), events[|events| - 1];
             && Enabled(sys, ev) && !ev.End? && AllDated(start, events[..|events| - 1], ev.p, sys.Of(ev.p))
             && SavedBy(sys, ev).Some?
    ensures IsDated(start, events, events[|events| - 1].p,
                    SavedBy(Run(start, events[..|events| - 1]), events[|events| - 1]).value)
  {
    var sys, ev := Run(start, events[..|events| - 1]), events[|events| - 1];
    if ev.Show? {
      assert CopyDated(start, events[..|events| - 1], ev.p, sys.Of(ev.p).CopyOf(ev.tab));
    }
  }

  lemma QuietDates(start: System, events: seq<Event>)
    requires events != []
    requires var sys, ev := Run(start, events[..|events| - 1]), events[|events| - 1];
             Enabled(sys, ev) && !ev.End? && AllDated(start, events[..|events| - 1], ev.p, sys.Of(ev.p))
    ensures AllDated(start, events, events[|events| - 1].p, Run(start, events).Of(events[|events| - 1].p))
  {
    var earlier, ev := events[..|events| - 1], events[|events| - 1];
    var sys := Run(start, earlier);
    var d, d' := sys.Of(ev.p), Step(sys, ev).Of(ev.p);
    TabsV1Counters.QuietDevice(sys, ev);
    if SavedBy(sys, ev).Some? {
      SavedIsDated(start, events);
    }
    forall t: TabId
      ensures CopyDated(start, events, ev.p, d'.CopyOf(t))
    {
      CopiesQuietly(sys, ev, t);
      assert CopyDated(start, earlier, ev.p, d.CopyOf(t));
    }
  }

  lemma CopiesQuietly(sys: System, ev: Event, t: TabId)
    requires Enabled(sys, ev) && !ev.End?
    requires forall id :: id in sys.Of(ev.p).sessions ==> sys.Of(ev.p).sessions[id].sessionId == id
    ensures var d, c := sys.Of(ev.p), Step(sys, ev).Of(ev.p).CopyOf(t);
            || c == d.CopyOf(t)
            || (c.Loaded? && c.session.Some? ==>
                  || c.session == SavedBy(sys, ev)
                  || (&& c.session.value.sessionId in d.sessions
                      && d.sessions[c.session.value.sessionId] == c.session.value))
  {
  }

  lemma StaysDated(start: System, events: seq<Event>, p: Party, s: Session)
    requires events != [] && IsDated(start, events[..|events| - 1], p, s)
    ensures IsDated(start, events, p, s)
  {
  }

  /** What an encrypt goes on with, and leaves: as it was, retired, or new. */
  lemma PreparedFrom(d: Device, active: Option<Session>, supply: Supply, now: int)
    ensures var prepared := Prepare(d.talk, d.sessions, active, supply, now);
            && (prepared.init.Some? ==>
                  && prepared.session.Some? && prepared.session.value.sessionId == supply.sessionId
                  && prepared.session.value.role == Init && prepared.session.value.createdAt == now)
            && (prepared.init.None? && prepared.session.Some? ==> prepared.session == active)
            && prepared.sessions == if active.None? || !NeedsRotation(active.value, now) then d.sessions
                                    else d.sessions[active.value.sessionId := active.value.(retiredAt := Some(now))]
  {
  }

  lemma EndStoreDated(start: System, events: seq<Event>)
    requires events != [] && events[|events| - 1].End?
    requires var sys, ev := Run(start, events[..|events| - 1]), events[|events| - 1];
             && Enabled(sys, ev) && StoreDated(start, events[..|events| - 1], ev.p, sys.Of(ev.p).sessions)
             && HeldDated(start, events[..|events| - 1], ev.p, sys.Of(ev.p).held)
    ensures StoreDated(start, events, events[|events| - 1].p, Run(start, events).Of(events[|events| - 1].p).sessions)
  {
    var earlier, ev := events[..|events| - 1], events[|events| - 1];
    var d := Run(start, earlier).Of(ev.p);
    var active := d.held.value;
    var prepared := Prepare(d.talk, d.sessions, active, ev.supply, ev.now);
    PreparedFrom(d, active, ev.supply, ev.now);
    if active.Some? {
      StaysDated(start, events, ev.p, active.value);
    }
    forall id | id in prepared.sessions
      ensures prepared.sessions[id].sessionId == id && IsDated(start, events, ev.p, prepared.sessions[id])
    {
      if id in d.sessions {
        StaysDated(start, events, ev.p, d.sessions[id]);
      }
    }
    assert Run(start, events).Of(ev.p).sessions == Spent(prepared);
  }

  lemma EndDates(start: System, events: seq<Event>)
    requires events != [] && events[|events| - 1].End?
    requires var sys, ev := Run(start, events[..|events| - 1]), events[|events| - 1];
             Enabled(sys, ev) && AllDated(start, events[..|events| - 1], ev.p, sys.Of(ev.p))
    ensures AllDated(start, events, events[|events| - 1].p, Run(start, events).Of(events[|events| - 1].p))
  {
    var earlier, ev := events[..|events| - 1], events[|events| - 1];
    var d, d' := Run(start, earlier).Of(ev.p), Run(start, events).Of(ev.p);
    EndStoreDated(start, events);
    forall t: TabId
      ensures CopyDated(start, events, ev.p, d'.CopyOf(t))
    {
      assert CopyDated(start, earlier, ev.p, d.CopyOf(t));
    }
  }

  /** Every session that a side stores, holds or has loaded carries the time of an event that started it there. */
  lemma {:induction false} RunDates(start: System, events: seq<Event>, p: Party)
    requires IsFreshSystem(start) && Valid(start, events)
    ensures AllDated(start, events, p, Run(start, events).Of(p))
  {
    if events != [] {
      var earlier, ev := events[..|events| - 1], events[|events| - 1];
      RunDates(start, earlier, p);
      if p != ev.p {
        OthersDates(start, events, p);
      } else if ev.End? {
        EndDates(start, events);
      } else {
        QuietDates(start, events);
      }
    }
  }

  lemma OthersDates(start: System, events: seq<Event>, p: Party)
    requires events != [] && p != events[|events| - 1].p
    requires Enabled(Run(start, events[..|events| - 1]), events[|events| - 1])
    requires AllDated(start, events[..|events| - 1], p, Run(start, events[..|events| - 1]).Of(p))
    ensures AllDated(start, events, p, Run(start, events).Of(p))
  {
    var earlier, ev := events[..|events| - 1], events[|events| - 1];
    var d := Run(start, earlier).Of(p);
    assert Run(start, events).Of(p) == d by {
      if !ev.End? {
        TabsV1Counters.QuietDevice(Run(start, earlier), ev);
      }
    }
    forall t: TabId
      ensures CopyDated(start, events, p, d.CopyOf(t))
    {
      assert CopyDated(start, earlier, p, d.CopyOf(t));
    }
  }

  // -- Which session an encrypt finds ------------------------------------------

  predicate AllRetired(sessions: Sessions) {
    forall id :: id in sessions ==> sessions[id].retiredAt.Some?
  }

  /**
   * In every run: an encrypt finds no session exactly when all that are stored are retired. Else it finds one that this
   * side initiated, if there is one, and of these, or else of the accepted ones, one that was started last.
   */
  lemma FindsLastStarted(start: System, events: seq<Event>, ev: Event)
    requires IsFreshSystem(start) && Valid(start, events) && Enabled(Run(start, events), ev) && ev.Begin?
    ensures var sessions := Run(start, events).Of(ev.p).sessions;
            && (ev.active.None? <==> AllRetired(sessions))
            && (ev.active.Some? ==>
                  var s := ev.active.value;
                  && s.sessionId in sessions && sessions[s.sessionId] == s && s.retiredAt.None?
                  && WasStarted(start, events, ev.p, s.sessionId, s.role, s.createdAt)
                  && forall id :: id in sessions && sessions[id].retiredAt.None? ==>
                       && WasStarted(start, events, ev.p, id, sessions[id].role, sessions[id].createdAt)
                       && (sessions[id].role == Init ==> s.role == Init)
                       && (sessions[id].role == s.role ==> sessions[id].createdAt <= s.createdAt))
  {
    RunDates(start, events, ev.p);
    NoneActive(Run(start, events).Of(ev.p).sessions, ev.active);
  }

  lemma NoneActive(sessions: Sessions, active: Option<Session>)
    requires IsActive(sessions, active)
    ensures active.None? <==> AllRetired(sessions)
  {
    if active.None? {
      forall id | id in sessions
        ensures sessions[id].retiredAt.Some?
      {
        assert !Usable(sessions[id], false);
      }
    } else {
      assert active.value.sessionId in sessions;
    }
  }

  // -- Rotation ----------------------------------------------------------------

  /** What was initiated is on record. */
  lemma {:induction false} InitiatedIsKnown(start: System, events: seq<Event>, p: Party, id: nat, at: int)
    requires IsFreshSystem(start) && Valid(start, events) && WasStarted(start, events, p, id, Init, at)
    ensures id in Run(start, events).origins
  {
    var earlier, ev := events[..|events| - 1], events[|events| - 1];
    T.RunKeeps(start, earlier);
    T.StepKeeps(Run(start, earlier), ev);
    if WasStarted(start, earlier, p, id, Init, at) {
      InitiatedIsKnown(start, earlier, p, id, at);
    }
  }

  /** A session is initiated once: whoever initiated it has one date for it. */
  lemma {:induction false} InitiatedOnce(start: System, events: seq<Event>, p: Party, id: nat, at: int, other: int)
    requires IsFreshSystem(start) && Valid(start, events)
    requires WasStarted(start, events, p, id, Init, at) && WasStarted(start, events, p, id, Init, other)
    ensures at == other
  {
    var earlier, ev := events[..|events| - 1], events[|events| - 1];
    if WasStarted(start, earlier, p, id, Init, at) {
      InitiatedIsKnown(start, earlier, p, id, at);
    }
    if WasStarted(start, earlier, p, id, Init, other) {
      InitiatedIsKnown(start, earlier, p, id, other);
    }
    if WasStarted(start, earlier, p, id, Init, at) && WasStarted(start, earlier, p, id, Init, other) {
      InitiatedOnce(start, earlier, p, id, at, other);
    }
  }

  /**
   * In every run, whatever tabs write back meanwhile: the envelope that an encrypt returns goes on with the session it
   * found if and only if it found one, with fewer than 200 counters spent, that this side started less than seven days
   * ago. Otherwise it is the first of a new session and carries the init block.
   */
  lemma EncryptRotatesExactlyWhen(start: System, events: seq<Event>, ev: Event)
    requires IsFreshSystem(start) && Valid(start, events) && Enabled(Run(start, events), ev) && ev.End?
    requires |Step(Run(start, events), ev).sent| > |Run(start, events).sent|
    ensures var sys, active := Run(start, events), Run(start, events).Of(ev.p).held.value;
            var e := Step(sys, ev).sent[|sys.sent|].e;
            && (active.Some? ==>
                  WasStarted(start, events, ev.p, active.value.sessionId, active.value.role, active.value.createdAt))
            && (active.Some? && !EverRollsBack(start, events) ==>
                  active.value.sendCtr == SpentUnder(sys.Of(ev.p).taken, active.value.sessionId))
            && if active.Some? && active.value.sendCtr < 200
                  && ev.now - active.value.createdAt < 7 * 24 * 60 * 60 * 1000
               then e.sessionId == active.value.sessionId && e.ctr == active.value.sendCtr && e.init.None?
               else e.sessionId == ev.supply.sessionId && e.sessionId !in sys.origins && e.ctr == 0 && e.init.Some?
  {
    RunDates(start, events, ev.p);
    if !EverRollsBack(start, events) {
      CountersDistinct(start, events);
    }
  }
}
