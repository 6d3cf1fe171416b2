/** Over all runs of v1 tabs: when a counter is spent twice, and that without shredding only a late write can do it. */
module TabsV1Spending {
  import opened Wrappers
  import opened Parties
  import opened SessionV1
  import opened ServiceV1
  import opened TabsV1
  import opened TabsV1Counters

  // -- No session is ever ahead ------------------------------------------------

  predicate NotAhead(taken: seq<Counter>, s: Session) {
    s.sendCtr <= SpentUnder(taken, s.sessionId)
  }

  predicate CopyNotAhead(taken: seq<Counter>, c: Copy) {
    c.Loaded? && c.session.Some? ==> NotAhead(taken, c.session.value)
  }

  predicate StoreNotAhead(taken: seq<Counter>, sessions: Sessions, held: Option<Option<Session>>) {
    && (forall id :: id in sessions ==> sessions[id].sessionId == id && NotAhead(taken, sessions[id]))
    && (held.Some? && held.value.Some? ==> NotAhead(taken, held.value.value))
  }

  /** Nothing a device stores, holds or has loaded is ahead of what it has spent, whatever it forgot or wrote back. */
  ghost predicate NoneAhead(d: Device) {
    && StoreNotAhead(d.taken, d.sessions, d.held)
    && (forall t: TabId :: CopyNotAhead(d.taken, d.CopyOf(t)))
    && (forall c :: c in d.taken ==> c.ctr < ROTATE_AFTER_MESSAGES)
  }

  lemma PreparedNotAhead(d: Device, active: Option<Session>, supply: Supply, now: int)
    requires StoreNotAhead(d.taken, d.sessions, Some(active))
    ensures var prepared := Prepare(d.talk, d.sessions, active, supply, now);
            && StoreNotAhead(d.taken, prepared.sessions, None)
            && (prepared.session.Some? ==>
                  NotAhead(d.taken, prepared.session.value) && prepared.session.value.sendCtr < ROTATE_AFTER_MESSAGES)
  {
  }

  lemma EndedNotAhead(d: Device, prepared: Prepared)
    requires NoneAhead(d) && StoreNotAhead(d.taken, prepared.sessions, None)
    requires prepared.session.Some? ==>
               NotAhead(d.taken, prepared.session.value) && prepared.session.value.sendCtr < ROTATE_AFTER_MESSAGES
    ensures NoneAhead(Ended(d, prepared))
  {
    var taken' := Ended(d, prepared).taken;
    forall id
      ensures SpentUnder(taken', id) >= SpentUnder(d.taken, id)
      ensures prepared.session.Some? && id == prepared.session.value.sessionId ==>
                SpentUnder(taken', id) == SpentUnder(d.taken, id) + 1
    {
      if prepared.session.Some? {
        SpendingCounts(d.taken, Counter(prepared.session.value.sessionId, prepared.session.value.sendCtr), id);
      }
    }
    forall t: TabId
      ensures CopyNotAhead(taken', Ended(d, prepared).CopyOf(t))
    {
      assert CopyNotAhead(d.taken, d.CopyOf(t));
    }
  }

  lemma EndNotAhead(sys: System, ev: Event)
    requires Enabled(sys, ev) && ev.End? && NoneAhead(sys.Of(ev.p))
    ensures NoneAhead(Step(sys, ev).Of(ev.p))
  {
    var d := sys.Of(ev.p);
    PreparedNotAhead(d, d.held.value, ev.supply, ev.now);
    EndedNotAhead(d, Prepare(d.talk, d.sessions, d.held.value, ev.supply, ev.now));
  }

  /** Which copies a step leaves: those there were, none, one of a stored session, or the one it has just saved. */
  predicate CopyFrom(sys: System, ev: Event, c: Copy) {
    var d, saved := sys.Of(ev.p), SavedBy(sys, ev);
    c.Loaded? && c.session.Some? ==>
      (c.session.value.sessionId in d.sessions && d.sessions[c.session.value.sessionId] == c.session.value)
      || c.session == saved
  }

  lemma CopiesQuietly(sys: System, ev: Event, t: TabId)
    requires Enabled(sys, ev) && !ev.End? && StoreNotAhead(sys.Of(ev.p).taken, sys.Of(ev.p).sessions, None)
    ensures var d, d' := sys.Of(ev.p), Step(sys, ev).Of(ev.p);
            d'.CopyOf(t) == d.CopyOf(t) || CopyFrom(sys, ev, d'.CopyOf(t))
  {
  }

  /** What a decrypt saves has the counter of its copy, or the first one. */
  lemma SavedNotAhead(sys: System, ev: Event)
    requires Enabled(sys, ev) && NoneAhead(sys.Of(ev.p)) && SavedBy(sys, ev).Some?
    ensures NotAhead(sys.Of(ev.p).taken, SavedBy(sys, ev).value)
  {
    if ev.Show? {
      assert CopyNotAhead(sys.Of(ev.p).taken, sys.Of(ev.p).CopyOf(ev.tab));
    }
  }

  lemma QuietNotAhead(sys: System, ev: Event)
    requires Enabled(sys, ev) && !ev.End? && NoneAhead(sys.Of(ev.p))
    ensures NoneAhead(Step(sys, ev).Of(ev.p))
  {
    var d, d' := sys.Of(ev.p), Step(sys, ev).Of(ev.p);
    QuietDevice(sys, ev);
    if SavedBy(sys, ev).Some? {
      SavedNotAhead(sys, ev);
    }
    forall t: TabId
      ensures CopyNotAhead(d'.taken, d'.CopyOf(t))
    {
      CopiesQuietly(sys, ev, t);
      assert CopyNotAhead(d.taken, d.CopyOf(t));
    }
  }

  // -- When a counter is spent twice -------------------------------------------

  /** An encrypt is about to go on with a session that is behind what has been spent under its id. */
  predicate Behind(sys: System, ev: Event) {
    && ev.End? && sys.Of(ev.p).held.Some?
    && var d := sys.Of(ev.p);
    && var prepared := Prepare(d.talk, d.sessions, d.held.value, ev.supply, ev.now);
    && prepared.session.Some?
    && prepared.session.value.sendCtr < SpentUnder(d.taken, prepared.session.value.sessionId)
  }

  predicate EverBehind(start: System, events: seq<Event>, p: Party) {
    events != [] &&
    (EverBehind(start, events[..|events| - 1], p)
     || (events[|events| - 1].p == p && Behind(Run(start, events[..|events| - 1]), events[|events| - 1])))
  }

  /** A session that is not behind spends in turn, and one that is behind spends a counter again. */
  lemma EndSpends(sys: System, ev: Event)
    requires Enabled(sys, ev) && ev.End? && NoneAhead(sys.Of(ev.p)) && InTurn(sys.Of(ev.p).taken)
    ensures var taken' := Step(sys, ev).Of(ev.p).taken;
            if Behind(sys, ev) then !Distinct(taken') else InTurn(taken')
  {
    var d := sys.Of(ev.p);
    var prepared := Prepare(d.talk, d.sessions, d.held.value, ev.supply, ev.now);
    PreparedNotAhead(d, d.held.value, ev.supply, ev.now);
    if prepared.session.Some? {
      var c := Counter(prepared.session.value.sessionId, prepared.session.value.sendCtr);
      SpendingCounts(d.taken, c, c.sessionId);
      InTurnIs(d.taken, c);
      OnceMore(d.taken, c);
    }
  }

  lemma TakenGrows(sys: System, ev: Event, p: Party)
    requires Enabled(sys, ev)
    ensures sys.Of(p).taken <= Step(sys, ev).Of(p).taken
  {
    if !ev.End? {
      QuietDevice(sys, ev);
    }
  }

  lemma OthersStay(sys: System, ev: Event)
    requires Enabled(sys, ev)
    ensures Step(sys, ev).Of(Other(ev.p)) == sys.Of(Other(ev.p))
  {
    if !ev.End? {
      QuietDevice(sys, ev);
    }
  }

  lemma StepNotAhead(sys: System, ev: Event, p: Party)
    requires Enabled(sys, ev) && NoneAhead(sys.Of(p))
    ensures NoneAhead(Step(sys, ev).Of(p))
  {
    OthersStay(sys, ev);
    if p == ev.p {
      if ev.End? {
        EndNotAhead(sys, ev);
      } else {
        QuietNotAhead(sys, ev);
      }
    }
  }

  lemma {:induction false} NeverAhead(start: System, events: seq<Event>, p: Party)
    requires IsFreshSystem(start) && Valid(start, events)
    ensures NoneAhead(Run(start, events).Of(p))
  {
    if events != [] {
      NeverAhead(start, events[..|events| - 1], p);
      StepNotAhead(Run(start, events[..|events| - 1]), events[|events| - 1], p);
    }
  }

  /**
   * Over any run, tabs, late writes, shredding and repeated deliveries included: a side spends a counter twice exactly
   * when some encrypt of its went on with a session that was behind what it had spent under that id.
   */
  lemma {:induction false} SpentTwiceExactlyWhen(start: System, events: seq<Event>, p: Party)
    requires IsFreshSystem(start) && Valid(start, events)
    ensures Distinct(Run(start, events).Of(p).taken) <==> !EverBehind(start, events, p)
    ensures !EverBehind(start, events, p) ==> InTurn(Run(start, events).Of(p).taken)
  {
    if events != [] {
      var before, ev := Run(start, events[..|events| - 1]), events[|events| - 1];
      SpentTwiceExactlyWhen(start, events[..|events| - 1], p);
      NeverAhead(start, events[..|events| - 1], p);
      TakenGrows(before, ev, p);
      OthersStay(before, ev);
      if EverBehind(start, events[..|events| - 1], p) {
        StillTwice(before.Of(p).taken, Step(before, ev).Of(p).taken);
      } else if p == ev.p && ev.End? {
        EndSpends(before, ev);
        TurnIsOnce(Step(before, ev).Of(p).taken);
      } else if p == ev.p {
        QuietDevice(before, ev);
      }
    }
  }

  lemma TurnIsOnce(taken: seq<Counter>)
    ensures InTurn(taken) ==> Distinct(taken)
  {
    if InTurn(taken) {
      InTurnIsOnce(taken);
    }
  }

  lemma StillTwice(taken: seq<Counter>, longer: seq<Counter>)
    requires taken <= longer && !Distinct(taken)
    ensures !Distinct(longer)
  {
    var i, j :| 0 <= i < j < |taken| && taken[i] == taken[j];
    assert longer[i] == taken[i] && longer[j] == taken[j];
  }

  /**
   * So the envelopes a side sent carry pairwise different counters, none past 199, unless an encrypt went on behind.
   */
  lemma {:induction false} SentOnceUnlessBehind(start: System, events: seq<Event>, p: Party)
    requires IsFreshSystem(start) && Valid(start, events)
    ensures SentTaken(Run(start, events))
    ensures !EverBehind(start, events, p) ==>
              var sent := Run(start, events).sent;
              forall j, k :: 0 <= j < k < |sent| && sent[j].from == sent[k].from == p ==>
                CounterOf(sent[j]) != CounterOf(sent[k]) && sent[k].e.ctr < ROTATE_AFTER_MESSAGES
  {
    SpentTwiceExactlyWhen(start, events, p);
    NeverAhead(start, events, p);
    if events != [] {
      var before, ev := Run(start, events[..|events| - 1]), events[|events| - 1];
      SentOnceUnlessBehind(start, events[..|events| - 1], p);
      StepSentTaken(before, ev);
    }
  }

  lemma StepSentTaken(sys: System, ev: Event)
    requires Enabled(sys, ev) && SentTaken(sys)
    ensures SentTaken(Step(sys, ev))
  {
    if ev.End? {
      EndSentTaken(sys, ev.p, sys.Of(ev.p).held.value, ev.body, ev.supply, ev.now);
    } else {
      QuietDevice(sys, ev);
      QuietSent(sys, Step(sys, ev));
    }
  }

  // -- Without shredding -------------------------------------------------------

  /** Every session a counter was spent on is still stored. */
  predicate SpentIsStored(d: Device) {
    forall c :: c in d.taken ==> c.sessionId in d.sessions
  }

  lemma StepStored(sys: System, ev: Event, p: Party)
    requires Enabled(sys, ev) && SpentIsStored(sys.Of(p)) && !ev.Shred?
    ensures SpentIsStored(Step(sys, ev).Of(p))
  {
    OthersStay(sys, ev);
    if p == ev.p {
      if ev.End? {
        var d := sys.Of(p);
        EndStored(d, Prepare(d.talk, d.sessions, d.held.value, ev.supply, ev.now));
      } else {
        QuietDevice(sys, ev);
      }
    }
  }

  lemma EndStored(d: Device, prepared: Prepared)
    requires SpentIsStored(d) && d.sessions.Keys <= prepared.sessions.Keys
    ensures SpentIsStored(Ended(d, prepared))
  {
  }

  predicate IsShred(ev: Event) {
    ev.Shred?
  }

  lemma {:induction false} NoShreddingKeepsSpent(start: System, events: seq<Event>, p: Party)
    requires IsFreshSystem(start) && Valid(start, events) && forall ev :: ev in events ==> !IsShred(ev)
    ensures SpentIsStored(Run(start, events).Of(p))
  {
    if events != [] {
      assert events[|events| - 1] in events;
      NoShreddingKeepsSpent(start, events[..|events| - 1], p);
      StepStored(Run(start, events[..|events| - 1]), events[|events| - 1], p);
    }
  }

  /**
   * What a decrypt writes is over a stored session, and has another counter: what comparing the two rows would show.
   */
  predicate Overwrites(sys: System, ev: Event) {
    var saved := SavedBy(sys, ev);
    && saved.Some? && saved.value.sessionId in sys.Of(ev.p).sessions
    && saved.value.sendCtr != sys.Of(ev.p).sessions[saved.value.sessionId].sendCtr
  }

  predicate EverOverwrites(start: System, events: seq<Event>) {
    events != [] &&
    (EverOverwrites(start, events[..|events| - 1])
     || Overwrites(Run(start, events[..|events| - 1]), events[|events| - 1]))
  }

  /**
   * A copy of a session that is no longer stored, in a device where all that was spent on is stored, is a first one.
   */
  lemma UnstoredIsFirst(sys: System, ev: Event)
    requires Enabled(sys, ev) && SpentIsStored(sys.Of(ev.p)) && NoneAhead(sys.Of(ev.p))
    requires SavedBy(sys, ev).Some? && SavedBy(sys, ev).value.sessionId !in sys.Of(ev.p).sessions
    ensures Fits(sys.Of(ev.p).taken, SavedBy(sys, ev).value)
  {
    SavedNotAhead(sys, ev);
    NothingSpent(sys.Of(ev.p).taken, SavedBy(sys, ev).value.sessionId);
  }

  /**
   * Without shredding a decrypt's write undoes a counter exactly when it goes over a stored session with another
   * counter: the first accepted session never does.
   */
  lemma {:induction false} NoShreddingRollsBackExactlyWhen(start: System, events: seq<Event>)
    requires IsFreshSystem(start) && Valid(start, events) && forall ev :: ev in events ==> !IsShred(ev)
    ensures EverRollsBack(start, events) <==> EverOverwrites(start, events)
  {
    if events != [] {
      var earlier := events[..|events| - 1];
      var before, ev := Run(start, earlier), events[|events| - 1];
      NoShreddingRollsBackExactlyWhen(start, earlier);
      if !EverRollsBack(start, earlier) && SavedBy(before, ev).Some? {
        CountersDistinct(start, earlier);
        NoShreddingKeepsSpent(start, earlier, ev.p);
        NeverAhead(start, earlier, ev.p);
        if SavedBy(before, ev).value.sessionId !in before.Of(ev.p).sessions {
          UnstoredIsFirst(before, ev);
        }
      }
    }
  }
}
