/** Two short runs of v1 conversations: an envelope that comes before its session, and a counter that is spent twice. */
module TabsV1Runs {
  import opened Wrappers
  import opened Parties
  import opened Padding
  import opened SessionV1
  import opened ServiceV1
  import opened TabsV1
  import opened TabsV1Theorems
  import opened TabsV1Counters
  import EnvelopeV2

  /** What a party is given for an encrypt: the peer's bundle and the next session id. */
  function SupplyFor(sys: System, p: Party, id: nat): Supply {
    Supply(EnvelopeV2.BundleOf(sys.Of(Other(p)).talk.identity), id, 0)
  }

  /** The party's only session is this one, and it may go on sending on it. */
  predicate OnlySession(d: Device, s: Session) {
    && d.held.None? && d.sessions == map[s.sessionId := s]
    && s.retiredAt.None? && s.createdAt == 0 && s.sendCtr < ROTATE_AFTER_MESSAGES
  }

  lemma OnlyIsActive(d: Device, s: Session)
    requires OnlySession(d, s)
    ensures IsActive(d.sessions, Some(s))
  {
    if s.role == Init {
      assert IsNewest(d.sessions, true, Some(s));
    } else {
      assert IsNewest(d.sessions, true, None) && IsNewest(d.sessions, false, Some(s));
    }
  }

  /** The end of an encrypt that holds the only session. */
  lemma EndsSend(sys: System, p: Party, s: Session, body: seq<nat>)
    requires OnlySession(sys.Of(p).(held := None), s) && sys.Of(p).held == Some(Some(s)) && |body| <= MAX_BODY
    ensures var sys' := Step(sys, End(p, body, SupplyFor(sys, p, 1), 0));
            && sys'.Of(p) == sys.Of(p).(held := None, sessions := map[s.sessionId := s.(sendCtr := s.sendCtr + 1)],
                                        taken := sys.Of(p).taken + [Counter(s.sessionId, s.sendCtr)])
            && sys'.Of(Other(p)) == sys.Of(Other(p)) && sys'.origins == sys.origins
            && |sys'.sent| == |sys.sent| + 1 && sys.sent <= sys'.sent
            && IsSend(sys'.sent[|sys.sent|], p, s, body)
  {
    var spent := s.(sendCtr := s.sendCtr + 1);
    assert map[s.sessionId := s][s.sessionId := spent] == map[s.sessionId := spent];
  }

  /** One encrypt on the only session. */
  lemma SendsOn(start: System, events: seq<Event>, p: Party, s: Session, body: seq<nat>) returns (more: seq<Event>)
    requires Valid(start, events) && OnlySession(Run(start, events).Of(p), s) && |body| <= MAX_BODY
    requires 1 !in Run(start, events).origins
    ensures Valid(start, more)
    ensures var sys, sys' := Run(start, events), Run(start, more);
            && sys'.Of(p).held.None? && sys'.Of(p).sessions == map[s.sessionId := s.(sendCtr := s.sendCtr + 1)]
            && sys'.Of(p).copies == sys.Of(p).copies && sys'.Of(p).talk == sys.Of(p).talk
            && sys'.Of(p).taken == sys.Of(p).taken + [Counter(s.sessionId, s.sendCtr)]
            && sys'.Of(Other(p)) == sys.Of(Other(p)) && sys'.origins == sys.origins
            && |sys'.sent| == |sys.sent| + 1 && sys.sent <= sys'.sent
            && IsSend(sys'.sent[|sys.sent|], p, s, body)
  {
    var sys := Run(start, events);
    OnlyIsActive(sys.Of(p), s);
    more := Extended(start, events, Begin(p, Some(s)));
    EndsSend(Run(start, more), p, s, body);
    more := Extended(start, more, End(p, body, SupplyFor(sys, p, 1), 0));
  }

  predicate IsSend(m: Sent, p: Party, s: Session, body: seq<nat>) {
    m.from == p && m.body == body && m.e.sessionId == s.sessionId && m.e.ctr == s.sendCtr && m.e.init.None?
  }

  /** Alice's first encrypt holds nothing, and starts a session. */
  lemma FirstPrepared(start: System)
    requires IsFreshSystem(start)
    ensures var d := start.alice;
            var prepared := Prepare(d.talk, d.sessions, None, SupplyFor(start, Alice, 0), 0);
            && prepared.sessions == map[] && prepared.session.Some? && prepared.init.Some?
            && prepared.session.value.sessionId == 0 && prepared.session.value.sendCtr == 0
            && prepared.session.value.retiredAt.None? && prepared.session.value.createdAt == 0
  {
  }

  lemma FirstEnds(start: System, sys: System, body: seq<nat>)
    requires IsFreshSystem(start) && sys == start.With(Alice, start.alice.(held := Some(None))) && |body| <= MAX_BODY
    ensures var sys' := Step(sys, End(Alice, body, SupplyFor(start, Alice, 0), 0));
            && 0 in sys'.alice.sessions && OnlySession(sys'.alice, sys'.alice.sessions[0])
            && sys'.alice.sessions[0].sendCtr == 1 && sys'.alice.sessions[0].sessionId == 0
            && sys'.bob == start.bob && sys'.origins.Keys == {0} && |sys'.sent| == 1
            && IsFirst(sys'.sent[0], body)
  {
    FirstPrepared(start);
  }

  predicate IsFirst(m: Sent, body: seq<nat>) {
    m.from == Alice && m.body == body && m.e.ctr == 0 && m.e.sessionId == 0 && m.e.init.Some?
  }

  lemma FirstSend(start: System, body: seq<nat>) returns (events: seq<Event>)
    requires IsFreshSystem(start) && |body| <= MAX_BODY
    ensures Valid(start, events)
    ensures var sys := Run(start, events);
            && 0 in sys.alice.sessions && OnlySession(sys.alice, sys.alice.sessions[0])
            && sys.alice.sessions[0].sendCtr == 1 && sys.alice.sessions[0].sessionId == 0
            && sys.bob == start.bob && sys.origins.Keys == {0} && |sys.sent| == 1 && IsFirst(sys.sent[0], body)
  {
    assert Valid(start, []) && Run(start, []) == start;
    assert IsNewest(start.alice.sessions, true, None) && IsNewest(start.alice.sessions, false, None);
    events := Extended(start, [], Begin(Alice, None));
    FirstEnds(start, Run(start, events), body);
    events := Extended(start, events, End(Alice, body, SupplyFor(start, Alice, 0), 0));
  }

  /**
   * The order of arrival matters: Alice's second envelope, at counter 1, carries no init block. If it comes first Bob's
   * decrypt shows nothing; after the first one has been decrypted it shows its text.
   */
  lemma LateFirst(start: System, first: seq<nat>, second: seq<nat>) returns (events: seq<Event>)
    requires IsFreshSystem(start) && |first| <= MAX_BODY && |second| <= MAX_BODY
    ensures Valid(start, events) && |Run(start, events).sent| == 2
    ensures var sys := Run(start, events);
            var talk, me, e0, e1 := sys.bob.talk, sys.Me(Alice), sys.sent[0].e, sys.sent[1].e;
            && DecryptWith(talk, sys.bob.sessions, me, e1, 0).text == None
            && DecryptWith(talk, sys.bob.sessions, me, e0, 0).text == Some(first)
            && DecryptWith(talk, DecryptWith(talk, sys.bob.sessions, me, e0, 0).sessions, me, e1,
                           0).text == Some(second)
  {
    events := FirstSend(start, first);
    events := SendsOn(start, events, Alice, Run(start, events).alice.sessions[0], second);
    var sys := Run(start, events);
    RunHolds(start, events);
    DecryptShows(sys, Bob, 0, 0);
    DecryptShows(sys, Bob, 1, 0);
    AfterFirst(sys);
  }

  lemma AfterFirst(sys: System)
    requires Reachable(sys) && sys.bob.sessions == map[] && |sys.sent| == 2
    requires sys.sent[0].from == sys.sent[1].from == Alice && sys.sent[0].e.sessionId == sys.sent[1].e.sessionId
    requires sys.sent[0].e.init.Some?
    ensures var sessions := DecryptWith(sys.bob.talk, map[], sys.Me(Alice), sys.sent[0].e, 0).sessions;
            DecryptWith(sys.bob.talk, sessions, sys.Me(Alice), sys.sent[1].e, 0).text == Some(sys.sent[1].body)
  {
    ReachableHolds(sys);
    AcceptedOk(sys, Bob, 0, 0);
    var s := Accepted(sys, Bob, 0, 0).value;
    Opens(sys, Bob, 0, s);
    var sessions := DecryptWith(sys.bob.talk, map[], sys.Me(Alice), sys.sent[0].e, 0).sessions;
    Opens(sys, Bob, 1, sessions[s.sessionId]);
  }

  // -- A counter spent twice ---------------------------------------------------

  /** Bob has no session, and his tab 0 is free for Alice's first envelope. */
  predicate Unaware(sys: System) {
    && sys.bob.sessions == map[] && sys.bob.held.None? && sys.bob.CopyOf(0).NoCopy?
    && |sys.sent| > 0 && sys.sent[0].from == Alice && sys.sent[0].e.init.Some?
  }

  /** Bob's tab reads Alice's envelope and saves the accepted session, but has not answered yet. */
  lemma AcceptsFirst(start: System, events: seq<Event>) returns (more: seq<Event>, s: Session)
    requires IsFreshSystem(start) && Valid(start, events) && Unaware(Run(start, events))
    ensures Valid(start, more)
    ensures var sys, sys' := Run(start, events), Run(start, more);
            && OnlySession(sys'.bob, s) && s.sendCtr == 0 && s.peerMaxCtr == -1
            && s.sessionId == sys.sent[0].e.sessionId
            && sys'.bob.CopyOf(0) == Loaded(0, Some(s)) && sys'.bob.taken == sys.bob.taken
            && sys'.sent == sys.sent && sys'.origins == sys.origins
  {
    var sys := Run(start, events);
    more := Extended(start, events, Load(Bob, 0, 0));
    var loaded := Run(start, more);
    RunHolds(start, more);
    AcceptedOk(loaded, Bob, 0, 0);
    s := Accepted(loaded, Bob, 0, 0).value;
    more := Extended(start, more, Accept(Bob, 0, 0));
  }

  lemma SavesCopy(sys: System, s: Session)
    requires SystemInv(sys) && sys.bob.CopyOf(0) == Loaded(0, Some(s)) && |sys.sent| > 0
    requires sys.sent[0].from == Alice && s.peerMaxCtr == -1
    ensures SavedBy(sys, Show(Bob, 0)) == Some(s.(peerMaxCtr := sys.sent[0].e.ctr))
  {
    assert CopyOk(sys, Bob, sys.bob.CopyOf(0));
    Opens(sys, Bob, 0, s);
  }

  /** The tab goes on with the session as it was then, and writes it back. */
  lemma Written(sys: System, sys': System, s: Session, stored: Session)
    requires ChangesQuietly(sys, Show(Bob, 0), sys') && SavedBy(sys, Show(Bob, 0)) == Some(s)
    requires sys.bob.sessions == map[s.sessionId := stored]
    ensures sys'.bob.sessions == map[s.sessionId := s]
    ensures sys'.bob.held == sys.bob.held && sys'.bob.taken == sys.bob.taken
    ensures sys'.sent == sys.sent && sys'.origins == sys.origins
  {
    assert map[s.sessionId := stored][s.sessionId := s] == map[s.sessionId := s];
  }

  lemma WritesBack(start: System, events: seq<Event>, s: Session, stored: Session) returns (more: seq<Event>)
    requires IsFreshSystem(start) && Valid(start, events) && OnlySession(Run(start, events).bob, stored)
    requires var sys := Run(start, events);
             && sys.bob.CopyOf(0) == Loaded(0, Some(s)) && s.sessionId == stored.sessionId
             && s.retiredAt.None? && s.createdAt == 0 && s.sendCtr == 0 && s.peerMaxCtr == -1
             && |sys.sent| > 0 && sys.sent[0].from == Alice
    ensures Valid(start, more)
    ensures var sys, sys' := Run(start, events), Run(start, more);
            && OnlySession(sys'.bob, s.(peerMaxCtr := sys.sent[0].e.ctr)) && sys'.bob.taken == sys.bob.taken
            && sys'.bob.CopyOf(0).NoCopy? && sys'.sent == sys.sent && sys'.origins == sys.origins
  {
    var sys := Run(start, events);
    RunHolds(start, events);
    SavesCopy(sys, s);
    ShowIs(sys, Bob, 0, 0, s);
    QuietDevice(sys, Show(Bob, 0));
    more := Extended(start, events, Show(Bob, 0));
    Written(sys, Run(start, more), s.(peerMaxCtr := sys.sent[0].e.ctr), stored);
  }

  lemma RunHolds(start: System, events: seq<Event>)
    requires IsFreshSystem(start) && Valid(start, events)
    ensures Reachable(Run(start, events)) && SystemInv(Run(start, events))
  {
    ReachableHolds(Run(start, events));
  }

  /**
   * Bob's tab accepts Alice's session; before it has shown her text, Bob answers on that session; the tab then writes
   * its copy back to remember her counter, and Bob's next envelope carries the counter of the one before.
   */
  lemma CounterSpentTwice(start: System, hers: seq<nat>, his: seq<nat>, again: seq<nat>) returns (events: seq<Event>)
    requires IsFreshSystem(start) && |hers| <= MAX_BODY && |his| <= MAX_BODY && |again| <= MAX_BODY
    ensures Valid(start, events) && |Run(start, events).sent| == 3
    ensures var a, b := Run(start, events).sent[1], Run(start, events).sent[2];
            && a.from == b.from == Bob && a.body == his && b.body == again
            && a.e.sessionId == b.e.sessionId && a.e.ctr == b.e.ctr == 0
  {
    var s;
    events := FirstSend(start, hers);
    events, s := AcceptsFirst(start, events);
    events := SendsOn(start, events, Bob, s, his);
    events := WritesBack(start, events, s, s.(sendCtr := 1));
    events := SendsOn(start, events, Bob, s.(peerMaxCtr := 0), again);
  }

  /** Bob decrypts Alice's first envelope from beginning to end, and answers on its session. */
  lemma ReadsAndAnswers(start: System, events: seq<Event>, his: seq<nat>) returns (more: seq<Event>)
    requires IsFreshSystem(start) && Valid(start, events) && Unaware(Run(start, events)) && |his| <= MAX_BODY
    requires 1 !in Run(start, events).origins
    ensures Valid(start, more)
    ensures var sys, sys' := Run(start, events), Run(start, more);
            && sys'.bob.held.None? && sys'.bob.CopyOf(0).NoCopy? && sys'.origins == sys.origins
            && |sys'.sent| == |sys.sent| + 1 && sys.sent <= sys'.sent
            && IsAnswer(sys'.sent[|sys.sent|], sys.sent[0].e.sessionId, his)
  {
    var s;
    more, s := AcceptsFirst(start, events);
    more := WritesBack(start, more, s, s);
    more := SendsOn(start, more, Bob, s.(peerMaxCtr := Run(start, events).sent[0].e.ctr), his);
  }

  predicate IsAnswer(m: Sent, sessionId: nat, his: seq<nat>) {
    m.from == Bob && m.body == his && m.e.sessionId == sessionId && m.e.ctr == 0
  }

  /**
   * No race is needed after shredding: Bob reads Alice's first envelope, answers, shreds, reads the same envelope again
   * and answers again, and the two answers carry the same session id and counter.
   */
  lemma ShreddingSpendsTwice(start: System, hers: seq<nat>, his: seq<nat>, again: seq<nat>) returns (events: seq<Event>)
    requires IsFreshSystem(start) && |hers| <= MAX_BODY && |his| <= MAX_BODY && |again| <= MAX_BODY
    ensures Valid(start, events) && |Run(start, events).sent| == 3
    ensures var a, b := Run(start, events).sent[1], Run(start, events).sent[2];
            && a.from == b.from == Bob && a.body == his && b.body == again
            && a.e.sessionId == b.e.sessionId && a.e.ctr == b.e.ctr == 0
  {
    events := FirstSend(start, hers);
    events := ReadsAndAnswers(start, events, his);
    events := Extended(start, events, Shred(Bob));
    events := ReadsAndAnswers(start, events, again);
  }
}
