/** The send counters of v1 sessions when decrypts write back what they read before an encrypt went on. */
module TabsV1Counters {
  import opened Wrappers
  import opened SymbolicCrypto
  import opened Parties
  import opened SessionV1
  import opened ServiceV1
  import opened TabsV1
  import opened TabsV1Theorems

  // -- Counters spent in turn --------------------------------------------------

  /** How many counters have been spent under a session id. */
  function SpentUnder(taken: seq<Counter>, id: nat): nat {
    if taken == [] then 0
    else SpentUnder(taken[..|taken| - 1], id) + if taken[|taken| - 1].sessionId == id then 1 else 0
  }

  /** Each counter was the next one of its session. */
  predicate InTurn(taken: seq<Counter>) {
    taken != [] ==>
      var before, last := taken[..|taken| - 1], taken[|taken| - 1];
      InTurn(before) && last.ctr == SpentUnder(before, last.sessionId)
  }

  lemma SpendingCounts(taken: seq<Counter>, c: Counter, id: nat)
    ensures SpentUnder(taken + [c], id) == SpentUnder(taken, id) + if c.sessionId == id then 1 else 0
    ensures InTurn(taken + [c]) <==> InTurn(taken) && c.ctr == SpentUnder(taken, c.sessionId)
  {
    assert (taken + [c])[..|taken|] == taken;
  }

  /** Spent in turn are exactly the counters below how many there are. */
  lemma {:induction false} InTurnIs(taken: seq<Counter>, c: Counter)
    requires InTurn(taken)
    ensures c in taken <==> c.ctr < SpentUnder(taken, c.sessionId)
  {
    if taken != [] {
      InTurnIs(taken[..|taken| - 1], c);
      assert taken == taken[..|taken| - 1] + [taken[|taken| - 1]];
    }
  }

  lemma {:induction false} InTurnIsOnce(taken: seq<Counter>)
    requires InTurn(taken)
    ensures Distinct(taken)
  {
    if taken != [] {
      var before, last := taken[..|taken| - 1], taken[|taken| - 1];
      InTurnIsOnce(before);
      InTurnIs(before, last);
      forall i, j | 0 <= i < j < |taken|
        ensures taken[i] != taken[j]
      {
        assert i < |before| && before[i] == taken[i] && before[i] in before;
        assert j < |before| ==> before[j] == taken[j];
      }
    }
  }

  /** The session stands at the counter after those that have been spent under its id. */
  predicate Fits(taken: seq<Counter>, s: Session) {
    s.sendCtr == SpentUnder(taken, s.sessionId)
  }

  predicate AllFit(taken: seq<Counter>, sessions: Sessions) {
    forall id :: id in sessions ==> sessions[id].sessionId == id && Fits(taken, sessions[id])
  }

  predicate CountersFit(origins: map<nat, Origin>, d: Device) {
    && AllFit(d.taken, d.sessions)
    && (d.held.Some? && d.held.value.Some? ==> Fits(d.taken, d.held.value.value))
    && (forall c :: c in d.taken ==> c.sessionId in origins && c.ctr < ROTATE_AFTER_MESSAGES)
    && InTurn(d.taken)
  }

  // -- Spending a counter ------------------------------------------------------

  /** The next counter of a session that fits comes in turn, and the session fits again. */
  lemma TakeFits(taken: seq<Counter>, s: Session, t: Session)
    requires Fits(taken, s)
    ensures var taken' := taken + [Counter(s.sessionId, s.sendCtr)];
            && Fits(taken', s.(sendCtr := s.sendCtr + 1))
            && (t.sessionId != s.sessionId && Fits(taken, t) ==> Fits(taken', t))
            && (InTurn(taken) ==> InTurn(taken'))
  {
    SpendingCounts(taken, Counter(s.sessionId, s.sendCtr), s.sessionId);
    SpendingCounts(taken, Counter(s.sessionId, s.sendCtr), t.sessionId);
  }

  lemma SpentFit(taken: seq<Counter>, sessions: Sessions, s: Session)
    requires AllFit(taken, sessions) && Fits(taken, s)
    ensures AllFit(taken + [Counter(s.sessionId, s.sendCtr)], sessions[s.sessionId := s.(sendCtr := s.sendCtr + 1)])
  {
    var taken' := taken + [Counter(s.sessionId, s.sendCtr)];
    var sessions' := sessions[s.sessionId := s.(sendCtr := s.sendCtr + 1)];
    forall id | id in sessions'
      ensures sessions'[id].sessionId == id && Fits(taken', sessions'[id])
    {
      TakeFits(taken, s, if id in sessions then sessions[id] else s);
    }
  }

  /** The session an encrypt goes on with fits, and has fewer than 200 messages. */
  lemma PreparedFits(origins: map<nat, Origin>, d: Device, active: Option<Session>, supply: Supply, now: int)
    requires CountersFit(origins, d) && supply.sessionId !in origins && (active.Some? ==> Fits(d.taken, active.value))
    ensures var prepared := Prepare(d.talk, d.sessions, active, supply, now);
            && AllFit(d.taken, prepared.sessions)
            && (prepared.session.Some? ==>
                  && Fits(d.taken, prepared.session.value) && prepared.session.value.sendCtr < ROTATE_AFTER_MESSAGES
                  && (prepared.init.None? ==> prepared.session == active)
                  && (prepared.init.Some? ==> prepared.session.value.sessionId == supply.sessionId))
  {
    if active.Some? && NeedsRotation(active.value, now) {
      var retired := active.value.(retiredAt := Some(now));
      assert Fits(d.taken, retired);
    }
    NothingSpent(d.taken, supply.sessionId);
  }

  lemma {:induction false} NothingSpent(taken: seq<Counter>, id: nat)
    ensures SpentUnder(taken, id) > 0 <==> exists c :: c in taken && c.sessionId == id
  {
    if taken != [] {
      NothingSpent(taken[..|taken| - 1], id);
      assert taken == taken[..|taken| - 1] + [taken[|taken| - 1]];
      assert taken[|taken| - 1] in taken;
    }
  }

  lemma EndedFits(origins: map<nat, Origin>, d: Device, prepared: Prepared)
    requires AllFit(d.taken, prepared.sessions) && InTurn(d.taken)
    requires forall c :: c in d.taken ==> c.sessionId in origins && c.ctr < ROTATE_AFTER_MESSAGES
    requires prepared.session.Some? ==>
               && Fits(d.taken, prepared.session.value) && prepared.session.value.sendCtr < ROTATE_AFTER_MESSAGES
               && prepared.session.value.sessionId in origins
    ensures CountersFit(origins, Ended(d, prepared))
  {
    if prepared.session.Some? {
      SpentFit(d.taken, prepared.sessions, prepared.session.value);
      TakeFits(d.taken, prepared.session.value, prepared.session.value);
    }
  }

  lemma EndFits(origins: map<nat, Origin>, p: Party, d: Device, active: Option<Session>, supply: Supply, now: int)
    requires CountersFit(origins, d) && supply.sessionId !in origins && (active.Some? ==> Fits(d.taken, active.value))
    requires active.Some? ==> active.value.sessionId in origins
    ensures var prepared := Prepare(d.talk, d.sessions, active, supply, now);
            CountersFit(Originated(origins, p, d.talk, prepared, supply), Ended(d, prepared))
  {
    var prepared := Prepare(d.talk, d.sessions, active, supply, now);
    PreparedFits(origins, d, active, supply, now);
    EndedFits(Originated(origins, p, d.talk, prepared, supply), d, prepared);
  }

  // -- Writing back ------------------------------------------------------------

  /** The session that a decrypt writes, outside the lock. */
  function SavedBy(sys: System, ev: Event): Option<Session> {
    match ev
    case Accept(p, tab, now) =>
      var c := sys.Of(p).CopyOf(tab);
      if ToAccept(sys, p, c) && Accepted(sys, p, c.k, now).Ok? then Some(Accepted(sys, p, c.k, now).value) else None
    case Show(p, tab) =>
      var c := sys.Of(p).CopyOf(tab);
      if c.Loaded? && c.k < |sys.sent| && c.session.Some? then Remembered(sys, p, c.k, c.session.value) else None
    case _ => None
  }

  /** What a decrypt writes does not stand where the counters under its id have been spent up to. */
  predicate RollsBack(sys: System, ev: Event) {
    SavedBy(sys, ev).Some? && !Fits(sys.Of(ev.p).taken, SavedBy(sys, ev).value)
  }

  predicate EverRollsBack(start: System, events: seq<Event>) {
    events != [] &&
    (EverRollsBack(start, events[..|events| - 1])
     || RollsBack(Run(start, events[..|events| - 1]), events[|events| - 1]))
  }

  /**
   * Writing a copy, over a stored session or where none is stored any more, keeps the counters true exactly when the
   * copy stands where the counters under its id have been spent up to; over a stored session that is the stored
   * counter.
   */
  lemma WriteBackExactlyWhen(origins: map<nat, Origin>, d: Device, copy: Session)
    requires CountersFit(origins, d)
    ensures CountersFit(origins, d.Save(copy)) <==> copy.sendCtr == SpentUnder(d.taken, copy.sessionId)
    ensures copy.sessionId in d.sessions ==>
              SpentUnder(d.taken, copy.sessionId) == d.sessions[copy.sessionId].sendCtr
  {
    assert d.Save(copy).sessions[copy.sessionId] == copy;
  }

  /**
   * After the write, the next encrypt on that session spends a counter again exactly when the copy is behind what has
   * been spent under its id; over a stored session, behind the stored counter.
   */
  lemma NextRepeatsExactlyWhen(origins: map<nat, Origin>, d: Device, copy: Session, supply: Supply, now: int)
    requires CountersFit(origins, d) && !NeedsRotation(copy, now)
    ensures var d' := d.Save(copy);
            Distinct(Ended(d', Prepare(d'.talk, d'.sessions, Some(copy), supply, now)).taken)
            <==> copy.sendCtr >= SpentUnder(d.taken, copy.sessionId)
    ensures copy.sessionId in d.sessions ==>
              SpentUnder(d.taken, copy.sessionId) == d.sessions[copy.sessionId].sendCtr
  {
    var c := Counter(copy.sessionId, copy.sendCtr);
    InTurnIs(d.taken, c);
    InTurnIsOnce(d.taken);
    OnceMore(d.taken, c);
  }

  lemma OnceMore(taken: seq<Counter>, c: Counter)
    ensures Distinct(taken + [c]) <==> Distinct(taken) && c !in taken
  {
    var more := taken + [c];
    assert forall i :: 0 <= i < |taken| ==> more[i] == taken[i];
    if c in taken {
      var i :| 0 <= i < |taken| && taken[i] == c;
      assert more[i] == more[|taken|];
    }
  }

  /**
   * Accepting the peer's init block once more puts the session back to its first counter: exactly when a counter has
   * been spent under that id before, as after shredding, or by an encrypt that another tab's session let go on.
   */
  lemma AcceptRollsBackExactlyWhen(sys: System, p: Party, tab: TabId, now: int)
    requires SystemInv(sys) && Enabled(sys, Accept(p, tab, now))
    ensures var id := sys.sent[sys.Of(p).CopyOf(tab).k].e.sessionId;
            RollsBack(sys, Accept(p, tab, now)) <==> exists c :: c in sys.Of(p).taken && c.sessionId == id
  {
    var k := sys.Of(p).CopyOf(tab).k;
    AcceptedOk(sys, p, k, now);
    NothingSpent(sys.Of(p).taken, sys.sent[k].e.sessionId);
  }

  // -- Runs --------------------------------------------------------------------

  ghost predicate BothFit(sys: System) {
    SystemInv(sys) && CountersFit(sys.origins, sys.alice) && CountersFit(sys.origins, sys.bob) && SentTaken(sys)
  }

  function CounterOf(m: Sent): Counter {
    Counter(m.e.sessionId, m.e.ctr)
  }

  /** What a party sent carries counters that it has spent, each once unless a counter was spent twice. */
  predicate SentBy(sent: seq<Sent>, p: Party, taken: seq<Counter>) {
    && (forall k :: 0 <= k < |sent| && sent[k].from == p ==> CounterOf(sent[k]) in taken)
    && (Distinct(taken) ==>
          forall j, k :: 0 <= j < k < |sent| && sent[j].from == sent[k].from == p ==>
            CounterOf(sent[j]) != CounterOf(sent[k]))
  }

  predicate SentTaken(sys: System) {
    SentBy(sys.sent, Alice, sys.alice.taken) && SentBy(sys.sent, Bob, sys.bob.taken)
  }

  /** A counter spent for no envelope, and for one. */
  lemma SpentForSent(sent: seq<Sent>, p: Party, taken: seq<Counter>, c: Counter, m: Sent)
    requires SentBy(sent, p, taken) && m.from == p && CounterOf(m) == c
    ensures SentBy(sent, p, taken + [c]) && SentBy(sent + [m], p, taken + [c])
  {
    OnceMore(taken, c);
    assert (taken + [c])[|taken|] == c;
  }

  lemma OthersSent(sent: seq<Sent>, p: Party, taken: seq<Counter>, m: Sent)
    requires SentBy(sent, p, taken) && m.from != p
    ensures SentBy(sent + [m], p, taken)
  {
  }

  lemma EndSentTaken(sys: System, p: Party, active: Option<Session>, body: seq<nat>, supply: Supply, now: int)
    requires SentTaken(sys)
    ensures SentTaken(EndStep(sys, p, active, body, supply, now))
  {
    var d := sys.Of(p);
    var prepared := Prepare(d.talk, d.sessions, active, supply, now);
    if prepared.session.Some? {
      var c := Counter(prepared.session.value.sessionId, prepared.session.value.sendCtr);
      var e := EncryptWith(d.talk, d.sessions, active, body, supply, now).result;
      SpentForSent(sys.sent, p, d.taken, c, Sent(p, Envelope(c.sessionId, c.ctr, Garbage(0), None), body));
      if e.Ok? {
        SpentForSent(sys.sent, p, d.taken, c, Sent(p, e.value, body));
        OthersSent(sys.sent, Other(p), sys.Of(Other(p)).taken, Sent(p, e.value, body));
      }
    }
  }

  lemma EndKeepsFit(sys: System, ev: Event)
    requires BothFit(sys) && Enabled(sys, ev) && ev.End?
    ensures BothFit(Step(sys, ev))
  {
    var d := sys.Of(ev.p);
    TabsV1Theorems.StepKeeps(sys, ev);
    EndFits(sys.origins, ev.p, d, d.held.value, ev.supply, ev.now);
    EndSentTaken(sys, ev.p, d.held.value, ev.body, ev.supply, ev.now);
    OthersFit(sys, Step(sys, ev), Other(ev.p));
  }

  lemma OthersFit(sys: System, sys': System, p: Party)
    requires CountersFit(sys.origins, sys.Of(p)) && sys'.Of(p) == sys.Of(p)
    requires forall id :: id in sys.origins ==> id in sys'.origins
    ensures CountersFit(sys'.origins, sys'.Of(p))
  {
  }

  /** What a step that seals nothing changes of the counters: it may write a session back, read one, or shred. */
  predicate ChangesQuietly(sys: System, ev: Event, sys': System) {
    var d, d', saved := sys.Of(ev.p), sys'.Of(ev.p), SavedBy(sys, ev);
    && sys'.sent == sys.sent && sys'.origins == sys.origins && sys'.Of(Other(ev.p)) == sys.Of(Other(ev.p))
    && d'.taken == d.taken
    && d'.sessions == (if ev.Shred? then map[] else if saved.Some? then d.Save(saved.value).sessions else d.sessions)
    && d'.held == (if ev.Begin? then Some(ev.active) else if ev.Fail? then None else d.held)
  }

  lemma ShowsQuietly(sys: System, p: Party, tab: TabId)
    requires Enabled(sys, Show(p, tab))
    ensures ChangesQuietly(sys, Show(p, tab), Step(sys, Show(p, tab)))
  {
  }

  lemma QuietDevice(sys: System, ev: Event)
    requires Enabled(sys, ev) && !ev.End?
    ensures ChangesQuietly(sys, ev, Step(sys, ev))
  {
    match ev
    case Show(p, tab) => ShowsQuietly(sys, p, tab);
    case _ =>
  }

  lemma QuietFits(sys: System, ev: Event)
    requires Enabled(sys, ev) && !ev.End? && !RollsBack(sys, ev) && CountersFit(sys.origins, sys.Of(ev.p))
    ensures CountersFit(sys.origins, Step(sys, ev).Of(ev.p))
  {
    QuietDevice(sys, ev);
  }

  lemma QuietSent(sys: System, sys': System)
    requires SentTaken(sys) && sys'.sent == sys.sent
    requires sys'.alice.taken == sys.alice.taken && sys'.bob.taken == sys.bob.taken
    ensures SentTaken(sys')
  {
  }

  /** A step that seals nothing spends nothing. */
  lemma QuietKeepsFit(sys: System, ev: Event)
    requires BothFit(sys) && Enabled(sys, ev) && !ev.End? && !RollsBack(sys, ev)
    ensures BothFit(Step(sys, ev))
  {
    TabsV1Theorems.StepKeeps(sys, ev);
    QuietFits(sys, ev);
    QuietDevice(sys, ev);
    OthersFit(sys, Step(sys, ev), Other(ev.p));
    QuietSent(sys, Step(sys, ev));
  }

  /**
   * Over any run of the tabs, if no decrypt ever writes back a session that is behind or ahead of what was spent: each
   * side spends each counter of a session once, none past 199, and its envelopes carry pairwise different counters.
   */
  lemma {:induction false} CountersDistinct(start: System, events: seq<Event>)
    requires IsFreshSystem(start) && Valid(start, events) && !EverRollsBack(start, events)
    ensures BothFit(Run(start, events))
    ensures var sys := Run(start, events);
            forall j, k :: 0 <= j < k < |sys.sent| && sys.sent[j].from == sys.sent[k].from ==>
              CounterOf(sys.sent[j]) != CounterOf(sys.sent[k]) && sys.sent[k].e.ctr < ROTATE_AFTER_MESSAGES
  {
    if events != [] {
      var before, ev := Run(start, events[..|events| - 1]), events[|events| - 1];
      CountersDistinct(start, events[..|events| - 1]);
      if ev.End? {
        EndKeepsFit(before, ev);
      } else {
        QuietKeepsFit(before, ev);
      }
    }
    InTurnIsOnce(Run(start, events).alice.taken);
    InTurnIsOnce(Run(start, events).bob.taken);
  }
}
