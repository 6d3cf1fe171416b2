/** What a v1 decrypt shows, in every state that two devices with their tabs can reach. */
module TabsV1Theorems {
  import opened Wrappers
  import opened SymbolicCrypto
  import opened Parties
  import opened Padding
  import opened SessionV1
  import opened ServiceV1
  import opened TabsV1
  import EnvelopeV2

  // -- The invariant -----------------------------------------------------------

  predicate Paired(sys: System) {
    sys.Me(Alice) != sys.Me(Bob) && sys.alice.talk.conversationId == sys.bob.talk.conversationId
  }

  /** The chain a party sends on. */
  function RootOf(o: Origin, p: Party): Secret {
    SessionChain(o.sk, if p == o.initiator then InitToResp else RespToInit)
  }

  /** Whoever holds this session holds one end of what was initiated under its id. */
  predicate SessionOk(origins: map<nat, Origin>, p: Party, s: Session) {
    && s.sessionId in origins
    && SendRoot(s) == RootOf(origins[s.sessionId], p) && ReceiveRoot(s) == RootOf(origins[s.sessionId], Other(p))
  }

  predicate CopyOk(sys: System, p: Party, c: Copy) {
    c.Loaded? ==>
      && c.k < |sys.sent|
      && (c.session.Some? ==>
            SessionOk(sys.origins, p, c.session.value) && c.session.value.sessionId == sys.sent[c.k].e.sessionId)
  }

  /** The sessions a device has stored and the one an encrypt holds are ends of what was initiated. */
  predicate SessionsOk(origins: map<nat, Origin>, p: Party, sessions: Sessions) {
    forall id :: id in sessions ==> sessions[id].sessionId == id && SessionOk(origins, p, sessions[id])
  }

  predicate StoreOk(origins: map<nat, Origin>, p: Party, d: Device) {
    && SessionsOk(origins, p, d.sessions)
    && (d.held.Some? && d.held.value.Some? ==> SessionOk(origins, p, d.held.value.value))
  }

  ghost predicate DeviceOk(sys: System, p: Party) {
    StoreOk(sys.origins, p, sys.Of(p)) && forall t: TabId :: CopyOk(sys, p, sys.Of(p).CopyOf(t))
  }

  /** A sent envelope is sealed on its sender's chain, and its init block leads the other side to the same session. */
  predicate SentOk(sys: System, m: Sent) {
    && m.e.sessionId in sys.origins && |m.body| <= MAX_BODY
    && (var o, d := sys.origins[m.e.sessionId], sys.Of(m.from);
        var key := SessionV1.MessageKey(RootOf(o, m.from), m.e.ctr);
        && m.e.ct == GcmEncrypt(CipherKey(key), CipherIv(key), Padded(m.body),
                                Ad(d.talk.conversationId, d.talk.me, m.e.sessionId, m.e.ctr))
        && (m.e.init.Some? ==>
              && m.from == o.initiator && m.e.init.value.spkId == sys.Of(Other(m.from)).talk.identity.spkId
              && ResponderSecret(sys.Of(Other(m.from)).talk.identity, m.e.init.value) == o.sk))
  }

  ghost predicate SystemInv(sys: System) {
    && Paired(sys) && DeviceOk(sys, Alice) && DeviceOk(sys, Bob)
    && (forall k :: 0 <= k < |sys.sent| ==> SentOk(sys, sys.sent[k]))
    && (forall i :: 0 <= i < |sys.shown| ==> ShownOk(sys, sys.shown[i]))
  }

  /** An answer is the sender's text or none. */
  predicate ShownOk(sys: System, a: Shown) {
    a.k < |sys.sent| && (a.text.Some? ==> a.text.value == sys.sent[a.k].body)
  }

  /** What was there stays: people, origins, envelopes. */
  predicate Grown(sys: System, sys': System) {
    && sys'.alice.talk == sys.alice.talk && sys'.bob.talk == sys.bob.talk
    && sys.sent <= sys'.sent
    && (forall id :: id in sys.origins ==> id in sys'.origins && sys'.origins[id] == sys.origins[id])
  }

  lemma CopyStays(sys: System, sys': System, p: Party, c: Copy)
    requires Grown(sys, sys') && CopyOk(sys, p, c)
    ensures CopyOk(sys', p, c)
  {
    if c.Loaded? {
      assert sys'.sent[c.k] == sys.sent[c.k];
    }
  }

  lemma DeviceStays(sys: System, sys': System, p: Party)
    requires Grown(sys, sys') && DeviceOk(sys, p) && sys'.Of(p) == sys.Of(p)
    ensures DeviceOk(sys', p)
  {
    forall t: TabId
      ensures CopyOk(sys', p, sys'.Of(p).CopyOf(t))
    {
      CopyStays(sys, sys', p, sys.Of(p).CopyOf(t));
    }
  }

  lemma SentStays(sys: System, sys': System, m: Sent)
    requires Grown(sys, sys') && SentOk(sys, m)
    ensures SentOk(sys', m)
  {
  }

  /** The side that moved is in order, the new envelopes and answers are; then everything is. */
  lemma Assembled(sys: System, sys': System, p: Party)
    requires SystemInv(sys) && Grown(sys, sys') && sys'.Of(Other(p)) == sys.Of(Other(p)) && DeviceOk(sys', p)
    requires forall k :: |sys.sent| <= k < |sys'.sent| ==> SentOk(sys', sys'.sent[k])
    requires sys.shown <= sys'.shown
    requires forall i :: |sys.shown| <= i < |sys'.shown| ==> ShownOk(sys', sys'.shown[i])
    ensures SystemInv(sys')
  {
    DeviceStays(sys, sys', Other(p));
    forall k | 0 <= k < |sys'.sent|
      ensures SentOk(sys', sys'.sent[k])
    {
      if k < |sys.sent| {
        assert sys'.sent[k] == sys.sent[k];
        SentStays(sys, sys', sys.sent[k]);
      }
    }
    forall i | 0 <= i < |sys'.shown|
      ensures ShownOk(sys', sys'.shown[i])
    {
      if i < |sys.shown| {
        assert sys'.shown[i] == sys.shown[i] && ShownOk(sys, sys.shown[i]);
      }
    }
  }

  // -- Steps -------------------------------------------------------------------

  /** A step of one device that leaves its copies alone. */
  lemma StoreMoves(sys: System, sys': System, p: Party)
    requires SystemInv(sys) && Grown(sys, sys') && StoreOk(sys'.origins, p, sys'.Of(p))
    requires sys'.Of(p).copies == sys.Of(p).copies
    ensures DeviceOk(sys', p)
  {
    forall t: TabId
      ensures CopyOk(sys', p, sys'.Of(p).CopyOf(t))
    {
      CopyStays(sys, sys', p, sys.Of(p).CopyOf(t));
    }
  }

  /** A step of one tab: its copy is a new one, it may have saved a session, and it may have answered. */
  lemma TabMoves(sys: System, sys': System, p: Party, tab: TabId, c: Copy, saved: Option<Session>)
    requires SystemInv(sys) && CopyOk(sys, p, c) && (saved.Some? ==> SessionOk(sys.origins, p, saved.value))
    requires sys' == sys.With(p,
                              (if saved.Some? then sys.Of(p).Save(saved.value)
                               else sys.Of(p)).WithCopy(tab, c)).(shown := sys'.shown)
    requires sys.shown <= sys'.shown
    requires forall i :: |sys.shown| <= i < |sys'.shown| ==> ShownOk(sys, sys'.shown[i])
    ensures SystemInv(sys') && Grown(sys, sys')
  {
    forall t: TabId
      ensures CopyOk(sys', p, sys'.Of(p).CopyOf(t))
    {
      assert CopyOk(sys, p, sys.Of(p).CopyOf(t));
      CopyStays(sys, sys', p, sys'.Of(p).CopyOf(t));
    }
    Assembled(sys, sys', p);
  }

  /** A new session's init block leads the peer to it. */
  lemma InitLeads(sys: System, p: Party, supply: Supply)
    requires supply.bundle == EnvelopeV2.BundleOf(sys.Of(Other(p)).talk.identity)
    ensures var init := EnvelopeV2.InitBlock(supply.ek, sys.Of(p).talk.identity.x, supply.bundle.spkId);
            && init.spkId == sys.Of(Other(p)).talk.identity.spkId
            && ResponderSecret(sys.Of(Other(p)).talk.identity, init)
               == InitiatorSecret(sys.Of(p).talk.identity, supply.ek, supply.bundle)
  {
    AcceptedAgrees(sys.Of(p).talk.identity, supply.ek, supply.bundle, sys.Of(Other(p)).talk.identity);
  }

  lemma SavedOk(origins: map<nat, Origin>, p: Party, sessions: Sessions, s: Session)
    requires SessionsOk(origins, p, sessions) && SessionOk(origins, p, s)
    ensures SessionsOk(origins, p, sessions[s.sessionId := s])
  {
  }

  lemma SessionsStay(origins: map<nat, Origin>, id: nat, o: Origin, p: Party, sessions: Sessions)
    requires SessionsOk(origins, p, sessions) && id !in origins
    ensures SessionsOk(origins[id := o], p, sessions)
  {
  }

  /** The session that an encrypt goes on with, old or new. */
  lemma PreparedOk(origins: map<nat, Origin>, p: Party, d: Device, active: Option<Session>, supply: Supply, now: int)
    requires SessionsOk(origins, p, d.sessions) && supply.sessionId !in origins
    requires active.Some? ==> SessionOk(origins, p, active.value)
    ensures var prepared := Prepare(d.talk, d.sessions, active, supply, now);
            var origins' := Originated(origins, p, d.talk, prepared, supply);
            && SessionsOk(origins', p, prepared.sessions)
            && (prepared.session.Some? ==> SessionOk(origins', p, prepared.session.value))
            && (prepared.init.Some? ==>
                  prepared.session.Some? && origins'[prepared.session.value.sessionId].initiator == p)
  {
    if active.None? || NeedsRotation(active.value, now) {
      var retired := d.sessions;
      if active.Some? {
        SavedOk(origins, p, d.sessions, active.value.(retiredAt := Some(now)));
        retired := d.sessions[active.value.sessionId := active.value.(retiredAt := Some(now))];
      }
      SessionsStay(origins, supply.sessionId, Origin(p, InitiatorSecret(d.talk.identity, supply.ek, supply.bundle)), p,
                   retired);
    }
  }

  /** What the end of an encrypt leaves on its device. */
  lemma EndedOk(origins: map<nat, Origin>, p: Party, d: Device, prepared: Prepared)
    requires SessionsOk(origins, p, prepared.sessions)
    requires prepared.session.Some? ==> SessionOk(origins, p, prepared.session.value)
    ensures StoreOk(origins, p, Ended(d, prepared))
  {
    if prepared.session.Some? {
      var s := prepared.session.value;
      SavedOk(origins, p, prepared.sessions, s.(sendCtr := s.sendCtr + 1));
    }
  }

  lemma EndStore(sys: System, p: Party, active: Option<Session>, body: seq<nat>, supply: Supply, now: int)
    requires SessionsOk(sys.origins, p, sys.Of(p).sessions) && supply.sessionId !in sys.origins
    requires active.Some? ==> SessionOk(sys.origins, p, active.value)
    ensures var sys' := EndStep(sys, p, active, body, supply, now);
            StoreOk(sys'.origins, p, sys'.Of(p))
  {
    var d := sys.Of(p);
    var prepared := Prepare(d.talk, d.sessions, active, supply, now);
    PreparedOk(sys.origins, p, d, active, supply, now);
    EndedOk(Originated(sys.origins, p, d.talk, prepared, supply), p, d, prepared);
  }

  /** The envelope it seals. */
  lemma EndSent(sys: System, p: Party, active: Option<Session>, body: seq<nat>, supply: Supply, now: int)
    requires Paired(sys) && supply.sessionId !in sys.origins && StoreOk(sys.origins, p, sys.Of(p))
    requires active.Some? ==> SessionOk(sys.origins, p, active.value)
    requires supply.bundle.signed ==> supply.bundle == EnvelopeV2.BundleOf(sys.Of(Other(p)).talk.identity)
    ensures var sys' := EndStep(sys, p, active, body, supply, now);
            sys'.sent == sys.sent || (|sys'.sent| == |sys.sent| + 1 && SentOk(sys', sys'.sent[|sys.sent|]))
  {
    PreparedOk(sys.origins, p, sys.Of(p), active, supply, now);
    if supply.bundle.signed {
      InitLeads(sys, p, supply);
    }
  }

  lemma EndKeeps(sys: System, p: Party, body: seq<nat>, supply: Supply, now: int)
    requires SystemInv(sys) && Enabled(sys, End(p, body, supply, now))
    ensures SystemInv(Step(sys, End(p, body, supply, now))) && Grown(sys, Step(sys, End(p, body, supply, now)))
  {
    var active, sys' := sys.Of(p).held.value, Step(sys, End(p, body, supply, now));
    EndStore(sys, p, active, body, supply, now);
    EndSent(sys, p, active, body, supply, now);
    StoreMoves(sys, sys', p);
    Assembled(sys, sys', p);
  }

  /** What the peer's init block makes is the other end. */
  lemma AcceptedOk(sys: System, p: Party, k: nat, now: int)
    requires SystemInv(sys) && k < |sys.sent| && sys.sent[k].from != p && sys.sent[k].e.init.Some?
    ensures var accepted := Accepted(sys, p, k, now);
            accepted.Ok? && SessionOk(sys.origins, p, accepted.value)
            && accepted.value.sessionId == sys.sent[k].e.sessionId
  {
    assert SentOk(sys, sys.sent[k]);
  }

  lemma AcceptKeeps(sys: System, p: Party, tab: TabId, now: int)
    requires SystemInv(sys) && Enabled(sys, Accept(p, tab, now))
    ensures SystemInv(Step(sys, Accept(p, tab, now))) && Grown(sys, Step(sys, Accept(p, tab, now)))
  {
    var k := sys.Of(p).CopyOf(tab).k;
    AcceptedOk(sys, p, k, now);
    var s := Accepted(sys, p, k, now).value;
    TabMoves(sys, Step(sys, Accept(p, tab, now)), p, tab, Loaded(k, Some(s)), Some(s));
  }

  /**
   * Either end opens every envelope of its session: the peer's with the receiving chain, its own with the sending one.
   */
  lemma Opens(sys: System, p: Party, k: nat, s: Session)
    requires SystemInv(sys) && k < |sys.sent| && SessionOk(sys.origins, p, s) && s.sessionId == sys.sent[k].e.sessionId
    ensures TextShown(sys, p, k, s) == Some(sys.sent[k].body)
  {
    assert SentOk(sys, sys.sent[k]);
    UnpadPad(sys.sent[k].body);
  }

  lemma ShowKeeps(sys: System, p: Party, tab: TabId)
    requires SystemInv(sys) && Enabled(sys, Show(p, tab))
    ensures SystemInv(Step(sys, Show(p, tab))) && Grown(sys, Step(sys, Show(p, tab)))
  {
    var c := sys.Of(p).CopyOf(tab);
    assert CopyOk(sys, p, c);
    if c.session.Some? {
      Opens(sys, p, c.k, c.session.value);
      TabMoves(sys, Step(sys, Show(p, tab)), p, tab, NoCopy, Remembered(sys, p, c.k, c.session.value));
    } else {
      TabMoves(sys, Step(sys, Show(p, tab)), p, tab, NoCopy, None);
    }
  }

  lemma LoadKeeps(sys: System, p: Party, tab: TabId, k: nat)
    requires SystemInv(sys) && Enabled(sys, Load(p, tab, k))
    ensures SystemInv(Step(sys, Load(p, tab, k))) && Grown(sys, Step(sys, Load(p, tab, k)))
  {
    TabMoves(sys, Step(sys, Load(p, tab, k)), p, tab, Step(sys, Load(p, tab, k)).Of(p).CopyOf(tab), None);
  }

  lemma LockKeeps(sys: System, ev: Event)
    requires SystemInv(sys) && Enabled(sys, ev) && (ev.Begin? || ev.Fail? || ev.Shred?)
    ensures SystemInv(Step(sys, ev)) && Grown(sys, Step(sys, ev))
  {
    StoreMoves(sys, Step(sys, ev), ev.p);
    Assembled(sys, Step(sys, ev), ev.p);
  }

  lemma StepKeeps(sys: System, ev: Event)
    requires SystemInv(sys) && Enabled(sys, ev)
    ensures SystemInv(Step(sys, ev)) && Grown(sys, Step(sys, ev))
  {
    match ev
    case End(p, body, supply, now) => EndKeeps(sys, p, body, supply, now);
    case Accept(p, tab, now) => AcceptKeeps(sys, p, tab, now);
    case Show(p, tab) => ShowKeeps(sys, p, tab);
    case Load(p, tab, k) => LoadKeeps(sys, p, tab, k);
    case Close(p, tab) => TabMoves(sys, Step(sys, ev), p, tab, NoCopy, None);
    case _ => LockKeeps(sys, ev);
  }

  lemma {:induction false} RunKeeps(start: System, events: seq<Event>)
    requires SystemInv(start) && Valid(start, events)
    ensures SystemInv(Run(start, events)) && Grown(start, Run(start, events))
  {
    if events != [] {
      RunKeeps(start, events[..|events| - 1]);
      StepKeeps(Run(start, events[..|events| - 1]), events[|events| - 1]);
    }
  }

  lemma ReachableHolds(sys: System)
    requires Reachable(sys)
    ensures SystemInv(sys)
  {
    var start, events :| IsFreshSystem(start) && Valid(start, events) && sys == Run(start, events);
    RunKeeps(start, events);
  }

  // -- Theorems ----------------------------------------------------------------

  /**
   * In every reachable state, whatever was sent, lost, repeated, overtaken or shredded: decrypt shows an envelope of
   * either side, as the text that was given to encrypt, exactly when its session is stored, or it is the peer's and
   * carries the init block. Otherwise it shows nothing.
   */
  lemma DecryptShows(sys: System, p: Party, k: nat, now: int)
    requires Reachable(sys) && k < |sys.sent|
    ensures var d, m := sys.Of(p), sys.sent[k];
            DecryptWith(d.talk, d.sessions, sys.Me(m.from), m.e, now).text ==
              if m.e.sessionId in d.sessions || (m.from != p && m.e.init.Some?) then Some(m.body) else None
  {
    ReachableHolds(sys);
    var d, m := sys.Of(p), sys.sent[k];
    if m.e.sessionId in d.sessions {
      Opens(sys, p, k, d.sessions[m.e.sessionId]);
    } else if m.from != p && m.e.init.Some? {
      AcceptedOk(sys, p, k, now);
      Opens(sys, p, k, Accepted(sys, p, k, now).value);
    }
  }

  /** Whatever decrypt ever answered for an envelope, through stale copies as well, is its sender's text or nothing. */
  lemma TextsAreTheSenders(sys: System, a: Shown)
    requires Reachable(sys) && a in sys.shown && a.text.Some?
    ensures a.k < |sys.sent| && a.text.value == sys.sent[a.k].body
  {
    ReachableHolds(sys);
    var i :| 0 <= i < |sys.shown| && sys.shown[i] == a;
    assert ShownOk(sys, sys.shown[i]);
  }

  lemma ShowIs(sys: System, p: Party, tab: TabId, k: nat, s: Session)
    requires k < |sys.sent| && sys.Of(p).CopyOf(tab) == Loaded(k, Some(s))
    ensures var sys', text, saved := Step(sys, Show(p, tab)), TextShown(sys, p, k, s), Remembered(sys, p, k, s);
            && sys'.shown == sys.shown + [Shown(k, text)] && sys'.Of(p).CopyOf(tab).NoCopy?
            && sys'.Of(p).sessions == if saved.Some? then sys.Of(p).Save(saved.value).sessions else sys.Of(p).sessions
  {
  }

  lemma AcceptIs(sys: System, p: Party, tab: TabId, now: int)
    requires ToAccept(sys, p, sys.Of(p).CopyOf(tab))
    ensures var sys', k := Step(sys, Accept(p, tab, now)), sys.Of(p).CopyOf(tab).k;
            match Accepted(sys, p, k, now)
            case Ok(s) =>
              && sys'.Of(p).CopyOf(tab) == Loaded(k, Some(s)) && sys'.Of(p).sessions == sys.Of(p).Save(s).sessions
              && sys'.Of(p).talk == sys.Of(p).talk && sys'.sent == sys.sent && sys'.shown == sys.shown
              && (forall q :: sys'.Me(q) == sys.Me(q))
            case Err(_) =>
              && sys'.Of(p).CopyOf(tab).NoCopy? && sys'.Of(p).sessions == sys.Of(p).sessions
              && sys'.shown == sys.shown + [Shown(k, None)]
  {
  }

  /** The states of one tab's decrypt when nobody comes between its read and its writes. */
  function Undisturbed(sys: System, p: Party, tab: TabId, k: nat, now: int): System {
    var loaded := Step(sys, Load(p, tab, k));
    var ready := if ToAccept(loaded, p, loaded.Of(p).CopyOf(tab)) then Step(loaded, Accept(p, tab, now)) else loaded;
    if ready.Of(p).CopyOf(tab).Loaded? then Step(ready, Show(p, tab)) else ready
  }

  /** A whole decrypt is what one tab's read and writes do when nobody comes between. */
  lemma DecryptIsUninterrupted(sys: System, p: Party, tab: TabId, k: nat, now: int)
    requires Paired(sys) && OwnIds(sys.Of(p).sessions) && k < |sys.sent|
    ensures var sys', m := Undisturbed(sys, p, tab, k, now), sys.sent[k];
            var whole := DecryptWith(sys.Of(p).talk, sys.Of(p).sessions, sys.Me(m.from), m.e, now);
            && sys'.shown == sys.shown + [Shown(k, whole.text)] && sys'.Of(p).CopyOf(tab).NoCopy?
            && sys'.Of(p).sessions == whole.sessions
  {
    var id, loaded := sys.sent[k].e.sessionId, Step(sys, Load(p, tab, k));
    if id in sys.Of(p).sessions {
      var s := sys.Of(p).sessions[id];
      ShowIs(loaded, p, tab, k, s);
      assert sys.Of(p).sessions[id := s] == sys.Of(p).sessions;
    } else if ToAccept(loaded, p, loaded.Of(p).CopyOf(tab)) {
      AcceptUndisturbed(sys, p, tab, k, now);
    }
  }

  lemma AcceptUndisturbed(sys: System, p: Party, tab: TabId, k: nat, now: int)
    requires Paired(sys) && k < |sys.sent| && sys.sent[k].e.sessionId !in sys.Of(p).sessions
    requires ToAccept(sys, p, Loaded(k, None))
    ensures var sys', m := Undisturbed(sys, p, tab, k, now), sys.sent[k];
            var whole := DecryptWith(sys.Of(p).talk, sys.Of(p).sessions, sys.Me(m.from), m.e, now);
            && sys'.shown == sys.shown + [Shown(k, whole.text)] && sys'.Of(p).CopyOf(tab).NoCopy?
            && sys'.Of(p).sessions == whole.sessions
  {
    var loaded := Step(sys, Load(p, tab, k));
    AcceptIs(loaded, p, tab, now);
    if Accepted(loaded, p, k, now).Ok? {
      ShowIs(Step(loaded, Accept(p, tab, now)), p, tab, k, Accepted(loaded, p, k, now).value);
    }
  }

  // -- After shredding ---------------------------------------------------------

  lemma StepReaches(sys: System, ev: Event)
    requires Reachable(sys) && Enabled(sys, ev)
    ensures Reachable(Step(sys, ev))
  {
    var start, events :| IsFreshSystem(start) && Valid(start, events) && sys == Run(start, events);
    var more := Extended(start, events, ev);
  }

  /** On a device that has shredded, exactly the peer's envelopes with an init block open again, and none of its own. */
  lemma OpensAgainExactlyWhen(sys: System, p: Party, k: nat, now: int)
    requires Reachable(sys) && Enabled(sys, Shred(p)) && k < |sys.sent|
    ensures var d, m := Step(sys, Shred(p)).Of(p), sys.sent[k];
            DecryptWith(d.talk, d.sessions, sys.Me(m.from), m.e, now).text ==
              if m.from != p && m.e.init.Some? then Some(m.body) else None
  {
    StepReaches(sys, Shred(p));
    DecryptShows(Step(sys, Shred(p)), p, k, now);
  }

  /** What a tab leaves that read a session before the shredding and answers after it. */
  function ShownAfterShredding(sys: System, p: Party, tab: TabId): System {
    Step(Step(sys, Shred(p)), Show(p, tab))
  }

  /** The shredding leaves tabs, people and envelopes alone. */
  lemma ShreddedIs(sys: System, p: Party, k: nat, s: Session)
    requires k < |sys.sent|
    ensures var sys' := Step(sys, Shred(p));
            && sys'.Of(p) == sys.Of(p).(sessions := map[]) && sys'.sent == sys.sent && sys'.origins == sys.origins
            && Remembered(sys', p, k, s) == Remembered(sys, p, k, s)
  {
  }

  lemma SessionsRestored(sys: System, p: Party, tab: TabId, k: nat, s: Session)
    requires k < |sys.sent| && sys.Of(p).CopyOf(tab) == Loaded(k, Some(s))
    ensures var sys', restored := ShownAfterShredding(sys, p, tab), Remembered(sys, p, k, s);
            && sys'.sent == sys.sent
            && sys'.Of(p).sessions == if restored.Some? then map[s.sessionId := restored.value] else map[]
  {
    ShreddedIs(sys, p, k, s);
    ShowIs(Step(sys, Shred(p)), p, tab, k, s);
  }

  /**
   * A tab that read a session before the shredding brings it back if its answer writes the copy: then every envelope of
   * that session opens again, of either side; and otherwise exactly the peer's with an init block.
   */
  lemma StaleCopyRestoresExactlyWhen(sys: System, p: Party, tab: TabId, k: nat, now: int)
    requires Reachable(sys) && Enabled(sys, Shred(p)) && k < |sys.sent|
    requires sys.Of(p).CopyOf(tab).Loaded? && sys.Of(p).CopyOf(tab).session.Some?
    ensures var c, m := sys.Of(p).CopyOf(tab), sys.sent[k];
            && c.k < |sys.sent|
            && var sys', restored := ShownAfterShredding(sys, p, tab), Remembered(sys, p, c.k, c.session.value).Some?;
            DecryptWith(sys'.Of(p).talk, sys'.Of(p).sessions, sys'.Me(m.from), m.e, now).text ==
              if (restored && m.e.sessionId == sys.sent[c.k].e.sessionId) || (m.from != p && m.e.init.Some?)
              then Some(m.body) else None
  {
    var c := sys.Of(p).CopyOf(tab);
    ReachableHolds(sys);
    assert CopyOk(sys, p, c);
    SessionsRestored(sys, p, tab, c.k, c.session.value);
    RestoredReaches(sys, p, tab);
    DecryptShows(ShownAfterShredding(sys, p, tab), p, k, now);
  }

  lemma RestoredReaches(sys: System, p: Party, tab: TabId)
    requires Reachable(sys) && Enabled(sys, Shred(p))
    requires sys.Of(p).CopyOf(tab).Loaded? && sys.Of(p).CopyOf(tab).session.Some?
    ensures Reachable(ShownAfterShredding(sys, p, tab))
  {
    StepReaches(sys, Shred(p));
    StepReaches(Step(sys, Shred(p)), Show(p, tab));
  }
}
