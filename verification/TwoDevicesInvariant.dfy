/**
 * Every move of the two devices keeps every session in step with its ratchet run.
 *
 * For one session: a move that seals or opens extends the run by one event (SendLine, FirstSendLine, ReceiveLine).
 * For all sessions: the worked session takes its longer run, every other keeps its own (SendLines, ReceiveLines).
 * For the tabs: what a tab has loaded still exists, and what it is about to open was sealed (LoadedTo..., OtherTabs).
 * MoveKeeps puts the three together.
 */
module TwoDevicesInvariant {
  import opened Wrappers
  import opened SymbolicCrypto
  import opened Parties
  import opened DoubleRatchet
  import opened EnvelopeV2
  import opened Vault
  import opened Device
  import opened DeviceInvariant
  import opened DeviceTheorems
  import opened DeviceCounters
  import opened TwoDevices
  import opened TwoDevicesSteps
  import R = RatchetRun
  import Reach = RatchetReach

  lemma DeviceStep(d: Device, ev: Event)
    requires DeviceOk(d) && Enabled(d, ev) && !ev.Shred?
    ensures DeviceOk(Step(d, ev))
  {
    StepKeeps(d, ev);
    StepKept(d, ev);
    StepStays(d, ev);
    if ev.Finish? {
      assert TabOk(d, d.TabOf(ev.tab));
    }
    StepCounters(d, ev);
  }

  /** A committed session loads, under its own id; an absent one is missing. */
  lemma LoadsOwn(d: Device, id: nat)
    requires StoreOk(d)
    ensures !LoadRatchet(d.store, id).Unreadable?
    ensures LoadRatchet(d.store, id).Found? <==> id in d.store.ratchets
    ensures LoadRatchet(d.store, id).Found? ==> LoadRatchet(d.store, id).session.sessionId == id && id in d.seen
  {
  }

  // -- Sessions nobody worked on -----------------------------------------------

  lemma LineOkFrame(sys: System, sys': System, worlds: map<nat, R.World>, p: Party, id: nat)
    requires StoreOk(sys.Of(p)) && LineOk(sys, worlds, p, id)
    requires SameSession(sys.alice, sys'.alice, id) && SameSession(sys.bob, sys'.bob, id) && sys.used <= sys'.used
    ensures LineOk(sys', worlds, p, id)
  {
    if Initiated(sys, p, id) {
      LineFrame(sys, sys', p, id, worlds[id]);
    }
  }

  // -- One session after its run went on ---------------------------------------

  function RoleOf(p: Party, initiator: Party): R.Role {
    if p == initiator then R.Initiator else R.Responder
  }

  lemma SendEnds(i: Device, r: Device, id: nat, b: R.Side, t: TabId, text: string, session: RatchetSession, newDek: nat)
    requires DeviceInv(i) && i.TabOf(t) == Ready(SendJob(text), session) && session.sessionId == id
    requires LoadRatchet(i.store, id) == Found(session) && Ends(i, r, id, b)
    ensures Ends(FinishSend(i, t, text, session, newDek), r, id, b)
  {
    SealStore(i, t, text, session, newDek);
  }

  lemma ReplyEnds(i: Device, r: Device, id: nat, b: R.Side, b': R.Side, t: TabId, text: string, session: RatchetSession,
                  newDek: nat)
    requires DeviceInv(r) && r.TabOf(t) == Ready(SendJob(text), session) && session.sessionId == id
    requires LoadRatchet(r.store, id) == Found(session) && Ends(i, r, id, b)
    ensures Ends(i, FinishSend(r, t, text, session, newDek), id, b')
  {
    SealStore(r, t, text, session, newDek);
  }

  lemma Assemble(sys: System, p: Party, initiator: Party, id: nat, w: R.World)
    requires Reach.Reachable(w) && w.used <= sys.used
    requires Ends(sys.Of(initiator), sys.Of(Other(initiator)), id, w.b)
    requires SideIs(sys.Of(p), id, w.Of(RoleOf(p, initiator)))
    requires SideIs(sys.Of(Other(p)), id, w.Of(R.Peer(RoleOf(p, initiator))))
    ensures Line(sys, initiator, id, w)
  {
  }

  /** A send as a step of the run. */
  lemma RunSends(w: R.World, role: R.Role, text: string, ad: AssociatedData) returns (w': R.World)
    requires Reach.Reachable(w)
    ensures Reach.Reachable(w') && w'.used == w.used
    ensures w'.Of(role) == R.SendStep(w.Of(role), text, ad) && w'.Of(R.Peer(role)) == w.Of(R.Peer(role))
  {
    var ev := R.Send(role, text, ad);
    w' := R.Step(w, ev);
    ReachStep(w, ev);
  }

  lemma SendLine(sys: System, sys': System, p: Party, initiator: Party, w: R.World, t: TabId, text: string,
                 session: RatchetSession, newDek: nat)
      returns (w': R.World)
    requires Paired(sys) && DeviceInv(sys.Of(p)) && sys.Of(p).TabOf(t) == Ready(SendJob(text), session)
             && sys.used <= sys'.used
    requires LoadRatchet(sys.Of(p).store, session.sessionId) == Found(session)
             && Line(sys, initiator, session.sessionId, w)
    requires sys'.Of(p) == FinishSend(sys.Of(p), t, text, session, newDek) && sys'.Of(Other(p)) == sys.Of(Other(p))
    ensures Line(sys', initiator, session.sessionId, w')
  {
    var d, peer, id := sys.Of(p), sys.Of(Other(p)), session.sessionId;
    var role := RoleOf(p, initiator);
    var ad := EnvelopeV2.Aad(d.conversationId, d.me, id, session.sendTotal);
    w' := RunSends(w, role, text, ad);
    StoredFits(d, session, w.Of(role));
    SealStep(d, t, text, session, newDek, w.Of(role));
    if p == initiator {
      SendEnds(d, peer, id, w.b, t, text, session, newDek);
    } else {
      ReplyEnds(peer, d, id, w.b, w'.b, t, text, session, newDek);
    }
    Assemble(sys', p, initiator, id, w');
  }

  /** A session that nobody has committed has neither envelopes nor texts. */
  lemma NothingThere(d: Device, id: nat, st: RatchetState)
    requires StoreOk(d) && SealedStays(d) && LoadRatchet(d.store, id).Missing?
    ensures SideIs(d, id, R.SideInit(st))
  {
  }

  /** The first send of a new session starts its run. */
  lemma FirstSendLine(sys: System, sys': System, p: Party, t: TabId, text: string, session: RatchetSession, newDek: nat)
      returns (w': R.World)
    requires Paired(sys) && sys.used <= sys'.used
    requires DeviceInv(sys.Of(p)) && SealedStays(sys.Of(p)) && StoreOk(sys.Of(Other(p)))
             && SealedStays(sys.Of(Other(p)))
    requires sys.Of(p).TabOf(t) == Ready(SendJob(text), session)
    requires LoadRatchet(sys.Of(p).store, session.sessionId).Missing? && NewSession(sys, p, session)
    requires sys'.Of(p) == FinishSend(sys.Of(p), t, text, session, newDek) && sys'.Of(Other(p)) == sys.Of(Other(p))
    ensures Line(sys', p, session.sessionId, w')
  {
    var d, peer, id := sys.Of(p), sys.Of(Other(p)), session.sessionId;
    var ek, firstKey, now :|
      && StartInitiator(d.conversationId, d.peer, d.identity, BundleOf(peer.identity), id, ek, firstKey, now)
           == Ok(session)
      && firstKey in sys.used && firstKey !in IdentityKeys(d.identity) + IdentityKeys(peer.identity);
    var setup := R.Setup(InitiatorSecret(d.identity, ek, BundleOf(peer.identity)), peer.identity.spk, firstKey,
                         {firstKey, d.identity.x, peer.identity.spk});
    ReachStart(setup);
    var w := R.Start(setup);
    var ad := EnvelopeV2.Aad(d.conversationId, d.me, id, session.sendTotal);
    w' := RunSends(w, R.Initiator, text, ad);
    NewFits(d, session, w.a.st);
    SealStep(d, t, text, session, newDek, w.a);
    LoadsOwn(peer, id);
    NothingThere(peer, id, w.b.st);
    FirstEnds(d, peer, w.b, t, text, session, newDek, ek, firstKey, now);
    Assemble(sys', p, p, id, w');
  }

  lemma FirstEnds(d: Device, peer: Device, b: R.Side, t: TabId, text: string, session: RatchetSession, newDek: nat,
                  ek: KeyId, firstKey: KeyId, now: int)
    requires DeviceInv(d) && d.TabOf(t) == Ready(SendJob(text), session)
    requires LoadRatchet(d.store, session.sessionId).Missing? && LoadRatchet(peer.store, session.sessionId).Missing?
    requires StartInitiator(d.conversationId, d.peer, d.identity, BundleOf(peer.identity), session.sessionId, ek,
                            firstKey, now) == Ok(session)
    requires b == R.SideInit(InitResponder(InitiatorSecret(d.identity, ek, BundleOf(peer.identity)), peer.identity.spk))
    ensures Ends(FinishSend(d, t, text, session, newDek), peer, session.sessionId, b)
  {
    SealStore(d, t, text, session, newDek);
    SecretsAgree(d.identity, peer.identity, ek);
    assert TabOk(d, d.TabOf(t));
    assert !HasSealed(d.sealed, session.sessionId);
  }

  /** The peer's envelope is in the run's pool, and the peer still has the session. */
  lemma Offered(sys: System, p: Party, initiator: Party, id: nat, w: R.World, e: Envelope)
    requires HasEnvelope(sys.Of(Other(p)).sealed, e) && e.sessionId == id && Line(sys, initiator, id, w)
    requires SealedStays(sys.Of(Other(p)))
    ensures R.InPool(w, e.ct) && LoadRatchet(sys.Of(Other(p)).store, id).Found?
  {
    var d := sys.Of(Other(p));
    var a :| a in d.sealed && a.envelope == e;
    var f := FrameOf(d.conversationId, a);
    var sent := w.Of(RoleOf(Other(p), initiator)).sent;
    assert SentIs(d, id, sent);
    assert f in sent;
    var k :| 0 <= k < |sent| && sent[k] == f;
  }

  lemma ReceiveEnds(sys: System, p: Party, initiator: Party, id: nat, b: R.Side, b': R.Side, t: TabId, e: Envelope,
                    session: RatchetSession,
                    now: int, newKey: KeyId, newDek: nat)
    requires DeviceInv(sys.Of(p)) && sys.Of(p).TabOf(t) == Ready(ReceiveJob(sys.Of(p).peer, e), session)
             && session.sessionId == id
    requires OpenV2(session, sys.Of(p).peer, e, now, newKey).Ok?
    requires Ends(sys.Of(initiator), sys.Of(Other(initiator)), id, b) && LoadRatchet(sys.Of(Other(p)).store, id).Found?
    requires LoadRatchet(sys.Of(p).store, id) == Found(session) || (p != initiator && !session.initiator)
    requires p == initiator ==> b' == b
    ensures var d' := FinishReceive(sys.Of(p), t, sys.Of(p).peer, e, session, now, newKey, newDek);
            if p == initiator then Ends(d', sys.Of(Other(p)), id, b') else Ends(sys.Of(Other(p)), d', id, b')
  {
    OpenStore(sys.Of(p), t, e, session, now, newKey, newDek);
  }

  /** An accepted delivery as a step of the run. */
  lemma RunReceives(w: R.World, role: R.Role, message: RatchetMessage, ad: AssociatedData, now: int, newKey: KeyId)
      returns (w': R.World)
    requires Reach.Reachable(w) && R.InPool(w, message.ciphertext) && newKey !in w.used
    ensures Reach.Reachable(w') && w'.used == w.used + {newKey}
    ensures w'.Of(role) == R.DeliverStep(w.Of(role), message, ad, now, newKey)
            && w'.Of(R.Peer(role)) == w.Of(R.Peer(role))
  {
    var ev := R.Deliver(role, message, ad, now, newKey);
    w' := R.Step(w, ev);
    ReachStep(w, ev);
  }

  lemma ReceiveLine(sys: System, sys': System, p: Party, initiator: Party, w: R.World, t: TabId, e: Envelope,
                    session: RatchetSession,
                    now: int, newKey: KeyId, newDek: nat) returns (w': R.World)
    requires DeviceInv(sys.Of(p)) && SealedStays(sys.Of(Other(p))) && sys.used + {newKey} <= sys'.used
             && newKey !in sys.used
    requires sys.Of(p).TabOf(t) == Ready(ReceiveJob(sys.Of(p).peer, e), session)
             && OpenV2(session, sys.Of(p).peer, e, now, newKey).Ok?
    requires HasEnvelope(sys.Of(Other(p)).sealed, e) && Line(sys, initiator, session.sessionId, w)
    requires SideFits(sys.Of(p), session, w.Of(RoleOf(p, initiator)))
    requires LoadRatchet(sys.Of(p).store, session.sessionId) == Found(session) || (p != initiator && !session.initiator)
    requires sys'.Of(p) == FinishReceive(sys.Of(p), t, sys.Of(p).peer, e, session, now, newKey, newDek)
    requires sys'.Of(Other(p)) == sys.Of(Other(p))
    ensures Line(sys', initiator, session.sessionId, w')
  {
    var d, role := sys.Of(p), RoleOf(p, initiator);
    var ad := EnvelopeV2.Aad(d.conversationId, d.peer, e.sessionId, e.ctr);
    assert TabOk(d, d.TabOf(t));
    Offered(sys, p, initiator, session.sessionId, w, e);
    w' := RunReceives(w, role, Message(e), ad, now, newKey);
    OpenStep(d, t, e, session, now, newKey, newDek, w.Of(role));
    ReceiveEnds(sys, p, initiator, session.sessionId, w.b, w'.b, t, e, session, now, newKey, newDek);
    Assemble(sys', p, initiator, session.sessionId, w');
  }

  /** A responder started from an honest init block stands where the run's responder stands. */
  lemma StartedFits(sys: System, worlds: map<nat, R.World>, p: Party, e: Envelope, session: RatchetSession)
    requires StoreOk(sys.Of(p)) && SealedStays(sys.Of(p)) && StoreOk(sys.Of(Other(p))) && SealedStays(sys.Of(Other(p)))
    requires LineOk(sys, worlds, Other(p), e.sessionId)
    requires LoadRatchet(sys.Of(p).store, e.sessionId).Missing? && session.sessionId == e.sessionId
    requires HasEnvelope(sys.Of(Other(p)).sealed, e) && StartedFrom(sys.Of(p), sys.Of(p).peer, e, session)
    ensures Initiated(sys, Other(p), e.sessionId) && !session.initiator
    ensures SideFits(sys.Of(p), session, worlds[e.sessionId].b)
  {
    var d, peer := sys.Of(p), sys.Of(Other(p));
    var a :| a in peer.sealed && a.envelope == e;
    assert LoadRatchet(peer.store, e.sessionId).Found?;
    var s := LoadRatchet(peer.store, e.sessionId).session;
    LoadsOwn(peer, e.sessionId);
    assert Ends(peer, d, e.sessionId, worlds[e.sessionId].b);
    assert e.init == s.init;
    NewFits(d, session, worlds[e.sessionId].b.st);
  }

  // -- Tabs --------------------------------------------------------------------

  lemma EnvelopeStays(sealed: seq<Answer>, longer: seq<Answer>, e: Envelope)
    requires HasEnvelope(sealed, e) && sealed <= longer
    ensures HasEnvelope(longer, e)
  {
    var a :| a in sealed && a.envelope == e;
    assert a in longer;
  }

  /** What any event but shredding leaves alone. */
  lemma StepFrame(d: Device, ev: Event)
    requires !ev.Shred?
    ensures var d' := Step(d, ev);
            && SameOwner(d, d') && d.sealed <= d'.sealed
            && (!ev.Finish? ==> d'.store == d.store && d'.sealed == d.sealed)
            && (forall t: TabId :: t != ev.tab ==> d'.TabOf(t) == d.TabOf(t))
  {
  }

  /** Which ids an event can show its device for the first time. */
  lemma StepSees(d: Device, ev: Event, id: nat)
    requires id !in d.seen && id in Step(d, ev).seen
    ensures (ev.StartReceive? && id == ev.envelope.sessionId) ||
            (ev.Load? && d.TabOf(ev.tab).Holding? && d.TabOf(ev.tab).job.SendJob? && ev.latest.None?
             && id == ev.sessionId)
  {
  }

  /** A session in the making stays out of the other device's sight. */
  lemma StaysUnseen(sys: System, m: Move, id: nat)
    requires SealedOk(sys.Of(m.party)) && SealedStays(sys.Of(Other(m.party))) && Honest(sys, m)
    requires id !in sys.Of(m.party).seen && id in sys.Of(Other(m.party)).seen
             && LoadRatchet(sys.Of(Other(m.party)).store, id).Missing?
    ensures id !in Step(sys.Of(m.party), m.ev).seen
  {
    if id in Step(sys.Of(m.party), m.ev).seen {
      StepSees(sys.Of(m.party), m.ev, id);
    }
  }

  lemma TabFrame(sys: System, sys': System, p: Party, tab: Tab)
    requires TabTrue(sys, p, tab) && sys.used <= sys'.used
    requires SameOwner(sys.Of(p), sys'.Of(p)) && SameOwner(sys.Of(Other(p)), sys'.Of(Other(p)))
    requires sys.Of(Other(p)).sealed <= sys'.Of(Other(p)).sealed
    requires tab.Ready? ==>
               var id := tab.session.sessionId;
               && LoadRatchet(sys'.Of(p).store, id) == LoadRatchet(sys.Of(p).store, id)
               && (tab.job.SendJob? && LoadRatchet(sys.Of(p).store, id).Missing? && id !in sys.Of(Other(p)).seen ==>
                     id !in sys'.Of(Other(p)).seen)
    ensures TabTrue(sys', p, tab)
  {
    if (tab.Waiting? || tab.Holding? || tab.Ready?) && tab.job.ReceiveJob? {
      EnvelopeStays(sys.Of(Other(p)).sealed, sys'.Of(Other(p)).sealed, tab.job.envelope);
    }
  }

  lemma OtherTabs(sys: System, m: Move)
    requires DeviceOk(sys.Of(m.party)) && DeviceOk(sys.Of(Other(m.party))) && Honest(sys, m)
    requires TabsTrue(sys, Other(m.party))
    ensures TabsTrue(Apply(sys, m), Other(m.party))
  {
    var q, sys' := Other(m.party), Apply(sys, m);
    StepFrame(sys.Of(m.party), m.ev);
    forall t: TabId
      ensures TabTrue(sys', q, sys'.Of(q).TabOf(t))
    {
      OtherTab(sys, sys', m, sys.Of(q).TabOf(t), t);
    }
  }

  lemma OtherTab(sys: System, sys': System, m: Move, tab: Tab, t: TabId)
    requires DeviceInv(sys.Of(m.party)) && DeviceInv(sys.Of(Other(m.party))) && SealedStays(sys.Of(Other(m.party)))
             && Honest(sys, m)
    requires sys' == Apply(sys, m) && tab == sys.Of(Other(m.party)).TabOf(t) && TabTrue(sys, Other(m.party), tab)
    ensures TabTrue(sys', Other(m.party), tab)
  {
    var q := Other(m.party);
    StepFrame(sys.Of(m.party), m.ev);
    assert TabOk(sys.Of(q), sys.Of(q).TabOf(t));
    if tab.Ready? && tab.job.SendJob? {
      var id := tab.session.sessionId;
      if LoadRatchet(sys.Of(q).store, id).Missing? && id !in sys.Of(m.party).seen {
        StaysUnseen(sys, m, id);
      }
    }
    TabFrame(sys, sys', q, tab);
  }

  lemma LoadedToSend(sys: System, m: Move, text: string)
    requires Paired(sys) && StoreOk(sys.Of(m.party)) && Honest(sys, m) && m.ev.Load?
    requires sys.Of(m.party).TabOf(m.ev.tab) == Holding(SendJob(text))
    ensures TabTrue(Apply(sys, m), m.party, Apply(sys, m).Of(m.party).TabOf(m.ev.tab))
  {
    var d, sys' := sys.Of(m.party), Apply(sys, m);
    if m.ev.latest.None? && m.ev.bundle.signed {
      var session := sys'.Of(m.party).TabOf(m.ev.tab).session;
      assert StartInitiator(d.conversationId, d.peer, d.identity, m.ev.bundle, session.sessionId, m.ev.ek,
                            m.ev.firstKey, m.ev.now) == Ok(session);
    }
  }

  lemma LoadedToReceive(sys: System, m: Move, senderId: nat, e: Envelope)
    requires Paired(sys) && StoreOk(sys.Of(m.party)) && m.ev.Load?
    requires sys.Of(m.party).TabOf(m.ev.tab) == Holding(ReceiveJob(senderId, e))
             && JobTrue(sys, m.party, ReceiveJob(senderId, e))
    ensures TabTrue(Apply(sys, m), m.party, Apply(sys, m).Of(m.party).TabOf(m.ev.tab))
  {
    LoadsOwn(sys.Of(m.party), e.sessionId);
  }

  /** The tab an event belongs to. */
  lemma ChangedTab(sys: System, m: Move)
    requires Paired(sys) && DeviceOk(sys.Of(m.party)) && Honest(sys, m)
    requires TabTrue(sys, m.party, sys.Of(m.party).TabOf(m.ev.tab))
    ensures TabTrue(Apply(sys, m), m.party, Apply(sys, m).Of(m.party).TabOf(m.ev.tab))
  {
    match m.ev
    case Load(t, _, _, _, _, _, _) =>
      if sys.Of(m.party).TabOf(t).job.SendJob? {
        LoadedToSend(sys, m, sys.Of(m.party).TabOf(t).job.text);
      } else {
        LoadedToReceive(sys, m, sys.Of(m.party).TabOf(t).job.senderId, sys.Of(m.party).TabOf(t).job.envelope);
      }
    case StartReceive(t, senderId, e) =>
      var q :| senderId == sys.Of(q).me && HasEnvelope(sys.Of(q).sealed, e);
    case _ =>
  }

  lemma OwnTabs(sys: System, m: Move)
    requires Paired(sys) && DeviceOk(sys.Of(m.party)) && Honest(sys, m)
    requires TabsTrue(sys, m.party)
    ensures TabsTrue(Apply(sys, m), m.party)
  {
    var p, sys' := m.party, Apply(sys, m);
    var d := sys.Of(p);
    StepFrame(d, m.ev);
    if m.ev.Finish? {
      HolderAlone(d, m.ev.tab);
    }
    forall t: TabId
      ensures TabTrue(sys', p, sys'.Of(p).TabOf(t))
    {
      assert TabTrue(sys, p, d.TabOf(t));
      if t == m.ev.tab {
        ChangedTab(sys, m);
      } else {
        assert m.ev.Finish? && t in d.tabs ==> !Locked(d.tabs[t]);
        TabFrame(sys, sys', p, d.TabOf(t));
      }
    }
  }

  // -- Every session -----------------------------------------------------------

  ghost predicate LinesOk(sys: System, worlds: map<nat, R.World>) {
    forall p, id :: LineOk(sys, worlds, p, id)
  }

  /** One session moved on, every other stayed as it was. */
  lemma LinesMove(sys: System, sys': System, worlds: map<nat, R.World>, p: Party, initiator: Party, id: nat,
                  w': R.World)
    requires StoreOk(sys.alice) && StoreOk(sys.bob) && LinesOk(sys, worlds) && sys.used <= sys'.used
    requires forall other :: other != id ==> SameSession(sys.Of(p), sys'.Of(p), other)
    requires sys'.Of(Other(p)) == sys.Of(Other(p))
    requires Line(sys', initiator, id, w')
    ensures LinesOk(sys', worlds[id := w'])
  {
    var worlds' := worlds[id := w'];
    forall q, other
      ensures LineOk(sys', worlds', q, other)
    {
      if other != id {
        assert LineOk(sys, worlds, q, other);
        assert SameSession(sys.Of(p), sys'.Of(p), other) && SameSession(sys.Of(Other(p)), sys'.Of(Other(p)), other);
        LineOkFrame(sys, sys', worlds, q, other);
      }
    }
  }

  lemma LinesQuiet(sys: System, sys': System, worlds: map<nat, R.World>)
    requires StoreOk(sys.alice) && StoreOk(sys.bob) && LinesOk(sys, worlds) && sys.used <= sys'.used
    requires forall p: Party :: SameOwner(sys.Of(p), sys'.Of(p)) && sys'.Of(p).store == sys.Of(p).store
                                && sys'.Of(p).sealed == sys.Of(p).sealed
    ensures LinesOk(sys', worlds)
  {
    assert SameOwner(sys.Of(Alice), sys'.Of(Alice)) && SameOwner(sys.Of(Bob), sys'.Of(Bob));
    forall p, id
      ensures LineOk(sys', worlds, p, id)
    {
      assert LineOk(sys, worlds, p, id);
      LineOkFrame(sys, sys', worlds, p, id);
    }
  }

  /** The line of the session a send moves, whoever initiated it. */
  lemma SentLine(sys: System, sys': System, worlds: map<nat, R.World>, p: Party, t: TabId, text: string,
                 session: RatchetSession, newDek: nat)
      returns (initiator: Party, w': R.World)
    requires Paired(sys) && sys.used <= sys'.used && DeviceInv(sys.Of(p)) && SealedStays(sys.Of(p))
    requires StoreOk(sys.Of(Other(p))) && SealedStays(sys.Of(Other(p)))
    requires LineOk(sys, worlds, p, session.sessionId) && LineOk(sys, worlds, Other(p), session.sessionId)
    requires sys.Of(p).TabOf(t) == Ready(SendJob(text), session) && TabTrue(sys, p, sys.Of(p).TabOf(t))
    requires sys'.Of(p) == FinishSend(sys.Of(p), t, text, session, newDek) && sys'.Of(Other(p)) == sys.Of(Other(p))
    ensures Line(sys', initiator, session.sessionId, w')
  {
    var d, id := sys.Of(p), session.sessionId;
    assert TabOk(d, d.TabOf(t));
    if LoadRatchet(d.store, id).Missing? {
      initiator := p;
      w' := FirstSendLine(sys, sys', p, t, text, session, newDek);
    } else {
      initiator := if session.initiator then p else Other(p);
      w' := SendLine(sys, sys', p, initiator, worlds[id], t, text, session, newDek);
    }
  }

  lemma SendLines(sys: System, sys': System, worlds: map<nat, R.World>, p: Party, t: TabId, text: string,
                  session: RatchetSession, newDek: nat)
      returns (worlds': map<nat, R.World>)
    requires SystemInv(sys, worlds) && sys.used <= sys'.used
    requires sys.Of(p).TabOf(t) == Ready(SendJob(text), session)
    requires sys'.Of(p) == FinishSend(sys.Of(p), t, text, session, newDek) && sys'.Of(Other(p)) == sys.Of(Other(p))
    ensures LinesOk(sys', worlds')
  {
    var id := session.sessionId;
    assert TabTrue(sys, p, sys.Of(p).TabOf(t));
    assert LineOk(sys, worlds, p, id) && LineOk(sys, worlds, Other(p), id);
    var initiator, w' := SentLine(sys, sys', worlds, p, t, text, session, newDek);
    SealStore(sys.Of(p), t, text, session, newDek);
    worlds' := worlds[id := w'];
    LinesMove(sys, sys', worlds, p, initiator, id, w');
  }

  /** The run of the session an envelope is about to open on, whoever initiated it. */
  lemma ReadyLine(sys: System, worlds: map<nat, R.World>, p: Party, t: TabId, e: Envelope, session: RatchetSession)
      returns (initiator: Party)
    requires DeviceInv(sys.Of(p)) && SealedStays(sys.Of(p)) && StoreOk(sys.Of(Other(p)))
             && SealedStays(sys.Of(Other(p)))
    requires LineOk(sys, worlds, p, session.sessionId) && LineOk(sys, worlds, Other(p), session.sessionId)
    requires sys.Of(p).TabOf(t) == Ready(ReceiveJob(sys.Of(p).peer, e), session) && TabTrue(sys, p, sys.Of(p).TabOf(t))
    ensures session.sessionId == e.sessionId && session.sessionId in worlds
            && Line(sys, initiator, session.sessionId, worlds[session.sessionId])
    ensures SideFits(sys.Of(p), session, worlds[session.sessionId].Of(RoleOf(p, initiator)))
    ensures LoadRatchet(sys.Of(p).store, session.sessionId) == Found(session) || (p != initiator && !session.initiator)
  {
    var d, id := sys.Of(p), session.sessionId;
    assert TabOk(d, d.TabOf(t));
    if LoadRatchet(d.store, id).Missing? {
      StartedFits(sys, worlds, p, e, session);
      initiator := Other(p);
    } else {
      initiator := if session.initiator then p else Other(p);
      StoredFits(d, session, worlds[id].Of(RoleOf(p, initiator)));
    }
  }

  lemma ReceiveLines(sys: System, sys': System, worlds: map<nat, R.World>, p: Party, t: TabId, e: Envelope,
                     session: RatchetSession,
                     now: int, newKey: KeyId, newDek: nat) returns (worlds': map<nat, R.World>)
    requires SystemInv(sys, worlds) && sys.used + {newKey} <= sys'.used && newKey !in sys.used
    requires sys.Of(p).TabOf(t) == Ready(ReceiveJob(sys.Of(p).peer, e), session)
    requires OpenV2(session, sys.Of(p).peer, e, now, newKey).Ok?
    requires sys'.Of(p) == FinishReceive(sys.Of(p), t, sys.Of(p).peer, e, session, now, newKey, newDek)
    requires sys'.Of(Other(p)) == sys.Of(Other(p))
    ensures LinesOk(sys', worlds')
  {
    var id := session.sessionId;
    assert TabTrue(sys, p, sys.Of(p).TabOf(t));
    assert LineOk(sys, worlds, p, id) && LineOk(sys, worlds, Other(p), id);
    var initiator := ReadyLine(sys, worlds, p, t, e, session);
    var w' := ReceiveLine(sys, sys', p, initiator, worlds[id], t, e, session, now, newKey, newDek);
    OpenStore(sys.Of(p), t, e, session, now, newKey, newDek);
    worlds' := worlds[id := w'];
    LinesMove(sys, sys', worlds, p, initiator, id, w');
  }

  lemma MoveLines(sys: System, worlds: map<nat, R.World>, m: Move) returns (worlds': map<nat, R.World>)
    requires SystemInv(sys, worlds) && Honest(sys, m)
    ensures LinesOk(Apply(sys, m), worlds')
  {
    var d, sys' := sys.Of(m.party), Apply(sys, m);
    worlds' := worlds;
    StepFrame(d, m.ev);
    if sys'.Of(m.party).store == d.store && sys'.Of(m.party).sealed == d.sealed {
      LinesQuiet(sys, sys', worlds);
    } else {
      assert TabTrue(sys, m.party, d.TabOf(m.ev.tab));
      match d.TabOf(m.ev.tab)
      case Ready(SendJob(text), session) =>
        worlds' := SendLines(sys, sys', worlds, m.party, m.ev.tab, text, session, m.ev.newDek);
      case Ready(ReceiveJob(senderId, e), session) => 
        worlds' := ReceiveLines(sys, sys', worlds, m.party, m.ev.tab, e, session, m.ev.now, m.ev.newKey, m.ev.newDek);
    }
  }

  lemma MoveKeeps(sys: System, worlds: map<nat, R.World>, m: Move) returns (worlds': map<nat, R.World>)
    requires SystemInv(sys, worlds) && Honest(sys, m)
    ensures SystemInv(Apply(sys, m), worlds')
  {
    var sys' := Apply(sys, m);
    worlds' := MoveLines(sys, worlds, m);
    DeviceStep(sys.Of(m.party), m.ev);
    StepFrame(sys.Of(m.party), m.ev);
    OwnTabs(sys, m);
    OtherTabs(sys, m);
    assert Paired(sys');
  }
}
