/** Which of the peer's v2 envelopes open again on a device that has shredded the conversation. */
module ShreddedVault {
  import opened Wrappers
  import opened SymbolicCrypto
  import opened DoubleRatchet
  import opened EnvelopeV2
  import opened Device
  import opened DeviceTheorems
  import E2EEService

  // The vault's keys go, the identity and its prekey stay: what can be derived from an init block can be derived again.

  // -- What an initiator seals before it is answered ---------------------------

  /** The chain a session toward these keys starts with. */
  function FirstChain(mine: Identity, theirs: Identity, ek: KeyId, firstKey: KeyId): Secret {
    ChainRoot(InitiatorSecret(mine, ek, BundleOf(theirs)), Dh(firstKey, theirs.spk))
  }

  /** The session has only sealed since it was started. */
  predicate IsFirstSession(s: RatchetSession, mine: Identity, theirs: Identity, ek: KeyId, firstKey: KeyId) {
    && s.init == Some(InitBlock(ek, mine.x, theirs.spkId))
    && s.state.dhs == firstKey && s.state.pn == 0 && s.state.ns == s.sendTotal
    && s.state.cks == Some(Advance(FirstChain(mine, theirs, ek, firstKey), s.sendTotal))
  }

  /** As long as the initiator has not opened an answer it is on its first chain. */
  ghost predicate Unanswered(s: RatchetSession, conversationId: nat, mine: Identity, theirs: Identity) {
    s.initiator && !s.peerReplied ==>
      s.conversationId == conversationId && exists ek, firstKey :: IsFirstSession(s, mine, theirs, ek, firstKey)
  }

  /** Number ctr of the first chain, with the init block that leads to it. */
  predicate IsFirstFrame(a: Answer, conversationId: nat, mine: Identity, theirs: Identity, ek: KeyId, firstKey: KeyId) {
    var e := a.envelope;
    var mk := KeyAt(FirstChain(mine, theirs, ek, firstKey), e.ctr);
    && e.init == Some(InitBlock(ek, mine.x, theirs.spkId)) && e.header == Header(firstKey, 0, e.ctr)
    && Message(e) == SealWith(mk, e.header, a.text, EnvelopeV2.Aad(conversationId, a.senderId, e.sessionId, e.ctr))
  }

  ghost predicate SealedFirst(a: Answer, conversationId: nat, mine: Identity, theirs: Identity) {
    a.envelope.init.Some? ==> exists ek, firstKey :: IsFirstFrame(a, conversationId, mine, theirs, ek, firstKey)
  }

  ghost predicate TabFirst(tab: Tab, conversationId: nat, mine: Identity, theirs: Identity) {
    tab.Ready? ==> Unanswered(tab.session, conversationId, mine, theirs)
  }

  ghost predicate AllFirst(d: Device, theirs: Identity) {
    && (forall id :: id in d.store.ratchets ==>
          Unanswered(d.store.ratchets[id].value, d.conversationId, d.identity, theirs))
    && (forall t: TabId :: TabFirst(d.TabOf(t), d.conversationId, d.identity, theirs))
    && (forall a :: a in d.sealed ==> a.senderId == d.me && SealedFirst(a, d.conversationId, d.identity, theirs))
  }

  /** A bundle whose signature verifies is the peer's. */
  predicate HonestBundle(ev: Event, theirs: Identity) {
    ev.Load? && ev.bundle.signed ==> ev.bundle == BundleOf(theirs)
  }

  lemma StartedIsFirst(conversationId: nat, peerId: nat, mine: Identity, theirs: Identity, bundle: PeerBundle,
                       sessionId: nat, ek: KeyId, firstKey: KeyId, now: int)
    requires bundle.signed ==> bundle == BundleOf(theirs)
    ensures var s := StartInitiator(conversationId, peerId, mine, bundle, sessionId, ek, firstKey, now);
            s.Ok? ==> Unanswered(s.value, conversationId, mine, theirs)
  {
    var s := StartInitiator(conversationId, peerId, mine, bundle, sessionId, ek, firstKey, now);
    if s.Ok? {
      assert IsFirstSession(s.value, mine, theirs, ek, firstKey);
    }
  }

  /** Sealing goes one further on the first chain. */
  lemma SealingIsFirst(s: RatchetSession, me: nat, text: string, conversationId: nat, mine: Identity, theirs: Identity)
    requires Unanswered(s, conversationId, mine, theirs) && SealV2(s, me, text).Ok?
    ensures var sealed := SealV2(s, me, text).value;
            && Unanswered(sealed.next, conversationId, mine, theirs)
            && SealedFirst(Answer(me, sealed.envelope, text), conversationId, mine, theirs)
  {
    if s.initiator && !s.peerReplied {
      var ek, firstKey :| IsFirstSession(s, mine, theirs, ek, firstKey);
      var sealed := SealV2(s, me, text).value;
      assert IsFirstSession(sealed.next, mine, theirs, ek, firstKey);
      assert IsFirstFrame(Answer(me, sealed.envelope, text), conversationId, mine, theirs, ek, firstKey);
    }
  }

  lemma LoadKeeps(d: Device, ev: Event, theirs: Identity)
    requires AllFirst(d, theirs) && Enabled(d, ev) && HonestBundle(ev, theirs) && ev.Load?
    ensures AllFirst(Step(d, ev), theirs)
  {
    StartedIsFirst(d.conversationId, d.peer, d.identity, theirs, ev.bundle, ev.sessionId, ev.ek, ev.firstKey, ev.now);
    OtherTabsStay(d, Step(d, ev), ev.tab, theirs);
  }

  lemma OtherTabsStay(d: Device, d': Device, t: TabId, theirs: Identity)
    requires AllFirst(d, theirs) && d'.conversationId == d.conversationId && d'.identity == d.identity
    requires forall u: TabId :: u != t ==> d'.TabOf(u) == d.TabOf(u)
    requires TabFirst(d'.TabOf(t), d.conversationId, d.identity, theirs)
    ensures forall u: TabId :: TabFirst(d'.TabOf(u), d'.conversationId, d'.identity, theirs)
  {
    forall u: TabId
      ensures TabFirst(d'.TabOf(u), d'.conversationId, d'.identity, theirs)
    {
      assert TabFirst(d.TabOf(u), d.conversationId, d.identity, theirs);
    }
  }

  lemma FinishSendKeeps(d: Device, t: TabId, text: string, session: RatchetSession, newDek: nat, theirs: Identity)
    requires AllFirst(d, theirs) && d.TabOf(t) == Ready(SendJob(text), session)
    ensures AllFirst(FinishSend(d, t, text, session, newDek), theirs)
  {
    assert TabFirst(d.TabOf(t), d.conversationId, d.identity, theirs);
    OtherTabsStay(d, FinishSend(d, t, text, session, newDek), t, theirs);
    if SealV2(session, d.me, text).Ok? {
      SealingIsFirst(session, d.me, text, d.conversationId, d.identity, theirs);
    }
  }

  /** An answer that opens ends the first chain. */
  lemma FinishReceiveKeeps(d: Device, ev: Event, theirs: Identity)
    requires AllFirst(d, theirs) && ev.Finish? && d.TabOf(ev.tab).Ready? && d.TabOf(ev.tab).job.ReceiveJob?
    ensures AllFirst(Step(d, ev), theirs)
  {
    OtherTabsStay(d, Step(d, ev), ev.tab, theirs);
  }

  lemma OthersKeep(d: Device, ev: Event, theirs: Identity)
    requires AllFirst(d, theirs) && Enabled(d, ev) && !ev.Load? && !ev.Finish? && !ev.Shred?
    ensures AllFirst(Step(d, ev), theirs)
  {
    assert TabFirst(d.TabOf(ev.tab), d.conversationId, d.identity, theirs);
    OtherTabsStay(d, Step(d, ev), ev.tab, theirs);
  }

  lemma StepKeepsFirst(d: Device, ev: Event, theirs: Identity)
    requires AllFirst(d, theirs) && Enabled(d, ev) && HonestBundle(ev, theirs)
    ensures AllFirst(Step(d, ev), theirs)
    ensures var d' := Step(d, ev);
            d'.me == d.me && d'.identity == d.identity && d'.conversationId == d.conversationId
  {
    match ev
    case Load(_, _, _, _, _, _, _) => LoadKeeps(d, ev, theirs);
    case Finish(t, _, _, newDek) =>
      if d.TabOf(t).job.SendJob? {
        FinishSendKeeps(d, t, d.TabOf(t).job.text, d.TabOf(t).session, newDek, theirs);
      } else {
        FinishReceiveKeeps(d, ev, theirs);
      }
    case Shred =>
      assert TabFirst(d.TabOf(0), d.conversationId, d.identity, theirs);
      OtherTabsStay(d, Step(d, ev), 0, theirs);
    case _ => OthersKeep(d, ev, theirs);
  }

  lemma {:induction false} RunKeepsFirst(start: Device, events: seq<Event>, theirs: Identity)
    requires IsFreshDevice(start) && Valid(start, events) && forall ev :: ev in events ==> HonestBundle(ev, theirs)
    ensures var d := Run(start, events);
            && AllFirst(d, theirs)
            && d.me == start.me && d.identity == start.identity && d.conversationId == start.conversationId
  {
    if events != [] {
      assert events[|events| - 1] in events;
      RunKeepsFirst(start, events[..|events| - 1], theirs);
      StepKeepsFirst(Run(start, events[..|events| - 1]), events[|events| - 1], theirs);
    }
  }

  // -- What an empty vault opens -----------------------------------------------

  /** A responder started from the init block is on the same chain, from its beginning. */
  lemma FirstFrameOpens(a: Answer, o: E2EEService.Owner, mine: Identity, ek: KeyId, firstKey: KeyId, now: int,
                        newKey: KeyId)
    requires IsFirstFrame(a, o.conversationId, mine, o.identity, ek, firstKey)
    ensures var s := StartResponder(o.conversationId, a.senderId, a.envelope.sessionId, o.identity,
                                    a.envelope.init.value, now);
            && s.Ok?
            && var r := OpenV2(s.value, a.senderId, a.envelope, now, newKey);
            if a.envelope.ctr <= MAX_SKIP then r.Ok? && r.value.text == a.text else r.Err?
  {
    SecretsAgree(mine, o.identity, ek);
    DhAgrees(firstKey, o.identity.spk);
  }

  /**
   * After shredding decryptV2 shows again exactly the peer's envelopes that carry an init block and are not more than
   * MAX_SKIP into their chain; the others stay unopenable. This holds for whatever the peer ever sealed, in any run of
   * its tabs, and for any later call.
   */
  lemma OpensAgainExactlyWhen(start: Device, events: seq<Event>, a: Answer, d: Device, o: E2EEService.Owner,
                              draw: E2EEService.Draw)
    requires E2EEService.Owns(o, d)
    requires IsFreshDevice(start) && Valid(start, events) && a in Run(start, events).sealed
    requires forall ev :: ev in events ==> HonestBundle(ev, o.identity)
    requires o.me != start.me && o.conversationId == start.conversationId
    ensures E2EEService.DecryptWith(o, Step(d, Shred).store, a.senderId, a.envelope, draw).text ==
            if a.envelope.init.Some? && a.envelope.header.n <= MAX_SKIP then Some(a.text) else None
  {
    RunKeepsFirst(start, events, o.identity);
    if a.envelope.init.Some? {
      var ek, firstKey :| IsFirstFrame(a, o.conversationId, start.identity, o.identity, ek, firstKey);
      FirstFrameOpens(a, o, start.identity, ek, firstKey, draw.now, draw.newKey);
    }
  }
}
