/**
 * Sealing and opening on a device are sending and receiving on its session's ratchet run.
 *
 * The device keeps one record per session and the run keeps one side per party.
 * SealStep and OpenStep show that one call on the record is one event on the side;
 * the frame lemmas before them say that a call changes nothing else,
 * and ReachStep and ReachStart carry the run's own reachability along.
 */
module TwoDevicesSteps {
  import opened Wrappers
  import opened SymbolicCrypto
  import opened Parties
  import opened DoubleRatchet
  import opened EnvelopeV2
  import opened Vault
  import opened Device
  import opened DeviceInvariant
  import opened DeviceCounters
  import opened TwoDevices
  import R = RatchetRun
  import Reach = RatchetReach

  // -- What a step leaves alone ------------------------------------------------

  ghost predicate SameOwner(d: Device, d': Device) {
    d'.me == d.me && d'.peer == d.peer && d'.conversationId == d.conversationId && d'.identity == d.identity
  }

  /** Nothing about one session changed. */
  ghost predicate SameSession(d: Device, d': Device, id: nat) {
    && SameOwner(d, d')
    && LoadRatchet(d'.store, id) == LoadRatchet(d.store, id)
    && (forall key: TextKey :: key.sessionId == id ==> LoadMessage(d'.store, key) == LoadMessage(d.store, key))
    && (forall a: Answer :: a.envelope.sessionId == id ==> (a in d'.sealed <==> a in d.sealed))
  }

  lemma SideFrame(d: Device, d': Device, id: nat, side: R.Side)
    requires SameSession(d, d', id) && SideIs(d, id, side)
    ensures SideIs(d', id, side)
  {
    forall f | f in side.sent
      ensures HasFrame(d', id, f)
    {
      assert HasFrame(d, id, f);
      var a :| a in d.sealed && a.envelope.sessionId == id && FrameOf(d.conversationId, a) == f;
      assert a in d'.sealed;
    }
  }

  lemma EndsFrame(i: Device, i': Device, r: Device, r': Device, id: nat, b: R.Side)
    requires SameSession(i, i', id) && SameSession(r, r', id) && Ends(i, r, id, b)
    requires LoadRatchet(i.store, id).Found? ==> LoadRatchet(i.store, id).session.sessionId == id
    ensures Ends(i', r', id, b)
  {
  }

  lemma LineFrame(sys: System, sys': System, p: Party, id: nat, w: R.World)
    requires SameSession(sys.alice, sys'.alice, id) && SameSession(sys.bob, sys'.bob, id) && sys.used <= sys'.used
    requires StoreOk(sys.Of(p)) && Line(sys, p, id, w)
    ensures Line(sys', p, id, w)
  {
    SideFrame(sys.alice, sys'.alice, id, if p == Alice then w.a else w.b);
    SideFrame(sys.bob, sys'.bob, id, if p == Bob then w.a else w.b);
    EndsFrame(sys.Of(p), sys'.Of(p), sys.Of(Other(p)), sys'.Of(Other(p)), id, w.b);
  }

  // -- One step of one session -------------------------------------------------

  /** A session in a tab's hands stands where the party stands. */
  ghost predicate SideFits(d: Device, session: RatchetSession, side: R.Side) {
    && session.state == side.st && session.conversationId == d.conversationId
    && SentIs(d, session.sessionId, side.sent) && AcceptedIs(d, session.sessionId, side.accepted) && side.expired == []
  }

  lemma StoredFits(d: Device, session: RatchetSession, side: R.Side)
    requires LoadRatchet(d.store, session.sessionId) == Found(session) && SideIs(d, session.sessionId, side)
    ensures SideFits(d, session, side)
  {
  }

  /** A session id that is not committed has neither envelopes nor texts. */
  lemma NewFits(d: Device, session: RatchetSession, st: RatchetState)
    requires StoreOk(d) && SealedStays(d) && LoadRatchet(d.store, session.sessionId).Missing?
    requires session.state == st && session.conversationId == d.conversationId
    ensures SideFits(d, session, R.SideInit(st))
  {
  }

  lemma SealStore(d: Device, t: TabId, text: string, session: RatchetSession, newDek: nat)
    requires DeviceInv(d) && d.TabOf(t) == Ready(SendJob(text), session)
    ensures var d', s := FinishSend(d, t, text, session, newDek), SealV2(session, d.me, text).value;
            && d'.sealed == d.sealed + [Answer(d.me, s.envelope, text)]
            && s.envelope.sessionId == session.sessionId && s.next.sessionId == session.sessionId
            && s.envelope.ctr == session.sendTotal
            && LoadRatchet(d'.store, session.sessionId) == Found(s.next)
            && (forall key :: key != KeyOf(d.me, s.envelope) ==>
                  LoadMessage(d'.store, key) == LoadMessage(d.store, key))
            && (forall id :: id != session.sessionId ==> SameSession(d, d', id))
  {
    SendKeyIsFree(d, t, text, session);
    var s := SealV2(session, d.me, text).value;
    CommitReadsBack(d.store, s.next, KeyOf(d.me, s.envelope), text, newDek);
  }

  lemma SealSent(d: Device, d': Device, a: Answer, sent: seq<R.Frame>)
    requires SameOwner(d, d') && d'.sealed == d.sealed + [a] && SentIs(d, a.envelope.sessionId, sent)
    ensures SentIs(d', a.envelope.sessionId, sent + [FrameOf(d.conversationId, a)])
  {
    var id, more := a.envelope.sessionId, sent + [FrameOf(d.conversationId, a)];
    forall f | f in more
      ensures HasFrame(d', id, f)
    {
      if f in sent {
        assert HasFrame(d, id, f);
        var b :| b in d.sealed && b.envelope.sessionId == id && FrameOf(d.conversationId, b) == f;
        assert b in d'.sealed;
      } else {
        assert a in d'.sealed;
      }
    }
  }

  /** Sealing on the device is sending in the run. */
  lemma SealStep(d: Device, t: TabId, text: string, session: RatchetSession, newDek: nat, side: R.Side)
    requires DeviceInv(d) && d.me != d.peer && d.TabOf(t) == Ready(SendJob(text), session) && SideFits(d, session, side)
    ensures SideIs(FinishSend(d, t, text, session, newDek), session.sessionId,
                   R.SendStep(side, text, EnvelopeV2.Aad(d.conversationId, d.me, session.sessionId, session.sendTotal)))
  {
    var d' := FinishSend(d, t, text, session, newDek);
    SendKeyIsFree(d, t, text, session);
    SealStore(d, t, text, session, newDek);
    SealSent(d, d', Answer(d.me, SealV2(session, d.me, text).value.envelope, text), side.sent);
  }

  lemma OpenStore(d: Device, t: TabId, e: Envelope, session: RatchetSession, now: int, newKey: KeyId, newDek: nat)
    requires DeviceInv(d) && d.TabOf(t) == Ready(ReceiveJob(d.peer, e), session)
             && OpenV2(session, d.peer, e, now, newKey).Ok?
    ensures var d', o := FinishReceive(d, t, d.peer, e, session, now, newKey, newDek),
                         OpenV2(session, d.peer, e, now, newKey).value;
            && d'.sealed == d.sealed && o.next.sessionId == session.sessionId == e.sessionId
            && LoadRatchet(d'.store, session.sessionId) == Found(o.next)
            && LoadMessage(d.store, KeyOf(d.peer, e)).None? && LoadMessage(d'.store, KeyOf(d.peer, e)) == Some(o.text)
            && (forall key :: key != KeyOf(d.peer, e) ==> LoadMessage(d'.store, key) == LoadMessage(d.store, key))
            && (forall id :: id != session.sessionId ==> SameSession(d, d', id))
  {
    assert TabOk(d, d.TabOf(t));
    var o := OpenV2(session, d.peer, e, now, newKey).value;
    CommitReadsBack(d.store, o.next, KeyOf(d.peer, e), o.text, newDek);
  }

  lemma OpenAccepted(d: Device, d': Device, accepted: seq<R.Frame>, f: R.Frame, id: nat)
    requires SameOwner(d, d') && AcceptedIs(d, id, accepted)
    requires f.ad == EnvelopeV2.Aad(d.conversationId, d.peer, id, f.ad.ctr)
    requires LoadMessage(d.store, TextKey(id, d.peer, f.ad.ctr)).None?
    requires LoadMessage(d'.store, TextKey(id, d.peer, f.ad.ctr)) == Some(f.text)
    requires forall key :: key != TextKey(id, d.peer, f.ad.ctr) ==>
               LoadMessage(d'.store, key) == LoadMessage(d.store, key)
    ensures AcceptedIs(d', id, accepted + [f])
  {
    var more := accepted + [f];
    forall ctr: nat | LoadMessage(d'.store, TextKey(id, d.peer, ctr)).Some?
      ensures HasCtr(more, ctr)
    {
      if ctr == f.ad.ctr {
        assert f in more;
      } else {
        assert HasCtr(accepted, ctr);
        var g :| g in accepted && g.ad.ctr == ctr;
        assert g in more;
      }
    }
  }

  /** Opening on the device is accepting in the run. */
  lemma OpenStep(d: Device, t: TabId, e: Envelope, session: RatchetSession, now: int, newKey: KeyId, newDek: nat,
                 side: R.Side)
    requires DeviceInv(d) && d.TabOf(t) == Ready(ReceiveJob(d.peer, e), session) && SideFits(d, session, side)
    requires OpenV2(session, d.peer, e, now, newKey).Ok?
    ensures SideIs(FinishReceive(d, t, d.peer, e, session, now, newKey, newDek), session.sessionId,
                   R.DeliverStep(side, Message(e), EnvelopeV2.Aad(d.conversationId, d.peer, e.sessionId, e.ctr), now,
                                 newKey))
  {
    var d' := FinishReceive(d, t, d.peer, e, session, now, newKey, newDek);
    OpenStore(d, t, e, session, now, newKey, newDek);
    var ad := EnvelopeV2.Aad(d.conversationId, d.peer, e.sessionId, e.ctr);
    var o := OpenV2(session, d.peer, e, now, newKey).value;
    OpenAccepted(d, d', side.accepted, R.Frame(Message(e), ad, o.text), session.sessionId);
  }

  // -- The run goes on ---------------------------------------------------------

  lemma ReachStep(w: R.World, ev: R.Event)
    requires Reach.Reachable(w) && R.Enabled(w, ev)
    ensures Reach.Reachable(R.Step(w, ev))
  {
    var s: R.Setup, events :| s.Proper() && R.Valid(R.Start(s), events) && w == R.Run(R.Start(s), events);
    var more := events + [ev];
    assert more[..|more| - 1] == events;
    assert R.Valid(R.Start(s), more) && R.Step(w, ev) == R.Run(R.Start(s), more);
  }

  lemma ReachStart(s: R.Setup)
    requires s.Proper()
    ensures Reach.Reachable(R.Start(s))
  {
    assert R.Valid(R.Start(s), []) && R.Start(s) == R.Run(R.Start(s), []);
  }
}
