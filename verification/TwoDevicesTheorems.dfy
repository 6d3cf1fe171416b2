/** What two users' devices guarantee end to end, in every interleaving without shredding. */
module TwoDevicesTheorems {
  import opened Wrappers
  import opened SymbolicCrypto
  import opened Parties
  import opened DoubleRatchet
  import opened EnvelopeV2
  import opened Vault
  import opened Device
  import opened DeviceTheorems
  import opened DeviceCounters
  import opened TwoDevices
  import opened TwoDevicesSteps
  import opened TwoDevicesInvariant
  import R = RatchetRun
  import Reach = RatchetReach
  import Ratchet = RatchetTheorems

  function Play(sys: System, moves: seq<Move>): System {
    if moves == [] then sys else Apply(Play(sys, moves[..|moves| - 1]), moves[|moves| - 1])
  }

  ghost predicate Playable(sys: System, moves: seq<Move>) {
    moves != [] ==>
      Playable(sys, moves[..|moves| - 1]) && Honest(Play(sys, moves[..|moves| - 1]), moves[|moves| - 1])
  }

  ghost predicate Reached(sys: System) {
    exists start, moves :: IsFreshSystem(start) && Playable(start, moves) && sys == Play(start, moves)
  }

  lemma FreshHolds(sys: System)
    requires IsFreshSystem(sys)
    ensures SystemInv(sys, map[])
  {
    FreshInv(sys.alice);
    FreshInv(sys.bob);
    assert forall p, t: TabId :: sys.Of(p).TabOf(t).Idle?;
  }

  lemma {:induction false} PlayKeeps(start: System, moves: seq<Move>) returns (worlds: map<nat, R.World>)
    requires IsFreshSystem(start) && Playable(start, moves)
    ensures SystemInv(Play(start, moves), worlds)
  {
    if moves == [] {
      FreshHolds(start);
      worlds := map[];
    } else {
      var before := PlayKeeps(start, moves[..|moves| - 1]);
      worlds := MoveKeeps(Play(start, moves[..|moves| - 1]), before, moves[|moves| - 1]);
    }
  }

  lemma ReachedHolds(sys: System) returns (worlds: map<nat, R.World>)
    requires Reached(sys)
    ensures SystemInv(sys, worlds)
  {
    var start, moves :| IsFreshSystem(start) && Playable(start, moves) && sys == Play(start, moves);
    worlds := PlayKeeps(start, moves);
  }

  // -- The run behind a sealed envelope ----------------------------------------

  /** The session an envelope was sealed under has a run, with the sender's frame in it. */
  lemma EnvelopeLine(sys: System, worlds: map<nat, R.World>, p: Party, s: Answer) returns (initiator: Party)
    requires SealedStays(sys.Of(p)) && LineOk(sys, worlds, p, s.envelope.sessionId)
             && LineOk(sys, worlds, Other(p), s.envelope.sessionId)
    requires s in sys.Of(p).sealed
    ensures s.envelope.sessionId in worlds && Line(sys, initiator, s.envelope.sessionId, worlds[s.envelope.sessionId])
    ensures FrameOf(sys.Of(p).conversationId, s) in worlds[s.envelope.sessionId].Of(RoleOf(p, initiator)).sent
    ensures initiator == if Initiated(sys, p, s.envelope.sessionId) then p else Other(p)
  {
    var id := s.envelope.sessionId;
    initiator := if Initiated(sys, p, id) then p else Other(p);
    assert SentIs(sys.Of(p), id, worlds[id].Of(RoleOf(p, initiator)).sent);
  }

  lemma SealedOnce(sealed: seq<Answer>, a: Answer, b: Answer)
    requires Distinct(sealed) && a in sealed && b in sealed && SameCounter(a, b)
    ensures a == b
  {
    var i :| 0 <= i < |sealed| && sealed[i] == a;
    var j :| 0 <= j < |sealed| && sealed[j] == b;
  }

  /** A stored text of a peer's envelope was accepted by the ratchet, and is what the peer sealed. */
  lemma StoredIsAccepted(sys: System, worlds: map<nat, R.World>, p: Party, s: Answer) returns (initiator: Party)
    requires SystemInv(sys, worlds) && s in sys.Of(Other(p)).sealed
    ensures s.envelope.sessionId in worlds && Line(sys, initiator, s.envelope.sessionId, worlds[s.envelope.sessionId])
    ensures var stored := LoadMessage(sys.Of(p).store, KeyOf(sys.Of(p).peer, s.envelope));
            && (stored.Some? ==> stored == Some(s.text))
            && (stored.Some? <==>
                  FrameOf(sys.Of(p).conversationId,
                          s) in worlds[s.envelope.sessionId].Of(RoleOf(p, initiator)).accepted)
  {
    var d, peer, id := sys.Of(p), sys.Of(Other(p)), s.envelope.sessionId;
    initiator := EnvelopeLine(sys, worlds, Other(p), s);
    var side, other := worlds[id].Of(RoleOf(p, initiator)), worlds[id].Of(RoleOf(Other(p), initiator));
    Ratchet.AcceptedOnceAndAuthentic(worlds[id], RoleOf(p, initiator));
    assert AcceptedIs(d, id, side.accepted) && SentIs(peer, id, other.sent);
    if LoadMessage(d.store, KeyOf(d.peer, s.envelope)).Some? {
      assert HasCtr(side.accepted, s.envelope.ctr);
      var f :| f in side.accepted && f.ad.ctr == s.envelope.ctr;
      assert f in other.sent && HasFrame(peer, id, f);
      var b :| b in peer.sealed && b.envelope.sessionId == id && FrameOf(peer.conversationId, b) == f;
      SealedOnce(peer.sealed, s, b);
    }
  }

  /**
   * Every text decrypt() ever returned for an envelope is the text its sender gave to encrypt(), whoever the sender
   * was.
   */
  lemma TextsAreTheSenders(sys: System, p: Party, sender: Party)
    requires Reached(sys)
    ensures forall a, s :: a in sys.Of(p).answers && a.senderId == sys.Of(sender).me && s in sys.Of(sender).sealed
                           && SameCounter(a, s) ==>
              a.text == s.text
  {
    var worlds := ReachedHolds(sys);
    forall a, s | a in sys.Of(p).answers && a.senderId == sys.Of(sender).me && s in sys.Of(sender).sealed
    && SameCounter(a, s)
      ensures a.text == s.text
    {
      assert KeyOf(a.senderId, a.envelope) == KeyOf(a.senderId, s.envelope);
      if sender != p {
        var initiator := StoredIsAccepted(sys, worlds, p, s);
      }
    }
  }

  // -- Receiving ---------------------------------------------------------------

  /**
   * An honest envelope of a session that is not committed here still carries its init block, for the current prekey.
   */
  lemma MissingHasInit(sys: System, worlds: map<nat, R.World>, p: Party, e: Envelope)
    requires StoreOk(sys.Of(p)) && StoreOk(sys.Of(Other(p))) && SealedStays(sys.Of(Other(p)))
    requires LineOk(sys, worlds, Other(p), e.sessionId) && HasEnvelope(sys.Of(Other(p)).sealed, e)
    requires LoadRatchet(sys.Of(p).store, e.sessionId).Missing?
    ensures e.init.Some? && e.init.value.spkId == sys.Of(p).identity.spkId
  {
    var peer := sys.Of(Other(p));
    var a :| a in peer.sealed && a.envelope == e;
    LoadsOwn(peer, e.sessionId);
    assert Ends(peer, sys.Of(p), e.sessionId, worlds[e.sessionId].b);
  }

  lemma LoadFinds(d: Device, load: Event)
    requires StoreOk(d) && load.Load? && d.TabOf(load.tab).Holding? && d.TabOf(load.tab).job.ReceiveJob?
    requires var e := d.TabOf(load.tab).job.envelope;
             LoadRatchet(d.store, e.sessionId).Missing? ==> e.init.Some? && e.init.value.spkId == d.identity.spkId
    ensures Step(d, load).TabOf(load.tab).Ready? || Step(d, load).TabOf(load.tab).Shown?
  {
    LoadsOwn(d, d.TabOf(load.tab).job.envelope.sessionId);
  }

  /** What the invariant says about one tab and one session. */
  lemma TabFacts(sys: System, worlds: map<nat, R.World>, p: Party, t: TabId, id: nat)
    requires SystemInv(sys, worlds)
    ensures DeviceInv(sys.Of(p)) && SealedStays(sys.Of(p)) && StoreOk(sys.Of(Other(p))) && SealedStays(sys.Of(Other(p)))
    ensures TabTrue(sys, p, sys.Of(p).TabOf(t)) && LineOk(sys, worlds, p, id) && LineOk(sys, worlds, Other(p), id)
  {
  }

  /**
   * An honest envelope never fails for want of a session: under the lock it is found stored, or has a session to open
   * on.
   */
  lemma HonestEnvelopeFindsSession(sys: System, p: Party, load: Event)
    requires Reached(sys) && load.Load?
    requires sys.Of(p).TabOf(load.tab).Holding? && sys.Of(p).TabOf(load.tab).job.ReceiveJob?
    ensures var tab := Step(sys.Of(p), load).TabOf(load.tab);
            tab.Ready? || tab.Shown?
  {
    var worlds := ReachedHolds(sys);
    var e := sys.Of(p).TabOf(load.tab).job.envelope;
    TabFacts(sys, worlds, p, load.tab, e.sessionId);
    if LoadRatchet(sys.Of(p).store, e.sessionId).Missing? {
      MissingHasInit(sys, worlds, p, e);
    }
    LoadFinds(sys.Of(p), load);
  }

  /** The initiator's envelope comes without the init block only after the responder has committed the session. */
  lemma InitBlockUntilCommitted(sys: System, p: Party, s: Answer)
    requires Reached(sys) && s in sys.Of(p).sealed && Initiated(sys, p, s.envelope.sessionId) && s.envelope.init.None?
    ensures LoadRatchet(sys.Of(Other(p)).store, s.envelope.sessionId).Found?
  {
    var worlds := ReachedHolds(sys);
    var initiator := EnvelopeLine(sys, worlds, p, s);
    LoadsOwn(sys.Of(p), s.envelope.sessionId);
  }

  lemma {:induction false} CountedIsThere(frames: seq<R.Frame>, id: R.NumberId) returns (f: R.Frame)
    requires R.FrameCount(frames, id) > 0
    ensures f in frames && R.IdOf(f) == id
  {
    if R.IdOf(frames[0]) == id {
      f := frames[0];
    } else {
      f := CountedIsThere(frames[1..], id);
    }
  }

  lemma SentOnce(w: R.World, role: R.Role, f: R.Frame, g: R.Frame)
    requires Reach.Reachable(w) && f in w.Of(role).sent && g in w.Of(role).sent && R.SameNumber(f, g)
    ensures f == g
  {
    var h := Reach.ReachableHasHistory(w);
    assert R.RoleInv(w, h, role);
    SameNumberOnce(h, w.Of(role).sent, role, f, g);
  }

  lemma SameNumberOnce(h: R.History, sent: seq<R.Frame>, role: R.Role, f: R.Frame, g: R.Frame)
    requires R.SentAt(h, sent, role) && f in sent && g in sent && R.SameNumber(f, g)
    ensures f == g
  {
    var i :| 0 <= i < |sent| && sent[i] == f;
    var j :| 0 <= j < |sent| && sent[j] == g;
  }

  /** A frame that was not accepted has its number unaccepted too. */
  lemma NotAccepted(w: R.World, role: R.Role, f: R.Frame)
    requires Reach.Reachable(w) && f in w.Of(R.Peer(role)).sent && f !in w.Of(role).accepted
    ensures R.FrameCount(w.Of(role).accepted, R.IdOf(f)) == 0
  {
    if R.FrameCount(w.Of(role).accepted, R.IdOf(f)) > 0 {
      var g := CountedIsThere(w.Of(role).accepted, R.IdOf(f));
      Ratchet.AcceptedOnceAndAuthentic(w, role);
      SentOnce(w, R.Peer(role), f, g);
    }
  }

  /** The run a ready tab's session stands in, with the envelope among what the peer sent. */
  lemma OpeningRun(sys: System, worlds: map<nat, R.World>, p: Party, s: Answer, t: TabId) returns (initiator: Party)
    requires DeviceInv(sys.Of(p)) && SealedStays(sys.Of(p)) && StoreOk(sys.Of(Other(p)))
             && SealedStays(sys.Of(Other(p)))
    requires LineOk(sys, worlds, p, s.envelope.sessionId) && LineOk(sys, worlds, Other(p), s.envelope.sessionId)
    requires s in sys.Of(Other(p)).sealed && TabTrue(sys, p, sys.Of(p).TabOf(t))
    requires sys.Of(p).TabOf(t).Ready? && sys.Of(p).TabOf(t).job == ReceiveJob(sys.Of(p).peer, s.envelope)
    ensures sys.Of(p).TabOf(t).session.sessionId == s.envelope.sessionId && s.envelope.sessionId in worlds
    ensures Line(sys, initiator, s.envelope.sessionId, worlds[s.envelope.sessionId])
    ensures SideFits(sys.Of(p), sys.Of(p).TabOf(t).session, worlds[s.envelope.sessionId].Of(RoleOf(p, initiator)))
    ensures LoadMessage(sys.Of(p).store, KeyOf(sys.Of(p).peer, s.envelope)).None?
  {
    assert TabOk(sys.Of(p), sys.Of(p).TabOf(t));
    initiator := ReadyLine(sys, worlds, p, t, s.envelope, sys.Of(p).TabOf(t).session);
  }

  /** What the tab shows is what the ratchet opens. */
  lemma FinishShows(d: Device, finish: Event, e: Envelope)
    requires finish.Finish? && d.TabOf(finish.tab).Ready? && d.TabOf(finish.tab).job == ReceiveJob(d.peer, e)
    requires d.TabOf(finish.tab).session.sessionId == e.sessionId
             && d.TabOf(finish.tab).session.conversationId == d.conversationId
    ensures Step(d, finish).TabOf(finish.tab) ==
            match RatchetDecrypt(d.TabOf(finish.tab).session.state, Message(e),
                                 EnvelopeV2.Aad(d.conversationId, d.peer, e.sessionId, e.ctr), finish.now,
                                 finish.newKey)
            case Ok(o) => Shown(d.peer, e, o.plaintext)
            case Err(_) => Idle
    ensures Step(d, finish).TabOf(finish.tab).Idle? ==> Step(d, finish).store == d.store
  {
  }

  /** The run accepts the frame exactly when its key was not evicted and no skip is too long. */
  lemma RunOpens(w: R.World, role: R.Role, f: R.Frame, now: int, newKey: KeyId)
    requires Reach.Reachable(w) && f in w.Of(R.Peer(role)).sent && f !in w.Of(role).accepted && w.Of(role).expired == []
    ensures var r := RatchetDecrypt(w.Of(role).st, f.message, f.ad, now, newKey);
            && (r.Ok? <==>
                  R.KeyCount(w.Of(role).evicted, R.IdOf(f)) == 0
                  && Ratchet.SkipsBounded(w.Of(role).st, f.message.header))
            && (r.Ok? ==> r.value.plaintext == f.text)
  {
    NotAccepted(w, role, f);
    Ratchet.DeliveryExact(w, role, f, now, newKey);
  }

  /**
   * A tab about to open the peer's envelope shows its sender's text exactly when the message key was not evicted from
   * the skipped store and no single skip is longer than MAX_SKIP. The run w is the session's history, and role the
   * tab's end.
   */
  lemma OpensExactlyWhen(sys: System, p: Party, s: Answer, finish: Event) returns (w: R.World, role: R.Role)
    requires Reached(sys) && s in sys.Of(Other(p)).sealed && finish.Finish?
    requires sys.Of(p).TabOf(finish.tab).Ready?
             && sys.Of(p).TabOf(finish.tab).job == ReceiveJob(sys.Of(p).peer, s.envelope)
    ensures Reach.Reachable(w) && w.Of(role).st == sys.Of(p).TabOf(finish.tab).session.state
    ensures FrameOf(sys.Of(p).conversationId, s) in w.Of(R.Peer(role)).sent
    ensures var tab, d' := sys.Of(p).TabOf(finish.tab), Step(sys.Of(p), finish);
            if R.KeyCount(w.Of(role).evicted, (Some(s.envelope.header.dh), s.envelope.header.n)) == 0
               && Ratchet.SkipsBounded(tab.session.state, s.envelope.header)
            then d'.TabOf(finish.tab) == Shown(sys.Of(p).peer, s.envelope, s.text)
            else d'.TabOf(finish.tab) == Idle && d'.store == sys.Of(p).store
  {
    var worlds := ReachedHolds(sys);
    var initiator := OpeningFrame(sys, worlds, p, s, finish.tab);
    w, role := worlds[s.envelope.sessionId], RoleOf(p, initiator);
    RunOpens(w, role, FrameOf(sys.Of(p).conversationId, s), finish.now, finish.newKey);
    FinishShows(sys.Of(p), finish, s.envelope);
  }

  lemma OpeningFrame(sys: System, worlds: map<nat, R.World>, p: Party, s: Answer, t: TabId) returns (initiator: Party)
    requires SystemInv(sys, worlds) && s in sys.Of(Other(p)).sealed
    requires sys.Of(p).TabOf(t).Ready? && sys.Of(p).TabOf(t).job == ReceiveJob(sys.Of(p).peer, s.envelope)
    ensures sys.Of(p).TabOf(t).session.sessionId == s.envelope.sessionId && s.envelope.sessionId in worlds
            && s.senderId == sys.Of(p).peer
    ensures Reach.Reachable(worlds[s.envelope.sessionId])
    ensures SideFits(sys.Of(p), sys.Of(p).TabOf(t).session, worlds[s.envelope.sessionId].Of(RoleOf(p, initiator)))
    ensures FrameOf(sys.Of(p).conversationId, s) in worlds[s.envelope.sessionId].Of(R.Peer(RoleOf(p, initiator))).sent
    ensures FrameOf(sys.Of(p).conversationId, s) !in worlds[s.envelope.sessionId].Of(RoleOf(p, initiator)).accepted
  {
    TabFacts(sys, worlds, p, t, s.envelope.sessionId);
    initiator := OpeningRun(sys, worlds, p, s, t);
    FrameThere(sys, worlds, p, s, initiator);
  }

  lemma FrameThere(sys: System, worlds: map<nat, R.World>, p: Party, s: Answer, initiator: Party)
    requires SystemInv(sys, worlds) && s in sys.Of(Other(p)).sealed && s.envelope.sessionId in worlds
    requires Line(sys, initiator, s.envelope.sessionId, worlds[s.envelope.sessionId])
    requires LoadMessage(sys.Of(p).store, KeyOf(sys.Of(p).peer, s.envelope)).None?
    ensures s.senderId == sys.Of(p).peer
    ensures FrameOf(sys.Of(p).conversationId, s) in worlds[s.envelope.sessionId].Of(R.Peer(RoleOf(p, initiator))).sent
    ensures FrameOf(sys.Of(p).conversationId, s) !in worlds[s.envelope.sessionId].Of(RoleOf(p, initiator)).accepted
  {
    assert SentIs(sys.Of(Other(p)), s.envelope.sessionId,
                  worlds[s.envelope.sessionId].Of(R.Peer(RoleOf(p, initiator))).sent);
    assert AcceptedIs(sys.Of(p), s.envelope.sessionId, worlds[s.envelope.sessionId].Of(RoleOf(p, initiator)).accepted);
  }

  /**
   * A peer's message key is spent exactly when its text is in the vault: the stored text is the sender's, the run
   * behind the committed session has accepted the envelope, and the session will not open it again.
   */
  lemma SpentExactlyWhenStored(sys: System, p: Party, s: Answer, now: int, newKey: KeyId)
      returns (w: R.World, role: R.Role)
    requires Reached(sys) && s in sys.Of(Other(p)).sealed
    ensures Reach.Reachable(w)
    ensures match LoadRatchet(sys.Of(p).store, s.envelope.sessionId)
            case Found(session) => session.state == w.Of(role).st
            case _ => w.Of(role).accepted == []
    ensures var stored, f := LoadMessage(sys.Of(p).store, KeyOf(sys.Of(p).peer, s.envelope)),
                             FrameOf(sys.Of(p).conversationId, s);
            && (stored.Some? <==> f in w.Of(role).accepted)
            && (stored.Some? ==>
                  stored == Some(s.text) && RatchetDecrypt(w.Of(role).st, f.message, f.ad, now, newKey).Err?)
  {
    var worlds := ReachedHolds(sys);
    var d, id := sys.Of(p), s.envelope.sessionId;
    var initiator := StoredIsAccepted(sys, worlds, p, s);
    w, role := worlds[id], RoleOf(p, initiator);
    TabFacts(sys, worlds, p, 0, id);
    LoadsOwn(d, id);
    NothingAccepted(d, id, w.Of(role));
    var f := FrameOf(d.conversationId, s);
    if f in w.Of(role).accepted {
      SpentStaysSpent(w, role, f, now, newKey);
    }
  }

  lemma NothingAccepted(d: Device, id: nat, side: R.Side)
    requires StoreOk(d) && SideIs(d, id, side)
    ensures side.accepted != [] ==> LoadRatchet(d.store, id).Found?
  {
    if side.accepted != [] {
      var f := side.accepted[0];
      assert f in side.accepted && LoadMessage(d.store, TextKey(id, d.peer, f.ad.ctr)).Some?;
    }
  }

  lemma SpentStaysSpent(w: R.World, role: R.Role, f: R.Frame, now: int, newKey: KeyId)
    requires Reach.Reachable(w) && f in w.Of(role).accepted
    ensures RatchetDecrypt(w.Of(role).st, f.message, f.ad, now, newKey).Err?
  {
    var i :| 0 <= i < |w.Of(role).accepted| && w.Of(role).accepted[i] == f;
    Ratchet.OnceCounted(w.Of(role).accepted, i);
    Ratchet.AcceptedOnceAndAuthentic(w, role);
    Ratchet.DeliveryExact(w, role, f, now, newKey);
  }
}
