/** The v1 half of chat-front/src/services/E2EEService.ts for one conversation: encrypt and decrypt as whole calls. */
module ServiceV1 {
  import opened Wrappers
  import opened SymbolicCrypto
  import opened Padding
  import opened SessionV1
  import EnvelopeV2

  // Its invariant is that no session ever seals twice at one counter, nor at any counter past 199.

  datatype Counter = Counter(sessionId: nat, ctr: nat)

  type Sessions = map<nat, Session>

  predicate Usable(s: Session, initiatedOnly: bool) {
    s.retiredAt.None? && (initiatedOnly ==> s.role == Init)
  }

  /** A newest usable session, or none if there is none. */
  ghost predicate IsNewest(sessions: Sessions, initiatedOnly: bool, newest: Option<Session>) {
    match newest
    case None => forall id :: id in sessions ==> !Usable(sessions[id], initiatedOnly)
    case Some(s) =>
      && s.sessionId in sessions && sessions[s.sessionId] == s && Usable(s, initiatedOnly)
      && forall id :: id in sessions && Usable(sessions[id], initiatedOnly) ==> sessions[id].createdAt <= s.createdAt
  }

  /** The newest session this side initiated, or else the newest of the peer's. */
  ghost predicate IsActive(sessions: Sessions, active: Option<Session>) {
    || (active.Some? && IsNewest(sessions, true, active))
    || (IsNewest(sessions, true, None) && IsNewest(sessions, false, active))
  }

  function Newer(newest: Option<Session>, s: Session, initiatedOnly: bool): Option<Session> {
    if Usable(s, initiatedOnly) && (newest.None? || newest.value.createdAt < s.createdAt) then Some(s) else newest
  }

  lemma NewestAdds(sessions: Sessions, initiatedOnly: bool, newest: Option<Session>, s: Session)
    requires IsNewest(sessions, initiatedOnly, newest) && s.sessionId !in sessions
    ensures IsNewest(sessions[s.sessionId := s], initiatedOnly, Newer(newest, s, initiatedOnly))
  {
  }

  predicate Distinct(sealed: seq<Counter>) {
    forall i, j :: 0 <= i < j < |sealed| ==> sealed[i] != sealed[j]
  }

  /**
   * Sessions under their own ids, within their 200 messages; what was sealed lies below the session's counter, once.
   */
  ghost predicate CountersOk(sessions: Sessions, sealed: seq<Counter>) {
    && (forall id :: id in sessions ==> sessions[id].sessionId == id && sessions[id].sendCtr <= ROTATE_AFTER_MESSAGES)
    && (forall c :: c in sealed ==> c.sessionId in sessions && c.ctr < sessions[c.sessionId].sendCtr)
    && Distinct(sealed)
  }

  /** Who talks to whom, and what a new session takes: the peer's bundle, an id and an ephemeral key. */
  datatype Talk = Talk(me: nat, peerId: nat, conversationId: nat, identity: EnvelopeV2.Identity)
  datatype Supply = Supply(bundle: EnvelopeV2.PeerBundle, sessionId: nat, ek: KeyId)

  /** The sessions afterwards, the session sealed on as it was, and the init block if it is new. */
  datatype Prepared = Prepared(sessions: Sessions, session: Option<Session>, init: Option<EnvelopeV2.InitBlock>)

  /** The active session, or a new one in its place; a refused bundle leaves the old one retired. */
  function Prepare(talk: Talk, sessions: Sessions, active: Option<Session>, supply: Supply, now: int): Prepared {
    if active.Some? && !NeedsRotation(active.value, now) then Prepared(sessions, active, None)
    else
      var retired := if active.Some? then sessions[active.value.sessionId := active.value.(retiredAt := Some(now))]
                     else sessions;
      match InitiateSession(talk.conversationId, talk.peerId, talk.identity, supply.bundle, supply.sessionId, supply.ek,
                            now)
      case Err(_) => Prepared(retired, None, None)
      case Ok(initiated) => Prepared(retired, Some(initiated.session), Some(initiated.init))
  }

  datatype Encrypted = Encrypted(sessions: Sessions, result: Result<Envelope, SessionError>)

  /** The sessions with the counter spent. */
  function Spent(p: Prepared): Sessions {
    match p.session
    case None => p.sessions
    case Some(s) => p.sessions[s.sessionId := s.(sendCtr := s.sendCtr + 1)]
  }

  /** The counter is saved before the ciphertext exists, so a text that is too long burns it. */
  function EncryptWith(talk: Talk, sessions: Sessions, active: Option<Session>, body: seq<nat>, supply: Supply,
                       now: int): Encrypted {
    var p := Prepare(talk, sessions, active, supply, now);
    match p.session
    case None => Encrypted(Spent(p), Err(BadBundle))
    case Some(s) => Encrypted(Spent(p), Seal(s, talk.conversationId, talk.me, s.sendCtr, body, p.init))
  }

  function Logged(sealed: seq<Counter>, result: Result<Envelope, SessionError>): seq<Counter> {
    if result.Ok? then sealed + [Counter(result.value.sessionId, result.value.ctr)] else sealed
  }

  lemma PrepareKeeps(talk: Talk, sessions: Sessions, sealed: seq<Counter>, active: Option<Session>, supply: Supply,
                     now: int)
    requires CountersOk(sessions, sealed) && IsActive(sessions, active) && supply.sessionId !in sessions
    ensures var p := Prepare(talk, sessions, active, supply, now);
            && CountersOk(p.sessions, sealed)
            && (p.session.Some? ==>
                  && p.session.value.sendCtr < ROTATE_AFTER_MESSAGES
                  && (p.session.value.sessionId in p.sessions ==>
                        p.sessions[p.session.value.sessionId] == p.session.value)
                  && (p.session.value.sessionId !in p.sessions ==> p.session.value.sendCtr == 0))
  {
  }

  lemma SealKeeps(sessions: Sessions, sealed: seq<Counter>, s: Session)
    requires CountersOk(sessions, sealed) && s.sendCtr < ROTATE_AFTER_MESSAGES
    requires s.sessionId in sessions ==> sessions[s.sessionId] == s
    ensures CountersOk(sessions[s.sessionId := s.(sendCtr := s.sendCtr + 1)], sealed)
    ensures CountersOk(sessions[s.sessionId := s.(sendCtr := s.sendCtr + 1)],
                       sealed + [Counter(s.sessionId, s.sendCtr)])
  {
    var more := sealed + [Counter(s.sessionId, s.sendCtr)];
    forall i, j | 0 <= i < j < |more|
      ensures more[i] != more[j]
    {
      assert more[i] == sealed[i] && sealed[i] in sealed;
    }
  }

  /**
   * Whatever an encrypt meets (no session, a full or an old one, a refused bundle, a text that is too long), the
   * counters stay below 200 and no (sessionId, counter) is sealed twice.
   */
  lemma EncryptKeeps(talk: Talk, sessions: Sessions, sealed: seq<Counter>, active: Option<Session>, body: seq<nat>,
                     supply: Supply, now: int)
    requires CountersOk(sessions, sealed) && IsActive(sessions, active) && supply.sessionId !in sessions
    ensures var e := EncryptWith(talk, sessions, active, body, supply, now);
            && CountersOk(e.sessions, Logged(sealed, e.result))
            && (e.result.Ok? ==> e.result.value.ctr < ROTATE_AFTER_MESSAGES)
  {
    PrepareKeeps(talk, sessions, sealed, active, supply, now);
    var p := Prepare(talk, sessions, active, supply, now);
    if p.session.Some? {
      SealKeeps(p.sessions, sealed, p.session.value);
    }
  }

  /** An envelope encrypt returned reads back as its own text. */
  lemma EncryptReadsBack(talk: Talk, sessions: Sessions, active: Option<Session>, body: seq<nat>, supply: Supply,
                         now: int)
    requires EncryptWith(talk, sessions, active, body, supply, now).result.Ok?
    ensures var e := EncryptWith(talk, sessions, active, body, supply, now);
            && e.result.value.sessionId in e.sessions
            && OpenOwn(e.sessions[e.result.value.sessionId], talk.conversationId, talk.me, e.result.value) == Ok(body)
  {
    UnpadPad(body);
  }

  // -- Receiving ---------------------------------------------------------------

  /** The stored session, or one accepted from the peer's init block. */
  function SessionFor(talk: Talk, sessions: Sessions, senderId: nat, e: Envelope, now: int): Option<Session> {
    if e.sessionId in sessions then Some(sessions[e.sessionId])
    else if senderId == talk.me || e.init.None? then None
    else
      match AcceptSession(talk.conversationId, senderId, e.sessionId, talk.identity, e.init.value, now)
      case Err(_) => None
      case Ok(s) => Some(s)
  }

  function TextOf(talk: Talk, s: Session, senderId: nat, e: Envelope): Option<seq<nat>> {
    match if senderId == talk.me then OpenOwn(s, talk.conversationId, senderId, e)
          else Open(s, talk.conversationId, senderId, e)
    case Ok(body) => Some(body)
    case Err(_) => None
  }

  datatype Decrypted = Decrypted(sessions: Sessions, text: Option<seq<nat>>)

  /** An accepted session is kept even if the envelope then fails to open; a peer's highest counter is remembered. */
  function DecryptWith(talk: Talk, sessions: Sessions, senderId: nat, e: Envelope, now: int): Decrypted {
    match SessionFor(talk, sessions, senderId, e, now)
    case None => Decrypted(sessions, None)
    case Some(s) =>
      var text := TextOf(talk, s, senderId, e);
      var s' := if text.Some? && senderId != talk.me && e.ctr > s.peerMaxCtr then s.(peerMaxCtr := e.ctr) else s;
      Decrypted(sessions[e.sessionId := s'], text)
  }

  lemma DecryptKeeps(talk: Talk, sessions: Sessions, sealed: seq<Counter>, senderId: nat, e: Envelope, now: int)
    requires CountersOk(sessions, sealed)
    ensures CountersOk(DecryptWith(talk, sessions, senderId, e, now).sessions, sealed)
  {
  }

  /** The counter of a peer's envelope that opens, on the session it names. */
  function HeardCounter(talk: Talk, sessions: Sessions, senderId: nat, e: Envelope, now: int, id: nat): Option<nat> {
    if senderId != talk.me && e.sessionId == id && DecryptWith(talk, sessions, senderId, e, now).text.Some?
    then Some(e.ctr) else None
  }

  /** A decrypt remembers the highest counter heard of the peer, and changes nothing else of a stored session. */
  lemma DecryptRemembersHighest(talk: Talk, sessions: Sessions, senderId: nat, e: Envelope, now: int, id: nat)
    requires id in sessions
    ensures var sessions', heard := DecryptWith(talk, sessions, senderId, e, now).sessions,
                                    HeardCounter(talk, sessions, senderId, e, now, id);
            && id in sessions' && sessions'[id] == sessions[id].(peerMaxCtr := sessions'[id].peerMaxCtr)
            && (heard.None? ==> sessions'[id].peerMaxCtr == sessions[id].peerMaxCtr)
            && (heard.Some? ==>
                  && sessions'[id].peerMaxCtr >= sessions[id].peerMaxCtr && sessions'[id].peerMaxCtr >= heard.value
                  && (sessions'[id].peerMaxCtr == sessions[id].peerMaxCtr || sessions'[id].peerMaxCtr == heard.value))
  {
  }

  // -- What the other end shows ------------------------------------------------

  /** A new session and the one accepted from its init block share their chains exactly when the bundle was current. */
  lemma AcceptedAgrees(alice: EnvelopeV2.Identity, ek: KeyId, bundle: EnvelopeV2.PeerBundle, bob: EnvelopeV2.Identity)
    ensures bundle.spkId == bob.spkId ==>
              (ResponderSecret(bob, EnvelopeV2.InitBlock(ek, alice.x, bundle.spkId))
                 == InitiatorSecret(alice, ek, bundle)
               <==> EnvelopeV2.IsCurrent(bundle, bob))
  {
    DhAgrees(alice.x, bob.spk);
    DhAgrees(ek, bob.x);
    DhAgrees(ek, bob.spk);
    if Dh(alice.x, bob.spk) == Dh(alice.x, bundle.spk) {
      DhInjective(alice.x, bob.spk, bundle.spk);
    }
    if Dh(ek, bob.x) == Dh(ek, bundle.identityX) {
      DhInjective(ek, bob.x, bundle.identityX);
    }
  }

  predicate OwnIds(sessions: Sessions) {
    forall id :: id in sessions ==> sessions[id].sessionId == id && ChainsOk(sessions[id])
  }

  /**
   * An envelope that encrypt returned is shown by the other side's decrypt, as the text it was given, exactly when the
   * session's other end is stored there, or none is stored and the envelope carries an init block for the keys the
   * other side has now; and no other text is ever shown for it.
   */
  lemma ShownExactlyWhen(alice: Talk, sessions: Sessions, active: Option<Session>, body: seq<nat>, supply: Supply,
                         now: int,
                         bob: Talk, theirs: Sessions, later: int)
    requires alice.me != bob.me && alice.conversationId == bob.conversationId
    requires active.Some? ==> ChainsOk(active.value)
    requires OwnIds(theirs) && EncryptWith(alice, sessions, active, body, supply, now).result.Ok?
    ensures var e := EncryptWith(alice, sessions, active, body, supply, now).result.value;
            var s := Prepare(alice, sessions, active, supply, now).session.value;
            DecryptWith(bob, theirs, alice.me, e, later).text ==
              if (if e.sessionId in theirs then ReceiveRoot(theirs[e.sessionId]) == SendRoot(s)
                  else e.init.Some? && EnvelopeV2.IsCurrent(supply.bundle, bob.identity))
              then Some(body) else None
  {
    var e := EncryptWith(alice, sessions, active, body, supply, now).result.value;
    var s := Prepare(alice, sessions, active, supply, now).session.value;
    if SessionFor(bob, theirs, alice.me, e, later).Some? {
      var t := SessionFor(bob, theirs, alice.me, e, later).value;
      OpensExactlyWhere(s, t, alice.conversationId, alice.me, s.sendCtr, body,
                        Prepare(alice, sessions, active, supply, now).init,
                        bob.conversationId, alice.me, e);
    }
    AcceptedAgrees(alice.identity, supply.ek, supply.bundle, bob.identity);
  }

  // -- Rotation ----------------------------------------------------------------

  /**
   * The envelope is on the active session if and only if there is one, fewer than 200 of its counters are spent and it
   * is less than seven days old. Otherwise it opens the new session with its init block at counter 0, and the old one,
   * if there was one, is retired now. No other session is touched.
   */
  lemma RotatesExactlyWhen(talk: Talk, sessions: Sessions, active: Option<Session>, body: seq<nat>, supply: Supply,
                           now: int)
    requires IsActive(sessions, active) && supply.sessionId !in sessions
    requires EncryptWith(talk, sessions, active, body, supply, now).result.Ok?
    ensures var sessions' := EncryptWith(talk, sessions, active, body, supply, now).sessions;
            var e := EncryptWith(talk, sessions, active, body, supply, now).result.value;
            if active.Some? && active.value.sendCtr < 200 && now - active.value.createdAt < 7 * 24 * 60 * 60 * 1000 then
              && e.sessionId == active.value.sessionId && e.ctr == active.value.sendCtr && e.init.None?
              && sessions' == sessions[e.sessionId := active.value.(sendCtr := e.ctr + 1)]
            else
              && e.sessionId == supply.sessionId && e.ctr == 0 && e.init.Some?
              && e.sessionId in sessions'
              && sessions'[e.sessionId].sendCtr == 1 && sessions'[e.sessionId].createdAt == now
              && sessions' - {e.sessionId} ==
                   if active.None? then sessions
                   else sessions[active.value.sessionId := active.value.(retiredAt := Some(now))]
  {
  }

  /** Nothing is returned exactly when the text is too long, or a new session is due and the bundle is not signed. */
  lemma RefusedExactlyWhen(talk: Talk, sessions: Sessions, active: Option<Session>, body: seq<nat>, supply: Supply,
                           now: int)
    ensures var due := active.None? || active.value.sendCtr >= 200
                       || now - active.value.createdAt >= 7 * 24 * 60 * 60 * 1000;
            EncryptWith(talk, sessions, active, body, supply, now).result.Err?
            <==> |body| > 65535 || (due && !supply.bundle.signed)
  {
  }

  predicate IsRetired(sessions: Sessions, id: nat) {
    id in sessions && sessions[id].retiredAt.Some?
  }

  /** A retired session is never sealed on again, and stays retired. */
  lemma RetiredForGood(talk: Talk, sessions: Sessions, active: Option<Session>, body: seq<nat>, supply: Supply,
                       now: int, senderId: nat, e: Envelope, id: nat)
    requires IsActive(sessions, active) && supply.sessionId !in sessions && IsRetired(sessions, id)
    ensures var r := EncryptWith(talk, sessions, active, body, supply, now);
            IsRetired(r.sessions, id) && (r.result.Ok? ==> r.result.value.sessionId != id)
    ensures IsRetired(DecryptWith(talk, sessions, senderId, e, now).sessions, id)
  {
  }

  // -- The service, changing its sessions in place -----------------------------

  class Conversation {
    const talk: Talk
    var sessions: Sessions
    ghost var sealed: seq<Counter>    // every (sessionId, ctr) an envelope was sealed at

    ghost predicate Valid()
      reads this
    {
      CountersOk(sessions, sealed)
    }

    constructor (talk: Talk)
      ensures Valid() && sessions == map[] && sealed == []
    {
      this.talk := talk;
      sessions, sealed := map[], [];
    }

    method Newest(initiatedOnly: bool) returns (newest: Option<Session>)
      requires Valid()
      ensures IsNewest(sessions, initiatedOnly, newest)
    {
      newest := None;
      var rest := sessions.Keys;
      while rest != {}
        invariant rest <= sessions.Keys
        invariant IsNewest(sessions - rest, initiatedOnly, newest)
        decreases |rest|
      {
        var id :| id in rest;
        NewestAdds(sessions - rest, initiatedOnly, newest, sessions[id]);
        assert sessions - (rest - {id}) == (sessions - rest)[id := sessions[id]];
        rest := rest - {id};
        if Usable(sessions[id], initiatedOnly) && (newest.None? || newest.value.createdAt < sessions[id].createdAt) {
          newest := Some(sessions[id]);
        }
      }
      assert sessions - rest == sessions;
    }

    method ActiveSession() returns (active: Option<Session>)
      requires Valid()
      ensures IsActive(sessions, active)
    {
      active := Newest(true);
      if active.None? {
        active := Newest(false);
      }
    }

    method SaveSession(s: Session)
      modifies `sessions
      ensures sessions == old(sessions)[s.sessionId := s]
    {
      sessions := sessions[s.sessionId := s];
    }

    /** Seals at the active session's next counter, on a new session if there is none or it is due for rotation. */
    method Encrypt(body: seq<nat>, supply: Supply, now: int) returns (r: Result<Envelope, SessionError>)
      requires Valid() && supply.sessionId !in sessions
      modifies this
      ensures Valid()
      ensures exists active :: IsActive(old(sessions), active)
                               && Encrypted(sessions, r) == EncryptWith(talk, old(sessions), active, body, supply, now)
      ensures sealed == Logged(old(sealed), r)
    {
      var active := ActiveSession();
      EncryptKeeps(talk, sessions, sealed, active, body, supply, now);
      var init := None;
      var session;
      if active.None? || NeedsRotation(active.value, now) {
        if active.Some? {
          SaveSession(active.value.(retiredAt := Some(now)));
        }
        var initiated := InitiateSession(talk.conversationId, talk.peerId, talk.identity, supply.bundle,
                                         supply.sessionId, supply.ek, now);
        if initiated.Err? {
          return Err(initiated.error);
        }
        session := initiated.value.session;
        init := Some(initiated.value.init);
      } else {
        session := active.value;
      }
      var ctr := session.sendCtr;
      SaveSession(session.(sendCtr := ctr + 1));
      r := Seal(session, talk.conversationId, talk.me, ctr, body, init);
      sealed := Logged(sealed, r);
    }

    method Decrypt(senderId: nat, e: Envelope, now: int) returns (text: Option<seq<nat>>)
      requires Valid()
      modifies `sessions
      ensures Valid()
      ensures Decrypted(sessions, text) == DecryptWith(talk, old(sessions), senderId, e, now)
    {
      DecryptKeeps(talk, sessions, sealed, senderId, e, now);
      ghost var before := sessions;
      var session;
      if e.sessionId in sessions {
        session := sessions[e.sessionId];
      } else {
        if senderId == talk.me || e.init.None? {
          return None;
        }
        var accepted := AcceptSession(talk.conversationId, senderId, e.sessionId, talk.identity, e.init.value, now);
        if accepted.Err? {
          return None;
        }
        session := accepted.value;
        SaveSession(session);
      }
      assert sessions == before[e.sessionId := session];
      text := TextOf(talk, session, senderId, e);
      if text.Some? && senderId != talk.me && e.ctr > session.peerMaxCtr {
        SaveSession(session.(peerMaxCtr := e.ctr));
      }
    }
  }
}
