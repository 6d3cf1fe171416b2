/** The v1 chain sessions of chat-front/src/crypto/session.ts and envelope.ts: two chains, keys addressed by counter. */
module SessionV1 {
  import opened Wrappers
  import opened SymbolicCrypto
  import opened Padding
  import EnvelopeV2

  const ROTATE_AFTER_MESSAGES: nat := 200
  const ROTATE_AFTER_MS: int := 7 * 24 * 60 * 60 * 1000

  datatype Role = Init | Resp

  datatype Session = Session(
    sessionId: nat,
    conversationId: nat,
    peerId: nat,
    role: Role,
    ckInit: Secret,
    ckResp: Secret,
    sendCtr: nat,
    peerMaxCtr: int,
    createdAt: int,
    retiredAt: Option<int>)

  datatype Envelope = Envelope(sessionId: nat, ctr: nat, ct: Ciphertext<seq<nat>>, init: Option<EnvelopeV2.InitBlock>)

  datatype SessionError = BadBundle | UnknownPrekey | SessionMismatch | AuthFailed | Pad(error: PadError)

  function InitiatorSecret(identity: EnvelopeV2.Identity, ek: KeyId, bundle: EnvelopeV2.PeerBundle): Secret {
    Master(V1, Dh(identity.x, bundle.spk), Dh(ek, bundle.identityX), Dh(ek, bundle.spk))
  }

  function ResponderSecret(identity: EnvelopeV2.Identity, init: EnvelopeV2.InitBlock): Secret {
    Master(V1, Dh(identity.spk, init.ik), Dh(identity.x, init.ephPub), Dh(identity.spk, init.ephPub))
  }

  function NewSession(sessionId: nat, conversationId: nat, peerId: nat, role: Role, sk: Secret, now: int): Session {
    Session(sessionId, conversationId, peerId, role, SessionChain(sk, InitToResp), SessionChain(sk, RespToInit), 0, -1,
            now, None)
  }

  datatype Initiated = Initiated(session: Session, init: EnvelopeV2.InitBlock)

  function InitiateSession(conversationId: nat, peerId: nat, identity: EnvelopeV2.Identity,
                           bundle: EnvelopeV2.PeerBundle,
                           sessionId: nat, ek: KeyId, now: int): Result<Initiated, SessionError>
  {
    if !bundle.signed then Err(BadBundle)
    else Ok(Initiated(NewSession(sessionId, conversationId, peerId, Init, InitiatorSecret(identity, ek, bundle), now),
                      EnvelopeV2.InitBlock(ek, identity.x, bundle.spkId)))
  }

  function AcceptSession(conversationId: nat, peerId: nat, sessionId: nat, identity: EnvelopeV2.Identity,
                         init: EnvelopeV2.InitBlock, now: int): Result<Session, SessionError>
  {
    if init.spkId != identity.spkId then Err(UnknownPrekey)
    else Ok(NewSession(sessionId, conversationId, peerId, Resp, ResponderSecret(identity, init), now))
  }

  /** The key of message n: the chain is walked n steps from its root. */
  function MessageKey(root: Secret, n: nat): Secret {
    CounterKey(Advance(root, n))
  }

  method MessageKeyAt(root: Secret, n: nat) returns (key: Secret)
    ensures key == MessageKey(root, n)
  {
    var ck := root;
    for i := 0 to n
      invariant ck == Advance(root, i)
    {
      ck := ChainNext(ck);
    }
    key := CounterKey(ck);
  }

  /** Different messages of a chain, and messages of different chains, have different keys. */
  lemma KeysDiffer(x: Secret, m: nat, y: Secret, n: nat)
    requires x.SessionChain? && y.SessionChain?
    ensures MessageKey(x, m) == MessageKey(y, n) <==> x == y && m == n
  {
    if MessageKey(x, m) == MessageKey(y, n) {
      AdvanceInjective(x, m, y, n);
    }
  }

  function SendRoot(s: Session): Secret {
    if s.role == Init then s.ckInit else s.ckResp
  }

  function ReceiveRoot(s: Session): Secret {
    if s.role == Init then s.ckResp else s.ckInit
  }

  predicate NeedsRotation(s: Session, now: int) {
    s.sendCtr >= ROTATE_AFTER_MESSAGES || now - s.createdAt >= ROTATE_AFTER_MS
  }

  function Ad(conversationId: nat, senderId: nat, sessionId: nat, ctr: nat): Aad {
    Plain(AssociatedData(V1, conversationId, senderId, sessionId, ctr))
  }

  /** The init block rides only on counter 0. */
  function Seal(s: Session, conversationId: nat, senderId: nat, ctr: nat, body: seq<nat>,
                init: Option<EnvelopeV2.InitBlock>)
      : Result<Envelope, SessionError>
  {
    if |body| > MAX_BODY then Err(Pad(TooLong))
    else
      var key := MessageKey(SendRoot(s), ctr);
      Ok(Envelope(s.sessionId, ctr,
                  GcmEncrypt(CipherKey(key), CipherIv(key), Padded(body),
                             Ad(conversationId, senderId, s.sessionId, ctr)),
                  if ctr == 0 then init else None))
  }

  function OpenWith(root: Secret, s: Session, conversationId: nat, senderId: nat,
                    e: Envelope): Result<seq<nat>, SessionError> {
    if e.sessionId != s.sessionId then Err(SessionMismatch)
    else
      var key := MessageKey(root, e.ctr);
      match GcmDecrypt(CipherKey(key), CipherIv(key), e.ct, Ad(conversationId, senderId, e.sessionId, e.ctr))
      case None => Err(AuthFailed)
      case Some(padded) =>
        match Unpad(padded)
        case Err(error) => Err(Pad(error))
        case Ok(body) => Ok(body)
  }

  function Open(s: Session, conversationId: nat, senderId: nat, e: Envelope): Result<seq<nat>, SessionError> {
    OpenWith(ReceiveRoot(s), s, conversationId, senderId, e)
  }

  function OpenOwn(s: Session, conversationId: nat, senderId: nat, e: Envelope): Result<seq<nat>, SessionError> {
    OpenWith(SendRoot(s), s, conversationId, senderId, e)
  }

  // -- Round trips -------------------------------------------------------------

  /** The same session at another time: counters and retirement have moved, the chains have not. */
  predicate SameChains(s: Session, t: Session) {
    t.sessionId == s.sessionId && t.role == s.role && t.ckInit == s.ckInit && t.ckResp == s.ckResp
  }

  /** A session id names one session, with real chain roots. */
  predicate ChainsOk(s: Session) {
    s.ckInit.SessionChain? && s.ckResp.SessionChain? && s.ckInit != s.ckResp
  }

  /** Two ends of one session. */
  predicate Ends(s: Session, t: Session) {
    ChainsOk(s) && t.sessionId == s.sessionId && t.role != s.role && t.ckInit == s.ckInit && t.ckResp == s.ckResp
  }

  /** An initiated session and the one its init block establishes on the other side are two ends, then and later. */
  lemma HandshakeAgrees(conversationId: nat, alice: EnvelopeV2.Identity, aliceId: nat, bob: EnvelopeV2.Identity,
                        bobId: nat,
                        sessionId: nat, ek: KeyId, now: int, later: int, a: Session, b: Session)
    requires var i := InitiateSession(conversationId, bobId, alice, EnvelopeV2.BundleOf(bob), sessionId, ek, now);
             SameChains(i.value.session, a) &&
             var r := AcceptSession(conversationId, aliceId, sessionId, bob, i.value.init, later);
             r.Ok? && SameChains(r.value, b)
    ensures Ends(a, b) && Ends(b, a)
    ensures var i := InitiateSession(conversationId, bobId, alice, EnvelopeV2.BundleOf(bob), sessionId, ek, now).value;
            var accepted := AcceptSession(conversationId, aliceId, sessionId, bob, i.init, later).value;
            && i.session.peerId == bobId && accepted.peerId == aliceId
            && i.session.conversationId == accepted.conversationId == conversationId
  {
    DhAgrees(alice.x, bob.spk);
    DhAgrees(ek, bob.x);
    DhAgrees(ek, bob.spk);
  }

  /**
   * One end's envelope, at any counter, opens on the other end, wherever that holds the session, and by openOwn on its
   * own, to the same text.
   */
  lemma SealedOpens(s: Session, t: Session, conversationId: nat, senderId: nat, ctr: nat, body: seq<nat>,
                    init: Option<EnvelopeV2.InitBlock>)
    requires Ends(s, t) && |body| <= MAX_BODY
    ensures var e := Seal(s, conversationId, senderId, ctr, body, init);
            e.Ok? && Open(t, conversationId, senderId, e.value) == Ok(body)
            && OpenOwn(s, conversationId, senderId, e.value) == Ok(body)
  {
    UnpadPad(body);
  }

  /**
   * A sealed ciphertext opens on an end exactly where it belongs: whatever envelope carries it, it opens if and only if
   * that end receives on the chain it was sealed on and session, counter, conversation and sender are the sealed ones.
   */
  lemma OpensExactlyWhere(s: Session, t: Session, conversationId: nat, senderId: nat, ctr: nat, body: seq<nat>,
                          init: Option<EnvelopeV2.InitBlock>,
                          conversation': nat, sender': nat, e: Envelope)
    requires ChainsOk(s) && ChainsOk(t) && |body| <= MAX_BODY
    requires e.ct == Seal(s, conversationId, senderId, ctr, body, init).value.ct
    ensures Open(t, conversation', sender', e).Ok? <==>
            && ReceiveRoot(t) == SendRoot(s) && t.sessionId == s.sessionId == e.sessionId && e.ctr == ctr
            && conversation' == conversationId && sender' == senderId
    ensures Open(t, conversation', sender', e).Ok? ==> Open(t, conversation', sender', e).value == body
  {
    UnpadPad(body);
    KeysDiffer(SendRoot(s), ctr, ReceiveRoot(t), e.ctr);
  }
}
