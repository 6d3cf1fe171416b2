/** Envelope v2 of chat-front/src/crypto/envelopeV2.ts: X3DH establishment, and ratchet sessions on the wire. */
module EnvelopeV2 {
  import opened Wrappers
  import opened SymbolicCrypto
  import opened DoubleRatchet

  datatype InitBlock = InitBlock(ephPub: KeyId, ik: KeyId, spkId: nat)

  datatype Envelope = Envelope(sessionId: nat, ctr: nat, header: Header, ct: Ciphertext<string>,
                               init: Option<InitBlock>)

  /** The X25519 part of a stored identity; each pair is named by its key id. */
  datatype Identity = Identity(x: KeyId, spkId: nat, spk: KeyId)

  /** What the key directory answers; `signed` says whether the prekey signature verifies. */
  datatype PeerBundle = PeerBundle(identityX: KeyId, spkId: nat, spk: KeyId, signed: bool)

  datatype RatchetSession = RatchetSession(
    sessionId: nat,
    conversationId: nat,
    peerId: nat,
    initiator: bool,
    createdAt: int,
    sendTotal: nat,
    peerReplied: bool,
    init: Option<InitBlock>,
    state: RatchetState)

  datatype EnvelopeError = BadBundle | UnknownPrekey | SessionMismatch | Ratchet(error: RatchetError)

  function Aad(conversationId: nat, senderId: nat, sessionId: nat, ctr: nat): AssociatedData {
    AssociatedData(V2, conversationId, senderId, sessionId, ctr)
  }

  function BundleOf(id: Identity): PeerBundle {
    PeerBundle(id.x, id.spkId, id.spk, true)
  }

  /** A bundle that names a person's keys as they are now; a reset gives new ones under the same prekey id. */
  predicate IsCurrent(bundle: PeerBundle, identity: Identity) {
    bundle.identityX == identity.x && bundle.spkId == identity.spkId && bundle.spk == identity.spk
  }

  function InitiatorSecret(identity: Identity, ek: KeyId, bundle: PeerBundle): Secret {
    Master(V2, Dh(identity.x, bundle.spk), Dh(ek, bundle.identityX), Dh(ek, bundle.spk))
  }

  function ResponderSecret(identity: Identity, init: InitBlock): Secret {
    Master(V2, Dh(identity.spk, init.ik), Dh(identity.x, init.ephPub), Dh(identity.spk, init.ephPub))
  }

  /** Both ends derive the same X3DH secret. */
  lemma SecretsAgree(alice: Identity, bob: Identity, ek: KeyId)
    ensures ResponderSecret(bob, InitBlock(ek, alice.x, bob.spkId)) == InitiatorSecret(alice, ek, BundleOf(bob))
  {
    DhAgrees(alice.x, bob.spk);
    DhAgrees(ek, bob.x);
    DhAgrees(ek, bob.spk);
  }

  function StartInitiator(conversationId: nat, peerId: nat, identity: Identity, bundle: PeerBundle,
                          sessionId: nat, ek: KeyId, firstKey: KeyId, now: int): Result<RatchetSession, EnvelopeError>
  {
    if !bundle.signed then Err(BadBundle)
    else Ok(RatchetSession(sessionId, conversationId, peerId, true, now, 0, false,
                           Some(InitBlock(ek, identity.x, bundle.spkId)),
                           InitInitiator(InitiatorSecret(identity, ek, bundle), bundle.spk, firstKey)))
  }

  function StartResponder(conversationId: nat, peerId: nat, sessionId: nat, identity: Identity, init: InitBlock,
                          now: int)
      : Result<RatchetSession, EnvelopeError>
  {
    if init.spkId != identity.spkId then Err(UnknownPrekey)
    else Ok(RatchetSession(sessionId, conversationId, peerId, false, now, 0, true, None,
                           InitResponder(ResponderSecret(identity, init), identity.spk)))
  }

  datatype SealedV2 = SealedV2(envelope: Envelope, next: RatchetSession)

  function SealV2(session: RatchetSession, senderId: nat, text: string): Result<SealedV2, EnvelopeError> {
    var ctr := session.sendTotal;
    match RatchetEncrypt(session.state, text, Aad(session.conversationId, senderId, session.sessionId, ctr))
    case Err(e) => Err(Ratchet(e))
    case Ok(e) =>
      var init := if session.initiator && !session.peerReplied then session.init else None;
      Ok(SealedV2(Envelope(session.sessionId, ctr, e.message.header, e.message.ciphertext, init),
                  session.(sendTotal := ctr + 1, state := e.next)))
  }

  datatype OpenedV2 = OpenedV2(text: string, next: RatchetSession)

  function Message(envelope: Envelope): RatchetMessage {
    RatchetMessage(envelope.header, envelope.ct)
  }

  function OpenV2(session: RatchetSession, senderId: nat, envelope: Envelope, now: int,
                  newKey: KeyId): Result<OpenedV2, EnvelopeError> {
    if envelope.sessionId != session.sessionId then Err(SessionMismatch)
    else
      match RatchetDecrypt(session.state, Message(envelope),
                           Aad(session.conversationId, senderId, envelope.sessionId, envelope.ctr), now, newKey)
      case Err(e) => Err(Ratchet(e))
      case Ok(d) => Ok(OpenedV2(d.plaintext, session.(peerReplied := true, state := d.next)))
  }

  /** A session that can be committed: it has a sending chain. */
  predicate CanSend(s: RatchetSession) {
    s.state.cks.Some?
  }

  /** A session before its first acceptance: a responder's, with no peer key and nothing stored. */
  predicate Untouched(s: RatchetSession) {
    s.state.dhr.None? && s.state.skipped == []
  }

  /** Whatever opens leaves a session that can send, so no committed session ever raises no_sending_chain. */
  lemma OpeningGivesSendingChain(s: RatchetSession, senderId: nat, envelope: Envelope, now: int, newKey: KeyId)
    requires CanSend(s) || Untouched(s)
    requires OpenV2(s, senderId, envelope, now, newKey).Ok?
    ensures CanSend(OpenV2(s, senderId, envelope, now, newKey).value.next)
  {
  }

  /**
   * A sealed ciphertext opens only where it belongs: whatever envelope carries it and whatever session opens it, the
   * sender, conversation, session, counter and header are the sealed ones, and so is the text.
   */
  lemma OpensOnlyAsSealed(s: RatchetSession, me: nat, text: string, t: RatchetSession, senderId: nat, e: Envelope,
                          now: int, newKey: KeyId)
    requires SealV2(s, me, text).Ok? && e.ct == SealV2(s, me, text).value.envelope.ct
    requires OpenV2(t, senderId, e, now, newKey).Ok?
    ensures var wire := SealV2(s, me, text).value.envelope;
            && senderId == me && t.conversationId == s.conversationId && t.sessionId == s.sessionId
            && e.sessionId == wire.sessionId && e.ctr == wire.ctr && e.header == wire.header
            && OpenV2(t, senderId, e, now, newKey).value.text == text
  {
  }

  /**
   * A fresh exchange: the first envelope of an initiator opens on a responder started from its init block, and each
   * end's session names the other.
   */
  lemma FirstEnvelopeOpens(conv: nat, alice: Identity, aliceId: nat, bob: Identity, bobId: nat,
                           sessionId: nat, ek: KeyId, firstKey: KeyId, newKey: KeyId, now: int, text: string)
    ensures var a := StartInitiator(conv, bobId, alice, BundleOf(bob), sessionId, ek, firstKey, now);
            a.Ok? && SealV2(a.value, aliceId, text).Ok? &&
            var e := SealV2(a.value, aliceId, text).value.envelope;
            e.init.Some? && StartResponder(conv, aliceId, sessionId, bob, e.init.value, now).Ok? &&
            var b := StartResponder(conv, aliceId, sessionId, bob, e.init.value, now).value;
            OpenV2(b, aliceId, e, now, newKey).Ok? && OpenV2(b, aliceId, e, now, newKey).value.text == text
            && a.value.peerId == bobId && b.peerId == aliceId && a.value.initiator && !b.initiator
            && a.value.conversationId == b.conversationId == conv
  {
    SecretsAgree(alice, bob, ek);
    DhAgrees(firstKey, bob.spk);
  }

  /** Toward whatever signed bundle: the first envelope opens on the other side exactly when the bundle was current. */
  lemma FirstEnvelopeOpensExactlyWhen(conv: nat, alice: Identity, aliceId: nat, bundle: PeerBundle, bob: Identity,
                                      bobId: nat, sessionId: nat, ek: KeyId, firstKey: KeyId, newKey: KeyId, now: int,
                                      text: string)
    requires bundle.signed
    ensures var e := SealV2(StartInitiator(conv, bobId, alice, bundle, sessionId, ek, firstKey, now).value, aliceId,
                            text).value.envelope;
            var b := StartResponder(conv, aliceId, sessionId, bob, e.init.value, now);
            IsCurrent(bundle, bob) <==> b.Ok? && OpenV2(b.value, aliceId, e, now, newKey).Ok?
  {
    SecretsAgreeExactlyWhen(alice, ek, bundle, bob);
    DhAgrees(firstKey, bob.spk);
    DhAgrees(firstKey, bundle.spk);
  }

  lemma SecretsAgreeExactlyWhen(alice: Identity, ek: KeyId, bundle: PeerBundle, bob: Identity)
    ensures bundle.spkId == bob.spkId ==>
              (ResponderSecret(bob, InitBlock(ek, alice.x, bundle.spkId)) == InitiatorSecret(alice, ek, bundle)
               <==> IsCurrent(bundle, bob))
  {
    SecretsAgree(alice, bob, ek);
    if Dh(alice.x, bob.spk) == Dh(alice.x, bundle.spk) {
      DhInjective(alice.x, bob.spk, bundle.spk);
    }
    if Dh(ek, bob.x) == Dh(ek, bundle.identityX) {
      DhInjective(ek, bob.x, bundle.identityX);
    }
  }
}
