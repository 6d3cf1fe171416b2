/** encrypt, decryptV2 and shredConversation as they run when no other tab interferes, over the vault in place. */
module E2EEService {
  import opened Wrappers
  import opened SymbolicCrypto
  import opened EnvelopeV2
  import opened Vault
  import opened Device
  import V1 = SessionV1

  // chat-front/src/services/E2EEService.ts; and that a call is what one tab's steps of the device machine do.

  datatype Owner = Owner(me: nat, peer: nat, conversationId: nat, identity: Identity)

  /** What a call draws: the peer's bundle and a session id if it needs a session, and new keys. */
  datatype Draw = Draw(bundle: PeerBundle, sessionId: nat, ek: KeyId, firstKey: KeyId, newKey: KeyId, newDek: nat,
                       now: int)

  datatype Encrypted = Encrypted(store: Store, result: Result<Envelope, EnvelopeError>)

  function SessionToSend(o: Owner, latest: Option<RatchetSession>, draw: Draw): Result<RatchetSession, EnvelopeError> {
    match latest
    case Some(session) => Ok(session)
    case None =>
      StartInitiator(o.conversationId, o.peer, o.identity, draw.bundle, draw.sessionId, draw.ek, draw.firstKey,
                     draw.now)
  }

  function EncryptWith(o: Owner, store: Store, latest: Option<RatchetSession>, text: string, draw: Draw): Encrypted {
    match SessionToSend(o, latest, draw)
    case Err(e) => Encrypted(store, Err(e))
    case Ok(session) =>
      match SealV2(session, o.me, text)
      case Err(e) => Encrypted(store, Err(e))
      case Ok(s) => Encrypted(Commit(store, s.next, KeyOf(o.me, s.envelope), text, draw.newDek), Ok(s.envelope))
  }

  datatype Decrypted = Decrypted(store: Store, text: Option<string>)

  function SessionToOpen(o: Owner, store: Store, senderId: nat, e: Envelope, now: int): Option<RatchetSession> {
    match LoadRatchet(store, e.sessionId)
    case Unreadable => None
    case Found(session) => Some(session)
    case Missing =>
      if e.init.None? then None
      else
        match StartResponder(o.conversationId, senderId, e.sessionId, o.identity, e.init.value, now)
        case Err(_) => None
        case Ok(session) => Some(session)
  }

  function DecryptWith(o: Owner, store: Store, senderId: nat, e: Envelope, draw: Draw): Decrypted {
    match LoadMessage(store, KeyOf(senderId, e))
    case Some(text) => Decrypted(store, Some(text))
    case None =>
      if senderId == o.me then Decrypted(store, None)
      else
        match SessionToOpen(o, store, senderId, e, draw.now)
        case None => Decrypted(store, None)
        case Some(session) =>
          match OpenV2(session, senderId, e, draw.now, draw.newKey)
          case Err(_) => Decrypted(store, None)
          case Ok(plain) =>
            Decrypted(Commit(store, plain.next, KeyOf(senderId, e), plain.text, draw.newDek), Some(plain.text))
  }

  /** A session row that the key cannot open is an end: nothing is started in its place and nothing changes. */
  lemma UnreadableIsKept(o: Owner, store: Store, senderId: nat, e: Envelope, draw: Draw)
    requires LoadRatchet(store, e.sessionId).Unreadable?
    ensures DecryptWith(o, store, senderId, e, draw) == Decrypted(store, LoadMessage(store, KeyOf(senderId, e)))
  {
  }

  class Service {
    const owner: Owner
    const vault: VaultDb
    var v1Sessions: map<nat, V1.Session>    // the conversation's sessions in the key store

    constructor (owner: Owner, vault: VaultDb)
      ensures this.owner == owner && this.vault == vault && v1Sessions == map[]
    {
      this.owner, this.vault, v1Sessions := owner, vault, map[];
    }

    /** The ratchet advances and the own text is stored before the envelope leaves. */
    method Encrypt(text: string, draw: Draw) returns (r: Result<Envelope, EnvelopeError>)
      modifies vault
      ensures exists latest :: IsLatest(old(vault.Value()), latest)
                               && Encrypted(vault.Value(), r)
                                    == EncryptWith(owner, old(vault.Value()), latest, text, draw)
    {
      var latest := vault.Latest();
      var session;
      if latest.Some? {
        session := latest.value;
      } else {
        var started := StartInitiator(owner.conversationId, owner.peer, owner.identity, draw.bundle, draw.sessionId,
                                      draw.ek, draw.firstKey, draw.now);
        if started.Err? {
          return Err(started.error);
        }
        session := started.value;
      }
      var s := SealV2(session, owner.me, text);
      if s.Err? {
        return Err(s.error);
      }
      vault.PutCommit(s.value.next, Some(Text(KeyOf(owner.me, s.value.envelope), text)), draw.newDek);
      r := Ok(s.value.envelope);
    }

    /**
     * The vault answers what it has; a peer's new message advances the ratchet together with its text, or nothing at
     * all.
     */
    method DecryptV2(senderId: nat, e: Envelope, draw: Draw) returns (text: Option<string>)
      modifies vault
      ensures Decrypted(vault.Value(), text) == DecryptWith(owner, old(vault.Value()), senderId, e, draw)
    {
      text := vault.Text(KeyOf(senderId, e));
      if text.Some? || senderId == owner.me {
        return;
      }
      var loaded := vault.Session(e.sessionId);
      if loaded.Unreadable? {
        return;
      }
      var session;
      if loaded.Found? {
        session := loaded.session;
      } else {
        if e.init.None? {
          return;
        }
        var started := StartResponder(owner.conversationId, senderId, e.sessionId, owner.identity, e.init.value,
                                      draw.now);
        if started.Err? {
          return;
        }
        session := started.value;
      }
      var o := OpenV2(session, senderId, e, draw.now, draw.newKey);
      if o.Err? {
        return;
      }
      vault.PutCommit(o.value.next, Some(Text(KeyOf(senderId, e), o.value.text)), draw.newDek);
      text := Some(o.value.text);
    }

    /** Under a cursor, one session after the other. */
    method DeleteConversationData() returns (removed: nat)
      modifies `v1Sessions
      ensures v1Sessions == map[] && removed == old(|v1Sessions|)
    {
      removed := 0;
      while v1Sessions.Keys != {}
        invariant removed + |v1Sessions| == old(|v1Sessions|)
        decreases |v1Sessions|
      {
        var id :| id in v1Sessions.Keys;
        assert |(v1Sessions - {id}).Keys| == |v1Sessions.Keys - {id}| by {
          assert (v1Sessions - {id}).Keys == v1Sessions.Keys - {id};
        }
        v1Sessions := v1Sessions - {id};
        removed := removed + 1;
      }
    }

    method ShredConversation() returns (sealedRows: nat, v1Removed: nat)
      modifies vault, `v1Sessions
      ensures vault.Value() == EMPTY && v1Sessions == map[]
      ensures sealedRows == old(|vault.ratchets| + |vault.texts|) && v1Removed == old(|v1Sessions|)
    {
      sealedRows := vault.Shred();
      v1Removed := DeleteConversationData();
    }
  }

  // -- A call is a run of one tab's steps --------------------------------------

  predicate Owns(o: Owner, d: Device) {
    d.me == o.me && d.peer == o.peer && d.conversationId == o.conversationId && d.identity == o.identity
  }

  /** One tab's last steps, with a session in hand. */
  function Complete(d: Device, t: TabId, draw: Draw): Device {
    var finished := Step(d, Finish(t, draw.now, draw.newKey, draw.newDek));
    if finished.TabOf(t).Sent? || finished.TabOf(t).Shown? then Step(finished, Return(t)) else finished
  }

  /** One tab's steps with the lock in hand, each taken if the one before got that far. */
  function UnderLock(d: Device, t: TabId, latest: Option<RatchetSession>, draw: Draw): Device {
    var loaded := Step(d, Load(t, latest, draw.bundle, draw.sessionId, draw.ek, draw.firstKey, draw.now));
    if loaded.TabOf(t).Ready? then Complete(loaded, t, draw)
    else if loaded.TabOf(t).Shown? then Step(loaded, Return(t))
    else loaded
  }

  /** From a free lock: the call starts, gets the lock if it still needs it, and works under it. */
  function Uninterrupted(d: Device, t: TabId, start: Event, latest: Option<RatchetSession>, draw: Draw): Device {
    var started := Step(d, start);
    if started.TabOf(t).Waiting? then UnderLock(Step(started, Acquire(t)), t, latest, draw) else started
  }

  /** The tab is done and the lock is free. */
  predicate AtRest(d: Device, t: TabId) {
    d.lock == None && d.TabOf(t).Idle?
  }

  lemma CompletesSend(d: Device, t: TabId, text: string, session: RatchetSession, draw: Draw)
    requires d.lock == Some(t) && d.TabOf(t) == Ready(SendJob(text), session)
    ensures var d' := Complete(d, t, draw);
            && AtRest(d', t)
            && match SealV2(session, d.me, text)
               case Err(_) => d'.store == d.store && d'.returned == d.returned
               case Ok(s) =>
                 && d'.store == Commit(d.store, s.next, KeyOf(d.me, s.envelope), text, draw.newDek)
                 && d'.returned == d.returned + [Answer(d.me, s.envelope, text)]
  {
  }

  lemma CompletesReceive(d: Device, t: TabId, senderId: nat, e: Envelope, session: RatchetSession, draw: Draw)
    requires d.lock == Some(t) && d.TabOf(t) == Ready(ReceiveJob(senderId, e), session)
    ensures var d' := Complete(d, t, draw);
            && AtRest(d', t)
            && match OpenV2(session, senderId, e, draw.now, draw.newKey)
               case Err(_) => d'.store == d.store && d'.answers == d.answers
               case Ok(plain) =>
                 && d'.store == Commit(d.store, plain.next, KeyOf(senderId, e), plain.text, draw.newDek)
                 && d'.answers == d.answers + [Answer(senderId, e, plain.text)]
  {
  }

  lemma EncryptIsUninterrupted(o: Owner, d: Device, t: TabId, latest: Option<RatchetSession>, text: string, draw: Draw)
    requires Owns(o, d) && AtRest(d, t)
    ensures var d', r := Uninterrupted(d, t, StartSend(t, text), latest, draw),
                         EncryptWith(o, d.store, latest, text, draw);
            && d'.store == r.store && AtRest(d', t)
            && d'.returned == if r.result.Ok? then d.returned + [Answer(o.me, r.result.value, text)] else d.returned
  {
    var held := Step(Step(d, StartSend(t, text)), Acquire(t));
    var loaded := Step(held, Load(t, latest, draw.bundle, draw.sessionId, draw.ek, draw.firstKey, draw.now));
    if loaded.TabOf(t).Ready? {
      CompletesSend(loaded, t, text, loaded.TabOf(t).session, draw);
    }
  }

  lemma OpensUnderLock(o: Owner, d: Device, t: TabId, latest: Option<RatchetSession>, senderId: nat, e: Envelope,
                       draw: Draw)
    requires Owns(o, d) && d.lock == Some(t) && d.TabOf(t) == Holding(ReceiveJob(senderId, e))
    requires LoadMessage(d.store, KeyOf(senderId, e)).None? && senderId != o.me
    ensures var d', r := UnderLock(d, t, latest, draw), DecryptWith(o, d.store, senderId, e, draw);
            && d'.store == r.store && AtRest(d', t)
            && d'.answers == if r.text.Some? then d.answers + [Answer(senderId, e, r.text.value)] else d.answers
  {
    var loaded := LoadForReceive(d, t, senderId, e, draw.now);
    if loaded.TabOf(t).Ready? {
      CompletesReceive(loaded, t, senderId, e, loaded.TabOf(t).session, draw);
    }
  }

  lemma DecryptIsUninterrupted(o: Owner, d: Device, t: TabId, latest: Option<RatchetSession>, senderId: nat,
                               e: Envelope, draw: Draw)
    requires Owns(o, d) && AtRest(d, t)
    ensures var d', r := Uninterrupted(d, t, StartReceive(t, senderId, e), latest, draw),
                         DecryptWith(o, d.store, senderId, e, draw);
            && d'.store == r.store && AtRest(d', t)
            && d'.answers == if r.text.Some? then d.answers + [Answer(senderId, e, r.text.value)] else d.answers
  {
    var started := Step(d, StartReceive(t, senderId, e));
    if started.TabOf(t).Waiting? {
      OpensUnderLock(o, Step(started, Acquire(t)), t, latest, senderId, e, draw);
    }
  }
}
