/**
 * One device's end-to-end service, chat-front/src/services/E2EEService.ts, for one conversation: any number of tabs
 * that send and receive on v2 sessions under the cross-tab lock, that crash anywhere, and a shredding operation.
 *
 * A tab's asynchronous steps interleave freely; the only atomic parts are single store transactions and the lock.
 */
module Device {
  import opened Wrappers
  import opened SymbolicCrypto
  import opened EnvelopeV2
  import opened Vault

  type TabId = nat

  datatype Job = SendJob(text: string) | ReceiveJob(senderId: nat, envelope: Envelope)

  datatype Tab =
    | Idle
    | Waiting(job: Job)                              // asked for the lock
    | Holding(job: Job)                              // has the lock, has read nothing yet
    | Ready(job: Job, session: RatchetSession)       // has a session in memory
    | Sent(text: string, envelope: Envelope)         // committed, about to return the envelope
    | Shown(senderId: nat, envelope: Envelope, text: string) // committed or found, about to return the text

  datatype Answer = Answer(senderId: nat, envelope: Envelope, text: string)

  datatype Device = Device(
    me: nat,
    peer: nat,
    conversationId: nat,
    identity: Identity,
    store: Store,
    lock: Option<TabId>,
    tabs: map<TabId, Tab>,
    seen: set<nat>,             // session ids this device ever made or was shown
    sealed: seq<Answer>,        // every committed send, with its text
    returned: seq<Answer>,      // the envelopes encrypt() returned
    answers: seq<Answer>)       // the texts decrypt() returned
  {
    function TabOf(t: TabId): Tab {
      if t in tabs then tabs[t] else Idle
    }

    function With(t: TabId, tab: Tab): Device {
      this.(tabs := tabs[t := tab])
    }

    /** The tab is done with its job; withLock lets go of the lock. */
    function Release(t: TabId): Device {
      this.(tabs := tabs[t := Idle], lock := if lock == Some(t) then None else lock)
    }
  }

  function KeyOf(senderId: nat, e: Envelope): TextKey {
    TextKey(e.sessionId, senderId, e.ctr)
  }

  datatype Event =
    | StartSend(tab: TabId, text: string)
    | StartReceive(tab: TabId, senderId: nat, envelope: Envelope)
    | Acquire(tab: TabId)
    | Load(tab: TabId, latest: Option<RatchetSession>, bundle: PeerBundle, sessionId: nat, ek: KeyId, firstKey: KeyId,
           now: int)
    | Finish(tab: TabId, now: int, newKey: KeyId, newDek: nat)
    | Return(tab: TabId)
    | Crash(tab: TabId)
    | Shred

  ghost predicate Enabled(d: Device, ev: Event) {
    match ev
    case StartSend(t, _) => d.TabOf(t).Idle?
    case StartReceive(t, _, _) => d.TabOf(t).Idle?
    case Acquire(t) => d.TabOf(t).Waiting? && d.lock.None?
    case Load(t, latest, _, sessionId, _, _, _) =>
      && d.TabOf(t).Holding?
      && (d.TabOf(t).job.SendJob? ==> IsLatest(d.store, latest) && (latest.None? ==> sessionId !in d.seen))
    case Finish(t, _, _, _) => d.TabOf(t).Ready?
    case Return(t) => d.TabOf(t).Sent? || d.TabOf(t).Shown?
    case Crash(t) => true
    case Shred => d.lock.None?
  }

  /** decryptV2 before the lock: the vault answers what it has; own messages are never looked for elsewhere. */
  function FirstLook(d: Device, t: TabId, senderId: nat, e: Envelope): Device {
    var d' := d.(seen := d.seen + {e.sessionId});
    match LoadMessage(d.store, KeyOf(senderId, e))
    case Some(text) => d'.(answers := d.answers + [Answer(senderId, e, text)])
    case None => if senderId == d.me then d' else d'.With(t, Waiting(ReceiveJob(senderId, e)))
  }

  /** encrypt() under the lock: the newest session, or a new one toward the peer's bundle. */
  function LoadForSend(d: Device, t: TabId, text: string, latest: Option<RatchetSession>, bundle: PeerBundle,
                       sessionId: nat, ek: KeyId, firstKey: KeyId, now: int): Device
  {
    match latest
    case Some(session) => d.With(t, Ready(SendJob(text), session))
    case None =>
      match StartInitiator(d.conversationId, d.peer, d.identity, bundle, sessionId, ek, firstKey, now)
      case Err(_) => d.Release(t)
      case Ok(session) => d.(seen := d.seen + {sessionId}).With(t, Ready(SendJob(text), session))
  }

  /** decryptV2 under the lock: the vault again, then the session, or a responder started from the init block. */
  function LoadForReceive(d: Device, t: TabId, senderId: nat, e: Envelope, now: int): Device {
    match LoadMessage(d.store, KeyOf(senderId, e))
    case Some(text) => d.With(t, Shown(senderId, e, text))
    case None =>
      match LoadRatchet(d.store, e.sessionId)
      case Unreadable => d.Release(t)
      case Found(session) => d.With(t, Ready(ReceiveJob(senderId, e), session))
      case Missing =>
        if e.init.None? then d.Release(t)
        else
          match StartResponder(d.conversationId, senderId, e.sessionId, d.identity, e.init.value, now)
          case Err(_) => d.Release(t)
          case Ok(session) => d.With(t, Ready(ReceiveJob(senderId, e), session))
  }

  /** Seal, then commit ratchet and own text together. */
  function FinishSend(d: Device, t: TabId, text: string, session: RatchetSession, newDek: nat): Device {
    match SealV2(session, d.me, text)
    case Err(_) => d.Release(t)
    case Ok(s) =>
      var store := Commit(d.store, s.next, KeyOf(d.me, s.envelope), text, newDek);
      d.(store := store, sealed := d.sealed + [Answer(d.me, s.envelope, text)]).With(t, Sent(text, s.envelope))
  }

  /** Open, then commit the advanced ratchet and the text together; a failure leaves the store alone. */
  function FinishReceive(d: Device, t: TabId, senderId: nat, e: Envelope, session: RatchetSession, now: int,
                         newKey: KeyId, newDek: nat): Device {
    match OpenV2(session, senderId, e, now, newKey)
    case Err(_) => d.Release(t)
    case Ok(o) =>
      d.(store := Commit(d.store, o.next, KeyOf(senderId, e), o.text, newDek)).With(t, Shown(senderId, e, o.text))
  }

  function Step(d: Device, ev: Event): Device {
    match ev
    case StartSend(t, text) => d.With(t, Waiting(SendJob(text)))
    case StartReceive(t, senderId, e) => FirstLook(d, t, senderId, e)
    case Acquire(t) =>
      if d.TabOf(t).Waiting? then d.(lock := Some(t)).With(t, Holding(d.TabOf(t).job)) else d
    case Load(t, latest, bundle, sessionId, ek, firstKey, now) =>
      (match d.TabOf(t)
       case Holding(SendJob(text)) => LoadForSend(d, t, text, latest, bundle, sessionId, ek, firstKey, now)
       case Holding(ReceiveJob(senderId, e)) => LoadForReceive(d, t, senderId, e, now)
       case _ => d)
    case Finish(t, now, newKey, newDek) =>
      (match d.TabOf(t)
       case Ready(SendJob(text), session) => FinishSend(d, t, text, session, newDek)
       case Ready(ReceiveJob(senderId, e), session) => FinishReceive(d, t, senderId, e, session, now, newKey, newDek)
       case _ => d)
    case Return(t) =>
      (match d.TabOf(t)
       case Sent(text, e) => d.Release(t).(returned := d.returned + [Answer(d.me, e, text)])
       case Shown(senderId, e, text) => d.Release(t).(answers := d.answers + [Answer(senderId, e, text)])
       case _ => d)
    case Crash(t) => d.Release(t)
    case Shred => d.(store := EMPTY)
  }

  // -- What holds in every state, shredding included ---------------------------

  predicate Locked(tab: Tab) {
    tab.Holding? || tab.Ready? || tab.Sent? || tab.Shown?
  }

  ghost predicate OneHolder(d: Device) {
    forall t: TabId :: Locked(d.TabOf(t)) ==> d.lock == Some(t)
  }

  /** The session a tab works on is the committed one, or a new one that nobody has committed. */
  predicate SessionFresh(d: Device, session: RatchetSession) {
    match LoadRatchet(d.store, session.sessionId)
    case Found(stored) => stored == session
    case Missing => session.sendTotal == 0
    case Unreadable => false
  }

  predicate HasSealed(sealed: seq<Answer>, sessionId: nat) {
    exists a :: a in sealed && a.envelope.sessionId == sessionId
  }

  predicate HasCounter(sealed: seq<Answer>, sessionId: nat, ctr: nat) {
    exists a :: a in sealed && a.envelope.sessionId == sessionId && a.envelope.ctr == ctr
  }

  ghost predicate TabOk(d: Device, tab: Tab) {
    match tab
    case Idle => true
    case Waiting(job) => job.ReceiveJob? ==> job.senderId != d.me && job.envelope.sessionId in d.seen
    case Holding(job) => job.ReceiveJob? ==> job.senderId != d.me && job.envelope.sessionId in d.seen
    case Ready(SendJob(_), session) =>
      && session.sessionId in d.seen
      && SessionFresh(d, session) && CanSend(session)
      && (LoadRatchet(d.store, session.sessionId).Missing? ==> !HasSealed(d.sealed, session.sessionId))
    case Ready(ReceiveJob(senderId, e), session) =>
      && senderId != d.me && session.sessionId == e.sessionId && e.sessionId in d.seen
      && SessionFresh(d, session) && LoadMessage(d.store, KeyOf(senderId, e)).None?
      && (CanSend(session) || (Untouched(session) && LoadRatchet(d.store, e.sessionId).Missing?))
    case Sent(text, e) => LoadMessage(d.store, KeyOf(d.me, e)) == Some(text)
    case Shown(senderId, e, text) => LoadMessage(d.store, KeyOf(senderId, e)) == Some(text)
  }

  ghost predicate TabsOk(d: Device) {
    forall t: TabId :: TabOk(d, d.TabOf(t))
  }

  /** Stored sessions are known and can send; texts belong to them, own texts below the session's send counter. */
  ghost predicate StoreOk(d: Device) {
    && Readable(d.store) && d.store.ratchets.Keys <= d.seen
    && (forall id :: id in d.store.ratchets ==> CanSend(d.store.ratchets[id].value))
    && (forall key :: key in d.store.texts ==>
          && key.sessionId in d.store.ratchets
          && (key.senderId == d.me ==> key.ctr < d.store.ratchets[key.sessionId].value.sendTotal))
  }

  /** Own sends only; every session a send was sealed on was sealed on from counter 0, and its id is known. */
  ghost predicate SealedOk(d: Device) {
    && (forall a :: a in d.sealed ==>
          a.senderId == d.me && a.envelope.sessionId in d.seen && HasCounter(d.sealed, a.envelope.sessionId, 0))
    && (forall id :: id in d.store.ratchets && d.store.ratchets[id].value.sendTotal > 0 ==> HasCounter(d.sealed, id, 0))
  }

  ghost predicate DeviceInv(d: Device) {
    OneHolder(d) && TabsOk(d) && StoreOk(d) && SealedOk(d)
  }
}
