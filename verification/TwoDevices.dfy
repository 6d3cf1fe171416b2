/**
 * Two users' devices, each with its tabs, vault and crashes, and a server that delivers the envelopes they sealed in
 * any order and any number of times. Nothing is shredded.
 *
 * Every v2 session of the two devices is one run of the two-party ratchet machine: its worlds are the observer's
 * record.
 */
module TwoDevices {
  import opened Wrappers
  import opened SymbolicCrypto
  import opened Parties
  import opened DoubleRatchet
  import opened EnvelopeV2
  import opened Vault
  import opened Device
  import opened DeviceTheorems
  import opened DeviceCounters
  import R = RatchetRun
  import Reach = RatchetReach

  datatype System = System(alice: Device, bob: Device, used: set<KeyId>) {
    function Of(p: Party): Device {
      if p == Alice then alice else bob
    }

    function With(p: Party, d: Device): System {
      if p == Alice then this.(alice := d) else this.(bob := d)
    }
  }

  datatype Move = Move(party: Party, ev: Event)

  /** The key pairs an event generates. */
  function NewKeys(ev: Event): set<KeyId> {
    match ev
    case Load(_, _, _, _, ek, firstKey, _) => {ek, firstKey}
    case Finish(_, _, newKey, _) => {newKey}
    case _ => {}
  }

  predicate HasEnvelope(sealed: seq<Answer>, e: Envelope) {
    exists a :: a in sealed && a.envelope == e
  }

  predicate FreshId(sys: System, sessionId: nat) {
    sessionId !in sys.alice.seen && sessionId !in sys.bob.seen
  }

  /** Envelopes come from one of the two devices, bundles from the peer, and generated keys and ids are new. */
  ghost predicate Honest(sys: System, m: Move) {
    && Enabled(sys.Of(m.party), m.ev) && !m.ev.Shred?
    && NewKeys(m.ev) !! sys.used
    && (match m.ev
        case StartReceive(_, senderId, e) => exists q :: senderId == sys.Of(q).me && HasEnvelope(sys.Of(q).sealed, e)
        case Load(_, latest, bundle, sessionId, _, _, _) =>
          && (bundle.signed ==> bundle == BundleOf(sys.Of(Other(m.party)).identity))
          && (sys.Of(m.party).TabOf(m.ev.tab).job.SendJob? && latest.None? ==> FreshId(sys, sessionId))
        case _ => true)
  }

  function Apply(sys: System, m: Move): System {
    sys.With(m.party, Step(sys.Of(m.party), m.ev)).(used := sys.used + NewKeys(m.ev))
  }

  function IdentityKeys(id: Identity): set<KeyId> {
    {id.x, id.spk}
  }

  predicate Paired(sys: System) {
    && sys.alice.me == sys.bob.peer && sys.bob.me == sys.alice.peer && sys.alice.me != sys.bob.me
    && sys.alice.conversationId == sys.bob.conversationId
    && IdentityKeys(sys.alice.identity) + IdentityKeys(sys.bob.identity) <= sys.used
  }

  predicate IsFreshSystem(sys: System) {
    Paired(sys) && IsFreshDevice(sys.alice) && IsFreshDevice(sys.bob)
  }

  // -- One session as a run of the ratchet machine -----------------------------

  /** A sealed envelope as the ratchet machine sees it. */
  function FrameOf(conversationId: nat, a: Answer): R.Frame {
    R.Frame(Message(a.envelope), EnvelopeV2.Aad(conversationId, a.senderId, a.envelope.sessionId, a.envelope.ctr),
            a.text)
  }

  predicate HasFrame(d: Device, id: nat, f: R.Frame) {
    exists a :: a in d.sealed && a.envelope.sessionId == id && FrameOf(d.conversationId, a) == f
  }

  /** What the device sealed under a session is what the party sent. */
  ghost predicate SentIs(d: Device, id: nat, sent: seq<R.Frame>) {
    && (forall a :: a in d.sealed && a.envelope.sessionId == id ==> FrameOf(d.conversationId, a) in sent)
    && (forall f :: f in sent ==> HasFrame(d, id, f))
  }

  predicate HasCtr(accepted: seq<R.Frame>, ctr: nat) {
    exists f :: f in accepted && f.ad.ctr == ctr
  }

  /**
   * The peer's texts in the vault are what the party accepted: a message key is spent exactly when its text is stored.
   */
  ghost predicate AcceptedIs(d: Device, id: nat, accepted: seq<R.Frame>) {
    && (forall f :: f in accepted ==>
          f.ad == EnvelopeV2.Aad(d.conversationId, d.peer, id, f.ad.ctr)
          && LoadMessage(d.store, TextKey(id, d.peer, f.ad.ctr)) == Some(f.text))
    && (forall ctr: nat :: LoadMessage(d.store, TextKey(id, d.peer, ctr)).Some? ==> HasCtr(accepted, ctr))
  }

  ghost predicate SideIs(d: Device, id: nat, side: R.Side) {
    && (match LoadRatchet(d.store, id)
        case Found(s) => s.state == side.st && s.conversationId == d.conversationId
        case _ => true)
    && SentIs(d, id, side.sent)
    && AcceptedIs(d, id, side.accepted)
    && side.expired == []
  }

  /** The initiator attaches the init block until it has accepted an answer, so until the responder has committed. */
  ghost predicate InitBlocks(i: Device, s: RatchetSession, answered: bool) {
    && (s.peerReplied ==> answered)
    && (forall a :: a in i.sealed && a.envelope.sessionId == s.sessionId ==>
          a.envelope.init == s.init || (a.envelope.init == None && answered))
  }

  /** What both ends hold of a session that i initiated toward r. */
  ghost predicate Ends(i: Device, r: Device, id: nat, b: R.Side) {
    match LoadRatchet(i.store, id)
    case Found(s) =>
      && s.initiator && s.init.Some? && s.init.value.spkId == r.identity.spkId
      && InitBlocks(i, s, LoadRatchet(r.store, id).Found?)
      && (match LoadRatchet(r.store, id)
          case Found(other) => !other.initiator
          case _ => b == R.SideInit(InitResponder(ResponderSecret(r.identity, s.init.value), r.identity.spk)))
    case _ => false
  }

  ghost predicate Line(sys: System, p: Party, id: nat, w: R.World) {
    && Reach.Reachable(w) && w.used <= sys.used
    && Ends(sys.Of(p), sys.Of(Other(p)), id, w.b)
    && SideIs(sys.Of(p), id, w.a)
    && SideIs(sys.Of(Other(p)), id, w.b)
  }

  /** The party that initiated a session both devices know of at most one initiator for. */
  predicate Initiated(sys: System, p: Party, id: nat) {
    match LoadRatchet(sys.Of(p).store, id)
    case Found(s) => s.initiator
    case _ => false
  }

  ghost predicate LineOk(sys: System, worlds: map<nat, R.World>, p: Party, id: nat) {
    && (Initiated(sys, p, id) ==> id in worlds && Line(sys, p, id, worlds[id]))
    && (LoadRatchet(sys.Of(p).store, id).Found? && !Initiated(sys, p, id) ==> Initiated(sys, Other(p), id))
  }

  // -- What the tabs have in memory --------------------------------------------

  /** A session just initiated with the peer's bundle, under an id the peer has not seen. */
  ghost predicate NewSession(sys: System, p: Party, session: RatchetSession) {
    var d, peer := sys.Of(p), sys.Of(Other(p));
    && session.sessionId !in peer.seen
    && exists ek, firstKey, now ::
         && StartInitiator(d.conversationId, d.peer, d.identity, BundleOf(peer.identity), session.sessionId, ek,
                           firstKey, now) == Ok(session)
         && firstKey in sys.used && firstKey !in IdentityKeys(d.identity) + IdentityKeys(peer.identity)
  }

  ghost predicate JobTrue(sys: System, p: Party, job: Job) {
    job.ReceiveJob? ==> job.senderId == sys.Of(p).peer && HasEnvelope(sys.Of(Other(p)).sealed, job.envelope)
  }

  ghost predicate StartedFrom(d: Device, senderId: nat, e: Envelope, session: RatchetSession) {
    e.init.Some?
    && exists now :: StartResponder(d.conversationId, senderId, e.sessionId, d.identity, e.init.value, now)
         == Ok(session)
  }

  ghost predicate TabTrue(sys: System, p: Party, tab: Tab) {
    match tab
    case Waiting(job) => JobTrue(sys, p, job)
    case Holding(job) => JobTrue(sys, p, job)
    case Ready(job, session) =>
      && JobTrue(sys, p, job)
      && (LoadRatchet(sys.Of(p).store, session.sessionId).Missing? ==>
            match job
            case SendJob(_) => NewSession(sys, p, session)
            case ReceiveJob(senderId, e) => StartedFrom(sys.Of(p), senderId, e, session))
    case _ => true
  }

  ghost predicate TabsTrue(sys: System, p: Party) {
    forall t: TabId :: TabTrue(sys, p, sys.Of(p).TabOf(t))
  }

  ghost predicate DeviceOk(d: Device) {
    DeviceInv(d) && Kept(d) && SealedStays(d) && CountersBelow(d) && Distinct(d.sealed)
  }

  ghost predicate SystemInv(sys: System, worlds: map<nat, R.World>) {
    && Paired(sys)
    && DeviceOk(sys.alice) && DeviceOk(sys.bob)
    && TabsTrue(sys, Alice) && TabsTrue(sys, Bob)
    && (forall p, id :: LineOk(sys, worlds, p, id))
  }
}
