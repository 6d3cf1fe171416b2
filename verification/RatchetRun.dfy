/**
 * Two parties and a network that drops, duplicates, reorders and forges.
 *
 * A run is a sequence of events. The network delivers any header, any associated data and any
 * ciphertext either party ever sealed, or noise: it holds no keys, so it cannot seal.
 */
module RatchetRun {
  import opened Wrappers
  import opened SymbolicCrypto
  import opened DoubleRatchet

  datatype Role = Initiator | Responder

  function Peer(role: Role): Role {
    if role == Initiator then Responder else Initiator
  }

  datatype Frame = Frame(message: RatchetMessage, ad: AssociatedData, text: string)

  /** One party: its ratchet state, and what an observer wrote down about it. */
  datatype Side = Side(
    st: RatchetState,
    sent: seq<Frame>,
    accepted: seq<Frame>,
    evicted: seq<SkippedKey>,
    expired: seq<SkippedKey>)

  datatype World = World(a: Side, b: Side, used: set<KeyId>) {
    function Of(role: Role): Side {
      if role == Initiator then a else b
    }

    function With(role: Role, side: Side): World {
      if role == Initiator then this.(a := side) else this.(b := side)
    }
  }

  datatype Event =
    | Send(role: Role, text: string, ad: AssociatedData)
    | Deliver(role: Role, message: RatchetMessage, ad: AssociatedData, now: int, newKey: KeyId)
    | Expire(role: Role, maxAge: int, now: int)

  function SideInit(st: RatchetState): Side {
    Side(st, [], [], [], [])
  }

  /** The keys behind the first part of an X3DH secret. */
  function OuterKeys(secret: Secret): set<KeyId> {
    if secret.Master? && secret.dh1.Shared? then {secret.dh1.lo, secret.dh1.hi} else {}
  }

  /** A session starts from an X3DH secret, the responder's prekey and a newly generated initiator key. */
  datatype Setup = Setup(secret: Secret, prekey: KeyId, firstKey: KeyId, used: set<KeyId>) {
    predicate Proper() {
      && secret.Master? && secret.dh1.Shared?
      && {prekey, firstKey} + OuterKeys(secret) <= used
      && firstKey !in {prekey} + OuterKeys(secret)
    }
  }

  function Start(s: Setup): World {
    World(SideInit(InitInitiator(s.secret, s.prekey, s.firstKey)), SideInit(InitResponder(s.secret, s.prekey)), s.used)
  }

  /** Noise, or a ciphertext one of the parties sealed. */
  predicate InPool(w: World, ct: Ciphertext<string>) {
    || ct.Garbage?
    || (exists i :: 0 <= i < |w.a.sent| && w.a.sent[i].message.ciphertext == ct)
    || (exists i :: 0 <= i < |w.b.sent| && w.b.sent[i].message.ciphertext == ct)
  }

  predicate Enabled(w: World, ev: Event) {
    ev.Deliver? ==> ev.newKey !in w.used && InPool(w, ev.message.ciphertext)
  }

  function SendStep(side: Side, text: string, ad: AssociatedData): Side {
    match RatchetEncrypt(side.st, text, ad)
    case Err(_) => side
    case Ok(e) => side.(st := e.next, sent := side.sent + [Frame(e.message, ad, text)])
  }

  function DeliverStep(side: Side, message: RatchetMessage, ad: AssociatedData, now: int, newKey: KeyId): Side {
    match RatchetDecrypt(side.st, message, ad, now, newKey)
    case Err(_) => side
    case Ok(d) =>
      side.(st := d.next, accepted := side.accepted + [Frame(message, ad, d.plaintext)],
            evicted := side.evicted + d.evicted)
  }

  function ExpireStep(side: Side, maxAge: int, now: int): Side {
    side.(st := ExpireSkipped(side.st, maxAge, now).next, expired := side.expired + Older(side.st.skipped, maxAge, now))
  }

  function Step(w: World, ev: Event): World {
    match ev
    case Send(role, text, ad) => w.With(role, SendStep(w.Of(role), text, ad))
    case Deliver(role, message, ad, now, newKey) =>
      w.With(role, DeliverStep(w.Of(role), message, ad, now, newKey)).(used := w.used + {newKey})
    case Expire(role, maxAge, now) => w.With(role, ExpireStep(w.Of(role), maxAge, now))
  }

  function Run(w: World, events: seq<Event>): World {
    if events == [] then w else Step(Run(w, events[..|events| - 1]), events[|events| - 1])
  }

  predicate Valid(w: World, events: seq<Event>) {
    events != [] ==>
      Valid(w, events[..|events| - 1]) && Enabled(Run(w, events[..|events| - 1]), events[|events| - 1])
  }

  // -- What a run has been: one epoch per ratchet key --------------------------

  datatype Sent = Sent(ad: AssociatedData, text: string)

  /** A ratchet key, the root and sending-chain keys its owner derived with it, and what it sent under them. */
  datatype Epoch = Epoch(key: KeyId, root: Secret, chain: Secret, msgs: seq<Sent>)

  /** Where a sent frame stands: chain and number. */
  datatype Place = Place(chain: nat, n: nat)

  type History = seq<Epoch>

  /** Key 0 is the responder's prekey, key 1 the initiator's first; from there they alternate. */
  function Owner(chain: nat): Role {
    if chain % 2 == 1 then Initiator else Responder
  }

  /** The newest key a party owns: the very newest, or the one before it. */
  function Current(h: History, role: Role): nat
    requires |h| >= 2
  {
    var top := |h| - 1;
    if Owner(top) == role then top else top - 1
  }

  function PreviousLength(h: History, chain: nat): nat
    requires chain < |h|
  {
    if chain >= 2 then |h[chain - 2].msgs| else 0
  }

  predicate Exists(h: History, p: Place) {
    1 <= p.chain < |h| && p.n < |h[p.chain].msgs|
  }

  function HeaderAt(h: History, p: Place): Header
    requires p.chain < |h|
  {
    Header(h[p.chain].key, PreviousLength(h, p.chain), p.n)
  }

  function TrueKey(h: History, p: Place): Secret
    requires p.chain < |h|
  {
    KeyAt(h[p.chain].chain, p.n)
  }

  function FrameAt(h: History, p: Place): Frame
    requires Exists(h, p)
  {
    var m := h[p.chain].msgs[p.n];
    Frame(SealWith(TrueKey(h, p), HeaderAt(h, p), m.text, m.ad), m.ad, m.text)
  }

  /** Epoch j grows out of epoch j - 1 by one root KDF step over the shared secret of their two keys. */
  predicate Linked(h: History, j: nat)
    requires 1 <= j < |h|
  {
    var out := Dh(h[j - 1].key, h[j].key);
    h[j].root == RootKey(h[j - 1].root, out) && h[j].chain == ChainRoot(h[j - 1].root, out)
  }

  /** The epochs follow the root KDF, from an X3DH secret on, over pairwise distinct keys. */
  ghost predicate Derived(h: History) {
    && |h| >= 2
    && h[0].root.Master? && h[0].root.dh1.Shared?
    && h[0].msgs == []
    && (forall j :: 1 <= j < |h| ==> h[j].key !in OuterKeys(h[0].root))
    && (forall j :: 1 <= j < |h| ==> Linked(h, j))
    && (forall i, j :: 0 <= i < j < |h| ==> h[i].key != h[j].key)
  }

  ghost predicate KeysUsed(h: History, used: set<KeyId>) {
    && (forall j :: 0 <= j < |h| ==> h[j].key in used)
    && (h != [] ==> OuterKeys(h[0].root) <= used)
  }

  /** A later history: the same keys and roots, and more of them; the chains only grew. */
  ghost predicate Extends(h: History, h': History) {
    && |h| <= |h'|
    && forall j :: 0 <= j < |h| ==>
         h[j].key == h'[j].key && h[j].root == h'[j].root && h[j].chain == h'[j].chain && h[j].msgs <= h'[j].msgs
  }

  /** Below this number a party has passed every message of the chain. */
  function Passed(h: History, nr: nat, e: nat, chain: nat): nat
    requires chain < |h|
  {
    if chain + 1 == e then nr else |h[chain].msgs|
  }

  /** A party at epoch e sends on chain e and receives on chain e - 1. */
  ghost predicate StateAt(h: History, st: RatchetState, e: nat)
    requires e < |h|
  {
    && st.dhs == h[e].key
    && st.rk == h[e].root
    && st.ns == |h[e].msgs|
    && st.pn == PreviousLength(h, e)
    && st.cks == (if e == 0 then None else Some(Advance(h[e].chain, st.ns)))
    && st.dhr == (if e == 0 then None else Some(h[e - 1].key))
    && st.ckr == (if e <= 1 then None else Some(Advance(h[e - 1].chain, st.nr)))
    && (if e <= 1 then st.nr == 0 else st.nr <= |h[e - 1].msgs|)
  }

  ghost predicate IsFrameAt(h: History, f: Frame, p: Place) {
    Exists(h, p) && f == FrameAt(h, p)
  }

  /** A true frame of the party's own chains. */
  ghost predicate IsFrameOf(h: History, f: Frame, role: Role) {
    exists p :: IsFrameAt(h, f, p) && Owner(p.chain) == role
  }

  predicate SameNumber(f: Frame, g: Frame) {
    f.message.header.dh == g.message.header.dh && f.message.header.n == g.message.header.n
  }

  /** Every frame of a party's chains is among the frames it sealed. */
  ghost predicate SentAll(h: History, sent: seq<Frame>, role: Role) {
    forall p {:trigger FrameAt(h, p) in sent} :: Exists(h, p) && Owner(p.chain) == role ==> FrameAt(h, p) in sent
  }

  /** The frames a party sealed are exactly the frames of its chains, each number once. */
  ghost predicate SentAt(h: History, sent: seq<Frame>, role: Role) {
    && (forall i :: 0 <= i < |sent| ==> IsFrameOf(h, sent[i], role))
    && (forall i, j :: 0 <= i < j < |sent| ==> !SameNumber(sent[i], sent[j]))
    && SentAll(h, sent, role)
  }

  // -- Where every message number went -----------------------------------------

  type NumberId = (Option<KeyId>, nat)

  function IdOf(f: Frame): NumberId {
    (Some(f.message.header.dh), f.message.header.n)
  }

  /** How often a number occurs among stored keys. */
  function KeyCount(keys: seq<SkippedKey>, id: NumberId): nat {
    if keys == [] then 0
    else (if (keys[0].dh, keys[0].n) == id then 1 else 0) + KeyCount(keys[1..], id)
  }

  function FrameCount(frames: seq<Frame>, id: NumberId): nat {
    if frames == [] then 0
    else (if IdOf(frames[0]) == id then 1 else 0) + FrameCount(frames[1..], id)
  }

  /** How often a number occurs among the accepted, stored, evicted and expired numbers together. */
  function Ledger(side: Side, id: NumberId): nat {
    FrameCount(side.accepted, id) + KeyCount(side.st.skipped, id) + KeyCount(side.evicted, id)
    + KeyCount(side.expired, id)
  }

  /** The chains a party at epoch e has received on. */
  predicate ReceivedOn(h: History, e: nat, chain: nat) {
    1 <= chain < e && (e - chain) % 2 == 1 && chain < |h|
  }

  /** How often a number must occur: once if it was passed, otherwise not at all. */
  ghost predicate Balanced(h: History, nr: nat, e: nat, id: NumberId, times: nat) {
    && (forall c: nat :: ReceivedOn(h, e, c) && id.0 == Some(h[c].key) ==>
          times == if id.1 < Passed(h, nr, e, c) then 1 else 0)
    && (times > 0 ==> exists c: nat :: ReceivedOn(h, e, c) && id.0 == Some(h[c].key))
  }

  /** Every number passed is in the ledger exactly once, and nothing else is. */
  ghost predicate Conserved(h: History, side: Side, e: nat) {
    forall id :: Balanced(h, side.st.nr, e, id, Ledger(side, id))
  }

  /** Every stored key is the true key of its number. */
  ghost predicate KeysTrue(h: History, keys: seq<SkippedKey>) {
    forall i, c: nat :: 0 <= i < |keys| && c < |h| && keys[i].dh == Some(h[c].key) ==>
      keys[i].mk == TrueKey(h, Place(c, keys[i].n))
  }

  /** A receiver's half of the invariant, at epoch e. */
  ghost predicate ReceiverInv(h: History, side: Side, e: nat)
    requires e < |h|
  {
    && StateAt(h, side.st, e)
    && Conserved(h, side, e)
    && KeysTrue(h, side.st.skipped)
    && |side.st.skipped| <= MAX_STORED_SKIPPED
  }

  ghost predicate SideInv(h: History, side: Side, role: Role)
    requires |h| >= 2
  {
    ReceiverInv(h, side, Current(h, role)) && SentAt(h, side.sent, role)
  }

  /** Every frame a party accepted is, header, associated data and text, one its peer sealed. */
  predicate Authentic(w: World, role: Role) {
    forall f :: f in w.Of(role).accepted ==> f in w.Of(Peer(role)).sent
  }

  ghost predicate RoleInv(w: World, h: History, role: Role)
    requires |h| >= 2
  {
    SideInv(h, w.Of(role), role) && Authentic(w, role)
  }

  /** What holds in every reachable state. */
  ghost predicate Inv(w: World, h: History) {
    && Derived(h)
    && KeysUsed(h, w.used)
    && (forall role :: RoleInv(w, h, role))
  }
}
