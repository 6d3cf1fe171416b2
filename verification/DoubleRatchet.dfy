/**
 * The Double Ratchet of chat-front/src/crypto/doubleRatchet.ts on plain values.
 *
 * The functions say what one call computes; RatchetObject.dfy runs the same steps on a mutable
 * working copy and is proved against them.
 */
module DoubleRatchet {
  import opened Wrappers
  import opened SymbolicCrypto

  const MAX_SKIP: nat := 1000
  const MAX_STORED_SKIPPED: nat := 2000

  /** A stored message key; `dh` is the peer key of its chain, as `dhr` held it. */
  datatype SkippedKey = SkippedKey(dh: Option<KeyId>, n: nat, mk: Secret, at: int)

  datatype RatchetState = RatchetState(
    dhs: KeyId,
    dhr: Option<KeyId>,
    rk: Secret,
    cks: Option<Secret>,
    ckr: Option<Secret>,
    ns: nat,
    nr: nat,
    pn: nat,
    skipped: seq<SkippedKey>)

  datatype RatchetError = TooManySkipped | AuthFailed | NoSendingChain | DuplicateOrExpired

  datatype RatchetMessage = RatchetMessage(header: Header, ciphertext: Ciphertext<string>)

  datatype Encrypted = Encrypted(message: RatchetMessage, next: RatchetState)

  /** A successful decryption; `evicted` lists the stored keys the bound pushed out on the way. */
  datatype Decrypted = Decrypted(plaintext: string, next: RatchetState, evicted: seq<SkippedKey>)

  datatype Skip = Skip(next: RatchetState, evicted: seq<SkippedKey>)

  // -- Initialisation ----------------------------------------------------------

  function InitInitiator(sharedSecret: Secret, responderRatchet: KeyId, dhs: KeyId): RatchetState {
    var out := Dh(dhs, responderRatchet);
    RatchetState(dhs, Some(responderRatchet), RootKey(sharedSecret, out), Some(ChainRoot(sharedSecret, out)),
                 None, 0, 0, 0, [])
  }

  function InitResponder(sharedSecret: Secret, ratchet: KeyId): RatchetState {
    RatchetState(ratchet, None, sharedSecret, None, None, 0, 0, 0, [])
  }

  // -- Encrypt -----------------------------------------------------------------

  function SealWith(mk: Secret, header: Header, plaintext: string, ad: AssociatedData): RatchetMessage {
    RatchetMessage(header, GcmEncrypt(CipherKey(mk), CipherIv(mk), plaintext, WithHeader(ad, header)))
  }

  function RatchetEncrypt(s: RatchetState, plaintext: string, ad: AssociatedData): Result<Encrypted, RatchetError> {
    match s.cks
    case None => Err(NoSendingChain)
    case Some(ck) =>
      Ok(Encrypted(SealWith(MessageKey(ck), Header(s.dhs, s.pn, s.ns), plaintext, ad),
                   s.(cks := Some(ChainNext(ck)), ns := s.ns + 1)))
  }

  // -- Decrypt -----------------------------------------------------------------

  function TryOpen(mk: Secret, message: RatchetMessage, ad: AssociatedData): Option<string> {
    GcmDecrypt(CipherKey(mk), CipherIv(mk), message.ciphertext, WithHeader(ad, message.header))
  }

  /** The keys of `count` consecutive message numbers of a chain, from number `from` on. */
  function KeyRange(dh: Option<KeyId>, ck: Secret, from: nat, count: nat, now: int): (keys: seq<SkippedKey>) {
    seq(count, i requires 0 <= i < count => SkippedKey(dh, from + i, KeyAt(ck, i), now))
  }

  /** How many of the oldest stored keys the bound removes. */
  function Overflow(keys: seq<SkippedKey>): (k: nat)
    ensures k <= |keys|
  {
    if |keys| > MAX_STORED_SKIPPED then |keys| - MAX_STORED_SKIPPED else 0
  }

  function SkipUntil(s: RatchetState, until: nat, now: int): Result<Skip, RatchetError>
  {
    if s.ckr.None? then Ok(Skip(s, []))
    else if until - s.nr > MAX_SKIP then Err(TooManySkipped)
    else
      var count: nat := if until > s.nr then until - s.nr else 0;
      var all := s.skipped + KeyRange(s.dhr, s.ckr.value, s.nr, count, now);
      var k := Overflow(all);
      Ok(Skip(s.(ckr := Some(Advance(s.ckr.value, count)), nr := s.nr + count, skipped := all[k..]), all[..k]))
  }

  function DhRatchet(s: RatchetState, header: Header, newKey: KeyId): RatchetState {
    var recv := Dh(s.dhs, header.dh);
    var rk := RootKey(s.rk, recv);
    var send := Dh(newKey, header.dh);
    RatchetState(newKey, Some(header.dh), RootKey(rk, send), Some(ChainRoot(rk, send)), Some(ChainRoot(s.rk, recv)),
                 0, 0, s.ns, s.skipped)
  }

  /** The position of the first stored key for this header, or the number of stored keys. */
  function FindSkipped(keys: seq<SkippedKey>, header: Header): (at: nat)
    ensures at <= |keys|
    ensures at < |keys| ==> keys[at].dh == Some(header.dh) && keys[at].n == header.n
    ensures forall i :: 0 <= i < at ==> !(keys[i].dh == Some(header.dh) && keys[i].n == header.n)
  {
    if |keys| == 0 then 0
    else if keys[0].dh == Some(header.dh) && keys[0].n == header.n then 0
    else 1 + FindSkipped(keys[1..], header)
  }

  /** Move to number n of the current receiving chain and open the message with that key. */
  function OpenNext(s: RatchetState, message: RatchetMessage, ad: AssociatedData, now: int, evicted: seq<SkippedKey>)
      : Result<Decrypted, RatchetError>
  {
    match SkipUntil(s, message.header.n, now)
    case Err(e) => Err(e)
    case Ok(skip) =>
      var ck := if skip.next.ckr.Some? then skip.next.ckr.value else DecodedNull;
      match TryOpen(MessageKey(ck), message, ad)
      case None => Err(AuthFailed)
      case Some(text) =>
        Ok(Decrypted(text, skip.next.(ckr := Some(ChainNext(ck)), nr := skip.next.nr + 1), evicted + skip.evicted))
  }

  function RatchetDecrypt(s: RatchetState, message: RatchetMessage, ad: AssociatedData, now: int, newKey: KeyId)
      : Result<Decrypted, RatchetError>
  {
    var header := message.header;
    var at := FindSkipped(s.skipped, header);
    if at < |s.skipped| then
      match TryOpen(s.skipped[at].mk, message, ad)
      case None => Err(AuthFailed)
      case Some(text) => Ok(Decrypted(text, s.(skipped := s.skipped[..at] + s.skipped[at + 1..]), []))
    else if s.dhr != Some(header.dh) then
      match SkipUntil(s, header.pn, now)
      case Err(e) => Err(e)
      case Ok(skip) => OpenNext(DhRatchet(skip.next, header, newKey), message, ad, now, skip.evicted)
    else if header.n < s.nr then Err(DuplicateOrExpired)
    else OpenNext(s, message, ad, now, [])
  }

  // -- Expiry ------------------------------------------------------------------

  function Younger(keys: seq<SkippedKey>, maxAge: int, now: int): seq<SkippedKey> {
    if keys == [] then []
    else if now - keys[0].at <= maxAge then [keys[0]] + Younger(keys[1..], maxAge, now)
    else Younger(keys[1..], maxAge, now)
  }

  function Older(keys: seq<SkippedKey>, maxAge: int, now: int): seq<SkippedKey> {
    if keys == [] then []
    else if now - keys[0].at <= maxAge then Older(keys[1..], maxAge, now)
    else [keys[0]] + Older(keys[1..], maxAge, now)
  }

  datatype Expired = Expired(next: RatchetState, removed: int)

  function ExpireSkipped(s: RatchetState, maxAge: int, now: int): Expired {
    var kept := Younger(s.skipped, maxAge, now);
    Expired(s.(skipped := kept), |s.skipped| - |kept|)
  }
}
