/** The primitives of chat-front/src/crypto/primitives.ts as symbolic terms. */
module SymbolicCrypto {
  import opened Wrappers

  // A key pair is named by one number: the private and the public half carry the same name.
  // Every KDF and MAC output is an injective constructor, X25519 is symmetric in its two keys,
  // and AES-GCM opens only under the key, the nonce and the associated data it was sealed with.

  type KeyId = nat

  datatype Version = V1 | V2
  datatype Direction = InitToResp | RespToInit

  datatype Secret =
    | Shared(lo: KeyId, hi: KeyId)                            // X25519
    | Master(version: Version, dh1: Secret, dh2: Secret, dh3: Secret) // X3DH
    | RootKey(rk: Secret, dh: Secret)                         // first half of the root KDF
    | ChainRoot(rk: Secret, dh: Secret)                       // second half of the root KDF
    | SessionChain(sk: Secret, direction: Direction)          // v1 chain roots
    | ChainNext(ck: Secret)                                   // HMAC(ck, 0x02)
    | MessageKey(ck: Secret)                                  // HMAC(ck, 0x01)
    | CounterKey(ck: Secret)                                  // v1: HKDF(ck, "msg")
    | CipherKey(mk: Secret)                                   // AES key expanded from a message key
    | CipherIv(mk: Secret)                                    // GCM nonce expanded from a message key
    | DecodedNull                                             // what fromBase64 makes of a null

  function Dh(priv: KeyId, pub: KeyId): Secret {
    if priv <= pub then Shared(priv, pub) else Shared(pub, priv)
  }

  lemma DhAgrees(x: KeyId, y: KeyId)
    ensures Dh(x, y) == Dh(y, x)
  {
  }

  lemma DhInjective(x: KeyId, y: KeyId, z: KeyId)
    requires Dh(x, y) == Dh(x, z)
    ensures y == z
  {
  }

  /** Routing metadata every envelope binds; the version keeps v1 and v2 texts apart. */
  datatype AssociatedData = AssociatedData(version: Version, conversationId: nat, senderId: nat, sessionId: nat,
                                           ctr: nat)

  /** A ratchet header; the server accepts only non-negative pn and n. */
  datatype Header = Header(dh: KeyId, pn: nat, n: nat)

  datatype Aad = Plain(ad: AssociatedData) | WithHeader(ad: AssociatedData, header: Header)

  datatype Ciphertext<T> = Sealed(key: Secret, iv: Secret, plaintext: T, aad: Aad) | Garbage(bits: nat)

  function GcmEncrypt<T>(key: Secret, iv: Secret, plaintext: T, aad: Aad): Ciphertext<T> {
    Sealed(key, iv, plaintext, aad)
  }

  function GcmDecrypt<T>(key: Secret, iv: Secret, ct: Ciphertext<T>, aad: Aad): Option<T> {
    if ct.Sealed? && ct.key == key && ct.iv == iv && ct.aad == aad then Some(ct.plaintext) else None
  }

  /** The chain key n steps after ck. */
  function Advance(ck: Secret, n: nat): Secret {
    if n == 0 then ck else ChainNext(Advance(ck, n - 1))
  }

  /** The key of message number n on the chain that starts at ck. */
  function KeyAt(ck: Secret, n: nat): Secret {
    MessageKey(Advance(ck, n))
  }

  lemma {:induction false} AdvanceAdds(ck: Secret, m: nat, n: nat)
    ensures Advance(Advance(ck, m), n) == Advance(ck, m + n)
  {
    if n != 0 {
      AdvanceAdds(ck, m, n - 1);
    }
  }

  /** Two chains that do not start inside each other never meet. */
  lemma {:induction false} AdvanceInjective(x: Secret, m: nat, y: Secret, n: nat)
    requires !x.ChainNext? && !y.ChainNext?
    requires Advance(x, m) == Advance(y, n)
    ensures x == y && m == n
  {
    if m != 0 && n != 0 {
      AdvanceInjective(x, m - 1, y, n - 1);
    }
  }
}
