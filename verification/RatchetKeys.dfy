/** Keys of different places of a run never coincide, and the pool can only open where it was sealed. */
module RatchetKeys {
  import opened SymbolicCrypto
  import opened DoubleRatchet
  import opened RatchetRun

  lemma {:induction false} RootsDistinct(h: History, i: nat, j: nat)
    requires Derived(h) && i < |h| && j < |h|
    requires h[i].root == h[j].root
    ensures i == j
  {
    if i > 0 {
      assert Linked(h, i);
    }
    if j > 0 {
      assert Linked(h, j);
    }
    if i > 0 && j > 0 {
      RootsDistinct(h, i - 1, j - 1);
    }
  }

  /** A key of the chain grown from epoch e's root toward x is a true key only if x is the next key. */
  lemma NextChainOnly(h: History, e: nat, x: KeyId, n: nat, p: Place)
    requires Derived(h) && e < |h| && Exists(h, p)
    requires KeyAt(ChainRoot(h[e].root, Dh(h[e].key, x)), n) == TrueKey(h, p)
    ensures p.chain == e + 1 && h[e + 1].key == x && n == p.n
  {
    assert Linked(h, p.chain);
    var root := ChainRoot(h[e].root, Dh(h[e].key, x));
    AdvanceInjective(root, n, h[p.chain].chain, p.n);
    RootsDistinct(h, e, p.chain - 1);
    DhInjective(h[e].key, x, h[e + 1].key);
  }

  lemma TrueKeysDistinct(h: History, p: Place, q: Place)
    requires Derived(h) && 1 <= p.chain < |h| && Exists(h, q)
    requires TrueKey(h, p) == TrueKey(h, q)
    ensures p == q
  {
    assert Linked(h, p.chain);
    NextChainOnly(h, p.chain - 1, h[p.chain].key, p.n, q);
  }

  /** A pool ciphertext that opens under mk was sealed under mk, with that header and associated data. */
  lemma OpensWhereSealed(w: World, h: History, mk: Secret, message: RatchetMessage, ad: AssociatedData)
      returns (role: Role, p: Place)
    requires Inv(w, h) && InPool(w, message.ciphertext)
    requires TryOpen(mk, message, ad).Some?
    ensures Exists(h, p) && Owner(p.chain) == role && mk == TrueKey(h, p)
    ensures FrameAt(h, p) == Frame(message, ad, TryOpen(mk, message, ad).value)
    ensures FrameAt(h, p) in w.Of(role).sent
  {
    assert RoleInv(w, h, Initiator) && RoleInv(w, h, Responder);
    var f: Frame;
    if i :| 0 <= i < |w.a.sent| && w.a.sent[i].message.ciphertext == message.ciphertext {
      role, f := Initiator, w.a.sent[i];
    } else {
      var i :| 0 <= i < |w.b.sent| && w.b.sent[i].message.ciphertext == message.ciphertext;
      role, f := Responder, w.b.sent[i];
    }
    assert IsFrameOf(h, f, role);
    p :| IsFrameAt(h, f, p) && Owner(p.chain) == role;
  }

  lemma NullIsNoTrueKey(h: History, p: Place)
    requires Derived(h) && Exists(h, p)
    ensures TrueKey(h, p) != MessageKey(DecodedNull)
  {
    assert Linked(h, p.chain);
  }

  /** The fallback key of a missing receiving chain opens nothing. */
  lemma NullOpensNothing(w: World, h: History, message: RatchetMessage, ad: AssociatedData)
    requires Inv(w, h) && InPool(w, message.ciphertext)
    ensures TryOpen(MessageKey(DecodedNull), message, ad).None?
  {
    if TryOpen(MessageKey(DecodedNull), message, ad).Some? {
      var role, p := OpensWhereSealed(w, h, MessageKey(DecodedNull), message, ad);
      NullIsNoTrueKey(h, p);
      assert false;
    }
  }
}
