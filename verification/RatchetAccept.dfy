/** Whatever a party accepts from the network is a frame its peer sealed, and which one. */
module RatchetAccept {
  import opened Wrappers
  import opened SymbolicCrypto
  import opened DoubleRatchet
  import opened RatchetRun
  import opened RatchetKeys
  import opened RatchetLedger

  /**
   * A skip stores the keys of exactly the numbers passed, in order behind what was stored, and evicts from the front:
   * the oldest go, only past the bound, and no more than that.
   */
  lemma SkipEvictsOldest(st: RatchetState, until: nat, now: int)
    requires |st.skipped| <= MAX_STORED_SKIPPED && SkipUntil(st, until, now).Ok?
    ensures var skip := SkipUntil(st, until, now).value;
            var all := skip.evicted + skip.next.skipped;
            var passed := if st.ckr.Some? && until > st.nr then until - st.nr else 0;
            && |all| == |st.skipped| + passed && st.skipped <= all && skip.next.nr == st.nr + passed
            && (forall i :: |st.skipped| <= i < |all| ==>
                  all[i].dh == st.dhr && all[i].n == st.nr + (i - |st.skipped|) && all[i].at == now)
            && |skip.next.skipped| <= MAX_STORED_SKIPPED
            && (skip.evicted != [] ==> |skip.next.skipped| == MAX_STORED_SKIPPED)
  {
    if st.ckr.Some? {
      var count: nat := if until > st.nr then until - st.nr else 0;
      var skip := SkipUntil(st, until, now).value;
      var all := st.skipped + KeyRange(st.dhr, st.ckr.value, st.nr, count, now);
      assert skip.evicted + skip.next.skipped == all;
    }
  }

  /** SkipUntil moves the receiving chain and the store, and nothing else. */
  lemma SkipState(h: History, st: RatchetState, e: nat, until: nat, now: int)
    requires e < |h| && StateAt(h, st, e)
    requires SkipUntil(st, until, now).Ok?
    ensures var next := SkipUntil(st, until, now).value.next;
            var nr := st.nr + Gap(st, until);
            && next == st.(nr := nr, skipped := next.skipped,
                           ckr := if e <= 1 then None else Some(Advance(h[e - 1].chain, nr)))
            && (|st.skipped| <= MAX_STORED_SKIPPED ==> |next.skipped| <= MAX_STORED_SKIPPED)
  {
    if e > 1 {
      AdvanceAdds(h[e - 1].chain, st.nr, Gap(st, until));
    }
  }

  lemma RangeTrue(h: History, st: RatchetState, e: nat, until: nat, now: int)
    requires Derived(h) && e < |h| && StateAt(h, st, e)
    ensures KeysTrue(h, Range(st, until, now))
  {
    if e > 1 {
      var range := Range(st, until, now);
      forall i, c: nat | 0 <= i < |range| && c < |h| && range[i].dh == Some(h[c].key)
        ensures range[i].mk == TrueKey(h, Place(c, range[i].n))
      {
        assert c == e - 1;
        AdvanceAdds(h[e - 1].chain, st.nr, i);
      }
    }
  }

  lemma SkipKeysTrue(h: History, st: RatchetState, e: nat, until: nat, now: int)
    requires Derived(h) && e < |h| && StateAt(h, st, e) && KeysTrue(h, st.skipped)
    requires SkipUntil(st, until, now).Ok?
    ensures KeysTrue(h, SkipUntil(st, until, now).value.next.skipped)
  {
    RangeTrue(h, st, e, until, now);
    var all := st.skipped + Range(st, until, now);
    assert KeysTrue(h, all) by {
      forall i, c: nat | 0 <= i < |all| && c < |h| && all[i].dh == Some(h[c].key)
        ensures all[i].mk == TrueKey(h, Place(c, all[i].n))
      {
        if i < |st.skipped| {
          assert all[i] == st.skipped[i];
        } else {
          assert all[i] == Range(st, until, now)[i - |st.skipped|];
        }
      }
    }
    var kept := SkipUntil(st, until, now).value.next.skipped;
    var k := |all| - |kept|;
    assert forall i :: 0 <= i < |kept| ==> kept[i] == all[k + i];
  }

  lemma LedgerPlace(h: History, side: Side, e: nat, id: NumberId) returns (p: Place)
    requires Conserved(h, side, e) && Ledger(side, id) > 0
    ensures ReceivedOn(h, e, p.chain) && p.n < Passed(h, side.st.nr, e, p.chain) && id == (Some(h[p.chain].key), p.n)
  {
    assert Balanced(h, side.st.nr, e, id, Ledger(side, id));
    var c: nat :| ReceivedOn(h, e, c) && id.0 == Some(h[c].key);
    p := Place(c, id.1);
  }

  /** A stored key belongs to a number of a chain received on, and is its true key. */
  lemma StoredIsTrue(h: History, side: Side, e: nat, at: nat) returns (p: Place)
    requires Conserved(h, side, e) && KeysTrue(h, side.st.skipped)
    requires at < |side.st.skipped|
    ensures ReceivedOn(h, e, p.chain) && p.n < Passed(h, side.st.nr, e, p.chain)
    ensures side.st.skipped[at].dh == Some(h[p.chain].key) && side.st.skipped[at].n == p.n
    ensures side.st.skipped[at].mk == TrueKey(h, p)
  {
    var key := side.st.skipped[at];
    StoredCounts(side.st.skipped, at);
    p := LedgerPlace(h, side, e, (key.dh, key.n));
  }

  lemma StoredPlace(h: History, side: Side, e: nat, at: nat, p: Place)
    requires Derived(h) && Conserved(h, side, e) && KeysTrue(h, side.st.skipped)
    requires at < |side.st.skipped| && Exists(h, p) && side.st.skipped[at].mk == TrueKey(h, p)
    ensures ReceivedOn(h, e, p.chain)
  {
    var q := StoredIsTrue(h, side, e, at);
    TrueKeysDistinct(h, q, p);
  }

  /** A party at epoch e owns chain e, and its peer the chains it receives on. */
  lemma ReceivesFromPeer(h: History, role: Role, chain: nat)
    requires |h| >= 2 && ReceivedOn(h, Current(h, role), chain)
    ensures Owner(chain) == Peer(role)
  {
  }

  /** What OpenNext needs to succeed, and what it then leaves. */
  lemma OpenNextFacts(h: History, st: RatchetState, e: nat, message: RatchetMessage, ad: AssociatedData, now: int,
                      evicted: seq<SkippedKey>)
    requires 2 <= e < |h| && StateAt(h, st, e) && st.nr <= message.header.n
    requires OpenNext(st, message, ad, now, evicted).Ok?
    ensures SkipUntil(st, message.header.n, now).Ok?
    ensures var d := OpenNext(st, message, ad, now, evicted).value;
            var skip := SkipUntil(st, message.header.n, now).value;
            && TryOpen(KeyAt(h[e - 1].chain, message.header.n), message, ad) == Some(d.plaintext)
            && d.next == st.(nr := message.header.n + 1, skipped := skip.next.skipped,
                             ckr := Some(Advance(h[e - 1].chain, message.header.n + 1)))
            && d.evicted == evicted + skip.evicted
  {
    SkipState(h, st, e, message.header.n, now);
  }

  datatype Acceptance = Stored | InChain | NextChain

  /** Where an accepted message stood: a stored number, a later one of the current chain, or the next chain. */
  ghost predicate Positioned(h: History, e: nat, st: RatchetState, message: RatchetMessage, p: Place, how: Acceptance) {
    && Exists(h, p) && message.header == HeaderAt(h, p)
    && (how == Stored <==> FindSkipped(st.skipped, message.header) < |st.skipped|)
    && (how == Stored ==> ReceivedOn(h, e, p.chain))
    && (how == InChain ==> p.chain + 1 == e && e >= 2 && st.nr <= p.n)
    && (how == NextChain ==> p.chain == e + 1)
  }

  /** What a successful decryption of pool material was: a true frame of the peer, in one of three positions. */
  ghost predicate Accepted(w: World, h: History, role: Role, f: Frame, p: Place, how: Acceptance)
    requires |h| >= 2
  {
    && IsFrameAt(h, f, p) && Owner(p.chain) == Peer(role) && f in w.Of(Peer(role)).sent
    && Positioned(h, Current(h, role), w.Of(role).st, f.message, p, how)
  }

  lemma ReceiverHolds(w: World, h: History, role: Role)
    requires Inv(w, h)
    ensures ReceiverInv(h, w.Of(role), Current(h, role))
  {
    assert RoleInv(w, h, role);
  }

  lemma AcceptStored(w: World, h: History, role: Role, message: RatchetMessage, ad: AssociatedData, now: int,
                     newKey: KeyId) returns (p: Place)
    requires Inv(w, h) && InPool(w, message.ciphertext)
    requires RatchetDecrypt(w.Of(role).st, message, ad, now, newKey).Ok?
    requires FindSkipped(w.Of(role).st.skipped, message.header) < |w.Of(role).st.skipped|
    ensures Accepted(w, h, role,
                     Frame(message, ad, RatchetDecrypt(w.Of(role).st, message, ad, now, newKey).value.plaintext), p,
                     Stored)
  {
    var side, e := w.Of(role), Current(h, role);
    ReceiverHolds(w, h, role);
    var at := FindSkipped(side.st.skipped, message.header);
    var sealer;
    sealer, p := OpensWhereSealed(w, h, side.st.skipped[at].mk, message, ad);
    StoredPlace(h, side, e, at, p);
    ReceivesFromPeer(h, role, p.chain);
  }

  /** The key that opens the next message of the current chain, and the place it belongs to. */
  lemma InChainKey(h: History, st: RatchetState, e: nat, message: RatchetMessage, ad: AssociatedData, now: int)
    requires Derived(h) && e < |h| && StateAt(h, st, e)
    requires st.dhr == Some(message.header.dh) && st.nr <= message.header.n
    requires OpenNext(st, message, ad, now, []).Ok?
    ensures TryOpen(if e <= 1 then MessageKey(DecodedNull) else KeyAt(h[e - 1].chain, message.header.n), message, ad)
              == Some(OpenNext(st, message, ad, now, []).value.plaintext)
  {
    if e >= 2 {
      OpenNextFacts(h, st, e, message, ad, now, []);
    }
  }

  lemma InChainPlace(h: History, st: RatchetState, role: Role, message: RatchetMessage, p: Place)
    requires Derived(h) && StateAt(h, st, Current(h, role)) && Current(h, role) >= 2 && Exists(h, p)
    requires st.nr <= message.header.n && message.header == HeaderAt(h, p)
    requires FindSkipped(st.skipped, message.header) == |st.skipped|
    requires KeyAt(h[Current(h, role) - 1].chain, message.header.n) == TrueKey(h, p)
    ensures Positioned(h, Current(h, role), st, message, p, InChain) && Owner(p.chain) == Peer(role)
  {
    TrueKeysDistinct(h, Place(Current(h, role) - 1, message.header.n), p);
    ReceivesFromPeer(h, role, p.chain);
  }

  lemma AcceptInChain(w: World, h: History, role: Role, message: RatchetMessage, ad: AssociatedData, now: int,
                      newKey: KeyId) returns (p: Place)
    requires Inv(w, h) && InPool(w, message.ciphertext)
    requires RatchetDecrypt(w.Of(role).st, message, ad, now, newKey).Ok?
    requires FindSkipped(w.Of(role).st.skipped, message.header) == |w.Of(role).st.skipped|
    requires w.Of(role).st.dhr == Some(message.header.dh)
    ensures Accepted(w, h, role,
                     Frame(message, ad, RatchetDecrypt(w.Of(role).st, message, ad, now, newKey).value.plaintext), p,
                     InChain)
  {
    var side, e := w.Of(role), Current(h, role);
    ReceiverHolds(w, h, role);
    InChainKey(h, side.st, e, message, ad, now);
    if e <= 1 {
      NullOpensNothing(w, h, message, ad);
      assert false;
    } else {
      var sealer;
      sealer, p := OpensWhereSealed(w, h, KeyAt(h[e - 1].chain, message.header.n), message, ad);
      InChainPlace(h, side.st, role, message, p);
    }
  }

  /** The key that opens the message of a ratchet step. */
  lemma NextChainKey(h: History, st: RatchetState, e: nat, message: RatchetMessage, ad: AssociatedData, now: int,
                     newKey: KeyId)
    requires Derived(h) && e < |h| && StateAt(h, st, e)
    requires FindSkipped(st.skipped, message.header) == |st.skipped| && st.dhr != Some(message.header.dh)
    requires RatchetDecrypt(st, message, ad, now, newKey).Ok?
    ensures TryOpen(KeyAt(ChainRoot(h[e].root, Dh(h[e].key, message.header.dh)), message.header.n), message, ad)
              == Some(RatchetDecrypt(st, message, ad, now, newKey).value.plaintext)
  {
    SkipState(h, st, e, message.header.pn, now);
    var turned := DhRatchet(SkipUntil(st, message.header.pn, now).value.next, message.header, newKey);
    assert turned.ckr == Some(ChainRoot(h[e].root, Dh(h[e].key, message.header.dh))) && turned.nr == 0;
  }

  lemma NextChainPlace(h: History, st: RatchetState, role: Role, message: RatchetMessage, p: Place)
    requires Derived(h) && Exists(h, p) && message.header == HeaderAt(h, p)
    requires FindSkipped(st.skipped, message.header) == |st.skipped|
    requires KeyAt(ChainRoot(h[Current(h, role)].root, Dh(h[Current(h, role)].key, message.header.dh)),
                   message.header.n) == TrueKey(h, p)
    ensures Positioned(h, Current(h, role), st, message, p, NextChain) && Owner(p.chain) == Peer(role)
  {
    NextChainOnly(h, Current(h, role), message.header.dh, message.header.n, p);
  }

  lemma AcceptNextChain(w: World, h: History, role: Role, message: RatchetMessage, ad: AssociatedData, now: int,
                        newKey: KeyId) returns (p: Place)
    requires Inv(w, h) && InPool(w, message.ciphertext)
    requires RatchetDecrypt(w.Of(role).st, message, ad, now, newKey).Ok?
    requires FindSkipped(w.Of(role).st.skipped, message.header) == |w.Of(role).st.skipped|
    requires w.Of(role).st.dhr != Some(message.header.dh)
    ensures Accepted(w, h, role,
                     Frame(message, ad, RatchetDecrypt(w.Of(role).st, message, ad, now, newKey).value.plaintext), p,
                     NextChain)
  {
    var side, e := w.Of(role), Current(h, role);
    ReceiverHolds(w, h, role);
    NextChainKey(h, side.st, e, message, ad, now, newKey);
    var mk := KeyAt(ChainRoot(h[e].root, Dh(h[e].key, message.header.dh)), message.header.n);
    var sealer;
    sealer, p := OpensWhereSealed(w, h, mk, message, ad);
    NextChainPlace(h, side.st, role, message, p);
  }

  /** Authenticity of one delivery: an accepted frame is a peer's frame, in one of three positions. */
  lemma AcceptanceIsAuthentic(w: World, h: History, role: Role, message: RatchetMessage, ad: AssociatedData, now: int,
                              newKey: KeyId)
      returns (p: Place, how: Acceptance)
    requires Inv(w, h) && InPool(w, message.ciphertext)
    requires RatchetDecrypt(w.Of(role).st, message, ad, now, newKey).Ok?
    ensures Accepted(w, h, role,
                     Frame(message, ad, RatchetDecrypt(w.Of(role).st, message, ad, now, newKey).value.plaintext), p,
                     how)
  {
    var st := w.Of(role).st;
    if FindSkipped(st.skipped, message.header) < |st.skipped| {
      p := AcceptStored(w, h, role, message, ad, now, newKey);
      how := Stored;
    } else if st.dhr == Some(message.header.dh) {
      p := AcceptInChain(w, h, role, message, ad, now, newKey);
      how := InChain;
    } else {
      p := AcceptNextChain(w, h, role, message, ad, now, newKey);
      how := NextChain;
    }
  }
}
