/** What every reachable state of a two-party ratchet run guarantees. */
module RatchetTheorems {
  import opened Wrappers
  import opened SymbolicCrypto
  import opened DoubleRatchet
  import opened RatchetRun
  import opened RatchetKeys
  import opened RatchetAccept
  import opened RatchetReach

  // -- Authenticity and at-most-once -------------------------------------------

  lemma {:induction false} TwiceCounted(frames: seq<Frame>, i: nat, j: nat)
    requires i < j < |frames| && SameNumber(frames[i], frames[j])
    ensures FrameCount(frames, IdOf(frames[i])) >= 2
  {
    if i > 0 {
      TwiceCounted(frames[1..], i - 1, j - 1);
    } else {
      OnceCounted(frames[1..], j - 1);
    }
  }

  lemma {:induction false} OnceCounted(frames: seq<Frame>, i: nat)
    requires i < |frames|
    ensures FrameCount(frames, IdOf(frames[i])) >= 1
  {
    if i > 0 {
      OnceCounted(frames[1..], i - 1);
    }
  }

  lemma LedgerAtMostOne(h: History, side: Side, e: nat, id: NumberId)
    requires Conserved(h, side, e)
    ensures Ledger(side, id) <= 1
  {
    assert Balanced(h, side.st.nr, e, id, Ledger(side, id));
  }

  /** Each frame is accepted at most once, whatever is replayed, and only frames the peer sealed are accepted. */
  lemma AcceptedOnceAndAuthentic(w: World, role: Role)
    requires Reachable(w)
    ensures forall f :: f in w.Of(role).accepted ==> f in w.Of(Peer(role)).sent
    ensures forall i, j :: 0 <= i < j < |w.Of(role).accepted| ==>
              !SameNumber(w.Of(role).accepted[i], w.Of(role).accepted[j])
  {
    var h := ReachableHasHistory(w);
    var side := w.Of(role);
    assert RoleInv(w, h, role);
    forall i, j | 0 <= i < j < |side.accepted|
      ensures !SameNumber(side.accepted[i], side.accepted[j])
    {
      if SameNumber(side.accepted[i], side.accepted[j]) {
        TwiceCounted(side.accepted, i, j);
        LedgerAtMostOne(h, side, Current(h, role), IdOf(side.accepted[i]));
        assert false;
      }
    }
  }

  // -- Exactly when a delivery is accepted -------------------------------------

  /** The number was not accepted before, and its key was neither evicted nor expired. */
  predicate StillOpen(side: Side, id: NumberId) {
    FrameCount(side.accepted, id) == 0 && KeyCount(side.evicted, id) == 0 && KeyCount(side.expired, id) == 0
  }

  /** No single skip the header asks for is longer than MAX_SKIP. */
  predicate SkipsBounded(st: RatchetState, header: Header) {
    || FindSkipped(st.skipped, header) < |st.skipped|
    || (st.dhr == Some(header.dh) && header.n - st.nr <= MAX_SKIP)
    || (st.dhr != Some(header.dh) && header.n <= MAX_SKIP && (st.ckr.Some? ==> header.pn - st.nr <= MAX_SKIP))
  }

  /** FindSkipped finds exactly the numbers the store counts. */
  lemma {:induction false} FindCounts(keys: seq<SkippedKey>, header: Header)
    ensures FindSkipped(keys, header) < |keys| <==> KeyCount(keys, (Some(header.dh), header.n)) > 0
  {
    if keys != [] {
      FindCounts(keys[1..], header);
    }
  }

  lemma OpenStored(h: History, side: Side, e: nat, f: Frame, p: Place, now: int, newKey: KeyId)
    requires Derived(h) && e < |h| && ReceiverInv(h, side, e) && IsFrameAt(h, f, p)
    requires FindSkipped(side.st.skipped, f.message.header) < |side.st.skipped|
    ensures RatchetDecrypt(side.st, f.message, f.ad, now, newKey).Ok?
    ensures RatchetDecrypt(side.st, f.message, f.ad, now, newKey).value.plaintext == f.text
  {
    var q := StoredIsTrue(h, side, e, FindSkipped(side.st.skipped, f.message.header));
    assert q == p;
  }

  lemma OpenInChain(h: History, side: Side, e: nat, f: Frame, p: Place, now: int, newKey: KeyId)
    requires Derived(h) && 2 <= e < |h| && StateAt(h, side.st, e) && IsFrameAt(h, f, p)
    requires FindSkipped(side.st.skipped, f.message.header) == |side.st.skipped|
    requires p.chain == e - 1 && side.st.nr <= p.n && p.n - side.st.nr <= MAX_SKIP
    ensures RatchetDecrypt(side.st, f.message, f.ad, now, newKey).Ok?
    ensures RatchetDecrypt(side.st, f.message, f.ad, now, newKey).value.plaintext == f.text
  {
    SkipState(h, side.st, e, p.n, now);
  }

  lemma OpenNextChain(h: History, side: Side, e: nat, f: Frame, p: Place, now: int, newKey: KeyId)
    requires Derived(h) && e < |h| && StateAt(h, side.st, e) && IsFrameAt(h, f, p)
    requires FindSkipped(side.st.skipped, f.message.header) == |side.st.skipped|
    requires p.chain == e + 1 && SkipsBounded(side.st, f.message.header)
    ensures RatchetDecrypt(side.st, f.message, f.ad, now, newKey).Ok?
    ensures RatchetDecrypt(side.st, f.message, f.ad, now, newKey).value.plaintext == f.text
  {
    assert Linked(h, e + 1);
    SkipState(h, side.st, e, f.message.header.pn, now);
  }

  /** An honest frame belongs to a chain already received on, or to the peer's next one. */
  lemma PeerChains(h: History, role: Role, p: Place)
    requires |h| >= 2 && Exists(h, p) && Owner(p.chain) == Peer(role)
    ensures ReceivedOn(h, Current(h, role), p.chain) || p.chain == Current(h, role) + 1
  {
  }

  lemma CompleteAt(w: World, h: History, role: Role, f: Frame, p: Place, now: int, newKey: KeyId)
    requires Inv(w, h) && IsFrameAt(h, f, p) && Owner(p.chain) == Peer(role)
    requires StillOpen(w.Of(role), IdOf(f)) && SkipsBounded(w.Of(role).st, f.message.header)
    ensures RatchetDecrypt(w.Of(role).st, f.message, f.ad, now, newKey).Ok?
    ensures RatchetDecrypt(w.Of(role).st, f.message, f.ad, now, newKey).value.plaintext == f.text
  {
    var side, e := w.Of(role), Current(h, role);
    assert RoleInv(w, h, role);
    PeerChains(h, role, p);
    FindCounts(side.st.skipped, f.message.header);
    if FindSkipped(side.st.skipped, f.message.header) < |side.st.skipped| {
      OpenStored(h, side, e, f, p, now, newKey);
    } else if p.chain == e + 1 {
      OpenNextChain(h, side, e, f, p, now, newKey);
    } else {
      assert Balanced(h, side.st.nr, e, IdOf(f), Ledger(side, IdOf(f)));
      assert p.chain == e - 1 && side.st.nr <= p.n;
      OpenInChain(h, side, e, f, p, now, newKey);
    }
  }

  lemma SoundAt(w: World, h: History, role: Role, f: Frame, now: int, newKey: KeyId)
    requires Inv(w, h) && f in w.Of(Peer(role)).sent
    requires RatchetDecrypt(w.Of(role).st, f.message, f.ad, now, newKey).Ok?
    ensures StillOpen(w.Of(role), IdOf(f)) && SkipsBounded(w.Of(role).st, f.message.header)
  {
    var side, e := w.Of(role), Current(h, role);
    assert RoleInv(w, h, role);
    assert InPool(w, f.message.ciphertext);
    var p, how := AcceptanceIsAuthentic(w, h, role, f.message, f.ad, now, newKey);
    FindCounts(side.st.skipped, f.message.header);
    assert Balanced(h, side.st.nr, e, IdOf(f), Ledger(side, IdOf(f)));
    assert Ledger(side, IdOf(f)) <= 1;
  }

  /**
   * The delivery of a frame the peer sealed succeeds, with exactly the sealed text, if and only if the frame was
   * not accepted before, its key was neither evicted nor expired, and no single skip exceeds MAX_SKIP.
   */
  lemma DeliveryExact(w: World, role: Role, f: Frame, now: int, newKey: KeyId)
    requires Reachable(w) && f in w.Of(Peer(role)).sent
    ensures var r := RatchetDecrypt(w.Of(role).st, f.message, f.ad, now, newKey);
            && (r.Ok? <==> StillOpen(w.Of(role), IdOf(f)) && SkipsBounded(w.Of(role).st, f.message.header))
            && (r.Ok? ==> r.value.plaintext == f.text)
  {
    var h := ReachableHasHistory(w);
    assert RoleInv(w, h, Peer(role));
    assert IsFrameOf(h, f, Peer(role));
    var p :| IsFrameAt(h, f, p) && Owner(p.chain) == Peer(role);
    if RatchetDecrypt(w.Of(role).st, f.message, f.ad, now, newKey).Ok? {
      SoundAt(w, h, role, f, now, newKey);
    }
    if StillOpen(w.Of(role), IdOf(f)) && SkipsBounded(w.Of(role).st, f.message.header) {
      CompleteAt(w, h, role, f, p, now, newKey);
    }
  }

  // -- Lockstep ----------------------------------------------------------------

  /**
   * x is the party one ratchet step ahead of y: it answered y's newest key, both derive the same root and chain keys
   * from the step between them, and the chain x receives on is the chain y sends on.
   */
  predicate OneAhead(x: RatchetState, y: RatchetState) {
    var out := Dh(y.dhs, x.dhs);
    && x.dhr == Some(y.dhs) && y.dhr != Some(x.dhs)
    && x.rk == RootKey(y.rk, out)
    && x.cks == Some(Advance(ChainRoot(y.rk, out), x.ns))
    && (x.ckr.Some? ==> x.nr <= y.ns && y.cks == Some(Advance(x.ckr.value, y.ns - x.nr)))
    && (x.ckr.None? ==> y.cks.None?)
    && (y.ckr.Some? ==> y.nr <= x.pn)
  }

  lemma AheadBySides(h: History, x: RatchetState, y: RatchetState, e: nat)
    requires Derived(h) && e + 2 == |h| && StateAt(h, x, e + 1) && StateAt(h, y, e)
    ensures OneAhead(x, y)
  {
    assert Linked(h, e + 1);
    DhAgrees(x.dhs, y.dhs);
    if e >= 1 {
      AdvanceAdds(h[e].chain, x.nr, y.ns - x.nr);
    }
  }

  lemma StateHolds(w: World, h: History, role: Role)
    requires Inv(w, h)
    ensures StateAt(h, w.Of(role).st, Current(h, role))
  {
    ReceiverHolds(w, h, role);
  }

  lemma LockstepAt(h: History, a: RatchetState, b: RatchetState)
    requires Derived(h) && StateAt(h, a, Current(h, Initiator)) && StateAt(h, b, Current(h, Responder))
    ensures OneAhead(a, b) || OneAhead(b, a)
  {
    if Owner(|h| - 1) == Initiator {
      AheadBySides(h, a, b, |h| - 2);
    } else {
      AheadBySides(h, b, a, |h| - 2);
    }
  }

  /** In every reachable state one party is exactly one step ahead, and they agree on that step. */
  lemma Lockstep(w: World)
    requires Reachable(w)
    ensures OneAhead(w.a.st, w.b.st) || OneAhead(w.b.st, w.a.st)
  {
    var h := ReachableHasHistory(w);
    StateHolds(w, h, Initiator);
    StateHolds(w, h, Responder);
    LockstepAt(h, w.a.st, w.b.st);
  }

  // -- Conservation of message numbers -----------------------------------------

  /**
   * How far a receiver has passed a frame of its peer: on the current chain below nr; on the peer's next, still
   * unseen chain not at all; on every older chain entirely.
   */
  predicate IsPassed(st: RatchetState, peer: RatchetState, header: Header) {
    if st.dhr == Some(header.dh) then header.n < st.nr else header.dh != peer.dhs
  }

  lemma PassedAt(h: History, role: Role, st: RatchetState, peer: RatchetState, p: Place)
    requires Derived(h) && StateAt(h, st, Current(h, role)) && StateAt(h, peer, Current(h, Peer(role)))
    requires Exists(h, p) && Owner(p.chain) == Peer(role)
    ensures IsPassed(st, peer, HeaderAt(h, p)) <==>
            ReceivedOn(h, Current(h, role), p.chain) && p.n < Passed(h, st.nr, Current(h, role), p.chain)
  {
    PeerChains(h, role, p);
  }

  lemma LedgerOfFrame(h: History, side: Side, e: nat, p: Place)
    requires Derived(h) && Conserved(h, side, e) && Exists(h, p)
    ensures Ledger(side, (Some(h[p.chain].key), p.n)) ==
            if ReceivedOn(h, e, p.chain) && p.n < Passed(h, side.st.nr, e, p.chain) then 1 else 0
  {
    var id := (Some(h[p.chain].key), p.n);
    assert Balanced(h, side.st.nr, e, id, Ledger(side, id));
  }

  /** A number in the ledger is a number of a frame the peer sealed. */
  lemma LedgerIsSealed(w: World, h: History, role: Role, id: NumberId) returns (f: Frame)
    requires Inv(w, h) && Ledger(w.Of(role), id) > 0
    ensures f in w.Of(Peer(role)).sent && IdOf(f) == id
  {
    ReceiverHolds(w, h, role);
    var p := LedgerPlace(h, w.Of(role), Current(h, role), id);
    ReceivesFromPeer(h, role, p.chain);
    f := FrameAt(h, p);
    assert RoleInv(w, h, Peer(role));
    assert FrameAt(h, p) in w.Of(Peer(role)).sent;
  }

  /**
   * The accepted, stored, evicted and expired numbers are pairwise disjoint, together they are exactly the numbers of
   * the peer's frames that were passed, and each stored key is the key its frame was sealed with.
   */
  lemma Conservation(w: World, role: Role)
    requires Reachable(w)
    ensures forall f :: f in w.Of(Peer(role)).sent ==>
              Ledger(w.Of(role), IdOf(f)) ==
                if IsPassed(w.Of(role).st, w.Of(Peer(role)).st, f.message.header) then 1 else 0
    ensures forall id :: Ledger(w.Of(role), id) > 0 ==> exists f :: f in w.Of(Peer(role)).sent && IdOf(f) == id
    ensures forall key, f :: key in w.Of(role).st.skipped && f in w.Of(Peer(role)).sent
                             && IdOf(f) == (key.dh, key.n) ==>
              f.message == SealWith(key.mk, f.message.header, f.text, f.ad)
  {
    var h := ReachableHasHistory(w);
    var side, peer := w.Of(role), w.Of(Peer(role));
    ReceiverHolds(w, h, role);
    ReceiverHolds(w, h, Peer(role));
    forall f | f in peer.sent
      ensures Ledger(side, IdOf(f)) == if IsPassed(side.st, peer.st, f.message.header) then 1 else 0
      ensures forall key :: key in side.st.skipped && IdOf(f) == (key.dh, key.n) ==>
                f.message == SealWith(key.mk, f.message.header, f.text, f.ad)
    {
      var p := SentPlace(w, h, Peer(role), f);
      LedgerOfFrame(h, side, Current(h, role), p);
      PassedAt(h, role, side.st, peer.st, p);
    }
    forall id | Ledger(side, id) > 0
      ensures exists f :: f in peer.sent && IdOf(f) == id
    {
      var f := LedgerIsSealed(w, h, role, id);
    }
  }

  lemma SentPlace(w: World, h: History, role: Role, f: Frame) returns (p: Place)
    requires Inv(w, h) && f in w.Of(role).sent
    ensures IsFrameAt(h, f, p) && Owner(p.chain) == role
  {
    assert RoleInv(w, h, role);
    var i :| 0 <= i < |w.Of(role).sent| && w.Of(role).sent[i] == f;
    assert IsFrameOf(h, w.Of(role).sent[i], role);
    p :| IsFrameAt(h, f, p) && Owner(p.chain) == role;
  }

  predicate HasNumber(sent: seq<Frame>, key: KeyId, n: nat) {
    exists g :: g in sent && g.message.header.dh == key && g.message.header.n == n
  }

  lemma ChainNumbers(w: World, h: History, role: Role, chain: nat, n: nat)
    requires Inv(w, h) && chain < |h| && Owner(chain) == role
    ensures HasNumber(w.Of(role).sent, h[chain].key, n) <==> n < |h[chain].msgs|
  {
    if n < |h[chain].msgs| {
      assert RoleInv(w, h, role);
      assert FrameAt(h, Place(chain, n)) in w.Of(role).sent;
    }
    if g :| g in w.Of(role).sent && g.message.header.dh == h[chain].key && g.message.header.n == n {
      var q := SentPlace(w, h, role, g);
      assert q.chain == chain;
    }
  }

  lemma AnnouncedAt(w: World, h: History, role: Role, f: Frame, p: Place, n: nat)
    requires Inv(w, h) && IsFrameAt(h, f, p) && Owner(p.chain) == role && p.chain >= 2
    ensures HasNumber(w.Of(role).sent, h[p.chain - 2].key, n) <==> n < f.message.header.pn
  {
    ChainNumbers(w, h, role, p.chain - 2, n);
    assert f.message.header.pn == |h[p.chain - 2].msgs|;
  }

  /** The length a header announces is the number of messages its sender sealed on its previous chain. */
  lemma AnnouncedLength(w: World, role: Role, f: Frame, n: nat) returns (h: History, p: Place)
    requires Reachable(w) && f in w.Of(role).sent
    ensures Inv(w, h) && IsFrameAt(h, f, p) && Owner(p.chain) == role
    ensures p.chain >= 2 ==> (HasNumber(w.Of(role).sent, h[p.chain - 2].key, n) <==> n < f.message.header.pn)
  {
    h := ReachableHasHistory(w);
    p := SentPlace(w, h, role, f);
    if p.chain >= 2 {
      AnnouncedAt(w, h, role, f, p, n);
    }
  }

  // -- Keys and nonces ---------------------------------------------------------

  /** Two frames are sealed under different keys and different nonces. */
  predicate DifferentKeys(f: Frame, g: Frame) {
    && f.message.ciphertext.Sealed? && g.message.ciphertext.Sealed?
    && f.message.ciphertext.key != g.message.ciphertext.key
    && f.message.ciphertext.iv != g.message.ciphertext.iv
  }

  lemma PlacesDifferentKeys(h: History, f: Frame, p: Place, g: Frame, q: Place)
    requires Derived(h) && IsFrameAt(h, f, p) && IsFrameAt(h, g, q) && p != q
    ensures DifferentKeys(f, g)
  {
    if TrueKey(h, p) == TrueKey(h, q) {
      TrueKeysDistinct(h, p, q);
    }
  }

  /** No message key and no nonce is used twice, within one party or across both. */
  lemma NoKeyReuse(w: World)
    requires Reachable(w)
    ensures forall role: Role, i, j :: 0 <= i < j < |w.Of(role).sent| ==>
              DifferentKeys(w.Of(role).sent[i], w.Of(role).sent[j])
    ensures forall f, g :: f in w.a.sent && g in w.b.sent ==> DifferentKeys(f, g)
  {
    var h := ReachableHasHistory(w);
    forall role: Role, i, j | 0 <= i < j < |w.Of(role).sent|
      ensures DifferentKeys(w.Of(role).sent[i], w.Of(role).sent[j])
    {
      var f, g := w.Of(role).sent[i], w.Of(role).sent[j];
      var p := SentPlace(w, h, role, f);
      var q := SentPlace(w, h, role, g);
      assert RoleInv(w, h, role);
      assert !SameNumber(f, g);
      PlacesDifferentKeys(h, f, p, g, q);
    }
    forall f, g | f in w.a.sent && g in w.b.sent
      ensures DifferentKeys(f, g)
    {
      var p := SentPlace(w, h, Initiator, f);
      var q := SentPlace(w, h, Responder, g);
      PlacesDifferentKeys(h, f, p, g, q);
    }
  }

  /**
   * The missing receiving chain is never asked for: no peer frame shows the current peer key before there is a chain.
   */
  lemma ChainBeforeFrames(w: World, role: Role, f: Frame)
    requires Reachable(w) && f in w.Of(Peer(role)).sent && w.Of(role).st.dhr == Some(f.message.header.dh)
    ensures w.Of(role).st.ckr.Some?
  {
    var h := ReachableHasHistory(w);
    ReceiverHolds(w, h, role);
    var p := SentPlace(w, h, Peer(role), f);
  }
}
