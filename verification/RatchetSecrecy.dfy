/** What a copy of a ratchet state can derive: forward secrecy of consumed keys, and recovery afterwards. */
module RatchetSecrecy {
  import opened Wrappers
  import opened SymbolicCrypto
  import opened DoubleRatchet
  import opened RatchetRun
  import opened RatchetKeys
  import opened RatchetLedger
  import opened RatchetAccept
  import opened RatchetReach
  import opened RatchetTheorems

  // Every derivation step only builds terms, so a term is derivable if it is held or if its parts are.

  datatype Knowledge = Knowledge(private: set<KeyId>, secrets: set<Secret>)

  predicate Derivable(k: Knowledge, s: Secret) {
    || s in k.secrets
    || match s
       case Shared(lo, hi) => lo in k.private || hi in k.private
       case Master(_, d1, d2, d3) => Derivable(k, d1) && Derivable(k, d2) && Derivable(k, d3)
       case RootKey(rk, d) => Derivable(k, rk) && Derivable(k, d)
       case ChainRoot(rk, d) => Derivable(k, rk) && Derivable(k, d)
       case SessionChain(sk, _) => Derivable(k, sk)
       case ChainNext(ck) => Derivable(k, ck)
       case MessageKey(ck) => Derivable(k, ck)
       case CounterKey(ck) => Derivable(k, ck)
       case CipherKey(mk) => Derivable(k, mk)
       case CipherIv(mk) => Derivable(k, mk)
       case DecodedNull => true
  }

  /** The knowledge yields the key the frame was sealed with; a sealed frame it does not read stays closed. */
  predicate Reads(k: Knowledge, f: Frame) {
    f.message.ciphertext.Garbage? || Derivable(k, f.message.ciphertext.key)
  }

  function Optional(s: Option<Secret>): set<Secret> {
    if s.Some? then {s.value} else {}
  }

  /** Everything secret a ratchet state holds. */
  function Held(st: RatchetState): Knowledge {
    Knowledge({st.dhs}, {st.rk} + Optional(st.cks) + Optional(st.ckr) + (set key | key in st.skipped :: key.mk))
  }

  /** The keys of a state at epoch e, over a history that may have moved on since. */
  ghost predicate HeldAt(h: History, st: RatchetState, e: nat) {
    && e < |h|
    && st.dhs == h[e].key && st.rk == h[e].root
    && st.cks == (if e == 0 then None else Some(Advance(h[e].chain, st.ns)))
    && st.ckr == (if e <= 1 then None else Some(Advance(h[e - 1].chain, st.nr)))
    && (forall key :: key in st.skipped ==> key.mk.MessageKey?)
  }

  lemma HeldRoots(h: History, st: RatchetState, e: nat, i: nat)
    requires Derived(h) && HeldAt(h, st, e) && i < |h|
    ensures h[i].root in Held(st).secrets <==> i == e
  {
    if i > 0 {
      assert Linked(h, i);
    }
    if h[i].root == st.rk {
      RootsDistinct(h, i, e);
    }
    if e >= 1 {
      assert Linked(h, e);
      AdvanceShape(h[e].chain, st.ns);
    }
    if e >= 2 {
      assert Linked(h, e - 1);
      AdvanceShape(h[e - 1].chain, st.nr);
    }
  }

  lemma AdvanceShape(ck: Secret, n: nat)
    requires ck.ChainRoot?
    ensures Advance(ck, n).ChainRoot? || Advance(ck, n).ChainNext?
  {
  }

  /** A state at epoch e yields the root of its own epoch and of the next, and no other. */
  lemma {:induction false} DerivableRoots(h: History, st: RatchetState, e: nat, i: nat)
    requires Derived(h) && HeldAt(h, st, e) && i < |h|
    ensures Derivable(Held(st), h[i].root) <==> i == e || i == e + 1
  {
    HeldRoots(h, st, e, i);
    if i == 0 {
      if e != 0 {
        HeldIsNoShared(st, h, e, h[0].root.dh1);
        assert h[e].key !in OuterKeys(h[0].root);
      }
    } else {
      assert Linked(h, i);
      DerivableRoots(h, st, e, i - 1);
      HeldIsNoShared(st, h, e, Dh(h[i - 1].key, h[i].key));
    }
  }

  lemma HeldIsNoShared(st: RatchetState, h: History, e: nat, s: Secret)
    requires Derived(h) && HeldAt(h, st, e) && s.Shared?
    ensures s !in Held(st).secrets
  {
    if e >= 1 {
      assert Linked(h, e);
      AdvanceShape(h[e].chain, st.ns);
    }
    if e >= 2 {
      assert Linked(h, e - 1);
      AdvanceShape(h[e - 1].chain, st.nr);
    }
  }

  /** Position n of a chain is within reach: on the state's own chains from its counters on, or anywhere on the next. */
  predicate ChainInReach(st: RatchetState, e: nat, chain: nat, n: nat) {
    || (chain == e && st.ns <= n)
    || (chain + 1 == e && e >= 2 && st.nr <= n)
    || chain == e + 1
  }

  lemma HeldChains(h: History, st: RatchetState, e: nat, chain: nat, n: nat)
    requires Derived(h) && HeldAt(h, st, e) && 1 <= chain < |h|
    ensures Advance(h[chain].chain, n) in Held(st).secrets <==>
            (chain == e && n == st.ns) || (chain + 1 == e && e >= 2 && n == st.nr)
  {
    assert Linked(h, chain);
    AdvanceShape(h[chain].chain, n);
    if e >= 1 {
      assert Linked(h, e);
      if Advance(h[chain].chain, n) == Advance(h[e].chain, st.ns) {
        AdvanceInjective(h[chain].chain, n, h[e].chain, st.ns);
        RootsDistinct(h, chain - 1, e - 1);
      }
    }
    if e >= 2 {
      assert Linked(h, e - 1);
      if Advance(h[chain].chain, n) == Advance(h[e - 1].chain, st.nr) {
        AdvanceInjective(h[chain].chain, n, h[e - 1].chain, st.nr);
        RootsDistinct(h, chain - 1, e - 2);
      }
    }
    RootIsNoChain(h, e, h[chain].chain, n);
  }

  lemma RootIsNoChain(h: History, e: nat, ck: Secret, n: nat)
    requires Derived(h) && e < |h| && ck.ChainRoot?
    ensures Advance(ck, n) != h[e].root
  {
    AdvanceShape(ck, n);
    if e > 0 {
      assert Linked(h, e);
    }
  }

  lemma {:induction false} DerivableChains(h: History, st: RatchetState, e: nat, chain: nat, n: nat)
    requires Derived(h) && HeldAt(h, st, e) && 1 <= chain < |h|
    ensures Derivable(Held(st), Advance(h[chain].chain, n)) <==> ChainInReach(st, e, chain, n)
  {
    assert Linked(h, chain);
    HeldChains(h, st, e, chain, n);
    if n == 0 {
      DerivableRoots(h, st, e, chain - 1);
      HeldIsNoShared(st, h, e, Dh(h[chain - 1].key, h[chain].key));
    } else {
      DerivableChains(h, st, e, chain, n - 1);
    }
  }

  lemma HeldMessageKeys(h: History, st: RatchetState, e: nat, ck: Secret)
    requires Derived(h) && HeldAt(h, st, e)
    ensures MessageKey(ck) in Held(st).secrets <==> exists key :: key in st.skipped && key.mk == MessageKey(ck)
  {
    if e > 0 {
      assert Linked(h, e);
      AdvanceShape(h[e].chain, st.ns);
    }
    if e >= 2 {
      assert Linked(h, e - 1);
      AdvanceShape(h[e - 1].chain, st.nr);
    }
  }

  /** A message key is derivable exactly if it is stored or its chain position is within reach. */
  lemma DerivableKeys(h: History, st: RatchetState, e: nat, p: Place)
    requires Derived(h) && HeldAt(h, st, e) && 1 <= p.chain < |h|
    ensures Derivable(Held(st), TrueKey(h, p)) <==>
            ChainInReach(st, e, p.chain, p.n) || exists key :: key in st.skipped && key.mk == TrueKey(h, p)
  {
    DerivableChains(h, st, e, p.chain, p.n);
    HeldMessageKeys(h, st, e, Advance(h[p.chain].chain, p.n));
  }

  lemma CipherKeysDerivable(h: History, st: RatchetState, e: nat, f: Frame, p: Place)
    requires Derived(h) && HeldAt(h, st, e) && IsFrameAt(h, f, p)
    ensures Reads(Held(st), f) <==> Derivable(Held(st), TrueKey(h, p))
  {
    assert f.message.ciphertext.key == CipherKey(TrueKey(h, p));
    if e > 0 {
      assert Linked(h, e);
      AdvanceShape(h[e].chain, st.ns);
    }
    if e >= 2 {
      assert Linked(h, e - 1);
      AdvanceShape(h[e - 1].chain, st.nr);
    }
  }

  // -- Over runs ---------------------------------------------------------------

  lemma ReceiverHeld(h: History, side: Side, e: nat)
    requires e < |h| && ReceiverInv(h, side, e)
    ensures HeldAt(h, side.st, e)
  {
    forall key | key in side.st.skipped
      ensures key.mk.MessageKey?
    {
      var at :| 0 <= at < |side.st.skipped| && side.st.skipped[at] == key;
      var p := StoredIsTrue(h, side, e, at);
    }
  }

  lemma StoredMeansCounted(h: History, side: Side, e: nat, p: Place)
    requires Derived(h) && e < |h| && ReceiverInv(h, side, e) && Exists(h, p)
    ensures (exists key :: key in side.st.skipped && key.mk == TrueKey(h, p)) <==>
            KeyCount(side.st.skipped, (Some(h[p.chain].key), p.n)) > 0
  {
    if key :| key in side.st.skipped && key.mk == TrueKey(h, p) {
      var at :| 0 <= at < |side.st.skipped| && side.st.skipped[at] == key;
      var q := StoredIsTrue(h, side, e, at);
      TrueKeysDistinct(h, q, p);
      StoredCounts(side.st.skipped, at);
    }
    if KeyCount(side.st.skipped, (Some(h[p.chain].key), p.n)) > 0 {
      var at := CountedStored(side.st.skipped, (Some(h[p.chain].key), p.n));
      var q := StoredIsTrue(h, side, e, at);
      assert q == p;
      assert side.st.skipped[at] in side.st.skipped;
    }
  }

  /** A frame is readable exactly if its key is stored or its place is within the state's reach. */
  lemma ReadableAt(h: History, side: Side, e: nat, f: Frame, p: Place)
    requires Derived(h) && e < |h| && ReceiverInv(h, side, e) && IsFrameAt(h, f, p)
    ensures Reads(Held(side.st), f) <==>
              ChainInReach(side.st, e, p.chain, p.n) || KeyCount(side.st.skipped, IdOf(f)) > 0
    ensures Ledger(side, IdOf(f)) ==
              if ReceivedOn(h, e, p.chain) && p.n < Passed(h, side.st.nr, e, p.chain) then 1 else 0
  {
    ReceiverHeld(h, side, e);
    DerivableKeys(h, side.st, e, p);
    CipherKeysDerivable(h, side.st, e, f, p);
    StoredMeansCounted(h, side, e, p);
    LedgerOfFrame(h, side, e, p);
  }

  lemma PeerKeyAt(h: History, side: Side, role: Role, f: Frame, p: Place)
    requires Derived(h) && ReceiverInv(h, side, Current(h, role)) && IsFrameAt(h, f, p) && Owner(p.chain) == Peer(role)
    ensures Reads(Held(side.st), f) <==> StillOpen(side, IdOf(f))
  {
    ReadableAt(h, side, Current(h, role), f, p);
    PeerChains(h, role, p);
  }

  lemma OwnKeyAt(h: History, side: Side, role: Role, f: Frame, p: Place)
    requires Derived(h) && ReceiverInv(h, side, Current(h, role)) && IsFrameAt(h, f, p) && Owner(p.chain) == role
    ensures !Reads(Held(side.st), f)
  {
    ReadableAt(h, side, Current(h, role), f, p);
  }

  /**
   * Forward secrecy, exactly: a ratchet state derives the key of a peer's frame if and only if that frame is still to
   * be accepted, and the key of none of the frames its own party has sealed.
   */
  lemma ForwardSecrecy(w: World, role: Role)
    requires Reachable(w)
    ensures forall f :: f in w.Of(role).sent ==> !Reads(Held(w.Of(role).st), f)
    ensures forall f :: f in w.Of(Peer(role)).sent ==>
              (Reads(Held(w.Of(role).st), f) <==> StillOpen(w.Of(role), IdOf(f)))
  {
    var h := ReachableHasHistory(w);
    ReceiverHolds(w, h, role);
    forall f | f in w.Of(role).sent
      ensures !Reads(Held(w.Of(role).st), f)
    {
      var p := SentPlace(w, h, role, f);
      OwnKeyAt(h, w.Of(role), role, f, p);
    }
    forall f | f in w.Of(Peer(role)).sent
      ensures Reads(Held(w.Of(role).st), f) <==> StillOpen(w.Of(role), IdOf(f))
    {
      var p := SentPlace(w, h, Peer(role), f);
      PeerKeyAt(h, w.Of(role), role, f, p);
    }
  }

  lemma HeldStays(h: History, h': History, st: RatchetState, e: nat)
    requires HeldAt(h, st, e) && Extends(h, h')
    ensures HeldAt(h', st, e)
  {
    if e >= 1 {
      assert h[e - 1].chain == h'[e - 1].chain;
    }
  }

  /** From a copy taken at epoch e, nothing of the chains from e + 2 on is derivable. */
  lemma BeyondReach(h: History, st: RatchetState, e: nat, f: Frame, p: Place)
    requires Derived(h) && HeldAt(h, st, e) && IsFrameAt(h, f, p) && p.chain >= e + 2
    requires forall key :: key in st.skipped ==>
               exists q: Place :: 1 <= q.chain <= e && q.chain < |h| && key.mk == TrueKey(h, q)
    ensures !Reads(Held(st), f)
  {
    DerivableKeys(h, st, e, p);
    CipherKeysDerivable(h, st, e, f, p);
    if key :| key in st.skipped && key.mk == TrueKey(h, p) {
      var q: Place :| 1 <= q.chain <= e && q.chain < |h| && key.mk == TrueKey(h, q);
      TrueKeysDistinct(h, q, p);
      assert false;
    }
  }

  lemma StoredStay(h: History, h': History, side: Side, e: nat)
    requires e < |h| && ReceiverInv(h, side, e) && Extends(h, h')
    ensures forall key :: key in side.st.skipped ==>
              exists q: Place :: 1 <= q.chain <= e && q.chain < |h'| && key.mk == TrueKey(h', q)
  {
    forall key | key in side.st.skipped
      ensures exists q: Place :: 1 <= q.chain <= e && q.chain < |h'| && key.mk == TrueKey(h', q)
    {
      var at :| 0 <= at < |side.st.skipped| && side.st.skipped[at] == key;
      var q := StoredIsTrue(h, side, e, at);
      assert h[q.chain].chain == h'[q.chain].chain;
      assert 1 <= q.chain <= e && q.chain < |h'| && key.mk == TrueKey(h', q);
    }
  }

  /** A party that has changed its ratchet key since a history is at least two epochs further. */
  lemma KeyChanged(w: World, h: History, w': World, h': History, role: Role)
    requires Inv(w, h) && Inv(w', h') && Extends(h, h')
    requires w'.Of(role).st.dhs != w.Of(role).st.dhs
    ensures Current(h', role) >= Current(h, role) + 2
  {
    StateHolds(w, h, role);
    StateHolds(w', h', role);
    assert h[Current(h, role)].key == h'[Current(h, role)].key;
  }

  /**
   * Recovery after a theft: once the party whose state was copied uses a ratchet key generated after the theft, the
   * copy derives neither its new root key, nor the key of any frame it seals under the new ratchet key, nor the key of
   * any frame its peer seals in answer to it.
   */
  lemma Recovery(w: World, role: Role, events: seq<Event>)
    requires Reachable(w) && Valid(w, events)
    requires Run(w, events).Of(role).st.dhs != w.Of(role).st.dhs
    ensures var w', stolen := Run(w, events), Held(w.Of(role).st);
            && !Derivable(stolen, w'.Of(role).st.rk)
            && (forall f :: f in w'.Of(role).sent && f.message.header.dh == w'.Of(role).st.dhs ==>
                  !Reads(stolen, f))
            && (w'.Of(Peer(role)).st.dhr == Some(w'.Of(role).st.dhs) ==>
                  forall f :: f in w'.Of(Peer(role)).sent && f.message.header.dh == w'.Of(Peer(role)).st.dhs ==>
                    !Reads(stolen, f))
  {
    var h := ReachableHasHistory(w);
    var h' := RunKeeps(w, h, events);
    RecoveryAt(w, h, Run(w, events), h', role);
  }

  lemma RecoveryAt(w: World, h: History, w': World, h': History, role: Role)
    requires Inv(w, h) && Inv(w', h') && Extends(h, h')
    requires w'.Of(role).st.dhs != w.Of(role).st.dhs
    ensures var stolen := Held(w.Of(role).st);
            && !Derivable(stolen, w'.Of(role).st.rk)
            && (forall f :: f in w'.Of(role).sent && f.message.header.dh == w'.Of(role).st.dhs ==>
                  !Reads(stolen, f))
            && (w'.Of(Peer(role)).st.dhr == Some(w'.Of(role).st.dhs) ==>
                  forall f :: f in w'.Of(Peer(role)).sent && f.message.header.dh == w'.Of(Peer(role)).st.dhs ==>
                    !Reads(stolen, f))
  {
    var e, e' := Current(h, role), Current(h', role);
    ReceiverHolds(w, h, role);
    ReceiverHeld(h, w.Of(role), e);
    HeldStays(h, h', w.Of(role).st, e);
    StoredStay(h, h', w.Of(role), e);
    KeyChanged(w, h, w', h', role);
    StateHolds(w', h', role);
    StateHolds(w', h', Peer(role));
    DerivableRoots(h', w.Of(role).st, e, e');
    forall f | f in w'.Of(role).sent && f.message.header.dh == w'.Of(role).st.dhs
      ensures !Reads(Held(w.Of(role).st), f)
    {
      var p := SentPlace(w', h', role, f);
      BeyondReach(h', w.Of(role).st, e, f, p);
    }
    if w'.Of(Peer(role)).st.dhr == Some(w'.Of(role).st.dhs) {
      forall f | f in w'.Of(Peer(role)).sent && f.message.header.dh == w'.Of(Peer(role)).st.dhs
        ensures !Reads(Held(w.Of(role).st), f)
      {
        var p := SentPlace(w', h', Peer(role), f);
        BeyondReach(h', w.Of(role).st, e, f, p);
      }
    }
  }
}
