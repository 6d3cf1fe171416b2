/**
 * Accepting a frame keeps the invariant, in each of the three positions a frame can have.
 *
 * UseStoredKeeps: its key is among the stored ones. UseNextKeeps: it is the next number of the current chain.
 * TurnKeeps: it opens the peer's next chain, and the receiver takes the ratchet step.
 * In each, the number accepted leaves one column of the ledger and enters another,
 * and every key still stored is the true key of its number.
 */
module RatchetDeliver {
  import opened Wrappers
  import opened SymbolicCrypto
  import opened DoubleRatchet
  import opened RatchetRun
  import opened RatchetLedger
  import opened RatchetAccept

  // -- A stored key ------------------------------------------------------------

  function UseStored(side: Side, at: nat, f: Frame): Side
    requires at < |side.st.skipped|
  {
    side.(st := side.st.(skipped := side.st.skipped[..at] + side.st.skipped[at + 1..]), accepted := side.accepted + [f])
  }

  lemma UseStoredLedger(side: Side, at: nat, f: Frame, id: NumberId)
    requires at < |side.st.skipped| && IdOf(f) == (side.st.skipped[at].dh, side.st.skipped[at].n)
    ensures Ledger(UseStored(side, at, f), id) == Ledger(side, id)
  {
    RemoveCount(side.st.skipped, at, id);
    FrameCountAppend(side.accepted, f, id);
  }

  lemma UseStoredKeeps(h: History, side: Side, e: nat, at: nat, f: Frame)
    requires e < |h| && ReceiverInv(h, side, e)
    requires at < |side.st.skipped| && IdOf(f) == (side.st.skipped[at].dh, side.st.skipped[at].n)
    ensures ReceiverInv(h, UseStored(side, at, f), e)
  {
    var side' := UseStored(side, at, f);
    forall id
      ensures Balanced(h, side'.st.nr, e, id, Ledger(side', id))
    {
      UseStoredLedger(side, at, f, id);
      assert Balanced(h, side.st.nr, e, id, Ledger(side, id));
    }
    assert KeysTrue(h, side'.st.skipped) by {
      forall i | 0 <= i < |side'.st.skipped|
        ensures side'.st.skipped[i] in side.st.skipped
      {
        assert side'.st.skipped[i] == side.st.skipped[if i < at then i else i + 1];
      }
    }
  }

  // -- The next number of the current chain ------------------------------------

  function UseNext(side: Side, d: Decrypted, f: Frame): Side {
    side.(st := d.next, accepted := side.accepted + [f], evicted := side.evicted + d.evicted)
  }

  lemma UseNextLedger(h: History, side: Side, e: nat, now: int, f: Frame, id: NumberId)
    requires 2 <= e < |h| && StateAt(h, side.st, e) && side.st.nr <= f.message.header.n
    requires f.message.header.dh == h[e - 1].key
    requires OpenNext(side.st, f.message, f.ad, now, []).Ok?
    ensures var d := OpenNext(side.st, f.message, f.ad, now, []).value;
            Ledger(UseNext(side, d, f), id) ==
            Ledger(side, id) + if id.0 == Some(h[e - 1].key) && side.st.nr <= id.1 <= f.message.header.n then 1 else 0
  {
    var d := OpenNext(side.st, f.message, f.ad, now, []).value;
    var skip := SkipUntil(side.st, f.message.header.n, now).value;
    OpenNextFacts(h, side.st, e, f.message, f.ad, now, []);
    assert d.evicted == skip.evicted && d.next.skipped == skip.next.skipped;
    SkipCount(side.st, f.message.header.n, now, id);
    KeyCountConcat(side.evicted, d.evicted, id);
    FrameCountAppend(side.accepted, f, id);
  }

  /** Passing numbers of the current chain up to and including n. */
  lemma PassAndAccept(h: History, nr: nat, e: nat, n: nat, id: NumberId, times: nat, times': nat)
    requires Derived(h) && 2 <= e < |h| && nr <= n && Balanced(h, nr, e, id, times)
    requires times' == times + if id.0 == Some(h[e - 1].key) && nr <= id.1 <= n then 1 else 0
    ensures Balanced(h, n + 1, e, id, times')
  {
    assert ReceivedOn(h, e, e - 1);
  }

  lemma UseNextConserved(h: History, side: Side, e: nat, now: int, f: Frame)
    requires Derived(h) && 2 <= e < |h| && StateAt(h, side.st, e) && Conserved(h, side, e)
    requires f.message.header.dh == h[e - 1].key && side.st.nr <= f.message.header.n
    requires OpenNext(side.st, f.message, f.ad, now, []).Ok?
    ensures Conserved(h, UseNext(side, OpenNext(side.st, f.message, f.ad, now, []).value, f), e)
  {
    var side', n := UseNext(side, OpenNext(side.st, f.message, f.ad, now, []).value, f), f.message.header.n;
    OpenNextFacts(h, side.st, e, f.message, f.ad, now, []);
    forall id
      ensures Balanced(h, side'.st.nr, e, id, Ledger(side', id))
    {
      UseNextLedger(h, side, e, now, f, id);
      assert Balanced(h, side.st.nr, e, id, Ledger(side, id));
      PassAndAccept(h, side.st.nr, e, n, id, Ledger(side, id), Ledger(side', id));
    }
  }

  lemma UseNextKeeps(h: History, side: Side, e: nat, now: int, f: Frame)
    requires Derived(h) && 2 <= e < |h| && ReceiverInv(h, side, e)
    requires f.message.header.dh == h[e - 1].key && side.st.nr <= f.message.header.n < |h[e - 1].msgs|
    requires OpenNext(side.st, f.message, f.ad, now, []).Ok?
    ensures ReceiverInv(h, UseNext(side, OpenNext(side.st, f.message, f.ad, now, []).value, f), e)
  {
    UseNextConserved(h, side, e, now, f);
    OpenNextFacts(h, side.st, e, f.message, f.ad, now, []);
    SkipKeysTrue(h, side.st, e, f.message.header.n, now);
    SkipState(h, side.st, e, f.message.header.n, now);
  }

  // -- The ratchet step --------------------------------------------------------

  /** The epoch a party opens when it answers the newest key with a new one of its own. */
  function NextEpoch(h: History, newKey: KeyId): Epoch
    requires |h| >= 2
  {
    var top := h[|h| - 1];
    Epoch(newKey, RootKey(top.root, Dh(top.key, newKey)), ChainRoot(top.root, Dh(top.key, newKey)), [])
  }

  function Turned(h: History, newKey: KeyId): History
    requires |h| >= 2
  {
    h + [NextEpoch(h, newKey)]
  }

  predicate IsNew(h: History, newKey: KeyId) {
    (forall j :: 0 <= j < |h| ==> h[j].key != newKey) && (h != [] ==> newKey !in OuterKeys(h[0].root))
  }

  lemma TurnKeepsDerived(h: History, newKey: KeyId)
    requires Derived(h) && IsNew(h, newKey)
    ensures Derived(Turned(h, newKey))
  {
    var h' := Turned(h, newKey);
    forall j | 1 <= j < |h'|
      ensures Linked(h', j)
    {
      if j < |h| {
        assert Linked(h, j);
      }
    }
  }

  lemma TurnKeepsSent(h: History, newKey: KeyId, sent: seq<Frame>, role: Role)
    requires |h| >= 2 && SentAt(h, sent, role)
    ensures SentAt(Turned(h, newKey), sent, role)
  {
    var h' := Turned(h, newKey);
    forall i | 0 <= i < |sent|
      ensures IsFrameOf(h', sent[i], role)
    {
      assert IsFrameOf(h, sent[i], role);
      var p :| IsFrameAt(h, sent[i], p) && Owner(p.chain) == role;
      assert IsFrameAt(h', sent[i], p);
    }
    forall p | Exists(h', p) && Owner(p.chain) == role
      ensures FrameAt(h', p) in sent
    {
      assert FrameAt(h, p) == FrameAt(h', p);
      assert FrameAt(h, p) in sent;
    }
  }

  lemma TurnKeepsBalance(h: History, newKey: KeyId, nr: nat, e: nat, id: NumberId, times: nat)
    requires |h| >= 2 && e < |h| && Balanced(h, nr, e, id, times)
    ensures Balanced(Turned(h, newKey), nr, e, id, times)
  {
    var h' := Turned(h, newKey);
    forall c: nat | ReceivedOn(h', e, c)
      ensures ReceivedOn(h, e, c) && h'[c] == h[c]
    {
    }
    if times > 0 {
      var c: nat :| ReceivedOn(h, e, c) && id.0 == Some(h[c].key);
      assert ReceivedOn(h', e, c) && h'[c] == h[c];
    }
  }

  /** Stored keys name keys of the history, so a new key changes nothing about them. */
  lemma TurnKeepsKeysTrue(h: History, newKey: KeyId, keys: seq<SkippedKey>)
    requires |h| >= 2 && KeysTrue(h, keys) && IsNew(h, newKey)
    requires forall i :: 0 <= i < |keys| ==> exists c: nat :: c < |h| && keys[i].dh == Some(h[c].key)
    ensures KeysTrue(Turned(h, newKey), keys)
  {
    var h' := Turned(h, newKey);
    forall i, c: nat | 0 <= i < |keys| && c < |h'| && keys[i].dh == Some(h'[c].key)
      ensures keys[i].mk == TrueKey(h', Place(c, keys[i].n))
    {
      assert c < |h| && h'[c] == h[c];
    }
  }

  /** A new epoch does not disturb the party that did not open it. */
  lemma TurnKeepsReceiver(h: History, newKey: KeyId, side: Side, e: nat)
    requires |h| >= 2 && e < |h| && ReceiverInv(h, side, e) && IsNew(h, newKey)
    ensures ReceiverInv(Turned(h, newKey), side, e)
  {
    forall id
      ensures Balanced(Turned(h, newKey), side.st.nr, e, id, Ledger(side, id))
    {
      assert Balanced(h, side.st.nr, e, id, Ledger(side, id));
      TurnKeepsBalance(h, newKey, side.st.nr, e, id, Ledger(side, id));
    }
    forall i | 0 <= i < |side.st.skipped|
      ensures exists c: nat :: c < |h| && side.st.skipped[i].dh == Some(h[c].key)
    {
      var p := StoredIsTrue(h, side, e, i);
    }
    TurnKeepsKeysTrue(h, newKey, side.st.skipped);
  }

  /** The side as it stands between the ratchet step and the acceptance of the message that caused it. */
  function TurnedSide(side: Side, skip: Skip, header: Header, newKey: KeyId): Side {
    side.(st := DhRatchet(skip.next, header, newKey), evicted := side.evicted + skip.evicted)
  }

  /** An honest first frame of the next chain: it shows the newest key and announces the old chain's length. */
  predicate TurnsAt(h: History, e: nat, header: Header) {
    |h| >= 2 && e + 2 == |h| && header.dh == h[e + 1].key && header.pn == PreviousLength(h, e + 1)
  }

  lemma TurnState(h: History, side: Side, e: nat, header: Header, now: int, newKey: KeyId)
    requires Derived(h) && TurnsAt(h, e, header) && StateAt(h, side.st, e)
    requires SkipUntil(side.st, header.pn, now).Ok?
    ensures StateAt(Turned(h, newKey), DhRatchet(SkipUntil(side.st, header.pn, now).value.next, header, newKey), e + 2)
  {
    assert Linked(h, e + 1);
    SkipState(h, side.st, e, header.pn, now);
    DhAgrees(newKey, header.dh);
  }

  lemma TurnBalance(h: History, st: RatchetState, e: nat, newKey: KeyId, id: NumberId, times: nat, times': nat)
    requires Derived(h) && |h| == e + 2 && IsNew(h, newKey) && StateAt(h, st, e) && Balanced(h, st.nr, e, id, times)
    requires times' == times +
               if id.0 == st.dhr && st.nr <= id.1 < st.nr + Gap(st, PreviousLength(h, e + 1)) then 1 else 0
    ensures Balanced(Turned(h, newKey), 0, e + 2, id, times')
  {
    var h' := Turned(h, newKey);
    forall c: nat | ReceivedOn(h', e + 2, c) && id.0 == Some(h'[c].key)
      ensures times' == if id.1 < Passed(h', 0, e + 2, c) then 1 else 0
    {
      assert h'[c] == h[c];
      if c <= e {
        assert ReceivedOn(h, e, c);
      }
    }
    if times' > 0 {
      if times > 0 {
        var c: nat :| ReceivedOn(h, e, c) && id.0 == Some(h[c].key);
        assert ReceivedOn(h', e + 2, c) && h'[c] == h[c];
      } else {
        assert ReceivedOn(h', e + 2, e - 1) && h'[e - 1] == h[e - 1];
      }
    }
  }

  lemma TurnConserved(h: History, side: Side, e: nat, header: Header, now: int, newKey: KeyId)
    requires Derived(h) && TurnsAt(h, e, header) && IsNew(h, newKey) && StateAt(h, side.st, e) && Conserved(h, side, e)
    requires SkipUntil(side.st, header.pn, now).Ok?
    ensures Conserved(Turned(h, newKey), TurnedSide(side, SkipUntil(side.st, header.pn, now).value, header, newKey),
                      e + 2)
  {
    var skip := SkipUntil(side.st, header.pn, now).value;
    var side' := TurnedSide(side, skip, header, newKey);
    forall id
      ensures Balanced(Turned(h, newKey), side'.st.nr, e + 2, id, Ledger(side', id))
    {
      SkipCount(side.st, header.pn, now, id);
      KeyCountConcat(side.evicted, skip.evicted, id);
      assert Balanced(h, side.st.nr, e, id, Ledger(side, id));
      TurnBalance(h, side.st, e, newKey, id, Ledger(side, id), Ledger(side', id));
    }
  }

  lemma TurnKeys(h: History, side: Side, e: nat, header: Header, now: int, newKey: KeyId)
    requires Derived(h) && TurnsAt(h, e, header) && IsNew(h, newKey) && ReceiverInv(h, side, e)
    requires SkipUntil(side.st, header.pn, now).Ok?
    ensures KeysTrue(Turned(h, newKey), SkipUntil(side.st, header.pn, now).value.next.skipped)
  {
    var skip := SkipUntil(side.st, header.pn, now).value;
    SkipKeysTrue(h, side.st, e, header.pn, now);
    forall i | 0 <= i < |skip.next.skipped|
      ensures exists c: nat :: c < |h| && skip.next.skipped[i].dh == Some(h[c].key)
    {
      var id := (skip.next.skipped[i].dh, skip.next.skipped[i].n);
      StoredCounts(skip.next.skipped, i);
      SkipCount(side.st, header.pn, now, id);
      if KeyCount(side.st.skipped, id) > 0 {
        var at := CountedStored(side.st.skipped, id);
        var p := StoredIsTrue(h, side, e, at);
      } else {
        assert id.0 == Some(h[e - 1].key);
      }
    }
    TurnKeepsKeysTrue(h, newKey, skip.next.skipped);
  }

  lemma TurnKeeps(h: History, side: Side, e: nat, header: Header, now: int, newKey: KeyId)
    requires Derived(h) && TurnsAt(h, e, header) && IsNew(h, newKey) && ReceiverInv(h, side, e)
    requires SkipUntil(side.st, header.pn, now).Ok?
    ensures ReceiverInv(Turned(h, newKey), TurnedSide(side, SkipUntil(side.st, header.pn, now).value, header, newKey),
                        e + 2)
  {
    TurnState(h, side, e, header, now, newKey);
    TurnConserved(h, side, e, header, now, newKey);
    TurnKeys(h, side, e, header, now, newKey);
    SkipState(h, side.st, e, header.pn, now);
  }

  /** The evictions carried into OpenNext are only passed along. */
  lemma OpenNextCarries(st: RatchetState, message: RatchetMessage, ad: AssociatedData, now: int,
                        evicted: seq<SkippedKey>)
    requires OpenNext(st, message, ad, now, evicted).Ok?
    ensures OpenNext(st, message, ad, now, []).Ok?
    ensures var d, d0 := OpenNext(st, message, ad, now, evicted).value, OpenNext(st, message, ad, now, []).value;
            d == d0.(evicted := evicted + d0.evicted)
  {
    assert forall xs: seq<SkippedKey> :: [] + xs == xs;
  }
}
