/**
 * The invariant at the start of a run and through every send.
 *
 * StartHolds: the two initial states have one history of three epochs, the initiator a step ahead.
 * A send appends one message to the sender's current epoch and moves nothing else of the history, so
 * what was derived, framed, balanced and stored stays so (the AppendKeeps lemmas),
 * the sender's frames gain exactly the new one (SendExtendsSent),
 * and SendKeeps puts the two parties together.
 */
module RatchetInvariant {
  import opened Wrappers
  import opened SymbolicCrypto
  import opened DoubleRatchet
  import opened RatchetRun

  // -- The start ---------------------------------------------------------------

  function StartHistory(s: Setup): History {
    var out := Dh(s.prekey, s.firstKey);
    [Epoch(s.prekey, s.secret, DecodedNull, []),
     Epoch(s.firstKey, RootKey(s.secret, out), ChainRoot(s.secret, out), [])]
  }

  lemma EmptyLedger(side: Side)
    requires side == SideInit(side.st) && side.st.skipped == []
    ensures forall id :: Ledger(side, id) == 0
  {
  }

  lemma StartHolds(s: Setup)
    requires s.Proper()
    ensures Inv(Start(s), StartHistory(s))
  {
    var h, w := StartHistory(s), Start(s);
    DhAgrees(s.prekey, s.firstKey);
    assert Linked(h, 1);
    EmptyLedger(w.a);
    EmptyLedger(w.b);
    assert RoleInv(w, h, Initiator) && RoleInv(w, h, Responder);
  }

  // -- Sending -----------------------------------------------------------------

  function Appended(h: History, e: nat, m: Sent): History
    requires e < |h|
  {
    h[e := h[e].(msgs := h[e].msgs + [m])]
  }

  lemma AppendKeepsDerived(h: History, e: nat, m: Sent)
    requires Derived(h) && 1 <= e < |h|
    ensures Derived(Appended(h, e, m))
  {
    forall j | 1 <= j < |h|
      ensures Linked(Appended(h, e, m), j)
    {
      assert Linked(h, j);
    }
  }

  /** Growing one of the two newest chains changes no frame sent so far. */
  lemma AppendKeepsFrame(h: History, e: nat, m: Sent, f: Frame, role: Role)
    requires |h| - 2 <= e < |h| && IsFrameOf(h, f, role)
    ensures IsFrameOf(Appended(h, e, m), f, role)
  {
    var p :| IsFrameAt(h, f, p) && Owner(p.chain) == role;
    assert IsFrameAt(Appended(h, e, m), f, p);
  }

  lemma AppendKeepsAll(h: History, e: nat, m: Sent, sent: seq<Frame>, role: Role)
    requires |h| - 2 <= e < |h| && SentAll(h, sent, role) && Owner(e) != role
    ensures SentAll(Appended(h, e, m), sent, role)
  {
    var h' := Appended(h, e, m);
    forall p | Exists(h', p) && Owner(p.chain) == role
      ensures FrameAt(h', p) in sent
    {
      assert FrameAt(h, p) == FrameAt(h', p);
      assert FrameAt(h, p) in sent;
    }
  }

  lemma AppendExtendsAll(h: History, e: nat, m: Sent, sent: seq<Frame>, f: Frame, role: Role)
    requires 1 <= e && |h| - 2 <= e < |h| && SentAll(h, sent, role)
    requires f == FrameAt(Appended(h, e, m), Place(e, |h[e].msgs|))
    ensures SentAll(Appended(h, e, m), sent + [f], role)
  {
    var h' := Appended(h, e, m);
    forall p | Exists(h', p) && Owner(p.chain) == role
      ensures FrameAt(h', p) in sent + [f]
    {
      if p != Place(e, |h[e].msgs|) {
        assert FrameAt(h, p) == FrameAt(h', p);
        assert FrameAt(h, p) in sent;
      }
    }
  }

  lemma AppendKeepsBalance(h: History, e: nat, m: Sent, nr: nat, at: nat, id: NumberId, times: nat)
    requires Balanced(h, nr, at, id, times) && at <= e + 1 && e < |h|
    ensures Balanced(Appended(h, e, m), nr, at, id, times)
  {
    var h' := Appended(h, e, m);
    forall c: nat | ReceivedOn(h', at, c)
      ensures ReceivedOn(h, at, c) && h'[c].key == h[c].key && Passed(h', nr, at, c) == Passed(h, nr, at, c)
    {
    }
    if times > 0 {
      var c: nat :| ReceivedOn(h, at, c) && id.0 == Some(h[c].key);
      assert ReceivedOn(h', at, c) && h'[c].key == h[c].key;
    }
  }

  lemma AppendKeepsConserved(h: History, e: nat, m: Sent, side: Side, at: nat)
    requires Conserved(h, side, at) && at <= e + 1 && e < |h|
    ensures Conserved(Appended(h, e, m), side, at)
  {
    forall id
      ensures Balanced(Appended(h, e, m), side.st.nr, at, id, Ledger(side, id))
    {
      AppendKeepsBalance(h, e, m, side.st.nr, at, id, Ledger(side, id));
    }
  }

  lemma AppendKeepsKeysTrue(h: History, e: nat, m: Sent, keys: seq<SkippedKey>)
    requires KeysTrue(h, keys) && e < |h|
    ensures KeysTrue(Appended(h, e, m), keys)
  {
    var h' := Appended(h, e, m);
    assert forall c: nat :: c < |h'| ==> h'[c].key == h[c].key && h'[c].chain == h[c].chain;
  }

  lemma AppendKeepsSide(h: History, e: nat, m: Sent, side: Side, role: Role)
    requires Derived(h) && SideInv(h, side, role) && |h| - 2 <= e < |h| && e != Current(h, role)
    ensures SideInv(Appended(h, e, m), side, role)
  {
    var h' := Appended(h, e, m);
    AppendKeepsConserved(h, e, m, side, Current(h, role));
    forall i | 0 <= i < |side.sent|
      ensures IsFrameOf(h', side.sent[i], role)
    {
      AppendKeepsFrame(h, e, m, side.sent[i], role);
    }
    AppendKeepsAll(h, e, m, side.sent, role);
    assert StateAt(h', side.st, Current(h, role));
    AppendKeepsKeysTrue(h, e, m, side.st.skipped);
  }

  /** The frame sealed now is the true frame of the next number, and no earlier frame has that number. */
  lemma SendExtendsSent(h: History, side: Side, role: Role, text: string, ad: AssociatedData)
    requires Derived(h) && Current(h, role) != 0
    requires StateAt(h, side.st, Current(h, role)) && SentAt(h, side.sent, role)
    ensures SentAt(Appended(h, Current(h, role), Sent(ad, text)), SendStep(side, text, ad).sent, role)
  {
    var e, m := Current(h, role), Sent(ad, text);
    var h', at := Appended(h, e, m), Place(e, side.st.ns);
    var f := Frame(SealWith(TrueKey(h, at), HeaderAt(h, at), text, ad), ad, text);
    assert SendStep(side, text, ad).sent == side.sent + [f];
    assert IsFrameAt(h', f, at);
    forall i | 0 <= i < |side.sent|
      ensures IsFrameOf(h', side.sent[i], role) && !SameNumber(side.sent[i], f)
    {
      AppendKeepsFrame(h, e, m, side.sent[i], role);
      var p :| IsFrameAt(h, side.sent[i], p) && Owner(p.chain) == role;
    }
    AppendExtendsAll(h, e, m, side.sent, f, role);
  }

  lemma SendKeepsState(h: History, st: RatchetState, e: nat, text: string, ad: AssociatedData)
    requires 0 < e < |h| && StateAt(h, st, e)
    ensures RatchetEncrypt(st, text, ad).Ok?
    ensures StateAt(Appended(h, e, Sent(ad, text)), RatchetEncrypt(st, text, ad).value.next, e)
  {
  }

  lemma SendKeepsSender(h: History, side: Side, role: Role, text: string, ad: AssociatedData)
    requires Derived(h) && SideInv(h, side, role) && Current(h, role) != 0
    ensures SideInv(Appended(h, Current(h, role), Sent(ad, text)), SendStep(side, text, ad), role)
  {
    var e, m := Current(h, role), Sent(ad, text);
    var h', side' := Appended(h, e, m), SendStep(side, text, ad);
    SendKeepsState(h, side.st, e, text, ad);
    AppendKeepsConserved(h, e, m, side, e);
    assert forall id :: Ledger(side', id) == Ledger(side, id);
    SendExtendsSent(h, side, role, text, ad);
    AppendKeepsKeysTrue(h, e, m, side.st.skipped);
  }

  lemma SendKeepsRoles(w: World, h: History, role: Role, text: string, ad: AssociatedData)
    requires Inv(w, h) && Current(h, role) != 0
    ensures var w', h' := Step(w, Send(role, text, ad)), Appended(h, Current(h, role), Sent(ad, text));
            RoleInv(w', h', role) && RoleInv(w', h', Peer(role))
  {
    var e, other := Current(h, role), Peer(role);
    var w' := Step(w, Send(role, text, ad));
    assert RoleInv(w, h, role) && RoleInv(w, h, other);
    SendKeepsSender(h, w.Of(role), role, text, ad);
    AppendKeepsSide(h, e, Sent(ad, text), w.Of(other), other);
    assert forall f :: f in w.Of(role).sent ==> f in w'.Of(role).sent;
  }

  lemma SendKeeps(w: World, h: History, role: Role, text: string, ad: AssociatedData) returns (h': History)
    requires Inv(w, h)
    ensures Inv(Step(w, Send(role, text, ad)), h') && Extends(h, h')
  {
    var e := Current(h, role);
    if e == 0 {
      h' := h;
      assert RoleInv(w, h, role);
      assert Step(w, Send(role, text, ad)) == w;
    } else {
      h' := Appended(h, e, Sent(ad, text));
      AppendKeepsDerived(h, e, Sent(ad, text));
      SendKeepsRoles(w, h, role, text, ad);
      forall r: Role
        ensures RoleInv(Step(w, Send(role, text, ad)), h', r)
      {
        assert r == role || r == Peer(role);
      }
    }
  }
}
