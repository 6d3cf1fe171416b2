/**
 * Every state of every valid run satisfies the invariant.
 *
 * A delivery is refused and changes nothing (RefusalKeeps), or is accepted in one of three positions;
 * for each the receiver keeps its part (StoredKeepsReceiver, InChainKeepsReceiver, NextChainKeepsReceiver),
 * its own frames and its peer are as before on the history that results, and DeliverKeeps joins them.
 * Expiry moves stored numbers to the expired ones (ExpireKeeps).
 * RunKeeps goes through a run, and ReachableHasHistory says it of every state a run can reach.
 */
module RatchetReach {
  import opened Wrappers
  import opened SymbolicCrypto
  import opened DoubleRatchet
  import opened RatchetRun
  import opened RatchetLedger
  import opened RatchetAccept
  import opened RatchetDeliver
  import opened RatchetInvariant

  /** The history after an accepted delivery. */
  function HistoryAfter(h: History, how: Acceptance, newKey: KeyId): History
    requires |h| >= 2
  {
    if how == NextChain then Turned(h, newKey) else h
  }

  lemma FreshIsNew(h: History, used: set<KeyId>, newKey: KeyId)
    requires KeysUsed(h, used) && newKey !in used
    ensures IsNew(h, newKey)
  {
    assert forall j :: 0 <= j < |h| ==> h[j].key in used;
  }

  /** Decrypting on the next chain: finish the old one, turn, open on the new one. */
  lemma DecryptTurns(st: RatchetState, message: RatchetMessage, ad: AssociatedData, now: int, newKey: KeyId)
    requires FindSkipped(st.skipped, message.header) == |st.skipped| && st.dhr != Some(message.header.dh)
    requires RatchetDecrypt(st, message, ad, now, newKey).Ok?
    ensures SkipUntil(st, message.header.pn, now).Ok?
    ensures var skip := SkipUntil(st, message.header.pn, now).value;
            RatchetDecrypt(st, message, ad, now, newKey)
              == OpenNext(DhRatchet(skip.next, message.header, newKey), message, ad, now, skip.evicted)
  {
  }

  /** The keys evicted by finishing the old chain come before those evicted on the new one. */
  lemma EvictedInOrder(side: Side, side1: Side, before: seq<SkippedKey>, all: Decrypted, d: Decrypted, f: Frame)
    requires side1 == side.(st := side1.st, evicted := side.evicted + before)
             && all == d.(evicted := before + d.evicted)
    ensures side.(st := all.next, accepted := side.accepted + [f], evicted := side.evicted + all.evicted)
              == UseNext(side1, d, f)
  {
    assert side.evicted + (before + d.evicted) == (side.evicted + before) + d.evicted;
  }

  /** A delivery on the next chain is a ratchet step followed by an ordinary acceptance. */
  lemma NextChainStep(side: Side, message: RatchetMessage, ad: AssociatedData, now: int, newKey: KeyId)
    requires FindSkipped(side.st.skipped, message.header) == |side.st.skipped| && side.st.dhr != Some(message.header.dh)
    requires RatchetDecrypt(side.st, message, ad, now, newKey).Ok?
    ensures SkipUntil(side.st, message.header.pn, now).Ok?
    ensures var side1 := TurnedSide(side, SkipUntil(side.st, message.header.pn, now).value, message.header, newKey);
            && OpenNext(side1.st, message, ad, now, []).Ok?
            && var d := OpenNext(side1.st, message, ad, now, []).value;
               UseNext(side1, d, Frame(message, ad, d.plaintext)) == DeliverStep(side, message, ad, now, newKey)
  {
    DecryptTurns(side.st, message, ad, now, newKey);
    var skip := SkipUntil(side.st, message.header.pn, now).value;
    var side1 := TurnedSide(side, skip, message.header, newKey);
    OpenNextCarries(side1.st, message, ad, now, skip.evicted);
    var all, d := OpenNext(side1.st, message, ad, now, skip.evicted).value,
                  OpenNext(side1.st, message, ad, now, []).value;
    EvictedInOrder(side, side1, skip.evicted, all, d, Frame(message, ad, d.plaintext));
  }

  lemma NextChainKeepsReceiver(h: History, side: Side, e: nat, message: RatchetMessage, ad: AssociatedData, now: int,
                               newKey: KeyId)
    requires Derived(h) && TurnsAt(h, e, message.header) && IsNew(h, newKey) && ReceiverInv(h, side, e)
    requires message.header.n < |h[e + 1].msgs|
    requires FindSkipped(side.st.skipped, message.header) == |side.st.skipped| && side.st.dhr != Some(message.header.dh)
    requires RatchetDecrypt(side.st, message, ad, now, newKey).Ok?
    ensures ReceiverInv(Turned(h, newKey), DeliverStep(side, message, ad, now, newKey), e + 2)
  {
    NextChainStep(side, message, ad, now, newKey);
    var side1 := TurnedSide(side, SkipUntil(side.st, message.header.pn, now).value, message.header, newKey);
    var d := OpenNext(side1.st, message, ad, now, []).value;
    TurnKeeps(h, side, e, message.header, now, newKey);
    TurnKeepsDerived(h, newKey);
    UseNextKeeps(Turned(h, newKey), side1, e + 2, now, Frame(message, ad, d.plaintext));
  }

  lemma StoredKeepsReceiver(h: History, side: Side, e: nat, message: RatchetMessage, ad: AssociatedData, now: int,
                            newKey: KeyId)
    requires e < |h| && ReceiverInv(h, side, e)
    requires FindSkipped(side.st.skipped, message.header) < |side.st.skipped|
    requires RatchetDecrypt(side.st, message, ad, now, newKey).Ok?
    ensures ReceiverInv(h, DeliverStep(side, message, ad, now, newKey), e)
  {
    var f := Frame(message, ad, RatchetDecrypt(side.st, message, ad, now, newKey).value.plaintext);
    UseStoredKeeps(h, side, e, FindSkipped(side.st.skipped, message.header), f);
    assert side.evicted + [] == side.evicted;
  }

  lemma InChainKeepsReceiver(h: History, side: Side, e: nat, message: RatchetMessage, ad: AssociatedData, now: int,
                             newKey: KeyId)
    requires Derived(h) && 2 <= e < |h| && ReceiverInv(h, side, e)
    requires FindSkipped(side.st.skipped, message.header) == |side.st.skipped|
    requires message.header.dh == h[e - 1].key && side.st.nr <= message.header.n < |h[e - 1].msgs|
    requires RatchetDecrypt(side.st, message, ad, now, newKey).Ok?
    ensures ReceiverInv(h, DeliverStep(side, message, ad, now, newKey), e)
  {
    var d := OpenNext(side.st, message, ad, now, []).value;
    UseNextKeeps(h, side, e, now, Frame(message, ad, d.plaintext));
  }

  /** The receiving side after an accepted delivery. */
  lemma DeliverKeepsEpoch(h: History, side: Side, e: nat, message: RatchetMessage, ad: AssociatedData, now: int,
                          newKey: KeyId, p: Place, how: Acceptance)
    requires Derived(h) && e < |h| && ReceiverInv(h, side, e) && IsNew(h, newKey) && (how == NextChain ==> e + 2 == |h|)
    requires RatchetDecrypt(side.st, message, ad, now, newKey).Ok?
    requires Positioned(h, e, side.st, message, p, how)
    ensures ReceiverInv(HistoryAfter(h, how, newKey), DeliverStep(side, message, ad, now, newKey),
              if how == NextChain then e + 2 else e)
  {
    match how
    case Stored => StoredKeepsReceiver(h, side, e, message, ad, now, newKey);
    case InChain => InChainKeepsReceiver(h, side, e, message, ad, now, newKey);
    case NextChain => NextChainKeepsReceiver(h, side, e, message, ad, now, newKey);
  }

  lemma DeliverKeepsSent(h: History, side: Side, role: Role, message: RatchetMessage, ad: AssociatedData, now: int,
                         newKey: KeyId, how: Acceptance)
    requires |h| >= 2 && SentAt(h, side.sent, role)
    ensures SentAt(HistoryAfter(h, how, newKey), DeliverStep(side, message, ad, now, newKey).sent, role)
  {
    assert DeliverStep(side, message, ad, now, newKey).sent == side.sent;
    if how == NextChain {
      TurnKeepsSent(h, newKey, side.sent, role);
    }
  }

  lemma DeliverKeepsReceiver(h: History, side: Side, role: Role, message: RatchetMessage, ad: AssociatedData, now: int,
                             newKey: KeyId, p: Place, how: Acceptance)
    requires Derived(h) && SideInv(h, side, role) && IsNew(h, newKey)
    requires RatchetDecrypt(side.st, message, ad, now, newKey).Ok?
    requires Positioned(h, Current(h, role), side.st, message, p, how)
    ensures SideInv(HistoryAfter(h, how, newKey), DeliverStep(side, message, ad, now, newKey), role)
  {
    EpochAfter(h, role, side.st, message, p, how, newKey);
    DeliverKeepsEpoch(h, side, Current(h, role), message, ad, now, newKey, p, how);
    DeliverKeepsSent(h, side, role, message, ad, now, newKey, how);
  }

  lemma EpochAfter(h: History, role: Role, st: RatchetState, message: RatchetMessage, p: Place, how: Acceptance,
                   newKey: KeyId)
    requires |h| >= 2 && Positioned(h, Current(h, role), st, message, p, how)
    ensures how == NextChain ==> Current(h, role) + 2 == |h|
    ensures Current(HistoryAfter(h, how, newKey), role) ==
              if how == NextChain then Current(h, role) + 2 else Current(h, role)
  {
  }

  lemma DeliverKeepsPeer(h: History, side: Side, role: Role, how: Acceptance, newKey: KeyId)
    requires |h| >= 2 && IsNew(h, newKey) && SideInv(h, side, role)
    requires how == NextChain ==> Current(h, role) == |h| - 1
    ensures SideInv(HistoryAfter(h, how, newKey), side, role)
  {
    if how == NextChain {
      TurnKeepsReceiver(h, newKey, side, Current(h, role));
      TurnKeepsSent(h, newKey, side.sent, role);
    }
  }

  lemma DeliverKeepsAuthentic(w: World, role: Role, message: RatchetMessage, ad: AssociatedData, now: int,
                              newKey: KeyId)
    requires Authentic(w, role) && Authentic(w, Peer(role))
             && RatchetDecrypt(w.Of(role).st, message, ad, now, newKey).Ok?
    requires Frame(message, ad,
                   RatchetDecrypt(w.Of(role).st, message, ad, now, newKey).value.plaintext) in w.Of(Peer(role)).sent
    ensures var w' := Step(w, Deliver(role, message, ad, now, newKey));
            && Authentic(w', role) && Authentic(w', Peer(role))
            && w'.Of(role) == DeliverStep(w.Of(role), message, ad, now, newKey) && w'.Of(Peer(role)) == w.Of(Peer(role))
  {
  }

  lemma DeliverKeepsRoles(w: World, h: History, role: Role, message: RatchetMessage, ad: AssociatedData, now: int,
                          newKey: KeyId, p: Place, how: Acceptance)
    requires Inv(w, h) && IsNew(h, newKey)
    requires RatchetDecrypt(w.Of(role).st, message, ad, now, newKey).Ok?
    requires Accepted(w, h, role,
                      Frame(message, ad, RatchetDecrypt(w.Of(role).st, message, ad, now, newKey).value.plaintext), p,
                      how)
    ensures var w' := Step(w, Deliver(role, message, ad, now, newKey));
            RoleInv(w', HistoryAfter(h, how, newKey), role) && RoleInv(w', HistoryAfter(h, how, newKey), Peer(role))
  {
    assert RoleInv(w, h, role) && RoleInv(w, h, Peer(role));
    DeliverKeepsAuthentic(w, role, message, ad, now, newKey);
    DeliverKeepsReceiver(h, w.Of(role), role, message, ad, now, newKey, p, how);
    DeliverKeepsPeer(h, w.Of(Peer(role)), Peer(role), how, newKey);
  }

  /** A refused delivery changes neither party. */
  lemma RefusalKeeps(w: World, h: History, role: Role, message: RatchetMessage, ad: AssociatedData, now: int,
                     newKey: KeyId)
    requires Inv(w, h) && RatchetDecrypt(w.Of(role).st, message, ad, now, newKey).Err?
    ensures Inv(Step(w, Deliver(role, message, ad, now, newKey)), h)
  {
    var w' := Step(w, Deliver(role, message, ad, now, newKey));
    assert w'.a == w.a && w'.b == w.b;
    forall r: Role
      ensures RoleInv(w', h, r)
    {
      assert RoleInv(w, h, r);
    }
  }

  lemma DeliverKeeps(w: World, h: History, role: Role, message: RatchetMessage, ad: AssociatedData, now: int,
                     newKey: KeyId) returns (h': History)
    requires Inv(w, h) && Enabled(w, Deliver(role, message, ad, now, newKey))
    ensures Inv(Step(w, Deliver(role, message, ad, now, newKey)), h') && Extends(h, h')
  {
    if RatchetDecrypt(w.Of(role).st, message, ad, now, newKey).Err? {
      RefusalKeeps(w, h, role, message, ad, now, newKey);
      h' := h;
    } else {
      FreshIsNew(h, w.used, newKey);
      var p, how := AcceptanceIsAuthentic(w, h, role, message, ad, now, newKey);
      h' := HistoryAfter(h, how, newKey);
      DeliverKeepsRoles(w, h, role, message, ad, now, newKey, p, how);
      AcceptedHistory(h, w.used, how, newKey);
      forall r: Role
        ensures RoleInv(Step(w, Deliver(role, message, ad, now, newKey)), h', r)
      {
        assert r == role || r == Peer(role);
      }
    }
  }

  lemma AcceptedHistory(h: History, used: set<KeyId>, how: Acceptance, newKey: KeyId)
    requires Derived(h) && KeysUsed(h, used) && IsNew(h, newKey)
    ensures Derived(HistoryAfter(h, how, newKey)) && KeysUsed(HistoryAfter(h, how, newKey), used + {newKey})
    ensures Extends(h, HistoryAfter(h, how, newKey))
  {
    if how == NextChain {
      TurnKeepsDerived(h, newKey);
    }
  }

  // -- Expiry ------------------------------------------------------------------

  /** Expiry keeps exactly the keys that are young enough, and the others are as many as it says it removed. */
  lemma {:induction false} YoungerExactly(keys: seq<SkippedKey>, maxAge: int, now: int)
    ensures |Younger(keys, maxAge, now)| + |Older(keys, maxAge, now)| == |keys|
    ensures forall key :: key in Younger(keys, maxAge, now) <==> key in keys && now - key.at <= maxAge
    ensures forall key :: key in Older(keys, maxAge, now) <==> key in keys && now - key.at > maxAge
  {
    if keys != [] {
      YoungerExactly(keys[1..], maxAge, now);
      assert keys == [keys[0]] + keys[1..];
    }
  }

  /** The kept keys stay in their order: what is kept of two stretches is what is kept of each, one after the other. */
  lemma {:induction false} YoungerInOrder(keys: seq<SkippedKey>, more: seq<SkippedKey>, maxAge: int, now: int)
    ensures Younger(keys + more, maxAge, now) == Younger(keys, maxAge, now) + Younger(more, maxAge, now)
  {
    if keys == [] {
      assert keys + more == more;
    } else {
      assert (keys + more)[1..] == keys[1..] + more;
      YoungerInOrder(keys[1..], more, maxAge, now);
    }
  }

  lemma ExpiryCounts(s: RatchetState, maxAge: int, now: int)
    ensures ExpireSkipped(s, maxAge, now).removed == |Older(s.skipped, maxAge, now)|
    ensures ExpireSkipped(s, maxAge, now).next == s.(skipped := Younger(s.skipped, maxAge, now))
  {
    YoungerExactly(s.skipped, maxAge, now);
  }

  lemma ExpireKeepsReceiver(h: History, side: Side, e: nat, maxAge: int, now: int)
    requires e < |h| && ReceiverInv(h, side, e)
    ensures ReceiverInv(h, ExpireStep(side, maxAge, now), e)
  {
    var side' := ExpireStep(side, maxAge, now);
    YoungerExactly(side.st.skipped, maxAge, now);
    assert KeysTrue(h, side'.st.skipped) by {
      assert forall i :: 0 <= i < |side'.st.skipped| ==> side'.st.skipped[i] in side.st.skipped;
    }
    forall id
      ensures Balanced(h, side'.st.nr, e, id, Ledger(side', id))
    {
      assert Balanced(h, side.st.nr, e, id, Ledger(side, id));
      ExpiryCount(side.st.skipped, maxAge, now, id);
      KeyCountConcat(side.expired, Older(side.st.skipped, maxAge, now), id);
    }
  }

  lemma ExpireKeeps(w: World, h: History, role: Role, maxAge: int, now: int)
    requires Inv(w, h)
    ensures Inv(Step(w, Expire(role, maxAge, now)), h)
  {
    var w', other := Step(w, Expire(role, maxAge, now)), Peer(role);
    assert RoleInv(w, h, role) && RoleInv(w, h, other);
    ExpireKeepsReceiver(h, w.Of(role), Current(h, role), maxAge, now);
    forall r: Role
      ensures RoleInv(w', h, r)
    {
      assert r == role || r == other;
    }
  }

  // -- Runs --------------------------------------------------------------------

  lemma StepKeeps(w: World, h: History, ev: Event) returns (h': History)
    requires Inv(w, h) && Enabled(w, ev)
    ensures Inv(Step(w, ev), h') && Extends(h, h')
  {
    match ev
    case Send(role, text, ad) => h' := SendKeeps(w, h, role, text, ad);
    case Deliver(role, message, ad, now, newKey) => h' := DeliverKeeps(w, h, role, message, ad, now, newKey);
    case Expire(role, maxAge, now) =>
      ExpireKeeps(w, h, role, maxAge, now);
      h' := h;
  }

  /** A state some run reaches from a fresh session. */
  ghost predicate Reachable(w: World) {
    exists s: Setup, events :: s.Proper() && Valid(Start(s), events) && w == Run(Start(s), events)
  }

  lemma {:induction false} RunKeeps(w: World, h: History, events: seq<Event>) returns (h': History)
    requires Inv(w, h) && Valid(w, events)
    ensures Inv(Run(w, events), h') && Extends(h, h')
  {
    if events == [] {
      h' := h;
    } else {
      var before := RunKeeps(w, h, events[..|events| - 1]);
      h' := StepKeeps(Run(w, events[..|events| - 1]), before, events[|events| - 1]);
    }
  }

  /** Every reachable state has a history that explains it. */
  lemma ReachableHasHistory(w: World) returns (h: History)
    requires Reachable(w)
    ensures Inv(w, h)
  {
    var s: Setup, events :| s.Proper() && Valid(Start(s), events) && w == Run(Start(s), events);
    StartHolds(s);
    h := RunKeeps(Start(s), StartHistory(s), events);
  }
}
