/** Every step of every tab keeps the device invariant, and what one commit does to the store. */
module DeviceInvariant {
  import opened Wrappers
  import opened SymbolicCrypto
  import opened EnvelopeV2
  import opened Vault
  import opened Device

  /** No tab but t holds the lock, so no other tab's state mentions the store. */
  predicate OthersFree(d: Device, t: TabId) {
    forall u :: u in d.tabs && u != t ==> !Locked(d.tabs[u])
  }

  lemma HolderAlone(d: Device, t: TabId)
    requires OneHolder(d) && Locked(d.TabOf(t))
    ensures OthersFree(d, t) && d.lock == Some(t)
  {
    forall u | u in d.tabs && u != t
      ensures !Locked(d.tabs[u])
    {
      assert d.TabOf(u) == d.tabs[u];
    }
  }

  lemma FreeTabsOk(d: Device, d': Device, t: TabId)
    requires TabsOk(d) && OthersFree(d, t) && d'.me == d.me && d.seen <= d'.seen
    requires forall u: TabId :: u != t ==> d'.TabOf(u) == d.TabOf(u)
    requires TabOk(d', d'.TabOf(t))
    ensures TabsOk(d')
  {
    forall u: TabId
      ensures TabOk(d', d'.TabOf(u))
    {
      if u != t {
        assert TabOk(d, d.TabOf(u));
      }
    }
  }

  lemma ReleaseKeeps(d: Device, t: TabId)
    requires DeviceInv(d)
    ensures DeviceInv(d.Release(t))
  {
    var d' := d.Release(t);
    forall u: TabId
      ensures TabOk(d', d'.TabOf(u)) && (Locked(d'.TabOf(u)) ==> d'.lock == Some(u))
    {
      assert TabOk(d, d.TabOf(u));
      assert Locked(d.TabOf(u)) ==> d.lock == Some(u);
    }
  }

  /** A send commits under a key that was free, with the session's next counter. */
  lemma SendKeyIsFree(d: Device, t: TabId, text: string, session: RatchetSession)
    requires DeviceInv(d) && d.TabOf(t) == Ready(SendJob(text), session)
    ensures SealV2(session, d.me, text).Ok?
    ensures var e := SealV2(session, d.me, text).value.envelope;
            e.sessionId == session.sessionId && e.ctr == session.sendTotal && KeyOf(d.me, e) !in d.store.texts
  {
    assert TabOk(d, d.TabOf(t));
  }

  lemma FinishSendStore(d: Device, t: TabId, text: string, session: RatchetSession, newDek: nat)
    requires DeviceInv(d) && d.TabOf(t) == Ready(SendJob(text), session)
    ensures StoreOk(FinishSend(d, t, text, session, newDek))
  {
    SendKeyIsFree(d, t, text, session);
    assert TabOk(d, d.TabOf(t));
    var s := SealV2(session, d.me, text).value;
    CommitReadsBack(d.store, s.next, KeyOf(d.me, s.envelope), text, newDek);
  }

  lemma FinishSendSealed(d: Device, t: TabId, text: string, session: RatchetSession, newDek: nat)
    requires DeviceInv(d) && d.TabOf(t) == Ready(SendJob(text), session)
    ensures SealedOk(FinishSend(d, t, text, session, newDek))
  {
    SendKeyIsFree(d, t, text, session);
    assert TabOk(d, d.TabOf(t));
    var d' := FinishSend(d, t, text, session, newDek);
    var a := d'.sealed[|d.sealed|];
    assert a in d'.sealed;
    if session.sendTotal > 0 {
      assert HasCounter(d.sealed, session.sessionId, 0);
    }
    forall id | HasCounter(d.sealed, id, 0)
      ensures HasCounter(d'.sealed, id, 0)
    {
      var b :| b in d.sealed && b.envelope.sessionId == id && b.envelope.ctr == 0;
      assert b in d'.sealed;
    }
  }

  lemma FinishReceiveKeeps(d: Device, t: TabId, senderId: nat, e: Envelope, session: RatchetSession, now: int,
                           newKey: KeyId, newDek: nat)
    requires DeviceInv(d) && d.TabOf(t) == Ready(ReceiveJob(senderId, e), session)
    requires OpenV2(session, senderId, e, now, newKey).Ok?
    ensures var d' := FinishReceive(d, t, senderId, e, session, now, newKey, newDek);
            StoreOk(d') && SealedOk(d')
  {
    assert TabOk(d, d.TabOf(t));
    OpeningGivesSendingChain(session, senderId, e, now, newKey);
    var o := OpenV2(session, senderId, e, now, newKey).value;
    CommitReadsBack(d.store, o.next, KeyOf(senderId, e), o.text, newDek);
  }

  lemma FinishSendTab(d: Device, t: TabId, text: string, session: RatchetSession, newDek: nat)
    requires DeviceInv(d) && d.TabOf(t) == Ready(SendJob(text), session)
    ensures TabsOk(FinishSend(d, t, text, session, newDek)) && OneHolder(FinishSend(d, t, text, session, newDek))
  {
    HolderAlone(d, t);
    SendKeyIsFree(d, t, text, session);
    var s := SealV2(session, d.me, text).value;
    CommitReadsBack(d.store, s.next, KeyOf(d.me, s.envelope), text, newDek);
    FreeTabsOk(d, FinishSend(d, t, text, session, newDek), t);
  }

  lemma FinishReceiveTab(d: Device, t: TabId, senderId: nat, e: Envelope, session: RatchetSession, now: int,
                         newKey: KeyId, newDek: nat)
    requires DeviceInv(d) && d.TabOf(t) == Ready(ReceiveJob(senderId, e), session)
    requires OpenV2(session, senderId, e, now, newKey).Ok?
    ensures var d' := FinishReceive(d, t, senderId, e, session, now, newKey, newDek);
            TabsOk(d') && OneHolder(d')
  {
    HolderAlone(d, t);
    var o := OpenV2(session, senderId, e, now, newKey).value;
    CommitReadsBack(d.store, o.next, KeyOf(senderId, e), o.text, newDek);
    FreeTabsOk(d, FinishReceive(d, t, senderId, e, session, now, newKey, newDek), t);
  }

  lemma FinishKeeps(d: Device, t: TabId, now: int, newKey: KeyId, newDek: nat)
    requires DeviceInv(d) && d.TabOf(t).Ready?
    ensures DeviceInv(Step(d, Finish(t, now, newKey, newDek)))
  {
    match d.TabOf(t)
    case Ready(SendJob(text), session) =>
      FinishSendStore(d, t, text, session, newDek);
      FinishSendSealed(d, t, text, session, newDek);
      FinishSendTab(d, t, text, session, newDek);
    case Ready(ReceiveJob(senderId, e), session) =>
      if OpenV2(session, senderId, e, now, newKey).Err? {
        ReleaseKeeps(d, t);
      } else {
        FinishReceiveKeeps(d, t, senderId, e, session, now, newKey, newDek);
        FinishReceiveTab(d, t, senderId, e, session, now, newKey, newDek);
      }
  }

  lemma LoadSendKeeps(d: Device, t: TabId, text: string, latest: Option<RatchetSession>, bundle: PeerBundle,
                      sessionId: nat, ek: KeyId, firstKey: KeyId, now: int)
    requires DeviceInv(d) && d.TabOf(t) == Holding(SendJob(text))
    requires IsLatest(d.store, latest) && (latest.None? ==> sessionId !in d.seen)
    ensures DeviceInv(LoadForSend(d, t, text, latest, bundle, sessionId, ek, firstKey, now))
  {
    var d' := LoadForSend(d, t, text, latest, bundle, sessionId, ek, firstKey, now);
    HolderAlone(d, t);
    if latest.None? && !bundle.signed {
      ReleaseKeeps(d, t);
    } else {
      FreeTabsOk(d, d', t);
    }
  }

  lemma LoadReceiveKeeps(d: Device, t: TabId, senderId: nat, e: Envelope, now: int)
    requires DeviceInv(d) && d.TabOf(t) == Holding(ReceiveJob(senderId, e))
    ensures DeviceInv(LoadForReceive(d, t, senderId, e, now))
  {
    var d' := LoadForReceive(d, t, senderId, e, now);
    HolderAlone(d, t);
    assert TabOk(d, d.TabOf(t));
    if d'.TabOf(t).Idle? {
      ReleaseKeeps(d, t);
    } else {
      FreeTabsOk(d, d', t);
    }
  }

  lemma LookKeeps(d: Device, t: TabId, senderId: nat, e: Envelope)
    requires DeviceInv(d) && d.TabOf(t).Idle?
    ensures DeviceInv(FirstLook(d, t, senderId, e))
  {
    var d' := FirstLook(d, t, senderId, e);
    assert d'.store == d.store && d'.sealed == d.sealed && d'.lock == d.lock;
    forall u: TabId
      ensures TabOk(d', d'.TabOf(u)) && (Locked(d'.TabOf(u)) ==> d'.lock == Some(u))
    {
      assert TabOk(d, d.TabOf(u));
      assert Locked(d.TabOf(u)) ==> d.lock == Some(u);
    }
  }

  lemma QueueKeeps(d: Device, t: TabId, tab: Tab, lock: Option<TabId>)
    requires DeviceInv(d) && !Locked(d.TabOf(t))
    requires (tab.Waiting? && lock == d.lock) || (tab.Holding? && d.lock.None? && lock == Some(t))
    requires tab.job.ReceiveJob? ==> tab.job.senderId != d.me && tab.job.envelope.sessionId in d.seen
    ensures DeviceInv(d.(lock := lock).With(t, tab))
  {
    var d' := d.(lock := lock).With(t, tab);
    forall u: TabId
      ensures TabOk(d', d'.TabOf(u)) && (Locked(d'.TabOf(u)) ==> d'.lock == Some(u))
    {
      assert TabOk(d, d.TabOf(u));
      assert Locked(d.TabOf(u)) ==> d.lock == Some(u);
    }
  }

  lemma ReturnKeeps(d: Device, t: TabId)
    requires DeviceInv(d)
    ensures DeviceInv(Step(d, Return(t)))
  {
    ReleaseKeeps(d, t);
    var r, d' := d.Release(t), Step(d, Return(t));
    forall u: TabId
      ensures TabOk(d', d'.TabOf(u)) && (Locked(d'.TabOf(u)) ==> d'.lock == Some(u))
    {
      if d' != d {
        assert TabOk(r, r.TabOf(u));
        assert Locked(r.TabOf(u)) ==> r.lock == Some(u);
      } else {
        assert TabOk(d, d.TabOf(u));
        assert Locked(d.TabOf(u)) ==> d.lock == Some(u);
      }
    }
  }

  lemma ShredKeeps(d: Device)
    requires DeviceInv(d) && d.lock.None?
    ensures DeviceInv(Step(d, Shred))
  {
    forall u: TabId
      ensures TabOk(Step(d, Shred), d.TabOf(u))
    {
      assert Locked(d.TabOf(u)) ==> d.lock == Some(u);
    }
  }

  lemma StepKeeps(d: Device, ev: Event)
    requires DeviceInv(d) && Enabled(d, ev)
    ensures DeviceInv(Step(d, ev))
  {
    match ev
    case StartSend(t, text) => QueueKeeps(d, t, Waiting(SendJob(text)), d.lock);
    case StartReceive(t, senderId, e) => LookKeeps(d, t, senderId, e);
    case Acquire(t) =>
      assert TabOk(d, d.TabOf(t));
      QueueKeeps(d, t, Holding(d.TabOf(t).job), Some(t));
    case Load(t, latest, bundle, sessionId, ek, firstKey, now) =>
      match d.TabOf(t) {
        case Holding(SendJob(text)) => LoadSendKeeps(d, t, text, latest, bundle, sessionId, ek, firstKey, now);
        case Holding(ReceiveJob(senderId, e)) => LoadReceiveKeeps(d, t, senderId, e, now);
      }
    case Finish(t, now, newKey, newDek) => FinishKeeps(d, t, now, newKey, newDek);
    case Return(t) => ReturnKeeps(d, t);
    case Crash(t) => ReleaseKeeps(d, t);
    case Shred => ShredKeeps(d);
  }
}
