/** Which v2 session encrypt seals on: over any run of the tabs, one that was started last. */
module NewestSession {
  import opened Wrappers
  import opened SymbolicCrypto
  import opened EnvelopeV2
  import opened Vault
  import opened Device
  import opened DeviceInvariant
  import opened DeviceTheorems
  import E2EEService

  // -- When a session was started ----------------------------------------------

  /** This load finds no session of the id and puts a new one into its tab. */
  predicate Starts(d: Device, ev: Event, id: nat) {
    && ev.Load? && d.TabOf(ev.tab).Holding? && Step(d, ev).TabOf(ev.tab).Ready?
    && Step(d, ev).TabOf(ev.tab).session.sessionId == id && LoadRatchet(d.store, id).Missing?
  }

  /** The last load that started the session of this id. */
  function StartOf(start: Device, events: seq<Event>, id: nat): (at: Option<nat>)
    ensures at.Some? ==> at.value < |events| && events[at.value].Load?
  {
    if events == [] then None
    else if Starts(Run(start, events[..|events| - 1]), events[|events| - 1], id) then Some(|events| - 1)
    else StartOf(start, events[..|events| - 1], id)
  }

  /** The clock then. */
  function StartedAt(start: Device, events: seq<Event>, id: nat): Option<int> {
    match StartOf(start, events, id)
    case None => None
    case Some(at) => Some(events[at].now)
  }

  // -- The dates in the store are true -----------------------------------------

  predicate IsDated(start: Device, events: seq<Event>, s: RatchetSession) {
    StartedAt(start, events, s.sessionId) == Some(s.createdAt)
  }

  /** Nothing stored is newer. */
  predicate NoneNewer(store: Store, s: RatchetSession) {
    forall id :: id in store.ratchets ==> store.ratchets[id].value.createdAt <= s.createdAt
  }

  predicate TabDated(start: Device, events: seq<Event>, d: Device, tab: Tab) {
    tab.Ready? ==> IsDated(start, events, tab.session) && (tab.job.SendJob? ==> NoneNewer(d.store, tab.session))
  }

  predicate StoreDated(start: Device, events: seq<Event>, store: Store) {
    forall id :: id in store.ratchets ==> IsDated(start, events, store.ratchets[id].value)
  }

  ghost predicate AllDated(start: Device, events: seq<Event>, d: Device) {
    StoreDated(start, events, d.store) && forall t: TabId :: TabDated(start, events, d, d.TabOf(t))
  }

  /** What a step leaves of the dates: a session that was not started now has the date it had. */
  lemma DatesStay(start: Device, events: seq<Event>, s: RatchetSession)
    requires events != [] && IsDated(start, events[..|events| - 1], s)
    requires !Starts(Run(start, events[..|events| - 1]), events[|events| - 1], s.sessionId)
    ensures IsDated(start, events, s)
  {
  }

  /** The newest session that a send loads is stored, or nothing is stored. */
  lemma LatestIsNewest(d: Device, latest: Option<RatchetSession>)
    requires DeviceInv(d) && IsLatest(d.store, latest)
    ensures latest.None? ==> d.store.ratchets == map[]
    ensures latest.Some? ==> && latest.value.sessionId in d.store.ratchets
                             && d.store.ratchets[latest.value.sessionId].value == latest.value
                             && NoneNewer(d.store, latest.value)
  {
    if latest.None? {
      assert forall id :: id in d.store.ratchets ==> OpenRow(d.store.dek, d.store.ratchets[id]).Some?;
      assert d.store.ratchets.Keys == {};
    } else {
      forall id | id in d.store.ratchets
        ensures d.store.ratchets[id].value.createdAt <= latest.value.createdAt
      {
        assert OpenRow(d.store.dek, d.store.ratchets[id]) == Some(d.store.ratchets[id].value);
      }
    }
  }

  lemma LoadedIsDated(start: Device, events: seq<Event>)
    requires events != [] && events[|events| - 1].Load?
    requires var d := Run(start, events[..|events| - 1]);
             && DeviceInv(d) && Enabled(d, events[|events| - 1]) && StoreDated(start, events[..|events| - 1], d.store)
    ensures var d', ev := Run(start, events), events[|events| - 1];
            TabDated(start, events, d', d'.TabOf(ev.tab))
  {
    var d, ev := Run(start, events[..|events| - 1]), events[|events| - 1];
    if d.TabOf(ev.tab).job.SendJob? {
      LatestIsNewest(d, ev.latest);
      LoadsForSend(d, ev);
    } else {
      LoadsForReceive(d, ev);
    }
    if Step(d, ev).TabOf(ev.tab).Ready? && LoadRatchet(d.store, Step(d, ev).TabOf(ev.tab).session.sessionId).Found? {
      DatesStay(start, events, Step(d, ev).TabOf(ev.tab).session);
    }
  }

  /** What an encrypt has in hand: the newest stored session, or a new one where nothing is stored. */
  lemma LoadsForSend(d: Device, ev: Event)
    requires DeviceInv(d) && Enabled(d, ev) && ev.Load? && d.TabOf(ev.tab).job.SendJob?
    ensures Step(d, ev).store == d.store
    ensures var tab := Step(d, ev).TabOf(ev.tab);
            tab.Ready? ==>
              && tab.job == d.TabOf(ev.tab).job
              && if ev.latest.Some? then tab.session == ev.latest.value
                 else tab.session.sessionId == ev.sessionId && tab.session.createdAt == ev.now
  {
  }

  /** What a decrypt has in hand: the stored session, or a new one where none of the id is stored. */
  lemma LoadsForReceive(d: Device, ev: Event)
    requires DeviceInv(d) && Enabled(d, ev) && ev.Load? && d.TabOf(ev.tab).job.ReceiveJob?
    ensures Step(d, ev).store == d.store
    ensures var tab, id := Step(d, ev).TabOf(ev.tab), d.TabOf(ev.tab).job.envelope.sessionId;
            tab.Ready? ==>
              && tab.job == d.TabOf(ev.tab).job && tab.session.sessionId == id
              && match LoadRatchet(d.store, id)
                 case Found(stored) => tab.session == stored
                 case _ => LoadRatchet(d.store, id).Missing? && tab.session.createdAt == ev.now
  {
  }

  /** A started session is not stored. */
  lemma StartedIsUnstored(d: Device, ev: Event, id: nat)
    requires DeviceInv(d) && Starts(d, ev, id)
    ensures id !in d.store.ratchets && Step(d, ev).store == d.store
  {
  }

  lemma OtherTabIdle(d: Device, ev: Event, t: TabId)
    requires DeviceInv(d) && Enabled(d, ev) && d.TabOf(t).Ready?
    ensures (ev.Load? || ev.Finish?) ==> ev.Finish? && ev.tab == t
    ensures !ev.Finish? ==> Step(d, ev).store == d.store
  {
    assert Locked(d.TabOf(t)) ==> d.lock == Some(t);
    if ev.Load? || ev.Finish? {
      assert Locked(d.TabOf(ev.tab)) ==> d.lock == Some(ev.tab);
    }
  }

  lemma TabStaysDated(start: Device, events: seq<Event>, t: TabId)
    requires events != []
    requires var d, ev := Run(start, events[..|events| - 1]), events[|events| - 1];
             && DeviceInv(d) && Enabled(d, ev) && AllDated(start, events[..|events| - 1], d)
    ensures TabDated(start, events, Run(start, events), Run(start, events).TabOf(t))
  {
    var d, ev := Run(start, events[..|events| - 1]), events[|events| - 1];
    if ev.Load? && ev.tab == t {
      LoadedIsDated(start, events);
    } else if Step(d, ev).TabOf(t).Ready? {
      assert TabDated(start, events[..|events| - 1], d, d.TabOf(t));
      OtherTabIdle(d, ev, t);
      DatesStay(start, events, d.TabOf(t).session);
    }
  }

  /** The same session, moved on. */
  predicate SameStart(s: RatchetSession, t: RatchetSession) {
    t.sessionId == s.sessionId && t.createdAt == s.createdAt
  }

  lemma SealKeepsStart(s: RatchetSession, me: nat, text: string)
    ensures SealV2(s, me, text).Ok? ==> SameStart(s, SealV2(s, me, text).value.next)
  {
  }

  lemma OpenKeepsStart(s: RatchetSession, senderId: nat, e: Envelope, now: int, newKey: KeyId)
    ensures OpenV2(s, senderId, e, now, newKey).Ok? ==> SameStart(s, OpenV2(s, senderId, e, now, newKey).value.next)
  {
  }

  /** A commit files the tab's session as it moved on, and leaves the others alone. */
  ghost predicate FilesOnly(store: Store, store': Store, s: RatchetSession) {
    forall id :: id in store'.ratchets ==>
      || (id in store.ratchets && store'.ratchets[id] == store.ratchets[id])
      || (id == s.sessionId && SameStart(s, store'.ratchets[id].value))
  }

  lemma FinishFiles(d: Device, ev: Event)
    requires ev.Finish? && d.TabOf(ev.tab).Ready?
    ensures FilesOnly(d.store, Step(d, ev).store, d.TabOf(ev.tab).session)
  {
    match d.TabOf(ev.tab)
    case Ready(SendJob(text), s) => SealKeepsStart(s, d.me, text);
    case Ready(ReceiveJob(senderId, e), s) => OpenKeepsStart(s, senderId, e, ev.now, ev.newKey);
  }

  lemma KeptOrForgotten(d: Device, ev: Event)
    requires !ev.Finish?
    ensures Step(d, ev).store == d.store || Step(d, ev).store == EMPTY
  {
  }

  lemma RowStaysDated(start: Device, events: seq<Event>, s: RatchetSession)
    requires events != [] && IsDated(start, events[..|events| - 1], s)
    requires var d := Run(start, events[..|events| - 1]);
             DeviceInv(d) && s.sessionId in d.store.ratchets
    ensures IsDated(start, events, s)
  {
    var d, ev := Run(start, events[..|events| - 1]), events[|events| - 1];
    if Starts(d, ev, s.sessionId) {
      StartedIsUnstored(d, ev, s.sessionId);
    }
    DatesStay(start, events, s);
  }

  lemma FiledIsDated(start: Device, events: seq<Event>, id: nat)
    requires events != [] && events[|events| - 1].Finish?
    requires var d, ev := Run(start, events[..|events| - 1]), events[|events| - 1];
             && DeviceInv(d) && Enabled(d, ev) && AllDated(start, events[..|events| - 1], d)
             && id in Step(d, ev).store.ratchets
    ensures IsDated(start, events, Run(start, events).store.ratchets[id].value)
  {
    var earlier, ev := events[..|events| - 1], events[|events| - 1];
    var d := Run(start, earlier);
    FinishFiles(d, ev);
    if id in d.store.ratchets && Step(d, ev).store.ratchets[id] == d.store.ratchets[id] {
      RowStaysDated(start, events, d.store.ratchets[id].value);
    } else {
      assert TabDated(start, earlier, d, d.TabOf(ev.tab));
      DatesStay(start, events, d.TabOf(ev.tab).session);
    }
  }

  lemma StoreStaysDated(start: Device, events: seq<Event>)
    requires events != []
    requires var d, ev := Run(start, events[..|events| - 1]), events[|events| - 1];
             && DeviceInv(d) && Enabled(d, ev) && AllDated(start, events[..|events| - 1], d)
    ensures StoreDated(start, events, Run(start, events).store)
  {
    var d, ev := Run(start, events[..|events| - 1]), events[|events| - 1];
    var store' := Run(start, events).store;
    forall id | id in store'.ratchets
      ensures IsDated(start, events, store'.ratchets[id].value)
    {
      if ev.Finish? {
        FiledIsDated(start, events, id);
      } else {
        KeptOrForgotten(d, ev);
        RowStaysDated(start, events, d.store.ratchets[id].value);
      }
    }
  }

  lemma {:induction false} RunDates(start: Device, events: seq<Event>)
    requires IsFreshDevice(start) && Valid(start, events)
    ensures DeviceInv(Run(start, events)) && AllDated(start, events, Run(start, events))
  {
    FreshInv(start);
    RunKeeps(start, events);
    if events != [] {
      RunDates(start, events[..|events| - 1]);
      StoreStaysDated(start, events);
      forall t: TabId
        ensures TabDated(start, events, Run(start, events), Run(start, events).TabOf(t))
      {
        TabStaysDated(start, events, t);
      }
    } else {
      assert forall t: TabId :: start.TabOf(t).Idle?;
    }
  }

  // -- Theorems ----------------------------------------------------------------

  /**
   * In every run the session that an encrypt seals on was started no earlier than any other that is stored, whoever of
   * the two started it.
   */
  lemma SealsOnNewest(start: Device, events: seq<Event>, t: TabId, now: int, newKey: KeyId, newDek: nat)
    requires IsFreshDevice(start) && Valid(start, events)
    requires Run(start, events).TabOf(t).Ready? && Run(start, events).TabOf(t).job.SendJob?
    ensures var d := Run(start, events);
            var sent := Step(d, Finish(t, now, newKey, newDek)).TabOf(t);
            && sent.Sent? && StartOf(start, events, sent.envelope.sessionId).Some?
            && forall id :: id in d.store.ratchets ==>
                 && StartOf(start, events, id).Some?
                 && StartedAt(start, events, id).value <= StartedAt(start, events, sent.envelope.sessionId).value
  {
    RunDates(start, events);
    var d := Run(start, events);
    assert TabDated(start, events, d, d.TabOf(t));
    SendKeyIsFree(d, t, d.TabOf(t).job.text, d.TabOf(t).session);
    forall id | id in d.store.ratchets
      ensures StartedAt(start, events, id) == Some(d.store.ratchets[id].value.createdAt)
    {
      assert IsDated(start, events, d.store.ratchets[id].value);
    }
  }

  /** The clock does not run backwards. */
  predicate Clocked(events: seq<Event>) {
    forall i, j :: 0 <= i < j < |events| && events[i].Load? && events[j].Load? ==> events[i].now <= events[j].now
  }

  /** So with a clock that does not run backwards it is the one started last, but for starts at the same instant. */
  lemma SealsOnLastStarted(start: Device, events: seq<Event>, t: TabId, now: int, newKey: KeyId, newDek: nat, id: nat)
    requires IsFreshDevice(start) && Valid(start, events) && Clocked(events)
    requires Run(start, events).TabOf(t).Ready? && Run(start, events).TabOf(t).job.SendJob?
    requires id in Run(start, events).store.ratchets
    ensures var sent := Step(Run(start, events), Finish(t, now, newKey, newDek)).TabOf(t);
            && sent.Sent?
            && var at, last := StartOf(start, events, id), StartOf(start, events, sent.envelope.sessionId);
            at.Some? && last.Some? && (at.value <= last.value || events[at.value].now == events[last.value].now)
  {
    SealsOnNewest(start, events, t, now, newKey, newDek);
  }

  /**
   * After a decrypt that started a session from an init block, later than everything stored, the next encrypt seals on
   * that session.
   */
  lemma DecryptedSessionIsNext(start: Device, events: seq<Event>, o: E2EEService.Owner, senderId: nat, e: Envelope,
                               draw: E2EEService.Draw, latest: Option<RatchetSession>, text: string,
                               draw': E2EEService.Draw)
    requires IsFreshDevice(start) && Valid(start, events) && E2EEService.Owns(o, Run(start, events))
    requires var store := Run(start, events).store;
             var r := E2EEService.DecryptWith(o, store, senderId, e, draw);
             && e.sessionId !in store.ratchets && r.text.Some? && IsLatest(r.store, latest)
             && forall id :: id in store.ratchets && StartOf(start, events, id).Some? ==>
                  StartedAt(start, events, id).value < draw.now
    ensures var r := E2EEService.DecryptWith(o, Run(start, events).store, senderId, e, draw);
            var sent := E2EEService.EncryptWith(o, r.store, latest, text, draw').result;
            sent.Ok? && sent.value.sessionId == e.sessionId
  {
    var store := Run(start, events).store;
    RunDates(start, events);
    assert LoadMessage(store, KeyOf(senderId, e)).None?;
    var s := E2EEService.SessionToOpen(o, store, senderId, e, draw.now).value;
    OpeningGivesSendingChain(s, senderId, e, draw.now, draw.newKey);
    var plain := OpenV2(s, senderId, e, draw.now, draw.newKey).value;
    forall id | id in store.ratchets
      ensures store.ratchets[id].value.createdAt < draw.now
    {
      assert IsDated(start, events, store.ratchets[id].value);
    }
    NewestAfterCommit(store, plain.next, KeyOf(senderId, e), plain.text, draw.newDek, latest);
  }

  /** A committed session that is newer than all that was stored is the latest. */
  lemma NewestAfterCommit(store: Store, session: RatchetSession, key: TextKey, text: string, newDek: nat,
                          latest: Option<RatchetSession>)
    requires Readable(store) && session.sessionId !in store.ratchets
    requires forall id :: id in store.ratchets ==> store.ratchets[id].value.createdAt < session.createdAt
    requires IsLatest(Commit(store, session, key, text, newDek), latest)
    ensures latest == Some(session)
  {
    var after := Commit(store, session, key, text, newDek);
    assert session.sessionId in after.ratchets;
    assert OpenRow(after.dek, after.ratchets[session.sessionId]) == Some(session);
  }

  /** After an encrypt that started a session, the next one seals on it again. */
  lemma EncryptedSessionIsNext(start: Device, events: seq<Event>, o: E2EEService.Owner, first: string,
                               draw: E2EEService.Draw, latest: Option<RatchetSession>, text: string,
                               draw': E2EEService.Draw)
    requires IsFreshDevice(start) && Valid(start, events) && E2EEService.Owns(o, Run(start, events))
    requires var store := Run(start, events).store;
             var r := E2EEService.EncryptWith(o, store, None, first, draw);
             IsLatest(store, None) && r.result.Ok? && IsLatest(r.store, latest)
    ensures var r := E2EEService.EncryptWith(o, Run(start, events).store, None, first, draw);
            var sent := E2EEService.EncryptWith(o, r.store, latest, text, draw').result;
            sent.Ok? && r.result.value.sessionId == draw.sessionId && sent.value.sessionId == draw.sessionId
            && sent.value.ctr == 1
  {
    var store := Run(start, events).store;
    RunDates(start, events);
    LatestIsNewest(Run(start, events), None);
    var s := E2EEService.SessionToSend(o, None, draw).value;
    var sealed := SealV2(s, o.me, first).value;
    NewestAfterCommit(store, sealed.next, KeyOf(o.me, sealed.envelope), first, draw.newDek, latest);
  }
}
