/** What every run of a device guarantees: texts that stay, one line of ratchet states, counters that never repeat. */
module DeviceTheorems {
  import opened Wrappers
  import opened SymbolicCrypto
  import opened EnvelopeV2
  import opened Vault
  import opened Device
  import opened DeviceInvariant

  predicate IsFreshDevice(d: Device) {
    d.store == EMPTY && d.lock == None && d.tabs == map[] && d.sealed == [] && d.returned == [] && d.answers == []
    && d.me != d.peer
  }

  function Run(d: Device, events: seq<Event>): Device {
    if events == [] then d else Step(Run(d, events[..|events| - 1]), events[|events| - 1])
  }

  ghost predicate Valid(d: Device, events: seq<Event>) {
    events != [] ==>
      Valid(d, events[..|events| - 1]) && Enabled(Run(d, events[..|events| - 1]), events[|events| - 1])
  }

  lemma {:induction false} RunKeeps(d: Device, events: seq<Event>)
    requires DeviceInv(d) && Valid(d, events)
    ensures DeviceInv(Run(d, events))
  {
    if events != [] {
      RunKeeps(d, events[..|events| - 1]);
      StepKeeps(Run(d, events[..|events| - 1]), events[|events| - 1]);
    }
  }

  lemma FreshInv(d: Device)
    requires IsFreshDevice(d)
    ensures DeviceInv(d)
  {
    assert forall t: TabId :: d.TabOf(t).Idle?;
  }

  // -- Texts stay --------------------------------------------------------------

  /** Whatever was readable reads the same. */
  ghost predicate Grows(s: Store, s': Store) {
    && (forall key :: LoadMessage(s, key).Some? ==> LoadMessage(s', key) == LoadMessage(s, key))
    && s.ratchets.Keys <= s'.ratchets.Keys
  }

  /** Between shreddings no step changes or loses a text. */
  lemma StepGrows(d: Device, ev: Event)
    requires DeviceInv(d) && Enabled(d, ev) && !ev.Shred?
    ensures Grows(d.store, Step(d, ev).store)
  {
    if ev.Finish? {
      assert TabOk(d, d.TabOf(ev.tab));
      match d.TabOf(ev.tab)
      case Ready(SendJob(text), session) =>
        SendKeyIsFree(d, ev.tab, text, session);
        var s := SealV2(session, d.me, text).value;
        CommitReadsBack(d.store, s.next, KeyOf(d.me, s.envelope), text, ev.newDek);
      case Ready(ReceiveJob(senderId, e), session) =>
        if OpenV2(session, senderId, e, ev.now, ev.newKey).Ok? {
          var o := OpenV2(session, senderId, e, ev.now, ev.newKey).value;
          CommitReadsBack(d.store, o.next, KeyOf(senderId, e), o.text, ev.newDek);
        }
    }
  }

  ghost predicate ReadsBack(s: Store, list: seq<Answer>) {
    forall a :: a in list ==> LoadMessage(s, KeyOf(a.senderId, a.envelope)) == Some(a.text)
  }

  /** Everything encrypt() and decrypt() ever returned, and everything sealed, reads back as it was. */
  ghost predicate Kept(d: Device) {
    ReadsBack(d.store, d.returned) && ReadsBack(d.store, d.answers) && ReadsBack(d.store, d.sealed)
  }

  lemma ReadsBackGrows(s: Store, s': Store, list: seq<Answer>)
    requires ReadsBack(s, list) && Grows(s, s')
    ensures ReadsBack(s', list)
  {
  }

  lemma StepKept(d: Device, ev: Event)
    requires DeviceInv(d) && Kept(d) && Enabled(d, ev) && !ev.Shred?
    ensures Kept(Step(d, ev))
  {
    var d' := Step(d, ev);
    StepGrows(d, ev);
    ReadsBackGrows(d.store, d'.store, d.returned);
    ReadsBackGrows(d.store, d'.store, d.answers);
    ReadsBackGrows(d.store, d'.store, d.sealed);
    if ev.Return? {
      assert TabOk(d, d.TabOf(ev.tab));
    }
    if ev.Finish? && d.TabOf(ev.tab).job.SendJob? {
      assert TabOk(d, d.TabOf(ev.tab));
      SendKeyIsFree(d, ev.tab, d.TabOf(ev.tab).job.text, d.TabOf(ev.tab).session);
    }
  }

  lemma {:induction false} RunKept(d: Device, events: seq<Event>)
    requires IsFreshDevice(d) && Valid(d, events) && Shred !in events
    ensures DeviceInv(Run(d, events)) && Kept(Run(d, events))
  {
    FreshInv(d);
    if events != [] {
      RunKept(d, events[..|events| - 1]);
      var before := Run(d, events[..|events| - 1]);
      StepKept(before, events[|events| - 1]);
      StepKeeps(before, events[|events| - 1]);
    }
  }

  /**
   * Without shredding, in every interleaving of tabs and crashes: decrypt() never gives two texts for one message, and
   * an envelope encrypt() returned reads back as its own text from then on.
   */
  lemma TextsAreStable(d: Device, events: seq<Event>)
    requires IsFreshDevice(d) && Valid(d, events) && Shred !in events
    ensures var d' := Run(d, events);
            && (forall a, b | a in d'.answers + d'.returned && b in d'.answers + d'.returned ::
                  KeyOf(a.senderId, a.envelope) == KeyOf(b.senderId, b.envelope) ==> a.text == b.text)
            && (forall a, t :: a in d'.answers + d'.returned ==>
                  FirstLook(d', t, a.senderId, a.envelope).answers == d'.answers + [a])
  {
    RunKept(d, events);
  }

  // -- One line of ratchet states ----------------------------------------------

  /** A session moved by one seal or one open from what was committed, or from a session nobody had committed. */
  ghost predicate Advances(before: Loaded, after: RatchetSession, me: nat) {
    exists from: RatchetSession ::
      && (before == Found(from) || (before == Missing && from.sendTotal == 0 && (CanSend(from) || Untouched(from))))
      && ((exists text :: SealV2(from, me, text).Ok? && SealV2(from, me, text).value.next == after)
          || (exists senderId, e, now, newKey ::
                OpenV2(from, senderId, e, now, newKey).Ok?
                && OpenV2(from, senderId, e, now, newKey).value.next == after))
  }

  lemma SealAdvances(from: RatchetSession, before: Loaded, me: nat, text: string)
    requires before == Found(from) || (before == Missing && from.sendTotal == 0 && (CanSend(from) || Untouched(from)))
    requires SealV2(from, me, text).Ok?
    ensures Advances(before, SealV2(from, me, text).value.next, me)
  {
  }

  lemma OpenAdvances(from: RatchetSession, before: Loaded, me: nat, senderId: nat, e: Envelope, now: int, newKey: KeyId)
    requires before == Found(from) || (before == Missing && from.sendTotal == 0 && (CanSend(from) || Untouched(from)))
    requires OpenV2(from, senderId, e, now, newKey).Ok?
    ensures Advances(before, OpenV2(from, senderId, e, now, newKey).value.next, me)
  {
  }

  /** A step's effect on one session: untouched, or advanced by one operation that filed exactly one new text. */
  ghost predicate OneMove(s: Store, s': Store, id: nat, me: nat) {
    var before, after := LoadRatchet(s, id), LoadRatchet(s', id);
    after != before ==>
      && after.Found? && Advances(before, after.session, me)
      && exists key :: key !in s.texts && key.sessionId == id && s'.texts.Keys == s.texts.Keys + {key}
  }

  lemma CommitMoves(s: Store, session: RatchetSession, key: TextKey, text: string, newDek: nat, id: nat, me: nat)
    requires Readable(s) && key !in s.texts && key.sessionId == session.sessionId
    requires Advances(LoadRatchet(s, session.sessionId), session, me)
    ensures OneMove(s, Commit(s, session, key, text, newDek), id, me)
  {
    CommitReadsBack(s, session, key, text, newDek);
    assert Commit(s, session, key, text, newDek).texts.Keys == s.texts.Keys + {key};
  }

  /**
   * No tab's work is lost or forked: every step leaves each committed session as it was, or advances it by exactly one
   * operation from its committed state and files exactly one new text with it.
   */
  lemma NoForks(d: Device, ev: Event, id: nat)
    requires DeviceInv(d) && Enabled(d, ev) && !ev.Shred?
    ensures OneMove(d.store, Step(d, ev).store, id, d.me)
  {
    if ev.Finish? {
      var tab := d.TabOf(ev.tab);
      assert TabOk(d, tab);
      match tab
      case Ready(SendJob(text), session) =>
        SendKeyIsFree(d, ev.tab, text, session);
        var s := SealV2(session, d.me, text).value;
        SealAdvances(session, LoadRatchet(d.store, session.sessionId), d.me, text);
        CommitMoves(d.store, s.next, KeyOf(d.me, s.envelope), text, ev.newDek, id, d.me);
      case Ready(ReceiveJob(senderId, e), session) =>
        if OpenV2(session, senderId, e, ev.now, ev.newKey).Ok? {
          var o := OpenV2(session, senderId, e, ev.now, ev.newKey).value;
          OpenAdvances(session, LoadRatchet(d.store, e.sessionId), d.me, senderId, e, ev.now, ev.newKey);
          CommitMoves(d.store, o.next, KeyOf(senderId, e), o.text, ev.newDek, id, d.me);
        }
    }
  }
}
