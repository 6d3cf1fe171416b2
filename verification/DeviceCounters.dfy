/** When the envelopes encrypt() returns carry pairwise different (sessionId, ctr): in every run without shredding. */
module DeviceCounters {
  import opened EnvelopeV2
  import opened Vault
  import opened Device
  import opened DeviceInvariant
  import opened DeviceTheorems

  // Shredding forgets the counter together with the session, so a peer's first envelope that is
  // delivered again afterwards starts the same session id over from 0.

  predicate SameCounter(a: Answer, b: Answer) {
    a.envelope.sessionId == b.envelope.sessionId && a.envelope.ctr == b.envelope.ctr
  }

  predicate Distinct(list: seq<Answer>) {
    forall i, j :: 0 <= i < j < |list| ==> !SameCounter(list[i], list[j])
  }

  /** A send is about to be sealed as number 0 of a session id that this device has already sealed under. */
  predicate StartsOver(d: Device, ev: Event) {
    && ev.Finish? && d.TabOf(ev.tab).Ready? && d.TabOf(ev.tab).job.SendJob?
    && d.TabOf(ev.tab).session.sendTotal == 0
    && HasSealed(d.sealed, d.TabOf(ev.tab).session.sessionId)
  }

  predicate EverStartsOver(d: Device, events: seq<Event>) {
    events != [] &&
    (EverStartsOver(d, events[..|events| - 1]) || StartsOver(Run(d, events[..|events| - 1]), events[|events| - 1]))
  }

  /** Every counter sealed under a committed session that has sent is below the session's next one. */
  ghost predicate CountersBelow(d: Device) {
    forall a :: a in d.sealed ==>
      match LoadRatchet(d.store, a.envelope.sessionId)
      case Found(s) => s.sendTotal > 0 ==> a.envelope.ctr < s.sendTotal
      case _ => true
  }

  lemma SealedGrows(d: Device, ev: Event)
    ensures d.sealed <= Step(d, ev).sealed
  {
  }

  lemma DistinctPrefix(list: seq<Answer>, longer: seq<Answer>)
    requires list <= longer && Distinct(longer)
    ensures Distinct(list)
  {
  }

  lemma DistinctAppend(list: seq<Answer>, last: Answer)
    requires Distinct(list) && forall a :: a in list ==> !SameCounter(a, last)
    ensures Distinct(list + [last])
  {
  }

  /** What finishing a send adds: one envelope, with the counter the session stood at. */
  lemma SendAdds(d: Device, ev: Event)
    requires DeviceInv(d) && ev.Finish? && d.TabOf(ev.tab).Ready? && d.TabOf(ev.tab).job.SendJob?
    ensures var session, d' := d.TabOf(ev.tab).session, Step(d, ev);
            && |d'.sealed| == |d.sealed| + 1
            && d'.sealed[|d.sealed|].envelope.sessionId == session.sessionId
            && d'.sealed[|d.sealed|].envelope.ctr == session.sendTotal
            && LoadRatchet(d'.store, session.sessionId).Found?
            && LoadRatchet(d'.store, session.sessionId).session.sendTotal == session.sendTotal + 1
            && (forall id :: id != session.sessionId ==> LoadRatchet(d'.store, id) == LoadRatchet(d.store, id))
  {
    var tab := d.TabOf(ev.tab);
    SendKeyIsFree(d, ev.tab, tab.job.text, tab.session);
    var s := SealV2(tab.session, d.me, tab.job.text).value;
    CommitReadsBack(d.store, s.next, KeyOf(d.me, s.envelope), tab.job.text, ev.newDek);
  }

  /** A receive moves no send counter, except that it may create a session that has sent nothing. */
  lemma ReceiveKeepsCounters(d: Device, ev: Event, id: nat)
    requires DeviceInv(d) && Enabled(d, ev) && !ev.Shred?
    requires ev.Finish? ==> d.TabOf(ev.tab).job.ReceiveJob?
    ensures Step(d, ev).sealed == d.sealed
    ensures match LoadRatchet(Step(d, ev).store, id)
            case Found(s') =>
              (match LoadRatchet(d.store, id)
               case Found(s) => s'.sendTotal == s.sendTotal
               case _ => s'.sendTotal == 0)
            case _ => true
  {
    if ev.Finish? {
      var tab := d.TabOf(ev.tab);
      assert TabOk(d, tab);
      var e := tab.job.envelope;
      if OpenV2(tab.session, tab.job.senderId, e, ev.now, ev.newKey).Ok? {
        var o := OpenV2(tab.session, tab.job.senderId, e, ev.now, ev.newKey).value;
        CommitReadsBack(d.store, o.next, KeyOf(tab.job.senderId, e), o.text, ev.newDek);
      }
    }
  }

  lemma StepCounters(d: Device, ev: Event)
    requires DeviceInv(d) && Enabled(d, ev) && CountersBelow(d) && Distinct(d.sealed) && !StartsOver(d, ev)
    ensures CountersBelow(Step(d, ev)) && Distinct(Step(d, ev).sealed)
  {
    var d' := Step(d, ev);
    if ev.Finish? && d.TabOf(ev.tab).job.SendJob? {
      var session := d.TabOf(ev.tab).session;
      assert TabOk(d, d.TabOf(ev.tab));
      SendAdds(d, ev);
      SealedGrows(d, ev);
      forall a | a in d.sealed && a.envelope.sessionId == session.sessionId
        ensures a.envelope.ctr < session.sendTotal
      {
        assert HasSealed(d.sealed, session.sessionId);
      }
    } else if !ev.Shred? {
      forall a | a in d'.sealed
        ensures match LoadRatchet(d'.store, a.envelope.sessionId)
                case Found(s) => s.sendTotal > 0 ==> a.envelope.ctr < s.sendTotal
                case _ => true
      {
        ReceiveKeepsCounters(d, ev, a.envelope.sessionId);
      }
    }
  }

  /** Starting a session id over repeats its counter 0. */
  lemma StartingOverRepeats(d: Device, ev: Event)
    requires DeviceInv(d) && StartsOver(d, ev)
    ensures !Distinct(Step(d, ev).sealed)
  {
    var session, d' := d.TabOf(ev.tab).session, Step(d, ev);
    SendAdds(d, ev);
    SealedGrows(d, ev);
    assert HasCounter(d.sealed, session.sessionId, 0);
    var a :| a in d.sealed && a.envelope.sessionId == session.sessionId && a.envelope.ctr == 0;
    var i :| 0 <= i < |d.sealed| && d.sealed[i] == a;
    assert SameCounter(d'.sealed[i], d'.sealed[|d.sealed|]);
  }

  /** Over a whole run, shredding included, counters repeat exactly when some send started a session id over. */
  lemma {:induction false} CountersRepeatExactlyWhen(d: Device, events: seq<Event>)
    requires IsFreshDevice(d) && Valid(d, events)
    ensures Distinct(Run(d, events).sealed) <==> !EverStartsOver(d, events)
    ensures !EverStartsOver(d, events) ==> CountersBelow(Run(d, events))
  {
    if events != [] {
      var before, ev := Run(d, events[..|events| - 1]), events[|events| - 1];
      CountersRepeatExactlyWhen(d, events[..|events| - 1]);
      FreshInv(d);
      RunKeeps(d, events[..|events| - 1]);
      SealedGrows(before, ev);
      if EverStartsOver(d, events[..|events| - 1]) {
        if Distinct(Step(before, ev).sealed) {
          DistinctPrefix(before.sealed, Step(before, ev).sealed);
        }
      } else if StartsOver(before, ev) {
        StartingOverRepeats(before, ev);
      } else {
        StepCounters(before, ev);
      }
    }
  }

  // -- What encrypt() returns --------------------------------------------------

  /** An envelope is returned at most once: what a tab is about to return is sealed and not yet returned. */
  ghost predicate ReturnsOnce(d: Device) {
    && (forall a :: a in d.returned ==> a in d.sealed)
    && (forall t: TabId :: d.TabOf(t).Sent? ==> Answer(d.me, d.TabOf(t).envelope, d.TabOf(t).text) in d.sealed)
    && (Distinct(d.sealed) ==>
          Distinct(d.returned) &&
          forall t: TabId, a :: d.TabOf(t).Sent? && a in d.returned ==>
            !SameCounter(a, Answer(d.me, d.TabOf(t).envelope, d.TabOf(t).text)))
  }

  lemma StepReturns(d: Device, ev: Event)
    requires DeviceInv(d) && Enabled(d, ev) && ReturnsOnce(d)
    ensures ReturnsOnce(Step(d, ev))
  {
    if ev.Finish? && d.TabOf(ev.tab).job.SendJob? {
      FinishReturns(d, ev);
    } else if ev.Return? {
      HolderAlone(d, ev.tab);
      ReturnReturns(d, ev.tab);
    } else {
      SameReturns(d, Step(d, ev));
    }
  }

  lemma SameReturns(d: Device, d': Device)
    requires ReturnsOnce(d) && d'.me == d.me && d'.returned == d.returned && d'.sealed == d.sealed
    requires forall t: TabId :: d'.TabOf(t).Sent? ==> d'.TabOf(t) == d.TabOf(t)
    ensures ReturnsOnce(d')
  {
  }

  lemma FinishReturns(d: Device, ev: Event)
    requires DeviceInv(d) && ReturnsOnce(d) && ev.Finish? && d.TabOf(ev.tab).Ready? && d.TabOf(ev.tab).job.SendJob?
    ensures ReturnsOnce(Step(d, ev))
  {
    var d' := Step(d, ev);
    HolderAlone(d, ev.tab);
    SealedGrows(d, ev);
    SendAdds(d, ev);
    SendKeyIsFree(d, ev.tab, d.TabOf(ev.tab).job.text, d.TabOf(ev.tab).session);
    var last := d'.sealed[|d.sealed|];
    assert d'.sealed == d.sealed + [last];
    forall t: TabId
      ensures t != ev.tab ==> !d'.TabOf(t).Sent?
    {
      if t != ev.tab && t in d.tabs {
        assert !Locked(d.tabs[t]);
      }
    }
    if Distinct(d'.sealed) {
      DistinctPrefix(d.sealed, d'.sealed);
      forall a | a in d.returned
        ensures !SameCounter(a, last)
      {
        var i :| 0 <= i < |d.sealed| && d.sealed[i] == a;
        assert d'.sealed[i] == a;
      }
    }
  }

  lemma ReturnReturns(d: Device, t: TabId)
    requires DeviceInv(d) && ReturnsOnce(d) && OthersFree(d, t) && (d.TabOf(t).Sent? || d.TabOf(t).Shown?)
    ensures ReturnsOnce(Step(d, Return(t)))
  {
    var d' := Step(d, Return(t));
    forall u: TabId
      ensures !d'.TabOf(u).Sent?
    {
      if u != t && u in d.tabs {
        assert !Locked(d.tabs[u]);
      }
    }
    if Distinct(d.sealed) && d.TabOf(t).Sent? {
      DistinctAppend(d.returned, Answer(d.me, d.TabOf(t).envelope, d.TabOf(t).text));
    }
  }

  /** The envelopes encrypt() returned carry pairwise different counters unless a send started a session id over. */
  lemma {:induction false} ReturnedDistinct(d: Device, events: seq<Event>)
    requires IsFreshDevice(d) && Valid(d, events)
    ensures ReturnsOnce(Run(d, events))
    ensures !EverStartsOver(d, events) ==> Distinct(Run(d, events).returned)
  {
    CountersRepeatExactlyWhen(d, events);
    if events != [] {
      FreshInv(d);
      RunKeeps(d, events[..|events| - 1]);
      ReturnedDistinct(d, events[..|events| - 1]);
      StepReturns(Run(d, events[..|events| - 1]), events[|events| - 1]);
    }
  }

  // -- The branch that starts a session id over ---------------------------------

  /** A receive is about to commit a session that startResponder made, under an id this device has sealed under. */
  predicate Reopens(d: Device, ev: Event) {
    && ev.Finish? && d.TabOf(ev.tab).Ready? && d.TabOf(ev.tab).job.ReceiveJob?
    && var tab := d.TabOf(ev.tab);
    && LoadRatchet(d.store, tab.session.sessionId).Missing?
    && HasSealed(d.sealed, tab.session.sessionId)
    && OpenV2(tab.session, tab.job.senderId, tab.job.envelope, ev.now, ev.newKey).Ok?
  }

  predicate EverReopens(d: Device, events: seq<Event>) {
    events != [] &&
    (EverReopens(d, events[..|events| - 1]) || Reopens(Run(d, events[..|events| - 1]), events[|events| - 1]))
  }

  /** No committed session that this device has sealed under stands at counter 0. */
  ghost predicate NoneAtStart(d: Device) {
    forall id :: HasSealed(d.sealed, id) ==>
      match LoadRatchet(d.store, id)
      case Found(s) => s.sendTotal > 0
      case _ => true
  }

  lemma ReopeningStarts(d: Device, ev: Event)
    requires DeviceInv(d) && Reopens(d, ev)
    ensures !NoneAtStart(Step(d, ev))
  {
    var tab, d' := d.TabOf(ev.tab), Step(d, ev);
    assert TabOk(d, tab);
    var o := OpenV2(tab.session, tab.job.senderId, tab.job.envelope, ev.now, ev.newKey).value;
    CommitReadsBack(d.store, o.next, KeyOf(tab.job.senderId, tab.job.envelope), o.text, ev.newDek);
    assert HasSealed(d'.sealed, tab.session.sessionId);
  }

  lemma ReceiveStays(d: Device, ev: Event, id: nat)
    requires DeviceInv(d) && Enabled(d, ev) && !ev.Shred? && !Reopens(d, ev) && NoneAtStart(d)
    requires ev.Finish? ==> d.TabOf(ev.tab).job.ReceiveJob?
    requires HasSealed(d.sealed, id)
    ensures LoadRatchet(Step(d, ev).store, id).Found? ==> LoadRatchet(Step(d, ev).store, id).session.sendTotal > 0
  {
    ReceiveKeepsCounters(d, ev, id);
    if ev.Finish? {
      var tab := d.TabOf(ev.tab);
      assert TabOk(d, tab);
      if OpenV2(tab.session, tab.job.senderId, tab.job.envelope, ev.now, ev.newKey).Ok? {
        var o := OpenV2(tab.session, tab.job.senderId, tab.job.envelope, ev.now, ev.newKey).value;
        CommitReadsBack(d.store, o.next, KeyOf(tab.job.senderId, tab.job.envelope), o.text, ev.newDek);
      }
    }
  }

  /**
   * A step leaves a sealed session at counter 0 exactly when it reopens one; and only on such a session a send starts
   * over.
   */
  lemma StartsExactlyWhen(d: Device, ev: Event)
    requires DeviceInv(d) && Enabled(d, ev) && NoneAtStart(d)
    ensures NoneAtStart(Step(d, ev)) <==> !Reopens(d, ev)
    ensures !StartsOver(d, ev)
  {
    var d' := Step(d, ev);
    if ev.Finish? {
      assert TabOk(d, d.TabOf(ev.tab));
    }
    if Reopens(d, ev) {
      ReopeningStarts(d, ev);
    } else if ev.Finish? && d.TabOf(ev.tab).job.SendJob? {
      SendAdds(d, ev);
      SealedGrows(d, ev);
      forall id | HasSealed(d'.sealed, id) && id != d.TabOf(ev.tab).session.sessionId
        ensures HasSealed(d.sealed, id)
      {
        var a :| a in d'.sealed && a.envelope.sessionId == id;
        assert d'.sealed == d.sealed + [d'.sealed[|d.sealed|]];
      }
    } else if !ev.Shred? {
      forall id | HasSealed(d'.sealed, id)
        ensures LoadRatchet(d'.store, id).Found? ==> LoadRatchet(d'.store, id).session.sendTotal > 0
      {
        ReceiveKeepsCounters(d, ev, id);
        ReceiveStays(d, ev, id);
      }
    }
  }

  /**
   * Shredding included: as long as no peer's init block reopens a session id that this device has sealed under, the
   * envelopes encrypt() returns carry pairwise different counters.
   */
  lemma {:induction false} NoReopeningNoRepeat(d: Device, events: seq<Event>)
    requires IsFreshDevice(d) && Valid(d, events) && !EverReopens(d, events)
    ensures NoneAtStart(Run(d, events)) && !EverStartsOver(d, events)
    ensures Distinct(Run(d, events).returned)
  {
    if events != [] {
      var before, ev := Run(d, events[..|events| - 1]), events[|events| - 1];
      FreshInv(d);
      RunKeeps(d, events[..|events| - 1]);
      NoReopeningNoRepeat(d, events[..|events| - 1]);
      StartsExactlyWhen(before, ev);
    }
    ReturnedDistinct(d, events);
  }

  // -- Without shredding -------------------------------------------------------

  /** Every session a send was sealed on is still committed, past counter 0. */
  ghost predicate SealedStays(d: Device) {
    forall a :: a in d.sealed ==>
      match LoadRatchet(d.store, a.envelope.sessionId)
      case Found(s) => s.sendTotal > 0
      case _ => false
  }

  lemma StepStays(d: Device, ev: Event)
    requires DeviceInv(d) && Enabled(d, ev) && SealedStays(d) && !ev.Shred?
    ensures SealedStays(Step(d, ev))
  {
    var d' := Step(d, ev);
    StepGrows(d, ev);
    StepKeeps(d, ev);
    if ev.Finish? && d.TabOf(ev.tab).job.SendJob? {
      SendAdds(d, ev);
      SealedGrows(d, ev);
    } else {
      forall a | a in d'.sealed
        ensures LoadRatchet(d'.store, a.envelope.sessionId).Found?
                && LoadRatchet(d'.store, a.envelope.sessionId).session.sendTotal > 0
      {
        ReceiveKeepsCounters(d, ev, a.envelope.sessionId);
      }
    }
  }

  /** Any interleaving of tabs, sends, receives and crashes: no shredding, no repeated counter. */
  lemma {:induction false} NoShreddingNoRepeat(d: Device, events: seq<Event>)
    requires IsFreshDevice(d) && Valid(d, events) && Shred !in events
    ensures SealedStays(Run(d, events)) && !EverStartsOver(d, events)
    ensures Distinct(Run(d, events).returned)
  {
    if events != [] {
      var before, ev := Run(d, events[..|events| - 1]), events[|events| - 1];
      FreshInv(d);
      RunKeeps(d, events[..|events| - 1]);
      NoShreddingNoRepeat(d, events[..|events| - 1]);
      StepStays(before, ev);
      assert TabOk(before, before.TabOf(if ev.Finish? then ev.tab else 0));
    }
    ReturnedDistinct(d, events);
  }
}
