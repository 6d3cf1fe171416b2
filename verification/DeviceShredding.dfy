/** A concrete run in which shredding makes encrypt() return the same (sessionId, ctr) twice. */
module DeviceShredding {
  import opened Wrappers
  import opened SymbolicCrypto
  import opened EnvelopeV2
  import opened Vault
  import opened Device
  import opened DeviceTheorems
  import opened DeviceCounters

  lemma Extend(d: Device, events: seq<Event>, ev: Event) returns (more: seq<Event>)
    requires Valid(d, events) && Enabled(Run(d, events), ev)
    ensures Valid(d, more) && Run(d, more) == Step(Run(d, events), ev)
  {
    more := events + [ev];
    assert more[..|more| - 1] == events;
  }

  /** Same owner, and tab 0 and the lock are free. */
  predicate SameDevice(d: Device, d': Device) {
    && d'.lock == None && d'.TabOf(0).Idle? && d'.me == d.me && d'.peer == d.peer
    && d'.conversationId == d.conversationId && d'.identity == d.identity
  }

  /** The peer's first envelope, as its device seals it. */
  predicate IsFirstEnvelope(d: Device, sender: Identity, e: Envelope, ek: KeyId, firstKey: KeyId, text: string) {
    var a := StartInitiator(d.conversationId, d.me, sender, BundleOf(d.identity), e.sessionId, ek, firstKey, 0);
    a.Ok? && SealV2(a.value, d.peer, text).Ok? && SealV2(a.value, d.peer, text).value.envelope == e
  }

  /** A tab starts a job and gets the free lock. */
  lemma Begin(start: Device, events: seq<Event>, ev: Event, job: Job) returns (more: seq<Event>)
    requires Valid(start, events) && Enabled(Run(start, events), ev)
    requires var d := Step(Run(start, events), ev); d.TabOf(0) == Waiting(job) && d.lock == None
    ensures Valid(start, more)
    ensures Run(start, more) == Step(Run(start, events), ev).(lock := Some(0)).With(0, Holding(job))
  {
    more := Extend(start, events, ev);
    more := Extend(start, more, Acquire(0));
  }

  /** It commits what it has in memory and returns. */
  lemma End(start: Device, events: seq<Event>, finish: Event) returns (more: seq<Event>)
    requires Valid(start, events) && Enabled(Run(start, events), finish) && finish.Finish? && finish.tab == 0
    requires var d := Step(Run(start, events), finish); d.TabOf(0).Sent? || d.TabOf(0).Shown?
    ensures Valid(start, more)
    ensures Run(start, more) == Step(Step(Run(start, events), finish), Return(0))
  {
    more := Extend(start, events, finish);
    more := Extend(start, more, Return(0));
  }

  /** The receiving half of the exchange, on the device's own keys. */
  lemma Opens(d: Device, e: Envelope, sender: Identity, ek: KeyId, firstKey: KeyId, newKey: KeyId, text: string)
      returns (s: RatchetSession, o: OpenedV2)
    requires IsFirstEnvelope(d, sender, e, ek, firstKey, text)
    ensures e.init.Some? && StartResponder(d.conversationId, d.peer, e.sessionId, d.identity, e.init.value, 0) == Ok(s)
    ensures OpenV2(s, d.peer, e, 0, newKey) == Ok(o)
    ensures o.next.sessionId == e.sessionId && o.next.sendTotal == 0 && CanSend(o.next)
  {
    FirstEnvelopeOpens(d.conversationId, sender, d.peer, d.identity, d.me, e.sessionId, ek, firstKey, newKey, 0, text);
    s := StartResponder(d.conversationId, d.peer, e.sessionId, d.identity, e.init.value, 0).value;
    o := OpenV2(s, d.peer, e, 0, newKey).value;
  }

  /** Finishing and returning with the lock in hand: the text is answered, the session committed under a first key. */
  lemma Closes(d: Device, e: Envelope, s: RatchetSession, o: OpenedV2, newKey: KeyId)
    requires d.TabOf(0) == Ready(ReceiveJob(d.peer, e), s) && d.store == EMPTY && d.lock == Some(0)
    requires OpenV2(s, d.peer, e, 0, newKey) == Ok(o)
    ensures Step(d, Finish(0, 0, newKey, 0)).TabOf(0).Shown?
    ensures Step(Step(d, Finish(0, 0, newKey, 0)), Return(0)) ==
            d.(store := Commit(EMPTY, o.next, KeyOf(d.peer, e), o.text, 0), tabs := d.tabs[0 := Idle], lock := None,
               answers := d.answers + [Answer(d.peer, e, o.text)])
  {
    var tab := Shown(d.peer, e, o.text);
    assert d.tabs[0 := tab][0 := Idle] == d.tabs[0 := Idle];
  }

  /** With nothing stored, one tab opens a first envelope: five steps from delivery to the shown text. */
  lemma Receive(start: Device, events: seq<Event>, e: Envelope, sender: Identity, ek: KeyId, firstKey: KeyId,
                newKey: KeyId, text: string)
      returns (more: seq<Event>, s: RatchetSession)
    requires Valid(start, events)
    requires var d := Run(start, events); d.store == EMPTY && d.lock == None && d.TabOf(0).Idle? && d.me != d.peer
    requires IsFirstEnvelope(Run(start, events), sender, e, ek, firstKey, text)
    ensures Valid(start, more) && SameDevice(Run(start, events), Run(start, more))
    ensures Run(start, more).returned == Run(start, events).returned
    ensures s.sessionId == e.sessionId && s.sendTotal == 0 && CanSend(s)
    ensures Run(start, more).store.dek == Some(0) && Run(start, more).store.ratchets == map[s.sessionId := Row(0, s)]
  {
    var d := Run(start, events);
    var first, o := Opens(d, e, sender, ek, firstKey, newKey, text);
    s := o.next;
    more := Begin(start, events, StartReceive(0, d.peer, e), ReceiveJob(d.peer, e));
    more := Extend(start, more, Load(0, None, BundleOf(sender), 0, 0, 0, 0));
    Closes(Run(start, more), e, first, o, newKey);
    more := End(start, more, Finish(0, 0, newKey, 0));
  }

  /** The same for a send: the envelope is returned, with the session's next counter. */
  lemma ClosesSend(d: Device, s: RatchetSession, text: string)
    requires d.TabOf(0) == Ready(SendJob(text), s) && d.lock == Some(0) && CanSend(s)
    ensures Step(d, Finish(0, 0, 0, 0)).TabOf(0).Sent?
    ensures var d' := Step(Step(d, Finish(0, 0, 0, 0)), Return(0));
            && SameDevice(d, d') && |d'.returned| == |d.returned| + 1 && d.returned <= d'.returned
            && d'.returned[|d.returned|].envelope.sessionId == s.sessionId
            && d'.returned[|d.returned|].envelope.ctr == s.sendTotal
  {
  }

  /** With one session stored that has sent nothing, one tab sends: the envelope returned has counter 0. */
  lemma Reply(start: Device, events: seq<Event>, s: RatchetSession, text: string) returns (more: seq<Event>)
    requires Valid(start, events) && CanSend(s) && s.sendTotal == 0
    requires var d := Run(start, events);
             d.lock == None && d.TabOf(0).Idle? && d.store.dek == Some(0)
             && d.store.ratchets == map[s.sessionId := Row(0, s)]
    ensures Valid(start, more) && SameDevice(Run(start, events), Run(start, more))
    ensures var d, d' := Run(start, events), Run(start, more);
            && |d'.returned| == |d.returned| + 1 && d.returned <= d'.returned
            && d'.returned[|d.returned|].envelope.sessionId == s.sessionId
            && d'.returned[|d.returned|].envelope.ctr == 0
  {
    var d := Run(start, events);
    assert OpenRow(d.store.dek, d.store.ratchets[s.sessionId]) == Some(s);
    more := Begin(start, events, StartSend(0, text), SendJob(text));
    more := Extend(start, more, Load(0, Some(s), BundleOf(d.identity), 0, 0, 0, 0));
    ClosesSend(Run(start, more), s, text);
    more := End(start, more, Finish(0, 0, 0, 0));
  }

  /**
   * Receive a first envelope, answer it, shred, and let the network deliver the same envelope again: the next answer
   * repeats the (sessionId, ctr) of the first one. For every fresh device and every honest first envelope.
   */
  lemma ShreddingRepeatsCounters(d: Device, e: Envelope, sender: Identity, ek: KeyId, firstKey: KeyId, newKey: KeyId,
                                 text: string, reply: string) returns (events: seq<Event>)
    requires IsFreshDevice(d) && IsFirstEnvelope(d, sender, e, ek, firstKey, text)
    ensures Valid(d, events) && !Distinct(Run(d, events).returned) && EverStartsOver(d, events)
  {
    var s, again;
    events, s := Receive(d, [], e, sender, ek, firstKey, newKey, text);
    events := Reply(d, events, s, reply);
    events := Extend(d, events, Shred);
    events, again := Receive(d, events, e, sender, ek, firstKey, newKey + 1, text);
    events := Reply(d, events, again, reply);
    var r := Run(d, events).returned;
    assert SameCounter(r[0], r[1]);
    ReturnedDistinct(d, events);
  }
}
