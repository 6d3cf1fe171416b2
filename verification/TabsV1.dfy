/**
 * v1 conversations of two devices with any number of tabs. encrypt() works under the cross-tab lock; decrypt() does
 * not: it reads a session, and may write its copy back after others have gone on. Envelopes are delivered in any order,
 * any number of times and to tabs of either side; tabs close and conversations are shredded at any moment.
 */
module TabsV1 {
  import opened Wrappers
  import opened SymbolicCrypto
  import opened Parties
  import opened SessionV1
  import opened ServiceV1
  import EnvelopeV2

  type TabId = nat

  /** What a decrypt of the k-th envelope holds between its read and its writes. */
  datatype Copy = NoCopy | Loaded(k: nat, session: Option<Session>)

  /**
   * `held` is what an encrypt has read under the lock, and `taken` the observer's record of the counters it has spent.
   */
  datatype Device = Device(
    talk: Talk,
    sessions: Sessions,
    held: Option<Option<Session>>,
    copies: map<TabId, Copy>,
    taken: seq<Counter>)
  {
    function CopyOf(t: TabId): Copy {
      if t in copies then copies[t] else NoCopy
    }

    function WithCopy(t: TabId, c: Copy): Device {
      this.(copies := copies[t := c])
    }

    function Save(s: Session): Device {
      this.(sessions := sessions[s.sessionId := s])
    }
  }

  /** An envelope that encrypt returned, and the text it was given. */
  datatype Sent = Sent(from: Party, e: Envelope, body: seq<nat>)

  /** What a decrypt of the k-th envelope answered. */
  datatype Shown = Shown(k: nat, text: Option<seq<nat>>)

  datatype Origin = Origin(initiator: Party, sk: Secret)

  datatype System = System(
    alice: Device,
    bob: Device,
    sent: seq<Sent>,
    origins: map<nat, Origin>,   // every session ever initiated
    shown: seq<Shown>)
  {
    function Of(p: Party): Device {
      if p == Alice then alice else bob
    }

    function With(p: Party, d: Device): System {
      if p == Alice then this.(alice := d) else this.(bob := d)
    }

    function Me(p: Party): nat {
      Of(p).talk.me
    }
  }

  datatype Event =
    | Begin(p: Party, active: Option<Session>)                   // encrypt takes the lock and reads the active session
    | End(p: Party, body: seq<nat>, supply: Supply, now: int)    // it saves, seals, and lets the lock go
    | Fail(p: Party)                                             // it dies before it saves anything
    | Load(p: Party, tab: TabId, k: nat)                         // decrypt reads the session of the k-th envelope
    | Accept(p: Party, tab: TabId, now: int)                     // it has found none and saves one from the init block
    | Show(p: Party, tab: TabId)                                 // it opens, may save the peer's counter, and answers
    | Close(p: Party, tab: TabId)
    | Shred(p: Party)

  /** The copy is of the peer's envelope, has found no session, and the envelope brings an init block. */
  predicate ToAccept(sys: System, p: Party, c: Copy) {
    c.Loaded? && c.session.None? && c.k < |sys.sent| && sys.sent[c.k].from != p && sys.sent[c.k].e.init.Some?
  }

  /** The lock is exclusive, session ids are new, and a bundle whose signature verifies is the peer's. */
  ghost predicate Enabled(sys: System, ev: Event) {
    match ev
    case Begin(p, active) => sys.Of(p).held.None? && IsActive(sys.Of(p).sessions, active)
    case End(p, _, supply, _) =>
      && sys.Of(p).held.Some? && supply.sessionId !in sys.origins
      && (supply.bundle.signed ==> supply.bundle == EnvelopeV2.BundleOf(sys.Of(Other(p)).talk.identity))
    case Load(p, tab, k) => sys.Of(p).CopyOf(tab).NoCopy? && k < |sys.sent|
    case Accept(p, tab, _) => ToAccept(sys, p, sys.Of(p).CopyOf(tab))
    case Show(p, tab) => sys.Of(p).CopyOf(tab).Loaded? && !ToAccept(sys, p, sys.Of(p).CopyOf(tab))
    case Shred(p) => sys.Of(p).held.None?
    case _ => true
  }

  /** A new session is entered under its id. */
  function Originated(origins: map<nat, Origin>, p: Party, talk: Talk, prepared: Prepared,
                      supply: Supply): map<nat, Origin> {
    if prepared.init.None? then origins
    else origins[supply.sessionId := Origin(p, InitiatorSecret(talk.identity, supply.ek, supply.bundle))]
  }

  /** The device when an encrypt ends: the counter is spent, sealed or not, unless no session could be had. */
  function Ended(d: Device, prepared: Prepared): Device {
    d.(sessions := Spent(prepared), held := None,
       taken := match prepared.session
                case Some(s) => d.taken + [Counter(s.sessionId, s.sendCtr)]
                case None => d.taken)
  }

  function EndStep(sys: System, p: Party, active: Option<Session>, body: seq<nat>, supply: Supply, now: int): System {
    var d := sys.Of(p);
    var prepared := Prepare(d.talk, d.sessions, active, supply, now);
    var result := EncryptWith(d.talk, d.sessions, active, body, supply, now).result;
    sys.With(p, Ended(d, prepared)).(
      sent := if result.Ok? then sys.sent + [Sent(p, result.value, body)] else sys.sent,
      origins := Originated(sys.origins, p, d.talk, prepared, supply))
  }

  function LoadStep(sys: System, p: Party, tab: TabId, k: nat): System
    requires k < |sys.sent|
  {
    var d, id := sys.Of(p), sys.sent[k].e.sessionId;
    sys.With(p, d.WithCopy(tab, Loaded(k, if id in d.sessions then Some(d.sessions[id]) else None)))
  }

  /** The session a decrypt accepts from the peer's init block. */
  function Accepted(sys: System, p: Party, k: nat, now: int): Result<Session, SessionError>
    requires k < |sys.sent| && sys.sent[k].e.init.Some?
  {
    var d, m := sys.Of(p), sys.sent[k];
    AcceptSession(d.talk.conversationId, sys.Me(m.from), m.e.sessionId, d.talk.identity, m.e.init.value, now)
  }

  function AcceptStep(sys: System, p: Party, tab: TabId, k: nat, now: int): System
    requires k < |sys.sent| && sys.sent[k].e.init.Some?
  {
    match Accepted(sys, p, k, now)
    case Ok(s) => sys.With(p, sys.Of(p).Save(s).WithCopy(tab, Loaded(k, Some(s))))
    case Err(_) => sys.With(p, sys.Of(p).WithCopy(tab, NoCopy)).(shown := sys.shown + [Shown(k, None)])
  }

  function TextShown(sys: System, p: Party, k: nat, s: Session): Option<seq<nat>>
    requires k < |sys.sent|
  {
    TextOf(sys.Of(p).talk, s, sys.Me(sys.sent[k].from), sys.sent[k].e)
  }

  /** The copy written back with the peer's counter, if the envelope opened and its counter is a new highest. */
  function Remembered(sys: System, p: Party, k: nat, s: Session): Option<Session>
    requires k < |sys.sent|
  {
    var m := sys.sent[k];
    if TextShown(sys, p, k, s).Some? && m.from != p && m.e.ctr > s.peerMaxCtr then Some(s.(peerMaxCtr := m.e.ctr))
    else None
  }

  function ShowStep(sys: System, p: Party, tab: TabId, k: nat, session: Option<Session>): System
    requires k < |sys.sent|
  {
    match session
    case None => sys.With(p, sys.Of(p).WithCopy(tab, NoCopy)).(shown := sys.shown + [Shown(k, None)])
    case Some(s) =>
      var d := match Remembered(sys, p, k, s) case Some(s') => sys.Of(p).Save(s') case None => sys.Of(p);
      sys.With(p, d.WithCopy(tab, NoCopy)).(shown := sys.shown + [Shown(k, TextShown(sys, p, k, s))])
  }

  function Step(sys: System, ev: Event): System {
    match ev
    case Begin(p, active) => sys.With(p, sys.Of(p).(held := Some(active)))
    case End(p, body, supply, now) =>
      if sys.Of(p).held.Some? then EndStep(sys, p, sys.Of(p).held.value, body, supply, now) else sys
    case Fail(p) => sys.With(p, sys.Of(p).(held := None))
    case Load(p, tab, k) => if k < |sys.sent| then LoadStep(sys, p, tab, k) else sys
    case Accept(p, tab, now) =>
      var c := sys.Of(p).CopyOf(tab);
      if ToAccept(sys, p, c) then AcceptStep(sys, p, tab, c.k, now) else sys
    case Show(p, tab) =>
      var c := sys.Of(p).CopyOf(tab);
      if c.Loaded? && c.k < |sys.sent| then ShowStep(sys, p, tab, c.k, c.session) else sys
    case Close(p, tab) => sys.With(p, sys.Of(p).WithCopy(tab, NoCopy))
    case Shred(p) => sys.With(p, sys.Of(p).(sessions := map[]))
  }

  function Run(sys: System, events: seq<Event>): System {
    if events == [] then sys else Step(Run(sys, events[..|events| - 1]), events[|events| - 1])
  }

  ghost predicate Valid(sys: System, events: seq<Event>) {
    events != [] ==>
      Valid(sys, events[..|events| - 1]) && Enabled(Run(sys, events[..|events| - 1]), events[|events| - 1])
  }

  predicate IsFresh(d: Device) {
    d.sessions == map[] && d.held.None? && d.copies == map[] && d.taken == []
  }

  /** Two people in one conversation who have not written yet. */
  predicate IsFreshSystem(sys: System) {
    && IsFresh(sys.alice) && IsFresh(sys.bob) && sys.sent == [] && sys.origins == map[] && sys.shown == []
    && sys.Me(Alice) != sys.Me(Bob) && sys.alice.talk.conversationId == sys.bob.talk.conversationId
  }

  ghost predicate Reachable(sys: System) {
    exists start, events :: IsFreshSystem(start) && Valid(start, events) && sys == Run(start, events)
  }

  lemma Extended(start: System, events: seq<Event>, ev: Event) returns (more: seq<Event>)
    requires Valid(start, events) && Enabled(Run(start, events), ev)
    ensures more == events + [ev] && Valid(start, more) && Run(start, more) == Step(Run(start, events), ev)
  {
    more := events + [ev];
    assert more[..|more| - 1] == events;
  }
}
