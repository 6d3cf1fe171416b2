/**
 * What a caller of sendDraft gets, over the events of a run: the answer to the message it began with, and a row that
 * carries it.
 */
module RoomCalls {
  import opened Wrappers
  import opened RoomStore
  import opened RoomPipeline
  import T = RoomTheorems

  // -- Calls keep the message they began with ----------------------------------

  /** The message a call was last begun with. */
  function BegunWith(events: seq<Event>, c: CallId): Option<Message> {
    if events == [] then None
    else
      match events[|events| - 1]
      case Begin(b, m) => if b == c then Some(m) else BegunWith(events[..|events| - 1], c)
      case _ => BegunWith(events[..|events| - 1], c)
  }

  /** The same message under some sequence number. */
  predicate Sequenced(draft: Message, m: Message) {
    m == draft.(sequence := m.sequence)
  }

  /** What a call has in hand, or in the log, is what it began with. */
  predicate Carries(s: Service, call: Call, draft: Message) {
    match call
    case Gone => true
    case Begun(m) => m == draft
    case Looked(m, _) => m == draft
    case Missed(m) => m == draft
    case Allocated(m) => Sequenced(draft, m)
    case Refused(m) => Sequenced(draft, m)
    case Inserted(row, k) => Sequenced(draft, row.message) && k < |s.log| && Sequenced(draft, s.log[k].m)
    case Answered(k) => k < |s.log| && Sequenced(draft, s.log[k].m)
  }

  ghost predicate CallsCarry(s: Service, events: seq<Event>) {
    forall c: CallId ::
      s.CallOf(c).Gone? || (BegunWith(events, c).Some? && Carries(s, s.CallOf(c), BegunWith(events, c).value))
  }

  function CallerOf(ev: Event): Option<CallId> {
    match ev
    case Evict(_) => None
    case MarkRead(_, _) => None
    case _ => Some(ev.call)
  }

  lemma StepCarries(s: Service, ev: Event, draft: Message)
    requires Enabled(s, ev) && CallerOf(ev).Some?
    requires ev.Begin? ==> draft == ev.m
    requires !ev.Begin? ==> Carries(s, s.CallOf(ev.call), draft)
    ensures Carries(Step(s, ev), Step(s, ev).CallOf(ev.call), draft)
  {
  }

  lemma OthersCarry(s: Service, ev: Event, c: CallId, draft: Message)
    requires Enabled(s, ev) && CallerOf(ev) != Some(c) && Carries(s, s.CallOf(c), draft)
    ensures Step(s, ev).CallOf(c) == s.CallOf(c) && Carries(Step(s, ev), s.CallOf(c), draft)
  {
  }

  lemma CallCarries(events: seq<Event>, c: CallId)
    requires Valid(FRESH, events) && events != []
    requires CallsCarry(Run(FRESH, events[..|events| - 1]), events[..|events| - 1])
    ensures var call := Run(FRESH, events).CallOf(c);
            call.Gone? ||
            (BegunWith(events, c).Some? && Carries(Run(FRESH, events), call, BegunWith(events, c).value))
  {
    var earlier, ev := events[..|events| - 1], events[|events| - 1];
    var before := Run(FRESH, earlier);
    if CallerOf(ev) != Some(c) {
      if !before.CallOf(c).Gone? {
        OthersCarry(before, ev, c, BegunWith(earlier, c).value);
      }
    } else if ev.Begin? || !before.CallOf(c).Gone? {
      StepCarries(before, ev, BegunWith(events, c).value);
    }
  }

  lemma {:induction false} RunCarries(events: seq<Event>)
    requires Valid(FRESH, events)
    ensures CallsCarry(Run(FRESH, events), events)
  {
    if events != [] {
      RunCarries(events[..|events| - 1]);
      forall c: CallId
        ensures var call := Run(FRESH, events).CallOf(c);
                call.Gone? ||
                (BegunWith(events, c).Some? && Carries(Run(FRESH, events), call, BegunWith(events, c).value))
      {
        CallCarries(events, c);
      }
    }
  }

  /** Every decision is about the message its call began with, but for the sequence, and about none else. */
  lemma DecidesWhatWasBegun(events: seq<Event>, ev: Event)
    requires Valid(FRESH, events) && Enabled(Run(FRESH, events), ev)
    ensures var log, log' := Run(FRESH, events).log, Step(Run(FRESH, events), ev).log;
            || log' == log
            || (&& |log'| == |log| + 1 && log < log' && CallerOf(ev).Some? && BegunWith(events, ev.call).Some?
                && Sequenced(BegunWith(events, ev.call).value, log'[|log|].m))
  {
    RunCarries(events);
    if CallerOf(ev).Some? && !ev.Begin? {
      assert !Run(FRESH, events).CallOf(ev.call).Gone? ==>
               Carries(Run(FRESH, events), Run(FRESH, events).CallOf(ev.call), BegunWith(events, ev.call).value);
    }
  }

  // -- Replies -----------------------------------------------------------------

  /** The answer that a call is about to return. */
  function Reply(s: Service, c: CallId): Answer
    requires s.CallOf(c).Answered? && s.CallOf(c).entry < |s.log|
  {
    s.log[s.CallOf(c).entry].answer
  }

  /** What an ok answer means to the caller who sent this message. */
  ghost predicate IsAnswerTo(rows: seq<Row>, draft: Message, answer: Answer) {
    answer.Accepted? ==>
      exists row :: row in rows && row.id == answer.id && row.message.sequence == answer.sequence
                    && row.message.room == draft.room
                    && if answer.duplicate then draft.clientId.Some? && row.message.clientId == draft.clientId
                       else row.message == draft.(sequence := answer.sequence)
  }

  lemma {:induction false} ReplayGrows(log: seq<Entry>, k: nat)
    requires k <= |log|
    ensures T.Replay(log[..k]).rows <= T.Replay(log).rows
  {
    if k < |log| {
      ReplayGrows(log[..|log| - 1], k);
      assert log[..|log| - 1][..k] == log[..k];
    } else {
      assert log[..k] == log;
    }
  }

  lemma EntryIsAnswered(log: seq<Entry>, k: nat, draft: Message)
    requires T.AnswersTrue(log) && k < |log| && Sequenced(draft, log[k].m)
    ensures IsAnswerTo(T.Replay(log).rows, draft, log[k].answer)
  {
    T.AnswersTruePrefix(log, k);
    ReplayGrows(log, k + 1);
    ReplayGrows(log, k);
    assert log[..k + 1][..k] == log[..k];
    var rows, answer := T.Replay(log[..k]).rows, log[k].answer;
    if answer.Accepted? {
      var row := if answer.duplicate then Persisted(rows, log[k].m).value else Row(log[k].id, log[k].m);
      assert row in T.Replay(log[..k + 1]).rows;
    }
  }

  /**
   * In every run: an ok answer names a row of the room asked for. If it says duplicate, the row carries the client id
   * that the caller sent; if not, the row is the caller's message itself, sender, content and client id, under the
   * sequence answered.
   */
  lemma RepliesAnswerTheirCall(events: seq<Event>, c: CallId)
    requires Valid(FRESH, events) && Run(FRESH, events).CallOf(c).Answered?
    ensures var s := Run(FRESH, events);
            && BegunWith(events, c).Some? && s.CallOf(c).entry < |s.log|
            && IsAnswerTo(s.db.rows, BegunWith(events, c).value, Reply(s, c))
  {
    var s := Run(FRESH, events);
    RunCarries(events);
    assert Carries(s, s.CallOf(c), BegunWith(events, c).value);
    T.FreshHolds();
    T.RunKeeps(FRESH, events);
    EntryIsAnswered(s.log, s.CallOf(c).entry, BegunWith(events, c).value);
  }

  // -- One answer each ---------------------------------------------------------

  /** The log entry a call answers for. */
  function EntryOf(call: Call): Option<nat> {
    match call
    case Inserted(_, k) => Some(k)
    case Answered(k) => Some(k)
    case _ => None
  }

  function Held(s: Service, c: CallId): Option<nat> {
    EntryOf(s.CallOf(c))
  }

  ghost predicate NotReturned(s: Service, c: CallId) {
    Held(s, c).Some? ==> Held(s, c).value < |s.log| && Held(s, c).value !in s.returned
  }

  predicate HeldByOne(s: Service, b: CallId, c: CallId) {
    Held(s, b).Some? && Held(s, b) == Held(s, c) ==> b == c
  }

  /** Every decided answer is held by at most one call, which has not returned it. */
  ghost predicate HeldOnce(s: Service) {
    && (forall c: CallId :: NotReturned(s, c))
    && (forall b: CallId, c: CallId :: HeldByOne(s, b, c))
    && (forall k :: k in s.returned ==> k < |s.log|)
  }

  /** A call goes on with the answer it holds, or lets it go, or has just been given a new one. */
  lemma StepMoves(s: Service, ev: Event, c: CallId)
    requires Enabled(s, ev)
    ensures var s' := Step(s, ev);
            || Held(s', c).None?
            || (Held(s', c) == Held(s, c) && !(ev.Return? && ev.call == c))
            || (Held(s', c) == Some(|s.log|) && |s'.log| == |s.log| + 1 && CallerOf(ev) == Some(c))
  {
  }

  lemma StepReturns(s: Service, ev: Event)
    requires Enabled(s, ev)
    ensures var s' := Step(s, ev);
            s.log <= s'.log && s'.returned == if ev.Return? then s.returned + {s.CallOf(ev.call).entry} else s.returned
  {
  }

  lemma StepHolds(s: Service, ev: Event)
    requires HeldOnce(s) && Enabled(s, ev)
    ensures HeldOnce(Step(s, ev))
  {
    var s' := Step(s, ev);
    StepReturns(s, ev);
    forall c: CallId
      ensures NotReturned(s', c)
    {
      StepMoves(s, ev, c);
      assert NotReturned(s, c);
      if ev.Return? {
        assert HeldByOne(s, ev.call, c) && NotReturned(s, ev.call);
      }
    }
    forall b: CallId, c: CallId
      ensures HeldByOne(s', b, c)
    {
      StepMoves(s, ev, b);
      StepMoves(s, ev, c);
      assert HeldByOne(s, b, c) && NotReturned(s, b) && NotReturned(s, c);
    }
    if ev.Return? {
      assert NotReturned(s, ev.call);
    }
  }

  lemma {:induction false} RunHolds(events: seq<Event>)
    requires Valid(FRESH, events)
    ensures HeldOnce(Run(FRESH, events))
  {
    if events != [] {
      RunHolds(events[..|events| - 1]);
      StepHolds(Run(FRESH, events[..|events| - 1]), events[|events| - 1]);
    } else {
      assert forall c: CallId :: FRESH.CallOf(c).Gone?;
    }
  }

  lemma {:induction false} ValidPrefix(events: seq<Event>, i: nat)
    requires Valid(FRESH, events) && i <= |events|
    ensures Valid(FRESH, events[..i]) && (i < |events| ==> Enabled(Run(FRESH, events[..i]), events[i]))
  {
    if i < |events| {
      if i < |events| - 1 {
        ValidPrefix(events[..|events| - 1], i);
        assert events[..|events| - 1][..i] == events[..i];
      }
    } else {
      assert events[..i] == events;
    }
  }

  /** What was decided stays decided, and what was returned stays returned. */
  lemma {:induction false} StaysDecided(events: seq<Event>, i: nat)
    requires Valid(FRESH, events) && i <= |events|
    ensures Run(FRESH, events[..i]).log <= Run(FRESH, events).log
    ensures Run(FRESH, events[..i]).returned <= Run(FRESH, events).returned
  {
    if i < |events| {
      StaysDecided(events[..|events| - 1], i);
      assert events[..|events| - 1][..i] == events[..i];
      StepReturns(Run(FRESH, events[..|events| - 1]), events[|events| - 1]);
    } else {
      assert events[..i] == events;
    }
  }

  /** A call has just been given its answer. */
  predicate Returns(events: seq<Event>, c: CallId) {
    && events != [] && events[|events| - 1] == Return(c)
    && var before := Run(FRESH, events[..|events| - 1]);
    && before.CallOf(c).Answered? && before.CallOf(c).entry < |before.log|
    && BegunWith(events[..|events| - 1], c).Some?
  }

  function Returned(events: seq<Event>, c: CallId): Answer
    requires Returns(events, c)
  {
    Reply(Run(FRESH, events[..|events| - 1]), c)
  }

  function Asked(events: seq<Event>, c: CallId): Message
    requires Returns(events, c)
  {
    BegunWith(events[..|events| - 1], c).value
  }

  lemma EveryReturnIsOne(events: seq<Event>, c: CallId)
    requires Valid(FRESH, events) && events != [] && events[|events| - 1] == Return(c)
    ensures Returns(events, c)
  {
    RepliesAnswerTheirCall(events[..|events| - 1], c);
  }

  /** Two returns are of two decisions. */
  lemma ReturnsDiffer(events: seq<Event>, i: nat, b: CallId, c: CallId)
    requires Valid(FRESH, events) && i < |events| && Returns(events[..i], b) && Returns(events, c)
    ensures Run(FRESH, events[..i][..i - 1]).CallOf(b).entry
            != Run(FRESH, events[..|events| - 1]).CallOf(c).entry
  {
    var earlier := events[..|events| - 1];
    assert earlier[..i] == events[..i];
    ValidPrefix(earlier, i);
    StepReturns(Run(FRESH, events[..i][..i - 1]), Return(b));
    StaysDecided(earlier, i);
    RunHolds(earlier);
    assert NotReturned(Run(FRESH, earlier), c);
  }

  lemma EntriesAgree(log: seq<Entry>, i: nat, j: nat)
    requires T.AnswersTrue(log) && i < |log| && j < |log| && i != j && T.SameMessage(log[i].m, log[j].m)
    requires log[i].answer.Accepted? && log[j].answer.Accepted?
    ensures log[i].answer.id == log[j].answer.id && log[i].answer.sequence == log[j].answer.sequence
    ensures log[i].answer.duplicate || log[j].answer.duplicate
  {
    var first, second := if i < j then i else j, if i < j then j else i;
    T.AnswersTruePrefix(log, second);
    T.AnsweredRowStays(log[..second], first);
    assert log[..second][first] == log[first];
  }

  /** The log entry a return answers for: it is of the message asked, and stays in the log. */
  lemma ReturnedEntry(events: seq<Event>, c: CallId, later: seq<Entry>)
    requires Valid(FRESH, events) && Returns(events, c) && Run(FRESH, events[..|events| - 1]).log <= later
    ensures var k := Run(FRESH, events[..|events| - 1]).CallOf(c).entry;
            k < |later| && later[k].answer == Returned(events, c) && Sequenced(Asked(events, c), later[k].m)
  {
    var s := Run(FRESH, events[..|events| - 1]);
    RunCarries(events[..|events| - 1]);
    assert Carries(s, s.CallOf(c), Asked(events, c));
  }

  /**
   * Exactly once, as the callers see it: of two calls that were begun with the same room and client id and were told
   * ok, both are told the same row and sequence, and at most one that it was not a duplicate.
   */
  lemma ToldFreshOnce(events: seq<Event>, i: nat, b: CallId, c: CallId)
    requires Valid(FRESH, events) && i < |events| && Returns(events[..i], b) && Returns(events, c)
    requires T.SameMessage(Asked(events[..i], b), Asked(events, c))
    requires Returned(events[..i], b).Accepted? && Returned(events, c).Accepted?
    ensures var first, second := Returned(events[..i], b), Returned(events, c);
            && first.id == second.id && first.sequence == second.sequence && (first.duplicate || second.duplicate)
  {
    var was, now := events[..i][..i - 1], events[..|events| - 1];
    assert now[..i - 1] == was;
    ValidPrefix(events, i);
    StaysDecided(now, i - 1);
    ReturnsDiffer(events, i, b, c);
    var log := Run(FRESH, now).log;
    ReturnedEntry(events[..i], b, log);
    ReturnedEntry(events, c, log);
    LogIsTrue(now);
    EntriesAgree(log, Run(FRESH, was).CallOf(b).entry, Run(FRESH, now).CallOf(c).entry);
  }

  lemma LogIsTrue(events: seq<Event>)
    requires Valid(FRESH, events)
    ensures T.AnswersTrue(Run(FRESH, events).log)
  {
    T.FreshHolds();
    T.RunKeeps(FRESH, events);
  }

  /** A mark that is not lost lets the next lookup find the row in the cache, unless the entry is lost after all. */
  lemma MarkIsFound(s: Service, c: CallId, b: CallId)
    requires T.Reachable(s) && s.CallOf(c).Inserted? && s.CallOf(c).row.message.clientId.Some?
    requires var asked, m := Step(s, Mark(c, false)).CallOf(b), s.CallOf(c).row.message;
             asked.Begun? && T.SameMessage(m, asked.m)
    ensures var looked := Step(Step(s, Mark(c, false)), LookCache(b, false)).CallOf(b);
            looked.Looked? && looked.hit == Some(s.CallOf(c).row.id)
  {
    T.ReachableHolds(s);
    MarkedKey(s, c);
  }

  /** After the mark the cache has this row under its key: put there now, or found there as the only one it can be. */
  lemma MarkedKey(s: Service, c: CallId)
    requires T.ServiceInv(s) && s.CallOf(c).Inserted? && s.CallOf(c).row.message.clientId.Some?
    ensures var row, cache := s.CallOf(c).row, Step(s, Mark(c, false)).cache;
            KeyOf(row.message) in cache && cache[KeyOf(row.message)] == row.id
  {
    var row := s.CallOf(c).row;
    assert T.CallOk(s, s.CallOf(c));
    var key := KeyOf(row.message);
    if key in s.cache {
      assert T.PointsTo(s.db.rows, s.cache[key], key.room, key.clientId);
      T.KeyedOnce(s.db.rows, row, FindById(s.db.rows, s.cache[key]).value, key.room, key.clientId);
    }
  }

  // -- A whole send is a run of the split one ----------------------------------

  /** One call's steps up to its answer, each taken if the one before got that far. */
  function Uninterrupted(s: Service, c: CallId, draft: Message, lostLookup: bool, sequence: int, id: nat,
                         lostMark: bool): Service
  {
    var asked := Step(Step(Step(s, Begin(c, draft)), LookCache(c, lostLookup)), LookDb(c));
    var tried := if asked.CallOf(c).Missed? then Step(Step(asked, Allocate(c, sequence)), Persist(c, id)) else asked;
    if tried.CallOf(c).Inserted? then Step(tried, Mark(c, lostMark))
    else if tried.CallOf(c).Refused? then Step(tried, Resolve(c))
    else tried
  }

  lemma LooksAlone(s: Service, c: CallId, draft: Message, lost: bool)
    requires T.ServiceInv(s)
    ensures var asked := Step(Step(Step(s, Begin(c, draft)), LookCache(c, lost)), LookDb(c));
            match Persisted(s.db.rows, draft)
            case None => asked.CallOf(c) == Missed(draft) && asked.db == s.db && asked.log == s.log
            case Some(row) =>
              && asked.CallOf(c) == Answered(|s.log|) && asked.db == s.db
              && asked.log == s.log + [Entry(draft, 0, Duplicate(row))]
  {
    var looked := Step(Step(s, Begin(c, draft)), LookCache(c, lost));
    T.CachedLookupExact(s.db, draft, looked.CallOf(c).hit);
  }

  lemma PersistsAlone(s: Service, c: CallId, draft: Message, sequence: int, id: nat, lost: bool)
    requires s.CallOf(c) == Missed(draft) && Persisted(s.db.rows, draft).None?
    ensures var tried := Step(Step(s, Allocate(c, sequence)), Persist(c, id));
            var s' := if tried.CallOf(c).Inserted? then Step(tried, Mark(c, lost)) else Step(tried, Resolve(c));
            var whole := RoomStore.Send(s.db, draft.(sequence := sequence), id);
            && (tried.CallOf(c).Inserted? || tried.CallOf(c).Refused?)
            && s'.CallOf(c) == Answered(|s.log|) && s'.db == whole.db
            && |s'.log| == |s.log| + 1 && s'.log[|s.log|].answer == whole.answer
  {
  }

  /** What a call decides when nobody comes between is one send of its message on the database alone. */
  lemma SendIsUninterrupted(s: Service, c: CallId, draft: Message, lostLookup: bool, sequence: int, id: nat,
                            lostMark: bool)
    requires T.Reachable(s) && Enabled(s, Begin(c, draft)) && FindById(s.db.rows, id).None?
    ensures var s' := Uninterrupted(s, c, draft, lostLookup, sequence, id, lostMark);
            && s'.CallOf(c) == Answered(|s.log|) && |s'.log| == |s.log| + 1
            && Sent(s'.db, Reply(s', c)) == RoomStore.Send(s.db, draft.(sequence := sequence), id)
  {
    T.ReachableHolds(s);
    LooksAlone(s, c, draft, lostLookup);
    var asked := Step(Step(Step(s, Begin(c, draft)), LookCache(c, lostLookup)), LookDb(c));
    if asked.CallOf(c).Missed? {
      PersistsAlone(asked, c, draft, sequence, id, lostMark);
    }
  }
}
