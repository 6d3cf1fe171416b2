/**
 * What every interleaving of replicas guarantees: one row per message, one event per row, and the database's own
 * answers.
 */
module RoomTheorems {
  import opened Wrappers
  import opened RoomStore
  import opened RoomPipeline

  // -- The log replayed on the database alone ----------------------------------

  /** The tables after the logged sends, one after the other, each atomic and without any cache. */
  function Replay(log: seq<Entry>): Db {
    if log == [] then EMPTY
    else
      var last := log[|log| - 1];
      RoomStore.Send(Replay(log[..|log| - 1]), last.m, last.id).db
  }

  /** Every logged answer is the one the database alone gives at that point. */
  predicate AnswersTrue(log: seq<Entry>) {
    log != [] ==>
      var last := log[|log| - 1];
      AnswersTrue(log[..|log| - 1]) && last.answer == RoomStore.Send(Replay(log[..|log| - 1]), last.m, last.id).answer
  }

  // -- The invariant -----------------------------------------------------------

  /** This id is the row the room has for this client id. */
  predicate PointsTo(rows: seq<Row>, id: nat, room: nat, clientId: nat) {
    match FindById(rows, id)
    case Some(r) => IsKeyed(r, room, clientId)
    case None => false
  }

  ghost predicate CacheOk(s: Service) {
    forall key :: key in s.cache ==> PointsTo(s.db.rows, s.cache[key], key.room, key.clientId)
  }

  ghost predicate CallOk(s: Service, call: Call) {
    match call
    case Looked(m, hit) => hit.Some? ==> m.clientId.Some? && PointsTo(s.db.rows, hit.value, m.room, m.clientId.value)
    case Refused(m) => Violates(s.db.rows, m)
    case Inserted(row, k) =>
      && FindById(s.db.rows, row.id) == Some(row)
      && k < |s.log| && s.log[k] == Entry(row.message, row.id, Accepted(row.id, row.message.sequence, false))
    case Answered(k) => k < |s.log|
    case _ => true
  }

  ghost predicate CallsOk(s: Service) {
    forall c: CallId :: CallOk(s, s.CallOf(c))
  }

  ghost predicate LogOk(s: Service) {
    SameRows(Replay(s.log), s.db) && AnswersTrue(s.log) && forall k :: k in s.returned ==> k < |s.log|
  }

  /** Reading moves watermarks only; the replay of the sends gives the rows and their events. */
  predicate SameRows(db: Db, db': Db) {
    db.rows == db'.rows && db.events == db'.events
  }

  lemma SendByRows(db: Db, db': Db, m: Message, id: nat)
    requires SameRows(db, db')
    ensures RoomStore.Send(db, m, id).answer == RoomStore.Send(db', m, id).answer
    ensures SameRows(RoomStore.Send(db, m, id).db, RoomStore.Send(db', m, id).db)
  {
  }

  ghost predicate ServiceInv(s: Service) {
    DbOk(s.db) && CacheOk(s) && CallsOk(s) && LogOk(s)
  }

  // -- The cache answers what the database would -------------------------------

  lemma KeyedOnce(rows: seq<Row>, a: Row, b: Row, room: nat, clientId: nat)
    requires Unique(rows) && a in rows && b in rows && IsKeyed(a, room, clientId) && IsKeyed(b, room, clientId)
    ensures a == b
  {
    var i :| 0 <= i < |rows| && rows[i] == a;
    var j :| 0 <= j < |rows| && rows[j] == b;
  }

  /** Whatever the cache held or lost, the lookup finds exactly the row the unique index knows. */
  lemma CachedLookupExact(db: Db, m: Message, hit: Option<nat>)
    requires Unique(db.rows)
    requires hit.Some? ==> m.clientId.Some? && PointsTo(db.rows, hit.value, m.room, m.clientId.value)
    ensures Seen(db, m, hit) == Persisted(db.rows, m)
  {
    if m.clientId.Some? && hit.Some? {
      var cached := FindById(db.rows, hit.value).value;
      var found := FindByClient(db.rows, m.room, m.clientId.value);
      assert found.Some?;
      KeyedOnce(db.rows, cached, found.value, m.room, m.clientId.value);
    }
  }

  // -- Rows stay ---------------------------------------------------------------

  lemma {:induction false} FindByIdPrefix(rows: seq<Row>, more: seq<Row>, id: nat)
    requires FindById(rows, id).Some?
    ensures FindById(rows + more, id) == FindById(rows, id)
  {
    if rows[0].id != id {
      assert (rows + more)[1..] == rows[1..] + more;
      FindByIdPrefix(rows[1..], more, id);
    }
  }

  lemma {:induction false} FindByClientPrefix(rows: seq<Row>, more: seq<Row>, room: nat, clientId: nat)
    requires FindByClient(rows, room, clientId).Some?
    ensures FindByClient(rows + more, room, clientId) == FindByClient(rows, room, clientId)
  {
    if !IsKeyed(rows[0], room, clientId) {
      assert (rows + more)[1..] == rows[1..] + more;
      FindByClientPrefix(rows[1..], more, room, clientId);
    }
  }

  lemma {:induction false} FindByIdLast(rows: seq<Row>, row: Row)
    requires FindById(rows, row.id).None?
    ensures FindById(rows + [row], row.id) == Some(row)
  {
    if rows != [] {
      assert rows[0] in rows;
      assert (rows + [row])[1..] == rows[1..] + [row];
      assert forall r :: r in rows[1..] ==> r in rows;
      FindByIdLast(rows[1..], row);
    }
  }

  lemma CallStays(s: Service, s': Service, call: Call, more: seq<Row>)
    requires CallOk(s, call) && s'.db.rows == s.db.rows + more && s.log <= s'.log
    ensures CallOk(s', call)
  {
    match call
    case Looked(m, hit) =>
      if hit.Some? {
        FindByIdPrefix(s.db.rows, more, hit.value);
      }
    case Inserted(row, k) => FindByIdPrefix(s.db.rows, more, row.id);
    case Refused(m) =>
      var i :| 0 <= i < |s.db.rows| && Clash(s.db.rows[i], m);
      assert Clash(s'.db.rows[i], m);
    case _ =>
  }

  lemma CallsStay(s: Service, s': Service, c: CallId, more: seq<Row>)
    requires CallsOk(s)
    requires s'.db.rows == s.db.rows + more && s.log <= s'.log
    requires forall b: CallId :: b != c ==> s'.CallOf(b) == s.CallOf(b)
    requires CallOk(s', s'.CallOf(c))
    ensures CallsOk(s')
  {
    forall b: CallId
      ensures CallOk(s', s'.CallOf(b))
    {
      if b != c {
        CallStays(s, s', s.CallOf(b), more);
      }
    }
  }

  lemma CacheStays(s: Service, s': Service, more: seq<Row>)
    requires CacheOk(s) && s'.cache == s.cache && s'.db.rows == s.db.rows + more
    ensures CacheOk(s')
  {
    forall key | key in s.cache
      ensures PointsTo(s'.db.rows, s.cache[key], key.room, key.clientId)
    {
      FindByIdPrefix(s.db.rows, more, s.cache[key]);
    }
  }

  // -- Steps -------------------------------------------------------------------

  /** Deciding an answer without touching the tables, when it is the answer the database alone gives. */
  lemma DecideKeeps(s: Service, c: CallId, m: Message, answer: Answer)
    requires ServiceInv(s) && RoomStore.Send(s.db, m, 0) == Sent(s.db, answer)
    ensures ServiceInv(s.Decide(c, m, 0, answer))
  {
    var s' := s.Decide(c, m, 0, answer);
    SendByRows(Replay(s.log), s.db, m, 0);
    assert s'.log[..|s'.log| - 1] == s.log;
    assert s'.db.rows == s.db.rows + [];
    CallsStay(s, s', c, []);
  }

  lemma QuietKeeps(s: Service, c: CallId, call: Call)
    requires ServiceInv(s) && CallOk(s, call)
    ensures ServiceInv(s.With(c, call))
  {
    assert s.db.rows == s.db.rows + [];
    CallsStay(s, s.With(c, call), c, []);
  }

  lemma PersistCalls(s: Service, c: CallId, m: Message, id: nat)
    requires CallsOk(s) && CacheOk(s) && FindById(s.db.rows, id).None? && !Violates(s.db.rows, m)
    ensures CallsOk(PersistStep(s, c, m, id)) && CacheOk(PersistStep(s, c, m, id))
  {
    var s', row := PersistStep(s, c, m, id), Row(id, m);
    FindByIdLast(s.db.rows, row);
    CacheStays(s, s', [row]);
    CallsStay(s, s', c, [row]);
  }

  lemma PersistLog(s: Service, c: CallId, m: Message, id: nat)
    requires LogOk(s) && !Violates(s.db.rows, m)
    ensures LogOk(PersistStep(s, c, m, id))
  {
    var s' := PersistStep(s, c, m, id);
    assert s'.log[..|s'.log| - 1] == s.log;
    NotPersisted(s.db.rows, m);
    SendByRows(Replay(s.log), s.db, m, id);
  }

  lemma PersistKeeps(s: Service, c: CallId, m: Message, id: nat)
    requires ServiceInv(s) && FindById(s.db.rows, id).None? && !Violates(s.db.rows, m)
    ensures ServiceInv(PersistStep(s, c, m, id))
  {
    InsertKeeps(s.db, m, id);
    PersistCalls(s, c, m, id);
    PersistLog(s, c, m, id);
  }

  /** A free slot is not taken by an earlier row of the same client id. */
  lemma NotPersisted(rows: seq<Row>, m: Message)
    requires !Violates(rows, m)
    ensures Persisted(rows, m).None?
  {
  }

  /** A step that only changes the cache or the answers delivered, and one call. */
  lemma AsideKeeps(s: Service, s': Service)
    requires ServiceInv(s) && s'.db == s.db && s'.log == s.log && s'.calls == s.calls
    requires CacheOk(s') && forall k :: k in s'.returned ==> k < |s.log|
    ensures ServiceInv(s')
  {
    forall b: CallId
      ensures CallOk(s', s'.CallOf(b))
    {
      assert CallOk(s, s.CallOf(b));
    }
  }

  lemma MarkKeeps(s: Service, c: CallId, row: Row, entry: nat, lost: bool)
    requires ServiceInv(s) && s.CallOf(c) == Inserted(row, entry)
    ensures ServiceInv(MarkStep(s, c, row, entry, lost))
  {
    assert CallOk(s, s.CallOf(c));
    QuietKeeps(s, c, Answered(entry));
    AsideKeeps(s.With(c, Answered(entry)), MarkStep(s, c, row, entry, lost));
  }

  lemma LookDbKeeps(s: Service, c: CallId, m: Message, hit: Option<nat>)
    requires ServiceInv(s) && s.CallOf(c) == Looked(m, hit)
    ensures ServiceInv(LookDbStep(s, c, m, hit))
  {
    assert CallOk(s, s.CallOf(c));
    CachedLookupExact(s.db, m, hit);
    if Seen(s.db, m, hit).Some? {
      DecideKeeps(s, c, m, Duplicate(Seen(s.db, m, hit).value));
    } else {
      QuietKeeps(s, c, Missed(m));
    }
  }

  lemma LookCacheKeeps(s: Service, c: CallId, m: Message, lost: bool)
    requires ServiceInv(s)
    ensures ServiceInv(LookCacheStep(s, c, m, lost))
  {
    QuietKeeps(s, c, LookCacheStep(s, c, m, lost).CallOf(c));
  }

  lemma ResolveKeeps(s: Service, c: CallId, m: Message)
    requires ServiceInv(s) && s.CallOf(c) == Refused(m)
    ensures ServiceInv(ResolveStep(s, c, m))
  {
    assert CallOk(s, s.CallOf(c));
    DecideKeeps(s, c, m, RoomStore.Send(s.db, m, 0).answer);
  }

  lemma ReturnKeeps(s: Service, c: CallId, k: nat)
    requires ServiceInv(s) && s.CallOf(c) == Answered(k)
    ensures ServiceInv(ReturnStep(s, c, k))
  {
    assert CallOk(s, s.CallOf(c));
    QuietKeeps(s, c, Gone);
    AsideKeeps(s.With(c, Gone), s.With(c, Gone).(returned := s.returned + {k}));
  }

  /** Reading changes a watermark and nothing that a call or the cache speaks of. */
  lemma ReadKeeps(s: Service, reader: Reader, upTo: Option<int>)
    requires ServiceInv(s)
    ensures ServiceInv(Step(s, Event.MarkRead(reader, upTo)))
  {
    var s' := Step(s, Event.MarkRead(reader, upTo));
    MarkReadKeeps(s.db, reader, upTo);
    forall b: CallId
      ensures CallOk(s', s'.CallOf(b))
    {
      assert CallOk(s, s.CallOf(b));
    }
  }

  lemma StepKeeps(s: Service, ev: Event)
    requires ServiceInv(s) && Enabled(s, ev)
    ensures ServiceInv(Step(s, ev))
  {
    match ev
    case Begin(c, m) => QuietKeeps(s, c, Begun(m));
    case LookCache(c, lost) => LookCacheKeeps(s, c, s.CallOf(c).m, lost);
    case LookDb(c) => LookDbKeeps(s, c, s.CallOf(c).m, s.CallOf(c).hit);
    case Allocate(c, sequence) => QuietKeeps(s, c, Allocated(s.CallOf(c).m.(sequence := sequence)));
    case Persist(c, id) =>
      if Violates(s.db.rows, s.CallOf(c).m) {
        QuietKeeps(s, c, Refused(s.CallOf(c).m));
      } else {
        PersistKeeps(s, c, s.CallOf(c).m, id);
      }
    case Resolve(c) => ResolveKeeps(s, c, s.CallOf(c).m);
    case Mark(c, lost) => MarkKeeps(s, c, s.CallOf(c).row, s.CallOf(c).entry, lost);
    case Return(c) => ReturnKeeps(s, c, s.CallOf(c).entry);
    case Die(c) => QuietKeeps(s, c, Gone);
    case Evict(key) => AsideKeeps(s, Step(s, ev));
    case MarkRead(reader, upTo) => ReadKeeps(s, reader, upTo);
  }

  ghost predicate Reachable(s: Service) {
    exists events :: Valid(FRESH, events) && s == Run(FRESH, events)
  }

  lemma FreshHolds()
    ensures ServiceInv(FRESH)
  {
    assert forall c: CallId :: FRESH.CallOf(c).Gone?;
  }

  lemma {:induction false} RunKeeps(s: Service, events: seq<Event>)
    requires ServiceInv(s) && Valid(s, events)
    ensures ServiceInv(Run(s, events))
  {
    if events != [] {
      RunKeeps(s, events[..|events| - 1]);
      StepKeeps(Run(s, events[..|events| - 1]), events[|events| - 1]);
    }
  }

  lemma ReachableHolds(s: Service)
    requires Reachable(s)
    ensures ServiceInv(s)
  {
    var events :| Valid(FRESH, events) && s == Run(FRESH, events);
    FreshHolds();
    RunKeeps(FRESH, events);
  }

  // -- Theorems ----------------------------------------------------------------

  /**
   * Under every interleaving, with cache entries lost and an arbitrary counter: never two rows for one (room, sequence)
   * or one (room, client id), one MessageSent event per committed row and none besides, and watermarks that are the
   * highest of everyone's own rows and reads.
   */
  lemma ExactlyOncePersistence(s: Service)
    requires Reachable(s)
    ensures forall i, j :: 0 <= i < j < |s.db.rows| && s.db.rows[i].message.room == s.db.rows[j].message.room ==>
              && s.db.rows[i].message.sequence != s.db.rows[j].message.sequence
              && (s.db.rows[j].message.clientId.Some? ==>
                    s.db.rows[i].message.clientId != s.db.rows[j].message.clientId)
    ensures |s.db.events| == |s.db.rows|
    ensures forall i :: 0 <= i < |s.db.rows| ==>
              var e, r := s.db.events[i], s.db.rows[i];
              && e.messageId == r.id && e.room == r.message.room && e.sequence == r.message.sequence
              && e.sender == r.message.sender && e.preview == Preview(r.message.content)
    ensures WatermarksTrue(s.db)
  {
    ReachableHolds(s);
    forall i, j | 0 <= i < j < |s.db.rows| && s.db.rows[i].message.room == s.db.rows[j].message.room
      ensures s.db.rows[i].message.sequence != s.db.rows[j].message.sequence
      ensures s.db.rows[j].message.clientId.Some? ==> s.db.rows[i].message.clientId != s.db.rows[j].message.clientId
    {
      assert !Clash(s.db.rows[i], s.db.rows[j].message);
    }
  }

  /** One step of the database alone: nothing, one atomic send with its answer, or one markRead. */
  ghost predicate IsDatabaseStep(s: Service, s': Service) {
    || (s'.log == s.log && s'.db == s.db)
    || (exists e: Entry :: s'.log == s.log + [e] && RoomStore.Send(s.db, e.m, e.id) == Sent(s'.db, e.answer))
    || (s'.log == s.log && exists reader, upTo :: s'.db == RoomStore.MarkRead(s.db, reader, upTo))
  }

  lemma DecideIsSend(s: Service, c: CallId, m: Message, id: nat, answer: Answer)
    requires RoomStore.Send(s.db, m, id) == Sent(s.db, answer)
    ensures IsDatabaseStep(s, s.Decide(c, m, id, answer))
  {
    assert s.Decide(c, m, id, answer).log == s.log + [Entry(m, id, answer)];
  }

  /**
   * The service refines the database alone: each step either decides no answer and leaves the tables alone, or decides
   * one answer, which is the answer of one atomic send on the tables as they are, and changes the tables as that send
   * does, or is one markRead.
   */
  lemma StepRefinesDatabase(s: Service, ev: Event)
    requires Reachable(s) && Enabled(s, ev)
    ensures IsDatabaseStep(s, Step(s, ev))
  {
    ReachableHolds(s);
    match ev
    case LookDb(c) =>
      var call := s.CallOf(c);
      assert CallOk(s, call);
      CachedLookupExact(s.db, call.m, call.hit);
      if Seen(s.db, call.m, call.hit).Some? {
        DecideIsSend(s, c, call.m, 0, Duplicate(Seen(s.db, call.m, call.hit).value));
      }
    case Persist(c, id) =>
      var m := s.CallOf(c).m;
      if !Violates(s.db.rows, m) {
        NotPersisted(s.db.rows, m);
        assert Step(s, ev).log == s.log + [Entry(m, id, Accepted(id, m.sequence, false))];
      }
    case Resolve(c) =>
      assert CallOk(s, s.CallOf(c));
      DecideIsSend(s, c, s.CallOf(c).m, 0, RoomStore.Send(s.db, s.CallOf(c).m, 0).answer);
    case _ =>
  }

  /** A watermark never moves back, whatever the replicas and the readers do. */
  lemma {:induction false} WatermarksOnlyAdvance(s: Service, events: seq<Event>, reader: Reader)
    requires reader in s.db.watermarks
    ensures reader in Run(s, events).db.watermarks && Run(s, events).db.watermarks[reader] >= s.db.watermarks[reader]
  {
    if events != [] {
      WatermarksOnlyAdvance(s, events[..|events| - 1], reader);
      StepAdvances(Run(s, events[..|events| - 1]), events[|events| - 1], reader);
    }
  }

  lemma StepAdvances(s: Service, ev: Event, reader: Reader)
    requires reader in s.db.watermarks
    ensures reader in Step(s, ev).db.watermarks && Step(s, ev).db.watermarks[reader] >= s.db.watermarks[reader]
  {
  }

  /** After a logged answer the row it names is there, for good. */
  lemma {:induction false} AnsweredRowStays(log: seq<Entry>, k: nat)
    requires AnswersTrue(log) && k < |log| && log[k].answer.Accepted? && log[k].m.clientId.Some?
    ensures var row := FindByClient(Replay(log).rows, log[k].m.room, log[k].m.clientId.value);
            row.Some? && row.value.id == log[k].answer.id && row.value.message.sequence == log[k].answer.sequence
  {
    var before, last := log[..|log| - 1], log[|log| - 1];
    var db := Replay(before);
    if k < |before| {
      AnsweredRowStays(before, k);
      if Replay(log) != db {
        FindByClientPrefix(db.rows, [Row(last.id, last.m)], log[k].m.room, log[k].m.clientId.value);
      }
    } else if Persisted(db.rows, last.m).None? {
      FindByClientLast(db.rows, Row(last.id, last.m), last.m.clientId.value);
    }
  }

  lemma {:induction false} FindByClientLast(rows: seq<Row>, row: Row, clientId: nat)
    requires FindByClient(rows, row.message.room, clientId).None? && row.message.clientId == Some(clientId)
    ensures FindByClient(rows + [row], row.message.room, clientId) == Some(row)
  {
    if rows != [] {
      assert rows[0] in rows;
      assert (rows + [row])[1..] == rows[1..] + [row];
      FindByClientLast(rows[1..], row, clientId);
    }
  }

  lemma {:induction false} AnswersTruePrefix(log: seq<Entry>, k: nat)
    requires AnswersTrue(log) && k < |log|
    ensures AnswersTrue(log[..k]) && log[k].answer == RoomStore.Send(Replay(log[..k]), log[k].m, log[k].id).answer
  {
    if k < |log| - 1 {
      AnswersTruePrefix(log[..|log| - 1], k);
      assert log[..|log| - 1][..k] == log[..k];
    }
  }

  predicate SameMessage(m: Message, n: Message) {
    m.clientId.Some? && n.clientId == m.clientId && n.room == m.room
  }

  /**
   * All ok answers for one (room, client id) name the same row id and sequence, and once one was given every later
   * answer is ok and says duplicate: at most one answer has duplicate = false.
   */
  lemma AnswersAgree(s: Service, i: nat, j: nat)
    requires Reachable(s) && i < j < |s.log| && SameMessage(s.log[i].m, s.log[j].m) && s.log[i].answer.Accepted?
    ensures s.log[j].answer == Accepted(s.log[i].answer.id, s.log[i].answer.sequence, true)
  {
    ReachableHolds(s);
    AnswersTruePrefix(s.log, j);
    AnsweredRowStays(s.log[..j], i);
  }

  /** Every row is what some send that was told duplicate = false committed. */
  lemma {:induction false} RowsAreFreshAnswers(log: seq<Entry>, r: Row) returns (k: nat)
    requires AnswersTrue(log) && r in Replay(log).rows
    ensures k < |log| && log[k] == Entry(r.message, r.id, Accepted(r.id, r.message.sequence, false))
  {
    var before, last := log[..|log| - 1], log[|log| - 1];
    if r in Replay(before).rows {
      k := RowsAreFreshAnswers(before, r);
    } else {
      k := |log| - 1;
    }
  }
}
