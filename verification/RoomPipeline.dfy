/**
 * sendDraft of MessageService.java as any number of replicas run it: look in the cache, look in the database, allocate
 * a sequence number, persist, and either mark the cache or resolve the index violation. Steps of different calls
 * interleave freely, the cache loses entries at any moment, the counter answers any number, and a replica may die
 * between steps.
 */
module RoomPipeline {
  import opened Wrappers
  import opened RoomStore

  type CallId = nat

  datatype CacheKey = CacheKey(room: nat, clientId: nat)

  datatype Call =
    | Gone
    | Begun(m: Message)                      // accepted for sending, sequence not yet allocated
    | Looked(m: Message, hit: Option<nat>)   // has asked the cache
    | Missed(m: Message)                     // neither the cache nor the database knows the client id
    | Allocated(m: Message)                  // has its sequence number
    | Refused(m: Message)                    // an index refused the insert
    | Inserted(row: Row, entry: nat)         // committed, about to mark the cache
    | Answered(entry: nat)                   // about to return

  /** One send as the database saw it, and the answer it earned. */
  datatype Entry = Entry(m: Message, id: nat, answer: Answer)

  datatype Service = Service(
    db: Db,
    cache: map<CacheKey, nat>,
    calls: map<CallId, Call>,
    log: seq<Entry>,          // when each answer was decided
    returned: set<nat>)       // which answers reached the caller
  {
    function CallOf(c: CallId): Call {
      if c in calls then calls[c] else Gone
    }

    function With(c: CallId, call: Call): Service {
      this.(calls := calls[c := call])
    }

    /** The call's answer is decided. */
    function Decide(c: CallId, m: Message, id: nat, answer: Answer): Service {
      this.(log := log + [Entry(m, id, answer)], calls := calls[c := Answered(|log|)])
    }
  }

  const FRESH: Service := Service(EMPTY, map[], map[], [], {})

  datatype Event =
    | Begin(call: CallId, m: Message)
    | LookCache(call: CallId, lost: bool)
    | LookDb(call: CallId)
    | Allocate(call: CallId, sequence: int)
    | Persist(call: CallId, id: nat)
    | Resolve(call: CallId)
    | Mark(call: CallId, lost: bool)
    | Return(call: CallId)
    | Die(call: CallId)
    | Evict(key: CacheKey)
    | MarkRead(reader: Reader, upTo: Option<int>)

  ghost predicate Enabled(s: Service, ev: Event) {
    match ev
    case Begin(c, m) => s.CallOf(c).Gone?
    case LookCache(c, lost) => s.CallOf(c).Begun?
    case LookDb(c) => s.CallOf(c).Looked?
    case Allocate(c, _) => s.CallOf(c).Missed?
    case Persist(c, id) => s.CallOf(c).Allocated? && FindById(s.db.rows, id).None?
    case Resolve(c) => s.CallOf(c).Refused?
    case Mark(c, lost) => s.CallOf(c).Inserted?
    case Return(c) => s.CallOf(c).Answered?
    case Die(c) => true
    case Evict(key) => true
    case MarkRead(_, _) => true
  }

  function KeyOf(m: Message): CacheKey
    requires m.clientId.Some?
  {
    CacheKey(m.room, m.clientId.value)
  }

  /** The cached id, followed to a row of this room, or else the database's own lookup. */
  function Seen(db: Db, m: Message, hit: Option<nat>): Option<Row> {
    if m.clientId.None? then None
    else
      var cached := if hit.Some? then FindById(db.rows, hit.value) else None;
      if cached.Some? && cached.value.message.room == m.room then cached
      else FindByClient(db.rows, m.room, m.clientId.value)
  }

  function LookCacheStep(s: Service, c: CallId, m: Message, lost: bool): Service {
    var hit := if !lost && m.clientId.Some? && KeyOf(m) in s.cache then Some(s.cache[KeyOf(m)]) else None;
    s.With(c, Looked(m, hit))
  }

  function LookDbStep(s: Service, c: CallId, m: Message, hit: Option<nat>): Service {
    match Seen(s.db, m, hit)
    case Some(r) => s.Decide(c, m, 0, Duplicate(r))
    case None => s.With(c, Missed(m))
  }

  function PersistStep(s: Service, c: CallId, m: Message, id: nat): Service {
    if Violates(s.db.rows, m) then s.With(c, Refused(m))
    else
      s.(db := Insert(s.db, m, id), log := s.log + [Entry(m, id, Accepted(id, m.sequence, false))])
       .With(c, Inserted(Row(id, m), |s.log|))
  }

  /** After the rollback: the row that won the race, or a failed send. */
  function ResolveStep(s: Service, c: CallId, m: Message): Service {
    match Persisted(s.db.rows, m)
    case Some(r) => s.Decide(c, m, 0, Duplicate(r))
    case None => s.Decide(c, m, 0, Failed)
  }

  /** First writer wins; the answer was decided when the row was committed. */
  function MarkStep(s: Service, c: CallId, row: Row, entry: nat, lost: bool): Service {
    var m := row.message;
    var cache :=
      if lost || m.clientId.None? || KeyOf(m) in s.cache then s.cache else s.cache[KeyOf(m) := row.id];
    s.(cache := cache).With(c, Answered(entry))
  }

  function ReturnStep(s: Service, c: CallId, entry: nat): Service {
    s.(returned := s.returned + {entry}).With(c, Gone)
  }

  function Step(s: Service, ev: Event): Service {
    match ev
    case Begin(c, m) => s.With(c, Begun(m))
    case LookCache(c, lost) => (match s.CallOf(c) case Begun(m) => LookCacheStep(s, c, m, lost) case _ => s)
    case LookDb(c) => (match s.CallOf(c) case Looked(m, hit) => LookDbStep(s, c, m, hit) case _ => s)
    case Allocate(c, sequence) =>
      (match s.CallOf(c) case Missed(m) => s.With(c, Allocated(m.(sequence := sequence))) case _ => s)
    case Persist(c, id) => (match s.CallOf(c) case Allocated(m) => PersistStep(s, c, m, id) case _ => s)
    case Resolve(c) => (match s.CallOf(c) case Refused(m) => ResolveStep(s, c, m) case _ => s)
    case Mark(c, lost) => (match s.CallOf(c) case Inserted(row, entry) => MarkStep(s, c, row, entry, lost) case _ => s)
    case Return(c) => (match s.CallOf(c) case Answered(k) => ReturnStep(s, c, k) case _ => s)
    case Die(c) => s.With(c, Gone)
    case Evict(key) => s.(cache := s.cache - {key})
    case MarkRead(reader, upTo) => s.(db := RoomStore.MarkRead(s.db, reader, upTo))
  }

  function Run(s: Service, events: seq<Event>): Service {
    if events == [] then s else Step(Run(s, events[..|events| - 1]), events[|events| - 1])
  }

  ghost predicate Valid(s: Service, events: seq<Event>) {
    events != [] ==>
      Valid(s, events[..|events| - 1]) && Enabled(Run(s, events[..|events| - 1]), events[|events| - 1])
  }
}
