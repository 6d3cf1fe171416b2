/** The message tables of one room module, the transaction that persists a message, and a send on them alone. */
module RoomStore {
  import opened Wrappers

  // MessagePersistence.java over the repositories of ChatroomRepositories.java; and the specification of a send on the
  // database alone, with no cache in it.

  datatype Content = Text(body: string) | Image | Audio | File(name: Option<string>) | Location

  datatype Message = Message(room: nat, sender: nat, content: Content, sequence: int, clientId: Option<nat>)

  datatype Row = Row(id: nat, message: Message)

  datatype SentEvent = SentEvent(room: nat, messageId: nat, sequence: int, sender: nat, preview: string)

  datatype Reader = Reader(user: nat, room: nat)

  /** One committed markRead, which is also the MessageRead event it publishes. */
  datatype ReadEvent = ReadEvent(reader: Reader, upTo: int)

  datatype Db = Db(rows: seq<Row>, watermarks: map<Reader, int>, events: seq<SentEvent>, marks: seq<ReadEvent>)

  const EMPTY: Db := Db([], map[], [], [])

  const PREVIEW_LENGTH: nat := 120

  function Preview(c: Content): string {
    match c
    case Text(body) => if |body| > PREVIEW_LENGTH then body[..PREVIEW_LENGTH] + "\U{2026}" else body
    case Image => "\U{1F4F7} Photo"
    case Audio => "\U{1F3A4} Voice message"
    case File(name) => "\U{1F4CE} " + if name.Some? then name.value else "File"
    case Location => "\U{1F4CD} Location"
  }

  function EventOf(r: Row): SentEvent {
    SentEvent(r.message.room, r.id, r.message.sequence, r.message.sender, Preview(r.message.content))
  }

  /** A text of up to 120 characters is its own preview, and a longer one is cut there and marked with an ellipsis. */
  lemma PreviewCuts(body: string)
    ensures var p := Preview(Text(body));
            if |body| <= 120 then p == body else |p| == 121 && p[..120] == body[..120] && p[120] == '\U{2026}'
  {
  }

  /** The two unique indexes: a taken sequence slot, or a client id already used in the room. */
  predicate Clash(r: Row, m: Message) {
    r.message.room == m.room
    && (r.message.sequence == m.sequence || (m.clientId.Some? && r.message.clientId == m.clientId))
  }

  predicate Violates(rows: seq<Row>, m: Message) {
    exists i :: 0 <= i < |rows| && Clash(rows[i], m)
  }

  function Advanced(watermarks: map<Reader, int>, reader: Reader, sequence: int): map<Reader, int> {
    watermarks[reader := if reader in watermarks && watermarks[reader] > sequence then watermarks[reader] else sequence]
  }

  function Insert(db: Db, m: Message, id: nat): Db {
    var row := Row(id, m);
    Db(db.rows + [row], Advanced(db.watermarks, Reader(m.sender, m.room), m.sequence), db.events + [EventOf(row)],
       db.marks)
  }

  /** coalesce(max(sequence), 0) over the rows of a room. */
  function MaxSequence(rows: seq<Row>, room: nat): (max: int)
    ensures forall r :: r in rows && r.message.room == room ==> r.message.sequence <= max
    ensures (exists r :: r in rows && r.message.room == room && r.message.sequence == max)
            || (max == 0 && forall r :: r in rows ==> r.message.room != room)
  {
    if rows == [] then 0
    else
      var last, rest := rows[|rows| - 1], MaxSequence(rows[..|rows| - 1], room);
      assert rows == rows[..|rows| - 1] + [last];
      if last.message.room != room then rest
      else if (exists r :: r in rows[..|rows| - 1] && r.message.room == room) && rest > last.message.sequence then rest
      else last.message.sequence
  }

  /** Reading up to a sequence, or up to the latest. */
  function MarkRead(db: Db, reader: Reader, upTo: Option<int>): Db {
    var mark := if upTo.Some? then upTo.value else MaxSequence(db.rows, reader.room);
    db.(watermarks := Advanced(db.watermarks, reader, mark), marks := db.marks + [ReadEvent(reader, mark)])
  }

  predicate IsKeyed(r: Row, room: nat, clientId: nat) {
    r.message.room == room && r.message.clientId == Some(clientId)
  }

  function FindByClient(rows: seq<Row>, room: nat, clientId: nat): (found: Option<Row>)
    ensures found.Some? ==> found.value in rows && IsKeyed(found.value, room, clientId)
    ensures found.None? ==> forall r :: r in rows ==> !IsKeyed(r, room, clientId)
  {
    if rows == [] then None
    else if IsKeyed(rows[0], room, clientId) then Some(rows[0])
    else FindByClient(rows[1..], room, clientId)
  }

  function FindById(rows: seq<Row>, id: nat): (found: Option<Row>)
    ensures found.Some? ==> found.value in rows && found.value.id == id
    ensures found.None? ==> forall r :: r in rows ==> r.id != id
  {
    if rows == [] then None
    else if rows[0].id == id then Some(rows[0])
    else FindById(rows[1..], id)
  }

  // -- What the tables always satisfy ------------------------------------------

  /** At most one row per (room, sequence) and per (room, client id), and every row has its own id. */
  predicate Unique(rows: seq<Row>) {
    forall i, j :: 0 <= i < j < |rows| ==> rows[i].id != rows[j].id && !Clash(rows[i], rows[j].message)
  }

  /** Committed rows and MessageSent events correspond one to one, in order. */
  predicate EventPerRow(db: Db) {
    |db.events| == |db.rows| && forall i :: 0 <= i < |db.rows| ==> db.events[i] == EventOf(db.rows[i])
  }

  predicate OwnRow(r: Row, reader: Reader) {
    r.message.sender == reader.user && r.message.room == reader.room
  }

  /** A sequence one has read up to: one's own row, or a committed markRead. */
  ghost predicate HasRead(db: Db, reader: Reader, sequence: int) {
    || (exists r :: r in db.rows && OwnRow(r, reader) && r.message.sequence == sequence)
    || ReadEvent(reader, sequence) in db.marks
  }

  /** The highest sequence one has read up to. */
  ghost predicate IsHighest(db: Db, reader: Reader, sequence: int) {
    HasRead(db, reader, sequence) && forall other: int :: HasRead(db, reader, other) ==> other <= sequence
  }

  /** Everyone who sent or read has a watermark, and it is the highest sequence of one's own rows and reads. */
  ghost predicate WatermarksTrue(db: Db) {
    && (forall reader, sequence: int :: HasRead(db, reader, sequence) ==> reader in db.watermarks)
    && (forall reader :: reader in db.watermarks ==> IsHighest(db, reader, db.watermarks[reader]))
  }

  ghost predicate DbOk(db: Db) {
    Unique(db.rows) && EventPerRow(db) && WatermarksTrue(db)
  }

  lemma InsertUnique(rows: seq<Row>, m: Message, id: nat)
    requires Unique(rows) && !Violates(rows, m) && FindById(rows, id).None?
    ensures Unique(rows + [Row(id, m)])
  {
    var more := rows + [Row(id, m)];
    forall i, j | 0 <= i < j < |more|
      ensures more[i].id != more[j].id && !Clash(more[i], more[j].message)
    {
      if j == |rows| {
        assert rows[i] in rows;
      }
    }
  }

  /** One more sequence read up to, and the watermark advanced to it. */
  lemma AdvanceTrue(db: Db, db': Db, reader: Reader, sequence: int)
    requires WatermarksTrue(db) && db'.watermarks == Advanced(db.watermarks, reader, sequence)
    requires forall other, n: int :: HasRead(db', other, n) <==>
               HasRead(db, other, n) || (other == reader && n == sequence)
    ensures WatermarksTrue(db')
  {
    forall other | other in db'.watermarks
      ensures IsHighest(db', other, db'.watermarks[other])
    {
      if other in db.watermarks {
        assert IsHighest(db, other, db.watermarks[other]);
      }
    }
  }

  lemma InsertReads(db: Db, m: Message, id: nat, other: Reader, n: int)
    ensures HasRead(Insert(db, m, id), other, n) <==>
              HasRead(db, other, n) || (other == Reader(m.sender, m.room) && n == m.sequence)
  {
    var db', row := Insert(db, m, id), Row(id, m);
    if HasRead(db, other, n) && ReadEvent(other, n) !in db.marks {
      var r :| r in db.rows && OwnRow(r, other) && r.message.sequence == n;
      assert r in db'.rows;
    }
    assert row in db'.rows;
  }

  lemma InsertWatermarks(db: Db, m: Message, id: nat)
    requires WatermarksTrue(db)
    ensures WatermarksTrue(Insert(db, m, id))
  {
    forall other, n: int
      ensures HasRead(Insert(db, m, id), other, n) <==>
                HasRead(db, other, n) || (other == Reader(m.sender, m.room) && n == m.sequence)
    {
      InsertReads(db, m, id, other, n);
    }
    AdvanceTrue(db, Insert(db, m, id), Reader(m.sender, m.room), m.sequence);
  }

  /** The sequence is the highest of the room, or 0 for an empty room. */
  ghost predicate IsLatestSequence(rows: seq<Row>, room: nat, sequence: int) {
    && (forall r :: r in rows && r.message.room == room ==> r.message.sequence <= sequence)
    && ((exists r :: r in rows && r.message.room == room && r.message.sequence == sequence)
        || (sequence == 0 && forall r :: r in rows ==> r.message.room != room))
  }

  /**
   * markRead keeps the tables true: the one new event says up to where, which is what was asked or else the latest, the
   * reader's watermark is at least there and never behind where it was, and nothing else changes.
   */
  lemma MarkReadKeeps(db: Db, reader: Reader, upTo: Option<int>)
    requires DbOk(db)
    ensures DbOk(MarkRead(db, reader, upTo))
    ensures var db' := MarkRead(db, reader, upTo);
            && db'.rows == db.rows && db'.events == db.events && |db'.marks| == |db.marks| + 1 && db.marks <= db'.marks
            && var mark := db'.marks[|db.marks|];
            && mark.reader == reader
            && (if upTo.Some? then mark.upTo == upTo.value else IsLatestSequence(db.rows, reader.room, mark.upTo))
            && db'.watermarks - {reader} == db.watermarks - {reader} && reader in db'.watermarks
            && db'.watermarks[reader] >= mark.upTo
            && (reader !in db.watermarks || db.watermarks[reader] <= mark.upTo ==> db'.watermarks[reader] == mark.upTo)
            && (reader in db.watermarks && db.watermarks[reader] > mark.upTo ==>
                  db'.watermarks[reader] == db.watermarks[reader])
  {
    var db' := MarkRead(db, reader, upTo);
    AdvanceTrue(db, db', reader, db'.marks[|db.marks|].upTo);
  }

  lemma InsertKeeps(db: Db, m: Message, id: nat)
    requires DbOk(db) && !Violates(db.rows, m) && FindById(db.rows, id).None?
    ensures DbOk(Insert(db, m, id))
  {
    InsertUnique(db.rows, m, id);
    InsertWatermarks(db, m, id);
  }

  // -- A send on the database alone --------------------------------------------

  datatype Answer = Accepted(id: nat, sequence: int, duplicate: bool) | Failed

  datatype Sent = Sent(db: Db, answer: Answer)

  function Duplicate(r: Row): Answer {
    Accepted(r.id, r.message.sequence, true)
  }

  /** The row this message was persisted as, if it carries a client id that the room already has. */
  function Persisted(rows: seq<Row>, m: Message): Option<Row> {
    if m.clientId.None? then None else FindByClient(rows, m.room, m.clientId.value)
  }

  /** One atomic send: an already persisted message is answered, a free slot is filled, a taken slot fails. */
  function Send(db: Db, m: Message, id: nat): Sent {
    match Persisted(db.rows, m)
    case Some(r) => Sent(db, Duplicate(r))
    case None =>
      if Violates(db.rows, m) then Sent(db, Failed) else Sent(Insert(db, m, id), Accepted(id, m.sequence, false))
  }

  /** A message without a client id is never taken for a duplicate: each send of it is a row of its own, or fails. */
  lemma NamelessIsNeverAbsorbed(db: Db, m: Message, id: nat)
    requires m.clientId.None?
    ensures var sent := Send(db, m, id);
            if sent.answer.Accepted? then !sent.answer.duplicate && sent.db.rows == db.rows + [Row(id, m)]
            else sent.db == db
  {
  }

  // -- The tables as they are changed in place ---------------------------------

  class MessageDb {
    var rows: seq<Row>
    var watermarks: map<Reader, int>
    var events: seq<SentEvent>
    var marks: seq<ReadEvent>

    ghost function Value(): Db
      reads this
    {
      Db(rows, watermarks, events, marks)
    }

    constructor ()
      ensures Value() == EMPTY
    {
      rows, watermarks, events, marks := [], map[], [], [];
    }

    /** An insert under both unique indexes. */
    method Save(m: Message, id: nat) returns (saved: Option<Row>)
      modifies `rows
      ensures saved.None? <==> Violates(old(rows), m)
      ensures saved.None? ==> rows == old(rows)
      ensures saved.Some? ==> saved == Some(Row(id, m)) && rows == old(rows) + [Row(id, m)]
    {
      var i := 0;
      while i < |rows|
        invariant 0 <= i <= |rows|
        invariant forall k :: 0 <= k < i ==> !Clash(rows[k], m)
      {
        if Clash(rows[i], m) {
          return None;
        }
        i := i + 1;
      }
      rows := rows + [Row(id, m)];
      saved := Some(Row(id, m));
    }

    method Advance(reader: Reader, sequence: int)
      modifies `watermarks
      ensures watermarks == Advanced(old(watermarks), reader, sequence)
    {
      if reader !in watermarks || watermarks[reader] <= sequence {
        watermarks := watermarks[reader := sequence];
      } else {
        assert watermarks == watermarks[reader := watermarks[reader]];
      }
    }

    /** Row, watermark and event commit together, or a violated index rolls all of it back. */
    method Persist(m: Message, id: nat) returns (saved: Option<Row>)
      modifies this
      ensures saved == if Violates(old(rows), m) then None else Some(Row(id, m))
      ensures Value() == if saved.None? then old(Value()) else Insert(old(Value()), m, id)
    {
      saved := Save(m, id);
      if saved.Some? {
        Advance(Reader(m.sender, m.room), m.sequence);
        events := events + [EventOf(saved.value)];
      }
    }

    /** coalesce(max(sequence), 0) of the room. */
    method LatestSequence(room: nat) returns (max: int)
      ensures max == MaxSequence(rows, room)
    {
      max := 0;
      var found := false;
      for i := 0 to |rows|
        invariant max == MaxSequence(rows[..i], room)
        invariant found <==> exists r :: r in rows[..i] && r.message.room == room
      {
        assert rows[..i + 1][..i] == rows[..i] && rows[..i + 1] == rows[..i] + [rows[i]];
        if rows[i].message.room == room {
          assert rows[i] in rows[..i + 1];
          if !found || max <= rows[i].message.sequence {
            max := rows[i].message.sequence;
          }
          found := true;
        }
      }
      assert rows[..|rows|] == rows;
    }

    /** Reading up to a sequence (the latest by default): the watermark advances and the event commits with it. */
    method Read(reader: Reader, upTo: Option<int>)
      modifies `watermarks, `marks
      ensures Value() == MarkRead(old(Value()), reader, upTo)
    {
      var mark;
      if upTo.Some? {
        mark := upTo.value;
      } else {
        mark := LatestSequence(reader.room);
      }
      Advance(reader, mark);
      marks := marks + [ReadEvent(reader, mark)];
    }

    method FindClient(room: nat, clientId: nat) returns (found: Option<Row>)
      ensures found == FindByClient(rows, room, clientId)
    {
      var i := 0;
      while i < |rows|
        invariant 0 <= i <= |rows|
        invariant FindByClient(rows, room, clientId) == FindByClient(rows[i..], room, clientId)
      {
        if IsKeyed(rows[i], room, clientId) {
          return Some(rows[i]);
        }
        i := i + 1;
      }
      found := None;
    }

    method FindRow(id: nat) returns (found: Option<Row>)
      ensures found == FindById(rows, id)
    {
      var i := 0;
      while i < |rows|
        invariant 0 <= i <= |rows|
        invariant FindById(rows, id) == FindById(rows[i..], id)
      {
        if rows[i].id == id {
          return Some(rows[i]);
        }
        i := i + 1;
      }
      found := None;
    }
  }
}
