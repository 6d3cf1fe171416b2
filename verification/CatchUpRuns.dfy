/**
 * Catch-up over the running room pipeline: which late rows a client misses, and which states of the pipeline rule them
 * out.
 */
module CatchUpRuns {
  import opened Wrappers
  import S = RoomStore
  import P = RoomPipeline
  import T = RoomTheorems
  import C = CatchUp

  // -- A room's rows in the order of their sequences ---------------------------

  function Placed(rows: seq<C.Message>, m: C.Message): seq<C.Message> {
    var n := |rows|;
    if n == 0 || rows[n - 1].sequence < m.sequence then rows + [m] else Placed(rows[..n - 1], m) + [rows[n - 1]]
  }

  function AsMessage(r: S.Row): C.Message {
    C.Message(r.message.sequence, r.id)
  }

  function RoomRows(rows: seq<S.Row>, room: nat): seq<C.Message> {
    if rows == [] then []
    else
      var before, last := RoomRows(rows[..|rows| - 1], room), rows[|rows| - 1];
      if last.message.room == room then Placed(before, AsMessage(last)) else before
  }

  lemma {:induction false} PlacedIs(rows: seq<C.Message>, m: C.Message)
    requires C.Ascending(rows) && forall r :: r in rows ==> r.sequence != m.sequence
    ensures C.Ascending(Placed(rows, m)) && forall x :: x in Placed(rows, m) <==> x in rows || x == m
  {
    var n := |rows|;
    if n > 0 && rows[n - 1].sequence >= m.sequence {
      var placed := Placed(rows[..n - 1], m);
      PlacedIs(rows[..n - 1], m);
      assert rows[n - 1] in rows && rows == rows[..n - 1] + [rows[n - 1]];
      EndsAbove(placed, rows[n - 1]);
    }
  }

  lemma EndsAbove(rows: seq<C.Message>, last: C.Message)
    requires C.Ascending(rows) && forall r :: r in rows ==> r.sequence < last.sequence
    ensures C.Ascending(rows + [last])
  {
  }

  predicate IsRowOf(rows: seq<S.Row>, room: nat, m: C.Message) {
    exists r :: r in rows && r.message.room == room && AsMessage(r) == m
  }

  lemma {:induction false} RoomRowsAre(rows: seq<S.Row>, room: nat)
    requires S.Unique(rows)
    ensures C.Ascending(RoomRows(rows, room))
    ensures forall m :: m in RoomRows(rows, room) <==> IsRowOf(rows, room, m)
  {
    if rows != [] {
      var n := |rows| - 1;
      RoomRowsAre(rows[..n], room);
      LastIsNew(rows, room);
      if rows[n].message.room == room {
        PlacedIs(RoomRows(rows[..n], room), AsMessage(rows[n]));
      }
      forall m
        ensures IsRowOf(rows, room, m) <==>
                IsRowOf(rows[..n], room, m) || (rows[n].message.room == room && AsMessage(rows[n]) == m)
      {
        assert rows == rows[..n] + [rows[n]];
      }
    }
  }

  /** The last row's sequence is not among the room's rows before it. */
  lemma LastIsNew(rows: seq<S.Row>, room: nat)
    requires S.Unique(rows) && rows != []
    ensures var last := rows[|rows| - 1];
            last.message.room == room ==>
              forall m :: IsRowOf(rows[..|rows| - 1], room, m) ==> m.sequence != last.message.sequence
  {
    var n := |rows| - 1;
    forall m | rows[n].message.room == room && IsRowOf(rows[..n], room, m)
      ensures m.sequence != rows[n].message.sequence
    {
      var r :| r in rows[..n] && r.message.room == room && AsMessage(r) == m;
      var i :| 0 <= i < n && rows[i] == r;
      assert !S.Clash(rows[i], rows[n].message);
    }
  }

  // -- When nothing can come below a cursor any more ---------------------------

  /** The call holds no sequence number of the room, at or below the cursor, that it could still fill. */
  predicate CannotFill(s: P.Service, call: P.Call, room: nat, cursor: int) {
    call.Allocated? && call.m.room == room && call.m.sequence <= cursor ==> S.Violates(s.db.rows, call.m)
  }

  ghost predicate Settled(s: P.Service, room: nat, cursor: int) {
    forall c: P.CallId :: CannotFill(s, s.CallOf(c), room, cursor)
  }

  /** The counter gives the room no number at or below the cursor. */
  predicate AllocatesAbove(s: P.Service, ev: P.Event, room: nat, cursor: int) {
    ev.Allocate? && s.CallOf(ev.call).Missed? && s.CallOf(ev.call).m.room == room ==> ev.sequence > cursor
  }

  predicate OnlyAbove(s: P.Service, events: seq<P.Event>, room: nat, cursor: int) {
    events != [] ==>
      && OnlyAbove(s, events[..|events| - 1], room, cursor)
      && AllocatesAbove(P.Run(s, events[..|events| - 1]), events[|events| - 1], room, cursor)
  }

  /** The tables grew, in this room only above the cursor. */
  predicate GrewAbove(rows: seq<S.Row>, rows': seq<S.Row>, room: nat, cursor: int) {
    rows <= rows' && forall i :: |rows| <= i < |rows'| && rows'[i].message.room == room ==>
      rows'[i].message.sequence > cursor
  }

  lemma ViolatedStays(rows: seq<S.Row>, rows': seq<S.Row>, m: S.Message)
    requires rows <= rows' && S.Violates(rows, m)
    ensures S.Violates(rows', m)
  {
    var i :| 0 <= i < |rows| && S.Clash(rows[i], m);
    assert rows'[i] == rows[i];
  }

  lemma StepSettled(s: P.Service, ev: P.Event, room: nat, cursor: int)
    requires Settled(s, room, cursor) && AllocatesAbove(s, ev, room, cursor)
    ensures Settled(P.Step(s, ev), room, cursor) && GrewAbove(s.db.rows, P.Step(s, ev).db.rows, room, cursor)
  {
    var s' := P.Step(s, ev);
    if ev.Persist? {
      assert CannotFill(s, s.CallOf(ev.call), room, cursor);
    }
    forall c: P.CallId
      ensures CannotFill(s', s'.CallOf(c), room, cursor)
    {
      assert CannotFill(s, s.CallOf(c), room, cursor);
      if s'.CallOf(c) == s.CallOf(c) && s.CallOf(c).Allocated? && S.Violates(s.db.rows, s.CallOf(c).m) {
        ViolatedStays(s.db.rows, s'.db.rows, s.CallOf(c).m);
      }
    }
  }

  lemma {:induction false} RunSettled(s: P.Service, events: seq<P.Event>, room: nat, cursor: int)
    requires Settled(s, room, cursor) && OnlyAbove(s, events, room, cursor)
    ensures Settled(P.Run(s, events), room, cursor) && GrewAbove(s.db.rows, P.Run(s, events).db.rows, room, cursor)
  {
    if events != [] {
      RunSettled(s, events[..|events| - 1], room, cursor);
      StepSettled(P.Run(s, events[..|events| - 1]), events[|events| - 1], room, cursor);
    }
  }

  lemma {:induction false} NewId(rows: seq<S.Row>) returns (id: nat)
    ensures forall r :: r in rows ==> r.id < id
  {
    if rows == [] {
      id := 0;
    } else {
      var rest := NewId(rows[1..]);
      id := if rows[0].id < rest then rest else rows[0].id + 1;
      assert forall r :: r in rows ==> r == rows[0] || r in rows[1..];
    }
  }

  /**
   * Nothing will ever come at or below a cursor, whatever the replicas go on to do, exactly when no call holds a number
   * there that it could fill; given that the counter itself answers only numbers above.
   */
  lemma SettledExactlyWhen(s: P.Service, room: nat, cursor: int)
    ensures Settled(s, room, cursor) <==>
            forall events :: P.Valid(s, events) && OnlyAbove(s, events, room, cursor) ==>
              GrewAbove(s.db.rows, P.Run(s, events).db.rows, room, cursor)
  {
    if Settled(s, room, cursor) {
      forall events | P.Valid(s, events) && OnlyAbove(s, events, room, cursor)
        ensures GrewAbove(s.db.rows, P.Run(s, events).db.rows, room, cursor)
      {
        RunSettled(s, events, room, cursor);
      }
    } else {
      var c: P.CallId :| !CannotFill(s, s.CallOf(c), room, cursor);
      FillsBelow(s, c, room, cursor);
    }
  }

  /** A call that holds a free number at or below the cursor may fill it. */
  lemma FillsBelow(s: P.Service, c: P.CallId, room: nat, cursor: int)
    requires !CannotFill(s, s.CallOf(c), room, cursor)
    ensures exists events :: P.Valid(s, events) && OnlyAbove(s, events, room, cursor)
                             && !GrewAbove(s.db.rows, P.Run(s, events).db.rows, room, cursor)
  {
    var id := NewId(s.db.rows);
    var events := [P.Persist(c, id)];
    assert events[..0] == [];
    assert P.Run(s, []) == s && P.Valid(s, []) && OnlyAbove(s, [], room, cursor);
    assert P.Enabled(s, events[0]);
    assert P.Valid(s, events) && OnlyAbove(s, events, room, cursor);
    var rows' := P.Run(s, events).db.rows;
    assert rows' == s.db.rows + [S.Row(id, s.CallOf(c).m)];
    assert rows'[|s.db.rows|].message.sequence <= cursor;
  }

  // -- A catch-up beside the running pipeline ----------------------------------

  /** The service as each page was answered, and what it did since the page before. */
  datatype Timeline = Timeline(states: seq<P.Service>, gaps: seq<seq<P.Event>>) {
    ghost predicate Valid() {
      && states != [] && |gaps| == |states| && T.Reachable(states[0])
      && forall k :: 0 <= k < |states| ==> Continues(k)
    }

    ghost predicate Continues(k: nat)
      requires k < |states| == |gaps|
    {
      k > 0 ==> P.Valid(states[k - 1], gaps[k]) && states[k] == P.Run(states[k - 1], gaps[k])
    }
  }

  /** The pages found the room as the service had it. */
  ghost predicate Watches(p: C.Pages, t: Timeline, room: nat) {
    |p.views| == |t.states| && forall k :: 0 <= k < |p.views| ==> p.views[k].rows == RoomRows(t.states[k].db.rows, room)
  }

  lemma {:induction false} ReachRun(s: P.Service, events: seq<P.Event>)
    requires T.Reachable(s) && P.Valid(s, events)
    ensures T.Reachable(P.Run(s, events)) && s.db.rows <= P.Run(s, events).db.rows
  {
    if events != [] {
      ReachRun(s, events[..|events| - 1]);
      ReachStep(P.Run(s, events[..|events| - 1]), events[|events| - 1]);
    }
  }

  lemma ReachStep(s: P.Service, ev: P.Event)
    requires T.Reachable(s) && P.Enabled(s, ev)
    ensures T.Reachable(P.Step(s, ev)) && s.db.rows <= P.Step(s, ev).db.rows
  {
    var events :| P.Valid(P.FRESH, events) && s == P.Run(P.FRESH, events);
    var more := events + [ev];
    assert more[..|more| - 1] == events;
    assert P.Valid(P.FRESH, more) && P.Step(s, ev) == P.Run(P.FRESH, more);
  }

  lemma {:induction false} TimelineReaches(t: Timeline, k: nat)
    requires t.Valid() && k < |t.states|
    ensures T.Reachable(t.states[k])
  {
    if k > 0 {
      TimelineReaches(t, k - 1);
      assert t.Continues(k);
      ReachRun(t.states[k - 1], t.gaps[k]);
    }
  }

  lemma StateRows(t: Timeline, room: nat, k: nat)
    requires t.Valid() && k < |t.states|
    ensures var rows := t.states[k].db.rows;
            && C.Ascending(RoomRows(rows, room))
            && (forall m :: m in RoomRows(rows, room) <==> IsRowOf(rows, room, m))
  {
    TimelineReaches(t, k);
    T.ReachableHolds(t.states[k]);
    RoomRowsAre(t.states[k].db.rows, room);
  }

  /** In every run of the pipeline rows are only added, anywhere. */
  lemma PipelineOnlyAdds(p: C.Pages, t: Timeline, room: nat)
    requires t.Valid() && Watches(p, t, room)
    ensures C.OnlyAdded(p.views)
  {
    forall k | 0 <= k < |p.views|
      ensures C.Ascending(p.views[k].rows) && C.KeepsRows(p.views, k)
    {
      StateRows(t, room, k);
      if k > 0 {
        StateRows(t, room, k - 1);
        TimelineReaches(t, k - 1);
        assert t.Continues(k);
        ReachRun(t.states[k - 1], t.gaps[k]);
        RowsStay(t.states[k - 1].db.rows, t.states[k].db.rows);
      }
    }
  }

  lemma RowsStay(rows: seq<S.Row>, rows': seq<S.Row>)
    requires rows <= rows'
    ensures forall r :: r in rows ==> r in rows'
  {
    forall r | r in rows
      ensures r in rows'
    {
      var i :| 0 <= i < |rows| && rows[i] == r;
      assert rows'[i] == r;
    }
  }

  /**
   * No call held a number at or below where a page ended when it was answered, and until the next page the counter gave
   * none out.
   */
  ghost predicate Calm(p: C.Pages, t: Timeline, room: nat)
    requires p.Valid() && |p.views| == |t.states| == |t.gaps|
  {
    forall k :: 0 < k < |p.answers| ==>
      Settled(t.states[k - 1], room, p.cursors[k]) && OnlyAbove(t.states[k - 1], t.gaps[k], room, p.cursors[k])
  }

  /**
   * Then the catch-up is complete: it has the first rows after lastSeq, and all of them if the last page has no more.
   */
  lemma CalmCatchUpIsComplete(p: C.Pages, t: Timeline, room: nat)
    requires C.Stopped(p) && t.Valid() && Watches(p, t, room) && Calm(p, t, room)
    ensures var all, later := C.Joined(p.answers), C.After(p.Room().rows, C.Clamped(p.lastSeq));
            all <= later && (!p.Last().more && !p.Last().denied ==> all == later)
  {
    PipelineOnlyAdds(p, t, room);
    forall m, k | 0 <= k < |p.answers|
      ensures !C.Overtaken(p, m, k)
    {
      if k > 0 && m in p.views[k].rows && m !in p.views[k - 1].rows {
        AddedIsAbove(p, t, room, k, m);
      }
    }
    C.CatchUpExactlyWhen(p);
  }

  lemma AddedIsAbove(p: C.Pages, t: Timeline, room: nat, k: nat, m: C.Message)
    requires p.Valid() && t.Valid() && Watches(p, t, room) && Calm(p, t, room) && 0 < k < |p.answers|
    requires m in p.views[k].rows && m !in p.views[k - 1].rows
    ensures m.sequence > p.cursors[k]
  {
    var rows, rows' := t.states[k - 1].db.rows, t.states[k].db.rows;
    StateRows(t, room, k - 1);
    StateRows(t, room, k);
    assert t.Continues(k);
    RunSettled(t.states[k - 1], t.gaps[k], room, p.cursors[k]);
    var r :| r in rows' && r.message.room == room && AsMessage(r) == m;
    var i :| 0 <= i < |rows'| && rows'[i] == r;
    OldRow(rows, rows', i);
  }

  lemma OldRow(rows: seq<S.Row>, rows': seq<S.Row>, i: nat)
    requires rows <= rows' && i < |rows'|
    ensures i < |rows| ==> rows'[i] in rows
  {
    assert i < |rows| ==> rows'[i] == rows[i];
  }

  // -- A run in which a row is missed ------------------------------------------

  function Picture(sequence: int): S.Message {
    S.Message(0, 0, S.Image, sequence, None)
  }

  /** A send is taken as far as its sequence number. */
  lemma Allocates(s: P.Service, c: P.CallId, sequence: int) returns (s': P.Service)
    requires T.Reachable(s) && s.CallOf(c).Gone?
    ensures T.Reachable(s') && s'.db == s.db && s'.CallOf(c) == P.Allocated(Picture(sequence))
    ensures forall b: P.CallId :: b != c ==> s'.CallOf(b) == s.CallOf(b)
  {
    ReachStep(s, P.Begin(c, Picture(0)));
    s' := P.Step(s, P.Begin(c, Picture(0)));
    ReachStep(s', P.LookCache(c, true));
    s' := P.Step(s', P.LookCache(c, true));
    ReachStep(s', P.LookDb(c));
    s' := P.Step(s', P.LookDb(c));
    ReachStep(s', P.Allocate(c, sequence));
    s' := P.Step(s', P.Allocate(c, sequence));
  }

  lemma Commits(s: P.Service, c: P.CallId, sequence: int, id: nat) returns (s': P.Service)
    requires T.Reachable(s) && s.CallOf(c) == P.Allocated(Picture(sequence))
    requires !S.Violates(s.db.rows, Picture(sequence)) && S.FindById(s.db.rows, id).None?
    ensures T.Reachable(s') && s'.db.rows == s.db.rows + [S.Row(id, Picture(sequence))]
    ensures forall b: P.CallId :: b != c ==> s'.CallOf(b) == s.CallOf(b)
  {
    ReachStep(s, P.Persist(c, id));
    s' := P.Step(s, P.Persist(c, id));
  }

  /** Call 0 is given 5 and does not commit yet; n others are given 6, 7, ... and commit in turn. */
  function Committed(n: nat): (rows: seq<S.Row>)
    ensures |rows| == n && forall i :: 0 <= i < n ==> rows[i] == S.Row(i, Picture(6 + i))
  {
    if n == 0 then [] else Committed(n - 1) + [S.Row(n - 1, Picture(5 + n))]
  }

  lemma {:induction false} ManyCommit(n: nat) returns (s: P.Service)
    ensures T.Reachable(s) && s.db.rows == Committed(n) && s.CallOf(0) == P.Allocated(Picture(5))
    ensures forall c: P.CallId :: c > n ==> s.CallOf(c).Gone?
  {
    if n == 0 {
      assert P.Valid(P.FRESH, []) && P.Run(P.FRESH, []) == P.FRESH;
      s := Allocates(P.FRESH, 0, 5);
    } else {
      s := ManyCommit(n - 1);
      s := Allocates(s, n, 5 + n);
      s := Commits(s, n, 5 + n, n - 1);
    }
  }

  /** The room's rows then: 6, 7, ... in order. */
  function InRoom(n: nat): (rows: seq<C.Message>)
    ensures |rows| == n && forall i :: 0 <= i < n ==> rows[i] == C.Message(6 + i, i)
  {
    if n == 0 then [] else InRoom(n - 1) + [C.Message(5 + n, n - 1)]
  }

  lemma {:induction false} CommittedInRoom(n: nat)
    ensures RoomRows(Committed(n), 0) == InRoom(n)
  {
    if n > 0 {
      CommittedInRoom(n - 1);
      OneMoreInRoom(Committed(n - 1), S.Row(n - 1, Picture(5 + n)));
      assert n > 1 ==> InRoom(n - 1)[n - 2].sequence < 5 + n;
    }
  }

  lemma OneMoreInRoom(rows: seq<S.Row>, row: S.Row)
    requires row.message.room == 0
    ensures RoomRows(rows + [row], 0) == Placed(RoomRows(rows, 0), AsMessage(row))
  {
    assert (rows + [row])[..|rows|] == rows;
  }

  /** And when 5 has committed after them: it comes first. */
  lemma LateInRoom(n: nat)
    ensures RoomRows(Committed(n) + [S.Row(n, Picture(5))], 0) == [C.Message(5, n)] + InRoom(n)
  {
    OneMoreInRoom(Committed(n), S.Row(n, Picture(5)));
    CommittedInRoom(n);
    PlacedFirst(InRoom(n), C.Message(5, n));
  }

  lemma {:induction false} PlacedFirst(rows: seq<C.Message>, m: C.Message)
    requires forall r :: r in rows ==> r.sequence > m.sequence
    ensures Placed(rows, m) == [m] + rows
  {
    var n := |rows|;
    if n > 0 {
      assert rows[n - 1] in rows && rows == rows[..n - 1] + [rows[n - 1]];
      PlacedFirst(rows[..n - 1], m);
    }
  }

  /** What is after a cursor, where it cuts the rows. */
  lemma {:induction false} AfterCuts(rows: seq<C.Message>, cursor: int, k: nat)
    requires k <= |rows| && (forall i :: 0 <= i < k ==> rows[i].sequence <= cursor)
    requires k < |rows| ==> rows[k].sequence > cursor
    ensures C.After(rows, cursor) == rows[k..]
  {
    if k > 0 {
      AfterCuts(rows[1..], cursor, k - 1);
      assert rows[1..][k - 1..] == rows[k..];
    }
  }

  /** The first page is full and there is one row more; the second has that one. */
  lemma LateAnswers(perRoom: nat, rows: seq<C.Message>, rows': seq<C.Message>)
    requires perRoom > 0 && rows == InRoom(perRoom + 1) && rows' == [C.Message(5, perRoom + 1)] + rows
    ensures C.Delta(C.RoomView(rows, true), 0, perRoom) == C.RoomDelta(InRoom(perRoom), 6 + perRoom, true, false)
    ensures C.Delta(C.RoomView(rows', true), 5 + perRoom, perRoom)
            == C.RoomDelta([C.Message(6 + perRoom, perRoom)], 6 + perRoom, false, false)
  {
    AfterCuts(rows, 0, 0);
    assert rows[..perRoom] == InRoom(perRoom);
    AfterCuts(rows', 5 + perRoom, perRoom + 1);
    assert rows'[perRoom + 1..] == [C.Message(6 + perRoom, perRoom)];
  }

  /** A catch-up from nothing of two requests, the first with more and the second without. */
  lemma TwoPages(perRoom: nat, first: C.RoomView, second: C.RoomView, d: C.RoomDelta, d': C.RoomDelta)
      returns (p: C.Pages)
    requires perRoom > 0 && d == C.Delta(first, 0, perRoom) && d.more
    requires d' == C.Delta(second, C.NextCursor(0, d.messages), perRoom) && !d'.more
    ensures C.Stopped(p) && p.views == [first, second] && |p.answers| == 2
    ensures p.perRoom == perRoom && p.lastSeq == 0
    ensures C.Joined(p.answers) == d.messages + d'.messages && p.Last() == d'
  {
    var p0 := C.Unasked([first, second], 0, perRoom);
    var p1 := C.Answered(p0, d);
    assert C.Joined(p1.answers) == d.messages by {
      assert [] + d.messages == d.messages;
    }
    assert p1.answers == [d];
    p := C.Answered(p1, d');
    assert p.answers == [d, d'];
  }

  /** One catch-up from nothing: a request before the late commit and one after it. */
  lemma LatePages(perRoom: nat, rows: seq<C.Message>, rows': seq<C.Message>) returns (p: C.Pages)
    requires perRoom > 0 && rows == InRoom(perRoom + 1) && rows' == [C.Message(5, perRoom + 1)] + rows
    ensures C.Stopped(p) && p.views == [C.RoomView(rows, true), C.RoomView(rows', true)] && |p.answers| == 2
    ensures p.perRoom == perRoom && p.lastSeq == 0 && C.Joined(p.answers) == rows
    ensures p.Last() == C.RoomDelta([C.Message(6 + perRoom, perRoom)], 6 + perRoom, false, false)
  {
    LateAnswers(perRoom, rows, rows');
    var last := [C.Message(6 + perRoom, perRoom)];
    var d, d' := C.RoomDelta(InRoom(perRoom), 6 + perRoom, true, false), C.RoomDelta(last, 6 + perRoom, false, false);
    p := TwoPages(perRoom, C.RoomView(rows, true), C.RoomView(rows', true), d, d');
    assert InRoom(perRoom) + last == rows;
  }

  /** No catch-up from a cursor brings a row that is not above it. */
  lemma NeverBrought(q: C.Pages, m: C.Message)
    requires q.Valid() && C.OnlyAdded(q.views) && m.sequence <= q.lastSeq
    ensures m !in C.Joined(q.answers)
  {
    assert q.answers[..|q.answers|] == q.answers;
    C.JoinedIs(q, |q.answers|);
  }

  /**
   * For every page size, the client's 200 among them, a run of the pipeline in which one catch-up never receives a row:
   * 5 is allocated, the rows 6, 7, ... of a full page and one more commit, the page is answered, then 5 commits. The
   * catch-up's second page ends it with neither `more` nor `denied`; the row is in the room; and no catch-up that goes
   * on from the watermark brings it.
   */
  lemma LateRowIsMissed(perRoom: nat) returns (s: P.Service, p: C.Pages, late: C.Message)
    requires perRoom > 0
    ensures T.Reachable(s) && P.Enabled(s, P.Persist(0, perRoom + 1))
    ensures C.Stopped(p) && p.perRoom == perRoom && p.lastSeq == 0 && |p.views| == 2
    ensures p.views[0].rows == RoomRows(s.db.rows, 0)
    ensures p.Room().rows == RoomRows(P.Step(s, P.Persist(0, perRoom + 1)).db.rows, 0)
    ensures !p.Last().more && !p.Last().denied && late in p.Room().rows && late !in C.Joined(p.answers)
    ensures forall q: C.Pages :: q.Valid() && C.OnlyAdded(q.views) && q.lastSeq == p.Last().watermark ==>
              late !in C.Joined(q.answers)
  {
    var n := perRoom + 1;
    s := ManyCommit(n);
    LateCommits(s, n);
    CommittedInRoom(n);
    LateInRoom(n);
    p := LatePages(perRoom, InRoom(n), [C.Message(5, n)] + InRoom(n));
    late := C.Message(5, n);
    assert ([late] + InRoom(n))[0] == late;
    forall q: C.Pages | q.Valid() && C.OnlyAdded(q.views) && q.lastSeq == p.Last().watermark
      ensures late !in C.Joined(q.answers)
    {
      NeverBrought(q, late);
    }
  }

  lemma LateCommits(s: P.Service, n: nat)
    requires s.db.rows == Committed(n) && s.CallOf(0) == P.Allocated(Picture(5))
    ensures P.Enabled(s, P.Persist(0, n)) && P.Step(s, P.Persist(0, n)).db.rows == Committed(n) + [S.Row(n, Picture(5))]
  {
  }
}
