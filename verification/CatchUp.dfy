/** Sequence-based catch-up and history over a room that keeps growing between pages. */
module CatchUp {
  import opened Wrappers

  // deltas and history of MessageService.java with the clamping of SyncController.java, and the loop of
  // chat-front/src/services/deltaSync.ts that follows the `more` flag.

  const MAX_PAGE: nat := 100
  const DEFAULT_PER_ROOM: nat := 200
  const MAX_PER_ROOM: nat := 500

  datatype Message = Message(sequence: int, id: nat)

  /** A room's rows by sequence, as one page request finds them, and whether the caller may read it. */
  datatype RoomView = RoomView(rows: seq<Message>, readable: bool)

  datatype RoomDelta = RoomDelta(messages: seq<Message>, watermark: int, more: bool, denied: bool)

  predicate Ascending(rows: seq<Message>) {
    forall i, j :: 0 <= i < j < |rows| ==> rows[i].sequence < rows[j].sequence
  }

  // -- The server's queries ----------------------------------------------------

  function After(rows: seq<Message>, cursor: int): seq<Message> {
    if rows == [] then []
    else if rows[0].sequence > cursor then rows
    else After(rows[1..], cursor)
  }

  function Below(rows: seq<Message>, cursor: int): seq<Message> {
    if rows == [] then []
    else if rows[|rows| - 1].sequence < cursor then rows
    else Below(rows[..|rows| - 1], cursor)
  }

  /** coalesce(max(sequence), 0) over ascending rows. */
  function MaxSequence(rows: seq<Message>): int {
    if rows == [] then 0 else rows[|rows| - 1].sequence
  }

  function Take(rows: seq<Message>, n: nat): (page: seq<Message>) {
    if |rows| > n then rows[..n] else rows
  }

  /** How many rows per room a request gets, whatever it asks for. */
  function PerRoom(asked: Option<int>): (perRoom: nat)
    ensures 0 < perRoom <= MAX_PER_ROOM
    ensures asked.None? ==> perRoom == DEFAULT_PER_ROOM
    ensures asked.Some? && 1 <= asked.value <= MAX_PER_ROOM ==> perRoom == asked.value
    ensures asked.Some? && asked.value < 1 ==> perRoom == 1
    ensures asked.Some? && asked.value > MAX_PER_ROOM ==> perRoom == MAX_PER_ROOM
  {
    match asked
    case None => DEFAULT_PER_ROOM
    case Some(n) => if n < 1 then 1 else if n > MAX_PER_ROOM then MAX_PER_ROOM else n
  }

  function Clamped(cursor: int): int {
    if cursor < 0 then 0 else cursor
  }

  function LastSequence(page: seq<Message>, cursor: int): int {
    if page == [] then cursor else page[|page| - 1].sequence
  }

  /** One room of a sync answer: one row more than the page is asked for, to know whether more remain. */
  function Delta(view: RoomView, cursor: int, perRoom: nat): (delta: RoomDelta)
    ensures delta.denied <==> !view.readable
    ensures delta.more ==> |delta.messages| == perRoom
    ensures delta.denied ==> delta.messages == [] && !delta.more
  {
    if !view.readable then RoomDelta([], 0, false, true)
    else
      var rows := Take(After(view.rows, cursor), perRoom + 1);
      var more := |rows| > perRoom;
      var page := Take(rows, perRoom);
      var watermark := if more then MaxSequence(view.rows) else LastSequence(page, cursor);
      RoomDelta(page, watermark, more, false)
  }

  /** A room that cannot be read is reported as denied and does not fail the others. */
  method Deltas(views: seq<RoomView>, cursors: seq<int>, maxPerRoom: Option<int>) returns (out: seq<RoomDelta>)
    requires |cursors| == |views|
    ensures |out| == |views| && forall i :: 0 <= i < |out| ==>
              out[i] == Delta(views[i], if cursors[i] < 0 then 0 else cursors[i], PerRoom(maxPerRoom))
  {
    var perRoom := PerRoom(maxPerRoom);
    out := [];
    for i := 0 to |views|
      invariant |out| == i && forall k :: 0 <= k < i ==> out[k] == Delta(views[k], Clamped(cursors[k]), perRoom)
    {
      if !views[i].readable {
        out := out + [RoomDelta([], 0, false, true)];
        continue;
      }
      var cursor := Clamped(cursors[i]);
      var rows := Take(After(views[i].rows, cursor), perRoom + 1);
      var more := |rows| > perRoom;
      var page := if more then rows[..perRoom] else rows;
      var watermark := if more then MaxSequence(views[i].rows) else LastSequence(page, cursor);
      out := out + [RoomDelta(page, watermark, more, false)];
    }
  }

  // -- Catching up -------------------------------------------------------------

  /** Between two pages rows are only added, anywhere among those that are there. */
  predicate OnlyAdded(views: seq<RoomView>) {
    AllAscending(views) && forall i :: 0 <= i < |views| ==> KeepsRows(views, i)
  }

  predicate AllAscending(views: seq<RoomView>) {
    forall i :: 0 <= i < |views| ==> Ascending(views[i].rows)
  }

  predicate KeepsRows(views: seq<RoomView>, i: nat)
    requires i < |views|
  {
    i > 0 ==> Contains(views[i].rows, views[i - 1].rows)
  }

  predicate Contains(rows: seq<Message>, before: seq<Message>) {
    forall m :: m in before ==> m in rows
  }

  /** Between two pages rows are only added above the highest. */
  predicate AddedAbove(views: seq<RoomView>) {
    AllAscending(views) && forall i :: 0 <= i < |views| ==> GrowsAtEnd(views, i)
  }

  predicate GrowsAtEnd(views: seq<RoomView>, i: nat)
    requires i < |views|
  {
    i > 0 ==> views[i - 1].rows <= views[i].rows
  }

  /**
   * A catch-up: the room as each request finds it, the cursor of each request and of the one after, and the answers.
   */
  datatype Pages = Pages(views: seq<RoomView>, lastSeq: int, perRoom: nat, cursors: seq<int>, answers: seq<RoomDelta>) {
    predicate Valid() {
      && perRoom > 0 && |answers| <= |views| && |cursors| == |answers| + 1
      && cursors[0] == Clamped(lastSeq)
      && forall k :: 0 <= k < |answers| ==> Follows(k)
    }

    predicate Follows(k: nat)
      requires k < |answers| <= |views| && |cursors| == |answers| + 1
    {
      && answers[k] == Delta(views[k], cursors[k], perRoom)
      && cursors[k + 1] == NextCursor(cursors[k], answers[k].messages)
    }

    function Last(): RoomDelta
      requires Valid() && answers != []
    {
      answers[|answers| - 1]
    }

    /** The room as the last request found it. */
    function Room(): RoomView
      requires Valid() && answers != []
    {
      views[|answers| - 1]
    }

    function End(): int
      requires Valid()
    {
      cursors[|answers|]
    }
  }

  /** The server takes a negative cursor for 0. */
  function NextCursor(cursor: int, page: seq<Message>): int {
    if page == [] then cursor else Clamped(page[|page| - 1].sequence)
  }

  function Joined(answers: seq<RoomDelta>): seq<Message> {
    if answers == [] then [] else Joined(answers[..|answers| - 1]) + answers[|answers| - 1].messages
  }

  /** The loop follows `more`, and stops at the first answer that reports none, or is denied, or is the last allowed. */
  predicate Stopped(p: Pages) {
    && p.Valid() && p.answers != []
    && (forall k :: 0 <= k < |p.answers| - 1 ==> p.answers[k].more)
    && (|p.answers| == |p.views| || !p.Last().more)
  }

  /** catchUpRoom(), with the room as each of its at most |views| requests finds it. */
  method CatchUpRoom(lastSeq: int, maxPerRoom: Option<int>, views: seq<RoomView>) returns (r: RoomDelta, ghost p: Pages)
    ensures views == [] ==> r == RoomDelta([], lastSeq, false, false)
    ensures views != [] ==> Stopped(p) && r == p.Last().(messages := Joined(p.answers))
    ensures p.views == views && p.lastSeq == lastSeq && p.perRoom == PerRoom(maxPerRoom)
  {
    var all: seq<Message>, cursor, page := [], lastSeq, 0;
    var last := RoomDelta([], lastSeq, false, false);
    ghost var none := Unasked(views, lastSeq, PerRoom(maxPerRoom));
    p := none;
    while page < |views|
      invariant 0 <= page <= |views| && page == |p.answers|
      invariant p.views == views && p.lastSeq == lastSeq && p.perRoom == PerRoom(maxPerRoom)
      invariant p.Valid() && Clamped(cursor) == p.End() && all == Joined(p.answers)
      invariant forall k :: 0 <= k < page ==> p.answers[k].more
      invariant last == if page == 0 then RoomDelta([], lastSeq, false, false) else p.Last()
    {
      var deltas := Deltas([views[page]], [cursor], maxPerRoom);
      last := deltas[0];
      assert last == Delta(views[page], p.End(), p.perRoom);
      ghost var p' := Answered(p, last);
      p := p';
      if last.denied {
        break;
      }
      all := all + last.messages;
      if !last.more || last.messages == [] {
        break;
      }
      cursor := last.messages[|last.messages| - 1].sequence;
      page := page + 1;
    }
    r := last.(messages := all);
  }

  /** Before the first request. */
  lemma Unasked(views: seq<RoomView>, lastSeq: int, perRoom: nat) returns (p: Pages)
    requires perRoom > 0
    ensures p.views == views && p.lastSeq == lastSeq && p.perRoom == perRoom
    ensures p.Valid() && p.answers == [] && p.End() == Clamped(lastSeq)
  {
    p := Pages(views, lastSeq, perRoom, [Clamped(lastSeq)], []);
  }

  lemma Answered(p: Pages, answer: RoomDelta) returns (p': Pages)
    requires p.Valid() && |p.answers| < |p.views| && answer == Delta(p.views[|p.answers|], p.End(), p.perRoom)
    ensures p'.views == p.views && p'.lastSeq == p.lastSeq && p'.perRoom == p.perRoom
    ensures p'.answers == p.answers + [answer]
    ensures p'.Valid() && p'.End() == NextCursor(p.End(), answer.messages)
    ensures p'.Valid() && p'.Last() == answer && Joined(p'.answers) == Joined(p.answers) + answer.messages
  {
    p' := p.(answers := p.answers + [answer], cursors := p.cursors + [NextCursor(p.End(), answer.messages)]);
    assert p'.answers[..|p.answers|] == p.answers;
    forall k | 0 <= k < |p'.answers|
      ensures p'.Follows(k)
    {
      if k < |p.answers| {
        assert p.Follows(k);
      }
    }
  }

  // -- What a page holds -------------------------------------------------------

  lemma {:induction false} AfterIs(rows: seq<Message>, cursor: int)
    requires Ascending(rows)
    ensures Ascending(After(rows, cursor))
    ensures forall m :: m in After(rows, cursor) <==> m in rows && m.sequence > cursor
  {
    if rows != [] && rows[0].sequence <= cursor {
      AfterIs(rows[1..], cursor);
      assert rows == [rows[0]] + rows[1..];
    }
  }

  /** The rows between two cursors, in order. */
  ghost predicate IsBetween(page: seq<Message>, rows: seq<Message>, cursor: int, next: int) {
    Ascending(page) && forall m :: m in page <==> m in rows && cursor < m.sequence <= next
  }

  /** The beginning of ascending rows: those that are not above its last. */
  lemma BeginningOf(later: seq<Message>, page: seq<Message>, m: Message)
    requires Ascending(later) && page <= later && page != []
    ensures m in page <==> m in later && m.sequence <= page[|page| - 1].sequence
  {
    if m in later && m.sequence <= page[|page| - 1].sequence {
      BeginningHolds(page, later, m);
    }
    if m in page {
      var i :| 0 <= i < |page| && page[i] == m;
      assert later[i] == m && later[|page| - 1] == page[|page| - 1];
    }
  }

  /** The beginning of what is after a cursor holds the rows up to its own last one. */
  lemma BeginningIs(rows: seq<Message>, cursor: int, page: seq<Message>)
    requires Ascending(rows) && cursor >= 0 && page <= After(rows, cursor)
    ensures IsBetween(page, rows, cursor, NextCursor(cursor, page)) && cursor <= NextCursor(cursor, page)
  {
    AfterIs(rows, cursor);
    if page != [] {
      assert page[|page| - 1] in page;
      forall m
        ensures m in page <==> m in After(rows, cursor) && m.sequence <= page[|page| - 1].sequence
      {
        BeginningOf(After(rows, cursor), page, m);
      }
    }
  }

  /** It leaves rows beyond its last one exactly when it is not the whole. */
  lemma BeginningLeaves(rows: seq<Message>, cursor: int, page: seq<Message>)
    requires Ascending(rows) && cursor >= 0 && page <= After(rows, cursor)
    ensures page < After(rows, cursor) ==> exists m :: m in rows && m.sequence > NextCursor(cursor, page)
    ensures page == After(rows, cursor) ==> forall m :: m in rows ==> m.sequence <= NextCursor(cursor, page)
  {
    AfterIs(rows, cursor);
    BeginningIs(rows, cursor, page);
    if page < After(rows, cursor) {
      var beyond := After(rows, cursor)[|page|];
      assert beyond in After(rows, cursor);
      if page != [] {
        assert page[|page| - 1] == After(rows, cursor)[|page| - 1];
      }
    }
  }

  /** An answered page is the beginning of what is after the cursor, and all of it unless there is more. */
  lemma PageBegins(view: RoomView, cursor: int, perRoom: nat)
    ensures var delta, later := Delta(view, cursor, perRoom), After(view.rows, cursor);
            && delta.messages <= later
            && (!delta.denied && !delta.more ==>
                  delta.messages == later
                  && delta.watermark == if later == [] then cursor else later[|later| - 1].sequence)
            && (delta.more ==> delta.messages < later)
  {
  }

  /** An answer's rows and its watermark: with `more` the room's highest sequence, else the page's end. */
  lemma AnswerSays(view: RoomView, cursor: int, perRoom: nat)
    requires view.readable && Ascending(view.rows)
    ensures var delta, later := Delta(view, cursor, perRoom), After(view.rows, cursor);
            && (delta.more <==> |later| > perRoom)
            && |delta.messages| == (if delta.more then perRoom else |later|)
            && (delta.more ==> (exists m :: m in view.rows && m.sequence == delta.watermark)
                               && forall m :: m in view.rows ==> m.sequence <= delta.watermark)
            && (!delta.more ==> delta.watermark == if later == [] then cursor else later[|later| - 1].sequence)
  {
    var delta, later := Delta(view, cursor, perRoom), After(view.rows, cursor);
    AfterIs(view.rows, cursor);
    if delta.more {
      assert later[0] in later && later[0] in view.rows;
      assert view.rows[|view.rows| - 1] in view.rows;
    }
  }

  /** An answered page: the rows up to its own last one; and all there are after the cursor unless there is more. */
  lemma PageIs(view: RoomView, cursor: int, perRoom: nat)
    requires Ascending(view.rows) && cursor >= 0
    ensures var delta := Delta(view, cursor, perRoom);
            var next := NextCursor(cursor, delta.messages);
            && IsBetween(delta.messages, view.rows, cursor, next) && cursor <= next
            && (!delta.denied && !delta.more ==> delta.watermark == next && forall m :: m in view.rows ==>
                  m.sequence <= next)
            && (delta.more ==> exists m :: m in view.rows && m.sequence > next)
  {
    PageBegins(view, cursor, perRoom);
    BeginningIs(view.rows, cursor, Delta(view, cursor, perRoom).messages);
    BeginningLeaves(view.rows, cursor, Delta(view, cursor, perRoom).messages);
  }

  // -- What the pages hold together --------------------------------------------

  lemma {:induction false} CursorGrows(p: Pages, k: nat, n: nat)
    requires p.Valid() && AllAscending(p.views) && k <= n <= |p.answers|
    ensures 0 <= p.cursors[k] <= p.cursors[n]
    decreases n
  {
    if n > 0 {
      CursorGrows(p, if k < n then k else 0, n - 1);
      assert p.Follows(n - 1);
      PageIs(p.views[n - 1], p.cursors[n - 1], p.perRoom);
    }
  }

  /** What was answered up to page n: in order, between lastSeq and the cursor. */
  predicate Within(all: seq<Message>, lo: int, hi: int) {
    Ascending(all) && forall m :: m in all ==> lo < m.sequence <= hi
  }

  lemma WithinJoins(all: seq<Message>, page: seq<Message>, lo: int, mid: int, hi: int)
    requires Within(all, lo, mid) && Within(page, mid, hi) && lo <= mid <= hi
    ensures Within(all + page, lo, hi)
  {
    forall i, j | 0 <= i < j < |all + page|
      ensures (all + page)[i].sequence < (all + page)[j].sequence
    {
      if i < |all| <= j {
        assert all[i] in all && page[j - |all|] in page;
      }
    }
  }

  lemma {:induction false} JoinedIs(p: Pages, n: nat)
    requires p.Valid() && OnlyAdded(p.views) && n <= |p.answers|
    ensures Within(Joined(p.answers[..n]), p.cursors[0], p.cursors[n])
    ensures n > 0 ==> Contains(p.views[n - 1].rows, Joined(p.answers[..n]))
  {
    if n > 0 {
      JoinedIs(p, n - 1);
      JoinedStep(p, n - 1);
      assert p.Follows(n - 1) && KeepsRows(p.views, n - 1);
      CursorGrows(p, 0, n - 1);
      PageIs(p.views[n - 1], p.cursors[n - 1], p.perRoom);
      WithinJoins(Joined(p.answers[..n - 1]), p.answers[n - 1].messages, p.cursors[0], p.cursors[n - 1], p.cursors[n]);
    }
  }

  lemma JoinedStep(p: Pages, k: nat)
    requires k < |p.answers|
    ensures Joined(p.answers[..k + 1]) == Joined(p.answers[..k]) + p.answers[k].messages
  {
    assert p.answers[..k + 1][..k] == p.answers[..k];
  }

  /** The row came between the page before and this one, at or below the cursor this one was asked for from. */
  predicate Overtaken(p: Pages, m: Message, k: nat)
    requires p.Valid() && k < |p.answers|
  {
    k > 0 && m in p.views[k].rows && m !in p.views[k - 1].rows && m.sequence <= p.cursors[k]
  }

  predicate EverOvertaken(p: Pages, m: Message, n: nat)
    requires p.Valid() && n <= |p.answers|
  {
    exists k :: 0 <= k < n && Overtaken(p, m, k)
  }

  /** A row above the cursor of a page and not above the next is on that page, and was never overtaken. */
  lemma OnOwnPage(p: Pages, m: Message, k: nat)
    requires p.Valid() && AllAscending(p.views) && k < |p.answers|
    requires m in p.views[k].rows && p.cursors[k] < m.sequence <= p.cursors[k + 1]
    ensures m in p.answers[k].messages && !EverOvertaken(p, m, k + 1)
  {
    assert p.Follows(k);
    CursorGrows(p, 0, k);
    PageIs(p.views[k], p.cursors[k], p.perRoom);
    forall j | 0 <= j < k + 1
      ensures !Overtaken(p, m, j)
    {
      CursorGrows(p, j, k);
    }
  }

  lemma NotOnPage(p: Pages, m: Message, k: nat)
    requires p.Valid() && AllAscending(p.views) && k < |p.answers| && m.sequence <= p.cursors[k]
    ensures m !in p.answers[k].messages
  {
    assert p.Follows(k);
    CursorGrows(p, 0, k);
    PageIs(p.views[k], p.cursors[k], p.perRoom);
  }

  /** Of the rows the pages have passed, exactly those that came too late for their page are missing. */
  lemma {:induction false} PassedExactly(p: Pages, m: Message, n: nat)
    requires p.Valid() && OnlyAdded(p.views) && 0 < n <= |p.answers|
    requires m in p.views[n - 1].rows && p.cursors[0] < m.sequence <= p.cursors[n]
    ensures m in Joined(p.answers[..n]) <==> !EverOvertaken(p, m, n)
  {
    var k := n - 1;
    JoinedStep(p, k);
    if m.sequence > p.cursors[k] {
      OnOwnPage(p, m, k);
    } else {
      NotOnPage(p, m, k);
      if m in p.views[k - 1].rows {
        PassedExactly(p, m, k);
        assert EverOvertaken(p, m, n) <==> EverOvertaken(p, m, k);
      } else {
        JoinedIs(p, k);
        assert Overtaken(p, m, k);
      }
    }
  }

  /** Which rows of the room a catch-up misses: those beyond its last page, and those that were overtaken. */
  lemma MissedExactlyWhen(p: Pages, m: Message)
    requires Stopped(p) && OnlyAdded(p.views) && m in p.Room().rows && m.sequence > Clamped(p.lastSeq)
    ensures m !in Joined(p.answers) <==> m.sequence > p.End() || EverOvertaken(p, m, |p.answers|)
    ensures !p.Last().more && !p.Last().denied ==> m.sequence <= p.End()
  {
    var n := |p.answers|;
    assert p.answers[..n] == p.answers && p.Follows(n - 1);
    JoinedIs(p, n);
    if m.sequence <= p.End() {
      PassedExactly(p, m, n);
    }
    CursorGrows(p, 0, n - 1);
    PageIs(p.views[n - 1], p.cursors[n - 1], p.perRoom);
  }

  predicate NoneOvertaken(p: Pages)
    requires p.Valid() && p.answers != []
  {
    forall m :: m in p.Room().rows && m.sequence > Clamped(p.lastSeq) ==> !EverOvertaken(p, m, |p.answers|)
  }

  /** An ascending part of ascending rows that holds all of them up to some sequence is their beginning. */
  lemma {:induction false} IsBeginning(all: seq<Message>, later: seq<Message>, cursor: int)
    requires Ascending(all) && Ascending(later)
    requires forall m :: m in all <==> m in later && m.sequence <= cursor
    ensures all <= later
  {
    if all != [] {
      assert all[0] in all && later[0] in later;
      assert later[0] in all && all[0] == later[0];
      forall m
        ensures m in all[1..] <==> m in later[1..] && m.sequence <= cursor
      {
        TailHolds(all, m);
        TailHolds(later, m);
      }
      IsBeginning(all[1..], later[1..], cursor);
    }
  }

  lemma TailHolds(rows: seq<Message>, m: Message)
    requires Ascending(rows) && rows != []
    ensures m in rows[1..] <==> m in rows && m != rows[0]
  {
    assert rows == [rows[0]] + rows[1..];
  }

  /** The beginning of ascending rows holds every row that is not above its last. */
  lemma BeginningHolds(all: seq<Message>, later: seq<Message>, m: Message)
    requires Ascending(later) && all <= later && all != [] && m in later && m.sequence <= all[|all| - 1].sequence
    ensures m in all
  {
    var i :| 0 <= i < |later| && later[i] == m;
    assert all[|all| - 1] == later[|all| - 1];
    assert all[i] == later[i];
  }

  /** The cursor after the pages is their last row, or still where they began. */
  lemma {:induction false} EndIs(p: Pages, n: nat)
    requires p.Valid() && OnlyAdded(p.views) && n <= |p.answers|
    ensures p.cursors[n] == NextCursor(p.cursors[0], Joined(p.answers[..n]))
  {
    if n > 0 {
      EndIs(p, n - 1);
      JoinedStep(p, n - 1);
      assert p.Follows(n - 1);
      NextOfJoined(p.cursors[0], Joined(p.answers[..n - 1]), p.answers[n - 1].messages);
    }
  }

  lemma NextOfJoined(cursor: int, all: seq<Message>, page: seq<Message>)
    ensures NextCursor(cursor, all + page) == NextCursor(NextCursor(cursor, all), page)
  {
    if page == [] {
      assert all + page == all;
    }
  }

  /**
   * Over a room in which rows are only added, and added anywhere: the pages together are the first rows after lastSeq
   * of the room as the last page found it exactly when no row came at or below the cursor of an earlier page; and when
   * the last page reports neither `more` nor `denied` they are all of them exactly then.
   */
  lemma CatchUpExactlyWhen(p: Pages)
    requires Stopped(p) && OnlyAdded(p.views)
    ensures var all, later := Joined(p.answers), After(p.Room().rows, Clamped(p.lastSeq));
            && (all <= later <==> NoneOvertaken(p))
            && (!p.Last().more && !p.Last().denied ==> (all == later <==> NoneOvertaken(p)))
  {
    var all, later := Joined(p.answers), After(p.Room().rows, Clamped(p.lastSeq));
    AfterIs(p.Room().rows, Clamped(p.lastSeq));
    if NoneOvertaken(p) {
      AllPassed(p, all, later);
      IsBeginning(all, later, p.End());
      if !p.Last().more && !p.Last().denied {
        IsBeginning(later, all, p.End());
      }
    } else {
      SomeOvertaken(p);
    }
  }

  lemma AllPassed(p: Pages, all: seq<Message>, later: seq<Message>)
    requires Stopped(p) && OnlyAdded(p.views) && NoneOvertaken(p)
    requires all == Joined(p.answers) && later == After(p.Room().rows, Clamped(p.lastSeq))
    ensures Ascending(all) && forall m :: m in all <==> m in later && m.sequence <= p.End()
    ensures !p.Last().more && !p.Last().denied ==> forall m :: m in later ==> m.sequence <= p.End()
  {
    var n := |p.answers|;
    assert p.answers[..n] == p.answers;
    AfterIs(p.Room().rows, Clamped(p.lastSeq));
    JoinedIs(p, n);
    forall m | m in later
      ensures m in all <==> m.sequence <= p.End()
      ensures !p.Last().more && !p.Last().denied ==> m.sequence <= p.End()
    {
      MissedExactlyWhen(p, m);
    }
  }

  lemma SomeOvertaken(p: Pages)
    requires Stopped(p) && OnlyAdded(p.views) && !NoneOvertaken(p)
    ensures !(Joined(p.answers) <= After(p.Room().rows, Clamped(p.lastSeq)))
  {
    var n, all, later := |p.answers|, Joined(p.answers), After(p.Room().rows, Clamped(p.lastSeq));
    var m :| m in p.Room().rows && m.sequence > Clamped(p.lastSeq) && EverOvertaken(p, m, n);
    var k :| 0 <= k < n && Overtaken(p, m, k);
    AfterIs(p.Room().rows, Clamped(p.lastSeq));
    CursorGrows(p, k, n);
    MissedExactlyWhen(p, m);
    assert p.answers[..n] == p.answers;
    EndIs(p, n);
    if all <= later {
      BeginningHolds(all, later, m);
    }
  }

  // -- A room that only grows at its end ---------------------------------------

  /** How many rows that many full pages hold. */
  function Capacity(pages: nat, perRoom: nat): nat {
    if pages == 0 then 0 else Capacity(pages - 1, perRoom) + perRoom
  }

  lemma {:induction false} CapacityGrows(pages: nat, maxPages: nat, perRoom: nat)
    requires pages <= maxPages
    ensures Capacity(pages, perRoom) <= Capacity(maxPages, perRoom)
  {
    if pages < maxPages {
      CapacityGrows(pages, maxPages - 1, perRoom);
    }
  }

  lemma {:induction false} FullPages(p: Pages, n: nat)
    requires p.Valid() && n <= |p.answers| && forall k :: 0 <= k < n ==> p.answers[k].more
    ensures |Joined(p.answers[..n])| == Capacity(n, p.perRoom)
  {
    if n > 0 {
      FullPages(p, n - 1);
      JoinedStep(p, n - 1);
      assert p.Follows(n - 1);
    }
  }

  lemma NoneOvertakenAbove(p: Pages)
    requires p.Valid() && p.answers != [] && AddedAbove(p.views) && OnlyAdded(p.views)
    ensures NoneOvertaken(p)
  {
    forall m, k | m in p.Room().rows && m.sequence > Clamped(p.lastSeq) && 0 <= k < |p.answers|
      ensures !Overtaken(p, m, k)
    {
      if k > 0 && m in p.views[k].rows && m !in p.views[k - 1].rows {
        JoinedIs(p, k);
        EndIs(p, k);
        var all := Joined(p.answers[..k]);
        if all != [] {
          assert GrowsAtEnd(p.views, k) && all[|all| - 1] in all;
          ComesAfter(p.views[k - 1].rows, p.views[k].rows, m, all[|all| - 1]);
        }
      }
    }
  }

  lemma ComesAfter(rows: seq<Message>, rows': seq<Message>, m: Message, there: Message)
    requires rows <= rows' && Ascending(rows') && m in rows' && m !in rows && there in rows
    ensures m.sequence > there.sequence
  {
    var i :| 0 <= i < |rows'| && rows'[i] == m;
    var j :| 0 <= j < |rows| && rows[j] == there;
    assert rows'[j] == there;
    assert i >= |rows|;
  }

  /** What the result of a catch-up says, given the room as the last page request found it. */
  predicate CaughtUp(r: RoomDelta, rows: seq<Message>, lastSeq: int, maxPages: nat, perRoom: nat) {
    var later := After(rows, Clamped(lastSeq));
    && r.messages <= later
    && |r.messages| <= Capacity(maxPages, perRoom)
    && (!r.denied && !r.more ==> r.messages == later && r.watermark == NextCursor(Clamped(lastSeq), later))
    && (!r.denied && r.more ==> |r.messages| == Capacity(maxPages, perRoom) < |later|)
  }

  /**
   * If rows come only above the highest, the result is the first rows after lastSeq, in order and without repeats; all
   * of them, up to the watermark, when the last page reports neither `more` nor `denied`; and exactly maxPages full
   * pages of them when it still reports `more`.
   */
  lemma CaughtUpWhenAddedAbove(p: Pages)
    requires Stopped(p) && AddedAbove(p.views)
    ensures CaughtUp(p.Last().(messages := Joined(p.answers)), p.Room().rows, p.lastSeq, |p.views|, p.perRoom)
  {
    AboveIsAdded(p.views);
    NoneOvertakenAbove(p);
    CatchUpExactlyWhen(p);
    PagesFill(p);
    LastPage(p);
  }

  lemma AboveIsAdded(views: seq<RoomView>)
    requires AddedAbove(views)
    ensures OnlyAdded(views)
  {
    forall i | 0 <= i < |views|
      ensures KeepsRows(views, i)
    {
      assert GrowsAtEnd(views, i);
    }
  }

  lemma PagesFill(p: Pages)
    requires Stopped(p)
    ensures |Joined(p.answers)| <= Capacity(|p.views|, p.perRoom)
    ensures p.Last().more ==> |Joined(p.answers)| == Capacity(|p.views|, p.perRoom)
  {
    var n := |p.answers|;
    assert p.answers[..n] == p.answers && p.Follows(n - 1);
    FullPages(p, n - 1);
    JoinedStep(p, n - 1);
    CapacityGrows(n, |p.views|, p.perRoom);
    PageFits(p.views[n - 1], p.cursors[n - 1], p.perRoom);
  }

  lemma PageFits(view: RoomView, cursor: int, perRoom: nat)
    ensures |Delta(view, cursor, perRoom).messages| <= perRoom
  {
  }

  /** The last answer names where the pages end, and leaves rows beyond them if it reports more. */
  lemma LastPage(p: Pages)
    requires Stopped(p) && OnlyAdded(p.views)
    ensures !p.Last().more && !p.Last().denied ==>
              p.Last().watermark == NextCursor(Clamped(p.lastSeq), Joined(p.answers))
    ensures p.Last().more ==> Joined(p.answers) != After(p.Room().rows, Clamped(p.lastSeq))
  {
    var n := |p.answers|;
    assert p.answers[..n] == p.answers && p.Follows(n - 1);
    CursorGrows(p, 0, n - 1);
    PageIs(p.views[n - 1], p.cursors[n - 1], p.perRoom);
    EndIs(p, n);
    if p.Last().more {
      var m :| m in p.Room().rows && m.sequence > p.End();
      Beyond(p, m);
    }
  }

  lemma Beyond(p: Pages, m: Message)
    requires Stopped(p) && OnlyAdded(p.views) && m in p.Room().rows && m.sequence > p.End()
    ensures m in After(p.Room().rows, Clamped(p.lastSeq)) && m !in Joined(p.answers)
  {
    AfterIs(p.Room().rows, Clamped(p.lastSeq));
    CursorGrows(p, 0, |p.answers|);
    MissedExactlyWhen(p, m);
  }

  /** The catch-up is complete exactly when what there was to catch up with fits the pages. */
  lemma CompleteExactlyWhen(r: RoomDelta, rows: seq<Message>, lastSeq: int, maxPages: nat, perRoom: nat)
    requires CaughtUp(r, rows, lastSeq, maxPages, perRoom) && !r.denied
    ensures var later := After(rows, Clamped(lastSeq));
            && (r.messages == later <==> |later| <= Capacity(maxPages, perRoom))
            && (r.messages == later <==> !r.more)
  {
  }

  // -- History -----------------------------------------------------------------

  datatype CursorPage = CursorPage(messages: seq<Message>, next: Option<int>, hasMore: bool)

  function Beneath(rows: seq<Message>, before: Option<int>): seq<Message> {
    if before.Some? then Below(rows, before.value) else rows
  }

  /** The newest rows, or the newest below a sequence, turned ascending. */
  function History(rows: seq<Message>, before: Option<int>, limit: int): CursorPage {
    var size := if limit < 1 then 1 else if limit > MAX_PAGE then MAX_PAGE else limit;
    var below := Beneath(rows, before);
    var page := if |below| > size then below[|below| - size..] else below;
    CursorPage(page, if |below| > size then Some(page[0].sequence) else None, |below| > size)
  }

  lemma {:induction false} BelowRow(rows: seq<Message>, k: nat)
    requires Ascending(rows) && k < |rows|
    ensures Below(rows, rows[k].sequence) == rows[..k]
  {
    var n := |rows| - 1;
    if k < n {
      assert rows[..n][k] == rows[k];
    }
    if k == n {
      assert n > 0 ==> Below(rows[..n], rows[n].sequence) == rows[..n];
    } else {
      BelowRow(rows[..n], k);
      assert rows[..n][..k] == rows[..k];
    }
  }

  lemma {:induction false} BelowIs(rows: seq<Message>, cursor: int)
    ensures |Below(rows, cursor)| <= |rows| && Below(rows, cursor) == rows[..|Below(rows, cursor)|]
  {
    if rows != [] && rows[|rows| - 1].sequence >= cursor {
      BelowIs(rows[..|rows| - 1], cursor);
    }
  }

  lemma {:induction false} BelowBelow(rows: seq<Message>, cursor: int, k: nat)
    requires Ascending(rows) && k < |Below(rows, cursor)|
    ensures Below(rows, Below(rows, cursor)[k].sequence) == Below(rows, cursor)[..k]
  {
    BelowIs(rows, cursor);
    BelowRow(rows, k);
    assert Below(rows, cursor)[k] == rows[k];
    assert Below(rows, cursor)[..k] == rows[..k];
  }

  /** What a history page's cursor leaves is what was below it. */
  lemma HistoryRest(rows: seq<Message>, before: Option<int>, k: nat)
    requires Ascending(rows)
    requires k < |Beneath(rows, before)|
    ensures Below(rows, Beneath(rows, before)[k].sequence) == Beneath(rows, before)[..k]
  {
    if before.Some? {
      BelowBelow(rows, before.value, k);
    } else {
      BelowRow(rows, k);
    }
  }

  /**
   * Paging back loses nothing and repeats nothing: a page and what its cursor leaves are what was below the last
   * cursor. A page holds as many rows as were asked for, between 1 and 100, or all there are if these are no more.
   */
  lemma HistoryPagesJoin(rows: seq<Message>, before: Option<int>, limit: int)
    requires Ascending(rows)
    ensures var p, below := History(rows, before, limit), Beneath(rows, before);
            if p.hasMore then p.next.Some? && Below(rows, p.next.value) + p.messages == below && p.messages != []
            else p.next.None? && p.messages == below
    ensures var p, below := History(rows, before, limit), |Beneath(rows, before)|;
            && (1 <= limit <= 100 ==> |p.messages| == (if below < limit then below else limit))
            && (limit < 1 ==> |p.messages| == (if below < 1 then below else 1))
            && (limit > 100 ==> |p.messages| == (if below < 100 then below else 100))
            && (p.hasMore <==> below > |p.messages|)
  {
    var below := Beneath(rows, before);
    var p := History(rows, before, limit);
    if p.hasMore {
      HistoryRest(rows, before, |below| - |p.messages|);
    }
  }
}
