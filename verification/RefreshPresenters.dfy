/**
 * What each of any number of concurrent presenters is told, over the events of a run: it depends on the row as it was
 * when that presenter read it, and on whether it won the conditional update.
 */
module RefreshPresenters {
  import opened Wrappers
  import opened RefreshFamilies
  import opened RefreshService

  // -- What a presenter has read -----------------------------------------------

  /** The token a presenter brought, the row it found, and its clock. */
  datatype Presented = Presented(hash: Hash, row: Option<Token>, now: int)

  /** What the presenter read last. */
  function LastRead(events: seq<Event>, c: CallId): Option<Presented> {
    if events == [] then None
    else
      var earlier := events[..|events| - 1];
      match events[|events| - 1]
      case Read(b, hash, now) =>
        if b == c then
          var rows := Run(FRESH, earlier).rows;
          Some(Presented(hash, if hash in rows then Some(rows[hash]) else None, now))
        else LastRead(earlier, c)
      case _ => LastRead(earlier, c)
  }

  predicate WasUnused(p: Presented) {
    p.row.Some? && p.row.value.usedAt.None? && p.row.value.expiresAt > p.now
  }

  /** The row had been used, and longer ago than the grace window. */
  predicate WasReused(p: Presented) {
    p.row.Some? && p.row.value.usedAt.Some? && p.now - p.row.value.usedAt.value > REUSE_GRACE
  }

  /** Where a call stands agrees with what it read. */
  predicate Agrees(call: Call, p: Option<Presented>) {
    match call
    case Idle => true
    case Reading(hash, token, now) => p == Some(Presented(hash, Some(token), now)) && WasUnused(p.value)
    case Marked(hash, token) => p.Some? && p.value.hash == hash && p.value.row == Some(token) && WasUnused(p.value)
    case Late(token, usedAt, now) =>
      && p.Some? && p.value.row == Some(token) && p.value.now == now
      && (WasReused(p.value) <==> now - usedAt > REUSE_GRACE)
  }

  ghost predicate AllAgree(s: Auth, events: seq<Event>) {
    forall c: CallId :: Agrees(s.CallOf(c), LastRead(events, c))
  }

  lemma CallAgrees(events: seq<Event>, c: CallId)
    requires Valid(FRESH, events) && events != []
    requires Agrees(Run(FRESH, events[..|events| - 1]).CallOf(c), LastRead(events[..|events| - 1], c))
    ensures Agrees(Run(FRESH, events).CallOf(c), LastRead(events, c))
  {
    var s, ev := Run(FRESH, events[..|events| - 1]), events[|events| - 1];
    match ev
    case Read(b, _, _) => assert b != c ==> Step(s, ev).CallOf(c) == s.CallOf(c);
    case Consume(b) => assert b != c ==> Step(s, ev).CallOf(c) == s.CallOf(c);
    case _ => assert Step(s, ev).CallOf(c) == s.CallOf(c) || Step(s, ev).CallOf(c).Idle?;
  }

  lemma {:induction false} RunAgrees(events: seq<Event>)
    requires Valid(FRESH, events)
    ensures AllAgree(Run(FRESH, events), events)
  {
    if events != [] {
      RunAgrees(events[..|events| - 1]);
      forall c: CallId
        ensures Agrees(Run(FRESH, events).CallOf(c), LastRead(events, c))
      {
        CallAgrees(events, c);
      }
    } else {
      assert forall c: CallId :: FRESH.CallOf(c).Idle?;
    }
  }

  // -- What it is told ---------------------------------------------------------

  /** The rows that are left when a family goes, or nothing does. */
  ghost predicate LeavesAllBut(rows: Table, rows': Table, family: Option<nat>) {
    forall h :: (h in rows' <==> h in rows && Some(rows[h].family) != family) && (h in rows' ==> rows'[h] == rows[h])
  }

  /**
   * In every run a presenter that is judged late is told Reused, and its family's rows go, exactly when the row it read
   * had been used more than the grace window before. Otherwise it is told Concurrent and nothing is deleted: also when
   * it had read an unused row and lost the update to another tab. It is told the user of the row it read.
   */
  lemma JudgedExactlyWhen(events: seq<Event>, c: CallId)
    requires Valid(FRESH, events) && Run(FRESH, events).CallOf(c).Late?
    ensures LastRead(events, c).Some? && LastRead(events, c).value.row.Some?
    ensures var s, p := Run(FRESH, events), LastRead(events, c).value;
            var s', token, answer := Step(s, Judge(c)), p.row.value, AnswerOf(s, Judge(c));
            && answer.Some? && answer.value.user == Some(token.user)
            && answer.value.outcome == (if WasReused(p) then Reused else Concurrent)
            && LeavesAllBut(s.rows, s'.rows, if WasReused(p) then Some(token.family) else None)
            && answer.value.revoked == |s.rows.Keys - s'.rows.Keys|
  {
    RunAgrees(events);
    var s := Run(FRESH, events);
    assert Agrees(s.CallOf(c), LastRead(events, c));
    if WasReused(LastRead(events, c).value) {
      RevokedAreGone(s, c);
    } else {
      assert s.rows.Keys - Step(s, Judge(c)).rows.Keys == {};
    }
  }

  /** The presenter that loses the update: the table stays as it is and it is told Concurrent, with the token's user. */
  lemma LoserIsConcurrent(events: seq<Event>, c: CallId)
    requires Valid(FRESH, events) && Run(FRESH, events).CallOf(c).Reading?
    requires var call := Run(FRESH, events).CallOf(c); !Consumable(Run(FRESH, events).rows, call.hash, call.now)
    ensures var s := Run(FRESH, events);
            var lost := Step(s, Consume(c));
            && Valid(FRESH, events + [Consume(c), Judge(c)])
            && lost.rows == s.rows && Step(lost, Judge(c)).rows == s.rows
            && AnswerOf(lost, Judge(c)) == Some(Rotation(Concurrent, Some(s.CallOf(c).token.user), 0))
  {
    var more := events + [Consume(c)];
    assert more[..|more| - 1] == events && (events + [Consume(c), Judge(c)])[..|more|] == more;
    RunAgrees(events);
    assert Agrees(Run(FRESH, events).CallOf(c), LastRead(events, c));
    JudgedExactlyWhen(more, c);
    var s, lost := Run(FRESH, events), Step(Run(FRESH, events), Consume(c));
    assert Step(lost, Judge(c)).rows.Keys == lost.rows.Keys;
    assert Step(lost, Judge(c)).rows == lost.rows;
  }

  /** Two tabs with one cookie: whoever comes second to the update is refused, and the family lives on. */
  lemma SecondTabIsConcurrent(events: seq<Event>, b: CallId, c: CallId)
    requires Valid(FRESH, events) && b != c
    requires var s := Run(FRESH, events);
             && s.CallOf(b).Reading? && s.CallOf(c).Reading? && s.CallOf(b).hash == s.CallOf(c).hash
             && Consumable(s.rows, s.CallOf(b).hash, s.CallOf(b).now)
    ensures var s := Run(FRESH, events);
            var won := Step(s, Consume(b));
            var lost := Step(won, Consume(c));
            && won.CallOf(b).Marked? && Step(lost, Judge(c)).rows == won.rows
            && Step(lost, Judge(c)).CallOf(b) == won.CallOf(b)
            && AnswerOf(lost, Judge(c)) == Some(Rotation(Concurrent, Some(s.CallOf(c).token.user), 0))
  {
    var more := events + [Consume(b)];
    assert more[..|more| - 1] == events;
    LoserIsConcurrent(more, c);
  }

  /** A presenter is told Rotated exactly when the row it read was unused, unexpired and still so at its update. */
  lemma RotatedExactlyWhen(events: seq<Event>, c: CallId)
    requires Valid(FRESH, events) && Run(FRESH, events).CallOf(c).Reading?
    ensures LastRead(events, c).Some? && WasUnused(LastRead(events, c).value)
    ensures var s, p := Run(FRESH, events), LastRead(events, c).value;
            var marked := Step(s, Consume(c));
            if Consumable(s.rows, p.hash, p.now) then
              && marked.CallOf(c) == Marked(p.hash, p.row.value)
              && marked.rows == s.rows[p.hash := s.rows[p.hash].(usedAt := Some(p.now))]
              && forall hash, expiresAt :: AnswerOf(marked, Mint(c, hash, expiresAt)).value
                                           == Rotation(Rotated, Some(p.row.value.user), 0)
            else marked.CallOf(c).Late? && marked.rows == s.rows
  {
    RunAgrees(events);
    assert Agrees(Run(FRESH, events).CallOf(c), LastRead(events, c));
  }

  // -- Whose tokens they are ---------------------------------------------------

  /** Who signed in when the family was issued. */
  function IssuedTo(events: seq<Event>, family: nat): Option<nat> {
    if events == [] then None
    else
      match events[|events| - 1]
      case Issue(user, issued, _, _) =>
        if issued == family then Some(user) else IssuedTo(events[..|events| - 1], family)
      case _ => IssuedTo(events[..|events| - 1], family)
  }

  predicate Owned(events: seq<Event>, token: Token) {
    IssuedTo(events, token.family) == Some(token.user)
  }

  predicate CallOwned(events: seq<Event>, call: Call) {
    !call.Idle? ==> Owned(events, call.token)
  }

  ghost predicate AllOwned(events: seq<Event>, s: Auth) {
    && (forall h :: h in s.rows ==> Owned(events, s.rows[h]))
    && (forall c: CallId :: CallOwned(events, s.CallOf(c)))
    && (forall family :: IssuedTo(events, family).Some? ==> family in s.families)
  }

  /**
   * In every run, whatever is rotated, replayed or swept: each row, and each token a presenter holds, belongs to the
   * user its family was issued to.
   */
  lemma {:induction false} FamiliesHaveOneUser(events: seq<Event>)
    requires Valid(FRESH, events)
    ensures AllOwned(events, Run(FRESH, events))
  {
    if events != [] {
      var earlier := events[..|events| - 1];
      FamiliesHaveOneUser(earlier);
      StepOwned(earlier, events);
    } else {
      assert forall c: CallId :: FRESH.CallOf(c).Idle?;
    }
  }

  lemma StaysOwned(events: seq<Event>, token: Token)
    requires events != [] && Owned(events[..|events| - 1], token)
    requires events[|events| - 1].Issue? ==> IssuedTo(events[..|events| - 1], events[|events| - 1].family).None?
    ensures Owned(events, token)
  {
  }

  /** Where a step's rows come from: they were there, were used up now, or were issued or minted now. */
  lemma RowsFrom(s: Auth, ev: Event, h: Hash)
    requires Enabled(s, ev) && h in Step(s, ev).rows
    ensures var token := Step(s, ev).rows[h];
            || (h in s.rows && token.user == s.rows[h].user && token.family == s.rows[h].family)
            || (ev.Issue? && token.user == ev.user && token.family == ev.family)
            || (&& ev.Mint? && token.user == s.CallOf(ev.call).token.user
                && token.family == s.CallOf(ev.call).token.family)
  {
  }

  lemma CallsFrom(s: Auth, ev: Event, c: CallId)
    requires Enabled(s, ev) && !Step(s, ev).CallOf(c).Idle?
    ensures var token := Step(s, ev).CallOf(c).token;
            || (!s.CallOf(c).Idle? && token == s.CallOf(c).token)
            || (ev.Read? && ev.hash in s.rows && token == s.rows[ev.hash])
  {
  }

  lemma StepOwned(earlier: seq<Event>, events: seq<Event>)
    requires events != [] && earlier == events[..|events| - 1]
    requires Valid(FRESH, events) && AllOwned(earlier, Run(FRESH, earlier))
    ensures AllOwned(events, Run(FRESH, events))
  {
    var s, s', ev := Run(FRESH, earlier), Run(FRESH, events), events[|events| - 1];
    forall c: CallId
      ensures CallOwned(events, s'.CallOf(c))
    {
      if !s'.CallOf(c).Idle? {
        CallsFrom(s, ev, c);
        assert CallOwned(earlier, s.CallOf(c));
        StaysOwned(events, s'.CallOf(c).token);
      }
    }
    forall h | h in s'.rows
      ensures Owned(events, s'.rows[h])
    {
      RowsFrom(s, ev, h);
      if ev.Mint? {
        assert CallOwned(earlier, s.CallOf(ev.call));
      }
      if !ev.Issue? || s'.rows[h].family != ev.family {
        StaysOwned(events, s'.rows[h]);
      }
    }
  }
}
