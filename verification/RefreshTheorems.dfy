/** What rotation guarantees: one successor per token, one live token per family, and reuse that ends the family. */
module RefreshTheorems {
  import opened Wrappers
  import opened RefreshFamilies

  lemma CallsStay(s: Auth, s': Auth)
    requires forall c: CallId :: CallOk(s, s'.CallOf(c))
    requires s'.rotated == s.rotated && s.minted.Keys <= s'.minted.Keys && s.families <= s'.families
    requires forall h :: h in s.minted ==> s'.minted[h] == s.minted[h]
    requires forall h :: h in s.minted && Unused(s'.rows, h) ==> Unused(s.rows, h)
    ensures CallsOk(s')
  {
    forall c: CallId
      ensures CallOk(s', s'.CallOf(c))
    {
      assert CallOk(s, s'.CallOf(c));
    }
  }

  /** No presenter gains a claim and no row comes back to life. */
  lemma LineStays(s: Auth, s': Auth)
    requires OneLine(s) && OneUnused(s'.rows)
    requires forall h :: Unused(s'.rows, h) ==>
               (Unused(s.rows, h) && s'.rows[h] == s.rows[h]) || s'.rows[h].family !in s.families
    requires forall c: CallId :: s'.CallOf(c).Marked? ==>
               s'.CallOf(c) == s.CallOf(c) && s.CallOf(c).token.family in s.families
    ensures OneLine(s')
  {
    forall c: CallId
      ensures NoneBeside(s', c)
    {
      assert NoneBeside(s, c);
    }
    forall b: CallId, c: CallId
      ensures OneClaim(s', b, c)
    {
      assert OneClaim(s, b, c);
    }
  }

  /** A call that moves without winning the update, and rows that only go. */
  lemma LoseKeeps(s: Auth, c: CallId, call: Call, rows: Table)
    requires AuthInv(s) && !call.Marked? && CallOk(s, call)
    requires forall h :: h in rows ==> h in s.rows && rows[h] == s.rows[h]
    ensures AuthInv(s.(rows := rows).With(c, call))
  {
    var s' := s.(rows := rows).With(c, call);
    forall b: CallId
      ensures CallOk(s, s'.CallOf(b))
    {
      assert CallOk(s, s.CallOf(b));
    }
    CallsStay(s, s');
    LineStays(s, s');
  }

  lemma RemoveKeeps(s: Auth, rows: Table)
    requires AuthInv(s)
    requires forall h :: h in rows ==> h in s.rows && rows[h] == s.rows[h]
    ensures AuthInv(s.(rows := rows))
  {
    var s' := s.(rows := rows);
    assert forall b: CallId :: CallOk(s, s.CallOf(b)) && s'.CallOf(b) == s.CallOf(b);
    CallsStay(s, s');
    LineStays(s, s');
  }

  lemma IssueKeeps(s: Auth, user: nat, family: nat, hash: Hash, expiresAt: int)
    requires AuthInv(s) && family !in s.families && hash !in s.minted
    ensures AuthInv(IssueStep(s, user, family, hash, expiresAt))
  {
    var s' := IssueStep(s, user, family, hash, expiresAt);
    assert forall b: CallId :: CallOk(s, s.CallOf(b)) && s'.CallOf(b) == s.CallOf(b);
    CallsStay(s, s');
    LineStays(s, s');
  }

  /** Winning the update moves the family's place from the row to the presenter. */
  lemma ConsumeLine(s: Auth, c: CallId, hash: Hash, token: Token, now: int)
    requires RecordOk(s) && OneLine(s) && Known(s, hash, token.family) && Consumable(s.rows, hash, now)
    requires !s.CallOf(c).Marked?
    ensures OneLine(ConsumeStep(s, c, hash, token, now))
  {
    var s' := ConsumeStep(s, c, hash, token, now);
    assert Unused(s.rows, hash) && s.rows[hash].family == token.family;
    forall b: CallId
      ensures NoneBeside(s', b)
    {
      assert NoneBeside(s, b);
    }
    forall a: CallId, b: CallId
      ensures OneClaim(s', a, b)
    {
      assert OneClaim(s, a, b) && NoneBeside(s, a) && NoneBeside(s, b);
    }
  }

  lemma ConsumeKeeps(s: Auth, c: CallId, hash: Hash, token: Token, now: int)
    requires AuthInv(s) && s.CallOf(c) == Reading(hash, token, now) && Consumable(s.rows, hash, now)
    ensures AuthInv(ConsumeStep(s, c, hash, token, now))
  {
    var s' := ConsumeStep(s, c, hash, token, now);
    assert CallOk(s, s.CallOf(c));
    ConsumeLine(s, c, hash, token, now);
    assert Unused(s.rows, hash);
    forall b: CallId
      ensures CallOk(s', s'.CallOf(b))
    {
      assert CallOk(s, s.CallOf(b));
    }
  }

  /** Inserting the successor moves it back to a row. */
  lemma MintLine(s: Auth, c: CallId, parent: Hash, token: Token, hash: Hash, expiresAt: int)
    requires OneLine(s) && s.CallOf(c) == Marked(parent, token)
    ensures OneLine(MintStep(s, c, parent, token, hash, expiresAt))
  {
    var s' := MintStep(s, c, parent, token, hash, expiresAt);
    assert NoneBeside(s, c);
    forall b: CallId
      ensures NoneBeside(s', b)
    {
      assert NoneBeside(s, b) && OneClaim(s, c, b);
    }
    forall a: CallId, b: CallId
      ensures OneClaim(s', a, b)
    {
      assert OneClaim(s, a, b);
    }
  }

  lemma MintCalls(s: Auth, c: CallId, parent: Hash, token: Token, hash: Hash, expiresAt: int)
    requires CallsOk(s) && OneLine(s) && s.CallOf(c) == Marked(parent, token) && hash !in s.minted
    requires RecordOk(s)
    ensures CallsOk(MintStep(s, c, parent, token, hash, expiresAt))
  {
    var s' := MintStep(s, c, parent, token, hash, expiresAt);
    assert CallOk(s, s.CallOf(c));
    forall b: CallId
      ensures CallOk(s', s'.CallOf(b))
    {
      assert CallOk(s, s.CallOf(b)) && OneClaim(s, c, b);
    }
  }

  lemma MintKeeps(s: Auth, c: CallId, parent: Hash, token: Token, hash: Hash, expiresAt: int)
    requires AuthInv(s) && s.CallOf(c) == Marked(parent, token) && hash !in s.minted
    ensures AuthInv(MintStep(s, c, parent, token, hash, expiresAt))
  {
    assert CallOk(s, s.CallOf(c));
    MintLine(s, c, parent, token, hash, expiresAt);
    MintCalls(s, c, parent, token, hash, expiresAt);
  }

  lemma StepKeeps(s: Auth, ev: Event)
    requires AuthInv(s) && Enabled(s, ev)
    ensures AuthInv(Step(s, ev))
  {
    match ev
    case Issue(user, family, hash, expiresAt) => IssueKeeps(s, user, family, hash, expiresAt);
    case Read(c, hash, now) => LoseKeeps(s, c, ReadStep(s, c, hash, now).CallOf(c), s.rows);
    case Consume(c) =>
      var call := s.CallOf(c);
      assert CallOk(s, call);
      if Consumable(s.rows, call.hash, call.now) {
        ConsumeKeeps(s, c, call.hash, call.token, call.now);
      } else {
        LoseKeeps(s, c, Late(call.token, call.now, call.now), s.rows);
      }
    case Mint(c, hash, expiresAt) => MintKeeps(s, c, s.CallOf(c).hash, s.CallOf(c).token, hash, expiresAt);
    case Judge(c) => LoseKeeps(s, c, Idle, Step(s, ev).rows);
    case Remove(hashes) => RemoveKeeps(s, s.rows - hashes);
    case Die(c) => LoseKeeps(s, c, Idle, s.rows);
  }

  ghost predicate Reachable(s: Auth) {
    exists events :: Valid(FRESH, events) && s == Run(FRESH, events)
  }

  lemma {:induction false} RunKeeps(s: Auth, events: seq<Event>)
    requires AuthInv(s) && Valid(s, events)
    ensures AuthInv(Run(s, events))
  {
    if events != [] {
      RunKeeps(s, events[..|events| - 1]);
      StepKeeps(Run(s, events[..|events| - 1]), events[|events| - 1]);
    }
  }

  lemma ReachableHolds(s: Auth)
    requires Reachable(s)
    ensures AuthInv(s)
  {
    var events :| Valid(FRESH, events) && s == Run(FRESH, events);
    assert forall c: CallId :: FRESH.CallOf(c).Idle?;
    RunKeeps(FRESH, events);
  }

  /**
   * Under any interleaving of presenters, revocations and sweeps: no token is ever rotated twice, and no family ever
   * has two unused rows.
   */
  lemma RotatesAtMostOnce(s: Auth)
    requires Reachable(s)
    ensures forall i, j :: 0 <= i < j < |s.rotated| ==> s.rotated[i] != s.rotated[j]
    ensures forall h, k :: Unused(s.rows, h) && Unused(s.rows, k) && s.rows[h].family == s.rows[k].family ==> h == k
  {
    ReachableHolds(s);
  }

  // -- Families ----------------------------------------------------------------

  /** The token minted `depth` rotations after another. */
  predicate Descends(minted: map<Hash, Minted>, ancestor: Hash, h: Hash, depth: nat)
    decreases depth
  {
    if depth == 0 then h == ancestor && h in minted
    else h in minted && minted[h].parent.Some? && Descends(minted, ancestor, minted[h].parent.value, depth - 1)
  }

  /** Every token minted transitively from a token is of its family. */
  lemma {:induction false} DescendantsShareFamily(s: Auth, ancestor: Hash, h: Hash, depth: nat)
    requires Reachable(s) && Descends(s.minted, ancestor, h, depth)
    ensures ancestor in s.minted && h in s.minted && s.minted[h].family == s.minted[ancestor].family
    decreases depth
  {
    ReachableHolds(s);
    if depth > 0 {
      DescendantsShareFamily(s, ancestor, s.minted[h].parent.value, depth - 1);
    }
  }

  /** Nothing of the family is left: no row, and no presenter about to insert one. */
  ghost predicate Dead(s: Auth, family: nat) {
    && family in s.families
    && (forall h :: h in s.rows ==> s.rows[h].family != family)
    && (forall c: CallId :: !Claims(s.CallOf(c), family))
  }

  lemma DeadStays(s: Auth, ev: Event, family: nat)
    requires AuthInv(s) && Enabled(s, ev) && Dead(s, family)
    ensures Dead(Step(s, ev), family)
  {
    var s' := Step(s, ev);
    if ev.Consume? {
      assert CallOk(s, s.CallOf(ev.call));
    }
    forall c: CallId
      ensures !Claims(s'.CallOf(c), family)
    {
      assert !Claims(s.CallOf(c), family);
    }
  }

  lemma {:induction false} DeadForever(s: Auth, events: seq<Event>, family: nat)
    requires AuthInv(s) && Valid(s, events) && Dead(s, family)
    ensures Dead(Run(s, events), family)
  {
    if events != [] {
      var before := events[..|events| - 1];
      DeadForever(s, before, family);
      RunKeeps(s, before);
      DeadStays(Run(s, before), events[|events| - 1], family);
    }
  }

  /** Someone between the conditional update and the insert of this family. */
  ghost predicate InFlight(s: Auth, family: nat) {
    exists c: CallId :: Claims(s.CallOf(c), family)
  }

  /**
   * A replay judged as reuse after the grace window: the family is dead from then on exactly when no rotation of it was
   * between its conditional update and its insert at that moment.
   */
  lemma ReuseKillsExactlyWhen(s: Auth, c: CallId)
    requires Reachable(s) && s.CallOf(c).Late? && s.CallOf(c).now - s.CallOf(c).usedAt > REUSE_GRACE
    ensures var family, s' := s.CallOf(c).token.family, Step(s, Judge(c));
            && (forall h :: h in s'.rows ==> s'.rows[h].family != family)
            && (!InFlight(s, family) <==> forall events :: Valid(s', events) ==> NoRows(Run(s', events), family))
  {
    ReachableHolds(s);
    var family, s' := s.CallOf(c).token.family, Step(s, Judge(c));
    assert CallOk(s, s.CallOf(c));
    StepKeeps(s, Judge(c));
    if InFlight(s, family) {
      var b: CallId :| Claims(s.CallOf(b), family);
      var hash := NewHash(s'.minted);
      InsertRevives(s', b, hash);
    } else {
      forall b: CallId
        ensures !Claims(s'.CallOf(b), family)
      {
        assert !Claims(s.CallOf(b), family);
      }
      assert Dead(s', family);
      forall events | Valid(s', events)
        ensures NoRows(Run(s', events), family)
      {
        DeadForever(s', events, family);
      }
    }
  }

  predicate NoRows(s: Auth, family: nat) {
    forall h :: h in s.rows ==> s.rows[h].family != family
  }

  lemma NewHash(minted: map<Hash, Minted>) returns (hash: Hash)
    ensures hash !in minted
  {
    hash := Above(minted.Keys);
  }

  lemma {:induction false} Above(hashes: set<Hash>) returns (bound: Hash)
    ensures forall h :: h in hashes ==> h < bound
  {
    if hashes == {} {
      bound := 0;
    } else {
      var h :| h in hashes;
      var rest := Above(hashes - {h});
      bound := if h < rest then rest else h + 1;
      assert forall k :: k in hashes ==> k == h || k in hashes - {h};
    }
  }

  /** A rotation caught between update and insert brings the family back. */
  lemma InsertRevives(s: Auth, b: CallId, hash: Hash)
    requires s.CallOf(b).Marked? && hash !in s.minted
    ensures exists events :: Valid(s, events) && !NoRows(Run(s, events), s.CallOf(b).token.family)
  {
    var events := [Mint(b, hash, 0)];
    assert events[..0] == [];
    assert Valid(s, []) && Run(s, []) == s;
    assert hash in Run(s, events).rows;
  }

  lemma Extended(events: seq<Event>, ev: Event) returns (more: seq<Event>)
    requires Valid(FRESH, events) && Enabled(Run(FRESH, events), ev)
    ensures Valid(FRESH, more) && Run(FRESH, more) == Step(Run(FRESH, events), ev)
  {
    more := events + [ev];
    assert more[..|more| - 1] == events;
  }

  lemma FirstConsumed() returns (events: seq<Event>)
    ensures Valid(FRESH, events)
    ensures var s := Run(FRESH, events);
            && s.rows == map[0 := Token(7, 0, 1000, Some(0))] && s.minted == map[0 := Minted(0, None)]
            && s.calls == map[0 := Marked(0, Token(7, 0, 1000, None))]
  {
    events := Extended([], Issue(7, 0, 0, 1000));
    events := Extended(events, Read(0, 0, 0));
    events := Extended(events, Consume(0));
    assert Run(FRESH, events).calls == map[0 := Marked(0, Token(7, 0, 1000, None))];
  }

  /** One rotation, from 0 to 1, and the start of the next. */
  lemma RotatedOnceMore() returns (events: seq<Event>)
    ensures Valid(FRESH, events)
    ensures var s := Run(FRESH, events);
            && s.rows == map[0 := Token(7, 0, 1000, Some(0)), 1 := Token(7, 0, 1000, None)]
            && s.CallOf(1) == Reading(1, Token(7, 0, 1000, None), 100) && s.CallOf(2).Idle?
  {
    events := FirstConsumed();
    events := Extended(events, Mint(0, 1, 1000));
    events := Extended(events, Read(1, 1, 100));
  }

  /**
   * A run in which a replay is past the grace window while another rotation of its family is between update and insert:
   * the first successor is presented, consumed, and the stolen ancestor replayed before the second is inserted.
   */
  lemma ReplayMeetsRotation() returns (events: seq<Event>)
    ensures Valid(FRESH, events)
    ensures var s := Run(FRESH, events);
            && Reachable(s) && s.CallOf(2).Late? && s.CallOf(2).now - s.CallOf(2).usedAt > REUSE_GRACE
            && InFlight(s, s.CallOf(2).token.family)
  {
    events := RotatedOnceMore();
    events := Extended(events, Consume(1));
    events := Extended(events, Read(2, 0, 100));
    assert Claims(Run(FRESH, events).CallOf(1), 0);
  }

  /**
   * With no rotation of the family caught between update and insert, replaying a used, unexpired, unswept token after
   * the grace window leaves no row of any token minted from it, then or ever.
   */
  lemma ReplayKillsDescendants(s: Auth, c: CallId, hash: Hash, now: int, later: seq<Event>, h: Hash, depth: nat)
    requires Reachable(s) && s.CallOf(c).Idle?
    requires hash in s.rows && s.rows[hash].expiresAt > now && !InFlight(s, s.rows[hash].family)
    requires s.rows[hash].usedAt.Some? && now - s.rows[hash].usedAt.value > REUSE_GRACE
    requires var s' := Step(Step(s, Read(c, hash, now)), Judge(c));
             Valid(s', later) && Descends(Run(s', later).minted, hash, h, depth)
    ensures var s' := Step(Step(s, Read(c, hash, now)), Judge(c));
            h !in Run(s', later).rows
  {
    var family := s.rows[hash].family;
    var read := Step(s, Read(c, hash, now));
    var s' := Step(read, Judge(c));
    ReachableHolds(s);
    StepKeeps(s, Read(c, hash, now));
    StepKeeps(read, Judge(c));
    ReachStep(s, Read(c, hash, now));
    ReachStep(read, Judge(c));
    ReachRun(s', later);
    forall b: CallId
      ensures !Claims(s'.CallOf(b), family)
    {
      assert !Claims(s.CallOf(b), family);
    }
    assert Dead(s', family);
    DeadForever(s', later, family);
    var last := Run(s', later);
    DescendantsShareFamily(last, hash, h, depth);
    ReachableHolds(last);
    MintedStays(s', later, hash);
  }

  lemma ReachStep(s: Auth, ev: Event)
    requires Reachable(s) && Enabled(s, ev)
    ensures Reachable(Step(s, ev))
  {
    var events :| Valid(FRESH, events) && s == Run(FRESH, events);
    var more := events + [ev];
    assert more[..|more| - 1] == events;
    assert Valid(FRESH, more) && Step(s, ev) == Run(FRESH, more);
  }

  lemma {:induction false} ReachRun(s: Auth, events: seq<Event>)
    requires Reachable(s) && Valid(s, events)
    ensures Reachable(Run(s, events))
  {
    if events != [] {
      ReachRun(s, events[..|events| - 1]);
      ReachStep(Run(s, events[..|events| - 1]), events[|events| - 1]);
    }
  }

  lemma {:induction false} MintedStays(s: Auth, events: seq<Event>, hash: Hash)
    requires Valid(s, events) && hash in s.minted
    ensures hash in Run(s, events).minted && Run(s, events).minted[hash] == s.minted[hash]
  {
    if events != [] {
      MintedStays(s, events[..|events| - 1], hash);
    }
  }
}
