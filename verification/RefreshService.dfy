/**
 * RefreshTokenService.java over RefreshTokenRepository.java, each call run as one transaction that changes the table in
 * place.
 */
module RefreshService {
  import opened Wrappers
  import opened RefreshFamilies

  datatype Outcome = Rotated | Unknown | Concurrent | Reused

  datatype Rotation = Rotation(outcome: Outcome, user: Option<nat>, revoked: nat)

  function FamilyRows(rows: Table, family: nat): set<Hash> {
    set h | h in rows && rows[h].family == family
  }

  /** The sessions that were signed out: unused, unexpired rows that are gone. */
  function SignedOut(before: Table, after: Table, now: int): set<Hash> {
    set h | h in before && h !in after && before[h].usedAt.None? && before[h].expiresAt > now
  }

  /** What presenting a token must do, from the rules of the reuse policy alone. */
  ghost predicate IsRotation(rows: Table, rows': Table, hash: Hash, now: int, newHash: Hash, expiresAt: int,
                             r: Rotation) {
    if hash !in rows || rows[hash].expiresAt <= now then
      rows' == rows && r == Rotation(Unknown, if hash in rows then Some(rows[hash].user) else None, 0)
    else
      var token := rows[hash];
      && r.user == Some(token.user)
      && (match token.usedAt
          case None =>
            && r.outcome == Rotated && r.revoked == 0
            && rows' == rows[hash := token.(usedAt := Some(now))]
                            [newHash := Token(token.user, token.family, expiresAt, None)]
          case Some(used) =>
            if now - used <= REUSE_GRACE then rows' == rows && r.outcome == Concurrent && r.revoked == 0
            else (r.outcome == Reused && rows' == WithoutFamily(rows, token.family)
                  && r.revoked == |FamilyRows(rows, token.family)|))
  }

  class RefreshTokens {
    var rows: Table

    constructor ()
      ensures rows == map[]
    {
      rows := map[];
    }

    // -- Repository ------------------------------------------------------------

    method FindByHash(hash: Hash) returns (row: Option<Token>)
      ensures row == if hash in rows then Some(rows[hash]) else None
    {
      row := if hash in rows then Some(rows[hash]) else None;
    }

    /** One conditional update; the count says whether this caller won. */
    method MarkUsed(hash: Hash, now: int) returns (updated: nat)
      modifies this
      ensures updated == if Consumable(old(rows), hash, now) then 1 else 0
      ensures rows == if updated == 1 then old(rows)[hash := old(rows)[hash].(usedAt := Some(now))] else old(rows)
    {
      updated := 0;
      if Consumable(rows, hash, now) {
        rows := rows[hash := rows[hash].(usedAt := Some(now))];
        updated := 1;
      }
    }

    method DeleteByFamily(family: nat) returns (deleted: nat)
      modifies this
      ensures rows == WithoutFamily(old(rows), family) && deleted == |FamilyRows(old(rows), family)|
    {
      var gone := FamilyRows(rows, family);
      deleted := |gone|;
      rows := rows - gone;
    }

    /** Everything of a user, but one family if one is to be kept. */
    method DeleteByUser(user: nat, keepFamily: Option<nat>)
      modifies this
      ensures forall h :: h in rows <==>
                h in old(rows) && (old(rows)[h].user != user || keepFamily == Some(old(rows)[h].family))
      ensures forall h :: h in rows ==> rows[h] == old(rows)[h]
    {
      rows := rows - set h | h in rows && rows[h].user == user && keepFamily != Some(rows[h].family);
    }

    // -- Service ---------------------------------------------------------------

    method Issue(user: nat, family: nat, hash: Hash, expiresAt: int)
      modifies this
      ensures rows == old(rows)[hash := Token(user, family, expiresAt, None)]
    {
      rows := rows[hash := Token(user, family, expiresAt, None)];
    }

    /** Consume the presented token and mint its successor, or answer the replay. */
    method Rotate(hash: Hash, now: int, newHash: Hash, expiresAt: int) returns (r: Rotation)
      modifies this
      ensures IsRotation(old(rows), rows, hash, now, newHash, expiresAt, r)
    {
      var row := FindByHash(hash);
      if row.None? || row.value.expiresAt <= now {
        return Rotation(Unknown, if row.None? then None else Some(row.value.user), 0);
      }
      var token := row.value;
      if token.usedAt.None? {
        var updated := MarkUsed(hash, now);
        if updated == 1 {
          Issue(token.user, token.family, newHash, expiresAt);
          return Rotation(Rotated, Some(token.user), 0);
        }
      }
      var usedAt := if token.usedAt.Some? then token.usedAt.value else now;
      if now - usedAt <= REUSE_GRACE {
        return Rotation(Concurrent, Some(token.user), 0);
      }
      var revoked := DeleteByFamily(token.family);
      r := Rotation(Reused, Some(token.user), revoked);
    }

    method Revoke(hash: Hash)
      modifies this
      ensures rows == if hash in old(rows) then WithoutFamily(old(rows), old(rows)[hash].family) else old(rows)
    {
      var row := FindByHash(hash);
      if row.Some? {
        var deleted := DeleteByFamily(row.value.family);
      }
    }

    /** After it, every row of the user that is left belongs to the current token's family; nobody else is touched. */
    method RevokeOthers(user: nat, current: Option<Hash>, now: int) returns (live: nat)
      modifies this
      ensures forall h :: h in rows ==> h in old(rows) && rows[h] == old(rows)[h]
      ensures forall h :: h in old(rows) && old(rows)[h].user != user ==> h in rows
      ensures forall h :: h in old(rows) && old(rows)[h].user == user ==>
                (h in rows <==>
                   current.Some? && current.value in old(rows)
                   && old(rows)[h].family == old(rows)[current.value].family)
      ensures live == |SignedOut(old(rows), rows, now)|
    {
      var keepFamily := None;
      if current.Some? {
        var row := FindByHash(current.value);
        keepFamily := if row.Some? then Some(row.value.family) else None;
      }
      ghost var before := rows;
      var others := set h | h in rows && rows[h].user == user && rows[h].usedAt.None? && rows[h].expiresAt > now
                    && keepFamily != Some(rows[h].family);
      live := |others|;
      DeleteByUser(user, keepFamily);
      assert others == SignedOut(before, rows, now);
    }

    /** Expired rows and rows used longer ago than a replay is plausible. */
    method SweepExpired(now: int)
      modifies this
      ensures forall h :: h in rows <==>
                && h in old(rows) && old(rows)[h].expiresAt >= now
                && (old(rows)[h].usedAt.None? || now - old(rows)[h].usedAt.value <= USED_ROW_RETENTION)
      ensures forall h :: h in rows ==> rows[h] == old(rows)[h]
    {
      var usedBefore := now - USED_ROW_RETENTION;
      rows := rows - set h | h in rows
                       && (rows[h].expiresAt < now || (rows[h].usedAt.Some? && rows[h].usedAt.value < usedBefore));
    }
  }

  // -- A whole rotation is a run of the split one ------------------------------

  /** The events of one uninterrupted rotate(). */
  function Uninterrupted(s: Auth, c: CallId, hash: Hash, now: int, newHash: Hash, expiresAt: int): seq<Event> {
    if hash !in s.rows || s.rows[hash].expiresAt <= now then [Read(c, hash, now)]
    else if s.rows[hash].usedAt.None? then [Read(c, hash, now), Consume(c), Mint(c, newHash, expiresAt)]
    else [Read(c, hash, now), Judge(c)]
  }

  lemma RunTwo(s: Auth, a: Event, b: Event)
    ensures Run(s, [a, b]) == Step(Step(s, a), b)
    ensures Valid(s, [a, b]) <==> Enabled(s, a) && Enabled(Step(s, a), b)
  {
    RunOne(s, a);
    assert [a, b][..1] == [a];
  }

  lemma RunOne(s: Auth, a: Event)
    ensures Run(s, [a]) == Step(s, a) && (Valid(s, [a]) <==> Enabled(s, a))
  {
    assert [a][..0] == [];
    assert Run(s, []) == s && Valid(s, []);
  }

  lemma RunThree(s: Auth, a: Event, b: Event, c: Event)
    ensures Run(s, [a, b, c]) == Step(Step(Step(s, a), b), c)
    ensures Valid(s, [a, b, c]) <==> Enabled(s, a) && Enabled(Step(s, a), b) && Enabled(Step(Step(s, a), b), c)
  {
    RunTwo(s, a, b);
    assert [a, b, c][..2] == [a, b];
  }

  /** What a presenter is told when one of its steps ends the call, and how many rows went with it. */
  function AnswerOf(s: Auth, ev: Event): Option<Rotation> {
    match ev
    case Read(c, hash, now) =>
      if hash !in s.rows then Some(Rotation(Unknown, None, 0))
      else if s.rows[hash].expiresAt <= now then Some(Rotation(Unknown, Some(s.rows[hash].user), 0))
      else None
    case Mint(c, _, _) =>
      if s.CallOf(c).Marked? then Some(Rotation(Rotated, Some(s.CallOf(c).token.user), 0)) else None
    case Judge(c) =>
      if !s.CallOf(c).Late? then None
      else
        var call := s.CallOf(c);
        if call.now - call.usedAt <= REUSE_GRACE then Some(Rotation(Concurrent, Some(call.token.user), 0))
        else Some(Rotation(Reused, Some(call.token.user), |FamilyRows(s.rows, call.token.family)|))
    case _ => None
  }

  /** What a judged reuse says it revoked is what its step takes out of the table. */
  lemma RevokedAreGone(s: Auth, c: CallId)
    requires s.CallOf(c).Late? && s.CallOf(c).now - s.CallOf(c).usedAt > REUSE_GRACE
    ensures AnswerOf(s, Judge(c)).value.revoked == |s.rows.Keys - Step(s, Judge(c)).rows.Keys|
  {
    assert s.rows.Keys - Step(s, Judge(c)).rows.Keys == FamilyRows(s.rows, s.CallOf(c).token.family);
  }

  /** The service's rotate() does to the table, and answers, what its steps do when nobody interrupts them. */
  lemma RotateIsUninterrupted(s: Auth, c: CallId, hash: Hash, now: int, newHash: Hash, expiresAt: int, rows': Table,
                              r: Rotation)
    requires s.CallOf(c).Idle? && newHash !in s.minted
    requires IsRotation(s.rows, rows', hash, now, newHash, expiresAt, r)
    ensures var events := Uninterrupted(s, c, hash, now, newHash, expiresAt);
            && Valid(s, events) && Run(s, events).rows == rows'
            && AnswerOf(Run(s, events[..|events| - 1]), events[|events| - 1]) == Some(r)
  {
    if hash !in s.rows || s.rows[hash].expiresAt <= now {
      RunOne(s, Read(c, hash, now));
      assert [Read(c, hash, now)][..0] == [];
    } else if s.rows[hash].usedAt.None? {
      RunTwo(s, Read(c, hash, now), Consume(c));
      RunThree(s, Read(c, hash, now), Consume(c), Mint(c, newHash, expiresAt));
      assert [Read(c, hash, now), Consume(c), Mint(c, newHash, expiresAt)][..2] == [Read(c, hash, now), Consume(c)];
    } else {
      RunOne(s, Read(c, hash, now));
      RunTwo(s, Read(c, hash, now), Judge(c));
      assert [Read(c, hash, now), Judge(c)][..1] == [Read(c, hash, now)];
    }
  }
}
