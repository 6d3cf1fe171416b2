/** One replica's sendDraft run to the end without interleaving, on the tables and the cache it changes in place. */
module RoomService {
  import opened Wrappers
  import opened RoomStore
  import opened RoomPipeline
  import opened RoomTheorems

  /** What a send meets before it is one: access to the room, tokens left, a sender that exists. */
  datatype Gate = Gate(access: bool, tokens: bool, known: bool)

  datatype Refusal = NoAccess | TooManyRequests | UnknownSender

  class MessageService {
    const db: MessageDb
    var cache: map<CacheKey, nat>

    ghost predicate Valid()
      reads this, db
    {
      && Unique(db.rows)
      && forall key :: key in cache ==> PointsTo(db.rows, cache[key], key.room, key.clientId)
    }

    constructor (tables: MessageDb)
      requires Unique(tables.rows)
      ensures Valid() && db == tables && cache == map[]
    {
      db := tables;
      cache := map[];
    }

    /** The row this message was already persisted as: through the cached id if it leads to a row of the room. */
    method Lookup(m: Message, lost: bool) returns (seen: Option<Row>)
      requires Valid()
      ensures seen == Persisted(db.rows, m)
    {
      if m.clientId.None? {
        return None;
      }
      var key := KeyOf(m);
      ghost var hit := if !lost && key in cache then Some(cache[key]) else None;
      CachedLookupExact(db.Value(), m, hit);
      if !lost && key in cache {
        seen := db.FindRow(cache[key]);
        if seen.Some? && seen.value.message.room == m.room {
          return;
        }
      }
      seen := db.FindClient(m.room, m.clientId.value);
    }

    /** First writer wins; a lost mark only costs a database lookup later. */
    method MarkSent(row: Row, lost: bool)
      requires Valid() && FindById(db.rows, row.id) == Some(row)
      modifies `cache
      ensures Valid()
    {
      if !lost && row.message.clientId.Some? && KeyOf(row.message) !in cache {
        cache := cache[KeyOf(row.message) := row.id];
      }
    }

    /**
     * Without access, over the rate limit, or for an unknown sender nothing is written. Else, whatever the cache holds
     * or loses, a send does to the tables, and answers, what the database alone would; a duplicate is answered before
     * the sender is looked up.
     */
    method SendDraft(draft: Message, gate: Gate, sequence: int, id: nat, lostLookup: bool, lostMark: bool)
        returns (r: Result<Answer, Refusal>)
      requires Valid() && FindById(db.rows, id).None?
      modifies db, `cache
      ensures Valid()
      ensures !gate.access ==> r == Err(NoAccess)
      ensures gate.access && !gate.tokens ==> r == Err(TooManyRequests)
      ensures gate.access && gate.tokens && !gate.known && Persisted(old(db.rows), draft).None? ==>
                r == Err(UnknownSender)
      ensures gate.access && gate.tokens && (gate.known || Persisted(old(db.rows), draft).Some?) ==>
                r.Ok? && Sent(db.Value(), r.value) == RoomStore.Send(old(db.Value()), draft.(sequence := sequence), id)
      ensures r.Err? ==> db.Value() == old(db.Value())
    {
      if !gate.access {
        return Err(NoAccess);
      }
      if !gate.tokens {
        return Err(TooManyRequests);
      }
      var seen := Lookup(draft, lostLookup);
      if seen.Some? {
        return Ok(Duplicate(seen.value));
      }
      if !gate.known {
        return Err(UnknownSender);
      }
      var toSave := draft.(sequence := sequence);
      ghost var before := db.rows;
      var saved := db.Persist(toSave, id);
      if saved.None? {
        var existing := None;
        if toSave.clientId.Some? {
          existing := db.FindClient(toSave.room, toSave.clientId.value);
        }
        return Ok(match existing case Some(row) => Duplicate(row) case None => Failed);
      }
      InsertUnique(before, toSave, id);
      FindByIdLast(before, saved.value);
      CacheSurvives(before, saved.value);
      MarkSent(saved.value, lostMark);
      r := Ok(Accepted(id, sequence, false));
    }

    lemma CacheSurvives(before: seq<Row>, row: Row)
      requires db.rows == before + [row]
      requires forall key :: key in cache ==> PointsTo(before, cache[key], key.room, key.clientId)
      ensures forall key :: key in cache ==> PointsTo(db.rows, cache[key], key.room, key.clientId)
    {
      forall key | key in cache
        ensures PointsTo(db.rows, cache[key], key.room, key.clientId)
      {
        FindByIdPrefix(before, [row], cache[key]);
      }
    }
  }
}
