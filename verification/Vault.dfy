/**
 * The conversation vault of chat-front/src/crypto/vault.ts, for one conversation: one data key, and under it the
 * ratchet sessions and the texts. A row opens only under the key it was sealed with.
 */
module Vault {
  import opened Wrappers
  import opened EnvelopeV2

  datatype TextKey = TextKey(sessionId: nat, senderId: nat, ctr: nat)

  datatype Row<T> = Row(dek: nat, value: T)

  datatype Store = Store(dek: Option<nat>, ratchets: map<nat, Row<RatchetSession>>, texts: map<TextKey, Row<string>>)

  const EMPTY: Store := Store(None, map[], map[])

  /** What reading one session row gives: nothing stored, a row the current key cannot open, or the session. */
  datatype Loaded = Missing | Unreadable | Found(session: RatchetSession)

  function OpenRow<T>(dek: Option<nat>, row: Row<T>): Option<T> {
    if dek == Some(row.dek) then Some(row.value) else None
  }

  function LoadMessage(s: Store, key: TextKey): Option<string> {
    if key in s.texts then OpenRow(s.dek, s.texts[key]) else None
  }

  function LoadRatchet(s: Store, sessionId: nat): Loaded {
    if s.dek.None? || sessionId !in s.ratchets then Missing
    else
      match OpenRow(s.dek, s.ratchets[sessionId])
      case None => Unreadable
      case Some(session) => Found(session)
  }

  /** One transaction: the advanced session and the text it produced, under the conversation's key, made if absent. */
  function Commit(s: Store, session: RatchetSession, key: TextKey, text: string, newDek: nat): Store {
    var dek := if s.dek.Some? then s.dek.value else newDek;
    Store(Some(dek), s.ratchets[session.sessionId := Row(dek, session)], s.texts[key := Row(dek, text)])
  }

  /** The same transaction without a text. */
  function CommitSession(s: Store, session: RatchetSession, newDek: nat): Store {
    var dek := if s.dek.Some? then s.dek.value else newDek;
    s.(dek := Some(dek), ratchets := s.ratchets[session.sessionId := Row(dek, session)])
  }

  datatype Text = Text(key: TextKey, text: string)

  /** A newest readable session, or none if no session is readable. */
  ghost predicate IsLatest(s: Store, latest: Option<RatchetSession>) {
    match latest
    case None => forall id :: id in s.ratchets ==> OpenRow(s.dek, s.ratchets[id]).None?
    case Some(session) =>
      && (exists id :: id in s.ratchets && OpenRow(s.dek, s.ratchets[id]) == Some(session))
      && (forall id :: id in s.ratchets ==>
            match OpenRow(s.dek, s.ratchets[id])
            case None => true
            case Some(other) => other.createdAt <= session.createdAt)
  }

  /** One more row: it is the newest if it opens and is newer. */
  lemma LatestAdds(s: Store, latest: Option<RatchetSession>, id: nat, row: Row<RatchetSession>)
    requires IsLatest(s, latest) && id !in s.ratchets
    ensures var session := OpenRow(s.dek, row);
            IsLatest(s.(ratchets := s.ratchets[id := row]),
                     if session.Some? && (latest.None? || latest.value.createdAt < session.value.createdAt)
                     then session else latest)
  {
    var more := s.ratchets[id := row];
    if latest.Some? {
      var at :| at in s.ratchets && OpenRow(s.dek, s.ratchets[at]) == latest;
      assert at in more && OpenRow(s.dek, more[at]) == latest;
    }
    assert more[id] == row;
  }

  /** Every row is sealed under the current key and filed under its own id. */
  ghost predicate Readable(s: Store) {
    && (s.dek.None? ==> s.ratchets == map[] && s.texts == map[])
    && (forall id :: id in s.ratchets ==> s.dek == Some(s.ratchets[id].dek) && s.ratchets[id].value.sessionId == id)
    && (forall key :: key in s.texts ==> s.dek == Some(s.texts[key].dek))
  }

  /** What was committed reads back, and nothing else moved. */
  lemma CommitReadsBack(s: Store, session: RatchetSession, key: TextKey, text: string, newDek: nat)
    requires Readable(s)
    ensures var s' := Commit(s, session, key, text, newDek);
            && Readable(s')
            && LoadRatchet(s', session.sessionId) == Found(session)
            && LoadMessage(s', key) == Some(text)
            && (forall id :: id != session.sessionId ==> LoadRatchet(s', id) == LoadRatchet(s, id))
            && (forall k :: k != key ==> LoadMessage(s', k) == LoadMessage(s, k))
  {
  }

  /** A session committed without a text reads back, and no text moved. */
  lemma SessionReadsBack(s: Store, session: RatchetSession, newDek: nat)
    requires Readable(s)
    ensures var s' := CommitSession(s, session, newDek);
            && Readable(s')
            && LoadRatchet(s', session.sessionId) == Found(session)
            && (forall id :: id != session.sessionId ==> LoadRatchet(s', id) == LoadRatchet(s, id))
            && (forall k :: LoadMessage(s', k) == LoadMessage(s, k))
  {
  }

  /** After shredding nothing is left to read. */
  lemma ShredForgets(id: nat, key: TextKey)
    ensures Readable(EMPTY) && LoadRatchet(EMPTY, id) == Missing && LoadMessage(EMPTY, key) == None
            && IsLatest(EMPTY, None)
  {
  }

  /** The rows as they linger when the conversation's key is gone, or another has been made since. */
  predicate Lingers(s: Store, s': Store) {
    s'.ratchets == s.ratchets && s'.texts == s.texts && s.dek.Some? && s'.dek != s.dek
  }

  /**
   * Cryptographic shredding: with the key gone nothing that was sealed under it opens, even if every row is still there
   * and whatever key is made later.
   */
  lemma KeyGoneNothingOpens(s: Store, s': Store, id: nat, key: TextKey)
    requires Readable(s) && Lingers(s, s')
    ensures LoadMessage(s', key).None? && !LoadRatchet(s', id).Found? && IsLatest(s', None)
  {
  }

  /** The object stores as they are changed in place. */
  class VaultDb {
    var dek: Option<nat>
    var ratchets: map<nat, Row<RatchetSession>>
    var texts: map<TextKey, Row<string>>

    ghost function Value(): Store
      reads this
    {
      Store(dek, ratchets, texts)
    }

    constructor ()
      ensures Value() == EMPTY
    {
      dek, ratchets, texts := None, map[], map[];
    }

    /**
     * The conversation's key, if there is one or one is to be made. Between the look and the `add` another tab may have
     * added its own: then that one stays and is the answer.
     */
    method Dek(create: bool, newDek: nat, racing: Option<nat>) returns (key: Option<nat>)
      modifies `dek
      ensures key ==
                if old(dek).Some? then old(dek)
                else if !create then None
                else if racing.Some? then racing
                else Some(newDek)
      ensures dek == if create then key else old(dek)
    {
      if dek.Some? || !create {
        return dek;
      }
      if racing.Some? {
        dek := racing;
      }
      if dek.None? {
        dek := Some(newDek);
      }
      key := dek;
    }

    method PutCommit(session: RatchetSession, message: Option<Text>, newDek: nat)
      modifies this
      ensures Value() == match message
                         case Some(m) => Commit(old(Value()), session, m.key, m.text, newDek)
                         case None => CommitSession(old(Value()), session, newDek)
    {
      var k := Dek(true, newDek, None);
      var sealedSession := Row(k.value, session);
      ratchets := ratchets[session.sessionId := sealedSession];
      if message.Some? {
        texts := texts[message.value.key := Row(k.value, message.value.text)];
      }
    }

    method Text(key: TextKey) returns (text: Option<string>)
      ensures text == LoadMessage(Value(), key)
    {
      text := if key in texts then OpenRow(dek, texts[key]) else None;
    }

    method Session(sessionId: nat) returns (loaded: Loaded)
      ensures loaded == LoadRatchet(Value(), sessionId)
    {
      if dek.None? || sessionId !in ratchets {
        return Missing;
      }
      var session := OpenRow(dek, ratchets[sessionId]);
      loaded := if session.Some? then Found(session.value) else Unreadable;
    }

    /** Scans every session row and keeps the newest one that opens. */
    method Latest() returns (latest: Option<RatchetSession>)
      ensures IsLatest(Value(), latest)
    {
      latest := None;
      if dek.None? {
        return;
      }
      var rest := ratchets.Keys;
      while rest != {}
        invariant rest <= ratchets.Keys
        invariant IsLatest(Store(dek, ratchets - rest, texts), latest)
        decreases |rest|
      {
        var id :| id in rest;
        LatestAdds(Store(dek, ratchets - rest, texts), latest, id, ratchets[id]);
        assert ratchets - (rest - {id}) == (ratchets - rest)[id := ratchets[id]];
        rest := rest - {id};
        var session := OpenRow(dek, ratchets[id]);
        if session.Some? && (latest.None? || latest.value.createdAt < session.value.createdAt) {
          latest := session;
        }
      }
      assert ratchets - rest == ratchets;
    }

    /** One transaction: the key first, then every sealed row under a cursor. Returns how many rows went. */
    method Shred() returns (removed: nat)
      modifies this
      ensures Value() == EMPTY
      ensures removed == old(|ratchets| + |texts|)
    {
      dek := None;
      removed := 0;
      while ratchets.Keys != {}
        invariant dek.None? && texts == old(texts)
        invariant removed + |ratchets| == old(|ratchets|)
        decreases |ratchets|
      {
        var id :| id in ratchets.Keys;
        assert |(ratchets - {id}).Keys| == |ratchets.Keys - {id}| by {
          assert (ratchets - {id}).Keys == ratchets.Keys - {id};
        }
        ratchets := ratchets - {id};
        removed := removed + 1;
      }
      while texts.Keys != {}
        invariant dek.None? && ratchets == map[]
        invariant removed + |texts| == old(|ratchets| + |texts|)
        decreases |texts|
      {
        var key :| key in texts.Keys;
        assert |(texts - {key}).Keys| == |texts.Keys - {key}| by {
          assert (texts - {key}).Keys == texts.Keys - {key};
        }
        texts := texts - {key};
        removed := removed + 1;
      }
    }
  }
}
