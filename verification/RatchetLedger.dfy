/**
 * Conservation of message numbers through the list operations of the ratchet.
 *
 * A number is counted wherever it may be: among the accepted frames, the stored, the evicted and the expired keys.
 * Appending, splitting and removing change these counts as one would expect (KeyCountConcat, SplitCount, RemoveCount);
 * a skip adds each number of its range once, less what it evicts (RangeCount, SkipCount);
 * expiry moves numbers from stored to expired (ExpiryCount);
 * and a number is counted among the stored keys exactly when a key of it is there (StoredCounts, CountedStored).
 */
module RatchetLedger {
  import opened Wrappers
  import opened SymbolicCrypto
  import opened DoubleRatchet
  import opened RatchetRun

  lemma {:induction false} KeyCountConcat(x: seq<SkippedKey>, y: seq<SkippedKey>, id: NumberId)
    ensures KeyCount(x + y, id) == KeyCount(x, id) + KeyCount(y, id)
  {
    if x == [] {
      assert x + y == y;
    } else {
      KeyCountConcat(x[1..], y, id);
      assert (x + y)[1..] == x[1..] + y;
    }
  }

  lemma {:induction false} FrameCountAppend(x: seq<Frame>, f: Frame, id: NumberId)
    ensures FrameCount(x + [f], id) == FrameCount(x, id) + if IdOf(f) == id then 1 else 0
  {
    if x == [] {
      assert x + [f] == [f];
    } else {
      FrameCountAppend(x[1..], f, id);
      assert (x + [f])[1..] == x[1..] + [f];
    }
  }

  lemma {:induction false} StoredCounts(keys: seq<SkippedKey>, at: nat)
    requires at < |keys|
    ensures KeyCount(keys, (keys[at].dh, keys[at].n)) > 0
  {
    if at > 0 {
      StoredCounts(keys[1..], at - 1);
    }
  }

  lemma {:induction false} CountedStored(keys: seq<SkippedKey>, id: NumberId) returns (at: nat)
    requires KeyCount(keys, id) > 0
    ensures at < |keys| && id == (keys[at].dh, keys[at].n)
  {
    if (keys[0].dh, keys[0].n) == id {
      at := 0;
    } else {
      var rest := CountedStored(keys[1..], id);
      at := rest + 1;
    }
  }

  /** A range holds each of its numbers once and nothing else. */
  lemma {:induction false} RangeCount(dh: Option<KeyId>, ck: Secret, from: nat, count: nat, now: int, id: NumberId)
    ensures KeyCount(KeyRange(dh, ck, from, count, now), id) ==
              if id.0 == dh && from <= id.1 < from + count then 1 else 0
  {
    if count > 0 {
      var all, init := KeyRange(dh, ck, from, count, now), KeyRange(dh, ck, from, count - 1, now);
      RangeCount(dh, ck, from, count - 1, now, id);
      assert all == init + [all[count - 1]];
      KeyCountConcat(init, [all[count - 1]], id);
    }
  }

  /** Dropping the oldest keys only moves them from the store to the evicted. */
  lemma SplitCount(keys: seq<SkippedKey>, k: nat, id: NumberId)
    requires k <= |keys|
    ensures KeyCount(keys[k..], id) + KeyCount(keys[..k], id) == KeyCount(keys, id)
  {
    assert keys == keys[..k] + keys[k..];
    KeyCountConcat(keys[..k], keys[k..], id);
  }

  lemma RemoveCount(keys: seq<SkippedKey>, at: nat, id: NumberId)
    requires at < |keys|
    ensures KeyCount(keys, id) == KeyCount(keys[..at] + keys[at + 1..], id) +
              if (keys[at].dh, keys[at].n) == id then 1 else 0
  {
    assert keys[at..][1..] == keys[at + 1..];
    SplitCount(keys, at, id);
    KeyCountConcat(keys[..at], keys[at + 1..], id);
  }

  lemma {:induction false} ExpiryCount(keys: seq<SkippedKey>, maxAge: int, now: int, id: NumberId)
    ensures KeyCount(Younger(keys, maxAge, now), id) + KeyCount(Older(keys, maxAge, now), id) == KeyCount(keys, id)
  {
    if keys != [] {
      ExpiryCount(keys[1..], maxAge, now, id);
      KeyCountConcat([keys[0]], Younger(keys[1..], maxAge, now), id);
      KeyCountConcat([keys[0]], Older(keys[1..], maxAge, now), id);
    }
  }

  /** The length of the range SkipUntil stores. */
  function Gap(s: RatchetState, until: nat): nat {
    if s.ckr.Some? && until > s.nr then until - s.nr else 0
  }

  function Range(s: RatchetState, until: nat, now: int): seq<SkippedKey> {
    if s.ckr.Some? then KeyRange(s.dhr, s.ckr.value, s.nr, Gap(s, until), now) else []
  }

  /** SkipUntil adds each number it passes once, to the store or to the evicted. */
  lemma SkipCount(s: RatchetState, until: nat, now: int, id: NumberId)
    requires SkipUntil(s, until, now).Ok?
    ensures var skip := SkipUntil(s, until, now).value;
            KeyCount(skip.next.skipped, id) + KeyCount(skip.evicted, id) ==
            KeyCount(s.skipped, id) + if id.0 == s.dhr && s.nr <= id.1 < s.nr + Gap(s, until) then 1 else 0
  {
    if s.ckr.Some? {
      var all := s.skipped + Range(s, until, now);
      KeyCountConcat(s.skipped, Range(s, until, now), id);
      RangeCount(s.dhr, s.ckr.value, s.nr, Gap(s, until), now, id);
      SplitCount(all, Overflow(all), id);
    }
  }
}
