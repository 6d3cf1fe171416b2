/**
 * The receiving half of chat-front/src/crypto/doubleRatchet.ts as it runs: a working copy of the caller's state object,
 * changed step by step, handed back only when the message authenticated.
 */
module RatchetObject {
  import opened Wrappers
  import opened SymbolicCrypto
  import opened DoubleRatchet
  import opened RatchetLedger

  /** The evictions a decryption reports do not influence what it does. */
  lemma OpenNextForgets(s: RatchetState, message: RatchetMessage, ad: AssociatedData, now: int,
                        evicted: seq<SkippedKey>)
    ensures match (OpenNext(s, message, ad, now, evicted), OpenNext(s, message, ad, now, []))
            case (Ok(d), Ok(d0)) => d.plaintext == d0.plaintext && d.next == d0.next
            case (Err(e), Err(e0)) => e == e0
            case _ => false
  {
  }

  class Ratchet {
    var dhs: KeyId
    var dhr: Option<KeyId>
    var rk: Secret
    var cks: Option<Secret>
    var ckr: Option<Secret>
    var ns: nat
    var nr: nat
    var pn: nat
    var skipped: seq<SkippedKey>

    /** The value this object holds. */
    ghost function Value(): RatchetState
      reads this
    {
      RatchetState(dhs, dhr, rk, cks, ckr, ns, nr, pn, skipped)
    }

    /** A copy that shares nothing with its original. */
    constructor Copy(state: Ratchet)
      ensures Value() == state.Value()
    {
      dhs, dhr, rk, cks, ckr := state.dhs, state.dhr, state.rk, state.cks, state.ckr;
      ns, nr, pn, skipped := state.ns, state.nr, state.pn, state.skipped;
    }

    /** Derives and stores the keys of the numbers below `until`, oldest stored keys giving way; refuses long skips. */
    method SkipUntil(until: nat, now: int) returns (error: Option<RatchetError>)
      modifies this
      ensures error.Some? <==> DoubleRatchet.SkipUntil(old(Value()), until, now).Err?
      ensures error.Some? ==>
                Err(error.value) == DoubleRatchet.SkipUntil(old(Value()), until, now) && Value() == old(Value())
      ensures error.None? ==> Value() == DoubleRatchet.SkipUntil(old(Value()), until, now).value.next
    {
      if ckr.None? {
        return None;
      }
      if until - nr > MAX_SKIP {
        return Some(TooManySkipped);
      }
      var ck := ckr.value;
      ghost var start := nr;
      ghost var count := Gap(Value(), until);
      while nr < until
        invariant unchanged(`dhs, `dhr, `rk, `cks, `ckr, `ns, `pn)
        invariant start <= nr <= start + count
        invariant ck == Advance(ckr.value, nr - start)
        invariant skipped == old(skipped) + KeyRange(dhr, ckr.value, start, nr - start, now)
      {
        skipped := skipped + [SkippedKey(dhr, nr, MessageKey(ck), now)];
        ck := ChainNext(ck);
        nr := nr + 1;
      }
      ckr := Some(ck);
      if |skipped| > MAX_STORED_SKIPPED {
        skipped := skipped[|skipped| - MAX_STORED_SKIPPED..];
      }
      return None;
    }

    /** Turns the ratchet: a receiving chain toward the peer's new key, then a sending chain from a new own key. */
    method DhRatchet(header: Header, newKey: KeyId)
      modifies this
      ensures Value() == DoubleRatchet.DhRatchet(old(Value()), header, newKey)
    {
      pn := ns;
      ns := 0;
      nr := 0;
      dhr := Some(header.dh);
      var recv := Dh(dhs, header.dh);
      ckr := Some(ChainRoot(rk, recv));
      var recvRoot := RootKey(rk, recv);
      var send := Dh(newKey, header.dh);
      dhs := newKey;
      rk := RootKey(recvRoot, send);
      cks := Some(ChainRoot(recvRoot, send));
    }

    method IndexOf(header: Header) returns (at: nat)
      ensures at == FindSkipped(skipped, header)
    {
      at := 0;
      while at < |skipped|
        invariant at <= |skipped|
        invariant FindSkipped(skipped, header) == at + FindSkipped(skipped[at..], header)
      {
        if skipped[at].dh == Some(header.dh) && skipped[at].n == header.n {
          return;
        }
        assert skipped[at..][1..] == skipped[at + 1..];
        at := at + 1;
      }
    }

    /** The last part of a decryption: skip to the message's number and open it with that key. */
    method OpenNext(message: RatchetMessage, ad: AssociatedData, now: int) returns (r: Result<string, RatchetError>)
      modifies this
      ensures match DoubleRatchet.OpenNext(old(Value()), message, ad, now, [])
              case Err(e) => r == Err(e)
              case Ok(d) => r == Ok(d.plaintext) && Value() == d.next
    {
      var refused := SkipUntil(message.header.n, now);
      if refused.Some? {
        return Err(refused.value);
      }
      var ck := if ckr.Some? then ckr.value else DecodedNull;
      var plaintext := TryOpen(MessageKey(ck), message, ad);
      if plaintext.None? {
        return Err(AuthFailed);
      }
      ckr := Some(ChainNext(ck));
      nr := nr + 1;
      return Ok(plaintext.value);
    }

    /**
     * Transactional: the caller's object never changes; on success the result is a new object in the state that
     * RatchetDecrypt describes, on failure there is only the error.
     */
    static method RatchetDecrypt(state: Ratchet, message: RatchetMessage, ad: AssociatedData, now: int, newKey: KeyId)
      returns (r: Result<(string, Ratchet), RatchetError>)
      ensures state.Value() == old(state.Value())
      ensures match DoubleRatchet.RatchetDecrypt(state.Value(), message, ad, now, newKey)
              case Err(e) => r == Err(e)
              case Ok(d) => r.Ok? && r.value.0 == d.plaintext && fresh(r.value.1) && r.value.1.Value() == d.next
    {
      var work := new Ratchet.Copy(state);
      var header := message.header;
      var at := work.IndexOf(header);
      if at < |work.skipped| {
        var stored := TryOpen(work.skipped[at].mk, message, ad);
        if stored.None? {
          return Err(AuthFailed);
        }
        work.skipped := work.skipped[..at] + work.skipped[at + 1..];
        return Ok((stored.value, work));
      }
      if work.dhr != Some(header.dh) {
        var refused := work.SkipUntil(header.pn, now);
        if refused.Some? {
          return Err(refused.value);
        }
        ghost var evicted := DoubleRatchet.SkipUntil(state.Value(), header.pn, now).value.evicted;
        work.DhRatchet(header, newKey);
        OpenNextForgets(work.Value(), message, ad, now, evicted);
      } else if header.n < work.nr {
        return Err(DuplicateOrExpired);
      }
      var plaintext := work.OpenNext(message, ad, now);
      if plaintext.Err? {
        return Err(plaintext.error);
      }
      return Ok((plaintext.value, work));
    }
  }
}
