/** How old a stored message key is: over any run it carries the clock of the delivery that stored it. */
module RatchetAges {
  import opened Wrappers
  import opened SymbolicCrypto
  import opened DoubleRatchet
  import opened RatchetRun
  import RatchetReach

  /** Some delivery of the run, at the key's own time, stored it. */
  predicate WasStored(start: World, events: seq<Event>, role: Role, key: SkippedKey) {
    events != [] &&
    var earlier, ev := events[..|events| - 1], events[|events| - 1];
    var before, after := Run(start, earlier).Of(role).st.skipped, Run(start, events).Of(role).st.skipped;
    || WasStored(start, earlier, role, key)
    || (ev.Deliver? && ev.role == role && ev.now == key.at && key !in before && key in after)
  }

  lemma SkipAdds(s: RatchetState, until: nat, now: int, key: SkippedKey)
    requires SkipUntil(s, until, now).Ok? && key in SkipUntil(s, until, now).value.next.skipped
    ensures key in s.skipped || key.at == now
  {
  }

  lemma OpenAdds(s: RatchetState, message: RatchetMessage, ad: AssociatedData, now: int, evicted: seq<SkippedKey>,
                 key: SkippedKey)
    requires OpenNext(s, message, ad, now, evicted).Ok?
    requires key in OpenNext(s, message, ad, now, evicted).value.next.skipped
    ensures key in s.skipped || key.at == now
  {
    SkipAdds(s, message.header.n, now, key);
  }

  /** A delivery keeps keys, drops keys, and stores keys at its own time. */
  lemma DecryptAdds(s: RatchetState, message: RatchetMessage, ad: AssociatedData, now: int, newKey: KeyId,
                    key: SkippedKey)
    requires RatchetDecrypt(s, message, ad, now, newKey).Ok?
    requires key in RatchetDecrypt(s, message, ad, now, newKey).value.next.skipped
    ensures key in s.skipped || key.at == now
  {
    var at := FindSkipped(s.skipped, message.header);
    if at == |s.skipped| {
      if s.dhr != Some(message.header.dh) {
        var skip := SkipUntil(s, message.header.pn, now).value;
        OpenAdds(DhRatchet(skip.next, message.header, newKey), message, ad, now, skip.evicted, key);
        if key in skip.next.skipped {
          SkipAdds(s, message.header.pn, now, key);
        }
      } else {
        OpenAdds(s, message, ad, now, [], key);
      }
    }
  }

  lemma StepAdds(w: World, ev: Event, role: Role, key: SkippedKey)
    requires key in Step(w, ev).Of(role).st.skipped
    ensures key in w.Of(role).st.skipped || (ev.Deliver? && ev.role == role && ev.now == key.at)
  {
    match ev
    case Send(_, _, _) =>
    case Deliver(r, message, ad, now, newKey) =>
      if r == role && RatchetDecrypt(w.Of(r).st, message, ad, now, newKey).Ok? {
        DecryptAdds(w.Of(r).st, message, ad, now, newKey, key);
      }
    case Expire(r, maxAge, now) => RatchetReach.YoungerExactly(w.Of(r).st.skipped, maxAge, now);
  }

  /** Every stored key carries the time of a delivery that stored it. */
  lemma {:induction false} StoredIsDated(start: World, events: seq<Event>, role: Role, key: SkippedKey)
    requires start.Of(role).st.skipped == [] && key in Run(start, events).Of(role).st.skipped
    ensures WasStored(start, events, role, key)
  {
    if events != [] {
      var earlier := events[..|events| - 1];
      StepAdds(Run(start, earlier), events[|events| - 1], role, key);
      if key in Run(start, earlier).Of(role).st.skipped {
        StoredIsDated(start, earlier, role, key);
      }
    }
  }

  /**
   * In every run of a session an expiry leaves a stored key exactly when the delivery that stored it is no longer ago
   * than maxAge.
   */
  lemma ExpiresExactlyWhen(s: Setup, events: seq<Event>, role: Role, maxAge: int, now: int, key: SkippedKey)
    requires key in Run(Start(s), events).Of(role).st.skipped
    ensures WasStored(Start(s), events, role, key)
    ensures key in Step(Run(Start(s), events), Expire(role, maxAge, now)).Of(role).st.skipped <==>
            now - key.at <= maxAge
  {
    StoredIsDated(Start(s), events, role, key);
    RatchetReach.YoungerExactly(Run(Start(s), events).Of(role).st.skipped, maxAge, now);
  }
}
