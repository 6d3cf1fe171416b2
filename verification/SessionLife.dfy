/** One v2 session over any sequence of seals and openings: its counters, its init block, and when it can send. */
module SessionLife {
  import opened Wrappers
  import opened SymbolicCrypto
  import opened EnvelopeV2

  datatype Op =
    | Sealing(senderId: nat, text: string)
    | Opening(senderId: nat, envelope: Envelope, now: int, newKey: KeyId)

  /** A failed operation leaves the session as it was. */
  function Apply(s: RatchetSession, op: Op): RatchetSession {
    match op
    case Sealing(senderId, text) => (match SealV2(s, senderId, text) case Ok(sealed) => sealed.next case Err(_) => s)
    case Opening(senderId, e, now, newKey) =>
      (match OpenV2(s, senderId, e, now, newKey) case Ok(plain) => plain.next case Err(_) => s)
  }

  function After(s: RatchetSession, ops: seq<Op>): RatchetSession {
    if ops == [] then s else Apply(After(s, ops[..|ops| - 1]), ops[|ops| - 1])
  }

  /** Some peer envelope was opened on the way. */
  predicate Heard(s: RatchetSession, ops: seq<Op>) {
    ops != [] &&
    var before, op := After(s, ops[..|ops| - 1]), ops[|ops| - 1];
    Heard(s, ops[..|ops| - 1]) || (op.Opening? && OpenV2(before, op.senderId, op.envelope, op.now, op.newKey).Ok?)
  }

  function Seals(ops: seq<Op>): nat {
    if ops == [] then 0 else Seals(ops[..|ops| - 1]) + if ops[|ops| - 1].Sealing? then 1 else 0
  }

  /**
   * The initiator can always seal; its envelopes number its own seals from 0, and carry the init block exactly until it
   * has opened an answer.
   */
  lemma {:induction false} InitiatorEnvelopes(conv: nat, peer: nat, identity: Identity, bundle: PeerBundle,
                                              sessionId: nat, ek: KeyId, firstKey: KeyId, now: int,
                                              ops: seq<Op>, senderId: nat, text: string)
    requires StartInitiator(conv, peer, identity, bundle, sessionId, ek, firstKey, now).Ok?
    ensures var s := StartInitiator(conv, peer, identity, bundle, sessionId, ek, firstKey, now).value;
            var sealed := SealV2(After(s, ops), senderId, text);
            && CanSend(After(s, ops)) && sealed.Ok?
            && sealed.value.envelope.sessionId == sessionId && sealed.value.envelope.ctr == Seals(ops)
            && sealed.value.envelope.init ==
                 if Heard(s, ops) then None else Some(InitBlock(ek, identity.x, bundle.spkId))
  {
    if ops != [] {
      var op := ops[|ops| - 1];
      InitiatorEnvelopes(conv, peer, identity, bundle, sessionId, ek, firstKey, now, ops[..|ops| - 1], senderId, text);
      if op.Sealing? {
        InitiatorEnvelopes(conv, peer, identity, bundle, sessionId, ek, firstKey, now, ops[..|ops| - 1], op.senderId,
                           op.text);
      }
    }
  }

  /** The responder can seal exactly once it has opened something, and never sends an init block. */
  lemma {:induction false} ResponderEnvelopes(conv: nat, peer: nat, sessionId: nat, identity: Identity, init: InitBlock,
                                              now: int, ops: seq<Op>, senderId: nat, text: string)
    requires StartResponder(conv, peer, sessionId, identity, init, now).Ok?
    ensures var s := StartResponder(conv, peer, sessionId, identity, init, now).value;
            var sealed := SealV2(After(s, ops), senderId, text);
            && (sealed.Ok? <==> Heard(s, ops))
            && (sealed.Ok? ==> sealed.value.envelope.sessionId == sessionId && sealed.value.envelope.init == None)
            && (!Heard(s, ops) ==> After(s, ops) == s)
  {
    if ops != [] {
      var op := ops[|ops| - 1];
      ResponderEnvelopes(conv, peer, sessionId, identity, init, now, ops[..|ops| - 1], senderId, text);
      if op.Sealing? {
        ResponderEnvelopes(conv, peer, sessionId, identity, init, now, ops[..|ops| - 1], op.senderId, op.text);
      }
    }
  }
}
