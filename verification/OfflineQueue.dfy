/**
 * The offline queue of chat-front/src/services/OfflineQueue.ts, the service worker's flush of chat-front/public/sw.js,
 * and the send that falls back to the queue in chat-front/src/hooks/useMessageDelivery.ts.
 */
module OfflineQueue {
  import opened Wrappers

  datatype Kind = Chatroom | Dm

  /**
   * A client message id as JavaScript compares it: rows of the first schema may lack it, and the server answers null
   * then.
   */
  datatype ClientId = Undefined | Null | Uuid(id: nat)

  datatype Item = Item(clientMessageId: ClientId, kind: Kind, queuedAt: int, payload: nat)

  type Store = map<nat, Item>

  /** One entry of a batch result, or one acknowledgement. */
  datatype Ack = Ack(clientMessageId: ClientId, ok: bool, duplicate: bool)

  /** What one HTTP request of the flush came to. */
  datatype Response = Status(code: nat) | NetworkError

  /** What the server did with one send, over either transport. */
  datatype Verdict =
    | Persisted | Absorbed                         // a new row, or the row it was before
    | SpentCounter                                 // another message has this E2EE counter
    | Malformed | Denied | NotFound                // refused for good
    | Unauthenticated                              // the access token has expired
    | Throttled | Crashed | Unavailable            // not now

  predicate IsAccepted(v: Verdict) {
    v.Persisted? || v.Absorbed?
  }

  predicate IsRefusal(v: Verdict) {
    v.SpentCounter? || v.Malformed? || v.Denied? || v.NotFound?
  }

  /** Over HTTP: @ResponseStatus of the controllers, the ApiException thrown, or the security chain's 401. */
  function StatusOf(v: Verdict): nat {
    match v
    case Persisted => 201
    case Absorbed => 201
    case Malformed => 400
    case Unauthenticated => 401
    case Denied => 403
    case NotFound => 404
    case SpentCounter => 409
    case Throttled => 429
    case Crashed => 500
    case Unavailable => 503
  }

  /** Over the socket: Ack.ok, or Ack.fail with the client id as the server has it. */
  function AckOf(clientMessageId: ClientId, v: Verdict): Ack {
    Ack(if clientMessageId.Uuid? then clientMessageId else Null, IsAccepted(v), v.Absorbed?)
  }

  predicate Confirms(ack: Ack) {
    ack.ok || ack.duplicate
  }

  /** Accepted, a duplicate, or refused for good; 429, server errors and lost connections are to be retried. */
  predicate Settles(r: Response) {
    r.Status? && (200 <= r.code < 300 || (400 <= r.code < 500 && r.code != 429))
  }

  function Without(store: Store, ids: seq<nat>): Store {
    map id | id in store && id !in ids :: store[id]
  }

  /** The first result for a client id. */
  function Find(results: seq<Ack>, clientMessageId: ClientId): Option<Ack> {
    if results == [] then None
    else if results[0].clientMessageId == clientMessageId then Some(results[0])
    else Find(results[1..], clientMessageId)
  }

  predicate IsConfirmed(results: seq<Ack>, item: Item) {
    var r := Find(results, item.clientMessageId);
    r.Some? && Confirms(r.value)
  }

  /** The first result for an id is the one before which there is none. */
  lemma {:induction false} FindsFirst(results: seq<Ack>, clientMessageId: ClientId)
    ensures match Find(results, clientMessageId)
            case None => forall r :: r in results ==> r.clientMessageId != clientMessageId
            case Some(ack) =>
              exists i :: 0 <= i < |results| && results[i] == ack && ack.clientMessageId == clientMessageId
                                && forall j :: 0 <= j < i ==> results[j].clientMessageId != clientMessageId
  {
    if results != [] && results[0].clientMessageId != clientMessageId {
      FindsFirst(results[1..], clientMessageId);
      match Find(results[1..], clientMessageId)
      case None =>
        assert forall r :: r in results ==> r == results[0] || r in results[1..];
      case Some(ack) =>
        var i :| 0 <= i < |results| - 1 && results[1..][i] == ack
                 && forall j :: 0 <= j < i ==> results[1..][j].clientMessageId != clientMessageId;
        assert results[i + 1] == ack;
        assert forall j :: 0 < j < i + 1 ==> results[j] == results[1..][j - 1];
    }
  }

  /**
   * A row without a client id is never confirmed: the server answers it with null, which is not undefined. So a drain
   * never removes it, and sends it again each time.
   */
  lemma NamelessIsNeverConfirmed(results: seq<Ack>, item: Item)
    requires item.clientMessageId.Undefined? && forall r :: r in results ==> !r.clientMessageId.Undefined?
    ensures !IsConfirmed(results, item)
  {
    FindsFirst(results, item.clientMessageId);
  }

  // -- What takes an item out of the queue -------------------------------------

  /** A flush drops exactly what the server took, what it refused for good, and what it would not authenticate. */
  lemma SettledExactlyWhen(v: Verdict)
    ensures Settles(Status(StatusOf(v))) <==> IsAccepted(v) || IsRefusal(v) || v.Unauthenticated?
  {
  }

  /** A drain over the socket drops an item exactly when the first result for its client id is ok or a duplicate. */
  lemma ConfirmedExactlyWhen(results: seq<Ack>, item: Item)
    ensures IsConfirmed(results, item) <==>
              exists i :: 0 <= i < |results| && results[i].clientMessageId == item.clientMessageId
                          && (results[i].ok || results[i].duplicate)
                          && forall j :: 0 <= j < i ==> results[j].clientMessageId != item.clientMessageId
  {
    FindsFirst(results, item.clientMessageId);
  }

  /** The server's answer to a batch: one result per item, in order. */
  function BatchResults(items: seq<Item>, verdicts: seq<Verdict>): (results: seq<Ack>)
    requires |items| == |verdicts|
  {
    seq(|items|, i requires 0 <= i < |items| => AckOf(items[i].clientMessageId, verdicts[i]))
  }

  /**
   * Of a batch exactly the items that the server took are dropped, if no item before it has the same client id; and
   * never an item without a client id.
   */
  lemma BatchConfirmsExactlyWhen(items: seq<Item>, verdicts: seq<Verdict>, k: nat)
    requires |items| == |verdicts| && k < |items| && !items[k].clientMessageId.Null?
    requires items[k].clientMessageId.Uuid? ==>
               forall i :: 0 <= i < k ==> items[i].clientMessageId != items[k].clientMessageId
    ensures IsConfirmed(BatchResults(items, verdicts), items[k]) <==>
              items[k].clientMessageId.Uuid? && IsAccepted(verdicts[k])
  {
    var results := BatchResults(items, verdicts);
    if items[k].clientMessageId.Undefined? {
      NamelessIsNeverConfirmed(results, items[k]);
    } else {
      FirstIsFound(results, k);
      assert results[k] == AckOf(items[k].clientMessageId, verdicts[k]);
    }
  }

  lemma FirstIsFound(results: seq<Ack>, k: nat)
    requires k < |results|
    requires forall j :: 0 <= j < k ==> results[j].clientMessageId != results[k].clientMessageId
    ensures Find(results, results[k].clientMessageId) == Some(results[k])
  {
    FindsFirst(results, results[k].clientMessageId);
  }

  // -- The order of a flush ----------------------------------------------------

  /** Ids in the order of queuedAt. */
  predicate Sorted(store: Store, ids: seq<nat>) {
    && (forall i :: 0 <= i < |ids| ==> ids[i] in store)
    && (forall i, j :: 0 <= i < j < |ids| ==> store[ids[i]].queuedAt <= store[ids[j]].queuedAt)
  }

  predicate NoRepeats(ids: seq<nat>) {
    forall i, j :: 0 <= i < j < |ids| ==> ids[i] != ids[j]
  }

  predicate SameIds(a: seq<nat>, b: seq<nat>) {
    (forall id :: id in a ==> id in b) && (forall id :: id in b ==> id in a)
  }

  /** Every stored id once, oldest first. */
  ghost predicate IsQueueOrder(store: Store, ids: seq<nat>) {
    Sorted(store, ids) && NoRepeats(ids) && (forall id :: id in store <==> id in ids)
  }

  lemma InsertKeeps(store: Store, order: seq<nat>, at: nat, id: nat)
    requires Sorted(store, order) && NoRepeats(order) && at <= |order| && id in store && id !in order
    requires at > 0 ==> store[order[at - 1]].queuedAt <= store[id].queuedAt
    requires forall k :: at <= k < |order| ==> store[order[k]].queuedAt > store[id].queuedAt
    ensures Sorted(store, InsertAt(order, at, id)) && NoRepeats(InsertAt(order, at, id))
  {
    var longer := InsertAt(order, at, id);
    forall i, j | 0 <= i < j < |longer|
      ensures store[longer[i]].queuedAt <= store[longer[j]].queuedAt && longer[i] != longer[j]
    {
      if j > at && i < at {
        assert longer[j] == order[j - 1];
      }
    }
  }

  class Queue {
    var store: Store
    var nextId: nat

    ghost predicate Valid()
      reads this
    {
      forall id :: id in store ==> id < nextId
    }

    constructor ()
      ensures Valid() && store == map[]
    {
      store, nextId := map[], 0;
    }

    /** A new row under an id that no row ever had. */
    method Enqueue(item: Item) returns (id: nat)
      requires Valid()
      modifies this
      ensures Valid() && id == old(nextId) && id !in old(store) && store == old(store)[id := item] && nextId > id
    {
      id := nextId;
      store := store[id := item];
      nextId := nextId + 1;
    }

    method Remove(id: nat)
      requires Valid()
      modifies `store
      ensures Valid() && store == Without(old(store), [id])
    {
      store := store - {id};
    }

    /** All rows of a kind (or of both), by id. */
    method GetAll(kind: Option<Kind>) returns (ids: seq<nat>)
      requires Valid()
      ensures NoRepeats(ids) && forall id :: id in ids <==> id in store && (kind.Some? ==> store[id].kind == kind.value)
    {
      ids := [];
      for id := 0 to nextId
        invariant NoRepeats(ids)
        invariant forall k :: k in ids <==> k < id && k in store && (kind.Some? ==> store[k].kind == kind.value)
      {
        if id in store && (kind.None? || store[id].kind == kind.value) {
          ids := ids + [id];
        }
      }
    }

    // -- Draining over the socket ----------------------------------------------

    /**
     * The listener of drain(): `items` is the snapshot taken when the batch was sent, and other rows may have come
     * since. Exactly the snapshot's confirmed items go.
     */
    method OnDrainResult(items: map<nat, Item>, ids: seq<nat>, results: seq<Ack>)
      requires Valid() && forall id :: id in ids ==> id in items
      modifies `store
      ensures Valid()
      ensures forall id :: id in store <==> id in old(store) && !(id in ids && IsConfirmed(results, items[id]))
      ensures forall id :: id in store ==> store[id] == old(store)[id]
    {
      for i := 0 to |ids|
        invariant Valid()
        invariant forall id :: id in store <==> id in old(store) && !(id in ids[..i] && IsConfirmed(results, items[id]))
        invariant forall id :: id in store ==> store[id] == old(store)[id]
      {
        assert forall id :: id in ids[..i + 1] <==> id in ids[..i] || id == ids[i];
        var r := Find(results, items[ids[i]].clientMessageId);
        if r.Some? && Confirms(r.value) {
          Remove(ids[i]);
        }
      }
      assert ids[..|ids|] == ids;
    }

    /** drainDms(): one direct message after the other, each removed only on its own acknowledgement. */
    method DrainDms(acks: seq<Ack>) returns (ghost ids: seq<nat>)
      requires Valid()
      modifies `store
      ensures Valid()
      ensures NoRepeats(ids) && forall id :: id in ids <==> id in old(store) && old(store)[id].kind == Dm
      ensures forall id :: id in store <==>
                id in old(store) && !(exists i :: 0 <= i < |ids| && i < |acks| && ids[i] == id && Confirms(acks[i]))
      ensures forall id :: id in store ==> store[id] == old(store)[id]
    {
      var list := GetAll(Some(Dm));
      ids := list;
      for i := 0 to |list|
        invariant Valid()
        invariant forall id :: id in store <==>
                    id in old(store) && !(exists k :: 0 <= k < i && k < |acks| && list[k] == id && Confirms(acks[k]))
        invariant forall id :: id in store ==> store[id] == old(store)[id]
      {
        // no acknowledgement in time counts as a server error
        if i < |acks| && Confirms(acks[i]) {
          Remove(list[i]);
        }
      }
    }

    // -- The service worker ----------------------------------------------------

    /** Stable insertion by queuedAt. */
    method SortedIds(ids: seq<nat>) returns (order: seq<nat>)
      requires NoRepeats(ids) && forall i :: 0 <= i < |ids| ==> ids[i] in store
      ensures Sorted(store, order) && NoRepeats(order) && SameIds(ids, order) && |order| == |ids|
    {
      order := [];
      for i := 0 to |ids|
        invariant |order| == i && Sorted(store, order) && NoRepeats(order) && SameIds(ids[..i], order)
      {
        var at := |order|;
        while at > 0 && store[order[at - 1]].queuedAt > store[ids[i]].queuedAt
          invariant 0 <= at <= |order|
          invariant forall k :: at <= k < |order| ==> store[order[k]].queuedAt > store[ids[i]].queuedAt
        {
          at := at - 1;
        }
        assert ids[i] !in order by {
          assert ids[i] !in ids[..i];
        }
        InsertKeeps(store, order, at, ids[i]);
        order := InsertAt(order, at, ids[i]);
        assert ids[..i + 1] == ids[..i] + [ids[i]];
      }
      assert ids[..|ids|] == ids;
    }

    /**
     * flushOutbox() with the answers its requests get. It does nothing while a window is open, and without a token;
     * else it removes exactly the first k rows of the queuedAt order, those whose requests were settled, and throws at
     * the next.
     */
    method FlushOutbox(windows: nat, authorized: bool, responses: seq<Response>)
        returns (thrown: bool, ghost order: seq<nat>, ghost k: nat)
      requires Valid()
      modifies `store
      ensures Valid() && IsQueueOrder(old(store), order) && k <= |order|
      ensures store == Without(old(store), order[..k])
      ensures k <= |responses|
      ensures forall i :: 0 <= i < k ==>
                responses[i].Status?
                && (200 <= responses[i].code <= 299 || (400 <= responses[i].code <= 499 && responses[i].code != 429))
      ensures windows > 0 || (order != [] && !authorized) ==> k == 0
      ensures windows == 0 && authorized ==> (thrown <==> k < |order|)
      ensures windows == 0 && authorized && k < |order| && k < |responses| ==>
                responses[k].NetworkError? || responses[k].code < 200 || 300 <= responses[k].code <= 399
                || responses[k].code == 429 || responses[k].code >= 500
    {
      var ids := GetAll(None);
      var list := SortedIds(ids);
      order, k, thrown := list, 0, false;
      assert store == Without(old(store), order[..0]);
      if windows > 0 || list == [] {
        return;
      }
      if !authorized {
        thrown := true;
        return;
      }
      for i := 0 to |list|
        invariant k == i <= |responses|
        invariant store == Without(old(store), order[..i])
        invariant forall j :: 0 <= j < i ==> Settles(responses[j])
      {
        if i >= |responses| || !Settles(responses[i]) {
          thrown := true;
          return;
        }
        Remove(list[i]);
        assert order[..i + 1] == order[..i] + [order[i]];
        k := k + 1;
      }
    }
  }

  function InsertAt(ids: seq<nat>, at: nat, id: nat): (longer: seq<nat>)
    requires at <= |ids|
    ensures |longer| == |ids| + 1 && longer[at] == id
    ensures forall i :: 0 <= i < at ==> longer[i] == ids[i]
    ensures forall i :: at < i <= |ids| ==> longer[i] == ids[i - 1]
    ensures forall x :: x in longer <==> x in ids || x == id
  {
    ids[..at] + [id] + ids[at..]
  }

  // -- A send over the socket --------------------------------------------------

  const MAX_RETRIES: nat := 4

  datatype AckError = RateLimited | InvalidMessage | Forbidden | ServerError

  /** What one emit comes to: an acknowledgement, or the socket's timeout. */
  datatype EmitResult = Acked(messageId: nat) | Nacked(error: AckError) | TimedOut

  datatype SendResult = Delivered(messageId: nat) | Failed(error: AckError) | Queued

  predicate Terminal(e: EmitResult) {
    e.Nacked? && e.error != ServerError
  }

  predicate Retryable(e: EmitResult) {
    !e.Acked? && !Terminal(e)
  }

  /**
   * send() of the hook, with what its emits come to. It resolves with the first final answer among at most five emits,
   * and otherwise puts the message, under the same client id, into the queue: it is never dropped, and never both.
   */
  method SendWithRetries(queue: Queue, item: Item, connected: bool, emits: seq<EmitResult>)
      returns (r: SendResult, emitted: nat)
    requires queue.Valid() && |emits| > MAX_RETRIES
    modifies queue
    ensures queue.Valid() && emitted <= MAX_RETRIES + 1
    ensures !connected ==> emitted == 0 && r == Queued
    ensures connected ==> emitted > 0 && forall i :: 0 <= i < emitted - 1 ==>
                            emits[i].TimedOut? || emits[i] == Nacked(ServerError)
    ensures connected ==> match emits[emitted - 1]
                          case Acked(id) => r == Delivered(id)
                          case TimedOut => r == Queued && emitted == MAX_RETRIES + 1
                          case Nacked(error) =>
                            if error == ServerError then r == Queued && emitted == MAX_RETRIES + 1
                            else r == Failed(error)
    ensures queue.store == if r == Queued then old(queue.store)[old(queue.nextId) := item] else old(queue.store)
  {
    if !connected {
      var id := queue.Enqueue(item);
      return Queued, 0;
    }
    var retries := 0;
    emitted := 0;
    while true
      invariant retries == emitted <= MAX_RETRIES
      invariant forall i :: 0 <= i < emitted ==> Retryable(emits[i])
      invariant queue.Valid() && queue.store == old(queue.store) && queue.nextId == old(queue.nextId)
      decreases MAX_RETRIES - retries
    {
      var e := emits[emitted];
      emitted := emitted + 1;
      if e.Acked? {
        return Delivered(e.messageId), emitted;
      } else if Terminal(e) {
        return Failed(e.error), emitted;
      } else if retries < MAX_RETRIES {
        retries := retries + 1;
      } else {
        var id := queue.Enqueue(item);
        return Queued, emitted;
      }
    }
  }
}
