/**
 * From the offline queue to the room: any number of tabs and the service worker drain the queue while the room pipeline
 * runs with its replicas, and requests and answers are lost, delayed and repeated in between.
 */
module Outbox {
  import opened RoomStore
  import P = RoomPipeline
  import Q = OfflineQueue
  import T = RoomTheorems

  type AgentId = nat

  datatype Item = Item(room: nat, clientId: nat)

  /** An answer on its way to the client; the network may deliver it late, again, or never. */
  datatype Reply = Reply(item: Item, verdict: Q.Verdict)

  /** Who drains: a tab over its socket, or the service worker over HTTP. */
  datatype Agent = Tab(items: map<nat, Item>) | Worker(items: map<nat, Item>)

  datatype System = System(
    service: P.Service,
    queue: map<nat, Item>,
    nextId: nat,
    queued: map<nat, Item>,       // every item that was ever queued
    refused: set<Item>,           // what the server refused for good
    replies: set<Reply>,          // every answer the server ever sent
    agents: map<AgentId, Agent>)  // snapshots of the queue being drained

  const FRESH: System := System(P.FRESH, map[], 0, map[], {}, {}, map[])

  datatype Event =
    | Enqueue(item: Item)
    | Serve(step: P.Event)                              // a step of the room pipeline
    | Answer(entry: nat)                                // a returned answer leaves for the client
    | Refuse(item: Item, why: Q.Verdict)                // access revoked, room gone
    | Defer(item: Item, why: Q.Verdict)                 // no token, over the rate limit, a failing server
    | Snapshot(agent: AgentId, worker: bool)            // getAll, and the requests go out
    | Deliver(agent: AgentId, id: nat, reply: Reply)    // an answer reaches a drain
    | Close(agent: AgentId)                             // timeout, tab closed, worker stopped

  /** A tab looks the item up in the results of its batch; the worker looks at the status. */
  predicate Settles(agent: Agent, reply: Reply) {
    match agent
    case Tab(_) =>
      var id := Q.Uuid(reply.item.clientId);
      Q.IsConfirmed([Q.AckOf(id, reply.verdict)], Q.Item(id, Q.Chatroom, 0, 0))
    case Worker(_) => Q.Settles(Q.Status(Q.StatusOf(reply.verdict)))
  }

  function VerdictOf(answer: RoomStore.Answer): Q.Verdict
    requires answer.Accepted?
  {
    if answer.duplicate then Q.Absorbed else Q.Persisted
  }

  ghost predicate Enabled(s: System, ev: Event) {
    match ev
    case Serve(step) => P.Enabled(s.service, step)
    case Answer(k) =>
      k in s.service.returned && k < |s.service.log| && s.service.log[k].answer.Accepted?
      && s.service.log[k].m.clientId.Some?
    case Refuse(_, why) => Q.IsRefusal(why)
    case Defer(_, why) => !Q.IsRefusal(why) && !Q.IsAccepted(why)
    case Deliver(a, id, reply) =>
      a in s.agents && id in s.agents[a].items && reply in s.replies && reply.item == s.agents[a].items[id]
    case _ => true
  }

  function Step(s: System, ev: Event): System {
    match ev
    case Enqueue(item) =>
      s.(queue := s.queue[s.nextId := item], queued := s.queued[s.nextId := item], nextId := s.nextId + 1)
    case Serve(step) => s.(service := P.Step(s.service, step))
    case Answer(k) =>
      if k < |s.service.log| && s.service.log[k].m.clientId.Some? && s.service.log[k].answer.Accepted? then
        var m := s.service.log[k].m;
        s.(replies := s.replies + {Reply(Item(m.room, m.clientId.value), VerdictOf(s.service.log[k].answer))})
      else s
    case Refuse(item, why) => s.(refused := s.refused + {item}, replies := s.replies + {Reply(item, why)})
    case Defer(item, why) => s.(replies := s.replies + {Reply(item, why)})
    case Snapshot(a, worker) => s.(agents := s.agents[a := if worker then Worker(s.queue) else Tab(s.queue)])
    case Deliver(a, id, reply) =>
      if a in s.agents && Settles(s.agents[a], reply) then s.(queue := s.queue - {id}) else s
    case Close(a) => s.(agents := s.agents - {a})
  }

  function Run(s: System, events: seq<Event>): System {
    if events == [] then s else Step(Run(s, events[..|events| - 1]), events[|events| - 1])
  }

  ghost predicate Valid(s: System, events: seq<Event>) {
    events != [] ==>
      Valid(s, events[..|events| - 1]) && Enabled(Run(s, events[..|events| - 1]), events[|events| - 1])
  }

  // -- The invariant -----------------------------------------------------------

  predicate IsPersisted(rows: seq<Row>, item: Item) {
    FindByClient(rows, item.room, item.clientId).Some?
  }

  ghost predicate RepliesTrue(s: System) {
    forall r :: r in s.replies ==>
      && (Q.IsAccepted(r.verdict) ==> IsPersisted(s.service.db.rows, r.item))
      && (Q.IsRefusal(r.verdict) ==> r.item in s.refused)
  }

  /** An item is in the queue, or its message is in the room, or it was refused for good. */
  predicate Accounted(s: System, id: nat)
    requires id in s.queued
  {
    id in s.queue || IsPersisted(s.service.db.rows, s.queued[id]) || s.queued[id] in s.refused
  }

  /** These are items that were queued, under the ids they got. */
  ghost predicate AreQueued(items: map<nat, Item>, queued: map<nat, Item>) {
    forall id :: id in items ==> id in queued && items[id] == queued[id]
  }

  ghost predicate ClientInv(s: System) {
    && RepliesTrue(s)
    && (forall id :: id in s.queued ==> id < s.nextId)
    && AreQueued(s.queue, s.queued)
    && (forall a :: a in s.agents ==> AreQueued(s.agents[a].items, s.queued))
  }

  ghost predicate OutboxInv(s: System) {
    T.ServiceInv(s.service) && ClientInv(s)
  }

  lemma RowsGrow(service: P.Service, step: P.Event)
    ensures service.db.rows <= P.Step(service, step).db.rows
  {
  }

  /** Rows never go: a persisted message stays persisted. */
  lemma ServeKeepsRows(s: System, step: P.Event, item: Item)
    requires IsPersisted(s.service.db.rows, item)
    ensures IsPersisted(P.Step(s.service, step).db.rows, item)
  {
    var rows, rows' := s.service.db.rows, P.Step(s.service, step).db.rows;
    RowsGrow(s.service, step);
    assert rows' == rows + rows'[|rows|..];
    T.FindByClientPrefix(rows, rows'[|rows|..], item.room, item.clientId);
  }

  lemma ServeKeeps(s: System, step: P.Event)
    requires OutboxInv(s) && P.Enabled(s.service, step)
    ensures OutboxInv(Step(s, Serve(step)))
  {
    T.StepKeeps(s.service, step);
    var s' := Step(s, Serve(step));
    forall r | r in s.replies && Q.IsAccepted(r.verdict)
      ensures IsPersisted(s'.service.db.rows, r.item)
    {
      ServeKeepsRows(s, step, r.item);
    }
  }

  /** An ok answer names a message that is in the room. */
  lemma AnswerIsPersisted(service: P.Service, k: nat)
    requires T.ServiceInv(service) && k < |service.log| && service.log[k].answer.Accepted?
             && service.log[k].m.clientId.Some?
    ensures IsPersisted(service.db.rows, Item(service.log[k].m.room, service.log[k].m.clientId.value))
  {
    T.AnsweredRowStays(service.log, k);
  }

  /** A step on the client's side. */
  lemma ClientKeeps(s: System, ev: Event)
    requires ClientInv(s) && !ev.Serve?
    requires match ev
             case Answer(k) =>
               k < |s.service.log| && s.service.log[k].m.clientId.Some? &&
               IsPersisted(s.service.db.rows, Item(s.service.log[k].m.room, s.service.log[k].m.clientId.value))
             case Deliver(a, id, reply) =>
               a in s.agents && id in s.agents[a].items && reply in s.replies && reply.item == s.agents[a].items[id]
             case Refuse(_, why) => Q.IsRefusal(why)
             case Defer(_, why) => !Q.IsRefusal(why) && !Q.IsAccepted(why)
             case _ => true
    ensures ClientInv(Step(s, ev)) && Step(s, ev).service == s.service
  {
  }

  lemma StepKeeps(s: System, ev: Event)
    requires OutboxInv(s) && Enabled(s, ev)
    ensures OutboxInv(Step(s, ev))
  {
    if ev.Serve? {
      ServeKeeps(s, ev.step);
    } else {
      if ev.Answer? {
        AnswerIsPersisted(s.service, ev.entry);
      }
      ClientKeeps(s, ev);
    }
  }

  ghost predicate Reachable(s: System) {
    exists events :: Valid(FRESH, events) && s == Run(FRESH, events)
  }

  lemma {:induction false} RunKeeps(s: System, events: seq<Event>)
    requires OutboxInv(s) && Valid(s, events)
    ensures OutboxInv(Run(s, events))
  {
    if events != [] {
      RunKeeps(s, events[..|events| - 1]);
      StepKeeps(Run(s, events[..|events| - 1]), events[|events| - 1]);
    }
  }

  lemma ReachableHolds(s: System)
    requires Reachable(s)
    ensures OutboxInv(s)
  {
    var events :| Valid(FRESH, events) && s == Run(FRESH, events);
    T.FreshHolds();
    RunKeeps(FRESH, events);
  }

  // -- Nothing is lost ---------------------------------------------------------

  /** How many rows of the room carry an item's client id. */
  function Copies(rows: seq<Row>, item: Item): nat {
    if rows == [] then 0
    else (if IsKeyed(rows[0], item.room, item.clientId) then 1 else 0) + Copies(rows[1..], item)
  }

  lemma {:induction false} CopiesExact(rows: seq<Row>, item: Item)
    requires Unique(rows)
    ensures Copies(rows, item) == if IsPersisted(rows, item) then 1 else 0
  {
    if rows != [] {
      CopiesExact(rows[1..], item);
    }
  }

  /** The worker is told 401 for an item that nobody has taken or refused. */
  predicate Unauthorized(s: System, ev: Event) {
    && ev.Deliver? && ev.agent in s.agents && s.agents[ev.agent].Worker? && ev.reply.verdict.Unauthenticated?
    && ev.id in s.queue
    && !IsPersisted(s.service.db.rows, ev.reply.item) && ev.reply.item !in s.refused
  }

  /** An answer takes an item out of the queue that is not accounted for exactly when it is such a 401. */
  lemma DropsExactlyWhen(s: System, ev: Event, id: nat)
    requires OutboxInv(s) && Enabled(s, ev) && id in s.queued && Accounted(s, id)
    ensures id in Step(s, ev).queued
    ensures !Accounted(Step(s, ev), id) <==> Unauthorized(s, ev) && ev.id == id
  {
    match ev
    case Serve(step) =>
      if IsPersisted(s.service.db.rows, s.queued[id]) {
        ServeKeepsRows(s, step, s.queued[id]);
      }
    case Deliver(a, other, reply) =>
      if other == id {
        DeliverSettles(s, ev);
      }
    case _ =>
  }

  /** What an answer means for its item: taken and in the room, refused, or the worker's 401, or nothing. */
  lemma DeliverSettles(s: System, ev: Event)
    requires OutboxInv(s) && Enabled(s, ev) && ev.Deliver?
    ensures s.agents[ev.agent].items[ev.id] == s.queued[ev.id]
    ensures Settles(s.agents[ev.agent], ev.reply) ==>
              || IsPersisted(s.service.db.rows, ev.reply.item) || ev.reply.item in s.refused
              || (s.agents[ev.agent].Worker? && ev.reply.verdict.Unauthenticated?)
    ensures s.agents[ev.agent].Worker? && ev.reply.verdict.Unauthenticated? ==> Settles(s.agents[ev.agent], ev.reply)
  {
    Q.SettledExactlyWhen(ev.reply.verdict);
    var id := Q.Uuid(ev.reply.item.clientId);
    Q.ConfirmedExactlyWhen([Q.AckOf(id, ev.reply.verdict)], Q.Item(id, Q.Chatroom, 0, 0));
  }

  /** At some point of the run an item that was queued is neither queued, nor refused, nor in its room. */
  predicate EverLost(events: seq<Event>) {
    var s := Run(FRESH, events);
    || (exists id :: id in s.queued && !Accounted(s, id))
    || (events != [] && EverLost(events[..|events| - 1]))
  }

  predicate EverUnauthorized(events: seq<Event>) {
    events != [] &&
    (EverUnauthorized(events[..|events| - 1])
     || Unauthorized(Run(FRESH, events[..|events| - 1]), events[|events| - 1]))
  }

  /**
   * Over every run of tabs, worker, network and room pipeline: an item is lost at some point exactly when the worker is
   * told 401 for an item that nobody has taken or refused. No other answer, lost, late or repeated, loses one.
   */
  lemma {:induction false} LostExactlyWhen(events: seq<Event>)
    requires Valid(FRESH, events)
    ensures EverLost(events) <==> EverUnauthorized(events)
  {
    if events != [] {
      var earlier, ev := events[..|events| - 1], events[|events| - 1];
      var s, s' := Run(FRESH, earlier), Run(FRESH, events);
      LostExactlyWhen(earlier);
      assert Reachable(s);
      ReachableHolds(s);
      if !EverLost(earlier) {
        assert forall id :: id in s.queued ==> Accounted(s, id);
        forall id | id in s'.queued
          ensures !Accounted(s', id) <==> Unauthorized(s, ev) && ev.id == id
        {
          if id in s.queued {
            DropsExactlyWhen(s, ev, id);
          }
        }
        if Unauthorized(s, ev) {
          assert ev.id in s'.queued;
        }
      }
    }
  }

  /**
   * End to end, in every run in which the worker is not told 401 for an unsettled item: a queued message is still in
   * the queue, or was refused for good, or is in its room exactly once. And in every run at all no retry by any tab or
   * by the worker ever makes a second row.
   */
  lemma QueuedExactlyOnce(events: seq<Event>, id: nat)
    requires Valid(FRESH, events) && id in Run(FRESH, events).queued
    ensures var s := Run(FRESH, events);
            && Copies(s.service.db.rows, s.queued[id]) <= 1
            && (!EverUnauthorized(events) ==>
                  id in s.queue || s.queued[id] in s.refused || Copies(s.service.db.rows, s.queued[id]) == 1)
  {
    var s := Run(FRESH, events);
    assert Reachable(s);
    ReachableHolds(s);
    CopiesExact(s.service.db.rows, s.queued[id]);
    LostExactlyWhen(events);
  }

  lemma Extended(events: seq<Event>, ev: Event) returns (more: seq<Event>)
    requires Valid(FRESH, events) && Enabled(Run(FRESH, events), ev)
    ensures Valid(FRESH, more) && Run(FRESH, more) == Step(Run(FRESH, events), ev)
  {
    more := events + [ev];
    assert more[..|more| - 1] == events;
  }

  /**
   * The run that loses a message: the worker starts to flush, its one access token expires before the server has seen
   * the request, and the 401 takes the row. The message is not queued, not refused and in no room.
   */
  lemma ExpiredTokenLoses(item: Item) returns (events: seq<Event>)
    ensures Valid(FRESH, events)
    ensures var s := Run(FRESH, events);
            && s.queued == map[0 := item] && s.queue == map[] && s.refused == {}
            && Copies(s.service.db.rows, item) == 0
  {
    events := Extended([], Enqueue(item));
    events := Extended(events, Snapshot(0, true));
    events := Extended(events, Defer(item, Q.Unauthenticated));
    events := Extended(events, Deliver(0, 0, Reply(item, Q.Unauthenticated)));
  }

  lemma DeliverRemovesOwn(s: System, deliver: Event, newer: nat)
    requires deliver.Deliver? && newer in s.queue && newer != deliver.id
    ensures newer in Step(s, deliver).queue
  {
  }

  /** An answer only ever removes an item of the drain's own snapshot: what was queued since survives it. */
  lemma QueuedSinceSurvives(s: System, a: AgentId, worker: bool, later: seq<Event>, deliver: Event, newer: nat)
    requires Reachable(s) && newer >= s.nextId
    requires var now := Run(Step(s, Snapshot(a, worker)), later);
             && Valid(Step(s, Snapshot(a, worker)), later)
             && (forall ev :: ev in later ==> !(ev.Snapshot? && ev.agent == a))
             && Enabled(now, deliver) && deliver.Deliver? && deliver.agent == a && newer in now.queue
    ensures newer in Step(Run(Step(s, Snapshot(a, worker)), later), deliver).queue
  {
    ReachableHolds(s);
    SnapshotStays(Step(s, Snapshot(a, worker)), a, later);
    DeliverRemovesOwn(Run(Step(s, Snapshot(a, worker)), later), deliver, newer);
  }

  /** A drain keeps the snapshot it took. */
  lemma {:induction false} SnapshotStays(s: System, a: AgentId, later: seq<Event>)
    requires a in s.agents && Valid(s, later) && forall ev :: ev in later ==> !(ev.Snapshot? && ev.agent == a)
    ensures a in Run(s, later).agents ==> Run(s, later).agents[a] == s.agents[a]
  {
    if later != [] {
      var before, last := later[..|later| - 1], later[|later| - 1];
      assert last in later;
      SnapshotStays(s, a, before);
    }
  }
}
