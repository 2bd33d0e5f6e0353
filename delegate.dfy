// The handler the game installs as the entity store's event delegate. The
// store reports ComponentRemoved only after the component is gone, so the
// handler keeps its own table entity -> component type -> component, filled on
// ComponentAdded, to hand the removed component to the listeners.

module EventDelegate {
  import opened Options
  import opened Ecs

  type ComponentId = nat

  /** The store's events (NexusEvent). */
  datatype NexusEvent =
    | EntityCreated(entityId: EntityId)
    | EntityDestroyed(entityId: EntityId)
    | ComponentAdded(component: ComponentId, toEntity: EntityId)
    | ComponentRemoved(component: ComponentId, from: EntityId)

  /** The entity an event is about. */
  function Subject(e: NexusEvent): EntityId {
    match e
    case EntityCreated(id) => id
    case EntityDestroyed(id) => id
    case ComponentAdded(_, id) => id
    case ComponentRemoved(_, id) => id
  }

  /** One call of the handler's `handleComponentAdded` or `handleComponentRemoved` closure. */
  datatype Notification<C> = Added(component: C) | Removed(component: C)

  type Table<C> = map<EntityId, map<ComponentId, C>>

  /** The table and the closure call after one event. `lookup` is the store's answer to
      `get(safe: component, for: entity)`, consulted for ComponentAdded only. */
  function Step<C>(t: Table<C>, e: NexusEvent, lookup: Option<C>): (r: (Table<C>, Option<Notification<C>>))
    // only the event's own entity has its entry changed
    ensures forall id | id in t && id != Subject(e) :: id in r.0 && r.0[id] == t[id]
    ensures forall id | id in r.0 && id != Subject(e) :: id in t
    ensures e.EntityCreated? ==> e.entityId in r.0 && r.0[e.entityId] == map[] && r.1 == None
    ensures e.EntityDestroyed? ==> e.entityId !in r.0 && r.1 == None
    ensures e.ComponentAdded? && lookup.None? ==> r == (t, None)
    ensures e.ComponentAdded? && lookup.Some? ==>
              r.1 == Some(Added(lookup.value)) &&
              (e.toEntity in r.0 <==> e.toEntity in t) &&
              (e.toEntity in t ==> r.0[e.toEntity] == t[e.toEntity][e.component := lookup.value])
    ensures e.ComponentRemoved? && Recorded(t, e.from, e.component) ==>
              r.1 == Some(Removed(t[e.from][e.component])) &&
              e.from in r.0 && r.0[e.from] == t[e.from] - {e.component}
    ensures e.ComponentRemoved? && !Recorded(t, e.from, e.component) ==> r == (t, None)
  {
    match e
    case EntityCreated(id) => (t[id := map[]], None)
    case ComponentAdded(cid, id) =>
      if lookup.None? then (t, None)
      else if id in t then
        var entry: map<ComponentId, C> := t[id][cid := lookup.value];
        (t[id := entry], Some(Added(lookup.value)))
      else (t, Some(Added(lookup.value)))
    case ComponentRemoved(cid, id) =>
      if Recorded(t, id, cid) then (t[id := t[id] - {cid}], Some(Removed(t[id][cid]))) else (t, None)
    case EntityDestroyed(id) => (t - {id}, None)
  }

  predicate Recorded<C>(t: Table<C>, id: EntityId, cid: ComponentId) {
    id in t && cid in t[id]
  }

  /** A component added to a tracked entity and then removed reaches the removed-listeners as the
      very value the added-listeners got, and its slot is gone afterwards. When the slot was empty
      before, the table is back as it was; a value recorded there before is lost. */
  lemma AddThenRemoveRoundTrip<C>(t: Table<C>, id: EntityId, cid: ComponentId, c: C, later: Option<C>)
    requires id in t
    ensures var (t1, n1) := Step(t, ComponentAdded(cid, id), Some(c));
            var (t2, n2) := Step(t1, ComponentRemoved(cid, id), later);
            n1 == Some(Added(c)) && n2 == Some(Removed(c)) && t2 == t[id := t[id] - {cid}]
  ensures var (t1, _) := Step(t, ComponentAdded(cid, id), Some(c));
          cid !in t[id] ==> Step(t1, ComponentRemoved(cid, id), later).0 == t
  {
    var entry: map<ComponentId, C> := t[id][cid := c];
    assert entry - {cid} == t[id] - {cid};
    if cid !in t[id] {
      assert t[id] - {cid} == t[id];
      assert t[id := t[id]] == t;
    }
  }

  /** Once an entity is destroyed, a late ComponentRemoved for it notifies nobody. */
  lemma NothingAfterDestroy<C>(t: Table<C>, id: EntityId, cid: ComponentId, later: Option<C>)
    ensures var (t1, _) := Step(t, EntityDestroyed(id), later);
            Step(t1, ComponentRemoved(cid, id), later) == (t1, None)
  {
  }

  /** The table and the closure calls, in order, after a run of events from an empty table. */
  function Run<C>(events: seq<(NexusEvent, Option<C>)>): (Table<C>, seq<Notification<C>>) {
    if events == [] then (map[], [])
    else
      var (t, ns) := Run(events[..|events| - 1]);
      var (e, lookup) := events[|events| - 1];
      var (t', n) := Step(t, e, lookup);
      (t', ns + (if n.Some? then [n.value] else []))
  }

  /** Every value the table holds was handed to the added-listeners. */
  ghost predicate TableAnnounced<C>(t: Table<C>, ns: seq<Notification<C>>) {
    forall id, cid | id in t && cid in t[id] :: Added(t[id][cid]) in ns
  }

  /** Every removed-notification hands over a component that an earlier added-notification handed over. */
  ghost predicate RemovalsFollowAdditions<C>(ns: seq<Notification<C>>) {
    forall i | 0 <= i < |ns| && ns[i].Removed? :: Added(ns[i].component) in ns[..i]
  }

  /** Listeners are never asked to remove a component they were not first told was added. */
  lemma {:induction false} RunRemovesOnlyAnnounced<C>(events: seq<(NexusEvent, Option<C>)>)
    ensures TableAnnounced(Run(events).0, Run(events).1)
    ensures RemovalsFollowAdditions(Run(events).1)
  {
    if events != [] {
      var prefix := events[..|events| - 1];
      RunRemovesOnlyAnnounced(prefix);
      var (t, ns) := Run(prefix);
      var (e, lookup) := events[|events| - 1];
      var (t', n) := Step(t, e, lookup);
      var ns' := ns + (if n.Some? then [n.value] else []);
      assert Run(events) == (t', ns');
      assert ns'[..|ns|] == ns;
      forall id, cid | id in t' && cid in t'[id] ensures Added(t'[id][cid]) in ns' {
        if e.ComponentAdded? && lookup.Some? && id == e.toEntity && cid == e.component {
          assert ns'[|ns|] == Added(lookup.value);
        } else if id in t && cid in t[id] && t'[id][cid] == t[id][cid] {
          assert Added(t[id][cid]) in ns;
        }
      }
      forall i | 0 <= i < |ns'| && ns'[i].Removed? ensures Added(ns'[i].component) in ns'[..i] {
        if i < |ns| {
          assert ns'[..i] == ns[..i];
        } else {
          assert Added(t[e.from][e.component]) in ns;
          assert ns'[..i] == ns;
        }
      }
    }
  }

  /** The game's NexusEventDelegateHandler: the side table plus the record of its closure calls. */
  class NexusEventDelegateHandler<C> {
    var components: Table<C>
    var notifications: seq<Notification<C>>

    constructor ()
      ensures components == map[] && notifications == []
    {
      components := map[];
      notifications := [];
    }

    /** `nexusEvent(_:)`; `lookup` is what the store's `get(safe:for:)` returns for the event. */
    method NexusEvent(event: NexusEvent, lookup: Option<C>)
      modifies this
      ensures var (t, n) := Step(old(components), event, lookup);
              components == t && notifications == old(notifications) + (if n.Some? then [n.value] else [])
    {
      if event.EntityCreated? {
        components := components[event.entityId := map[]];
      } else if event.ComponentAdded? && lookup.Some? {
        if event.toEntity in components {
          var entry: map<ComponentId, C> := components[event.toEntity][event.component := lookup.value];
          components := components[event.toEntity := entry];
        }
        notifications := notifications + [Added(lookup.value)];
      } else if event.ComponentRemoved? && event.from in components && event.component in components[event.from] {
        var component := components[event.from][event.component];
        components := components[event.from := components[event.from] - {event.component}];
        notifications := notifications + [Removed(component)];
      } else if event.EntityDestroyed? {
        components := components - {event.entityId};
      }
    }
  }

  /** A callback some system registered; a closure the model cannot look into. */
  type CallbackId = nat

  /** One call of a registered callback with a component. */
  datatype Call<C> = Call(callback: CallbackId, component: C)

  /** The callback lists `componentAddedCallbacks` / `componentRemovedCallbacks` that systems register into. */
  class CallbackLists {
    var added: seq<CallbackId>
    var removed: seq<CallbackId>

    constructor ()
      ensures added == [] && removed == []
    {
      added, removed := [], [];
    }

    method RegisterAdded(callback: CallbackId)
      modifies this
      ensures added == old(added) + [callback] && removed == old(removed)
    {
      added := added + [callback];
    }

    method RegisterRemoved(callback: CallbackId)
      modifies this
      ensures removed == old(removed) + [callback] && added == old(added)
    {
      removed := removed + [callback];
    }
  }

  /** The fan-out closure: every registered callback is called once with the component, in
      registration order. */
  method FanOut<C>(callbacks: seq<CallbackId>, component: C) returns (calls: seq<Call<C>>)
    ensures |calls| == |callbacks|
    ensures forall i :: 0 <= i < |calls| ==> calls[i] == Call(callbacks[i], component)
  {
    calls := [];
    for i := 0 to |callbacks|
      invariant |calls| == i
      invariant forall k :: 0 <= k < i ==> calls[k] == Call(callbacks[k], component)
    {
      calls := calls + [Call(callbacks[i], component)];
    }
  }
}
