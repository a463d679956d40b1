/** The `g-map` root component: a registry of the contextual components
    (markers, circles, ...) rendered inside the map, the readiness wait on
    all of them, the map options, and the table of event-listener removers. */
module GMapComponent {

  import opened Js
  import opened Seqs
  import opened Ordered

  /** A component API object handed in by a child component. */
  type Api = Value

  /** `this.components`: plural type name to the APIs of that type, in
      registration order. */
  type Registry = OrderedMap<string, seq<Api>>

  /** The APIs registered under `t`, or none. */
  function GroupOf(m: Registry, t: string): seq<Api> {
    if t in m.values then m.values[t] else []
  }

  /** `_registerComponent(type, api)`: create the group if it is missing,
      then `pushObject` the API at its end. */
  function Registered(m: Registry, t: string, api: Api): (r: Registry)
    requires m.Valid()
    ensures r.Valid()
    ensures t in r.values && r.values[t] == GroupOf(m, t) + [api]
    ensures r.values.Keys == m.values.Keys + {t}
    ensures forall t' :: t' in m.values && t' != t ==> r.values[t'] == m.values[t']
    ensures r.keys == if t in m.values then m.keys else m.keys + [t]
  {
    m.Put(t, GroupOf(m, t) + [api])
  }

  /** `_unregisterComponent(type, api)` on an existing group: `removeObject`
      drops the API from it. */
  function Unregistered(m: Registry, t: string, api: Api): (r: Registry)
    requires m.Valid() && t in m.values
    ensures r.Valid()
    ensures r.keys == m.keys && r.values.Keys == m.values.Keys
    ensures r.values[t] == RemoveAll(m.values[t], api)
    ensures forall t' :: t' in m.values && t' != t ==> r.values[t'] == m.values[t']
  {
    m.Put(t, RemoveAll(m.values[t], api))
  }

  /** `_waitForComponents`: the groups in key order, concatenated. */
  function Pending(m: Registry): (r: seq<Api>)
    requires m.Valid()
    ensures |r| == SumLengths(m.InOrder())
  {
    ConcatLength(m.InOrder());
    Concat(m.InOrder())
  }

  /** `all(promises)` has resolved: every API waited on is initialized. */
  predicate AllInitialized(waited: seq<Api>, initialized: Api -> bool) {
    forall i :: 0 <= i < |waited| ==> initialized(waited[i])
  }

  /** `_createOptions(options)`: the caller's options with `center` and
      `zoom` taken from the component. */
  function MapOptions(options: Options, center: Value, zoom: Value): (r: Options)
    ensures r.Keys == options.Keys + {"center", "zoom"}
    ensures r["center"] == center && r["zoom"] == zoom
    ensures forall k :: k in options && k != "center" && k != "zoom" ==> r[k] == options[k]
  {
    options["center" := center]["zoom" := zoom]
  }

  /** The two callbacks of `safeScheduleOnce`. */
  datatype Callback = OnSuccess | OnError

  /** `safeScheduleOnce`: when the scheduled function runs, it calls exactly
      one of the callbacks, chosen by the context's lifecycle flags at that
      moment. */
  function SafeScheduleOnce(isDestroying: bool, isDestroyed: bool): (r: Callback)
    ensures r == OnError <==> isDestroying || isDestroyed
    ensures r == OnSuccess <==> !isDestroying && !isDestroyed
  {
    if isDestroying || isDestroyed then OnError else OnSuccess
  }

  /** What `_unregisterComponent` does: `this.components[type]` is undefined
      for a type never registered, and calling `removeObject` on it throws. */
  datatype Outcome = Done | TypeError

  /** `.forEach(({ name, remove }) => this._eventListeners.set(name, remove))`. */
  method StoreListeners(table0: OrderedMap<string, Value>, listeners: seq<(string, Value)>)
    returns (table: OrderedMap<string, Value>)
    requires table0.Valid()
    ensures table.Valid()
    ensures table == PutAll(table0, listeners)
  {
    table := table0;
    var i := 0;
    while i < |listeners|
      invariant 0 <= i <= |listeners|
      invariant table.Valid()
      invariant table == PutAll(table0, listeners[..i])
    {
      table := table.Put(listeners[i].0, listeners[i].1);
      PutAllStep(table0, listeners, i);
      i := i + 1;
    }
    assert listeners[..i] == listeners;
  }

  class GMap {
    /** `zoom`, 8 unless the caller passes one. */
    var zoom: Value
    /** `center`, computed from `lat` and `lng` by a helper not modelled. */
    var center: Value
    /** `_options`, parsed from the component's attributes. */
    var options: Options
    /** `map`: the SDK map once it is set up, undefined before. */
    var sdkMap: Value
    var components: Registry
    /** `_eventListeners`: event name to the function that removes it. */
    var eventListeners: OrderedMap<string, Value>
    var componentsInitialized: bool
    var isDestroying: bool
    var isDestroyed: bool

    ghost predicate Valid()
      reads this
    {
      components.Valid() && eventListeners.Valid()
    }

    /** `init()`, with the attributes the caller passes. */
    constructor (zoom: Option<Value>, center: Value, options: Options)
      ensures Valid()
      ensures this.zoom == (match zoom case Some(z) => z case None => Num(8.0))
      ensures this.center == center && this.options == options
      ensures sdkMap == Undefined
      ensures components == Empty() && eventListeners == Empty()
      ensures !componentsInitialized && !isDestroying && !isDestroyed
    {
      this.zoom := match zoom case Some(z) => z case None => Num(8.0);
      this.center := center;
      this.options := options;
      sdkMap := Undefined;
      components := Empty();
      eventListeners := Empty();
      componentsInitialized := false;
      isDestroying := false;
      isDestroyed := false;
    }

    function CreateOptions(options: Options): (r: Options)
      reads this
      ensures r == MapOptions(options, center, zoom)
    {
      MapOptions(options, center, zoom)
    }

    method RegisterComponent(t: string, api: Api)
      requires Valid()
      modifies this
      ensures Valid()
      ensures components == Registered(old(components), t, api)
      ensures eventListeners == old(eventListeners) && sdkMap == old(sdkMap)
      ensures componentsInitialized == old(componentsInitialized)
      ensures isDestroying == old(isDestroying) && isDestroyed == old(isDestroyed)
      ensures zoom == old(zoom) && center == old(center) && options == old(options)
    {
      components := Registered(components, t, api);
    }

    method UnregisterComponent(t: string, api: Api) returns (outcome: Outcome)
      requires Valid()
      modifies this
      ensures Valid()
      ensures outcome == TypeError <==> t !in old(components).values
      ensures components == if outcome == TypeError then old(components) else Unregistered(old(components), t, api)
      ensures eventListeners == old(eventListeners) && sdkMap == old(sdkMap)
      ensures componentsInitialized == old(componentsInitialized)
      ensures isDestroying == old(isDestroying) && isDestroyed == old(isDestroyed)
      ensures zoom == old(zoom) && center == old(center) && options == old(options)
    {
      if t !in components.values {
        return TypeError;
      }
      components := Unregistered(components, t, api);
      outcome := Done;
    }

    /** `didUpdateAttrs()`: the options to re-apply, and only once the map
        exists. */
    method DidUpdateAttrs() returns (update: Option<Options>)
      ensures update.Some? <==> Truthy(sdkMap)
      ensures update.Some? ==> update.value == MapOptions(options, center, zoom)
    {
      if Truthy(sdkMap) {
        update := Some(CreateOptions(options));
      } else {
        update := None;
      }
    }

    /** `setupMap`, run once the map is idle: unless the component is being
        destroyed, store the map and the removers of the listeners just
        added, and schedule the readiness wait. */
    method SetupMap(handle: Value, listeners: seq<(string, Value)>) returns (scheduled: bool)
      requires Valid()
      modifies this
      ensures Valid()
      ensures scheduled <==> !old(isDestroying) && !old(isDestroyed)
      ensures sdkMap == if scheduled then handle else old(sdkMap)
      ensures eventListeners == if scheduled then PutAll(old(eventListeners), listeners) else old(eventListeners)
      ensures components == old(components) && componentsInitialized == old(componentsInitialized)
      ensures isDestroying == old(isDestroying) && isDestroyed == old(isDestroyed)
      ensures zoom == old(zoom) && center == old(center) && options == old(options)
    {
      if isDestroying || isDestroyed {
        return false;
      }
      sdkMap := handle;
      eventListeners := StoreListeners(eventListeners, listeners);
      scheduled := true;
    }

    /** `waitForComponents`: nothing once the component is being destroyed,
        otherwise the list of APIs whose initialization is awaited. */
    method WaitForComponents() returns (waiting: Option<seq<Api>>)
      requires Valid()
      ensures waiting.None? <==> isDestroying || isDestroyed
      ensures waiting.Some? ==> waiting.value == Pending(components)
    {
      if isDestroying || isDestroyed {
        return None;
      }
      var groups := components.InOrder();
      var all: seq<Api> := [];
      var i := 0;
      while i < |groups|
        invariant 0 <= i <= |groups|
        invariant all == Concat(groups[..i])
      {
        all := all + groups[i];
        assert groups[..i + 1][..i] == groups[..i];
        i := i + 1;
      }
      assert groups[..i] == groups;
      waiting := Some(all);
    }

    /** The `.then` of the wait: `_componentsInitialized` becomes true once
        every awaited API is initialized, and not before. */
    method ComponentsLoaded(waited: seq<Api>, initialized: Api -> bool)
      modifies this
      ensures componentsInitialized == (old(componentsInitialized) || AllInitialized(waited, initialized))
      ensures sdkMap == old(sdkMap) && components == old(components) && eventListeners == old(eventListeners)
      ensures isDestroying == old(isDestroying) && isDestroyed == old(isDestroyed)
      ensures zoom == old(zoom) && center == old(center) && options == old(options)
    {
      if AllInitialized(waited, initialized) {
        componentsInitialized := true;
      }
    }

    /** `willDestroyElement()`: every stored remover, in the order its event
        was first set, is called once. */
    method WillDestroyElement() returns (called: seq<Value>)
      requires Valid()
      ensures called == eventListeners.InOrder()
    {
      called := [];
      var i := 0;
      while i < |eventListeners.keys|
        invariant 0 <= i <= |eventListeners.keys|
        invariant |called| == i
        invariant forall j :: 0 <= j < i ==> called[j] == eventListeners.values[eventListeners.keys[j]]
      {
        called := called + [eventListeners.values[eventListeners.keys[i]]];
        i := i + 1;
      }
    }
  }

  // ---------------------------------------------------------------------
  // Properties of the registry, the wait and the listener table.

  /** Registering never de-duplicates: the group grows by exactly one. */
  lemma RegisterGrows(m: Registry, t: string, api: Api)
    requires m.Valid()
    ensures |Registered(m, t, api).values[t]| == |GroupOf(m, t)| + 1
    ensures Registered(m, t, api).values[t][|GroupOf(m, t)|] == api
  {
  }

  /** Unregistering an API that is not in its group changes nothing. */
  lemma UnregisterAbsent(m: Registry, t: string, api: Api)
    requires m.Valid() && t in m.values && api !in m.values[t]
    ensures Unregistered(m, t, api) == m
  {
    RemoveAbsent(m.values[t], api);
    assert Unregistered(m, t, api).values == m.values;
  }

  /** Unregistering drops every copy of the API and keeps the rest of its
      group, in order. */
  lemma UnregisterKeepsOthers(m: Registry, t: string, api: Api)
    requires m.Valid() && t in m.values
    ensures api !in Unregistered(m, t, api).values[t]
    ensures IsSubsequence(Unregistered(m, t, api).values[t], m.values[t])
    ensures forall x :: x != api ==> multiset(Unregistered(m, t, api).values[t])[x] == multiset(m.values[t])[x]
  {
    RemoveAllKeepsOrder(m.values[t], api);
    RemoveAllCounts(m.values[t], api);
  }

  /** An API is waited on exactly when it is registered under some type. */
  lemma PendingMembership(m: Registry, x: Api)
    requires m.Valid()
    ensures x in Pending(m) <==> exists t :: t in m.values && x in m.values[t]
  {
    var groups := m.InOrder();
    ConcatMembership(groups, x);
    if x in Pending(m) {
      var i :| 0 <= i < |groups| && x in groups[i];
      assert m.keys[i] in m.values && x in m.values[m.keys[i]];
    }
    if exists t :: t in m.values && x in m.values[t] {
      var t :| t in m.values && x in m.values[t];
      assert t in m.keys;
      var i :| 0 <= i < |m.keys| && m.keys[i] == t;
      assert x in groups[i];
    }
  }

  /** The wait resolves exactly when every registered API is initialized. */
  lemma ReadyIff(m: Registry, initialized: Api -> bool)
    requires m.Valid()
    ensures AllInitialized(Pending(m), initialized) <==>
      forall t :: t in m.values ==> forall j :: 0 <= j < |m.values[t]| ==> initialized(m.values[t][j])
  {
    var p := Pending(m);
    if AllInitialized(p, initialized) {
      forall t, j | t in m.values && 0 <= j < |m.values[t]|
        ensures initialized(m.values[t][j])
      {
        PendingMembership(m, m.values[t][j]);
      }
    }
    if forall t :: t in m.values ==> forall j :: 0 <= j < |m.values[t]| ==> initialized(m.values[t][j]) {
      forall i | 0 <= i < |p|
        ensures initialized(p[i])
      {
        PendingMembership(m, p[i]);
        var t :| t in m.values && p[i] in m.values[t];
        var j :| 0 <= j < |m.values[t]| && m.values[t][j] == p[i];
      }
    }
  }

  /** With nothing registered there is nothing to wait for. */
  lemma EmptyRegistryReady(initialized: Api -> bool)
    ensures Pending(Empty()) == []
    ensures AllInitialized(Pending(Empty()), initialized)
  {
  }

  /** A registered API is waited on. */
  lemma RegisteredIsPending(m: Registry, t: string, api: Api)
    requires m.Valid()
    ensures api in Pending(Registered(m, t, api))
  {
    var r := Registered(m, t, api);
    assert api in r.values[t];
    PendingMembership(r, api);
  }

  /** Teardown calls the remover stored under every event name. */
  lemma TeardownCallsEvery(table: OrderedMap<string, Value>, name: string)
    requires table.Valid() && name in table.values
    ensures table.values[name] in table.InOrder()
  {
  }
}
