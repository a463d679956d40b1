/** The `g-map/directions` component without its asynchronous plumbing: the
    waypoint list, the route request options, the mapping of the directions
    service's reply to success or failure, and the filter that keeps
    cancelled route tasks from reaching the caller. */
module DirectionsComponent {

  import opened Js
  import opened Seqs

  /** `_createOptions(options)`: `getProperties` always yields the four
      keys, so each of them overrides the caller's value, even with
      `undefined`. */
  function RouteOptions(options: Options, origin: Value, destination: Value, travelMode: Value, waypoints: seq<Value>): (r: Options)
    ensures r.Keys == options.Keys + {"origin", "destination", "travelMode", "waypoints"}
    ensures r["origin"] == origin && r["destination"] == destination
    ensures r["travelMode"] == travelMode && r["waypoints"] == Arr(waypoints)
    ensures forall k :: k in options && k !in {"origin", "destination", "travelMode", "waypoints"} ==> r[k] == options[k]
  {
    options["origin" := origin]["destination" := destination]["travelMode" := travelMode]["waypoints" := Arr(waypoints)]
  }

  /** How the promise built in `fetchDirections` settles. */
  datatype Fetch = Fetched(response: Value) | FetchFailed(status: Value)

  /** The service's callback: status `'OK'` (strict equality) resolves with
      the response, any other status rejects with that status. */
  function FetchOutcome(response: Value, status: Value): (r: Fetch)
    ensures r.Fetched? <==> status == Str("OK")
    ensures r.Fetched? ==> r.response == response
    ensures r.FetchFailed? ==> r.status == status
  {
    if status == Str("OK") then Fetched(response) else FetchFailed(status)
  }

  /** Why a performed task did not succeed: it was cancelled (`didCancel`
      holds), or it threw a value. */
  datatype TaskError = Cancelation | Thrown(value: Value)

  /** How a performed `routeTask` ends. */
  datatype TaskOutcome = Succeeded(result: Value) | Failed(error: TaskError)

  /** How the promise returned by `route` settles. */
  datatype Settlement = Resolved(result: Value) | Rejected(reason: Value)

  /** `_performRouteTask`'s handlers: a success resolves, an error other
      than a cancellation rejects unchanged, and a cancellation is
      swallowed, so the promise never settles (None). */
  function RouteFilter(outcome: TaskOutcome): (r: Option<Settlement>)
    ensures r.None? <==> outcome == Failed(Cancelation)
    ensures outcome.Succeeded? ==> r == Some(Resolved(outcome.result))
    ensures outcome.Failed? && outcome.error.Thrown? ==> r == Some(Rejected(outcome.error.value))
  {
    match outcome
    case Succeeded(result) => Some(Resolved(result))
    case Failed(Cancelation) => None
    case Failed(Thrown(e)) => Some(Rejected(e))
  }

  /** What became of the request handed to the directions service: it was
      superseded by a newer one (`routeTask` is restartable) before the
      service answered, or the service called back. */
  datatype Reply = Superseded | Answered(response: Value, status: Value)

  class Directions {
    var origin: Value
    var destination: Value
    var travelMode: Value
    var waypoints: seq<Value>
    var directions: Value
    var mapComponent: Value
    var onDirectionsChanged: Value

    /** `init()`: the waypoint list starts empty. */
    constructor (origin: Value, destination: Value, travelMode: Value, onDirectionsChanged: Value)
      ensures waypoints == []
      ensures this.origin == origin && this.destination == destination && this.travelMode == travelMode
      ensures this.onDirectionsChanged == onDirectionsChanged
      ensures directions == Undefined && mapComponent == Undefined
    {
      this.origin := origin;
      this.destination := destination;
      this.travelMode := travelMode;
      this.onDirectionsChanged := onDirectionsChanged;
      waypoints := [];
      directions := Undefined;
      mapComponent := Undefined;
    }

    function CreateOptions(options: Options): (r: Options)
      reads this
      ensures r == RouteOptions(options, origin, destination, travelMode, waypoints)
    {
      RouteOptions(options, origin, destination, travelMode, waypoints)
    }

    /** `_registerWaypoint`: `pushObject` at the end. */
    method RegisterWaypoint(w: Value)
      modifies this
      ensures waypoints == old(waypoints) + [w]
      ensures origin == old(origin) && destination == old(destination) && travelMode == old(travelMode)
      ensures directions == old(directions) && mapComponent == old(mapComponent)
      ensures onDirectionsChanged == old(onDirectionsChanged)
    {
      waypoints := waypoints + [w];
    }

    /** `_unregisterWaypoint`: `removeObject`. */
    method UnregisterWaypoint(w: Value)
      modifies this
      ensures waypoints == RemoveAll(old(waypoints), w)
      ensures origin == old(origin) && destination == old(destination) && travelMode == old(travelMode)
      ensures directions == old(directions) && mapComponent == old(mapComponent)
      ensures onDirectionsChanged == old(onDirectionsChanged)
    {
      waypoints := RemoveAll(waypoints, w);
    }

    /** `routeTask` with `fetchDirections` inlined: on an answer with status
        `'OK'` both `directions` and `mapComponent` become the response and
        the change callback is scheduled if one is set; a failed fetch
        throws its status; a superseded run is cancelled. */
    method RouteTask(reply: Reply) returns (outcome: TaskOutcome, notify: bool)
      modifies this
      ensures reply.Superseded? ==> outcome == Failed(Cancelation) && !notify
      ensures reply.Answered? ==>
        match FetchOutcome(reply.response, reply.status)
        case Fetched(d) => outcome == Succeeded(d) && notify == Truthy(onDirectionsChanged)
        case FetchFailed(s) => outcome == Failed(Thrown(s)) && !notify
      ensures outcome.Succeeded? ==> directions == outcome.result && mapComponent == outcome.result
      ensures !outcome.Succeeded? ==> directions == old(directions) && mapComponent == old(mapComponent)
      ensures waypoints == old(waypoints) && onDirectionsChanged == old(onDirectionsChanged)
      ensures origin == old(origin) && destination == old(destination) && travelMode == old(travelMode)
    {
      if reply.Superseded? {
        return Failed(Cancelation), false;
      }
      var fetched := FetchOutcome(reply.response, reply.status);
      match fetched
      case FetchFailed(s) =>
        outcome, notify := Failed(Thrown(s)), false;
      case Fetched(d) =>
        directions := d;
        mapComponent := d;
        notify := Truthy(onDirectionsChanged);
        outcome := Succeeded(d);
    }

    /** `route(options)`: the options go to the service as they are; how the
        returned promise settles is decided by `RouteFilter`. */
    method Route(options: Options, reply: Reply) returns (request: Options, settlement: Option<Settlement>, notify: bool)
      modifies this
      ensures request == options
      ensures reply.Superseded? ==> settlement.None? && !notify
      ensures reply.Superseded? ==> directions == old(directions) && mapComponent == old(mapComponent)
      ensures reply.Answered? && reply.status == Str("OK") ==>
        settlement == Some(Resolved(reply.response)) &&
        directions == reply.response && mapComponent == reply.response &&
        notify == Truthy(old(onDirectionsChanged))
      ensures reply.Answered? && reply.status != Str("OK") ==>
        settlement == Some(Rejected(reply.status)) && !notify &&
        directions == old(directions) && mapComponent == old(mapComponent)
      ensures waypoints == old(waypoints) && onDirectionsChanged == old(onDirectionsChanged)
      ensures origin == old(origin) && destination == old(destination) && travelMode == old(travelMode)
    {
      request := options;
      var outcome;
      outcome, notify := RouteTask(reply);
      settlement := RouteFilter(outcome);
    }

    /** `_addComponent(options)`. */
    method AddComponent(options: Options, reply: Reply) returns (request: Options, settlement: Option<Settlement>, notify: bool)
      modifies this
      ensures request == options
      ensures reply.Superseded? ==> settlement.None? && !notify
      ensures reply.Superseded? ==> directions == old(directions) && mapComponent == old(mapComponent)
      ensures reply.Answered? && reply.status == Str("OK") ==>
        settlement == Some(Resolved(reply.response)) &&
        directions == reply.response && mapComponent == reply.response &&
        notify == Truthy(old(onDirectionsChanged))
      ensures reply.Answered? && reply.status != Str("OK") ==>
        settlement == Some(Rejected(reply.status)) && !notify &&
        directions == old(directions) && mapComponent == old(mapComponent)
      ensures waypoints == old(waypoints) && onDirectionsChanged == old(onDirectionsChanged)
      ensures origin == old(origin) && destination == old(destination) && travelMode == old(travelMode)
    {
      request, settlement, notify := Route(options, reply);
    }

    /** `_updateComponent(_, options)`: the first argument is ignored. */
    method UpdateComponent(previous: Value, options: Options, reply: Reply) returns (request: Options, settlement: Option<Settlement>, notify: bool)
      modifies this
      ensures request == options
      ensures reply.Superseded? ==> settlement.None? && !notify
      ensures reply.Superseded? ==> directions == old(directions) && mapComponent == old(mapComponent)
      ensures reply.Answered? && reply.status == Str("OK") ==>
        settlement == Some(Resolved(reply.response)) &&
        directions == reply.response && mapComponent == reply.response &&
        notify == Truthy(old(onDirectionsChanged))
      ensures reply.Answered? && reply.status != Str("OK") ==>
        settlement == Some(Rejected(reply.status)) && !notify &&
        directions == old(directions) && mapComponent == old(mapComponent)
      ensures waypoints == old(waypoints) && onDirectionsChanged == old(onDirectionsChanged)
      ensures origin == old(origin) && destination == old(destination) && travelMode == old(travelMode)
    {
      request, settlement, notify := Route(options, reply);
    }
  }

  // ---------------------------------------------------------------------
  // Properties of the reply mapping and the filter.

  /** Chaining the reply mapping and the filter: a rejected route promise
      carries the service's status, never a cancellation. */
  lemma RejectionIsStatus(response: Value, status: Value)
    ensures var fetched := FetchOutcome(response, status);
      var outcome := if fetched.Fetched? then Succeeded(fetched.response) else Failed(Thrown(fetched.status));
      RouteFilter(outcome) == if status == Str("OK") then Some(Resolved(response)) else Some(Rejected(status))
  {
  }

  /** The waypoint list is the registrations in order, minus every copy of
      each waypoint unregistered afterwards; unregistering keeps the order of
      the others. */
  lemma UnregisterWaypointKeepsOrder(ws: seq<Value>, w: Value)
    ensures w !in RemoveAll(ws, w)
    ensures IsSubsequence(RemoveAll(ws, w), ws)
    ensures forall x :: x != w ==> multiset(RemoveAll(ws, w))[x] == multiset(ws)[x]
  {
    RemoveAllKeepsOrder(ws, w);
    RemoveAllCounts(ws, w);
  }
}
