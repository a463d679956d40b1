# ember-google-maps: the sequential core

This project models the parts of the `ember-google-maps` addon that are
plain sequential logic, and proves what they promise:

- **The loader URL** (`buildGoogleMapsUrl`, module `LoaderUrl`). It builds the
  script URL from the `ember-google-maps` configuration. There is an early
  exit when neither a key nor a client id is given, and two misuse warnings.
  The query parameters come in a fixed order, and each value goes through
  `encodeURIComponent` (module `UriEncoding`, written out in full: the
  unescaped set, UTF-8 bytes, `%XX` in upper-case hexadecimal). Warnings come
  back as a list instead of going to the console. The query's meaning is
  pinned down by its inverse: `decodeURIComponent` (module `UriDecoding`,
  with the UTF-8 validity rules) gives every value back, so each parameter
  reads back as its field.
- **The tree-shaking lists** of the `included()` hook (module `Treeshaking`).
  The `included` and `excluded` lists grow from the dependency table, one
  level deep. The `forEach` walks only what was there when the pass began.
- **The `g-map` root component** (module `GMapComponent`, class `GMap`). It
  holds:
  - the registry of contextual components by type;
  - the readiness wait over all of them;
  - the map-option merge;
  - the destroy-guarded scheduler choice;
  - the table of event-listener removers;
  - the `didUpdateAttrs`, `setupMap` and `waitForComponents` guards.
- **The directions component** (module `DirectionsComponent`, class
  `Directions`). It holds the waypoint list, the route-option merge, the
  mapping of the service status to success or failure, and the filter that
  swallows cancelled route tasks.
- **`prepareOptions`** of the build tests (module `BuildTestOptions`). It
  turns `{k: v}` into `['--k', v, ...]`.

Supporting modules:

- `Js` holds JavaScript values, truthiness and option objects.
- `Seqs` holds Ember's `removeObject`, concatenation of groups, and a generic
  chain of conditional `push`es.
- `Ordered` holds an insertion-ordered dictionary, as `Object.keys` and `Map`
  keep it.

Inputs from outside the core are parameters:

- the `only`/`except` lists as the tree-shaking helpers produced them;
- the production flag;
- the listeners `addEventListeners` returned;
- whether each component API is initialized;
- the reply of the directions service, or the fact that a newer request
  superseded it.

Notes on the model:

- Ember's `removeObject` drops every element identical to its argument, and
  `pushObject` appends without de-duplicating, so a component registered
  twice is waited on twice.
- The parameter list is proved against a specification function
  (`QueryParams`, built by `ParamsUpTo` over the eight fields in
  `ParamOrder`). `UpToIsPushed` proves it equal to the generic
  `Seqs.Pushed` chain, whose order lemma is proved once for every chain.

## Model

| member | source | states |
|---|---|---|
| LoaderUrl.BuildGoogleMapsUrl | index.js:252-326 | the URL is `Url(c)` and the warnings are `Warnings(c)`, for every configuration |
| LoaderUrl.PushParams | index.js:285-317 | the chain of eight tests pushes exactly `QueryParams(c)` |
| LoaderUrl.UrlEmptyIff | index.js:266-270 | the URL is empty if and only if neither key nor client is given, and then there are no warnings |
| LoaderUrl.KeyAndClientBothSent | index.js:272-313 | with key and client the KeyAndClient warning is issued and the URL is still built, holding both `client=` and `key=` with their encoded values |
| LoaderUrl.ChannelWithoutClientSent | index.js:278-297 | a channel without a client (with a key) is warned about and `channel=` is still sent |
| LoaderUrl.ParamsInFixedOrder | index.js:287-317 | the parameters are those of exactly the truthy fields, each once, at strictly increasing positions of v, client, channel, libraries, region, language, key, map_ids |
| LoaderUrl.SentParamListed | index.js:287-317 | every truthy field's `name=encoded` parameter is in the query |
| LoaderUrl.QueryNames | index.js:287-317 | the name before the first `=` of each parameter is the name of the field at its position |
| LoaderUrl.LibrariesOnce | index.js:299-301 | no parameter is named libraries when the list is empty; otherwise exactly one is, and it is the encoded comma-join of the list |
| LoaderUrl.QueryRoundTrip | index.js:319-323 | the URL is head, `?`, then the parameters joined by `&`, and splitting that query on `&` gives back exactly the parameters in order |
| LoaderUrl.ParamDecodes | index.js:287-317 | a parameter splits on `=` into exactly its name and its encoded value, and decoding that value gives the raw value back |
| LoaderUrl.QueryValuesDecode | index.js:287-323 | every parameter in the query reads back as the name of the field at its position and, once decoded, that field's value |
| LoaderUrl.LibrariesRoundTrip | index.js:299-301 | when no library name holds a comma, the `libraries` value decodes and splits on `,` back into the configured list |
| LoaderUrl.Join | index.js:300 | no parts give the empty string and one part gives that part; `SplitJoin` proves that splitting undoes the join |
| LoaderUrl.SplitJoin | index.js:323 | splitting a join gives the parts back when no part holds the separator |
| LoaderUrl.UpToIsPushed | index.js:287-317 | the chain of tests after k steps is the generic conditional-push list |
| Seqs.PushedInOrder | index.js:287-317 | a chain of conditional pushes holds the items of exactly the present positions, in increasing order |
| UriEncoding.EncodeAlphabet | index.js:288 | every character `encodeURIComponent` emits is unescaped or `%` |
| UriEncoding.NoSeparators | index.js:288-316 | an encoded value never contains `&`, `=`, `?` or `,` |
| UriEncoding.EncodeUnescaped | index.js:288 | a value made only of unescaped characters is emitted unchanged |
| UriEncoding.EncodeAppend | index.js:288 | encoding a concatenation is the concatenation of the encodings |
| UriEncoding.Encode | index.js:288 | the encoding is never shorter than its input; `EncodeAlphabet`, `NoSeparators`, `EncodeUnescaped`, `EncodeAppend` and `UriDecoding.DecodeEncode` state what it means |
| UriEncoding.EncodeChar | index.js:288 | an unescaped character stays as it is; any other becomes three characters per UTF-8 byte, starting with `%` |
| UriEncoding.Utf8 | index.js:288 | a character takes one to four UTF-8 bytes, and one byte exactly when it is below 0x80 |
| UriDecoding.DecodeEncode | index.js:288 | `decodeURIComponent` undoes `encodeURIComponent` on every string: no value loses information in the URL |
| UriDecoding.DecodeFront | index.js:288 | decoding reads exactly one encoded character off the front of the input and goes on with the rest |
| UriDecoding.EscapeDecodes | index.js:288 | the `%XY` run of an escaped character is read back as that character, and the run is three characters per UTF-8 byte |
| UriDecoding.Utf8Decodes | index.js:288 | a character's UTF-8 sequence declares its own length in its first byte, has only continuation bytes after it, is not overlong, and spells the character back |
| UriDecoding.BytesAtPercent | index.js:288 | the escapes of a byte sequence read back as the bytes, whatever follows them |
| UriDecoding.ByteAtPercent | index.js:288 | the `j`-th escape of a byte sequence reads back as the `j`-th byte |
| UriDecoding.HexValueOfDigit | index.js:288 | the upper-case hexadecimal digit of `n` reads back as `n` |
| Treeshaking.ExpandIncluded | index.js:108-122 | the included list is the base list followed by the direct dependencies of each base name, in order |
| Treeshaking.AddDependencies | index.js:115-121 | the `forEach` appends, for each walked name, its table entry's list |
| Treeshaking.ExpandExcluded | index.js:103-133 | the excluded list is the base list followed by the dependants of each base name, in order |
| Treeshaking.AddDependants | index.js:127-131 | for one name, the names of the entries that list it are appended in table order |
| Treeshaking.Treeshake | index.js:100-145 | the saved parameters are the two expanded lists and the production flag |
| Treeshaking.LookupFinds | index.js:116 | `dependencies[name]` finds the first entry with the name, and is missing exactly when no entry has it |
| Treeshaking.EmptyIncludedStaysEmpty | index.js:108 | an empty included list stays empty |
| Treeshaking.IncludedBase | index.js:108-113 | a non-empty included list keeps its names, then gets canvas and mapComponent, then warnMissingComponent in development |
| Treeshaking.IncludedOneLevel | index.js:115-121 | a name is included if and only if it is a base name or a direct dependency of one |
| Treeshaking.ExcludedOneLevel | index.js:125-133 | a name is excluded if and only if it is a base name or an entry listing a base name |
| Treeshaking.WarnMissingPlacement | index.js:103-113 | warnMissingComponent is excluded in production and included in development when the list is not empty |
| Treeshaking.CircleNeedsMarker | index.js:115-121 | with the shipped table, including circle gives circle, canvas, mapComponent, marker |
| Treeshaking.MarkerExcludesCircle | index.js:125-133 | with the shipped table, excluding marker in production gives marker, warnMissingComponent, circle |
| Treeshaking.IncludedOneLevelOnly | index.js:115-121 | with a needs b needs c, including a brings b but not c |
| Treeshaking.ExcludedOneLevelOnly | index.js:125-133 | with a needs b needs c, excluding c excludes b but not a |
| GMapComponent.Registered | addon/components/g-map.js:268-271 | registering appends the API to its group, creating the group last in key order if missing; other groups unchanged |
| GMapComponent.GMap.RegisterComponent | addon/components/g-map.js:268-271 | the registry becomes `Registered(old registry, type, api)`; nothing else changes |
| GMapComponent.RegisterGrows | addon/components/g-map.js:268-271 | the group grows by exactly one, with the API last: no de-duplication |
| GMapComponent.Unregistered | addon/components/g-map.js:281-283 | unregistering removes the API from its group; keys and other groups unchanged |
| GMapComponent.GMap.UnregisterComponent | addon/components/g-map.js:281-283 | a missing group is a TypeError with no change; otherwise the registry becomes `Unregistered(...)` |
| GMapComponent.UnregisterAbsent | addon/components/g-map.js:281-283 | unregistering an API that is not in its group changes nothing |
| GMapComponent.UnregisterKeepsOthers | addon/components/g-map.js:281-283 | every copy of the API is gone, the rest of the group keeps its order and its counts |
| GMapComponent.GMap.WaitForComponents | addon/components/g-map.js:186-225 | nothing once destroying or destroyed; otherwise the groups concatenated in key order |
| GMapComponent.Pending | addon/components/g-map.js:217-225 | the wait list covers the groups in key order, one after the other, so it is as long as the sum of the group sizes |
| GMapComponent.PendingMembership | addon/components/g-map.js:217-225 | an API is waited on if and only if it is registered under some type |
| GMapComponent.ReadyIff | addon/components/g-map.js:217-225 | the wait resolves if and only if every registered API is initialized |
| GMapComponent.EmptyRegistryReady | addon/components/g-map.js:217-225 | an empty registry has nothing to wait for and is ready at once |
| GMapComponent.RegisteredIsPending | addon/components/g-map.js:217-271 | a registered API is waited on |
| GMapComponent.MapOptions | addon/components/g-map.js:116-122 | the options with center and zoom replaced and every other key kept |
| GMapComponent.GMap.CreateOptions | addon/components/g-map.js:116-122 | the component's option merge is `MapOptions` with its own center and zoom |
| GMapComponent.GMap.constructor | addon/components/g-map.js:128-148 | zoom is 8 unless given, the registry and listener table are empty, no map yet |
| GMapComponent.SafeScheduleOnce | addon/components/g-map.js:15-25 | exactly one callback runs, onError if and only if the context is destroying or destroyed |
| GMapComponent.GMap.DidUpdateAttrs | addon/components/g-map.js:150-157 | options are re-applied if and only if the map is set, and they are the merged options |
| GMapComponent.GMap.SetupMap | addon/components/g-map.js:196-212 | nothing once destroying or destroyed; otherwise the map is stored, the removers are set by name and the wait is scheduled |
| GMapComponent.StoreListeners | addon/components/g-map.js:206-207 | the listener table is the old one with each remover set by name in turn |
| Ordered.PutAllLastWins | addon/components/g-map.js:206-207 | after a run of sets each name holds the value of its last entry; names never set keep their old value |
| GMapComponent.GMap.ComponentsLoaded | addon/components/g-map.js:189-193 | `_componentsInitialized` becomes true once every awaited API is initialized, and not otherwise |
| GMapComponent.GMap.WillDestroyElement | addon/components/g-map.js:159-163 | every stored remover is called once, in insertion order |
| GMapComponent.TeardownCallsEvery | addon/components/g-map.js:162 | the remover stored under every event name is among those called |
| Ordered.OrderedMap.Put | addon/components/g-map.js:207 | setting a key keeps other entries, puts a new key last and keeps an old key's place |
| Seqs.RemoveAll | addon/components/g-map.js:282 | the result holds no copy of the removed element and every other element of the input |
| Seqs.RemoveAllKeepsOrder | addon/components/g-map/directions.js:159-163 | removal keeps the relative order of what is left |
| Seqs.ConcatMembership | addon/components/g-map.js:221 | an element is in the concatenation if and only if it is in some group |
| DirectionsComponent.RouteOptions | addon/components/g-map/directions.js:55-68 | origin, destination, travelMode and waypoints come from the component, even when undefined; every other key is kept |
| DirectionsComponent.Directions.CreateOptions | addon/components/g-map/directions.js:55-68 | the component's route options are `RouteOptions` with its own four properties |
| DirectionsComponent.Directions.constructor | addon/components/g-map/directions.js:70-76 | the waypoint list starts empty |
| DirectionsComponent.Directions.RegisterWaypoint | addon/components/g-map/directions.js:153-157 | the waypoint is appended and every other field is unchanged; the re-route a waypoint change triggers is under Left out |
| DirectionsComponent.Directions.UnregisterWaypoint | addon/components/g-map/directions.js:159-163 | the waypoint is removed and every other field is unchanged; the re-route a waypoint change triggers is under Left out |
| DirectionsComponent.UnregisterWaypointKeepsOrder | addon/components/g-map/directions.js:159-163 | the removed waypoint is gone and the others keep their order and counts |
| DirectionsComponent.FetchOutcome | addon/components/g-map/directions.js:139-145 | success if and only if the status is `'OK'`, carrying the response; otherwise failure carrying exactly the status |
| DirectionsComponent.RouteFilter | addon/components/g-map/directions.js:110-118 | a cancellation never settles the promise, another error rejects unchanged, a success resolves with the result |
| DirectionsComponent.RejectionIsStatus | addon/components/g-map/directions.js:110-145 | the route promise resolves with the response on `'OK'` and otherwise rejects with the status |
| DirectionsComponent.Directions.RouteTask | addon/components/g-map/directions.js:120-133 | on success directions and mapComponent both become the result and the callback is scheduled only if defined; on failure or cancellation they are unchanged |
| DirectionsComponent.Directions.Route | addon/components/g-map/directions.js:104-118 | whatever is sent to the service is the options unchanged (a superseded call may never reach it); on `'OK'` the promise resolves with the response, directions and mapComponent take it and the callback is scheduled only if defined; any other status rejects with that status; a superseded request never settles; on failure or supersession directions and mapComponent are unchanged, and the other fields always are |
| DirectionsComponent.Directions.AddComponent | addon/components/g-map/directions.js:78-80 | adding the component routes with the given options, with the same outcome and frame as `Route` |
| DirectionsComponent.Directions.UpdateComponent | addon/components/g-map/directions.js:82-84 | updating the component routes with the given options, ignoring the first argument, with the same outcome and frame as `Route` |
| BuildTestOptions.DashKeys | build-tests/build-test.js:17 | the list keeps its length; a string `s` at an even position becomes `--s`, and every odd position is unchanged |
| BuildTestOptions.Flatten | build-tests/build-test.js:15-16 | spreading every `[key, value]` pair gives twice as many elements as entries |
| BuildTestOptions.PrepareOptions | build-tests/build-test.js:14-18 | a missing options object gives no arguments, and otherwise there are two arguments per entry |
| BuildTestOptions.FlattenShape | build-tests/build-test.js:15-16 | the reduce gives twice as many elements: the key of entry i at 2i and its value at 2i+1 |
| BuildTestOptions.PrepareOptionsShape | build-tests/build-test.js:14-18 | twice as many arguments as entries, `--key_i` at 2i and `value_i` unchanged at 2i+1, in entry order |
| BuildTestOptions.NoOptionsNoArguments | build-tests/build-test.js:14-16 | no options, or the default `{}`, give an empty list |

## Left out

- `canIUseProxy` is left out: it looks up external browser-support data.
- The Ember CLI, Broccoli and Babel hooks are left out: `init`, `treeForAddon`, the preprocessor registry, the plugin factories, `filterComponents` and `getAddonsFromProject`. They are build wiring.
- `camelCase` and the `lib/treeshaking` helpers are not part of this model. The results of `newIncludedList` and `newExcludedList` are inputs. `newExcludeName`, `newExcludeComponent` and `skipTreeshaking` take the expanded lists (index.js:135-138), and their results are not modelled.
- `warn` is left out: its console output becomes the returned warning list.
- `marker.js` and `polyline.js` are left out: they only call SDK constructors.
- The Google Maps SDK calls are left out: `new google.maps.Map`, `setOptions`, `event.trigger`, `addListenerOnce` and `directionsService.route`. Their results are parameters.
- The ember-concurrency tasks, run-loop `schedule`/`scheduleOnce` timing and RSVP promises are not modelled. Only their observable outcomes are.
  - The restartable policy of `routeTask` appears only as the `Superseded` reply.
  - `schedule('actions', ...)` around waypoint changes is applied at once.
  - `_initMap` is reduced to `SetupMap` and `WaitForComponents`.
  - `onLoad` and `onComponentsLoad` calls are left out.
- The `GMapAPI`/`DirectionsAPI` getters, `_registerCanvas`, `_trigger`, `_updateGMap` and FastBoot detection are trivial accessors or SDK calls, so they are left out.
- `parseOptionsAndEvents`, `addEventListeners`, `watch` and `combine` are defined in files that are not part of this model.
- `LoaderUrl.Config` assumes every field is a string or missing.
  - `libraries` must be an array; a non-array value with a `length` is not modelled.
  - `mapIds` is sent as its string form only.
- `UriEncoding.Encode` cannot meet a lone surrogate: Dafny characters are Unicode scalar values. So the `URIError` that `encodeURIComponent` throws on one is not modelled.
- `Ordered.OrderedMap` keeps insertion order only. JavaScript lists integer-like object keys first, in numeric order, and that is not modelled.
- `DirectionsComponent.RouteOptions` and `DirectionsComponent.Directions.CreateOptions` put a copy of the waypoint list into the route options. The source puts in a reference to the live Ember array instead. `_registerWaypoint` and `_unregisterWaypoint` change that array in place. So in the source, a waypoint registered between `_createOptions` and the `directionsService.route` call (after the `afterRender` schedule and the `yield`) still reaches the request. The model does not capture that aliasing.
- `GMapComponent.Registered` and `GMapComponent.GMap.RegisterComponent` treat every type name as a fresh key. In the source, `this.components[type] || A()` finds an inherited `Object.prototype` property for a type such as `constructor`, and `pushObject` on it throws a `TypeError`. The model does not capture that.
- `Treeshaking.Lookup` reads only the table's own entries. Prototype properties that `dependencies[name]` would also find (such as `constructor`) are not modelled.
- `GMapComponent.MapOptions` and `DirectionsComponent.RouteOptions` compute the merged options as maps without key order. The SDK does not read that order.
- `DirectionsComponent.Directions.RegisterWaypoint` and `DirectionsComponent.Directions.UnregisterWaypoint` only change the waypoint list. In the source, `_didAddComponent` (addon/components/g-map/directions.js:86-96) installs a `watch` on `waypoints.[]` that calls `_updateOrAddComponent`, so every waypoint change routes again. It also stores the watcher's remover in `_eventListeners`. That watcher is not modelled: `watch` is defined in a file that is not part of this model.
- `GMapComponent.GMap` does not model the destroy lifecycle itself. `isDestroying` and `isDestroyed` are fields that the framework sets.
