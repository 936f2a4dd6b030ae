# ShadowCopy wrapper dispatch, modelled in Dafny

`ShadowCopy` wraps a JavaScript object in a `Proxy` whose handler combines
four built-in defaults (`get`, `set`, `defineProperty`, `deleteProperty`)
with the user's own traps. Reading a property that holds an object or a
function returns a new `ShadowCopy` over that value. The new wrapper has the
same user handler and a copy of the key path read so far. Each wrapper keeps
an identity cache from raw nested objects to the wrappers made for them, so
reading the same unchanged property twice gives the identical wrapper.
Overwriting or removing a property drops the old value's entry from that
cache. The most recent `get`, `set` or user-trap dispatch sets four
module-level "current" variables; `get` and user traps also set the static
`ShadowCopy.path` (the default `defineProperty` and `deleteProperty` set
neither). `ShadowCopy.nest` reads these to wrap a value on behalf of a user
trap.

The model has six modules:

- `JsValues` (values.dfy): primitives, object references, wrapper
  references, completions, and the host heap with property read, write and
  delete.
- `Handlers` (handlers.dfy): the trap kinds and the two classification
  tables. It also holds the finished handler the constructor's loop
  assembles, and that loop as a method.
- `ShadowCopySpec` (shadow_copy.dfy): every operation as a pure transition
  on a snapshot of the whole state. The snapshot holds the heap, the wrapper
  table with one cache per wrapper, the currents and the static path. An
  invariant (`Valid`) says every cache entry maps an object to a wrapper
  over that same object with the owner's handler. Every transition keeps
  that invariant.
- `ShadowCopyRuntime` (realm.dfy): class `Realm`. Its fields are the mutable
  module-level state, and its methods update them in place. Each method is
  proved to make exactly the transition the matching `ShadowCopySpec`
  function describes.
- `ShadowCopyProperties` (properties.dfy) and `ShadowCopyScenarios`
  (scenarios.dfy): what the library promises across several operations.
  The scenarios replay two uses from test.js on the class.

Objects and wrappers are named by their index in the heap and in the wrapper
table. A wrapper's identity is its index. `Raw(Obj(o))` and `Proxy(w)` are
distinct values, so "the wrapper is not the raw object" is a fact the
contracts can state.

## Model

| member | source | states |
|---|---|---|
| Handlers.FinalHandlerSlot | index.js:37-78 | After the loop, a kind has a slot exactly when the user handler defines it or it is one of get/set/defineProperty/deleteProperty. The slot is the user's composed trap exactly when the user defines the kind, so a user trap replaces the default. |
| Handlers.BuildFinalHandler | index.js:61-78 | The `for` loop over the handler entries builds the finished handler, and the result has the slot property above. |
| ShadowCopySpec.Construct | index.js:33-35 | A new wrapper gets the next identity, the target, the handler and the path it was given (`[]` when omitted), and an empty cache. No existing wrapper changes, and the invariant holds. |
| ShadowCopySpec.SetCurrents | index.js:17-22 | The four currents name the dispatching wrapper's handler, its cache, its target and the key. Heap, wrappers and path are unchanged. |
| ShadowCopySpec.Resolve | index.js:89 | An omitted argument means `currentTarget[currentP]`. A given argument is used as it is, and the value refers to an existing object. |
| ShadowCopySpec.Evict | index.js:47 | `cache.delete(value)` removes the value's entry when the value is an object. A primitive removes nothing, and every other entry stays. |
| ShadowCopySpec.EvictAt | index.js:47 | Eviction of the value currently at `target[key]` touches only that wrapper's cache and keeps the invariant. |
| ShadowCopySpec.NestStep | index.js:89-102 | With no context, a TypeError. For a cached object: the cached wrapper, state unchanged. For an uncached object: a new wrapper with the current handler, a copy of the current path and an empty cache, stored in the current cache and returned. For a primitive: returned unchanged, nothing touched. On the TypeError path the state is unchanged. Heap, currents and path never change, and nothing else does. |
| ShadowCopySpec.GetStep | index.js:40-44 | The default `get` sets the currents to this wrapper and key and sets the path to the wrapper's path plus the key. It answers for `target[key]`: a primitive as itself, an object by the wrapper cached for it in this wrapper's cache. A new wrapper's path is the parent's path plus the key. |
| ShadowCopySpec.SetStep | index.js:45-50 | The default `set` sets the currents and evicts the old value's entry from this wrapper's cache only. It then writes `v` at `target[key]`, and the key is present afterwards even when `v` is undefined. No other property changes its value or its presence, other wrappers are unchanged, and the path is untouched. |
| ShadowCopySpec.DefinePropertyStep | index.js:51-54 | The default `defineProperty` evicts the old value's entry, then writes the value; the key is present afterwards. No other property changes its value or its presence, and neither the currents nor the path change. |
| ShadowCopySpec.DeletePropertyStep | index.js:55-58 | The default `deleteProperty` evicts the old value's entry, then removes the key. No other property changes its value or its presence, and neither the currents nor the path change. |
| ShadowCopySpec.TrapEnter | index.js:62-75 | Before the callback, the composed user trap sets the currents. The path becomes the wrapper's path plus the key for key-bearing kinds, or a copy of the wrapper's path otherwise. For erasing kinds, the old value's entry is evicted. |
| ShadowCopySpec.DispatchStep | index.js:37-80 | A kind the user handler defines runs the composed trap, and its outcome is returned unchanged. An undefined default kind runs its default. Any other kind is left to the host with the state unchanged. |
| ShadowCopyRuntime.Realm.constructor | index.js:4-7 | At module load the currents are null, the path is empty and there are no wrappers. |
| ShadowCopyRuntime.Realm.Allocate | test.js:143 | The host evaluating `function () {}` appends one object to the heap and changes nothing else. |
| ShadowCopyRuntime.Realm.SetCurrents | index.js:17-22 | In-place update equal to `ShadowCopySpec.SetCurrents`. |
| ShadowCopyRuntime.Realm.NewShadowCopy | index.js:33-80 | In-place update equal to `ShadowCopySpec.Construct`, with the finished handler built by the loop; the path defaults to `[]`. |
| ShadowCopyRuntime.Realm.EvictAt | index.js:47 | In-place update equal to `ShadowCopySpec.EvictAt`. |
| ShadowCopyRuntime.Realm.Nest | index.js:89-102 | Result and new state equal to `ShadowCopySpec.NestStep`. |
| ShadowCopyRuntime.Realm.Get | index.js:40-44 | Result and new state equal to `ShadowCopySpec.GetStep`. |
| ShadowCopyRuntime.Realm.Set | index.js:45-50 | New state equal to `ShadowCopySpec.SetStep`, and it reports `true`. |
| ShadowCopyRuntime.Realm.DefineProperty | index.js:51-54 | New state equal to `ShadowCopySpec.DefinePropertyStep`, and it reports `true`. |
| ShadowCopyRuntime.Realm.DeleteProperty | index.js:55-58 | New state equal to `ShadowCopySpec.DeletePropertyStep`, and it reports `true`. |
| ShadowCopyRuntime.Realm.EnterTrap | index.js:62-75 | New state equal to `ShadowCopySpec.TrapEnter`. |
| ShadowCopyRuntime.Realm.InvokeTrap | index.js:62-77 | The set-up above, then the callback's outcome returned as it is. |
| ShadowCopyRuntime.Realm.Dispatch | index.js:37-80 | Result and new state equal to `ShadowCopySpec.DispatchStep`. |
| ShadowCopyProperties.InitialValid | index.js:4-7 | The invariant holds at module load. |
| ShadowCopyProperties.NestIdempotent | index.js:90-92 | Nesting the same value twice in a row gives the same answer, and the second call changes nothing. |
| ShadowCopyProperties.GetIdempotent | test.js:122-123 | Two default reads of the same unchanged property give the identical wrapper or primitive, and the second read leaves the state as the first left it. |
| ShadowCopyProperties.SetThenGet | test.js:112-116 | After a default `set` of `v`, a read of the key answers for `v`. It never answers with the wrapper cached for the overwritten object, even when `v` is that object. |
| ShadowCopyProperties.DefineThenGet | index.js:51-54 | The same for `defineProperty`. |
| ShadowCopyProperties.DeleteThenGet | test.js:129-135 | After a default `deleteProperty`, a read of the key yields undefined. |
| ShadowCopyProperties.GetWrapsObjects | index.js:94-98 | Reading a property holding an object never returns the raw object. It returns a wrapper over that object, and a wrapper created by the read has the parent's path plus the key. |
| ShadowCopyProperties.FailingTrapKeepsEviction | index.js:72-76 | When a user trap of an erasing kind throws, the exception comes back unchanged and the composed trap itself does not write the target. The path records the key, and the old value's entry stays evicted. |
| ShadowCopyProperties.GetDispatch | index.js:40-44 | Without a `get` trap, a read runs the default. With one, the default does not run, the composed trap itself changes no cache, and the trap's value comes back unwrapped. |
| ShadowCopyProperties.GetKeepsCaches | index.js:90-98 | A default read never writes the heap, never drops a cache entry and never retargets a wrapper: `nest` only adds entries. |
| ShadowCopyProperties.Reads | index.js:40-44 | Any run of default reads, including reads through wrappers created earlier in the run, keeps the heap, every wrapper's target and every cache entry that existed before it. |
| ShadowCopyProperties.StableIdentity | test.js:122-123 | Reading `w[key]`, then any run of default reads, including reads through wrappers the first read or the run created, then `w[key]` again returns the first answer: the wrapper's identity is stable across interleaved reads. |
| ShadowCopyScenarios.RecordingGet | test.js:95-98 | A `get` trap that records `ShadowCopy.path` and nests `target[p]`. The recorded path is the wrapper's path plus the key, and its result follows nest's three cases. |
| ShadowCopyScenarios.NestedNumbers | test.js:94 | The nested object `{'1': {'2': {'3': {'4': '5'}}}}` refers only to objects that exist. |
| ShadowCopyScenarios.ReadThreeDeep | test.js:94-101 | Reading `p2['1']['2']['3']` records `['1']`, `['1','2']`, `['1','2','3']` and caches the wrapper of `p2['1']`. |
| ShadowCopyScenarios.RecordedPaths | test.js:94-103 | The five recorded paths are `['1']`, `['1','2']`, `['1','2','3']`, `['1']`, `['1','a']`. The second read of `p2['1']` returns the wrapper of the first. |
| ShadowCopyScenarios.FreshFunctionGet | test.js:142-144 | A `get` trap that nests a new function creates a new wrapper with the parent's handler, whose path is the parent's path plus the key. |
| ShadowCopyScenarios.QueryBuilderPath | test.js:140-151 | In `db.select.from.where(...)`, the `apply` trap sees the path `['select','from','where']`, not extended by the call. |

## Left out

- The host's `Proxy` and `Reflect` machinery is not modelled. Dispatch is the explicit `Dispatch` method. A kind with no slot in the finished handler ends in `Forwarded`, and what the host then does on the target is not modelled.
- `defineProperty` descriptors are reduced to the data value they define. Accessors, attributes and a `false` result from `Reflect.defineProperty` are not modelled.
- `WeakMap` weak references and garbage collection are not modelled. The cache is an ordinary map from object identities. A primitive lookup misses and a primitive delete does nothing, as `WeakMap` does for non-object keys.
- The bodies of user callbacks are not modelled. Their outcome (a value or a thrown error) is a parameter of `Dispatch` and `InvokeTrap`.
- `Dispatch`, `InvokeTrap` and `DispatchStep` treat the callback as having no effect on the state. A callback that calls `ShadowCopy.nest()` (adding wrappers and cache entries) is composed in the scenarios, as calls on the class. Writes to the target by a callback and re-entrant reads by a callback through other wrappers (which overwrite the currents and `ShadowCopy.path`) are not modelled. `FailingTrapKeepsEviction` and `GetDispatch` therefore speak of the composed trap itself, not of whatever the callback does.
- Values written through `set` and `defineProperty` are raw values. Storing a wrapper into a target, or nesting a wrapper, is not modelled.
- Prototype chains, getters and setters are not modelled. `target[key]` reads an own property or gives undefined.
- Functions and plain objects share one kind of heap entry, since `nest` treats them alike. Calling a function (`apply`, `construct`) is modelled only through the composed user trap.
- Property keys are modelled as strings. Symbol keys, which a trap can receive and which the path would then record, are not modelled.
- A trap's second argument is modelled as a property key. For kinds without one (such as `apply`, whose second argument is `thisArg`), the scenario passes the key `"undefined"`, which lands in `currentP` only.
- Handler keys that are not trap names are left out. They are copied into the finished handler but the host never calls them.
- The chai and mocha test scaffolding and the stack-trace parsing of `getCallee` in test.js are not part of this model.
