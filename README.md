# AnalyticsManager in Dafny

A model of `AnalyticsManager.js`, the analytics manager of a browser game. It is
one stateful object. It keeps several things:

- the engine adapters that were registered, in slot order;
- four property bags: event, persistent-event, session and user properties;
- a rename table for property names;
- a previous-event trail: the last event and the last major event;
- the start time of the session.

It fans every event, every persistent-event, session and user property change,
and every user identification out to the registered adapters. The model keeps that form. `Analytics.AnalyticsManager` is a
class with the manager's fields. Its methods change those fields under
field-granular `modifies` clauses. The closure variables `defaultInstance` and
`availableEngines` live in a second class, `Analytics.ModuleState`.

The modules follow the structure of the file:

- `Values`: property values, bags (`map<string, Value>`), the rename table,
  tracking parameters, and truthiness of optional strings.
- `PropertyStore`: the merge done by `setProperties` (`copyFromAtoB`). It also
  holds the reference definition `Renamed` of a rename pass, the outcome
  `RenameOutcome` that one pass guarantees for every table and every visiting
  order, and the loop invariant `RenamePass` with its step lemmas.
- `EventHistory`: the five history fields as a `History` value. It covers how
  `addLastEventInformationTo` decorates a bag (`WithLastEventInformation`) and
  how `updateLastEventInformation` moves the history on (`NextHistory`).
- `SessionClock`: `addSessionTimeTo`. The wall clock is a parameter `now`, in
  milliseconds.
- `EngineRegistry`: engine slots and registration outcomes, the ghost log of
  adapter calls, and the reference definition of a broadcast (`FirstStop`,
  `BroadcastOutcome`, `Delivered`). It also holds the walk of `init` over the
  table of available engines (`Enabled`, `InitSlots`, `InitLog`) and the table
  itself (`Lookup`, `WithAvailableEngine`).
- `Analytics`: the two classes.

Foreign code enters only as parameters:

- **Engine constructors.** A `Construction` says whether the constructor
  returned an adapter, shown by an opaque id, or threw.
- **Adapters.** Every call to an adapter is appended to the ghost log `calls`.
  Its arguments are the exact bags the adapter receives.
- **Exceptions.** Which adapter throws on which method is a parameter
  `faults`. Calling a method on the empty slot left by a failed registration
  throws a `TypeError`. An exception ends the broadcast and the operation that
  made it (outcome `Aborted(slot)`).
- **The logging sink.** Diagnostics go to the ghost log `log`.

Only truthy entries of the rename table rename. The `for…in` loop of
`renameProperties` visits a snapshot of the keys, in an order the model leaves
open (`:|`). That order is a legal `for…in` order. Some facts hold for every
table and every order: every value comes from the input, unrenamed untargeted
keys survive, and every key is an input key or a rename target. For a table
that is chain-free and injective, the result is exactly `Renamed`, whatever the
order.

## Model

| member | source | states |
|---|---|---|
| `PropertyStore.Merge` | AnalyticsManager.js:104-113 | the copy of the source into the target: the keys are those of both, a source key holds the source value, and a target key absent from the source keeps its value |
| `PropertyStore.RenamedMoves` | AnalyticsManager.js:158-169 | for a chain-free injective table, a key with a truthy entry is gone after a pass and its value sits under the entry, overwriting what was there |
| `PropertyStore.RenamedKeeps` | AnalyticsManager.js:158-169 | for a chain-free injective table, a key without a truthy entry that nothing is renamed onto keeps its value |
| `PropertyStore.RenamedKeys` | AnalyticsManager.js:158-169 | for a chain-free injective table, a key is present after a pass if and only if it is an unrenamed input key or the target of a renamed input key |
| `PropertyStore.RenamedIdempotent` | AnalyticsManager.js:158-169 | for a chain-free injective table a second pass changes nothing, so renaming the merged bag again in a later `setProperties` is harmless |
| `PropertyStore.CopyThenRename` | AnalyticsManager.js:110-111 | renaming happens after the copy: when the source holds both a renamed key and its target, only the target survives and it holds the renamed key's value |
| `PropertyStore.MergeNothing` | AnalyticsManager.js:104-113 | copying from an empty bag, as `trackEvent` does when it is given no properties, leaves the target unchanged |
| `PropertyStore.MergedKeySurvives` | AnalyticsManager.js:104-113 | a key written by the merge that is neither renamed nor a rename target arrives with the value the caller gave, whatever the table and the order |
| `PropertyStore.PartlyRenamedNothing` | AnalyticsManager.js:162 | before the first key is visited, the reference partial result is the input bag |
| `PropertyStore.PartlyRenamedSkip` | AnalyticsManager.js:163 | visiting a key without a truthy entry leaves the reference partial result unchanged |
| `PropertyStore.PartlyRenamedStep` | AnalyticsManager.js:163-167 | visiting a key with a truthy entry deletes it and writes its value under the entry, in the reference partial result |
| `PropertyStore.RenamePassMove` | AnalyticsManager.js:163-167 | one rename step keeps the pass invariant: values come from the input, untouched keys survive, keys are input keys or targets, and the result matches the reference for unambiguous tables |
| `PropertyStore.RenamePassSkip` | AnalyticsManager.js:162-163 | skipping a key without a truthy entry keeps the pass invariant |
| `PropertyStore.RenamePassDone` | AnalyticsManager.js:162-168 | a pass that has visited every key has the promised outcome |
| `EventHistory.WithLastEventInformation` | AnalyticsManager.js:200-219 | the trail only adds keys from the five `Prev*` keys and adds none with tracking off; its key-by-key meaning is stated by `TrailKeyRules`, `TrailAddsOnlyPrevKeys` and `NoTrailWhenUntracked` |
| `EventHistory.NextHistory` | AnalyticsManager.js:232-247 | the event name is always recorded and the never-assigned session-time field is untouched; the other fields are stated by `NextHistoryFields`, and consistency by `NextHistoryConsistent` |
| `EventHistory.TrailKeyRules` | AnalyticsManager.js:200-219 | for each of the five trail keys: it is in the result exactly when the bag had it or tracking is on and the field behind it is truthy; in that case it holds the stated value (`PrevEventExt` and `PrevMajorEventExt` join the name, printed as `null`/`undefined` when absent, and the description with a space); otherwise the bag's own value stays |
| `EventHistory.NextHistoryFields` | AnalyticsManager.js:232-247 | the next history, field by field: the event name always; the major name only for a major event; the description only when truthy; the major description only when truthy and major; the session-time field untouched |
| `EventHistory.TrailAddsOnlyPrevKeys` | AnalyticsManager.js:200-219 | the trail only adds the five `Prev*` keys and leaves every other key of the bag as it was |
| `EventHistory.NoTrailWhenUntracked` | AnalyticsManager.js:202-203 | with previous-event tracking off the bag is untouched |
| `EventHistory.NoTrailOnFirstEvent` | AnalyticsManager.js:205-218 | the history of a fresh manager adds no trail key, because all five fields are empty |
| `EventHistory.NoPrevEventSessionTime` | AnalyticsManager.js:211-212 | `PrevEventSessionTime` never appears in a bag that lacked it, because `lastEventSessionTime` is never set in a reachable history |
| `EventHistory.NextHistoryConsistent` | AnalyticsManager.js:232-247 | recording an event with a non-empty name keeps the history consistent: stored names and descriptions are truthy, a description comes with a name, and the session-time field stays unset |
| `EventHistory.TrailNamesLastEvent` | AnalyticsManager.js:236-238 | the next event carries the recorded name as `PrevEvent`, and as `PrevMajorEvent` when the event was major; after a minor event `PrevMajorEvent` is present exactly when an older major name is remembered, and then holds that name |
| `EventHistory.StaleDescriptionIsKept` | AnalyticsManager.js:240-246 | without a new truthy description the old one stays, so `PrevEventExt` pairs the newest name with an older description |
| `EventHistory.MinorDescriptionSkipsMajorTrail` | AnalyticsManager.js:240-246 | a description given with a non-major event updates `lastEventDescription` only; the major name and description stay as they were |
| `SessionClock.ElapsedSeconds` | AnalyticsManager.js:226-227 | the result is `floor((now - start) / 1000)`, stated as the bracket `r*1000 <= now-start < r*1000+1000`, and is non-negative when `now` is not before `start` |
| `SessionClock.WithSessionTime` | AnalyticsManager.js:222-228 | `SessionTime` is written exactly when a session start is set, with the elapsed whole seconds; no other key changes |
| `EngineRegistry.SlotOf` | AnalyticsManager.js:48-58 | the slot pushed holds an adapter exactly when the constructor returned one, and then that adapter |
| `EngineRegistry.FirstStop` | AnalyticsManager.js:124-125 | the index where a broadcast loop stops is the first empty slot or the first throwing adapter from the start index, or the end |
| `EngineRegistry.DeliveredToAdapters` | AnalyticsManager.js:188-190 | a broadcast never makes more calls than there are slots, and its `i`-th call goes to slot `i`, which holds an adapter, with that adapter's id and the request |
| `EngineRegistry.CompletedBroadcastReachesAll` | AnalyticsManager.js:188-190 | a completed broadcast called every slot exactly once, in slot order, each with the same request |
| `EngineRegistry.AbortedBroadcastStops` | AnalyticsManager.js:188-190 | a broadcast aborted at slot k called every earlier slot once, slot k once if it holds an adapter, and no later slot |
| `EngineRegistry.EmptySlotAbortsBroadcast` | AnalyticsManager.js:58 | the undefined slot left by a failed registration makes every later broadcast abort at or before that slot |
| `EngineRegistry.EmptyRegistryBroadcast` | AnalyticsManager.js:255-256 | with no slots a broadcast makes no call and completes |
| `EngineRegistry.IsEnabled` | AnalyticsManager.js:84 | the guard of `init`: the parameters hold a configuration for the name, it is enabled, and a constructor was stored; `EnabledFilters` states that exactly the engines passing it are registered |
| `EngineRegistry.EnabledFilters` | AnalyticsManager.js:81-86 | `init` registers an available engine if and only if it has a constructor and is enabled in the parameters |
| `EngineRegistry.RegisteredSlotsAt` | AnalyticsManager.js:44-59 | a sequence of registrations appends one slot per attempt, in order, each holding what its constructor produced |
| `EngineRegistry.InitSnoc` | AnalyticsManager.js:81-86 | looking at one more available engine adds its slot and diagnostic exactly when it passes the guard |
| `EngineRegistry.RegistrationSnoc` | AnalyticsManager.js:44-59 | one more registration appends its slot, and a diagnostic exactly when its constructor threw |
| `EngineRegistry.InitRegistersEnabled` | AnalyticsManager.js:81-86 | walking the available engines produces the same slots and diagnostics as registering exactly the enabled engines one after another |
| `EngineRegistry.OneDiagnosticPerEmptySlot` | AnalyticsManager.js:49-58 | registration keeps its bookkeeping in step: there is one diagnostic per empty slot |
| `EngineRegistry.WithAvailableEngine` | AnalyticsManager.js:37-40 | the stored engine is in the table, which grows by at most one entry; lookup and order are stated by `AddAvailableEngineLookup` and `AddAvailableEngineOrder` |
| `EngineRegistry.AddAvailableEngineLookup` | AnalyticsManager.js:37-40 | storing a constructor is a map update: its name now finds it, and every other name finds what it found before |
| `EngineRegistry.AddAvailableEngineOrder` | AnalyticsManager.js:37-40 | overwriting a known name keeps the length, every entry with another name stays at its position, and the new entry takes the position of the first entry with its name; a new name is appended last |
| `Analytics.AnalyticsManager.constructor` | AnalyticsManager.js:5-17 | a fresh manager has no engines, no session start, an empty history, four empty bags and an empty rename table |
| `Analytics.AnalyticsManager.RegisterAnalyticsEngine` | AnalyticsManager.js:44-59 | exactly one slot is appended and earlier slots are unchanged; the slot holds the adapter on success and is empty on failure, and exactly one diagnostic is written on failure and none on success |
| `Analytics.AnalyticsManager.OnRegisterAnalyticsEngineFailure` | AnalyticsManager.js:62-74 | exactly one diagnostic, naming the engine and the token, is written |
| `Analytics.AnalyticsManager.Init` | AnalyticsManager.js:77-92 | the slots and diagnostics appended are those of registering the enabled engines in table order; the four options are stored with their defaults |
| `Analytics.AnalyticsManager.SetSessionStartTime` | AnalyticsManager.js:95-98 | the session start is the value given |
| `Analytics.AnalyticsManager.RenameProperties` | AnalyticsManager.js:158-169 | the loop's result has the rename outcome for every table and every visiting order, equals `Renamed` for a chain-free injective table, and never has more keys than its input |
| `Analytics.AnalyticsManager.SetProperties` | AnalyticsManager.js:104-113 | the result is the rename outcome of the merge of target and source |
| `Analytics.AnalyticsManager.SetEventProperties` | AnalyticsManager.js:128-131 | the event bag becomes the rename outcome of its merge with the argument, and nothing is broadcast |
| `Analytics.AnalyticsManager.ResetEventProperties` | AnalyticsManager.js:134-137 | the event bag is replaced by an empty one |
| `Analytics.AnalyticsManager.SetPropertiesAndAlsoInEngines` | AnalyticsManager.js:115-126 | the bag of the given kind becomes the rename outcome of its merge with the source and the other two bags are unchanged; every slot is then sent the whole new bag in order, up to the first exception |
| `Analytics.AnalyticsManager.StoreAndBroadcast` | AnalyticsManager.js:117-125 | the merged bag replaces the bag of its kind; with no slots nothing is called, otherwise the broadcast calls the slots as `Delivered` says |
| `Analytics.AnalyticsManager.SetPersistentEventProperties` | AnalyticsManager.js:140-143 | as `SetPropertiesAndAlsoInEngines` for the persistent-event bag: session and user bags unchanged, and every slot receives the whole new bag |
| `Analytics.AnalyticsManager.SetSessionProperties` | AnalyticsManager.js:146-149 | as `SetPropertiesAndAlsoInEngines` for the session bag |
| `Analytics.AnalyticsManager.SetUserProperties` | AnalyticsManager.js:152-155 | as `SetPropertiesAndAlsoInEngines` for the user bag |
| `Analytics.AnalyticsManager.FanOut` | AnalyticsManager.js:188-190 | the loop's calls are exactly the reference broadcast `Delivered`, appended to the log, and its outcome is `BroadcastOutcome` |
| `Analytics.AnalyticsManager.TrackEvent` | AnalyticsManager.js:175-197 | without engines or without a name nothing changes and nothing is called. Otherwise the slots receive, in order, the merged and renamed event bag with the trail and `SessionTime` added after renaming, plus the other three bags. On completion the event bag is empty, the history has moved on, and a payer event sets `isPayer` in the user bag and broadcasts it. On an exception the operation stops there |
| `Analytics.AnalyticsManager.DispatchEvent` | AnalyticsManager.js:184-196 | the dispatched bag is the decorated event bag; the broadcast, reset, history update and payer step follow, each only if the broadcast before completed |
| `Analytics.AnalyticsManager.DecorateEventProperties` | AnalyticsManager.js:184-186 | the trail and then `SessionTime` are written into the event bag itself |
| `Analytics.AnalyticsManager.FinishEvent` | AnalyticsManager.js:192-196 | after a completed dispatch the event bag is empty and the history has moved on by `NextHistory` when tracking is on; the payer step follows |
| `Analytics.AnalyticsManager.FlagPayer` | AnalyticsManager.js:195-196 | on the payment event, with payer tracking on, the user bag becomes the rename outcome of its merge with `isPayer: true` and is broadcast whole; otherwise nothing changes |
| `Analytics.AnalyticsManager.UpdateLastEventInformation` | AnalyticsManager.js:232-247 | with tracking on the history becomes `NextHistory`; with it off nothing changes; the history stays consistent |
| `Analytics.AnalyticsManager.IdentifyUser` | AnalyticsManager.js:252-257 | every slot is called in order with the user id, with no guard on the number of engines |
| `Analytics.AnalyticsManager.OnPageLoaded` | AnalyticsManager.js:262-266 | the session starts at the first clock read `start`; without engines nothing else changes. With engines the pending event bag, renamed and decorated, is sent as `PageLoaded` with `SessionTime` equal to the whole seconds from `start` to the second clock read `now` (never negative when the clock does not step back); afterwards the state is that of `TrackEvent` with no properties and no tracking parameters |
| `Analytics.AnalyticsManager.OnFirstServerResponse` | AnalyticsManager.js:269-272 | `SessionCreated` is tracked with no properties of its own: without engines nothing changes; with engines the bag sent is the pending event bag, renamed and decorated, and the calls, the reset, the history and the payer step are those of `TrackEvent` with no properties and no tracking parameters |
| `Analytics.ModuleState.constructor` | AnalyticsManager.js:20-36 | no default instance and an empty table of available engines |
| `Analytics.ModuleState.GetInstance` | AnalyticsManager.js:21-30 | the stored instance is returned unchanged; without one, a fresh manager is created, stored and returned |
| `Analytics.ModuleState.SetInstance` | AnalyticsManager.js:31-34 | any instance, or none, replaces the stored one |
| `Analytics.ModuleState.AddAvailableEngine` | AnalyticsManager.js:37-40 | the table becomes the map update `WithAvailableEngine`, whose lookup and order are stated by the two lemmas above |

## Left out

- The `window` shims at lines 277-312 and the `window.AnalyticsManager` export at line 3 are not modelled. They install globals and forward calls.
- Console output is not modelled. `logMethod`, `console.log` and the contents of the `debugOutput` record become one `RegistrationFailure(engine, token)` entry in the ghost log.
- `RegisterAnalyticsEngine`: the assignment `engineParams.logMethod = this.logMethod` at line 46 is not modelled. It hands a foreign logging function to the adapter and writes it into the caller's configuration object. With `engineParams` null or undefined it throws a `TypeError` before the `try` at line 49, so nothing is pushed and no diagnostic is written. The model assumes an object, which `init` always passes, since its guard at line 84 already reads `.enabled` from it.
- Engine-specific parameters are not modelled. `init` reads only `enabled` from each engine's configuration.
- What adapters do inside their methods is foreign code. The model keeps only the calls they receive and whether they throw, which is the `faults` parameter.
- Each `new Date()` is a parameter holding its millisecond count: `start` for the read at line 264 and `now` for the read at line 226. The session start is a `Date` object, which is always truthy, so the test at line 224 reduces to "is set". A raw number passed to `setSessionStartTime` is not modelled; the number 0 would be falsy there and `SessionTime` would be left out.
- `copyFromAtoB` is not part of the file. It is taken to be a key-by-key overwriting copy (`Merge`). An `undefined` source, as in `trackEvent("PageLoaded")`, is the empty bag.
- JavaScript truthiness of arbitrary values is not modelled. Names, descriptions and rename targets are strings, where `""` is falsy. Absent values are `None`, and engine configurations are booleans.
- Keys inherited from `Object.prototype` are not modelled. A real rename table would see them.
- `for…in` ordering rules, such as integer-like keys first, are not modelled. The rename order is left open. The available-engine table is taken in its insertion order.
- `RenameProperties` visits a snapshot of the keys. A key that a rename writes after that key was already visited is not visited again, as `for…in` yields each name at most once. A key new to the object may or may not be visited by JavaScript; the model never visits it, which is one of the allowed behaviours.
- Aliasing of bag objects is not modelled. The source merges into the field's object in place, so an adapter holding the user bag from an earlier `trackEvent` would see `isPayer` appear. The model's bags are values, so what an adapter received is stored in the call log as it was at that moment.
- `SetPersistentEventProperties` follows the sibling setters, not the source as written. At line 140 the source attaches it to the constructor rather than the prototype, so `this` there is not a manager.
- Re-entrant calls from an adapter back into the manager during a broadcast are not modelled.
- `eventIsDebugEvent` in the tracking parameters is not modelled. The manager never reads it.
- `UpdateLastEventInformation` drops the `eventProperties` argument, because the source ignores it.
- Calling `init` before the table of available engines is filled, or with a table changed in between, is not special. `Init` takes the table, `ModuleState.availableEngines`, as a parameter.
