# vibe_alarm_sys — a verified model of the alarm-trigger attribution engine

The Home Assistant integration `vibe_alarm_sys` mirrors an alarm control
panel onto ESPHome display devices. Beneath the host plumbing it has four
parts, and this project models each one:

- **State normaliser** (`normalize.dfy`, module `Normalize`). Booleans become
  `"true"`/`"false"`. Any other raw state becomes its text, lower-cased.
- **Ingestion filter and trigger cache** (`trigger_cache.dfy`, module
  `TriggerCache`). A binary-sensor change goes through the handler's guard
  chain. An activation becomes a record in a FIFO bounded at 300 entries.
  When the FIFO is full, appending first drops the oldest record.
- **Attribution resolver** (`attribution.dfy`, module `Attribution`). On a
  "triggered" alarm, the cache is scanned from newest to oldest. The first
  record inside the lookback window names the source. Otherwise the panel's
  own truthy `source` attribute is used, and failing that the literal
  `"Alarm"`. The lookback defaults to 60 s.
- **Dispatcher** (`dispatch.dfy`, module `Dispatch`), covering:
  - the device slug;
  - the three service names built from the slug;
  - the choice of a registered spelling among three candidates;
  - the guarded call;
  - the calls that one `push_to_all` makes, device by device.

`engine.dfy` (module `Engine`) puts these together in the class
`AlarmSync`, the state of one configured entry:

- `cache` is the trigger cache, a sequence the sensor handler reassigns.
- `log` records every service call made so far. A call is the service name
  plus its one-key payload.

Each handler is a method whose postcondition gives the new state as a
function of the old one. These are the functions the lemmas are about:
`Admit` and `BoundedAppend` for the cache, and `PushCalls` and `AlarmCalls`
for the log.

Modelling choices:

- Timestamps are integers in microseconds. The lookback window is the number
  of seconds times 1 000 000.
- The host's service registry is the set of names registered in the
  `esphome` domain.
- The alarm's resolved display name (`friendly_name`, else `name`) is a
  parameter of the handlers. So are the registry and the current time.
- The cache holds 300 records (line 71).
- Every alarm change pushes its state (line 172).
- The panel name goes out on every push (lines 112-119).

## Model

| member | source | states |
|---|---|---|
| Normalize.LowerChar | custom_components/vibe_alarm_sys/__init__.py:33 | ASCII lower-casing maps exactly the upper-case letters, each 32 code points down, and leaves every other character alone |
| Normalize.Lower | custom_components/vibe_alarm_sys/__init__.py:33 | the result has no upper-case letter and spells the input up to case |
| Normalize.NormalizeBoolish | custom_components/vibe_alarm_sys/__init__.py:27-33 | True gives "true" and False gives "false"; None gives "none"; text gives its lower-case spelling; the result is always lower-case |
| Normalize.LowerOfLowerCase | custom_components/vibe_alarm_sys/__init__.py:33 | lower-casing text that is already lower-case changes nothing |
| Normalize.NormalizeIdempotent | custom_components/vibe_alarm_sys/__init__.py:27-33 | normalising a normalised value yields the same value |
| Normalize.NormalizeCaseInsensitive | custom_components/vibe_alarm_sys/__init__.py:33 | texts that differ only in letter case normalise alike |
| Normalize.NormalizeUnique | custom_components/vibe_alarm_sys/__init__.py:33 | the normalised text is the only lower-case spelling of the input |
| Normalize.NormalizeExamples | custom_components/vibe_alarm_sys/__init__.py:27-33 | True gives "true", False gives "false", "ON" gives "on", "Open" gives "open", "foo" gives "foo" |
| TriggerCache.DisplayName | custom_components/vibe_alarm_sys/__init__.py:153 | the record name is the friendly name when truthy, else the entity id |
| TriggerCache.Admit | custom_components/vibe_alarm_sys/__init__.py:123-157 | a record is produced exactly when the change is an activation (IsActivation); the record is stamped `now`, has an active state, a relevant class, a non-empty id and name, and copies the event's id, display name, class and normalised state |
| TriggerCache.AdmitRejects | custom_components/vibe_alarm_sys/__init__.py:128-147 | each guard on its own drops the change: missing id or new state, unknown/unavailable/none, an irrelevant or missing class, an unchanged normalised state, an inactive state |
| TriggerCache.RepeatNeverAdmitted | custom_components/vibe_alarm_sys/__init__.py:141-143 | a change whose old and new raw states are equal is never cached |
| TriggerCache.FirstObservationAdmitted | custom_components/vibe_alarm_sys/__init__.py:141-147 | with no old state, an active state of a relevant sensor is always cached |
| TriggerCache.Newest | custom_components/vibe_alarm_sys/__init__.py:71 | the newest `cap` elements: all of a short sequence, else exactly its last `cap` |
| TriggerCache.BoundedAppend | custom_components/vibe_alarm_sys/__init__.py:149-157 | the deque never exceeds its bound; below the bound the record joins at the tail; at the bound the oldest is dropped and the length stays the same; the new record is always last |
| TriggerCache.BoundedAppendFull | custom_components/vibe_alarm_sys/__init__.py:71 | a full deque loses exactly its head; the remaining records keep their order |
| TriggerCache.NewestSnoc | custom_components/vibe_alarm_sys/__init__.py:71 | one bounded append to the newest `cap` of a history gives the newest `cap` of the extended history |
| TriggerCache.AppendAllKeepsNewest | custom_components/vibe_alarm_sys/__init__.py:71 | after any run of appends, the cache is exactly the newest `cap` of everything ever appended, oldest first |
| TriggerCache.OverflowKeepsLastCapacity | custom_components/vibe_alarm_sys/__init__.py:71 | filling an empty cache with at least `cap` records leaves exactly the last `cap` |
| Attribution.LookbackSeconds | custom_components/vibe_alarm_sys/__init__.py:67 | a missing or zero setting gives 60; any other setting is used as it is; the result is never zero |
| Attribution.LookbackWindow | custom_components/vibe_alarm_sys/__init__.py:68 | definition: the lookback in seconds as microseconds, the unit of record timestamps |
| Attribution.NewestWithin | custom_components/vibe_alarm_sys/__init__.py:177-181 | the index found is inside the window and every newer record is outside it; with no index, no record is inside the window |
| Attribution.FindChosen | custom_components/vibe_alarm_sys/__init__.py:177-181 | the newest-to-oldest scan with early exit returns exactly the newest record inside the window, or nothing |
| Attribution.ChosenRecord | custom_components/vibe_alarm_sys/__init__.py:177-181 | definition: the record at NewestWithin's index, if any; FindChosen is proved to compute it |
| Attribution.SourceText | custom_components/vibe_alarm_sys/__init__.py:184-188 | chosen record's name, else the truthy panel source, else "Alarm" |
| Attribution.Resolve | custom_components/vibe_alarm_sys/__init__.py:177-188 | definition: SourceText of the chosen record; its properties are the Resolve lemmas below |
| Attribution.ResolvePicksNewest | custom_components/vibe_alarm_sys/__init__.py:177-186 | when record i is inside the window and no newer one is, its name is the source, whatever older records hold |
| Attribution.ResolveFallsBack | custom_components/vibe_alarm_sys/__init__.py:187-188 | when no record is inside the window, the panel's truthy source is used, else "Alarm" |
| Attribution.ResolveFromCacheIsWithin | custom_components/vibe_alarm_sys/__init__.py:178-186 | a source taken from the cache is the name of a record inside the window |
| Attribution.ResolveNeverEmpty | custom_components/vibe_alarm_sys/__init__.py:184-188 | with well-formed records, the pushed source is never empty |
| Attribution.EmptyCacheSelectsNothing | custom_components/vibe_alarm_sys/__init__.py:177-181 | an empty cache selects no record |
| Attribution.ScenarioMostRecentWins | custom_components/vibe_alarm_sys/__init__.py:175-188 | "Front Door" at 0 s, "Back Window" at 5 s, trigger at 8 s with a 10 s window: "Back Window" |
| Attribution.ScenarioPanelSource | custom_components/vibe_alarm_sys/__init__.py:187-188 | empty cache and panel source "Garage": "Garage" |
| Attribution.ScenarioGeneric | custom_components/vibe_alarm_sys/__init__.py:187-188 | empty cache and no panel source: "Alarm" |
| Attribution.ScenarioTooOld | custom_components/vibe_alarm_sys/__init__.py:177-188 | an activation 20 s old with a 10 s window is ignored: "Alarm" |
| Dispatch.StripLeft | custom_components/vibe_alarm_sys/__init__.py:82 | the result is a suffix of the input; what was removed is all whitespace; the result does not start with whitespace |
| Dispatch.StripRight | custom_components/vibe_alarm_sys/__init__.py:82 | the result is a prefix of the input; what was removed is all whitespace; the result does not end with whitespace |
| Dispatch.Strip | custom_components/vibe_alarm_sys/__init__.py:82 | the result neither starts nor ends with whitespace |
| Dispatch.StripRemovesEnds | custom_components/vibe_alarm_sys/__init__.py:82 | the stripped text is a contiguous slice of the input with only whitespace before and after it; with Strip's contract, exactly the leading and trailing whitespace is removed |
| Dispatch.StripTrimmed | custom_components/vibe_alarm_sys/__init__.py:82 | text without whitespace at its ends is unchanged by strip |
| Dispatch.StripIdempotent | custom_components/vibe_alarm_sys/__init__.py:82 | stripping twice is stripping once |
| Dispatch.AfterFirstDot | custom_components/vibe_alarm_sys/__init__.py:82 | without a dot the id is kept whole; otherwise the result is what follows a dot, and no earlier character is a dot |
| Dispatch.DeviceSlug | custom_components/vibe_alarm_sys/__init__.py:81-82 | the slug neither starts nor ends with whitespace |
| Dispatch.DeviceSlugAfterDot | custom_components/vibe_alarm_sys/__init__.py:81-82 | for a dot-free prefix, the slug of prefix "." rest is rest, trimmed; later dots are kept |
| Dispatch.DeviceSlugNoDot | custom_components/vibe_alarm_sys/__init__.py:81-82 | an id without a dot is only trimmed |
| Dispatch.DeviceSlugOfEsphomeId | custom_components/vibe_alarm_sys/__init__.py:79-82 | "esphome.<name>" gives back <name> for any name without whitespace at its ends |
| Dispatch.SvcState | custom_components/vibe_alarm_sys/__init__.py:84-85 | definition: the slug followed by "_set_alarm_state" |
| Dispatch.SvcSource | custom_components/vibe_alarm_sys/__init__.py:87-88 | definition: the slug followed by "_set_alarm_source" |
| Dispatch.SvcPanel | custom_components/vibe_alarm_sys/__init__.py:90-91 | definition: the slug followed by "_set_alarm_panel_name" |
| Dispatch.ServiceNamesInjective | custom_components/vibe_alarm_sys/__init__.py:84-91 | each service name determines the slug it was built from |
| Dispatch.KindsNeverShareAService | custom_components/vibe_alarm_sys/__init__.py:84-91 | no spelling of one kind of service name is a spelling of another kind |
| Dispatch.Replace | custom_components/vibe_alarm_sys/__init__.py:43-44 | same length; each occurrence of the character is replaced, every other character is kept |
| Dispatch.Candidates | custom_components/vibe_alarm_sys/__init__.py:41-45 | exactly three candidates in order: the base, the base with every '-' replaced by '_', and the base with every '_' replaced by '-'; all as long as the base |
| Dispatch.FirstRegistered | custom_components/vibe_alarm_sys/__init__.py:46-49 | the index found is registered and no earlier name is; with no index, no name is registered |
| Dispatch.PickedService | custom_components/vibe_alarm_sys/__init__.py:36-49 | the name returned is the candidate at some position i that is registered while every earlier candidate is not, i.e. the first registered in candidate order; None only when no candidate is registered |
| Dispatch.PickService | custom_components/vibe_alarm_sys/__init__.py:36-49 | the loop with early return yields the first registered candidate in order, or None |
| Dispatch.SafeCallLog | custom_components/vibe_alarm_sys/__init__.py:52-59 | a registered service receives exactly one call with the given data; an unregistered one receives none |
| Dispatch.KindCalls | custom_components/vibe_alarm_sys/__init__.py:100-103 | none when the text is absent or no spelling is registered; when the text is present and a spelling is registered, exactly one call, to the first registered spelling, carrying the text under its key |
| Dispatch.PanelValue | custom_components/vibe_alarm_sys/__init__.py:112-116 | a panel name is sent exactly when it is truthy |
| Dispatch.SlugCalls | custom_components/vibe_alarm_sys/__init__.py:100-119 | definition: the state call, then the source call, then the panel-name call of one slug; its properties are SlugCallsFor, StateOnlySlug and DeviceCallsDeliver |
| Dispatch.DeviceCalls | custom_components/vibe_alarm_sys/__init__.py:96-119 | definition: no calls for an empty slug, else the slug's calls; its properties are the DeviceCalls lemmas below |
| Dispatch.PushCalls | custom_components/vibe_alarm_sys/__init__.py:93-119 | definition: the device calls concatenated in list order; PushToAll is proved to append exactly this, and its properties are the PushCalls lemmas below |
| Dispatch.PushCallsExtend | custom_components/vibe_alarm_sys/__init__.py:95-119 | a push over one more device appends that device's calls |
| Dispatch.DeviceCallsRegistered | custom_components/vibe_alarm_sys/__init__.py:101-119 | every call a device receives goes to a registered service |
| Dispatch.SlugCallsFor | custom_components/vibe_alarm_sys/__init__.py:100-119 | a device with a slug gets at most three calls; each carries the pushed text under its key, to a spelling of that slug's service for the key |
| Dispatch.DeviceCallsPayloads | custom_components/vibe_alarm_sys/__init__.py:96-119 | at most three calls per device and none for an empty slug; each call is for that device's slug and carries the pushed text |
| Dispatch.DeviceCallsCounts | custom_components/vibe_alarm_sys/__init__.py:100-119 | per device at most one call of each kind (state, source, panel name); none of a kind whose text is absent; no panel call unless the name is truthy |
| Dispatch.PushCallsRegistered | custom_components/vibe_alarm_sys/__init__.py:93-119 | every call of a push goes to a registered service |
| Dispatch.PushCallsKeyBound | custom_components/vibe_alarm_sys/__init__.py:93-119 | over a push, state and source calls number at most the devices; a key whose text is absent has no calls |
| Dispatch.PushCallsPerKind | custom_components/vibe_alarm_sys/__init__.py:93-119 | a push makes no more state calls and no more source calls than there are devices; no state call without a state text, no source call without a source text, no panel call without a truthy name |
| Dispatch.PushCallsPayloads | custom_components/vibe_alarm_sys/__init__.py:93-119 | every call of a push carries exactly the text pushed for its key |
| Dispatch.DeviceCallsDeliver | custom_components/vibe_alarm_sys/__init__.py:100-119 | a device with a slug receives each present text (state, source, truthy panel name) under its key at the first registered spelling of that kind's service |
| Dispatch.PushCallsDeliver | custom_components/vibe_alarm_sys/__init__.py:93-119 | every push delivers each text it carries to every device with a slug and a registered spelling of that kind's service |
| Dispatch.PushCallsIncludePanel | custom_components/vibe_alarm_sys/__init__.py:110-119 | every push sends a truthy panel name to each device with a slug and a registered panel service, whatever else it carries |
| Dispatch.WithSlugMembers | custom_components/vibe_alarm_sys/__init__.py:96-98 | the devices kept are exactly those with a non-empty slug |
| Dispatch.PushCallsIgnoreEmptySlugs | custom_components/vibe_alarm_sys/__init__.py:96-98 | devices with an empty slug contribute nothing: the push equals the push over the others |
| Dispatch.StateOnlySlug | custom_components/vibe_alarm_sys/__init__.py:100-119 | a slug that has only its state service registered gets exactly the state call |
| Dispatch.StateOnlyDevice | custom_components/vibe_alarm_sys/__init__.py:95-119 | in every push that carries a state text, a device that registers only its state service gets exactly one call, the state call |
| Dispatch.StateOnlyDeviceSourcePush | custom_components/vibe_alarm_sys/__init__.py:95-119 | in a push without a state text, such as the source push on a trigger, a device that registers only its state service gets no call |
| Dispatch.OnlyStateRegistered | custom_components/vibe_alarm_sys/__init__.py:100-119 | with only the state service registered, the source and panel kinds make no call |
| Dispatch.BaseRegistered | custom_components/vibe_alarm_sys/__init__.py:41-49 | a registered base name is used as it is |
| Dispatch.NotRegistered | custom_components/vibe_alarm_sys/__init__.py:46-49 | no call is made for a service none of whose spellings is registered |
| Dispatch.PanelNameEveryPush | custom_components/vibe_alarm_sys/__init__.py:112-119 | a device with a slug and a registered panel service receives the truthy panel name in every push |
| Engine.AlarmCalls | custom_components/vibe_alarm_sys/__init__.py:163-190 | definition: no calls without a state object; else the state push, followed by the source push with the resolved source when the state is "triggered"; OnAlarmChange is proved to append exactly this |
| Engine.AlarmCallsContents | custom_components/vibe_alarm_sys/__init__.py:163-190 | no state object means no calls; all calls go to registered services; state calls carry the normalised alarm state; source calls happen only on "triggered" and carry the non-empty attributed source |
| Engine.NoSourceUnlessTriggered | custom_components/vibe_alarm_sys/__init__.py:175 | a change to any state other than "triggered" pushes no source |
| Engine.TriggeredPushesPanelTwice | custom_components/vibe_alarm_sys/__init__.py:172-190 | on a trigger, the state push is followed by the source push, and each sends the panel name to every eligible device |
| Engine.AlarmSync.constructor | custom_components/vibe_alarm_sys/__init__.py:62-71 | setup starts with an empty cache and an empty call log; the lookback is defaulted as configured |
| Engine.AlarmSync.OnBinarySensorChange | custom_components/vibe_alarm_sys/__init__.py:123-157 | the cache is unchanged unless Admit accepts the change, and then gains that record through the bounded append; the cache invariant (at most 300 well-formed records) is kept |
| Engine.AlarmSync.SafeCall | custom_components/vibe_alarm_sys/__init__.py:52-59 | the log grows by exactly the guarded call |
| Engine.AlarmSync.PushKind | custom_components/vibe_alarm_sys/__init__.py:100-103 | the log grows by exactly the call for one kind of value |
| Engine.AlarmSync.PushDevice | custom_components/vibe_alarm_sys/__init__.py:100-119 | the log grows by the state, source and panel calls of one slug, in that order |
| Engine.AlarmSync.PushToAll | custom_components/vibe_alarm_sys/__init__.py:93-119 | the log grows by exactly PushCalls over the configured devices, in list order |
| Engine.AlarmSync.OnAlarmChange | custom_components/vibe_alarm_sys/__init__.py:163-190 | the log grows by exactly AlarmCalls: the state push, then the source push with the attributed source when the state is "triggered" |
| Engine.AlarmSync.PushInitialState | custom_components/vibe_alarm_sys/__init__.py:196-199 | an alarm with a state object causes one state push of its normalised state; otherwise nothing is pushed |

## Left out

- Host wiring is not modelled. This covers entry setup, event subscription, task creation and state lookup. Handlers are called directly with the event fields as parameters.
- `async`/`await` and the detached task are not modelled: each handler is one sequential step.
- The effect of a service call is left out. A call is only recorded in the log.
- Engine.AlarmSync.PushToAll, Engine.AlarmSync.OnAlarmChange: every service call is assumed to return. A call that raises is not modelled, for example a schema-validation error. In the code such an exception ends `push_to_all` for the remaining devices. Inside the alarm handler it also skips the source push.
- `dt_util.utcnow()` and `timedelta` are replaced by integer microsecond timestamps and an integer `now` parameter.
- The registry and the panel name are read once per handler call. The host can change them between two pushes, and between devices in one push; the model does not capture that.
- Normalize.NormalizeBoolish: lower-casing covers ASCII only, not Python's full Unicode `str.lower()`. `str()` of values other than booleans, text and None is not modelled.
- Attribution.LookbackSeconds: the `int()` conversion of a non-integer setting is not modelled, and neither is its failure on a malformed one.
- Engine.AlarmSync.PushToAll: the alarm's display name is a parameter. The fallback from `friendly_name` to the state's `name` is resolved by the caller.
- The `st.name` lookup and other `State` object behaviour are not part of this model.
