/**
 * The integration instance set up for one config entry: the trigger cache
 * the binary-sensor handler fills, the alarm handler that pushes state and
 * attributed source to the ESPHome devices, and the log of service calls
 * those pushes make.
 *
 * The host's service registry, the alarm's resolved display name and the
 * current time are read from the host at the moment of use; here they are
 * parameters of the handlers.
 */
module Engine {
  import opened Wrappers
  import opened Normalize
  import opened TriggerCache
  import opened Attribution
  import opened Dispatch

  /** The alarm panel's state object: its raw state and its `source` attribute. */
  datatype AlarmState = AlarmState(state: RawState, source: Option<string>)

  /**
   * The calls caused by one alarm state change: a state push to every
   * device, and when the panel is triggered a source push after it.
   */
  function AlarmCalls(devices: seq<string>, registry: set<string>, panelName: Option<string>,
                      newState: Option<AlarmState>, cache: seq<TriggerRecord>, now: int, window: int): seq<Call>
  {
    match newState
    case None => []
    case Some(st) =>
      var alarmState := NormalizeBoolish(st.state);
      PushCalls(devices, registry, panelName, Some(alarmState), None)
      + if alarmState == TriggeredState
        then PushCalls(devices, registry, panelName, None, Some(Resolve(cache, now, window, st.source)))
        else []
  }

  /**
   * An alarm change makes only calls to registered services; its state
   * calls carry the normalised alarm state, and its source calls exist only
   * when that state is "triggered" and then carry the attributed source,
   * which is never empty.
   */
  lemma AlarmCallsContents(devices: seq<string>, registry: set<string>, panelName: Option<string>,
                           newState: Option<AlarmState>, cache: seq<TriggerRecord>, now: int, window: int)
    requires forall j :: 0 <= j < |cache| ==> WellFormed(cache[j])
    ensures var calls := AlarmCalls(devices, registry, panelName, newState, cache, now, window);
      && (newState.None? ==> calls == [])
      && (forall c :: c in calls ==> c.service in registry)
      && (forall c :: c in calls && c.data.key == StateKey ==>
            c.data.value == NormalizeBoolish(newState.value.state))
      && (forall c :: c in calls && c.data.key == SourceKey ==>
            && NormalizeBoolish(newState.value.state) == TriggeredState
            && c.data.value == Resolve(cache, now, window, newState.value.source)
            && c.data.value != "")
  {
    if newState.Some? {
      var st := newState.value;
      var alarmState := NormalizeBoolish(st.state);
      var source := Resolve(cache, now, window, st.source);
      var first := PushCalls(devices, registry, panelName, Some(alarmState), None);
      var second := PushCalls(devices, registry, panelName, None, Some(source));
      PushCallsRegistered(devices, registry, panelName, Some(alarmState), None);
      PushCallsRegistered(devices, registry, panelName, None, Some(source));
      PushCallsPayloads(devices, registry, panelName, Some(alarmState), None);
      PushCallsPayloads(devices, registry, panelName, None, Some(source));
      ResolveNeverEmpty(cache, now, window, st.source);
      assert forall c :: c in first + second ==> c in first || c in second;
    }
  }

  /** A change to any state but "triggered" pushes no source at all. */
  lemma NoSourceUnlessTriggered(devices: seq<string>, registry: set<string>, panelName: Option<string>,
                                newState: AlarmState, cache: seq<TriggerRecord>, now: int, window: int)
    requires NormalizeBoolish(newState.state) != TriggeredState
    ensures CountKey(AlarmCalls(devices, registry, panelName, Some(newState), cache, now, window), SourceKey) == 0
  {
    var calls := PushCalls(devices, registry, panelName, Some(NormalizeBoolish(newState.state)), None);
    PushCallsPerKind(devices, registry, panelName, Some(NormalizeBoolish(newState.state)), None);
    assert AlarmCalls(devices, registry, panelName, Some(newState), cache, now, window) == calls + [];
    assert calls + [] == calls;
  }

  /**
   * On a trigger both pushes send the panel name to every device with a
   * non-empty slug and a registered panel-name service.
   */
  lemma TriggeredPushesPanelTwice(devices: seq<string>, i: nat, registry: set<string>, panelName: Option<string>,
                                  newState: AlarmState, cache: seq<TriggerRecord>, now: int, window: int)
    requires NormalizeBoolish(newState.state) == TriggeredState
    requires i < |devices| && DeviceSlug(devices[i]) != [] && Truthy(panelName)
    requires SvcPanel(DeviceSlug(devices[i])) in registry
    ensures var panelCall := Call(SvcPanel(DeviceSlug(devices[i])), Payload(NameKey, panelName.value));
      var source := Resolve(cache, now, window, newState.source);
      && AlarmCalls(devices, registry, panelName, Some(newState), cache, now, window)
           == PushCalls(devices, registry, panelName, Some(TriggeredState), None)
            + PushCalls(devices, registry, panelName, None, Some(source))
      && panelCall in PushCalls(devices, registry, panelName, Some(TriggeredState), None)
      && panelCall in PushCalls(devices, registry, panelName, None, Some(source))
  {
    var source := Resolve(cache, now, window, newState.source);
    PushCallsIncludePanel(devices, i, registry, panelName, Some(TriggeredState), None);
    PushCallsIncludePanel(devices, i, registry, panelName, None, Some(source));
  }

  lemma AppendAssoc<T>(a: seq<T>, b: seq<T>, c: seq<T>)
    ensures a + (b + c) == (a + b) + c
  {
  }

  lemma AppendEmpty<T>(a: seq<T>)
    ensures a + [] == a
  {
  }

  class AlarmSync {
    /** The configured ESPHome device entity ids. */
    const devices: seq<string>
    /** The effective lookback, in seconds. */
    const lookbackSeconds: int
    /** Recent activations, oldest first. */
    var cache: seq<TriggerRecord>
    /** Every service call made so far, in order. */
    var log: seq<Call>

    ghost predicate Valid()
      reads this
    {
      && |cache| <= Capacity
      && forall i :: 0 <= i < |cache| ==> WellFormed(cache[i])
    }

    /** Setup of a config entry: empty cache, lookback defaulted as configured. */
    constructor (devices: seq<string>, configuredLookback: Option<int>)
      ensures Valid()
      ensures this.devices == devices && lookbackSeconds == LookbackSeconds(configuredLookback)
      ensures cache == [] && log == []
    {
      this.devices := devices;
      lookbackSeconds := LookbackSeconds(configuredLookback);
      cache := [];
      log := [];
    }

    /** The binary-sensor handler: run the guards, then append with eviction. */
    method OnBinarySensorChange(ev: SensorEvent, now: int)
      requires Valid()
      modifies this`cache
      ensures Valid()
      ensures cache == match Admit(ev, now)
                       case None => old(cache)
                       case Some(rec) => BoundedAppend(old(cache), rec, Capacity)
    {
      if !Truthy(ev.entityId) || ev.newState.None? {
        return;
      }
      var entityId := ev.entityId.value;
      var newS := NormalizeBoolish(ev.newState.value.state);
      if newS in NonEvents {
        return;
      }
      var attrs := ev.newState.value.attributes;
      var deviceClass := attrs.deviceClass;
      if deviceClass.None? || deviceClass.value !in RelevantDeviceClasses {
        return;
      }
      var oldS := if ev.oldState.Some? then Some(NormalizeBoolish(ev.oldState.value.state)) else None;
      if oldS == Some(newS) {
        return;
      }
      if newS !in ActiveStates {
        return;
      }
      var rec := TriggerRecord(now, entityId, DisplayName(entityId, attrs), deviceClass.value, newS);
      if |cache| == Capacity {
        cache := cache[1..];
      }
      cache := cache + [rec];
    }

    /** `_safe_esphome_call`: call the service only if it is registered. */
    method SafeCall(registry: set<string>, service: string, data: Payload)
      modifies this`log
      ensures log == old(log) + SafeCallLog(registry, service, data)
    {
      if service !in registry {
        return;
      }
      log := log + [Call(service, data)];
    }

    /** `push_to_all`: for each device, the state call, the source call, then the panel name. */
    method PushToAll(registry: set<string>, panelName: Option<string>,
                     stateText: Option<string>, sourceText: Option<string>)
      modifies this`log
      ensures log == old(log) + PushCalls(devices, registry, panelName, stateText, sourceText)
    {
      for i := 0 to |devices|
        invariant log == old(log) + PushCalls(devices[..i], registry, panelName, stateText, sourceText)
      {
        var dev := devices[i];
        ghost var done := PushCalls(devices[..i], registry, panelName, stateText, sourceText);
        ghost var calls := DeviceCalls(dev, registry, panelName, stateText, sourceText);
        PushCallsExtend(devices, i, registry, panelName, stateText, sourceText);
        AppendAssoc(old(log), done, calls);
        var slug := DeviceSlug(dev);
        if slug == [] {
          assert calls == [];
          AppendEmpty(log);
          continue;
        }
        assert calls == SlugCalls(registry, slug, panelName, stateText, sourceText);
        PushDevice(registry, panelName, slug, stateText, sourceText);
      }
      assert devices[..|devices|] == devices;
    }

    /** The three pushes one device with a non-empty slug receives: state, source, panel name. */
    method PushDevice(registry: set<string>, panelName: Option<string>, slug: string,
                      stateText: Option<string>, sourceText: Option<string>)
      modifies this`log
      ensures log == old(log) + SlugCalls(registry, slug, panelName, stateText, sourceText)
    {
      ghost var st := KindCalls(registry, SvcState(slug), StateKey, stateText);
      ghost var so := KindCalls(registry, SvcSource(slug), SourceKey, sourceText);
      ghost var pn := KindCalls(registry, SvcPanel(slug), NameKey, PanelValue(panelName));
      PushKind(registry, SvcState(slug), StateKey, stateText);
      PushKind(registry, SvcSource(slug), SourceKey, sourceText);
      AppendAssoc(old(log), st, so);
      // Only a truthy panel name is sent.
      PushKind(registry, SvcPanel(slug), NameKey, PanelValue(panelName));
      AppendAssoc(old(log), st + so, pn);
      assert SlugCalls(registry, slug, panelName, stateText, sourceText) == st + so + pn;
    }

    /** One `if text is given: pick the service; if found: call it` step of a push. */
    method PushKind(registry: set<string>, base: string, key: Key, value: Option<string>)
      modifies this`log
      ensures log == old(log) + KindCalls(registry, base, key, value)
    {
      if value.Some? {
        var service := PickService(registry, base);
        if service.Some? {
          SafeCall(registry, service.value, Payload(key, value.value));
        }
      }
    }

    /**
     * The alarm handler: push the normalised state; when it is "triggered",
     * scan the cache for the newest activation inside the lookback window
     * and push the attributed source.
     */
    method OnAlarmChange(registry: set<string>, panelName: Option<string>, newState: Option<AlarmState>, now: int)
      requires Valid()
      modifies this`log
      ensures log == old(log) + AlarmCalls(devices, registry, panelName, newState, cache, now,
                                           LookbackWindow(lookbackSeconds))
    {
      if newState.None? {
        return;
      }
      var alarmState := NormalizeBoolish(newState.value.state);
      ghost var window := LookbackWindow(lookbackSeconds);
      ghost var first := PushCalls(devices, registry, panelName, Some(alarmState), None);
      PushToAll(registry, panelName, Some(alarmState), None);
      if alarmState == TriggeredState {
        var chosen := FindChosen(cache, now, LookbackWindow(lookbackSeconds));
        var sourceText: string;
        if chosen.Some? {
          sourceText := chosen.value.name;
        } else if Truthy(newState.value.source) {
          sourceText := newState.value.source.value;
        } else {
          sourceText := GenericSource;
        }
        assert sourceText == Resolve(cache, now, window, newState.value.source);
        ghost var second := PushCalls(devices, registry, panelName, None, Some(sourceText));
        PushToAll(registry, panelName, None, Some(sourceText));
        AppendAssoc(old(log), first, second);
        assert AlarmCalls(devices, registry, panelName, newState, cache, now, window) == first + second;
      } else {
        assert AlarmCalls(devices, registry, panelName, newState, cache, now, window) == first + [];
        assert first + [] == first;
      }
    }

    /** The push made once after setup, when the alarm entity has a state. */
    method PushInitialState(registry: set<string>, panelName: Option<string>, initial: Option<RawState>)
      modifies this`log
      ensures log == old(log) + match initial
                                case None => []
                                case Some(raw) => PushCalls(devices, registry, panelName, Some(NormalizeBoolish(raw)), None)
    {
      if initial.Some? {
        PushToAll(registry, panelName, Some(NormalizeBoolish(initial.value)), None);
      }
    }
  }
}
