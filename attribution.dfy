/**
 * Attribution of an alarm trigger: the newest cached activation inside the
 * lookback window wins; otherwise the panel's own `source` attribute, and
 * as a last resort the literal "Alarm".
 */
module Attribution {
  import opened Wrappers
  import opened Normalize
  import opened TriggerCache

  const DefaultLookbackSeconds: int := 60
  const MicrosPerSecond: int := 1000000
  const TriggeredState: string := "triggered"
  const GenericSource: string := "Alarm"

  /**
   * `int(configured or 60)`: a missing or zero setting means 60 seconds;
   * any other value is taken as it is.
   */
  function LookbackSeconds(configured: Option<int>): (r: int)
    ensures r != 0
    ensures configured == None || configured == Some(0) ==> r == DefaultLookbackSeconds
    ensures configured.Some? && configured.value != 0 ==> r == configured.value
  {
    if configured.None? || configured.value == 0 then DefaultLookbackSeconds else configured.value
  }

  /** The lookback window in microseconds, the unit of record timestamps. */
  function LookbackWindow(seconds: int): int {
    seconds * MicrosPerSecond
  }

  /** A record is a candidate when its age at `now` does not exceed the window. */
  predicate Within(rec: TriggerRecord, now: int, window: int) {
    now - rec.ts <= window
  }

  /**
   * Index of the newest record inside the window, scanning from the tail;
   * None when no record qualifies.
   */
  function NewestWithin(cache: seq<TriggerRecord>, now: int, window: int): (r: Option<nat>)
    ensures r.Some? ==> r.value < |cache| && Within(cache[r.value], now, window)
    ensures r.Some? ==> forall j :: r.value < j < |cache| ==> !Within(cache[j], now, window)
    ensures r.None? ==> forall j :: 0 <= j < |cache| ==> !Within(cache[j], now, window)
    decreases |cache|
  {
    if cache == [] then None
    else if Within(cache[|cache| - 1], now, window) then Some(|cache| - 1)
    else NewestWithin(cache[..|cache| - 1], now, window)
  }

  /** The record the resolver settles on, if any. */
  function ChosenRecord(cache: seq<TriggerRecord>, now: int, window: int): Option<TriggerRecord> {
    match NewestWithin(cache, now, window)
    case None => None
    case Some(i) => Some(cache[i])
  }

  /**
   * The attribution scan: walk the cache from newest to oldest and stop at
   * the first record inside the window.
   */
  method FindChosen(cache: seq<TriggerRecord>, now: int, window: int) returns (chosen: Option<TriggerRecord>)
    ensures chosen == ChosenRecord(cache, now, window)
  {
    chosen := None;
    var i := |cache|;
    while i > 0
      invariant 0 <= i <= |cache|
      invariant chosen == None
      invariant forall j :: i <= j < |cache| ==> !Within(cache[j], now, window)
    {
      i := i - 1;
      if Within(cache[i], now, window) {
        chosen := Some(cache[i]);
        return;
      }
    }
  }

  /** The three-tier fallback: chosen sensor, then the panel's source, then "Alarm". */
  function SourceText(chosen: Option<TriggerRecord>, alarmSource: Option<string>): (r: string)
    ensures chosen.Some? ==> r == chosen.value.name
    ensures chosen.None? && Truthy(alarmSource) ==> r == alarmSource.value
    ensures chosen.None? && !Truthy(alarmSource) ==> r == GenericSource
  {
    if chosen.Some? then chosen.value.name
    else if Truthy(alarmSource) then alarmSource.value
    else GenericSource
  }

  /** The attributed source for a trigger at `now`. */
  function Resolve(cache: seq<TriggerRecord>, now: int, window: int, alarmSource: Option<string>): string {
    SourceText(ChosenRecord(cache, now, window), alarmSource)
  }

  /** The newest record inside the window names the source, whatever older records hold. */
  lemma ResolvePicksNewest(cache: seq<TriggerRecord>, now: int, window: int, alarmSource: Option<string>, i: nat)
    requires i < |cache| && Within(cache[i], now, window)
    requires forall j :: i < j < |cache| ==> !Within(cache[j], now, window)
    ensures Resolve(cache, now, window, alarmSource) == cache[i].name
  {
    var k := NewestWithin(cache, now, window);
    assert k.Some?;
    assert k.value == i;
  }

  /** With no record inside the window the panel's source, then "Alarm", is reported. */
  lemma ResolveFallsBack(cache: seq<TriggerRecord>, now: int, window: int, alarmSource: Option<string>)
    requires forall j :: 0 <= j < |cache| ==> !Within(cache[j], now, window)
    ensures Resolve(cache, now, window, alarmSource) == if Truthy(alarmSource) then alarmSource.value else GenericSource
  {
  }

  /** A source taken from the cache is the name of a record inside the window. */
  lemma ResolveFromCacheIsWithin(cache: seq<TriggerRecord>, now: int, window: int, alarmSource: Option<string>)
    requires ChosenRecord(cache, now, window).Some?
    ensures exists i :: 0 <= i < |cache| && Within(cache[i], now, window) &&
                        Resolve(cache, now, window, alarmSource) == cache[i].name
  {
    var i := NewestWithin(cache, now, window).value;
    assert Within(cache[i], now, window);
  }

  /** When every cached record is well-formed the reported source is never empty. */
  lemma ResolveNeverEmpty(cache: seq<TriggerRecord>, now: int, window: int, alarmSource: Option<string>)
    requires forall j :: 0 <= j < |cache| ==> WellFormed(cache[j])
    ensures Resolve(cache, now, window, alarmSource) != ""
  {
    var k := NewestWithin(cache, now, window);
    if k.Some? {
      assert WellFormed(cache[k.value]);
    }
  }

  /** An empty cache selects nothing. */
  lemma EmptyCacheSelectsNothing(now: int, window: int)
    ensures ChosenRecord([], now, window) == None
  {
  }

  /** Timestamps in microseconds: "Front Door" at 0 s and "Back Window" at 5 s, triggered at 8 s with a 10 s window. */
  lemma ScenarioMostRecentWins()
    ensures Resolve([TriggerRecord(0, "binary_sensor.front_door", "Front Door", "door", "on"),
                     TriggerRecord(5000000, "binary_sensor.back_window", "Back Window", "window", "open")],
                    8000000, LookbackWindow(10), None) == "Back Window"
  {
  }

  /** Empty cache, panel reports "Garage". */
  lemma ScenarioPanelSource()
    ensures Resolve([], 8000000, LookbackWindow(10), Some("Garage")) == "Garage"
  {
  }

  /** Empty cache, no panel source. */
  lemma ScenarioGeneric()
    ensures Resolve([], 8000000, LookbackWindow(10), None) == "Alarm"
  {
  }

  /** An activation 20 s old is outside a 10 s window. */
  lemma ScenarioTooOld()
    ensures Resolve([TriggerRecord(0, "binary_sensor.front_door", "Front Door", "door", "on")],
                    20000000, LookbackWindow(10), None) == "Alarm"
  {
  }
}
