/**
 * Ingestion of binary-sensor changes: the guard chain that decides whether
 * a change is an activation worth remembering, and the bounded FIFO
 * (a `deque(maxlen=300)`) the activations are kept in.
 */
module TriggerCache {
  import opened Wrappers
  import opened Normalize

  /** Maximum number of remembered activations; a full cache drops its oldest. */
  const Capacity: nat := 300

  const RelevantDeviceClasses: set<string> :=
    {"door", "window", "opening", "garage_door", "motion", "occupancy", "presence", "lock"}

  const ActiveStates: set<string> := {"on", "open", "opened", "true"}

  /** Normalised values that stand for "no information" rather than a state. */
  const NonEvents: set<string> := {"unknown", "unavailable", "none"}

  /** The attributes of a sensor state that ingestion reads. */
  datatype Attributes = Attributes(deviceClass: Option<string>, friendlyName: Option<string>)

  /** A sensor's state object: its raw value and its attributes. */
  datatype SensorState = SensorState(state: RawState, attributes: Attributes)

  /** A state-change notification; each field may be missing. */
  datatype SensorEvent = SensorEvent(
    entityId: Option<string>,
    oldState: Option<SensorState>,
    newState: Option<SensorState>)

  /** One remembered activation; `ts` is in microseconds. */
  datatype TriggerRecord = TriggerRecord(
    ts: int,
    entityId: string,
    name: string,
    deviceClass: string,
    state: string)

  /** What every record that ingestion creates satisfies. */
  predicate WellFormed(rec: TriggerRecord) {
    && rec.state in ActiveStates
    && rec.deviceClass in RelevantDeviceClasses
    && rec.entityId != ""
    && rec.name != ""
  }

  /** The label shown for a sensor: its friendly name if truthy, else its entity id. */
  function DisplayName(entityId: string, attrs: Attributes): (r: string)
    ensures Truthy(attrs.friendlyName) ==> r == attrs.friendlyName.value
    ensures !Truthy(attrs.friendlyName) ==> r == entityId
  {
    if Truthy(attrs.friendlyName) then attrs.friendlyName.value else entityId
  }

  /**
   * The activation condition stated on its own: a present sensor of a
   * relevant class moves into an active state from a different (or
   * unknown) previous state.
   */
  predicate IsActivation(ev: SensorEvent) {
    && Truthy(ev.entityId)
    && ev.newState.Some?
    && ev.newState.value.attributes.deviceClass.Some?
    && ev.newState.value.attributes.deviceClass.value in RelevantDeviceClasses
    && NormalizeBoolish(ev.newState.value.state) in ActiveStates
    && (ev.oldState.Some? ==>
          NormalizeBoolish(ev.oldState.value.state) != NormalizeBoolish(ev.newState.value.state))
  }

  /**
   * The guard chain of the binary-sensor handler, in the handler's order;
   * `now` is the observation time. None means the change is dropped.
   */
  function Admit(ev: SensorEvent, now: int): (r: Option<TriggerRecord>)
    ensures r.Some? <==> IsActivation(ev)
    ensures r.Some? ==>
      && WellFormed(r.value)
      && r.value.ts == now
      && r.value.entityId == ev.entityId.value
      && r.value.name == DisplayName(ev.entityId.value, ev.newState.value.attributes)
      && r.value.deviceClass == ev.newState.value.attributes.deviceClass.value
      && r.value.state == NormalizeBoolish(ev.newState.value.state)
  {
    if !Truthy(ev.entityId) || ev.newState.None? then None
    else
      var entityId := ev.entityId.value;
      var newS := NormalizeBoolish(ev.newState.value.state);
      if newS in NonEvents then None
      else
        var attrs := ev.newState.value.attributes;
        if attrs.deviceClass.None? || attrs.deviceClass.value !in RelevantDeviceClasses then None
        else
          var oldS := if ev.oldState.Some? then Some(NormalizeBoolish(ev.oldState.value.state)) else None;
          if oldS == Some(newS) then None
          else if newS !in ActiveStates then None
          else Some(TriggerRecord(now, entityId, DisplayName(entityId, attrs), attrs.deviceClass.value, newS))
  }

  /** Each guard on its own is enough to drop the change. */
  lemma AdmitRejects(ev: SensorEvent, now: int)
    ensures !Truthy(ev.entityId) ==> Admit(ev, now).None?
    ensures ev.newState.None? ==> Admit(ev, now).None?
    ensures ev.newState.Some? && NormalizeBoolish(ev.newState.value.state) in NonEvents ==>
              Admit(ev, now).None?
    ensures ev.newState.Some? && (ev.newState.value.attributes.deviceClass.None? ||
              ev.newState.value.attributes.deviceClass.value !in RelevantDeviceClasses) ==>
              Admit(ev, now).None?
    ensures ev.newState.Some? && ev.oldState.Some? &&
              NormalizeBoolish(ev.oldState.value.state) == NormalizeBoolish(ev.newState.value.state) ==>
              Admit(ev, now).None?
    ensures ev.newState.Some? && NormalizeBoolish(ev.newState.value.state) !in ActiveStates ==>
              Admit(ev, now).None?
  {
  }

  /** A repeated state is never an activation, whatever the device class. */
  lemma RepeatNeverAdmitted(ev: SensorEvent, now: int)
    requires ev.oldState.Some? && ev.newState.Some?
    requires ev.oldState.value.state == ev.newState.value.state
    ensures Admit(ev, now).None?
  {
  }

  /**
   * Without a previous state object the first active state of a relevant
   * sensor is an activation.
   */
  lemma FirstObservationAdmitted(ev: SensorEvent, now: int)
    requires Truthy(ev.entityId) && ev.oldState.None? && ev.newState.Some?
    requires ev.newState.value.attributes.deviceClass.Some?
    requires ev.newState.value.attributes.deviceClass.value in RelevantDeviceClasses
    requires NormalizeBoolish(ev.newState.value.state) in ActiveStates
    ensures Admit(ev, now).Some?
  {
  }

  /** The `cap` most recent elements of `s` (all of `s` when it is shorter). */
  function Newest<T>(s: seq<T>, cap: nat): (r: seq<T>)
    ensures |s| <= cap ==> r == s
    ensures |s| > cap ==> |r| == cap && r == s[|s| - cap..]
  {
    if |s| <= cap then s else s[|s| - cap..]
  }

  /**
   * Appending to a deque with `maxlen = cap`: below the bound the element
   * joins at the tail; at the bound the head is dropped first.
   */
  function BoundedAppend<T>(s: seq<T>, x: T, cap: nat): (r: seq<T>)
    requires |s| <= cap
    ensures |r| <= cap
    ensures |s| < cap ==> r == s + [x]
    ensures |s| == cap ==> |r| == cap && r == (s + [x])[1..]
    ensures cap > 0 ==> r[|r| - 1] == x
  {
    if |s| < cap then s + [x]
    else if cap == 0 then s
    else s[1..] + [x]
  }

  /** A full cache loses exactly its oldest record; the rest keep their order. */
  lemma BoundedAppendFull<T>(s: seq<T>, x: T, cap: nat)
    requires 0 < cap && |s| == cap
    ensures BoundedAppend(s, x, cap) == s[1..] + [x]
  {
    assert (s + [x])[1..] == s[1..] + [x];
  }

  /** The cache after appending `xs` one by one, oldest first. */
  function AppendAll<T>(s: seq<T>, xs: seq<T>, cap: nat): (r: seq<T>)
    requires |s| <= cap
    ensures |r| <= cap
    decreases |xs|
  {
    if xs == [] then s
    else BoundedAppend(AppendAll(s, xs[..|xs| - 1], cap), xs[|xs| - 1], cap)
  }

  /** Extending a sequence extends each of its suffixes by the same element. */
  lemma SuffixThenAppend<T>(a: seq<T>, k: nat, x: T)
    requires k <= |a|
    ensures a[k..] + [x] == (a + [x])[k..]
  {
  }

  /** One bounded append to the newest `cap` elements keeps the newest `cap` of the extension. */
  lemma NewestSnoc<T>(before: seq<T>, x: T, cap: nat)
    ensures BoundedAppend(Newest(before, cap), x, cap) == Newest(before + [x], cap)
  {
    var prev := Newest(before, cap);
    if |before| < cap {
      assert prev == before;
    } else if cap == 0 {
      assert Newest(before + [x], cap) == [];
    } else {
      NewestSnocFull(before, x, cap);
    }
  }

  lemma NewestSnocFull<T>(before: seq<T>, x: T, cap: nat)
    requires 0 < cap <= |before|
    ensures BoundedAppend(Newest(before, cap), x, cap) == Newest(before + [x], cap)
  {
    var k := |before| - cap;
    var prev := before[k..];
    assert Newest(before, cap) == prev;
    BoundedAppendFull(prev, x, cap);
    assert prev[1..] == before[k + 1..];
    SuffixThenAppend(before, k + 1, x);
  }

  /**
   * However many records pass through, the cache holds exactly the `cap`
   * most recent of everything ever appended, oldest first.
   */
  lemma {:induction false} AppendAllKeepsNewest<T>(s: seq<T>, xs: seq<T>, cap: nat)
    requires |s| <= cap
    ensures AppendAll(s, xs, cap) == Newest(s + xs, cap)
    decreases |xs|
  {
    if xs == [] {
      assert s + xs == s;
    } else {
      var init, x := xs[..|xs| - 1], xs[|xs| - 1];
      AppendAllKeepsNewest(s, init, cap);
      assert s + xs == (s + init) + [x];
      NewestSnoc(s + init, x, cap);
    }
  }

  /** Inserting `cap + k` records into an empty cache leaves the last `cap`. */
  lemma OverflowKeepsLastCapacity<T>(xs: seq<T>, cap: nat)
    requires |xs| >= cap
    ensures AppendAll([], xs, cap) == xs[|xs| - cap..]
  {
    AppendAllKeepsNewest([], xs, cap);
    assert [] + xs == xs;
  }
}
