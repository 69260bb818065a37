/**
 * Service-name derivation and selection for the ESPHome display devices,
 * and the calls one push produces. The host's service registry is the set
 * of service names registered in the "esphome" domain; a call is recorded
 * as the service name and its one-key payload.
 */
module Dispatch {
  import opened Wrappers
  import opened Normalize

  const StateSuffix: string := "_set_alarm_state"
  const SourceSuffix: string := "_set_alarm_source"
  const PanelSuffix: string := "_set_alarm_panel_name"

  /** The key of the one-entry data dictionary passed to a service. */
  datatype Key = StateKey | SourceKey | NameKey

  /** The one-entry data dictionary passed to a service. */
  datatype Payload = Payload(key: Key, value: string)

  /** One invocation of an "esphome" service. */
  datatype Call = Call(service: string, data: Payload)

  // ---------------------------------------------------------------------
  // Device slug
  // ---------------------------------------------------------------------

  /** The characters Python's `str.strip()` removes (those for which `isspace()` holds). */
  predicate IsSpace(c: char) {
    || c == ' ' || c == '\t' || c == '\n' || c == '\r'
    || c == '\U{b}' || c == '\U{c}'
    || ('\U{1c}' <= c <= '\U{1f}')
    || c == '\U{85}' || c == '\U{a0}' || c == '\U{1680}'
    || ('\U{2000}' <= c <= '\U{200a}')
    || c == '\U{2028}' || c == '\U{2029}' || c == '\U{202f}' || c == '\U{205f}' || c == '\U{3000}'
  }

  predicate AllSpace(s: string) {
    forall i :: 0 <= i < |s| ==> IsSpace(s[i])
  }

  /** `s` with its leading whitespace removed. */
  function StripLeft(s: string): (r: string)
    ensures |r| <= |s| && r == s[|s| - |r|..]
    ensures AllSpace(s[..|s| - |r|])
    ensures r == [] || !IsSpace(r[0])
  {
    if s != [] && IsSpace(s[0]) then
      var r := StripLeft(s[1..]);
      StripLeftStep(s, r);
      r
    else s
  }

  /** One step of StripLeft: a whitespace character in front keeps its contract. */
  lemma StripLeftStep(s: string, r: string)
    requires s != [] && IsSpace(s[0])
    requires |r| <= |s[1..]| && r == s[1..][|s[1..]| - |r|..]
    requires AllSpace(s[1..][..|s[1..]| - |r|])
    ensures |r| <= |s| && r == s[|s| - |r|..]
    ensures AllSpace(s[..|s| - |r|])
  {
    var m := |s| - |r|;
    assert s[m..] == s[1..][m - 1..];
    forall i | 1 <= i < m
      ensures IsSpace(s[..m][i])
    {
      assert s[..m][i] == s[1..][..m - 1][i - 1];
    }
  }

  /** `s` with its trailing whitespace removed. */
  function StripRight(s: string): (r: string)
    ensures |r| <= |s| && r == s[..|r|]
    ensures AllSpace(s[|r|..])
    ensures r == [] || !IsSpace(r[|r| - 1])
  {
    if s != [] && IsSpace(s[|s| - 1]) then
      var r := StripRight(s[..|s| - 1]);
      assert s[|r|..] == s[..|s| - 1][|r|..] + [s[|s| - 1]];
      r
    else s
  }

  /** `str.strip()`: both ends trimmed (StripRemovesEnds says exactly what is removed). */
  function Strip(s: string): (r: string)
    ensures r == [] || (!IsSpace(r[0]) && !IsSpace(r[|r| - 1]))
  {
    StripRight(StripLeft(s))
  }

  /**
   * `Strip(s)` is `s` with its leading and trailing whitespace removed: a
   * contiguous part of `s` with only whitespace before and after it.
   */
  lemma StripRemovesEnds(s: string)
    ensures var r := Strip(s);
      exists k :: 0 <= k && k + |r| <= |s| && r == s[k..k + |r|] && AllSpace(s[..k]) && AllSpace(s[k + |r|..])
  {
    TrimmedSlice(s, StripLeft(s), Strip(s));
  }

  /**
   * A prefix `r` of a suffix `left` of `s`, where only whitespace was cut
   * off at each step, is a slice of `s` with only whitespace around it.
   */
  lemma TrimmedSlice(s: string, left: string, r: string)
    requires |left| <= |s| && left == s[|s| - |left|..] && AllSpace(s[..|s| - |left|])
    requires |r| <= |left| && r == left[..|r|] && AllSpace(left[|r|..])
    ensures exists k :: 0 <= k && k + |r| <= |s| && r == s[k..k + |r|] && AllSpace(s[..k]) && AllSpace(s[k + |r|..])
  {
    var k := |s| - |left|;
    assert s[k + |r|..] == left[|r|..];
    assert r == s[k..k + |r|];
  }

  /** Text without whitespace at either end is left as it is. */
  lemma StripTrimmed(s: string)
    requires s == [] || (!IsSpace(s[0]) && !IsSpace(s[|s| - 1]))
    ensures Strip(s) == s
  {
  }

  lemma StripIdempotent(s: string)
    ensures Strip(Strip(s)) == Strip(s)
  {
    StripTrimmed(Strip(s));
  }

  /** `s.split(".", 1)[-1]`: what follows the first dot, or all of `s` when there is none. */
  function AfterFirstDot(s: string): (r: string)
    ensures '.' !in s ==> r == s
    ensures '.' in s ==> |r| < |s| && r == s[|s| - |r|..] && s[|s| - |r| - 1] == '.'
    ensures '.' in s ==> '.' !in s[..|s| - |r| - 1]
  {
    if '.' !in s then s
    else if s[0] == '.' then s[1..]
    else
      var r := AfterFirstDot(s[1..]);
      assert s[1..][..|s| - 1 - |r| - 1] == s[1..|s| - |r| - 1];
      r
  }

  /** `device_slug`: the entity id without its domain prefix, trimmed. */
  function DeviceSlug(entityId: string): (r: string)
    ensures r == [] || (!IsSpace(r[0]) && !IsSpace(r[|r| - 1]))
  {
    Strip(AfterFirstDot(entityId))
  }

  /** The prefix up to the first dot is dropped, and only that prefix. */
  lemma DeviceSlugAfterDot(prefix: string, rest: string)
    requires '.' !in prefix
    ensures DeviceSlug(prefix + "." + rest) == Strip(rest)
  {
    var s := prefix + "." + rest;
    assert s[|prefix|] == '.';
    var r := AfterFirstDot(s);
    var k := |s| - |r| - 1;
    assert k == |prefix|;
    assert r == s[|prefix| + 1..];
    assert s[|prefix| + 1..] == rest;
  }

  /** An id without a dot is only trimmed. */
  lemma DeviceSlugNoDot(entityId: string)
    requires '.' !in entityId
    ensures DeviceSlug(entityId) == Strip(entityId)
  {
  }

  /** "esphome.<name>" gives "<name>" for any name without whitespace at its ends. */
  lemma DeviceSlugOfEsphomeId(name: string)
    requires name == [] || (!IsSpace(name[0]) && !IsSpace(name[|name| - 1]))
    ensures DeviceSlug("esphome." + name) == name
  {
    assert "esphome." + name == "esphome" + "." + name;
    DeviceSlugAfterDot("esphome", name);
    StripTrimmed(name);
  }

  // ---------------------------------------------------------------------
  // Service names
  // ---------------------------------------------------------------------

  function SvcState(slug: string): string {
    slug + StateSuffix
  }

  function SvcSource(slug: string): string {
    slug + SourceSuffix
  }

  function SvcPanel(slug: string): string {
    slug + PanelSuffix
  }

  /** A service name determines the slug it was built from. */
  lemma ServiceNamesInjective(a: string, b: string)
    ensures SvcState(a) == SvcState(b) ==> a == b
    ensures SvcSource(a) == SvcSource(b) ==> a == b
    ensures SvcPanel(a) == SvcPanel(b) ==> a == b
  {
    if SvcState(a) == SvcState(b) {
      assert a == SvcState(a)[..|a|] && b == SvcState(b)[..|b|];
    }
    if SvcSource(a) == SvcSource(b) {
      assert a == SvcSource(a)[..|a|] && b == SvcSource(b)[..|b|];
    }
    if SvcPanel(a) == SvcPanel(b) {
      assert a == SvcPanel(a)[..|a|] && b == SvcPanel(b)[..|b|];
    }
  }

  /** `base.replace(from, to)` for single characters. */
  function Replace(s: string, from: char, to: char): (r: string)
    ensures |r| == |s|
    ensures forall i :: 0 <= i < |s| ==> r[i] == if s[i] == from then to else s[i]
  {
    seq(|s|, i requires 0 <= i < |s| => if s[i] == from then to else s[i])
  }

  /** The spellings tried for a service: as built, with `-` as `_`, with `_` as `-`. */
  function Candidates(base: string): (r: seq<string>)
    ensures |r| == 3 && r[0] == base
    ensures forall c :: c in r ==> |c| == |base|
    ensures '-' !in r[1] && '_' !in r[2]
    ensures r[1] == Replace(base, '-', '_') && r[2] == Replace(base, '_', '-')
  {
    [base, Replace(base, '-', '_'), Replace(base, '_', '-')]
  }

  /** Index of the first registered name in `names`, None when none is registered. */
  function FirstRegistered(names: seq<string>, registry: set<string>): (r: Option<nat>)
    ensures r.Some? ==> r.value < |names| && names[r.value] in registry
    ensures r.Some? ==> forall j :: 0 <= j < r.value ==> names[j] !in registry
    ensures r.None? ==> forall j :: 0 <= j < |names| ==> names[j] !in registry
  {
    if names == [] then None
    else if names[0] in registry then Some(0)
    else match FirstRegistered(names[1..], registry)
      case None => None
      case Some(i) => Some(i + 1)
  }

  /** The service `_pick_esphome_service` settles on for `base`. */
  function PickedService(base: string, registry: set<string>): (r: Option<string>)
    ensures r.Some? ==> r.value in registry && r.value in Candidates(base)
    ensures r.None? ==> forall c :: c in Candidates(base) ==> c !in registry
    ensures r.Some? ==> exists i :: 0 <= i < 3 && r.value == Candidates(base)[i] &&
                                    forall j :: 0 <= j < i ==> Candidates(base)[j] !in registry
  {
    var names := Candidates(base);
    match FirstRegistered(names, registry)
    case None => None
    case Some(i) => Some(names[i])
  }

  /** `_pick_esphome_service`: try the candidates in order, return the first registered one. */
  method PickService(registry: set<string>, base: string) returns (svc: Option<string>)
    ensures svc == PickedService(base, registry)
  {
    var candidates := Candidates(base);
    for i := 0 to |candidates|
      invariant forall j :: 0 <= j < i ==> candidates[j] !in registry
    {
      if candidates[i] in registry {
        return Some(candidates[i]);
      }
    }
    return None;
  }

  // ---------------------------------------------------------------------
  // Calls of one push
  // ---------------------------------------------------------------------

  /** `_safe_esphome_call`: the call is made only when the service is registered. */
  function SafeCallLog(registry: set<string>, service: string, data: Payload): (r: seq<Call>)
    ensures |r| <= 1
    ensures forall c :: c in r ==> c.service in registry && c == Call(service, data)
    ensures service in registry ==> r == [Call(service, data)]
  {
    if service in registry then [Call(service, data)] else []
  }

  /** The call (if any) for one kind of value: nothing when the value is absent or no spelling is registered. */
  function KindCalls(registry: set<string>, base: string, key: Key, value: Option<string>): (r: seq<Call>)
    ensures |r| <= 1
    ensures value.None? ==> r == []
    ensures forall c :: c in r ==>
      c.service in registry && c.service in Candidates(base) && c.data == Payload(key, value.value)
    ensures value.Some? && PickedService(base, registry).Some? ==>
      r == [Call(PickedService(base, registry).value, Payload(key, value.value))]
  {
    if value.None? then []
    else match PickedService(base, registry)
      case None => []
      case Some(svc) => SafeCallLog(registry, svc, Payload(key, value.value))
  }

  /** The panel name is pushed only when it is truthy. */
  function PanelValue(panelName: Option<string>): (r: Option<string>)
    ensures r.Some? <==> Truthy(panelName)
    ensures r.Some? ==> r == panelName
  {
    if Truthy(panelName) then panelName else None
  }

  /** The calls a device with slug `slug` receives in one push: state, then source, then panel name. */
  function SlugCalls(registry: set<string>, slug: string, panelName: Option<string>,
                     stateText: Option<string>, sourceText: Option<string>): seq<Call>
  {
    KindCalls(registry, SvcState(slug), StateKey, stateText)
    + KindCalls(registry, SvcSource(slug), SourceKey, sourceText)
    + KindCalls(registry, SvcPanel(slug), NameKey, PanelValue(panelName))
  }

  /** The calls one device receives in one push; none when its slug is empty. */
  function DeviceCalls(device: string, registry: set<string>, panelName: Option<string>,
                       stateText: Option<string>, sourceText: Option<string>): seq<Call>
  {
    var slug := DeviceSlug(device);
    if slug == [] then [] else SlugCalls(registry, slug, panelName, stateText, sourceText)
  }

  /** The calls of one `push_to_all`, device by device in list order. */
  function PushCalls(devices: seq<string>, registry: set<string>, panelName: Option<string>,
                     stateText: Option<string>, sourceText: Option<string>): seq<Call>
    decreases |devices|
  {
    if devices == [] then []
    else
      PushCalls(devices[..|devices| - 1], registry, panelName, stateText, sourceText)
      + DeviceCalls(devices[|devices| - 1], registry, panelName, stateText, sourceText)
  }

  /** A push over one more device appends that device's calls. */
  lemma PushCallsExtend(devices: seq<string>, i: nat, registry: set<string>, panelName: Option<string>,
                        stateText: Option<string>, sourceText: Option<string>)
    requires i < |devices|
    ensures PushCalls(devices[..i + 1], registry, panelName, stateText, sourceText)
         == PushCalls(devices[..i], registry, panelName, stateText, sourceText)
          + DeviceCalls(devices[i], registry, panelName, stateText, sourceText)
  {
    assert devices[..i + 1][..i] == devices[..i];
  }

  /** Number of calls in `calls` whose payload key is `key`. */
  function CountKey(calls: seq<Call>, key: Key): (n: nat)
    ensures n <= |calls|
  {
    if calls == [] then 0
    else CountKey(calls[..|calls| - 1], key) + (if calls[|calls| - 1].data.key == key then 1 else 0)
  }

  lemma {:induction false} CountKeyConcat(a: seq<Call>, b: seq<Call>, key: Key)
    ensures CountKey(a + b, key) == CountKey(a, key) + CountKey(b, key)
    decreases |b|
  {
    if b == [] {
      assert a + b == a;
    } else {
      assert (a + b)[..|a + b| - 1] == a + b[..|b| - 1];
      CountKeyConcat(a, b[..|b| - 1], key);
    }
  }

  lemma CountKeyNone(calls: seq<Call>, key: Key)
    requires forall c :: c in calls ==> c.data.key != key
    ensures CountKey(calls, key) == 0
    decreases |calls|
  {
    if calls != [] {
      assert forall c :: c in calls[..|calls| - 1] ==> c in calls;
      CountKeyNone(calls[..|calls| - 1], key);
    }
  }

  /** Every call a device receives goes to a registered service. */
  lemma DeviceCallsRegistered(device: string, registry: set<string>, panelName: Option<string>,
                              stateText: Option<string>, sourceText: Option<string>)
    ensures forall c :: c in DeviceCalls(device, registry, panelName, stateText, sourceText) ==> c.service in registry
  {
  }

  /**
   * Each call a device receives carries the pushed text under its own key,
   * to a registered spelling of the matching service name of that device.
   */
  lemma DeviceCallsPayloads(device: string, registry: set<string>, panelName: Option<string>,
                            stateText: Option<string>, sourceText: Option<string>)
    ensures var calls := DeviceCalls(device, registry, panelName, stateText, sourceText);
      && |calls| <= 3
      && (DeviceSlug(device) == [] ==> calls == [])
      && (forall c :: c in calls ==> CallFor(c, DeviceSlug(device), panelName, stateText, sourceText))
  {
    var slug := DeviceSlug(device);
    if slug != [] {
      SlugCallsFor(registry, slug, panelName, stateText, sourceText);
    }
  }

  lemma SlugCallsFor(registry: set<string>, slug: string, panelName: Option<string>,
                     stateText: Option<string>, sourceText: Option<string>)
    ensures var calls := SlugCalls(registry, slug, panelName, stateText, sourceText);
      |calls| <= 3 && forall c :: c in calls ==> CallFor(c, slug, panelName, stateText, sourceText)
  {
    var st := KindCalls(registry, SvcState(slug), StateKey, stateText);
    var so := KindCalls(registry, SvcSource(slug), SourceKey, sourceText);
    var pn := KindCalls(registry, SvcPanel(slug), NameKey, PanelValue(panelName));
    assert SlugCalls(registry, slug, panelName, stateText, sourceText) == st + so + pn;
    forall c | c in st + so + pn
      ensures CallFor(c, slug, panelName, stateText, sourceText)
    {
      InConcat3(st, so, pn, c);
    }
  }

  lemma InConcat3<T>(a: seq<T>, b: seq<T>, d: seq<T>, x: T)
    requires x in a + b + d
    ensures x in a || x in b || x in d
  {
  }

  /**
   * A call sent to a device with slug `slug` carries the pushed text under
   * its own key, to a spelling of that device's matching service name.
   */
  predicate CallFor(c: Call, slug: string, panelName: Option<string>,
                    stateText: Option<string>, sourceText: Option<string>)
  {
    && CarriesPushed(c, panelName, stateText, sourceText)
    && (c.data.key == StateKey ==> c.service in Candidates(SvcState(slug)))
    && (c.data.key == SourceKey ==> c.service in Candidates(SvcSource(slug)))
    && (c.data.key == NameKey ==> c.service in Candidates(SvcPanel(slug)))
  }

  /**
   * One device gets at most one state call and at most one source call,
   * and none of a kind whose text is absent; the panel name goes out only
   * when it is truthy.
   */
  lemma DeviceCallsCounts(device: string, registry: set<string>, panelName: Option<string>,
                          stateText: Option<string>, sourceText: Option<string>)
    ensures var calls := DeviceCalls(device, registry, panelName, stateText, sourceText);
      && CountKey(calls, StateKey) <= 1
      && CountKey(calls, SourceKey) <= 1
      && CountKey(calls, NameKey) <= 1
      && (stateText.None? ==> CountKey(calls, StateKey) == 0)
      && (sourceText.None? ==> CountKey(calls, SourceKey) == 0)
      && (!Truthy(panelName) ==> CountKey(calls, NameKey) == 0)
  {
    var slug := DeviceSlug(device);
    if slug != [] {
      var st := KindCalls(registry, SvcState(slug), StateKey, stateText);
      var so := KindCalls(registry, SvcSource(slug), SourceKey, sourceText);
      var pn := KindCalls(registry, SvcPanel(slug), NameKey, PanelValue(panelName));
      assert DeviceCalls(device, registry, panelName, stateText, sourceText) == st + so + pn;
      CountThreeKinds(st, so, pn);
    }
  }

  /** A list of calls of one key contributes its length to that key's count. */
  lemma CountKeyAll(calls: seq<Call>, key: Key)
    requires forall c :: c in calls ==> c.data.key == key
    ensures CountKey(calls, key) == |calls|
    decreases |calls|
  {
    if calls != [] {
      assert forall c :: c in calls[..|calls| - 1] ==> c in calls;
      CountKeyAll(calls[..|calls| - 1], key);
    }
  }

  /** The state, source and panel-name lists each count only towards their own key. */
  lemma CountThreeKinds(st: seq<Call>, so: seq<Call>, pn: seq<Call>)
    requires forall c :: c in st ==> c.data.key == StateKey
    requires forall c :: c in so ==> c.data.key == SourceKey
    requires forall c :: c in pn ==> c.data.key == NameKey
    ensures CountKey(st + so + pn, StateKey) == |st|
    ensures CountKey(st + so + pn, SourceKey) == |so|
    ensures CountKey(st + so + pn, NameKey) == |pn|
  {
    CountKeyAll(st, StateKey);
    CountKeyAll(so, SourceKey);
    CountKeyAll(pn, NameKey);
    CountKeyNone(st, SourceKey);
    CountKeyNone(st, NameKey);
    CountKeyNone(so, StateKey);
    CountKeyNone(so, NameKey);
    CountKeyNone(pn, StateKey);
    CountKeyNone(pn, SourceKey);
    CountKeyConcat(st, so, StateKey);
    CountKeyConcat(st, so, SourceKey);
    CountKeyConcat(st, so, NameKey);
    CountKeyConcat(st + so, pn, StateKey);
    CountKeyConcat(st + so, pn, SourceKey);
    CountKeyConcat(st + so, pn, NameKey);
  }

  /** Every call of a push goes to a registered service. */
  lemma {:induction false} PushCallsRegistered(devices: seq<string>, registry: set<string>, panelName: Option<string>,
                                               stateText: Option<string>, sourceText: Option<string>)
    ensures forall c :: c in PushCalls(devices, registry, panelName, stateText, sourceText) ==> c.service in registry
    decreases |devices|
  {
    if devices != [] {
      PushCallsRegistered(devices[..|devices| - 1], registry, panelName, stateText, sourceText);
      DeviceCallsRegistered(devices[|devices| - 1], registry, panelName, stateText, sourceText);
    }
  }

  /**
   * A push without a state text makes no state call, one without a source
   * text no source call; otherwise there is at most one of each per device.
   */
  lemma PushCallsPerKind(devices: seq<string>, registry: set<string>, panelName: Option<string>,
                         stateText: Option<string>, sourceText: Option<string>)
    ensures var calls := PushCalls(devices, registry, panelName, stateText, sourceText);
      && CountKey(calls, StateKey) <= |devices|
      && CountKey(calls, SourceKey) <= |devices|
      && (stateText.None? ==> CountKey(calls, StateKey) == 0)
      && (sourceText.None? ==> CountKey(calls, SourceKey) == 0)
      && (!Truthy(panelName) ==> CountKey(calls, NameKey) == 0)
  {
    PushCallsKeyBound(devices, registry, panelName, stateText, sourceText, StateKey);
    PushCallsKeyBound(devices, registry, panelName, stateText, sourceText, SourceKey);
    PushCallsKeyBound(devices, registry, panelName, stateText, sourceText, NameKey);
  }

  /** The count of one key over a push: at most one per device for state and source, none when its text is absent. */
  lemma {:induction false} PushCallsKeyBound(devices: seq<string>, registry: set<string>, panelName: Option<string>,
                                             stateText: Option<string>, sourceText: Option<string>, key: Key)
    ensures var n := CountKey(PushCalls(devices, registry, panelName, stateText, sourceText), key);
      && (key != NameKey ==> n <= |devices|)
      && (KindAbsent(key, panelName, stateText, sourceText) ==> n == 0)
    decreases |devices|
  {
    if devices != [] {
      var init := devices[..|devices| - 1];
      var last := devices[|devices| - 1];
      PushCallsKeyBound(init, registry, panelName, stateText, sourceText, key);
      DeviceCallsCounts(last, registry, panelName, stateText, sourceText);
      var a := PushCalls(init, registry, panelName, stateText, sourceText);
      var b := DeviceCalls(last, registry, panelName, stateText, sourceText);
      assert PushCalls(devices, registry, panelName, stateText, sourceText) == a + b;
      CountKeyConcat(a, b, key);
    }
  }

  /** The text a key would carry is absent from the push (or, for the panel name, not truthy). */
  predicate KindAbsent(key: Key, panelName: Option<string>, stateText: Option<string>, sourceText: Option<string>) {
    match key
    case StateKey => stateText.None?
    case SourceKey => sourceText.None?
    case NameKey => !Truthy(panelName)
  }

  /** A call carries the text that was pushed for its key. */
  predicate CarriesPushed(c: Call, panelName: Option<string>, stateText: Option<string>, sourceText: Option<string>) {
    && (c.data.key == StateKey ==> stateText.Some? && c.data.value == stateText.value)
    && (c.data.key == SourceKey ==> sourceText.Some? && c.data.value == sourceText.value)
    && (c.data.key == NameKey ==> Truthy(panelName) && c.data.value == panelName.value)
  }

  /** Every call of a push carries the text pushed for its key. */
  lemma {:induction false} PushCallsPayloads(devices: seq<string>, registry: set<string>, panelName: Option<string>,
                                             stateText: Option<string>, sourceText: Option<string>)
    ensures forall c :: c in PushCalls(devices, registry, panelName, stateText, sourceText) ==>
      CarriesPushed(c, panelName, stateText, sourceText)
    decreases |devices|
  {
    if devices != [] {
      var init, last := devices[..|devices| - 1], devices[|devices| - 1];
      PushCallsPayloads(init, registry, panelName, stateText, sourceText);
      DeviceCallsPayloads(last, registry, panelName, stateText, sourceText);
      var a := PushCalls(init, registry, panelName, stateText, sourceText);
      var b := DeviceCalls(last, registry, panelName, stateText, sourceText);
      assert forall c :: c in b ==> CallFor(c, DeviceSlug(last), panelName, stateText, sourceText);
      assert forall c :: c in a + b ==> c in a || c in b;
    }
  }

  /**
   * The panel name is part of every push, whatever else the push carries,
   * for each device with a non-empty slug and a registered panel service.
   */
  lemma {:induction false} PushCallsIncludePanel(devices: seq<string>, i: nat, registry: set<string>,
                                                 panelName: Option<string>,
                                                 stateText: Option<string>, sourceText: Option<string>)
    requires i < |devices| && DeviceSlug(devices[i]) != [] && Truthy(panelName)
    requires SvcPanel(DeviceSlug(devices[i])) in registry
    ensures Call(SvcPanel(DeviceSlug(devices[i])), Payload(NameKey, panelName.value))
              in PushCalls(devices, registry, panelName, stateText, sourceText)
    decreases |devices|
  {
    var init := devices[..|devices| - 1];
    if i == |devices| - 1 {
      PanelNameEveryPush(devices[i], registry, panelName, stateText, sourceText);
    } else {
      assert init[i] == devices[i];
      PushCallsIncludePanel(init, i, registry, panelName, stateText, sourceText);
    }
  }

  /** The service name a kind of value is pushed to. */
  function KindBase(key: Key, slug: string): string {
    match key
    case StateKey => SvcState(slug)
    case SourceKey => SvcSource(slug)
    case NameKey => SvcPanel(slug)
  }

  /** The text a push sends under `key`, if any. */
  function KindText(key: Key, panelName: Option<string>, stateText: Option<string>, sourceText: Option<string>): Option<string> {
    match key
    case StateKey => stateText
    case SourceKey => sourceText
    case NameKey => PanelValue(panelName)
  }

  /**
   * A device with a slug receives each pushed text, under its key, at the
   * first registered spelling of its service for that key.
   */
  lemma DeviceCallsDeliver(device: string, registry: set<string>, panelName: Option<string>,
                           stateText: Option<string>, sourceText: Option<string>, key: Key)
    requires DeviceSlug(device) != []
    requires KindText(key, panelName, stateText, sourceText).Some?
    requires PickedService(KindBase(key, DeviceSlug(device)), registry).Some?
    ensures Call(PickedService(KindBase(key, DeviceSlug(device)), registry).value,
                 Payload(key, KindText(key, panelName, stateText, sourceText).value))
              in DeviceCalls(device, registry, panelName, stateText, sourceText)
  {
    var slug := DeviceSlug(device);
    var st := KindCalls(registry, SvcState(slug), StateKey, stateText);
    var so := KindCalls(registry, SvcSource(slug), SourceKey, sourceText);
    var pn := KindCalls(registry, SvcPanel(slug), NameKey, PanelValue(panelName));
    assert DeviceCalls(device, registry, panelName, stateText, sourceText) == st + so + pn;
  }

  /**
   * Every push delivers each text it carries to every device with a slug
   * and a registered spelling of that kind's service.
   */
  lemma {:induction false} PushCallsDeliver(devices: seq<string>, i: nat, registry: set<string>,
                                            panelName: Option<string>,
                                            stateText: Option<string>, sourceText: Option<string>, key: Key)
    requires i < |devices| && DeviceSlug(devices[i]) != []
    requires KindText(key, panelName, stateText, sourceText).Some?
    requires PickedService(KindBase(key, DeviceSlug(devices[i])), registry).Some?
    ensures Call(PickedService(KindBase(key, DeviceSlug(devices[i])), registry).value,
                 Payload(key, KindText(key, panelName, stateText, sourceText).value))
              in PushCalls(devices, registry, panelName, stateText, sourceText)
    decreases |devices|
  {
    var init := devices[..|devices| - 1];
    if i == |devices| - 1 {
      DeviceCallsDeliver(devices[i], registry, panelName, stateText, sourceText, key);
    } else {
      assert init[i] == devices[i];
      PushCallsDeliver(init, i, registry, panelName, stateText, sourceText, key);
    }
  }

  /** Only devices whose slug is non-empty contribute calls. */
  function WithSlug(devices: seq<string>): seq<string>
    decreases |devices|
  {
    if devices == [] then []
    else if DeviceSlug(devices[|devices| - 1]) == [] then WithSlug(devices[..|devices| - 1])
    else WithSlug(devices[..|devices| - 1]) + [devices[|devices| - 1]]
  }

  /** The devices kept are exactly those with a non-empty slug. */
  lemma {:induction false} WithSlugMembers(devices: seq<string>)
    ensures forall d :: d in WithSlug(devices) <==> d in devices && DeviceSlug(d) != []
    decreases |devices|
  {
    if devices != [] {
      var init, last := devices[..|devices| - 1], devices[|devices| - 1];
      WithSlugMembers(init);
      assert devices == init + [last];
      assert forall d :: d in devices <==> d in init || d == last;
    }
  }

  lemma {:induction false} PushCallsIgnoreEmptySlugs(devices: seq<string>, registry: set<string>, panelName: Option<string>,
                                                     stateText: Option<string>, sourceText: Option<string>)
    ensures PushCalls(devices, registry, panelName, stateText, sourceText)
         == PushCalls(WithSlug(devices), registry, panelName, stateText, sourceText)
    decreases |devices|
  {
    if devices != [] {
      var init := devices[..|devices| - 1];
      var last := devices[|devices| - 1];
      PushCallsIgnoreEmptySlugs(init, registry, panelName, stateText, sourceText);
      if DeviceSlug(last) != [] {
        var w := WithSlug(init) + [last];
        assert w[..|w| - 1] == WithSlug(init);
      } else {
        assert DeviceCalls(last, registry, panelName, stateText, sourceText) == [];
      }
    }
  }

  /** No spelling of one kind of service name is a spelling of another kind. */
  lemma KindsNeverShareAService(slug: string)
    ensures forall c :: c in Candidates(SvcState(slug)) ==> c !in Candidates(SvcSource(slug))
    ensures forall c :: c in Candidates(SvcState(slug)) ==> c !in Candidates(SvcPanel(slug))
    ensures forall c :: c in Candidates(SvcSource(slug)) ==> c !in Candidates(SvcPanel(slug))
  {
    assert |SvcState(slug)| == |slug| + 16;
    assert |SvcSource(slug)| == |slug| + 17;
    assert |SvcPanel(slug)| == |slug| + 21;
  }

  /**
   * In every push that carries a state text, a device that registers only
   * its "set state" service receives exactly one call, the state call.
   */
  lemma StateOnlyDevice(device: string, panelName: Option<string>, stateText: string, sourceText: Option<string>)
    requires DeviceSlug(device) != []
    ensures var registry := {SvcState(DeviceSlug(device))};
      DeviceCalls(device, registry, panelName, Some(stateText), sourceText)
        == [Call(SvcState(DeviceSlug(device)), Payload(StateKey, stateText))]
  {
    StateOnlySlug(DeviceSlug(device), panelName, stateText, sourceText);
  }

  /** In a push without a state text (the source push), such a device receives nothing. */
  lemma StateOnlyDeviceSourcePush(device: string, panelName: Option<string>, sourceText: Option<string>)
    requires DeviceSlug(device) != []
    ensures DeviceCalls(device, {SvcState(DeviceSlug(device))}, panelName, None, sourceText) == []
  { StateOnlySlugSourcePush(DeviceSlug(device), panelName, sourceText); }

  lemma StateOnlySlugSourcePush(slug: string, panelName: Option<string>, sourceText: Option<string>)
    ensures SlugCalls({SvcState(slug)}, slug, panelName, None, sourceText) == []
  {
    OnlyStateRegistered(slug, "", sourceText, PanelValue(panelName));
  }

  lemma StateOnlySlug(slug: string, panelName: Option<string>, stateText: string, sourceText: Option<string>)
    ensures SlugCalls({SvcState(slug)}, slug, panelName, Some(stateText), sourceText)
        == [Call(SvcState(slug), Payload(StateKey, stateText))]
  {
    var registry := {SvcState(slug)};
    var st := KindCalls(registry, SvcState(slug), StateKey, Some(stateText));
    var so := KindCalls(registry, SvcSource(slug), SourceKey, sourceText);
    var pn := KindCalls(registry, SvcPanel(slug), NameKey, PanelValue(panelName));
    OnlyStateRegistered(slug, stateText, sourceText, PanelValue(panelName));
    assert st + so + pn == st;
  }

  /** With only the state service registered, only the state kind produces a call. */
  lemma OnlyStateRegistered(slug: string, stateText: string, sourceText: Option<string>, panelValue: Option<string>)
    ensures KindCalls({SvcState(slug)}, SvcState(slug), StateKey, Some(stateText))
              == [Call(SvcState(slug), Payload(StateKey, stateText))]
    ensures KindCalls({SvcState(slug)}, SvcSource(slug), SourceKey, sourceText) == []
    ensures KindCalls({SvcState(slug)}, SvcPanel(slug), NameKey, panelValue) == []
  {
    KindsNeverShareAService(slug);
    BaseRegistered({SvcState(slug)}, SvcState(slug), StateKey, stateText);
    NotRegistered({SvcState(slug)}, SvcSource(slug), SourceKey, sourceText);
    NotRegistered({SvcState(slug)}, SvcPanel(slug), NameKey, panelValue);
  }

  /** A registered base name is used as it is. */
  lemma BaseRegistered(registry: set<string>, base: string, key: Key, text: string)
    requires base in registry
    ensures KindCalls(registry, base, key, Some(text)) == [Call(base, Payload(key, text))]
  {
    assert Candidates(base)[0] == base;
  }

  /** No call is made for a service none of whose spellings is registered. */
  lemma NotRegistered(registry: set<string>, base: string, key: Key, value: Option<string>)
    requires forall c :: c in Candidates(base) ==> c !in registry
    ensures KindCalls(registry, base, key, value) == []
  {
  }

  /**
   * Whatever else a push carries, a device with a non-empty slug and a
   * registered panel-name service is sent the panel name whenever it is
   * truthy.
   */
  lemma PanelNameEveryPush(device: string, registry: set<string>, panelName: Option<string>,
                           stateText: Option<string>, sourceText: Option<string>)
    requires DeviceSlug(device) != [] && Truthy(panelName)
    requires SvcPanel(DeviceSlug(device)) in registry
    ensures Call(SvcPanel(DeviceSlug(device)), Payload(NameKey, panelName.value))
              in DeviceCalls(device, registry, panelName, stateText, sourceText)
  {
    var slug := DeviceSlug(device);
    assert PickedService(SvcPanel(slug), registry) == Some(SvcPanel(slug));
  }
}
