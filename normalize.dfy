/**
 * The state normaliser: every raw state value, of a sensor or of the alarm
 * panel, is turned into canonical lower-case text before it is compared.
 */
module Normalize {
  import opened Wrappers

  /** A raw `.state` value as the host hands it over. */
  datatype RawState =
    | BoolState(b: bool)     // an integration that emits True / False
    | TextState(text: string)
    | NoneValue              // Python's None, whose text form is "None"

  /** Python truthiness of an optional string: present and non-empty. */
  predicate Truthy(o: Option<string>) {
    o.Some? && o.value != ""
  }

  predicate IsUpper(c: char) {
    'A' <= c <= 'Z'
  }

  /** ASCII lower-casing of one character. */
  function LowerChar(c: char): (r: char)
    ensures !IsUpper(r)
    ensures IsUpper(c) ==> r as int == c as int + 32
    ensures !IsUpper(c) ==> r == c
  {
    if IsUpper(c) then (c as int + 32) as char else c
  }

  predicate IsLowerCase(s: string) {
    forall i :: 0 <= i < |s| ==> !IsUpper(s[i])
  }

  /** `s` and `t` spell the same word when case is ignored. */
  predicate SameUpToCase(s: string, t: string) {
    |s| == |t| && forall i :: 0 <= i < |s| ==> LowerChar(s[i]) == LowerChar(t[i])
  }

  function Lower(s: string): (r: string)
    ensures IsLowerCase(r)
    ensures SameUpToCase(r, s)
  {
    seq(|s|, i requires 0 <= i < |s| => LowerChar(s[i]))
  }

  /** `_normalize_boolish`: booleans become "true"/"false", anything else its lower-cased text. */
  function NormalizeBoolish(raw: RawState): (r: string)
    ensures IsLowerCase(r)
    ensures raw == BoolState(true) ==> r == "true"
    ensures raw == BoolState(false) ==> r == "false"
    ensures raw == NoneValue ==> r == "none"
    ensures raw.TextState? ==> SameUpToCase(r, raw.text)
  {
    match raw
    case BoolState(b) => if b then "true" else "false"
    case TextState(s) => Lower(s)
    case NoneValue => Lower("None")
  }

  /** Lower-case text is its own canonical form. */
  lemma LowerOfLowerCase(s: string)
    requires IsLowerCase(s)
    ensures Lower(s) == s
  {
    assert forall i :: 0 <= i < |s| ==> Lower(s)[i] == s[i];
  }

  /** Normalising an already normalised value changes nothing. */
  lemma NormalizeIdempotent(raw: RawState)
    ensures NormalizeBoolish(TextState(NormalizeBoolish(raw))) == NormalizeBoolish(raw)
  {
    LowerOfLowerCase(NormalizeBoolish(raw));
  }

  /** Two texts that differ only in letter case normalise to the same value. */
  lemma NormalizeCaseInsensitive(s: string, t: string)
    requires SameUpToCase(s, t)
    ensures NormalizeBoolish(TextState(s)) == NormalizeBoolish(TextState(t))
  {
    assert forall i :: 0 <= i < |s| ==> Lower(s)[i] == Lower(t)[i];
  }

  /** The normalised text is the only lower-case spelling of the input. */
  lemma NormalizeUnique(s: string, r: string)
    requires IsLowerCase(r) && SameUpToCase(r, s)
    ensures NormalizeBoolish(TextState(s)) == r
  {
    assert forall i :: 0 <= i < |s| ==> Lower(s)[i] == r[i];
  }

  /** The sample inputs: booleans, "ON", "Open" and "foo". */
  lemma NormalizeExamples()
    ensures NormalizeBoolish(BoolState(true)) == "true"
    ensures NormalizeBoolish(BoolState(false)) == "false"
    ensures NormalizeBoolish(TextState("ON")) == "on"
    ensures NormalizeBoolish(TextState("Open")) == "open"
    ensures NormalizeBoolish(TextState("foo")) == "foo"
  {
    NormalizeUnique("ON", "on");
    NormalizeUnique("Open", "open");
    NormalizeUnique("foo", "foo");
  }
}
