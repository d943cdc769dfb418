/**
 * `PreferencesManager`: the selected vibration pattern and the theme flag,
 * stored in a key-value preferences store. The store is a map from key name
 * to value; the two flows are functions of the store's current contents, and
 * the two setters are single-key writes.
 */
module Preferences {
  import opened Wrappers
  import opened VibrationHelper

  datatype PrefValue = StringValue(s: string) | BoolValue(b: bool)

  type Prefs = map<string, PrefValue>

  const VibrationPatternKey := "vibration_pattern"
  const DarkThemeKey := "dark_theme"

  /** `preferences[stringPreferencesKey(key)]`. */
  function StringAt(prefs: Prefs, key: string): Option<string>
  {
    if key in prefs && prefs[key].StringValue? then Some(prefs[key].s) else None
  }

  /** `preferences[booleanPreferencesKey(key)]`. */
  function BoolAt(prefs: Prefs, key: string): Option<bool>
  {
    if key in prefs && prefs[key].BoolValue? then Some(prefs[key].b) else None
  }

  /** The first pattern among `candidates` whose name is `name`. */
  function Find(name: string, candidates: seq<VibrationPattern>): (r: Option<VibrationPattern>)
    ensures r.Some? ==> r.value in candidates && Name(r.value) == name
    ensures r.None? ==> forall i :: 0 <= i < |candidates| ==> Name(candidates[i]) != name
  {
    if candidates == [] then None
    else if Name(candidates[0]) == name then Some(candidates[0])
    else Find(name, candidates[1..])
  }

  /** `VibrationPattern.valueOf(name)`, with `None` where it throws. */
  function ValueOf(name: string): (r: Option<VibrationPattern>)
    ensures r.Some? ==> Name(r.value) == name
    ensures r.None? ==> forall p: VibrationPattern :: Name(p) != name
  {
    var r := Find(name, AllPatterns);
    if r.None? then
      forall p: VibrationPattern ensures Name(p) != name {
        assert p == AllPatterns[AllPatternsIndex(p)];
      }
      r
    else r
  }

  /** Where each pattern sits in `AllPatterns`. */
  function AllPatternsIndex(p: VibrationPattern): (i: nat)
    ensures i < |AllPatterns| && AllPatterns[i] == p
  {
    match p
    case GentlePulse => 0
    case QuickPulse => 1
    case Wave => 2
    case Escalating => 3
    case GentleBells => 4
    case TripleChime => 5
    case FadeOut => 6
  }

  /** `vibrationPatternFlow`: the stored name (GENTLE_PULSE's when absent),
      resolved with `valueOf`, falling back to GENTLE_PULSE when no pattern has
      that name. */
  function LoadPattern(prefs: Prefs): VibrationPattern
  {
    var name := StringAt(prefs, VibrationPatternKey).GetOr(Name(GentlePulse));
    ValueOf(name).GetOr(GentlePulse)
  }

  /** `darkThemeFlow`: the stored flag, dark when absent. */
  function LoadDarkTheme(prefs: Prefs): bool
  {
    BoolAt(prefs, DarkThemeKey).GetOr(true)
  }

  /** No two patterns share a name, so a name identifies its pattern. */
  lemma {:induction false} NamesDistinct(p: VibrationPattern, q: VibrationPattern)
    requires Name(p) == Name(q)
    ensures p == q
  {
    assert Name(p)[..2] == Name(q)[..2];
    assert |Name(p)| == |Name(q)|;
  }

  /** Saving a pattern stores its name; loading reads the same pattern back. */
  lemma {:induction false} SaveThenLoadPattern(prefs: Prefs, p: VibrationPattern)
    ensures LoadPattern(prefs[VibrationPatternKey := StringValue(Name(p))]) == p
  {
    var r := ValueOf(Name(p));
    NamesDistinct(r.value, p);
  }

  /** A missing key, or a name that no pattern has (a renamed or removed one
      such as "GENTLE"), loads the default GENTLE_PULSE rather than failing. */
  lemma {:induction false} UnknownNameLoadsDefault(prefs: Prefs)
    requires StringAt(prefs, VibrationPatternKey).None?
          || forall p: VibrationPattern :: Name(p) != StringAt(prefs, VibrationPatternKey).value
    ensures LoadPattern(prefs) == GentlePulse
  {
    var name := StringAt(prefs, VibrationPatternKey).GetOr(Name(GentlePulse));
    var r := ValueOf(name);
    if r.Some? {
      NamesDistinct(r.value, GentlePulse);
    }
  }

  /** The old name "GENTLE" is one such name. */
  lemma OldGentleNameLoadsDefault(prefs: Prefs)
    ensures LoadPattern(prefs[VibrationPatternKey := StringValue("GENTLE")]) == GentlePulse
  {
    var q := prefs[VibrationPatternKey := StringValue("GENTLE")];
    UnknownNameLoadsDefault(q);
  }

  /** A missing theme flag loads dark; a written one loads back as written. */
  lemma {:induction false} DarkThemeLoads(prefs: Prefs, isDark: bool)
    ensures DarkThemeKey !in prefs ==> LoadDarkTheme(prefs)
    ensures LoadDarkTheme(prefs[DarkThemeKey := BoolValue(isDark)]) == isDark
  {
  }

  /** Each setter leaves the other preference as it was. */
  lemma {:induction false} SettersAreIndependent(prefs: Prefs, p: VibrationPattern, isDark: bool)
    ensures LoadDarkTheme(prefs[VibrationPatternKey := StringValue(Name(p))]) == LoadDarkTheme(prefs)
    ensures LoadPattern(prefs[DarkThemeKey := BoolValue(isDark)]) == LoadPattern(prefs)
  {
    assert VibrationPatternKey != DarkThemeKey;
    assert StringAt(prefs[DarkThemeKey := BoolValue(isDark)], VibrationPatternKey)
        == StringAt(prefs, VibrationPatternKey);
    assert BoolAt(prefs[VibrationPatternKey := StringValue(Name(p))], DarkThemeKey)
        == BoolAt(prefs, DarkThemeKey);
  }

  class PreferencesManager {
    /** The store's current preferences. */
    var prefs: Prefs

    constructor (stored: Prefs)
      ensures prefs == stored
    {
      prefs := stored;
    }

    /** The current value of `vibrationPatternFlow`. */
    function Pattern(): VibrationPattern
      reads this
    {
      LoadPattern(prefs)
    }

    /** The current value of `darkThemeFlow`. */
    function DarkTheme(): bool
      reads this
    {
      LoadDarkTheme(prefs)
    }

    /** `setVibrationPattern`: writes the pattern's name under its key only. */
    method SetVibrationPattern(pattern: VibrationPattern)
      modifies this
      ensures prefs == old(prefs)[VibrationPatternKey := StringValue(Name(pattern))]
      ensures Pattern() == pattern && DarkTheme() == old(DarkTheme())
    {
      prefs := prefs[VibrationPatternKey := StringValue(Name(pattern))];
      SaveThenLoadPattern(old(prefs), pattern);
      SettersAreIndependent(old(prefs), pattern, true);
    }

    /** `setDarkTheme`: writes the flag under its key only. */
    method SetDarkTheme(isDark: bool)
      modifies this
      ensures prefs == old(prefs)[DarkThemeKey := BoolValue(isDark)]
      ensures DarkTheme() == isDark && Pattern() == old(Pattern())
    {
      prefs := prefs[DarkThemeKey := BoolValue(isDark)];
      DarkThemeLoads(old(prefs), isDark);
      SettersAreIndependent(old(prefs), GentlePulse, isDark);
    }
  }
}
