/**
  The closed set of themes, the option table the theme menu is drawn from,
  and the policy that decides which persisted value the page adopts.
*/
module Themes {
  import opened Wrappers

  /** The five literals of the `Theme` union type. */
  predicate IsThemeName(s: string)
  {
    s == "dark" || s == "light" || s == "cyberpunk" || s == "corporate" || s == "gradient"
  }

  /** A theme is one of those five strings, as in the source's string-literal union. */
  type Theme = s: string | IsThemeName(s) witness "dark"

  /** The theme the page starts with. */
  const DefaultTheme: Theme := "dark"

  /** The single key of the persistence slot. */
  const StorageKey: string := "portfolio-theme"

  datatype ThemeOption = ThemeOption(name: string, value: Theme, description: string)

  /** The `themes` table, in menu order. */
  const ThemeOptions: seq<ThemeOption> := [
    ThemeOption("Dark", "dark", "Professional dark theme"),
    ThemeOption("Light Minimal", "light", "Clean minimal light theme"),
    ThemeOption("Cyberpunk", "cyberpunk", "Futuristic neon theme"),
    ThemeOption("Corporate", "corporate", "Professional business theme"),
    ThemeOption("Gradient", "gradient", "Colorful gradient theme")
  ]

  /** `options.some((t) => t.value === s)`. */
  function SomeHasValue(options: seq<ThemeOption>, s: string): (r: bool)
    ensures r <==> exists k :: 0 <= k < |options| && options[k].value == s
  {
    if options == [] then false
    else options[0].value == s || SomeHasValue(options[1..], s)
  }

  /** `options.find((t) => t.value === t0)`: the first option carrying the value, if any. */
  function FindByValue(options: seq<ThemeOption>, t: Theme): (r: Option<ThemeOption>)
    ensures r.None? <==> forall k :: 0 <= k < |options| ==> options[k].value != t
    ensures r.Some? ==> exists k :: 0 <= k < |options| && options[k] == r.value
                          && r.value.value == t
                          && forall j :: 0 <= j < k ==> options[j].value != t
  {
    if options == [] then None
    else if options[0].value == t then Some(options[0])
    else
      var r := FindByValue(options[1..], t);
      if r.Some? then
        assert forall j :: 1 <= j < |options| ==> options[j] == options[1..][j - 1];
        r
      else r
  }

  /** The table lists exactly the five theme names: a stored string is on it iff it is a theme. */
  lemma OptionsAreThemes(s: string)
    ensures SomeHasValue(ThemeOptions, s) <==> IsThemeName(s)
  {
    if IsThemeName(s) {
      var k := if s == "dark" then 0 else if s == "light" then 1
               else if s == "cyberpunk" then 2 else if s == "corporate" then 3 else 4;
      assert ThemeOptions[k].value == s;
    }
  }

  /** Each theme appears on the table exactly once. */
  lemma OptionValuesDistinct()
    ensures forall i, j :: 0 <= i < j < |ThemeOptions| ==> ThemeOptions[i].value != ThemeOptions[j].value
  {
  }

  /**
    The `currentTheme` lookup: the menu entry of the active theme. It is never
    undefined: every theme has its entry on the table, and it is that theme's.
  */
  function CurrentTheme(theme: Theme): (r: Option<ThemeOption>)
    ensures r.Some? && r.value in ThemeOptions && r.value.value == theme
  {
    OptionsAreThemes(theme);
    FindByValue(ThemeOptions, theme)
  }

  /** `localStorage.getItem(key)`: `null` when the key is absent. */
  function GetItem(storage: map<string, string>, key: string): (r: Option<string>)
    ensures r.Some? <==> key in storage
    ensures r.Some? ==> r.value == storage[key]
  {
    if key in storage then Some(storage[key]) else None
  }

  /** `localStorage.setItem(key, value)`. */
  function SetItem(storage: map<string, string>, key: string, value: string): (r: map<string, string>)
    ensures key in r && r[key] == value
    ensures forall k :: k in storage && k != key ==> k in r && r[k] == storage[k]
    ensures r.Keys == storage.Keys + {key}
  {
    storage[key := value]
  }

  /**
    The load policy: a stored value is adopted only when it is present, non-empty and
    the value of some entry of the table; otherwise the current theme is kept.
  */
  function AdoptSaved(saved: Option<string>, current: Theme): (r: Theme)
    ensures saved.Some? && IsThemeName(saved.value) ==> r == saved.value
    ensures !(saved.Some? && IsThemeName(saved.value)) ==> r == current
  {
    if saved.Some? && saved.value != "" && SomeHasValue(ThemeOptions, saved.value) then
      OptionsAreThemes(saved.value);
      saved.value
    else
      OptionsAreThemes(if saved.Some? then saved.value else "");
      current
  }

  /** What the page loads from a slot: the stored theme if valid, the default otherwise. */
  function LoadTheme(storage: map<string, string>): (r: Theme)
    ensures StorageKey in storage && IsThemeName(storage[StorageKey]) ==> r == storage[StorageKey]
    ensures !(StorageKey in storage && IsThemeName(storage[StorageKey])) ==> r == DefaultTheme
  {
    AdoptSaved(GetItem(storage, StorageKey), DefaultTheme)
  }

  /** What the page writes back: the theme under the slot's key, every other key untouched. */
  function SaveTheme(storage: map<string, string>, theme: Theme): (r: map<string, string>)
    ensures StorageKey in r && r[StorageKey] == theme
    ensures forall k :: k in storage && k != StorageKey ==> k in r && r[k] == storage[k]
    ensures r.Keys == storage.Keys + {StorageKey}
  {
    SetItem(storage, StorageKey, theme)
  }

  /** Round trip: saving a theme and loading it back yields that theme, whatever the slot held. */
  lemma SaveThenLoad(storage: map<string, string>, theme: Theme)
    ensures LoadTheme(SaveTheme(storage, theme)) == theme
  {
  }

  /** Loading is idempotent: writing back what was loaded and loading again changes nothing. */
  lemma LoadSaveLoad(storage: map<string, string>)
    ensures LoadTheme(SaveTheme(storage, LoadTheme(storage))) == LoadTheme(storage)
  {
  }
}
