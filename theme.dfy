/**
 * The theme object's mode-dependent lookups: `color` and `boxShadow` take a
 * key for dark (or any) mode and an optional key for light mode, and
 * `lightDark` picks between two values by mode.
 */
module Theme {
  import opened Wrappers

  /** The theme as the styled components see it: the colour mode and the two tables read here. */
  datatype WaveTheme = WaveTheme(mode: string, colors: map<string, string>, boxShadows: map<string, string>)

  /** The key the theme reads: the light key only when one is given (a non-empty key) and the mode is "light". */
  function SelectKey(mode: string, darkOrDefault: string, light: Option<string>): (k: string)
    ensures k == darkOrDefault || (light.Some? && k == light.value)
    ensures mode != "light" || light.None? ==> k == darkOrDefault
  {
    var key := darkOrDefault;
    if light.Some? && light.value != "" && mode == "light" then light.value else key
  }

  /** `theme.color(darkOrDefault, light?)`: the light entry in light mode when a light key is given, else the default entry. */
  function Color(theme: WaveTheme, darkOrDefault: string, light: Option<string>): (r: Option<string>)
    ensures theme.mode == "light" && light.Some? && light.value != "" ==> r == Lookup(theme.colors, light.value)
    ensures !(theme.mode == "light" && light.Some? && light.value != "") ==> r == Lookup(theme.colors, darkOrDefault)
  {
    Lookup(theme.colors, SelectKey(theme.mode, darkOrDefault, light))
  }

  /** `theme.boxShadow(darkOrDefault, light?)`: chosen the same way from the box-shadow table. */
  function BoxShadow(theme: WaveTheme, darkOrDefault: string, light: Option<string>): (r: Option<string>)
    ensures theme.mode == "light" && light.Some? && light.value != "" ==> r == Lookup(theme.boxShadows, light.value)
    ensures !(theme.mode == "light" && light.Some? && light.value != "") ==> r == Lookup(theme.boxShadows, darkOrDefault)
  {
    Lookup(theme.boxShadows, SelectKey(theme.mode, darkOrDefault, light))
  }

  /** `lightDark(theme, light, dark)`: the first value in light mode, the second otherwise. */
  function LightDark<T>(theme: WaveTheme, light: T, dark: T): (r: T)
    ensures theme.mode == "light" ==> r == light
    ensures theme.mode != "light" ==> r == dark
  {
    if theme.mode == "light" then light else dark
  }

  /** With a light key, `color` reads the key `lightDark` would pick. */
  lemma ColorAgreesWithLightDark(theme: WaveTheme, dark: string, light: string)
    requires light != ""
    ensures Color(theme, dark, Some(light)) == Lookup(theme.colors, LightDark(theme, light, dark))
    ensures BoxShadow(theme, dark, Some(light)) == Lookup(theme.boxShadows, LightDark(theme, light, dark))
  {
  }

  /** Without a light key the default key is read in every mode. */
  lemma NoLightKeyUsesDefault(theme: WaveTheme, dark: string)
    ensures Color(theme, dark, None) == Lookup(theme.colors, dark)
    ensures BoxShadow(theme, dark, None) == Lookup(theme.boxShadows, dark)
  {
  }

  /** `color` picks the light entry exactly when a light key is given and the mode is "light". */
  lemma LightEntryIff(theme: WaveTheme, dark: string, light: Option<string>)
    requires light.Some? ==> light.value != "" && light.value != dark
    ensures SelectKey(theme.mode, dark, light) != dark <==> light.Some? && theme.mode == "light"
  {
  }
}
