/**
 * `themeVariant`: a styled-components interpolation that picks the theme
 * variant named by a component prop and hands it to a style builder. It
 * returns a thunk; the check and the lookup happen when the thunk runs.
 */
module ThemeVariant {
  import opened Wrappers

  const NilPropMessage := "undefined is not a valid option for themeVariant()"

  /**
   * `themeVariant(prop, variants, styles)`: the thunk throws on a nil prop, and
   * otherwise builds the styles from `variants[prop]` (`undefined` for an unknown name).
   */
  function MakeThemeVariant<V, S>(prop: Option<string>, variants: map<string, V>, styles: Option<V> -> S): (thunk: () -> Result<S>)
    ensures thunk().Err? <==> prop.None?
    ensures thunk().Err? ==> thunk().message == NilPropMessage
    ensures prop.Some? && prop.value in variants ==> thunk() == Ok(styles(Some(variants[prop.value])))
    ensures prop.Some? && prop.value !in variants ==> thunk() == Ok(styles(None))
  {
    () => if prop.None? then Err(NilPropMessage) else Ok(styles(Lookup(variants, prop.value)))
  }

  /** Only the named variant reaches `styles`: tables that agree on it give the same result. */
  lemma OnlyNamedVariantUsed<V, S>(prop: string, v1: map<string, V>, v2: map<string, V>, styles: Option<V> -> S)
    requires (prop in v1 <==> prop in v2) && (prop in v1 ==> v1[prop] == v2[prop])
    ensures MakeThemeVariant(Some(prop), v1, styles)() == MakeThemeVariant(Some(prop), v2, styles)()
  {
  }

  /** Building the interpolation never fails, even for a nil prop: the error waits for the thunk to run. */
  lemma ConstructionIsLazy<V, S>(variants: map<string, V>, styles: Option<V> -> S)
    ensures MakeThemeVariant(None, variants, styles)().Err?
    ensures MakeThemeVariant(None, variants, styles).requires()
  {
  }
}
