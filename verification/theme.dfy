/**
 * The colour theme: read from storage on start-up, flipped by the toggle,
 * and mirrored into the document and back into storage on every change.
 */
module Theme {
  import opened Wrappers
  import opened Types

  const Dark := "dark"
  const Light := "light"

  /** The stored value is read back unchecked, so any text may be the
      current theme. */
  predicate IsTheme(t: string) {
    t == Dark || t == Light
  }

  /** The starting theme: the stored one, or dark when nothing (or nothing
      but an empty text) is stored. */
  function InitialTheme(saved: Option<string>): (r: string)
    ensures saved.None? ==> r == Dark
    ensures saved.Some? && saved.value != "" ==> r == saved.value
    ensures saved == Some("") ==> r == Dark
  {
    TextOr(saved, Dark)
  }

  /** `toggleTheme`: light becomes dark, and anything else becomes light. */
  function Toggle(t: string): (r: string)
    ensures IsTheme(r) && r != t
    ensures r == Dark <==> t == Light
  {
    if t == Light then Dark else Light
  }

  /** Two toggles restore a proper theme; from any other value they end on
      dark. */
  lemma ToggleTwice(t: string)
    ensures IsTheme(t) ==> Toggle(Toggle(t)) == t
    ensures !IsTheme(t) ==> Toggle(Toggle(t)) == Dark
  {
  }

  /** The browser bar colour: the dark shade for dark, the light shade
      otherwise. */
  function ThemeColor(t: string): (r: string)
    ensures r == "#0f0b08" <==> t == Dark
    ensures r == "#0f0b08" || r == "#faf5ee"
  {
    if t == Dark then "#0f0b08" else "#faf5ee"
  }

  /** Where the theme shows up: the root element's data attribute, class
      and colour scheme, the stored value, and the theme-colour meta tag
      (absent until first written). */
  datatype Sinks = Sinks(dataTheme: string, className: string, colorScheme: string,
                         stored: Option<string>, metaColor: Option<string>)

  /** The layout effect: every sink receives the theme, and the meta tag is
      created when missing. */
  function Apply(d: Sinks, t: string): (r: Sinks)
    ensures r.dataTheme == t && r.className == t && r.colorScheme == t && r.stored == Some(t)
    ensures r.metaColor.Some? && (r.metaColor.value == "#0f0b08" <==> t == Dark)
  {
    Sinks(t, t, t, Some(t), Some(ThemeColor(t)))
  }

  /** What a reload starts from after a theme has been applied: the same
      theme, as long as it is not empty. */
  lemma ReloadKeepsTheme(d: Sinks, t: string)
    requires t != ""
    ensures InitialTheme(Apply(d, t).stored) == t
  {
  }

  /** Starting up and toggling any number of times always shows a proper
      theme once at least one toggle has happened. */
  function AfterToggles(saved: Option<string>, n: nat): (r: string)
    ensures n > 0 ==> IsTheme(r)
    ensures n == 0 ==> r == InitialTheme(saved)
  {
    if n == 0 then InitialTheme(saved) else Toggle(AfterToggles(saved, n - 1))
  }

  /** From a stored proper theme, an even number of toggles returns to it. */
  lemma {:induction false} EvenTogglesRestore(saved: Option<string>, n: nat)
    requires IsTheme(InitialTheme(saved))
    ensures AfterToggles(saved, 2 * n) == InitialTheme(saved)
  {
    if n > 0 {
      EvenTogglesRestore(saved, n - 1);
      assert 2 * n - 1 == 2 * (n - 1) + 1;
      ToggleTwice(AfterToggles(saved, 2 * (n - 1)));
    }
  }
}
