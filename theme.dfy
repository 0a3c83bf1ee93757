/**
 * The light/dark theme controller: the `data-theme` attribute of the
 * document element and its one persisted copy in local storage.
 */
module Theme {
  import opened Wrappers

  /** The local-storage key under which the chosen theme is kept. */
  const ThemeKey := "portfolio_theme"
  const Light := "light"
  const Dark := "dark"

  /** The two values the page recognises when it reads local storage back. */
  predicate IsKnown(t: string) {
    t == Light || t == Dark
  }

  /** What `localStorage.getItem(ThemeKey)` yields: the stored string, or null. */
  function Stored(storage: map<string, string>): (saved: Option<string>)
    ensures saved.Some? <==> ThemeKey in storage
    ensures saved.Some? ==> saved.value == storage[ThemeKey]
  {
    if ThemeKey in storage then Some(storage[ThemeKey]) else None
  }

  /** The theme `initTheme` applies: a recognised stored value is kept, anything else falls back to dark. */
  function InitialTheme(saved: Option<string>): (t: string)
    ensures IsKnown(t)
    ensures saved.Some? && IsKnown(saved.value) ==> t == saved.value
    ensures saved.None? || !IsKnown(saved.value) ==> t == Dark
  {
    if saved.Some? && IsKnown(saved.value) then saved.value else Dark
  }

  /** Persisting the initial theme and starting again lands on the same theme. */
  lemma InitialThemeStable(saved: Option<string>)
    ensures InitialTheme(Some(InitialTheme(saved))) == InitialTheme(saved)
  {
  }

  /**
   * The theme the toggle reads: `getAttribute("data-theme") || "dark"`, so a
   * missing attribute and an empty one both read as dark.
   */
  function CurrentTheme(attr: Option<string>): (t: string)
    ensures t != ""
    ensures attr.Some? && attr.value != "" ==> t == attr.value
    ensures attr.None? || attr.value == "" ==> t == Dark
  {
    if attr.Some? && attr.value != "" then attr.value else Dark
  }

  /** The toggle's choice: light exactly when the current theme is dark, otherwise dark. */
  function Flip(current: string): (t: string)
    ensures IsKnown(t)
    ensures t == Light <==> current == Dark
  {
    if current == Dark then Light else Dark
  }

  /** Toggling twice from a recognised theme returns to it. */
  lemma FlipTwice(t: string)
    requires IsKnown(t)
    ensures Flip(Flip(t)) == t
  {
  }

  /**
   * Flipping a current theme other than light or dark gives dark, and a second
   * flip gives light.  (A missing or empty attribute never gets here: it reads
   * as dark, see `CurrentTheme`.)
   */
  lemma FlipUnknown(t: string)
    requires !IsKnown(t)
    ensures Flip(t) == Dark && Flip(Flip(t)) == Light
  {
  }

  /** The document element's theme attribute and the browser's local storage. */
  class ThemeController {
    var attr: Option<string>
    var storage: map<string, string>

    /** The applied theme is recognised and is exactly the one persisted. */
    ghost predicate Applied()
      reads this
    {
      attr.Some? && IsKnown(attr.value) && Stored(storage) == attr
    }

    /** The page as loaded: whatever attribute the markup carries and whatever storage holds. */
    constructor (attr0: Option<string>, storage0: map<string, string>)
      ensures attr == attr0 && storage == storage0
    {
      attr := attr0;
      storage := storage0;
    }

    /** `setTheme`: write the attribute and persist the same value. */
    method SetTheme(theme: string)
      modifies this
      ensures attr == Some(theme)
      ensures storage == old(storage)[ThemeKey := theme]
    {
      attr := Some(theme);
      storage := storage[ThemeKey := theme];
    }

    /** `initTheme`: apply and persist the stored theme when recognised, dark otherwise. */
    method InitTheme()
      modifies this
      ensures Applied()
      ensures attr == Some(InitialTheme(Stored(old(storage))))
      ensures storage == old(storage)[ThemeKey := attr.value]
    {
      var saved := Stored(storage);
      if saved.Some? && (saved.value == Light || saved.value == Dark) {
        SetTheme(saved.value);
        return;
      }
      SetTheme(Dark);
    }

    /** The theme toggle's click handler. */
    method ToggleClick()
      modifies this
      ensures Applied()
      ensures attr == Some(Flip(CurrentTheme(old(attr))))
      ensures storage == old(storage)[ThemeKey := attr.value]
    {
      var current := if attr.Some? && attr.value != "" then attr.value else Dark;
      SetTheme(if current == Dark then Light else Dark);
    }
  }

  /** After `initTheme`, two clicks on the toggle restore the applied and the persisted theme. */
  method ToggleTwiceRestores(c: ThemeController)
    modifies c
    ensures c.Applied()
    ensures c.attr == Some(InitialTheme(Stored(old(c.storage))))
    ensures Stored(c.storage) == c.attr
  {
    c.InitTheme();
    ghost var first := c.attr.value;
    c.ToggleClick();
    c.ToggleClick();
    FlipTwice(first);
  }
}
