/** The colour theme of the client (client/src/contexts/ThemeContext.jsx): dark
    or light, chosen from the saved preference or else the system setting,
    saved again and applied to the page after every change, with a palette
    for each mode. */
module ThemeContext {
  import opened Js

  /** The starting mode: a saved (non-empty) preference decides, and only
      the text "dark" means dark; without one the system setting decides. */
  function InitialMode(saved: Option<string>, systemDark: bool): (dark: bool)
    ensures dark != systemDark ==> Given(saved)
    ensures Given(saved) ==> (dark <==> saved.value == "dark")
  {
    if Given(saved) then saved.value == "dark" else systemDark
  }

  /** The text saved under `theme`. */
  function Persisted(dark: bool): (s: string)
    ensures s != ""
  {
    if dark then "dark" else "light"
  }

  /** A reload restores the mode that was saved, whatever the system says. */
  lemma PersistRoundTrip(dark: bool, systemDark: bool)
    ensures InitialMode(Some(Persisted(dark)), systemDark) == dark
  {
  }

  /** Any saved text other than "dark", including an unknown one, starts in
      light mode; an empty one is ignored. */
  lemma SavedTextDecides(saved: string, systemDark: bool)
    ensures saved != "" && saved != "dark" ==> !InitialMode(Some(saved), systemDark)
    ensures InitialMode(Some(""), systemDark) == systemDark
    ensures InitialMode(None, systemDark) == systemDark
  {
  }

  datatype Palette = Palette(
    primary: string, secondary: string, background: string, surface: string,
    text: string, textSecondary: string, border: string,
    success: string, warning: string, error: string, info: string)

  /** The palette of a mode; text is always readable on its background. */
  function Colors(dark: bool): (p: Palette)
    ensures p.text != p.background && p.textSecondary != p.background
  {
    if dark then
      Palette("#3B82F6", "#6B7280", "#111827", "#1F2937", "#F9FAFB", "#9CA3AF", "#374151",
              "#10B981", "#F59E0B", "#EF4444", "#3B82F6")
    else
      Palette("#2563EB", "#4B5563", "#FFFFFF", "#F9FAFB", "#111827", "#6B7280", "#E5E7EB",
              "#059669", "#D97706", "#DC2626", "#2563EB")
  }

  /** The palette follows the mode: every colour differs between the two
      modes, and in each mode text and background differ. */
  lemma PaletteFollowsMode(dark: bool)
    ensures var d := Colors(true); var l := Colors(false);
            && d.primary != l.primary && d.secondary != l.secondary && d.background != l.background
            && d.surface != l.surface && d.text != l.text && d.textSecondary != l.textSecondary
            && d.border != l.border && d.success != l.success && d.warning != l.warning
            && d.error != l.error && d.info != l.info
    ensures Colors(dark).text != Colors(dark).background
    ensures Colors(dark) == Colors(true) <==> dark
  {
  }

  class Theme {
    var isDarkMode: bool
    /** The browser's `localStorage` entry `theme`. */
    var storedTheme: Option<string>
    /** Whether the page root carries the `dark` class. */
    var darkClass: bool

    /** After each render's effect: the saved text and the page's class
        agree with the mode. */
    ghost predicate Valid()
      reads this
    {
      storedTheme == Some(Persisted(isDarkMode)) && darkClass == isDarkMode
    }

    /** The provider mounts: the mode is chosen, then saved and applied. */
    constructor (saved: Option<string>, systemDark: bool)
      ensures Valid() && isDarkMode == InitialMode(saved, systemDark)
    {
      var dark := InitialMode(saved, systemDark);
      isDarkMode := dark;
      storedTheme := Some(Persisted(dark));
      darkClass := dark;
    }

    /** `toggleTheme`, followed by the effect it triggers. */
    method Toggle()
      requires Valid()
      modifies this
      ensures Valid() && isDarkMode == !old(isDarkMode)
    {
      isDarkMode := !isDarkMode;
      storedTheme := Some(Persisted(isDarkMode));
      if isDarkMode {
        darkClass := true;
      } else {
        darkClass := false;
      }
    }

    /** `theme.colors`. */
    function CurrentColors(): (p: Palette)
      reads this
      ensures p == Colors(true) <==> isDarkMode
    {
      Colors(isDarkMode)
    }
  }

  /** Whatever the mode after any number of toggles, a reload starts in that
      same mode. */
  lemma ReloadKeepsMode(t: Theme, systemDark: bool)
    requires t.Valid()
    ensures InitialMode(t.storedTheme, systemDark) == t.isDarkMode
  {
    PersistRoundTrip(t.isDarkMode, systemDark);
  }
}
