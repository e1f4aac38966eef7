/**
 * The web client's theme setting: light, dark, or following the operating
 * system, which the browser reports as a colour-scheme preference.
 */
module ThemeStore {
  datatype Mode = Light | Dark | System

  /** `getSystemTheme`: dark exactly when the browser prefers a dark colour scheme. */
  function SystemTheme(prefersDark: bool): (r: Mode)
    ensures r != System
    ensures r == Dark <==> prefersDark
  {
    if prefersDark then Dark else Light
  }

  /** The mode `toggleMode` switches to: from light to dark, from anything else to light. */
  function Toggled(m: Mode): (r: Mode)
    ensures r != System
    ensures r == Dark <==> m == Light
  {
    if m == Light then Dark else Light
  }

  /** Toggling twice gets back where it started exactly when the mode was not "system". */
  lemma ToggleTwice(m: Mode)
    ensures Toggled(Toggled(m)) == m <==> m != System
  {
  }

  /** The store's one persisted setting. */
  class Theme {
    var mode: Mode

    /** The initial setting is light. */
    constructor()
      ensures mode == Light
    {
      mode := Light;
    }

    /** `setMode`: the given mode is stored as it is. */
    method SetMode(m: Mode)
      modifies this
      ensures mode == m
    {
      mode := m;
    }

    /** `getEffectiveMode`: the system's theme for "system", else the stored mode. */
    function EffectiveMode(prefersDark: bool): (r: Mode)
      reads this
      ensures r != System
      ensures mode != System ==> r == mode
      ensures mode == System ==> (r == Dark <==> prefersDark)
    {
      if mode == System then SystemTheme(prefersDark) else mode
    }

    /** `isDarkMode`: dark is stored, or "system" is stored and the system is dark. */
    predicate IsDarkMode(prefersDark: bool)
      reads this
      ensures IsDarkMode(prefersDark) <==> mode == Dark || (mode == System && prefersDark)
    {
      EffectiveMode(prefersDark) == Dark
    }

    /** `toggleMode`: the stored mode becomes the toggled one, which never follows the system. */
    method ToggleMode()
      modifies this
      ensures mode == Toggled(old(mode))
      ensures forall p :: IsDarkMode(p) <==> old(mode) == Light
    {
      mode := Toggled(mode);
    }
  }
}
