/** The dark/light theme switch: a preference kept in local storage under the key
    `theme`, and the `data-theme` attribute of the document element. */
module Theme {
  import opened Text

  const Dark: string := "dark"
  const Light: string := "light"

  /** JavaScript truthiness of a stored or attribute value: present and non-empty. */
  predicate Truthy(v: Option<string>) {
    v.Some? && v.value != ""
  }

  /** `getPreferredTheme`: a truthy stored value wins as it is; otherwise the operating
      system's dark-mode signal (false when media queries are unavailable) picks `dark`,
      and `light` is the default. The result is never empty. */
  function PreferredTheme(stored: Option<string>, osDark: bool): (r: string)
    ensures r != ""
    ensures Truthy(stored) ==> r == stored.value
    ensures !Truthy(stored) && osDark ==> r == Dark
    ensures !Truthy(stored) && !osDark ==> r == Light
  {
    if Truthy(stored) then stored.value else if osDark then Dark else Light
  }

  /** The theme `toggleTheme` switches to from the attribute `current`: `light` after
      `dark`, and `dark` after anything else, an absent or empty attribute included. */
  function Toggled(current: Option<string>): (r: string)
    ensures r == Dark || r == Light
    ensures r == Light <==> current == Some(Dark)
  {
    var shown := if Truthy(current) then current.value else Light;
    if shown == Dark then Light else Dark
  }

  /** From either theme, toggling twice comes back to it, and a single toggle always
      changes it. */
  lemma ToggleTwice(t: string)
    requires t == Dark || t == Light
    ensures Toggled(Some(Toggled(Some(t)))) == t
    ensures Toggled(Some(t)) != t
  {
  }

  /** An attribute that is neither theme toggles to `dark`, after which toggling
      alternates between the two. */
  lemma ToggleOtherValue(t: string)
    requires t != Dark
    ensures Toggled(Some(t)) == Dark
    ensures Toggled(Some(Toggled(Some(t)))) == Light
  {
  }

  class ThemeState {
    /** `localStorage.getItem('theme')`. */
    var stored: Option<string>
    /** `document.documentElement.getAttribute('data-theme')`. */
    var attribute: Option<string>

    /** The preference is kept and shown: a truthy stored value equal to the attribute. */
    predicate Persisted()
      reads this
    {
      Truthy(stored) && attribute == stored
    }

    /** Page load: `applyTheme(getPreferredTheme())` with whatever storage held before. */
    constructor (previous: Option<string>, osDark: bool)
      ensures attribute == Some(PreferredTheme(previous, osDark))
      ensures stored == attribute
      ensures Persisted()
    {
      var theme := PreferredTheme(previous, osDark);
      stored := Some(theme);
      attribute := Some(theme);
    }

    /** `applyTheme(theme)`: the attribute and the stored preference both become `theme`. */
    method ApplyTheme(theme: string)
      modifies this
      ensures attribute == Some(theme) && stored == Some(theme)
      ensures Persisted() <==> theme != ""
    {
      attribute := Some(theme);
      stored := Some(theme);
    }

    /** `toggleTheme`: apply the other theme and keep it. */
    method ToggleTheme()
      modifies this
      ensures attribute == Some(Toggled(old(attribute)))
      ensures stored == attribute
      ensures Persisted()
    {
      var next := Toggled(attribute);
      ApplyTheme(next);
    }

    /** The handler for a change of the operating system's colour scheme: it follows the
        system only while nothing truthy is stored, and otherwise changes nothing. */
    method OnSystemChange(osDark: bool)
      modifies this
      ensures Truthy(old(stored)) ==> attribute == old(attribute) && stored == old(stored)
      ensures !Truthy(old(stored)) ==> attribute == Some(if osDark then Dark else Light) && stored == attribute
      ensures old(Persisted()) ==> Persisted()
    {
      if !Truthy(stored) {
        ApplyTheme(if osDark then Dark else Light);
      }
    }

    /** Storage cleared from outside the page (the only way the preference goes away). */
    method ClearStorage()
      modifies this`stored
      ensures stored == None
    {
      stored := None;
    }
  }

  /** After the initial apply, a change of the system scheme leaves the theme alone,
      whatever was stored before the page loaded. */
  method LoadThenSystemChange(previous: Option<string>, osDark: bool, osDarkLater: bool) returns (shown: Option<string>)
    ensures shown == Some(PreferredTheme(previous, osDark))
  {
    var state := new ThemeState(previous, osDark);
    state.OnSystemChange(osDarkLater);
    shown := state.attribute;
  }

  /** Once stored data is cleared, the next system change is followed again. */
  method ClearThenSystemChange(previous: Option<string>, osDark: bool, osDarkLater: bool) returns (shown: Option<string>)
    ensures shown == Some(if osDarkLater then Dark else Light)
  {
    var state := new ThemeState(previous, osDark);
    state.ClearStorage();
    state.OnSystemChange(osDarkLater);
    shown := state.attribute;
  }

  /** Two clicks on the toggle button restore the theme chosen at load, whichever it was. */
  method LoadThenToggleTwice(previous: Option<string>, osDark: bool) returns (shown: Option<string>, kept: Option<string>)
    requires !Truthy(previous) || previous.value == Dark || previous.value == Light
    ensures shown == Some(PreferredTheme(previous, osDark))
    ensures kept == shown
  {
    var state := new ThemeState(previous, osDark);
    state.ToggleTheme();
    state.ToggleTheme();
    ToggleTwice(PreferredTheme(previous, osDark));
    shown := state.attribute;
    kept := state.stored;
  }

  /** With nothing stored and a dark system, the page starts dark; a toggle makes it
      light, and a reload (a fresh page over the same storage) starts light again,
      whatever the system says then. */
  method ToggleSurvivesReload(osDarkLater: bool) returns (first: Option<string>, toggled: Option<string>, reloaded: Option<string>)
    ensures first == Some(Dark)
    ensures toggled == Some(Light)
    ensures reloaded == Some(Light)
  {
    var page := new ThemeState(None, true);
    first := page.attribute;
    page.ToggleTheme();
    toggled := page.attribute;
    var again := new ThemeState(page.stored, osDarkLater);
    reloaded := again.attribute;
  }
}
