/** The site header's preference logic: dark mode, taken from localStorage or the system
    setting and mirrored by the root element's `dark` class; the weather choice, persisted
    and announced to the home page; and the display names of the themes. */
module Header {
  import opened Options
  import opened Dom
  import opened Themes

  /** The initial dark mode: a saved `'true'` turns it on, any other saved non-empty text
      turns it off, and with nothing saved (or an empty string) the system preference
      decides. */
  function ShouldBeDark(saved: Option<string>, systemPrefersDark: bool): (r: bool)
    ensures saved == Some("true") ==> r
    ensures Truthy(saved) && saved != Some("true") ==> !r
    ensures !Truthy(saved) ==> r == systemPrefersDark
  {
    (saved.Some? && saved.value == "true") || (!Truthy(saved) && systemPrefersDark)
  }

  /** The text the toggle stores for a dark-mode value. */
  function Stored(dark: bool): (r: string)
    ensures r != ""
  {
    if dark then "true" else "false"
  }

  /** What the toggle stores is read back as the same mode at the next start, whatever the
      system preference is then. */
  lemma StoredPreferenceWins(dark: bool, systemPrefersDark: bool)
    ensures ShouldBeDark(Some(Stored(dark)), systemPrefersDark) == dark
  {
  }

  /** The root classes after the dark class is added (dark on) or removed (dark off). */
  function WithDark(ts: seq<string>, dark: bool): (r: seq<string>)
    ensures (DarkClass in r) == dark
    ensures forall x :: x != DarkClass ==> (x in r <==> x in ts)
    ensures NoDuplicates(ts) ==> NoDuplicates(r)
  {
    if dark then WithToken(ts, DarkClass) else WithoutTokens(ts, {DarkClass})
  }

  /** Toggling twice restores the mode and the set of root classes; only the position of
      `dark` in the list can differ. */
  lemma ToggleTwiceRestores(ts: seq<string>, dark: bool)
    requires (DarkClass in ts) == dark
    ensures var r := WithDark(WithDark(ts, !dark), dark);
      (DarkClass in r) == dark && forall x :: x in r <==> x in ts
  {
  }

  /** `getThemeDisplayName`: the four themes get their display names, and any other
      string is returned unchanged. */
  function ThemeDisplayName(themeName: string): (r: string)
    ensures themeName in ThemeSet <==> r != themeName
    ensures themeName in ThemeSet ==> r != "" && r !in ThemeSet
  {
    if themeName == BoldTech then "Bold Tech"
    else if themeName == MidnightBloom then "Midnight Bloom"
    else if themeName == AmethystHaze then "Amethyst Haze"
    else if themeName == Catppuccin then "Catppuccin"
    else themeName
  }

  /** The four display names are different from each other. */
  lemma DisplayNamesDistinct(a: string, b: string)
    requires a in ThemeSet && b in ThemeSet && a != b
    ensures ThemeDisplayName(a) != ThemeDisplayName(b)
  {
  }

  /** The header's state, and the shared browser objects it acts on. */
  class Header {
    var mobileOpen: bool
    var isDark: bool
    var weather: string
    const root: ClassList
    const storage: Storage
    const events: EventLog

    /** The root `dark` class mirrors `isDark`. */
    ghost predicate DarkInSync()
      reads this, root
    {
      root.Valid() && root.Has(DarkClass) == isDark
    }

    constructor (root: ClassList, storage: Storage, events: EventLog)
      ensures !mobileOpen && !isDark && weather == "sunny"
      ensures this.root == root && this.storage == storage && this.events == events
    {
      mobileOpen := false;
      isDark := false;
      weather := "sunny";
      this.root := root;
      this.storage := storage;
      this.events := events;
    }

    /** The mount effect: dark mode from the saved preference or the system setting, the
        root class set to match, and a saved non-empty weather adopted. */
    method Initialize(systemPrefersDark: bool)
      requires root.Valid()
      modifies this, root
      ensures isDark == ShouldBeDark(storage.GetItem(DarkModeKey), systemPrefersDark)
      ensures root.tokens == WithDark(old(root.tokens), isDark)
      ensures weather == (if Truthy(storage.GetItem(WeatherKey)) then storage.GetItem(WeatherKey).value else old(weather))
      ensures mobileOpen == old(mobileOpen)
      ensures DarkInSync()
    {
      var savedDarkMode := storage.GetItem(DarkModeKey);
      var shouldBeDark := ShouldBeDark(savedDarkMode, systemPrefersDark);
      isDark := shouldBeDark;
      if shouldBeDark {
        root.Add(DarkClass);
      } else {
        root.Remove({DarkClass});
      }
      var savedWeather := storage.GetItem(WeatherKey);
      if Truthy(savedWeather) {
        weather := savedWeather.value;
      }
    }

    /** `handleDrawerToggle` */
    method HandleDrawerToggle()
      modifies this
      ensures mobileOpen == !old(mobileOpen)
      ensures isDark == old(isDark) && weather == old(weather)
    {
      mobileOpen := !mobileOpen;
    }

    /** `toggleLightDark`: flips the mode, sets the root class to match and stores the new
        mode, so that the next start reads it back whatever the system setting is. */
    method ToggleLightDark()
      requires root.Valid()
      modifies this, root, storage
      ensures isDark == !old(isDark)
      ensures root.tokens == WithDark(old(root.tokens), isDark)
      ensures storage.items == old(storage.items)[DarkModeKey := Stored(isDark)]
      ensures forall sys: bool :: ShouldBeDark(storage.GetItem(DarkModeKey), sys) == isDark
      ensures weather == old(weather) && mobileOpen == old(mobileOpen)
      ensures DarkInSync()
    {
      var newIsDark := !isDark;
      isDark := newIsDark;
      if newIsDark {
        root.Add(DarkClass);
        storage.SetItem(DarkModeKey, "true");
      } else {
        root.Remove({DarkClass});
        storage.SetItem(DarkModeKey, "false");
      }
      forall sys: bool ensures ShouldBeDark(storage.GetItem(DarkModeKey), sys) == isDark {
        StoredPreferenceWins(isDark, sys);
      }
    }

    /** `handleWeatherChange`: sets the weather, stores it under the weather key and
        announces it on the window. */
    method HandleWeatherChange(newWeather: string)
      modifies this, storage, events
      ensures weather == newWeather
      ensures storage.items == old(storage.items)[WeatherKey := newWeather]
      ensures events.dispatched == old(events.dispatched) + [WeatherChange(newWeather)]
      ensures isDark == old(isDark) && mobileOpen == old(mobileOpen)
    {
      weather := newWeather;
      storage.SetItem(WeatherKey, newWeather);
      events.Dispatch(WeatherChange(newWeather));
    }
  }
}
