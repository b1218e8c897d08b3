/** The animated page background: it reads the mode (`dark` class present or not) and the
    theme (the first `theme-` class, cut down to its bare name) from the root element's
    classes, and looks the pair up in a table of background styles. */
module DynamicBackground {
  import opened Options
  import opened Strings
  import opened Dom
  import opened Themes
  import AppTheme

  datatype Mode = Light | Dark

  /** The four keys of the background table. */
  datatype Background = BoldTechBackground | MidnightBloomBackground | AmethystHazeBackground | CatppuccinBackground

  /** The mode is dark exactly when the root carries the dark class. */
  function ModeOf(ts: seq<string>): (m: Mode)
    ensures m == Dark <==> DarkClass in ts
  {
    if DarkClass in ts then Dark else Light
  }

  /** The index of the first class starting with `theme-`, or |ts| when there is none. */
  function FirstThemed(ts: seq<string>): (i: nat)
    ensures i <= |ts|
    ensures i < |ts| ==> StartsWith(ts[i], ThemePrefix)
    ensures forall k :: 0 <= k < i ==> !StartsWith(ts[k], ThemePrefix)
  {
    if ts == [] then 0
    else if StartsWith(ts[0], ThemePrefix) then 0
    else 1 + FirstThemed(ts[1..])
  }

  /** The class the theme is read from: the first `theme-` class, or `theme-bold-tech`. */
  function ThemeSource(ts: seq<string>): (c: string)
    ensures StartsWith(c, ThemePrefix)
    ensures c in ts || (c == BoldTech && forall x :: x in ts ==> !StartsWith(x, ThemePrefix))
    ensures c in ts ==>
      exists i :: 0 <= i < |ts| && ts[i] == c && forall k :: 0 <= k < i ==> !StartsWith(ts[k], ThemePrefix)
  {
    var i := FirstThemed(ts);
    if i < |ts| then ts[i]
    else
      ThemeClassesPrefixed();
      BoldTech
  }

  /** The theme name: the first `theme-` and then the first `-dark` removed, with
      `bold-tech` for a name that comes out empty. */
  function DerivedTheme(themeClass: string): (r: string)
    ensures r != ""
  {
    var s := ReplaceFirst(ReplaceFirst(themeClass, ThemePrefix, ""), "-dark", "");
    if s == "" then "bold-tech" else s
  }

  /** `backgroundMap[theme]`: one of the four entries, or nothing for any other name (the
      page would then fail to read a style from it). */
  function BackgroundFor(name: string): Option<Background>
  {
    if name == "bold-tech" then Some(BoldTechBackground)
    else if name == "midnight-bloom" then Some(MidnightBloomBackground)
    else if name == "amethyst-haze" then Some(AmethystHazeBackground)
    else if name == "catppuccin" then Some(CatppuccinBackground)
    else None
  }

  /** The table entry each theme class selects. */
  function ThemeBackground(themeClass: string): Option<Background>
  {
    if themeClass == BoldTech then Some(BoldTechBackground)
    else if themeClass == MidnightBloom then Some(MidnightBloomBackground)
    else if themeClass == AmethystHaze then Some(AmethystHazeBackground)
    else if themeClass == Catppuccin then Some(CatppuccinBackground)
    else None
  }

  /** A pattern none of whose later characters equals its first cannot straddle the end
      of a text that does not hold it: its first occurrence after the text is right there. */
  lemma FirstOccurrenceAfter(n: string, p: string)
    requires |p| >= 1 && IndexOf(n, p) == -1
    requires forall d :: 1 <= d < |p| ==> p[d] != p[0]
    ensures IndexOf(n + p, p) == |n|
  {
    var s := n + p;
    assert s[|n|..|n| + |p|] == p;
    forall j | 0 <= j < |n|
      ensures !OccursAt(s, p, j)
    {
      if j + |p| <= |n| {
        assert s[j..j + |p|] == n[j..j + |p|];
        assert !OccursAt(n, p, j);
      } else {
        var d := |n| - j;
        assert s[j..j + |p|][d] == p[0] != p[d];
      }
    }
    OccursAtContains(s, p, |n|);
  }

  /** A text without some character of the pattern does not hold the pattern. */
  lemma MissingCharNoOccurrence(n: string, p: string, c: char)
    requires c in p && c !in n
    ensures IndexOf(n, p) == -1
  {
    var d :| 0 <= d < |p| && p[d] == c;
    forall i | 0 <= i
      ensures !OccursAt(n, p, i)
    {
      if i + |p| <= |n| {
        assert n[i..i + |p|][d] == n[i + d] != c;
      }
    }
  }

  /** A theme class without a `-dark` suffix gives its bare name. */
  lemma DerivedFromLightName(name: string)
    requires name != "" && IndexOf(name, "-dark") == -1
    ensures DerivedTheme(ThemePrefix + name) == name
  {
    ReplaceLeadingPrefix(ThemePrefix, name);
  }

  /** A theme class with a `-dark` suffix gives the same bare name. */
  lemma DerivedFromDarkName(name: string)
    requires name != "" && IndexOf(name, "-dark") == -1
    ensures DerivedTheme(ThemePrefix + name + "-dark") == name
  {
    assert ThemePrefix + name + "-dark" == ThemePrefix + (name + "-dark");
    ReplaceLeadingPrefix(ThemePrefix, name + "-dark");
    FirstOccurrenceAfter(name, "-dark");
    assert (name + "-dark")[..|name|] == name;
  }

  /** The bare theme name comes out of a theme class, with or without a `-dark` suffix. */
  lemma DerivedFromName(name: string, dark: bool)
    requires name != "" && 'k' !in name
    ensures DerivedTheme(ThemePrefix + name + (if dark then "-dark" else "")) == name
  {
    MissingCharNoOccurrence(name, "-dark", 'k');
    if dark {
      DerivedFromDarkName(name);
    } else {
      assert ThemePrefix + name + "" == ThemePrefix + name;
      DerivedFromLightName(name);
    }
  }

  /** Every theme class the provider can set, in light or in a `-dark` variant, names an
      entry of the table, and the entry is that theme's. */
  lemma ThemeClassesHaveBackground(t: string, dark: bool)
    requires t in ThemeSet
    ensures BackgroundFor(DerivedTheme(t + (if dark then "-dark" else ""))) == ThemeBackground(t)
    ensures ThemeBackground(t).Some?
  {
    ThemeBackgrounds();
    if t == BoldTech {
      BoldTechNamed(dark);
    } else if t == MidnightBloom {
      MidnightBloomNamed(dark);
    } else if t == AmethystHaze {
      AmethystHazeNamed(dark);
    } else {
      CatppuccinNamed(dark);
    }
  }

  lemma ThemeBackgrounds()
    ensures ThemeBackground(BoldTech) == Some(BoldTechBackground)
    ensures ThemeBackground(MidnightBloom) == Some(MidnightBloomBackground)
    ensures ThemeBackground(AmethystHaze) == Some(AmethystHazeBackground)
    ensures ThemeBackground(Catppuccin) == Some(CatppuccinBackground)
  {
  }

  lemma BoldTechNamed(dark: bool)
    ensures BackgroundFor(DerivedTheme(BoldTech + (if dark then "-dark" else ""))) == Some(BoldTechBackground)
  {
    assert BoldTech == ThemePrefix + "bold-tech";
    DerivedFromName("bold-tech", dark);
  }

  lemma MidnightBloomNamed(dark: bool)
    ensures BackgroundFor(DerivedTheme(MidnightBloom + (if dark then "-dark" else ""))) == Some(MidnightBloomBackground)
  {
    assert MidnightBloom == ThemePrefix + "midnight-bloom";
    DerivedFromName("midnight-bloom", dark);
  }

  lemma AmethystHazeNamed(dark: bool)
    ensures BackgroundFor(DerivedTheme(AmethystHaze + (if dark then "-dark" else ""))) == Some(AmethystHazeBackground)
  {
    assert AmethystHaze == ThemePrefix + "amethyst-haze";
    DerivedFromName("amethyst-haze", dark);
  }

  lemma CatppuccinNamed(dark: bool)
    ensures BackgroundFor(DerivedTheme(Catppuccin + (if dark then "-dark" else ""))) == Some(CatppuccinBackground)
  {
    assert Catppuccin == ThemePrefix + "catppuccin";
    DerivedFromName("catppuccin", dark);
  }

  /** With no stray `theme-` classes on the root, the background follows the theme the
      application shell sets: its theme class is the one read back, and the mode is left as
      the dark class says. */
  lemma BackgroundFollowsTheme(ts: seq<string>, t: string)
    requires t in ThemeSet
    requires forall x :: x in ts && StartsWith(x, ThemePrefix) ==> x in ThemeSet
    ensures var r := AppTheme.ThemeApplied(ts, Some(t));
      ThemeSource(r) == t
      && BackgroundFor(DerivedTheme(ThemeSource(r))) == ThemeBackground(t)
      && ModeOf(r) == ModeOf(ts)
  {
    var r := AppTheme.ThemeApplied(ts, Some(t));
    ThemeClassesPrefixed();
    assert t in r;
    var i := FirstThemed(r);
    assert i < |r|;
    ThemeClassesHaveBackground(t, false);
    assert t + "" == t;
  }

  /** The background's state: the initial `bold-tech`/`dark` pair until the first change of
      the root classes is observed. */
  class DynamicBackground {
    var theme: string
    var mode: Mode

    constructor ()
      ensures theme == "bold-tech" && mode == Dark
    {
      theme := "bold-tech";
      mode := Dark;
    }

    /** The observer callback, run when the root element's classes change. */
    method OnClassChange(root: ClassList)
      modifies this
      ensures mode == ModeOf(root.tokens)
      ensures theme == DerivedTheme(ThemeSource(root.tokens))
    {
      var isDark := root.Has(DarkClass);
      var themeClass := ThemeSource(root.tokens);
      mode := if isDark then Dark else Light;
      theme := DerivedTheme(themeClass);
    }

    /** `backgroundMap[theme]` for the current state. */
    function Lookup(): Option<Background>
      reads this
    {
      BackgroundFor(theme)
    }
  }
}
