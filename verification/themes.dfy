/** The four colour themes the site offers, named by the classes the theme provider puts
    on the root element; and the `dark` class that switches any of them to dark mode. */
module Themes {
  import opened Strings

  const ThemePrefix: string := "theme-"
  const DarkClass: string := "dark"

  const BoldTech: string := "theme-bold-tech"
  const MidnightBloom: string := "theme-midnight-bloom"
  const AmethystHaze: string := "theme-amethyst-haze"
  const Catppuccin: string := "theme-catppuccin"

  /** The themes in the order the provider lists them. */
  const ThemeClasses: seq<string> := [BoldTech, MidnightBloom, AmethystHaze, Catppuccin]

  /** The same themes as a set, as the root class update removes them. */
  const ThemeSet: set<string> := {BoldTech, MidnightBloom, AmethystHaze, Catppuccin}

  /** Every theme class carries the prefix, and the list and the set agree. */
  lemma ThemeClassesPrefixed()
    ensures forall c :: c in ThemeSet <==> c in ThemeClasses
    ensures forall c :: c in ThemeSet ==> StartsWith(c, ThemePrefix)
    ensures !StartsWith(DarkClass, ThemePrefix) && DarkClass !in ThemeSet
  {
    assert BoldTech == ThemePrefix + "bold-tech";
    assert MidnightBloom == ThemePrefix + "midnight-bloom";
    assert AmethystHaze == ThemePrefix + "amethyst-haze";
    assert Catppuccin == ThemePrefix + "catppuccin";
  }
}
