/** The application shell's theme effect: when the provider reports a theme, the root
    element's classes are rewritten so that the listed theme classes give way to the new
    one while every class outside the `theme-` family survives. */
module AppTheme {
  import opened Options
  import opened Strings
  import opened Dom
  import opened Themes

  /** The classes that do not start with `theme-`, in order. */
  function Unthemed(ts: seq<string>): (r: seq<string>)
    ensures forall x :: x in r <==> x in ts && !StartsWith(x, ThemePrefix)
    ensures |r| <= |ts|
  {
    if ts == [] then []
    else if StartsWith(ts[0], ThemePrefix) then Unthemed(ts[1..])
    else [ts[0]] + Unthemed(ts[1..])
  }

  /** `classList.add` applied to each of `cs` in turn. */
  function WithTokens(ts: seq<string>, cs: seq<string>): (r: seq<string>)
    ensures forall x :: x in r <==> x in ts || x in cs
    ensures NoDuplicates(ts) ==> NoDuplicates(r)
    decreases |cs|
  {
    if cs == [] then ts else WithToken(WithTokens(ts, cs[..|cs| - 1]), cs[|cs| - 1])
  }

  lemma WithTokensStep(ts: seq<string>, cs: seq<string>, i: nat)
    requires i < |cs|
    ensures WithTokens(ts, cs[..i + 1]) == WithToken(WithTokens(ts, cs[..i]), cs[i])
  {
    assert cs[..i + 1][..i] == cs[..i];
  }

  /** Adding classes that are all present already changes nothing. */
  lemma {:induction false} WithPresentTokens(ts: seq<string>, cs: seq<string>)
    requires forall x :: x in cs ==> x in ts
    ensures WithTokens(ts, cs) == ts
    decreases |cs|
  {
    if cs != [] {
      WithPresentTokens(ts, cs[..|cs| - 1]);
      assert cs[|cs| - 1] in cs;
    }
  }

  /** The listed theme classes removed and the new theme added at the end (or left where it
      was, when it is a class that survived the removal). */
  function Swapped(ts: seq<string>, theme: string): seq<string>
  {
    WithToken(WithoutTokens(ts, ThemeSet), theme)
  }

  /** Re-adding the preserved classes after the swap is a no-op: none of them was removed. */
  lemma ReaddIsNoOp(ts: seq<string>, theme: string)
    ensures WithTokens(Swapped(ts, theme), Unthemed(ts)) == Swapped(ts, theme)
  {
    ThemeClassesPrefixed();
    WithPresentTokens(Swapped(ts, theme), Unthemed(ts));
  }

  /** The root classes after the theme effect. Nothing changes without a theme; otherwise
      the result holds the theme, and any other class keeps its presence unless it is one of
      the listed themes, which are all gone. */
  function ThemeApplied(ts: seq<string>, theme: Option<string>): (r: seq<string>)
    ensures !Truthy(theme) ==> r == ts
    ensures Truthy(theme) ==> theme.value in r
    ensures forall x :: x !in ThemeSet && Some(x) != theme ==> (x in r <==> x in ts)
    ensures Truthy(theme) ==> forall x :: x in ThemeSet && Some(x) != theme ==> x !in r
    ensures NoDuplicates(ts) ==> NoDuplicates(r)
  {
    if !Truthy(theme) then ts
    else
      ReaddIsNoOp(ts, theme.value);
      WithTokens(Swapped(ts, theme.value), Unthemed(ts))
  }

  /** Applying the same theme twice gives the same class list as applying it once. */
  lemma ThemeAppliedIdempotent(ts: seq<string>, theme: Option<string>)
    ensures ThemeApplied(ThemeApplied(ts, theme), theme) == ThemeApplied(ts, theme)
  {
    if Truthy(theme) {
      var t := theme.value;
      var w := WithoutTokens(ts, ThemeSet);
      var r := Swapped(ts, t);
      ReaddIsNoOp(ts, t);
      ReaddIsNoOp(r, t);
      if t in w {
        WithoutAbsentTokens(w, ThemeSet);
      } else {
        assert r == w + [t];
        WithoutTokensAppend(w, [t], ThemeSet);
        WithoutAbsentTokens(w, ThemeSet);
        if t in ThemeSet {
          assert WithoutTokens([t], ThemeSet) == [];
        } else {
          assert WithoutTokens([t], ThemeSet) == [t];
        }
      }
    }
  }

  /** The theme effect keeps the header's dark class as it was, so dark mode and the
      colour theme are independent. */
  lemma DarkSurvivesThemeChange(ts: seq<string>, theme: Option<string>)
    requires theme != Some(DarkClass)
    ensures DarkClass in ThemeApplied(ts, theme) <==> DarkClass in ts
  {
    ThemeClassesPrefixed();
  }

  /** The effect on the root element: collect the classes to preserve, remove the listed
      themes, add the new one, and add each preserved class back. */
  method ApplyTheme(root: ClassList, theme: Option<string>)
    requires root.Valid()
    modifies root
    ensures root.Valid() && root.tokens == ThemeApplied(old(root.tokens), theme)
  {
    if Truthy(theme) {
      ghost var before := root.tokens;
      var classesToPreserve := Unthemed(root.tokens);
      root.Remove(ThemeSet);
      root.Add(theme.value);
      AddEach(root, classesToPreserve);
      assert root.tokens == WithTokens(Swapped(before, theme.value), Unthemed(before));
    }
  }

  /** `classesToPreserve.forEach(cls => classList.add(cls))` */
  method AddEach(root: ClassList, cs: seq<string>)
    requires root.Valid()
    modifies root
    ensures root.Valid() && root.tokens == WithTokens(old(root.tokens), cs)
  {
    ghost var start := root.tokens;
    var i := 0;
    while i < |cs|
      invariant 0 <= i <= |cs|
      invariant root.Valid() && root.tokens == WithTokens(start, cs[..i])
    {
      WithTokensStep(start, cs, i);
      root.Add(cs[i]);
      i := i + 1;
    }
    assert cs[..i] == cs;
  }
}
