/** The `Box` component's translation of an `sx` style object into utility class names:
    each entry becomes one class (or none), the empty ones are dropped and the rest are
    joined with spaces. Values are taken as the text a template literal gives them. */
module Box {
  import opened Options
  import opened Strings

  /** The keys that map to `prefix + value`. */
  function PrefixFor(key: string): Option<string>
  {
    if key == "alignItems" then Some("items-")
    else if key == "justifyContent" then Some("justify-")
    else if key == "gap" then Some("gap-")
    else if key == "padding" then Some("p-")
    else if key == "paddingX" then Some("px-")
    else if key == "paddingY" then Some("py-")
    else if key == "margin" then Some("m-")
    else if key == "marginTop" then Some("mt-")
    else if key == "marginBottom" then Some("mb-")
    else if key == "marginLeft" then Some("ml-")
    else if key == "marginRight" then Some("mr-")
    else if key == "width" then Some("w-")
    else if key == "height" then Some("h-")
    else if key == "minHeight" then Some("min-h-")
    else if key == "backgroundColor" then Some("bg-")
    else if key == "borderRadius" then Some("rounded-")
    else if key == "overflow" then Some("overflow-")
    else None
  }

  /** The class for one `sx` entry: `flex` for `display: flex`, `flex-col` for
      `flexDirection: column`, the key's prefix followed by the value, or nothing. */
  function ClassFor(key: string, value: string): (r: string)
    ensures key == "display" && value == "flex" ==> r == "flex"
    ensures key == "flexDirection" && value == "column" ==> r == "flex-col"
    ensures PrefixFor(key).Some? ==> StartsWith(r, PrefixFor(key).value) && r[|PrefixFor(key).value|..] == value
    ensures r == "" <==>
      (PrefixFor(key).None? && !(key == "display" && value == "flex") && !(key == "flexDirection" && value == "column"))
  {
    if key == "display" && value == "flex" then "flex"
    else if PrefixFor(key).Some? then PrefixFor(key).value + value
    else if key == "flexDirection" && value == "column" then "flex-col"
    else ""
  }

  /** The classes of an `sx` object's entries in order, empty ones dropped. */
  function Tokens(entries: seq<(string, string)>): (r: seq<string>)
    ensures |r| <= |entries|
    ensures forall k :: 0 <= k < |r| ==> r[k] != ""
  {
    if entries == [] then []
    else
      var c := ClassFor(entries[0].0, entries[0].1);
      (if c == "" then [] else [c]) + Tokens(entries[1..])
  }

  /** Entries are translated one by one: the classes of two objects' entries are the
      classes of the first followed by those of the second. */
  lemma {:induction false} TokensAppend(a: seq<(string, string)>, b: seq<(string, string)>)
    ensures Tokens(a + b) == Tokens(a) + Tokens(b)
  {
    if a != [] {
      assert (a + b)[1..] == a[1..] + b;
      TokensAppend(a[1..], b);
    } else {
      assert a + b == b;
    }
  }

  /** One entry contributes its class, or nothing when its class is empty. Together with
      TokensAppend this fixes the classes of every `sx` object: one per entry, in order,
      empty ones dropped. */
  lemma TokensOfEntry(key: string, value: string)
    ensures Tokens([(key, value)]) == (if ClassFor(key, value) == "" then [] else [ClassFor(key, value)])
  {
    assert [(key, value)][1..] == [];
  }

  /** When every entry yields a class, the `k`th class is the `k`th entry's. */
  lemma {:induction false} TokensOfKnownEntries(entries: seq<(string, string)>)
    requires forall k :: 0 <= k < |entries| ==> ClassFor(entries[k].0, entries[k].1) != ""
    ensures |Tokens(entries)| == |entries|
    ensures forall k :: 0 <= k < |entries| ==> Tokens(entries)[k] == ClassFor(entries[k].0, entries[k].1)
  {
    if entries != [] {
      TokensOfKnownEntries(entries[1..]);
    }
  }

  /** An entry whose key is not understood contributes no class. */
  lemma UnknownKeysIgnored(entries: seq<(string, string)>, key: string, value: string)
    requires PrefixFor(key).None? && key != "display" && key != "flexDirection"
    ensures Tokens(entries + [(key, value)]) == Tokens(entries)
  {
    TokensAppend(entries, [(key, value)]);
    assert Tokens([(key, value)]) == [];
  }

  /** The class string: empty without `sx`. */
  function ClassName(sx: Option<seq<(string, string)>>): (r: string)
    ensures sx.None? ==> r == ""
    ensures r == "" <==> sx.None? || Tokens(sx.value) == []
    ensures sx.Some? && |Tokens(sx.value)| == 1 ==> r == Tokens(sx.value)[0]
  {
    if sx.None? then "" else Join(Tokens(sx.value), " ")
  }

  /** A flex column with a gap: `{display: 'flex', flexDirection: 'column', gap: 4}`
      gives `flex flex-col gap-4`, and an unknown key such as `color` adds nothing. */
  lemma FlexColumnExample(a: (string, string), b: (string, string), c: (string, string), d: (string, string))
    requires a == ("display", "flex") && b == ("flexDirection", "column")
    requires c == ("gap", "4") && d == ("color", "red")
    ensures ClassName(Some([a, b, c, d])) == "flex flex-col gap-4"
  {
    FlexColumnTokens(a, b, c, d);
    JoinOfThreeWords("flex", "flex-col", "gap-4");
  }

  lemma JoinOfThreeWords(x: string, y: string, z: string)
    ensures Join([x, y, z], " ") == x + " " + y + " " + z
  {
    JoinCons(x, [y, z], " ");
    JoinCons(y, [z], " ");
    assert [x, y, z] == [x] + [y, z];
    assert [y, z] == [y] + [z];
  }

  lemma FlexColumnTokens(a: (string, string), b: (string, string), c: (string, string), d: (string, string))
    requires a == ("display", "flex") && b == ("flexDirection", "column")
    requires c == ("gap", "4") && d == ("color", "red")
    ensures Tokens([a, b, c, d]) == ["flex", "flex-col", "gap-4"]
  {
    assert [a, b, c, d] == [a, b] + [c, d];
    TokensAppend([a, b], [c, d]);
    assert [a, b] == [a] + [b];
    TokensAppend([a], [b]);
    assert [c, d] == [c] + [d];
    TokensAppend([c], [d]);
    TokensOfEntry(a.0, a.1);
    TokensOfEntry(b.0, b.1);
    GapClass();
    TokensOfEntry(c.0, c.1);
    ColorIgnored();
    TokensOfEntry(d.0, d.1);
  }

  lemma GapClass()
    ensures ClassFor("gap", "4") == "gap-4"
  {
    assert PrefixFor("gap") == Some("gap-");
  }

  lemma ColorIgnored()
    ensures ClassFor("color", "red") == ""
  {
    assert PrefixFor("color") == None;
  }

  /** When no value holds a space, splitting the class string on spaces gives back the
      classes one by one. */
  lemma ClassNameSplits(entries: seq<(string, string)>)
    requires |Tokens(entries)| >= 1
    requires forall k :: 0 <= k < |entries| ==> ' ' !in entries[k].1
    ensures Split(ClassName(Some(entries)), ' ') == Tokens(entries)
  {
    TokensHaveNoSpace(entries);
    SplitJoin(Tokens(entries), ' ');
  }

  lemma {:induction false} TokensHaveNoSpace(entries: seq<(string, string)>)
    requires forall k :: 0 <= k < |entries| ==> ' ' !in entries[k].1
    ensures forall k :: 0 <= k < |Tokens(entries)| ==> ' ' !in Tokens(entries)[k]
  {
    if entries != [] {
      TokensHaveNoSpace(entries[1..]);
      ClassHasNoSpace(entries[0].0, entries[0].1);
    }
  }

  /** A value without spaces gives a class without spaces. */
  lemma ClassHasNoSpace(key: string, value: string)
    requires ' ' !in value
    ensures ' ' !in ClassFor(key, value)
  {
    if PrefixFor(key).Some? && !(key == "display" && value == "flex") {
      PrefixHasNoSpace(key);
      assert ClassFor(key, value) == PrefixFor(key).value + value;
    }
  }

  lemma PrefixHasNoSpace(key: string)
    requires PrefixFor(key).Some?
    ensures ' ' !in PrefixFor(key).value
  {
  }
}
