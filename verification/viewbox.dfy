/** The slideshow's SVG clean-up: markup that has an `<svg` tag but no `viewBox=` gets a
    `viewBox` attribute inserted right after the first `<svg`, sized from the first
    `width="<digits>"` and `height="<digits>"` attributes found anywhere in the markup,
    or 800 by 600 when either is missing. Everything else passes through. */
module ViewBox {
  import opened Options
  import opened Strings

  /** Length of the run of decimal digits starting at `i`. */
  function DigitRun(s: string, i: nat): (n: nat)
    requires i <= |s|
    ensures i + n <= |s|
    ensures forall k :: i <= k < i + n ==> IsDigit(s[k])
    ensures i + n == |s| || !IsDigit(s[i + n])
    decreases |s| - i
  {
    if i < |s| && IsDigit(s[i]) then 1 + DigitRun(s, i + 1) else 0
  }

  /** The pattern `key="(\d+)"` matches at index `i`: the key, `="`, one or more digits
      (taken greedily) and a closing quote. The key may be the tail of a longer attribute
      name such as `stroke-width`, as with the unanchored regular expression. */
  predicate MatchesAt(s: string, key: string, i: nat)
  {
    OccursAt(s, key + "=\"", i)
    && var j := i + |key| + 2;
       DigitRun(s, j) >= 1 && j + DigitRun(s, j) < |s| && s[j + DigitRun(s, j)] == '"'
  }

  /** Leftmost match at or after `from`. */
  function FindMatch(s: string, key: string, from: nat): (r: Option<nat>)
    ensures r.Some? ==> from <= r.value && MatchesAt(s, key, r.value)
    ensures forall i :: from <= i && (r.None? || i < r.value) ==> !MatchesAt(s, key, i)
    decreases |s| - from
  {
    if from >= |s| then None
    else if MatchesAt(s, key, from) then Some(from)
    else FindMatch(s, key, from + 1)
  }

  /** The captured digits of a match at `i`. */
  function Captured(s: string, key: string, i: nat): string
    requires MatchesAt(s, key, i)
  {
    var j := i + |key| + 2;
    s[j..j + DigitRun(s, j)]
  }

  /** `s.match(/key="(\d+)"/)?.[1]`: the digits of the leftmost match. */
  function Attr(s: string, key: string): (r: Option<string>)
    ensures r.Some? ==> |r.value| >= 1 && AllDigits(r.value)
    ensures r.None? <==> forall i: nat :: !MatchesAt(s, key, i)
    ensures r.Some? ==>
      exists i: nat ::
        MatchesAt(s, key, i) && (forall j: nat :: j < i ==> !MatchesAt(s, key, j)) && r.value == Captured(s, key, i)
  {
    match FindMatch(s, key, 0)
    case None => None
    case Some(i) => Some(Captured(s, key, i))
  }

  /** The start of the inserted attribute, up to the width. */
  const AttrHead: string := " viewBox=\"0 0 "

  /** The attribute text inserted after `<svg`: the matched width and height, or 800 by
      600 when either is missing. */
  function InsertedAttr(c: string): (attr: string)
    ensures Attr(c, "width").None? || Attr(c, "height").None? ==> attr == AttrHead + "800 600\""
    ensures Attr(c, "width").Some? && Attr(c, "height").Some? ==>
      attr == AttrHead + (Attr(c, "width").value + " " + Attr(c, "height").value + "\"")
  {
    match (Attr(c, "width"), Attr(c, "height"))
    case (Some(w), Some(h)) => AttrHead + (w + " " + h + "\"")
    case _ => AttrHead + "800 600\""
  }

  /** Whether the markup gets a viewBox: it has an `<svg` and no `viewBox=`. */
  predicate NeedsViewBox(c: string)
  {
    Contains(c, "<svg") && !Contains(c, "viewBox=")
  }

  /** The processed content shown for `svgContent`; empty content stays empty. */
  function Normalize(c: string): (r: string)
    ensures c == "" ==> r == ""
    ensures !NeedsViewBox(c) ==> r == c
  {
    if c == "" then ""
    else if NeedsViewBox(c) then ReplaceFirst(c, "<svg", "<svg" + InsertedAttr(c))
    else c
  }

  /** The inserted text holds `viewBox=` at offset 1. */
  lemma InsertedAttrHasViewBox(c: string)
    ensures Contains(InsertedAttr(c), "viewBox=")
  {
    var w, h := Attr(c, "width"), Attr(c, "height");
    var tail := if w.Some? && h.Some? then w.value + " " + h.value + "\"" else "800 600\"";
    HeadHasViewBox();
    OccursInPrefix(AttrHead, tail, "viewBox=", 1);
    OccursAtContains(AttrHead + tail, "viewBox=", 1);
  }

  lemma HeadHasViewBox()
    ensures OccursAt(AttrHead, "viewBox=", 1)
  {
  }

  /** An occurrence in a prefix is an occurrence in the whole. */
  lemma OccursInPrefix(a: string, b: string, p: string, i: nat)
    requires OccursAt(a, p, i)
    ensures OccursAt(a + b, p, i)
  {
    assert (a + b)[i..i + |p|] == a[i..i + |p|];
  }

  /** When a viewBox is needed, the result is the original with the attribute inserted
      right after the first `<svg`, and nothing else changed; it then has a viewBox. */
  lemma NormalizeInsertsAfterFirstTag(c: string)
    requires NeedsViewBox(c)
    ensures var i := IndexOf(c, "<svg");
      i >= 0 && i + 4 <= |c|
      && Normalize(c) == c[..i + 4] + InsertedAttr(c) + c[i + 4..]
      && Contains(Normalize(c), "viewBox=")
  {
    var i := IndexOf(c, "<svg");
    var attr := InsertedAttr(c);
    ReplaceFirstInsertsAfter(c, "<svg", attr);
    InsertedAttrHasViewBox(c);
    ContainsMiddle(c[..i + 4], attr, c[i + 4..], "viewBox=");
  }

  /** Cutting the inserted attribute back out gives the original markup. */
  lemma RemovingAttrRestores(c: string)
    requires NeedsViewBox(c)
    ensures var i := IndexOf(c, "<svg"); var r := Normalize(c);
      i >= 0 && i + 4 + |InsertedAttr(c)| <= |r|
      && r[..i + 4] + r[i + 4 + |InsertedAttr(c)|..] == c
  {
    NormalizeInsertsAfterFirstTag(c);
    CutInserted(c, IndexOf(c, "<svg") + 4, InsertedAttr(c));
  }

  lemma CutInserted(c: string, n: nat, q: string)
    requires n <= |c|
    ensures var r := c[..n] + q + c[n..];
      n + |q| <= |r| && r[..n] + r[n + |q|..] == c
  {
    var r := c[..n] + q + c[n..];
    assert r[..n] == c[..n];
    assert r[n + |q|..] == c[n..];
    assert c[..n] + c[n..] == c;
  }

  /** Processing already processed content changes nothing. */
  lemma NormalizeIdempotent(c: string)
    ensures Normalize(Normalize(c)) == Normalize(c)
  {
    if NeedsViewBox(c) {
      NormalizeInsertsAfterFirstTag(c);
    }
  }
}
