/** The `Typography` component: which element it renders for each variant, and the
    `certificate` variant's formatting of a plain-text description into one line per
    sentence, with an optional bold `Label:` before the rest of the sentence. */
module Typography {
  import opened Strings

  /** One rendered sentence. `Labelled` renders the label in bold, then a space and the
      description when the description is not empty. */
  datatype Segment =
    | Labelled(caption: string, description: string)
    | Plain(text: string)

  /** `text.split('.').filter(s => s.trim())`: the sentences that are not blank. */
  function Sentences(text: string): (r: seq<string>)
    ensures forall k :: 0 <= k < |r| ==> '.' !in r[k] && Trim(r[k]) != ""
  {
    NonBlank(Split(text, '.'))
  }

  /** `parts.filter(s => s.trim())`: the pieces that are not blank, in order. */
  function NonBlank(parts: seq<string>): (r: seq<string>)
    ensures |r| <= |parts|
    ensures forall k :: 0 <= k < |r| ==> r[k] in parts && Trim(r[k]) != ""
    ensures (forall k :: 0 <= k < |parts| ==> Trim(parts[k]) != "") ==> r == parts
    ensures (forall k :: 0 <= k < |parts| ==> Trim(parts[k]) == "") ==> r == []
  {
    if parts == [] then []
    else if Trim(parts[0]) == "" then NonBlank(parts[1..])
    else [parts[0]] + NonBlank(parts[1..])
  }

  /** A single piece is kept exactly when it is not blank. */
  lemma NonBlankSingle(p: string)
    ensures NonBlank([p]) == (if Trim(p) == "" then [] else [p])
  {
    assert [p][1..] == [];
  }

  /** The filter works piece by piece: filtering two lists one after the other is
      filtering each and keeping the survivors in order. */
  lemma {:induction false} NonBlankAppend(a: seq<string>, b: seq<string>)
    ensures NonBlank(a + b) == NonBlank(a) + NonBlank(b)
  {
    if a == [] {
      assert a + b == b;
    } else {
      assert (a + b)[0] == a[0];
      assert (a + b)[1..] == a[1..] + b;
      NonBlankAppend(a[1..], b);
    }
  }

  /** The first `:` of a trimmed sentence splits it into a label that keeps the colon and
      the trimmed rest; a sentence without a colon is shown as it is. */
  function FormatSentence(sentence: string): (r: Segment)
    ensures r.Plain? <==> ':' !in Trim(sentence)
    ensures r.Plain? ==> r.text == Trim(sentence)
    ensures r.Labelled? ==>
      |r.caption| >= 1 && r.caption[|r.caption| - 1] == ':' && ':' !in r.caption[..|r.caption| - 1]
      && StartsWith(Trim(sentence), r.caption)
      && r.description == Trim(Trim(sentence)[|r.caption|..])
  {
    var t := Trim(sentence);
    var c := FirstIndex(t, ':');
    if c == |t| then Plain(t)
    else
      assert t[..c + 1][..c] == t[..c];
      Labelled(t[..c + 1], Trim(t[c + 1..]))
  }

  /** `formatCertificateText`: one segment per non-blank sentence, in order. */
  function FormatCertificateText(text: string): (r: seq<Segment>)
    ensures |r| == |Sentences(text)|
    ensures forall k :: 0 <= k < |r| ==> r[k] == FormatSentence(Sentences(text)[k])
  {
    var ss := Sentences(text);
    seq(|ss|, k requires 0 <= k < |ss| => FormatSentence(ss[k]))
  }

  /** The text a segment shows. */
  function SegmentText(s: Segment): string
  {
    match s
    case Labelled(caption, description) => caption + (if description != "" then " " + description else "")
    case Plain(text) => text
  }

  /** No shown sentence is blank or holds a period: the periods are the separators. */
  lemma SegmentsHaveNoPeriod(text: string, k: nat)
    requires k < |FormatCertificateText(text)|
    ensures var s := FormatCertificateText(text)[k];
      '.' !in SegmentText(s) && SegmentText(s) != ""
  {
    SegmentOfSentence(Sentences(text)[k]);
  }

  lemma SegmentOfSentence(sentence: string)
    requires '.' !in sentence && Trim(sentence) != ""
    ensures '.' !in SegmentText(FormatSentence(sentence)) && SegmentText(FormatSentence(sentence)) != ""
  {
    var t := Trim(sentence);
    TrimKeepsOut(sentence, '.');
    var s := FormatSentence(sentence);
    if s.Labelled? {
      var n := |s.caption|;
      SliceKeepsOut(t, 0, n, '.');
      SliceKeepsOut(t, n, |t|, '.');
      TrimKeepsOut(t[n..], '.');
      LabelledShown(s.caption, s.description);
    }
  }

  lemma SliceKeepsOut(t: string, i: nat, j: nat, c: char)
    requires i <= j <= |t| && c !in t
    ensures c !in t[i..j]
  {
    forall k | 0 <= k < j - i ensures t[i..j][k] != c {
      assert t[i..j][k] == t[i + k];
    }
  }

  lemma LabelledShown(caption: string, description: string)
    requires '.' !in caption && '.' !in description && caption != ""
    ensures '.' !in SegmentText(Labelled(caption, description)) && SegmentText(Labelled(caption, description)) != ""
  {
    assert '.' !in " " + description;
  }

  /** The sentences of a text made by joining period-free pieces with periods are exactly
      the pieces that are not blank, in their order. */
  lemma SentencesOfJoin(pieces: seq<string>)
    requires |pieces| >= 1
    requires forall k :: 0 <= k < |pieces| ==> '.' !in pieces[k]
    ensures Sentences(Join(pieces, ".")) == NonBlank(pieces)
  {
    SplitJoin(pieces, '.');
  }

  /** A description written as sentences that each end with a period shows each sentence
      once, in order: the empty piece after the final period is dropped. */
  lemma SentencesOfTerminated(pieces: seq<string>)
    requires |pieces| >= 1
    requires forall k :: 0 <= k < |pieces| ==> '.' !in pieces[k] && Trim(pieces[k]) != ""
    ensures Sentences(Join(pieces, ".") + ".") == pieces
  {
    var all := pieces + [""];
    JoinSnoc(pieces, "", ".");
    assert Join(all, ".") == Join(pieces, ".") + ".";
    PeriodFreeSnoc(pieces);
    SentencesOfJoin(all);
    NonBlankAppend(pieces, [""]);
    NonBlankSingle("");
  }

  lemma PeriodFreeSnoc(pieces: seq<string>)
    requires forall k :: 0 <= k < |pieces| ==> '.' !in pieces[k]
    ensures forall k :: 0 <= k < |pieces + [""]| ==> '.' !in (pieces + [""])[k]
  {
  }

  /** The certificate shows one line per non-blank sentence, in order: the line for the
      `k`th non-blank piece of a period-joined text is that piece, formatted. */
  lemma CertificateLinesOfJoin(pieces: seq<string>)
    requires |pieces| >= 1
    requires forall k :: 0 <= k < |pieces| ==> '.' !in pieces[k]
    ensures var r := FormatCertificateText(Join(pieces, "."));
      |r| == |NonBlank(pieces)| && forall k :: 0 <= k < |r| ==> r[k] == FormatSentence(NonBlank(pieces)[k])
  {
    SentencesOfJoin(pieces);
  }

  /** A piece between two periods that holds only space is dropped, whatever kind of
      space it is: the two sentences around it are shown and nothing else. */
  lemma BlankMiddleDropped(a: string, m: string, b: string)
    requires '.' !in a && '.' !in m && '.' !in b
    requires Trim(a) != "" && Trim(m) == "" && Trim(b) != ""
    ensures Sentences(a + "." + m + "." + b) == [a, b]
  {
    JoinOfThree(a, m, b);
    PeriodFreeThree(a, m, b);
    SentencesOfJoin([a, m, b]);
    NonBlankOfBlankMiddle(a, m, b);
  }

  lemma NonBlankOfBlankMiddle(a: string, m: string, b: string)
    requires Trim(a) != "" && Trim(m) == "" && Trim(b) != ""
    ensures NonBlank([a, m, b]) == [a, b]
  {
    var tail := [m] + [b];
    NonBlankSingle(m);
    NonBlankSingle(b);
    NonBlankAppend([m], [b]);
    assert NonBlank(tail) == [b];
    NonBlankSingle(a);
    NonBlankAppend([a], tail);
    assert [a, m, b] == [a] + tail;
  }

  lemma PeriodFreeThree(a: string, m: string, b: string)
    requires '.' !in a && '.' !in m && '.' !in b
    ensures forall k :: 0 <= k < |[a, m, b]| ==> '.' !in [a, m, b][k]
  {
  }

  /** The ideographic space and the thin space are trimmed like an ASCII space. */
  lemma UnicodeSpacesTrimmed()
    ensures Trim("\U{3000}") == ""
    ensures Trim("\U{2009}x") == "x"
  {
    TrimEmptyIffAllSpace("\U{3000}");
    var s := "\U{2009}x";
    assert SpaceEnd(s, 1) == 1;
    assert SpaceEnd(s, 0) == 1;
    assert SpaceStart(s, 1, 2) == 2;
    assert s[1..2] == "x";
  }

  lemma JoinOfThree(a: string, b: string, c: string)
    ensures Join([a, b, c], ".") == a + "." + b + "." + c
  {
    JoinCons(a, [b, c], ".");
    JoinCons(b, [c], ".");
    assert [a, b, c] == [a] + [b, c];
    assert [b, c] == [b] + [c];
  }

  /** A sentence `Label: description`, with a label free of colons and a description
      that is trimmed and not empty, is shown exactly as written. */
  lemma LabelledSentenceShownAsWritten(caption: string, description: string)
    requires ':' !in caption && caption != "" && !IsSpace(caption[0])
    requires description != "" && Trim(description) == description
    ensures var s := FormatSentence(caption + ": " + description);
      s == Labelled(caption + ":", description) && SegmentText(s) == caption + ": " + description
  {
    var sentence := caption + ": " + description;
    var tail := " " + description;
    assert sentence == (caption + ":") + tail;
    TrimOfTrimmedEnds(sentence);
    var c := FirstIndex(sentence, ':');
    assert sentence[|caption|] == ':';
    assert sentence[..|caption|] == caption;
    assert c == |caption|;
    assert sentence[c + 1..] == tail;
    TrimLeadingSpace(description);
  }

  /** A string that neither starts nor ends with space is its own trim. */
  lemma TrimOfTrimmedEnds(s: string)
    requires s != [] && !IsSpace(s[0]) && !IsSpace(s[|s| - 1])
    ensures Trim(s) == s
  {
    assert SpaceEnd(s, 0) == 0;
    assert SpaceStart(s, 0, |s|) == |s|;
  }

  /** A single leading space is trimmed off. */
  lemma TrimLeadingSpace(d: string)
    requires d != [] && Trim(d) == d
    ensures Trim(" " + d) == d
  {
    assert (" " + d)[1..] == d;
    assert !IsSpace(d[0]) && !IsSpace(d[|d| - 1]);
    var s := " " + d;
    assert SpaceEnd(s, 1) == 1;
    assert SpaceEnd(s, 0) == 1;
    assert SpaceStart(s, 1, |s|) == |s|;
    assert s[1..|s|] == d;
  }

  /** The variants and the element tags `as` may name. */
  datatype Variant = H1 | H2 | H3 | H4 | H5 | H6 | P | Blockquote | Ul | InlineCode | Lead | Large | Small | Muted | Certificate
  datatype Tag = TagP | TagH1 | TagH2 | TagH3 | TagH4 | TagH5 | TagH6 | TagSpan | TagDiv

  /** The children: plain text, or anything else (elements), which is passed through. */
  datatype Children = Text(text: string) | Elements

  /** What the component renders. */
  datatype Rendered =
    | CertificateDiv(lines: seq<Segment>)    // a div of formatted sentences
    | CertificateChildren                    // a div holding the children as given
    | Glowing(tag: Tag)                      // the element with the neon text shadow
    | Element(tag: Tag)                      // the element with the variant's classes

  /** The certificate variant always renders a `div` whatever `as` says, formatting string
      children; `h4` and `h6` glow; everything else renders the `as` element (default `p`). */
  function Render(variant: Variant, as_: Tag, children: Children): (r: Rendered)
    ensures variant == Certificate <==> r.CertificateDiv? || r.CertificateChildren?
    ensures r.CertificateDiv? <==> variant == Certificate && children.Text?
    ensures r.CertificateDiv? ==> r.lines == FormatCertificateText(children.text)
    ensures r.Glowing? <==> variant == H4 || variant == H6
    ensures r.Glowing? || r.Element? ==> r.tag == as_
  {
    if variant == Certificate then
      if children.Text? then CertificateDiv(FormatCertificateText(children.text)) else CertificateChildren
    else if variant == H6 || variant == H4 then Glowing(as_)
    else Element(as_)
  }
}
