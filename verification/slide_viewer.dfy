/** The SVG slide-deck viewer modal: a slide index bounded by the deck length, a
    presentation mode with a ten-second auto-advance, a clamped zoom, a reset when the modal
    closes, and the per-slide file it asks the loader for. The interval timer becomes an
    explicit `Tick` call; the fetch becomes a request value and a completion call. */
module SlideViewer {
  import opened Options
  import opened Strings
  import Zoom

  const ZoomStep: real := 0.25
  const MinScale: real := 0.5
  const MaxScale: real := 3.0

  /** The modal's state fields. */
  datatype Viewer = Viewer(
    index: int,          // currentSlideIndex (0-based)
    content: string,     // currentSlideContent
    loading: bool,
    presenting: bool,    // isPresenting
    playing: bool,       // isPlaying
    scale: real)

  /** The initial state, and the state the close effect restores. */
  const Reset: Viewer := Viewer(0, "", false, false, false, 1.0)

  /** The user actions the modal offers, the interval tick and closing the modal.
      `slideCount` is 0 when the property is absent; both are falsy in the source. */
  datatype Action = Prev | Next | Start | Stop | TogglePlay | ZoomIn | ZoomOut | Tick | Close

  function PrevSlide(v: Viewer): Viewer
  {
    if v.index > 0 then v.(index := v.index - 1) else v
  }

  function NextSlide(v: Viewer, slideCount: nat): Viewer
  {
    if slideCount > 0 && v.index < slideCount - 1 then v.(index := v.index + 1) else v
  }

  /** The interval is armed only while playing, presenting and the count is truthy. */
  predicate TickArmed(v: Viewer, slideCount: nat)
  {
    v.playing && v.presenting && slideCount > 0
  }

  /** One firing of the ten-second interval; nothing fires when it is not armed. */
  function AutoAdvance(v: Viewer, slideCount: nat): Viewer
  {
    if !TickArmed(v, slideCount) then v
    else if v.index >= slideCount - 1 then v.(playing := false)
    else v.(index := v.index + 1)
  }

  function Presented(v: Viewer): Viewer
  {
    v.(presenting := true, playing := true, index := 0)
  }

  function Stopped(v: Viewer): Viewer
  {
    v.(presenting := false, playing := false)
  }

  function Toggled(v: Viewer): Viewer
  {
    v.(playing := !v.playing)
  }

  function Step(v: Viewer, a: Action, slideCount: nat): Viewer
  {
    match a
    case Prev => PrevSlide(v)
    case Next => NextSlide(v, slideCount)
    case Start => Presented(v)
    case Stop => Stopped(v)
    case TogglePlay => Toggled(v)
    case ZoomIn => v.(scale := Zoom.ZoomIn(v.scale, ZoomStep, MaxScale))
    case ZoomOut => v.(scale := Zoom.ZoomOut(v.scale, ZoomStep, MinScale))
    case Tick => AutoAdvance(v, slideCount)
    case Close => Reset
  }

  /** Which controls are on screen: slide navigation only while not presenting, the
      play/pause and exit buttons only while presenting, the present button only while not
      presenting; zoom, the tick and closing are always possible. */
  predicate Offered(v: Viewer, a: Action)
  {
    match a
    case Prev => !v.presenting
    case Next => !v.presenting
    case Start => !v.presenting
    case Stop => v.presenting
    case TogglePlay => v.presenting
    case _ => true
  }

  /** The state every reachable configuration satisfies: the index lies in the deck
      (0 for an empty deck), playing implies presenting, and the scale is in [50%, 300%]. */
  predicate Inv(v: Viewer, slideCount: nat)
  {
    0 <= v.index && (slideCount == 0 ==> v.index == 0) && (slideCount > 0 ==> v.index < slideCount)
    && (v.playing ==> v.presenting)
    && MinScale <= v.scale <= MaxScale
  }

  /** Every offered action keeps the invariant. */
  lemma StepKeepsInv(v: Viewer, a: Action, slideCount: nat)
    requires Inv(v, slideCount) && Offered(v, a)
    ensures Inv(Step(v, a, slideCount), slideCount)
  {
    Zoom.StepsKeepRange(v.scale, ZoomStep, MinScale, MaxScale);
  }

  /** Play/pause is only safe because it is offered only while presenting: pressing it
      outside a presentation would play without presenting. */
  lemma ToggleNeedsPresenting()
    ensures var w := Toggled(Reset); w.playing && !w.presenting
  {
  }

  /** Runs a sequence of user actions; an action whose control is not on screen cannot be
      performed and leaves the state alone. */
  function Run(v: Viewer, acts: seq<Action>, slideCount: nat): Viewer
    decreases |acts|
  {
    if acts == [] then v
    else
      var w := if Offered(v, acts[0]) then Step(v, acts[0], slideCount) else v;
      Run(w, acts[1..], slideCount)
  }

  /** Any sequence of actions from the initial state keeps the index in the deck,
      playing implies presenting, and the scale in range. */
  lemma {:induction false} RunKeepsInv(v: Viewer, acts: seq<Action>, slideCount: nat)
    requires Inv(v, slideCount)
    ensures Inv(Run(v, acts, slideCount), slideCount)
    decreases |acts|
  {
    if acts != [] {
      var w := if Offered(v, acts[0]) then Step(v, acts[0], slideCount) else v;
      if Offered(v, acts[0]) {
        StepKeepsInv(v, acts[0], slideCount);
      }
      RunKeepsInv(w, acts[1..], slideCount);
    }
  }

  lemma ResetIsValid(slideCount: nat)
    ensures Inv(Reset, slideCount)
  {
  }

  /** `k` firings of the interval. */
  function Ticks(v: Viewer, k: nat, slideCount: nat): Viewer
  {
    if k == 0 then v else AutoAdvance(Ticks(v, k - 1, slideCount), slideCount)
  }

  /** From slide `i` while playing, `k` ticks reach slide min(i + k, n - 1); playback stops
      on the tick that finds the last slide, and the index never wraps. */
  lemma {:induction false} TicksAdvanceThenStop(v: Viewer, k: nat, slideCount: nat)
    requires slideCount > 0 && 0 <= v.index < slideCount && v.playing && v.presenting
    ensures var w := Ticks(v, k, slideCount);
      w.index == (if v.index + k < slideCount then v.index + k else slideCount - 1)
      && w.playing == (k <= slideCount - 1 - v.index)
      && w.presenting && w.scale == v.scale && w.content == v.content
  {
    if k > 0 {
      TicksAdvanceThenStop(v, k - 1, slideCount);
    }
  }

  /** A five-slide deck: after starting, four ticks reach the last slide still playing, and
      the fifth leaves the index there and stops playback. */
  lemma FiveSlideScenario(v: Viewer)
    ensures var s := Presented(v);
      s.index == 0 && s.playing && s.presenting
      && Ticks(s, 1, 5).index == 1
      && Ticks(s, 4, 5).index == 4 && Ticks(s, 4, 5).playing
      && Ticks(s, 5, 5).index == 4 && !Ticks(s, 5, 5).playing
  {
    var s := Presented(v);
    TicksAdvanceThenStop(s, 1, 5);
    TicksAdvanceThenStop(s, 4, 5);
    TicksAdvanceThenStop(s, 5, 5);
  }

  /** The per-slide file: `${slideDirectory}/Slide${number}.SVG`. */
  function SlideUrl(directory: string, number: nat): string
  {
    directory + "/Slide" + NatToString(number) + ".SVG"
  }

  /** Reads a slide file name back: the slide number when `url` has the shape `SlideUrl`
      produces for `directory`. */
  function ParseSlideUrl(directory: string, url: string): Option<nat>
  {
    var head := directory + "/Slide";
    if |url| < |head| + 4 || url[..|head|] != head || url[|url| - 4..] != ".SVG" then None
    else
      var digits := url[|head|..|url| - 4];
      if digits != [] && AllDigits(digits) then Some(DigitsValue(digits)) else None
  }

  /** A slide file name reads back as the slide number it was built from. */
  lemma SlideUrlRoundTrip(directory: string, number: nat)
    ensures ParseSlideUrl(directory, SlideUrl(directory, number)) == Some(number)
  {
    var head := directory + "/Slide";
    var digits := NatToString(number);
    var url := SlideUrl(directory, number);
    assert url == head + digits + ".SVG";
    assert url[..|head|] == head;
    assert url[|url| - 4..] == ".SVG";
    assert url[|head|..|url| - 4] == digits;
    DigitsValueOfNatToString(number);
  }

  /** The slide the load effect asks for: only when the modal is open, the directory is
      truthy and the count is positive; slide files are numbered from 1. */
  function SlideRequest(open: bool, slideDirectory: Option<string>, slideCount: nat, v: Viewer): (r: Option<string>)
    requires v.index >= 0
    ensures r.Some? <==> open && Truthy(slideDirectory) && slideCount > 0
    ensures r.Some? ==> ParseSlideUrl(slideDirectory.value, r.value) == Some(v.index + 1)
  {
    if open && Truthy(slideDirectory) && slideCount > 0 then
      SlideUrlRoundTrip(slideDirectory.value, v.index + 1);
      Some(SlideUrl(slideDirectory.value, v.index + 1))
    else None
  }

  /** What the loader delivers for one slide. */
  datatype FetchResult = Loaded(text: string) | Failed

  /** The markup shown in place of a slide that could not be loaded. */
  function ErrorMarkup(number: nat): string
  {
    "<div style=\"color: red; padding: 20px; text-align: center;\">Error loading slide "
    + NatToString(number) + "</div>"
  }

  /** The modal. Its properties are `open` (changed by the parent), `slideDirectory` and
      `slideCount`; its state is the `Viewer` fields. */
  class SlideViewerModal {
    var open: bool
    const slideDirectory: Option<string>
    const slideCount: nat
    var currentSlideIndex: int
    var currentSlideContent: string
    var loading: bool
    var isPresenting: bool
    var isPlaying: bool
    var scale: real

    function State(): Viewer
      reads this
    {
      Viewer(currentSlideIndex, currentSlideContent, loading, isPresenting, isPlaying, scale)
    }

    ghost predicate Valid()
      reads this
    {
      Inv(State(), slideCount)
    }

    constructor (open: bool, slideDirectory: Option<string>, slideCount: nat)
      ensures Valid() && State() == Reset
      ensures this.open == open && this.slideDirectory == slideDirectory && this.slideCount == slideCount
    {
      this.open := open;
      this.slideDirectory := slideDirectory;
      this.slideCount := slideCount;
      currentSlideIndex, currentSlideContent, loading := 0, "", false;
      isPresenting, isPlaying, scale := false, false, 1.0;
    }

    /** Assigns every state field from a snapshot. */
    method SetState(v: Viewer)
      modifies this
      ensures State() == v && open == old(open)
    {
      currentSlideIndex, currentSlideContent, loading := v.index, v.content, v.loading;
      isPresenting, isPlaying, scale := v.presenting, v.playing, v.scale;
    }

    /** `goToPrevSlide`: one back when not on the first slide, otherwise nothing. */
    method GoToPrevSlide()
      requires Valid() && !isPresenting
      modifies this
      ensures Valid() && State() == PrevSlide(old(State())) && open == old(open)
      ensures currentSlideIndex == if old(currentSlideIndex) > 0 then old(currentSlideIndex) - 1 else old(currentSlideIndex)
    {
      if currentSlideIndex > 0 {
        currentSlideIndex := currentSlideIndex - 1;
      }
    }

    /** `goToNextSlide`: one forward when the count is set and not on the last slide. */
    method GoToNextSlide()
      requires Valid() && !isPresenting
      modifies this
      ensures Valid() && State() == NextSlide(old(State()), slideCount) && open == old(open)
      ensures slideCount > 0 ==> currentSlideIndex <= slideCount - 1
    {
      if slideCount > 0 && currentSlideIndex < slideCount - 1 {
        currentSlideIndex := currentSlideIndex + 1;
      }
    }

    /** One firing of the auto-advance interval (the interval exists only while armed). */
    method Tick()
      requires Valid()
      modifies this
      ensures Valid() && State() == AutoAdvance(old(State()), slideCount) && open == old(open)
    {
      if isPlaying && isPresenting && slideCount > 0 {
        if currentSlideIndex >= slideCount - 1 {
          isPlaying := false;
        } else {
          currentSlideIndex := currentSlideIndex + 1;
        }
      }
    }

    method StartPresentation()
      requires Valid() && !isPresenting
      modifies this
      ensures Valid() && State() == Presented(old(State())) && open == old(open)
      ensures isPresenting && isPlaying && currentSlideIndex == 0 && scale == old(scale)
    {
      isPresenting := true;
      isPlaying := true;
      currentSlideIndex := 0;
    }

    method StopPresentation()
      requires Valid() && isPresenting
      modifies this
      ensures Valid() && State() == Stopped(old(State())) && open == old(open)
      ensures !isPresenting && !isPlaying
      ensures currentSlideIndex == old(currentSlideIndex) && scale == old(scale)
    {
      isPresenting := false;
      isPlaying := false;
    }

    method TogglePlayPause()
      requires Valid() && isPresenting
      modifies this
      ensures Valid() && State() == Toggled(old(State())) && open == old(open)
    {
      isPlaying := !isPlaying;
    }

    method ZoomIn()
      requires Valid()
      modifies this
      ensures Valid() && State() == Step(old(State()), Action.ZoomIn, slideCount) && open == old(open)
    {
      Zoom.StepsKeepRange(scale, ZoomStep, MinScale, MaxScale);
      scale := Zoom.ZoomIn(scale, ZoomStep, MaxScale);
    }

    method ZoomOut()
      requires Valid()
      modifies this
      ensures Valid() && State() == Step(old(State()), Action.ZoomOut, slideCount) && open == old(open)
    {
      Zoom.StepsKeepRange(scale, ZoomStep, MinScale, MaxScale);
      scale := Zoom.ZoomOut(scale, ZoomStep, MinScale);
    }

    /** The parent changes `open`; the close effect resets every state field. */
    method SetOpen(nowOpen: bool)
      requires Valid()
      modifies this
      ensures Valid() && open == nowOpen
      ensures State() == if nowOpen then old(State()) else Reset
    {
      open := nowOpen;
      if !nowOpen {
        SetState(Reset);
      }
    }

    /** The load effect: the slide URL it fetches, if any. */
    function RequestedSlide(): Option<string>
      reads this
      requires Valid()
    {
      SlideRequest(open, slideDirectory, slideCount, State())
    }

    /** `loadSlide` begins: loading is shown. */
    method LoadStarted()
      requires Valid() && RequestedSlide().Some?
      modifies this
      ensures Valid() && State() == old(State()).(loading := true) && open == old(open)
    {
      loading := true;
    }

    /** `loadSlide` finishes for slide `number`: the text, or the error markup when the fetch
        failed. A result for a slide the user has since left is not discarded. */
    method LoadFinished(number: nat, result: FetchResult)
      requires Valid()
      modifies this
      ensures Valid() && open == old(open)
      ensures State() == old(State()).(loading := false,
        content := if result.Loaded? then result.text else ErrorMarkup(number))
    {
      currentSlideContent := if result.Loaded? then result.text else ErrorMarkup(number);
      loading := false;
    }
  }
}
