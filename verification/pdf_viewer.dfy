/** The PDF viewer modal: page navigation clamped to the document, a clamped zoom, a
    fullscreen presentation mode with a five-second auto-advance, keyboard control while
    the modal is open, and the reset on close. Rendering, download and print are left to
    the browser; the interval timer becomes an explicit `Tick`. The fullscreen API is
    asynchronous: the modal only records its requests to enter or leave fullscreen, and
    whether the document is in fullscreen changes only when the browser reports it. */
module PdfViewer {
  import Zoom

  const ZoomStep: real := 0.2
  const MinScale: real := 0.5
  const MaxScale: real := 3.0
  const PresentationScale: real := 1.5

  /** The requests the modal makes of the fullscreen API. */
  datatype FullscreenRequest = Enter | Exit

  /** The modal's state fields, plus whether the document is in fullscreen and the
      fullscreen requests made so far. */
  datatype Pdf = Pdf(
    numPages: nat,
    page: int,           // pageNumber
    scale: real,
    loading: bool,
    presenting: bool,    // isPresenting
    playing: bool,       // isPlaying
    fullscreen: bool,    // document.fullscreenElement is set
    requests: seq<FullscreenRequest>)

  /** The state before any document has loaded. */
  const Initial: Pdf := Pdf(0, 1, 1.0, true, false, false, false, [])

  datatype Action =
    | Loaded(pages: nat)          // onDocumentLoadSuccess
    | PrevPage | NextPage
    | ZoomIn | ZoomOut
    | Present(fullscreenAvailable: bool)
    | ExitPresentation
    | TogglePlay
    | Tick
    | FullscreenChange(now: bool) // the browser entered or left fullscreen and fired fullscreenchange
    | Key(key: string)
    | Close                       // handleClose

  function DocumentLoaded(v: Pdf, pages: nat): Pdf
  {
    v.(numPages := pages, page := 1, loading := false)
  }

  function Back(v: Pdf): Pdf
  {
    v.(page := if v.page - 1 > 1 then v.page - 1 else 1)
  }

  function Forward(v: Pdf): Pdf
  {
    v.(page := if v.page + 1 < v.numPages then v.page + 1 else v.numPages)
  }

  /** `handlePresentation`: only when the content element can go fullscreen, it asks for
      fullscreen and starts presenting at once, whether or not the request is granted. */
  function Presented(v: Pdf, fullscreenAvailable: bool): Pdf
  {
    if fullscreenAvailable then
      v.(requests := v.requests + [Enter], presenting := true, playing := true, scale := PresentationScale)
    else v
  }

  /** `handleExitPresentation`: asks to leave fullscreen only when in it. */
  function Exited(v: Pdf): Pdf
  {
    v.(requests := if v.fullscreen then v.requests + [Exit] else v.requests,
       presenting := false, playing := false, scale := 1.0)
  }

  /** One firing of the five-second interval, which exists only while playing and
      presenting; on or past the last page it stops playback and stays. */
  function AutoAdvance(v: Pdf): Pdf
  {
    if !(v.playing && v.presenting) then v
    else if v.page >= v.numPages then v.(playing := false)
    else v.(page := v.page + 1)
  }

  /** The browser reports the document now in or out of fullscreen; `handleFullscreenChange`
      ends a presentation when fullscreen is gone. */
  function FullscreenChanged(v: Pdf, now: bool): Pdf
  {
    var w := v.(fullscreen := now);
    if !now && w.presenting then w.(presenting := false, playing := false, scale := 1.0) else w
  }

  /** `handleKeyDown`: ignored while the modal is closed; the right arrow and the space bar
      go forward, the left arrow back, Escape leaves a presentation; other keys do nothing. */
  function KeyDown(v: Pdf, key: string, open: bool): Pdf
  {
    if !open then v
    else if key == "ArrowRight" || key == " " then Forward(v)
    else if key == "ArrowLeft" then Back(v)
    else if key == "Escape" && v.presenting then Exited(v)
    else v
  }

  /** `handleClose`: the page count stays, fullscreen is not left. */
  function Closed(v: Pdf): Pdf
  {
    v.(page := 1, scale := 1.0, loading := true, presenting := false, playing := false)
  }

  function Step(v: Pdf, a: Action, open: bool): Pdf
  {
    match a
    case Loaded(n) => DocumentLoaded(v, n)
    case PrevPage => Back(v)
    case NextPage => Forward(v)
    case ZoomIn => v.(scale := Zoom.ZoomIn(v.scale, ZoomStep, MaxScale))
    case ZoomOut => v.(scale := Zoom.ZoomOut(v.scale, ZoomStep, MinScale))
    case Present(avail) => Presented(v, avail)
    case ExitPresentation => Exited(v)
    case TogglePlay => v.(playing := !v.playing)
    case Tick => AutoAdvance(v)
    case FullscreenChange(now) => FullscreenChanged(v, now)
    case Key(k) => KeyDown(v, k, open)
    case Close => Closed(v)
  }

  /** The buttons on screen: back and forward are disabled at the first and last page,
      zoom and present only outside a presentation, play/pause and exit only inside one.
      Keys, the tick, fullscreen changes, loading and closing are always possible. */
  predicate Offered(v: Pdf, a: Action)
  {
    match a
    case PrevPage => !(v.page <= 1)
    case NextPage => !(v.page >= v.numPages)
    case ZoomIn => !v.presenting
    case ZoomOut => !v.presenting
    case Present(_) => !v.presenting
    case ExitPresentation => v.presenting
    case TogglePlay => v.presenting
    case _ => true
  }

  /** The page lies in the document (page 0 or 1 while no pages are known), playback only
      happens in a presentation, a presentation follows a request to enter fullscreen with
      no request to leave after it, and the scale is in [50%, 300%]. Fullscreen itself is
      not promised: the browser may refuse the request. */
  predicate Inv(v: Pdf)
  {
    (v.numPages >= 1 ==> 1 <= v.page <= v.numPages)
    && (v.numPages == 0 ==> v.page == 0 || v.page == 1)
    && (v.playing ==> v.presenting)
    && (v.presenting ==> |v.requests| >= 1 && v.requests[|v.requests| - 1] == Enter)
    && MinScale <= v.scale <= MaxScale
  }

  lemma InitialIsValid()
    ensures Inv(Initial)
  {
  }

  lemma StepKeepsInv(v: Pdf, a: Action, open: bool)
    requires Inv(v) && Offered(v, a)
    ensures Inv(Step(v, a, open))
  {
    Zoom.StepsKeepRange(v.scale, ZoomStep, MinScale, MaxScale);
  }

  /** Runs user actions; an action whose control is not on screen leaves the state alone. */
  function Run(v: Pdf, acts: seq<Action>, open: bool): Pdf
    decreases |acts|
  {
    if acts == [] then v
    else Run(if Offered(v, acts[0]) then Step(v, acts[0], open) else v, acts[1..], open)
  }

  lemma {:induction false} RunKeepsInv(v: Pdf, acts: seq<Action>, open: bool)
    requires Inv(v)
    ensures Inv(Run(v, acts, open))
    decreases |acts|
  {
    if acts != [] {
      if Offered(v, acts[0]) {
        StepKeepsInv(v, acts[0], open);
      }
      RunKeepsInv(if Offered(v, acts[0]) then Step(v, acts[0], open) else v, acts[1..], open);
    }
  }

  /** Forward before the document has loaded shows page 0 of 0; back returns to page 1. */
  lemma NextBeforeLoadShowsPageZero()
    ensures KeyDown(Initial, " ", true).page == 0
    ensures Back(KeyDown(Initial, " ", true)).page == 1
    ensures DocumentLoaded(KeyDown(Initial, " ", true), 3).page == 1
  {
  }

  /** The space bar and the right arrow are the same key; keys are inert while closed, and
      Escape does nothing outside a presentation. */
  lemma KeyBindings(v: Pdf, key: string)
    ensures KeyDown(v, " ", true) == KeyDown(v, "ArrowRight", true) == Forward(v)
    ensures KeyDown(v, key, false) == v
    ensures !v.presenting ==> KeyDown(v, "Escape", true) == v
    ensures v.presenting ==> KeyDown(v, "Escape", true) == Exited(v)
  {
  }

  /** Leaving fullscreen by any route during a presentation stops it just as the exit
      button does; only the exit button asks the browser to leave fullscreen. */
  lemma FullscreenLeftIsExit(v: Pdf)
    requires v.presenting
    ensures FullscreenChanged(v, false) == Exited(v).(fullscreen := false, requests := v.requests)
    ensures v.fullscreen ==> Exited(v).requests == v.requests + [Exit]
  {
  }

  /** A presentation starts whether or not the browser grants fullscreen: when it refuses,
      the modal presents and plays outside fullscreen until Escape or the exit button; when
      it grants, nothing but the fullscreen flag changes. */
  lemma PresentingWithoutFullscreen(v: Pdf)
    requires Inv(v) && !v.presenting && !v.fullscreen
    ensures var w := Presented(v, true);
      w.presenting && w.playing && !w.fullscreen && Inv(w)
      && FullscreenChanged(w, true) == w.(fullscreen := true)
  {
  }

  function Ticks(v: Pdf, k: nat): Pdf
  {
    if k == 0 then v else AutoAdvance(Ticks(v, k - 1))
  }

  /** From page `p` of `n` while playing, `k` ticks reach page min(p + k, n); playback stops
      on the tick that finds the last page. */
  lemma {:induction false} TicksAdvanceThenStop(v: Pdf, k: nat)
    requires 1 <= v.page <= v.numPages && v.playing && v.presenting
    ensures var w := Ticks(v, k);
      w.page == (if v.page + k < v.numPages then v.page + k else v.numPages)
      && w.playing == (k <= v.numPages - v.page)
      && w.presenting && w.scale == v.scale && w.numPages == v.numPages
  {
    if k > 0 {
      TicksAdvanceThenStop(v, k - 1);
    }
  }

  /** The modal. `open` is the parent's property. */
  class PdfViewerModal {
    var open: bool
    var numPages: nat
    var pageNumber: int
    var scale: real
    var loading: bool
    var isPresenting: bool
    var isPlaying: bool
    var fullscreen: bool
    var requests: seq<FullscreenRequest>

    function State(): Pdf
      reads this
    {
      Pdf(numPages, pageNumber, scale, loading, isPresenting, isPlaying, fullscreen, requests)
    }

    ghost predicate Valid()
      reads this
    {
      Inv(State())
    }

    constructor (open: bool)
      ensures Valid() && State() == Initial && this.open == open
    {
      this.open := open;
      numPages, pageNumber, scale, loading := 0, 1, 1.0, true;
      isPresenting, isPlaying, fullscreen := false, false, false;
      requests := [];
    }

    method OnDocumentLoadSuccess(pages: nat)
      requires Valid()
      modifies this
      ensures Valid() && State() == DocumentLoaded(old(State()), pages) && open == old(open)
    {
      numPages := pages;
      pageNumber := 1;
      loading := false;
    }

    /** `goToPrevPage`, reachable from the button and from the left arrow. */
    method GoToPrevPage()
      requires Valid()
      modifies this
      ensures Valid() && State() == Back(old(State())) && open == old(open)
    {
      pageNumber := if pageNumber - 1 > 1 then pageNumber - 1 else 1;
    }

    /** `goToNextPage`; from the keyboard it may run before the document has loaded. */
    method GoToNextPage()
      requires Valid()
      modifies this
      ensures Valid() && State() == Forward(old(State())) && open == old(open)
    {
      pageNumber := if pageNumber + 1 < numPages then pageNumber + 1 else numPages;
    }

    method ZoomIn()
      requires Valid() && !isPresenting
      modifies this
      ensures Valid() && State() == Step(old(State()), Action.ZoomIn, open) && open == old(open)
    {
      Zoom.StepsKeepRange(scale, ZoomStep, MinScale, MaxScale);
      scale := Zoom.ZoomIn(scale, ZoomStep, MaxScale);
    }

    method ZoomOut()
      requires Valid() && !isPresenting
      modifies this
      ensures Valid() && State() == Step(old(State()), Action.ZoomOut, open) && open == old(open)
    {
      Zoom.StepsKeepRange(scale, ZoomStep, MinScale, MaxScale);
      scale := Zoom.ZoomOut(scale, ZoomStep, MinScale);
    }

    method HandlePresentation(fullscreenAvailable: bool)
      requires Valid() && !isPresenting
      modifies this
      ensures Valid() && State() == Presented(old(State()), fullscreenAvailable) && open == old(open)
    {
      if fullscreenAvailable {
        requests := requests + [Enter];
        isPresenting := true;
        isPlaying := true;
        scale := PresentationScale;
      }
    }

    method HandleExitPresentation()
      requires Valid()
      modifies this
      ensures Valid() && State() == Exited(old(State())) && open == old(open)
    {
      if fullscreen {
        requests := requests + [Exit];
      }
      isPresenting := false;
      isPlaying := false;
      scale := 1.0;
    }

    method TogglePlayPause()
      requires Valid() && isPresenting
      modifies this
      ensures Valid() && State() == Step(old(State()), TogglePlay, open) && open == old(open)
    {
      isPlaying := !isPlaying;
    }

    method Tick()
      requires Valid()
      modifies this
      ensures Valid() && State() == AutoAdvance(old(State())) && open == old(open)
    {
      if isPlaying && isPresenting {
        if pageNumber >= numPages {
          isPlaying := false;
        } else {
          pageNumber := pageNumber + 1;
        }
      }
    }

    /** The browser's `fullscreenchange` event, with the document now in fullscreen or not. */
    method HandleFullscreenChange(now: bool)
      requires Valid()
      modifies this
      ensures Valid() && State() == FullscreenChanged(old(State()), now) && open == old(open)
    {
      fullscreen := now;
      if !now && isPresenting {
        isPresenting := false;
        isPlaying := false;
        scale := 1.0;
      }
    }

    method HandleKeyDown(key: string)
      requires Valid()
      modifies this
      ensures Valid() && State() == KeyDown(old(State()), key, open) && open == old(open)
    {
      if !open {
        return;
      }
      if key == "ArrowRight" || key == " " {
        GoToNextPage();
      } else if key == "ArrowLeft" {
        GoToPrevPage();
      } else if key == "Escape" && isPresenting {
        HandleExitPresentation();
      }
    }

    method HandleClose()
      requires Valid()
      modifies this
      ensures Valid() && State() == Closed(old(State())) && open == old(open)
    {
      pageNumber := 1;
      scale := 1.0;
      loading := true;
      isPresenting := false;
      isPlaying := false;
    }
  }
}
