# Portfolio site logic in Dafny

This project models the logic inside the React portfolio site `my-portfolio`: the parts
that compute or update state, not the markup. It covers these pieces:

- the SVG slide-deck viewer and the PDF viewer, each with presentation mode, auto-advance
  and zoom;
- the slideshow's random transition picker and its SVG `viewBox` fix-up;
- the weather particle canvas's bookkeeping;
- the certificate text formatter and the `sx`-to-class mapper;
- the workbook viewer's zoom;
- the dark-mode, weather and theme preferences kept by the header, the home page, the app
  shell and the animated background;
- the desktop and mobile navigation menus, and the route table they lead into.

**How each piece is modelled**

- Components that update state in place are classes. Their fields are the component's state
  (or refs), and there is one method per handler or effect.
- Each method's postcondition ties the new state to a pure step function of the old state.
  The properties the site relies on are proved about those step functions:
  - bounds and invariants that every offered action keeps;
  - tick sequences;
  - idempotence;
  - round trips of URLs and class strings.
- Pure helpers of the source are functions, with contracts that say what the result means.

**How the browser is represented**

- The root element's `classList` is an ordered list of distinct tokens (`Dom.ClassList`).
- `localStorage` is a map (`Dom.Storage`).
- Dispatched window events are a log (`Dom.EventLog`).
- Timers become explicit `Tick` / `AnimateFrame` calls.
- `Math.random()` values are parameters in `[0, 1)` supplied by the caller.
- Zoom levels and particle coordinates are Dafny `real`s.

Shared modules:

- `Strings` holds the JavaScript string built-ins the site uses: `indexOf`, `includes`,
  `startsWith`, `replace` with a string pattern, `trim`, `split`, `join` and decimal printing.
- `Zoom` holds the min/max clamp used by all three document viewers.
- `Themes` holds the four theme classes and the `dark` class.

## Model

| member | source | states |
|---|---|---|
| Strings.IndexOf | src/components/ui/typography.tsx:50 | the result is -1 or an index where the pattern occurs, and no earlier index holds it |
| Strings.OccursAtContains | src/components/SVGSpriteSlideshow.tsx:143 | an occurrence at `i` means `includes` holds and `indexOf` is at most `i` |
| Strings.ContainsMiddle | src/components/SVGSpriteSlideshow.tsx:151 | a pattern inside a middle piece is found in the whole text |
| Strings.ReplaceFirst | src/components/SVGSpriteSlideshow.tsx:151 | `replace` with a string pattern changes only the first occurrence, and returns the text unchanged when there is none |
| Strings.ReplaceLeadingPrefix | src/components/DynamicBackground.tsx:17 | replacing a leading pattern with the empty string strips exactly that prefix |
| Strings.ReplaceFirstInsertsAfter | src/components/SVGSpriteSlideshow.tsx:151 | replacing `p` by `p + q` inserts `q` right after the first `p` and keeps everything else |
| Strings.Trim | src/components/ui/typography.tsx:49 | `trim` gives a contiguous slice with only white space cut off both ends, and the slice neither starts nor ends with white space; white space is ECMAScript's: tab, vertical tab, form feed, the byte-order mark, every Unicode space separator (U+0020, U+00A0, U+1680, U+2000–U+200A, U+202F, U+205F, U+3000) and the line terminators |
| Strings.TrimEmptyIffAllSpace | src/components/ui/typography.tsx:46 | a text trims to empty exactly when every character is white space in that sense |
| Strings.TrimKeepsOut | src/components/ui/typography.tsx:49 | trimming never introduces a character |
| Strings.FirstIndex | src/components/ui/typography.tsx:50 | the first position of a character, or the length when the character is absent, with no earlier occurrence |
| Strings.Split | src/components/ui/typography.tsx:46 | `split` on one character yields at least one piece, and no piece holds the separator |
| Strings.JoinSplit | src/components/ui/typography.tsx:46 | joining the pieces of a split with the separator gives back the text |
| Strings.SplitAtFirst | src/components/ui/typography.tsx:46 | a split yields the piece before the first separator, then the pieces of the rest |
| Strings.JoinCons | src/components/ui/box.tsx:33 | `join` puts exactly one separator between a head piece and the rest |
| Strings.JoinSnoc | src/components/ui/typography.tsx:46 | joining one more piece at the end appends the separator and that piece |
| Strings.SplitJoin | src/components/ui/box.tsx:33 | splitting a join of separator-free pieces gives the pieces back |
| Strings.NatToString | src/components/SVGSpriteViewerModal.tsx:47 | decimal text of a number is non-empty and all digits, with two or more digits exactly from 10 up, and a leading `0` exactly for 0 |
| Strings.DigitsValueOfNatToString | src/components/SVGSpriteViewerModal.tsx:47 | decimal text reads back as the number it was printed from |
| Dom.WithToken | src/App.tsx:53 | `classList.add` makes the token present, keeps every other token, and keeps the list free of duplicates |
| Dom.WithoutTokens | src/App.tsx:45-50 | `classList.remove` drops exactly the named tokens and keeps the others, in order and without duplicates |
| Dom.WithoutAbsentTokens | src/App.tsx:45-50 | removing tokens that are not present changes nothing |
| Dom.WithoutTokensAppend | src/App.tsx:45-50 | removal works token by token: it distributes over concatenation |
| Dom.ClassList.Add | src/App.tsx:53 | the element's token list becomes `WithToken` of the old list and stays duplicate-free |
| Dom.ClassList.Remove | src/App.tsx:45-50 | the element's token list becomes `WithoutTokens` of the old list and stays duplicate-free |
| Dom.Storage.SetItem | src/components/Header.tsx:82 | `localStorage.setItem` updates that key and no other |
| Dom.EventLog.Dispatch | src/components/Header.tsx:84 | a dispatched event is appended to the window's event log |
| Themes.ThemeClassesPrefixed | src/App.tsx:45-50 | the four theme classes all start with `theme-`, the list and the set agree, and `dark` is not a theme class |
| Header.ShouldBeDark | src/components/Header.tsx:36 | a saved `true` means dark, any other non-empty saved value means light, and no saved value follows the system preference |
| Header.Stored | src/components/Header.tsx:63-69 | the stored preference text is never empty, so it is never mistaken for no preference |
| Header.StoredPreferenceWins | src/components/Header.tsx:63-69 | after a toggle stores its choice, the next initialisation reproduces that choice whatever the system prefers |
| Header.WithDark | src/components/Header.tsx:39-43 | the `dark` class is present exactly when dark mode is on, and every other class is kept without duplicates |
| Header.ToggleTwiceRestores | src/components/Header.tsx:56-69 | toggling dark mode twice restores the set of root classes |
| Header.ThemeDisplayName | src/components/Header.tsx:87-100 | each of the four themes gets a non-empty display name that is not itself a theme class; any other text comes back unchanged |
| Header.DisplayNamesDistinct | src/components/Header.tsx:87-100 | different themes get different display names |
| Header.Header.constructor | src/components/Header.tsx:25-27 | the drawer is closed, dark mode is off and the weather is `sunny` |
| Header.Header.Initialize | src/components/Header.tsx:32-50 | dark mode follows `ShouldBeDark` of the saved value, the root `dark` class matches it, and a saved non-empty weather is adopted |
| Header.Header.HandleDrawerToggle | src/components/Header.tsx:52-54 | the drawer flag flips and nothing else changes |
| Header.Header.ToggleLightDark | src/components/Header.tsx:56-69 | dark mode flips, the root class and the stored preference follow it, and the stored value re-reads as the new mode |
| Header.Header.HandleWeatherChange | src/components/Header.tsx:80-85 | the weather is set, stored under `homeWeather` and dispatched as a `weatherChange` event |
| Home.Mounted | src/pages/Home.tsx:11-14 | a non-empty saved weather replaces the current one; otherwise the weather is kept |
| Home.Received | src/pages/Home.tsx:17-26 | a `weatherChange` sets its detail; a storage event changes the weather only for key `homeWeather` with a non-empty new value |
| Home.IgnoredEventsKeepWeather | src/pages/Home.tsx:22-26 | any run of ignored storage events leaves the weather unchanged |
| Home.LastRelevantEventWins | src/pages/Home.tsx:17-26 | after a sequence of events the weather is the one set by the last event that is not ignored |
| Home.StorageAndReloadAgree | src/pages/Home.tsx:11-25 | a weather stored by another tab reaches a live page through the storage event, and a reload from storage gives the same weather |
| Home.Home.constructor | src/pages/Home.tsx:8 | the weather starts as `sunny` |
| Home.Home.Mount | src/pages/Home.tsx:11-14 | the weather becomes `Mounted` of the saved value |
| Home.Home.HandleWeatherChange | src/pages/Home.tsx:17-19 | the weather becomes the event's detail |
| Home.Home.HandleStorageChange | src/pages/Home.tsx:22-26 | the weather changes only for a non-empty `homeWeather` update |
| Home.Home.Listen | src/pages/Home.tsx:28-29 | each event reaches the listener registered for its kind |
| Home.PickWeather | src/components/Header.tsx:80-85 | a pick in the header updates the header's weather, the stored value and the home page's weather in the same tab |
| AppTheme.Unthemed | src/App.tsx:39-42 | the preserved classes are exactly the classes without the `theme-` prefix |
| AppTheme.WithTokens | src/App.tsx:56-58 | re-adding each class in turn leaves the union of both lists, without duplicates |
| AppTheme.WithTokensStep | src/App.tsx:56-58 | the loop's next iteration adds the next class |
| AppTheme.WithPresentTokens | src/App.tsx:56-58 | re-adding classes that are already present changes nothing |
| AppTheme.ReaddIsNoOp | src/App.tsx:55-58 | re-adding the preserved classes after the theme swap changes nothing, because none of them was removed |
| AppTheme.ThemeApplied | src/App.tsx:36-60 | a falsy theme changes nothing; otherwise the theme is present, no other listed theme remains, every other class keeps its presence, and duplicates never arise |
| AppTheme.ThemeAppliedIdempotent | src/App.tsx:36-60 | applying the same theme twice gives the same classes as applying it once |
| AppTheme.DarkSurvivesThemeChange | src/App.tsx:39-58 | a theme change leaves dark mode as it was |
| AppTheme.ApplyTheme | src/App.tsx:36-60 | the root's classes become `ThemeApplied` of the old classes |
| AppTheme.AddEach | src/App.tsx:56-58 | the loop leaves the root with `WithTokens` of its old classes |
| DynamicBackground.ModeOf | src/components/DynamicBackground.tsx:13-16 | the mode is dark exactly when the root holds `dark` |
| DynamicBackground.FirstThemed | src/components/DynamicBackground.tsx:14 | the first class with the `theme-` prefix, with none before it, or the length when there is none |
| DynamicBackground.ThemeSource | src/components/DynamicBackground.tsx:14 | the theme class read is the first `theme-` class of the root, as `find` returns it, or `theme-bold-tech` when the root has none |
| DynamicBackground.DerivedTheme | src/components/DynamicBackground.tsx:17 | the derived theme name is never empty |
| DynamicBackground.DerivedFromLightName | src/components/DynamicBackground.tsx:17 | `theme-<name>` yields `<name>` |
| DynamicBackground.DerivedFromDarkName | src/components/DynamicBackground.tsx:17 | `theme-<name>-dark` also yields `<name>` |
| DynamicBackground.DerivedFromName | src/components/DynamicBackground.tsx:17 | a name without `k` is recovered from its class with or without the `-dark` suffix |
| DynamicBackground.ThemeClassesHaveBackground | src/components/DynamicBackground.tsx:25-46 | every theme class, light or `-dark`, names an entry of the background table |
| DynamicBackground.ThemeBackgrounds | src/components/DynamicBackground.tsx:25-42 | each of the four theme classes selects its own entry |
| DynamicBackground.BoldTechNamed | src/components/DynamicBackground.tsx:26 | `theme-bold-tech`, with or without `-dark`, selects the bold-tech entry |
| DynamicBackground.MidnightBloomNamed | src/components/DynamicBackground.tsx:30 | `theme-midnight-bloom`, with or without `-dark`, selects the midnight-bloom entry |
| DynamicBackground.AmethystHazeNamed | src/components/DynamicBackground.tsx:34 | `theme-amethyst-haze`, with or without `-dark`, selects the amethyst-haze entry |
| DynamicBackground.CatppuccinNamed | src/components/DynamicBackground.tsx:38 | `theme-catppuccin`, with or without `-dark`, selects the catppuccin entry |
| DynamicBackground.BackgroundFollowsTheme | src/components/DynamicBackground.tsx:11-17 | after the app shell applies a theme, the background reads that theme and the unchanged mode |
| DynamicBackground.DynamicBackground.constructor | src/components/DynamicBackground.tsx:7-8 | the state starts as `bold-tech` in `dark` mode |
| DynamicBackground.DynamicBackground.OnClassChange | src/components/DynamicBackground.tsx:11-17 | the observer sets the mode from `dark` and the theme derived from the first `theme-` class |
| Zoom.ZoomIn | src/components/ExcelViewer.tsx:29-31 | a step up never passes the cap, and it is the full step whenever that stays under the cap |
| Zoom.ZoomOut | src/components/ExcelViewer.tsx:33-35 | a step down never passes the floor, and it is the full step whenever that stays above the floor |
| Zoom.StepsKeepRange | src/components/ExcelViewer.tsx:29-35 | both steps keep a level that starts in `[lo, hi]` inside it |
| Zoom.DisabledIffNoEffect | src/components/ExcelViewer.tsx:41-47 | with a positive step, a bound is reached exactly when the step would leave the level unchanged |
| Zoom.ZoomInTimesSaturates | src/components/SVGSpriteViewerModal.tsx:156-158 | `n` zoom-ins give `min(z + n*step, hi)` |
| Zoom.ZoomOutTimesSaturates | src/components/SVGSpriteViewerModal.tsx:160-162 | `n` zoom-outs give `max(z - n*step, lo)` |
| Zoom.TwelveQuarterStepsStopAtMax | src/components/SVGSpriteViewerModal.tsx:156-158 | from 100%, eight quarter steps reach 300%, and every later step stays there |
| ExcelViewer.ButtonsMatchEffect | src/components/ExcelViewer.tsx:29-47 | each button is disabled exactly when pressing it would have no effect, and presses keep the level in range |
| ExcelViewer.DefaultClicks | src/components/ExcelViewer.tsx:21-24 | over exact numbers and with the defaults, ten zoom-ins reach 200% and disable the button, nine reach 190% and leave it enabled, and nine zoom-outs reach 10% |
| ExcelViewer.ExcelViewer.constructor | src/components/ExcelViewer.tsx:21-27 | the level starts at `initialZoom` with the given bounds and step |
| ExcelViewer.ExcelViewer.HandleZoomIn | src/components/ExcelViewer.tsx:29-31 | the level steps up, capped at the maximum, and stays in range if it was |
| ExcelViewer.ExcelViewer.HandleZoomOut | src/components/ExcelViewer.tsx:33-35 | the level steps down, floored at the minimum, and stays in range if it was |
| SlideViewer.StepKeepsInv | src/components/SVGSpriteViewerModal.tsx:88-162 | every action the modal offers keeps the index in the deck, playing only while presenting, and the scale in [50%, 300%] |
| SlideViewer.ToggleNeedsPresenting | src/components/SVGSpriteViewerModal.tsx:152-154 | play/pause outside a presentation would give playing without presenting, which is why it is offered only while presenting |
| SlideViewer.RunKeepsInv | src/components/SVGSpriteViewerModal.tsx:88-162 | the invariant holds after any sequence of offered actions |
| SlideViewer.ResetIsValid | src/components/SVGSpriteViewerModal.tsx:34-39 | the initial and reset state satisfies the invariant |
| SlideViewer.TicksAdvanceThenStop | src/components/SVGSpriteViewerModal.tsx:88-97 | while playing, `k` ticks reach slide `min(i + k, n - 1)`; playback stops on the tick that finds the last slide; the index never wraps |
| SlideViewer.FiveSlideScenario | src/components/SVGSpriteViewerModal.tsx:88-145 | in a five-slide deck, starting plays from slide 0, four ticks reach the last slide, and the fifth tick stops playback there |
| SlideViewer.SlideUrlRoundTrip | src/components/SVGSpriteViewerModal.tsx:47 | the slide file name reads back as the slide number it was built from |
| SlideViewer.SlideRequest | src/components/SVGSpriteViewerModal.tsx:67-72 | a slide is requested exactly when the modal is open, the directory is truthy and the count is positive, and the file is the 1-based number of the current index |
| SlideViewer.SlideViewerModal.constructor | src/components/SVGSpriteViewerModal.tsx:34-39 | the state starts at slide 0, no content, not loading, not presenting, not playing, 100% |
| SlideViewer.SlideViewerModal.GoToPrevSlide | src/components/SVGSpriteViewerModal.tsx:104-108 | the index drops by one only when it is above 0 |
| SlideViewer.SlideViewerModal.GoToNextSlide | src/components/SVGSpriteViewerModal.tsx:110-114 | the index rises only below the last slide, so manual paging never passes it |
| SlideViewer.SlideViewerModal.Tick | src/components/SVGSpriteViewerModal.tsx:87-102 | the interval tick advances while armed, or stops playback at the last slide |
| SlideViewer.SlideViewerModal.StartPresentation | src/components/SVGSpriteViewerModal.tsx:140-145 | presenting and playing start at slide 0 and the scale is kept |
| SlideViewer.SlideViewerModal.StopPresentation | src/components/SVGSpriteViewerModal.tsx:147-150 | both flags are cleared and the index and scale are kept |
| SlideViewer.SlideViewerModal.TogglePlayPause | src/components/SVGSpriteViewerModal.tsx:152-154 | playing flips, and the invariant holds because the modal is presenting |
| SlideViewer.SlideViewerModal.ZoomIn | src/components/SVGSpriteViewerModal.tsx:156-158 | the scale rises by 25%, capped at 300% |
| SlideViewer.SlideViewerModal.ZoomOut | src/components/SVGSpriteViewerModal.tsx:160-162 | the scale falls by 25%, floored at 50% |
| SlideViewer.SlideViewerModal.SetOpen | src/components/SVGSpriteViewerModal.tsx:75-84 | closing the modal restores the initial state; opening it keeps the state |
| SlideViewer.SlideViewerModal.LoadStarted | src/components/SVGSpriteViewerModal.tsx:42-45 | a requested load sets loading and nothing else |
| SlideViewer.SlideViewerModal.LoadFinished | src/components/SVGSpriteViewerModal.tsx:46-63 | the content becomes the fetched text, or the error markup for that slide number, and loading ends |
| PdfViewer.InitialIsValid | src/components/PDFViewerModal.tsx:22-27 | the state before any document loads satisfies the invariant |
| PdfViewer.StepKeepsInv | src/components/PDFViewerModal.tsx:29-196 | every offered action keeps the invariant: the page within the document (0 or 1 before a load), playing only while presenting, presenting only after a request to enter fullscreen with no request to leave since, and the scale in [50%, 300%] |
| PdfViewer.RunKeepsInv | src/components/PDFViewerModal.tsx:29-196 | the invariant holds after any sequence of offered actions |
| PdfViewer.NextBeforeLoadShowsPageZero | src/components/PDFViewerModal.tsx:39-41 | paging forward before the document loads shows page 0; paging back or a load returns to page 1 |
| PdfViewer.KeyBindings | src/components/PDFViewerModal.tsx:166-183 | Space and ArrowRight page forward, keys do nothing while closed, and Escape exits only a presentation |
| PdfViewer.FullscreenLeftIsExit | src/components/PDFViewerModal.tsx:152-159 | the browser leaving fullscreen during a presentation stops it as the exit button does; only the button asks the browser to leave fullscreen |
| PdfViewer.PresentingWithoutFullscreen | src/components/PDFViewerModal.tsx:112-120 | a presentation starts whether or not the browser grants the fullscreen request; if refused, the modal presents and plays outside fullscreen, and a grant changes only the fullscreen flag |
| PdfViewer.TicksAdvanceThenStop | src/components/PDFViewerModal.tsx:136-149 | while playing, `k` ticks reach page `min(p + k, n)`; playback stops on the tick that finds the last page |
| PdfViewer.PdfViewerModal.constructor | src/components/PDFViewerModal.tsx:22-27 | the state starts with no pages, page 1, 100%, loading, not presenting |
| PdfViewer.PdfViewerModal.OnDocumentLoadSuccess | src/components/PDFViewerModal.tsx:29-33 | the page count is set, the page resets to 1 and loading ends |
| PdfViewer.PdfViewerModal.GoToPrevPage | src/components/PDFViewerModal.tsx:35-37 | the page falls by one, floored at 1 |
| PdfViewer.PdfViewerModal.GoToNextPage | src/components/PDFViewerModal.tsx:39-41 | the page rises by one, capped at the page count |
| PdfViewer.PdfViewerModal.ZoomIn | src/components/PDFViewerModal.tsx:43-45 | the scale rises by 20%, capped at 300% |
| PdfViewer.PdfViewerModal.ZoomOut | src/components/PDFViewerModal.tsx:47-49 | the scale falls by 20%, floored at 50% |
| PdfViewer.PdfViewerModal.HandlePresentation | src/components/PDFViewerModal.tsx:112-120 | with fullscreen available, it requests fullscreen and at once presents and plays at 150%, keeping the page; otherwise nothing changes |
| PdfViewer.PdfViewerModal.HandleExitPresentation | src/components/PDFViewerModal.tsx:122-129 | presenting and playing stop, the scale returns to 100%, and leaving fullscreen is requested when in it |
| PdfViewer.PdfViewerModal.TogglePlayPause | src/components/PDFViewerModal.tsx:131-133 | playing flips while presenting |
| PdfViewer.PdfViewerModal.Tick | src/components/PDFViewerModal.tsx:136-149 | the interval tick advances a page while armed, or stops at the last page |
| PdfViewer.PdfViewerModal.HandleFullscreenChange | src/components/PDFViewerModal.tsx:152-159 | the browser's report sets the fullscreen flag, and fullscreen gone ends a presentation |
| PdfViewer.PdfViewerModal.HandleKeyDown | src/components/PDFViewerModal.tsx:166-183 | the key is dispatched as `KeyDown` while the modal is open |
| PdfViewer.PdfViewerModal.HandleClose | src/components/PDFViewerModal.tsx:189-196 | page 1, 100%, loading, not presenting and not playing; the page count stays |
| Transitions.VariantsComplete | src/components/SVGSpriteSlideshow.tsx:44-91 | the table has 29 entries, `random` first and `fade` second, every variant appears, and `random` appears only first |
| Transitions.VariantsDistinct | src/components/SVGSpriteSlideshow.tsx:44-91 | the entries are pairwise distinct |
| Transitions.NamesDistinct | src/components/SVGSpriteSlideshow.tsx:44-91 | two variants have the same name exactly when they are the same variant |
| Transitions.Ordinal | src/components/SVGSpriteSlideshow.tsx:44-91 | each variant has a position in the table, and position 0 is `random` |
| Transitions.Without | src/components/SVGSpriteSlideshow.tsx:117-120 | filtering out one name keeps exactly the other entries, and changes nothing when the name is absent |
| Transitions.WithoutAbsent | src/components/SVGSpriteSlideshow.tsx:117 | filtering `random` off the front of a list without it gives the rest |
| Transitions.AllIsFilter | src/components/SVGSpriteSlideshow.tsx:117 | the animations are the table with `random` filtered out |
| Transitions.InAll | src/components/SVGSpriteSlideshow.tsx:117 | a variant is an animation exactly when it is not `random` |
| Transitions.Draw | src/components/SVGSpriteSlideshow.tsx:126 | `Math.floor(u * n)` for `u` in `[0, 1)` is a valid index |
| Transitions.DrawReaches | src/components/SVGSpriteSlideshow.tsx:126 | every index is drawn by some `u` in `[0, 1)` |
| Transitions.CandidatesExcludeOnlyLast | src/components/SVGSpriteSlideshow.tsx:117-123 | the candidates are never empty, and they are exactly the animations other than the last pick |
| Transitions.Pick | src/components/SVGSpriteSlideshow.tsx:115-131 | a pick is never `random` and never repeats the last pick |
| Transitions.PickReachesEveryOther | src/components/SVGSpriteSlideshow.tsx:115-131 | every animation other than the last pick can be drawn |
| Transitions.InitialTransition | src/components/SVGSpriteSlideshow.tsx:103-111 | the first active transition is never `random`, and it is `fade` unless the mode is random |
| Transitions.InitialValid | src/components/SVGSpriteSlideshow.tsx:103-112 | the mount state satisfies the invariant: the active transition and the last pick are never `random` |
| Transitions.EffectsKeepInv | src/components/SVGSpriteSlideshow.tsx:133-185 | both effects keep the invariant |
| Transitions.RerunIsNoOp | src/components/SVGSpriteSlideshow.tsx:162-185 | the effect's re-run after its own pick, with the same slide and type, changes nothing |
| Transitions.ConsecutiveChangesDiffer | src/components/SVGSpriteSlideshow.tsx:162-173 | in random mode two slide changes in a row show different transitions |
| Transitions.FirstChangeMayRepeatInitial | src/components/SVGSpriteSlideshow.tsx:103-131 | the first slide change can repeat the transition chosen at mount |
| Transitions.NamedModeKeepsLastPick | src/components/SVGSpriteSlideshow.tsx:174-182 | a named type becomes active, clears the flag and keeps the last pick, so a return to random mode picks at once and avoids that pick |
| Transitions.Slideshow.constructor | src/components/SVGSpriteSlideshow.tsx:100-112 | the component's state starts as `Initial` |
| Transitions.Slideshow.OnSlideEffect | src/components/SVGSpriteSlideshow.tsx:162-185 | the slide-change effect updates the state as `SlideEffect` |
| Transitions.Slideshow.OnContentEffect | src/components/SVGSpriteSlideshow.tsx:133-159 | the content effect stores the normalised markup |
| ViewBox.DigitRun | src/components/SVGSpriteSlideshow.tsx:145 | the greedy run of digits at an index: all digits, followed by the end or a non-digit |
| ViewBox.FindMatch | src/components/SVGSpriteSlideshow.tsx:145-146 | the leftmost index at or after `from` where `key="digits"` matches, with no match before it |
| ViewBox.Attr | src/components/SVGSpriteSlideshow.tsx:145-150 | the captured value is the digit run of the leftmost match, non-empty and all digits, and there is none exactly when the pattern matches nowhere |
| ViewBox.InsertedAttr | src/components/SVGSpriteSlideshow.tsx:148-155 | the attribute uses the captured width and height when both match, and `800 600` otherwise |
| ViewBox.Normalize | src/components/SVGSpriteSlideshow.tsx:133-158 | empty content stays empty, and markup without `<svg` or already holding `viewBox=` passes through unchanged |
| ViewBox.InsertedAttrHasViewBox | src/components/SVGSpriteSlideshow.tsx:151-154 | the inserted attribute holds `viewBox=` |
| ViewBox.NormalizeInsertsAfterFirstTag | src/components/SVGSpriteSlideshow.tsx:143-156 | the attribute is inserted right after the first `<svg`, and the result holds `viewBox=` |
| ViewBox.RemovingAttrRestores | src/components/SVGSpriteSlideshow.tsx:151-154 | cutting the inserted attribute back out gives the original markup |
| ViewBox.NormalizeIdempotent | src/components/SVGSpriteSlideshow.tsx:133-158 | normalising twice is the same as normalising once |
| Particles.CreatedParticles | src/components/ui/particle-background.tsx:71-94 | `createParticles(count)` makes none when sunny and otherwise `count` particles of the current weather, starting at y = -20 inside the width, sized 6-12 px for rain (unrotated) or 6-14 px otherwise |
| Particles.MovedInBounds | src/components/ui/particle-background.tsx:158-212 | after its move a particle lies in [-20, width + 20] horizontally and at most 20 px below the canvas, with size and kind kept; a raindrop keeps its rotation and any other particle turns by 0.01 rad |
| Particles.RotationAfterFrames | src/components/ui/particle-background.tsx:210-212 | over `k` frames a snowflake turns by `k` hundredths of a radian and a raindrop not at all |
| Particles.MovedRespawns | src/components/ui/particle-background.tsx:169-175 | a particle that falls more than 20 px below the canvas restarts at y = -20 |
| Particles.MoveAll | src/components/ui/particle-background.tsx:158 | the per-frame move keeps the number of particles |
| Particles.WeatherChangeKeepsInv | src/components/ui/particle-background.tsx:43-52 | a weather change keeps the invariant: an even count of at most six, all of the current weather, and none and no spawning when sunny |
| Particles.SpawnKeepsInv | src/components/ui/particle-background.tsx:137-155 | the spawn block adds exactly two, adds nothing, or clears the list when sunny, and keeps the invariant |
| Particles.FrameKeepsInv | src/components/ui/particle-background.tsx:137-179 | a whole frame keeps the invariant and leaves every particle inside the wrap bounds, without removing any |
| Particles.FirstSpawnAfterTwoSeconds | src/components/ui/particle-background.tsx:43-149 | after a switch to rain, the first frame more than 2000 ms in spawns two rain particles above the canvas and restarts the clock |
| Particles.NoSpawnBeforeTwoSeconds | src/components/ui/particle-background.tsx:146 | a frame at most 2000 ms after the last spawn adds nothing |
| Particles.ParticleBackground.constructor | src/components/ui/particle-background.tsx:43-52 | mounting leaves the state as the weather effect sets it |
| Particles.ParticleBackground.Resize | src/components/ui/particle-background.tsx:62-65 | the canvas size changes and nothing else |
| Particles.ParticleBackground.OnWeatherChange | src/components/ui/particle-background.tsx:43-52 | the weather effect clears the list and restarts or stops spawning |
| Particles.ParticleBackground.CreateParticles | src/components/ui/particle-background.tsx:71-94 | the loop appends `Created` particles to the list |
| Particles.ParticleBackground.AnimateFrame | src/components/ui/particle-background.tsx:137-179 | one `animate` call updates the state as `Frame` |
| Particles.ParticleBackground.SpawnBlock | src/components/ui/particle-background.tsx:137-155 | the spawn block updates the state as `Spawn` |
| Particles.ParticleBackground.MoveParticles | src/components/ui/particle-background.tsx:158-179 | the `forEach` moves every particle in place, in list order |
| Typography.Sentences | src/components/ui/typography.tsx:46 | the sentences hold no period and are never blank; SentencesOfJoin pins which ones they are |
| Typography.NonBlank | src/components/ui/typography.tsx:46 | only non-blank pieces are kept, a list without blanks is kept whole and an all-blank list gives none; NonBlankSingle and NonBlankAppend fix it for every list |
| Typography.NonBlankSingle | src/components/ui/typography.tsx:46 | one piece is kept exactly when it is not blank |
| Typography.NonBlankAppend | src/components/ui/typography.tsx:46 | the filter works piece by piece, keeping the survivors in order |
| Typography.FormatSentence | src/components/ui/typography.tsx:49-66 | a sentence with a colon splits at its first colon into a label ending in that colon and the trimmed rest; one without a colon is shown trimmed |
| Typography.FormatCertificateText | src/components/ui/typography.tsx:44-69 | one segment per sentence, the `k`th formatted from the `k`th sentence |
| Typography.SegmentsHaveNoPeriod | src/components/ui/typography.tsx:44-69 | no shown line is blank or holds a period |
| Typography.SegmentOfSentence | src/components/ui/typography.tsx:49-66 | a non-blank sentence without a period gives a non-blank line without a period |
| Typography.SentencesOfJoin | src/components/ui/typography.tsx:46 | the sentences of period-free pieces joined with periods are exactly the non-blank pieces, in order |
| Typography.SentencesOfTerminated | src/components/ui/typography.tsx:46 | sentences each ending in a period come back one by one: the empty piece after the last period is dropped |
| Typography.CertificateLinesOfJoin | src/components/ui/typography.tsx:44-69 | the certificate shows one line per non-blank piece, in order, each that piece formatted |
| Typography.BlankMiddleDropped | src/components/ui/typography.tsx:46 | a piece of only white space between two periods is dropped, leaving the two sentences around it |
| Typography.UnicodeSpacesTrimmed | src/components/ui/typography.tsx:46-49 | the ideographic space trims to nothing and a leading thin space is trimmed off |
| Typography.LabelledSentenceShownAsWritten | src/components/ui/typography.tsx:50-58 | `Label: description` is shown exactly as written, with the label in bold |
| Typography.Render | src/components/ui/typography.tsx:71-95 | the certificate variant renders a div that formats text children and passes other children through, `h4` and `h6` glow, and the other variants render the `as` element; the certificate div's lines are `FormatCertificateText` of the text |
| Box.ClassFor | src/components/ui/box.tsx:13-32 | `display: flex` gives `flex`, `flexDirection: column` gives `flex-col`, a prefix key gives its prefix followed by the value, and an entry gives no class exactly when none of these applies |
| Box.Tokens | src/components/ui/box.tsx:33 | there are at most as many classes as entries, and none is empty; TokensOfEntry and TokensAppend fix them for every object |
| Box.TokensOfEntry | src/components/ui/box.tsx:11-33 | one entry contributes its class, or nothing when the class is empty |
| Box.TokensOfKnownEntries | src/components/ui/box.tsx:11-33 | when every entry yields a class, the `k`th class is the `k`th entry's |
| Box.TokensAppend | src/components/ui/box.tsx:33 | entries map independently and in order |
| Box.UnknownKeysIgnored | src/components/ui/box.tsx:32 | an entry with an unknown key contributes nothing |
| Box.ClassName | src/components/ui/box.tsx:11-33 | the class string is empty exactly when there is no `sx` or no entry yields a class, and a single class is the string itself |
| Box.FlexColumnExample | src/components/ui/box.tsx:11-33 | `display: flex`, `flexDirection: column`, `gap: 4` and an unknown `color` give `flex flex-col gap-4` |
| Box.ClassNameSplits | src/components/ui/box.tsx:33 | when no value holds a space, the class string splits back into the classes |
| Box.TokensHaveNoSpace | src/components/ui/box.tsx:33 | values without spaces give classes without spaces |
| Box.ClassHasNoSpace | src/components/ui/box.tsx:14-31 | a value without spaces gives a class without spaces |
| Navigation.NavigateAndClose | src/components/MobileNav.tsx:25-28 | navigation goes to the path and then closes the menu |
| Navigation.IsActive | src/components/MobileNav.tsx:30-33 | `/` is active only at `/`; any other entry is active exactly when the current path starts with it |
| Navigation.SectionActiveBelowIt | src/components/DesktopNav.tsx:36-39 | a section entry is active on every page below it |
| ProjectSubmenu.Projects | src/components/ProjectSubmenu.tsx:68 | an unknown category gives no projects; a known one gives its list |
| ProjectSubmenu.KnownCategories | src/components/ProjectSubmenu.tsx:40-62 | exactly `tableau`, `dotnet` and `vb` are known, with 3, 9 and 3 projects |
| ProjectSubmenu.ProjectsDistinct | src/components/ProjectSubmenu.tsx:40-62 | within a category, project ids and routes are distinct |
| ProjectSubmenu.ColumnCount | src/components/ProjectSubmenu.tsx:69 | `dotnet` has 5 columns, and every other category has `min(projects, 5)` |
| ProjectSubmenu.GridColumns | src/components/ProjectSubmenu.tsx:93-99 | counts 1 to 5 are kept, and anything else becomes 5 |
| ProjectSubmenu.GridClass | src/components/ProjectSubmenu.tsx:93-99 | the class is `grid-cols-` followed by the grid column count |
| ProjectSubmenu.CategoryGrids | src/components/ProjectSubmenu.tsx:69-99 | Tableau and VB get 3 columns, .NET gets 5, and an unknown category counts 0 columns and falls back to 5 |
| ProjectSubmenu.ProjectPathParts | src/components/ProjectSubmenu.tsx:88 | a project page is `/<category>/` followed by its route |
| ProjectSubmenu.ProjectPathInjective | src/components/ProjectSubmenu.tsx:88 | different routes in a category lead to different pages |
| ProjectSubmenu.HandleProjectClick | src/components/ProjectSubmenu.tsx:87-90 | a click navigates to the project page and then closes the menu |
| Routes.RoutePathsDistinct | src/App.tsx:68-89 | the route table has 22 distinct paths |
| SiteRoutes.ProjectPathsRegistered | src/App.tsx:69-83 | every project page the submenus build is a registered route |
| SiteRoutes.MenuTargetsRegistered | src/App.tsx:68-89 | the Home entries, the five education links and the resume link are registered routes |
| DesktopNav.Dropdown | src/components/DesktopNav.tsx:72-83 | a non-expandable item has no dropdown; Education and Resume open their submenus; every other expandable item opens the project submenu of its category |
| DesktopNav.MenuDispatch | src/components/DesktopNav.tsx:27-93 | Home navigates, Tableau, .NET and VB/ASP open known project categories, and Education and Resume open their submenus |
| DesktopNav.ToggleSetsOnlyKey | src/components/DesktopNav.tsx:19-21 | a toggle sets its key to the given value and leaves every other key as it was |
| DesktopNav.CloseIdempotent | src/components/DesktopNav.tsx:23-25 | closing a menu leaves it closed, and closing it again changes nothing |
| DesktopNav.DesktopNav.constructor | src/components/DesktopNav.tsx:17 | no menu is open and nothing has been visited |
| DesktopNav.DesktopNav.HandleMenuToggle | src/components/DesktopNav.tsx:19-21 | the key is set to the requested state |
| DesktopNav.DesktopNav.HandleCloseMenu | src/components/DesktopNav.tsx:23-25 | the key is set to closed |
| DesktopNav.DesktopNav.FollowLink | src/components/DesktopNav.tsx:86-93 | a plain entry navigates to its path and leaves the menus alone |
| DesktopNav.DesktopNav.ChooseProject | src/components/DesktopNav.tsx:79-82 | choosing a project visits its page and closes that item's menu |
| MobileNav.Toggled | src/components/MobileNav.tsx:21-23 | the toggled key's openness flips, with an absent key counting as closed, and other keys are kept |
| MobileNav.ToggleTwice | src/components/MobileNav.tsx:22 | toggling twice restores openness, and a key that was absent ends up recorded as closed |
| MobileNav.Section | src/components/MobileNav.tsx:70-83 | at most one submenu appears: Education, Resume, or the projects of an expandable item with a non-empty category |
| MobileNav.SectionDispatch | src/components/MobileNav.tsx:35-83 | Home has no section, Tableau, .NET and VB show known project categories, and Education and Resume show their submenus |
| MobileNav.SectionPathsPrefixFree | src/components/MobileNav.tsx:35-42 | no section path is a prefix of another |
| MobileNav.OneActiveEntry | src/components/MobileNav.tsx:30-61 | on a page below a section exactly that section's entry is highlighted |
| MobileNav.HomeActiveOnlyAtRoot | src/components/MobileNav.tsx:30-61 | at `/` exactly the Home entry is highlighted |
| MobileNav.MobileNav.constructor | src/components/MobileNav.tsx:19 | no menu is open, nothing has been visited and no close has been requested |
| MobileNav.MobileNav.HandleToggle | src/components/MobileNav.tsx:21-23 | the menu map becomes `Toggled` of the old one |
| MobileNav.MobileNav.HandleNavigate | src/components/MobileNav.tsx:25-28 | the path is visited, one close is requested, and the menus are unchanged |

## Left out

- Fetching slides, rendering PDFs, downloading and printing, and injecting the Tableau script
  are I/O. A loaded slide is an input to `SlideViewerModal.LoadFinished`.
- Timers, animation frames, the fullscreen API, event-listener wiring and the mutation
  observer are host scheduling. Each tick, frame, event or observation is an explicit method
  call. Teardown and cancellation are not modelled.
- `Math.random()` is a caller-supplied value in `[0, 1)`.
- Numbers are exact `real`s, so IEEE rounding (for instance of repeated 0.1 zoom steps) is
  not modelled.
- ExcelViewer.DefaultClicks: holds over exact numbers, not the program's doubles. In doubles,
  nine zoom-ins give 1.9000000000000008 and the tenth reaches 2.0, as stated. But nine
  zoom-outs give 0.10000000000000014, which is above the 0.1 minimum. The label then reads
  10% while the zoom-out button stays enabled, and a tenth press is needed to reach 0.1.
- Each particle's movement is computed as the source computes it: gravity, drift, respawn
  velocities, the wrap and the rotation step, over exact numbers. Colours and drawing are not
  modelled.
- Class-string composition through `cn`, tailwind-merge and `cva` (typography's variant
  classes, the components' static classes) is not modelled. `@/lib/utils` is not part of this
  model. `Typography.Render` keeps only the element choice and the certificate formatting.
- The background table's style strings are not modelled; the table keeps only its keys and
  modes. A name outside the table looks up as nothing. The source would read a field of
  `undefined` there, but the model proves that no theme class reaches that case.
- The transition table's animation parameters (opacity, transforms, durations) are not
  modelled, only the names.
- Transitions.SlideEffect: a named transition type is a variant of the `Transition` datatype,
  so the source's "no variant matches the name, keep the active transition" case cannot arise.
- The fallback to the full list in `getRandomTransition` is modelled, but with 28 animations
  it is never taken. `Transitions.CandidatesExcludeOnlyLast` proves that the candidates are
  never empty.
- The ProjectSubmenu staggered `visibleItems` reveal is a timer and is not modelled. The
  projects' titles and images are not modelled either.
- Object-prototype keys of the project table (such as `constructor`) are not modelled. An
  unknown category gives no projects.
- The Education and Resume submenus, desktop and mobile, are static link lists. They appear
  only as link targets in `SiteRoutes.MenuTargetsRegistered`. Their resume download is not
  modelled.
- The mobile project submenu is not part of this model. Its category is carried by
  `MobileNav.Section`.
- The header's theme picker, the system-preference media query and `console.log` are not
  modelled. The system preference is a parameter of `Header.Header.Initialize`.
- Weather is a string, because values read back from storage are not checked against
  `sunny`/`rain`/`snow`.
- `DesktopNav` computes `isActive` but never uses it in its markup. The model keeps it only
  in `Navigation.IsActive`.
- Header.ToggleTwiceRestores: states that the set of root classes is restored, not their
  order. Removing and re-adding `dark` moves it to the end of the list.
- SlideViewer.SlideViewerModal.LoadFinished: a result that arrives after the user has moved
  to another slide is still stored, as in the source, which does not discard stale fetches.
- PdfViewer.PdfViewerModal.HandleClose: does not leave fullscreen, matching the source.
- The fullscreen API is asynchronous. The PDF viewer records its requests to enter and leave
  fullscreen, and the browser's answer arrives as `HandleFullscreenChange`. A refused request
  (the `fullscreenerror` path) is never reported, so `PdfViewer.Inv` promises a pending enter
  request while presenting, not fullscreen itself.
- ExcelViewer.ExcelViewer.constructor: `initialZoom` is not clamped, as in the source.
  `ExcelViewer.ExcelViewer.HandleZoomIn` and `HandleZoomOut` promise the range only when the
  level starts inside it.
- Design observations that the lemmas make visible:
  - the PDF viewer's forward key before a document has loaded shows page 0
    (`PdfViewer.NextBeforeLoadShowsPageZero`);
  - the first random pick may repeat the transition chosen at mount
    (`Transitions.FirstChangeMayRepeatInitial`);
  - the `width="…"` pattern also matches inside attributes such as `stroke-width`
    (`ViewBox.MatchesAt`).
