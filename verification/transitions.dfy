/** The slideshow's choice of transition: the fixed list of named transitions (the first
    one, `random`, is a mode, not an animation), the random pick that avoids the previous
    pick, and the slide-change effect that decides when to pick. `Math.random()` is the
    caller's draw `u` in [0, 1). The processed slide content comes from `ViewBox`. */
module Transitions {
  import opened Options
  import ViewBox

  /** `TransitionType`: the `random` mode and the named animations. */
  datatype Transition =
    | Random | Fade | Crossfade | SmoothBlur
    | PushRight | PushLeft | PushUp | PushDown
    | ZoomIn | ZoomOut | PopUp
    | FlipX | FlipY | CubeTurn | Lift3d
    | WipeRight | WipeVertical | CircleReveal
    | BounceDrop | TiltShift | SwingIn
    | GlitchFade | ScanReveal | Shutter | DataStream
    | DoorOpen | Spiral | SlideAndSkew | FloatAndGlow

  /** The variant at each position of `transitionVariants` (the last one from 28 on). */
  function VariantAt(i: nat): Transition
  {
    if i == 0 then Random
    else if i == 1 then Fade
    else if i == 2 then Crossfade
    else if i == 3 then SmoothBlur
    else if i == 4 then PushRight
    else if i == 5 then PushLeft
    else if i == 6 then PushUp
    else if i == 7 then PushDown
    else if i == 8 then ZoomIn
    else if i == 9 then ZoomOut
    else if i == 10 then PopUp
    else if i == 11 then FlipX
    else if i == 12 then FlipY
    else if i == 13 then CubeTurn
    else if i == 14 then Lift3d
    else if i == 15 then WipeRight
    else if i == 16 then WipeVertical
    else if i == 17 then CircleReveal
    else if i == 18 then BounceDrop
    else if i == 19 then TiltShift
    else if i == 20 then SwingIn
    else if i == 21 then GlitchFade
    else if i == 22 then ScanReveal
    else if i == 23 then Shutter
    else if i == 24 then DataStream
    else if i == 25 then DoorOpen
    else if i == 26 then Spiral
    else if i == 27 then SlideAndSkew
    else FloatAndGlow
  }

  /** The variants from position `i` on. */
  function VariantsFrom(i: nat): (r: seq<Transition>)
    ensures |r| == if i < 29 then 29 - i else 0
    ensures forall k :: 0 <= k < |r| ==> r[k] == VariantAt(i + k)
    decreases 29 - i
  {
    if i >= 29 then [] else [VariantAt(i)] + VariantsFrom(i + 1)
  }

  /** `transitionVariants`, in order. */
  const Variants: seq<Transition> := VariantsFrom(0)

  /** The `name`s of the variants, in the order of `Variants`. */
  const Names: seq<string> := [
    "random", "fade", "crossfade", "smooth-blur",
    "push-right", "push-left", "push-up", "push-down",
    "zoom-in", "zoom-out", "pop-up",
    "flip-x", "flip-y", "cube-turn", "3d-lift",
    "wipe-right", "wipe-vertical", "circle-reveal",
    "bounce-drop", "tilt-shift", "swing-in",
    "glitch-fade", "scan-reveal", "shutter", "data-stream",
    "door-open", "spiral", "slide-and-skew", "float-and-glow"]

  /** The `name` of each variant. */
  function Name(t: Transition): string
  {
    Names[Ordinal(t)]
  }

  /** Every transition is listed, `random` first and only there, then `fade`. */
  lemma VariantsComplete(t: Transition)
    ensures |Variants| == 29 && Variants[0] == Random && Variants[1] == Fade
    ensures t in Variants
    ensures Random !in Variants[1..]
  {
    assert Variants[Ordinal(t)] == t;
    forall i | 1 <= i < 29 ensures Variants[i] != Random {
      OrdinalInverse(i);
    }
  }

  /** Each position's variant has that position as its ordinal. */
  lemma OrdinalInverse(i: nat)
    requires i < 29
    ensures Ordinal(VariantAt(i)) == i
  {
  }

  /** No transition is listed twice. */
  lemma VariantsDistinct()
    ensures forall i, j :: 0 <= i < j < |Variants| ==> Variants[i] != Variants[j]
  {
    forall i, j | 0 <= i < j < |Variants| ensures Variants[i] != Variants[j] {
      OrdinalInverse(i);
      OrdinalInverse(j);
    }
  }

  /** No name is given to two positions. */
  lemma NamesListDistinct()
    ensures |Names| == |Variants|
    ensures forall i, j :: 0 <= i < j < |Names| ==> Names[i] != Names[j]
  {
  }

  /** Names tell variants apart, so finding a variant by its name finds exactly that
      variant. */
  lemma NamesDistinct(t: Transition, t2: Transition)
    ensures Name(t) == Name(t2) <==> t == t2
  {
    NamesListDistinct();
    var i, j := Ordinal(t), Ordinal(t2);
    assert i < j ==> Names[i] != Names[j];
    assert j < i ==> Names[j] != Names[i];
  }

  /** `s.filter(t => t.name !== x)` */
  function Without(s: seq<Transition>, x: Transition): (r: seq<Transition>)
    ensures forall y :: y in r <==> y in s && y != x
    ensures x !in s ==> r == s
    ensures |r| <= |s|
  {
    if s == [] then []
    else if s[0] == x then Without(s[1..], x)
    else [s[0]] + Without(s[1..], x)
  }

  /** The position of each transition in `Variants`. */
  function Ordinal(t: Transition): (i: nat)
    ensures i < 29 && VariantAt(i) == t
    ensures i == 0 <==> t == Random
  {
    match t
    case Random => 0 case Fade => 1 case Crossfade => 2 case SmoothBlur => 3
    case PushRight => 4 case PushLeft => 5 case PushUp => 6 case PushDown => 7
    case ZoomIn => 8 case ZoomOut => 9 case PopUp => 10
    case FlipX => 11 case FlipY => 12 case CubeTurn => 13 case Lift3d => 14
    case WipeRight => 15 case WipeVertical => 16 case CircleReveal => 17
    case BounceDrop => 18 case TiltShift => 19 case SwingIn => 20
    case GlitchFade => 21 case ScanReveal => 22 case Shutter => 23 case DataStream => 24
    case DoorOpen => 25 case Spiral => 26 case SlideAndSkew => 27 case FloatAndGlow => 28
  }

  /** The animations proper: every variant after `random`. */
  const Animations: seq<Transition> := Variants[1..]

  lemma WithoutAbsent(s: seq<Transition>, x: Transition)
    requires x !in s
    ensures Without([x] + s, x) == s
  {
    assert ([x] + s)[1..] == s;
  }

  /** `transitionVariants.filter(t => t.name !== 'random')` is the list of animations. */
  lemma AllIsFilter()
    ensures Without(Variants, Random) == Animations
  {
    VariantsComplete(Random);
    WithoutAbsent(Variants[1..], Random);
    assert Variants == [Random] + Variants[1..];
  }

  /** Exactly the transitions other than `random` are animations. */
  lemma InAll(t: Transition)
    ensures t in Animations <==> t != Random
  {
    VariantsComplete(Random);
    if t != Random {
      assert Animations[Ordinal(t) - 1] == t;
    }
  }

  lemma PositiveProduct(a: real, b: real)
    requires a > 0.0 && b > 0.0
    ensures a * b > 0.0
  {
  }

  /** `Math.floor(u * n)` for a draw `u` in [0, 1): an index below `n`. */
  function Draw(u: real, n: nat): (k: nat)
    requires 0.0 <= u < 1.0 && n > 0
    ensures k < n
  {
    var x := u * n as real;
    PositiveProduct(1.0 - u, n as real);
    assert n as real - x == (1.0 - u) * n as real;
    x.Floor
  }

  /** The draw k/n selects index k: every index can come out. */
  lemma DrawReaches(k: nat, n: nat)
    requires k < n
    ensures var u := k as real / n as real; 0.0 <= u < 1.0 && Draw(u, n) == k
  {
    var u := k as real / n as real;
    assert u * n as real == k as real;
  }

  /** The list the random pick draws from: every animation except the last one used, or
      all of them if that left none. */
  function Candidates(lastUsed: Option<Transition>): (r: seq<Transition>)
  {
    var all := Animations;
    var available := if lastUsed.Some? then Without(all, lastUsed.value) else all;
    if |available| > 0 then available else all
  }

  /** Removing one transition from a list that holds two distinct ones leaves a list that
      is not empty. */
  lemma WithoutKeepsOther(a: seq<Transition>, x: Transition)
    requires Fade in a && Crossfade in a
    ensures |Without(a, x)| > 0
  {
    var other := if x == Fade then Crossfade else Fade;
    assert other in Without(a, x);
  }

  /** The fallback to the full list never happens: whatever was used last, the list holds
      every animation except that one. */
  lemma CandidatesExcludeOnlyLast(lastUsed: Option<Transition>)
    ensures |Candidates(lastUsed)| > 0
    ensures forall t :: t in Candidates(lastUsed) <==> t != Random && lastUsed != Some(t)
  {
    var all := Animations;
    InAll(Fade);
    InAll(Crossfade);
    if lastUsed.Some? {
      WithoutKeepsOther(all, lastUsed.value);
      assert Candidates(lastUsed) == Without(all, lastUsed.value);
    } else {
      assert Candidates(lastUsed) == all;
    }
    forall t
      ensures t in Candidates(lastUsed) <==> t != Random && lastUsed != Some(t)
    {
      InAll(t);
    }
  }

  /** `getRandomTransition`: an animation, never the `random` mode, other than the last one
      used. */
  function Pick(lastUsed: Option<Transition>, u: real): (t: Transition)
    requires 0.0 <= u < 1.0
    ensures t != Random && lastUsed != Some(t)
  {
    CandidatesExcludeOnlyLast(lastUsed);
    var c := Candidates(lastUsed);
    var k := Draw(u, |c|);
    assert c[k] in c;
    c[k]
  }

  /** Every animation other than the last one used can come out of the pick. */
  lemma PickReachesEveryOther(lastUsed: Option<Transition>, t: Transition)
    requires t != Random && lastUsed != Some(t)
    ensures exists u: real :: 0.0 <= u < 1.0 && Pick(lastUsed, u) == t
  {
    CandidatesExcludeOnlyLast(lastUsed);
    var c := Candidates(lastUsed);
    var k :| 0 <= k < |c| && c[k] == t;
    DrawReaches(k, |c|);
    var u := k as real / |c| as real;
    assert Pick(lastUsed, u) == t;
  }

  /** The transition shown first: a random animation in `random` mode, otherwise `fade`
      until the effect selects the requested one. */
  function InitialTransition(transitionType: Transition, u: real): (t: Transition)
    requires 0.0 <= u < 1.0
    ensures t != Random
    ensures transitionType != Random ==> t == Fade
  {
    InAll(Animations[Draw(u, 28)]);
    if transitionType == Random then Animations[Draw(u, 28)] else Fade
  }

  /** The component's state: `previousSlide`, `lastUsedTransition` (`None` for the initial
      empty name), the active transition, the `hasInitializedRandom` flag and the processed
      slide content. */
  datatype Show = Show(
    previousSlide: int,
    lastUsed: Option<Transition>,
    active: Transition,
    initializedRandom: bool,
    processed: string)

  function Initial(currentSlide: int, transitionType: Transition, u: real): Show
    requires 0.0 <= u < 1.0
  {
    Show(currentSlide, None, InitialTransition(transitionType, u), transitionType == Random, "")
  }

  /** The slide-change effect. In `random` mode it picks when the slide changed or no pick
      has been made since entering the mode; for a named type it selects that variant and
      clears the flag. The slide is always recorded. */
  function SlideEffect(s: Show, currentSlide: int, transitionType: Transition, u: real): Show
    requires 0.0 <= u < 1.0
  {
    if transitionType == Random then
      if currentSlide != s.previousSlide || !s.initializedRandom then
        var t := Pick(s.lastUsed, u);
        s.(lastUsed := Some(t), active := t, initializedRandom := true, previousSlide := currentSlide)
      else s.(previousSlide := currentSlide)
    else
      s.(active := transitionType, initializedRandom := false, previousSlide := currentSlide)
  }

  /** The content effect. */
  function ContentEffect(s: Show, svgContent: string): Show
  {
    s.(processed := ViewBox.Normalize(svgContent))
  }

  /** The active transition is an animation, never the `random` mode, and so is the last
      pick if there was one. */
  predicate Inv(s: Show)
  {
    s.active != Random && s.lastUsed != Some(Random)
  }

  lemma InitialValid(currentSlide: int, transitionType: Transition, u: real)
    requires 0.0 <= u < 1.0
    ensures Inv(Initial(currentSlide, transitionType, u))
  {
  }

  lemma EffectsKeepInv(s: Show, currentSlide: int, transitionType: Transition, u: real, svgContent: string)
    requires Inv(s) && 0.0 <= u < 1.0
    ensures Inv(SlideEffect(s, currentSlide, transitionType, u))
    ensures Inv(ContentEffect(s, svgContent))
  {
  }

  /** The effect runs again whenever the pick changes `lastUsedTransition`; that second run,
      with the same slide and type, changes nothing whatever it would have drawn. */
  lemma RerunIsNoOp(s: Show, currentSlide: int, transitionType: Transition, u: real, u2: real)
    requires 0.0 <= u < 1.0 && 0.0 <= u2 < 1.0
    ensures var s1 := SlideEffect(s, currentSlide, transitionType, u);
      SlideEffect(s1, currentSlide, transitionType, u2) == s1
  {
  }

  /** In `random` mode, two slide changes in a row never show the same transition. */
  lemma ConsecutiveChangesDiffer(s: Show, slide1: int, slide2: int, u1: real, u2: real)
    requires 0.0 <= u1 < 1.0 && 0.0 <= u2 < 1.0
    requires slide1 != s.previousSlide && slide2 != slide1
    ensures var s1 := SlideEffect(s, slide1, Random, u1);
      var s2 := SlideEffect(s1, slide2, Random, u2);
      s1.active != s2.active && s2.active != Random
  {
  }

  /** The first slide change can repeat the transition chosen at mount: no pick has been
      recorded yet, so nothing is excluded. Here both are `fade`. */
  lemma FirstChangeMayRepeatInitial()
    ensures var s0 := Initial(0, Random, 0.0);
      s0.active == Fade && SlideEffect(s0, 1, Random, 0.0).active == s0.active
  {
  }

  /** Selecting a named transition keeps the last random pick, so a later return to
      `random` mode still avoids that pick, and picks at once even without a slide change. */
  lemma NamedModeKeepsLastPick(s: Show, currentSlide: int, named: Transition, u: real, u2: real)
    requires 0.0 <= u < 1.0 && 0.0 <= u2 < 1.0 && named != Random
    ensures var s1 := SlideEffect(s, currentSlide, named, u);
      s1.active == named && s1.lastUsed == s.lastUsed && !s1.initializedRandom
      && var s2 := SlideEffect(s1, currentSlide, Random, u2);
         s2.lastUsed == Some(s2.active) && (s.lastUsed.Some? ==> s2.active != s.lastUsed.value)
  {
  }

  /** The slideshow component. */
  class Slideshow {
    var previousSlide: int
    var lastUsedTransition: Option<Transition>
    var activeTransition: Transition
    var hasInitializedRandom: bool
    var processedSvgContent: string

    function State(): Show
      reads this
    {
      Show(previousSlide, lastUsedTransition, activeTransition, hasInitializedRandom, processedSvgContent)
    }

    ghost predicate Valid()
      reads this
    {
      Inv(State())
    }

    constructor (currentSlide: int, transitionType: Transition, u: real)
      requires 0.0 <= u < 1.0
      ensures Valid() && State() == Initial(currentSlide, transitionType, u)
    {
      previousSlide := currentSlide;
      lastUsedTransition := None;
      activeTransition := InitialTransition(transitionType, u);
      hasInitializedRandom := transitionType == Random;
      processedSvgContent := "";
    }

    /** The slide-change effect, with the draw `u` the pick would use. */
    method OnSlideEffect(currentSlide: int, transitionType: Transition, u: real)
      requires Valid() && 0.0 <= u < 1.0
      modifies this
      ensures Valid() && State() == SlideEffect(old(State()), currentSlide, transitionType, u)
    {
      if transitionType == Random {
        var isSlideChange := currentSlide != previousSlide;
        if isSlideChange || !hasInitializedRandom {
          var t := Pick(lastUsedTransition, u);
          lastUsedTransition := Some(t);
          activeTransition := t;
          hasInitializedRandom := true;
        }
      } else {
        activeTransition := transitionType;
        hasInitializedRandom := false;
      }
      previousSlide := currentSlide;
    }

    /** The content effect. */
    method OnContentEffect(svgContent: string)
      requires Valid()
      modifies this
      ensures Valid() && State() == ContentEffect(old(State()), svgContent)
    {
      processedSvgContent := ViewBox.Normalize(svgContent);
    }
  }
}
