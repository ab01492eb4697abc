/** The graph carousel of the CO2 page (src/pages/Co2.jsx): the slide index
    with its wrap-around `go`, and the `useSwipe` gesture hook that turns a
    horizontal drag into at most one left or right callback per press. */
module Co2Page {
  import opened Options

  /** `titles.length`: real-time, daily and monthly graphs. */
  const SlideCount: int := 3

  /** The hook's default `threshold`, in pixels. */
  const DefaultThreshold: int := 40

  function Abs(x: int): (r: int)
    ensures r >= 0 && (r == x || r == -x)
  {
    if x < 0 then -x else x
  }

  /** JavaScript's `a % n`: the remainder of division truncated toward zero,
      which takes the sign of `a` (Dafny's own `%` never goes negative). */
  function JsRem(a: int, n: int): (r: int)
    requires n > 0
    ensures -n < r < n
    ensures a >= 0 ==> r >= 0
    ensures a <= 0 ==> r <= 0
    ensures (a - r) % n == 0
  {
    if a >= 0 then
      assert a - a % n == (a / n) * n;
      ModOfMultiple(a / n, n);
      a % n
    else
      var q, m := (-a) / n, (-a) % n;
      assert a - -m == (-q) * n;
      ModOfMultiple(-q, n);
      -m
  }

  /** The index `go(i)` selects: `((i % n) + n) % n` with JavaScript's `%`.
      Whatever the sign of `i`, it lands in `[0, n)` and agrees with the
      mathematical (Euclidean) residue of `i`. */
  function Wrap(i: int, n: int): (r: int)
    requires n > 0
    ensures 0 <= r < n
    ensures r == i % n
  {
    var t := JsRem(i, n);
    WrapResidue(i, t, n);
    JsRem(t + n, n)
  }

  /** Adding `n` to a value congruent to `i` and reducing gives `i`'s residue. */
  lemma WrapResidue(i: int, t: int, n: int)
    requires n > 0 && -n < t < n && (i - t) % n == 0
    ensures (t + n) % n == i % n
  {
    var k := (i - t) / n;
    assert i - t == k * n;
    assert t + n == i + (1 - k) * n;
    ModAddMultiple(i, 1 - k, n);
  }

  lemma ModAddMultiple(a: int, k: int, n: int)
    requires n > 0
    ensures (a + k * n) % n == a % n
  {
    var q, r := a / n, a % n;
    assert a + k * n == (q + k) * n + r;
    DivModUnique(a + k * n, q + k, r, n);
  }

  lemma ModOfMultiple(k: int, n: int)
    requires n > 0
    ensures (k * n) % n == 0
  {
    DivModUnique(k * n, k, 0, n);
  }

  /** Quotient and remainder are the only pair with `0 <= r < n`. */
  lemma DivModUnique(a: int, q: int, r: int, n: int)
    requires n > 0 && 0 <= r < n && a == q * n + r
    ensures a / n == q && a % n == r
  {
    var q0, r0 := a / n, a % n;
    assert (q - q0) * n == r0 - r;
    if q > q0 {
      MulAtLeast(q - q0, n);
    } else if q < q0 {
      assert (q0 - q) * n == r - r0;
      MulAtLeast(q0 - q, n);
    }
  }

  lemma MulAtLeast(x: int, n: int)
    requires x >= 1 && n > 0
    ensures x * n >= n
  {
    assert x * n == (x - 1) * n + n;
  }

  /** `go` is the identity on valid indices, so a dot click at `i` selects slide `i`. */
  lemma WrapIdentityOnRange(i: int)
    requires 0 <= i < SlideCount
    ensures Wrap(i, SlideCount) == i
  {
  }

  /** The two wrap-arounds the carousel relies on. */
  lemma WrapEnds()
    ensures Wrap(SlideCount, SlideCount) == 0
    ensures Wrap(-1, SlideCount) == SlideCount - 1
  {
  }

  /** A left swipe followed by a right swipe (or the reverse) restores the index. */
  lemma LeftRightInverse(idx: int)
    requires 0 <= idx < SlideCount
    ensures Wrap(Wrap(idx + 1, SlideCount) - 1, SlideCount) == idx
    ensures Wrap(Wrap(idx - 1, SlideCount) + 1, SlideCount) == idx
  {
  }

  // ---------------------------------------------------------------------
  // The swipe gesture, as a pure state machine
  // ---------------------------------------------------------------------

  /** What one pointer move fires: nothing, `onLeft` or `onRight`. */
  datatype Gesture = NoSwipe | SwipeLeft | SwipeRight

  /** The hook's two refs: `startX` (null between presses) and `isDown`. */
  datatype SwipeState = SwipeState(startX: Option<int>, isDown: bool)

  /** The pointer events the hook is bound to: touch/mouse down, move, and
      up / leave / touch end. */
  datatype PointerEvent = Press(x: int) | Drag(x: int) | Release

  /** Which callback a horizontal travel `dx` fires: none unless `|dx|`
      exceeds the threshold strictly, then `onLeft` for a leftward travel and
      `onRight` otherwise. */
  function Decide(dx: int, threshold: int): (g: Gesture)
    ensures g == NoSwipe <==> Abs(dx) <= threshold
    ensures g == SwipeLeft <==> Abs(dx) > threshold && dx < 0
    ensures g == SwipeRight <==> Abs(dx) > threshold && dx >= 0
  {
    if Abs(dx) > threshold then (if dx < 0 then SwipeLeft else SwipeRight)
    else NoSwipe
  }

  /** One event of `useSwipe`: `start`, `move` or `end`, with what it fires. */
  function Step(s: SwipeState, e: PointerEvent, threshold: int): (r: (SwipeState, Gesture))
    ensures e.Press? ==> r == (SwipeState(Some(e.x), true), NoSwipe)
    ensures e.Release? ==> r == (SwipeState(None, false), NoSwipe)
    ensures r.1 != NoSwipe ==> e.Drag? && s.isDown && s.startX.Some? && !r.0.isDown
    ensures e.Drag? ==> r.0.startX == s.startX && (r.0.isDown <==> s.isDown && r.1 == NoSwipe)
    ensures e.Drag? && s.isDown && s.startX.Some? ==> r.1 == Decide(e.x - s.startX.value, threshold)
  {
    match e
    case Press(x) => (SwipeState(Some(x), true), NoSwipe)
    case Release => (SwipeState(None, false), NoSwipe)
    case Drag(x) =>
      if !s.isDown || s.startX.None? then (s, NoSwipe)
      else
        var g := Decide(x - s.startX.value, threshold);
        (if g == NoSwipe then s else s.(isDown := false), g)
  }

  /** The state after a run of events, and the callbacks fired along the way. */
  function Run(s: SwipeState, es: seq<PointerEvent>, threshold: int): (SwipeState, seq<Gesture>)
    decreases |es|
  {
    if es == [] then (s, [])
    else
      var (s1, g) := Step(s, es[0], threshold);
      var (s2, gs) := Run(s1, es[1..], threshold);
      (s2, [g] + gs)
  }

  /** How many callbacks a sequence of step results fired. */
  function FiredCount(gs: seq<Gesture>): (k: nat)
    ensures k <= |gs|
  {
    if gs == [] then 0
    else (if gs[0] == NoSwipe then 0 else 1) + FiredCount(gs[1..])
  }

  /** Within one press (no new `start`), at most one callback fires, and none
      at all once the gesture is disarmed (after it fired, or after `end`, or
      before any `start`). */
  lemma {:induction false} AtMostOneSwipePerPress(s: SwipeState, es: seq<PointerEvent>, threshold: int)
    requires forall i :: 0 <= i < |es| ==> !es[i].Press?
    ensures FiredCount(Run(s, es, threshold).1) <= (if s.isDown then 1 else 0)
    decreases |es|
  {
    if es != [] {
      var (s1, g) := Step(s, es[0], threshold);
      AtMostOneSwipePerPress(s1, es[1..], threshold);
      assert Run(s, es, threshold).1 == [g] + Run(s1, es[1..], threshold).1;
      assert ([g] + Run(s1, es[1..], threshold).1)[1..] == Run(s1, es[1..], threshold).1;
    }
  }

  /** Mirror of a Step on the index: the callback the carousel wires to each gesture. */
  function Apply(index: int, g: Gesture): (r: int)
    ensures g == NoSwipe ==> r == index
    ensures g != NoSwipe ==> 0 <= r < SlideCount
    ensures g == SwipeLeft ==> r % SlideCount == (index + 1) % SlideCount
    ensures g == SwipeRight ==> r % SlideCount == (index - 1) % SlideCount
  {
    match g
    case NoSwipe => index
    case SwipeLeft => Wrap(index + 1, SlideCount)
    case SwipeRight => Wrap(index - 1, SlideCount)
  }

  /** A swipe never takes the carousel off its slides, and a fired swipe
      always changes the slide (there are more than one). */
  lemma ApplyStaysOnSlides(index: int, g: Gesture)
    requires 0 <= index < SlideCount
    ensures 0 <= Apply(index, g) < SlideCount
    ensures g != NoSwipe <==> Apply(index, g) != index
  {
  }

  // ---------------------------------------------------------------------
  // The hook and the page, as objects whose refs change in place
  // ---------------------------------------------------------------------

  /** `useSwipe`'s refs, updated in place by its three handlers. */
  class Swipe {
    var startX: Option<int>
    var isDown: bool
    const threshold: int

    function State(): SwipeState
      reads this
    {
      SwipeState(startX, isDown)
    }

    constructor (threshold: int)
      ensures this.threshold == threshold
      ensures startX == None && !isDown
    {
      this.threshold := threshold;
      startX := None;
      isDown := false;
    }

    /** `start(x)`: remembers the press position and arms the gesture. */
    method Start(x: int)
      modifies this
      ensures startX == Some(x) && isDown
      ensures (State(), NoSwipe) == Step(old(State()), Press(x), threshold)
    {
      startX := Some(x);
      isDown := true;
    }

    /** `move(x)`: a no-op unless armed; past the threshold it disarms and
        reports the direction, so the caller fires exactly one callback. */
    method Move(x: int) returns (g: Gesture)
      modifies this
      ensures (State(), g) == Step(old(State()), Drag(x), threshold)
      ensures startX == old(startX)
      ensures !old(isDown) || old(startX).None? ==> g == NoSwipe && isDown == old(isDown)
      ensures old(isDown) && old(startX).Some? ==>
                g == Decide(x - old(startX).value, threshold) && isDown == (g == NoSwipe)
    {
      g := NoSwipe;
      if !isDown || startX.None? {
        return;
      }
      var dx := x - startX.value;
      if Abs(dx) > threshold {
        isDown := false;
        g := if dx < 0 then SwipeLeft else SwipeRight;
      }
    }

    /** `end()`: clears the press. */
    method End()
      modifies this
      ensures startX == None && !isDown
      ensures (State(), NoSwipe) == Step(old(State()), Release, threshold)
    {
      startX := None;
      isDown := false;
    }
  }

  /** The carousel of `Co2()`: the `index` state and the swipe hook bound to it. */
  class Carousel {
    var index: int
    const swipe: Swipe

    ghost predicate Valid()
      reads this, swipe
    {
      0 <= index < SlideCount && swipe.threshold == DefaultThreshold
    }

    constructor ()
      ensures Valid() && fresh(swipe)
      ensures index == 0 && swipe.State() == SwipeState(None, false)
    {
      index := 0;
      swipe := new Swipe(DefaultThreshold);
    }

    /** `go(i)`: selects slide `i` wrapped onto `0..SlideCount-1`. */
    method Go(i: int)
      modifies this`index
      ensures index == Wrap(i, SlideCount) && 0 <= index < SlideCount
    {
      var n := SlideCount;
      index := JsRem(JsRem(i, n) + n, n);
    }

    /** `onLeft`: the next slide, wrapping from the last to the first. */
    method OnLeft()
      requires Valid()
      modifies this`index
      ensures Valid()
      ensures index == Apply(old(index), SwipeLeft)
    {
      Go(index + 1);
    }

    /** `onRight`: the previous slide, wrapping from the first to the last. */
    method OnRight()
      requires Valid()
      modifies this`index
      ensures Valid()
      ensures index == Apply(old(index), SwipeRight)
    {
      Go(index - 1);
    }

    /** A click on dot `i`. */
    method DotClick(i: int)
      requires Valid()
      requires 0 <= i < SlideCount
      modifies this`index
      ensures Valid() && index == i
    {
      Go(i);
      WrapIdentityOnRange(i);
    }

    /** `onTouchStart` / `onMouseDown`. */
    method PointerDown(x: int)
      requires Valid()
      modifies swipe
      ensures Valid() && index == old(index)
      ensures swipe.State() == Step(old(swipe.State()), Press(x), DefaultThreshold).0
    {
      swipe.Start(x);
    }

    /** `onTouchMove`: the hook's `move`, then the callback it selected. */
    method PointerMove(x: int) returns (g: Gesture)
      requires Valid()
      modifies this`index, swipe
      ensures Valid()
      ensures (swipe.State(), g) == Step(old(swipe.State()), Drag(x), DefaultThreshold)
      ensures index == Apply(old(index), g)
    {
      g := swipe.Move(x);
      if g == SwipeLeft {
        OnLeft();
      } else if g == SwipeRight {
        OnRight();
      }
    }

    /** `onMouseMove`: the same `move`, called only while the button is down;
        the guard is redundant with the one inside `move`. */
    method MouseMove(x: int) returns (g: Gesture)
      requires Valid()
      modifies this`index, swipe
      ensures Valid()
      ensures (swipe.State(), g) == Step(old(swipe.State()), Drag(x), DefaultThreshold)
      ensures index == Apply(old(index), g)
    {
      if swipe.isDown {
        g := PointerMove(x);
      } else {
        g := NoSwipe;
      }
    }

    /** `onTouchEnd` / `onMouseUp` / `onMouseLeave`. */
    method PointerUp()
      requires Valid()
      modifies swipe
      ensures Valid() && index == old(index)
      ensures swipe.State() == Step(old(swipe.State()), Release, DefaultThreshold).0
    {
      swipe.End();
    }
  }
}
