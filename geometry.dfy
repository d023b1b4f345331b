/** A value that may be absent: a missing card, an unparsable number, no pending timer. */
module Optional {
  datatype Option<+T> = None | Some(value: T)
}

/**
  The pure geometry of the carousel: the pixel length of one step, the index a scroll
  offset rounds to, whether a card overlaps the viewport, and which navigation buttons
  are enabled. Scroll offsets and widths are whole pixels; bounding rectangles are reals.
 */
module Geometry {
  import opened Optional

  /** The step used when no card can be measured (the `defaultScrollAmount` option's default). */
  const DefaultScrollAmount: int := 392

  /** The gap used when the track's computed `gap` does not parse to a non-zero integer. */
  const FallbackGap: int := 20

  /** Tolerance, in pixels, under which the end of the content counts as reached. */
  const EndTolerance: int := 2

  // ---------------------------------------------------------------------------
  // Step size
  // ---------------------------------------------------------------------------

  /** The gap actually added to a card's width: `parseInt(gap) || 20`, so both an
      unparsable gap (NaN, here None) and a zero gap fall back to 20. */
  function EffectiveGap(parsedGap: Option<int>): (g: int)
    ensures g != 0
    ensures parsedGap.Some? && parsedGap.value != 0 ==> g == parsedGap.value
    ensures parsedGap == None || parsedGap == Some(0) ==> g == FallbackGap
  {
    match parsedGap
    case Some(n) => if n != 0 then n else FallbackGap
    case None => FallbackGap
  }

  /** Pixel length of one logical step: the first card's width plus the gap, or the
      configured default when the track holds no card (firstCardWidth is None). */
  function StepSize(firstCardWidth: Option<int>, parsedGap: Option<int>, defaultStep: int): (r: int)
    ensures firstCardWidth.None? ==> r == defaultStep
    ensures firstCardWidth.Some? ==> r - firstCardWidth.value == EffectiveGap(parsedGap)
  {
    match firstCardWidth
    case None => defaultStep
    case Some(w) => w + EffectiveGap(parsedGap)
  }

  /** A measurable card (a width is never negative) and a gap that CSS allows (never
      negative) always give a positive step; so does a positive default. */
  lemma StepSizePositive(firstCardWidth: Option<int>, parsedGap: Option<int>, defaultStep: int)
    requires firstCardWidth.Some? ==> firstCardWidth.value >= 0
    requires parsedGap.Some? ==> parsedGap.value >= 0
    requires firstCardWidth.None? ==> defaultStep > 0
    ensures StepSize(firstCardWidth, parsedGap, defaultStep) > 0
    ensures firstCardWidth.Some? ==>
              StepSize(firstCardWidth, parsedGap, defaultStep) > firstCardWidth.value
  {
  }

  /** With the default option a track without cards still steps by 392 px, so the
      index reading never divides by zero unless a caller passes a default of 0. */
  lemma DefaultStepNonZero(firstCardWidth: Option<int>, parsedGap: Option<int>)
    requires firstCardWidth.Some? ==> firstCardWidth.value >= 0
    requires parsedGap.Some? ==> parsedGap.value >= 0
    ensures StepSize(firstCardWidth, parsedGap, DefaultScrollAmount) != 0
    ensures firstCardWidth.None? ==> StepSize(firstCardWidth, parsedGap, DefaultScrollAmount) == 392
  {
    StepSizePositive(firstCardWidth, parsedGap, DefaultScrollAmount);
  }

  // ---------------------------------------------------------------------------
  // Index from a scroll offset: Math.round(scrollLeft / step)
  // ---------------------------------------------------------------------------

  /** `r` is the integer nearest to the quotient a / b, a tie going up
      (r - 1/2 <= a / b < r + 1/2), written without division. */
  predicate RoundsTo(a: int, b: int, r: int)
    requires b != 0
  {
    if b > 0 then b * (2 * r - 1) <= 2 * a < b * (2 * r + 1)
    else b * (2 * r + 1) < 2 * a <= b * (2 * r - 1)
  }

  lemma FloorDivBounds(n: int, d: int)
    requires d > 0
    ensures d * (n / d) <= n < d * (n / d) + d
  {
  }

  /** The index a scroll offset shows: JavaScript's Math.round of the quotient, which
      rounds half-way values up (towards positive infinity). */
  function IndexOf(scrollLeft: int, step: int): (i: int)
    requires step != 0
    ensures RoundsTo(scrollLeft, step, i)
  {
    if step > 0 then
      var q := (2 * scrollLeft + step) / (2 * step);
      FloorDivBounds(2 * scrollLeft + step, 2 * step);
      q
    else
      var q := (-2 * scrollLeft - step) / (-2 * step);
      FloorDivBounds(-2 * scrollLeft - step, -2 * step);
      q
  }

  lemma MulLess(b: int, x: int, y: int)
    requires b > 0 && b * x < b * y
    ensures x < y
  {
  }

  /** At most one integer is the rounded quotient. */
  lemma {:induction false} RoundsToUnique(a: int, b: int, r1: int, r2: int)
    requires b != 0 && RoundsTo(a, b, r1) && RoundsTo(a, b, r2)
    ensures r1 == r2
  {
    if b > 0 {
      MulLess(b, 2 * r1 - 1, 2 * r2 + 1);
      MulLess(b, 2 * r2 - 1, 2 * r1 + 1);
    } else {
      assert (-b) * (2 * r2 - 1) == -(b * (2 * r2 - 1)) && (-b) * (2 * r1 + 1) == -(b * (2 * r1 + 1));
      assert (-b) * (2 * r1 - 1) == -(b * (2 * r1 - 1)) && (-b) * (2 * r2 + 1) == -(b * (2 * r2 + 1));
      MulLess(-b, 2 * r2 - 1, 2 * r1 + 1);
      MulLess(-b, 2 * r1 - 1, 2 * r2 + 1);
    }
  }

  /** Scrolling to `i * step` and reading the index back gives `i` again. */
  lemma {:induction false} IndexOfRoundTrip(i: int, step: int)
    requires step != 0
    ensures IndexOf(i * step, step) == i
  {
    assert RoundsTo(i * step, step, i) by {
      assert step * (2 * i - 1) == 2 * (i * step) - step;
      assert step * (2 * i + 1) == 2 * (i * step) + step;
    }
    RoundsToUnique(i * step, step, IndexOf(i * step, step), i);
  }

  /** With a positive step, a larger offset never reads as a smaller index. */
  lemma {:induction false} IndexOfMonotone(a1: int, a2: int, step: int)
    requires step > 0 && a1 <= a2
    ensures IndexOf(a1, step) <= IndexOf(a2, step)
  {
    var r1, r2 := IndexOf(a1, step), IndexOf(a2, step);
    MulLess(step, 2 * r1 - 1, 2 * r2 + 1);
  }

  /** An offset between the first and the last of `n` card positions reads as one of them. */
  lemma {:induction false} IndexWithin(scrollLeft: int, step: int, n: int)
    requires step > 0 && n > 0 && 0 <= scrollLeft <= (n - 1) * step
    ensures 0 <= IndexOf(scrollLeft, step) < n
  {
    IndexOfRoundTrip(0, step);
    IndexOfRoundTrip(n - 1, step);
    IndexOfMonotone(0 * step, scrollLeft, step);
    IndexOfMonotone(scrollLeft, (n - 1) * step, step);
  }

  // ---------------------------------------------------------------------------
  // Card visibility
  // ---------------------------------------------------------------------------

  /** The horizontal extent of a bounding rectangle. */
  datatype Rect = Rect(left: real, right: real)

  predicate Inside(x: real, r: Rect) {
    r.left < x < r.right
  }

  /** Strict horizontal overlap of a card's and the container's rectangles. */
  predicate Overlaps(card: Rect, container: Rect) {
    card.left < container.right && card.right > container.left
  }

  /** For rectangles of positive width, overlapping means sharing an interior point:
      partial overlap counts, touching edges do not. */
  lemma {:induction false} OverlapsMeansSharedPoint(a: Rect, b: Rect)
    requires a.left < a.right && b.left < b.right
    ensures Overlaps(a, b) <==> exists x :: Inside(x, a) && Inside(x, b)
  {
    if Overlaps(a, b) {
      var lo := if a.left < b.left then b.left else a.left;
      var hi := if a.right < b.right then a.right else b.right;
      assert Inside((lo + hi) / 2.0, a) && Inside((lo + hi) / 2.0, b);
    }
  }

  /** Whether card `k` of the track is visible in the container; a card that does not
      exist (any index outside the card list) is never visible. */
  function CardVisible(cards: seq<Rect>, container: Rect, k: int): (v: bool)
    ensures v ==> 0 <= k < |cards|
    ensures 0 <= k < |cards| ==> (v <==> Overlaps(cards[k], container))
  {
    0 <= k < |cards| && Overlaps(cards[k], container)
  }

  // ---------------------------------------------------------------------------
  // Navigation buttons
  // ---------------------------------------------------------------------------

  datatype Buttons = Buttons(leftDisabled: bool, rightDisabled: bool)

  /** What the scroll container reports when the buttons are refreshed. */
  datatype Viewport = Viewport(
    scrollLeft: int,
    scrollWidth: int,
    clientWidth: int,
    container: Rect,
    cards: seq<Rect>)

  /** Enabled state of the two buttons: always both enabled in infinite mode; otherwise
      left is disabled at the start, right within the tolerance of the maximum scroll. */
  function ButtonStates(infinite: bool, scrollLeft: int, scrollWidth: int, clientWidth: int): (b: Buttons)
    ensures infinite ==> !b.leftDisabled && !b.rightDisabled
    ensures !infinite ==> (b.leftDisabled <==> scrollLeft <= 0)
    ensures !infinite ==> (b.rightDisabled <==> scrollLeft >= scrollWidth - clientWidth - EndTolerance)
  {
    if infinite then Buttons(false, false)
    else
      var maxScroll := scrollWidth - clientWidth;
      Buttons(scrollLeft <= 0, scrollLeft >= maxScroll - EndTolerance)
  }

  /** In finite mode the buttons switch off exactly at the ends of the content: left at
      offset 0, right at the maximum offset, and neither strictly between the start
      and the tolerance band before the end. */
  lemma FiniteButtonsAtEdges(scrollWidth: int, clientWidth: int, scrollLeft: int)
    ensures ButtonStates(false, 0, scrollWidth, clientWidth).leftDisabled
    ensures ButtonStates(false, scrollWidth - clientWidth, scrollWidth, clientWidth).rightDisabled
    ensures 0 < scrollLeft < scrollWidth - clientWidth - EndTolerance ==>
              ButtonStates(false, scrollLeft, scrollWidth, clientWidth) == Buttons(false, false)
  {
  }

  /** When the content can scroll further than the tolerance, the two buttons are never
      disabled together, and scrolling right can only disable the right button and
      enable the left one. */
  lemma FiniteButtonsMonotone(scrollWidth: int, clientWidth: int, s1: int, s2: int)
    requires s1 <= s2
    ensures scrollWidth - clientWidth > EndTolerance ==>
              !(ButtonStates(false, s1, scrollWidth, clientWidth).leftDisabled &&
                ButtonStates(false, s1, scrollWidth, clientWidth).rightDisabled)
    ensures ButtonStates(false, s1, scrollWidth, clientWidth).rightDisabled ==>
              ButtonStates(false, s2, scrollWidth, clientWidth).rightDisabled
    ensures ButtonStates(false, s2, scrollWidth, clientWidth).leftDisabled ==>
              ButtonStates(false, s1, scrollWidth, clientWidth).leftDisabled
  {
  }
}
