/**
  The carousel controller as a pure state machine. Every event handler of the
  controller (button clicks, scroll events, the three kinds of timer callbacks and the
  button refresh) is a function from the old state to the new state and the scroll
  commands issued to the container, in order. The class in carousel.dfy runs the same
  handlers imperatively and is proved against these functions.
 */
module CarouselModel {
  import opened Optional
  import opened Geometry

  /** Mode and track layout, fixed when the controller is set up. In infinite mode the
      track holds `dup` clones, `total` real cards, then `dup` clones again. */
  datatype Config = Config(infinite: bool, dup: int, total: int)

  /** The counts come from the track's data attributes, and only in infinite mode;
      `dupAttr` is None when that attribute is absent or empty. Without them the counts
      stay zero and the index is never shifted. */
  function ConfigOf(infinite: bool, dupAttr: Option<int>, totalAttr: int): (c: Config)
    ensures c.infinite == infinite
    ensures !infinite || dupAttr.None? ==> c.dup == 0 && c.total == 0
    ensures infinite && dupAttr.Some? ==> c.dup == dupAttr.value && c.total == totalAttr
  {
    if infinite && dupAttr.Some? then Config(true, dupAttr.value, totalAttr)
    else Config(infinite, 0, 0)
  }

  /** Finite mode has no clones. */
  predicate WellFormed(c: Config) {
    !c.infinite ==> c.dup == 0 && c.total == 0
  }

  /** Track positions that hold real (non-cloned) cards. */
  predicate InWindow(c: Config, i: int) {
    c.dup <= i < c.dup + c.total
  }

  /** Track positions that exist: clones, real cards, clones. */
  predicate InTrack(c: Config, i: int) {
    0 <= i < 2 * c.dup + c.total
  }

  /** The real card shown at track position `i`: the leading clones repeat the last
      `dup` real cards and the trailing clones the first `dup`. */
  function RealCard(c: Config, i: int): (k: int)
    requires c.total > 0
    ensures 0 <= k < c.total
    ensures InWindow(c, i) ==> k == i - c.dup
  {
    (i - c.dup) % c.total
  }

  // ---------------------------------------------------------------------------
  // Re-map arithmetic
  // ---------------------------------------------------------------------------

  /** Where a target index is silently moved to: a position before the real window
      moves forward by `total`, one at or after its end moves back by `total`, and a
      position in the window is left alone (None). */
  function RemapTarget(dup: int, total: int, target: int): (r: Option<int>)
    ensures r.None? <==> dup <= target < dup + total
    ensures target < dup ==> r == Some(target + total)
    ensures dup <= target && target >= dup + total ==> r == Some(target - total)
  {
    if target < dup then Some(dup + total + (target - dup))
    else if target >= dup + total then Some(dup + (target - dup - total))
    else None
  }

  /** With at most as many clones as real cards, every track position that is re-mapped
      lands in the real window. */
  lemma RemapLandsInWindow(c: Config, target: int)
    requires 0 <= c.dup <= c.total && InTrack(c, target)
    ensures RemapTarget(c.dup, c.total, target).Some? ==>
              InWindow(c, RemapTarget(c.dup, c.total, target).value)
  {
  }

  lemma ModUnique(x: int, n: int, q: int, r: int)
    requires n > 0 && 0 <= r < n && x == q * n + r
    ensures x % n == r
  {
    var q', r' := x / n, x % n;
    assert x == q' * n + r';
    if q > q' {
      MulAtLeast(q - q', n);
    } else if q < q' {
      MulAtLeast(q' - q, n);
    }
  }

  lemma MulAtLeast(k: int, n: int)
    requires k >= 1 && n > 0
    ensures k * n >= n
  {
  }

  lemma ModShift(x: int, n: int)
    requires n > 0
    ensures (x + n) % n == x % n && (x - n) % n == x % n
  {
    ModUnique(x + n, n, x / n + 1, x % n);
    ModUnique(x - n, n, x / n - 1, x % n);
  }

  /** The re-map never changes which real card is shown: the result is congruent to
      the target modulo `total`. */
  lemma {:induction false} RemapPreservesCard(c: Config, target: int)
    requires c.total > 0 && RemapTarget(c.dup, c.total, target).Some?
    ensures RealCard(c, RemapTarget(c.dup, c.total, target).value) == RealCard(c, target)
  {
    ModShift(target - c.dup, c.total);
  }

  /** With three clones on each side of ten cards: 13 becomes 3, 2 becomes 12, and the
      real positions 3..12 stay. */
  lemma RemapExamples()
    ensures RemapTarget(3, 10, 13) == Some(3)
    ensures RemapTarget(3, 10, 2) == Some(12)
    ensures forall i :: 3 <= i < 13 ==> RemapTarget(3, 10, i) == None
  {
  }

  // ---------------------------------------------------------------------------
  // State, commands, outcomes
  // ---------------------------------------------------------------------------

  /** The controller's mutable variables, the timers it has scheduled and not yet seen
      fire, and the disabled state it last wrote to the two buttons. */
  datatype State = State(
    currentIndex: int,
    isTransitioning: bool,
    lastScrollIndex: int,
    lastScrollLeft: int,
    scrollDirection: int,
    pendingRemap: Option<int>,     // re-map target captured by the 500 ms timer
    pendingDebounce: Option<int>,  // index captured by the 200 ms settle timer
    initPending: bool,             // the 0 ms jump to the first real card
    buttons: Buttons)

  /** A request to the scroll container: an absolute move (smooth or instant) or a
      smooth relative move. */
  datatype Command = ScrollTo(left: int, smooth: bool) | ScrollBy(delta: int)

  datatype Outcome = Outcome(state: State, commands: seq<Command>)

  /** The state right after set-up: the index starts on the first real card (0 without
      clones), the buttons reflect the current offset, and in infinite mode with clones
      an instant jump to the first real card is scheduled. */
  function Initial(c: Config, view: Viewport): (s: State)
    ensures s.currentIndex == c.dup && !s.isTransitioning
    ensures s.pendingRemap.None? && s.pendingDebounce.None?
    ensures s.initPending <==> c.infinite && c.dup > 0
    ensures s.lastScrollIndex == -1 && s.lastScrollLeft == 0 && s.scrollDirection == 0
    ensures s.buttons == ButtonStates(c.infinite, view.scrollLeft, view.scrollWidth, view.clientWidth)
  {
    State(c.dup, false, -1, 0, 0, None, None, c.infinite && c.dup > 0,
          ButtonStates(c.infinite, view.scrollLeft, view.scrollWidth, view.clientWidth))
  }

  // ---------------------------------------------------------------------------
  // Handlers
  // ---------------------------------------------------------------------------

  /** Move to `index`: one absolute scroll to `index * step` and the index recorded. */
  function ScrollToIndex(s: State, index: int, step: int, smooth: bool): (o: Outcome)
    ensures o.state == s.(currentIndex := index)
    ensures o.commands == [ScrollTo(index * step, smooth)]
  {
    Outcome(s.(currentIndex := index), [ScrollTo(index * step, smooth)])
  }

  /** Scrolling to an index and reading the offset back gives the same index. */
  lemma {:induction false} ScrollToIndexRoundTrip(s: State, index: int, step: int, smooth: bool)
    requires step != 0
    ensures ScrollToIndex(s, index, step, smooth).state.currentIndex == index
    ensures IndexOf(ScrollToIndex(s, index, step, smooth).commands[0].left, step) == index
  {
    IndexOfRoundTrip(index, step);
  }

  /** The wrap check after a move to `target`. It does nothing in finite mode, while a
      re-map is pending, or inside the real window. Otherwise a manual-scroll caller
      jumps at once, without animation; a button caller locks the controller and
      schedules the jump for when the smooth scroll has finished. */
  function HandleInfiniteLoop(c: Config, s: State, target: int, step: int, manual: bool): (o: Outcome)
    ensures !c.infinite || s.isTransitioning || InWindow(c, target) ==> o == Outcome(s, [])
    ensures c.infinite && !s.isTransitioning && !InWindow(c, target) ==>
              var r := RemapTarget(c.dup, c.total, target).value;
              if manual then o.state == s.(currentIndex := r) && o.commands == [ScrollTo(r * step, false)]
              else o.state == s.(isTransitioning := true, pendingRemap := Some(r)) && o.commands == []
  {
    if !c.infinite || s.isTransitioning then Outcome(s, [])
    else
      match RemapTarget(c.dup, c.total, target)
      case None => Outcome(s, [])
      case Some(r) =>
        if manual then
          var o := ScrollToIndex(s, r, step, false);
          Outcome(o.state.(currentIndex := r), o.commands)
        else Outcome(s.(isTransitioning := true, pendingRemap := Some(r)), [])
  }

  /** One button click in direction `delta` (-1 left, +1 right). */
  function Click(c: Config, s: State, step: int, delta: int): (o: Outcome)
    ensures c.infinite && s.isTransitioning ==> o == Outcome(s, [])
    ensures !c.infinite ==> o == Outcome(s, [ScrollBy(delta * step)])
    ensures c.infinite && !s.isTransitioning ==>
              && o.state.currentIndex == s.currentIndex + delta
              && o.commands == [ScrollTo((s.currentIndex + delta) * step, true)]
              && (o.state.isTransitioning <==> !InWindow(c, s.currentIndex + delta))
    ensures c.infinite && !s.isTransitioning && InWindow(c, s.currentIndex + delta) ==>
              o.state == s.(currentIndex := s.currentIndex + delta)
    ensures c.infinite && !s.isTransitioning && !InWindow(c, s.currentIndex + delta) ==>
              o.state == s.(currentIndex := s.currentIndex + delta, isTransitioning := true,
                            pendingRemap := RemapTarget(c.dup, c.total, s.currentIndex + delta))
  {
    if c.infinite && !s.isTransitioning then
      var moved := ScrollToIndex(s.(currentIndex := s.currentIndex + delta), s.currentIndex + delta, step, true);
      var wrapped := HandleInfiniteLoop(c, moved.state, moved.state.currentIndex, step, false);
      Outcome(wrapped.state, moved.commands + wrapped.commands)
    else if !c.infinite then Outcome(s, [ScrollBy(delta * step)])
    else Outcome(s, [])
  }

  /** The 500 ms timer of a button-driven wrap: jump without animation to the captured
      target, record it, and release the lock. */
  function FireRemap(c: Config, s: State, step: int): (o: Outcome)
    requires s.pendingRemap.Some?
    ensures o.state.currentIndex == s.pendingRemap.value
    ensures !o.state.isTransitioning && o.state.pendingRemap.None?
    ensures o.commands == [ScrollTo(s.pendingRemap.value * step, false)]
    ensures o.state.(currentIndex := s.currentIndex, isTransitioning := s.isTransitioning,
                     pendingRemap := s.pendingRemap) == s
  {
    var r := s.pendingRemap.value;
    var o := ScrollToIndex(s, r, step, false);
    Outcome(o.state.(currentIndex := r, isTransitioning := false, pendingRemap := None), o.commands)
  }

  /** The 0 ms timer scheduled at set-up: jump without animation to the first real card. */
  function FireInit(c: Config, s: State, step: int): (o: Outcome)
    requires s.initPending
    ensures o.state == s.(currentIndex := c.dup, initPending := false)
    ensures o.commands == [ScrollTo(c.dup * step, false)]
  {
    var o := ScrollToIndex(s, c.dup, step, false);
    Outcome(o.state.(initPending := false), o.commands)
  }

  /** Recompute the buttons from the current offset (scroll, resize, delayed refreshes). */
  function UpdateButtons(c: Config, s: State, view: Viewport): (t: State)
    ensures t == s.(buttons := ButtonStates(c.infinite, view.scrollLeft, view.scrollWidth, view.clientWidth))
  {
    s.(buttons := ButtonStates(c.infinite, view.scrollLeft, view.scrollWidth, view.clientWidth))
  }

  /** Direction of travel after reading offset `scrollLeft`: backward, forward, or, for
      an unchanged offset, the previous direction. */
  function NextDirection(s: State, scrollLeft: int): (d: int)
    ensures scrollLeft < s.lastScrollLeft ==> d == -1
    ensures scrollLeft > s.lastScrollLeft ==> d == 1
    ensures scrollLeft == s.lastScrollLeft ==> d == s.scrollDirection
  {
    if scrollLeft < s.lastScrollLeft then -1
    else if scrollLeft > s.lastScrollLeft then 1
    else s.scrollDirection
  }

  /** The backward fast path fires: moving back, at most one past the first real card,
      and that card visible. */
  predicate BackwardFastPath(c: Config, dir: int, scrolled: int, cards: seq<Rect>, container: Rect) {
    dir == -1 && scrolled <= c.dup + 1 && CardVisible(cards, container, c.dup)
  }

  /** The forward fast path fires: moving forward, at most two before the last real
      card, and that card visible. */
  predicate ForwardFastPath(c: Config, dir: int, scrolled: int, cards: seq<Rect>, container: Rect) {
    dir == 1 && scrolled >= c.dup + c.total - 2 && CardVisible(cards, container, c.dup + c.total - 1)
  }

  /** The manual-scroll part of a scroll event. */
  function HandleManualScroll(c: Config, s: State, scrollLeft: int, step: int,
                              cards: seq<Rect>, container: Rect): (o: Outcome)
    requires step != 0
    ensures !c.infinite || s.isTransitioning ==> o == Outcome(s, [])
    ensures c.infinite && !s.isTransitioning ==>
              var dir := NextDirection(s, scrollLeft);
              var scrolled := IndexOf(scrollLeft, step);
              && o.state.lastScrollLeft == scrollLeft
              && o.state.scrollDirection == dir
              && o.state.isTransitioning == s.isTransitioning
              && o.state.pendingRemap == s.pendingRemap
              && o.state.initPending == s.initPending
              && o.state.buttons == s.buttons
              && (scrolled == s.lastScrollIndex ==>
                    o == Outcome(s.(scrollDirection := dir, lastScrollLeft := scrollLeft), []))
              && (scrolled != s.lastScrollIndex && BackwardFastPath(c, dir, scrolled, cards, container) ==>
                    && o.state.currentIndex == c.dup + c.total
                    && o.state.lastScrollIndex == c.dup + c.total
                    && o.state.pendingDebounce == s.pendingDebounce
                    && o.commands == [ScrollTo((c.dup + c.total) * step, false)])
              && (scrolled != s.lastScrollIndex && !BackwardFastPath(c, dir, scrolled, cards, container)
                  && ForwardFastPath(c, dir, scrolled, cards, container) ==>
                    && o.state.currentIndex == c.dup - 1
                    && o.state.lastScrollIndex == c.dup - 1
                    && o.state.pendingDebounce == s.pendingDebounce
                    && o.commands == [ScrollTo((c.dup - 1) * step, false)])
              && (scrolled != s.lastScrollIndex && !BackwardFastPath(c, dir, scrolled, cards, container)
                  && !ForwardFastPath(c, dir, scrolled, cards, container) ==>
                    && o.commands == []
                    && o.state.currentIndex == s.currentIndex
                    && (!InWindow(c, scrolled) ==>
                          o.state.pendingDebounce == Some(scrolled) && o.state.lastScrollIndex == s.lastScrollIndex)
                    && (InWindow(c, scrolled) ==>
                          o.state.pendingDebounce == s.pendingDebounce && o.state.lastScrollIndex == scrolled))
  {
    if !c.infinite || s.isTransitioning then Outcome(s, [])
    else
      var s1 := s.(scrollDirection := NextDirection(s, scrollLeft), lastScrollLeft := scrollLeft);
      var scrolled := IndexOf(scrollLeft, step);
      if s1.lastScrollIndex == scrolled then Outcome(s1, [])
      else if BackwardFastPath(c, s1.scrollDirection, scrolled, cards, container) then
        var o := ScrollToIndex(s1, c.dup + c.total, step, false);
        Outcome(o.state.(currentIndex := c.dup + c.total, lastScrollIndex := c.dup + c.total), o.commands)
      else if ForwardFastPath(c, s1.scrollDirection, scrolled, cards, container) then
        var o := ScrollToIndex(s1, c.dup - 1, step, false);
        Outcome(o.state.(currentIndex := c.dup - 1, lastScrollIndex := c.dup - 1), o.commands)
      else if scrolled < c.dup || scrolled >= c.dup + c.total then
        Outcome(s1.(pendingDebounce := Some(scrolled)), [])
      else Outcome(s1.(lastScrollIndex := scrolled), [])
  }

  /** A scroll event: the buttons are refreshed first, then the manual-scroll handler runs. */
  function OnScroll(c: Config, s: State, view: Viewport, step: int): (o: Outcome)
    requires step != 0
    ensures o.state.buttons == ButtonStates(c.infinite, view.scrollLeft, view.scrollWidth, view.clientWidth)
    ensures o.commands == HandleManualScroll(c, s, view.scrollLeft, step, view.cards, view.container).commands
    ensures o.state.(buttons := s.buttons) ==
              HandleManualScroll(c, s, view.scrollLeft, step, view.cards, view.container).state
  {
    HandleManualScroll(c, UpdateButtons(c, s, view), view.scrollLeft, step, view.cards, view.container)
  }

  /** The 200 ms settle timer: if the offset still reads as the index captured when it
      was scheduled, that index becomes current and is re-mapped at once (when no
      button-driven re-map holds the lock), and it is recorded as the last index seen. */
  function FireDebounce(c: Config, s: State, scrollLeft: int, step: int): (o: Outcome)
    requires step != 0 && s.pendingDebounce.Some?
    ensures o.state.pendingDebounce.None?
    ensures IndexOf(scrollLeft, step) != s.pendingDebounce.value ==>
              o == Outcome(s.(pendingDebounce := None), [])
    ensures IndexOf(scrollLeft, step) == s.pendingDebounce.value ==>
              var k := s.pendingDebounce.value;
              && o.state.lastScrollIndex == k
              && o.state.isTransitioning == s.isTransitioning
              && o.state.pendingRemap == s.pendingRemap
              && (s.isTransitioning || !c.infinite || InWindow(c, k) ==>
                    o == Outcome(s.(pendingDebounce := None, currentIndex := k, lastScrollIndex := k), []))
              && (!s.isTransitioning && c.infinite && !InWindow(c, k) ==>
                    var r := RemapTarget(c.dup, c.total, k).value;
                    o == Outcome(s.(pendingDebounce := None, currentIndex := r, lastScrollIndex := k),
                                 [ScrollTo(r * step, false)]))
  {
    var k := s.pendingDebounce.value;
    var s0 := s.(pendingDebounce := None);
    if IndexOf(scrollLeft, step) == k then
      var o := HandleInfiniteLoop(c, s0.(currentIndex := k), k, step, true);
      Outcome(o.state.(lastScrollIndex := k), o.commands)
    else Outcome(s0, [])
  }

  // ---------------------------------------------------------------------------
  // Event traces
  // ---------------------------------------------------------------------------

  /** Everything that can make the controller run: a click, a scroll event, a button
      refresh (a resize or one of the delayed refreshes), or a scheduled timer firing. */
  datatype Event =
    | LeftClick(step: int)
    | RightClick(step: int)
    | Scroll(view: Viewport, step: int)
    | Refresh(view: Viewport)
    | RemapTimer(step: int)
    | DebounceTimer(scrollLeft: int, step: int)
    | InitTimer(step: int)

  /** The offset reading of an event is defined: its step is not zero. */
  predicate Defined(e: Event) {
    match e
    case Scroll(_, step) => step != 0
    case DebounceTimer(_, step) => step != 0
    case _ => true
  }

  predicate AllDefined(es: seq<Event>) {
    forall i :: 0 <= i < |es| ==> Defined(es[i])
  }

  /** The state after one event. A timer event when that timer is not scheduled
      changes nothing. */
  function Apply(c: Config, s: State, e: Event): State
    requires Defined(e)
  {
    match e
    case LeftClick(step) => Click(c, s, step, -1).state
    case RightClick(step) => Click(c, s, step, 1).state
    case Scroll(view, step) => OnScroll(c, s, view, step).state
    case Refresh(view) => UpdateButtons(c, s, view)
    case RemapTimer(step) => if s.pendingRemap.Some? then FireRemap(c, s, step).state else s
    case DebounceTimer(scrollLeft, step) =>
      if s.pendingDebounce.Some? then FireDebounce(c, s, scrollLeft, step).state else s
    case InitTimer(step) => if s.initPending then FireInit(c, s, step).state else s
  }

  /** The state after a sequence of events, in order. */
  function Run(c: Config, s: State, es: seq<Event>): State
    requires AllDefined(es)
    decreases |es|
  {
    if es == [] then s else Run(c, Apply(c, s, es[0]), es[1..])
  }
}
