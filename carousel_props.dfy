/**
  Properties of the carousel state machine over whole event sequences: the facts every
  reachable state keeps, the bound on the index when there are enough clones (and a
  run that breaks it with a single clone), the transition lock, and the wrap-around
  scenarios of the infinite track.
 */
module CarouselProperties {
  import opened Optional
  import opened Geometry
  import opened CarouselModel

  // ---------------------------------------------------------------------------
  // Facts that hold in every reachable state
  // ---------------------------------------------------------------------------

  /** The lock flag is set exactly while a re-map timer is pending; the direction is
      -1, 0 or 1; a settle timer only ever waits on a cloned position; in infinite
      mode both buttons stay enabled; and finite mode never touches the index state. */
  predicate Consistent(c: Config, s: State) {
    && (s.isTransitioning <==> s.pendingRemap.Some?)
    && -1 <= s.scrollDirection <= 1
    && (s.pendingRemap.Some? ==> c.infinite)
    && (s.pendingDebounce.Some? ==> c.infinite && !InWindow(c, s.pendingDebounce.value))
    && (s.initPending ==> c.infinite && c.dup > 0)
    && (c.infinite ==> s.buttons == Buttons(false, false))
    && (!c.infinite ==> s.currentIndex == 0 && s.lastScrollIndex == -1 &&
                        s.lastScrollLeft == 0 && s.scrollDirection == 0)
  }

  lemma ConsistentInitial(infinite: bool, dupAttr: Option<int>, totalAttr: int, view: Viewport)
    ensures WellFormed(ConfigOf(infinite, dupAttr, totalAttr))
    ensures Consistent(ConfigOf(infinite, dupAttr, totalAttr), Initial(ConfigOf(infinite, dupAttr, totalAttr), view))
  {
  }

  lemma ConsistentStep(c: Config, s: State, e: Event)
    requires WellFormed(c) && Consistent(c, s) && Defined(e)
    ensures Consistent(c, Apply(c, s, e))
  {
  }

  /** Every event sequence keeps the facts above. */
  lemma {:induction false} ConsistentRun(c: Config, s: State, es: seq<Event>)
    requires WellFormed(c) && Consistent(c, s) && AllDefined(es)
    ensures Consistent(c, Run(c, s, es))
    decreases |es|
  {
    if es != [] {
      ConsistentStep(c, s, es[0]);
      ConsistentRun(c, Apply(c, s, es[0]), es[1..]);
    }
  }

  lemma AllDefinedAppend(a: seq<Event>, b: seq<Event>)
    requires AllDefined(a) && AllDefined(b)
    ensures AllDefined(a + b)
  {
    forall i | 0 <= i < |a + b| ensures Defined((a + b)[i]) {
      if i < |a| { assert (a + b)[i] == a[i]; } else { assert (a + b)[i] == b[i - |a|]; }
    }
  }

  /** Running two sequences one after the other is running their concatenation. */
  lemma {:induction false} RunAppend(c: Config, s: State, a: seq<Event>, b: seq<Event>)
    requires AllDefined(a) && AllDefined(b)
    ensures AllDefined(a + b)
    ensures Run(c, s, a + b) == Run(c, Run(c, s, a), b)
    decreases |a|
  {
    AllDefinedAppend(a, b);
    if a != [] {
      assert (a + b)[0] == a[0];
      assert (a + b)[1..] == a[1..] + b;
      assert AllDefined(a[1..]) by {
        forall i | 0 <= i < |a[1..]| ensures Defined(a[1..][i]) { assert a[1..][i] == a[i + 1]; }
      }
      RunAppend(c, Apply(c, s, a[0]), a[1..], b);
      assert Run(c, s, a + b) == Run(c, Apply(c, s, a[0]), a[1..] + b);
      assert Run(c, s, a) == Run(c, Apply(c, s, a[0]), a[1..]);
    } else {
      assert a + b == b;
    }
  }

  // ---------------------------------------------------------------------------
  // The index stays on the track when there are at least two clones a side
  // ---------------------------------------------------------------------------

  /** At least two clones on each side, and no more clones than real cards. */
  predicate Roomy(c: Config) {
    c.infinite && 2 <= c.dup <= c.total
  }

  /** The index is a track position; at rest (no re-map pending) it is a real card or
      the clone next to either end that a fast path jumps to; a pending re-map targets
      a real card; a pending settle check waits on a track position. */
  predicate Bounded(c: Config, s: State) {
    && InTrack(c, s.currentIndex)
    && (!s.isTransitioning ==> c.dup - 1 <= s.currentIndex <= c.dup + c.total)
    && (s.pendingRemap.Some? ==> InWindow(c, s.pendingRemap.value))
    && (s.pendingDebounce.Some? ==> InTrack(c, s.pendingDebounce.value))
  }

  /** A scroll event whose offset reads as a track position (which holds whenever the
      container cannot scroll past its last card; see IndexWithin). */
  predicate ReadsInTrack(c: Config, e: Event)
    requires Defined(e)
  {
    e.Scroll? ==> InTrack(c, IndexOf(e.view.scrollLeft, e.step))
  }

  lemma BoundedInitial(c: Config, view: Viewport)
    requires Roomy(c)
    ensures Bounded(c, Initial(c, view))
  {
  }

  lemma BoundedClick(c: Config, s: State, step: int, delta: int)
    requires Roomy(c) && Consistent(c, s) && Bounded(c, s) && (delta == -1 || delta == 1)
    ensures Bounded(c, Click(c, s, step, delta).state)
  {
    if !s.isTransitioning {
      RemapLandsInWindow(c, s.currentIndex + delta);
    }
  }

  lemma BoundedDebounce(c: Config, s: State, scrollLeft: int, step: int)
    requires Roomy(c) && Consistent(c, s) && Bounded(c, s)
    requires step != 0 && s.pendingDebounce.Some?
    ensures Bounded(c, FireDebounce(c, s, scrollLeft, step).state)
  {
    RemapLandsInWindow(c, s.pendingDebounce.value);
  }

  lemma BoundedStep(c: Config, s: State, e: Event)
    requires Roomy(c) && Consistent(c, s) && Bounded(c, s) && Defined(e) && ReadsInTrack(c, e)
    ensures Bounded(c, Apply(c, s, e))
  {
    match e
    case LeftClick(step) => BoundedClick(c, s, step, -1);
    case RightClick(step) => BoundedClick(c, s, step, 1);
    case DebounceTimer(scrollLeft, step) =>
      if s.pendingDebounce.Some? { BoundedDebounce(c, s, scrollLeft, step); }
    case _ =>
  }

  /** With at least two clones a side and no more clones than real cards, as long as
      every scroll event reads as a track position, the index never leaves the track,
      at rest it is within one position of the real cards, and every pending re-map
      targets a real card. */
  lemma {:induction false} BoundedRun(c: Config, s: State, es: seq<Event>)
    requires Roomy(c) && Consistent(c, s) && Bounded(c, s) && AllDefined(es)
    requires forall i :: 0 <= i < |es| ==> ReadsInTrack(c, es[i])
    ensures Bounded(c, Run(c, s, es))
    decreases |es|
  {
    if es != [] {
      ConsistentStep(c, s, es[0]);
      BoundedStep(c, s, es[0]);
      assert forall i :: 0 <= i < |es[1..]| ==> ReadsInTrack(c, es[1..][i]) by {
        forall i | 0 <= i < |es[1..]| ensures ReadsInTrack(c, es[1..][i]) {
          assert es[1..][i] == es[i + 1];
        }
      }
      BoundedRun(c, Apply(c, s, es[0]), es[1..]);
    }
  }

  /** A track of `n` cards, each 80 px wide at a 100 px step, seen at offset `scrollLeft`
      through a 300 px container. */
  function Strip(n: nat, scrollLeft: int): (v: Viewport)
    ensures |v.cards| == n && v.scrollLeft == scrollLeft
  {
    Viewport(scrollLeft, 100 * n, 300, Rect(0.0, 300.0),
             seq(n, k requires 0 <= k < n => Rect((100 * k - scrollLeft) as real, (100 * k - scrollLeft + 80) as real)))
  }

  /** With a single clone a side the bound fails: scrolling back onto the first real
      card takes the backward fast path to the trailing clone, the last track
      position, and a right click then moves the index past the end of the track,
      although every offset read was a track position. */
  lemma SingleCloneLeavesTrack()
    ensures var c := Config(true, 1, 5);
            var es := [InitTimer(100), Scroll(Strip(7, 200), 100), Scroll(Strip(7, 100), 100), RightClick(100)];
            && AllDefined(es)
            && (forall i :: 0 <= i < |es| ==> ReadsInTrack(c, es[i]))
            && !InTrack(c, Run(c, Initial(c, Strip(7, 0)), es).currentIndex)
  {
    var c := Config(true, 1, 5);
    var es := [InitTimer(100), Scroll(Strip(7, 200), 100), Scroll(Strip(7, 100), 100), RightClick(100)];
    var s0 := Initial(c, Strip(7, 0));
    var s1 := Apply(c, s0, es[0]);
    assert s1.currentIndex == 1 && s1.lastScrollIndex == -1 && s1.lastScrollLeft == 0;
    var s2 := Apply(c, s1, es[1]);
    assert IndexOf(200, 100) == 2;
    assert s2.lastScrollIndex == 2 && s2.lastScrollLeft == 200 && !s2.isTransitioning;
    var s3 := Apply(c, s2, es[2]);
    assert IndexOf(100, 100) == 1;
    assert Strip(7, 100).cards[1] == Rect(0.0, 80.0);
    assert s3.currentIndex == 6 && !s3.isTransitioning;
    var s4 := Apply(c, s3, es[3]);
    assert s4.currentIndex == 7;
    assert Run(c, s0, es) == Run(c, s1, es[1..]);
    assert Run(c, s1, es[1..]) == Run(c, s2, es[2..]);
    assert Run(c, s2, es[2..]) == Run(c, s3, es[3..]);
    assert Run(c, s3, es[3..]) == Run(c, s4, []);
  }

  // ---------------------------------------------------------------------------
  // Manual scrolling
  // ---------------------------------------------------------------------------

  /** A scroll event moves the index only by a fast path, to the trailing clone of the
      first real card or the leading clone of the last one; scrolling within the real
      window leaves it where the last click, jump or settle check put it. */
  lemma ScrollMovesIndexOnlyByFastPath(c: Config, s: State, view: Viewport, step: int)
    requires step != 0
    ensures var t := OnScroll(c, s, view, step).state;
            t.currentIndex == s.currentIndex || t.currentIndex == c.dup + c.total || t.currentIndex == c.dup - 1
    ensures OnScroll(c, s, view, step).commands != [] ==>
              OnScroll(c, s, view, step).state.currentIndex == OnScroll(c, s, view, step).state.lastScrollIndex
  {
  }

  /** When the settle check finds the offset unchanged on a cloned position of the
      track and no button wrap holds the lock, the index lands on a real card, the same
      card the clone showed, and the clone is remembered as the last index seen. */
  lemma {:induction false} DebounceSettlesOnRealCard(c: Config, s: State, scrollLeft: int, step: int)
    requires c.infinite && 0 <= c.dup <= c.total && c.total > 0
    requires Consistent(c, s) && !s.isTransitioning && step != 0
    requires s.pendingDebounce.Some? && InTrack(c, s.pendingDebounce.value)
    requires IndexOf(scrollLeft, step) == s.pendingDebounce.value
    ensures var t := FireDebounce(c, s, scrollLeft, step).state;
            && InWindow(c, t.currentIndex)
            && RealCard(c, t.currentIndex) == RealCard(c, s.pendingDebounce.value)
            && t.lastScrollIndex == s.pendingDebounce.value
  {
    RemapLandsInWindow(c, s.pendingDebounce.value);
    RemapPreservesCard(c, s.pendingDebounce.value);
  }

  // ---------------------------------------------------------------------------
  // The transition lock
  // ---------------------------------------------------------------------------

  /** An input event: a click, a scroll event or a button refresh (no timer). */
  predicate IsInput(e: Event) {
    e.LeftClick? || e.RightClick? || e.Scroll? || e.Refresh?
  }

  /** While a button-driven re-map is pending in infinite mode, clicks, scroll events
      and refreshes change nothing at all. */
  lemma {:induction false} LockedInputsIgnored(c: Config, s: State, es: seq<Event>)
    requires c.infinite && Consistent(c, s) && s.isTransitioning && AllDefined(es)
    requires forall i :: 0 <= i < |es| ==> IsInput(es[i])
    ensures Run(c, s, es) == s
    decreases |es|
  {
    if es != [] {
      assert Apply(c, s, es[0]) == s;
      assert forall i :: 0 <= i < |es[1..]| ==> IsInput(es[1..][i]) by {
        forall i | 0 <= i < |es[1..]| ensures IsInput(es[1..][i]) {
          assert es[1..][i] == es[i + 1];
        }
      }
      LockedInputsIgnored(c, s, es[1..]);
    }
  }

  /** A click in direction `delta` that leaves the real window, followed by any inputs
      during the lock and then the re-map timer, settles on the real card `delta`
      positions away in the circular order, with the lock released. */
  lemma {:induction false} ClickWrapSettles(c: Config, s: State, delta: int, es: seq<Event>, step: int, step2: int)
    requires c.infinite && Consistent(c, s) && !s.isTransitioning && (delta == -1 || delta == 1)
    requires !InWindow(c, s.currentIndex + delta)
    requires AllDefined(es) && forall i :: 0 <= i < |es| ==> IsInput(es[i])
    ensures var first := if delta == 1 then RightClick(step) else LeftClick(step);
            var t := Run(c, s, [first] + es + [RemapTimer(step2)]);
            && t.currentIndex == RemapTarget(c.dup, c.total, s.currentIndex + delta).value
            && !t.isTransitioning
  {
    var first := if delta == 1 then RightClick(step) else LeftClick(step);
    var s1 := Apply(c, s, first);
    assert s1.isTransitioning && s1.pendingRemap == RemapTarget(c.dup, c.total, s.currentIndex + delta);
    ConsistentStep(c, s, first);
    assert Run(c, s, [first]) == s1 by {
      assert [first][1..] == [];
    }
    LockedInputsIgnored(c, s1, es);
    RunAppend(c, s, [first], es);
    RunAppend(c, s, [first] + es, [RemapTimer(step2)]);
    assert Run(c, s1, [RemapTimer(step2)]) == Apply(c, s1, RemapTimer(step2)) by {
      assert [RemapTimer(step2)][1..] == [];
    }
  }

  /** Advancing past the last real card settles on the first real card, whatever the
      user clicks or scrolls while the smooth scroll is running (for three clones and
      ten cards: from 12, through 13, to 3). */
  lemma {:induction false} ForwardWrapSettlesOnFirst(c: Config, s: State, es: seq<Event>, step: int, step2: int)
    requires c.infinite && c.total > 0 && Consistent(c, s) && !s.isTransitioning
    requires s.currentIndex == c.dup + c.total - 1
    requires AllDefined(es) && forall i :: 0 <= i < |es| ==> IsInput(es[i])
    ensures Run(c, s, [RightClick(step)] + es + [RemapTimer(step2)]).currentIndex == c.dup
  {
    ClickWrapSettles(c, s, 1, es, step, step2);
  }

  /** Stepping back from the first real card settles on the last real card. */
  lemma {:induction false} BackwardWrapSettlesOnLast(c: Config, s: State, es: seq<Event>, step: int, step2: int)
    requires c.infinite && c.total > 0 && Consistent(c, s) && !s.isTransitioning
    requires s.currentIndex == c.dup
    requires AllDefined(es) && forall i :: 0 <= i < |es| ==> IsInput(es[i])
    ensures Run(c, s, [LeftClick(step)] + es + [RemapTimer(step2)]).currentIndex == c.dup + c.total - 1
  {
    ClickWrapSettles(c, s, -1, es, step, step2);
  }

  /** Each fast path jumps to the clone of the boundary card it saw: backward to the
      trailing clone of the first real card, forward to the leading clone of the last. */
  lemma {:induction false} FastPathsKeepCard(c: Config)
    requires c.total > 0
    ensures RealCard(c, c.dup + c.total) == RealCard(c, c.dup)
    ensures RealCard(c, c.dup - 1) == RealCard(c, c.dup + c.total - 1)
  {
    ModShift(0, c.total);
    ModShift(-1, c.total);
  }

  // ---------------------------------------------------------------------------
  // Infinite mode without counts
  // ---------------------------------------------------------------------------

  /** `n` copies of a sequence of events, one after the other. */
  function Repeat(es: seq<Event>, n: nat): (r: seq<Event>)
    ensures |r| == n * |es|
  {
    if n == 0 then [] else es + Repeat(es, n - 1)
  }

  lemma {:induction false} RepeatDefined(es: seq<Event>, n: nat)
    requires AllDefined(es)
    ensures AllDefined(Repeat(es, n))
  {
    if n > 0 {
      RepeatDefined(es, n - 1);
      AllDefinedAppend(es, Repeat(es, n - 1));
    }
  }

  /** In infinite mode with both counts zero (the data attributes missing), every
      position is outside the empty real window and re-maps to itself: `n` rounds of a
      right click and its re-map timer move the index `n` places, without bound. */
  lemma {:induction false} ZeroCountsUnbounded(s: State, step: int, n: nat)
    requires Consistent(Config(true, 0, 0), s) && !s.isTransitioning
    ensures AllDefined(Repeat([RightClick(step), RemapTimer(step)], n))
    ensures var t := Run(Config(true, 0, 0), s, Repeat([RightClick(step), RemapTimer(step)], n));
            t.currentIndex == s.currentIndex + n && !t.isTransitioning && Consistent(Config(true, 0, 0), t)
    decreases n
  {
    var c := Config(true, 0, 0);
    var round := [RightClick(step), RemapTimer(step)];
    RepeatDefined(round, n);
    if n > 0 {
      var s1 := Apply(c, s, round[0]);
      var s2 := Apply(c, s1, round[1]);
      assert s2.currentIndex == s.currentIndex + 1 && !s2.isTransitioning;
      ConsistentStep(c, s, round[0]);
      ConsistentStep(c, s1, round[1]);
      assert Run(c, s, round) == s2 by {
        assert round[1..] == [round[1]] && round[1..][1..] == [];
        assert Run(c, s, round) == Run(c, s1, round[1..]);
        assert Run(c, s1, round[1..]) == Run(c, s2, []);
      }
      RepeatDefined(round, n - 1);
      RunAppend(c, s, round, Repeat(round, n - 1));
      ZeroCountsUnbounded(s2, step, n - 1);
    }
  }
}
