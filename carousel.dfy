/**
  The carousel controller as the object it is at run time: the variables its closure
  owns, updated in place by its event handlers. Each handler is proved to take the
  controller from state `old(Snapshot())` to the state, and to issue the scroll
  commands, that the matching function of CarouselModel describes, and to keep the
  facts of CarouselProperties.Consistent.

  Layout queries are supplied by the caller: `step` is what the step-size calculation
  returns at that moment (see Geometry.StepSize) and a Viewport is what the container
  reports. A timer firing is a call of the matching Fire method.
 */
module CarouselController {
  import opened Optional
  import opened Geometry
  import opened CarouselModel
  import opened CarouselProperties

  class Carousel {
    const infinite: bool
    const duplicateCount: int
    const totalItems: int

    var currentIndex: int
    var isTransitioning: bool
    var lastScrollIndex: int
    var lastScrollLeft: int
    var scrollDirection: int
    var pendingRemap: Option<int>     // target captured by the scheduled 500 ms re-map
    var pendingDebounce: Option<int>  // index captured by the scheduled 200 ms settle check
    var initPending: bool             // the scheduled 0 ms jump to the first real card
    var leftDisabled: bool
    var rightDisabled: bool

    function Configuration(): Config {
      Config(infinite, duplicateCount, totalItems)
    }

    /** The controller's variables as a value of the model. */
    function Snapshot(): State
      reads this
    {
      State(currentIndex, isTransitioning, lastScrollIndex, lastScrollLeft, scrollDirection,
            pendingRemap, pendingDebounce, initPending, Buttons(leftDisabled, rightDisabled))
    }

    predicate Valid()
      reads this
    {
      WellFormed(Configuration()) && Consistent(Configuration(), Snapshot())
    }

    /** Set-up: read the counts (only in infinite mode, only when the duplicate-count
        attribute is there), refresh the buttons once, and in infinite mode with clones
        schedule the jump to the first real card. */
    constructor (infinite: bool, dupAttr: Option<int>, totalAttr: int, view: Viewport)
      ensures Valid()
      ensures Configuration() == ConfigOf(infinite, dupAttr, totalAttr)
      ensures Snapshot() == Initial(Configuration(), view)
    {
      this.infinite := infinite;
      if infinite && dupAttr.Some? {
        duplicateCount := dupAttr.value;
        totalItems := totalAttr;
        currentIndex := dupAttr.value;
      } else {
        duplicateCount := 0;
        totalItems := 0;
        currentIndex := 0;
      }
      isTransitioning := false;
      lastScrollIndex := -1;
      lastScrollLeft := 0;
      scrollDirection := 0;
      pendingRemap := None;
      pendingDebounce := None;
      new;
      UpdateButtonStates(view);
      initPending := infinite && duplicateCount > 0;
    }

    /** Refresh the buttons from the container's current offset and extents. */
    method UpdateButtonStates(view: Viewport)
      modifies this
      ensures Snapshot() == UpdateButtons(Configuration(), old(Snapshot()), view)
    {
      if infinite {
        leftDisabled := false;
        rightDisabled := false;
      } else {
        var maxScroll := view.scrollWidth - view.clientWidth;
        leftDisabled := view.scrollLeft <= 0;
        rightDisabled := view.scrollLeft >= maxScroll - EndTolerance;
      }
    }

    /** A refresh on its own: a resize, or one of the delayed refreshes after set-up and
        after each click. It never touches the index. */
    method Refresh(view: Viewport)
      requires Valid()
      modifies this
      ensures Valid()
      ensures Snapshot() == UpdateButtons(Configuration(), old(Snapshot()), view)
      ensures currentIndex == old(currentIndex)
    {
      UpdateButtonStates(view);
      ConsistentStep(Configuration(), old(Snapshot()), CarouselModel.Refresh(view));
    }

    method ScrollToIndex(index: int, step: int, smooth: bool) returns (cmds: seq<Command>)
      modifies this
      ensures Snapshot() == CarouselModel.ScrollToIndex(old(Snapshot()), index, step, smooth).state
      ensures cmds == CarouselModel.ScrollToIndex(old(Snapshot()), index, step, smooth).commands
    {
      cmds := [ScrollTo(index * step, smooth)];
      currentIndex := index;
    }

    method HandleInfiniteLoop(target: int, step: int, manual: bool) returns (cmds: seq<Command>)
      modifies this
      ensures Snapshot() == CarouselModel.HandleInfiniteLoop(Configuration(), old(Snapshot()), target, step, manual).state
      ensures cmds == CarouselModel.HandleInfiniteLoop(Configuration(), old(Snapshot()), target, step, manual).commands
    {
      cmds := [];
      if !infinite || isTransitioning {
        return;
      }
      if target < duplicateCount {
        var realIndex := duplicateCount + totalItems + (target - duplicateCount);
        if manual {
          cmds := ScrollToIndex(realIndex, step, false);
          currentIndex := realIndex;
        } else {
          isTransitioning := true;
          pendingRemap := Some(realIndex);
        }
      } else if target >= duplicateCount + totalItems {
        var realIndex := duplicateCount + (target - duplicateCount - totalItems);
        if manual {
          cmds := ScrollToIndex(realIndex, step, false);
          currentIndex := realIndex;
        } else {
          isTransitioning := true;
          pendingRemap := Some(realIndex);
        }
      }
    }

    /** The left button: in infinite mode and unlocked, step the index back, scroll to it
        smoothly and check for a wrap; in finite mode scroll back by one step. */
    method ClickLeft(step: int) returns (cmds: seq<Command>)
      requires Valid()
      modifies this
      ensures Valid()
      ensures Snapshot() == Click(Configuration(), old(Snapshot()), step, -1).state
      ensures cmds == Click(Configuration(), old(Snapshot()), step, -1).commands
      ensures infinite && old(isTransitioning) ==> Snapshot() == old(Snapshot()) && cmds == []
    {
      cmds := [];
      if infinite && !isTransitioning {
        currentIndex := currentIndex - 1;
        cmds := ScrollToIndex(currentIndex, step, true);
        var more := HandleInfiniteLoop(currentIndex, step, false);
        cmds := cmds + more;
      } else if !infinite {
        cmds := [ScrollBy(-step)];
      }
      ConsistentStep(Configuration(), old(Snapshot()), LeftClick(step));
    }

    /** The right button, symmetric to the left one. */
    method ClickRight(step: int) returns (cmds: seq<Command>)
      requires Valid()
      modifies this
      ensures Valid()
      ensures Snapshot() == Click(Configuration(), old(Snapshot()), step, 1).state
      ensures cmds == Click(Configuration(), old(Snapshot()), step, 1).commands
      ensures infinite && old(isTransitioning) ==> Snapshot() == old(Snapshot()) && cmds == []
    {
      cmds := [];
      if infinite && !isTransitioning {
        currentIndex := currentIndex + 1;
        cmds := ScrollToIndex(currentIndex, step, true);
        var more := HandleInfiniteLoop(currentIndex, step, false);
        cmds := cmds + more;
      } else if !infinite {
        cmds := [ScrollBy(step)];
      }
      ConsistentStep(Configuration(), old(Snapshot()), RightClick(step));
    }

    /** The 500 ms timer of a button-driven wrap. */
    method FireRemapTimer(step: int) returns (cmds: seq<Command>)
      requires Valid() && pendingRemap.Some?
      modifies this
      ensures Valid()
      ensures Snapshot() == FireRemap(Configuration(), old(Snapshot()), step).state
      ensures cmds == FireRemap(Configuration(), old(Snapshot()), step).commands
      ensures currentIndex == old(pendingRemap.value) && !isTransitioning
    {
      var realIndex := pendingRemap.value;
      cmds := ScrollToIndex(realIndex, step, false);
      currentIndex := realIndex;
      isTransitioning := false;
      pendingRemap := None;
      ConsistentStep(Configuration(), old(Snapshot()), RemapTimer(step));
    }

    /** The 0 ms timer scheduled at set-up. */
    method FireInitTimer(step: int) returns (cmds: seq<Command>)
      requires Valid() && initPending
      modifies this
      ensures Valid()
      ensures Snapshot() == FireInit(Configuration(), old(Snapshot()), step).state
      ensures cmds == FireInit(Configuration(), old(Snapshot()), step).commands
    {
      cmds := ScrollToIndex(duplicateCount, step, false);
      initPending := false;
      ConsistentStep(Configuration(), old(Snapshot()), InitTimer(step));
    }

    method HandleManualScroll(scrollLeft: int, step: int, cards: seq<Rect>, container: Rect)
      returns (cmds: seq<Command>)
      requires step != 0
      modifies this
      ensures Snapshot() == CarouselModel.HandleManualScroll(Configuration(), old(Snapshot()), scrollLeft, step, cards, container).state
      ensures cmds == CarouselModel.HandleManualScroll(Configuration(), old(Snapshot()), scrollLeft, step, cards, container).commands
    {
      cmds := [];
      if !infinite || isTransitioning {
        return;
      }
      if scrollLeft < lastScrollLeft {
        scrollDirection := -1;
      } else if scrollLeft > lastScrollLeft {
        scrollDirection := 1;
      }
      lastScrollLeft := scrollLeft;

      var scrolledIndex := IndexOf(scrollLeft, step);
      if lastScrollIndex == scrolledIndex {
        return;
      }

      if scrollDirection == -1 && scrolledIndex <= duplicateCount + 1 &&
         CardVisible(cards, container, duplicateCount) {
        cmds := ScrollToIndex(duplicateCount + totalItems, step, false);
        currentIndex := duplicateCount + totalItems;
        lastScrollIndex := duplicateCount + totalItems;
        return;
      } else if scrollDirection == 1 && scrolledIndex >= duplicateCount + totalItems - 2 &&
                CardVisible(cards, container, duplicateCount + totalItems - 1) {
        cmds := ScrollToIndex(duplicateCount - 1, step, false);
        currentIndex := duplicateCount - 1;
        lastScrollIndex := duplicateCount - 1;
        return;
      }

      if scrolledIndex < duplicateCount || scrolledIndex >= duplicateCount + totalItems {
        // cancel any pending settle check and schedule a new one
        pendingDebounce := Some(scrolledIndex);
        return;
      }

      lastScrollIndex := scrolledIndex;
    }

    /** A scroll event of the container: refresh the buttons, then handle manual scrolling. */
    method OnScroll(view: Viewport, step: int) returns (cmds: seq<Command>)
      requires Valid() && step != 0
      modifies this
      ensures Valid()
      ensures Snapshot() == CarouselModel.OnScroll(Configuration(), old(Snapshot()), view, step).state
      ensures cmds == CarouselModel.OnScroll(Configuration(), old(Snapshot()), view, step).commands
      ensures infinite && old(isTransitioning) ==> Snapshot() == old(Snapshot()) && cmds == []
    {
      UpdateButtonStates(view);
      cmds := HandleManualScroll(view.scrollLeft, step, view.cards, view.container);
      ConsistentStep(Configuration(), old(Snapshot()), Scroll(view, step));
    }

    /** The 200 ms settle check, run with the offset the container reports when it fires. */
    method FireDebounceTimer(scrollLeft: int, step: int) returns (cmds: seq<Command>)
      requires Valid() && pendingDebounce.Some? && step != 0
      modifies this
      ensures Valid()
      ensures Snapshot() == FireDebounce(Configuration(), old(Snapshot()), scrollLeft, step).state
      ensures cmds == FireDebounce(Configuration(), old(Snapshot()), scrollLeft, step).commands
    {
      var scrolledIndex := pendingDebounce.value;
      pendingDebounce := None;
      cmds := [];
      if IndexOf(scrollLeft, step) == scrolledIndex {
        currentIndex := scrolledIndex;
        cmds := HandleInfiniteLoop(scrolledIndex, step, true);
        lastScrollIndex := scrolledIndex;
      }
      ConsistentStep(Configuration(), old(Snapshot()), DebounceTimer(scrollLeft, step));
    }
  }

  /** A client of the class: three clones around ten cards. After the initial jump to
      3, a left click wraps to the last real card 12 once its timer fires; a right click
      from there wraps back to 3, and a second right click during the lock is ignored. */
  method WrapAroundScenario(view: Viewport) returns (afterLeft: int, afterRight: int)
    ensures afterLeft == 12 && afterRight == 3
  {
    var c := new Carousel(true, Some(3), 10, view);
    var cmds := c.FireInitTimer(100);
    cmds := c.ClickLeft(100);
    assert c.isTransitioning && c.currentIndex == 2;
    cmds := c.FireRemapTimer(100);
    afterLeft := c.currentIndex;
    cmds := c.ClickRight(100);
    assert c.currentIndex == 13 && c.pendingRemap == Some(3);
    cmds := c.ClickRight(100);
    cmds := c.FireRemapTimer(100);
    afterRight := c.currentIndex;
  }
}
