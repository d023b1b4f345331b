# Carousel index state machine

A Dafny model of the horizontal card carousel controller of a portfolio site
(`setupCarousel` in `main.js`). The controller turns button clicks and native scroll
offsets into a logical `currentIndex` and issues scroll commands to the container.
It has two modes:

- **finite**: the buttons scroll the container by one step (card width plus gap) and
  are disabled at the ends of the content;
- **infinite**: the track holds `duplicateCount` cloned cards, the `totalItems` real
  cards, and `duplicateCount` clones again. When the index enters a clone zone it is
  silently re-mapped by plus or minus `totalItems`. A button wrap waits 500 ms for the
  smooth scroll to finish, holding a lock (`isTransitioning`) meanwhile. Manual
  scrolling has two fast paths at the real boundary cards and a 200 ms settle check.

Files:

- `geometry.dfy`: the pure computations. `StepSize` (`calculateScrollAmount`),
  `IndexOf` (`Math.round(scrollLeft / step)`, rounding half-way values up),
  `CardVisible` (`isCardVisible`) and `ButtonStates` (`updateButtonStates`).
- `carousel_model.dfy`: the controller as a pure state machine. `State` holds the
  closure variables, the captured targets of the pending timers and the button states.
  There is one function per handler. Each returns the new state and the scroll
  commands issued. `Run` applies a sequence of events.
- `carousel_props.dfy`: properties over event sequences. It covers the facts every
  reachable state keeps, the bound on the index, the transition lock and the
  wrap-around scenarios.
- `carousel.dfy`: class `Carousel`. It owns the same variables and updates them in
  place, handler by handler, as the source does. Each method is proved to produce
  exactly the state and commands of the matching model function. The event handlers
  (`Refresh`, `ClickLeft`, `ClickRight`, `OnScroll` and the three `Fire…` timer
  methods) are also proved to keep `Consistent`; the internal helpers they call
  (`UpdateButtonStates`, `ScrollToIndex`, `HandleInfiniteLoop`, `HandleManualScroll`)
  are specified by the model alone.

Timers are explicit state. `pendingRemap` is the target captured by the 500 ms re-map.
`pendingDebounce` is the index captured by the 200 ms settle check. `initPending` is
the 0 ms jump to the first real card. A timer firing is an event (`RemapTimer`,
`DebounceTimer`, `InitTimer`) or a `Fire…` method of the class. Layout readings are
parameters. `step` is what the step calculation returns at that moment. A `Viewport`
holds `scrollLeft`, `scrollWidth`, `clientWidth` and the bounding rectangles of the
container and the cards. The delayed and resize-triggered `updateButtonStates` calls
only recompute the buttons from live geometry. They are the `Refresh` event and
`Carousel.Refresh`.

Behaviours of the code that the model keeps, and that a reader might not expect:

- Manual scrolling inside the real window records `lastScrollIndex` but never updates
  `currentIndex`. A later click therefore moves from the index the last click, fast
  path or settle check set (`ScrollMovesIndexOnlyByFastPath`).
- The fast paths leave the index on a clone: `duplicateCount + totalItems` or
  `duplicateCount - 1`. No re-map follows.
- A settle check that fires while a button wrap holds the lock still sets
  `currentIndex` to the cloned index. The lock's own timer later overwrites it.

Behaviours a reader might expect that the code does not have:

- Bad count attributes do not fall back to zero. Zero counts arise only when the
  duplicate-count attribute is absent or empty. A present but non-numeric attribute,
  or a missing total-count attribute, gives `NaN`.
- The index can rest on a clone: the fast paths leave it there. It does not always
  stay in `[0, 2*duplicateCount + totalItems)`: it stays in the track only with at
  least two clones on each side (`BoundedRun`). With one clone a side it can leave the
  track (`SingleCloneLeavesTrack`). With zero counts it is unbounded
  (`ZeroCountsUnbounded`).

## Model

| member | source | states |
|---|---|---|
| Geometry.StepSize | main.js:82-92 | With a card, the step is its width plus the effective gap; with no card it is the default step |
| Geometry.EffectiveGap | main.js:88 | A gap that does not parse (NaN) or parses to 0 becomes 20; any other parsed gap is kept; the gap used is never 0 |
| Geometry.DefaultStepNonZero | main.js:63 | With the default option of 392 px, the step is never 0, and it is 392 when the track holds no card |
| Geometry.StepSizePositive | main.js:82-92 | A non-negative card width and a non-negative gap give a step larger than the card width; with no card a positive default gives a positive step |
| Geometry.IndexOf | main.js:105-108 | The index is the integer nearest to scrollLeft / step, a tie rounding up (as Math.round does), for either sign of the step |
| Geometry.RoundsToUnique | main.js:107 | At most one integer is the rounded quotient, so the index of an offset is determined |
| Geometry.IndexOfRoundTrip | main.js:105-117 | Reading back the offset `i * step` that scrollToIndex(i) targets gives `i` again |
| Geometry.IndexOfMonotone | main.js:105-108 | With a positive step, a larger offset never reads as a smaller index |
| Geometry.IndexWithin | main.js:105-108 | An offset between the first and the last of n card positions reads as one of those n indices |
| Geometry.CardVisible | main.js:188-196 | A card is visible exactly when it exists and its rectangle overlaps the container's; a missing card is never visible |
| Geometry.OverlapsMeansSharedPoint | main.js:192-195 | For rectangles of positive width, the strict overlap test holds exactly when they share an interior point: partial overlap counts, touching edges do not |
| Geometry.ButtonStates | main.js:94-103 | Infinite mode enables both buttons; finite mode disables left iff scrollLeft <= 0 and right iff scrollLeft >= scrollWidth - clientWidth - 2 |
| Geometry.FiniteButtonsAtEdges | main.js:99-101 | In finite mode the left button is disabled at offset 0 and the right one at the maximum offset, and both are enabled strictly between the start and the 2 px band before the end |
| Geometry.FiniteButtonsMonotone | main.js:99-101 | When the content can scroll more than 2 px the buttons are never disabled together; scrolling right never re-enables the right button nor disables the left |
| CarouselModel.ConfigOf | main.js:71-80 | The counts are read only in infinite mode and only when the duplicate-count attribute is present; otherwise both are 0 |
| CarouselModel.Initial | main.js:71-80 | At set-up the index is the duplicate count (0 without clones), nothing is locked or pending, the last index is -1 and the last offset and the direction are 0 (main.js:184-186), the buttons reflect the current offset (main.js:253), and the jump to the first real card is scheduled exactly in infinite mode with clones |
| CarouselModel.RemapTarget | main.js:119-150 | No re-map exactly inside the real window; a target before the window moves forward by `totalItems`, one at or past its end moves back by `totalItems` |
| CarouselModel.RemapLandsInWindow | main.js:122-137 | With duplicateCount <= totalItems, every re-mapped track position lands in the real window |
| CarouselModel.RemapPreservesCard | main.js:122-137 | The re-mapped index shows the same real card as the target: it is congruent to the target modulo totalItems |
| CarouselModel.RemapExamples | main.js:119-150 | With 3 clones and 10 cards, 13 maps to 3, 2 maps to 12, and 3..12 are not re-mapped |
| CarouselModel.ScrollToIndex | main.js:110-117 | A move records the index, changes nothing else, and issues exactly one absolute scroll to `index * step` with the requested smoothness |
| CarouselModel.ScrollToIndexRoundTrip | main.js:105-117 | After scrollToIndex(i), the index is i and the commanded offset reads back as i |
| CarouselModel.HandleInfiniteLoop | main.js:119-151 | The wrap check does nothing in finite mode, under the lock or inside the window; otherwise a manual caller jumps instantly to the re-mapped index and a button caller sets the lock and captures the target |
| CarouselModel.Click | main.js:153-181 | Under the lock an infinite-mode click changes nothing; finite mode scrolls by one step; otherwise the index moves by one with a smooth scroll to its offset; inside the real window nothing else changes, outside it the lock is set and the re-map target of the new index is captured, all other fields unchanged |
| CarouselModel.FireRemap | main.js:129-134 | When the 500 ms timer fires the index becomes the captured target (instant scroll) and the lock is released; nothing else changes |
| CarouselModel.FireInit | main.js:255-259 | The 0 ms timer jumps instantly to the first real card |
| CarouselModel.UpdateButtons | main.js:249-251 | A refresh (resize or delayed refresh) replaces only the button states |
| CarouselModel.NextDirection | main.js:201-207 | A smaller offset gives direction -1, a larger one +1, an equal one keeps the previous direction |
| CarouselModel.HandleManualScroll | main.js:198-242 | Nothing under the lock or in finite mode; otherwise lastScrollLeft is the reading and the direction follows it. An unchanged index stops there. A fast path jumps to dup+total or dup-1, recording it as the last index, without a settle check. An out-of-window index (re)schedules the settle check. An in-window index is recorded as the last one |
| CarouselModel.OnScroll | main.js:244-247 | A scroll event leaves the buttons as the current offset gives them; its commands, and every other field, are those of the manual-scroll handler on the old state |
| CarouselModel.FireDebounce | main.js:229-237 | The settle check is consumed; if the offset no longer reads as the captured index nothing else changes; otherwise that index is recorded as last seen and becomes current, re-mapped instantly (one instant scroll) unless the lock is held; no other field changes |
| CarouselProperties.ConsistentInitial | main.js:253-259 | The state after set-up satisfies the reachable-state facts |
| CarouselProperties.ConsistentRun | main.js:119-242 | Every event sequence keeps the facts: lock iff a re-map is pending, direction in -1..1, settle checks only on clones, both buttons enabled in infinite mode, finite mode never changes the index state |
| CarouselProperties.BoundedRun | main.js:119-242 | With 2 <= duplicateCount <= totalItems and scroll readings on the track, the index never leaves the track, at rest lies within one position of the real window, and every pending re-map targets a real card |
| CarouselProperties.SingleCloneLeavesTrack | main.js:213-217 | With one clone a side, the backward fast path followed by a right click moves the index past the end of the track |
| CarouselProperties.ScrollMovesIndexOnlyByFastPath | main.js:198-242 | A scroll event leaves the index unchanged or sets it to a fast-path target; when it issues a jump, the new index is also the last index seen |
| CarouselProperties.DebounceSettlesOnRealCard | main.js:229-237 | An unchanged reading on a clone settles on the real card that clone showed, inside the window, and the clone index is recorded as last seen |
| CarouselProperties.LockedInputsIgnored | main.js:153-199 | While a button wrap is pending, any sequence of clicks, scroll events and refreshes leaves the whole state unchanged |
| CarouselProperties.ClickWrapSettles | main.js:119-181 | A click leaving the real window, any inputs during the lock, then the timer: the index ends on the re-mapped target and the lock is released |
| CarouselProperties.ForwardWrapSettlesOnFirst | main.js:136-148 | Advancing from the last real card settles on the first real card (3 clones, 10 cards: 12 to 13 to 3) |
| CarouselProperties.BackwardWrapSettlesOnLast | main.js:122-134 | Stepping back from the first real card settles on the last real card |
| CarouselProperties.FastPathsKeepCard | main.js:213-227 | Each fast-path target is the clone of the boundary card that was visible |
| CarouselProperties.ZeroCountsUnbounded | main.js:72-80 | In infinite mode with both counts 0, n rounds of right click and re-map timer move the index n places |
| CarouselController.Carousel.constructor | main.js:56-80 | Set-up yields the configuration read from the attributes and the initial state |
| CarouselController.Carousel.UpdateButtonStates | main.js:94-103 | Writes the button states that ButtonStates gives for the current offset |
| CarouselController.Carousel.Refresh | main.js:249-251 | A resize refresh keeps the facts and never changes the index |
| CarouselController.Carousel.ScrollToIndex | main.js:110-117 | Sets the index and issues the absolute scroll |
| CarouselController.Carousel.HandleInfiniteLoop | main.js:119-151 | Updates the fields exactly as the wrap check of the model |
| CarouselController.Carousel.ClickLeft | main.js:153-166 | Performs the model's left click and keeps the facts; under the lock in infinite mode nothing changes |
| CarouselController.Carousel.ClickRight | main.js:168-181 | Performs the model's right click and keeps the facts; under the lock in infinite mode nothing changes |
| CarouselController.Carousel.FireRemapTimer | main.js:129-134 | The index becomes the captured target and the lock is released |
| CarouselController.Carousel.FireInitTimer | main.js:255-259 | Performs the initial jump to the first real card |
| CarouselController.Carousel.HandleManualScroll | main.js:198-242 | Updates direction, last offset, last index, fast-path jumps and the settle check as the model does |
| CarouselController.Carousel.OnScroll | main.js:244-247 | Refreshes the buttons, then handles manual scrolling; under the lock in infinite mode nothing changes |
| CarouselController.Carousel.FireDebounceTimer | main.js:231-237 | Performs the settle check as the model does and keeps the facts |
| CarouselController.WrapAroundScenario | main.js:119-181 | With 3 clones and 10 cards: a left click from 3 settles on 12; a right click from 12, with a second one during the lock, settles on 3 |

## Left out

- Fade-in on view, smooth anchor scrolling and card background injection (main.js:1-54) are stateless DOM toggles.
- The work gallery's rendering and item fetch (main.js:280-321) are markup and network I/O.
- The wheel adapter over the third-party slide engine (main.js:323-415) is left out. It is a thin wrapper over an opaque component, and its momentum loop is floating-point arithmetic driven by animation frames.
- The modal, the Escape handler and the page-load wiring (main.js:417-464) are left out, and so is `initTechCarousel` (main.js:264-278). That caller sets up finite mode only.
- The early return when a DOM handle is missing (main.js:67-69) creates no controller. The model starts from a controller whose handles exist.
- Wall-clock time is left out. The model does not fix the order in which timers and events interleave: any order is a possible event sequence.
- The smooth-scroll animation is left out, and so is the browser's clamping of a scroll target beyond the content. The scroll events a scroll command causes are inputs.
- Geometry.IndexOf: a step of 0 is excluded (`requires step != 0`). The source then divides by zero and gets an index of Infinity or NaN. This happens only with no card and a default step of 0 (`StepSizePositive`).
- Counts that parse to NaN are not modelled: a non-numeric duplicate-count attribute, or a missing or non-numeric total-count attribute. The model takes integer counts.
- `scrollLeft`, widths and steps are whole pixels. Fractional scroll offsets are not modelled. Bounding rectangles are reals.
- Several refresh timers can be pending at once after rapid clicks. They are not tracked, because each only recomputes the buttons from live geometry (`Refresh`).
