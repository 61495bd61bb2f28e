# Pointer and scroll effects of a portfolio site, modelled in Dafny

The site is a single-page React portfolio. Almost all of it is markup and
content; the behaviour worth stating exactly lives in four small pieces of
per-component state:

- **Magnetic effect** (`useMagneticEffect`): a hovered element drifts toward
  the pointer. Each pointer move schedules an animation-frame callback; the
  callback reads the element's box, computes a target displacement
  `(pointer − centre) × strength` (strength 0.3 by default) and moves the
  current displacement a quarter of the way toward it. Pointer-leave snaps
  the displacement back to (0, 0).
- **Spotlight** (`useSpotlight`): a highlight follows the pointer inside an
  element. The move handler reads the box at event time and captures the
  local position; the frame callback stores it with opacity 1. Pointer-leave
  sets the opacity to 0 and keeps the position.
- **Scroll blur** (`useScrollBlur`): on each animation frame with a pending
  scroll, the delta since the last handled offset gives a blur radius
  (0 up to 50 px of movement, else `min(|delta| / 10, 8)`) and a sticky
  up/down direction. A `ticking` flag lets each registered listener have
  at most one pending frame callback at a time.
- **Certificate deck** (`Certificates`): cards are stacked or fanned out,
  and at most one is selected. Clicking a card toggles its selection unless
  the click is on a link. The expand button flips the mode and clears the
  selection. A per-card layout gives each card a tilt, a shift and a
  stacking order.

Each hook or component is one module (`magnetic.dfy`, `spotlight.dfy`,
`scroll_blur.dfy`, `certificates.dfy`). Its React state is the fields of a
class whose methods are the event handlers. Animation-frame callbacks are
explicit: a move appends to a `pending` field, and `RunFrame` runs the
pending callbacks in order. Its loop is proved against a function that gives
the result of running the callbacks in order. Arithmetic uses `real`. The element's
bounding box is a parameter (`Option<Bounds>`, `None` when the element is
not mounted), and so is the page's scroll offset.

A consequence worth knowing, proved as `Magnetic.StaleCallbackAfterLeave`
and `Spotlight.StaleCallbackAfterLeave`: pointer-leave does not cancel
callbacks that are already scheduled. A move followed by a leave within one
frame therefore ends with the magnet a quarter of the way toward that move's
target, and with the spotlight shown again.

The smoothing factor is the constant 0.25. A scroll of 50 px or less
between handled frames sets the blur to 0 at once. The spotlight updates on
every pointer move.

## Model

| member | source | states |
|---|---|---|
| `Magnetic.MagneticEffect.constructor` | src/hooks/useMagneticEffect.ts:3-5 | the displacement starts at (0, 0), with no callback pending |
| `Magnetic.Target` | src/hooks/useMagneticEffect.ts:13-18 | strength 0 gives a (0, 0) target whatever the pointer; a pointer at the box centre gives (0, 0); with positive strength, each axis of the target is positive exactly when the pointer is past the centre on that axis |
| `Magnetic.Smooth` | src/hooks/useMagneticEffect.ts:20-23 | one update leaves exactly 3/4 of the distance to the target; the result lies between the previous value and the target; the target is a fixed point; otherwise the distance strictly shrinks |
| `Magnetic.Step` | src/hooks/useMagneticEffect.ts:20-23 | one update on both axes leaves 3/4 of the distance to the target on each axis; a displacement already at the target stays put |
| `Magnetic.StepAll` | src/hooks/useMagneticEffect.ts:20-23 | updates applied in order; a run of updates whose targets all equal the current displacement leaves it unchanged; its decay toward one target is `StepAllShrinksGeometrically` |
| `Magnetic.Decayed` | src/hooks/useMagneticEffect.ts:20-23 | the distance left after k updates keeps its sign, never exceeds the starting distance, and is strictly smaller after at least one update |
| `Magnetic.StepAllShrinksGeometrically` | src/hooks/useMagneticEffect.ts:20-23 | k updates toward one fixed target leave the k-fold 3/4 decay of the starting distance on each axis |
| `Magnetic.ApplyCallbacks` | src/hooks/useMagneticEffect.ts:11-24 | with the element unmounted at frame time, or nothing pending, the displacement is kept; what the callbacks do otherwise is stated by `MagneticEffect.RunFrame`, `HeldPointerConverges` and `StaleCallbackAfterLeave` |
| `Magnetic.HeldPointerConverges` | src/hooks/useMagneticEffect.ts:11-24 | k frame callbacks for the same pointer over the same box leave the distance to that sample's target decayed k times |
| `Magnetic.StaleCallbackAfterLeave` | src/hooks/useMagneticEffect.ts:7-29 | a callback that runs after a reset moves the element from (0, 0) to a quarter of its target |
| `Magnetic.MagneticEffect.MouseMove` | src/hooks/useMagneticEffect.ts:7-11 | an unmounted element schedules nothing; otherwise one callback carrying the sample is queued; the displacement is untouched |
| `Magnetic.MagneticEffect.MouseLeave` | src/hooks/useMagneticEffect.ts:27-29 | the displacement becomes exactly (0, 0) from any state, so a second leave changes nothing |
| `Magnetic.MagneticEffect.RunFrame` | src/hooks/useMagneticEffect.ts:11-24 | every pending callback runs in order against the box read at frame time; an unmounted element keeps its displacement; nothing stays pending |
| `Spotlight.SpotlightEffect.constructor` | src/hooks/useSpotlight.ts:3-4 | the initial state is x 0, y 0, opacity 0 |
| `Spotlight.ToLocal` | src/hooks/useSpotlight.ts:11-13 | local coordinates map back to the same viewport pointer through the box's top-left corner; a pointer at that corner is at local (0, 0) |
| `Spotlight.ToLocalInjective` | src/hooks/useSpotlight.ts:11-13 | distinct pointers over one box give distinct local positions |
| `Spotlight.Show` | src/hooks/useSpotlight.ts:18 | an accepted move always gives opacity 1 |
| `Spotlight.ShowIgnoresPrevious` | src/hooks/useSpotlight.ts:18 | the state after an accepted move does not depend on the state before it |
| `Spotlight.ApplyCallbacks` | src/hooks/useSpotlight.ts:16-19 | with the element unmounted at frame time, or nothing pending, the state is kept; otherwise the highlight is shown (opacity 1); an opacity of 0 or 1 stays 0 or 1; the position shown is stated by `LastMoveWins` |
| `Spotlight.ApplyCallbacksWellFormed` | src/hooks/useSpotlight.ts:16-19 | running any pending callbacks keeps the opacity exactly 0 or 1 |
| `Spotlight.LastMoveWins` | src/hooks/useSpotlight.ts:16-19 | after a frame with the element mounted, the state is the latest captured position, shown |
| `Spotlight.RepeatedMoveIdempotent` | src/hooks/useSpotlight.ts:18 | repeating the same move changes nothing further |
| `Spotlight.StaleCallbackAfterLeave` | src/hooks/useSpotlight.ts:16-24 | a callback that runs after a leave shows the highlight again |
| `Spotlight.SpotlightEffect.MouseMove` | src/hooks/useSpotlight.ts:7-14 | an unmounted element changes nothing; otherwise the local position, from the box at event time, is queued |
| `Spotlight.SpotlightEffect.MouseLeave` | src/hooks/useSpotlight.ts:22-24 | the opacity becomes 0 and x and y are kept; the opacity stays 0 or 1 |
| `Spotlight.SpotlightEffect.RunFrame` | src/hooks/useSpotlight.ts:16-19 | the pending callbacks run in order; if the element is unmounted at frame time nothing changes; nothing stays pending |
| `ScrollBlur.BlurFor` | src/hooks/useScrollBlur.ts:21-29 | the blur lies in [0, 8]; a move of at most 50 px, 50 included, gives 0; any non-zero blur exceeds 5; moves of 80 px or more give 8; in between, the blur is a tenth of the distance |
| `ScrollBlur.BlurIsSymmetric` | src/hooks/useScrollBlur.ts:24-25 | scrolling up or down by the same distance gives the same blur |
| `ScrollBlur.BlurIsMonotonic` | src/hooks/useScrollBlur.ts:24-29 | a longer scroll never gives less blur |
| `ScrollBlur.BlurExamples` | src/hooks/useScrollBlur.ts:21-29 | deltas 100, 60, 5, 50 and -100 give blur 8, 6, 0, 0 and 8 |
| `ScrollBlur.NextDirection` | src/hooks/useScrollBlur.ts:14-18 | the direction is down exactly when the delta is positive, or zero with down before; likewise up; a zero delta keeps the previous direction |
| `ScrollBlur.StillFramesKeepDirection` | src/hooks/useScrollBlur.ts:14-18 | any number of frames without movement leave the direction as it was |
| `ScrollBlur.DirectionAfter` | src/hooks/useScrollBlur.ts:11-18 | over no frames the direction is unchanged; once a direction is known it is never lost; which direction results is stated by `StillFramesKeepDirection` and `DirectionIsLatestMove` |
| `ScrollBlur.DirectionIsLatestMove` | src/hooks/useScrollBlur.ts:11-18 | after a sequence of frames, the direction is that of the latest frame that saw movement |
| `ScrollBlur.ScrollBlurEffect.constructor` | src/hooks/useScrollBlur.ts:4-6 | the initial state is blur 0, no direction, last offset 0, nothing pending |
| `ScrollBlur.ScrollBlurEffect.HandleScroll` | src/hooks/useScrollBlur.ts:9-32 | blur and direction come from the delta to the last handled offset; the last offset becomes the current one whatever the delta; the blur stays in [0, 8] and above 5 when non-zero |
| `ScrollBlur.ScrollBlurEffect.OnScroll` | src/hooks/useScrollBlur.ts:36-44 | a scroll event only marks a frame as pending; while one is pending it changes nothing at all |
| `ScrollBlur.ScrollBlurEffect.RunFrame` | src/hooks/useScrollBlur.ts:38-41 | with a frame pending, the handler runs once with the offset at frame time and `ticking` is cleared; with none pending nothing changes |
| `Certificates.Offset` | src/components/Certificates.tsx:116-118 | a card's offset is negative exactly when it lies left of the middle of the deck, and zero exactly for the middle card of an odd deck |
| `Certificates.CardPose` | src/components/Certificates.tsx:116-153 | a card's stacking order exceeds the card count exactly when it is the selected card; the selected card is upright, unshifted and raised to -30; stacked cards are upright and unshifted; the rest is stated by `SelectedCardOnTop`, `SelectedCardPose`, `NearerMiddleStacksHigher`, `SelectionLowersOthers`, `MirrorCardsAreSymmetric`, `StackedCardsStepDown` and `FannedCardsLeanOutward` |
| `Certificates.SelectedCardOnTop` | src/components/Certificates.tsx:124-129 | the selected card's stacking order is above every other card's |
| `Certificates.SelectedCardPose` | src/components/Certificates.tsx:131-153 | the selected card has tilt 0, shift 0 and height -30, stacked or expanded |
| `Certificates.NearerMiddleStacksHigher` | src/components/Certificates.tsx:116-129 | among unselected cards, the one nearer the middle is drawn higher |
| `Certificates.SelectionLowersOthers` | src/components/Certificates.tsx:125-129 | while a card is selected, every other card sits exactly 10 levels below its order with no selection |
| `Certificates.MirrorCardsAreSymmetric` | src/components/Certificates.tsx:116-153 | when neither is selected, cards i and n−1−i tie in stacking order and, fanned out, have opposite tilt and shift and equal height |
| `Certificates.StackedCardsStepDown` | src/components/Certificates.tsx:132-139 | stacked unselected cards are upright and unshifted at height 4·index, each 4 px below the one before |
| `Certificates.FannedCardsLeanOutward` | src/components/Certificates.tsx:148-152 | a fanned unselected card shifts ten times its tilt, drops by a quarter of its shift in size (2.5 times its tilt), and leans left exactly when it is left of the middle |
| `Certificates.ShippedDeckOrder` | src/components/Certificates.tsx:13-129 | the four shipped cards, none selected, stack at orders 2.5, 3.5, 3.5, 2.5 |
| `Certificates.OnLink` | src/components/Certificates.tsx:50-53 | a click counts as on a link exactly when the target or one of its ancestors is an anchor |
| `Certificates.TagTestIsSubsumed` | src/components/Certificates.tsx:51 | the target's own tag test is already covered by the ancestor search |
| `Certificates.Clicked` | src/components/Certificates.tsx:54 | clicking the selected card leaves nothing selected; clicking any other card selects that card |
| `Certificates.ClickTwiceDeselects` | src/components/Certificates.tsx:54 | a second click on a card undoes the selection the first click made |
| `Certificates.CertificateDeck.constructor` | src/components/Certificates.tsx:45-46 | the deck starts stacked with nothing selected |
| `Certificates.CertificateDeck.CardClick` | src/components/Certificates.tsx:48-55 | a click on a link changes nothing; any other click toggles that card's selection; the mode never changes |
| `Certificates.CertificateDeck.ExpandToggle` | src/components/Certificates.tsx:57-63 | the mode flips and the selection is always empty afterwards, so two toggles restore the mode with nothing selected |
| `Certificates.CertificateDeck.PoseOf` | src/components/Certificates.tsx:115-153 | the selected card's stacking order exceeds the card count, and every other card's stays at or below it |

## Left out

- Rendering: all markup, styling classes, static content (besides the
  number of certificates) and the animation library's transitions,
  springs, hover variants and scroll-linked interpolation. These are
  library calls or presentation data.
- Timing and the DOM: real animation-frame scheduling, `getBoundingClientRect`
  and `window.scrollY`. They become method parameters and explicit
  `RunFrame` calls. All callbacks pending at a frame see the same box and the
  same offset.
- React's batching of state updates is not modelled: each handler's update
  takes effect at once, in call order. For the magnetic effect this is what
  the functional updater already guarantees.
- The scroll effect's listener is registered again whenever `lastScrollY`
  changes, each time with a fresh closure over the new `lastScrollY` and its
  own `ticking = false` (src/hooks/useScrollBlur.ts:9-11, 35, 46-51). The
  model keeps one `lastScrollY` and one `ticking` field. This matches the
  code only if React re-renders and re-runs the effect before the next
  scroll event after a frame callback has run.
- Stale scroll delta: a scroll event that arrives after a frame callback has
  run but before the effect re-runs is handled by the old listener. Its
  `ticking` is already false again, and its closure still holds the
  superseded `lastScrollY`. The callback it schedules measures the delta from
  that old offset. The model always measures from the latest handled offset.
- Second pending scroll callback: after the effect re-runs, the new listener
  starts with its own `ticking = false`. It can therefore schedule a callback
  while one scheduled by the old listener is still pending, so two handler
  runs can fall in one frame. The model allows at most one pending callback.
- Floating-point rounding: arithmetic is on exact reals.
- The k-step decay of the magnetic displacement is stated as a recursion
  (three quarters per step, `Magnetic.Decayed`), not as the closed form
  (3/4)^k times the distance. The two are equal; the recursion keeps the
  proofs linear.
- Resume download, image preloading, the contact form stub, the bounce effect,
  the animation presets, particle placement and smooth-scroll links: these are
  I/O, timers or fixed presentation values.
