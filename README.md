# SelectionView: a verified model of the selection state machine

`SelectionView` is a UIKit container view. It tracks its *selectable* subviews:
those conforming to the `Selectable` protocol, which have an `isSelected` flag.
It turns two gestures into changes of those flags:

- a **tap** inverts the flag of every tracked subview whose frame contains the
  tapped point; in single-selection mode it deselects everything before each
  such inversion;
- a **pan** in its `Changed` state draws a marquee rectangle from the pan's
  start to its current point and sets every flag to whether the subview's frame
  intersects the marquee.

A multiple-selection flag turns the pan gesture on and off; turning it off also
deselects everything and zeroes the marquee.

The repository holds the same logic twice. `SelectionView/SelectionView.swift`
is the Swift 2 version: its flag is `allowsMultipleSelection`, which starts on,
and its marquee view is `multipleSelectionView`. `Sources/SelectionView.swift`
is the Swift 3 version: its flag is `isMultiselectable`, which starts off, and
its marquee view is `multiselectionView`. Line for line the two files match up
to line 68; from there on the Swift 3 file is one line further down (for
example `selectOne` is at 92-102 in one and 93-103 in the other). One Dafny
model covers both. The only difference, the initial flag, is captured by two
constructors, `InitSwift2` and `InitSwift3`. In the table below the class
methods cite the Swift 3 file and the value-level lemmas cite the Swift 2 file.

## Layout

- `geometry.dfy` (module `Geometry`): integer points and rectangles.
  `Standardize` is `CGRectStandardize`. `Contains` is half-open on the maximum
  edges. `Intersects` is strict overlap of the standardized rectangles.
  `PanRect` builds the marquee from a pan's location and translation.
- `tracking.dfy` (module `Tracking`): the tracked set as a duplicate-free
  sequence, with `Insert` and `Remove` in the role of `Set.insert` and
  `Set.remove`.
- `gestures.dfy` (module `Gestures`): what a tap and a pan do to the sequence
  of flags, stated on values. `Tap` is a fold over the tracked subviews that
  mirrors the source's loop, deselection included. `Pan` is the effect of one
  pan action. The lemmas here state the promised outcomes.
- `selection_view.dfy` (module `Selection`): the classes. `Element` holds one
  subview's `selected` flag and `frame`. `SelectionView` holds
  `elements : seq<Element>` (`selectableSubviews` in iteration order),
  `multiselect`, `panEnabled` (the pan recognizer's `enabled`) and `marquee`
  (the marquee view's frame). `SelectOne` and its loop body `TapVisit` are
  proved against `Gestures.Tap`, and `SelectMultiple` against `Gestures.Pan`.
  The subview hooks are stated through `Tracking.Insert` and `Tracking.Remove`.
  `ToggleSelectedState`, `DeselectAll` and `SetMultiselect` state their new
  flags directly. Every method's frame names exactly what it may write: the
  `selected` fields it may change and the view fields it assigns.
- `scenarios.dfy` (module `Scenarios`): client methods. Each replays a concrete
  gesture sequence and checks the outcome from the contracts alone.

## Behaviour that follows the code, not a plain reading of "toggle"

In single-selection mode `deselectAll()` runs *inside* the hit loop, before
each toggle (`Sources/SelectionView.swift:97-101`). So:

- tapping the one selected subview again leaves it selected. Deselection
  clears it first and the toggle then turns it back on. See
  `TapSingleRetapKeepsSelection` and `Scenarios.SingleSelectionRetap`;
- a tap on overlapping subviews leaves only the last hit selected, in
  iteration order. See `Gestures.Tap` and
  `Scenarios.OverlapSingleSelection`.

One could expect a second tap to deselect, or every overlapping subview to
flip. The model does what the code does instead. With multiple selection on,
every hit flag is inverted (`Gestures.Tap` again).

## Model

| member | source | states |
|---|---|---|
| `Geometry.Standardize` | SelectionView/SelectionView.swift:95 | the standardized rectangle has a non-negative width and height, starts at the minimum corner, and has the same four edges as the input |
| `Geometry.Contains` | SelectionView/SelectionView.swift:95 | a point lies in a frame exactly when it is on or after the minimum edges and strictly before the maximum edges of the standardized rectangle |
| `Geometry.Intersects` | SelectionView/SelectionView.swift:126 | positive-area overlap of the standardized rectangles: on each axis every minimum edge lies strictly before every maximum edge of both (see Left out) |
| `Geometry.IntersectsIffCommonPoint` | SelectionView/SelectionView.swift:126 | two frames intersect exactly when some grid point lies in both of them (both directions) |
| `Geometry.PanRect` | SelectionView/SelectionView.swift:120-121 | the marquee's edges are the minimum and maximum of `location - translation` and `location` on each axis, so its opposite corners are those two points |
| `Tracking.Insert` | SelectionView/SelectionView.swift:189 | after insertion the set holds exactly the old members plus the new one; earlier members keep their order; no duplicate is created; inserting a member already present changes nothing |
| `Tracking.Remove` | SelectionView/SelectionView.swift:204 | after removal the set holds exactly the old members other than the removed one; it stays duplicate-free; removing a non-member changes nothing |
| `Tracking.InsertThenRemove` | SelectionView/SelectionView.swift:185-206 | adding an untracked selectable subview and then removing it restores the tracked sequence exactly |
| `Gestures.Hits` | SelectionView/SelectionView.swift:95 | the `where` filter of the tap loop: one entry per tracked frame, on exactly when the frame's edges enclose the point (half-open) |
| `Gestures.TapStep` | SelectionView/SelectionView.swift:96-100 | one pass of the loop body: a subview that was not hit changes nothing; a hit one with multiple selection inverts only its own flag; a hit one with single selection leaves only its own flag on |
| `Gestures.Tap` | SelectionView/SelectionView.swift:95-101 | multiple selection: a tap inverts every flag whose frame contains the point and keeps every other flag; single selection: a tap whose point is in no tracked frame changes no flag, otherwise exactly one flag is on, that of the last hit subview in iteration order, whatever the flags were before |
| `Gestures.TapPrefix` | SelectionView/SelectionView.swift:95-101 | after any number of visits the tap loop has kept one flag per tracked subview |
| `Gestures.LastHitBefore` | SelectionView/SelectionView.swift:95 | when some subview among the first k is hit, the result is the hit one that no later hit subview among them follows |
| `Gestures.TapPrefixMultiple` | SelectionView/SelectionView.swift:95-101 | with multiple selection on, the loop has inverted exactly the hit flags among those visited and left the others alone |
| `Gestures.TapPrefixSingleMiss` | SelectionView/SelectionView.swift:95-101 | with multiple selection off, the loop changes nothing until it meets a hit subview |
| `Gestures.TapPrefixSingleHit` | SelectionView/SelectionView.swift:95-101 | with multiple selection off, once a hit has been met exactly the last hit visited is selected |
| `Gestures.TapMultipleTwiceRestores` | SelectionView/SelectionView.swift:95-101 | multiple selection: two taps at the same point restore the original flags |
| `Gestures.TapSingleKeepsAtMostOne` | SelectionView/SelectionView.swift:95-101 | single selection: if at most one subview was selected before a tap, at most one is selected after it |
| `Gestures.TapSingleRetapKeepsSelection` | SelectionView/SelectionView.swift:96-100 | single selection: re-tapping the selected subview when no other frame is hit leaves it selected |
| `Gestures.HitsOfDisjointFrames` | SelectionView/SelectionView.swift:95 | when no two tracked frames intersect, a tap's point lies in at most one of them |
| `Gestures.IntersectsEachIffCommonPoint` | SelectionView/SelectionView.swift:125-126 | each tracked frame intersects the marquee exactly when the two share a grid point |
| `Gestures.PanFlags` | SelectionView/SelectionView.swift:125-131 | the flags the `Changed` loop writes: one per tracked frame, on exactly when the frame and the marquee share a grid point |
| `Gestures.Pan` | SelectionView/SelectionView.swift:115-135 | `Began` keeps the flags and the marquee; `Changed` makes the marquee `PanRect(location, translation)` and sets every flag to whether its frame intersects it; every other state keeps every flag and zeroes the marquee |
| `Gestures.PanIdempotent` | SelectionView/SelectionView.swift:115-135 | repeating a pan action of any state with the same location and translation leaves the flags and the marquee as the first one left them |
| `Gestures.PanChangedOverwrites` | SelectionView/SelectionView.swift:119-131 | after a `Changed` update the flags and the marquee do not depend on the flags or the marquee before it |
| `Selection.SelectedIn` | SelectionView/SelectionView.swift:21-23 | the filtered sequence holds exactly the subviews whose flag is on; it is duplicate-free when its input is; it is empty exactly when no flag is on |
| `Selection.SelectionView.SelectedSubviews` | Sources/SelectionView.swift:21-23 | `selectedSubviews` holds exactly the tracked subviews whose flag is on, without duplicates, and is empty exactly when no tracked flag is on |
| `Selection.Element.constructor` | Sources/Selectable.swift:16-22 | a selectable subview starts with the given frame and flag |
| `Selection.SelectionView.InitSwift2` | SelectionView/SelectionView.swift:65-68 | after setup in the Swift 2 version nothing is tracked, multiple selection and pan are on, and the marquee is the zero rectangle |
| `Selection.SelectionView.InitSwift3` | Sources/SelectionView.swift:65-69 | after setup in the Swift 3 version nothing is tracked, multiple selection and pan are off, and the marquee is the zero rectangle |
| `Selection.SelectionView.SetMultiselect` | Sources/SelectionView.swift:27-39 | the flag and pan's enabled state take the assigned value; on: the marquee and every flag stay as they were; off: the marquee is zeroed and no tracked subview is selected (`SelectedSubviews()` is empty); the tracked set and the frames never change |
| `Selection.SelectionView.ToggleSelectedState` | Sources/SelectionView.swift:152-156 | the flag becomes the given value, or its inverse when none is given; no other flag and no frame is written |
| `Selection.SelectionView.DeselectAll` | Sources/SelectionView.swift:140-144 | only the currently selected tracked subviews are written; afterwards no tracked subview is selected and `SelectedSubviews()` is empty, so a second call writes nothing |
| `Selection.SelectionView.SelectOne` | Sources/SelectionView.swift:93-103 | the new flags are `Tap` of the old flags and the hit pattern; multiple selection: exactly the hit flags are inverted; single selection with no hit: nothing changes; single selection with a hit: only the last hit subview is selected |
| `Selection.SelectionView.TapVisit` | Sources/SelectionView.swift:97-101 | one pass of the tap loop's body over the n-th tracked subview changes the flags as one step of `Tap` |
| `Selection.SelectionView.SelectMultiple` | Sources/SelectionView.swift:112-137 | `Changed`: the marquee becomes `PanRect(location, translation)` and every tracked flag becomes whether its frame intersects it; every other state keeps every flag; states other than `Began` and `Changed` zero the marquee; nothing else changes |
| `Selection.SelectionView.DidAddSubview` | Sources/SelectionView.swift:186-194 | a selectable subview is inserted into the tracked set without creating a duplicate; any other view leaves it unchanged; no flag changes |
| `Selection.SelectionView.WillRemoveSubview` | Sources/SelectionView.swift:201-207 | a selectable subview is removed from the tracked set; any other view leaves it unchanged; no flag changes |
| `Selection.SelectionView.AddSelectableSubview` | Sources/SelectionView.swift:165-167 | adding a selectable subview has the effect of the add hook |
| `Selection.SelectionView.RemoveSelectableSubview` | Sources/SelectionView.swift:174-176 | removing a selectable subview has the effect of the remove hook |

## Left out

- UIKit plumbing is not modelled: constructing the gesture recognizers,
  `addTarget` and `addGestureRecognizer`, `opaque`, `userInteractionEnabled`,
  the marquee view's `hidden` flag, adding the marquee view as a subview and
  `bringSubviewToFront`. None of it affects a selection flag. The marquee view
  is not `Selectable`, so adding it never changes the tracked set
  (`DidAddSubview(OtherView)`).
- The `Began` branch's `setTranslation(CGPointZero)` resets state inside the
  gesture recognizer. Here location and translation are inputs of each pan
  action, so the reset does not appear.
- UIKit only delivers pan actions while the recognizer is enabled. The model
  records `panEnabled` but, like the action method itself, does not check it
  in `SelectMultiple`.
- `init(coder:)`: the tracked set starts empty, as after `init(frame:)`.
  Subviews decoded from Interface Builder are not modelled.
- Swift `Set` hash order: the tracked set iterates in insertion order. Every
  ordered claim, such as which hit is the last, is relative to that sequence.
- CGFloat: coordinates are unbounded integers.
- Geometry.Intersects: strict overlap with a positive-area intersection stands
  in for `CGRectIntersectsRect`. The CoreGraphics rules for null rectangles
  and for rectangles of zero width or height are not modelled. Nothing is
  claimed about the outcome of a zero-area marquee, such as the first
  `Changed` update before the touch has moved.
- The runtime casts `as! Selectable`: only `Element`s can be tracked, so the
  cast cannot fail and has no error path.
- A subview's frame is a mutable field, because the host may move a subview
  between events. No operation modelled here writes it.
- The `Selectable` protocol itself has no behaviour. It is the `selected`
  field of `Element`.
