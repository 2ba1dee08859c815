# LayerCarousel: a verified model of the base-layer carousel controller

This project models the controller of the `LayerCarousel` React component of
react-geo-baseclient. The component shows candidate base layers of an
OpenLayers map as thumbnails. Hovering a thumbnail previews its layer by
making it the only visible one. Leaving the thumbnail restores the layer that
was visible before. Clicking commits the choice and reports the layer's
`ol_uid` to the `onLayerSelected` callback, unless the press lasted longer
than 180 ms, in which case the gesture is a drag and the click is ignored.

The model has three layers:

- `Visibility` (visibility.dfy) sees the layer list as values. A `LayerView`
  is a layer's uid, its visibility flag and the flags of a group's direct
  children. `SetVisible` is what `setLayersVisible` writes. `FindLayerIndex`
  is `findLayer`. `FirstVisible` is the scan for the currently visible layer.
- `CarouselSpec` (carousel_spec.dfy) holds the component's state as a value:
  the layers, `mouseDownTime`, the hover snapshot `originalBaseLayerOlUid`,
  `renderTrigger`, and the log of uids passed to `onLayerSelected`. It has one
  step function per handler. Its lemmas state what the handlers promise.
- `LayerCarousel` (layer_carousel.dfy) is the component itself. `Layer` is a
  map layer with a mutable `visible` flag and, for a group, its children.
  `Carousel` holds the state fields and has one method per handler. The
  methods flip the layers' flags in place with loops, as the source's
  `forEach` calls do. Each handler method proves
  `State() == <step>(old(State()), ...)`, so the lemmas of `CarouselSpec` hold
  of the methods. Two methods are stated differently. `SetLayersVisible`
  proves `Views() == SetVisible(old(Views()), targets)` on the layer view
  alone. `OnSlideClick` states the flags of the map's layers and of the
  clicked layer, not `State()`.

Outside inputs are parameters:

- The clock (`new Date().getTime()`) is the `now` argument of `MouseDown` and
  `MouseUp`.
- The event's `data-identifier` attribute is an `Option<string>`. `None` is a
  missing attribute (`getAttribute` returns `null`).
- The `onLayerSelected` callback is the `notified` log.
- The map's own layer list (`map.getLayers().getArray()`) is the `mapLayers`
  argument of `OnSlideClick`.

The snapshot has three states in the source, and the model keeps all three
as an `Option<string>`:

- `''` is the value initially and after a hover-out. The model calls it
  `Cleared == Some("")`.
- `undefined` is the value after a hover while no layer was visible. The
  model writes it `None`. The list `[undefined]` matches no uid, so the
  hover-out that follows hides every layer.
- A layer's uid.

Two points the source decides:

- `findLayer` tests `!id`, so an empty `data-identifier` resolves to nothing,
  just like a missing one.
- `onSlideClick` hides the layers of the map, which need not be the
  carousel's `layers` prop, and does not expand groups. `render()` never
  wires it to an event.

The click path reuses the hover path's snapshot slot. The model keeps this
behaviour as written:

- After hover, click and leave, the clicked layer stays selected
  (`HoverClickLeaveKeepsSelection`), because the click snapshots the layer
  the hover already shows.
- A click that no hover preceded, followed by a leave, reverts the click
  even though the callback has already reported it (`ClickThenLeaveReverts`).

`setLayersVisible` states its result under one precondition, `Separated`.
No direct child of a group may also be a top-level entry, and two different
groups may share no child. Without it a later write could override an
earlier one and groups would not agree with their children. The `layers`
prop is an arbitrary array supplied by the caller (LayerCarousel.tsx:15), and
nothing in the source rules such lists out. The model assumes callers pass
a separated list, and the `Carousel` constructor requires it.

The handlers keep a resting list resting (`HandlersKeepResting`,
`HoverOutRests`). Resting means coherent, with unique uids and at most one
visible top-level layer. The initial list, though, need not be coherent. A
group whose children disagree with it gets its children overwritten by hover
then leave. The top-level flags are still restored (`HoverRoundTripFlags`).

## Model

| member | source | states |
|---|---|---|
| `LayerCarousel.Carousel.constructor` | packages/baseclient-components/src/component/LayerCarousel/LayerCarousel.tsx:47-53 | the state starts with `mouseDownTime` 0, `renderTrigger` 0, the snapshot `''` and no callback made |
| `LayerCarousel.Carousel.MouseDown` | packages/baseclient-components/src/component/LayerCarousel/LayerCarousel.tsx:94-98 | `mouseDownTime` becomes the press instant; nothing else changes |
| `LayerCarousel.Carousel.MouseUp` | packages/baseclient-components/src/component/LayerCarousel/LayerCarousel.tsx:105-109 | `mouseDownTime` becomes the release instant minus the stored press instant; nothing else changes |
| `LayerCarousel.Carousel.OnMoveEnd` | packages/baseclient-components/src/component/LayerCarousel/LayerCarousel.tsx:54-58 | a map move increments `renderTrigger` by one and touches no layer, snapshot or timing |
| `LayerCarousel.Carousel.SetLayersVisible` | packages/baseclient-components/src/component/LayerCarousel/LayerCarousel.tsx:153-165 | every listed layer shows exactly when its uid is a target; every direct child of a group takes its group's flag; only these layers' flags may change; the new view is `SetVisible` of the old |
| `LayerCarousel.Carousel.OnCarouselItemHover` | packages/baseclient-components/src/component/LayerCarousel/LayerCarousel.tsx:116-130 | an unresolved event changes nothing; otherwise the snapshot becomes the first visible layer's uid (or `undefined`), the hovered layer alone shows, and the callback, if given, receives its uid |
| `LayerCarousel.Carousel.OnCarouselItemHoverOut` | packages/baseclient-components/src/component/LayerCarousel/LayerCarousel.tsx:136-145 | shows exactly the layer named by the snapshot (none for `undefined`) and resets the snapshot to `''` |
| `LayerCarousel.Carousel.OnCarouselItemClick` | packages/baseclient-components/src/component/LayerCarousel/LayerCarousel.tsx:173-183 | a drag (`mouseDownTime > 180`) changes nothing; otherwise it is the hover path with `onLayerSelected` as callback |
| `LayerCarousel.Carousel.OnSlideClick` | packages/baseclient-components/src/component/LayerCarousel/LayerCarousel.tsx:72-87 | after a drag nothing changes; otherwise every map layer but `layer` is hidden, `layer` shows and `renderTrigger` grows by exactly one; timing, snapshot and callback log are untouched |
| `LayerCarousel.Carousel.FindLayer` | packages/baseclient-components/src/component/LayerCarousel/LayerCarousel.tsx:191-204 | a layer is found exactly when the identifier is present, non-empty and some layer's uid equals it; the layer found is the first such and has that uid |
| `LayerCarousel.SlidesToShow` | packages/baseclient-components/src/component/LayerCarousel/LayerCarousel.tsx:217 | the slide count is half the layer count rounded up |
| `Visibility.IndexOf` | packages/baseclient-components/src/component/LayerCarousel/LayerCarousel.tsx:203 | returns the first index holding the uid, and nothing exactly when the uid is absent |
| `Visibility.FindLayerIndex` | packages/baseclient-components/src/component/LayerCarousel/LayerCarousel.tsx:194-203 | a missing or empty identifier resolves to nothing; otherwise the first layer whose uid equals it, if any |
| `Visibility.FirstVisible` | packages/baseclient-components/src/component/LayerCarousel/LayerCarousel.tsx:121 | returns the first visible layer, and nothing exactly when no layer is visible |
| `Visibility.SetVisibleShowsTargets` | packages/baseclient-components/src/component/LayerCarousel/LayerCarousel.tsx:158-163 | after `setLayersVisible(ids)` a layer shows iff its uid is in `ids`, groups agree with their children, and uids, order and group sizes are unchanged |
| `Visibility.SetVisibleOverrides` | packages/baseclient-components/src/component/LayerCarousel/LayerCarousel.tsx:153-165 | a second `setLayersVisible` fully overrides the first |
| `Visibility.SetVisibleIdempotent` | packages/baseclient-components/src/component/LayerCarousel/LayerCarousel.tsx:153-165 | applying the same id list twice equals applying it once |
| `Visibility.SetVisibleSingle` | packages/baseclient-components/src/component/LayerCarousel/LayerCarousel.tsx:158-163 | with unique uids, listing one layer's uid leaves exactly that top-level layer showing, groups agreeing with their children |
| `Visibility.SetVisibleFixpoint` | packages/baseclient-components/src/component/LayerCarousel/LayerCarousel.tsx:158-163 | a coherent list that already shows exactly the listed layers is left unchanged |
| `CarouselSpec.PressReleaseDuration` | packages/baseclient-components/src/component/LayerCarousel/LayerCarousel.tsx:94-109 | press at `t0` then release at `t1` stores `t1 - t0`, which is a drag iff it exceeds 180, and changes nothing else |
| `CarouselSpec.DragClickIgnored` | packages/baseclient-components/src/component/LayerCarousel/LayerCarousel.tsx:174-177 | a click after a drag leaves layers, snapshot and callback log unchanged |
| `CarouselSpec.UnresolvedEventIgnored` | packages/baseclient-components/src/component/LayerCarousel/LayerCarousel.tsx:117-120 | a missing, empty or unmatched identifier makes hover and click change nothing |
| `CarouselSpec.HoverKeepsTiming` | packages/baseclient-components/src/component/LayerCarousel/LayerCarousel.tsx:116-130 | a hover leaves gesture timing and render counter alone; the callback log is unchanged without a callback and grows by at most the hovered uid with one |
| `CarouselSpec.HoverRoundTrip` | packages/baseclient-components/src/component/LayerCarousel/LayerCarousel.tsx:121-144 | from a coherent list with unique uids and at most one visible layer, hover then hover-out restores the list exactly (all hidden if none was visible) and clears the snapshot |
| `CarouselSpec.ClickCommits` | packages/baseclient-components/src/component/LayerCarousel/LayerCarousel.tsx:173-183 | a click within the threshold on a resolvable layer appends exactly its uid to the callback log and leaves it the only visible top-level layer, groups agreeing |
| `CarouselSpec.HoverClickLeaveKeepsSelection` | packages/baseclient-components/src/component/LayerCarousel/LayerCarousel.tsx:121-141 | hover on a layer, click it within the threshold, leave: the layer stays the only one showing and the callback ran once with its uid |
| `CarouselSpec.ClickThenLeaveReverts` | packages/baseclient-components/src/component/LayerCarousel/LayerCarousel.tsx:141-144 | a click without a preceding hover, then a leave, restores the pre-click list although the callback reported the clicked layer |
| `CarouselSpec.HoverLeaveScenario` | packages/baseclient-components/src/component/LayerCarousel/LayerCarousel.tsx:116-145 | with layers "1" (shown) and "2", hovering "2" shows only "2" and leaving shows only "1" again |
| `CarouselSpec.SlowClickScenario` | packages/baseclient-components/src/component/LayerCarousel/LayerCarousel.tsx:175-177 | a click after a 250 ms press changes nothing |
| `CarouselSpec.GroupHoverScenario` | packages/baseclient-components/src/component/LayerCarousel/LayerCarousel.tsx:158-163 | hovering group "g" shows it and both its children and hides layer "1" |
| `Visibility.SetVisible` | packages/baseclient-components/src/component/LayerCarousel/LayerCarousel.tsx:153-165 | no contract of its own: the value written by `setLayersVisible`; its properties are stated by `SetVisibleShowsTargets`, `SetVisibleOverrides`, `SetVisibleIdempotent`, `SetVisibleSingle`, `SetVisibleFixpoint` and by `LayerCarousel.Carousel.SetLayersVisible` |
| `CarouselSpec.Initial` | packages/baseclient-components/src/component/LayerCarousel/LayerCarousel.tsx:49-53 | no contract of its own: the state the constructor starts in; stated by `LayerCarousel.Carousel.constructor` |
| `CarouselSpec.MouseDown` | packages/baseclient-components/src/component/LayerCarousel/LayerCarousel.tsx:94-98 | no contract of its own: stated by `PressReleaseDuration` and `LayerCarousel.Carousel.MouseDown` |
| `CarouselSpec.MouseUp` | packages/baseclient-components/src/component/LayerCarousel/LayerCarousel.tsx:105-109 | no contract of its own: stated by `PressReleaseDuration` and `LayerCarousel.Carousel.MouseUp` |
| `CarouselSpec.MoveEnd` | packages/baseclient-components/src/component/LayerCarousel/LayerCarousel.tsx:54-58 | no contract of its own: stated by `LayerCarousel.Carousel.OnMoveEnd` |
| `CarouselSpec.SnapshotOf` | packages/baseclient-components/src/component/LayerCarousel/LayerCarousel.tsx:121-124 | no contract of its own: the uid of the first visible layer or `undefined`; used by `HoverRoundTrip` and `HoverClickLeaveKeepsSelection` |
| `CarouselSpec.Targets` | packages/baseclient-components/src/component/LayerCarousel/LayerCarousel.tsx:141 | no contract of its own: `[originalBaseLayerOlUid]`, empty for `undefined`; used by `HoverRoundTrip` and `HoverOutRests` |
| `CarouselSpec.IsDrag` | packages/baseclient-components/src/component/LayerCarousel/LayerCarousel.tsx:175 | no contract of its own: a press longer than 180 ms; stated by `PressReleaseDuration`, `DragClickIgnored` and `SlowClickScenario` |
| `CarouselSpec.Hover` | packages/baseclient-components/src/component/LayerCarousel/LayerCarousel.tsx:116-130 | no contract of its own: stated by `UnresolvedEventIgnored`, `HoverKeepsTiming`, `HandlersKeepResting`, `HoverRoundTrip`, `HoverRoundTripFlags` and `LayerCarousel.Carousel.OnCarouselItemHover` |
| `CarouselSpec.HoverOut` | packages/baseclient-components/src/component/LayerCarousel/LayerCarousel.tsx:136-145 | no contract of its own: stated by `HoverOutRests`, `HoverRoundTrip`, `ClickThenLeaveReverts` and `LayerCarousel.Carousel.OnCarouselItemHoverOut` |
| `CarouselSpec.Click` | packages/baseclient-components/src/component/LayerCarousel/LayerCarousel.tsx:173-183 | no contract of its own: stated by `DragClickIgnored`, `ClickCommits`, `HandlersKeepResting` and `LayerCarousel.Carousel.OnCarouselItemClick` |
| `CarouselSpec.HandlersKeepResting` | packages/baseclient-components/src/component/LayerCarousel/LayerCarousel.tsx:116-183 | from a resting list (coherent, unique uids, at most one visible), a hover or a click leaves the list resting |
| `CarouselSpec.HoverOutRests` | packages/baseclient-components/src/component/LayerCarousel/LayerCarousel.tsx:136-145 | from a list with unique uids, a hover-out leaves it resting and the snapshot `''` |
| `CarouselSpec.HoverRoundTripFlags` | packages/baseclient-components/src/component/LayerCarousel/LayerCarousel.tsx:121-144 | with unique uids and at most one visible layer, but groups possibly disagreeing with their children, hover then hover-out restores every top-level flag and the uids, and leaves groups agreeing with their children |

## Left out

- React rendering and `react-slick` (LayerCarousel.tsx:209-258): slide settings, class names and keys are declarative UI. Only `slidesToShow` is modelled.
- The map geometry queries (`getSize`, `calculateExtent`, `getProjection().getCode()`) are OpenLayers calls and are not modelled.
- The `moveend` subscription itself is event plumbing. Only its effect is modelled, as `OnMoveEnd`.
- React's asynchronous, batched `setState`: every state update takes effect at once.
- The clock and the DOM attribute lookup are parameters, as described above.
- `LayerCarouselSlide` is not part of this model.
- packages/baseclient-components/src/container/Header/Header.tsx is pure layout plus calls to `i18n.changeLanguage` and `notification.info`; it has no state logic.
- Grandchildren of a group are not part of the state the handlers may write, just as the source pushes the flag one level down only.
- `LayerCarousel.Carousel.SetLayersVisible` and the handlers built on it require `Separated` layer lists; on a list where a layer is both a group child and a top-level entry, the source's last write wins and the model states nothing.
- `LayerCarousel.Carousel.OnSlideClick` states its effect on the flags of the map layers and of `layer`, not on the carousel's `State()` view; which carousel layers change depends on how the map's list overlaps the carousel's.
- JavaScript numbers are doubles; timestamps and the render counter are unbounded integers here.
