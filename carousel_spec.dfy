/**
 * The state of the layer carousel and what each of its handlers does to
 * it, as values. The class in module LayerCarousel is proved to follow
 * these step functions; the lemmas here state what the handlers promise.
 */
module CarouselSpec {
  import opened Wrappers
  import opened Visibility

  /** A press held longer than this many milliseconds is a drag, not a click. */
  const DragThreshold: int := 180

  predicate IsDrag(mouseDownTime: int)
  {
    mouseDownTime > DragThreshold
  }

  /**
   * The value `originalBaseLayerOlUid` holds when no hover is in progress:
   * the empty string, both initially and after a hover-out. `None` stands
   * for `undefined`, the snapshot taken when no layer was visible.
   */
  const Cleared: Option<string> := Some("")

  /**
   * `mouseDownTime` holds the press instant between press and release and
   * the press duration after release; `notified` lists, in order, the uids
   * passed to the `onLayerSelected` callback.
   */
  datatype CarouselState = CarouselState(
    layers: seq<LayerView>,
    mouseDownTime: int,
    snapshot: Option<string>,
    renderTrigger: nat,
    notified: seq<string>)

  function Initial(layers: seq<LayerView>): CarouselState
  {
    CarouselState(layers, 0, Cleared, 0, [])
  }

  function MouseDown(s: CarouselState, now: int): CarouselState
  {
    s.(mouseDownTime := now)
  }

  function MouseUp(s: CarouselState, now: int): CarouselState
  {
    s.(mouseDownTime := now - s.mouseDownTime)
  }

  /** The uid recorded by a hover: that of the first visible layer, or `undefined`. */
  function SnapshotOf(vs: seq<LayerView>): Option<string>
  {
    match FirstVisible(vs)
    case None => None
    case Some(k) => Some(vs[k].uid)
  }

  /** The list `[originalBaseLayerOlUid]`; `undefined` matches no uid, so it lists nothing. */
  function Targets(snapshot: Option<string>): seq<string>
  {
    match snapshot
    case None => []
    case Some(uid) => [uid]
  }

  /** `onCarouselItemHover(evt, callback)`; `notify` says whether a callback was passed. */
  function Hover(s: CarouselState, evtId: Option<string>, notify: bool): CarouselState
  {
    match FindLayerIndex(Uids(s.layers), evtId)
    case None => s
    case Some(i) =>
      var uid := s.layers[i].uid;
      s.(snapshot := SnapshotOf(s.layers),
         layers := SetVisible(s.layers, [uid]),
         notified := if notify then s.notified + [uid] else s.notified)
  }

  /** `onCarouselItemHoverOut`. */
  function HoverOut(s: CarouselState): CarouselState
  {
    s.(layers := SetVisible(s.layers, Targets(s.snapshot)), snapshot := Cleared)
  }

  /** `onCarouselItemClick`: the hover path with `onLayerSelected` as callback, unless the gesture was a drag. */
  function Click(s: CarouselState, evtId: Option<string>): CarouselState
  {
    if IsDrag(s.mouseDownTime) then s else Hover(s, evtId, true)
  }

  /** The `moveend` subscription. */
  function MoveEnd(s: CarouselState): CarouselState
  {
    s.(renderTrigger := s.renderTrigger + 1)
  }

  /** The layer list a well-behaved base-layer switcher rests in. */
  ghost predicate Resting(vs: seq<LayerView>)
  {
    Coherent(vs) && UniqueUids(vs) && AtMostOneVisible(vs)
  }

  /** A press at `t0` released at `t1` leaves the duration `t1 - t0`, which classifies the gesture. */
  lemma PressReleaseDuration(s: CarouselState, t0: int, t1: int)
    ensures MouseUp(MouseDown(s, t0), t1).mouseDownTime == t1 - t0
    ensures IsDrag(MouseUp(MouseDown(s, t0), t1).mouseDownTime) <==> t1 - t0 > 180
    ensures MouseUp(MouseDown(s, t0), t1).(mouseDownTime := s.mouseDownTime) == s
  {
  }

  /** A click after a drag changes nothing: no visibility, snapshot or callback. */
  lemma DragClickIgnored(s: CarouselState, evtId: Option<string>)
    requires IsDrag(s.mouseDownTime)
    ensures Click(s, evtId) == s
  {
  }

  /** An event without a resolvable `data-identifier` changes nothing, on hover and on click. */
  lemma UnresolvedEventIgnored(s: CarouselState, evtId: Option<string>, notify: bool)
    requires evtId.None? || evtId.value == "" || forall i :: 0 <= i < |s.layers| ==> s.layers[i].uid != evtId.value
    ensures Hover(s, evtId, notify) == s
    ensures Click(s, evtId) == s
  {
  }

  /**
   * A hover never touches the gesture timing or the render counter; the log
   * grows only when a callback was passed, and then by at most the hovered uid.
   */
  lemma HoverKeepsTiming(s: CarouselState, evtId: Option<string>, notify: bool)
    ensures Hover(s, evtId, notify).mouseDownTime == s.mouseDownTime
    ensures Hover(s, evtId, notify).renderTrigger == s.renderTrigger
    ensures !notify ==> Hover(s, evtId, notify).notified == s.notified
    ensures notify ==> (Hover(s, evtId, notify).notified == s.notified ||
                        (evtId.Some? && Hover(s, evtId, notify).notified == s.notified + [evtId.value]))
  {
  }

  /**
   * The handlers keep the resting shape of a base-layer switcher: after a
   * hover or a click the list is coherent, its uids unique and at most one
   * top-level layer shows. A hover-out needs only unique uids, since it
   * lists at most one uid and rewrites every group.
   */
  lemma HandlersKeepResting(s: CarouselState, evtId: Option<string>, notify: bool)
    requires Resting(s.layers)
    ensures Resting(Hover(s, evtId, notify).layers)
    ensures Resting(Click(s, evtId).layers)
  {
  }

  /** A hover-out from a list with unique uids leaves it resting and the snapshot cleared. */
  lemma HoverOutRests(s: CarouselState)
    requires UniqueUids(s.layers)
    ensures Resting(HoverOut(s).layers)
    ensures HoverOut(s).snapshot == Cleared
  {
  }

  /**
   * Without `Coherent`, hover then hover-out still restores every top-level
   * flag and the uids; only the flags of group children may differ, since
   * both writes set them to their group's flag.
   */
  lemma HoverRoundTripFlags(s: CarouselState, evtId: Option<string>)
    requires UniqueUids(s.layers) && AtMostOneVisible(s.layers)
    requires FindLayerIndex(Uids(s.layers), evtId).Some?
    ensures SameShape(HoverOut(Hover(s, evtId, false)).layers, s.layers)
    ensures forall k :: 0 <= k < |s.layers| ==> HoverOut(Hover(s, evtId, false)).layers[k].visible == s.layers[k].visible
    ensures Coherent(HoverOut(Hover(s, evtId, false)).layers)
  {
  }

  /**
   * Hover on a resolvable layer shows that layer alone, and the following
   * hover-out restores the list exactly as it was and clears the snapshot.
   * When no layer was visible, the restore hides every layer, which is
   * again the state before the hover.
   */
  lemma {:induction false} HoverRoundTrip(s: CarouselState, evtId: Option<string>)
    requires Resting(s.layers)
    requires FindLayerIndex(Uids(s.layers), evtId).Some?
    ensures HoverOut(Hover(s, evtId, false)).layers == s.layers
    ensures HoverOut(Hover(s, evtId, false)).snapshot == Cleared
    ensures HoverOut(Hover(s, evtId, false)).notified == s.notified
  {
    var i := FindLayerIndex(Uids(s.layers), evtId).value;
    var h := Hover(s, evtId, false);
    var targets := Targets(SnapshotOf(s.layers));
    assert h.layers == SetVisible(s.layers, [s.layers[i].uid]);
    assert h.snapshot == SnapshotOf(s.layers);
    SetVisibleOverrides(s.layers, [s.layers[i].uid], targets);
    forall k | 0 <= k < |s.layers|
      ensures s.layers[k].visible == (s.layers[k].uid in targets)
    {
      match FirstVisible(s.layers)
      case None =>
      case Some(f) =>
        assert s.layers[k].visible == (k == f);
    }
    SetVisibleFixpoint(s.layers, targets);
  }

  /**
   * A click within the threshold on a resolvable layer reports its uid
   * exactly once and leaves it the only visible top-level layer, its group
   * children agreeing.
   */
  lemma ClickCommits(s: CarouselState, evtId: Option<string>)
    requires !IsDrag(s.mouseDownTime)
    requires UniqueUids(s.layers)
    requires FindLayerIndex(Uids(s.layers), evtId).Some?
    ensures var i := FindLayerIndex(Uids(s.layers), evtId).value;
      Click(s, evtId).notified == s.notified + [s.layers[i].uid] &&
      OnlyVisible(Click(s, evtId).layers, i) &&
      Coherent(Click(s, evtId).layers)
  {
  }

  /**
   * The usual gesture: hover on a layer, click it within the threshold,
   * leave it. The click snapshots the layer the hover already shows, so the
   * leave keeps it showing, and the callback ran once with its uid.
   */
  lemma {:induction false} HoverClickLeaveKeepsSelection(s: CarouselState, evtId: Option<string>)
    requires !IsDrag(s.mouseDownTime)
    requires UniqueUids(s.layers)
    requires FindLayerIndex(Uids(s.layers), evtId).Some?
    ensures var i := FindLayerIndex(Uids(s.layers), evtId).value;
      var t := HoverOut(Click(Hover(s, evtId, false), evtId));
      OnlyVisible(t.layers, i) && Coherent(t.layers) &&
      t.notified == s.notified + [s.layers[i].uid] && t.snapshot == Cleared
  {
    var i := FindLayerIndex(Uids(s.layers), evtId).value;
    var uid := s.layers[i].uid;
    var h := Hover(s, evtId, false);
    SetVisibleSingle(s.layers, i);
    assert SameShape(h.layers, s.layers);
    assert Uids(h.layers) == Uids(s.layers);
    assert FirstVisible(h.layers) == Some(i);
    var c := Click(h, evtId);
    assert c.snapshot == Some(uid);
    SetVisibleOverrides(s.layers, [uid], [uid]);
    SetVisibleOverrides(s.layers, [uid], Targets(c.snapshot));
  }

  /**
   * A click that no hover preceded, followed by a leave, reverts the click:
   * the callback reported the clicked layer, yet the list is back to what
   * it was before the click.
   */
  lemma {:induction false} ClickThenLeaveReverts(s: CarouselState, evtId: Option<string>)
    requires !IsDrag(s.mouseDownTime)
    requires Resting(s.layers)
    requires FindLayerIndex(Uids(s.layers), evtId).Some?
    ensures var i := FindLayerIndex(Uids(s.layers), evtId).value;
      var t := HoverOut(Click(s, evtId));
      t.layers == s.layers && t.notified == s.notified + [s.layers[i].uid]
  {
    HoverRoundTrip(s, evtId);
  }

  /** Two plain layers, "1" showing: hovering "2" swaps them and leaving swaps them back. */
  lemma HoverLeaveScenario()
    ensures var s := Initial([LayerView("1", true, []), LayerView("2", false, [])]);
      Hover(s, Some("2"), false).layers == [LayerView("1", false, []), LayerView("2", true, [])] &&
      HoverOut(Hover(s, Some("2"), false)).layers == s.layers
  {
    var s := Initial([LayerView("1", true, []), LayerView("2", false, [])]);
    assert FindLayerIndex(Uids(s.layers), Some("2")) == Some(1) by {
      assert Uids(s.layers) == ["1", "2"];
    }
    HoverRoundTrip(s, Some("2"));
  }

  /** A press held for 250 ms turns the following click on "2" into nothing. */
  lemma SlowClickScenario(s: CarouselState, t0: int)
    ensures var pressed := MouseUp(MouseDown(s, t0), t0 + 250);
      Click(pressed, Some("2")) == pressed
  {
  }

  /** Hovering group "g" shows both of its children and hides layer "1". */
  lemma GroupHoverScenario()
    ensures var s := Initial([LayerView("g", false, [false, false]), LayerView("1", true, [])]);
      Hover(s, Some("g"), false).layers == [LayerView("g", true, [true, true]), LayerView("1", false, [])]
  {
    var s := Initial([LayerView("g", false, [false, false]), LayerView("1", true, [])]);
    assert FindLayerIndex(Uids(s.layers), Some("g")) == Some(0) by {
      assert Uids(s.layers) == ["g", "1"];
    }
    var shown := SetVisible(s.layers, ["g"]);
    assert shown[0].members == [true, true];
    assert shown[1].members == [];
    assert shown[0] == LayerView("g", true, [true, true]);
    assert shown[1] == LayerView("1", false, []);
  }
}
