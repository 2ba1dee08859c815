/**
 * The `LayerCarousel` component's controller: its three state fields, the
 * layers whose visibility it flips in place, and its event handlers. The
 * clock and the event's `data-identifier` attribute are parameters.
 */
module LayerCarousel {
  import opened Wrappers
  import opened Visibility
  import Spec = CarouselSpec

  /**
   * A map layer: its `ol_uid`, its mutable visibility flag and, for a
   * layer group, its direct children (empty for a plain layer).
   */
  class Layer {
    const uid: string
    const children: seq<Layer>
    var visible: bool

    constructor (uid: string, visible: bool, children: seq<Layer>)
      ensures this.uid == uid && this.visible == visible && this.children == children
    {
      this.uid := uid;
      this.visible := visible;
      this.children := children;
    }

    /** The layer as the carousel sees it. */
    function View(): LayerView
      reads this, children
    {
      LayerView(uid, visible, seq(|children|, j requires 0 <= j < |children| reads children => children[j].visible))
    }
  }

  /**
   * The layer list has the shape of a map's layer tree: no direct child of
   * a group is itself a top-level entry, and two different groups share no
   * child. A layer may be listed twice.
   */
  ghost predicate Separated(ls: seq<Layer>)
  {
    (forall i, j :: 0 <= i < |ls| && 0 <= j < |ls| ==> ls[j] !in ls[i].children) &&
    (forall i, j, c :: 0 <= i < |ls| && 0 <= j < |ls| && ls[i] != ls[j] && c in ls[i].children ==> c !in ls[j].children)
  }

  /** `Math.ceil(layers.length / 2)`, the number of slides shown at once. */
  function SlidesToShow(n: nat): (r: nat)
    ensures n <= 2 * r <= n + 1
  {
    (n + 1) / 2
  }

  class Carousel {
    /** `props.layers`, supplied by the caller and never reshaped. */
    const layers: seq<Layer>
    /** `state.mouseDownTime`: the press instant, then the press duration. */
    var mouseDownTime: int
    /** `state.renderTrigger`. */
    var renderTrigger: nat
    /** `state.originalBaseLayerOlUid`. */
    var snapshot: Option<string>
    /** The uids passed to `props.onLayerSelected`, in order. */
    var notified: seq<string>

    ghost predicate Valid()
    {
      Separated(layers)
    }

    /** The layers whose flags the handlers may write: the list and the direct children of its groups. */
    ghost function Members(): (m: set<Layer>)
      ensures forall i :: 0 <= i < |layers| ==> layers[i] in m
      ensures forall i, c :: 0 <= i < |layers| && c in layers[i].children ==> c in m
    {
      (set l | l in layers) + (set l, c | l in layers && c in l.children :: c)
    }

    /** The uids of `layers`, in order. */
    function LayerUids(): seq<string>
    {
      seq(|layers|, i requires 0 <= i < |layers| => layers[i].uid)
    }

    /**
     * The layer list as values. Each entry reads only its own layer and
     * that layer's direct children; the guards keep that frame defined for
     * every index.
     */
    function Views(): (vs: seq<LayerView>)
      reads Members()
      ensures Uids(vs) == LayerUids()
    {
      seq(|layers|, i requires 0 <= i < |layers|
                      reads if 0 <= i < |layers| then {layers[i]} else {},
                            if 0 <= i < |layers| then layers[i].children else []
                      => layers[i].View())
    }

    ghost function State(): Spec.CarouselState
      reads this, Members()
    {
      Spec.CarouselState(Views(), mouseDownTime, snapshot, renderTrigger, notified)
    }

    constructor (layers: seq<Layer>)
      requires Separated(layers)
      ensures Valid() && this.layers == layers
      ensures State() == Spec.Initial(Views())
    {
      this.layers := layers;
      mouseDownTime := 0;
      renderTrigger := 0;
      snapshot := Spec.Cleared;
      notified := [];
    }

    /** `findLayer`: the first layer whose uid equals the event's non-empty `data-identifier`. */
    function FindLayer(evtId: Option<string>): (r: Option<Layer>)
      ensures r.Some? <==> evtId.Some? && evtId.value != "" && exists i :: 0 <= i < |layers| && layers[i].uid == evtId.value
      ensures r.Some? ==> r.value in layers && r.value.uid == evtId.value
      ensures r.Some? ==> FindLayerIndex(LayerUids(), evtId).Some? && r.value == layers[FindLayerIndex(LayerUids(), evtId).value]
    {
      assert forall i :: 0 <= i < |layers| ==> LayerUids()[i] == layers[i].uid;
      match FindLayerIndex(LayerUids(), evtId)
      case None => None
      case Some(i) => Some(layers[i])
    }

    /** `mouseDown`: records the press instant. */
    method MouseDown(now: int)
      modifies this
      ensures mouseDownTime == now
      ensures State() == Spec.MouseDown(old(State()), now)
    {
      mouseDownTime := now;
    }

    /** `mouseUp`: replaces the press instant with the press duration. */
    method MouseUp(now: int)
      modifies this
      ensures mouseDownTime == now - old(mouseDownTime)
      ensures State() == Spec.MouseUp(old(State()), now)
    {
      mouseDownTime := now - mouseDownTime;
    }

    /** The `moveend` subscription: forces a re-render and touches nothing else. */
    method OnMoveEnd()
      modifies this
      ensures State() == Spec.MoveEnd(old(State()))
    {
      renderTrigger := renderTrigger + 1;
    }

    /**
     * `setLayersVisible`: each listed layer shows exactly when its uid is
     * among `targets`, and a group passes the same flag to each direct child.
     */
    method SetLayersVisible(targets: seq<string>)
      requires Valid()
      modifies Members()
      ensures forall i :: 0 <= i < |layers| ==> layers[i].visible == (layers[i].uid in targets)
      ensures forall i, c :: 0 <= i < |layers| && c in layers[i].children ==> c.visible == (layers[i].uid in targets)
      ensures Views() == SetVisible(old(Views()), targets)
    {
      for i := 0 to |layers|
        invariant forall k :: 0 <= k < i ==> layers[k].visible == (layers[k].uid in targets)
        invariant forall k, c :: 0 <= k < i && c in layers[k].children ==> c.visible == (layers[k].uid in targets)
      {
        var layer := layers[i];
        var on := layer.uid in targets;
        layer.visible := on;
        var children := layer.children;
        for j := 0 to |children|
          invariant layer.visible == on
          invariant forall k :: 0 <= k < i ==> layers[k].visible == (layers[k].uid in targets)
          invariant forall k, c :: 0 <= k < i && c in layers[k].children ==> c.visible == (layers[k].uid in targets)
          invariant forall m :: 0 <= m < j ==> children[m].visible == on
        {
          children[j].visible := on;
        }
      }
      ViewsShowTargets(targets, old(Views()));
    }

    /** Flags that show exactly the targets, groups passing theirs down, are the view `SetVisible` describes. */
    lemma ViewsShowTargets(targets: seq<string>, before: seq<LayerView>)
      requires SameShape(before, Views())
      requires forall i :: 0 <= i < |layers| ==> layers[i].visible == (layers[i].uid in targets)
      requires forall i, c :: 0 <= i < |layers| && c in layers[i].children ==> c.visible == (layers[i].uid in targets)
      ensures Views() == SetVisible(before, targets)
    {
      forall i | 0 <= i < |layers|
        ensures Views()[i] == SetVisible(before, targets)[i]
      {
        assert Views()[i].members == SetVisible(before, targets)[i].members;
      }
    }

    /**
     * `onCarouselItemHover(evt, callback)`: snapshots the first visible
     * layer, then shows the hovered layer alone and, when `notify` holds,
     * reports its uid to `onLayerSelected`.
     */
    method OnCarouselItemHover(evtId: Option<string>, notify: bool)
      requires Valid()
      modifies this, Members()
      ensures State() == Spec.Hover(old(State()), evtId, notify)
    {
      var found := FindLayer(evtId);
      if found.None? {
        return;
      }
      var layer := found.value;
      ghost var before := State();
      ghost var i := FindLayerIndex(Uids(before.layers), evtId).value;
      assert layer.uid == before.layers[i].uid by {
        assert layer == layers[i];
      }
      snapshot := Spec.SnapshotOf(Views());
      ghost var taken := snapshot;
      SetLayersVisible([layer.uid]);
      if notify {
        notified := notified + [layer.uid];
      }
      ghost var expected := before.(snapshot := taken,
                                    layers := SetVisible(before.layers, [before.layers[i].uid]),
                                    notified := notified);
      assert Spec.Hover(before, evtId, notify) == expected;
      assert Views() == expected.layers;
    }

    /** `onCarouselItemHoverOut`: shows the snapshot layer alone and clears the snapshot. */
    method OnCarouselItemHoverOut()
      requires Valid()
      modifies this, Members()
      ensures State() == Spec.HoverOut(old(State()))
    {
      SetLayersVisible(Spec.Targets(snapshot));
      snapshot := Spec.Cleared;
    }

    /** `onCarouselItemClick`: the hover path reporting to `onLayerSelected`, unless the press was a drag. */
    method OnCarouselItemClick(evtId: Option<string>)
      requires Valid()
      modifies this, Members()
      ensures State() == Spec.Click(old(State()), evtId)
    {
      if Spec.IsDrag(mouseDownTime) {
        return;
      }
      OnCarouselItemHover(evtId, true);
    }

    /**
     * `onSlideClick(layer)`: unless the press was a drag, hides every layer
     * of the map, shows `layer` and forces a re-render; no group expansion
     * and no snapshot.
     */
    method OnSlideClick(mapLayers: seq<Layer>, layer: Layer)
      modifies this, mapLayers, layer
      ensures mouseDownTime == old(mouseDownTime) && snapshot == old(snapshot) && notified == old(notified)
      ensures Spec.IsDrag(old(mouseDownTime)) ==> unchanged(this, mapLayers, layer)
      ensures !Spec.IsDrag(old(mouseDownTime)) ==>
        layer.visible &&
        (forall l :: l in mapLayers && l != layer ==> !l.visible) &&
        renderTrigger == old(renderTrigger) + 1
    {
      if Spec.IsDrag(mouseDownTime) {
        return;
      }
      for i := 0 to |mapLayers|
        invariant mouseDownTime == old(mouseDownTime) && snapshot == old(snapshot) && notified == old(notified)
        invariant renderTrigger == old(renderTrigger)
        invariant forall k :: 0 <= k < i ==> !mapLayers[k].visible
      {
        mapLayers[i].visible := false;
      }
      layer.visible := true;
      renderTrigger := renderTrigger + 1;
    }
  }
}
