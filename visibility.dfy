/**
 * The carousel's layer list seen as values: what `setLayersVisible` writes,
 * which layer `find` returns, and the facts the hover and click handlers
 * rely on.
 */
module Visibility {
  import opened Wrappers

  /**
   * One entry of the carousel's layer list: the layer's `ol_uid`, its own
   * visibility flag and, for a layer group, the flags of its direct
   * children in order (empty for a plain layer).
   */
  datatype LayerView = LayerView(uid: string, visible: bool, members: seq<bool>)

  /** The uids of the list, in order. */
  function Uids(vs: seq<LayerView>): seq<string>
  {
    seq(|vs|, i requires 0 <= i < |vs| => vs[i].uid)
  }

  /** Every group shows exactly when its direct children show. */
  ghost predicate Coherent(vs: seq<LayerView>)
  {
    forall i, j :: 0 <= i < |vs| && 0 <= j < |vs[i].members| ==> vs[i].members[j] == vs[i].visible
  }

  ghost predicate UniqueUids(vs: seq<LayerView>)
  {
    forall i, j :: 0 <= i < j < |vs| ==> vs[i].uid != vs[j].uid
  }

  /** The resting state of a base-layer switcher: no two top-level layers show at once. */
  ghost predicate AtMostOneVisible(vs: seq<LayerView>)
  {
    forall i, j :: 0 <= i < j < |vs| && vs[i].visible ==> !vs[j].visible
  }

  /** Entry `k` is the one top-level layer that shows. */
  ghost predicate OnlyVisible(vs: seq<LayerView>, k: nat)
  {
    forall i :: 0 <= i < |vs| ==> vs[i].visible == (i == k)
  }

  /** The list keeps its uids and its groups keep their size. */
  ghost predicate SameShape(vs: seq<LayerView>, ws: seq<LayerView>)
  {
    |vs| == |ws| &&
    forall i :: 0 <= i < |vs| ==> vs[i].uid == ws[i].uid && |vs[i].members| == |ws[i].members|
  }

  /** A layer set to `on`, with a group's direct children set alike. */
  function Toggle(v: LayerView, on: bool): LayerView
  {
    v.(visible := on, members := seq(|v.members|, _ => on))
  }

  /** `setLayersVisible(targets)`: a layer shows iff its uid is listed. */
  function SetVisible(vs: seq<LayerView>, targets: seq<string>): seq<LayerView>
  {
    seq(|vs|, i requires 0 <= i < |vs| => Toggle(vs[i], vs[i].uid in targets))
  }

  /** Index of the first entry equal to `uid` (JavaScript's `Array.prototype.find` on uids). */
  function IndexOf(uids: seq<string>, uid: string): (r: Option<nat>)
    ensures r.None? <==> uid !in uids
    ensures r.Some? ==> r.value < |uids| && uids[r.value] == uid
    ensures r.Some? ==> forall k :: 0 <= k < r.value ==> uids[k] != uid
  {
    if uids == [] then None
    else if uids[0] == uid then Some(0)
    else match IndexOf(uids[1..], uid)
      case None => None
      case Some(k) => Some(k + 1)
  }

  /**
   * `findLayer`: the layer whose uid equals the event's `data-identifier`.
   * A missing attribute and an empty one are both falsy and resolve to nothing.
   */
  function FindLayerIndex(uids: seq<string>, evtId: Option<string>): (r: Option<nat>)
    ensures r.Some? <==> evtId.Some? && evtId.value != "" && evtId.value in uids
    ensures r.Some? ==> r.value < |uids| && uids[r.value] == evtId.value
    ensures r.Some? ==> forall k :: 0 <= k < r.value ==> uids[k] != evtId.value
  {
    if evtId.None? || evtId.value == "" then None else IndexOf(uids, evtId.value)
  }

  /** `layers.find(l => l.getVisible())`: the first top-level layer that shows. */
  function FirstVisible(vs: seq<LayerView>): (r: Option<nat>)
    ensures r.None? <==> forall k :: 0 <= k < |vs| ==> !vs[k].visible
    ensures r.Some? ==> r.value < |vs| && vs[r.value].visible
    ensures r.Some? ==> forall k :: 0 <= k < r.value ==> !vs[k].visible
  {
    if vs == [] then None
    else if vs[0].visible then Some(0)
    else match FirstVisible(vs[1..])
      case None => None
      case Some(k) => Some(k + 1)
  }

  /** After `setLayersVisible(targets)` exactly the listed layers show, groups agree with their children, and the list keeps its shape. */
  lemma SetVisibleShowsTargets(vs: seq<LayerView>, targets: seq<string>)
    ensures SameShape(SetVisible(vs, targets), vs)
    ensures forall i :: 0 <= i < |vs| ==> SetVisible(vs, targets)[i].visible == (vs[i].uid in targets)
    ensures Coherent(SetVisible(vs, targets))
  {
  }

  /** A second `setLayersVisible` overrides the first completely. */
  lemma SetVisibleOverrides(vs: seq<LayerView>, first: seq<string>, second: seq<string>)
    ensures SetVisible(SetVisible(vs, first), second) == SetVisible(vs, second)
  {
  }

  /** `setLayersVisible` is idempotent. */
  lemma SetVisibleIdempotent(vs: seq<LayerView>, targets: seq<string>)
    ensures SetVisible(SetVisible(vs, targets), targets) == SetVisible(vs, targets)
  {
  }

  /** Listing one uid of a list with unique uids leaves exactly that layer showing. */
  lemma SetVisibleSingle(vs: seq<LayerView>, k: nat)
    requires k < |vs| && UniqueUids(vs)
    ensures OnlyVisible(SetVisible(vs, [vs[k].uid]), k)
    ensures Coherent(SetVisible(vs, [vs[k].uid]))
  {
  }

  /** A coherent list that already shows exactly the listed layers is left as it is. */
  lemma {:induction false} SetVisibleFixpoint(vs: seq<LayerView>, targets: seq<string>)
    requires Coherent(vs)
    requires forall i :: 0 <= i < |vs| ==> vs[i].visible == (vs[i].uid in targets)
    ensures SetVisible(vs, targets) == vs
  {
    forall i | 0 <= i < |vs|
      ensures SetVisible(vs, targets)[i] == vs[i]
    {
      assert Toggle(vs[i], vs[i].visible).members == vs[i].members;
    }
  }
}
