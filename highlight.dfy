/** The chart's interactive state: per-path opacity and hover handler,
    the pending restore transitions, the explanation panel and the trail,
    with the mouseover, mouseleave and transition-end events. */
module Highlight {
  import opened Wrappers
  import opened Hierarchy
  import opened Visibility
  import opened Breadcrumbs

  const Dim: real := 0.3
  const Full: real := 1.0

  const Chosen: string := "of all participants chose this exact path after high school"
  const NotReached: string := "of participants have not reached this stage in their cycle yet"

  /** The description shown for a hovered node named `name`. */
  function Explanation(name: string): (r: string)
    ensures r == NotReached <==> name == "TBD"
    ensures r == Chosen <==> name != "TBD"
  {
    if name == "TBD" then NotReached else Chosen
  }

  /** The `(value of total)` text, kept as its two numbers. */
  datatype RawCount = RawCount(value: Option<int>, total: Option<int>)

  /** A drawn sunburst. Path j of the chart is bound to `slices[j]`; the
      arrays hold its opacity style, whether its mouseover handler is
      attached, and whether a restore transition on it is pending. */
  class Sunburst {
    const tree: Node
    const slices: seq<Slice>
    const totalSize: Option<int>
    const opacity: array<real>
    const hoverEnabled: array<bool>
    const fading: array<bool>
    const trail: Trail
    var explanationVisible: bool
    var percentageText: string
    var rawCount: RawCount
    var description: string

    ghost predicate Valid()
      reads this, opacity, hoverEnabled, fading, trail
    {
      opacity.Length == |slices| && hoverEnabled.Length == |slices| && fading.Length == |slices| &&
      hoverEnabled != fading &&
      InTree(tree, slices) &&
      (forall j :: 0 <= j < |slices| ==> opacity[j] == Dim || opacity[j] == Full) &&
      (forall j :: 0 <= j < |slices| ==> hoverEnabled[j] == !fading[j]) &&
      (DigitFreeNames(tree) ==> Aligned(trail.groups)) &&
      trail.Valid()
    }

    /** The node path j is bound to. */
    function NodeOf(j: nat): Node
      reads this
      requires InTree(tree, slices) && j < |slices|
    {
      At(tree, slices[j].path).value
    }

    /** Path i reacts to the pointer: its handler is attached and it is
        displayed (the root's path has `display: none`). */
    predicate Responds(i: nat)
      reads this, hoverEnabled
      requires i < |slices| && i < hoverEnabled.Length
      ensures Responds(i) ==> hoverEnabled[i] && slices[i].path != []
      ensures !Responds(i) ==> !hoverEnabled[i] || slices[i].path == []
    {
      hoverEnabled[i] && |slices[i].path| > 0
    }

    /** The drawing part of createVisualization: values assigned, the
        layout's descendants filtered, one path per kept node at full
        opacity with its handler attached, and the total taken. */
    constructor (json: Node, layout: seq<Slice>)
      requires json.children != []
      requires InTree(AssignValues(json).value, layout)
      requires Visible(layout) != []
      ensures Valid()
      ensures fresh(opacity) && fresh(hoverEnabled) && fresh(fading) && fresh(trail)
      ensures tree == AssignValues(json).value && slices == Visible(layout)
      ensures Ok(totalSize) == TotalSize(tree, slices)
      ensures forall j :: 0 <= j < |slices| ==> opacity[j] == Full && hoverEnabled[j] && !fading[j]
      ensures !explanationVisible && trail.groups == [] && trail.visible
    {
      tree := AssignValues(json).value;
      var kept := Visible(layout);
      slices := kept;
      totalSize := TotalSize(AssignValues(json).value, kept).value;
      opacity := new real[|kept|](_ => Full);
      hoverEnabled := new bool[|kept|](_ => true);
      fading := new bool[|kept|](_ => false);
      trail := new Trail();
      explanationVisible := false;
      percentageText := "";
      rawCount := RawCount(None, None);
      description := "";
    }

    /** mouseover on path i, with the percentage text already formatted. */
    method MouseOver(i: nat, percentage: string)
      requires Valid() && i < |slices|
      modifies this, opacity, trail
      ensures Valid()
      ensures !Responds(i) ==>
        unchanged(this) && unchanged(opacity) &&
        trail.groups == old(trail.groups) && trail.nextId == old(trail.nextId) &&
        trail.visible == old(trail.visible) &&
        trail.endLabelX == old(trail.endLabelX) && trail.endLabelText == old(trail.endLabelText)
      ensures Responds(i) ==>
        var p := slices[i].path;
        explanationVisible && description == Explanation(NodeOf(i).name) &&
        percentageText == percentage && rawCount == RawCount(NodeOf(i).value, totalSize) &&
        trail.groups == Join(old(trail.groups), HoverSequence(tree, p), old(trail.nextId)) &&
        trail.visible && trail.endLabelText == percentage && trail.endLabelX == EndLabelX(|p|) &&
        forall j :: 0 <= j < |slices| ==>
          opacity[j] == if slices[j].path in HoverPaths(p) then Full else Dim
    {
      if !hoverEnabled[i] || |slices[i].path| == 0 {
        return;
      }
      var p := slices[i].path;
      var d := At(tree, p).value;
      percentageText := percentage;
      rawCount := RawCount(d.value, totalSize);
      description := Explanation(d.name);
      explanationVisible := true;
      var sequence := HoverSequence(tree, p);
      if DigitFreeNames(tree) {
        HoverSequenceByDepth(tree, p);
        JoinAligned(trail.groups, sequence, trail.nextId);
      }
      trail.Update(sequence, percentage);
      var members := HoverPaths(p);
      forall j | 0 <= j < opacity.Length {
        opacity[j] := Dim;
      }
      forall j | 0 <= j < opacity.Length && slices[j].path in members {
        opacity[j] := Full;
      }
    }

    /** mouseleave on the chart: hide the trail and the explanation,
        detach every handler and start the restore transitions. Opacities
        move to full only as the transitions end. */
    method MouseLeave()
      requires Valid()
      modifies this, hoverEnabled, fading, trail
      ensures Valid()
      ensures !trail.visible && !explanationVisible
      ensures trail.groups == old(trail.groups) && trail.nextId == old(trail.nextId)
      ensures trail.endLabelX == old(trail.endLabelX) && trail.endLabelText == old(trail.endLabelText)
      ensures percentageText == old(percentageText) && description == old(description) &&
              rawCount == old(rawCount)
      ensures forall j :: 0 <= j < |slices| ==> !hoverEnabled[j] && fading[j]
    {
      trail.Hide();
      forall j | 0 <= j < hoverEnabled.Length {
        hoverEnabled[j] := false;
      }
      forall j | 0 <= j < fading.Length {
        fading[j] := true;
      }
      explanationVisible := false;
    }

    /** The `end` event of path j's restore transition: its opacity is
        full and its handler is attached again. No other path changes. */
    method TransitionEnd(j: nat)
      requires Valid() && j < |slices|
      modifies opacity, hoverEnabled, fading
      ensures Valid()
      ensures old(fading[j]) ==> opacity[j] == Full && hoverEnabled[j] && !fading[j]
      ensures !old(fading[j]) ==>
        opacity[j] == old(opacity[j]) && hoverEnabled[j] == old(hoverEnabled[j]) && fading[j] == old(fading[j])
      ensures forall k :: 0 <= k < |slices| && k != j ==>
        opacity[k] == old(opacity[k]) && hoverEnabled[k] == old(hoverEnabled[k]) && fading[k] == old(fading[k])
    {
      if fading[j] {
        opacity[j] := Full;
        hoverEnabled[j] := true;
        fading[j] := false;
      }
    }
  }

  /** No name anywhere in `t` contains a digit (true of the five stage
      names). */
  predicate DigitFreeNames(t: Node)
    decreases t
  {
    NoDigits(t.name) && forall i :: 0 <= i < |t.children| ==> DigitFreeNames(t.children[i])
  }

  lemma {:induction false} DigitFreeAt(t: Node, p: seq<nat>)
    requires DigitFreeNames(t) && At(t, p).Some?
    ensures NoDigits(At(t, p).value.name)
    decreases |p|
  {
    if p != [] {
      DigitFreeAt(t.children[p[0]], p[1..]);
    }
  }

  /** In such a tree every hover sequence is laid out by depth, so its
      breadcrumb keys are distinct and the trail's polygons stay aligned
      with their positions. */
  lemma HoverSequenceByDepth(t: Node, p: seq<nat>)
    requires DigitFreeNames(t) && At(t, p).Some?
    ensures ByDepth(HoverSequence(t, p))
  {
    var r := HoverSequence(t, p);
    forall k | 0 <= k < |r| ensures NoDigits(r[k].name) {
      DigitFreeAt(t, r[k].path);
    }
  }
}
