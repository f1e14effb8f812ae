/** What a caller can conclude from the contracts alone, on the two-stage
    tree `root -> Work (3), School (1)`. */
module Scenarios {
  import opened Wrappers
  import opened Hierarchy
  import opened Visibility
  import opened Breadcrumbs
  import opened Highlight

  function SmallJson(): Node
  {
    Node("root", None, None, [Node("Work", Some(3), None, []), Node("School", Some(1), None, [])])
  }

  /** The root's value is the participant count 4, and hovering "Work"
      gives the one-entry sequence ["Work"]. */
  lemma SmallTree()
    ensures AssignValues(SmallJson()).Ok?
    ensures AssignValues(SmallJson()).value.value == Some(4)
    ensures HoverSequence(AssignValues(SmallJson()).value, [0]) == [NodeRef([0], "Work", 1)]
  {
    var cs := SmallJson().children;
    assert SizesOf(cs) == [Some(3), Some(1)];
    assert SumOf([Some(3), Some(1)]) == 4 by {
      assert [Some(3), Some(1)][1..] == [Some(1)];
      assert [Some(1)][1..] == [];
    }
    var t := AssignValues(SmallJson()).value;
    assert At(t, [0]) == Some(t.children[0]) by { assert [0][1..] == []; }
  }

  /** Drawing the small tree keeps all three layout entries, at full
      opacity and ready for hover. */
  method DrawSmallTree() returns (chart: Sunburst)
    ensures fresh(chart) && chart.Valid() && chart.totalSize == Some(4)
    ensures chart.slices == [Slice([], 0.0, 6.28), Slice([0], 0.0, 4.71), Slice([1], 4.71, 6.28)]
    ensures forall j :: 0 <= j < 3 ==> chart.hoverEnabled[j]
  {
    var json := SmallJson();
    var layout := [Slice([], 0.0, 6.28), Slice([0], 0.0, 4.71), Slice([1], 4.71, 6.28)];
    SmallTree();
    var t := AssignValues(json).value;
    assert [0][1..] == [] && [1][1..] == [];
    assert InTree(t, layout);
    assert Visible(layout) == layout;
    chart := new Sunburst(json, layout);
  }

  /** Hover one path, leave, let every restore transition end, hover the
      other: exactly the new sequence is at full opacity. */
  method HoverLeaveHover(chart: Sunburst)
    requires chart.Valid() && |chart.slices| == 3
    requires chart.slices[0].path == [] && chart.slices[1].path == [0] && chart.slices[2].path == [1]
    requires forall j :: 0 <= j < 3 ==> chart.hoverEnabled[j]
    modifies chart, chart.opacity, chart.hoverEnabled, chart.fading, chart.trail
  {
    chart.MouseOver(1, "75.0%");
    assert chart.Responds(1);
    HoverMembership([], [0]);
    HoverMembership([0], [0]);
    HoverMembership([1], [0]);
    assert chart.opacity[0] == Dim && chart.opacity[1] == Full && chart.opacity[2] == Dim;

    chart.MouseLeave();
    assert !chart.Responds(2);
    chart.TransitionEnd(0);
    chart.TransitionEnd(1);
    chart.TransitionEnd(2);
    assert chart.Responds(2);
    chart.MouseOver(2, "25.0%");
    HoverMembership([], [1]);
    HoverMembership([0], [1]);
    HoverMembership([1], [1]);
    assert chart.opacity[0] == Dim && chart.opacity[1] == Dim && chart.opacity[2] == Full;
  }
}
