/** The visibility filter applied to the partition layout's descendant
    list, and the total the percentages are taken against. The layout
    itself (angles from values) is not part of this model: each entry's
    angular span is an input. */
module Visibility {
  import opened Wrappers
  import opened Hierarchy

  /** An entry of `partition(root).descendants()`: a node of the tree, by
      its path from the root, and the angular span [x0, x1) the layout
      gave it, in radians. */
  datatype Slice = Slice(path: seq<nat>, x0: real, x1: real)

  /** Slices this narrow or narrower are not drawn. */
  const MinWidth: real := 0.003

  predicate Wide(s: Slice)
  {
    s.x1 - s.x0 > MinWidth
  }

  /** `s` occurs in `t` in order (not necessarily contiguously). */
  predicate Subsequence<T(==)>(s: seq<T>, t: seq<T>)
    decreases |t|
  {
    s == [] ||
    (t != [] && if s[0] == t[0] then Subsequence(s[1..], t[1..]) else Subsequence(s, t[1..]))
  }

  /** `descendants().filter(d => d.x1 - d.x0 > 0.003)`. */
  function Visible(ds: seq<Slice>): (r: seq<Slice>)
    ensures forall s :: s in r <==> s in ds && Wide(s)
    ensures forall s :: multiset(r)[s] == if Wide(s) then multiset(ds)[s] else 0
    ensures Subsequence(r, ds)
    ensures ds != [] && Wide(ds[0]) ==> r != [] && r[0] == ds[0]
    decreases |ds|
  {
    if ds == [] then []
    else
      assert ds == [ds[0]] + ds[1..];
      assert multiset(ds) == multiset{ds[0]} + multiset(ds[1..]);
      if Wide(ds[0]) then [ds[0]] + Visible(ds[1..])
      else Visible(ds[1..])
  }

  /** A strict comparison: a slice exactly at the threshold is dropped. */
  lemma ThresholdIsStrict(path: seq<nat>, x0: real)
    ensures !Wide(Slice(path, x0, x0 + 0.003))
    ensures Wide(Slice(path, x0, x0 + 0.0031))
  {
  }

  datatype SelectionError =
    /** `path.datum()` on an empty selection reads a field of null. */
    EmptySelection

  /** The layout's entries are nodes of `t`. */
  predicate InTree(t: Node, ds: seq<Slice>)
  {
    forall s :: s in ds ==> At(t, s.path).Some?
  }

  /** `totalSize = path.datum().value`: the value of the first drawn node. */
  function TotalSize(t: Node, kept: seq<Slice>): (r: Result<Option<int>, SelectionError>)
    requires InTree(t, kept)
    ensures r.Ok? <==> kept != []
  {
    if kept == [] then Err(EmptySelection) else Ok(At(t, kept[0].path).value.value)
  }

  /** The descendant list starts at the root; when the root is wide enough
      to be kept, the total is the root's value. */
  lemma TotalIsRootValue(t: Node, ds: seq<Slice>)
    requires InTree(t, ds) && ds != [] && ds[0].path == [] && Wide(ds[0])
    ensures InTree(t, Visible(ds)) && TotalSize(t, Visible(ds)) == Ok(t.value)
  {
  }

  /** After value assignment, that total is the sum of the sizes of the
      root's children: the participant count, not a sum over the whole
      tree. */
  lemma {:induction false} TotalIsParticipantCount(json: Node, ds: seq<Slice>)
    requires json.children != []
    requires InTree(AssignValues(json).value, ds)
    requires ds != [] && ds[0].path == [] && Wide(ds[0])
    ensures TotalSize(AssignValues(json).value, Visible(ds)) == Ok(Total(SizesOf(json.children)))
  {
    TotalIsRootValue(AssignValues(json).value, ds);
  }
}
