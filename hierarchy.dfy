/** The d3 hierarchy the sunburst is drawn from: nodes, child-index paths,
    the value assignment of createVisualization, the leafLeft/leafRight
    descents and the root-excluded ancestor sequence of a hovered node. */
module Hierarchy {
  import opened Wrappers

  /** A hierarchy node: the JSON's `name` and optional `size`, the node's
      `value` (None while it is undefined, and also for NaN) and its
      children in order. A node without children is a leaf: d3 leaves the
      `children` property undefined for it. */
  datatype Node = Node(name: string, size: Option<int>, value: Option<int>, children: seq<Node>)

  /** The node reached from `t` by following the child indices `p`; a node
      of the tree is identified by this path, so identity is path equality
      and the depth of a node is the length of its path. */
  function At(t: Node, p: seq<nat>): Option<Node>
    decreases |p|
  {
    if p == [] then Some(t)
    else if p[0] < |t.children| then At(t.children[p[0]], p[1..])
    else None
  }

  lemma {:induction false} AtPrefix(t: Node, p: seq<nat>, k: nat)
    requires At(t, p).Some? && k <= |p|
    ensures At(t, p[..k]).Some?
    decreases |p|
  {
    if k > 0 {
      assert p[..k][0] == p[0] && p[..k][1..] == p[1..][..k - 1];
      AtPrefix(t.children[p[0]], p[1..], k - 1);
    }
  }

  lemma {:induction false} AtExtend(t: Node, p: seq<nat>, n: Node, i: nat)
    requires At(t, p) == Some(n) && i < |n.children|
    ensures At(t, p + [i]) == Some(n.children[i])
    decreases |p|
  {
    if p != [] {
      assert (p + [i])[0] == p[0] && (p + [i])[1..] == p[1..] + [i];
      AtExtend(t.children[p[0]], p[1..], n, i);
    }
  }

  // ---------------------------------------------------------------------
  // Value assignment (`root.each(d => d.value = d.data.size)`, then the
  // root's value replaced by the reduce over its children)
  // ---------------------------------------------------------------------

  /** JavaScript `+` on numbers that may be undefined: undefined makes the
      sum NaN, and NaN absorbs every later addition. */
  function Plus(a: Option<int>, b: Option<int>): Option<int>
  {
    if a.Some? && b.Some? then Some(a.value + b.value) else None
  }

  /** Every node of `t`, at every depth, has its own size as its value. */
  predicate OwnSizes(t: Node)
    decreases t
  {
    t.value == t.size && forall i :: 0 <= i < |t.children| ==> OwnSizes(t.children[i])
  }

  /** `a` and `b` carry the same JSON data (names, sizes, shape); only
      their values may differ. */
  predicate SameData(a: Node, b: Node)
    decreases a
  {
    a.name == b.name && a.size == b.size && |a.children| == |b.children| &&
    forall i :: 0 <= i < |a.children| ==> SameData(a.children[i], b.children[i])
  }

  /** `root.each(function(d) { d.value = d.data.size; })`. */
  function WithOwnSizes(t: Node): (r: Node)
    ensures OwnSizes(r) && SameData(r, t)
    decreases t
  {
    Node(t.name, t.size, t.size,
         seq(|t.children|, i requires 0 <= i < |t.children| => WithOwnSizes(t.children[i])))
  }

  /** `cs.reduce(function(left, right) { return left + right.value }, acc)`. */
  function Reduce(cs: seq<Node>, acc: Option<int>): (r: Option<int>)
    ensures acc.None? ==> r.None?
    ensures cs == [] ==> r == acc
    decreases |cs|
  {
    if cs == [] then acc else Reduce(cs[1..], Plus(acc, cs[0].value))
  }

  /** Reference sum: all numbers defined, then their arithmetic sum. */
  predicate Defined(xs: seq<Option<int>>)
  {
    forall i :: 0 <= i < |xs| ==> xs[i].Some?
  }

  function SumOf(xs: seq<Option<int>>): int
    requires Defined(xs)
    decreases |xs|
  {
    if xs == [] then 0 else xs[0].value + SumOf(xs[1..])
  }

  function Total(xs: seq<Option<int>>): Option<int>
  {
    if Defined(xs) then Some(SumOf(xs)) else None
  }

  function ValuesOf(cs: seq<Node>): seq<Option<int>>
  {
    seq(|cs|, i requires 0 <= i < |cs| => cs[i].value)
  }

  function SizesOf(cs: seq<Node>): seq<Option<int>>
  {
    seq(|cs|, i requires 0 <= i < |cs| => cs[i].size)
  }

  /** The left fold computes the reference total, shifted by the seed. */
  lemma {:induction false} ReduceIsTotal(cs: seq<Node>, acc: Option<int>)
    ensures Reduce(cs, acc) == Plus(acc, Total(ValuesOf(cs)))
    decreases |cs|
  {
    if cs != [] {
      var xs := ValuesOf(cs);
      assert ValuesOf(cs[1..]) == xs[1..];
      ReduceIsTotal(cs[1..], Plus(acc, cs[0].value));
      assert Defined(xs) <==> xs[0].Some? && Defined(xs[1..]) by {
        forall i | 0 < i < |xs| ensures xs[i] == xs[1..][i - 1] { }
      }
    }
  }

  datatype BuildError =
    /** `root.children` is undefined, so `root.children.reduce` throws. */
    RootWithoutChildren

  /** Lines 101-110 of createVisualization: every node's value becomes its
      own size, then the root's value becomes the sum of its immediate
      children's values. */
  function AssignValues(root: Node): (r: Result<Node, BuildError>)
    ensures r.Ok? <==> root.children != []
    ensures r.Ok? ==> SameData(r.value, root)
    ensures r.Ok? ==> forall i :: 0 <= i < |r.value.children| ==> OwnSizes(r.value.children[i])
    ensures r.Ok? ==> r.value.value == Total(SizesOf(root.children))
  {
    if root.children == [] then Err(RootWithoutChildren)
    else
      var s := WithOwnSizes(root);
      ReduceIsTotal(s.children, Some(0));
      assert ValuesOf(s.children) == SizesOf(root.children) by {
        forall i | 0 <= i < |s.children| ensures s.children[i].value == root.children[i].size {
          assert OwnSizes(s.children[i]) && SameData(s.children[i], root.children[i]);
        }
      }
      Ok(s.(value := Reduce(s.children, Some(0))))
  }

  /** The root's own size plays no part in the total. */
  lemma RootSizeIgnored(root: Node, size: Option<int>)
    requires root.children != []
    ensures AssignValues(root.(size := size)).value.value == AssignValues(root).value.value
  {
  }

  // ---------------------------------------------------------------------
  // leafLeft / leafRight
  // ---------------------------------------------------------------------

  /** The child that leafLeft (`first`) or leafRight (not `first`) enters. */
  function Pick(n: Node, first: bool): nat
    requires n.children != []
  {
    if first then 0 else |n.children| - 1
  }

  /** `p` enters, from `t`, the first (or last) child at every step. */
  predicate Follows(t: Node, p: seq<nat>, first: bool)
    decreases |p|
  {
    p == [] ||
    (t.children != [] && p[0] == Pick(t, first) && Follows(t.children[p[0]], p[1..], first))
  }

  lemma {:induction false} FollowsExtend(t: Node, p: seq<nat>, first: bool, n: Node)
    requires Follows(t, p, first) && At(t, p) == Some(n) && n.children != []
    ensures Follows(t, p + [Pick(n, first)], first)
    ensures At(t, p + [Pick(n, first)]) == Some(n.children[Pick(n, first)])
    decreases |p|
  {
    var k := Pick(n, first);
    AtExtend(t, p, n, k);
    if p != [] {
      assert (p + [k])[0] == p[0] && (p + [k])[1..] == p[1..] + [k];
      FollowsExtend(t.children[p[0]], p[1..], first, n);
    }
  }

  /** Only one path from `t` follows first (or last) children down to a
      leaf, so the leaf the descent returns is determined by `t`. */
  lemma {:induction false} DescentUnique(t: Node, p: seq<nat>, q: seq<nat>, first: bool)
    requires Follows(t, p, first) && Follows(t, q, first)
    requires At(t, p).Some? && At(t, p).value.children == []
    requires At(t, q).Some? && At(t, q).value.children == []
    ensures p == q
    decreases |p|
  {
    if p != [] && q != [] {
      DescentUnique(t.children[p[0]], p[1..], q[1..], first);
      assert p == [p[0]] + p[1..] && q == [q[0]] + q[1..];
    }
  }

  /** leafLeft: descend through first children until a leaf. */
  method LeafLeft(t: Node) returns (leaf: Node)
    ensures leaf.children == []
    ensures exists p :: Follows(t, p, true) && At(t, p) == Some(leaf)
    ensures t.children == [] ==> leaf == t
  {
    leaf := t;
    ghost var p: seq<nat> := [];
    while leaf.children != []
      invariant Follows(t, p, true) && At(t, p) == Some(leaf)
      invariant t.children == [] ==> leaf == t
      decreases leaf
    {
      FollowsExtend(t, p, true, leaf);
      p := p + [0];
      leaf := leaf.children[0];
    }
  }

  /** leafRight: descend through last children until a leaf. */
  method LeafRight(t: Node) returns (leaf: Node)
    ensures leaf.children == []
    ensures exists p :: Follows(t, p, false) && At(t, p) == Some(leaf)
    ensures t.children == [] ==> leaf == t
  {
    leaf := t;
    ghost var p: seq<nat> := [];
    while leaf.children != []
      invariant Follows(t, p, false) && At(t, p) == Some(leaf)
      invariant t.children == [] ==> leaf == t
      decreases leaf
    {
      FollowsExtend(t, p, false, leaf);
      p := p + [|leaf.children| - 1];
      leaf := leaf.children[|leaf.children| - 1];
    }
  }

  // ---------------------------------------------------------------------
  // The hovered node's sequence (`d.ancestors().reverse()`, then `shift()`)
  // ---------------------------------------------------------------------

  /** d3's `node.ancestors()`: the node, its parent, ..., the root. */
  function Ancestors(p: seq<nat>): (r: seq<seq<nat>>)
    ensures |r| == |p| + 1
    ensures r[0] == p && r[|p|] == []
    ensures forall k :: 0 <= k <= |p| ==> r[k] == p[..|p| - k]
    decreases |p|
  {
    if p == [] then [[]] else [p] + Ancestors(p[..|p| - 1])
  }

  function Reverse<T>(s: seq<T>): (r: seq<T>)
    ensures |r| == |s|
    ensures forall k :: 0 <= k < |s| ==> r[k] == s[|s| - 1 - k]
  {
    if s == [] then [] else Reverse(s[1..]) + [s[0]]
  }

  /** The sequence the hover handler builds for the node at `p`. */
  function HoverPaths(p: seq<nat>): (r: seq<seq<nat>>)
    ensures |r| == |p|
    ensures p != [] ==> r[|p| - 1] == p
  {
    Reverse(Ancestors(p))[1..]
  }

  lemma {:induction false} ReversedAncestors(p: seq<nat>)
    ensures Reverse(Ancestors(p)) == seq(|p| + 1, k requires 0 <= k <= |p| => p[..k])
    decreases |p|
  {
    if p != [] {
      var q := p[..|p| - 1];
      var a := Ancestors(q);
      assert ([p] + a)[1..] == a;
      assert Reverse(Ancestors(p)) == Reverse(a) + [p];
      ReversedAncestors(q);
      var want := seq(|p| + 1, k requires 0 <= k <= |p| => p[..k]);
      forall k | 0 <= k <= |p| ensures (Reverse(a) + [p])[k] == want[k] {
        if k < |p| { assert q[..k] == p[..k]; } else { assert p[..k] == p; }
      }
    }
  }

  /** The root-excluded sequence runs from the depth-1 ancestor to the node
      itself: it has one entry per level below the root, and entry k is the
      node's ancestor at depth k + 1. */
  lemma HoverPathsShape(p: seq<nat>)
    ensures |HoverPaths(p)| == |p|
    ensures forall k :: 0 <= k < |p| ==> HoverPaths(p)[k] == p[..k + 1]
  {
    ReversedAncestors(p);
  }

  /** Membership in the sequence (the opacity filter's `indexOf(node) >= 0`)
      is exactly being a non-root ancestor-or-self of the hovered node. */
  lemma HoverMembership(q: seq<nat>, p: seq<nat>)
    ensures q in HoverPaths(p) <==> 0 < |q| <= |p| && q == p[..|q|]
  {
    HoverPathsShape(p);
    if 0 < |q| <= |p| && q == p[..|q|] {
      assert HoverPaths(p)[|q| - 1] == q;
    }
  }

  /** An entry of the hover sequence: the node (by path), its name and its
      depth, which is the part of a d3 node the breadcrumbs read. */
  datatype NodeRef = NodeRef(path: seq<nat>, name: string, depth: nat)

  function RefAt(t: Node, q: seq<nat>): NodeRef
    requires At(t, q).Some?
  {
    NodeRef(q, At(t, q).value.name, |q|)
  }

  /** `sequenceArray` of the hover handler for the node of `t` at `p`. */
  function HoverSequence(t: Node, p: seq<nat>): (r: seq<NodeRef>)
    requires At(t, p).Some?
    ensures |r| == |p|
    ensures forall k :: 0 <= k < |r| ==>
              r[k].path == p[..k + 1] && r[k].depth == k + 1 &&
              At(t, r[k].path).Some? && r[k].name == At(t, r[k].path).value.name
  {
    HoverPathsShape(p);
    var ps := HoverPaths(p);
    assert forall k :: 0 <= k < |ps| ==> At(t, ps[k]).Some? by {
      forall k | 0 <= k < |ps| ensures At(t, ps[k]).Some? { AtPrefix(t, p, k + 1); }
    }
    seq(|ps|, k requires 0 <= k < |ps| => RefAt(t, ps[k]))
  }
}
