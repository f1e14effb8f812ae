/** The breadcrumb trail: the polygon of one crumb, the colour table, the
    `name + depth` key of d3's data join, the join itself with the crumb
    positions, and the trail's state. */
module Breadcrumbs {
  import opened Wrappers
  import opened Hierarchy

  /** Breadcrumb dimensions: width, height, spacing, width of tip/tail. */
  const W: int := 75
  const H: int := 30
  const S: int := 3
  const T: int := 10

  datatype Point = Point(x: int, y: int)

  /** The vertices of the crumb polygon at position `i`. */
  function Polygon(i: nat): (r: seq<Point>)
    ensures i == 0 ==> r == [Point(0, 0), Point(75, 0), Point(85, 15), Point(75, 30), Point(0, 30)]
    ensures i > 0 ==> r == [Point(0, 0), Point(75, 0), Point(85, 15), Point(75, 30), Point(0, 30), Point(10, 15)]
  {
    [Point(0, 0), Point(W, 0), Point(W + T, H / 2), Point(W, H), Point(0, H)] +
    (if i > 0 then [Point(T, H / 2)] else [])
  }

  /** breadcrumbPoints(d, i): five vertices, and a sixth (the notch that
      fits the previous crumb's tip) for every crumb but the leftmost. */
  method BreadcrumbPoints(i: nat) returns (points: seq<Point>)
    ensures points == Polygon(i)
  {
    points := [];
    points := points + [Point(0, 0)];
    points := points + [Point(W, 0)];
    points := points + [Point(W + T, H / 2)];
    points := points + [Point(W, H)];
    points := points + [Point(0, H)];
    if i > 0 {
      points := points + [Point(T, H / 2)];
    }
  }

  /** Crumb `i` is translated to x = i * (b.w + b.s). */
  function CrumbX(i: nat): (x: int)
    ensures x == 78 * i
  {
    i * (W + S)
  }

  /** The end label's x, `(n + 0.5) * (b.w + b.s)`, for a trail of n crumbs. */
  function EndLabelX(n: nat): (x: real)
    ensures x == (78 * n + 39) as real
  {
    (n as real + 0.5) * ((W + S) as real)
  }

  // ---------------------------------------------------------------------
  // Colours
  // ---------------------------------------------------------------------

  /** The five stage names, in the order of the colour table. */
  const Categories: seq<string> := ["Military", "School", "Work", "Retired", "TBD"]

  const Palette: map<string, string> :=
    map["Military" := "#da3e18", "School" := "#ed7833", "Work" := "#e1b256",
        "Retired" := "#6e8f58", "TBD" := "#267f85"]

  /** `colors[name]`: undefined (None) for a name outside the table. */
  function Color(name: string): (r: Option<string>)
    ensures r.Some? <==> name in Categories
  {
    if name in Palette then Some(Palette[name]) else None
  }

  // ---------------------------------------------------------------------
  // The join key `d.data.name + d.depth`
  // ---------------------------------------------------------------------

  predicate IsDigit(c: char)
  {
    '0' <= c <= '9'
  }

  predicate AllDigits(s: string)
  {
    forall i :: 0 <= i < |s| ==> IsDigit(s[i])
  }

  predicate NoDigits(s: string)
  {
    forall i :: 0 <= i < |s| ==> !IsDigit(s[i])
  }

  function DigitChar(d: nat): char
    requires d < 10
  {
    ('0' as int + d) as char
  }

  /** JavaScript's decimal rendering of a non-negative integer. */
  function NatToString(n: nat): (s: string)
    ensures |s| > 0 && AllDigits(s)
    decreases n
  {
    if n < 10 then [DigitChar(n)] else NatToString(n / 10) + [DigitChar(n % 10)]
  }

  /** The inverse of NatToString: the value of a string of digits. */
  function ParseNat(s: string): nat
    requires AllDigits(s)
    decreases |s|
  {
    if s == [] then 0
    else 10 * ParseNat(s[..|s| - 1]) + (s[|s| - 1] as int - '0' as int)
  }

  lemma {:induction false} ParseNatToString(n: nat)
    ensures ParseNat(NatToString(n)) == n
    decreases n
  {
    if n >= 10 {
      var s := NatToString(n);
      assert s[..|s| - 1] == NatToString(n / 10);
      ParseNatToString(n / 10);
    }
  }

  /** The data join's key function. */
  function KeyOf(d: NodeRef): (k: string)
    ensures |k| > |d.name| && k[..|d.name|] == d.name && AllDigits(k[|d.name|..])
  {
    d.name + NatToString(d.depth)
  }

  function Keys(ds: seq<NodeRef>): seq<string>
  {
    seq(|ds|, i requires 0 <= i < |ds| => KeyOf(ds[i]))
  }

  /** In `name + digits`, the name is the part before the first digit. */
  lemma KeySplit(name: string, digits: string, i: nat)
    requires NoDigits(name) && AllDigits(digits) && digits != []
    ensures i < |name| ==> !IsDigit((name + digits)[i])
    ensures IsDigit((name + digits)[|name|])
  {
  }

  /** For names without digits, `name + depth` determines both the name
      and the depth, so distinct nodes of a hover sequence never share a
      key. */
  lemma KeyInjective(a: NodeRef, b: NodeRef)
    requires NoDigits(a.name) && NoDigits(b.name) && KeyOf(a) == KeyOf(b)
    ensures a.name == b.name && a.depth == b.depth
  {
    var sa, sb := NatToString(a.depth), NatToString(b.depth);
    var k := KeyOf(a);
    KeySplit(a.name, sa, |b.name|);
    KeySplit(b.name, sb, |a.name|);
    assert a.name == k[..|a.name|] == b.name;
    assert sa == k[|a.name|..] == sb;
    ParseNatToString(a.depth);
    ParseNatToString(b.depth);
  }

  // ---------------------------------------------------------------------
  // The data join of updateBreadcrumbs
  // ---------------------------------------------------------------------

  /** One `svg:g` of the trail: its element identity, its bound datum, and
      what was drawn into it when it entered (caption text, fill, polygon),
      and its translation. */
  datatype Crumb = Crumb(id: nat, datum: NodeRef, caption: string, fill: Option<string>,
                         points: seq<Point>, x: int)

  /** The first group bound to key `k`; a later group with the same key
      goes to the exit selection. */
  function FirstWithKey(gs: seq<Crumb>, k: string): (r: Option<nat>)
    ensures r.None? ==> forall j :: 0 <= j < |gs| ==> KeyOf(gs[j].datum) != k
    ensures r.Some? ==> r.value < |gs| && KeyOf(gs[r.value].datum) == k &&
                        forall j :: 0 <= j < r.value ==> KeyOf(gs[j].datum) != k
    decreases |gs|
  {
    if gs == [] then None
    else if KeyOf(gs[0].datum) == k then Some(0)
    else match FirstWithKey(gs[1..], k)
      case None => None
      case Some(j) => Some(j + 1)
  }

  /** The old group that datum `i` updates, if any: the first old group
      with its key, unless an earlier datum with the same key has taken it
      (a repeated key enters anew). */
  function Matched(olds: seq<Crumb>, data: seq<NodeRef>, i: nat): (r: Option<nat>)
    requires i < |data|
    ensures r.Some? ==> r.value < |olds| && KeyOf(olds[r.value].datum) == KeyOf(data[i])
    ensures r.Some? ==> forall j :: 0 <= j < r.value ==> KeyOf(olds[j].datum) != KeyOf(data[i])
    ensures r.Some? ==> forall a :: 0 <= a < i ==> KeyOf(data[a]) != KeyOf(data[i])
    ensures r.None? ==> KeyOf(data[i]) in Keys(data[..i]) ||
                        forall j :: 0 <= j < |olds| ==> KeyOf(olds[j].datum) != KeyOf(data[i])
  {
    assert forall a :: 0 <= a < i ==> Keys(data[..i])[a] == KeyOf(data[a]);
    if KeyOf(data[i]) in Keys(data[..i]) then None else FirstWithKey(olds, KeyOf(data[i]))
  }

  /** The group at position `i` after the join and the translation. An
      updated group keeps its element, caption, fill and polygon and is
      re-bound to the new datum; an entering one gets id `nextId + i`. */
  function Place(olds: seq<Crumb>, data: seq<NodeRef>, nextId: nat, i: nat): (c: Crumb)
    requires i < |data|
    ensures c.datum == data[i] && c.x == 78 * i
    ensures Matched(olds, data, i).Some? ==>
              var g := olds[Matched(olds, data, i).value];
              c.id == g.id && c.caption == g.caption && c.fill == g.fill && c.points == g.points
    ensures Matched(olds, data, i).None? ==>
              c.id == nextId + i && c.caption == data[i].name && c.fill == Color(data[i].name) &&
              c.points == Polygon(i)
  {
    match Matched(olds, data, i)
    case Some(j) => olds[j].(datum := data[i], x := CrumbX(i))
    case None => Crumb(nextId + i, data[i], data[i].name, Color(data[i].name), Polygon(i), CrumbX(i))
  }

  /** The trail's groups after `updateBreadcrumbs(data, _)`: the exit
      selection removed, the enter selection appended, all merged in data
      order and translated. */
  function Join(olds: seq<Crumb>, data: seq<NodeRef>, nextId: nat): (r: seq<Crumb>)
    ensures |r| == |data|
    ensures forall i :: 0 <= i < |r| ==> r[i].datum == data[i] && KeyOf(r[i].datum) == Keys(data)[i]
    ensures forall i :: 0 <= i < |r| ==> r[i].x == 78 * i
  {
    seq(|data|, i requires 0 <= i < |data| => Place(olds, data, nextId, i))
  }

  predicate IdsBelow(gs: seq<Crumb>, n: nat)
  {
    forall j :: 0 <= j < |gs| ==> gs[j].id < n
  }

  predicate DistinctIds(gs: seq<Crumb>)
  {
    forall j, k :: 0 <= j < k < |gs| ==> gs[j].id != gs[k].id
  }

  /** Each group after the join is either an old group with the datum's
      key, kept as it was drawn, or a new element drawn for its position. */
  lemma JoinProvenance(olds: seq<Crumb>, data: seq<NodeRef>, nextId: nat, i: nat)
    requires IdsBelow(olds, nextId) && i < |data|
    ensures var c := Join(olds, data, nextId)[i];
      (c.id < nextId && exists j :: 0 <= j < |olds| && KeyOf(olds[j].datum) == KeyOf(data[i]) &&
                                    (forall j' :: 0 <= j' < j ==> KeyOf(olds[j'].datum) != KeyOf(data[i])) &&
                                    c == olds[j].(datum := data[i], x := 78 * i)) ||
      (c.id >= nextId && c.caption == data[i].name && c.fill == Color(data[i].name) && c.points == Polygon(i))
  {
  }

  /** Groups whose key is absent from the new data are removed. */
  lemma JoinRemovesAbsent(olds: seq<Crumb>, data: seq<NodeRef>, nextId: nat, j: nat)
    requires IdsBelow(olds, nextId) && DistinctIds(olds)
    requires j < |olds| && KeyOf(olds[j].datum) !in Keys(data)
    ensures forall i :: 0 <= i < |data| ==> Join(olds, data, nextId)[i].id != olds[j].id
  {
  }

  /** The join never binds one element to two data. */
  lemma JoinDistinct(olds: seq<Crumb>, data: seq<NodeRef>, nextId: nat)
    requires IdsBelow(olds, nextId) && DistinctIds(olds)
    ensures IdsBelow(Join(olds, data, nextId), nextId + |data|)
    ensures DistinctIds(Join(olds, data, nextId))
  {
    var r := Join(olds, data, nextId);
    forall a, b | 0 <= a < b < |r| ensures r[a].id != r[b].id {
      if Matched(olds, data, a).Some? && Matched(olds, data, b).Some? {
        assert Keys(data[..b])[a] == KeyOf(data[a]);
      }
    }
  }

  predicate UniqueKeys(data: seq<NodeRef>)
  {
    forall a, b :: 0 <= a < b < |data| ==> KeyOf(data[a]) != KeyOf(data[b])
  }

  /** Re-rendering the same sequence reuses every group and changes
      nothing. */
  lemma JoinIdempotent(olds: seq<Crumb>, data: seq<NodeRef>, n1: nat, n2: nat)
    requires UniqueKeys(data)
    ensures Join(Join(olds, data, n1), data, n2) == Join(olds, data, n1)
  {
  }

  /** A sequence laid out by depth: entry i is at depth i + 1, as the
      hover sequence is. */
  predicate ByDepth(data: seq<NodeRef>)
  {
    forall i :: 0 <= i < |data| ==> data[i].depth == i + 1 && NoDigits(data[i].name)
  }

  lemma ByDepthUniqueKeys(data: seq<NodeRef>)
    requires ByDepth(data)
    ensures UniqueKeys(data)
  {
    forall a, b | 0 <= a < b < |data| ensures KeyOf(data[a]) != KeyOf(data[b]) {
      if KeyOf(data[a]) == KeyOf(data[b]) { KeyInjective(data[a], data[b]); }
    }
  }

  /** Every group's polygon is the one for the position its datum's depth
      gives it. */
  predicate Aligned(gs: seq<Crumb>)
  {
    forall j :: 0 <= j < |gs| ==>
      gs[j].datum.depth >= 1 && NoDigits(gs[j].datum.name) &&
      gs[j].points == Polygon(gs[j].datum.depth - 1)
  }

  /** d3 does not redraw the polygon of an updated group; because the key
      carries the depth, an updated group always sits where it was drawn,
      so after the join with a by-depth sequence the leftmost crumb is the
      one without a notch and every other crumb has one. */
  lemma JoinAligned(olds: seq<Crumb>, data: seq<NodeRef>, nextId: nat)
    requires Aligned(olds) && ByDepth(data)
    ensures Aligned(Join(olds, data, nextId))
    ensures forall i :: 0 <= i < |data| ==> Join(olds, data, nextId)[i].points == Polygon(i)
  {
    var r := Join(olds, data, nextId);
    forall i | 0 <= i < |data| ensures r[i].points == Polygon(i) {
      match Matched(olds, data, i)
      case None =>
      case Some(j) =>
        KeyInjective(olds[j].datum, data[i]);
    }
  }

  // ---------------------------------------------------------------------
  // The trail
  // ---------------------------------------------------------------------

  /** The `#trail` svg: its groups in document order, the end label and the
      visibility style. `nextId` names the next element to be created. */
  class Trail {
    var groups: seq<Crumb>
    var nextId: nat
    var endLabelX: real
    var endLabelText: string
    var visible: bool

    ghost predicate Valid()
      reads this
    {
      IdsBelow(groups, nextId) && DistinctIds(groups)
    }

    /** initializeBreadcrumbTrail: an empty trail and an end label with no
        position or text; no visibility style is set. */
    constructor ()
      ensures Valid()
      ensures groups == [] && endLabelText == "" && visible
    {
      groups := [];
      nextId := 0;
      endLabelX := 0.0;
      endLabelText := "";
      visible := true;
    }

    /** updateBreadcrumbs(data, percentage). */
    method Update(data: seq<NodeRef>, percentage: string)
      requires Valid()
      modifies this
      ensures Valid()
      ensures groups == Join(old(groups), data, old(nextId))
      ensures nextId == old(nextId) + |data|
      ensures endLabelX == EndLabelX(|data|) && endLabelText == percentage
      ensures visible
    {
      JoinDistinct(groups, data, nextId);
      groups := Join(groups, data, nextId);
      nextId := nextId + |data|;
      endLabelX := EndLabelX(|data|);
      endLabelText := percentage;
      visible := true;
    }

    /** `d3.select("#trail").style("visibility", "hidden")`. */
    method Hide()
      requires Valid()
      modifies this
      ensures Valid() && !visible
      ensures groups == old(groups) && nextId == old(nextId)
      ensures endLabelX == old(endLabelX) && endLabelText == old(endLabelText)
    {
      visible := false;
    }
  }
}
