# Sunburst hierarchy and highlighting, modelled in Dafny

This project models the logic of `sequences.js`, the script that draws the
life-stage sunburst chart (stages Military, School, Work, Retired, TBD) with
its breadcrumb trail. It covers five parts:

- the value assignment that keeps the chart's total at the participant count;
- the `leafLeft`/`leafRight` descents;
- the visibility filter over the partition layout's descendants and the total taken from it;
- the hover state machine (`mouseover`, `mouseleave`, the end of each restore transition);
- the breadcrumb trail: the crumb polygon, the `name + depth` keyed data join and the crumb positions.

Modules, one per file:

- `Wrappers` (`wrappers.dfy`): Option and Result. None stands for JavaScript's `undefined` (and NaN) and Err for a thrown TypeError.
- `Hierarchy` (`hierarchy.dfy`): the hierarchy node.
  - A node is identified by its child-index path from the root, so d3's object identity is path equality and a node's depth is the length of its path.
  - The module also holds value assignment, `leafLeft`/`leafRight` as `while` loops, and the root-excluded ancestor sequence built from `ancestors().reverse()` and `shift()`.
- `Visibility` (`visibility.dfy`): the strict `> 0.003` filter and `totalSize`. The layout's angular spans are inputs.
- `Breadcrumbs` (`breadcrumbs.dfy`): the things the trail is built from.
  - The `b` constants and `breadcrumbPoints`.
  - The colour table.
  - The join key, with JavaScript's decimal rendering of the depth.
  - d3's keyed data join, as the pure function `Join`. It keeps the first old group per key, updated groups keep the polygon, caption and fill they were drawn with, a repeated key enters anew, and group i is placed at x = 78·i.
  - The `Trail` class, which holds the trail's state.
- `Highlight` (`highlight.dfy`): the `Sunburst` class.
  - One entry per drawn path in arrays of opacity, handler-attached and restore-pending flags.
  - The explanation panel, the texts, and the trail.
  - The constructor and the three events.
- `Scenarios` (`scenarios.dfy`): client code on the tree `root → Work (3), School (1)`.
  - The total is 4, and hovering Work gives the sequence ["Work"].
  - The method `HoverLeaveHover` goes hover, leave, all transitions end, hover again. It shows that only the new sequence ends at full opacity.

Three places where the code does something a reader might not expect, and where the model follows the code:

- Only the root is re-summed. Every other node, internal ones included, gets its own `size` as its value, which is None when that size is absent.
- The trail is not hidden when it is created. `initializeBreadcrumbTrail` sets no visibility style, so it starts visible (and empty).
- The threshold is 0.003 radians, as the code compares. The comment beside it says 0.005.

## Model

| member | source | states |
|---|---|---|
| `Hierarchy.WithOwnSizes` | sequences.js:101-103 | every node at every depth gets its own size as value; names, sizes and shape stay as they were |
| `Hierarchy.Reduce` | sequences.js:105-110 | `children.reduce((left, right) => left + right.value, seed)`: an undefined (NaN) seed stays undefined, and no children leaves the seed |
| `Hierarchy.ReduceIsTotal` | sequences.js:105-110 | the `reduce` left fold from a seed equals the seed plus the reference sum of the children's values; one undefined value makes the result undefined (NaN) |
| `Hierarchy.AssignValues` | sequences.js:101-110 | succeeds exactly when the root has children (otherwise `root.children.reduce` throws); the data is unchanged; every node below the root has its own size as value; the root's value is the sum of its immediate children's sizes, or undefined if one is missing |
| `Hierarchy.RootSizeIgnored` | sequences.js:105-110 | the root's own size has no effect on the root's value |
| `Hierarchy.LeafLeft` | sequences.js:47-51 | returns a childless node reached from the input by entering the first child at every step; a childless input is returned unchanged |
| `Hierarchy.LeafRight` | sequences.js:53-57 | the same, entering the last child at every step |
| `Hierarchy.DescentUnique` | sequences.js:47-57 | only one first-child (or last-child) path reaches a leaf, so the leaf returned is determined |
| `Hierarchy.Ancestors` | sequences.js:164 | `node.ancestors()`: one entry per level, the node first and the root last; entry k is the ancestor k levels up |
| `Hierarchy.Reverse` | sequences.js:164 | `reverse()`: same length, entry k is entry n-1-k of the input |
| `Hierarchy.HoverPaths` | sequences.js:164-165 | `ancestors().reverse()` then `shift()`: one entry per level below the root, the last being the hovered node itself |
| `Hierarchy.ReversedAncestors` | sequences.js:164 | reversing `ancestors()` (node, parent, …, root) gives the path prefixes from the root to the node, in order |
| `Hierarchy.HoverPathsShape` | sequences.js:164-165 | after `shift()` the sequence has length equal to the node's depth, and entry k is the node's ancestor at depth k+1; the last entry is the node itself and the root is excluded |
| `Hierarchy.HoverMembership` | sequences.js:173-177 | a node is in the sequence exactly when it is a non-root ancestor-or-self of the hovered node |
| `Hierarchy.HoverSequence` | sequences.js:164-165 | the sequence's entries carry the ancestor's path, depth k+1 and the name of that node |
| `Visibility.Visible` | sequences.js:113-116 | keeps exactly the entries whose angular width is strictly greater than 0.003, each as many times as it occurs in the input, in their original order; a kept first entry stays first |
| `Visibility.ThresholdIsStrict` | sequences.js:115 | a width of exactly 0.003 is dropped and a width of 0.0031 is kept |
| `Visibility.TotalSize` | sequences.js:133 | defined exactly when some entry is kept; `datum()` on an empty selection throws |
| `Visibility.TotalIsRootValue` | sequences.js:113-133 | when the descendant list starts with the root and the root is kept, the total is the root's value |
| `Visibility.TotalIsParticipantCount` | sequences.js:101-133 | after value assignment that total is the sum of the sizes of the root's children |
| `Breadcrumbs.Polygon` | sequences.js:226-237 | position 0 gives (0,0),(75,0),(85,15),(75,30),(0,30); every later position gives the same five vertices and then (10,15) |
| `Breadcrumbs.BreadcrumbPoints` | sequences.js:226-237 | the vertices pushed are exactly those of `Polygon(i)` |
| `Breadcrumbs.CrumbX` | sequences.js:265-267 | crumb i is translated to x = i·(75 + 3) = 78·i |
| `Breadcrumbs.EndLabelX` | sequences.js:270-271 | the end label's x, (n + 0.5)·(75 + 3), is 78·n + 39 |
| `Breadcrumbs.Color` | sequences.js:15-21 | a colour is defined exactly for the five stage names |
| `Breadcrumbs.NatToString` | sequences.js:245 | the depth's decimal text is non-empty and made of digits only |
| `Breadcrumbs.ParseNatToString` | sequences.js:245 | reading the decimal text back gives the depth |
| `Breadcrumbs.KeyOf` | sequences.js:245 | the key `d.data.name + d.depth` is the name followed by at least one digit |
| `Breadcrumbs.KeySplit` | sequences.js:245 | in `name + digits` the name ends where the first digit starts |
| `Breadcrumbs.KeyInjective` | sequences.js:245 | for names without digits, equal keys mean equal names and equal depths |
| `Breadcrumbs.FirstWithKey` | sequences.js:243-245 | finds the first group whose bound datum has the key, or reports that none has it |
| `Breadcrumbs.Matched` | sequences.js:243-248 | datum i updates an old group only if that group is the first old group with its key and no earlier datum has the same key; it enters when an earlier datum took the key or no old group has it |
| `Breadcrumbs.Place` | sequences.js:248-267 | group i is bound to datum i at x = 78·i; an updated group keeps its id, caption, fill and polygon; an entering one gets a new id, the datum's name as caption, the name's colour and the polygon for position i |
| `Breadcrumbs.Join` | sequences.js:243-267 | one group per datum, in data order; group i is bound to datum i, its key is `name + depth` of datum i, and it is placed at x = 78·i |
| `Breadcrumbs.JoinProvenance` | sequences.js:248-262 | each group is either the first old group with the datum's key, kept as drawn and only re-bound and moved, or a new element with the datum's name as caption, the name's colour and the polygon for its position |
| `Breadcrumbs.JoinRemovesAbsent` | sequences.js:248 | an old group whose key is not among the new keys is gone |
| `Breadcrumbs.JoinDistinct` | sequences.js:243-267 | no element is bound to two data; all element ids stay below the new counter |
| `Breadcrumbs.JoinIdempotent` | sequences.js:243-267 | rendering the same sequence (with distinct keys) a second time reuses every group and changes nothing |
| `Breadcrumbs.ByDepthUniqueKeys` | sequences.js:242-245 | in a sequence laid out by depth with digit-free names all keys differ |
| `Breadcrumbs.JoinAligned` | sequences.js:253-254 | updated groups keep the polygon they were drawn with, yet when the old groups are aligned (each polygon the one for its datum's depth), after a join with a by-depth sequence every group's polygon is the one for its position: the leftmost has no notch, the others do |
| `Breadcrumbs.Trail.constructor` | sequences.js:211-220 | a new trail has no groups, an empty end label and no hiding style |
| `Breadcrumbs.Trail.Update` | sequences.js:240-282 | the groups become `Join` of the old groups with the sequence; the end label is at 78·n + 39 with the percentage text; the trail is visible; element ids stay distinct |
| `Breadcrumbs.Trail.Hide` | sequences.js:186-187 | the trail is hidden and nothing else changes |
| `Highlight.Explanation` | sequences.js:144-147 | the "not reached this stage" text exactly when the name is "TBD", the "chose this exact path" text otherwise |
| `Highlight.Sunburst.constructor` | sequences.js:91-133 | values are assigned, the drawn paths are the kept entries, each at full opacity with its handler attached, and the total is the first kept node's value; the trail starts empty and visible, and the explanation panel hidden as the page sets it |
| `Highlight.Sunburst.Responds` | sequences.js:121-190 | a path reacts to the pointer exactly when its handler is attached (`on("mouseover", null)` detaches it) and it is not the root's path (`display: none`) |
| `Highlight.Sunburst.MouseOver` | sequences.js:136-181 | on a path with its handler attached (not the root, which is not displayed): the explanation is visible with the explanation for the node's name, the percentage and raw count; the trail is updated with the root-excluded sequence; a path's opacity is 1 exactly when its node is in the sequence and 0.3 otherwise; on any other path nothing changes |
| `Highlight.Sunburst.MouseLeave` | sequences.js:183-206 | the trail and the explanation are hidden; every handler is detached and every path has a restore transition pending; the texts, the trail's groups, element counter and end label (position and text) are unchanged |
| `Highlight.Sunburst.TransitionEnd` | sequences.js:192-199 | the end of path j's pending transition sets its opacity to 1 and re-attaches its handler; no other path changes; without a pending transition nothing changes |
| `Highlight.DigitFreeAt` | sequences.js:245 | in a tree without digits in its names, every node's name is digit-free |
| `Highlight.HoverSequenceByDepth` | sequences.js:164-165 | in such a tree every hover sequence is laid out by depth, so its keys are distinct and, from aligned old groups, `JoinAligned` keeps the trail aligned |
| `Scenarios.SmallTree` | sequences.js:101-165 | for root → Work (3), School (1) the root's value is 4 and hovering Work gives the sequence ["Work"] |
| `Scenarios.DrawSmallTree` | sequences.js:91-133 | drawing that tree keeps all three layout entries, ready for hover, with total 4 |

The class invariant `Sunburst.Valid` also states three things. Every opacity is 0.3 or 1. A path's handler is attached exactly when no restore transition is pending on it, which is what keeps a new hover from starting in the middle of a fade. In a chart whose names have no digits, the trail is aligned: every crumb's polygon is the one for its datum's depth. The constructor starts with no crumbs, `MouseOver` keeps the trail aligned through `HoverSequenceByDepth` and `JoinAligned`, and the other events leave the crumbs alone.

## Left out

- The `d3.partition` layout and the `d3.arc`/`Math.sqrt` geometry are library code and floating point. The layout's descendant list, with each entry's angular span, is an input. Its breadth-first order is assumed only where a lemma says the list starts with the root.
- Sorting the hierarchy (line 92) is left out. It runs before any value is set, so it compares undefined values and gives no order.
- Angular spans are exact reals: `x0`, `x1` and `d.x1 - d.x0` are not IEEE doubles, so rounding of the subtraction near 0.003 is not modelled. With doubles, a span from 0.1 to 0.1 + 0.003 is kept while one from 1.0 to 1.0 + 0.003 is dropped; `Visibility.ThresholdIsStrict` holds of the exact difference only.
- The `toPrecision(3)` percentage and the `"< 0.1%"` comparison are float formatting. `MouseOver` takes the percentage text as a parameter.
- The raw count text `(value of total)` is kept as its two numbers, not as a string.
- The polygon's `points` attribute is kept as a list of integer vertices, not joined into the SVG attribute string.
- Constant text attributes (`x`, `y`, `dy`, `text-anchor` of the captions and the end label) are left out.
- JSON fetches, title and subtitle text, the `li` click handler and dataset switching are network and DOM wiring. The model has one chart and does not model stale handlers of a replaced chart.
- SVG creation and removal, the bounding circle, and the `.exit().remove()` calls on selections with no data join are left out; those calls are no-ops. `initializeBreadcrumbTrail` is modelled by the `Trail` constructor only. The script appends a new trail svg on every dataset load, and that is not modelled.
- `drawLegend`, its tooltips and their transitions are static UI.
- The 1000 ms transition timing, the interpolated opacities between a `mouseleave` and the end of a transition, d3's interruption of a running transition by a new one, and `console.log` are left out. A second `mouseleave` leaves the same state as the first.
- The document order of trail groups is taken as data order. d3 inserts entering groups before the next updated group, so the two agree when the old groups were already in data order.
- Undefined and NaN are both None. The model does not say which of the two a JavaScript value was.
- Sizes are integers. JSON sizes that are fractional or not numbers are not modelled.
- The script throws when the root has no children (line 105) or when no node is kept (line 133). `AssignValues` and `TotalSize` return errors there, and `Sunburst.constructor` requires neither case to occur.
- `leafLeft`/`leafRight` are modelled even though the script never uses their results.
- `Highlight.Sunburst.constructor`: its `!explanationVisible` is the page's initial state, not something the script sets. `createVisualization` never styles `#explanation`; the panel starts hidden because of the page's markup and stylesheet, which are not part of this model.
- `Breadcrumbs.JoinAligned`: requires stage names without digits. With digits in names, `name + depth` keys can collide (for example "A1" at depth 2 and "A" at depth 12). The join itself is modelled for any names.
