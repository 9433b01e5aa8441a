# BoxTree layout, in Dafny

A model of the tree-layout pass of the `BoxTree` React component
(`index.tsx`, and its compiled twin `index.js`, which has the same logic line
for line). `BoxTree` draws a tree of labels as boxes with elbow connectors.
Once every label has been measured, a layout effect does three things:

1. It computes one row height per depth.
2. It runs a callback over the tree with the pull-based walker `walk2`. The
   callback places every node's box and text and appends the connector
   segments to three buffers.
3. It sizes the SVG canvas.

The modules follow the program:

| module | file | what it models |
|---|---|---|
| `Trees` | trees.dfy | `tree<T>`, pre-order, depths, and the plain walker `walk` |
| `PullWalk` | walk2.dfy | `walk2`: its `next` closure as a class `Cursor`, and the walker as a method against a recursive specification |
| `RowHeights` | rows.dfy | the row-height `walk`, as a class `RowPass` holding the counter `i` and the `row_height` array |
| `Geometry` | geometry.dfy | points, rectangles, segments and translations |
| `LayoutSpec` | layout_spec.dfy | `Lay`: the layout of one subtree as a value, relative to the corner its parent hands down |
| `BoxLayout` | layout.dfy | the layout callback as a class `Layout` that owns `textPos`, `bgRects`, `TAILS`, `HEADS`, `LRBOUNDS` and the counter `i`, and the in-place shifts of the buffers' slices |
| `LayoutFacts` | facts.dfy | what `Lay` promises about every node: size, text anchor, row, connector counts, horizontal extent |
| `LayoutColumns` | columns.dfy | how a node places its children side by side: each child's subtree in its own column, left to right, one margin apart |
| `ConnectorBounds` | connectors.dfy | where the connector segments go: within a subtree's reported width and between its own row and its deepest row |
| `BoxTree` | boxtree.dfy | the whole effect: the guard, both walks, the canvas size, and the resulting drawing |
| `Styles` | styles.dfy | the first effect: labels and per-node styles gathered in pre-order, and the style merge |

Design choices:

- **Trees.** `tree<T>` is `Leaf(data)` (no `children` field) or
  `Node(data, children)`. `Node(x, [])` is a node whose `children` array is
  empty. Both walkers keep the two apart.
- **Coordinates** are `real`. The layout only adds, subtracts, halves and
  takes `min`/`max`. The margin `m = margin * rem` and the padding
  `p = padding * rem` are inputs.
- **Sparse arrays.** `textPos` and `bgRects` are written by index, children
  before their parent, so they are modelled as `map<nat, _>`. A missing key
  is a hole. `forEach` over a slice skips holes, and so do `ShiftPoints` and
  `ShiftRects`.
- **`row_height`.** Writing past the end of `row_height` leaves holes. Both
  `|| 0` and `reduce` read a hole as 0, so the model pads with zeros.
- **`walk2` and the callback.** The imperative pass `Layout.Visit` fuses
  `walk2` with the layout callback: each `next(...)` is a recursive
  `Visit` of the next child. `Layout.Visit` is proved to emit exactly
  `Lay`, moved to the corner it is given and placed behind what the buffers
  already hold.
- **`walk2` on its own.** `PullWalk` models the walker generically. The
  callback is abstracted by three functions: how many times it calls
  `next`, the context it hands to each child, and the value it returns.
- **The `children[0]` quirk.** `next` writes every child's result to slot
  0 of `children` (index.tsx:50). The model keeps this: a completed walk
  returns at most one child, the last one visited.

## Model

| member | source | states |
|---|---|---|
| Trees.WalkShape | index.tsx:70-76 | `walk` returns a tree of the input's shape: same kind of node, same number of children, pairwise the same shape |
| Trees.WalkPreorder | index.js:40-46 | the k-th node of the result, in pre-order, holds `f` applied to the k-th input node and that node's depth. `f` therefore runs on a node before its children, at depth `d` for the root and depth + 1 for each child |
| Trees.PreDepths | index.tsx:70-76 | the depths a walk passes in pre-order: one per node, the root's first, each within the tree's height below the root |
| PullWalk.Cursor.Next | index.tsx:40-53 | `next` answers `null` when the node has no `children` field or all children were visited, changing nothing. Otherwise it walks child `i` with the given context, stores the result in slot 0, advances `i` and returns the result. A failure of the child's walk is passed on |
| PullWalk.Walk2 | index.tsx:26-66 | the walker's result (the callback's calls of `next`, its value, then the completeness check) is `Walk2Spec` |
| PullWalk.Walk2Completes | index.tsx:59-64 | the walk succeeds if and only if every node's callback calls `next` at least as often as the node has children. Otherwise it fails with "iteration incomplete" |
| PullWalk.Walk2Incomplete | index.js:32-34 | a node with a `children` field whose callback calls `next` fewer times than it has children makes the walk throw "iteration incomplete" |
| PullWalk.PullUntilNullDrains | index.tsx:311-316 | a callback that calls `next` until it answers `null`, as the layout callback does, never makes the walk throw |
| PullWalk.VisitedInOrder | index.tsx:40-53 | children are visited strictly in order: result k is the walk of child k with the context built from the results of children 0..k-1 |
| PullWalk.WalkResultShape | index.tsx:50 | a completed walk keeps the kind of node and puts the callback's value at the root. A node with children keeps exactly one child, the walk of its last child |
| RowHeights.Upd | index.tsx:273 | one callback: row `d` becomes the larger of its old height (0 when missing) and the node's height. The array grows to at least `d + 1` rows, and every other row keeps its height (0 for the padding) |
| RowHeights.Top | index.tsx:273 | reference definition of a row: the largest box height at level `l`. It is at least every such height and equals one of them, or 0 when there are none |
| RowHeights.RowFoldTop | index.tsx:270-274 | the fold of the callbacks from an empty array yields one row per level, each equal to `Top` |
| RowHeights.RowsCover | index.tsx:72-73 | a pre-order walk from depth `d` passes every depth `d..d+Height-1`, so `row_height` is left with no hole |
| RowHeights.RowsMax | index.tsx:269-274 | the row heights of a tree: exactly `Height(t)` rows, row `l` the largest box height at depth `l`, none negative, and every node's box fits the row of its depth |
| RowHeights.RowPass.Record | index.tsx:273 | the callback on the next node: the counter advances by one. With a box left, `row_height` becomes `Upd` of itself with that box. With the counter at the end, the read of the missing box throws, and `row_height` is unchanged |
| RowHeights.RowPass.Visit | index.tsx:72-74 | the walk from node `t` at depth `d` runs the callback on `Size(t)` nodes in pre-order, and the counter moves on by `Size(t)`. The walk throws exactly when fewer than `Size(t)` boxes are left. Otherwise `row_height` is the fold over the nodes' depths and boxes |
| BoxTree.RowHeightsOf | index.js:144-148 | the row-height walk from an empty array, counter 0 and depth 0 yields `Rows(t, dims)` |
| LayoutSpec.ReportedWidth | index.tsx:421 | the width a node reports is at least its own width, and at least `cw` when `cw > 0`. It is one of the two |
| LayoutSpec.Centring | index.tsx:370-377 | both shifts are non-negative and at most one is non-zero. The node moves right exactly when the connector head lies right of its centre and the children are wider. The subtree moves right exactly when the opposite holds. Each shift is at most both the gap between the centres and the difference of the widths, and equals one of them |
| LayoutSpec.Connectors | index.tsx:326-366 | a parent adds one tail from the bottom of its box at the connector head. With one child the tail reaches the children's row, and there are no heads or cross members. With `k >= 2` children the tail stops one margin above the row, there are `k - 2` heads for the middle centres, and one cross member runs from the first centre to the last |
| LayoutSpec.Arrange | index.tsx:419-424 | a node reports its own height plus `2m`, the `ReportedWidth` of its children's span, and its own baseline. Its own box keeps its measured size and never moves left of its corner |
| BoxLayout.ShiftSegments | index.tsx:382-395 | the `forEach` over a slice of a connector buffer from `from` on: those entries move right by the shift, and the earlier ones are unchanged |
| BoxLayout.ShiftPoints | index.tsx:397 | the `forEach` over `textPos.slice(j, i)`: each present entry with index in `j..i-1` moves right by the shift. Every other entry is unchanged, and holes stay holes |
| BoxLayout.ShiftRects | index.tsx:398 | as `ShiftPoints`, for `bgRects` |
| BoxLayout.Layout.Visit | index.tsx:292-426 | one callback visit of node `t` at context `d`: it takes the next `Size(t)` pre-order indexes, emits exactly `Lay(t)` moved to the corner `d` behind the buffers' earlier entries, and returns that layout's result moved to `d` |
| BoxLayout.Layout.VisitKids | index.tsx:306-316 | the loop over `next`: each child is pulled at `x_offset + cw` on the next row, and `cw` and `centers` track the children laid out so far. The buffers hold the children's layouts moved to the node's corner |
| BoxLayout.Layout.VisitChild | index.tsx:311-315 | one turn of the loop: the state after the first `n` children becomes the state after `n + 1` |
| BoxLayout.Layout.Place | index.tsx:402-424 | after the children, the node's own rectangle and text anchor go in slot `j`, and its result goes to the parent. The buffers then hold the whole subtree's layout |
| BoxLayout.Layout.Align | index.tsx:319-399 | the connectors of a node with children, then at most one centring move: the node's own x moves, or every entry its subtree emitted moves (connectors from `T`, `H`, `L` on, slots `j..i-1`). The buffers end up holding the arranged subtree |
| LayoutFacts.LayBoxes | index.tsx:403-416 | every node of a subtree keeps its measured size, has its text anchor at the padding and the baseline inside its box, and has its top on the row of its depth. The first box is the subtree root's |
| LayoutFacts.LayCount | index.tsx:326-366 | the TAILS, HEADS and LRBOUNDS entries of a subtree: one tail per node with children, plus one cross member and `k - 2` heads per node with `k >= 2` children |
| LayoutFacts.LayWithin | index.tsx:311-317 | with a non-negative margin and box widths, every box of a subtree lies between its corner and the width the subtree reports |
| BoxTree.ComputeLayout | index.tsx:262-441 | the effect, with the guard as intended: it does nothing unless there is exactly one measured box per node. Otherwise it yields the drawing `Canvas` of the measured boxes, inside `border` (0 when missing) |
| BoxTree.LayoutAsWritten | index.tsx:262-274 | the effect with the guard as written, running the row-height walk over the stored boxes. It waits exactly when some stored box is unmeasured. The walk throws exactly when all are measured but there are fewer than the tree's nodes. Otherwise it draws `CanvasAsWritten`: the rows of the first `Size(t)` boxes and the layout reading boxes by index |
| BoxTree.RowsAsWritten | index.tsx:269-274 | the row-height walk over however many boxes are stored throws exactly when there are fewer boxes than nodes. Otherwise it yields the rows of the first `Size(t)` boxes |
| BoxTree.AsWrittenWhenSized | index.tsx:262-273 | with exactly one box per node, the drawing as written is `Canvas` of the boxes, which `ComputeLayout` stores |
| BoxTree.StaleMetricsThrow | index.tsx:264-273 | running `LayoutAsWritten` on a tree of two nodes with the one measured box of an earlier, single-node tree gives `Threw`: the guard passes, and the row-height walk throws on the missing second box |
| BoxTree.Render | index.tsx:290-439 | the layout walk from the corner `(border, border)` at depth 0 with empty buffers, then the canvas size, yields `Draw` of the specified layout |
| BoxTree.CanvasSize | index.tsx:434-437 | the canvas width is what the root reports: the larger of its own box and its children's span (`Σ (width + m)` over the children, less one margin), plus two borders. The canvas height is the sum over the levels of the tallest box at each level, plus two margins per gap between levels, plus two borders |
| BoxTree.GapsCount | index.tsx:436 | two margins per gap between `n` rows, counted one gap at a time, add up to `2 * (n - 1) * m` |
| BoxTree.RowsHeight | index.tsx:436 | the height formula over the computed rows equals the sum of the tallest box per level, plus the gaps and the borders |
| BoxTree.HeightDrop | index.tsx:436 | the canvas height equals the drop to the bottom of the last row's lower margin, less that margin, plus the border above and below |
| BoxTree.CanvasSlots | index.tsx:411-416 | the drawing has a background box and a text anchor at exactly the indexes `0..Size-1`, one per node |
| BoxTree.CanvasBoxes | index.tsx:302-303 | node k's box keeps its measured size. Its top is the border plus the rows above its depth plus two margins per row above. Its text sits at `x + p` and `y + baseline` |
| BoxTree.CanvasCount | index.js:187-228 | the drawing's connector lists have one tail per node with children, and one cross member and `k - 2` heads per node with `k >= 2` children |
| BoxTree.CanvasInside | index.js:282-285 | with a non-negative margin, border and box widths, every background box lies inside the canvas, within the border on all four sides |
| BoxTree.ConnectorsInside | index.tsx:326-366 | with a non-negative margin and border, and box widths and heights, both ends of every tail, head and cross member lie inside the canvas, within the border on all four sides |
| BoxTree.DrawConnectors | index.tsx:430-432 | the stored connector lists are the layout's, moved to the border corner |
| LayoutColumns.KidColumns | index.tsx:306-317 | after `n` children, `cw` is the sum over those children of their reported width plus one margin. Each child's subtree is that child's own layout with its corner at that sum over the earlier children, one row down |
| LayoutColumns.SpanOrdered | index.tsx:314 | with a non-negative margin and widths, a child's column ends at least one margin before any later child's column begins |
| LayoutColumns.KidInColumn | index.tsx:311-315 | every box of child `c`'s subtree lies within that child's column, between its left edge and its left edge plus the child's reported width |
| LayoutColumns.SiblingsApart | index.tsx:311-315 | every box of an earlier child's subtree lies left of every box of a later child's subtree, at least one margin apart, in the node's arranged layout as well |
| LayoutColumns.LayWidth | index.tsx:421 | a node reports the larger of its own width and its children's span `Σ (width + m) - m` (its own width alone when that span is not positive) |
| LayoutColumns.ArrangedKids | index.tsx:375-399 | the centring moves all of a node's descendants by the same amount: the distances between their boxes and their widths are unchanged |
| ConnectorBounds.ConnectorsX | index.tsx:326-366 | a node's own tail, heads and cross member run at its connector head and its children's centres, so within any range that holds all of these |
| ConnectorBounds.ConnectorsY | index.tsx:326-366 | a node's own connectors run from the bottom of its box down to the top of its children's row, never above the node's own top |
| ConnectorBounds.LayX | index.tsx:306-399 | with a non-negative margin and box widths, a subtree's own box and every connector it emits lie between its corner and the width it reports |
| ConnectorBounds.LayY | index.tsx:302-366 | every connector of a subtree whose boxes fit their rows lies between the top of its own row and the top of its deepest row |
| ConnectorBounds.TopsOf | index.tsx:302 | the row tops the layout uses: each row starts at least its row height and two margins below the one above, and no row starts above an earlier one |
| Styles.Precedence | index.tsx:191-197 | a node's style has an attribute when the built-in defaults, the component's style or the node's own style sets it. It takes the node's value, else the component's, else the built-in one |
| Styles.Gather.Visit | index.tsx:194-198 | the gathering `walk` from node `t` appends the labels and styles of its nodes, in pre-order, to the three arrays |
| Styles.Collect | index.tsx:186-198 | one label, one rectangle style and one text style per node, in pre-order, each the node's own style over the merged defaults |

## Left out

- React state, effects and their sequencing are not modelled (index.tsx:152-256, 431-439). Each effect is a method from its inputs to what it stores.
- The measurement of the labels is a DOM call: the `rem` probe (index.tsx:152-158) and `getBBox` (index.tsx:229-256). The measured boxes are an input, `Option<TextBox>` per node.
- The SVG rendering and the path strings are not modelled (index.tsx:443-502).
- IEEE floating point is not modelled: coordinates are reals, and NaN and infinities do not arise.
- index.d.ts holds type declarations only.
- The `SVGProps` attribute values are opaque (`V`). The path style merge at index.tsx:444 has the same shape as `Styles.Spread` and is not modelled separately.
- A node's `label` field is called `caption`, because `label` is a keyword in Dafny.
- BoxLayout.Layout.Visit: runs the callback with the `walk2` recursion inlined. The tree `walk2` returns is not rebuilt, since the effect reads only `TB.data.width`. `PullWalk` proves separately that a callback pulling until `null` never makes `walk2` throw.
- The layout's objects are modelled as values. In the source, `bgRects[j]` is the same object as the `bgRect` a node returns, and `d` is mutated by `d.x_offset +=`. Each parent reads its child's `bgRect` before any later shift can touch it, and each context object is fresh per `next` call, so the values agree.
- PullWalk.Walk2: the callback is three total functions. The number of `next` calls it makes depends only on the node's payload and its number of children. The context it passes and its value depend on the payload, its own context and the earlier child results. So `Walk2Completes`, `Walk2Incomplete` and `Drains` say nothing about a callback whose number of pulls depends on its context or on earlier results. The layout callback pulls until `null`, and `PullUntilNullDrains` covers it. The callback's side effects on outer state are not part of this generic model (`BoxLayout` models the layout callback's).

## Findings

| source | as written | input that shows it | evidently intended | confidence | as-written member | corrected member |
|---|---|---|---|---|---|---|
| index.tsx:262-273 | the layout effect runs once every stored box is measured, whether or not there is one box per node | the tree grows from one node to two. The effect sees the new `data` with the old `textBGDims`, which holds one measured box, and `textBGDims[1]!.height` throws | wait until there is one measured box per node | not executed; medium | BoxTree.LayoutAsWritten, BoxTree.StaleMetricsThrow | BoxTree.ComputeLayout |
