/** The layout effect of `BoxTree` as a whole (index.tsx:262-441): wait until
    every label has been measured, compute the row heights, run the layout
    callback over the tree from the border corner, and size the canvas. */
module BoxTree {
  import opened Trees
  import opened Geometry
  import opened LayoutSpec
  import opened LayoutFacts
  import opened RowHeights
  import opened BoxLayout
  import opened LayoutColumns
  import opened ConnectorBounds

  datatype Option<X> = None | Some(value: X)

  /** `border || 0`: a missing border counts as no border. */
  function BorderOr0(border: Option<real>): real {
    if border.Some? then border.value else 0.0
  }

  /** Every label has a measured box. */
  predicate AllMeasured(boxes: seq<Option<TextBox>>) {
    forall k :: 0 <= k < |boxes| ==> boxes[k].Some?
  }

  function Measured(boxes: seq<Option<TextBox>>): (dims: seq<TextBox>)
    requires AllMeasured(boxes)
    ensures |dims| == |boxes| && forall k :: 0 <= k < |boxes| ==> boxes[k] == Some(dims[k])
  {
    seq(|boxes|, k requires 0 <= k < |boxes| => boxes[k].value)
  }

  /** `reduce((x, y) => x + y, 0)`, folding from the left. */
  function Sum(rows: seq<real>): real
    decreases |rows|
  {
    if rows == [] then 0.0 else Sum(rows[..|rows| - 1]) + rows[|rows| - 1]
  }

  /** The canvas height: the rows, two margins between each two rows, and
      the border above and below. */
  function CanvasHeight(rows: seq<real>, m: real, b: real): real {
    Sum(rows) + 2.0 * (|rows| as real - 1.0) * m + 2.0 * b
  }

  /** Two margins between each two of `n` rows, counted gap by gap. */
  function Gaps(n: nat, m: real): real {
    if n <= 1 then 0.0 else Gaps(n - 1, m) + 2.0 * m
  }

  /** Counting the gaps agrees with the closed form of `CanvasHeight`. */
  lemma {:induction false} GapsCount(n: nat, m: real)
    requires n >= 1
    ensures Gaps(n, m) == 2.0 * (n as real - 1.0) * m
  {
    if n > 1 {
      GapsCount(n - 1, m);
      var k: real := (n - 1) as real;
      assert n as real - 1.0 == k;
      assert 2.0 * (k - 1.0) * m + 2.0 * m == 2.0 * k * m;
    } else {
      assert n as real - 1.0 == 0.0;
    }
  }

  /** What the effect stores: the canvas size, the text anchors and
      background boxes by pre-order index, and the three connector lists. */
  datatype Drawing = Drawing(width: real, height: real, textPos: map<nat, Point>, bgRects: map<nat, Rect>,
                             tails: seq<Segment>, heads: seq<Segment>, lrbounds: seq<Segment>)

  /** Margin and padding are given in `rem` and scaled once. */
  function Setup<T>(t: Tree<T>, dims: seq<TextBox>, margin: real, padding: real, rem: real): Config
    requires |dims| == Size(t)
  {
    Config(dims, Rows(t, dims), margin * rem, padding * rem)
  }

  /** The drawing of a tree laid out as `o` with configuration `cfg`, from
      the corner `(b, b)` inside a border `b`. */
  function Draw(cfg: Config, o: Out, b: real): Drawing {
    var e := Emit(Buffers(map[], map[], [], [], []), o.rects, o.texts, o.tails, o.heads, o.lrbounds, b, b, 0);
    Drawing(o.res.width + 2.0 * b, CanvasHeight(cfg.rowHeight, cfg.m, b), e.textPos, e.bgRects, e.tails, e.heads, e.lrbounds)
  }

  /** The drawing of tree `t` whose own boxes are `dims`, in pre-order. */
  function Canvas<T>(t: Tree<T>, dims: seq<TextBox>, margin: real, padding: real, rem: real, b: real): Drawing
    requires |dims| == Size(t)
  {
    var cfg := Setup(t, dims, margin, padding, rem);
    Draw(cfg, Lay(cfg, t, 0, 0), b)
  }

  /** The effect: nothing until there is exactly one measured box per node;
      otherwise the row-height walk, then the layout walk from the border
      corner at depth 0, then the canvas size from the root's reported width
      and the rows. (The source checks only that every stored box is
      measured; see `LayoutAsWritten`.) */
  method ComputeLayout<T>(t: Tree<T>, boxes: seq<Option<TextBox>>, margin: real, padding: real, rem: real,
                          border: Option<real>) returns (r: Option<Drawing>)
    ensures r.None? <==> |boxes| != Size(t) || exists k :: 0 <= k < |boxes| && boxes[k].None?
    ensures r.Some? ==> |boxes| == Size(t) && r.value == Canvas(t, Measured(boxes), margin, padding, rem, BorderOr0(border))
  {
    if |boxes| != Size(t) || !AllMeasured(boxes) {
      return None;
    }
    var dims := Measured(boxes);
    var rows := RowHeightsOf(t, dims);
    RowsMax(t, dims);
    var b := BorderOr0(border);
    var c := Render(Config(dims, rows, margin * rem, padding * rem), t, b);
    r := Some(c);
  }

  /** What one run of the effect as written comes to: it returns early,
      throws, or stores a drawing. */
  datatype Outcome = Waiting | Threw | Drawn(drawing: Drawing)

  /** The drawing the effect as written stores for tree `t` when it is
      given at least one box per node: the row heights of the first `Size(t)`
      boxes, and the layout reading boxes by pre-order index. */
  function CanvasAsWritten<T>(t: Tree<T>, dims: seq<TextBox>, margin: real, padding: real, rem: real, b: real): Drawing
    requires Size(t) <= |dims|
  {
    var cfg := Config(dims, Rows(t, dims[..Size(t)]), margin * rem, padding * rem);
    Draw(cfg, Lay(cfg, t, 0, 0), b)
  }

  /** The effect as written (index.tsx:262-273). The guard only asks that
      every stored box is measured. Right after `data` changes, the effect
      still sees the boxes measured for the previous tree: the first
      effect's reset to `null` takes hold only at the next render. The
      row-height walk then reads one box per node of the new tree: on a
      larger tree it reaches the end and `textBGDims[i++]!.height` throws;
      a tree no larger is laid out with the old boxes. */
  method LayoutAsWritten<T>(t: Tree<T>, boxes: seq<Option<TextBox>>, margin: real, padding: real, rem: real,
                            border: Option<real>) returns (r: Outcome)
    ensures r.Waiting? <==> !AllMeasured(boxes)
    ensures r.Threw? <==> AllMeasured(boxes) && |boxes| < Size(t)
    ensures r.Drawn? ==> Size(t) <= |boxes|
    ensures r.Drawn? ==> r.drawing == CanvasAsWritten(t, Measured(boxes), margin, padding, rem, BorderOr0(border))
  {
    if !AllMeasured(boxes) {
      return Waiting;
    }
    var dims := Measured(boxes);
    var threw, rows := RowsAsWritten(t, dims);
    if threw {
      return Threw;
    }
    var c := DrawRows(t, dims, rows, margin, padding, rem, BorderOr0(border));
    r := Drawn(c);
  }

  /** The row-height walk over however many boxes are stored: it throws
      exactly when there are fewer boxes than nodes, and otherwise yields the
      rows of the first `Size(t)` boxes. */
  method RowsAsWritten<T>(t: Tree<T>, dims: seq<TextBox>) returns (threw: bool, rows: seq<real>)
    ensures threw <==> |dims| < Size(t)
    ensures !threw ==> Size(t) <= |dims| && rows == Rows(t, dims[..Size(t)])
  {
    var rp := new RowPass(dims);
    rp.Visit(t, 0);
    threw, rows := rp.threw, rp.rowHeight;
    if !threw {
      assert dims[0..Size(t)] == dims[..Size(t)];
    }
  }

  /** The layout walk and the canvas size with the rows of the first
      `Size(t)` boxes. */
  method DrawRows<T>(t: Tree<T>, dims: seq<TextBox>, rows: seq<real>, margin: real, padding: real, rem: real,
                     b: real) returns (c: Drawing)
    requires Size(t) <= |dims| && rows == Rows(t, dims[..Size(t)])
    ensures c == CanvasAsWritten(t, dims, margin, padding, rem, b)
  {
    RowsMax(t, dims[..Size(t)]);
    c := Render(Config(dims, rows, margin * rem, padding * rem), t, b);
  }

  /** With one box per node the drawing as written is `Canvas`, the one
      `ComputeLayout` stores. */
  lemma AsWrittenWhenSized<T>(t: Tree<T>, dims: seq<TextBox>, margin: real, padding: real, rem: real, b: real)
    requires |dims| == Size(t)
    ensures CanvasAsWritten(t, dims, margin, padding, rem, b) == Canvas(t, dims, margin, padding, rem, b)
  {
    assert dims[..Size(t)] == dims;
  }

  /** A one-label tree gains a child: the effect sees the old, complete
      metrics for one node, passes its guard, and the row-height walk
      throws on the second node. */
  method StaleMetricsThrow() returns (r: Outcome)
    ensures r == Threw
  {
    var t := Node(0, [Leaf(1)]);
    assert Size(t) == 2 by {
      assert Size(t.children[0]) == 1;
      assert SizeKids(t, 1) == 1;
    }
    var boxes := [Some(TextBox(10.0, 40.0, 8.0))];
    assert AllMeasured(boxes);
    r := LayoutAsWritten(t, boxes, 1.0, 0.5, 16.0, None);
  }

  /** The row-height walk over the whole tree: one fresh pass from node 0
      at depth 0 yields the rows of `Rows`. */
  method RowHeightsOf<T>(t: Tree<T>, dims: seq<TextBox>) returns (rows: seq<real>)
    requires |dims| == Size(t)
    ensures rows == Rows(t, dims)
  {
    var rp := new RowPass(dims);
    rp.Visit(t, 0);
    assert dims[0..Size(t)] == dims;
    rows := rp.rowHeight;
  }

  /** The layout walk with fresh buffers from the corner `(b, b)`, and the
      canvas size: the drawing is `Draw` of the specified layout. */
  method Render<T>(cfg: Config, t: Tree<T>, b: real) returns (c: Drawing)
    requires Size(t) <= |cfg.dims| && Height(t) <= |cfg.rowHeight|
    ensures c == Draw(cfg, Lay(cfg, t, 0, 0), b)
  {
    var lay := new Layout(cfg);
    ghost var e0 := lay.Bufs();
    assert e0 == Buffers(map[], map[], [], [], []);
    var res, o := lay.Visit(t, Ctx(b, b, 0));
    ghost var e := lay.Bufs();
    var width := res.width + 2.0 * b;
    var height := CanvasHeight(cfg.rowHeight, cfg.m, b);
    c := Drawing(width, height, lay.textPos, lay.bgRects, lay.tails, lay.heads, lay.lrbounds);
    DrawOf(cfg, o, b, e0, e, width, height);
  }

  /** The top of row `d` lies below the rows above it and two margins per
      row. */
  lemma {:induction false} DropSum(cfg: Config, d: nat)
    requires d <= |cfg.rowHeight|
    ensures Drop(cfg, 0, d) == Sum(cfg.rowHeight[..d]) + 2.0 * (d as real) * cfg.m
  {
    if d > 0 {
      DropSum(cfg, d - 1);
      DropStep(cfg, 0, d - 1);
      assert cfg.rowHeight[..d][..d - 1] == cfg.rowHeight[..d - 1];
    }
  }

  /** `Canvas` spelled out from its parts. */
  lemma CanvasOf<T>(t: Tree<T>, dims: seq<TextBox>, margin: real, padding: real, rem: real, b: real,
                    cfg: Config, o: Out)
    requires |dims| == Size(t) && cfg == Setup(t, dims, margin, padding, rem) && o == Lay(cfg, t, 0, 0)
    ensures Canvas(t, dims, margin, padding, rem, b) == Draw(cfg, o, b)
  {
  }

  /** `Draw` from the buffers of the layout moved to the border corner. */
  lemma DrawOf(cfg: Config, o: Out, b: real, e0: Buffers, e: Buffers, W: real, H: real)
    requires e0 == Buffers(map[], map[], [], [], [])
    requires e == Emit(e0, o.rects, o.texts, o.tails, o.heads, o.lrbounds, b, b, 0)
    requires W == o.res.width + 2.0 * b
    requires H == CanvasHeight(cfg.rowHeight, cfg.m, b)
    ensures Draw(cfg, o, b) == Drawing(W, H, e.textPos, e.bgRects, e.tails, e.heads, e.lrbounds)
  {
  }

  /** The canvas size of `Draw`: the root's reported width and the rows
      with their margins, inside the border. */
  lemma DrawSize(cfg: Config, o: Out, b: real, c: Drawing)
    requires c == Draw(cfg, o, b)
    ensures c.width == o.res.width + 2.0 * b
    ensures c.height == CanvasHeight(cfg.rowHeight, cfg.m, b)
  {
  }

  /** The connector lists of `Draw`: the layout's, moved to the border
      corner. */
  lemma DrawConnectors(cfg: Config, o: Out, b: real, c: Drawing)
    requires c == Draw(cfg, o, b)
    ensures c.tails == MoveSegs(o.tails, b, b) && c.heads == MoveSegs(o.heads, b, b)
    ensures c.lrbounds == MoveSegs(o.lrbounds, b, b)
  {
    assert [] + MoveSegs(o.tails, b, b) == MoveSegs(o.tails, b, b);
    assert [] + MoveSegs(o.heads, b, b) == MoveSegs(o.heads, b, b);
    assert [] + MoveSegs(o.lrbounds, b, b) == MoveSegs(o.lrbounds, b, b);
  }

  /** The boxes and text anchors of `Draw`, from slot 0 on. */
  lemma DrawPlaced(cfg: Config, o: Out, b: real, c: Drawing)
    requires c == Draw(cfg, o, b)
    ensures c.bgRects == Placed(MoveRects(o.rects, b, b), 0) && c.textPos == Placed(MovePoints(o.texts, b, b), 0)
  {
  }

  /** The connector lists of `Draw`. */
  lemma DrawCount(cfg: Config, o: Out, b: real, c: Drawing)
    requires c == Draw(cfg, o, b)
    ensures |c.tails| == |o.tails| && |c.heads| == |o.heads| && |c.lrbounds| == |o.lrbounds|
  {
  }

  /** A run of `n` values placed from slot 0 fills exactly the slots
      `0..n-1`. */
  lemma PlacedKeys<V>(xs: seq<V>, m: map<nat, V>, n: nat)
    requires m == Placed(xs, 0) && n == |xs|
    ensures forall k: nat :: k in m <==> k < n
  {
    assert forall k: nat :: k in m <==> k in Slots(0, n);
  }

  /** Node `k` has a box in `bg` and a text anchor in `tp`: the box keeps
      the measured size in `dims`, its top is the top of the row of its
      depth `ds[k]` (the rows above it and two margins `m` per row, below
      the border `b`), and its text sits at the padding `p` and the baseline
      inside the box. */
  ghost predicate BoxPlaced(bg: map<nat, Rect>, tp: map<nat, Point>, k: nat, dims: seq<TextBox>, rows: seq<real>,
                            ds: seq<nat>, b: real, m: real, p: real)
  {
    && k in bg && k in tp && k < |dims| && k < |ds|
    && bg[k].height == dims[k].height && bg[k].width == dims[k].width
    && ds[k] < |rows| && bg[k].y == b + Sum(rows[..ds[k]]) + 2.0 * (ds[k] as real) * m
    && tp[k] == Point(bg[k].x + p, bg[k].y + dims[k].baseline)
  }

  /** Entry `k` of a sequence placed from index 0. */
  lemma PlacedEntry<V>(s: seq<V>, m: map<nat, V>, k: nat)
    requires m == Placed(s, 0) && k < |s|
    ensures k in m && m[k] == s[k]
  {
    PlacedAt(s, 0, k);
  }

  /** Box `k` of `Boxes` from index 0 and row 0. */
  lemma BoxOf(cfg: Config, rs: seq<Rect>, ps: seq<Point>, ds: seq<nat>, k: nat)
    requires Boxes(cfg, rs, ps, 0, ds, 0) && k < |rs|
    ensures k < |cfg.dims| && k < |ps| && k < |ds|
    ensures rs[k].height == cfg.dims[k].height && rs[k].width == cfg.dims[k].width
    ensures ps[k] == Anchor(cfg, rs[k], cfg.dims[k]) && rs[k].y == Drop(cfg, 0, ds[k])
  {
    assert 0 + k == k;
  }

  /** A box `r` with anchor `pt` at the top of row `d`, moved to the corner
      `(b, b)`. */
  lemma BoxAt(cfg: Config, r: Rect, pt: Point, box: TextBox, d: nat, b: real, R: Rect, P: Point,
              rows: seq<real>, m: real, p: real)
    requires rows == cfg.rowHeight && m == cfg.m && p == cfg.p && d <= |rows|
    requires r.height == box.height && r.width == box.width && pt == Anchor(cfg, r, box)
    requires r.y == Drop(cfg, 0, d) && R == MoveRect(r, b, b) && P == MovePoint(pt, b, b)
    ensures R.height == box.height && R.width == box.width
    ensures R.y == b + Sum(rows[..d]) + 2.0 * (d as real) * m
    ensures P == Point(R.x + p, R.y + box.baseline)
  {
    DropSum(cfg, d);
  }

  /** The nodes `0..n-1` are placed as `BoxPlaced` says. */
  ghost predicate BoxesPlaced(bg: map<nat, Rect>, tp: map<nat, Point>, n: nat, dims: seq<TextBox>, rows: seq<real>,
                              ds: seq<nat>, b: real, m: real, p: real)
  {
    forall k: nat :: k < n ==> BoxPlaced(bg, tp, k, dims, rows, ds, b, m, p)
  }

  /** The boxes of a laid-out tree, placed from index 0 at the corner
      `(b, b)`. */
  lemma PlacedBoxes(cfg: Config, rs: seq<Rect>, ps: seq<Point>, ds: seq<nat>, b: real,
                    bg: map<nat, Rect>, tp: map<nat, Point>, n: nat, dims: seq<TextBox>, rows: seq<real>, m: real, p: real)
    requires Boxes(cfg, rs, ps, 0, ds, 0) && n == |rs|
    requires cfg.dims == dims && cfg.rowHeight == rows && cfg.m == m && cfg.p == p
    requires bg == Placed(MoveRects(rs, b, b), 0) && tp == Placed(MovePoints(ps, b, b), 0)
    requires forall k :: 0 <= k < |ds| ==> ds[k] < |rows|
    ensures BoxesPlaced(bg, tp, n, dims, rows, ds, b, m, p)
  {
    forall k: nat | k < n
      ensures BoxPlaced(bg, tp, k, dims, rows, ds, b, m, p)
    {
      PlacedEntry(MoveRects(rs, b, b), bg, k);
      PlacedEntry(MovePoints(ps, b, b), tp, k);
      BoxOf(cfg, rs, ps, ds, k);
      BoxAt(cfg, rs[k], ps[k], dims[k], ds[k], b, bg[k], tp[k], rows, m, p);
    }
  }

  /** Every node gets exactly one background box and one text anchor, at its
      pre-order index. */
  lemma CanvasSlots<T>(t: Tree<T>, dims: seq<TextBox>, margin: real, padding: real, rem: real, b: real)
    requires |dims| == Size(t)
    ensures var c := Canvas(t, dims, margin, padding, rem, b);
      forall k: nat :: (k in c.bgRects <==> k < Size(t)) && (k in c.textPos <==> k < Size(t))
  {
    var cfg := Setup(t, dims, margin, padding, rem);
    var o := Lay(cfg, t, 0, 0);
    var c := Canvas(t, dims, margin, padding, rem, b);
    CanvasOf(t, dims, margin, padding, rem, b, cfg, o);
    DrawPlaced(cfg, o, b, c);
    PlacedKeys(MoveRects(o.rects, b, b), c.bgRects, Size(t));
    PlacedKeys(MovePoints(o.texts, b, b), c.textPos, Size(t));
  }

  /** Each node's box keeps the measured size, its top is the top of the
      row of its depth, and its text sits at the padding and the baseline
      inside the box (`BoxesPlaced`). */
  lemma CanvasBoxes<T>(t: Tree<T>, dims: seq<TextBox>, margin: real, padding: real, rem: real, b: real)
    requires |dims| == Size(t)
    ensures var c := Canvas(t, dims, margin, padding, rem, b);
      BoxesPlaced(c.bgRects, c.textPos, Size(t), dims, Rows(t, dims), PreDepths(t, 0), b, margin * rem, padding * rem)
  {
    var cfg := Setup(t, dims, margin, padding, rem);
    var o := Lay(cfg, t, 0, 0);
    var c := Canvas(t, dims, margin, padding, rem, b);
    var rows, ds := Rows(t, dims), PreDepths(t, 0);
    RootBoxes(cfg, t, o, ds);
    RowFacts(t, dims, rows, ds);
    CanvasOf(t, dims, margin, padding, rem, b, cfg, o);
    DrawPlaced(cfg, o, b, c);
    PlacedBoxes(cfg, o.rects, o.texts, ds, b, c.bgRects, c.textPos, Size(t), dims, rows, margin * rem, padding * rem);
  }

  /** `LayBoxes` for the whole tree. */
  lemma RootBoxes<T>(cfg: Config, t: Tree<T>, o: Out, ds: seq<nat>)
    requires o == Lay(cfg, t, 0, 0) && ds == PreDepths(t, 0) && Size(t) <= |cfg.dims|
    ensures Boxes(cfg, o.rects, o.texts, 0, ds, 0) && |o.rects| == Size(t)
  {
    LayBoxes(cfg, t, 0, 0);
  }

  /** `LayWithin` for the whole tree. */
  lemma RootWithin<T>(cfg: Config, t: Tree<T>, o: Out)
    requires o == Lay(cfg, t, 0, 0) && cfg.m >= 0.0 && Wide(cfg)
    ensures Within(o.rects, 0.0, o.res.width)
  {
    LayWithin(cfg, t, 0, 0);
  }

  /** `RowsMax` for the rows `rows` and depths `ds` of the whole tree. */
  lemma RowFacts<T>(t: Tree<T>, dims: seq<TextBox>, rows: seq<real>, ds: seq<nat>)
    requires |dims| == Size(t) && rows == Rows(t, dims) && ds == PreDepths(t, 0)
    ensures |ds| == Size(t)
    ensures forall l :: 0 <= l < |rows| ==> rows[l] >= 0.0
    ensures forall k :: 0 <= k < |ds| ==> ds[k] < |rows|
    ensures forall k :: 0 <= k < |ds| ==> dims[k].height <= rows[ds[k]]
  {
    RowsMax(t, dims);
  }

  /** The connector lists hold one tail per node with children, and one
      cross member and `k - 2` middle heads per node with `k >= 2`
      children. */
  lemma CanvasCount<T>(t: Tree<T>, dims: seq<TextBox>, margin: real, padding: real, rem: real, b: real)
    requires |dims| == Size(t)
    ensures var c := Canvas(t, dims, margin, padding, rem, b);
      |c.tails| == Tallied(t).tails && |c.heads| == Tallied(t).heads && |c.lrbounds| == Tallied(t).lrbounds
  {
    var cfg := Setup(t, dims, margin, padding, rem);
    var o := Lay(cfg, t, 0, 0);
    var c := Canvas(t, dims, margin, padding, rem, b);
    CanvasOf(t, dims, margin, padding, rem, b, cfg, o);
    DrawCount(cfg, o, b, c);
    RootCount(cfg, t, o, Tallied(t));
  }

  /** `LayCount` for the whole tree. */
  lemma RootCount<T>(cfg: Config, t: Tree<T>, o: Out, n: Tally)
    requires o == Lay(cfg, t, 0, 0) && n == Tallied(t)
    ensures |o.tails| == n.tails && |o.heads| == n.heads && |o.lrbounds| == n.lrbounds
  {
    LayCount(cfg, t, 0, 0);
  }

  /** The bottom of row `d` and its lower margin lie above the bottom of
      the last row's lower margin. */
  lemma RowBottom(cfg: Config, d: nat)
    requires cfg.m >= 0.0 && d < |cfg.rowHeight|
    requires forall l :: 0 <= l < |cfg.rowHeight| ==> cfg.rowHeight[l] >= 0.0
    ensures Drop(cfg, 0, d) + cfg.rowHeight[d] + 2.0 * cfg.m <= Drop(cfg, 0, |cfg.rowHeight|)
  {
    DropStep(cfg, 0, d);
    DropMono(cfg, 0, d + 1, |cfg.rowHeight|);
  }

  /** The canvas height is the drop below the last row, less its lower
      margin, plus the border above and below. */
  lemma HeightDrop(cfg: Config, b: real)
    ensures CanvasHeight(cfg.rowHeight, cfg.m, b) == Drop(cfg, 0, |cfg.rowHeight|) - 2.0 * cfg.m + 2.0 * b
  {
    DropSum(cfg, |cfg.rowHeight|);
    assert cfg.rowHeight[..|cfg.rowHeight|] == cfg.rowHeight;
    var n := |cfg.rowHeight| as real;
    assert 2.0 * n * cfg.m == 2.0 * (n - 1.0) * cfg.m + 2.0 * cfg.m;
  }

  /** One laid-out box inside the canvas. */
  lemma InsideAt(cfg: Config, r: Rect, d: nat, b: real, w: real, W: real, H: real)
    requires cfg.m >= 0.0 && b >= 0.0 && d < |cfg.rowHeight|
    requires forall l :: 0 <= l < |cfg.rowHeight| ==> cfg.rowHeight[l] >= 0.0
    requires r.y == Drop(cfg, 0, d) && r.height <= cfg.rowHeight[d]
    requires 0.0 <= r.x && r.x + r.width <= w && W == w + 2.0 * b
    requires H == CanvasHeight(cfg.rowHeight, cfg.m, b)
    ensures var R := MoveRect(r, b, b);
      b <= R.x && R.x + R.width <= W - b && b <= R.y && R.y + R.height <= H - b
  {
    DropNonneg(cfg, 0, d);
    RowBottom(cfg, d);
    HeightDrop(cfg, b);
  }

  /** The boxes `0..n-1` in `bg` lie inside a canvas `W` wide and `H` high,
      within the border `b`. */
  ghost predicate Inside(bg: map<nat, Rect>, n: nat, W: real, H: real, b: real) {
    forall k :: 0 <= k < n ==>
      && k in bg && b <= bg[k].x && bg[k].x + bg[k].width <= W - b && b <= bg[k].y && bg[k].y + bg[k].height <= H - b
  }

  /** The tallest box heights of levels `0..n-1`, added up. */
  function TopSum(ds: seq<nat>, bs: seq<TextBox>, n: nat): real
    requires |bs| == |ds|
  {
    if n == 0 then 0.0 else TopSum(ds, bs, n - 1) + Top(ds, bs, n - 1)
  }

  /** Rows that are the tallest box of each level add up to `TopSum`. */
  lemma {:induction false} SumTops(rows: seq<real>, ds: seq<nat>, bs: seq<TextBox>, n: nat)
    requires |bs| == |ds| && n <= |rows|
    requires forall l :: 0 <= l < n ==> rows[l] == Top(ds, bs, l)
    ensures Sum(rows[..n]) == TopSum(ds, bs, n)
  {
    if n > 0 {
      SumTops(rows, ds, bs, n - 1);
      SumStep(rows, n);
    }
  }

  /** The first `n` rows add up to the first `n - 1` and row `n - 1`. */
  lemma SumStep(rows: seq<real>, n: nat)
    requires 0 < n <= |rows|
    ensures Sum(rows[..n]) == Sum(rows[..n - 1]) + rows[n - 1]
  {
    assert rows[..n][..n - 1] == rows[..n - 1];
  }

  /** The canvas size (index.tsx:434-437): as wide as the root reports (the
      wider of its own box and its children's span, the children's widths
      plus one margin between each two) plus the border on both sides; as
      high as the tallest box of every level, two margins between each two
      levels, and the border above and below. */
  lemma CanvasSize<T>(t: Tree<T>, dims: seq<TextBox>, margin: real, padding: real, rem: real, b: real)
    requires |dims| == Size(t)
    ensures var c := Canvas(t, dims, margin, padding, rem, b);
      var cfg := Setup(t, dims, margin, padding, rem);
      && c.width == ReportedWidth(KidLeft(cfg, t, |Kids(t)|, 0, 0) - margin * rem, dims[0].width) + 2.0 * b
      && c.height == TopSum(PreDepths(t, 0), dims, Height(t)) + Gaps(Height(t), margin * rem) + 2.0 * b
  {
    var cfg := Setup(t, dims, margin, padding, rem);
    var o := Lay(cfg, t, 0, 0);
    var c := Canvas(t, dims, margin, padding, rem, b);
    CanvasOf(t, dims, margin, padding, rem, b, cfg, o);
    DrawSize(cfg, o, b, c);
    LayWidth(cfg, t, 0, 0);
    RowsHeight(t, dims, cfg.rowHeight, cfg.m, b);
  }

  /** `CanvasHeight` of the rows of a tree, level by level. */
  lemma RowsHeight<T>(t: Tree<T>, dims: seq<TextBox>, rows: seq<real>, m: real, b: real)
    requires |dims| == Size(t) && rows == Rows(t, dims)
    ensures CanvasHeight(rows, m, b) == TopSum(PreDepths(t, 0), dims, Height(t)) + Gaps(Height(t), m) + 2.0 * b
  {
    RowsSum(t, dims);
    HeightOf(rows, TopSum(PreDepths(t, 0), dims, Height(t)), Height(t), m, b);
  }

  lemma RowsSum<T>(t: Tree<T>, dims: seq<TextBox>)
    requires |dims| == Size(t)
    ensures |Rows(t, dims)| == Height(t) && Sum(Rows(t, dims)) == TopSum(PreDepths(t, 0), dims, Height(t))
  {
    RowsMax(t, dims);
    FitsSum(PreDepths(t, 0), dims, Rows(t, dims), Height(t));
  }

  lemma HeightOf(rows: seq<real>, s: real, h: nat, m: real, b: real)
    requires |rows| == h >= 1 && Sum(rows) == s
    ensures CanvasHeight(rows, m, b) == s + Gaps(h, m) + 2.0 * b
  {
    GapsCount(h, m);
  }

  /** Rows that fit sum to the level maxima. */
  lemma FitsSum(ds: seq<nat>, bs: seq<TextBox>, rows: seq<real>, top: nat)
    requires |bs| == |ds| && Fits(ds, bs, rows, top)
    ensures |rows| == top && Sum(rows) == TopSum(ds, bs, top)
  {
    SumTops(rows, ds, bs, top);
    assert rows[..top] == rows;
  }

  /** All laid-out boxes inside the canvas. */
  lemma PlacedInside(cfg: Config, rs: seq<Rect>, ps: seq<Point>, ds: seq<nat>, b: real, w: real,
                     bg: map<nat, Rect>, W: real, H: real, n: nat, dims: seq<TextBox>, rows: seq<real>)
    requires Boxes(cfg, rs, ps, 0, ds, 0) && Within(rs, 0.0, w) && bg == Placed(MoveRects(rs, b, b), 0)
    requires n == |rs| && cfg.dims == dims && cfg.rowHeight == rows
    requires cfg.m >= 0.0 && b >= 0.0 && W == w + 2.0 * b
    requires H == CanvasHeight(cfg.rowHeight, cfg.m, b)
    requires forall l :: 0 <= l < |rows| ==> rows[l] >= 0.0
    requires forall k :: 0 <= k < |ds| ==> ds[k] < |rows|
    requires forall k :: 0 <= k < |ds| ==> dims[k].height <= rows[ds[k]]
    ensures Inside(bg, n, W, H, b)
  {
    forall k | 0 <= k < n
      ensures k in bg && b <= bg[k].x && bg[k].x + bg[k].width <= W - b && b <= bg[k].y && bg[k].y + bg[k].height <= H - b
    {
      PlacedAt(MoveRects(rs, b, b), 0, k);
      InsideAt(cfg, rs[k], ds[k], b, w, W, H);
    }
  }

  /** With a non-negative margin, border and box widths, every background
      box lies inside the canvas, within the border. */
  lemma CanvasInside<T>(t: Tree<T>, dims: seq<TextBox>, margin: real, padding: real, rem: real, b: real)
    requires |dims| == Size(t) && margin * rem >= 0.0 && b >= 0.0
    requires forall k :: 0 <= k < |dims| ==> dims[k].width >= 0.0
    ensures var c := Canvas(t, dims, margin, padding, rem, b); Inside(c.bgRects, Size(t), c.width, c.height, b)
  {
    var cfg := Setup(t, dims, margin, padding, rem);
    var o := Lay(cfg, t, 0, 0);
    var c := Canvas(t, dims, margin, padding, rem, b);
    var rows, ds := Rows(t, dims), PreDepths(t, 0);
    RootBoxes(cfg, t, o, ds);
    RootWithin(cfg, t, o);
    RowFacts(t, dims, rows, ds);
    CanvasOf(t, dims, margin, padding, rem, b, cfg, o);
    DrawPlaced(cfg, o, b, c);
    DrawSize(cfg, o, b, c);
    PlacedInside(cfg, o.rects, o.texts, ds, b, o.res.width, c.bgRects, c.width, c.height, Size(t), dims, rows);
  }

  /** With a non-negative margin and border, and box widths and heights,
      both ends of every tail, head and cross member lie inside the canvas,
      within the border. */
  lemma ConnectorsInside<T>(t: Tree<T>, dims: seq<TextBox>, margin: real, padding: real, rem: real, b: real)
    requires |dims| == Size(t) && margin * rem >= 0.0 && b >= 0.0
    requires forall k :: 0 <= k < |dims| ==> dims[k].width >= 0.0 && dims[k].height >= 0.0
    ensures var c := Canvas(t, dims, margin, padding, rem, b);
      && ConnX(c.tails, c.heads, c.lrbounds, b, c.width - b)
      && ConnY(c.tails, c.heads, c.lrbounds, b, c.height - b)
  {
    var cfg := Setup(t, dims, margin, padding, rem);
    var o := Lay(cfg, t, 0, 0);
    var c := Canvas(t, dims, margin, padding, rem, b);
    CanvasOf(t, dims, margin, padding, rem, b, cfg, o);
    RootAcross(cfg, t, o, b, c);
    SetupFits(t, dims, cfg);
    RootDown(cfg, t, o, b, c);
  }

  /** Every connector of the whole tree, moved right by the border, lies
      within the root's reported width. */
  lemma RootAcross<T>(cfg: Config, t: Tree<T>, o: Out, b: real, c: Drawing)
    requires o == Lay(cfg, t, 0, 0) && cfg.m >= 0.0 && Wide(cfg) && c == Draw(cfg, o, b)
    ensures ConnX(c.tails, c.heads, c.lrbounds, b, c.width - b)
  {
    LayX(cfg, t, 0, 0);
    DrawnAcross(cfg, o, b, c);
  }

  /** Connectors that lie within the layout's reported width lie, once
      drawn, between the left and right borders. */
  lemma DrawnAcross(cfg: Config, o: Out, b: real, c: Drawing)
    requires c == Draw(cfg, o, b) && OutX(o)
    ensures ConnX(c.tails, c.heads, c.lrbounds, b, c.width - b)
  {
    DrawConnectors(cfg, o, b, c);
    DrawSize(cfg, o, b, c);
    ConnXMoved(o.tails, o.heads, o.lrbounds, 0.0, o.res.width, b, b);
    assert c.width - b == o.res.width + b;
  }

  /** The boxes of a tree fit the rows computed for it. */
  lemma SetupFits<T>(t: Tree<T>, dims: seq<TextBox>, cfg: Config)
    requires |dims| == Size(t) && cfg.dims == dims && cfg.rowHeight == Rows(t, dims) && cfg.m >= 0.0
    requires forall k :: 0 <= k < |dims| ==> dims[k].height >= 0.0
    ensures Floors(cfg) && Fit(cfg, 0, PreDepths(t, 0)) && |cfg.rowHeight| == Height(t)
  {
    var ds := PreDepths(t, 0);
    RowFacts(t, dims, cfg.rowHeight, ds);
    RowsMax(t, dims);
    forall k | 0 <= k < |ds|
      ensures FitsRow(cfg, 0 + k, ds[k])
    {
      assert Dim(cfg, 0 + k) == dims[k] && Row(cfg, ds[k]) == cfg.rowHeight[ds[k]];
    }
  }

  /** Every connector of the whole tree, moved down by the border, lies
      above the canvas's bottom border. */
  lemma RootDown<T>(cfg: Config, t: Tree<T>, o: Out, b: real, c: Drawing)
    requires o == Lay(cfg, t, 0, 0) && Floors(cfg) && Fit(cfg, 0, PreDepths(t, 0)) && |cfg.rowHeight| == Height(t)
    requires c == Draw(cfg, o, b)
    ensures ConnY(c.tails, c.heads, c.lrbounds, b, c.height - b)
  {
    var e := HeightKids(t, |Kids(t)|);
    var tops := TopsOf(cfg, Height(t));
    LayY(cfg, t, 0, 0, tops, e);
    DrawSize(cfg, o, b, c);
    LastRowInside(cfg, e, b, c.height);
    DrawnDown(cfg, o, b, c, tops[e] - tops[0]);
  }

  /** Connectors that lie within `y` below the layout's top lie, once drawn,
      between the border and the bottom border when `y` fits above it. */
  lemma DrawnDown(cfg: Config, o: Out, b: real, c: Drawing, y: real)
    requires c == Draw(cfg, o, b) && OutY(o, y) && y + b <= c.height - b
    ensures ConnY(c.tails, c.heads, c.lrbounds, b, c.height - b)
  {
    DrawConnectors(cfg, o, b, c);
    ConnYMoved(o.tails, o.heads, o.lrbounds, 0.0, y, b, b);
    ConnYWider(MoveSegs(o.tails, b, b), MoveSegs(o.heads, b, b), MoveSegs(o.lrbounds, b, b),
               b, y + b, b, c.height - b);
  }

  /** The top of the last row, moved down by the border, lies at least the
      border above the bottom of a canvas `h` high. */
  lemma LastRowInside(cfg: Config, e: nat, b: real, h: real)
    requires Floors(cfg) && e + 1 == |cfg.rowHeight| && h == CanvasHeight(cfg.rowHeight, cfg.m, b)
    ensures Drop(cfg, 0, e) + b <= h - b
  {
    DropStep(cfg, 0, e);
    HeightDrop(cfg, b);
    assert cfg.rowHeight[e] >= 0.0;
  }
}
