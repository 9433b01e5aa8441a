/** The layout of one subtree as a value. Everything is relative to the
    top-left corner (`x_offset`, `y_offset`) its parent hands down: placing a
    subtree elsewhere moves every coordinate it emits by the same amount, so
    the imperative pass in BoxLayout emits exactly `Lay` moved to its context. */
module LayoutSpec {
  import opened Trees
  import opened Geometry

  /** Inputs of the layout pass: the measured boxes in pre-order, the row
      heights, the margin `m = margin * rem` and the padding `p = padding * rem`
      in pixels. */
  datatype Config = Config(dims: seq<TextBox>, rowHeight: seq<real>, m: real, p: real)

  /** Box of the node with pre-order index `k` (a blank box past the end). */
  function Dim(cfg: Config, k: nat): TextBox {
    if k < |cfg.dims| then cfg.dims[k] else TextBox(0.0, 0.0, 0.0)
  }

  /** Height of row `d` (zero past the last row). */
  function Row(cfg: Config, d: nat): real {
    if d < |cfg.rowHeight| then cfg.rowHeight[d] else 0.0
  }

  /** Text anchor of a box: left edge plus the padding, top plus the baseline. */
  function Anchor(cfg: Config, r: Rect, box: TextBox): Point {
    Point(r.x + cfg.p, r.y + box.baseline)
  }

  /** Width a node reports to its parent, from its own box width `w` and its
      children's combined width `cw` (gaps included). */
  function ReportedWidth(cw: real, w: real): (r: real)
    ensures r >= w
    ensures cw > 0.0 ==> r >= cw
    ensures r == w || (cw > 0.0 && r == cw)
  {
    if cw > 0.0 then Max(w, cw) else w
  }

  /** The two centring moves of a node: `self` moves the node's own box
      right, `desc` moves everything its subtree emitted right. */
  datatype Shift = Shift(self: real, desc: real)

  /** Centring of a node whose children's connector head is at `th`, whose own
      centre is at `mc`, whose children span `cw` and whose own box is `w`
      wide. The smaller side moves towards the other, by the gap between the
      centres but never by more than the difference of the widths; at most
      one side moves; nothing moves when the narrower side is not the one
      lying to the left. */
  function Centring(th: real, mc: real, cw: real, w: real): (s: Shift)
    ensures s.self >= 0.0 && s.desc >= 0.0
    ensures s.self == 0.0 || s.desc == 0.0
    ensures s.self > 0.0 <==> th > mc && cw > w
    ensures s.desc > 0.0 <==> mc > th && w > cw
    ensures s.self > 0.0 ==> s.self <= th - mc && s.self <= cw - w && (mc + s.self == th || s.self == cw - w)
    ensures s.desc > 0.0 ==> s.desc <= mc - th && s.desc <= w - cw && (th + s.desc == mc || s.desc == w - cw)
  {
    Shift(if th > mc && cw > w then Min(th - mc, cw - w) else 0.0,
          if mc > th && w > cw then Min(mc - th, w - cw) else 0.0)
  }

  /** Vertical segments from a cross-member at height `top` down to `bottom`
      at each of the x positions `cs`. */
  function HeadSegs(cs: seq<real>, top: real, bottom: real): (r: seq<Segment>)
    ensures |r| == |cs|
    ensures forall k :: 0 <= k < |cs| ==> r[k] == Segment(Point(cs[k], top), Point(cs[k], bottom))
  {
    seq(|cs|, k requires 0 <= k < |cs| => Segment(Point(cs[k], top), Point(cs[k], bottom)))
  }

  datatype Conn = Conn(tails: seq<Segment>, heads: seq<Segment>, lrbounds: seq<Segment>)

  /** The connector entries a parent emits, from the centres `cs` of its
      children (left to right), the connector head `th`, the bottom of its own
      box `bottom`, the top of its children's row `yc` and the margin `m`. */
  function Connectors(cs: seq<real>, th: real, bottom: real, yc: real, m: real): (c: Conn)
    requires |cs| >= 1
    ensures |c.tails| == 1 && c.tails[0].a == Point(th, bottom)
    ensures |cs| == 1 ==> c.tails[0].b == Point(th, yc) && c.heads == [] && c.lrbounds == []
    ensures |cs| >= 2 ==>
      && c.tails[0].b == Point(th, yc - m)
      && |c.heads| == |cs| - 2
      && (forall k :: 1 <= k < |cs| - 1 ==> c.heads[k - 1] == Segment(Point(cs[k], yc - m), Point(cs[k], yc)))
      && c.lrbounds == [Segment(Point(cs[0], yc), Point(cs[|cs| - 1], yc))]
  {
    if |cs| > 1 then
      Conn([Segment(Point(th, bottom), Point(th, yc - m))],
           HeadSegs(cs[1..|cs| - 1], yc - m, yc),
           [Segment(Point(cs[0], yc), Point(cs[|cs| - 1], yc))])
    else
      Conn([Segment(Point(th, bottom), Point(th, yc))], [], [])
  }

  /** What the first `n` children of a node emit, placed relative to the
      node's own corner: child c sits at x = Σ_{c' < c} (width_c' + m) and one
      row (`Row + 2m`) below; `cw` is the running width and `centers` the
      centres of the children's own boxes. */
  datatype Acc = Acc(rects: seq<Rect>, texts: seq<Point>, tails: seq<Segment>, heads: seq<Segment>,
                     lrbounds: seq<Segment>, cw: real, centers: seq<real>)

  /** What a subtree emits, relative to its corner: its result for the parent,
      the rectangles and text anchors of its nodes in pre-order, and its
      connector entries in emission order. */
  datatype Out = Out(res: NodeResult, rects: seq<Rect>, texts: seq<Point>, tails: seq<Segment>,
                     heads: seq<Segment>, lrbounds: seq<Segment>)

  /** The children's entries with one more child, whose own layout is `o`,
      placed to the right of the others (at x = `a.cw`) and one row down. */
  function AddChild(cfg: Config, a: Acc, o: Out, dep: nat): (a': Acc)
    ensures |a'.centers| == |a.centers| + 1
    ensures |a'.rects| == |a.rects| + |o.rects| && |a'.texts| == |a.texts| + |o.texts|
  {
    var dx, dy := a.cw, Row(cfg, dep) + 2.0 * cfg.m;
    Acc(a.rects + MoveRects(o.rects, dx, dy), a.texts + MovePoints(o.texts, dx, dy),
        a.tails + MoveSegs(o.tails, dx, dy), a.heads + MoveSegs(o.heads, dx, dy),
        a.lrbounds + MoveSegs(o.lrbounds, dx, dy),
        a.cw + cfg.m + o.res.width,
        a.centers + [Center(MoveRect(o.res.bgRect, dx, dy))])
  }

  /** What the first `n` children of node `t` (pre-order index `j`, depth
      `dep`) emit, relative to the node's corner. */
  function LayKids<T>(cfg: Config, t: Tree<T>, n: nat, j: nat, dep: nat): (a: Acc)
    requires n <= |Kids(t)|
    ensures |a.centers| == n
    ensures |a.rects| == SizeKids(t, n) && |a.texts| == SizeKids(t, n)
    decreases t, 0, n
  {
    if n == 0 then Acc([], [], [], [], [], 0.0, [])
    else AddChild(cfg, LayKids(cfg, t, n - 1, j, dep), Lay(cfg, t.children[n - 1], j + 1 + SizeKids(t, n - 1), dep + 1), dep)
  }

  /** A subtree is its node's own slot in front of its arranged children. */
  lemma LayUnfold<T>(cfg: Config, t: Tree<T>, j: nat, dep: nat)
    ensures Lay(cfg, t, j, dep) == Finish(cfg, Dim(cfg, j), LayKids(cfg, t, |Kids(t)|, j, dep), dep)
  {
  }

  /** No children yet: nothing emitted. */
  lemma LayKidsZero<T>(cfg: Config, t: Tree<T>, j: nat, dep: nat)
    ensures LayKids(cfg, t, 0, j, dep) == Acc([], [], [], [], [], 0.0, [])
  {
  }

  /** One more child: child `n` is laid out at pre-order index `k`, right
      after its node and the earlier children's subtrees, one level deeper. */
  lemma LayKidsStep<T>(cfg: Config, t: Tree<T>, n: nat, n1: nat, j: nat, dep: nat, k: nat, dep': nat)
    requires n < |Kids(t)| && n1 == n + 1
    requires k == j + 1 + |LayKids(cfg, t, n, j, dep).rects| && dep' == dep + 1
    ensures LayKids(cfg, t, n1, j, dep)
         == AddChild(cfg, LayKids(cfg, t, n, j, dep), Lay(cfg, t.children[n], k, dep'), dep)
  {
  }

  /** A node's subtree after the connectors and the centring, before the
      node's own slot is written: `res` is what the node reports to its
      parent (its own box in `bgRect`), the rest what its descendants and
      the node's connectors emit. `a` is what its children emitted and `box`
      its own measured box. */
  function Arrange(cfg: Config, box: TextBox, a: Acc, dep: nat): (g: Out)
    ensures |g.rects| == |a.rects| && |g.texts| == |a.texts|
    ensures g.res == NodeResult(box.height + 2.0 * cfg.m, ReportedWidth(a.cw - cfg.m, box.width), box.baseline,
                                Rect(g.res.bgRect.x, 0.0, box.height, box.width))
    ensures g.res.bgRect.x >= 0.0
  {
    var cw := a.cw - cfg.m;
    var width := ReportedWidth(cw, box.width);
    if a.centers == [] then
      Out(NodeResult(box.height + 2.0 * cfg.m, width, box.baseline, Rect(0.0, 0.0, box.height, box.width)),
          a.rects, a.texts, a.tails, a.heads, a.lrbounds)
    else
      var c := a.centers;
      var th := (c[0] + c[|c| - 1]) / 2.0;
      var sh := Centring(th, box.width / 2.0, cw, box.width);
      var own := Connectors(c, th, box.height, Row(cfg, dep) + 2.0 * cfg.m, cfg.m);
      Out(NodeResult(box.height + 2.0 * cfg.m, width, box.baseline, Rect(sh.self, 0.0, box.height, box.width)),
          MoveRects(a.rects, sh.desc, 0.0), MovePoints(a.texts, sh.desc, 0.0),
          MoveSegs(a.tails + own.tails, sh.desc, 0.0), MoveSegs(a.heads + own.heads, sh.desc, 0.0),
          MoveSegs(a.lrbounds + own.lrbounds, sh.desc, 0.0))
  }

  /** A leaf arranges nothing: its own box stays at the corner. */
  lemma ArrangeLeaf(cfg: Config, box: TextBox, a: Acc, dep: nat, g: Out)
    requires g == Arrange(cfg, box, a, dep) && a.centers == []
    ensures g.res.bgRect.x == 0.0
    ensures g.rects == a.rects && g.texts == a.texts
    ensures g.tails == a.tails && g.heads == a.heads && g.lrbounds == a.lrbounds
  {
  }

  /** The parts of the arrangement of a node with children. */
  lemma ArrangeParts(cfg: Config, box: TextBox, a: Acc, dep: nat, g: Out, cw: real, th: real, sh: Shift, rel: Conn)
    requires g == Arrange(cfg, box, a, dep) && a.centers != []
    requires cw == a.cw - cfg.m && th == (a.centers[0] + a.centers[|a.centers| - 1]) / 2.0
    requires sh == Centring(th, box.width / 2.0, cw, box.width)
    requires rel == Connectors(a.centers, th, box.height, Row(cfg, dep) + 2.0 * cfg.m, cfg.m)
    ensures g.res.bgRect.x == sh.self
    ensures g.rects == MoveRects(a.rects, sh.desc, 0.0) && g.texts == MovePoints(a.texts, sh.desc, 0.0)
    ensures g.tails == MoveSegs(a.tails + rel.tails, sh.desc, 0.0)
    ensures g.heads == MoveSegs(a.heads + rel.heads, sh.desc, 0.0)
    ensures g.lrbounds == MoveSegs(a.lrbounds + rel.lrbounds, sh.desc, 0.0)
  {
  }

  /** The arranged subtree with the node's own rectangle and text anchor in
      front (pre-order: the node before its descendants). */
  function Finish(cfg: Config, box: TextBox, a: Acc, dep: nat): (o: Out)
    ensures |o.rects| == |a.rects| + 1 && |o.texts| == |a.texts| + 1
  {
    var g := Arrange(cfg, box, a, dep);
    g.(rects := [g.res.bgRect] + g.rects, texts := [Anchor(cfg, g.res.bgRect, box)] + g.texts)
  }

  /** The layout of subtree `t` whose root has pre-order index `j` and depth
      `dep`, relative to the corner handed to it. */
  function Lay<T>(cfg: Config, t: Tree<T>, j: nat, dep: nat): (o: Out)
    ensures |o.rects| == Size(t) && |o.texts| == Size(t)
    decreases t, 1
  {
    Finish(cfg, Dim(cfg, j), LayKids(cfg, t, |Kids(t)|, j, dep), dep)
  }
}
