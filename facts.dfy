/** What the layout promises about every node: its box keeps the measured
    size, its text sits at the padding and baseline inside the box, it lies
    on its depth's row, the connector entries match the tree's shape, and
    (with a non-negative margin) every box lies within the width the root
    reports. */
module LayoutFacts {
  import opened Trees
  import opened Geometry
  import opened LayoutSpec

  /** Distance from the top of row `a` down to the top of row `b`: every row
      is as high as its row height plus a margin above and below. */
  function Drop(cfg: Config, a: nat, b: nat): (r: real)
    decreases b - a
  {
    if a >= b then 0.0 else Row(cfg, a) + 2.0 * cfg.m + Drop(cfg, a + 1, b)
  }

  /** Drop to row `b + 1` is the drop to row `b` plus row `b` and its two
      margins. */
  lemma {:induction false} DropStep(cfg: Config, a: nat, b: nat)
    requires a <= b
    ensures Drop(cfg, a, b + 1) == Drop(cfg, a, b) + Row(cfg, b) + 2.0 * cfg.m
    decreases b - a
  {
    if a < b {
      DropStep(cfg, a + 1, b);
    }
  }

  /** Row tops never lie above the rows before them. */
  lemma {:induction false} DropNonneg(cfg: Config, a: nat, b: nat)
    requires cfg.m >= 0.0 && forall l :: 0 <= l < |cfg.rowHeight| ==> cfg.rowHeight[l] >= 0.0
    ensures Drop(cfg, a, b) >= 0.0
    decreases b - a
  {
    if a < b {
      DropNonneg(cfg, a + 1, b);
    }
  }

  /** Lower rows start further down. */
  lemma {:induction false} DropMono(cfg: Config, a: nat, d: nat, e: nat)
    requires cfg.m >= 0.0 && a <= d <= e
    requires forall l :: 0 <= l < |cfg.rowHeight| ==> cfg.rowHeight[l] >= 0.0
    ensures Drop(cfg, a, d) <= Drop(cfg, a, e)
    decreases e - d
  {
    if d < e {
      DropMono(cfg, a, d, e - 1);
      DropStep(cfg, a, e - 1);
    }
  }

  /** The boxes `rs` with text anchors `ps` of the nodes with pre-order
      indexes `base..` and depths `ds`, in a subtree whose top row is `dep`:
      each box has its measured size, its text anchor, and lies on its row. */
  ghost predicate Boxes(cfg: Config, rs: seq<Rect>, ps: seq<Point>, base: nat, ds: seq<nat>, dep: nat)
  {
    && |ps| == |rs| && |ds| == |rs| && base + |rs| <= |cfg.dims|
    && forall k :: 0 <= k < |rs| ==>
         && rs[k].height == cfg.dims[base + k].height && rs[k].width == cfg.dims[base + k].width
         && ps[k] == Anchor(cfg, rs[k], cfg.dims[base + k])
         && dep <= ds[k] && rs[k].y == Drop(cfg, dep, ds[k])
  }

  /** `Boxes` for the children placed so far. */
  ghost predicate AccBoxes(cfg: Config, a: Acc, base: nat, ds: seq<nat>, dep: nat) {
    Boxes(cfg, a.rects, a.texts, base, ds, dep)
  }

  /** `Boxes` for a whole subtree, whose first box is its root's. */
  ghost predicate OutBoxes(cfg: Config, o: Out, base: nat, ds: seq<nat>, dep: nat) {
    Boxes(cfg, o.rects, o.texts, base, ds, dep) && |o.rects| > 0 && o.rects[0] == o.res.bgRect
  }

  /** Moving a subtree one row down (by the row height plus two margins)
      puts its boxes on the rows below `dep`. */
  lemma BoxesDown(cfg: Config, rs: seq<Rect>, ps: seq<Point>, base: nat, ds: seq<nat>, dep: nat, dx: real, dy: real)
    requires Boxes(cfg, rs, ps, base, ds, dep + 1) && dy == Row(cfg, dep) + 2.0 * cfg.m
    ensures Boxes(cfg, MoveRects(rs, dx, dy), MovePoints(ps, dx, dy), base, ds, dep)
  {
    var rs', ps' := MoveRects(rs, dx, dy), MovePoints(ps, dx, dy);
    forall k | 0 <= k < |rs|
      ensures rs'[k].y == Drop(cfg, dep, ds[k]) && ps'[k] == Anchor(cfg, rs'[k], cfg.dims[base + k])
    {
      assert Drop(cfg, dep, ds[k]) == dy + Drop(cfg, dep + 1, ds[k]);
    }
  }

  /** A horizontal move keeps every box on its row, its size and its anchor. */
  lemma BoxesAcross(cfg: Config, rs: seq<Rect>, ps: seq<Point>, base: nat, ds: seq<nat>, dep: nat, s: real)
    requires Boxes(cfg, rs, ps, base, ds, dep)
    ensures Boxes(cfg, MoveRects(rs, s, 0.0), MovePoints(ps, s, 0.0), base, ds, dep)
  {
    var rs', ps' := MoveRects(rs, s, 0.0), MovePoints(ps, s, 0.0);
    forall k | 0 <= k < |rs|
      ensures rs'[k].y == rs[k].y && ps'[k] == Anchor(cfg, rs'[k], cfg.dims[base + k])
    {
    }
  }

  /** Two runs of consecutive nodes. */
  lemma BoxesConcat(cfg: Config, rs: seq<Rect>, ps: seq<Point>, ds: seq<nat>, rs': seq<Rect>, ps': seq<Point>,
                    ds': seq<nat>, base: nat, base': nat, dep: nat)
    requires base' == base + |rs|
    requires Boxes(cfg, rs, ps, base, ds, dep) && Boxes(cfg, rs', ps', base', ds', dep)
    ensures Boxes(cfg, rs + rs', ps + ps', base, ds + ds', dep)
  {
    forall k | |rs| <= k < |rs| + |rs'|
      ensures (rs + rs')[k] == rs'[k - |rs|] && (ps + ps')[k] == ps'[k - |rs|] && (ds + ds')[k] == ds'[k - |rs|]
      ensures cfg.dims[base + k] == cfg.dims[base' + (k - |rs|)]
    {
    }
  }

  /** Adding a child placed by `AddChild` to the children before it. */
  lemma AddChildBoxes(cfg: Config, a: Acc, o: Out, a': Acc, dep: nat, base: nat, base': nat,
                      ds: seq<nat>, ds': seq<nat>, dsAll: seq<nat>)
    requires a' == AddChild(cfg, a, o, dep) && dsAll == ds + ds' && base' == base + |a.rects|
    requires Boxes(cfg, a.rects, a.texts, base, ds, dep) && Boxes(cfg, o.rects, o.texts, base', ds', dep + 1)
    ensures Boxes(cfg, a'.rects, a'.texts, base, dsAll, dep)
  {
    var dx, dy := a.cw, Row(cfg, dep) + 2.0 * cfg.m;
    BoxesDown(cfg, o.rects, o.texts, base', ds', dep, dx, dy);
    BoxesConcat(cfg, a.rects, a.texts, ds, MoveRects(o.rects, dx, dy), MovePoints(o.texts, dx, dy), ds', base, base', dep);
  }

  /** Centring moves descendants only horizontally. */
  lemma ArrangeBoxes(cfg: Config, box: TextBox, a: Acc, dep: nat, base: nat, ds: seq<nat>, g: Out)
    requires g == Arrange(cfg, box, a, dep)
    requires Boxes(cfg, a.rects, a.texts, base, ds, dep)
    ensures Boxes(cfg, g.rects, g.texts, base, ds, dep)
  {
    if a.centers == [] {
      ArrangeLeaf(cfg, box, a, dep, g);
    } else {
      var c := a.centers;
      var cw, th := a.cw - cfg.m, (c[0] + c[|c| - 1]) / 2.0;
      var sh := Centring(th, box.width / 2.0, cw, box.width);
      ArrangeParts(cfg, box, a, dep, g, cw, th, sh, Connectors(c, th, box.height, Row(cfg, dep) + 2.0 * cfg.m, cfg.m));
      BoxesAcross(cfg, a.rects, a.texts, base, ds, dep, sh.desc);
    }
  }

  /** The node's own box in front of its arranged descendants. */
  lemma FinishBoxes(cfg: Config, box: TextBox, a: Acc, dep: nat, o: Out, j: nat, ds: seq<nat>, dsAll: seq<nat>)
    requires o == Finish(cfg, box, a, dep) && dsAll == [dep] + ds
    requires j < |cfg.dims| && box == cfg.dims[j]
    requires Boxes(cfg, a.rects, a.texts, j + 1, ds, dep)
    ensures OutBoxes(cfg, o, j, dsAll, dep)
  {
    var g := Arrange(cfg, box, a, dep);
    ArrangeBoxes(cfg, box, a, dep, j + 1, ds, g);
    BoxesConcat(cfg, [g.res.bgRect], [Anchor(cfg, g.res.bgRect, box)], [dep], g.rects, g.texts, ds, j, j + 1, dep);
  }

  /** Every node of `Lay`: measured size, text anchor at padding and
      baseline, top on the row of its depth; the first box is the root's. */
  lemma {:induction false} LayBoxes<T>(cfg: Config, t: Tree<T>, j: nat, dep: nat)
    requires j + Size(t) <= |cfg.dims|
    ensures OutBoxes(cfg, Lay(cfg, t, j, dep), j, PreDepths(t, dep), dep)
    decreases t, 1
  {
    var a := LayKids(cfg, t, |Kids(t)|, j, dep);
    LayKidsBoxes(cfg, t, |Kids(t)|, j, dep);
    LayUnfold(cfg, t, j, dep);
    FinishBoxes(cfg, Dim(cfg, j), a, dep, Lay(cfg, t, j, dep), j, PreDepthsKids(t, |Kids(t)|, dep), PreDepths(t, dep));
  }

  lemma {:induction false} LayKidsBoxes<T>(cfg: Config, t: Tree<T>, n: nat, j: nat, dep: nat)
    requires n <= |Kids(t)| && j + Size(t) <= |cfg.dims|
    ensures AccBoxes(cfg, LayKids(cfg, t, n, j, dep), j + 1, PreDepthsKids(t, n, dep), dep)
    decreases t, 0, n
  {
    if n == 0 {
      LayKidsZero(cfg, t, j, dep);
      assert PreDepthsKids(t, 0, dep) == [];
    } else {
      var c := t.children[n - 1];
      var k := j + 1 + |LayKids(cfg, t, n - 1, j, dep).rects|;
      KidsBounds(t, n - 1, |Kids(t)|);
      LayKidsBoxes(cfg, t, n - 1, j, dep);
      LayBoxes(cfg, c, k, dep + 1);
      KidBoxesStep(cfg, t, n - 1, n, j, dep, k);
    }
  }

  /** One more child in `LayKidsBoxes`. */
  lemma KidBoxesStep<T>(cfg: Config, t: Tree<T>, n: nat, n1: nat, j: nat, dep: nat, k: nat)
    requires n < |Kids(t)| && n1 == n + 1 && k == j + 1 + |LayKids(cfg, t, n, j, dep).rects|
    requires AccBoxes(cfg, LayKids(cfg, t, n, j, dep), j + 1, PreDepthsKids(t, n, dep), dep)
    requires OutBoxes(cfg, Lay(cfg, t.children[n], k, dep + 1), k, PreDepths(t.children[n], dep + 1), dep + 1)
    ensures AccBoxes(cfg, LayKids(cfg, t, n1, j, dep), j + 1, PreDepthsKids(t, n1, dep), dep)
  {
    var c := t.children[n];
    LayKidsStep(cfg, t, n, n1, j, dep, k, dep + 1);
    PreDepthsKidsStep(t, n, n1, dep);
    AddChildBoxes(cfg, LayKids(cfg, t, n, j, dep), Lay(cfg, c, k, dep + 1), LayKids(cfg, t, n1, j, dep), dep, j + 1, k,
                  PreDepthsKids(t, n, dep), PreDepths(c, dep + 1), PreDepthsKids(t, n1, dep));
  }

  /** Connector entries per subtree: one tail per node with children; one
      cross member and `k - 2` middle heads per node with `k >= 2` children. */
  datatype Tally = Tally(tails: nat, heads: nat, lrbounds: nat)

  function Plus(x: Tally, y: Tally): Tally {
    Tally(x.tails + y.tails, x.heads + y.heads, x.lrbounds + y.lrbounds)
  }

  function OwnTally(k: nat): Tally {
    Tally(if k >= 1 then 1 else 0, if k >= 2 then k - 2 else 0, if k >= 2 then 1 else 0)
  }

  function Tallied<T>(t: Tree<T>): Tally
    decreases t, 1
  {
    Plus(OwnTally(|Kids(t)|), TalliedKids(t, |Kids(t)|))
  }

  function TalliedKids<T>(t: Tree<T>, n: nat): Tally
    requires n <= |Kids(t)|
    decreases t, 0, n
  {
    if n == 0 then Tally(0, 0, 0) else Plus(TalliedKids(t, n - 1), Tallied(t.children[n - 1]))
  }

  function Count(o: Out): Tally {
    Tally(|o.tails|, |o.heads|, |o.lrbounds|)
  }

  function CountAcc(a: Acc): Tally {
    Tally(|a.tails|, |a.heads|, |a.lrbounds|)
  }

  lemma TalliedKidsStep<T>(t: Tree<T>, n: nat, n1: nat)
    requires n < |Kids(t)| && n1 == n + 1
    ensures TalliedKids(t, n1) == Plus(TalliedKids(t, n), Tallied(t.children[n]))
  {
  }

  /** A child's connectors follow its earlier siblings'. */
  lemma AddChildCount(cfg: Config, a: Acc, o: Out, a': Acc, dep: nat)
    requires a' == AddChild(cfg, a, o, dep)
    ensures CountAcc(a') == Plus(CountAcc(a), Count(o))
  {
  }

  /** The connectors a node adds to those of its children. */
  lemma FinishCount(cfg: Config, box: TextBox, a: Acc, dep: nat, o: Out)
    requires o == Finish(cfg, box, a, dep)
    ensures Count(o) == Plus(OwnTally(|a.centers|), CountAcc(a))
  {
    var g := Arrange(cfg, box, a, dep);
    if a.centers == [] {
      ArrangeLeaf(cfg, box, a, dep, g);
    } else {
      var c := a.centers;
      var cw, th := a.cw - cfg.m, (c[0] + c[|c| - 1]) / 2.0;
      var sh := Centring(th, box.width / 2.0, cw, box.width);
      ArrangeParts(cfg, box, a, dep, g, cw, th, sh, Connectors(c, th, box.height, Row(cfg, dep) + 2.0 * cfg.m, cfg.m));
    }
  }

  /** The number of TAILS, HEADS and LRBOUNDS entries a subtree emits
      depends only on its shape. */
  lemma {:induction false} LayCount<T>(cfg: Config, t: Tree<T>, j: nat, dep: nat)
    ensures Count(Lay(cfg, t, j, dep)) == Tallied(t)
    decreases t, 1
  {
    var a := LayKids(cfg, t, |Kids(t)|, j, dep);
    LayKidsCount(cfg, t, |Kids(t)|, j, dep);
    LayUnfold(cfg, t, j, dep);
    FinishCount(cfg, Dim(cfg, j), a, dep, Lay(cfg, t, j, dep));
  }

  lemma {:induction false} LayKidsCount<T>(cfg: Config, t: Tree<T>, n: nat, j: nat, dep: nat)
    requires n <= |Kids(t)|
    ensures CountAcc(LayKids(cfg, t, n, j, dep)) == TalliedKids(t, n)
    decreases t, 0, n
  {
    if n == 0 {
      LayKidsZero(cfg, t, j, dep);
    } else {
      var k := j + 1 + |LayKids(cfg, t, n - 1, j, dep).rects|;
      LayKidsCount(cfg, t, n - 1, j, dep);
      LayCount(cfg, t.children[n - 1], k, dep + 1);
      KidCountStep(cfg, t, n - 1, n, j, dep, k);
    }
  }

  /** One more child in `LayKidsCount`. */
  lemma KidCountStep<T>(cfg: Config, t: Tree<T>, n: nat, n1: nat, j: nat, dep: nat, k: nat)
    requires n < |Kids(t)| && n1 == n + 1 && k == j + 1 + |LayKids(cfg, t, n, j, dep).rects|
    requires CountAcc(LayKids(cfg, t, n, j, dep)) == TalliedKids(t, n)
    requires Count(Lay(cfg, t.children[n], k, dep + 1)) == Tallied(t.children[n])
    ensures CountAcc(LayKids(cfg, t, n1, j, dep)) == TalliedKids(t, n1)
  {
    LayKidsStep(cfg, t, n, n1, j, dep, k, dep + 1);
    TalliedKidsStep(t, n, n1);
    AddChildCount(cfg, LayKids(cfg, t, n, j, dep), Lay(cfg, t.children[n], k, dep + 1), LayKids(cfg, t, n1, j, dep), dep);
  }

  /** Every box in `rs` lies horizontally within `lo..hi`. */
  ghost predicate Within(rs: seq<Rect>, lo: real, hi: real) {
    forall k :: 0 <= k < |rs| ==> lo <= rs[k].x && rs[k].x + rs[k].width <= hi
  }

  /** Every measured box has a non-negative width. */
  ghost predicate Wide(cfg: Config) {
    forall k :: 0 <= k < |cfg.dims| ==> cfg.dims[k].width >= 0.0
  }

  lemma WithinMoved(rs: seq<Rect>, lo: real, hi: real, dx: real, dy: real)
    requires Within(rs, lo, hi)
    ensures Within(MoveRects(rs, dx, dy), lo + dx, hi + dx)
  {
  }

  lemma WithinConcat(rs: seq<Rect>, rs': seq<Rect>, lo: real, hi: real)
    requires Within(rs, lo, hi) && Within(rs', lo, hi)
    ensures Within(rs + rs', lo, hi)
  {
    forall k | |rs| <= k < |rs| + |rs'|
      ensures (rs + rs')[k] == rs'[k - |rs|]
    {
    }
  }

  /** The children placed so far lie within `0..cw - m`. */
  ghost predicate AccWithin(cfg: Config, a: Acc) {
    a.cw >= 0.0 && Within(a.rects, 0.0, a.cw - cfg.m)
  }

  /** A subtree lies within `0..` the width it reports. */
  ghost predicate OutWithin(o: Out) {
    o.res.width >= 0.0 && Within(o.rects, 0.0, o.res.width)
  }

  /** With a non-negative margin, the children placed so far lie within
      `0..cw - m`, and `cw` never decreases. */
  lemma AddChildWithin(cfg: Config, a: Acc, o: Out, a': Acc, dep: nat)
    requires a' == AddChild(cfg, a, o, dep)
    requires cfg.m >= 0.0 && a.cw >= 0.0 && Within(a.rects, 0.0, a.cw - cfg.m)
    requires o.res.width >= 0.0 && Within(o.rects, 0.0, o.res.width)
    ensures a'.cw >= a.cw && Within(a'.rects, 0.0, a'.cw - cfg.m)
  {
    var dx, dy := a.cw, Row(cfg, dep) + 2.0 * cfg.m;
    WithinMoved(o.rects, 0.0, o.res.width, dx, dy);
    assert Within(a.rects, 0.0, a'.cw - cfg.m);
    WithinConcat(a.rects, MoveRects(o.rects, dx, dy), 0.0, a'.cw - cfg.m);
  }

  /** The centring keeps the node and its descendants within the width it
      reports. */
  lemma FinishWithin(cfg: Config, box: TextBox, a: Acc, dep: nat, o: Out)
    requires o == Finish(cfg, box, a, dep)
    requires cfg.m >= 0.0 && a.cw >= 0.0 && box.width >= 0.0
    requires Within(a.rects, 0.0, a.cw - cfg.m)
    ensures o.res.width >= 0.0 && Within(o.rects, 0.0, o.res.width)
  {
    var g := Arrange(cfg, box, a, dep);
    var cw := a.cw - cfg.m;
    if a.centers == [] {
      ArrangeLeaf(cfg, box, a, dep, g);
      assert Within(g.rects, 0.0, g.res.width);
    } else {
      var c := a.centers;
      var th := (c[0] + c[|c| - 1]) / 2.0;
      var sh := Centring(th, box.width / 2.0, cw, box.width);
      ArrangeParts(cfg, box, a, dep, g, cw, th, sh, Connectors(c, th, box.height, Row(cfg, dep) + 2.0 * cfg.m, cfg.m));
      WithinMoved(a.rects, 0.0, cw, sh.desc, 0.0);
      assert sh.desc + cw <= g.res.width;
      assert Within(g.rects, 0.0, g.res.width);
    }
    WithinConcat([g.res.bgRect], g.rects, 0.0, g.res.width);
  }

  /** With a non-negative margin and box widths, every box of a subtree lies
      between its corner and the width it reports to its parent. */
  lemma {:induction false} LayWithin<T>(cfg: Config, t: Tree<T>, j: nat, dep: nat)
    requires cfg.m >= 0.0 && Wide(cfg)
    ensures OutWithin(Lay(cfg, t, j, dep))
    decreases t, 1
  {
    var a := LayKids(cfg, t, |Kids(t)|, j, dep);
    LayKidsWithin(cfg, t, |Kids(t)|, j, dep);
    LayUnfold(cfg, t, j, dep);
    assert Dim(cfg, j).width >= 0.0;
    FinishWithin(cfg, Dim(cfg, j), a, dep, Lay(cfg, t, j, dep));
  }

  lemma {:induction false} LayKidsWithin<T>(cfg: Config, t: Tree<T>, n: nat, j: nat, dep: nat)
    requires n <= |Kids(t)| && cfg.m >= 0.0 && Wide(cfg)
    ensures AccWithin(cfg, LayKids(cfg, t, n, j, dep))
    decreases t, 0, n
  {
    if n == 0 {
      LayKidsZero(cfg, t, j, dep);
    } else {
      var c := t.children[n - 1];
      var k := j + 1 + |LayKids(cfg, t, n - 1, j, dep).rects|;
      LayKidsWithin(cfg, t, n - 1, j, dep);
      LayWithin(cfg, c, k, dep + 1);
      KidWithinStep(cfg, t, n - 1, n, j, dep, k);
    }
  }

  /** One more child in `LayKidsWithin`. */
  lemma KidWithinStep<T>(cfg: Config, t: Tree<T>, n: nat, n1: nat, j: nat, dep: nat, k: nat)
    requires n < |Kids(t)| && n1 == n + 1 && k == j + 1 + |LayKids(cfg, t, n, j, dep).rects| && cfg.m >= 0.0
    requires AccWithin(cfg, LayKids(cfg, t, n, j, dep)) && OutWithin(Lay(cfg, t.children[n], k, dep + 1))
    ensures AccWithin(cfg, LayKids(cfg, t, n1, j, dep))
  {
    LayKidsStep(cfg, t, n, n1, j, dep, k, dep + 1);
    AddChildWithin(cfg, LayKids(cfg, t, n, j, dep), Lay(cfg, t.children[n], k, dep + 1), LayKids(cfg, t, n1, j, dep), dep);
  }
}
