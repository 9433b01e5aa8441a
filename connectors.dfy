/** Where the connector lines go. With a non-negative margin, row heights and
    box widths, and every box no taller than its row, both ends of every
    tail, head and cross member of a subtree lie between the subtree's corner
    and the width it reports, and between the top of its own row and the top
    of its deepest row. The two directions are proved by two inductions over
    the layout. */
module ConnectorBounds {
  import opened Trees
  import opened Geometry
  import opened LayoutSpec
  import opened LayoutFacts

  /** Both ends of every segment of `ss` lie horizontally within `x0..x1`. */
  ghost predicate SegsX(ss: seq<Segment>, x0: real, x1: real) {
    forall k :: 0 <= k < |ss| ==> x0 <= ss[k].a.x <= x1 && x0 <= ss[k].b.x <= x1
  }

  /** Both ends of every segment of `ss` lie vertically within `y0..y1`. */
  ghost predicate SegsY(ss: seq<Segment>, y0: real, y1: real) {
    forall k :: 0 <= k < |ss| ==> y0 <= ss[k].a.y <= y1 && y0 <= ss[k].b.y <= y1
  }

  /** All three connector lists horizontally within `x0..x1`. */
  ghost predicate ConnX(ts: seq<Segment>, hs: seq<Segment>, ls: seq<Segment>, x0: real, x1: real) {
    SegsX(ts, x0, x1) && SegsX(hs, x0, x1) && SegsX(ls, x0, x1)
  }

  /** All three connector lists vertically within `y0..y1`. */
  ghost predicate ConnY(ts: seq<Segment>, hs: seq<Segment>, ls: seq<Segment>, y0: real, y1: real) {
    SegsY(ts, y0, y1) && SegsY(hs, y0, y1) && SegsY(ls, y0, y1)
  }

  /** A non-negative margin and row heights. */
  ghost predicate Floors(cfg: Config) {
    cfg.m >= 0.0 && forall l :: 0 <= l < |cfg.rowHeight| ==> cfg.rowHeight[l] >= 0.0
  }

  /** The nodes with pre-order indexes `base..` at depths `ds`: each box is
      no taller than its row, and not of negative height. */
  ghost predicate Fit(cfg: Config, base: nat, ds: seq<nat>) {
    forall k :: 0 <= k < |ds| ==> FitsRow(cfg, base + k, ds[k])
  }

  /** Node `i`'s box is no taller than row `d`, and not of negative height. */
  ghost predicate FitsRow(cfg: Config, i: nat, d: nat) {
    0.0 <= Dim(cfg, i).height <= Row(cfg, d)
  }

  /** The children placed so far: their centres and connectors lie within
      `0..cw - m`. */
  ghost predicate AccX(cfg: Config, a: Acc) {
    && a.cw >= 0.0
    && (forall i :: 0 <= i < |a.centers| ==> 0.0 <= a.centers[i] <= a.cw - cfg.m)
    && ConnX(a.tails, a.heads, a.lrbounds, 0.0, a.cw - cfg.m)
  }

  /** A subtree: its own box and its connectors lie within `0..` the width it
      reports. */
  ghost predicate OutX(o: Out) {
    && 0.0 <= o.res.bgRect.x && 0.0 <= o.res.bgRect.width && o.res.bgRect.x + o.res.bgRect.width <= o.res.width
    && ConnX(o.tails, o.heads, o.lrbounds, 0.0, o.res.width)
  }

  lemma SegsXMoved(ss: seq<Segment>, x0: real, x1: real, dx: real, dy: real)
    requires SegsX(ss, x0, x1)
    ensures SegsX(MoveSegs(ss, dx, dy), x0 + dx, x1 + dx)
  {
  }

  lemma SegsYMoved(ss: seq<Segment>, y0: real, y1: real, dx: real, dy: real)
    requires SegsY(ss, y0, y1)
    ensures SegsY(MoveSegs(ss, dx, dy), y0 + dy, y1 + dy)
  {
  }

  lemma SegsXConcat(ss: seq<Segment>, ss': seq<Segment>, x0: real, x1: real)
    requires SegsX(ss, x0, x1) && SegsX(ss', x0, x1)
    ensures SegsX(ss + ss', x0, x1)
  {
    forall k | |ss| <= k < |ss| + |ss'|
      ensures (ss + ss')[k] == ss'[k - |ss|]
    {
    }
  }

  lemma SegsYConcat(ss: seq<Segment>, ss': seq<Segment>, y0: real, y1: real)
    requires SegsY(ss, y0, y1) && SegsY(ss', y0, y1)
    ensures SegsY(ss + ss', y0, y1)
  {
    forall k | |ss| <= k < |ss| + |ss'|
      ensures (ss + ss')[k] == ss'[k - |ss|]
    {
    }
  }

  lemma ConnXMoved(ts: seq<Segment>, hs: seq<Segment>, ls: seq<Segment>, x0: real, x1: real, dx: real, dy: real)
    requires ConnX(ts, hs, ls, x0, x1)
    ensures ConnX(MoveSegs(ts, dx, dy), MoveSegs(hs, dx, dy), MoveSegs(ls, dx, dy), x0 + dx, x1 + dx)
  {
    SegsXMoved(ts, x0, x1, dx, dy);
    SegsXMoved(hs, x0, x1, dx, dy);
    SegsXMoved(ls, x0, x1, dx, dy);
  }

  lemma ConnYMoved(ts: seq<Segment>, hs: seq<Segment>, ls: seq<Segment>, y0: real, y1: real, dx: real, dy: real)
    requires ConnY(ts, hs, ls, y0, y1)
    ensures ConnY(MoveSegs(ts, dx, dy), MoveSegs(hs, dx, dy), MoveSegs(ls, dx, dy), y0 + dy, y1 + dy)
  {
    SegsYMoved(ts, y0, y1, dx, dy);
    SegsYMoved(hs, y0, y1, dx, dy);
    SegsYMoved(ls, y0, y1, dx, dy);
  }

  lemma ConnXWider(ts: seq<Segment>, hs: seq<Segment>, ls: seq<Segment>, x0: real, x1: real, x0': real, x1': real)
    requires ConnX(ts, hs, ls, x0, x1) && x0' <= x0 && x1 <= x1'
    ensures ConnX(ts, hs, ls, x0', x1')
  {
  }

  lemma ConnYWider(ts: seq<Segment>, hs: seq<Segment>, ls: seq<Segment>, y0: real, y1: real, y0': real, y1': real)
    requires ConnY(ts, hs, ls, y0, y1) && y0' <= y0 && y1 <= y1'
    ensures ConnY(ts, hs, ls, y0', y1')
  {
  }

  lemma ConnXConcat(ts: seq<Segment>, hs: seq<Segment>, ls: seq<Segment>, ts': seq<Segment>, hs': seq<Segment>,
                    ls': seq<Segment>, x0: real, x1: real)
    requires ConnX(ts, hs, ls, x0, x1) && ConnX(ts', hs', ls', x0, x1)
    ensures ConnX(ts + ts', hs + hs', ls + ls', x0, x1)
  {
    SegsXConcat(ts, ts', x0, x1);
    SegsXConcat(hs, hs', x0, x1);
    SegsXConcat(ls, ls', x0, x1);
  }

  lemma ConnYConcat(ts: seq<Segment>, hs: seq<Segment>, ls: seq<Segment>, ts': seq<Segment>, hs': seq<Segment>,
                    ls': seq<Segment>, y0: real, y1: real)
    requires ConnY(ts, hs, ls, y0, y1) && ConnY(ts', hs', ls', y0, y1)
    ensures ConnY(ts + ts', hs + hs', ls + ls', y0, y1)
  {
    SegsYConcat(ts, ts', y0, y1);
    SegsYConcat(hs, hs', y0, y1);
    SegsYConcat(ls, ls', y0, y1);
  }

  /** A node's own connectors run at its connector head `th` and at its
      children's centres `cs`, all within `0..w`. */
  lemma ConnectorsX(cs: seq<real>, th: real, bottom: real, yc: real, m: real, w: real)
    requires |cs| >= 1 && 0.0 <= th <= w
    requires forall i :: 0 <= i < |cs| ==> 0.0 <= cs[i] <= w
    ensures var c := Connectors(cs, th, bottom, yc, m); ConnX(c.tails, c.heads, c.lrbounds, 0.0, w)
  {
    var c := Connectors(cs, th, bottom, yc, m);
    if |cs| >= 2 {
      forall k | 0 <= k < |c.heads|
        ensures c.heads[k] == Segment(Point(cs[k + 1], yc - m), Point(cs[k + 1], yc))
      {
        assert c.heads[(k + 1) - 1] == Segment(Point(cs[k + 1], yc - m), Point(cs[k + 1], yc));
      }
    }
  }

  /** A node's own connectors run from the bottom of its own box down to the
      top of its children's row `yc`. */
  lemma ConnectorsY(cs: seq<real>, th: real, bottom: real, yc: real, m: real)
    requires |cs| >= 1 && m >= 0.0 && yc >= m && 0.0 <= bottom <= yc
    ensures var c := Connectors(cs, th, bottom, yc, m); ConnY(c.tails, c.heads, c.lrbounds, 0.0, yc)
  {
    var c := Connectors(cs, th, bottom, yc, m);
    if |cs| >= 2 {
      forall k | 0 <= k < |c.heads|
        ensures c.heads[k] == Segment(Point(cs[k + 1], yc - m), Point(cs[k + 1], yc))
      {
        assert c.heads[(k + 1) - 1] == Segment(Point(cs[k + 1], yc - m), Point(cs[k + 1], yc));
      }
    }
  }

  // Horizontal bounds

  /** One more child, placed by `AddChild` to the right of the children
      before it, keeps the centres and connectors within `0..cw - m`. */
  lemma AddChildX(cfg: Config, a: Acc, o: Out, a': Acc, dep: nat)
    requires a' == AddChild(cfg, a, o, dep) && cfg.m >= 0.0
    requires AccX(cfg, a) && OutX(o)
    ensures AccX(cfg, a')
  {
    var dx, dy := a.cw, Row(cfg, dep) + 2.0 * cfg.m;
    var hi := a'.cw - cfg.m;
    assert hi == a.cw + o.res.width;
    ConnXMoved(o.tails, o.heads, o.lrbounds, 0.0, o.res.width, dx, dy);
    ConnXWider(MoveSegs(o.tails, dx, dy), MoveSegs(o.heads, dx, dy), MoveSegs(o.lrbounds, dx, dy),
               dx, dx + o.res.width, 0.0, hi);
    ConnXWider(a.tails, a.heads, a.lrbounds, 0.0, a.cw - cfg.m, 0.0, hi);
    ConnXConcat(a.tails, a.heads, a.lrbounds, MoveSegs(o.tails, dx, dy), MoveSegs(o.heads, dx, dy),
                MoveSegs(o.lrbounds, dx, dy), 0.0, hi);
    assert a'.centers[..|a.centers|] == a.centers;
  }

  /** The node's own connectors and the centring keep the node's own box and
      every connector within the width it reports. */
  lemma FinishX(cfg: Config, box: TextBox, a: Acc, dep: nat, o: Out)
    requires o == Finish(cfg, box, a, dep) && cfg.m >= 0.0 && 0.0 <= box.width
    requires AccX(cfg, a)
    ensures OutX(o)
  {
    var g := Arrange(cfg, box, a, dep);
    var cw := a.cw - cfg.m;
    assert cw <= g.res.width;
    if a.centers == [] {
      ArrangeLeaf(cfg, box, a, dep, g);
      ConnXWider(a.tails, a.heads, a.lrbounds, 0.0, cw, 0.0, g.res.width);
    } else {
      var c := a.centers;
      var th := (c[0] + c[|c| - 1]) / 2.0;
      var yc := Row(cfg, dep) + 2.0 * cfg.m;
      var sh := Centring(th, box.width / 2.0, cw, box.width);
      var rel := Connectors(c, th, box.height, yc, cfg.m);
      ArrangeParts(cfg, box, a, dep, g, cw, th, sh, rel);
      ConnectorsX(c, th, box.height, yc, cfg.m, cw);
      ConnXConcat(a.tails, a.heads, a.lrbounds, rel.tails, rel.heads, rel.lrbounds, 0.0, cw);
      ConnXMoved(a.tails + rel.tails, a.heads + rel.heads, a.lrbounds + rel.lrbounds, 0.0, cw, sh.desc, 0.0);
      assert sh.desc + cw <= g.res.width;
      ConnXWider(g.tails, g.heads, g.lrbounds, sh.desc, cw + sh.desc, 0.0, g.res.width);
    }
  }

  /** With a non-negative margin and box widths, a subtree's own box and
      every connector it emits lie between its corner and the width it
      reports. */
  lemma {:induction false} LayX<T>(cfg: Config, t: Tree<T>, j: nat, dep: nat)
    requires cfg.m >= 0.0 && Wide(cfg)
    ensures OutX(Lay(cfg, t, j, dep))
    decreases t, 1
  {
    LayKidsX(cfg, t, |Kids(t)|, j, dep);
    LayUnfold(cfg, t, j, dep);
    DimWide(cfg, j);
    FinishX(cfg, Dim(cfg, j), LayKids(cfg, t, |Kids(t)|, j, dep), dep, Lay(cfg, t, j, dep));
  }

  lemma {:induction false} LayKidsX<T>(cfg: Config, t: Tree<T>, n: nat, j: nat, dep: nat)
    requires n <= |Kids(t)| && cfg.m >= 0.0 && Wide(cfg)
    ensures AccX(cfg, LayKids(cfg, t, n, j, dep))
    decreases t, 0, n
  {
    if n == 0 {
      LayKidsZero(cfg, t, j, dep);
    } else {
      var k := j + 1 + |LayKids(cfg, t, n - 1, j, dep).rects|;
      LayKidsX(cfg, t, n - 1, j, dep);
      LayX(cfg, t.children[n - 1], k, dep + 1);
      KidXStep(cfg, t, n - 1, n, j, dep, k);
    }
  }

  /** One more child in `LayKidsX`. */
  lemma KidXStep<T>(cfg: Config, t: Tree<T>, n: nat, n1: nat, j: nat, dep: nat, k: nat)
    requires n < |Kids(t)| && n1 == n + 1 && k == j + 1 + |LayKids(cfg, t, n, j, dep).rects| && cfg.m >= 0.0
    requires AccX(cfg, LayKids(cfg, t, n, j, dep)) && OutX(Lay(cfg, t.children[n], k, dep + 1))
    ensures AccX(cfg, LayKids(cfg, t, n1, j, dep))
  {
    LayKidsStep(cfg, t, n, n1, j, dep, k, dep + 1);
    AddChildX(cfg, LayKids(cfg, t, n, j, dep), Lay(cfg, t.children[n], k, dep + 1), LayKids(cfg, t, n1, j, dep), dep);
  }

  /** Every measured width is non-negative, and so is a missing one. */
  lemma DimWide(cfg: Config, j: nat)
    requires Wide(cfg)
    ensures Dim(cfg, j).width >= 0.0
  {
  }

  // Vertical bounds

  /** The children placed so far: their connectors lie within `0..y1`
      vertically. */
  ghost predicate AccY(a: Acc, y1: real) {
    ConnY(a.tails, a.heads, a.lrbounds, 0.0, y1)
  }

  /** A subtree: its connectors lie within `0..y1` vertically. */
  ghost predicate OutY(o: Out, y1: real) {
    ConnY(o.tails, o.heads, o.lrbounds, 0.0, y1)
  }

  /** One more child, placed by `AddChild` one row down, keeps the
      connectors between the node's top and `y1`. */
  lemma AddChildY(cfg: Config, a: Acc, o: Out, a': Acc, dep: nat, ya: real, yo: real, y1: real)
    requires a' == AddChild(cfg, a, o, dep) && Floors(cfg)
    requires AccY(a, ya) && OutY(o, yo) && ya <= y1 && Row(cfg, dep) + 2.0 * cfg.m + yo <= y1
    ensures AccY(a', y1)
  {
    var dx, dy := a.cw, Row(cfg, dep) + 2.0 * cfg.m;
    assert Row(cfg, dep) >= 0.0;
    ConnYMoved(o.tails, o.heads, o.lrbounds, 0.0, yo, dx, dy);
    ConnYWider(MoveSegs(o.tails, dx, dy), MoveSegs(o.heads, dx, dy), MoveSegs(o.lrbounds, dx, dy),
               dy, dy + yo, 0.0, y1);
    ConnYWider(a.tails, a.heads, a.lrbounds, 0.0, ya, 0.0, y1);
    ConnYConcat(a.tails, a.heads, a.lrbounds, MoveSegs(o.tails, dx, dy), MoveSegs(o.heads, dx, dy),
                MoveSegs(o.lrbounds, dx, dy), 0.0, y1);
  }

  /** The node's own connectors run from the bottom of its box, which fits
      its row, down to the top of its children's row; the centring moves
      nothing vertically. */
  lemma FinishY(cfg: Config, box: TextBox, a: Acc, dep: nat, o: Out, ya: real, y1: real)
    requires o == Finish(cfg, box, a, dep) && Floors(cfg)
    requires 0.0 <= box.height <= Row(cfg, dep)
    requires AccY(a, ya) && ya <= y1
    requires a.centers != [] ==> Row(cfg, dep) + 2.0 * cfg.m <= y1
    ensures OutY(o, y1)
  {
    var g := Arrange(cfg, box, a, dep);
    ConnYWider(a.tails, a.heads, a.lrbounds, 0.0, ya, 0.0, y1);
    if a.centers == [] {
      ArrangeLeaf(cfg, box, a, dep, g);
    } else {
      var c := a.centers;
      var cw := a.cw - cfg.m;
      var th := (c[0] + c[|c| - 1]) / 2.0;
      var yc := Row(cfg, dep) + 2.0 * cfg.m;
      var sh := Centring(th, box.width / 2.0, cw, box.width);
      var rel := Connectors(c, th, box.height, yc, cfg.m);
      ArrangeParts(cfg, box, a, dep, g, cw, th, sh, rel);
      ConnectorsY(c, th, box.height, yc, cfg.m);
      ConnYWider(rel.tails, rel.heads, rel.lrbounds, 0.0, yc, 0.0, y1);
      ConnYConcat(a.tails, a.heads, a.lrbounds, rel.tails, rel.heads, rel.lrbounds, 0.0, y1);
      ConnYMoved(a.tails + rel.tails, a.heads + rel.heads, a.lrbounds + rel.lrbounds, 0.0, y1, sh.desc, 0.0);
    }
  }

  /** Row tops `tops` (of rows `0..`): each row starts at least its row height
      and two margins below the one above, and none above an earlier one. */
  ghost predicate Tops(cfg: Config, tops: seq<real>) {
    && (forall d :: 0 <= d < |tops| - 1 ==> tops[d] + Row(cfg, d) + 2.0 * cfg.m <= tops[d + 1])
    && (forall d, e :: 0 <= d <= e < |tops| ==> tops[d] <= tops[e])
  }

  /** The row tops the layout uses: row `d` starts `Drop(cfg, 0, d)` down. */
  ghost function TopsOf(cfg: Config, n: nat): (tops: seq<real>)
    requires Floors(cfg)
    ensures |tops| == n && Tops(cfg, tops)
    ensures forall d :: 0 <= d < n ==> tops[d] == Drop(cfg, 0, d)
  {
    var tops := seq(n, d requires 0 <= d => Drop(cfg, 0, d));
    forall d | 0 <= d < n - 1
      ensures tops[d] + Row(cfg, d) + 2.0 * cfg.m <= tops[d + 1]
    {
      DropStep(cfg, 0, d);
    }
    forall d, e | 0 <= d <= e < n
      ensures tops[d] <= tops[e]
    {
      DropMono(cfg, 0, d, e);
    }
    tops
  }

  /** Every connector of a subtree whose boxes fit their rows lies between
      the top of its own row and the top of any row `e` at least as deep as
      its deepest row. */
  lemma {:induction false} LayY<T>(cfg: Config, t: Tree<T>, j: nat, dep: nat, tops: seq<real>, e: nat)
    requires Floors(cfg) && Fit(cfg, j, PreDepths(t, dep))
    requires Tops(cfg, tops) && dep + HeightKids(t, |Kids(t)|) <= e < |tops|
    ensures OutY(Lay(cfg, t, j, dep), tops[e] - tops[dep])
    decreases t, 1
  {
    var y1 := tops[e] - tops[dep];
    RootFits(cfg, t, j, dep);
    LayKidsY(cfg, t, |Kids(t)|, j, dep, tops, e);
    LayUnfold(cfg, t, j, dep);
    RowAbove(cfg, t, dep, tops, e);
    FinishY(cfg, Dim(cfg, j), LayKids(cfg, t, |Kids(t)|, j, dep), dep, Lay(cfg, t, j, dep), y1, y1);
  }

  lemma {:induction false} LayKidsY<T>(cfg: Config, t: Tree<T>, n: nat, j: nat, dep: nat, tops: seq<real>, e: nat)
    requires n <= |Kids(t)| && Floors(cfg) && Fit(cfg, j + 1, PreDepthsKids(t, n, dep))
    requires Tops(cfg, tops) && dep + HeightKids(t, n) <= e < |tops|
    ensures AccY(LayKids(cfg, t, n, j, dep), tops[e] - tops[dep])
    decreases t, 0, n, 1
  {
    if n == 0 {
      LayKidsZero(cfg, t, j, dep);
    } else {
      var k := j + 1 + SizeKids(t, n - 1);
      KidBelow(cfg, t, n - 1, n, dep, tops, e);
      KidFits(cfg, t, n - 1, n, j, dep, k, SizeKids(t, n - 1));
      LayKidsY(cfg, t, n - 1, j, dep, tops, e);
      KidYStep(cfg, t, n - 1, n, j, dep, k, tops, e);
    }
  }

  /** One more child in `LayKidsY`: child `n`'s subtree, one row down. */
  lemma {:induction false} KidYStep<T>(cfg: Config, t: Tree<T>, n: nat, n1: nat, j: nat, dep: nat, k: nat,
                                       tops: seq<real>, e: nat)
    requires n < |Kids(t)| && n1 == n + 1 && k == j + 1 + SizeKids(t, n) && Floors(cfg)
    requires Fit(cfg, k, PreDepths(t.children[n], dep + 1))
    requires Tops(cfg, tops) && dep + 1 + HeightKids(t.children[n], |Kids(t.children[n])|) <= e < |tops|
    requires tops[dep] + Row(cfg, dep) + 2.0 * cfg.m <= tops[dep + 1]
    requires AccY(LayKids(cfg, t, n, j, dep), tops[e] - tops[dep])
    ensures AccY(LayKids(cfg, t, n1, j, dep), tops[e] - tops[dep])
    decreases t, 0, n1, 0
  {
    LayY(cfg, t.children[n], k, dep + 1, tops, e);
    KidYAdd(cfg, t, n, n1, j, dep, k, tops[e] - tops[dep], tops[e] - tops[dep + 1]);
  }

  /** Adding child `n`'s drawing, which fits in `yo` below its own row, keeps the
      first `n + 1` children's connectors within `y1` below row `dep`. */
  lemma KidYAdd<T>(cfg: Config, t: Tree<T>, n: nat, n1: nat, j: nat, dep: nat, k: nat, y1: real, yo: real)
    requires n < |Kids(t)| && n1 == n + 1 && k == j + 1 + SizeKids(t, n) && Floors(cfg)
    requires AccY(LayKids(cfg, t, n, j, dep), y1)
    requires OutY(Lay(cfg, t.children[n], k, dep + 1), yo)
    requires Row(cfg, dep) + 2.0 * cfg.m + yo <= y1
    ensures AccY(LayKids(cfg, t, n1, j, dep), y1)
  {
    assert |LayKids(cfg, t, n, j, dep).rects| == SizeKids(t, n);
    LayKidsStep(cfg, t, n, n1, j, dep, k, dep + 1);
    AddChildY(cfg, LayKids(cfg, t, n, j, dep), Lay(cfg, t.children[n], k, dep + 1), LayKids(cfg, t, n1, j, dep), dep,
              y1, yo, y1);
  }

  /** The first `n` children, and child `n` one row down, reach no deeper
      than row `e` when the first `n + 1` children do; the row below `dep`
      starts at least a row and two margins further down. */
  lemma KidBelow<T>(cfg: Config, t: Tree<T>, n: nat, n1: nat, dep: nat, tops: seq<real>, e: nat)
    requires n < |Kids(t)| && n1 == n + 1 && Tops(cfg, tops) && dep + HeightKids(t, n1) <= e < |tops|
    ensures dep + HeightKids(t, n) <= e && dep + 1 + HeightKids(t.children[n], |Kids(t.children[n])|) <= e
    ensures tops[dep] + Row(cfg, dep) + 2.0 * cfg.m <= tops[dep + 1]
  {
    KidRows(t, n, n1);
  }

  /** Child `n` is one row shallower than the tallest of the first `n + 1`
      children, which reach at least as deep as the first `n`. */
  lemma KidRows<T>(t: Tree<T>, n: nat, n1: nat)
    requires n < |Kids(t)| && n1 == n + 1
    ensures HeightKids(t, n) <= HeightKids(t, n1)
    ensures 1 + HeightKids(t.children[n], |Kids(t.children[n])|) <= HeightKids(t, n1)
  {
  }

  // Shared steps

  /** `Fit` of two runs of consecutive nodes is `Fit` of each. */
  lemma FitSplit(cfg: Config, base: nat, ds: seq<nat>, ds': seq<nat>, base': nat)
    requires base' == base + |ds| && Fit(cfg, base, ds + ds')
    ensures Fit(cfg, base, ds) && Fit(cfg, base', ds')
  {
    forall k | 0 <= k < |ds|
      ensures FitsRow(cfg, base + k, ds[k])
    {
      assert (ds + ds')[k] == ds[k];
    }
    forall k | 0 <= k < |ds'|
      ensures FitsRow(cfg, base' + k, ds'[k])
    {
      assert (ds + ds')[|ds| + k] == ds'[k] && base' + k == base + (|ds| + k);
    }
  }

  /** The root of a fitting subtree fits its row, and so do its children. */
  lemma RootFits<T>(cfg: Config, t: Tree<T>, j: nat, dep: nat)
    requires Fit(cfg, j, PreDepths(t, dep))
    ensures 0.0 <= Dim(cfg, j).height <= Row(cfg, dep)
    ensures Fit(cfg, j + 1, PreDepthsKids(t, |Kids(t)|, dep))
  {
    FitSplit(cfg, j, [dep], PreDepthsKids(t, |Kids(t)|, dep), j + 1);
    assert [dep][0] == dep;
  }

  /** The first `n` children and child `n` fit when the first `n + 1` do. */
  lemma KidFits<T>(cfg: Config, t: Tree<T>, n: nat, n1: nat, j: nat, dep: nat, k: nat, size: nat)
    requires n < |Kids(t)| && n1 == n + 1 && size == SizeKids(t, n) && k == j + 1 + size
    requires Fit(cfg, j + 1, PreDepthsKids(t, n1, dep))
    ensures Fit(cfg, j + 1, PreDepthsKids(t, n, dep)) && Fit(cfg, k, PreDepths(t.children[n], dep + 1))
  {
    PreDepthsKidsStep(t, n, n1, dep);
    FitSplit(cfg, j + 1, PreDepthsKids(t, n, dep), PreDepths(t.children[n], dep + 1), k);
  }

  /** A node with children reaches down at least one row. */
  lemma RowAbove<T>(cfg: Config, t: Tree<T>, dep: nat, tops: seq<real>, e: nat)
    requires Tops(cfg, tops) && dep + HeightKids(t, |Kids(t)|) <= e < |tops|
    ensures |Kids(t)| > 0 ==> Row(cfg, dep) + 2.0 * cfg.m <= tops[e] - tops[dep]
  {
    if |Kids(t)| > 0 {
      KidRows(t, 0, 1);
      KidsBounds(t, 0, |Kids(t)|);
      assert tops[dep] + Row(cfg, dep) + 2.0 * cfg.m <= tops[dep + 1];
      assert tops[dep + 1] <= tops[e];
    }
  }
}
