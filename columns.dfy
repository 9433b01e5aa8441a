/** How a node places its children side by side (index.tsx:306-317): the
    callback pulls child `c` at `x_offset + cw`, where `cw` has grown by the
    reported width of every earlier child plus one margin, and one row
    (`row_height[depth] + 2 * margin * rem`) below. With a non-negative
    margin and box widths, sibling subtrees therefore occupy disjoint,
    left-to-right columns. */
module LayoutColumns {
  import opened Trees
  import opened Geometry
  import opened LayoutSpec
  import opened LayoutFacts
  import opened BoxLayout

  /** The width that child `c` of node `t` (pre-order index `j`, depth `dep`)
      reports to its parent. */
  function KidWidth<T>(cfg: Config, t: Tree<T>, c: nat, j: nat, dep: nat): real
    requires c < |Kids(t)|
  {
    Lay(cfg, t.children[c], j + 1 + SizeKids(t, c), dep + 1).res.width
  }

  /** The widths the children of `t` report, left to right. */
  function KidWidths<T>(cfg: Config, t: Tree<T>, j: nat, dep: nat): (ws: seq<real>)
    ensures |ws| == |Kids(t)|
    ensures forall c :: 0 <= c < |Kids(t)| ==> ws[c] == KidWidth(cfg, t, c, j, dep)
  {
    seq(|Kids(t)|, c requires 0 <= c < |Kids(t)| => KidWidth(cfg, t, c, j, dep))
  }

  /** Σ_{c < n} (ws[c] + m): the widths of the first `n` columns, each
      followed by one margin. */
  function Span(ws: seq<real>, m: real, n: nat): real
    requires n <= |ws|
  {
    if n == 0 then 0.0 else Span(ws, m, n - 1) + ws[n - 1] + m
  }

  /** Left edge of the column of child `n`, relative to its parent's corner. */
  function KidLeft<T>(cfg: Config, t: Tree<T>, n: nat, j: nat, dep: nat): real
    requires n <= |Kids(t)|
  {
    Span(KidWidths(cfg, t, j, dep), cfg.m, n)
  }

  /** The boxes of child `c`'s subtree, moved to the left edge of its
      column and one row down. */
  function KidRects<T>(cfg: Config, t: Tree<T>, c: nat, j: nat, dep: nat): seq<Rect>
    requires c < |Kids(t)|
  {
    MoveRects(Lay(cfg, t.children[c], j + 1 + SizeKids(t, c), dep + 1).rects,
              KidLeft(cfg, t, c, j, dep), Row(cfg, dep) + 2.0 * cfg.m)
  }

  /** `KidRects` in terms of the child's layout `o`, its left edge `x` and
      the row step `e`. */
  lemma KidRectsOf<T>(cfg: Config, t: Tree<T>, c: nat, j: nat, dep: nat, o: Out, x: real, e: real)
    requires c < |Kids(t)| && o == Lay(cfg, t.children[c], j + 1 + SizeKids(t, c), dep + 1)
    requires x == KidLeft(cfg, t, c, j, dep) && e == Row(cfg, dep) + 2.0 * cfg.m
    ensures KidRects(cfg, t, c, j, dep) == MoveRects(o.rects, x, e)
  {
  }

  /** `rs[lo..hi]` is `xs`. */
  ghost predicate SliceIs<X>(rs: seq<X>, lo: nat, hi: nat, xs: seq<X>) {
    lo <= hi <= |rs| && rs[lo..hi] == xs
  }

  /** In the boxes `rs` of a node's children (pre-order), the slice of child
      `c` is that child's own layout with its corner at (`KidLeft`, one row
      down). */
  ghost predicate Column<T>(cfg: Config, t: Tree<T>, c: nat, j: nat, dep: nat, rs: seq<Rect>)
    requires c < |Kids(t)|
  {
    SliceIs(rs, SizeKids(t, c), SizeKids(t, c + 1), KidRects(cfg, t, c, j, dep))
  }

  /** The first `n` children of `t` each sit in their own column of `rs`. */
  ghost predicate Columns<T>(cfg: Config, t: Tree<T>, n: nat, j: nat, dep: nat, rs: seq<Rect>)
    requires n <= |Kids(t)|
  {
    forall c :: 0 <= c < n ==> Column(cfg, t, c, j, dep, rs)
  }

  /** After `n` children, the running width `cw` is the left edge of the
      next column, and each child so far sits in its own column. */
  lemma {:induction false} KidColumns<T>(cfg: Config, t: Tree<T>, n: nat, j: nat, dep: nat)
    requires n <= |Kids(t)|
    ensures LayKids(cfg, t, n, j, dep).cw == KidLeft(cfg, t, n, j, dep)
    ensures Columns(cfg, t, n, j, dep, LayKids(cfg, t, n, j, dep).rects)
    decreases n
  {
    if n == 0 {
      LayKidsZero(cfg, t, j, dep);
    } else {
      KidColumns(cfg, t, n - 1, j, dep);
      assert n - 1 < |Kids(t)| && n == n - 1 + 1;
      ColumnStep(cfg, t, n - 1, n, j, dep, j + 1 + SizeKids(t, n - 1));
    }
  }

  /** One more child in `KidColumns`. */
  lemma ColumnStep<T>(cfg: Config, t: Tree<T>, n: nat, n1: nat, j: nat, dep: nat, k: nat)
    requires n < |Kids(t)| && n1 == n + 1 && k == j + 1 + SizeKids(t, n)
    requires LayKids(cfg, t, n, j, dep).cw == KidLeft(cfg, t, n, j, dep)
    requires Columns(cfg, t, n, j, dep, LayKids(cfg, t, n, j, dep).rects)
    ensures LayKids(cfg, t, n1, j, dep).cw == KidLeft(cfg, t, n1, j, dep)
    ensures Columns(cfg, t, n1, j, dep, LayKids(cfg, t, n1, j, dep).rects)
  {
    var a, a' := LayKids(cfg, t, n, j, dep), LayKids(cfg, t, n1, j, dep);
    var o := Lay(cfg, t.children[n], k, dep + 1);
    var e := Row(cfg, dep) + 2.0 * cfg.m;
    LayKidsStep(cfg, t, n, n1, j, dep, k, dep + 1);
    KidEmit(cfg, a, o, dep, e, a');
    var xs := MoveRects(o.rects, a.cw, e);
    ColumnsKept(cfg, t, n, j, dep, a.rects, xs, a'.rects);
    KidRectsOf(cfg, t, n, j, dep, o, a.cw, e);
    NewColumn(cfg, t, n, j, dep, a.rects, xs, a'.rects);
    ColumnsJoin(cfg, t, n, n1, j, dep, a'.rects);
    assert KidWidths(cfg, t, j, dep)[n] == o.res.width;
  }

  /** Appending a later child's boxes keeps the earlier columns. */
  lemma ColumnsKept<T>(cfg: Config, t: Tree<T>, n: nat, j: nat, dep: nat, rs: seq<Rect>, xs: seq<Rect>, rs': seq<Rect>)
    requires n <= |Kids(t)| && rs' == rs + xs
    requires Columns(cfg, t, n, j, dep, rs)
    ensures Columns(cfg, t, n, j, dep, rs')
  {
    forall c | 0 <= c < n
      ensures Column(cfg, t, c, j, dep, rs')
    {
      assert Column(cfg, t, c, j, dep, rs);
      SliceKept(rs, xs, rs', SizeKids(t, c), SizeKids(t, c + 1), KidRects(cfg, t, c, j, dep));
    }
  }

  /** A slice stays put when more elements are appended. */
  lemma SliceKept<X>(rs: seq<X>, xs: seq<X>, rs': seq<X>, lo: nat, hi: nat, ys: seq<X>)
    requires SliceIs(rs, lo, hi, ys) && rs' == rs + xs
    ensures SliceIs(rs', lo, hi, ys)
  {
    assert rs'[lo..hi] == rs[lo..hi];
  }

  lemma ColumnsJoin<T>(cfg: Config, t: Tree<T>, n: nat, n1: nat, j: nat, dep: nat, rs: seq<Rect>)
    requires n < |Kids(t)| && n1 == n + 1
    requires Columns(cfg, t, n, j, dep, rs) && Column(cfg, t, n, j, dep, rs)
    ensures Columns(cfg, t, n1, j, dep, rs)
  {
    forall c | 0 <= c < n1
      ensures Column(cfg, t, c, j, dep, rs)
    {
      if c < n {
        assert Column(cfg, t, c, j, dep, rs);
      } else {
        assert c == n;
      }
    }
  }

  /** The appended boxes of child `n`, moved to `KidLeft`, form its column. */
  lemma NewColumn<T>(cfg: Config, t: Tree<T>, n: nat, j: nat, dep: nat, rs: seq<Rect>, xs: seq<Rect>, rs': seq<Rect>)
    requires n < |Kids(t)| && |rs| == SizeKids(t, n) && rs' == rs + xs && xs == KidRects(cfg, t, n, j, dep)
    ensures Column(cfg, t, n, j, dep, rs')
  {
    assert SizeKids(t, n + 1) == SizeKids(t, n) + |xs|;
    SliceAppended(rs, xs, rs', SizeKids(t, n), SizeKids(t, n + 1));
  }

  /** A node reports the wider of its own box and its children's span
      Σ_{c} (width_c + m) − m (index.tsx:317, 421). */
  lemma LayWidth<T>(cfg: Config, t: Tree<T>, j: nat, dep: nat)
    ensures Lay(cfg, t, j, dep).res.width == ReportedWidth(KidLeft(cfg, t, |Kids(t)|, j, dep) - cfg.m, Dim(cfg, j).width)
  {
    KidColumns(cfg, t, |Kids(t)|, j, dep);
    LayUnfold(cfg, t, j, dep);
  }

  /** Every child reports a non-negative width. */
  lemma KidWidthsNonneg<T>(cfg: Config, t: Tree<T>, j: nat, dep: nat)
    requires cfg.m >= 0.0 && Wide(cfg)
    ensures forall c :: 0 <= c < |Kids(t)| ==> KidWidths(cfg, t, j, dep)[c] >= 0.0
  {
    forall c | 0 <= c < |Kids(t)|
      ensures KidWidth(cfg, t, c, j, dep) >= 0.0
    {
      LayWithin(cfg, t.children[c], j + 1 + SizeKids(t, c), dep + 1);
    }
  }

  /** With a non-negative margin and widths, each column ends at least one
      margin before any later column begins. */
  lemma {:induction false} SpanOrdered(ws: seq<real>, m: real, c: nat, c': nat)
    requires m >= 0.0 && c < c' <= |ws|
    requires forall i :: 0 <= i < |ws| ==> ws[i] >= 0.0
    ensures Span(ws, m, c) + ws[c] + m <= Span(ws, m, c')
    decreases c'
  {
    if c + 1 < c' {
      SpanOrdered(ws, m, c, c' - 1);
    }
  }

  /** Sibling subtrees do not overlap: in a node's layout, every box of
      child `c`'s subtree (node `1 + k`, pre-order) lies left of every box of
      a later child `c'`'s subtree (node `1 + k'`), at least one margin
      apart. The centring moves all of them by the same amount, so this
      holds in the node's arranged layout as well. */
  lemma SiblingsApart<T>(cfg: Config, t: Tree<T>, j: nat, dep: nat, c: nat, c': nat, k: nat, k': nat)
    requires cfg.m >= 0.0 && Wide(cfg) && c < c' < |Kids(t)|
    requires SizeKids(t, c) <= k < SizeKids(t, c + 1) && SizeKids(t, c') <= k' < SizeKids(t, c' + 1)
    ensures var rs := Lay(cfg, t, j, dep).rects;
      1 + k < |rs| && 1 + k' < |rs| && rs[1 + k].x + rs[1 + k].width + cfg.m <= rs[1 + k'].x
  {
    var n := |Kids(t)|;
    var a := LayKids(cfg, t, n, j, dep);
    KidColumns(cfg, t, n, j, dep);
    KidsBounds(t, c', n);
    var lo, lo' := KidLeft(cfg, t, c, j, dep), KidLeft(cfg, t, c', j, dep);
    KidInColumn(cfg, t, j, dep, c, k, a.rects);
    KidInColumn(cfg, t, j, dep, c', k', a.rects);
    KidWidthsNonneg(cfg, t, j, dep);
    SpanOrdered(KidWidths(cfg, t, j, dep), cfg.m, c, c');
    assert a.rects[k].x + a.rects[k].width + cfg.m <= a.rects[k'].x;
    LayUnfold(cfg, t, j, dep);
    ArrangedKids(cfg, Dim(cfg, j), a, dep, Lay(cfg, t, j, dep), k, k');
  }

  /** A box in the slice of child `c` lies within that child's column. */
  lemma KidInColumn<T>(cfg: Config, t: Tree<T>, j: nat, dep: nat, c: nat, k: nat, rs: seq<Rect>)
    requires cfg.m >= 0.0 && Wide(cfg) && c < |Kids(t)| && Column(cfg, t, c, j, dep, rs)
    requires SizeKids(t, c) <= k < SizeKids(t, c + 1)
    ensures KidLeft(cfg, t, c, j, dep) <= rs[k].x
    ensures rs[k].x + rs[k].width <= KidLeft(cfg, t, c, j, dep) + KidWidth(cfg, t, c, j, dep)
  {
    KidRectsWithin(cfg, t, c, j, dep);
    SliceWithin(rs, SizeKids(t, c), SizeKids(t, c + 1), KidRects(cfg, t, c, j, dep),
                0.0 + KidLeft(cfg, t, c, j, dep), KidWidth(cfg, t, c, j, dep) + KidLeft(cfg, t, c, j, dep), k);
  }

  /** Child `c`'s boxes, moved into its column, lie within the column. */
  lemma KidRectsWithin<T>(cfg: Config, t: Tree<T>, c: nat, j: nat, dep: nat)
    requires cfg.m >= 0.0 && Wide(cfg) && c < |Kids(t)|
    ensures Within(KidRects(cfg, t, c, j, dep), 0.0 + KidLeft(cfg, t, c, j, dep), KidWidth(cfg, t, c, j, dep) + KidLeft(cfg, t, c, j, dep))
  {
    var ch, k, x := t.children[c], j + 1 + SizeKids(t, c), KidLeft(cfg, t, c, j, dep);
    var o, xs := Lay(cfg, ch, k, dep + 1), KidRects(cfg, t, c, j, dep);
    LayWithin(cfg, ch, k, dep + 1);
    assert Within(o.rects, 0.0, o.res.width);
    forall i | 0 <= i < |xs|
      ensures 0.0 + x <= xs[i].x && xs[i].x + xs[i].width <= KidWidth(cfg, t, c, j, dep) + x
    {
      assert xs[i] == MoveRect(o.rects[i], x, Row(cfg, dep) + 2.0 * cfg.m);
    }
  }

  /** A box of a slice lies wherever the whole slice lies. */
  lemma SliceWithin(rs: seq<Rect>, lo: nat, hi: nat, xs: seq<Rect>, x0: real, x1: real, k: nat)
    requires SliceIs(rs, lo, hi, xs) && Within(xs, x0, x1) && lo <= k < hi
    ensures x0 <= rs[k].x && rs[k].x + rs[k].width <= x1
  {
    assert rs[k] == xs[k - lo];
  }

  /** The arranged layout `o` of a node with children holds its own box,
      then its children's boxes all moved by one and the same amount. */
  lemma ArrangedKids(cfg: Config, box: TextBox, a: Acc, dep: nat, o: Out, k: nat, k': nat)
    requires o == Finish(cfg, box, a, dep) && a.centers != [] && k < |a.rects| && k' < |a.rects|
    ensures o.rects[1 + k'].x - o.rects[1 + k].x == a.rects[k'].x - a.rects[k].x
    ensures o.rects[1 + k].width == a.rects[k].width
  {
    var g := Arrange(cfg, box, a, dep);
    var c := a.centers;
    var cw, th := a.cw - cfg.m, (c[0] + c[|c| - 1]) / 2.0;
    var sh := Centring(th, box.width / 2.0, cw, box.width);
    ArrangeParts(cfg, box, a, dep, g, cw, th, sh, Connectors(c, th, box.height, Row(cfg, dep) + 2.0 * cfg.m, cfg.m));
    assert o.rects[1 + k] == g.rects[k] && o.rects[1 + k'] == g.rects[k'];
  }

  lemma SliceAppended<X>(rs: seq<X>, xs: seq<X>, rs': seq<X>, lo: nat, hi: nat)
    requires rs' == rs + xs && lo == |rs| && hi == |rs| + |xs|
    ensures rs'[lo..hi] == xs
  {
  }
}
