/** The row-height pass: one `walk` over the tree whose callback keeps, per
    depth, the largest own-box height seen so far (index.tsx:270-274). */
module RowHeights {
  import opened Trees
  import opened Geometry

  /** One callback: `row_height[d] = max(row_height[d] || 0, h)`. A missing
      entry reads as 0; entries between the end and `d` (which a pre-order
      walk never leaves, see `RowsCover`) read as 0 too. */
  function Upd(rows: seq<real>, d: nat, h: real): (r: seq<real>)
    ensures |r| == if d < |rows| then |rows| else d + 1
    ensures r[d] == Max(if d < |rows| then rows[d] else 0.0, h)
    ensures forall l :: 0 <= l < |r| && l != d ==> r[l] == if l < |rows| then rows[l] else 0.0
  {
    if d < |rows| then rows[d := Max(rows[d], h)]
    else rows + seq(d - |rows|, _ => 0.0) + [Max(0.0, h)]
  }

  /** The row heights after the callback has run on the nodes with depths
      `ds` and boxes `bs`, in this order, starting from `rows`. */
  function RowFold(ds: seq<nat>, bs: seq<TextBox>, rows: seq<real>): (r: seq<real>)
    requires |bs| == |ds|
    ensures |r| >= |rows|
    decreases |ds|
  {
    if ds == [] then rows
    else
      var n := |ds| - 1;
      Upd(RowFold(ds[..n], bs[..n], rows), ds[n], bs[n].height)
  }

  /** One past the deepest entry of `ds`. */
  function Levels(ds: seq<nat>): (n: nat)
    ensures forall k :: 0 <= k < |ds| ==> ds[k] < n
    ensures ds != [] ==> exists k :: 0 <= k < |ds| && ds[k] + 1 == n
    decreases |ds|
  {
    if ds == [] then 0
    else
      var p := Levels(ds[..|ds| - 1]);
      var q := ds[|ds| - 1] + 1;
      if q > p then q else p
  }

  /** Reference definition: the largest box height at level `l`, or 0 when
      there is none or all are negative. */
  function Top(ds: seq<nat>, bs: seq<TextBox>, l: nat): (r: real)
    requires |bs| == |ds|
    ensures r >= 0.0
    ensures forall k :: 0 <= k < |ds| && ds[k] == l ==> bs[k].height <= r
    ensures r == 0.0 || exists k :: 0 <= k < |ds| && ds[k] == l && bs[k].height == r
    decreases |ds|
  {
    if ds == [] then 0.0
    else
      var n := |ds| - 1;
      var p := Top(ds[..n], bs[..n], l);
      if ds[n] == l then Max(p, bs[n].height) else p
  }

  /** From no rows, the fold yields one row per level, each the largest
      height at that level (or 0). */
  lemma {:induction false} RowFoldTop(ds: seq<nat>, bs: seq<TextBox>)
    requires |bs| == |ds|
    ensures |RowFold(ds, bs, [])| == Levels(ds)
    ensures forall l :: 0 <= l < Levels(ds) ==> RowFold(ds, bs, [])[l] == Top(ds, bs, l)
    decreases |ds|
  {
    if ds != [] {
      var n := |ds| - 1;
      var ds', bs' := ds[..n], bs[..n];
      RowFoldTop(ds', bs');
      var r' := RowFold(ds', bs', []);
      var r := RowFold(ds, bs, []);
      assert r == Upd(r', ds[n], bs[n].height);
      forall l | 0 <= l < Levels(ds)
        ensures r[l] == Top(ds, bs, l)
      {
        if l >= |r'| {
          assert Top(ds', bs', l) == 0.0;
        }
      }
    }
  }

  /** Folding two runs one after the other. */
  lemma {:induction false} RowFoldAppend(ds: seq<nat>, bs: seq<TextBox>, ds': seq<nat>, bs': seq<TextBox>,
                                         rows: seq<real>)
    requires |bs| == |ds| && |bs'| == |ds'|
    ensures RowFold(ds + ds', bs + bs', rows) == RowFold(ds', bs', RowFold(ds, bs, rows))
    decreases |ds'|
  {
    if ds' != [] {
      var n := |ds'| - 1;
      RowFoldAppend(ds, bs, ds'[..n], bs'[..n], rows);
      assert (ds + ds')[..|ds| + n] == ds + ds'[..n];
      assert (bs + bs')[..|bs| + n] == bs + bs'[..n];
    } else {
      assert ds + ds' == ds && bs + bs' == bs;
    }
  }

  /** Every level in `lo..hi-1` holds an entry of `ds`. */
  ghost predicate Covers(ds: seq<nat>, lo: nat, hi: nat) {
    forall l :: lo <= l < hi ==> l in ds
  }

  /** Depths below `top` that reach level `top - 1` span `top` levels. */
  lemma LevelsOf(ds: seq<nat>, top: nat)
    requires 0 < top && top - 1 in ds
    requires forall k :: 0 <= k < |ds| ==> ds[k] < top
    ensures Levels(ds) == top
  {
    var k :| 0 <= k < |ds| && ds[k] == top - 1;
  }

  /** The levels covered by two runs of depths placed one after the other,
      both starting one below `d`. */
  lemma CoverConcat(ds1: seq<nat>, ds2: seq<nat>, d: nat, hk: nat, hc: nat, h: nat)
    requires Covers(ds1, d + 1, d + 1 + hk) && Covers(ds2, d + 1, d + 1 + hc)
    requires h == if hc < hk then hk else hc
    ensures Covers(ds1 + ds2, d + 1, d + 1 + h)
  {
  }

  /** A node at `d` in front of its children's depths. */
  lemma CoverCons(ds: seq<nat>, d: nat, h: nat)
    requires Covers(ds, d + 1, d + 1 + h)
    ensures Covers([d] + ds, d, d + 1 + h)
  {
    assert ([d] + ds)[0] == d;
  }

  /** Every level from the root's down to the deepest holds a node: the
      pre-order walk leaves no level empty. */
  lemma {:induction false} RowsCover<T>(t: Tree<T>, d: nat)
    ensures Covers(PreDepths(t, d), d, d + Height(t))
    decreases t, 1
  {
    RowsCoverKids(t, |Kids(t)|, d);
    CoverCons(PreDepthsKids(t, |Kids(t)|, d), d, HeightKids(t, |Kids(t)|));
  }

  lemma {:induction false} RowsCoverKids<T>(t: Tree<T>, n: nat, d: nat)
    requires n <= |Kids(t)|
    ensures Covers(PreDepthsKids(t, n, d), d + 1, d + 1 + HeightKids(t, n))
    decreases t, 0, n
  {
    if n > 0 {
      var c := t.children[n - 1];
      RowsCoverKids(t, n - 1, d);
      RowsCover(c, d + 1);
      CoverConcat(PreDepthsKids(t, n - 1, d), PreDepths(c, d + 1), d, HeightKids(t, n - 1), Height(c),
                  HeightKids(t, n));
    }
  }

  /** The depths of the first `n + 1` children follow on from the first `n`. */
  lemma PreDepthsStep<T>(t: Tree<T>, n: nat, d: nat, ds: seq<nat>, dc: seq<nat>)
    requires n < |Kids(t)|
    requires ds == [d] + PreDepthsKids(t, n, d) && dc == PreDepths(t.children[n], d + 1)
    ensures ds + dc == [d] + PreDepthsKids(t, n + 1, d)
  {
    var pre := PreDepthsKids(t, n, d);
    assert PreDepthsKids(t, n + 1, d) == pre + dc;
    Assoc([d], pre, dc);
  }

  lemma Assoc(x: seq<nat>, y: seq<nat>, z: seq<nat>)
    ensures (x + y) + z == x + (y + z)
  {
  }

  /** One turn of the pass's loop over the children: folding child `n`'s
      run of depths and boxes after the node's and the earlier children's. */
  lemma KidFold<T>(t: Tree<T>, n: nat, d: nat, dims: seq<TextBox>, i0: nat, iMid: nat, i1: nat,
                   rows0: seq<real>, rows1: seq<real>, rows2: seq<real>)
    requires n < |Kids(t)| && i0 <= iMid <= i1 <= |dims|
    requires iMid == i0 + 1 + SizeKids(t, n) && i1 == iMid + Size(t.children[n])
    requires rows1 == RowFold([d] + PreDepthsKids(t, n, d), dims[i0..iMid], rows0)
    requires rows2 == RowFold(PreDepths(t.children[n], d + 1), dims[iMid..i1], rows1)
    ensures i1 == i0 + 1 + SizeKids(t, n + 1)
    ensures rows2 == RowFold([d] + PreDepthsKids(t, n + 1, d), dims[i0..i1], rows0)
  {
    var ds, dc := [d] + PreDepthsKids(t, n, d), PreDepths(t.children[n], d + 1);
    RowFoldAppend(ds, dims[i0..iMid], dc, dims[iMid..i1], rows0);
    SliceJoin(dims, i0, iMid, i1);
    PreDepthsStep(t, n, d, ds, dc);
  }

  /** The fold over a single node is one callback. */
  lemma FoldOne(d: nat, dims: seq<TextBox>, i0: nat, rows0: seq<real>, rows: seq<real>)
    requires i0 < |dims| && rows == Upd(rows0, d, dims[i0].height)
    ensures rows == RowFold([d], dims[i0..i0 + 1], rows0)
  {
    assert [d][..0] == [] && dims[i0..i0 + 1][..0] == [];
  }

  /** Two adjacent slices make the slice they span. */
  lemma SliceJoin<X>(s: seq<X>, a: nat, b: nat, c: nat)
    requires a <= b <= c <= |s|
    ensures s[a..b] + s[b..c] == s[a..c]
  {
  }

  /** The row heights of a whole tree whose own boxes are `dims`, in
      pre-order. */
  function Rows<T>(t: Tree<T>, dims: seq<TextBox>): (rows: seq<real>)
    requires |dims| == Size(t)
  {
    RowFold(PreDepths(t, 0), dims, [])
  }

  /** `rows` has one row per level `0..top-1`; each row is as high as the
      highest box at its level (and never negative), and each box fits the
      row of its depth. */
  ghost predicate Fits(ds: seq<nat>, bs: seq<TextBox>, rows: seq<real>, top: nat)
    requires |bs| == |ds|
  {
    && |rows| == top
    && (forall l :: 0 <= l < top ==> rows[l] == Top(ds, bs, l))
    && (forall l :: 0 <= l < |rows| ==> rows[l] >= 0.0)
    && (forall k :: 0 <= k < |ds| ==> ds[k] < |rows|)
    && (forall k :: 0 <= k < |ds| ==> bs[k].height <= rows[ds[k]])
  }

  /** One row per level of the tree, as `Fits` says. */
  lemma RowsMax<T>(t: Tree<T>, dims: seq<TextBox>)
    requires |dims| == Size(t)
    ensures Fits(PreDepths(t, 0), dims, Rows(t, dims), Height(t))
  {
    RowsCover(t, 0);
    LevelsOf(PreDepths(t, 0), Height(t));
    FoldMax(PreDepths(t, 0), dims, Rows(t, dims), Height(t));
  }

  /** `RowFoldTop` for depths spanning `top` levels. */
  lemma FoldMax(ds: seq<nat>, bs: seq<TextBox>, rows: seq<real>, top: nat)
    requires |bs| == |ds| && rows == RowFold(ds, bs, []) && Levels(ds) == top
    ensures Fits(ds, bs, rows, top)
  {
    RowFoldTop(ds, bs);
  }

  /** The pass itself: the pre-order counter `i` into the boxes, the
      `row_height` array it fills, and whether a callback has thrown. */
  class RowPass {
    const dims: seq<TextBox>
    var i: nat
    var rowHeight: seq<real>
    var threw: bool

    constructor (dims: seq<TextBox>)
      ensures this.dims == dims && i == 0 && rowHeight == [] && !threw
      ensures PastEnd()
    {
      this.dims := dims;
      i := 0;
      rowHeight := [];
      threw := false;
    }

    /** A callback has thrown exactly when the counter has moved past the
        last box. */
    ghost predicate PastEnd()
      reads this
    {
      threw <==> i > |dims|
    }

    /** The callback on the next node in pre-order, at depth `d`: its row
        grows to the node's own box height if that is larger, and the
        counter moves on. Writing past the end leaves holes, which `|| 0`
        reads, and `reduce` adds, as 0. With the counter at the end,
        `textBGDims[i++]!.height` reads `undefined` and throws, after
        the counter has moved on; `row_height` keeps its value. */
    method Record(d: nat)
      requires PastEnd()
      modifies this
      ensures PastEnd() && i == old(i) + 1
      ensures threw <==> old(threw) || old(i) == |dims|
      ensures old(i) < |dims| ==> rowHeight == Upd(old(rowHeight), d, dims[old(i)].height)
      ensures old(i) >= |dims| ==> rowHeight == old(rowHeight)
    {
      if i < |dims| {
        var h := dims[i].height;
        if d < |rowHeight| {
          rowHeight := rowHeight[d := Max(rowHeight[d], h)];
        } else {
          rowHeight := rowHeight + seq(d - |rowHeight|, _ => 0.0) + [Max(0.0, h)];
        }
      } else {
        threw := true;
      }
      i := i + 1;
    }

    /** The state after the callback on a node at depth `d` (counter `i0`,
        rows `rows0` before it) and the walks of its first `n` children. */
    ghost predicate Walked<T>(t: Tree<T>, n: nat, d: nat, i0: nat, rows0: seq<real>)
      requires n <= |Kids(t)|
      reads this
    {
      && i == i0 + 1 + SizeKids(t, n) && PastEnd()
      && (i <= |dims| ==>
            |rowHeight| > d && rowHeight == RowFold([d] + PreDepthsKids(t, n, d), dims[i0..i], rows0))
    }

    /** `walk` with the row-height callback, from node `t` at depth `d`: the
        callback on the node, then the children in order one level down.
        The walk throws exactly when it needs more boxes than are left; once
        it has, every later callback throws too, so nothing else changes
        (the source stops at the first throw). */
    method Visit<T>(t: Tree<T>, d: nat)
      requires PastEnd()
      modifies this
      decreases t, 1
      ensures PastEnd() && i == old(i) + Size(t)
      ensures threw <==> old(i) + Size(t) > |dims|
      ensures !threw ==> |rowHeight| > d && rowHeight == RowFold(PreDepths(t, d), dims[old(i)..i], old(rowHeight))
    {
      ghost var i0, rows0 := i, rowHeight;
      Record(d);
      if i <= |dims| {
        FoldOne(d, dims, i0, rows0, rowHeight);
      }
      var n := 0;
      while n < |Kids(t)|
        invariant n <= |Kids(t)| && Walked(t, n, d, i0, rows0)
      {
        VisitKid(t, n, d, i0, rows0);
        n := n + 1;
      }
    }

    /** One turn of `children.map`: the walk of child `n` one level down,
        after the node and its earlier children. */
    method VisitKid<T>(t: Tree<T>, n: nat, d: nat, ghost i0: nat, ghost rows0: seq<real>)
      requires n < |Kids(t)|
      requires Walked(t, n, d, i0, rows0)
      modifies this
      decreases t, 0
      ensures Walked(t, n + 1, d, i0, rows0)
    {
      KidsBounds(t, n, |Kids(t)|);
      ghost var iMid, rows1 := i, rowHeight;
      Visit(t.children[n], d + 1);
      if i <= |dims| {
        KidFold(t, n, d, dims, i0, iMid, i, rows0, rows1, rowHeight);
      }
    }
  }
}
