/** The layout pass of `BoxTree`: the callback handed to `walk2`, run once per
    node in pre-order, writing into shared output buffers. */
module BoxLayout {
  import opened Trees
  import opened Geometry
  import opened LayoutSpec

  /** The indexes `base`, `base + 1`, ..., `base + n - 1`. */
  function Slots(base: nat, n: nat): (r: set<nat>)
    ensures forall k :: k in r <==> base <= k < base + n
  {
    if n == 0 then {} else Slots(base, n - 1) + {base + n - 1}
  }

  /** A JavaScript array written at indexes `base`, `base + 1`, ... with the
      values `s`, as a map from index to value (missing keys are holes). */
  function Placed<V>(s: seq<V>, base: nat): map<nat, V> {
    map k | k in Slots(base, |s|) :: s[k - base]
  }

  lemma PlacedAt<V>(s: seq<V>, base: nat, k: nat)
    requires base <= k < base + |s|
    ensures k in Placed(s, base) && Placed(s, base)[k] == s[k - base]
  {
  }

  lemma PlacedConcat<V>(s: seq<V>, s': seq<V>, base: nat, base': nat)
    requires base' == base + |s|
    ensures Placed(s, base) + Placed(s', base') == Placed(s + s', base)
  {
  }

  /** Writing the node's own slot `j` in front of its descendants' slots. */
  lemma FinishPlaced<V>(pre: map<nat, V>, v: V, xs: seq<V>, j: nat, j1: nat)
    requires j1 == j + 1
    ensures (pre + Placed(xs, j1))[j := v] == pre + Placed([v] + xs, j)
  {
    assert Placed(xs, j1)[j := v] == Placed([v] + xs, j);
  }

  /** A connector buffer whose entries from index `from` on moved right by
      `dx` (both end points of each segment). */
  function ShiftedSegs(s: seq<Segment>, from: nat, dx: real): (r: seq<Segment>)
    requires from <= |s|
    ensures |r| == |s|
  {
    s[..from] + MoveSegs(s[from..], dx, 0.0)
  }

  /** Moves the entries of a connector buffer from index `from` on right by
      `dx`, one entry at a time. */
  method ShiftSegments(s: seq<Segment>, from: nat, dx: real) returns (r: seq<Segment>)
    requires from <= |s|
    ensures r == ShiftedSegs(s, from, dx)
  {
    r := s;
    var k := from;
    while k < |r|
      invariant from <= k <= |r| == |s|
      invariant r[..from] == s[..from]
      invariant forall q :: from <= q < k ==> r[q] == MoveSeg(s[q], dx, 0.0)
      invariant forall q :: k <= q < |s| ==> r[q] == s[q]
    {
      r := r[k := MoveSeg(r[k], dx, 0.0)];
      k := k + 1;
    }
  }

  /** A sparse buffer whose entries present at indexes `lo..hi-1` moved right
      by `dx`; holes stay holes. */
  function ShiftedPoints(a: map<nat, Point>, lo: nat, hi: nat, dx: real): (r: map<nat, Point>)
    ensures r.Keys == a.Keys
  {
    map k | k in a :: if lo <= k < hi then MovePoint(a[k], dx, 0.0) else a[k]
  }

  function ShiftedRects(a: map<nat, Rect>, lo: nat, hi: nat, dx: real): (r: map<nat, Rect>)
    ensures r.Keys == a.Keys
  {
    map k | k in a :: if lo <= k < hi then MoveRect(a[k], dx, 0.0) else a[k]
  }

  /** Moves the text anchors at indexes `lo..hi-1` right by `dx`, skipping
      the indexes that hold nothing, as iterating a slice of a sparse array
      does. */
  method ShiftPoints(a: map<nat, Point>, lo: nat, hi: nat, dx: real) returns (r: map<nat, Point>)
    ensures r == ShiftedPoints(a, lo, hi, dx)
  {
    r := a;
    var k := lo;
    while k < hi
      invariant k == lo || lo <= k <= hi
      invariant r.Keys == a.Keys
      invariant forall q :: q in a ==> r[q] == if lo <= q < k then MovePoint(a[q], dx, 0.0) else a[q]
    {
      if k in r {
        r := r[k := MovePoint(r[k], dx, 0.0)];
      }
      k := k + 1;
    }
  }

  /** As ShiftPoints, for the background rectangles. */
  method ShiftRects(a: map<nat, Rect>, lo: nat, hi: nat, dx: real) returns (r: map<nat, Rect>)
    ensures r == ShiftedRects(a, lo, hi, dx)
  {
    r := a;
    var k := lo;
    while k < hi
      invariant k == lo || lo <= k <= hi
      invariant r.Keys == a.Keys
      invariant forall q :: q in a ==> r[q] == if lo <= q < k then MoveRect(a[q], dx, 0.0) else a[q]
    {
      if k in r {
        r := r[k := MoveRect(r[k], dx, 0.0)];
      }
      k := k + 1;
    }
  }

  function Offset(cs: seq<real>, dx: real): (r: seq<real>)
    ensures |r| == |cs| && forall k :: 0 <= k < |cs| ==> r[k] == cs[k] + dx
  {
    seq(|cs|, k requires 0 <= k < |cs| => cs[k] + dx)
  }

  lemma CentersStep(cs: seq<real>, rel: seq<real>, x: real, xr: real, dx: real)
    requires cs == Offset(rel, dx) && x == xr + dx
    ensures cs + [x] == Offset(rel + [xr], dx)
  {
  }

  function MoveConn(c: Conn, dx: real, dy: real): Conn {
    Conn(MoveSegs(c.tails, dx, dy), MoveSegs(c.heads, dx, dy), MoveSegs(c.lrbounds, dx, dy))
  }

  /** The connectors a node emits at its absolute position are the relative
      ones moved there. */
  lemma ConnectorsMoved(cs: seq<real>, bottom: real, yc: real, m: real, dx: real, dy: real,
                        cs': seq<real>, th': real, bottom': real, yc': real)
    requires |cs| >= 1 && cs' == Offset(cs, dx)
    requires th' == (cs'[0] + cs'[|cs'| - 1]) / 2.0 && bottom' == dy + bottom && yc' == yc + dy
    ensures Connectors(cs', th', bottom', yc', m)
         == MoveConn(Connectors(cs, (cs[0] + cs[|cs| - 1]) / 2.0, bottom, yc, m), dx, dy)
  {
    if |cs| > 1 {
      assert cs'[1..|cs| - 1] == Offset(cs[1..|cs| - 1], dx);
    }
  }

  lemma SeqAssoc<V>(x: seq<V>, y: seq<V>, z: seq<V>)
    ensures (x + y) + z == x + (y + z)
  {
  }

  lemma MapAssoc<V>(x: map<nat, V>, y: map<nat, V>, z: map<nat, V>)
    ensures (x + y) + z == x + (y + z)
  {
  }

  /** Appending a child's entries, emitted at its corner `(cx, cy)`, behind
      the entries of its earlier siblings emitted at `(dx, dy)`, where the
      child's corner lies `(c, e)` from the parent's. */
  lemma SegsStep(pre: seq<Segment>, xs: seq<Segment>, ys: seq<Segment>, c: real, e: real,
                 dx: real, dy: real, cx: real, cy: real)
    requires cx == dx + c && cy == dy + e
    ensures (pre + MoveSegs(xs, dx, dy)) + MoveSegs(ys, cx, cy) == pre + MoveSegs(xs + MoveSegs(ys, c, e), dx, dy)
  {
    MoveTwice([], [], ys, c, e, dx, dy);
    MoveConcat([], [], [], [], xs, MoveSegs(ys, c, e), dx, dy);
    SeqAssoc(pre, MoveSegs(xs, dx, dy), MoveSegs(ys, cx, cy));
  }

  /** Appending behind a buffer the slots of `u` and then those of `v`. */
  lemma PlacedAppend<V>(pre: map<nat, V>, u: seq<V>, v: seq<V>, base: nat, base': nat)
    requires base' == base + |u|
    ensures (pre + Placed(u, base)) + Placed(v, base') == pre + Placed(u + v, base)
  {
    PlacedConcat(u, v, base, base');
    MapAssoc(pre, Placed(u, base), Placed(v, base'));
  }

  /** A child's entries moved by `(c, e)` and then with its siblings by
      `(dx, dy)` are the child's entries moved by `(cx, cy)`. */
  lemma MovedAppend(xs: seq<Rect>, ys: seq<Rect>, ps: seq<Point>, qs: seq<Point>, c: real, e: real,
                    dx: real, dy: real, cx: real, cy: real)
    requires cx == dx + c && cy == dy + e
    ensures MoveRects(xs + MoveRects(ys, c, e), dx, dy) == MoveRects(xs, dx, dy) + MoveRects(ys, cx, cy)
    ensures MovePoints(ps + MovePoints(qs, c, e), dx, dy) == MovePoints(ps, dx, dy) + MovePoints(qs, cx, cy)
  {
    MoveTwice(ys, qs, [], c, e, dx, dy);
    MoveConcat(xs, MoveRects(ys, c, e), ps, MovePoints(qs, c, e), [], [], dx, dy);
  }

  lemma RectsStep(pre: map<nat, Rect>, xs: seq<Rect>, ys: seq<Rect>, c: real, e: real,
                  dx: real, dy: real, cx: real, cy: real, base: nat, base': nat)
    requires cx == dx + c && cy == dy + e && base' == base + |xs|
    ensures (pre + Placed(MoveRects(xs, dx, dy), base)) + Placed(MoveRects(ys, cx, cy), base')
         == pre + Placed(MoveRects(xs + MoveRects(ys, c, e), dx, dy), base)
  {
    MovedAppend(xs, ys, [], [], c, e, dx, dy, cx, cy);
    PlacedAppend(pre, MoveRects(xs, dx, dy), MoveRects(ys, cx, cy), base, base');
  }

  lemma PointsStep(pre: map<nat, Point>, xs: seq<Point>, ys: seq<Point>, c: real, e: real,
                   dx: real, dy: real, cx: real, cy: real, base: nat, base': nat)
    requires cx == dx + c && cy == dy + e && base' == base + |xs|
    ensures (pre + Placed(MovePoints(xs, dx, dy), base)) + Placed(MovePoints(ys, cx, cy), base')
         == pre + Placed(MovePoints(xs + MovePoints(ys, c, e), dx, dy), base)
  {
    MovedAppend([], [], xs, ys, c, e, dx, dy, cx, cy);
    PlacedAppend(pre, MovePoints(xs, dx, dy), MovePoints(ys, cx, cy), base, base');
  }

  lemma ShiftPlacedRectsAt(pre: map<nat, Rect>, xs: seq<Rect>, j: nat, j1: nat, hi: nat, s: real, k: nat)
    requires forall k :: k in pre ==> k < j
    requires j1 == j + 1 && hi == j1 + |xs|
    ensures var l := ShiftedRects(pre + Placed(xs, j1), j, hi, s);
      var r := pre + Placed(MoveRects(xs, s, 0.0), j1);
      (k in l <==> k in r) && (k in l ==> l[k] == r[k])
  {
    if k in pre {
      assert k !in Placed(xs, j1);
    } else if j1 <= k < hi {
      PlacedAt(xs, j1, k);
      PlacedAt(MoveRects(xs, s, 0.0), j1, k);
    }
  }

  /** Shifting the slots `j..hi-1` of a sparse buffer whose earlier slots lie
      below `j` shifts exactly the entries placed from `j + 1` on; the hole
      at `j` is skipped. */
  lemma ShiftPlacedRects(pre: map<nat, Rect>, xs: seq<Rect>, j: nat, j1: nat, hi: nat, s: real)
    requires forall k :: k in pre ==> k < j
    requires j1 == j + 1 && hi == j1 + |xs|
    ensures ShiftedRects(pre + Placed(xs, j1), j, hi, s) == pre + Placed(MoveRects(xs, s, 0.0), j1)
  {
    var l := ShiftedRects(pre + Placed(xs, j1), j, hi, s);
    var r := pre + Placed(MoveRects(xs, s, 0.0), j1);
    forall k | k in l
      ensures k in r && l[k] == r[k]
    {
      ShiftPlacedRectsAt(pre, xs, j, j1, hi, s, k);
    }
    forall k | k in r
      ensures k in l
    {
      ShiftPlacedRectsAt(pre, xs, j, j1, hi, s, k);
    }
  }

  lemma ShiftPlacedPointsAt(pre: map<nat, Point>, xs: seq<Point>, j: nat, j1: nat, hi: nat, s: real, k: nat)
    requires forall k :: k in pre ==> k < j
    requires j1 == j + 1 && hi == j1 + |xs|
    ensures var l := ShiftedPoints(pre + Placed(xs, j1), j, hi, s);
      var r := pre + Placed(MovePoints(xs, s, 0.0), j1);
      (k in l <==> k in r) && (k in l ==> l[k] == r[k])
  {
    if k in pre {
      assert k !in Placed(xs, j1);
    } else if j1 <= k < hi {
      PlacedAt(xs, j1, k);
      PlacedAt(MovePoints(xs, s, 0.0), j1, k);
    }
  }

  /** As ShiftPlacedRects, for the text anchors. */
  lemma ShiftPlacedPoints(pre: map<nat, Point>, xs: seq<Point>, j: nat, j1: nat, hi: nat, s: real)
    requires forall k :: k in pre ==> k < j
    requires j1 == j + 1 && hi == j1 + |xs|
    ensures ShiftedPoints(pre + Placed(xs, j1), j, hi, s) == pre + Placed(MovePoints(xs, s, 0.0), j1)
  {
    var l := ShiftedPoints(pre + Placed(xs, j1), j, hi, s);
    var r := pre + Placed(MovePoints(xs, s, 0.0), j1);
    forall k | k in l
      ensures k in r && l[k] == r[k]
    {
      ShiftPlacedPointsAt(pre, xs, j, j1, hi, s, k);
    }
    forall k | k in r
      ensures k in l
    {
      ShiftPlacedPointsAt(pre, xs, j, j1, hi, s, k);
    }
  }

  /** Shifting the entries appended behind `pre` shifts what was appended. */
  lemma ShiftEmittedSegs(pre: seq<Segment>, xs: seq<Segment>, dx: real, dy: real, from: nat, s: real)
    requires from == |pre|
    ensures ShiftedSegs(pre + MoveSegs(xs, dx, dy), from, s) == pre + MoveSegs(MoveSegs(xs, s, 0.0), dx, dy)
  {
    var b := pre + MoveSegs(xs, dx, dy);
    assert b[..from] == pre;
    assert b[from..] == MoveSegs(xs, dx, dy);
    MoveCommute([], [], xs, dx, dy, s, 0.0);
  }

  lemma ShiftEmittedRects(pre: map<nat, Rect>, xs: seq<Rect>, dx: real, dy: real, j: nat, j1: nat, hi: nat, s: real)
    requires forall k :: k in pre ==> k < j
    requires j1 == j + 1 && hi == j1 + |xs|
    ensures ShiftedRects(pre + Placed(MoveRects(xs, dx, dy), j1), j, hi, s)
         == pre + Placed(MoveRects(MoveRects(xs, s, 0.0), dx, dy), j1)
  {
    ShiftPlacedRects(pre, MoveRects(xs, dx, dy), j, j1, hi, s);
    MoveCommute(xs, [], [], dx, dy, s, 0.0);
  }

  lemma ShiftEmittedPoints(pre: map<nat, Point>, xs: seq<Point>, dx: real, dy: real, j: nat, j1: nat, hi: nat, s: real)
    requires forall k :: k in pre ==> k < j
    requires j1 == j + 1 && hi == j1 + |xs|
    ensures ShiftedPoints(pre + Placed(MovePoints(xs, dx, dy), j1), j, hi, s)
         == pre + Placed(MovePoints(MovePoints(xs, s, 0.0), dx, dy), j1)
  {
    ShiftPlacedPoints(pre, MovePoints(xs, dx, dy), j, j1, hi, s);
    MoveCommute([], xs, [], dx, dy, s, 0.0);
  }

  /** The five output buffers of a layout pass, as one value. */
  datatype Buffers = Buffers(textPos: map<nat, Point>, bgRects: map<nat, Rect>,
                             tails: seq<Segment>, heads: seq<Segment>, lrbounds: seq<Segment>)

  /** The buffers after a subtree laid out relative to its corner emitted
      `rects`/`texts` (slots `base`, `base + 1`, ...) and its connector
      entries, all moved to the corner `(dx, dy)`. */
  function Emit(b: Buffers, rects: seq<Rect>, texts: seq<Point>, ts: seq<Segment>, hs: seq<Segment>,
                ls: seq<Segment>, dx: real, dy: real, base: nat): Buffers
  {
    Buffers(b.textPos + Placed(MovePoints(texts, dx, dy), base), b.bgRects + Placed(MoveRects(rects, dx, dy), base),
            b.tails + MoveSegs(ts, dx, dy), b.heads + MoveSegs(hs, dx, dy), b.lrbounds + MoveSegs(ls, dx, dy))
  }

  /** Emitting the first children and then the next child at its corner
      `(cx, cy)`, `(c, e)` from the parent's, is emitting all of them. */
  lemma EmitStep(b: Buffers, rs: seq<Rect>, ps: seq<Point>, ts: seq<Segment>, hs: seq<Segment>, ls: seq<Segment>,
                 rs': seq<Rect>, ps': seq<Point>, ts': seq<Segment>, hs': seq<Segment>, ls': seq<Segment>,
                 c: real, e: real, dx: real, dy: real, cx: real, cy: real, base: nat, base': nat)
    requires cx == dx + c && cy == dy + e && base' == base + |rs| && |ps| == |rs|
    ensures Emit(Emit(b, rs, ps, ts, hs, ls, dx, dy, base), rs', ps', ts', hs', ls', cx, cy, base')
         == Emit(b, rs + MoveRects(rs', c, e), ps + MovePoints(ps', c, e), ts + MoveSegs(ts', c, e),
                 hs + MoveSegs(hs', c, e), ls + MoveSegs(ls', c, e), dx, dy, base)
  {
    RectsStep(b.bgRects, rs, rs', c, e, dx, dy, cx, cy, base, base');
    PointsStep(b.textPos, ps, ps', c, e, dx, dy, cx, cy, base, base');
    SegsStep(b.tails, ts, ts', c, e, dx, dy, cx, cy);
    SegsStep(b.heads, hs, hs', c, e, dx, dy, cx, cy);
    SegsStep(b.lrbounds, ls, ls', c, e, dx, dy, cx, cy);
  }

  /** Appending entries emitted at the same corner. */
  lemma EmitAppend(b: Buffers, rs: seq<Rect>, ps: seq<Point>, ts: seq<Segment>, hs: seq<Segment>, ls: seq<Segment>,
                   ts': seq<Segment>, hs': seq<Segment>, ls': seq<Segment>, dx: real, dy: real, base: nat)
    ensures var e := Emit(b, rs, ps, ts, hs, ls, dx, dy, base);
      e.(tails := e.tails + MoveSegs(ts', dx, dy), heads := e.heads + MoveSegs(hs', dx, dy),
         lrbounds := e.lrbounds + MoveSegs(ls', dx, dy))
      == Emit(b, rs, ps, ts + ts', hs + hs', ls + ls', dx, dy, base)
  {
    MoveConcat([], [], [], [], ts, ts', dx, dy);
    MoveConcat([], [], [], [], hs, hs', dx, dy);
    MoveConcat([], [], [], [], ls, ls', dx, dy);
    SeqAssoc(b.tails, MoveSegs(ts, dx, dy), MoveSegs(ts', dx, dy));
    SeqAssoc(b.heads, MoveSegs(hs, dx, dy), MoveSegs(hs', dx, dy));
    SeqAssoc(b.lrbounds, MoveSegs(ls, dx, dy), MoveSegs(ls', dx, dy));
  }

  /** The centring move of a subtree: shifting the connector entries from
      the saved lengths on and the slots from the node's own index `j` on
      (slot `j` itself is still a hole) is emitting the subtree moved right. */
  lemma EmitShift(b: Buffers, e: Buffers, rs: seq<Rect>, ps: seq<Point>, ts: seq<Segment>, hs: seq<Segment>,
                  ls: seq<Segment>, dx: real, dy: real, j: nat, j1: nat, hi: nat, T: nat, H: nat, L: nat, s: real)
    requires (forall k :: k in b.bgRects ==> k < j) && (forall k :: k in b.textPos ==> k < j)
    requires j1 == j + 1 && hi == j1 + |rs| && |ps| == |rs|
    requires T == |b.tails| && H == |b.heads| && L == |b.lrbounds|
    requires e == Emit(b, rs, ps, ts, hs, ls, dx, dy, j1)
    ensures Buffers(ShiftedPoints(e.textPos, j, hi, s), ShiftedRects(e.bgRects, j, hi, s),
                    ShiftedSegs(e.tails, T, s), ShiftedSegs(e.heads, H, s), ShiftedSegs(e.lrbounds, L, s))
         == Emit(b, MoveRects(rs, s, 0.0), MovePoints(ps, s, 0.0), MoveSegs(ts, s, 0.0), MoveSegs(hs, s, 0.0),
                 MoveSegs(ls, s, 0.0), dx, dy, j1)
  {
    ShiftEmittedPoints(b.textPos, ps, dx, dy, j, j1, hi, s);
    ShiftEmittedRects(b.bgRects, rs, dx, dy, j, j1, hi, s);
    ShiftEmittedSegs(b.tails, ts, dx, dy, T, s);
    ShiftEmittedSegs(b.heads, hs, dx, dy, H, s);
    ShiftEmittedSegs(b.lrbounds, ls, dx, dy, L, s);
  }

  /** Writing the node's own slot `j` in front of its subtree's slots. */
  lemma EmitFinish(b: Buffers, r: Rect, p: Point, rs: seq<Rect>, ps: seq<Point>, ts: seq<Segment>, hs: seq<Segment>,
                   ls: seq<Segment>, dx: real, dy: real, j: nat, j1: nat, e: Buffers, R: Rect, P: Point)
    requires j1 == j + 1 && e == Emit(b, rs, ps, ts, hs, ls, dx, dy, j1)
    requires R == MoveRect(r, dx, dy) && P == MovePoint(p, dx, dy)
    ensures Buffers(e.textPos[j := P], e.bgRects[j := R], e.tails, e.heads, e.lrbounds)
      == Emit(b, [r] + rs, [p] + ps, ts, hs, ls, dx, dy, j)
  {
    MoveCons(r, rs, p, ps, dx, dy);
    FinishPlaced(b.bgRects, MoveRect(r, dx, dy), MoveRects(rs, dx, dy), j, j1);
    FinishPlaced(b.textPos, MovePoint(p, dx, dy), MovePoints(ps, dx, dy), j, j1);
  }

  /** The written slots of a subtree emitted from `base` on lie below
      `base` plus its size. */
  lemma EmitBelow(b: Buffers, rs: seq<Rect>, ps: seq<Point>, ts: seq<Segment>, hs: seq<Segment>, ls: seq<Segment>,
                  dx: real, dy: real, base: nat, n: nat)
    requires (forall k :: k in b.bgRects ==> k < base) && (forall k :: k in b.textPos ==> k < base)
    requires n == base + |rs| && |ps| == |rs|
    ensures var e := Emit(b, rs, ps, ts, hs, ls, dx, dy, base);
      (forall k :: k in e.bgRects ==> k < n) && (forall k :: k in e.textPos ==> k < n)
  {
  }

  /** One turn of the loop over the children: visiting the next child, whose
      layout is `o`, at its corner `cd` (right of the earlier children, one
      row down) extends the counter, the running width, the centres and the
      buffers from the earlier children `a` to `AddChild(a, o)`. */
  lemma KidStep(cfg: Config, a: Acc, o: Out, dep: nat, j: nat, dx: real, dy: real, cd: Ctx, k: nat,
                b0: Buffers, b: Buffers, b': Buffers, centers: seq<real>, cw: real, res: NodeResult, a': Acc)
    requires |a.texts| == |a.rects| && |o.texts| == |o.rects|
    requires k == j + 1 + |a.rects| && cw == a.cw && centers == Offset(a.centers, dx)
    requires b == Emit(b0, a.rects, a.texts, a.tails, a.heads, a.lrbounds, dx, dy, j + 1)
    requires cd.xOffset == dx + cw && cd.yOffset == dy + Row(cfg, dep) + 2.0 * cfg.m
    requires res == MoveResult(o.res, cd.xOffset, cd.yOffset)
    requires b' == Emit(b, o.rects, o.texts, o.tails, o.heads, o.lrbounds, cd.xOffset, cd.yOffset, k)
    requires a' == AddChild(cfg, a, o, dep)
    ensures k + |o.rects| == j + 1 + |a'.rects|
      && |a'.texts| == |a'.rects|
      && cw + cfg.m + res.width == a'.cw
      && centers + [res.bgRect.x + res.bgRect.width / 2.0] == Offset(a'.centers, dx)
      && b' == Emit(b0, a'.rects, a'.texts, a'.tails, a'.heads, a'.lrbounds, dx, dy, j + 1)
  {
    var e := Row(cfg, dep) + 2.0 * cfg.m;
    KidEmit(cfg, a, o, dep, e, a');
    CentersStep(centers, a.centers, res.bgRect.x + res.bgRect.width / 2.0,
                Center(MoveRect(o.res.bgRect, a.cw, e)), dx);
    EmitStep(b0, a.rects, a.texts, a.tails, a.heads, a.lrbounds, o.rects, o.texts, o.tails, o.heads, o.lrbounds,
             a.cw, e, dx, dy, cd.xOffset, cd.yOffset, j + 1, k);
  }

  /** The children's entries with child `o` added, field by field. */
  lemma KidEmit(cfg: Config, a: Acc, o: Out, dep: nat, e: real, a': Acc)
    requires e == Row(cfg, dep) + 2.0 * cfg.m && a' == AddChild(cfg, a, o, dep)
    ensures a'.rects == a.rects + MoveRects(o.rects, a.cw, e) && a'.texts == a.texts + MovePoints(o.texts, a.cw, e)
    ensures a'.tails == a.tails + MoveSegs(o.tails, a.cw, e) && a'.heads == a.heads + MoveSegs(o.heads, a.cw, e)
    ensures a'.lrbounds == a.lrbounds + MoveSegs(o.lrbounds, a.cw, e)
    ensures a'.cw == a.cw + cfg.m + o.res.width && a'.centers == a.centers + [Center(MoveRect(o.res.bgRect, a.cw, e))]
  {
  }

  /** One turn of the children's loop on the specification: the state after
      the first `n` children and then child `n` is the state after the first
      `n + 1`. */
  lemma NextKids<T>(cfg: Config, t: Tree<T>, n: nat, j: nat, dep: nat, dep': nat, a: Acc, o: Out, k: nat, a': Acc)
    requires n < |Kids(t)| && dep' == dep + 1
    requires a == LayKids(cfg, t, n, j, dep) && o == Lay(cfg, t.children[n], k, dep')
    requires k == j + 1 + |a.rects| && a' == AddChild(cfg, a, o, dep)
    ensures a' == LayKids(cfg, t, n + 1, j, dep)
  {
  }

  /** The connectors and the centring of a node with children, as the
      callback performs them on the buffers `e0` (its subtree emitted at
      `(dx, dy)` from slot `j + 1` on): after appending `own`, the node's
      corner moves right by the first amount, or the slots `j..hi-1` and the
      connector entries from `T`, `H`, `L` on move right by the second; the
      result is the arranged subtree `g`. */
  lemma AlignStep(cfg: Config, box: TextBox, a: Acc, dep: nat, g: Out, b: Buffers, e0: Buffers, dx: real, dy: real,
                  j: nat, j1: nat, hi: nat, T: nat, H: nat, L: nat, cw: real, centers: seq<real>,
                  treeHead: real, myCenter: real, yOffset: real, own: Conn)
    requires g == Arrange(cfg, box, a, dep)
    requires (forall k :: k in b.bgRects ==> k < j) && (forall k :: k in b.textPos ==> k < j)
    requires j1 == j + 1 && hi == j1 + |a.rects| && |a.texts| == |a.rects|
    requires T == |b.tails| && H == |b.heads| && L == |b.lrbounds|
    requires |a.centers| > 0 && cw == a.cw - cfg.m && centers == Offset(a.centers, dx)
    requires treeHead == (centers[0] + centers[|centers| - 1]) / 2.0 && myCenter == dx + box.width / 2.0
    requires yOffset == dy + Row(cfg, dep) + 2.0 * cfg.m
    requires own == Connectors(centers, treeHead, dy + box.height, yOffset, cfg.m)
    requires e0 == Emit(b, a.rects, a.texts, a.tails, a.heads, a.lrbounds, dx, dy, j1)
    ensures var e1 := Buffers(e0.textPos, e0.bgRects, e0.tails + own.tails, e0.heads + own.heads, e0.lrbounds + own.lrbounds);
      && T <= |e1.tails| && H <= |e1.heads| && L <= |e1.lrbounds|
      && g.res.bgRect.x == (if treeHead > myCenter && cw > box.width then Min(treeHead - myCenter, cw - box.width) else 0.0)
      && (myCenter > treeHead && box.width > cw ==>
            var s := Min(myCenter - treeHead, box.width - cw);
            Buffers(ShiftedPoints(e1.textPos, j, hi, s), ShiftedRects(e1.bgRects, j, hi, s),
                    ShiftedSegs(e1.tails, T, s), ShiftedSegs(e1.heads, H, s), ShiftedSegs(e1.lrbounds, L, s))
            == Emit(b, g.rects, g.texts, g.tails, g.heads, g.lrbounds, dx, dy, j1))
      && (!(myCenter > treeHead && box.width > cw) ==>
            e1 == Emit(b, g.rects, g.texts, g.tails, g.heads, g.lrbounds, dx, dy, j1))
  {
    var c := a.centers;
    var th := (c[0] + c[|c| - 1]) / 2.0;
    var e := Row(cfg, dep) + 2.0 * cfg.m;
    var rel := Connectors(c, th, box.height, e, cfg.m);
    var sh := Centring(th, box.width / 2.0, cw, box.width);
    ArrangeParts(cfg, box, a, dep, g, cw, th, sh, rel);
    ConnectorsMoved(c, box.height, e, cfg.m, dx, dy, centers, treeHead, dy + box.height, yOffset);
    EmitAppend(b, a.rects, a.texts, a.tails, a.heads, a.lrbounds, rel.tails, rel.heads, rel.lrbounds, dx, dy, j1);
    var ts, hs, ls := a.tails + rel.tails, a.heads + rel.heads, a.lrbounds + rel.lrbounds;
    var e1 := Buffers(e0.textPos, e0.bgRects, e0.tails + own.tails, e0.heads + own.heads, e0.lrbounds + own.lrbounds);
    assert e1 == Emit(b, a.rects, a.texts, ts, hs, ls, dx, dy, j1);
    assert treeHead - myCenter == th - box.width / 2.0;
    assert myCenter - treeHead == box.width / 2.0 - th;
    if myCenter > treeHead && box.width > cw {
      EmitShift(b, e1, a.rects, a.texts, ts, hs, ls, dx, dy, j, j1, hi, T, H, L, sh.desc);
    } else {
      MoveZero(a.rects, a.texts, ts);
      MoveZero([], [], hs);
      MoveZero([], [], ls);
    }
  }

  /** Writing the node's own slot `j` at its final corner `(x, dy)` in front
      of its arranged subtree `g` completes the subtree's layout. */
  lemma PlaceStep(cfg: Config, box: TextBox, g: Out, b: Buffers, e: Buffers, dx: real, dy: real,
                  x: real, j: nat, cw: real, R: Rect, P: Point)
    requires g.res == NodeResult(box.height + 2.0 * cfg.m, ReportedWidth(cw, box.width), box.baseline,
                                 Rect(g.res.bgRect.x, 0.0, box.height, box.width))
    requires x == dx + g.res.bgRect.x
    requires e == Emit(b, g.rects, g.texts, g.tails, g.heads, g.lrbounds, dx, dy, j + 1)
    requires R == Rect(x, dy, box.height, box.width) && P == Point(R.x + cfg.p, R.y + box.baseline)
    ensures Buffers(e.textPos[j := P], e.bgRects[j := R], e.tails, e.heads, e.lrbounds)
         == Emit(b, [g.res.bgRect] + g.rects, [Anchor(cfg, g.res.bgRect, box)] + g.texts, g.tails, g.heads,
                 g.lrbounds, dx, dy, j)
    ensures NodeResult(box.height + 2.0 * cfg.m, if cw > 0.0 then Max(box.width, cw) else box.width, box.baseline, R)
         == MoveResult(g.res, dx, dy)
  {
    EmitFinish(b, g.res.bgRect, Anchor(cfg, g.res.bgRect, box), g.rects, g.texts, g.tails, g.heads, g.lrbounds,
               dx, dy, j, j + 1, e, R, P);
  }

  /** The buffers of one layout pass and the shared pre-order counter `i`. */
  class Layout {
    const cfg: Config
    var i: nat
    var textPos: map<nat, Point>
    var bgRects: map<nat, Rect>
    var tails: seq<Segment>
    var heads: seq<Segment>
    var lrbounds: seq<Segment>

    constructor (cfg: Config)
      ensures this.cfg == cfg && i == 0 && textPos == map[] && bgRects == map[]
      ensures tails == [] && heads == [] && lrbounds == []
    {
      this.cfg := cfg;
      i := 0;
      textPos, bgRects := map[], map[];
      tails, heads, lrbounds := [], [], [];
    }

    ghost function Bufs(): Buffers
      reads this
    {
      Buffers(textPos, bgRects, tails, heads, lrbounds)
    }

    /** Every written slot lies before `n`. */
    ghost predicate Below(n: nat)
      reads this
    {
      (forall k :: k in bgRects ==> k < n) && (forall k :: k in textPos ==> k < n)
    }

    /** One visit of the layout callback for node `t` with context `d`,
        children pulled one by one until there are none left. It emits
        exactly `Lay` (returned as `o`) moved to the corner `d`, behind the
        entries already in the buffers, and takes the next `Size(t)`
        pre-order indexes. */
    method Visit<T>(t: Tree<T>, d: Ctx) returns (res: NodeResult, ghost o: Out)
      requires Below(i)
      requires i + Size(t) <= |cfg.dims|
      requires d.depth + Height(t) <= |cfg.rowHeight|
      modifies this
      decreases t, 2
      ensures o == Lay(cfg, t, old(i), d.depth)
      ensures Below(i) && i == old(i) + Size(t) && |o.texts| == |o.rects|
      ensures res == MoveResult(o.res, d.xOffset, d.yOffset)
      ensures Bufs() == Emit(old(Bufs()), o.rects, o.texts, o.tails, o.heads, o.lrbounds, d.xOffset, d.yOffset, old(i))
    {
      var T, H, L := |tails|, |heads|, |lrbounds|;
      var j := i;
      i := i + 1;
      ghost var a;
      var cw, centers;
      cw, centers, a := VisitKids(t, d, j);
      cw := cw - cfg.m;
      res := Place(d, j, cw, centers, T, H, L, old(Bufs()), a);
      o := Finish(cfg, cfg.dims[j], a, d.depth);
    }

    /** The loop of the callback over its children: pulls every child with
        the corner `(x_offset + cw, y_offset)` of the next row, collecting
        the children's centres and their running width `cw`; `a` is what
        the children emitted, relative to the node's corner. */
    method VisitKids<T>(t: Tree<T>, d: Ctx, j: nat) returns (cw: real, centers: seq<real>, ghost a: Acc)
      requires i == j + 1 && Below(i)
      requires j + Size(t) <= |cfg.dims|
      requires d.depth + Height(t) <= |cfg.rowHeight|
      modifies this
      decreases t, 1
      ensures a == LayKids(cfg, t, |Kids(t)|, j, d.depth)
      ensures |a.texts| == |a.rects| && i == j + 1 + |a.rects| && Below(i)
      ensures cw == a.cw && centers == Offset(a.centers, d.xOffset)
      ensures Bufs() == Emit(old(Bufs()), a.rects, a.texts, a.tails, a.heads, a.lrbounds, d.xOffset, d.yOffset, j + 1)
    {
      var yOffset := d.yOffset + cfg.rowHeight[d.depth] + 2.0 * cfg.m;
      ghost var b0 := Bufs();
      cw := 0.0;
      centers := [];
      a := LayKids(cfg, t, 0, j, d.depth);
      var n := 0;
      while n < |Kids(t)|
        invariant n <= |Kids(t)|
        invariant a == LayKids(cfg, t, n, j, d.depth)
        invariant |a.texts| == |a.rects| && i == j + 1 + |a.rects| && Below(i)
        invariant cw == a.cw && centers == Offset(a.centers, d.xOffset)
        invariant Bufs() == Emit(b0, a.rects, a.texts, a.tails, a.heads, a.lrbounds, d.xOffset, d.yOffset, j + 1)
      {
        cw, centers, a := VisitChild(t, d, j, n, yOffset, cw, centers, a, b0);
        n := n + 1;
      }
    }

    /** One turn of the loop: pulls child `n` at the corner right of the
        earlier children, one row down, and adds its centre and width. */
    method VisitChild<T>(t: Tree<T>, d: Ctx, j: nat, n: nat, yOffset: real, cw: real, centers: seq<real>,
                         ghost a: Acc, ghost b0: Buffers) returns (cw': real, centers': seq<real>, ghost a': Acc)
      requires n < |Kids(t)|
      requires j + Size(t) <= |cfg.dims|
      requires d.depth + Height(t) <= |cfg.rowHeight|
      requires yOffset == d.yOffset + cfg.rowHeight[d.depth] + 2.0 * cfg.m
      requires a == LayKids(cfg, t, n, j, d.depth)
      requires |a.texts| == |a.rects| && i == j + 1 + |a.rects| && Below(i)
      requires cw == a.cw && centers == Offset(a.centers, d.xOffset)
      requires Bufs() == Emit(b0, a.rects, a.texts, a.tails, a.heads, a.lrbounds, d.xOffset, d.yOffset, j + 1)
      modifies this
      decreases t, 0
      ensures a' == LayKids(cfg, t, n + 1, j, d.depth)
      ensures |a'.texts| == |a'.rects| && i == j + 1 + |a'.rects| && Below(i)
      ensures cw' == a'.cw && centers' == Offset(a'.centers, d.xOffset)
      ensures Bufs() == Emit(b0, a'.rects, a'.texts, a'.tails, a'.heads, a'.lrbounds, d.xOffset, d.yOffset, j + 1)
    {
      KidsBounds(t, n, |Kids(t)|);
      ghost var i0, b := i, Bufs();
      var cd := Ctx(d.xOffset + cw, yOffset, d.depth + 1);
      var child;
      ghost var o;
      child, o := Visit(t.children[n], cd);
      a' := AddChild(cfg, a, o, d.depth);
      NextKids(cfg, t, n, j, d.depth, cd.depth, a, o, i0, a');
      KidStep(cfg, a, o, d.depth, j, d.xOffset, d.yOffset, cd, i0, b0, b, Bufs(), centers, cw, child, a');
      centers' := centers + [child.bgRect.x + child.bgRect.width / 2.0];
      cw' := cw + cfg.m + child.width;
    }

    /** After the children: connectors and centring (when there are
        children), then the node's own rectangle and text anchor in slot
        `j`, and the result handed to the parent. */
    method Place(d: Ctx, j: nat, cw: real, centers: seq<real>, T: nat, H: nat, L: nat,
                 ghost b: Buffers, ghost a: Acc) returns (res: NodeResult)
      requires j < |cfg.dims| && d.depth < |cfg.rowHeight|
      requires T == |b.tails| && H == |b.heads| && L == |b.lrbounds|
      requires (forall k :: k in b.bgRects ==> k < j) && (forall k :: k in b.textPos ==> k < j)
      requires |a.texts| == |a.rects| && i == j + 1 + |a.rects|
      requires cw == a.cw - cfg.m && centers == Offset(a.centers, d.xOffset)
      requires Bufs() == Emit(b, a.rects, a.texts, a.tails, a.heads, a.lrbounds, d.xOffset, d.yOffset, j + 1)
      modifies this
      ensures i == old(i) && Below(i)
      ensures var o := Finish(cfg, cfg.dims[j], a, d.depth);
        && res == MoveResult(o.res, d.xOffset, d.yOffset)
        && Bufs() == Emit(b, o.rects, o.texts, o.tails, o.heads, o.lrbounds, d.xOffset, d.yOffset, j)
    {
      var box := cfg.dims[j];
      ghost var g := Arrange(cfg, box, a, d.depth);
      var x := d.xOffset;
      if |centers| > 0 {
        x := Align(d, j, cw, centers, T, H, L, b, a);
      } else {
        ArrangeLeaf(cfg, box, a, d.depth, g);
      }
      ghost var e := Bufs();
      var bgRect := Rect(x, d.yOffset, box.height, box.width);
      var anchor := Point(bgRect.x + cfg.p, bgRect.y + box.baseline);
      PlaceStep(cfg, box, g, b, e, d.xOffset, d.yOffset, x, j, cw, bgRect, anchor);
      textPos := textPos[j := anchor];
      bgRects := bgRects[j := bgRect];
      res := NodeResult(box.height + 2.0 * cfg.m, if cw > 0.0 then Max(box.width, cw) else box.width,
                        box.baseline, bgRect);
      ghost var o := Finish(cfg, box, a, d.depth);
      EmitBelow(b, o.rects, o.texts, o.tails, o.heads, o.lrbounds, d.xOffset, d.yOffset, j, i);
    }

    /** The connectors of a node with children, then the centring: the
        node's own corner moves right, or everything its subtree emitted
        (connector entries from `T`, `H`, `L` and slots `j..i-1`) moves
        right. Returns the node's final x. */
    method Align(d: Ctx, j: nat, cw: real, centers: seq<real>, T: nat, H: nat, L: nat,
                 ghost b: Buffers, ghost a: Acc) returns (x: real)
      requires j < |cfg.dims| && d.depth < |cfg.rowHeight|
      requires T == |b.tails| && H == |b.heads| && L == |b.lrbounds|
      requires (forall k :: k in b.bgRects ==> k < j) && (forall k :: k in b.textPos ==> k < j)
      requires |centers| > 0
      requires |a.texts| == |a.rects| && i == j + 1 + |a.rects|
      requires cw == a.cw - cfg.m && centers == Offset(a.centers, d.xOffset)
      requires Bufs() == Emit(b, a.rects, a.texts, a.tails, a.heads, a.lrbounds, d.xOffset, d.yOffset, j + 1)
      modifies this
      ensures i == old(i)
      ensures var g := Arrange(cfg, cfg.dims[j], a, d.depth);
        && x == d.xOffset + g.res.bgRect.x
        && Bufs() == Emit(b, g.rects, g.texts, g.tails, g.heads, g.lrbounds, d.xOffset, d.yOffset, j + 1)
    {
      var box := cfg.dims[j];
      var yOffset := d.yOffset + cfg.rowHeight[d.depth] + 2.0 * cfg.m;
      var treeHead := (centers[0] + centers[|centers| - 1]) / 2.0;
      var myCenter := d.xOffset + box.width / 2.0;
      var own := Connectors(centers, treeHead, d.yOffset + box.height, yOffset, cfg.m);
      AlignStep(cfg, box, a, d.depth, Arrange(cfg, box, a, d.depth), b, Bufs(), d.xOffset, d.yOffset, j, j + 1, i, T, H, L, cw, centers,
                treeHead, myCenter, yOffset, own);
      tails := tails + own.tails;
      heads := heads + own.heads;
      lrbounds := lrbounds + own.lrbounds;
      x := d.xOffset;
      if treeHead > myCenter && cw > box.width {
        x := x + Min(treeHead - myCenter, cw - box.width);
      }
      if myCenter > treeHead && box.width > cw {
        var shift := Min(myCenter - treeHead, box.width - cw);
        lrbounds := ShiftSegments(lrbounds, L, shift);
        heads := ShiftSegments(heads, H, shift);
        tails := ShiftSegments(tails, T, shift);
        textPos := ShiftPoints(textPos, j, i, shift);
        bgRects := ShiftRects(bgRects, j, i, shift);
      }
    }
  }
}
