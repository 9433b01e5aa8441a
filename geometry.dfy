/** Coordinates and the records the layout reads and writes. Coordinates are
    reals: the layout only adds, subtracts, halves and takes minima/maxima. */
module Geometry {

  /** Measured label box, already inflated by the padding on both axes:
      overall `height`, overall `width`, and `baseline`, the distance from the
      top of the box to the text baseline. */
  datatype TextBox = TextBox(height: real, width: real, baseline: real)

  datatype Point = Point(x: real, y: real)

  /** A background rectangle: top-left corner and size. */
  datatype Rect = Rect(x: real, y: real, height: real, width: real)

  /** A connector line: a two-point array `[a, b]`. */
  datatype Segment = Segment(a: Point, b: Point)

  /** What a node hands down to a child: the child's top-left corner and depth. */
  datatype Ctx = Ctx(xOffset: real, yOffset: real, depth: nat)

  /** What a node's visit returns to its parent. */
  datatype NodeResult = NodeResult(height: real, width: real, baseline: real, bgRect: Rect)

  function Max(a: real, b: real): (r: real)
    ensures r >= a && r >= b && (r == a || r == b)
  {
    if a >= b then a else b
  }

  function Min(a: real, b: real): (r: real)
    ensures r <= a && r <= b && (r == a || r == b)
  {
    if a <= b then a else b
  }

  /** Horizontal centre of a rectangle. */
  function Center(r: Rect): real {
    r.x + r.width / 2.0
  }

  function MovePoint(p: Point, dx: real, dy: real): Point {
    Point(p.x + dx, p.y + dy)
  }

  function MoveRect(r: Rect, dx: real, dy: real): Rect {
    r.(x := r.x + dx, y := r.y + dy)
  }

  function MoveSeg(s: Segment, dx: real, dy: real): Segment {
    Segment(MovePoint(s.a, dx, dy), MovePoint(s.b, dx, dy))
  }

  function MovePoints(s: seq<Point>, dx: real, dy: real): (r: seq<Point>)
    ensures |r| == |s| && forall k :: 0 <= k < |s| ==> r[k] == MovePoint(s[k], dx, dy)
  {
    seq(|s|, k requires 0 <= k < |s| => MovePoint(s[k], dx, dy))
  }

  function MoveRects(s: seq<Rect>, dx: real, dy: real): (r: seq<Rect>)
    ensures |r| == |s| && forall k :: 0 <= k < |s| ==> r[k] == MoveRect(s[k], dx, dy)
  {
    seq(|s|, k requires 0 <= k < |s| => MoveRect(s[k], dx, dy))
  }

  function MoveSegs(s: seq<Segment>, dx: real, dy: real): (r: seq<Segment>)
    ensures |r| == |s| && forall k :: 0 <= k < |s| ==> r[k] == MoveSeg(s[k], dx, dy)
  {
    seq(|s|, k requires 0 <= k < |s| => MoveSeg(s[k], dx, dy))
  }

  function MoveResult(n: NodeResult, dx: real, dy: real): NodeResult {
    n.(bgRect := MoveRect(n.bgRect, dx, dy))
  }

  /** Moving by (a, b) and then by (c, e) is moving by (a + c, b + e). */
  lemma MoveTwice(rs: seq<Rect>, ps: seq<Point>, ss: seq<Segment>, a: real, b: real, c: real, e: real)
    ensures MoveRects(MoveRects(rs, a, b), c, e) == MoveRects(rs, c + a, e + b)
    ensures MovePoints(MovePoints(ps, a, b), c, e) == MovePoints(ps, c + a, e + b)
    ensures MoveSegs(MoveSegs(ss, a, b), c, e) == MoveSegs(ss, c + a, e + b)
  {
  }

  /** Moves commute. */
  lemma MoveCommute(rs: seq<Rect>, ps: seq<Point>, ss: seq<Segment>, a: real, b: real, c: real, e: real)
    ensures MoveRects(MoveRects(rs, a, b), c, e) == MoveRects(MoveRects(rs, c, e), a, b)
    ensures MovePoints(MovePoints(ps, a, b), c, e) == MovePoints(MovePoints(ps, c, e), a, b)
    ensures MoveSegs(MoveSegs(ss, a, b), c, e) == MoveSegs(MoveSegs(ss, c, e), a, b)
  {
  }

  /** Moving distributes over concatenation. */
  lemma MoveConcat(rs: seq<Rect>, rs': seq<Rect>, ps: seq<Point>, ps': seq<Point>,
                   ss: seq<Segment>, ss': seq<Segment>, dx: real, dy: real)
    ensures MoveRects(rs + rs', dx, dy) == MoveRects(rs, dx, dy) + MoveRects(rs', dx, dy)
    ensures MovePoints(ps + ps', dx, dy) == MovePoints(ps, dx, dy) + MovePoints(ps', dx, dy)
    ensures MoveSegs(ss + ss', dx, dy) == MoveSegs(ss, dx, dy) + MoveSegs(ss', dx, dy)
  {
  }

  /** Moving a sequence with a first element. */
  lemma MoveCons(r: Rect, rs: seq<Rect>, p: Point, ps: seq<Point>, dx: real, dy: real)
    ensures MoveRects([r] + rs, dx, dy) == [MoveRect(r, dx, dy)] + MoveRects(rs, dx, dy)
    ensures MovePoints([p] + ps, dx, dy) == [MovePoint(p, dx, dy)] + MovePoints(ps, dx, dy)
  {
  }

  /** Moving by nothing changes nothing. */
  lemma MoveZero(rs: seq<Rect>, ps: seq<Point>, ss: seq<Segment>)
    ensures MoveRects(rs, 0.0, 0.0) == rs
    ensures MovePoints(ps, 0.0, 0.0) == ps
    ensures MoveSegs(ss, 0.0, 0.0) == ss
  {
  }
}
