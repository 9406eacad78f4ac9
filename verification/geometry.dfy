/**
 * The shapes an ASCII image is made of (`Component` and `rectPoints` in
 * qtextimage.cpp). Coordinates are grid cells: x is the column, y the row.
 */
module Geometry {
  import opened Alphabet

  datatype Coord = Coord(x: int, y: int)

  datatype Kind = Point | Line | Polygon | Ellipse

  /**
   * One shape, tagged with the glyph that styles it. For a polygon or an
   * ellipse the tag is the first glyph of the shape.
   */
  datatype Component = Component(glyph: Byte, kind: Kind, points: seq<Coord>)

  /** The number of points each kind carries; an ellipse keeps its two box corners. */
  predicate WellFormed(c: Component) {
    match c.kind
    case Point => |c.points| == 1
    case Line => |c.points| == 2
    case Polygon => |c.points| >= 2
    case Ellipse => |c.points| == 2 && c.points[0].x <= c.points[1].x && c.points[0].y <= c.points[1].y
  }

  /** An axis-aligned box, the running state of the `rectPoints` loop. */
  datatype Box = Box(left: int, top: int, right: int, bottom: int)

  predicate Contains(b: Box, p: Coord) {
    b.left <= p.x <= b.right && b.top <= p.y <= b.bottom
  }

  function Widen(b: Box, p: Coord): Box {
    Box(if p.x < b.left then p.x else b.left,
        if p.y < b.top then p.y else b.top,
        if p.x > b.right then p.x else b.right,
        if p.y > b.bottom then p.y else b.bottom)
  }

  /**
   * Widens `b` by every point of `ps` in turn. The result contains `b` and all of
   * `ps`, and each of its four sides is a side of `b` or passes through a point.
   */
  function WidenAll(b: Box, ps: seq<Coord>): (r: Box)
    ensures r.left <= b.left && r.top <= b.top && r.right >= b.right && r.bottom >= b.bottom
    ensures forall p <- ps :: Contains(r, p)
    ensures r.left == b.left || exists p <- ps :: p.x == r.left
    ensures r.top == b.top || exists p <- ps :: p.y == r.top
    ensures r.right == b.right || exists p <- ps :: p.x == r.right
    ensures r.bottom == b.bottom || exists p <- ps :: p.y == r.bottom
    decreases |ps|
  {
    if ps == [] then b
    else
      var r := WidenAll(Widen(b, ps[0]), ps[1..]);
      assert forall p <- ps[1..] :: p in ps;
      r
  }

  /** The box is the smallest one holding every point: each side touches one of them. */
  predicate Tight(b: Box, ps: seq<Coord>) {
    (forall p <- ps :: Contains(b, p))
    && (exists p <- ps :: p.x == b.left) && (exists p <- ps :: p.y == b.top)
    && (exists p <- ps :: p.x == b.right) && (exists p <- ps :: p.y == b.bottom)
  }

  /** At most one box is tight around the same points. */
  lemma TightUnique(b: Box, b': Box, ps: seq<Coord>)
    requires Tight(b, ps) && Tight(b', ps)
    ensures b == b'
  {
    var p :| p in ps && p.x == b.left;
    var q :| q in ps && q.x == b'.left;
    assert b.left == b'.left;
    var p1 :| p1 in ps && p1.y == b.top;
    var q1 :| q1 in ps && q1.y == b'.top;
    assert b.top == b'.top;
    var p2 :| p2 in ps && p2.x == b.right;
    var q2 :| q2 in ps && q2.x == b'.right;
    assert b.right == b'.right;
    var p3 :| p3 in ps && p3.y == b.bottom;
    var q3 :| q3 in ps && q3.y == b'.bottom;
    assert b.bottom == b'.bottom;
  }

  /**
   * Bounding box of at least three points, returned as its top-left and
   * bottom-right corners; the box starts at the first point and is widened by all.
   */
  function RectPoints(points: seq<Coord>): (r: seq<Coord>)
    requires |points| >= 3
    ensures |r| == 2
    ensures Tight(Box(r[0].x, r[0].y, r[1].x, r[1].y), points)
  {
    var first := points[0];
    var b := WidenAll(Box(first.x, first.y, first.x, first.y), points);
    [Coord(b.left, b.top), Coord(b.right, b.bottom)]
  }

  /** Tightness depends only on which points there are, not on their order or repetitions. */
  lemma TightSameMembers(b: Box, ps: seq<Coord>, qs: seq<Coord>)
    requires Tight(b, ps)
    requires forall x :: x in ps <==> x in qs
    ensures Tight(b, qs)
  {
    var l :| l in ps && l.x == b.left;
    var t :| t in ps && t.y == b.top;
    var r :| r in ps && r.x == b.right;
    var d :| d in ps && d.y == b.bottom;
    assert l in qs && t in qs && r in qs && d in qs;
  }

  /** Any tight box around the points is the one `RectPoints` describes. */
  lemma TightIsRectPoints(b: Box, points: seq<Coord>)
    requires |points| >= 3 && Tight(b, points)
    ensures RectPoints(points) == [Coord(b.left, b.top), Coord(b.right, b.bottom)]
  {
    var r := RectPoints(points);
    TightUnique(b, Box(r[0].x, r[0].y, r[1].x, r[1].y), points);
  }

  /**
   * `rectPoints` gives the same corners whatever order it visits the points in:
   * any two lists with the same members yield the same answer.
   */
  lemma RectPointsOrderFree(ps: seq<Coord>, qs: seq<Coord>)
    requires |ps| >= 3 && |qs| >= 3
    requires forall x :: x in ps <==> x in qs
    ensures RectPoints(ps) == RectPoints(qs)
  {
    var r := RectPoints(ps);
    var b := Box(r[0].x, r[0].y, r[1].x, r[1].y);
    TightSameMembers(b, ps, qs);
    TightIsRectPoints(b, qs);
  }

  /** The `foreach` loop of `rectPoints`, with the same running minima and maxima. */
  method RectPointsLoop(points: seq<Coord>) returns (r: seq<Coord>)
    requires |points| >= 3
    ensures |r| == 2
    ensures Tight(Box(r[0].x, r[0].y, r[1].x, r[1].y), points)
    ensures r == RectPoints(points)
  {
    var left, right := points[0].x, points[0].x;
    var top, bottom := points[0].y, points[0].y;
    var k := 0;
    while k < |points|
      invariant 0 <= k <= |points|
      invariant forall p <- points[..k] :: left <= p.x <= right && top <= p.y <= bottom
      invariant exists p <- points :: p.x == left
      invariant exists p <- points :: p.y == top
      invariant exists p <- points :: p.x == right
      invariant exists p <- points :: p.y == bottom
    {
      var p := points[k];
      left := if p.x < left then p.x else left;
      top := if p.y < top then p.y else top;
      right := if p.x > right then p.x else right;
      bottom := if p.y > bottom then p.y else bottom;
      assert points[..k + 1] == points[..k] + [p];
      k := k + 1;
    }
    assert points[..k] == points;
    r := [Coord(left, top), Coord(right, bottom)];
    TightIsRectPoints(Box(left, top, right, bottom), points);
  }
}
