/**
 * Plane geometry of the connectivity pipeline: the affine matrices used to
 * place block contents, bounding boxes of point lists, and the tolerant
 * orientation, segment and polyline intersection tests.
 */
module Geometry {
  import opened Js
  import opened Wrappers

  datatype Point = Point(x: real, y: real)

  /** A point whose coordinates may be NaN or infinite. */
  datatype NumPoint = NumPoint(x: Num, y: Num)

  datatype Rect = Rect(minX: real, minY: real, maxX: real, maxY: real)

  /** The 2-D affine matrix `{a, b, c, d, e, f}`: x' = a x + c y + e, y' = b x + d y + f. */
  datatype Mat = Mat(a: real, b: real, c: real, d: real, e: real, f: real)

  /** A tolerance: the pipeline's `EPS` or the contact tolerance `s`. */
  type Tol = e: real | e >= 0.0 witness 150.0

  /** `const EPS = 1500e-1` */
  const EPS: Tol := 150.0

  function Min(a: real, b: real): real { if a <= b then a else b }
  function Max(a: real, b: real): real { if a >= b then a else b }
  function Abs(a: real): real { if a < 0.0 then -a else a }

  // ---------------------------------------------------------------------
  // Affine matrices
  // ---------------------------------------------------------------------

  function MatIdentity(): Mat { Mat(1.0, 0.0, 0.0, 1.0, 0.0, 0.0) }

  /** `m1 * m2`: apply `m2` first, then `m1`. */
  function MatMul(m1: Mat, m2: Mat): Mat {
    Mat(m1.a * m2.a + m1.c * m2.b,
        m1.b * m2.a + m1.d * m2.b,
        m1.a * m2.c + m1.c * m2.d,
        m1.b * m2.c + m1.d * m2.d,
        m1.a * m2.e + m1.c * m2.f + m1.e,
        m1.b * m2.e + m1.d * m2.f + m1.f)
  }

  function MatTranslate(tx: real, ty: real): Mat { Mat(1.0, 0.0, 0.0, 1.0, tx, ty) }

  function MatScale(sx: real, sy: real): Mat { Mat(sx, 0.0, 0.0, sy, 0.0, 0.0) }

  function ApplyMat(m: Mat, p: Point): Point {
    Point(m.a * p.x + m.c * p.y + m.e, m.b * p.x + m.d * p.y + m.f)
  }

  /** One coordinate of a product: the row (u, v, w) applied after the
      rows (a, c, e) and (b, d, f) is the row of the product. */
  lemma RowComposes(u: real, v: real, w: real, a: real, b: real, c: real, d: real, e: real, f: real, x: real, y: real)
    ensures u * (a * x + c * y + e) + v * (b * x + d * y + f) + w
         == (u * a + v * b) * x + (u * c + v * d) * y + (u * e + v * f + w)
  {
    assert u * (a * x + c * y + e) == (u * a) * x + (u * c) * y + u * e;
    assert v * (b * x + d * y + f) == (v * b) * x + (v * d) * y + v * f;
  }

  /** The product applies its right factor first and its left factor second. */
  lemma MatMulComposes(m1: Mat, m2: Mat, p: Point)
    ensures ApplyMat(MatMul(m1, m2), p) == ApplyMat(m1, ApplyMat(m2, p))
  {
    var m, q := MatMul(m1, m2), ApplyMat(m2, p);
    assert q.x == m2.a * p.x + m2.c * p.y + m2.e && q.y == m2.b * p.x + m2.d * p.y + m2.f;
    RowComposes(m1.a, m1.c, m1.e, m2.a, m2.b, m2.c, m2.d, m2.e, m2.f, p.x, p.y);
    assert m1.a * q.x + m1.c * q.y + m1.e == m.a * p.x + m.c * p.y + m.e;
    RowComposes(m1.b, m1.d, m1.f, m2.a, m2.b, m2.c, m2.d, m2.e, m2.f, p.x, p.y);
    assert m1.b * q.x + m1.d * q.y + m1.f == m.b * p.x + m.d * p.y + m.f;
  }

  /** The identity matrix is a unit on both sides and fixes every point. */
  lemma MatIdentityUnit(m: Mat, p: Point)
    ensures MatMul(MatIdentity(), m) == m && MatMul(m, MatIdentity()) == m
    ensures ApplyMat(MatIdentity(), p) == p
  {
  }

  /** A translation moves every point by its offset; a scale multiplies each axis. */
  lemma TranslateScaleAct(tx: real, ty: real, sx: real, sy: real, p: Point)
    ensures ApplyMat(MatTranslate(tx, ty), p) == Point(p.x + tx, p.y + ty)
    ensures ApplyMat(MatScale(sx, sy), p) == Point(sx * p.x, sy * p.y)
  {
  }

  // ---------------------------------------------------------------------
  // Bounding boxes
  // ---------------------------------------------------------------------

  predicate IsFinitePoint(p: NumPoint) { p.x.Fin? && p.y.Fin? }

  function Coords(p: NumPoint): Point
    requires IsFinitePoint(p)
  {
    Point(p.x.r, p.y.r)
  }

  function Lift(p: Point): NumPoint { NumPoint(Fin(p.x), Fin(p.y)) }

  function LiftAll(pts: seq<Point>): (r: seq<NumPoint>)
    ensures |r| == |pts| && forall i :: 0 <= i < |pts| ==> r[i] == Lift(pts[i])
  {
    if pts == [] then [] else [Lift(pts[0])] + LiftAll(pts[1..])
  }

  /** Inclusive containment, no tolerance. */
  predicate Contains(r: Rect, p: Point) {
    r.minX <= p.x <= r.maxX && r.minY <= p.y <= r.maxY
  }

  /** One step of the `rectFromPoints` loop: non-finite points are skipped. */
  function ExtendBounds(acc: Option<Rect>, p: NumPoint): Option<Rect> {
    if !IsFinitePoint(p) then acc
    else
      var x, y := p.x.r, p.y.r;
      match acc
      case None => Some(Rect(x, y, x, y))
      case Some(b) => Some(Rect(Min(b.minX, x), Min(b.minY, y), Max(b.maxX, x), Max(b.maxY, y)))
  }

  /** The bounding box of the finite points of a list, `None` when there is none. */
  function BoundsOf(pts: seq<NumPoint>): Option<Rect>
    decreases |pts|
  {
    if pts == [] then None else ExtendBounds(BoundsOf(pts[..|pts| - 1]), pts[|pts| - 1])
  }

  /** `rectFromPoints`: one pass keeping running minima and maxima. */
  method RectFromPoints(pts: seq<NumPoint>) returns (r: Option<Rect>)
    ensures r == BoundsOf(pts)
  {
    var minX, minY, maxX, maxY := 0.0, 0.0, 0.0, 0.0;
    var seen := false;
    var i := 0;
    while i < |pts|
      invariant 0 <= i <= |pts|
      invariant BoundsOf(pts[..i]) == if seen then Some(Rect(minX, minY, maxX, maxY)) else None
    {
      var p := pts[i];
      assert pts[..i + 1][..i] == pts[..i];
      if IsFinitePoint(p) {
        var x, y := p.x.r, p.y.r;
        if !seen {
          minX, minY, maxX, maxY := x, y, x, y;
          seen := true;
        } else {
          minX, minY, maxX, maxY := Min(minX, x), Min(minY, y), Max(maxX, x), Max(maxY, y);
        }
      }
      i := i + 1;
    }
    assert pts[..i] == pts;
    r := if seen then Some(Rect(minX, minY, maxX, maxY)) else None;
  }

  /** There is no box exactly when no point is finite. */
  lemma {:induction false} BoundsOfNone(pts: seq<NumPoint>)
    ensures BoundsOf(pts).None? <==> forall i :: 0 <= i < |pts| ==> !IsFinitePoint(pts[i])
    decreases |pts|
  {
    if pts != [] {
      var init := pts[..|pts| - 1];
      BoundsOfNone(init);
      assert forall i :: 0 <= i < |init| ==> init[i] == pts[i];
    }
  }

  /** The box is well formed, holds every finite point, and each of its four
      sides is attained by some finite point (so it is the tightest such box). */
  lemma {:induction false} BoundsOfSpec(pts: seq<NumPoint>)
    requires BoundsOf(pts).Some?
    ensures var b := BoundsOf(pts).value;
      && b.minX <= b.maxX && b.minY <= b.maxY
      && (forall i :: 0 <= i < |pts| && IsFinitePoint(pts[i]) ==> Contains(b, Coords(pts[i])))
      && (exists i :: 0 <= i < |pts| && IsFinitePoint(pts[i]) && pts[i].x.r == b.minX)
      && (exists i :: 0 <= i < |pts| && IsFinitePoint(pts[i]) && pts[i].x.r == b.maxX)
      && (exists i :: 0 <= i < |pts| && IsFinitePoint(pts[i]) && pts[i].y.r == b.minY)
      && (exists i :: 0 <= i < |pts| && IsFinitePoint(pts[i]) && pts[i].y.r == b.maxY)
    decreases |pts|
  {
    var n := |pts|;
    var init := pts[..n - 1];
    var last := pts[n - 1];
    var b := BoundsOf(pts).value;
    assert forall i :: 0 <= i < |init| ==> init[i] == pts[i];
    if BoundsOf(init).None? {
      BoundsOfNone(init);
      assert b == Rect(last.x.r, last.y.r, last.x.r, last.y.r);
      assert IsFinitePoint(pts[n - 1]);
    } else if !IsFinitePoint(last) {
      BoundsOfSpec(init);
    } else {
      BoundsOfSpec(init);
      var a := BoundsOf(init).value;
      if a.minX <= last.x.r {
        var i :| 0 <= i < |init| && IsFinitePoint(init[i]) && init[i].x.r == a.minX;
        assert pts[i] == init[i];
      } else { assert pts[n - 1].x.r == b.minX; }
      if a.maxX >= last.x.r {
        var i :| 0 <= i < |init| && IsFinitePoint(init[i]) && init[i].x.r == a.maxX;
        assert pts[i] == init[i];
      } else { assert pts[n - 1].x.r == b.maxX; }
      if a.minY <= last.y.r {
        var i :| 0 <= i < |init| && IsFinitePoint(init[i]) && init[i].y.r == a.minY;
        assert pts[i] == init[i];
      } else { assert pts[n - 1].y.r == b.minY; }
      if a.maxY >= last.y.r {
        var i :| 0 <= i < |init| && IsFinitePoint(init[i]) && init[i].y.r == a.maxY;
        assert pts[i] == init[i];
      } else { assert pts[n - 1].y.r == b.maxY; }
    }
  }

  /** `bboxOfWireObj` / `bboxOfRectObj`: the box of a list of finite points. */
  function BBox(pts: seq<Point>): Option<Rect> {
    BoundsOf(LiftAll(pts))
  }

  /** A list of finite points has a box exactly when it is non-empty, and then
      the box holds every point of the list. */
  lemma BBoxSpec(pts: seq<Point>)
    ensures BBox(pts).None? <==> pts == []
    ensures BBox(pts).Some? ==> forall i :: 0 <= i < |pts| ==> Contains(BBox(pts).value, pts[i])
  {
    var l := LiftAll(pts);
    BoundsOfNone(l);
    if pts != [] {
      assert IsFinitePoint(l[0]);
      BoundsOfSpec(l);
      forall i | 0 <= i < |pts| ensures Contains(BBox(pts).value, pts[i]) {
        assert Coords(l[i]) == pts[i];
      }
    }
  }

  // ---------------------------------------------------------------------
  // Tolerant predicates
  // ---------------------------------------------------------------------

  /** `pointInRect` / `pointInRectBBox`: inside the box grown by `eps` on every side. */
  predicate InRectEps(p: Point, r: Rect, eps: Tol) {
    p.x >= r.minX - eps && p.x <= r.maxX + eps && p.y >= r.minY - eps && p.y <= r.maxY + eps
  }

  /** `bboxIntersects`: the boxes overlap once one of them is grown by `eps`. */
  predicate BBoxIntersects(a: Rect, b: Rect, eps: Tol) {
    !(a.maxX < b.minX - eps || a.minX > b.maxX + eps || a.maxY < b.minY - eps || a.minY > b.maxY + eps)
  }

  lemma BBoxIntersectsSymmetric(a: Rect, b: Rect, eps: Tol)
    ensures BBoxIntersects(a, b, eps) == BBoxIntersects(b, a, eps)
  {
  }

  /** The cross product (b - a) x (c - a). */
  function Cross(a: Point, b: Point, c: Point): real {
    (b.x - a.x) * (c.y - a.y) - (b.y - a.y) * (c.x - a.x)
  }

  /** `orient`: the sign of the cross product, 0 when it is within `eps` of zero. */
  function Orient(a: Point, b: Point, c: Point, eps: Tol): (o: int)
    ensures o == 0 <==> Abs(Cross(a, b, c)) < eps
    ensures o == 1 <==> Abs(Cross(a, b, c)) >= eps && Cross(a, b, c) > 0.0
    ensures o == -1 <==> Abs(Cross(a, b, c)) >= eps && Cross(a, b, c) <= 0.0
  {
    var v := Cross(a, b, c);
    if Abs(v) < eps then 0 else if v > 0.0 then 1 else -1
  }

  lemma CrossSwap(a: Point, b: Point, c: Point)
    ensures Cross(b, a, c) == -Cross(a, b, c)
  {
    calc {
      Cross(b, a, c);
      (a.x - b.x) * (c.y - b.y) - (a.y - b.y) * (c.x - b.x);
      a.x * c.y - a.x * b.y - b.x * c.y - a.y * c.x + a.y * b.x + b.y * c.x;
      -((b.x - a.x) * (c.y - a.y) - (b.y - a.y) * (c.x - a.x));
    }
  }

  /** With a positive tolerance, swapping the first two points flips the orientation. */
  lemma OrientSwap(a: Point, b: Point, c: Point, eps: Tol)
    requires eps > 0.0
    ensures Orient(b, a, c, eps) == -Orient(a, b, c, eps)
  {
    CrossSwap(a, b, c);
  }

  /** With no tolerance a collinear triple is never orientation 0, and swapping
      does not flip it: the reason every symmetry below needs `eps > 0`. */
  lemma OrientSwapFailsWithoutTolerance()
    ensures Orient(Point(1.0, 0.0), Point(0.0, 0.0), Point(0.5, 0.0), 0.0)
         == Orient(Point(0.0, 0.0), Point(1.0, 0.0), Point(0.5, 0.0), 0.0) == -1
  {
  }

  /** `onSegment`: `p` lies in the `eps`-grown box of `ab` and is collinear with it. */
  predicate OnSegment(a: Point, b: Point, p: Point, eps: Tol) {
    && Min(a.x, b.x) - eps <= p.x && p.x <= Max(a.x, b.x) + eps
    && Min(a.y, b.y) - eps <= p.y && p.y <= Max(a.y, b.y) + eps
    && Orient(a, b, p, eps) == 0
  }

  lemma OnSegmentSwap(a: Point, b: Point, p: Point, eps: Tol)
    requires eps > 0.0
    ensures OnSegment(b, a, p, eps) == OnSegment(a, b, p, eps)
  {
    OrientSwap(a, b, p, eps);
  }

  /** `segmentsIntersect`: proper crossing, or an endpoint touching the other segment. */
  predicate SegmentsIntersect(a: Point, b: Point, c: Point, d: Point, eps: Tol) {
    var o1, o2, o3, o4 := Orient(a, b, c, eps), Orient(a, b, d, eps), Orient(c, d, a, eps), Orient(c, d, b, eps);
    || (o1 != o2 && o3 != o4)
    || (o1 == 0 && OnSegment(a, b, c, eps))
    || (o2 == 0 && OnSegment(a, b, d, eps))
    || (o3 == 0 && OnSegment(c, d, a, eps))
    || (o4 == 0 && OnSegment(c, d, b, eps))
  }

  lemma SegmentsIntersectSymmetric(a: Point, b: Point, c: Point, d: Point, eps: Tol)
    ensures SegmentsIntersect(a, b, c, d, eps) == SegmentsIntersect(c, d, a, b, eps)
  {
  }

  /** Reversing either segment does not change the answer. */
  lemma SegmentsIntersectReverse(a: Point, b: Point, c: Point, d: Point, eps: Tol)
    requires eps > 0.0
    ensures SegmentsIntersect(b, a, c, d, eps) == SegmentsIntersect(a, b, c, d, eps)
    ensures SegmentsIntersect(a, b, d, c, eps) == SegmentsIntersect(a, b, c, d, eps)
  {
    OrientSwap(a, b, c, eps);
    OrientSwap(a, b, d, eps);
    OnSegmentSwap(a, b, c, eps);
    OnSegmentSwap(a, b, d, eps);
    OrientSwap(c, d, a, eps);
    OrientSwap(c, d, b, eps);
    OnSegmentSwap(c, d, a, eps);
    OnSegmentSwap(c, d, b, eps);
  }

  /** A T-junction that is found one way round and missed the other way round
      when the tolerance is zero. */
  lemma SegmentsIntersectReverseFailsWithoutTolerance()
    ensures SegmentsIntersect(Point(0.0, 0.0), Point(1.0, 0.0), Point(0.5, 0.0), Point(0.5, 1.0), 0.0)
    ensures !SegmentsIntersect(Point(1.0, 0.0), Point(0.0, 0.0), Point(0.5, 0.0), Point(0.5, 1.0), 0.0)
  {
    var a, b, c, d := Point(0.0, 0.0), Point(1.0, 0.0), Point(0.5, 0.0), Point(0.5, 1.0);
    assert Orient(a, b, c, 0.0) == -1 && Orient(a, b, d, 0.0) == 1;
    assert Orient(c, d, a, 0.0) == 1 && Orient(c, d, b, 0.0) == -1;
    assert Orient(b, a, c, 0.0) == -1 && Orient(b, a, d, 0.0) == -1;
  }

  /** `polylineSegments`: the consecutive pairs of a point list. */
  function PolylineSegments(pts: seq<Point>): (segs: seq<(Point, Point)>)
    ensures |segs| == if pts == [] then 0 else |pts| - 1
    ensures forall i :: 0 <= i < |segs| ==> segs[i] == (pts[i], pts[i + 1])
  {
    if |pts| < 2 then [] else [(pts[0], pts[1])] + PolylineSegments(pts[1..])
  }

  /** The four corners of a box, counter-clockwise from (minX, minY). */
  function Corners(r: Rect): (Point, Point, Point, Point) {
    (Point(r.minX, r.minY), Point(r.maxX, r.minY), Point(r.maxX, r.maxY), Point(r.minX, r.maxY))
  }

  /** `segmentIntersectsRect`: an endpoint inside the grown box, or a touch of one of its sides. */
  predicate SegmentIntersectsRect(a: Point, b: Point, r: Rect, eps: Tol) {
    var (p1, p2, p3, p4) := Corners(r);
    || InRectEps(a, r, eps) || InRectEps(b, r, eps)
    || SegmentsIntersect(a, b, p1, p2, eps) || SegmentsIntersect(a, b, p2, p3, eps)
    || SegmentsIntersect(a, b, p3, p4, eps) || SegmentsIntersect(a, b, p4, p1, eps)
  }

  /** Some segment of the list touches the box. */
  predicate AnySegmentHitsRect(segs: seq<(Point, Point)>, r: Rect, eps: Tol) {
    exists i :: 0 <= i < |segs| && SegmentIntersectsRect(segs[i].0, segs[i].1, r, eps)
  }

  /** `polylineIntersectsRect`: box prefilter, then a segment-by-segment test. */
  predicate PolylineIntersectsRect(wire: seq<Point>, rect: seq<Point>, eps: Tol) {
    match BBox(rect)
    case None => false
    case Some(r) =>
      match BBox(wire)
      case None => false
      case Some(wb) => BBoxIntersects(wb, r, eps) && AnySegmentHitsRect(PolylineSegments(wire), r, eps)
  }

  /** A wire of at least two points one of whose vertices lies in the grown box
      of the rectangle intersects it. */
  lemma VertexInRectHits(wire: seq<Point>, rect: seq<Point>, k: nat, eps: Tol)
    requires |wire| >= 2 && k < |wire| && BBox(rect).Some?
    requires InRectEps(wire[k], BBox(rect).value, eps)
    ensures PolylineIntersectsRect(wire, rect, eps)
  {
    var r := BBox(rect).value;
    BBoxSpec(wire);
    var wb := BBox(wire).value;
    assert Contains(wb, wire[k]);
    var segs := PolylineSegments(wire);
    var j := if k < |wire| - 1 then k else k - 1;
    assert segs[j] == (wire[j], wire[j + 1]);
    assert SegmentIntersectsRect(segs[j].0, segs[j].1, r, eps);
  }

  /** `polylineIntersectsPolyline`: box prefilter, then every pair of segments. */
  predicate PolylineIntersectsPolyline(w1: seq<Point>, w2: seq<Point>, eps: Tol) {
    match (BBox(w1), BBox(w2))
    case (Some(b1), Some(b2)) =>
      && BBoxIntersects(b1, b2, eps)
      && exists i, j :: 0 <= i < |PolylineSegments(w1)| && 0 <= j < |PolylineSegments(w2)|
           && SegmentsIntersect(PolylineSegments(w1)[i].0, PolylineSegments(w1)[i].1,
                                PolylineSegments(w2)[j].0, PolylineSegments(w2)[j].1, eps)
    case _ => false
  }

  /** Wire-to-wire contact does not depend on which wire is asked first. */
  lemma PolylineIntersectsPolylineSymmetric(w1: seq<Point>, w2: seq<Point>, eps: Tol)
    ensures PolylineIntersectsPolyline(w1, w2, eps) == PolylineIntersectsPolyline(w2, w1, eps)
  {
    var s1, s2 := PolylineSegments(w1), PolylineSegments(w2);
    if PolylineIntersectsPolyline(w1, w2, eps) {
      var i, j :| 0 <= i < |s1| && 0 <= j < |s2| && SegmentsIntersect(s1[i].0, s1[i].1, s2[j].0, s2[j].1, eps);
      SegmentsIntersectSymmetric(s1[i].0, s1[i].1, s2[j].0, s2[j].1, eps);
    }
    if PolylineIntersectsPolyline(w2, w1, eps) {
      var j, i :| 0 <= j < |s2| && 0 <= i < |s1| && SegmentsIntersect(s2[j].0, s2[j].1, s1[i].0, s1[i].1, eps);
      SegmentsIntersectSymmetric(s2[j].0, s2[j].1, s1[i].0, s1[i].1, eps);
    }
  }

  /** `polylineLength`: the summed lengths of consecutive segments, with the
      length of a segment given by `hypot`. */
  type Hypot = f: (real, real) -> real | forall dx, dy :: f(dx, dy) >= 0.0 witness (dx: real, dy: real) => 0.0

  function PolylineLength(pts: seq<Point>, hypot: Hypot): (len: real)
    ensures len >= 0.0
    ensures |pts| < 2 ==> len == 0.0
    decreases |pts|
  {
    if |pts| < 2 then 0.0
    else
      var a, b := pts[|pts| - 2], pts[|pts| - 1];
      PolylineLength(pts[..|pts| - 1], hypot) + hypot(b.x - a.x, b.y - a.y)
  }

  /** A two-point polyline is as long as its one segment. */
  lemma PolylineLengthSegment(a: Point, b: Point, hypot: Hypot)
    ensures PolylineLength([a, b], hypot) == hypot(b.x - a.x, b.y - a.y)
  {
    assert [a, b][..1] == [a];
  }
}
