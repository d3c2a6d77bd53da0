/** Jumper synthesis (`buildPartLinks` in src/link/fn.js): every part of a
    component gets a straight link between the two attach points of its
    wires that lie farthest apart. */
module PartLinks {
  import opened Wrappers
  import opened Geometry
  import opened Ids
  import opened Drawing
  import opened GridIndex

  /** A strictly positive tolerance: the intersection routine divides by a
      cross product it only knows to be at least `eps` in size, and the
      rounding of attach points divides by `eps`. */
  type PosTol = e: real | e > 0.0 witness 150.0

  // ---------------------------------------------------------------------
  // Small geometry
  // ---------------------------------------------------------------------

  /** `dist2`: the squared distance. */
  function Dist2(a: Point, b: Point): (r: real)
    ensures r >= 0.0
  {
    var dx, dy := a.x - b.x, a.y - b.y;
    Square(dx);
    Square(dy);
    dx * dx + dy * dy
  }

  lemma Square(x: real)
    ensures x * x >= 0.0
  {
    if x < 0.0 {
      var y := -x;
      assert y * y > 0.0;
      assert x * x == y * y;
    }
  }

  lemma Dist2Symmetric(a: Point, b: Point)
    ensures Dist2(a, b) == Dist2(b, a)
  {
    assert (a.x - b.x) * (a.x - b.x) == (b.x - a.x) * (b.x - a.x);
    assert (a.y - b.y) * (a.y - b.y) == (b.y - a.y) * (b.y - a.y);
  }

  /** `rectEdges`: the four sides of a box as a closed loop through its
      corners, counter-clockwise from (minX, minY). */
  function RectEdges(b: Rect): (r: seq<(Point, Point)>)
    ensures |r| == 4
    ensures r[0].1 == r[1].0 && r[1].1 == r[2].0 && r[2].1 == r[3].0 && r[3].1 == r[0].0
    ensures r[0].0 == Point(b.minX, b.minY) && r[1].0 == Point(b.maxX, b.minY)
    ensures r[2].0 == Point(b.maxX, b.maxY) && r[3].0 == Point(b.minX, b.maxY)
  {
    var (p1, p2, p3, p4) := Corners(b);
    [(p1, p2), (p2, p3), (p3, p4), (p4, p1)]
  }

  function Sub(a: Point, b: Point): Point { Point(a.x - b.x, a.y - b.y) }

  /** The two-dimensional cross product of two vectors. */
  function Det(r: Point, s: Point): real { r.x * s.y - r.y * s.x }

  /** A line parameter within `eps` of the unit interval. */
  predicate NearUnit(t: real, eps: real) {
    0.0 - eps <= t <= 1.0 + eps
  }

  /** `segmentIntersectionPoint`: where segment a-b meets segment c-d, both
      parameters allowed `eps` beyond their ends; `None` for lines that are
      parallel within `eps`. */
  function SegmentIntersectionPoint(a: Point, b: Point, c: Point, d: Point, eps: PosTol): Option<Point> {
    var r, s := Sub(b, a), Sub(d, c);
    var rxs := Det(r, s);
    var qp := Sub(c, a);
    if Abs(rxs) < eps then None
    else
      var t := Det(qp, s) / rxs;
      var u := Det(qp, r) / rxs;
      if !NearUnit(t, eps) || !NearUnit(u, eps) then None
      else Some(Along(a, b, t))
  }

  /** The point at parameter `t` along a-b. */
  function Along(a: Point, b: Point, t: real): Point {
    Point(a.x + t * (b.x - a.x), a.y + t * (b.y - a.y))
  }

  /** The point of a non-parallel pair of lines satisfies both line equations. */
  lemma CrossingOnBothLines(a: Point, b: Point, c: Point, d: Point)
    requires Det(Sub(b, a), Sub(d, c)) != 0.0
    ensures var rxs := Det(Sub(b, a), Sub(d, c));
            Along(a, b, Det(Sub(c, a), Sub(d, c)) / rxs) == Along(c, d, Det(Sub(c, a), Sub(b, a)) / rxs)
  {
    var r, s, qp := Sub(b, a), Sub(d, c), Sub(c, a);
    var rxs := Det(r, s);
    var t, u := Det(qp, s) / rxs, Det(qp, r) / rxs;
    assert t * rxs == Det(qp, s) && u * rxs == Det(qp, r);
    CrossComponents(t, u, r.x, r.y, s.x, s.y, qp.x, qp.y);
    CancelNonZero(t * r.x - u * s.x, qp.x, rxs);
    CancelNonZero(t * r.y - u * s.y, qp.y, rxs);
  }

  /** The two line equations, scaled by the cross product `D` of the
      directions, hold for the parameters `t` and `u` found by Cramer's rule. */
  lemma CrossComponents(t: real, u: real, rx: real, ry: real, sx: real, sy: real, qx: real, qy: real)
    requires t * (rx * sy - ry * sx) == qx * sy - qy * sx
    requires u * (rx * sy - ry * sx) == qx * ry - qy * rx
    ensures (t * rx - u * sx) * (rx * sy - ry * sx) == qx * (rx * sy - ry * sx)
    ensures (t * ry - u * sy) * (rx * sy - ry * sx) == qy * (rx * sy - ry * sx)
  {
    var D := rx * sy - ry * sx;
    calc {
      (t * rx - u * sx) * D;
      (t * D) * rx - (u * D) * sx;
      (qx * sy - qy * sx) * rx - (qx * ry - qy * rx) * sx;
      qx * D;
    }
    calc {
      (t * ry - u * sy) * D;
      (t * D) * ry - (u * D) * sy;
      (qx * sy - qy * sx) * ry - (qx * ry - qy * rx) * sy;
      qy * D;
    }
  }

  lemma CancelNonZero(x: real, y: real, z: real)
    requires z != 0.0 && x * z == y * z
    ensures x == y
  {
    assert (x - y) * z == 0.0;
  }

  /** What an intersection point is: a point on both segments' lines, at
      parameters within `eps` of [0, 1], for lines that are at least `eps`
      away from parallel; and every such crossing is found. */
  lemma SegmentIntersectionPointSpec(a: Point, b: Point, c: Point, d: Point, eps: PosTol)
    ensures match SegmentIntersectionPoint(a, b, c, d, eps)
      case None => Abs(Det(Sub(b, a), Sub(d, c))) < eps ||
                   forall t, u :: Along(a, b, t) == Along(c, d, u) ==> !NearUnit(t, eps) || !NearUnit(u, eps)
      case Some(p) => Abs(Det(Sub(b, a), Sub(d, c))) >= eps &&
                      exists t, u :: NearUnit(t, eps) && NearUnit(u, eps) &&
                                     p == Along(a, b, t) && Along(a, b, t) == Along(c, d, u)
  {
    var r, s, qp := Sub(b, a), Sub(d, c), Sub(c, a);
    var rxs := Det(r, s);
    if Abs(rxs) >= eps {
      var t, u := Det(qp, s) / rxs, Det(qp, r) / rxs;
      assert Along(a, b, t) == Along(c, d, u) by {
        CrossingOnBothLines(a, b, c, d);
      }
      if !(NearUnit(t, eps) && NearUnit(u, eps)) {
        forall t', u' | Along(a, b, t') == Along(c, d, u') ensures !NearUnit(t', eps) || !NearUnit(u', eps) {
          CrossingUnique(a, b, c, d, t', u');
        }
      }
    }
  }

  /** Non-parallel lines cross at one pair of parameters only. */
  lemma CrossingUnique(a: Point, b: Point, c: Point, d: Point, t: real, u: real)
    requires Det(Sub(b, a), Sub(d, c)) != 0.0
    requires Along(a, b, t) == Along(c, d, u)
    ensures t == Det(Sub(c, a), Sub(d, c)) / Det(Sub(b, a), Sub(d, c))
    ensures u == Det(Sub(c, a), Sub(b, a)) / Det(Sub(b, a), Sub(d, c))
  {
    var r, s, qp := Sub(b, a), Sub(d, c), Sub(c, a);
    var rxs := Det(r, s);
    assert t * r.x - u * s.x == qp.x && t * r.y - u * s.y == qp.y;
    SolvedComponents(t, u, r.x, r.y, s.x, s.y, qp.x, qp.y);
    QuotientOf(t, Det(qp, s), rxs);
    QuotientOf(u, Det(qp, r), rxs);
  }

  /** Parameters that satisfy both line equations solve Cramer's rule. */
  lemma SolvedComponents(t: real, u: real, rx: real, ry: real, sx: real, sy: real, qx: real, qy: real)
    requires t * rx - u * sx == qx && t * ry - u * sy == qy
    ensures t * (rx * sy - ry * sx) == qx * sy - qy * sx
    ensures u * (rx * sy - ry * sx) == qx * ry - qy * rx
  {
    calc {
      qx * sy - qy * sx;
      (t * rx - u * sx) * sy - (t * ry - u * sy) * sx;
      t * (rx * sy - ry * sx);
    }
    calc {
      qx * ry - qy * rx;
      (t * rx - u * sx) * ry - (t * ry - u * sy) * rx;
      u * (rx * sy - ry * sx);
    }
  }

  lemma QuotientOf(x: real, y: real, z: real)
    requires z != 0.0 && x * z == y
    ensures x == y / z
  {
  }

  // ---------------------------------------------------------------------
  // Attach point of one wire on one part
  // ---------------------------------------------------------------------

  /** How a segment meets an edge: at one point or not at all. */
  type Meet = ((Point, Point), (Point, Point)) -> Option<Point>

  /** The crossing test the attach-point search uses. */
  function Crossing(eps: PosTol): Meet {
    (s: (Point, Point), e: (Point, Point)) => SegmentIntersectionPoint(s.0, s.1, e.0, e.1, eps)
  }

  /** The points where one segment meets a list of edges, in order. */
  function SegHits(seg: (Point, Point), edges: seq<(Point, Point)>, meet: Meet): seq<Point>
  {
    if edges == [] then []
    else
      SegHits(seg, edges[..|edges| - 1], meet) +
        match meet(seg, edges[|edges| - 1])
        case None => []
        case Some(p) => [p]
  }

  /** The points where every segment meets every edge, segment by segment,
      in the order the nested loops of `pickWireAttachPointToRect` meet them. */
  function Hits(segs: seq<(Point, Point)>, edges: seq<(Point, Point)>, meet: Meet): seq<Point>
  {
    if segs == [] then []
    else Hits(segs[..|segs| - 1], edges, meet) + SegHits(segs[|segs| - 1], edges, meet)
  }

  /** Every point in `SegHits` is where the segment meets one of the edges. */
  lemma {:induction false} SegHitsSound(seg: (Point, Point), edges: seq<(Point, Point)>, meet: Meet, p: Point)
    returns (j: nat)
    requires p in SegHits(seg, edges, meet)
    ensures j < |edges| && meet(seg, edges[j]) == Some(p)
    decreases |edges|
  {
    var n := |edges| - 1;
    if p in SegHits(seg, edges[..n], meet) {
      j := SegHitsSound(seg, edges[..n], meet, p);
      assert edges[..n][j] == edges[j];
    } else {
      j := n;
    }
  }

  /** Every point where the segment meets one of the edges is in `SegHits`. */
  lemma {:induction false} SegHitsComplete(seg: (Point, Point), edges: seq<(Point, Point)>, meet: Meet, p: Point, j: nat)
    requires j < |edges| && meet(seg, edges[j]) == Some(p)
    ensures p in SegHits(seg, edges, meet)
    decreases |edges|
  {
    var n := |edges| - 1;
    if j < n {
      assert edges[..n][j] == edges[j];
      SegHitsComplete(seg, edges[..n], meet, p, j);
    }
  }

  /** Every hit is where some segment meets some edge. */
  lemma {:induction false} HitsSound(segs: seq<(Point, Point)>, edges: seq<(Point, Point)>, meet: Meet, p: Point)
    returns (i: nat, j: nat)
    requires p in Hits(segs, edges, meet)
    ensures i < |segs| && j < |edges| && meet(segs[i], edges[j]) == Some(p)
    decreases |segs|
  {
    var n := |segs| - 1;
    if p in Hits(segs[..n], edges, meet) {
      i, j := HitsSound(segs[..n], edges, meet, p);
      assert segs[..n][i] == segs[i];
    } else {
      i := n;
      j := SegHitsSound(segs[n], edges, meet, p);
    }
  }

  /** Every point where some segment meets some edge is a hit. */
  lemma {:induction false} HitsComplete(segs: seq<(Point, Point)>, edges: seq<(Point, Point)>, meet: Meet, p: Point, i: nat, j: nat)
    requires i < |segs| && j < |edges| && meet(segs[i], edges[j]) == Some(p)
    ensures p in Hits(segs, edges, meet)
    decreases |segs|
  {
    var n := |segs| - 1;
    assert Hits(segs, edges, meet) == Hits(segs[..n], edges, meet) + SegHits(segs[n], edges, meet);
    if i < n {
      assert p in Hits(segs[..n], edges, meet) by {
        assert segs[..n][i] == segs[i];
        HitsComplete(segs[..n], edges, meet, p, i, j);
      }
    } else {
      assert p in SegHits(segs[n], edges, meet) by {
        SegHitsComplete(segs[n], edges, meet, p, j);
      }
    }
  }

  /** How far a candidate attach point is from the nearer end of the wire. */
  function EndDist(p: Point, head: Point, tail: Point): real {
    Min(Dist2(p, head), Dist2(p, tail))
  }

  /** The index of the first candidate nearest to an end of the wire: a later
      candidate replaces the best only when strictly nearer. */
  function NearestIndex(hits: seq<Point>, head: Point, tail: Point): (k: nat)
    requires hits != []
    ensures k < |hits|
    ensures forall m :: 0 <= m < |hits| ==> EndDist(hits[k], head, tail) <= EndDist(hits[m], head, tail)
    ensures forall m :: 0 <= m < k ==> EndDist(hits[k], head, tail) < EndDist(hits[m], head, tail)
  {
    if |hits| == 1 then 0
    else
      var n := |hits| - 1;
      var k := NearestIndex(hits[..n], head, tail);
      assert forall m :: 0 <= m < n ==> hits[..n][m] == hits[m];
      if EndDist(hits[n], head, tail) < EndDist(hits[k], head, tail) then n else k
  }

  /** `pickWireAttachPointToRect`: the attach point of a wire on a part is an
      end of the wire lying in the grown part box (the head first), else the
      first crossing of the wire with a side of the box that is nearest to an
      end of the wire; `None` for a part without points, a wire of fewer than
      two points, or a wire that crosses no side. */
  function AttachPoint(wire: seq<Point>, rect: seq<Point>, eps: PosTol): Option<Point> {
    match BBox(rect)
    case None => None
    case Some(rb) =>
      if |wire| < 2 then None
      else
        var head, tail := wire[0], wire[|wire| - 1];
        if InRectEps(head, rb, eps) then Some(head)
        else if InRectEps(tail, rb, eps) then Some(tail)
        else
          Nearest(Hits(PolylineSegments(wire), RectEdges(rb), Crossing(eps)), head, tail)
  }

  /** The first candidate nearest to an end of the wire, if any. */
  function Nearest(hits: seq<Point>, head: Point, tail: Point): Option<Point> {
    if hits == [] then None else Some(hits[NearestIndex(hits, head, tail)])
  }

  /** The attach point is an end of the wire in the grown box or a crossing of
      the wire with a side of the box. */
  lemma AttachPointSpec(wire: seq<Point>, rect: seq<Point>, eps: PosTol)
    requires AttachPoint(wire, rect, eps).Some?
    ensures BBox(rect).Some? && |wire| >= 2
    ensures var p := AttachPoint(wire, rect, eps).value;
            var rb := BBox(rect).value;
            || (p == wire[0] && InRectEps(p, rb, eps))
            || (p == wire[|wire| - 1] && InRectEps(p, rb, eps))
            || exists i, j :: 0 <= i < |wire| - 1 && 0 <= j < 4 &&
                 SegmentIntersectionPoint(wire[i], wire[i + 1], RectEdges(rb)[j].0, RectEdges(rb)[j].1, eps) == Some(p)
  {
    var p := AttachPoint(wire, rect, eps).value;
    var rb := BBox(rect).value;
    var segs := PolylineSegments(wire);
    if !InRectEps(wire[0], rb, eps) && !InRectEps(wire[|wire| - 1], rb, eps) {
      var hits := Hits(segs, RectEdges(rb), Crossing(eps));
      assert p == hits[NearestIndex(hits, wire[0], wire[|wire| - 1])];
      var i, j := HitsSound(segs, RectEdges(rb), Crossing(eps), p);
      assert segs[i] == (wire[i], wire[i + 1]);
    }
  }

  /** `best` is the first nearest of the candidates `seen`, `bestD` its distance. */
  predicate Tracks(best: Option<Point>, bestD: real, seen: seq<Point>, head: Point, tail: Point) {
    && (best.None? <==> seen == [])
    && (best.Some? ==> best == Some(seen[NearestIndex(seen, head, tail)]) && bestD == EndDist(best.value, head, tail))
  }

  /** One side of the inner loop: a crossing replaces the best only when
      strictly nearer to an end of the wire. */
  method Consider(best0: Option<Point>, bestD0: real, ghost seen0: seq<Point>, head: Point, tail: Point, ip: Option<Point>)
    returns (best: Option<Point>, bestD: real, ghost seen: seq<Point>)
    requires Tracks(best0, bestD0, seen0, head, tail)
    ensures seen == seen0 + match ip case None => [] case Some(p) => [p]
    ensures Tracks(best, bestD, seen, head, tail)
  {
    best, bestD, seen := best0, bestD0, seen0;
    if ip.Some? {
      var dmin := Min(Dist2(ip.value, head), Dist2(ip.value, tail));
      NearStep(best, bestD, seen, head, tail, ip.value);
      if best.None? || dmin < bestD {
        bestD := dmin;
        best := ip;
      }
      seen := seen + [ip.value];
    }
  }

  /** Comparing one more candidate keeps `best` the first nearest seen. */
  lemma NearStep(best: Option<Point>, bestD: real, seen: seq<Point>, head: Point, tail: Point, x: Point)
    requires Tracks(best, bestD, seen, head, tail)
    ensures var dx := EndDist(x, head, tail);
            Tracks(if best.None? || dx < bestD then Some(x) else best, if best.None? || dx < bestD then dx else bestD,
                   seen + [x], head, tail)
  {
    assert (seen + [x])[..|seen|] == seen;
  }

  /** Extending the scanned prefix by one side appends that side's crossing. */
  lemma SegHitsPrefix(seg: (Point, Point), edges: seq<(Point, Point)>, meet: Meet, j: nat)
    requires j < |edges|
    ensures SegHits(seg, edges[..j + 1], meet) ==
            SegHits(seg, edges[..j], meet) + match meet(seg, edges[j]) case None => [] case Some(p) => [p]
  {
    assert edges[..j + 1][..j] == edges[..j];
  }

  /** The inner loop of `pickWireAttachPointToRect`: one segment against every side. */
  method ScanEdges(seg: (Point, Point), edges: seq<(Point, Point)>, meet: Meet, head: Point, tail: Point,
                   best0: Option<Point>, bestD0: real, ghost seen0: seq<Point>)
    returns (best: Option<Point>, bestD: real, ghost seen: seq<Point>)
    requires Tracks(best0, bestD0, seen0, head, tail)
    ensures seen == seen0 + SegHits(seg, edges, meet)
    ensures Tracks(best, bestD, seen, head, tail)
  {
    best, bestD, seen := best0, bestD0, seen0;
    for j := 0 to |edges|
      invariant seen == seen0 + SegHits(seg, edges[..j], meet)
      invariant Tracks(best, bestD, seen, head, tail)
    {
      var ip := meet(seg, edges[j]);
      SegHitsPrefix(seg, edges, meet, j);
      best, bestD, seen := Consider(best, bestD, seen, head, tail, ip);
      AppendAssoc(seen0, SegHits(seg, edges[..j], meet), match ip case None => [] case Some(p) => [p]);
    }
    assert edges[..|edges|] == edges;
  }

  /** `pickWireAttachPointToRect`: every segment against every side, keeping
      the first strictly nearest crossing. */
  method PickWireAttachPoint(wire: seq<Point>, rect: seq<Point>, eps: PosTol) returns (r: Option<Point>)
    ensures r == AttachPoint(wire, rect, eps)
  {
    var rb := RectFromPoints(LiftAll(rect));
    if rb.None? {
      return None;
    }
    if |wire| < 2 {
      return None;
    }
    var head, tail := wire[0], wire[|wire| - 1];
    if InRectEps(head, rb.value, eps) {
      return Some(head);
    }
    if InRectEps(tail, rb.value, eps) {
      return Some(tail);
    }
    r := NearestCrossing(PolylineSegments(wire), RectEdges(rb.value), Crossing(eps), head, tail);
  }

  /** The outer loop of `pickWireAttachPointToRect`: every segment against
      every side, keeping the first strictly nearest crossing. */
  method NearestCrossing(segs: seq<(Point, Point)>, edges: seq<(Point, Point)>, meet: Meet, head: Point, tail: Point)
    returns (best: Option<Point>)
    ensures best == Nearest(Hits(segs, edges, meet), head, tail)
  {
    best := None;
    var bestD := 0.0;
    ghost var seen: seq<Point> := [];
    for i := 0 to |segs|
      invariant seen == Hits(segs[..i], edges, meet)
      invariant Tracks(best, bestD, seen, head, tail)
    {
      assert segs[..i + 1][..i] == segs[..i];
      best, bestD, seen := ScanEdges(segs[i], edges, meet, head, tail, best, bestD, seen);
    }
    assert segs[..|segs|] == segs;
  }

  // ---------------------------------------------------------------------
  // De-duplication of attach points
  // ---------------------------------------------------------------------

  /** An attach point of a wire on a part. */
  datatype Attach = Attach(wire: nat, at: Point)

  /** `Math.round`: the nearest integer, halves rounded up. */
  function Round(v: real): int {
    (v + 0.5).Floor
  }

  /** The grid cell of side `eps` an attach point is rounded to. */
  function Key(a: Attach, eps: PosTol): (int, int) {
    (Round(a.at.x / eps), Round(a.at.y / eps))
  }

  function KeysOf(s: seq<Attach>, eps: PosTol): set<(int, int)> {
    set k | 0 <= k < |s| :: Key(s[k], eps)
  }

  /** `uniq` in `buildPartLinks`: the attach points, each dropped when an
      earlier kept one rounds to the same cell. */
  function UniqOf(s: seq<Attach>, eps: PosTol): seq<Attach> {
    if s == [] then []
    else
      var u := UniqOf(s[..|s| - 1], eps);
      if Key(s[|s| - 1], eps) in KeysOf(u, eps) then u else u + [s[|s| - 1]]
  }

  lemma KeysOfSnoc(s: seq<Attach>, a: Attach, eps: PosTol)
    ensures KeysOf(s + [a], eps) == KeysOf(s, eps) + {Key(a, eps)}
  {
    var t := s + [a];
    forall key | key in KeysOf(t, eps) ensures key in KeysOf(s, eps) + {Key(a, eps)} {
      var k :| 0 <= k < |t| && Key(t[k], eps) == key;
      if k < |s| { assert t[k] == s[k]; }
    }
    forall key | key in KeysOf(s, eps) ensures key in KeysOf(t, eps) {
      var k :| 0 <= k < |s| && Key(s[k], eps) == key;
      assert t[k] == s[k];
    }
    assert t[|s|] == a;
  }

  /** The kept points round to pairwise different cells, cover every cell
      the input rounds to, and all come from the input. */
  lemma {:induction false} UniqSpec(s: seq<Attach>, eps: PosTol)
    ensures var u := UniqOf(s, eps);
            && (forall i, j :: 0 <= i < j < |u| ==> Key(u[i], eps) != Key(u[j], eps))
            && KeysOf(u, eps) == KeysOf(s, eps)
            && (forall i :: 0 <= i < |u| ==> u[i] in s)
    decreases |s|
  {
    if s != [] {
      var n := |s| - 1;
      var s0 := s[..n];
      UniqSpec(s0, eps);
      var u0 := UniqOf(s0, eps);
      assert s == s0 + [s[n]];
      KeysOfSnoc(s0, s[n], eps);
      forall i | 0 <= i < |u0| ensures u0[i] in s {
        assert u0[i] in s0;
      }
      if Key(s[n], eps) !in KeysOf(u0, eps) {
        var u := u0 + [s[n]];
        KeysOfSnoc(u0, s[n], eps);
        forall i, j | 0 <= i < j < |u| ensures Key(u[i], eps) != Key(u[j], eps) {
          if j == n || j == |u0| {
            assert u[i] == u0[i];
          } else {
            assert u[i] == u0[i] && u[j] == u0[j];
          }
        }
        forall i | 0 <= i < |u| ensures u[i] in s {
          if i < |u0| { assert u[i] == u0[i]; }
        }
      }
    }
  }

  /** The de-duplication loop, with the set of cells seen so far. */
  method Uniq(attaches: seq<Attach>, eps: PosTol) returns (uniq: seq<Attach>)
    ensures uniq == UniqOf(attaches, eps)
  {
    uniq := [];
    var seen: set<(int, int)> := {};
    for i := 0 to |attaches|
      invariant uniq == UniqOf(attaches[..i], eps)
      invariant seen == KeysOf(uniq, eps)
    {
      var a := attaches[i];
      var k := (Round(a.at.x / eps), Round(a.at.y / eps));
      assert attaches[..i + 1][..i] == attaches[..i];
      if k !in seen {
        KeysOfSnoc(uniq, a, eps);
        seen := seen + {k};
        uniq := uniq + [Attach(a.wire, a.at)];
      }
    }
    assert attaches[..|attaches|] == attaches;
  }

  // ---------------------------------------------------------------------
  // The farthest pair
  // ---------------------------------------------------------------------

  /** Lexicographic order of index pairs: the order the nested loops visit them. */
  predicate Before(p: (nat, nat), q: (nat, nat)) {
    p.0 < q.0 || (p.0 == q.0 && p.1 < q.1)
  }

  /** The pairs (i, m) for i < m < j. */
  function Row(i: nat, j: nat): seq<(nat, nat)>
    decreases j
  {
    if j <= i + 1 then [] else Row(i, j - 1) + [(i, j - 1)]
  }

  lemma {:induction false} RowSpec(i: nat, j: nat)
    ensures |Row(i, j)| == if j > i then j - i - 1 else 0
    ensures forall k :: 0 <= k < |Row(i, j)| ==> Row(i, j)[k] == (i, i + 1 + k)
    decreases j
  {
    if j > i + 1 {
      RowSpec(i, j - 1);
      var r0 := Row(i, j - 1);
      assert forall k :: 0 <= k < |r0| ==> (r0 + [(i, j - 1)])[k] == r0[k];
    }
  }

  lemma RowSnoc(s: seq<(nat, nat)>, i: nat, j: nat, x: (nat, nat))
    requires j >= i + 1 && x == (i, j)
    ensures s + Row(i, j + 1) == (s + Row(i, j)) + [x]
  {
    assert Row(i, j + 1) == Row(i, j) + [x];
  }

  /** The pairs (a, b) for a < i and a < b < n, row by row. */
  function Rows(i: nat, n: nat): seq<(nat, nat)> {
    if i == 0 then [] else Rows(i - 1, n) + Row(i - 1, n)
  }

  /** Every index pair a < b < n, in the order of the nested loops. */
  function Pairs(n: nat): seq<(nat, nat)> {
    Rows(n, n)
  }

  predicate PairsBelow(prs: seq<(nat, nat)>, n: nat) {
    forall k :: 0 <= k < |prs| ==> prs[k].0 < prs[k].1 < n
  }

  lemma {:induction false} RowsBelow(i: nat, n: nat)
    ensures forall k :: 0 <= k < |Rows(i, n)| ==> Rows(i, n)[k].0 < i && Rows(i, n)[k].0 < Rows(i, n)[k].1 < n
  {
    if i > 0 {
      RowsBelow(i - 1, n);
      RowSpec(i - 1, n);
      var r0, row := Rows(i - 1, n), Row(i - 1, n);
      var r := r0 + row;
      forall k | 0 <= k < |r| ensures r[k].0 < i && r[k].0 < r[k].1 < n {
        if k >= |r0| { assert r[k] == row[k - |r0|]; } else { assert r[k] == r0[k]; }
      }
    }
  }

  lemma {:induction false} RowsSorted(i: nat, n: nat)
    ensures forall a, b :: 0 <= a < b < |Rows(i, n)| ==> Before(Rows(i, n)[a], Rows(i, n)[b])
  {
    if i > 0 {
      RowsSorted(i - 1, n);
      RowsBelow(i - 1, n);
      RowSpec(i - 1, n);
      var r0, row := Rows(i - 1, n), Row(i - 1, n);
      var r := r0 + row;
      forall a, b | 0 <= a < b < |r| ensures Before(r[a], r[b]) {
        if b < |r0| {
          assert r[a] == r0[a] && r[b] == r0[b];
        } else if a < |r0| {
          assert r[a] == r0[a] && r[b] == row[b - |r0|];
        } else {
          assert r[a] == row[a - |r0|] && r[b] == row[b - |r0|];
        }
      }
    }
  }

  lemma {:induction false} RowsComplete(i: nat, n: nat, p: nat, q: nat)
    requires p < i && p < q < n
    ensures (p, q) in Rows(i, n)
  {
    var r0, row := Rows(i - 1, n), Row(i - 1, n);
    RowSpec(i - 1, n);
    if p < i - 1 {
      RowsComplete(i - 1, n, p, q);
    } else {
      assert row[q - i] == (p, q);
      assert (r0 + row)[|r0| + q - i] == (p, q);
    }
  }

  lemma PairsSpec(n: nat)
    ensures PairsBelow(Pairs(n), n)
    ensures forall a, b :: 0 <= a < b < |Pairs(n)| ==> Before(Pairs(n)[a], Pairs(n)[b])
    ensures forall p: nat, q: nat :: p < q < n ==> (p, q) in Pairs(n)
    ensures Pairs(n) == [] <==> n < 2
  {
    RowsBelow(n, n);
    RowsSorted(n, n);
    forall p: nat, q: nat | p < q < n ensures (p, q) in Pairs(n) {
      RowsComplete(n, n, p, q);
    }
    if n >= 2 {
      assert (0, 1) in Pairs(n);
    }
    if Pairs(n) != [] {
      assert Pairs(n)[0].1 < n;
    }
  }

  /** The index of the first pair of points farthest apart: a later pair
      replaces the best only when strictly farther. */
  function FarthestIndex(prs: seq<(nat, nat)>, pts: seq<Point>): (k: nat)
    requires prs != [] && PairsBelow(prs, |pts|)
    ensures k < |prs|
  {
    if |prs| == 1 then 0
    else
      var n := |prs| - 1;
      assert forall m :: 0 <= m < n ==> prs[..n][m] == prs[m];
      var k := FarthestIndex(prs[..n], pts);
      if Dist2(pts[prs[n].0], pts[prs[n].1]) > Dist2(pts[prs[k].0], pts[prs[k].1]) then n else k
  }

  /** The pair at `FarthestIndex` is at least as far apart as every pair and
      strictly farther than every earlier one. */
  lemma {:induction false} FarthestIndexSpec(prs: seq<(nat, nat)>, pts: seq<Point>)
    requires prs != [] && PairsBelow(prs, |pts|)
    ensures var k := FarthestIndex(prs, pts);
            && (forall m :: 0 <= m < |prs| ==>
                  Dist2(pts[prs[m].0], pts[prs[m].1]) <= Dist2(pts[prs[k].0], pts[prs[k].1]))
            && (forall m :: 0 <= m < k ==>
                  Dist2(pts[prs[m].0], pts[prs[m].1]) < Dist2(pts[prs[k].0], pts[prs[k].1]))
    decreases |prs|
  {
    if |prs| > 1 {
      var n := |prs| - 1;
      var p0 := prs[..n];
      assert forall m :: 0 <= m < n ==> p0[m] == prs[m];
      FarthestIndexSpec(p0, pts);
    }
  }

  /** One more pair: it becomes the best exactly when strictly farther. */
  lemma FarthestSnoc(prs: seq<(nat, nat)>, x: (nat, nat), pts: seq<Point>)
    requires PairsBelow(prs + [x], |pts|)
    ensures PairsBelow(prs, |pts|) && x.0 < x.1 < |pts|
    ensures prs == [] ==> FarthestIndex(prs + [x], pts) == 0
    ensures prs != [] ==>
              var k := FarthestIndex(prs, pts);
              FarthestIndex(prs + [x], pts) ==
                if Dist2(pts[x.0], pts[x.1]) > Dist2(pts[prs[k].0], pts[prs[k].1]) then |prs| else k
  {
    var t := prs + [x];
    assert t[..|prs|] == prs && t[|prs|] == x;
    assert forall k :: 0 <= k < |prs| ==> t[k] == prs[k];
  }

  /** `pickFarthestPair`, as the index pair it picks. */
  function Farthest(pts: seq<Point>): (r: Option<(nat, nat)>)
    ensures r.Some? ==> r.value.0 < r.value.1 < |pts|
  {
    PairsSpec(|pts|);
    var prs := Pairs(|pts|);
    if prs == [] then None else Some(prs[FarthestIndex(prs, pts)])
  }

  /** The picked pair is farthest apart of all pairs, and the first such in
      the loops' order; there is none for fewer than two points. */
  lemma FarthestSpec(pts: seq<Point>)
    ensures Farthest(pts).None? <==> |pts| < 2
    ensures Farthest(pts).Some? ==>
              var (i, j) := Farthest(pts).value;
              && i < j < |pts|
              && (forall a: nat, b: nat :: a < b < |pts| ==> Dist2(pts[a], pts[b]) <= Dist2(pts[i], pts[j]))
              && (forall a: nat, b: nat :: a < b < |pts| && Before((a, b), (i, j)) ==> Dist2(pts[a], pts[b]) < Dist2(pts[i], pts[j]))
  {
    PairsSpec(|pts|);
    var prs := Pairs(|pts|);
    if prs != [] {
      FarthestIndexSpec(prs, pts);
      var k := FarthestIndex(prs, pts);
      var (i, j) := prs[k];
      forall a: nat, b: nat | a < b < |pts| ensures Dist2(pts[a], pts[b]) <= Dist2(pts[i], pts[j]) {
        var m :| 0 <= m < |prs| && prs[m] == (a, b);
      }
      forall a: nat, b: nat | a < b < |pts| && Before((a, b), (i, j)) ensures Dist2(pts[a], pts[b]) < Dist2(pts[i], pts[j]) {
        var m :| 0 <= m < |prs| && prs[m] == (a, b);
        SortedBefore(prs, m, k);
      }
    }
  }

  /** In a list sorted by `Before`, an entry before another sits at a
      smaller position. */
  lemma SortedBefore(prs: seq<(nat, nat)>, m: nat, k: nat)
    requires forall a, b :: 0 <= a < b < |prs| ==> Before(prs[a], prs[b])
    requires m < |prs| && k < |prs| && Before(prs[m], prs[k])
    ensures m < k
  {
    if k < m {
      assert false;
    }
  }

  /** `best` is the first farthest of the pairs `seen`, `bestD` its squared
      distance, and -1 before any pair. */
  predicate TracksFar(best: Option<(nat, nat)>, bestD: real, seen: seq<(nat, nat)>, pts: seq<Point>) {
    && PairsBelow(seen, |pts|)
    && (best.None? <==> seen == [])
    && (best.None? ==> bestD == -1.0)
    && (best.Some? ==> best == Some(seen[FarthestIndex(seen, pts)]) &&
                       bestD == Dist2(pts[best.value.0], pts[best.value.1]))
  }

  /** The inner loop of `pickFarthestPair`: the pairs (i, j) for j > i. */
  method ScanRow(pts: seq<Point>, i: nat, best0: Option<(nat, nat)>, bestD0: real, ghost seen0: seq<(nat, nat)>)
    returns (best: Option<(nat, nat)>, bestD: real, ghost seen: seq<(nat, nat)>)
    requires i < |pts| && TracksFar(best0, bestD0, seen0, pts)
    ensures seen == seen0 + Row(i, |pts|)
    ensures TracksFar(best, bestD, seen, pts)
  {
    best, bestD, seen := best0, bestD0, seen0;
    var j := i + 1;
    while j < |pts|
      invariant i + 1 <= j <= |pts|
      invariant seen == seen0 + Row(i, j)
      invariant TracksFar(best, bestD, seen, pts)
    {
      var pair: (nat, nat) := (i, j);
      RowSnoc(seen0, i, j, pair);
      best, bestD, seen := ComparePair(best, bestD, seen, pts, pair);
      j := j + 1;
    }
  }

  /** One turn of the inner loop: the pair replaces the best only when
      strictly farther apart. */
  method ComparePair(best0: Option<(nat, nat)>, bestD0: real, ghost seen0: seq<(nat, nat)>, pts: seq<Point>, pair: (nat, nat))
    returns (best: Option<(nat, nat)>, bestD: real, ghost seen: seq<(nat, nat)>)
    requires TracksFar(best0, bestD0, seen0, pts) && pair.0 < pair.1 < |pts|
    ensures seen == seen0 + [pair]
    ensures TracksFar(best, bestD, seen, pts)
  {
    best, bestD, seen := best0, bestD0, seen0;
    var d := Dist2(pts[pair.0], pts[pair.1]);
    TracksStep(best, bestD, seen, pts, pair);
    if d > bestD {
      bestD := d;
      best := Some(pair);
    }
    seen := seen + [pair];
  }

  /** Comparing one more pair keeps `best` the first farthest pair seen. */
  lemma TracksStep(best: Option<(nat, nat)>, bestD: real, seen: seq<(nat, nat)>, pts: seq<Point>, pair: (nat, nat))
    requires TracksFar(best, bestD, seen, pts) && pair.0 < pair.1 < |pts|
    ensures var d := Dist2(pts[pair.0], pts[pair.1]);
            TracksFar(if d > bestD then Some(pair) else best, if d > bestD then d else bestD, seen + [pair], pts)
  {
    var next := seen + [pair];
    assert forall k :: 0 <= k < |seen| ==> next[k] == seen[k];
    assert PairsBelow(next, |pts|);
    FarthestSnoc(seen, pair, pts);
  }

  /** `pickFarthestPair`: both loops over i < j, keeping the first strictly
      farthest pair; the result is the pair of indices. */
  method PickFarthestPair(pts: seq<Point>) returns (best: Option<(nat, nat)>)
    ensures best == Farthest(pts)
  {
    if |pts| < 2 {
      PairsSpec(|pts|);
      return None;
    }
    best := None;
    var bestD := -1.0;
    ghost var seen: seq<(nat, nat)> := [];
    for i := 0 to |pts|
      invariant seen == Rows(i, |pts|)
      invariant TracksFar(best, bestD, seen, pts)
    {
      best, bestD, seen := ScanRow(pts, i, best, bestD, seen);
    }
  }

  // ---------------------------------------------------------------------
  // Links
  // ---------------------------------------------------------------------

  /** `polylineLength`: the running sum over consecutive point pairs. */
  method MeasurePolyline(pts: seq<Point>, hypot: Hypot) returns (len: real)
    ensures len == PolylineLength(pts, hypot)
  {
    len := 0.0;
    var i := 1;
    while i < |pts|
      invariant 1 <= i && (|pts| > 0 ==> i <= |pts|)
      invariant len == PolylineLength(pts[..if i <= |pts| then i else |pts|], hypot)
    {
      var a, b := pts[i - 1], pts[i];
      assert pts[..i + 1][..i] == pts[..i];
      len := len + hypot(b.x - a.x, b.y - a.y);
      i := i + 1;
    }
    if |pts| > 0 {
      assert pts[..i] == pts;
    }
  }

  /** A jumper across a part (the link object of `buildPartLinks`): its id,
      its two ends, the wires it joins, the part and its length. */
  datatype Link = Link(id: string, a: Point, b: Point, from: (nat, nat), part: NodeId, len: real)

  predicate WiresIn(d: Drawing, wires: seq<nat>) {
    forall k :: 0 <= k < |wires| ==> wires[k] < |d.wire|
  }

  predicate PartsIn(d: Drawing, parts: seq<NodeId>) {
    forall k :: 0 <= k < |parts| ==> parts[k].PartId? && ValidNode(d, parts[k])
  }

  /** The attach point wire `w` gives part `p`: present when the wire
      touches the part and has an attach point on it. */
  function WireAttach(d: Drawing, eps: PosTol, p: NodeId, w: nat): Option<Attach>
    requires ValidNode(d, p) && w < |d.wire|
  {
    if !PolylineIntersectsRect(d.wire[w], Pts(d, p), eps) then None
    else
      match AttachPoint(d.wire[w], Pts(d, p), eps)
      case None => None
      case Some(ap) => Some(Attach(w, ap))
  }

  /** `WireAttach` as a function of the wire alone. */
  function AttachRule(d: Drawing, eps: PosTol, p: NodeId): nat -> Option<Attach> {
    (w: nat) => if ValidNode(d, p) && w < |d.wire| then WireAttach(d, eps, p, w) else None
  }

  /** The values `f` gives the items of `ws`, in order, skipping the ones it
      gives none. */
  function Gathered<T>(f: nat -> Option<T>, ws: seq<nat>): seq<T> {
    if ws == [] then [] else Gathered(f, ws[..|ws| - 1]) + Opt(f(ws[|ws| - 1]))
  }

  /** Everything gathered comes from some item, and every item with a value
      contributes it. */
  lemma {:induction false} GatheredSpec<T>(f: nat -> Option<T>, ws: seq<nat>)
    ensures forall k :: 0 <= k < |Gathered(f, ws)| ==>
              exists j :: 0 <= j < |ws| && f(ws[j]) == Some(Gathered(f, ws)[k])
    ensures forall j :: 0 <= j < |ws| && f(ws[j]).Some? ==> f(ws[j]).value in Gathered(f, ws)
    decreases |ws|
  {
    if ws != [] {
      var n := |ws| - 1;
      var w0 := ws[..n];
      GatheredSpec(f, w0);
      var rest := Gathered(f, w0);
      var all := Gathered(f, ws);
      assert all == rest + Opt(f(ws[n]));
      forall k | 0 <= k < |all| ensures exists j :: 0 <= j < |ws| && f(ws[j]) == Some(all[k]) {
        if k < |rest| {
          assert all[k] == rest[k];
          var j :| 0 <= j < |w0| && f(w0[j]) == Some(rest[k]);
          assert w0[j] == ws[j];
        } else {
          assert f(ws[n]) == Some(all[k]);
        }
      }
      forall j | 0 <= j < |ws| && f(ws[j]).Some? ensures f(ws[j]).value in all {
        if j < n {
          assert w0[j] == ws[j];
          assert f(ws[j]).value in rest;
        } else {
          assert all[|rest|] == f(ws[n]).value;
        }
      }
    } else {
      assert Gathered(f, ws) == [];
    }
  }

  /** The attach points of the component's wires on part `p`, in wire order:
      one per wire that touches the part and has an attach point. */
  function Attaches(d: Drawing, eps: PosTol, wires: seq<nat>, p: NodeId): seq<Attach>
    requires ValidNode(d, p) && WiresIn(d, wires)
  {
    Gathered(AttachRule(d, eps, p), wires)
  }

  /** Each attach point comes from a wire of the list touching the part, and
      every such wire with an attach point contributes it. */
  lemma AttachesSpec(d: Drawing, eps: PosTol, wires: seq<nat>, p: NodeId)
    requires ValidNode(d, p) && WiresIn(d, wires)
    ensures forall k :: 0 <= k < |Attaches(d, eps, wires, p)| ==>
              var a := Attaches(d, eps, wires, p)[k];
              a.wire in wires && PolylineIntersectsRect(d.wire[a.wire], Pts(d, p), eps) &&
              AttachPoint(d.wire[a.wire], Pts(d, p), eps) == Some(a.at)
    ensures forall k :: 0 <= k < |wires| && PolylineIntersectsRect(d.wire[wires[k]], Pts(d, p), eps) &&
                        AttachPoint(d.wire[wires[k]], Pts(d, p), eps).Some? ==>
              Attach(wires[k], AttachPoint(d.wire[wires[k]], Pts(d, p), eps).value) in Attaches(d, eps, wires, p)
  {
    var f := AttachRule(d, eps, p);
    var all := Attaches(d, eps, wires, p);
    GatheredSpec(f, wires);
    forall k | 0 <= k < |all|
      ensures all[k].wire in wires && PolylineIntersectsRect(d.wire[all[k].wire], Pts(d, p), eps) &&
              AttachPoint(d.wire[all[k].wire], Pts(d, p), eps) == Some(all[k].at)
    {
      var j :| 0 <= j < |wires| && f(wires[j]) == Some(all[k]);
      assert WireAttach(d, eps, p, wires[j]) == Some(all[k]);
    }
    forall k | 0 <= k < |wires| && PolylineIntersectsRect(d.wire[wires[k]], Pts(d, p), eps) &&
               AttachPoint(d.wire[wires[k]], Pts(d, p), eps).Some?
      ensures Attach(wires[k], AttachPoint(d.wire[wires[k]], Pts(d, p), eps).value) in all
    {
      assert f(wires[k]) == WireAttach(d, eps, p, wires[k]);
    }
  }

  /** The positions of a list of attach points. */
  function AtPoints(s: seq<Attach>): (r: seq<Point>)
    ensures |r| == |s| && forall k :: 0 <= k < |s| ==> r[k] == s[k].at
  {
    seq(|s|, k requires 0 <= k < |s| => s[k].at)
  }

  /** No two attach points of the list round to the same cell. */
  ghost predicate DistinctKeys(u: seq<Attach>, eps: PosTol) {
    forall i, j :: 0 <= i < j < |u| ==> Key(u[i], eps) != Key(u[j], eps)
  }

  /** The two attach points of a list that are farthest apart. */
  function PairOf(u: seq<Attach>): Option<(Attach, Attach)> {
    match Farthest(AtPoints(u))
    case None => None
    case Some((i, j)) => Some((u[i], u[j]))
  }

  /** There is a pair exactly when the list has two attach points; both
      come from the list, no two of its points are farther apart, and on a
      list with distinct keys they round to different cells. */
  lemma PairOfSpec(u: seq<Attach>, eps: PosTol)
    ensures PairOf(u).None? <==> |u| < 2
    ensures PairOf(u).Some? ==>
              && PairOf(u).value.0 in u && PairOf(u).value.1 in u
              && (forall x, y :: 0 <= x < |u| && 0 <= y < |u| ==>
                    Dist2(u[x].at, u[y].at) <= Dist2(PairOf(u).value.0.at, PairOf(u).value.1.at))
              && (DistinctKeys(u, eps) ==> Key(PairOf(u).value.0, eps) != Key(PairOf(u).value.1, eps))
  {
    var pts := AtPoints(u);
    FarthestSpec(pts);
    if Farthest(pts).Some? {
      var (i, j) := Farthest(pts).value;
      var (a, b) := (u[i], u[j]);
      assert PairOf(u) == Some((a, b));
      forall x, y | 0 <= x < |u| && 0 <= y < |u| ensures Dist2(u[x].at, u[y].at) <= Dist2(a.at, b.at) {
        if x < y {
          assert Dist2(pts[x], pts[y]) <= Dist2(pts[i], pts[j]);
        } else if y < x {
          assert Dist2(pts[y], pts[x]) <= Dist2(pts[i], pts[j]);
          Dist2Symmetric(pts[x], pts[y]);
        } else {
          var c := u[x].at;
          assert c.x - c.x == 0.0 && c.y - c.y == 0.0;
          assert Dist2(c, c) == 0.0;
        }
      }
    }
  }

  /** The two attach points `buildPartLinks` joins on part `p`: the
      de-duplicated attach points farthest apart, or none when fewer than two
      remain. */
  function ChosenPair(d: Drawing, eps: PosTol, wires: seq<nat>, p: NodeId): Option<(Attach, Attach)>
    requires ValidNode(d, p) && WiresIn(d, wires)
  {
    PairOf(UniqOf(Attaches(d, eps, wires, p), eps))
  }

  /** The chosen ends come from two wires of the component touching the part,
      each at its attach point; they round to different cells, so they are
      distinct, and no two attach points left are farther apart; there is a
      pair exactly when at least two attach points remain. */
  lemma ChosenPairSpec(d: Drawing, eps: PosTol, wires: seq<nat>, p: NodeId)
    requires ValidNode(d, p) && WiresIn(d, wires)
    ensures ChosenPair(d, eps, wires, p).None? <==> |UniqOf(Attaches(d, eps, wires, p), eps)| < 2
    ensures ChosenPair(d, eps, wires, p).Some? ==>
              var (a, b) := ChosenPair(d, eps, wires, p).value;
              var u := UniqOf(Attaches(d, eps, wires, p), eps);
              && a.wire in wires && b.wire in wires
              && PolylineIntersectsRect(d.wire[a.wire], Pts(d, p), eps)
              && PolylineIntersectsRect(d.wire[b.wire], Pts(d, p), eps)
              && AttachPoint(d.wire[a.wire], Pts(d, p), eps) == Some(a.at)
              && AttachPoint(d.wire[b.wire], Pts(d, p), eps) == Some(b.at)
              && Key(a, eps) != Key(b, eps) && a.at != b.at
              && (forall x, y :: 0 <= x < |u| && 0 <= y < |u| ==> Dist2(u[x].at, u[y].at) <= Dist2(a.at, b.at))
  {
    var s := Attaches(d, eps, wires, p);
    var u := UniqOf(s, eps);
    assert DistinctKeys(u, eps) && forall i :: 0 <= i < |u| ==> u[i] in s by {
      UniqSpec(s, eps);
    }
    PairOfSpec(u, eps);
    if PairOf(u).Some? {
      var (a, b) := PairOf(u).value;
      assert a in s && b in s;
      AttachesSpec(d, eps, wires, p);
    }
  }

  /** The jumper joining a pair of attach points on part `p`, numbered after
      the part's `n` earlier links. */
  function LinkOf(pair: Option<(Attach, Attach)>, p: NodeId, n: nat, hypot: Hypot): Option<Link> {
    match pair
    case None => None
    case Some((a, b)) => Some(Link(LinkIdStr(p, n), a.at, b.at, (a.wire, b.wire), p, PolylineLength([a.at, b.at], hypot)))
  }

  /** A jumper exists exactly for a pair; it is numbered after the part's
      earlier links, joins the pair, and is as long as the distance between
      its ends. */
  lemma LinkOfSpec(pair: Option<(Attach, Attach)>, p: NodeId, n: nat, hypot: Hypot)
    ensures LinkOf(pair, p, n, hypot).None? <==> pair.None?
    ensures LinkOf(pair, p, n, hypot).Some? ==>
              var l := LinkOf(pair, p, n, hypot).value;
              && l.id == LinkIdStr(p, n) && l.part == p
              && l.a == pair.value.0.at && l.b == pair.value.1.at
              && l.from == (pair.value.0.wire, pair.value.1.wire)
              && l.len == hypot(l.b.x - l.a.x, l.b.y - l.a.y) && l.len >= 0.0
  {
    if pair.Some? {
      PolylineLengthSegment(pair.value.0.at, pair.value.1.at, hypot);
    }
  }

  /** The jumper `buildPartLinks` gives part `p` when it already has `n` links. */
  function PartLink(d: Drawing, eps: PosTol, hypot: Hypot, wires: seq<nat>, p: NodeId, n: nat): Option<Link>
    requires ValidNode(d, p) && WiresIn(d, wires)
  {
    LinkOf(ChosenPair(d, eps, wires, p), p, n, hypot)
  }

  /** `buildPartLinks` for one part: collect the attach points of the
      component's wires, de-duplicate them, and join the farthest pair. */
  method PartLinkFor(d: Drawing, eps: PosTol, hypot: Hypot, wires: seq<nat>, p: NodeId, n: nat)
    returns (l: Option<Link>)
    requires ValidNode(d, p) && WiresIn(d, wires)
    ensures l == PartLink(d, eps, hypot, wires, p, n)
  {
    var rect := Pts(d, p);
    var attaches: seq<Attach> := [];
    ghost var f := AttachRule(d, eps, p);
    for k := 0 to |wires|
      invariant attaches == Gathered(f, wires[..k])
    {
      assert wires[..k + 1][..k] == wires[..k];
      var w := wires[k];
      assert f(w) == WireAttach(d, eps, p, w);
      if PolylineIntersectsRect(d.wire[w], rect, eps) {
        var ap := PickWireAttachPoint(d.wire[w], rect, eps);
        if ap.Some? {
          attaches := attaches + [Attach(w, ap.value)];
        }
      }
    }
    assert wires[..|wires|] == wires;
    var uniq := Uniq(attaches, eps);
    var pair := PickFarthestPair(AtPoints(uniq));
    FarthestSpec(AtPoints(uniq));
    if pair.None? {
      return None;
    }
    var (i, j) := pair.value;
    var p1, p2 := uniq[i], uniq[j];
    assert ChosenPair(d, eps, wires, p) == Some((p1, p2));
    var len := MeasurePolyline([p1.at, p2.at], hypot);
    l := Some(Link(LinkIdStr(p, n), p1.at, p2.at, (p1.wire, p2.wire), p, len));
  }

  /** The jumper rule's link for part `p` with `n` links already. */
  method JumperFor(d: Drawing, eps: PosTol, hypot: Hypot, wires: seq<nat>, p: NodeId, n: nat) returns (l: Option<Link>)
    requires ValidNode(d, p) && WiresIn(d, wires)
    ensures l == JumperRule(d, eps, hypot, wires)(p, n)
  {
    l := PartLinkFor(d, eps, hypot, wires, p, n);
  }

  // ---------------------------------------------------------------------
  // The link lists of the parts
  // ---------------------------------------------------------------------

  function LinkList(m: map<NodeId, seq<Link>>, p: NodeId): seq<Link> {
    if p in m then m[p] else []
  }

  function Opt<T>(o: Option<T>): seq<T> {
    match o
    case None => []
    case Some(v) => [v]
  }

  /** The jumper rule of a component: the link, if any, that a part gets
      when it already has `n` links. */
  type LinkRule = (NodeId, nat) -> Option<Link>

  /** The rule of `buildPartLinks` for the component's wires. */
  function JumperRule(d: Drawing, eps: PosTol, hypot: Hypot, wires: seq<nat>): LinkRule {
    (p: NodeId, n: nat) => if ValidNode(d, p) && WiresIn(d, wires) then PartLink(d, eps, hypot, wires, p, n) else None
  }

  /** A rule labels its links: the link a part gets as its `n`-th carries
      the part and the id `link:<part id>:<n>`. */
  ghost predicate Labelled(link: LinkRule) {
    forall p, n :: link(p, n).Some? ==> link(p, n).value.id == LinkIdStr(p, n) && link(p, n).value.part == p
  }

  lemma PartLinksLabelled(d: Drawing, eps: PosTol, hypot: Hypot, wires: seq<nat>)
    ensures Labelled(JumperRule(d, eps, hypot, wires))
  {
    var link := JumperRule(d, eps, hypot, wires);
    forall p, n | link(p, n).Some? ensures link(p, n).value.id == LinkIdStr(p, n) && link(p, n).value.part == p {
      LinkOfSpec(ChosenPair(d, eps, wires, p), p, n, hypot);
    }
  }

  /** One turn of `buildPartLinks`: the part's jumper, if any, appended to
      its list. */
  function AddLink(m: map<NodeId, seq<Link>>, link: LinkRule, p: NodeId): map<NodeId, seq<Link>> {
    match link(p, |LinkList(m, p)|)
    case None => m
    case Some(l) => m[p := LinkList(m, p) + [l]]
  }

  /** `buildPartLinks` over the parts of a component, in order. */
  function WithPartLinks(m: map<NodeId, seq<Link>>, link: LinkRule, parts: seq<NodeId>): map<NodeId, seq<Link>> {
    if parts == [] then m
    else AddLink(WithPartLinks(m, link, parts[..|parts| - 1]), link, parts[|parts| - 1])
  }

  /** Taking one more part applies that part's rule to the map so far. */
  lemma WithPartLinksPrefix(m: map<NodeId, seq<Link>>, link: LinkRule, parts: seq<NodeId>, k: nat)
    requires k < |parts|
    ensures WithPartLinks(m, link, parts[..k + 1]) == AddLink(WithPartLinks(m, link, parts[..k]), link, parts[k])
  {
    assert parts[..k + 1][..k] == parts[..k];
  }

  /** Every link of a part carries the part and is numbered by its position
      in the part's list, as `link:<part id>:<index>`. */
  ghost predicate Numbered(m: map<NodeId, seq<Link>>) {
    forall p, k :: p in m && 0 <= k < |m[p]| ==> m[p][k].id == LinkIdStr(p, k) && m[p][k].part == p
  }

  /** A labelled rule keeps the lists numbered. */
  lemma {:induction false} WithPartLinksNumbered(m: map<NodeId, seq<Link>>, link: LinkRule, parts: seq<NodeId>)
    requires Numbered(m) && Labelled(link)
    ensures Numbered(WithPartLinks(m, link, parts))
    decreases |parts|
  {
    if parts != [] {
      WithPartLinksNumbered(m, link, parts[..|parts| - 1]);
      AddLinkNumbered(WithPartLinks(m, link, parts[..|parts| - 1]), link, parts[|parts| - 1]);
    }
  }

  /** One turn of a labelled rule keeps the lists numbered. */
  lemma AddLinkNumbered(m: map<NodeId, seq<Link>>, link: LinkRule, p: NodeId)
    requires Numbered(m) && Labelled(link)
    ensures Numbered(AddLink(m, link, p))
  {
    var n := |LinkList(m, p)|;
    if link(p, n).Some? {
      var m' := AddLink(m, link, p);
      assert m'[p] == LinkList(m, p) + [link(p, n).value];
      forall q, k | q in m' && 0 <= k < |m'[q]| ensures m'[q][k].id == LinkIdStr(q, k) && m'[q][k].part == q {
        if q != p || k < n {
          assert m'[q][k] == m[q][k];
        }
      }
    }
  }

  /** Parts outside the component keep their lists. */
  lemma {:induction false} WithPartLinksOthers(m: map<NodeId, seq<Link>>, link: LinkRule, parts: seq<NodeId>, p: NodeId)
    requires p !in parts
    ensures LinkList(WithPartLinks(m, link, parts), p) == LinkList(m, p)
    decreases |parts|
  {
    if parts != [] {
      var n := |parts| - 1;
      assert p !in parts[..n] && p != parts[n];
      WithPartLinksOthers(m, link, parts[..n], p);
    }
  }

  /** Each part of a component (listed once) gains exactly its jumper. */
  lemma WithPartLinksGrow(m: map<NodeId, seq<Link>>, link: LinkRule, parts: seq<NodeId>, k: nat)
    requires NoDup(parts) && k < |parts|
    ensures LinkList(WithPartLinks(m, link, parts), parts[k]) ==
            LinkList(m, parts[k]) + Opt(link(parts[k], |LinkList(m, parts[k])|))
  {
    var p := parts[k];
    var p0 := parts[..k];
    assert parts[..k + 1] == p0 + [p];
    assert p !in p0;
    WithPartLinksOthers(m, link, p0, p);
    WithPartLinksTail(m, link, parts, k + 1, p);
  }

  /** Parts after position `i` leave `p`'s list alone when `p` is not among them. */
  lemma {:induction false} WithPartLinksTail(m: map<NodeId, seq<Link>>, link: LinkRule, parts: seq<NodeId>, i: nat, p: NodeId)
    requires i <= |parts| && p !in parts[i..]
    ensures LinkList(WithPartLinks(m, link, parts), p) == LinkList(WithPartLinks(m, link, parts[..i]), p)
    decreases |parts| - i
  {
    if i < |parts| {
      var n := |parts| - 1;
      assert parts[..n][i..] == parts[i..n];
      assert parts[..n][..i] == parts[..i];
      WithPartLinksTail(m, link, parts[..n], i, p);
    } else {
      assert parts[..i] == parts;
    }
  }

  /** The `link` lists of the parts, shared by every component that
      reaches a part. */
  class PartLinkTable {
    var links: map<NodeId, seq<Link>>

    constructor ()
      ensures links == map[]
    {
      links := map[];
    }

    /** `buildPartLinks(comp)`: one jumper per part of the component that
        has two distinct attach points. */
    method AddPartLinks(d: Drawing, eps: PosTol, hypot: Hypot, wires: seq<nat>, parts: seq<NodeId>)
      requires WiresIn(d, wires) && PartsIn(d, parts)
      modifies this
      ensures links == WithPartLinks(old(links), JumperRule(d, eps, hypot, wires), parts)
    {
      ghost var link := JumperRule(d, eps, hypot, wires);
      var k := 0;
      while k < |parts|
        invariant k <= |parts|
        invariant links == WithPartLinks(old(links), link, parts[..k])
      {
        WithPartLinksPrefix(old(links), link, parts, k);
        AddPartLink(d, eps, hypot, wires, parts[k]);
        k := k + 1;
      }
      assert parts[..|parts|] == parts;
    }

    /** One part: its jumper, if it has one, appended to its list. */
    method AddPartLink(d: Drawing, eps: PosTol, hypot: Hypot, wires: seq<nat>, p: NodeId)
      requires WiresIn(d, wires) && ValidNode(d, p)
      modifies this
      ensures links == AddLink(old(links), JumperRule(d, eps, hypot, wires), p)
    {
      var existing := LinkList(links, p);
      var l := JumperFor(d, eps, hypot, wires, p, |existing|);
      if l.Some? {
        links := links[p := existing + [l.value]];
      }
    }
  }
}
