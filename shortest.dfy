/**
 * `printRoute` (src/link/fn2.js): shortest entry routes of a component.
 * Wires touching each other are joined both ways, a Dijkstra pass from the
 * wires at the box gives each wire its shortest distance (every wire counted
 * by its whole length) and the wire it was reached from, and each part is
 * then reported with the shortest wire path from the box to it: a part with
 * jumpers once per jumper, entering by the nearer end and coming back by the
 * other, a part without one by its nearest touching wire.
 */
module Shortest {
  import opened Wrappers
  import opened Geometry
  import opened GridIndex
  import opened Ids
  import opened Drawing
  import opened LinkSets
  import opened PartLinks
  import opened CompAdj
  import opened RouteEnum

  // ---------------------------------------------------------------------
  // Inclusive contact
  // ---------------------------------------------------------------------

  /** `rectBoundsFromPoints`: running minima and maxima from +-Infinity.
      `None` stands for the infinite bounds of an empty list, which no
      point lies in. */
  method RectBoundsFromPoints(pts: seq<Point>) returns (b: Option<Rect>)
    ensures b == BBox(pts)
  {
    b := None;
    for i := 0 to |pts|
      invariant b == BBox(pts[..i])
    {
      var p := pts[i];
      assert LiftAll(pts[..i + 1]) == LiftAll(pts[..i]) + [Lift(p)];
      if b.None? {
        b := Some(Rect(p.x, p.y, p.x, p.y));
      } else {
        var r := b.value;
        var minX, minY, maxX, maxY := r.minX, r.minY, r.maxX, r.maxY;
        if p.x < minX { minX := p.x; }
        if p.y < minY { minY := p.y; }
        if p.x > maxX { maxX := p.x; }
        if p.y > maxY { maxY := p.y; }
        b := Some(Rect(minX, minY, maxX, maxY));
      }
    }
    assert pts[..|pts|] == pts;
  }

  /** `pointInRectInclusive`: inside the bounds of the rectangle's points,
      borders included, without tolerance. */
  predicate PointInRectInclusive(pt: Point, rect: seq<Point>) {
    BBox(rect).Some? && Contains(BBox(rect).value, pt)
  }

  /** `wireTouchesRectInclusive`: some vertex of the wire is inside. */
  predicate WireTouchesRectInclusive(wire: seq<Point>, rect: seq<Point>) {
    exists k :: 0 <= k < |wire| && PointInRectInclusive(wire[k], rect)
  }

  /** A point is inside exactly when, on each axis, some point of the
      rectangle is at or below it and some at or above it. */
  lemma PointInRectInclusiveSpec(pt: Point, rect: seq<Point>)
    ensures PointInRectInclusive(pt, rect) <==>
              && (exists i :: 0 <= i < |rect| && rect[i].x <= pt.x) && (exists i :: 0 <= i < |rect| && pt.x <= rect[i].x)
              && (exists i :: 0 <= i < |rect| && rect[i].y <= pt.y) && (exists i :: 0 <= i < |rect| && pt.y <= rect[i].y)
  {
    BBoxSpec(rect);
    if rect != [] {
      var l := LiftAll(rect);
      assert IsFinitePoint(l[0]);
      BoundsOfSpec(l);
      var b := BBox(rect).value;
      if PointInRectInclusive(pt, rect) {
        var i1 :| 0 <= i1 < |l| && IsFinitePoint(l[i1]) && l[i1].x.r == b.minX;
        var i2 :| 0 <= i2 < |l| && IsFinitePoint(l[i2]) && l[i2].x.r == b.maxX;
        var i3 :| 0 <= i3 < |l| && IsFinitePoint(l[i3]) && l[i3].y.r == b.minY;
        var i4 :| 0 <= i4 < |l| && IsFinitePoint(l[i4]) && l[i4].y.r == b.maxY;
        assert rect[i1].x <= pt.x && pt.x <= rect[i2].x && rect[i3].y <= pt.y && pt.y <= rect[i4].y;
      } else {
        forall i | 0 <= i < |rect| ensures b.minX <= rect[i].x <= b.maxX && b.minY <= rect[i].y <= b.maxY {
          assert Contains(b, rect[i]);
        }
      }
    }
  }

  /** A vertex inside the rectangle puts a wire of two or more points in
      tolerant contact with it as well; a single-point wire is only caught
      by the inclusive test, having no segment. */
  lemma InclusiveTouchIntersects(wire: seq<Point>, rect: seq<Point>, eps: Tol)
    requires WireTouchesRectInclusive(wire, rect)
    ensures |wire| >= 2 ==> PolylineIntersectsRect(wire, rect, eps)
    ensures |wire| < 2 ==> !PolylineIntersectsRect(wire, rect, eps)
  {
    var k :| 0 <= k < |wire| && PointInRectInclusive(wire[k], rect);
    if |wire| >= 2 {
      VertexInRectHits(wire, rect, k, eps);
    } else {
      BBoxSpec(wire);
      assert PolylineSegments(wire) == [];
    }
  }

  /** A start or entry wire: in tolerant contact with the rectangle, or with a
      vertex inside it. */
  predicate Hits(wire: seq<Point>, rect: seq<Point>, eps: Tol) {
    PolylineIntersectsRect(wire, rect, eps) || WireTouchesRectInclusive(wire, rect)
  }

  function HitTest(d: Drawing, eps: Tol, rect: seq<Point>): NodeId -> bool {
    (x: NodeId) => x.WireId? && x.i < |d.wire| && Hits(d.wire[x.i], rect, eps)
  }

  /** The wires of the component a rectangle is hit by, in candidate order. */
  function HitWires(d: Drawing, eps: Tol, c: Comp, rect: seq<Point>): seq<NodeId>
    requires Indexable(d, c) && BBox(rect).Some?
  {
    Keep(Candidates(WireGrid(d, c), BBox(rect).value, eps), HitTest(d, eps, rect))
  }

  /** Two boxes sharing a point meet at any tolerance. */
  lemma SharedPointIntersects(a: Rect, b: Rect, p: Point, eps: Tol)
    requires Contains(a, p) && Contains(b, p)
    ensures BBoxIntersects(a, b, eps)
  {
  }

  /** The hit wires are exactly the component's wires that hit the
      rectangle, each once. */
  lemma HitWiresSpec(d: Drawing, eps: Tol, c: Comp, rect: seq<Point>)
    requires Indexable(d, c) && BBox(rect).Some?
    ensures NoDup(HitWires(d, eps, c, rect))
    ensures forall x :: x in HitWires(d, eps, c, rect) <==>
              x.WireId? && x.i in c.wires && Hits(d.wire[x.i], rect, eps)
  {
    var items := WireItemsOf(d, c.wires);
    var q := BBox(rect).value;
    var f := HitTest(d, eps, rect);
    KeepSpec(Candidates(WireGrid(d, c), q, eps), f);
    CandidatesNoDup(items, q, eps);
    BBoxWellFormed(rect);
    forall x: NodeId | x.WireId? && x.i in c.wires && Hits(d.wire[x.i], rect, eps)
      ensures x in Candidates(WireGrid(d, c), q, eps)
    {
      var k :| 0 <= k < |c.wires| && c.wires[k] == x.i;
      var wire := d.wire[x.i];
      BBoxWellFormed(wire);
      if !PolylineIntersectsRect(wire, rect, eps) {
        var j :| 0 <= j < |wire| && PointInRectInclusive(wire[j], rect);
        BBoxSpec(wire);
        SharedPointIntersects(BBox(wire).value, q, wire[j], eps);
      }
      FoundIfNear(items, k, q, eps);
    }
    forall x | x in Candidates(WireGrid(d, c), q, eps) ensures x.WireId? && x.i in c.wires {
      var k := CandidateIndexed(items, q, eps, x);
    }
  }

  method HitWiresLoop(d: Drawing, eps: Tol, c: Comp, wgrid: Grid<NodeId>, rect: seq<Point>) returns (arr: seq<NodeId>)
    requires Indexable(d, c) && BBox(rect).Some? && wgrid == WireGrid(d, c)
    ensures arr == HitWires(d, eps, c, rect)
  {
    var q := RectBoundsFromPoints(rect);
    var cands := Query(wgrid, Grow(q.value, eps), CELL);
    arr := KeepLoop(cands, HitTest(d, eps, rect));
  }

  // ---------------------------------------------------------------------
  // Wire adjacency
  // ---------------------------------------------------------------------

  /** `Set.add`: insertion order, no repetition. */
  function AddOnce(s: seq<NodeId>, x: NodeId): seq<NodeId> {
    if x in s then s else s + [x]
  }

  /** Both directions of one edge. */
  function AddEdge(adj: map<NodeId, seq<NodeId>>, a: NodeId, b: NodeId): map<NodeId, seq<NodeId>> {
    var adj1 := adj[a := AddOnce(Listed(adj, a), b)];
    adj1[b := AddOnce(Listed(adj1, b), a)]
  }

  /** The edges from `a` to each of `bs`, in order. */
  function AddEdges(adj: map<NodeId, seq<NodeId>>, a: NodeId, bs: seq<NodeId>): map<NodeId, seq<NodeId>>
    decreases |bs|
  {
    if bs == [] then adj else AddEdge(AddEdges(adj, a, bs[..|bs| - 1]), a, bs[|bs| - 1])
  }

  /** A wire with a higher number that wire `w` touches. */
  function Above(d: Drawing, eps: Tol, w: nat): NodeId -> bool {
    (x: NodeId) => x.WireId? && x.i > w && x.i < |d.wire| && w < |d.wire| && PolylineIntersectsPolyline(d.wire[w], d.wire[x.i], eps)
  }

  /** The wires joined to wire `w` when it is scanned, in candidate order. */
  function Partners(d: Drawing, eps: Tol, c: Comp, w: nat): seq<NodeId>
    requires Indexable(d, c) && w < |d.wire| && BBox(d.wire[w]).Some?
  {
    Keep(Candidates(WireGrid(d, c), BBox(d.wire[w]).value, eps), Above(d, eps, w))
  }

  /** `new Map(wires.map((w) => [w.__id, new Set()]))`. */
  function EmptyRow(): NodeId -> seq<NodeId> {
    (x: NodeId) => []
  }

  /** The adjacency after scanning the wires `ws` in order, each joined to
      its partners `pf`. */
  function AdjOf(init: map<NodeId, seq<NodeId>>, ws: seq<nat>, pf: nat -> seq<NodeId>): map<NodeId, seq<NodeId>>
    decreases |ws|
  {
    if ws == [] then init
    else AddEdges(AdjOf(init, ws[..|ws| - 1], pf), WireId(ws[|ws| - 1]), pf(ws[|ws| - 1]))
  }

  function PartnerRow(d: Drawing, eps: Tol, c: Comp): nat -> seq<NodeId> {
    (w: nat) => if Indexable(d, c) && w in c.wires && w < |d.wire| && BBox(d.wire[w]).Some? then Partners(d, eps, c, w) else []
  }

  /** The wire adjacency `printRoute` builds. */
  function WireAdj(d: Drawing, eps: Tol, c: Comp): map<NodeId, seq<NodeId>> {
    AdjOf(Table(WireNodes(c), EmptyRow()), c.wires, PartnerRow(d, eps, c))
  }

  /** Two different wires of the component in contact. */
  predicate Touch(d: Drawing, eps: Tol, c: Comp, x: NodeId, y: NodeId) {
    && x.WireId? && y.WireId? && x.i != y.i && x.i in c.wires && y.i in c.wires
    && x.i < |d.wire| && y.i < |d.wire| && PolylineIntersectsPolyline(d.wire[x.i], d.wire[y.i], eps)
  }

  lemma TouchSymmetric(d: Drawing, eps: Tol, c: Comp, x: NodeId, y: NodeId)
    ensures Touch(d, eps, c, x, y) <==> Touch(d, eps, c, y, x)
  {
    if x.WireId? && y.WireId? && x.i < |d.wire| && y.i < |d.wire| {
      PolylineIntersectsPolylineSymmetric(d.wire[x.i], d.wire[y.i], eps);
    }
  }

  /** The partners of a wire are exactly the higher-numbered wires of the
      component it touches, each once. */
  lemma PartnersSpec(d: Drawing, eps: Tol, c: Comp, w: nat)
    requires Indexable(d, c) && w in c.wires && w < |d.wire| && BBox(d.wire[w]).Some?
    ensures NoDup(Partners(d, eps, c, w))
    ensures forall x :: x in Partners(d, eps, c, w) <==> x.i > w && Touch(d, eps, c, WireId(w), x)
  {
    var items := WireItemsOf(d, c.wires);
    var q := BBox(d.wire[w]).value;
    var cands := Candidates(WireGrid(d, c), q, eps);
    KeepSpec(cands, Above(d, eps, w));
    CandidatesNoDup(items, q, eps);
    BBoxWellFormed(d.wire[w]);
    forall x: NodeId | x.i > w && Touch(d, eps, c, WireId(w), x) ensures x in cands {
      var k :| 0 <= k < |c.wires| && c.wires[k] == x.i;
      BBoxWellFormed(d.wire[x.i]);
      BBoxIntersectsSymmetric(q, BBox(d.wire[x.i]).value, eps);
      FoundIfNear(items, k, q, eps);
    }
    forall x | x in cands ensures x.WireId? && x.i in c.wires {
      var k := CandidateIndexed(items, q, eps, x);
    }
  }

  /** One edge adds both directions and nothing else. */
  lemma AddEdgeKeys(adj: map<NodeId, seq<NodeId>>, a: NodeId, b: NodeId)
    ensures AddEdge(adj, a, b).Keys == adj.Keys + {a, b}
    ensures (forall x :: x in adj ==> NoDup(adj[x])) ==> forall x :: x in AddEdge(adj, a, b) ==> NoDup(AddEdge(adj, a, b)[x])
  {
  }

  lemma AddEdgeHas(adj: map<NodeId, seq<NodeId>>, a: NodeId, b: NodeId, x: NodeId, y: NodeId)
    ensures y in Listed(AddEdge(adj, a, b), x) <==> y in Listed(adj, x) || (x == a && y == b) || (x == b && y == a)
  {
  }

  lemma {:induction false} AddEdgesKeys(adj: map<NodeId, seq<NodeId>>, a: NodeId, bs: seq<NodeId>)
    requires a in adj && forall y :: y in bs ==> y in adj
    ensures AddEdges(adj, a, bs).Keys == adj.Keys
    ensures (forall x :: x in adj ==> NoDup(adj[x])) ==> forall x :: x in AddEdges(adj, a, bs) ==> NoDup(AddEdges(adj, a, bs)[x])
    decreases |bs|
  {
    if bs != [] {
      var init := bs[..|bs| - 1];
      assert forall y :: y in init ==> y in bs;
      AddEdgesKeys(adj, a, init);
      AddEdgeKeys(AddEdges(adj, a, init), a, bs[|bs| - 1]);
    }
  }

  /** The edges from `a` to each of `bs` add exactly those pairs, both ways. */
  lemma {:induction false} AddEdgesHas(adj: map<NodeId, seq<NodeId>>, a: NodeId, bs: seq<NodeId>, x: NodeId, y: NodeId)
    ensures y in Listed(AddEdges(adj, a, bs), x) <==> y in Listed(adj, x) || (x == a && y in bs) || (y == a && x in bs)
    decreases |bs|
  {
    if bs != [] {
      var init := bs[..|bs| - 1];
      AddEdgesHas(adj, a, init, x, y);
      AddEdgeHas(AddEdges(adj, a, init), a, bs[|bs| - 1], x, y);
      assert bs == init + [bs[|bs| - 1]];
    }
  }

  /** The lower-numbered end of a pair of wires. */
  function Lower(x: NodeId, y: NodeId): nat {
    if x.i <= y.i then x.i else y.i
  }

  /** Scanning keeps a row for every key, without repetition. */
  lemma {:induction false} AdjOfKeys(init: map<NodeId, seq<NodeId>>, ws: seq<nat>, pf: nat -> seq<NodeId>)
    requires forall w :: w in ws ==> WireId(w) in init && forall z :: z in pf(w) ==> z in init
    ensures AdjOf(init, ws, pf).Keys == init.Keys
    ensures (forall x :: x in init ==> NoDup(init[x])) ==> forall x :: x in AdjOf(init, ws, pf) ==> NoDup(AdjOf(init, ws, pf)[x])
    decreases |ws|
  {
    if ws != [] {
      var init' := ws[..|ws| - 1];
      assert forall w :: w in init' ==> w in ws;
      AdjOfKeys(init, init', pf);
      AddEdgesKeys(AdjOf(init, init', pf), WireId(ws[|ws| - 1]), pf(ws[|ws| - 1]));
    }
  }

  /** When each wire's partners are the higher-numbered wires it touches
      and touching is symmetric, a wire lists another exactly when the two
      touch and the lower-numbered one has been scanned. */
  lemma {:induction false} AdjOfHas(init: map<NodeId, seq<NodeId>>, ws: seq<nat>, pf: nat -> seq<NodeId>,
                                    touch: (NodeId, NodeId) -> bool, x: NodeId, y: NodeId)
    requires forall a :: Listed(init, a) == []
    requires forall w, z :: w in ws ==> (z in pf(w) <==> z.i > w && touch(WireId(w), z))
    requires forall a, b :: touch(a, b) ==> touch(b, a) && a.WireId? && b.WireId? && a.i != b.i
    ensures y in Listed(AdjOf(init, ws, pf), x) <==> touch(x, y) && Lower(x, y) in ws
    decreases |ws|
  {
    if ws != [] {
      var w := ws[|ws| - 1];
      var prefix := ws[..|ws| - 1];
      assert forall v :: v in prefix ==> v in ws;
      AdjOfHas(init, prefix, pf, touch, x, y);
      AddEdgesHas(AdjOf(init, prefix, pf), WireId(w), pf(w), x, y);
      assert ws == prefix + [w];
      if touch(x, y) {
        assert touch(y, x);
      }
    }
  }

  lemma PartnerRowHas(d: Drawing, eps: Tol, c: Comp, w: nat, z: NodeId)
    requires Indexable(d, c) && w in c.wires
    ensures z in PartnerRow(d, eps, c)(w) <==> z.i > w && Touch(d, eps, c, WireId(w), z)
  {
    var j :| 0 <= j < |c.wires| && c.wires[j] == w;
    PartnersSpec(d, eps, c, w);
  }

  lemma InitRows(c: Comp, z: NodeId)
    requires z.WireId? && z.i in c.wires
    ensures z in Table(WireNodes(c), EmptyRow())
  {
    var keys := WireNodes(c);
    var j :| 0 <= j < |c.wires| && c.wires[j] == z.i;
    assert keys[j] == z;
  }

  lemma WireAdjKeys(d: Drawing, eps: Tol, c: Comp)
    requires Indexable(d, c)
    ensures WireAdj(d, eps, c).Keys == set x | x in WireNodes(c)
    ensures forall x :: x in WireAdj(d, eps, c) ==> NoDup(WireAdj(d, eps, c)[x])
  {
    var init := Table(WireNodes(c), EmptyRow());
    var pf := PartnerRow(d, eps, c);
    forall w | w in c.wires ensures WireId(w) in init && forall z :: z in pf(w) ==> z in init {
      InitRows(c, WireId(w));
      forall z | z in pf(w) ensures z in init {
        PartnerRowHas(d, eps, c, w, z);
        InitRows(c, z);
      }
    }
    AdjOfKeys(init, c.wires, pf);
  }

  /** The finished adjacency: a wire lists another exactly when they are
      different wires of the component in contact. */
  lemma WireAdjHas(d: Drawing, eps: Tol, c: Comp, x: NodeId, y: NodeId)
    requires Indexable(d, c)
    ensures y in Listed(WireAdj(d, eps, c), x) <==> Touch(d, eps, c, x, y)
  {
    var init := Table(WireNodes(c), EmptyRow());
    var pf := PartnerRow(d, eps, c);
    var touch := (a: NodeId, b: NodeId) => Touch(d, eps, c, a, b);
    forall w, z | w in c.wires ensures z in pf(w) <==> z.i > w && touch(WireId(w), z) {
      PartnerRowHas(d, eps, c, w, z);
    }
    forall a, b | touch(a, b) ensures touch(b, a) {
      TouchSymmetric(d, eps, c, a, b);
    }
    AdjOfHas(init, c.wires, pf, touch, x, y);
    if Touch(d, eps, c, x, y) {
      assert Lower(x, y) == x.i || Lower(x, y) == y.i;
    }
  }

  /** Every edge of the adjacency goes both ways. */
  lemma WireAdjSymmetric(d: Drawing, eps: Tol, c: Comp, x: NodeId, y: NodeId)
    requires Indexable(d, c)
    ensures y in Listed(WireAdj(d, eps, c), x) <==> x in Listed(WireAdj(d, eps, c), y)
  {
    WireAdjHas(d, eps, c, x, y);
    WireAdjHas(d, eps, c, y, x);
    TouchSymmetric(d, eps, c, x, y);
  }

  /** One more candidate looked at. */
  lemma KeepSnoc(s: seq<NodeId>, j: nat, f: NodeId -> bool)
    requires j < |s|
    ensures Keep(s[..j + 1], f) == Keep(s[..j], f) + (if f(s[j]) then [s[j]] else [])
  {
    assert s[..j + 1][..j] == s[..j];
  }

  /** One more partner joined. */
  lemma AddEdgesSnoc(adj: map<NodeId, seq<NodeId>>, a: NodeId, bs: seq<NodeId>, b: NodeId)
    ensures AddEdges(adj, a, bs + [b]) == AddEdge(AddEdges(adj, a, bs), a, b)
  {
    assert (bs + [b])[..|bs|] == bs;
  }

  /** The inner loop: wire `w` joined to each candidate above it that it
      touches. */
  method JoinPartners(d: Drawing, eps: Tol, w: nat, cands: seq<NodeId>, adj0: map<NodeId, seq<NodeId>>)
    returns (adj: map<NodeId, seq<NodeId>>)
    requires w < |d.wire|
    ensures adj == AddEdges(adj0, WireId(w), Keep(cands, Above(d, eps, w)))
  {
    adj := adj0;
    ghost var above := Above(d, eps, w);
    for j := 0 to |cands|
      invariant adj == AddEdges(adj0, WireId(w), Keep(cands[..j], above))
    {
      var wid2 := cands[j];
      KeepSnoc(cands, j, above);
      if wid2 != WireId(w) && wid2.WireId? && wid2.i > w && wid2.i < |d.wire|
         && PolylineIntersectsPolyline(d.wire[w], d.wire[wid2.i], eps) {
        assert above(wid2);
        assert Keep(cands[..j + 1], above) == Keep(cands[..j], above) + [wid2];
        AddEdgesSnoc(adj0, WireId(w), Keep(cands[..j], above), wid2);
        adj := adj[WireId(w) := AddOnce(Listed(adj, WireId(w)), wid2)];
        adj := adj[wid2 := AddOnce(Listed(adj, wid2), WireId(w))];
      } else {
        assert !above(wid2);
        assert Keep(cands[..j + 1], above) == Keep(cands[..j], above) + [];
        assert Keep(cands[..j], above) + [] == Keep(cands[..j], above);
      }
    }
    assert cands[..|cands|] == cands;
  }

  /** `new Map(wires.map((w) => [w.__id, new Set()]))`. */
  method EmptyAdj(c: Comp) returns (adj: map<NodeId, seq<NodeId>>)
    ensures adj == Table(WireNodes(c), EmptyRow())
  {
    adj := map[];
    ghost var keys := WireNodes(c);
    for k := 0 to |c.wires|
      invariant adj == Table(keys[..k], EmptyRow())
    {
      assert keys[..k + 1] == keys[..k] + [WireId(c.wires[k])];
      TableSnoc(keys[..k], WireId(c.wires[k]), EmptyRow());
      adj := adj[WireId(c.wires[k]) := []];
    }
    assert keys[..|c.wires|] == keys;
  }

  /** One more wire scanned. */
  lemma AdjOfSnoc(init: map<NodeId, seq<NodeId>>, ws: seq<nat>, k: nat, pf: nat -> seq<NodeId>)
    requires k < |ws|
    ensures AdjOf(init, ws[..k + 1], pf) == AddEdges(AdjOf(init, ws[..k], pf), WireId(ws[k]), pf(ws[k]))
  {
    assert ws[..k + 1][..k] == ws[..k];
  }

  /** What the scan of wire `w` queries and keeps is its row of partners. */
  lemma PartnerRowQuery(d: Drawing, eps: Tol, c: Comp, k: nat)
    requires Indexable(d, c) && k < |c.wires|
    ensures c.wires[k] < |d.wire| && BBox(d.wire[c.wires[k]]).Some?
    ensures PartnerRow(d, eps, c)(c.wires[k])
              == Keep(Candidates(WireGrid(d, c), BBox(d.wire[c.wires[k]]).value, eps), Above(d, eps, c.wires[k]))
  {
  }

  /** The nested loops filling the adjacency. */
  method BuildWireAdj(d: Drawing, eps: Tol, c: Comp, wgrid: Grid<NodeId>) returns (adj: map<NodeId, seq<NodeId>>)
    requires Indexable(d, c) && wgrid == WireGrid(d, c)
    ensures adj == WireAdj(d, eps, c)
  {
    adj := EmptyAdj(c);
    ghost var init := adj;
    ghost var pf := PartnerRow(d, eps, c);
    for k := 0 to |c.wires|
      invariant adj == AdjOf(init, c.wires[..k], pf)
    {
      var w := c.wires[k];
      var wb := RectBoundsFromPoints(d.wire[w]);
      var cands := Query(wgrid, Grow(wb.value, eps), CELL);
      AdjOfSnoc(init, c.wires, k, pf);
      PartnerRowQuery(d, eps, c, k);
      adj := JoinPartners(d, eps, w, cands, adj);
    }
    assert c.wires[..|c.wires|] == c.wires;
  }
}
