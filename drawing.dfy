/**
 * The classified drawing the connectivity pipeline works on: the point lists
 * of the box (panel), equipment and wire layers, the node each of them
 * becomes, the spatial indexes over them, and the contact relation between
 * nodes that `buildLinkSets` explores (src/link/fn.js).
 */
module Drawing {
  import opened Wrappers
  import opened Geometry
  import opened GridIndex
  import opened Ids

  /** The five lists `drawPaths` hands to `buildLinkSets`, as point lists. */
  datatype Drawing = Drawing(
    box: seq<seq<Point>>,
    eql: seq<seq<Point>>,
    eqe: seq<seq<Point>>,
    eqp: seq<seq<Point>>,
    wire: seq<seq<Point>>)

  function CatList(d: Drawing, c: PartCat): seq<seq<Point>> {
    match c
    case Eql => d.eql
    case Eqe => d.eqe
    case Eqp => d.eqp
  }

  /** A node that names an element of the drawing. */
  predicate ValidNode(d: Drawing, n: NodeId) {
    match n
    case BoxId(i) => i < |d.box|
    case WireId(i) => i < |d.wire|
    case PartId(c, i) => i < |CatList(d, c)|
  }

  /** The points of a node. */
  function Pts(d: Drawing, n: NodeId): seq<Point>
    requires ValidNode(d, n)
  {
    match n
    case BoxId(i) => d.box[i]
    case WireId(i) => d.wire[i]
    case PartId(c, i) => CatList(d, c)[i]
  }

  /** Every node of the drawing, as a set. */
  function AllNodes(d: Drawing): set<NodeId> {
    (set i | 0 <= i < |d.box| :: BoxId(i))
    + (set i | 0 <= i < |d.wire| :: WireId(i))
    + (set i | 0 <= i < |d.eql| :: PartId(Eql, i))
    + (set i | 0 <= i < |d.eqe| :: PartId(Eqe, i))
    + (set i | 0 <= i < |d.eqp| :: PartId(Eqp, i))
  }

  lemma AllNodesValid(d: Drawing, n: NodeId)
    ensures n in AllNodes(d) <==> ValidNode(d, n)
  {
    if ValidNode(d, n) {
      match n
      case BoxId(i) =>
      case WireId(i) =>
      case PartId(c, i) =>
        match c
        case Eql => assert n in (set i | 0 <= i < |d.eql| :: PartId(Eql, i));
        case Eqe => assert n in (set i | 0 <= i < |d.eqe| :: PartId(Eqe, i));
        case Eqp => assert n in (set i | 0 <= i < |d.eqp| :: PartId(Eqp, i));
    }
  }

  /** The wires with their boxes, as `makeIds(wire, "wire:")` indexes them. */
  function WireItems(d: Drawing): (r: seq<(NodeId, Option<Rect>)>)
    ensures |r| == |d.wire|
    ensures forall i :: 0 <= i < |d.wire| ==> r[i] == (WireId(i), BBox(d.wire[i]))
  {
    WireItemsFrom(d.wire, 0)
  }

  function WireItemsFrom(ws: seq<seq<Point>>, k: nat): (r: seq<(NodeId, Option<Rect>)>)
    requires k <= |ws|
    ensures |r| == |ws| - k
    ensures forall i :: k <= i < |ws| ==> r[i - k] == (WireId(i), BBox(ws[i]))
    decreases |ws| - k
  {
    if k == |ws| then [] else [(WireId(k), BBox(ws[k]))] + WireItemsFrom(ws, k + 1)
  }

  function CatItemsFrom(c: PartCat, ps: seq<seq<Point>>, k: nat): (r: seq<(NodeId, Option<Rect>)>)
    requires k <= |ps|
    ensures |r| == |ps| - k
    ensures forall i :: k <= i < |ps| ==> r[i - k] == (PartId(c, i), BBox(ps[i]))
    decreases |ps| - k
  {
    if k == |ps| then [] else [(PartId(c, k), BBox(ps[k]))] + CatItemsFrom(c, ps, k + 1)
  }

  /** `makeIds(parts, "part:<cat>:")` with the boxes of the parts. */
  function CatItems(c: PartCat, ps: seq<seq<Point>>): (r: seq<(NodeId, Option<Rect>)>)
    ensures |r| == |ps|
    ensures forall i :: 0 <= i < |ps| ==> r[i] == (PartId(c, i), BBox(ps[i]))
  {
    CatItemsFrom(c, ps, 0)
  }

  /** The parts with their boxes: the eql parts, then the eqe parts, then the eqp parts. */
  function PartItems(d: Drawing): seq<(NodeId, Option<Rect>)> {
    CatItems(Eql, d.eql) + CatItems(Eqe, d.eqe) + CatItems(Eqp, d.eqp)
  }

  /** Every part of the drawing has its place in the part list, with its own box. */
  lemma PartItemsHas(d: Drawing, n: NodeId)
    requires n.PartId? && ValidNode(d, n)
    ensures exists k :: 0 <= k < |PartItems(d)| && PartItems(d)[k] == (n, BBox(Pts(d, n)))
  {
    var a, b, c := CatItems(Eql, d.eql), CatItems(Eqe, d.eqe), CatItems(Eqp, d.eqp);
    assert PartItems(d) == a + b + c;
    match n.cat
    case Eql => assert PartItems(d)[n.i] == a[n.i];
    case Eqe => assert PartItems(d)[|a| + n.i] == b[n.i];
    case Eqp => assert PartItems(d)[|a| + |b| + n.i] == c[n.i];
  }

  /** Only parts of the drawing are in the part list. */
  lemma PartItemsValid(d: Drawing, k: nat)
    requires k < |PartItems(d)|
    ensures PartItems(d)[k].0.PartId? && ValidNode(d, PartItems(d)[k].0)
    ensures PartItems(d)[k].1 == BBox(Pts(d, PartItems(d)[k].0))
  {
    var a, b, c := CatItems(Eql, d.eql), CatItems(Eqe, d.eqe), CatItems(Eqp, d.eqp);
    assert PartItems(d) == a + b + c;
    if k < |a| { assert PartItems(d)[k] == a[k]; }
    else if k < |a| + |b| { assert PartItems(d)[k] == b[k - |a|]; }
    else { assert PartItems(d)[k] == c[k - |a| - |b|]; }
  }

  /** The cell size of every index the pipeline builds. */
  const CELL: CellSize := DEFAULT_CELL_SIZE

  // ---------------------------------------------------------------------
  // Contact between nodes
  // ---------------------------------------------------------------------

  /** The contacts `buildLinkSets` follows: from a box or a part to every wire
      touching its rectangle, from a wire to every part whose rectangle it
      touches and to every other wire it touches. Boxes are never reached from
      wires. */
  predicate Adj(d: Drawing, eps: Tol, u: NodeId, v: NodeId) {
    && ValidNode(d, u) && ValidNode(d, v)
    && match (u, v)
       case (BoxId(_), WireId(_)) => PolylineIntersectsRect(Pts(d, v), Pts(d, u), eps)
       case (PartId(_, _), WireId(_)) => PolylineIntersectsRect(Pts(d, v), Pts(d, u), eps)
       case (WireId(_), PartId(_, _)) => PolylineIntersectsRect(Pts(d, u), Pts(d, v), eps)
       case (WireId(i), WireId(j)) => i != j && PolylineIntersectsPolyline(Pts(d, u), Pts(d, v), eps)
       case _ => false
  }

  /** Contact between a part and a wire, and between two wires, goes both ways. */
  lemma AdjSymmetricBetweenWiresAndParts(d: Drawing, eps: Tol, u: NodeId, v: NodeId)
    requires !u.BoxId? && !v.BoxId?
    ensures Adj(d, eps, u, v) <==> Adj(d, eps, v, u)
  {
    if u.WireId? && v.WireId? && ValidNode(d, u) && ValidNode(d, v) {
      PolylineIntersectsPolylineSymmetric(Pts(d, u), Pts(d, v), eps);
    }
  }

  // ---------------------------------------------------------------------
  // Candidates from the grid
  // ---------------------------------------------------------------------

  /** The box of a non-empty point list is well formed. */
  lemma BBoxWellFormed(pts: seq<Point>)
    requires BBox(pts).Some?
    ensures WellFormed(BBox(pts).value)
  {
    BoundsOfSpec(LiftAll(pts));
  }

  /** The candidates the index returns for a query box, the box grown by
      the tolerance first so that no contact the exact tests accept is
      filtered out. */
  function Candidates(grid: Grid<NodeId>, q: Rect, eps: Tol): seq<NodeId> {
    QueryOf(grid, CellsOf(Grow(q, eps), CELL))
  }

  /** Every wire touching a rectangle is among the candidates for the rectangle's box. */
  lemma CandidatesFindWire(d: Drawing, eps: Tol, w: nat, rect: seq<Point>)
    requires w < |d.wire| && PolylineIntersectsRect(d.wire[w], rect, eps)
    ensures BBox(rect).Some?
    ensures WireId(w) in Candidates(GridOf(WireItems(d), CELL), BBox(rect).value, eps)
  {
    var r := BBox(rect).value;
    var wb := BBox(d.wire[w]).value;
    BBoxWellFormed(rect);
    BBoxWellFormed(d.wire[w]);
    BBoxIntersectsIsOverlapGrown(wb, r, eps);
    QueryFindsOverlap(WireItems(d), w, Grow(r, eps), CELL);
  }

  /** Every part a wire touches is among the candidates for the wire's box. */
  lemma CandidatesFindPart(d: Drawing, eps: Tol, w: nat, p: NodeId)
    requires w < |d.wire| && p.PartId? && ValidNode(d, p)
    requires PolylineIntersectsRect(d.wire[w], Pts(d, p), eps)
    ensures BBox(d.wire[w]).Some?
    ensures p in Candidates(GridOf(PartItems(d), CELL), BBox(d.wire[w]).value, eps)
  {
    var wb := BBox(d.wire[w]).value;
    var pr := BBox(Pts(d, p)).value;
    BBoxWellFormed(Pts(d, p));
    BBoxWellFormed(d.wire[w]);
    BBoxIntersectsSymmetric(wb, pr, eps);
    BBoxIntersectsIsOverlapGrown(pr, wb, eps);
    PartItemsHas(d, p);
    var k :| 0 <= k < |PartItems(d)| && PartItems(d)[k] == (p, BBox(Pts(d, p)));
    QueryFindsOverlap(PartItems(d), k, Grow(wb, eps), CELL);
  }

  /** Every other wire a wire touches is among the candidates for its box. */
  lemma CandidatesFindWireFromWire(d: Drawing, eps: Tol, w: nat, w2: nat)
    requires w < |d.wire| && w2 < |d.wire|
    requires PolylineIntersectsPolyline(d.wire[w], d.wire[w2], eps)
    ensures BBox(d.wire[w]).Some?
    ensures WireId(w2) in Candidates(GridOf(WireItems(d), CELL), BBox(d.wire[w]).value, eps)
  {
    var b1 := BBox(d.wire[w]).value;
    var b2 := BBox(d.wire[w2]).value;
    BBoxWellFormed(d.wire[w]);
    BBoxWellFormed(d.wire[w2]);
    BBoxIntersectsSymmetric(b1, b2, eps);
    BBoxIntersectsIsOverlapGrown(b2, b1, eps);
    QueryFindsOverlap(WireItems(d), w2, Grow(b1, eps), CELL);
  }

  /** The wire index returns wires of the drawing only. */
  lemma WireCandidatesValid(d: Drawing, q: Rect, eps: Tol, x: NodeId)
    requires x in Candidates(GridOf(WireItems(d), CELL), q, eps)
    ensures x.WireId? && x.i < |d.wire|
  {
    QuerySound(WireItems(d), CellsOf(Grow(q, eps), CELL), CELL, x);
  }

  /** The part index returns parts of the drawing only. */
  lemma PartCandidatesValid(d: Drawing, q: Rect, eps: Tol, x: NodeId)
    requires x in Candidates(GridOf(PartItems(d), CELL), q, eps)
    ensures x.PartId? && ValidNode(d, x)
  {
    QuerySound(PartItems(d), CellsOf(Grow(q, eps), CELL), CELL, x);
    var k, c :| 0 <= k < |PartItems(d)| && PartItems(d)[k].0 == x && PartItems(d)[k].1.Some?
      && c in CellsOf(PartItems(d)[k].1.value, CELL) && c in CellsOf(Grow(q, eps), CELL);
    PartItemsValid(d, k);
  }

  // ---------------------------------------------------------------------
  // The query as written
  // ---------------------------------------------------------------------

  /** `wireIndex.query(rbox)` as the source calls it: with the rectangle's own
      box, not grown by the tolerance. */
  function CandidatesAsWritten(grid: Grid<NodeId>, q: Rect): seq<NodeId> {
    QueryOf(grid, CellsOf(q, CELL))
  }

  /** The cells of the box and of the wire in the example below. */
  lemma ExampleCells()
    ensures CellsOf(Rect(2001.0, 0.0, 2100.0, 100.0), CELL) == CellRange(1, 1, 0, 0)
    ensures CellsOf(Rect(1999.0, 0.0, 1999.0, 10.0), CELL) == CellRange(0, 0, 0, 0)
  {
    assert 0.0 <= 1999.0 / 2000.0 < 1.0;
    assert 1.0 <= 2001.0 / 2000.0 < 2.0;
    assert 1.0 <= 2100.0 / 2000.0 < 2.0;
    assert 0.0 <= 10.0 / 2000.0 < 1.0;
    assert 0.0 <= 100.0 / 2000.0 < 1.0;
  }

  /** An item filed under cell (0, 0) only is not returned by a query of cell (1, 0). */
  lemma DisjointCellsMiss(items: seq<(NodeId, Option<Rect>)>, x: NodeId)
    requires forall k :: 0 <= k < |items| && items[k].1.Some? ==>
               CellsOf(items[k].1.value, CELL) == CellRange(0, 0, 0, 0)
    ensures x !in QueryOf(GridOf(items, CELL), CellRange(1, 1, 0, 0))
  {
    CellRangeSpec(0, 0, 0, 0);
    CellRangeSpec(1, 1, 0, 0);
    assert !Indexed(items, CELL, CellRange(1, 1, 0, 0), x);
    if x in QueryOf(GridOf(items, CELL), CellRange(1, 1, 0, 0)) {
      QuerySound(items, CellRange(1, 1, 0, 0), CELL, x);
    }
  }

  lemma ExampleRectBox(rect: seq<Point>)
    requires rect == [Point(2001.0, 0.0), Point(2100.0, 0.0), Point(2100.0, 100.0),
                      Point(2001.0, 100.0), Point(2001.0, 0.0)]
    ensures BBox(rect) == Some(Rect(2001.0, 0.0, 2100.0, 100.0))
  {
    var l := LiftAll(rect);
    assert l[..1][..0] == [];
    assert BoundsOf(l[..1]) == Some(Rect(2001.0, 0.0, 2001.0, 0.0));
    assert l[..2][..1] == l[..1];
    assert BoundsOf(l[..2]) == Some(Rect(2001.0, 0.0, 2100.0, 0.0));
    assert l[..3][..2] == l[..2];
    assert BoundsOf(l[..3]) == Some(Rect(2001.0, 0.0, 2100.0, 100.0));
    assert l[..4][..3] == l[..3];
    assert BoundsOf(l[..4]) == Some(Rect(2001.0, 0.0, 2100.0, 100.0));
    assert l[..5][..4] == l[..4];
    assert l[..5] == l;
  }

  lemma ExampleWireBox(wire: seq<Point>)
    requires wire == [Point(1999.0, 0.0), Point(1999.0, 10.0)]
    ensures BBox(wire) == Some(Rect(1999.0, 0.0, 1999.0, 10.0))
  {
    var l := LiftAll(wire);
    assert l[..1][..0] == [];
    assert BoundsOf(l[..1]) == Some(Rect(1999.0, 0.0, 1999.0, 0.0));
    assert l[..2][..1] == l[..1];
    assert l[..2] == l;
  }

  /** A wire ending one unit left of a cell boundary and a box starting one
      unit right of it touch within the tolerance, yet the unexpanded query
      of the box's cell does not return the wire. */
  lemma AsWrittenQueryMissesContact()
    ensures var d := Drawing([[Point(2001.0, 0.0), Point(2100.0, 0.0), Point(2100.0, 100.0),
                               Point(2001.0, 100.0), Point(2001.0, 0.0)]],
                             [], [], [], [[Point(1999.0, 0.0), Point(1999.0, 10.0)]]);
      && PolylineIntersectsRect(d.wire[0], d.box[0], EPS)
      && WireId(0) !in CandidatesAsWritten(GridOf(WireItems(d), CELL), BBox(d.box[0]).value)
      && WireId(0) in Candidates(GridOf(WireItems(d), CELL), BBox(d.box[0]).value, EPS)
  {
    var rect := [Point(2001.0, 0.0), Point(2100.0, 0.0), Point(2100.0, 100.0),
                 Point(2001.0, 100.0), Point(2001.0, 0.0)];
    var wire := [Point(1999.0, 0.0), Point(1999.0, 10.0)];
    var d := Drawing([rect], [], [], [], [wire]);
    ExampleRectBox(rect);
    ExampleWireBox(wire);
    VertexInRectHits(wire, rect, 0, EPS);
    CandidatesFindWire(d, EPS, 0, rect);
    // The wire is filed under cell (0, 0) only; the query covers cell (1, 0) only.
    ExampleCells();
    var items := WireItems(d);
    assert items[0] == (WireId(0), Some(Rect(1999.0, 0.0, 1999.0, 10.0)));
    DisjointCellsMiss(items, WireId(0));
  }
}
