/**
 * `buildAdjacencyForComp` (src/link/fn.js): the contact lists of one
 * component, found through grid indexes over the component's own wires and
 * parts and then filtered by the exact contact tests.
 */
module CompAdj {
  import opened Wrappers
  import opened Geometry
  import opened GridIndex
  import opened Ids
  import opened Drawing
  import opened LinkSets

  // ---------------------------------------------------------------------
  // Filtering a candidate list
  // ---------------------------------------------------------------------

  /** The candidates that pass a test, in candidate order. */
  function Keep(s: seq<NodeId>, f: NodeId -> bool): seq<NodeId>
    decreases |s|
  {
    if s == [] then []
    else Keep(s[..|s| - 1], f) + (if f(s[|s| - 1]) then [s[|s| - 1]] else [])
  }

  /** A kept id is a candidate that passes the test, and every such
      candidate is kept; a list without repetition stays so. */
  lemma {:induction false} KeepSpec(s: seq<NodeId>, f: NodeId -> bool)
    ensures forall x :: x in Keep(s, f) <==> x in s && f(x)
    ensures NoDup(s) ==> NoDup(Keep(s, f))
    decreases |s|
  {
    if s != [] {
      var init, x := s[..|s| - 1], s[|s| - 1];
      KeepSpec(init, f);
      assert s == init + [x];
      if NoDup(s) {
        assert NoDup(init) by {
          forall a, b | 0 <= a < b < |init| ensures init[a] != init[b] {
            assert init[a] == s[a] && init[b] == s[b];
          }
        }
        assert x !in init;
      }
    }
  }

  /** The inner loop of each table: push every candidate that passes the
      exact test. */
  method KeepLoop(s: seq<NodeId>, f: NodeId -> bool) returns (arr: seq<NodeId>)
    ensures arr == Keep(s, f)
  {
    arr := [];
    for k := 0 to |s|
      invariant arr == Keep(s[..k], f)
    {
      assert s[..k + 1][..k] == s[..k];
      if f(s[k]) {
        arr := arr + [s[k]];
      }
    }
    assert s[..|s|] == s;
  }

  // ---------------------------------------------------------------------
  // The component's indexes
  // ---------------------------------------------------------------------

  /** The component's nodes name elements of the drawing that have a box:
      what `buildAdjacencyForComp` needs to query its indexes. */
  predicate Indexable(d: Drawing, c: Comp) {
    && c.box < |d.box| && BBox(d.box[c.box]).Some?
    && (forall k :: 0 <= k < |c.wires| ==> c.wires[k] < |d.wire| && BBox(d.wire[c.wires[k]]).Some?)
    && (forall k :: 0 <= k < |c.parts| ==> c.parts[k].PartId? && ValidNode(d, c.parts[k]) && BBox(Pts(d, c.parts[k])).Some?)
  }

  /** The component's wires with their boxes, for its wire index. */
  function WireItemsOf(d: Drawing, ws: seq<nat>): (r: seq<(NodeId, Option<Rect>)>)
    requires forall k :: 0 <= k < |ws| ==> ws[k] < |d.wire|
    ensures |r| == |ws| && forall k :: 0 <= k < |ws| ==> r[k] == (WireId(ws[k]), BBox(d.wire[ws[k]]))
  {
    seq(|ws|, k requires 0 <= k < |ws| => (WireId(ws[k]), BBox(d.wire[ws[k]])))
  }

  /** The component's parts with their boxes, for its part index. */
  function PartItemsOf(d: Drawing, ps: seq<NodeId>): (r: seq<(NodeId, Option<Rect>)>)
    requires forall k :: 0 <= k < |ps| ==> ValidNode(d, ps[k])
    ensures |r| == |ps| && forall k :: 0 <= k < |ps| ==> r[k] == (ps[k], BBox(Pts(d, ps[k])))
  {
    seq(|ps|, k requires 0 <= k < |ps| => (ps[k], BBox(Pts(d, ps[k]))))
  }

  /** An item whose box meets the query box within the tolerance is a candidate. */
  lemma FoundIfNear(items: seq<(NodeId, Option<Rect>)>, k: nat, q: Rect, eps: Tol)
    requires k < |items| && items[k].1.Some?
    requires WellFormed(items[k].1.value) && WellFormed(q) && BBoxIntersects(items[k].1.value, q, eps)
    ensures items[k].0 in Candidates(GridOf(items, CELL), q, eps)
  {
    BBoxIntersectsIsOverlapGrown(items[k].1.value, q, eps);
    QueryFindsOverlap(items, k, Grow(q, eps), CELL);
  }

  /** Only indexed ids are candidates. */
  lemma CandidateIndexed(items: seq<(NodeId, Option<Rect>)>, q: Rect, eps: Tol, x: NodeId) returns (k: nat)
    requires x in Candidates(GridOf(items, CELL), q, eps)
    ensures k < |items| && items[k].0 == x
  {
    QuerySound(items, CellsOf(Grow(q, eps), CELL), CELL, x);
    k :| 0 <= k < |items| && items[k].0 == x;
  }

  /** The candidate lists have no repetition. */
  lemma CandidatesNoDup(items: seq<(NodeId, Option<Rect>)>, q: Rect, eps: Tol)
    ensures NoDup(Candidates(GridOf(items, CELL), q, eps))
  {
    var x: NodeId :| true;
    QuerySpec(items, Grow(q, eps), CELL, x);
  }

  // ---------------------------------------------------------------------
  // The exact tests
  // ---------------------------------------------------------------------

  /** A wire of the drawing that touches the rectangle. */
  function TouchesRect(d: Drawing, eps: Tol, rect: seq<Point>): NodeId -> bool {
    (x: NodeId) => x.WireId? && x.i < |d.wire| && PolylineIntersectsRect(d.wire[x.i], rect, eps)
  }

  /** A part of the drawing that the wire touches. */
  function TouchedBy(d: Drawing, eps: Tol, wire: seq<Point>): NodeId -> bool {
    (x: NodeId) => x.PartId? && ValidNode(d, x) && PolylineIntersectsRect(wire, Pts(d, x), eps)
  }

  /** Another wire of the drawing that wire `w` touches. */
  function Meets(d: Drawing, eps: Tol, w: nat): NodeId -> bool {
    (x: NodeId) => x.WireId? && x.i != w && x.i < |d.wire| && w < |d.wire| && PolylineIntersectsPolyline(d.wire[w], d.wire[x.i], eps)
  }

  // ---------------------------------------------------------------------
  // The four tables
  // ---------------------------------------------------------------------

  /** The tables `buildAdjacencyForComp` returns, keyed by node: the wires
      touching the component's box, the wires touching each part, the parts
      each wire touches and the other wires each wire touches. */
  datatype Adjacency = Adjacency(
    boxToWires: seq<NodeId>,
    partToWires: map<NodeId, seq<NodeId>>,
    wireToParts: map<NodeId, seq<NodeId>>,
    wireToWires: map<NodeId, seq<NodeId>>)

  function WireGrid(d: Drawing, c: Comp): Grid<NodeId>
    requires Indexable(d, c)
  {
    GridOf(WireItemsOf(d, c.wires), CELL)
  }

  function PartGrid(d: Drawing, c: Comp): Grid<NodeId>
    requires Indexable(d, c)
  {
    GridOf(PartItemsOf(d, c.parts), CELL)
  }

  /** The wires of the component touching a rectangle, in candidate order. */
  function WiresOn(d: Drawing, eps: Tol, c: Comp, rect: seq<Point>): seq<NodeId>
    requires Indexable(d, c) && BBox(rect).Some?
  {
    Keep(Candidates(WireGrid(d, c), BBox(rect).value, eps), TouchesRect(d, eps, rect))
  }

  /** The parts of the component that wire `w` touches, in candidate order. */
  function PartsOn(d: Drawing, eps: Tol, c: Comp, w: nat): seq<NodeId>
    requires Indexable(d, c) && w < |d.wire| && BBox(d.wire[w]).Some?
  {
    Keep(Candidates(PartGrid(d, c), BBox(d.wire[w]).value, eps), TouchedBy(d, eps, d.wire[w]))
  }

  /** The other wires of the component that wire `w` touches, in candidate order. */
  function WiresMet(d: Drawing, eps: Tol, c: Comp, w: nat): seq<NodeId>
    requires Indexable(d, c) && w < |d.wire| && BBox(d.wire[w]).Some?
  {
    Keep(Candidates(WireGrid(d, c), BBox(d.wire[w]).value, eps), Meets(d, eps, w))
  }

  /** The wire nodes of a component, in order. */
  function WireNodes(c: Comp): (r: seq<NodeId>)
    ensures |r| == |c.wires| && forall k :: 0 <= k < |c.wires| ==> r[k] == WireId(c.wires[k])
  {
    seq(|c.wires|, k requires 0 <= k < |c.wires| => WireId(c.wires[k]))
  }

  /** A table with one row per key. */
  function Table(keys: seq<NodeId>, row: NodeId -> seq<NodeId>): map<NodeId, seq<NodeId>> {
    map x | x in keys :: row(x)
  }

  lemma TableSnoc(keys: seq<NodeId>, x: NodeId, row: NodeId -> seq<NodeId>)
    ensures Table(keys + [x], row) == Table(keys, row)[x := row(x)]
  {
  }

  /** One more key filled in: the loops' step. */
  lemma TableStep(keys: seq<NodeId>, k: nat, row: NodeId -> seq<NodeId>)
    requires k < |keys|
    ensures Table(keys[..k + 1], row) == Table(keys[..k], row)[keys[k] := row(keys[k])]
  {
    assert keys[..k + 1] == keys[..k] + [keys[k]];
    TableSnoc(keys[..k], keys[k], row);
  }

  /** The row of a part: the wires on its rectangle. */
  function PartRow(d: Drawing, eps: Tol, c: Comp): NodeId -> seq<NodeId> {
    (p: NodeId) => if Indexable(d, c) && ValidNode(d, p) && BBox(Pts(d, p)).Some? then WiresOn(d, eps, c, Pts(d, p)) else []
  }

  /** The row of a wire in `wire -> parts`: the parts it touches. */
  function WirePartRow(d: Drawing, eps: Tol, c: Comp): NodeId -> seq<NodeId> {
    (x: NodeId) => if Indexable(d, c) && x.WireId? && x.i < |d.wire| && BBox(d.wire[x.i]).Some? then PartsOn(d, eps, c, x.i) else []
  }

  /** The row of a wire in `wire -> wire`: the other wires it touches. */
  function WireWireRow(d: Drawing, eps: Tol, c: Comp): NodeId -> seq<NodeId> {
    (x: NodeId) => if Indexable(d, c) && x.WireId? && x.i < |d.wire| && BBox(d.wire[x.i]).Some? then WiresMet(d, eps, c, x.i) else []
  }

  function AdjacencyOf(d: Drawing, eps: Tol, c: Comp): Adjacency
    requires Indexable(d, c)
  {
    Adjacency(
      WiresOn(d, eps, c, d.box[c.box]),
      Table(c.parts, PartRow(d, eps, c)),
      Table(WireNodes(c), WirePartRow(d, eps, c)),
      Table(WireNodes(c), WireWireRow(d, eps, c)))
  }

  // ---------------------------------------------------------------------
  // What the tables hold
  // ---------------------------------------------------------------------

  /** The wires on a rectangle are exactly the component's wires touching
      it, each once. */
  lemma WiresOnSpec(d: Drawing, eps: Tol, c: Comp, rect: seq<Point>)
    requires Indexable(d, c) && BBox(rect).Some?
    ensures NoDup(WiresOn(d, eps, c, rect))
    ensures forall x :: x in WiresOn(d, eps, c, rect) <==>
              x.WireId? && x.i in c.wires && PolylineIntersectsRect(d.wire[x.i], rect, eps)
  {
    var items := WireItemsOf(d, c.wires);
    var q := BBox(rect).value;
    var f := TouchesRect(d, eps, rect);
    KeepSpec(Candidates(WireGrid(d, c), q, eps), f);
    CandidatesNoDup(items, q, eps);
    BBoxWellFormed(rect);
    forall x: NodeId | x.WireId? && x.i in c.wires && PolylineIntersectsRect(d.wire[x.i], rect, eps)
      ensures x in Candidates(WireGrid(d, c), q, eps)
    {
      var k :| 0 <= k < |c.wires| && c.wires[k] == x.i;
      BBoxWellFormed(d.wire[x.i]);
      FoundIfNear(items, k, q, eps);
    }
    forall x | x in Candidates(WireGrid(d, c), q, eps) ensures x.WireId? && x.i in c.wires {
      var k := CandidateIndexed(items, q, eps, x);
    }
  }

  /** The parts a wire touches are exactly the component's parts it
      touches, each once. */
  lemma PartsOnSpec(d: Drawing, eps: Tol, c: Comp, w: nat)
    requires Indexable(d, c) && w < |d.wire| && BBox(d.wire[w]).Some?
    ensures NoDup(PartsOn(d, eps, c, w))
    ensures forall x :: x in PartsOn(d, eps, c, w) <==>
              x in c.parts && PolylineIntersectsRect(d.wire[w], Pts(d, x), eps)
  {
    var items := PartItemsOf(d, c.parts);
    var q := BBox(d.wire[w]).value;
    var f := TouchedBy(d, eps, d.wire[w]);
    KeepSpec(Candidates(PartGrid(d, c), q, eps), f);
    CandidatesNoDup(items, q, eps);
    BBoxWellFormed(d.wire[w]);
    forall x | x in c.parts && PolylineIntersectsRect(d.wire[w], Pts(d, x), eps)
      ensures x in Candidates(PartGrid(d, c), q, eps)
    {
      var k :| 0 <= k < |c.parts| && c.parts[k] == x;
      var pb := BBox(Pts(d, x)).value;
      BBoxWellFormed(Pts(d, x));
      BBoxIntersectsSymmetric(q, pb, eps);
      FoundIfNear(items, k, q, eps);
    }
    forall x | x in Candidates(PartGrid(d, c), q, eps) ensures x in c.parts {
      var k := CandidateIndexed(items, q, eps, x);
    }
    forall x | x in c.parts ensures x.PartId? && ValidNode(d, x) {
      var k :| 0 <= k < |c.parts| && c.parts[k] == x;
    }
  }

  /** The wires a wire meets are exactly the component's other wires it
      touches, each once. */
  lemma WiresMetSpec(d: Drawing, eps: Tol, c: Comp, w: nat)
    requires Indexable(d, c) && w < |d.wire| && BBox(d.wire[w]).Some?
    ensures NoDup(WiresMet(d, eps, c, w))
    ensures forall x :: x in WiresMet(d, eps, c, w) <==>
              x.WireId? && x.i != w && x.i in c.wires && PolylineIntersectsPolyline(d.wire[w], d.wire[x.i], eps)
  {
    var items := WireItemsOf(d, c.wires);
    var q := BBox(d.wire[w]).value;
    var f := Meets(d, eps, w);
    KeepSpec(Candidates(WireGrid(d, c), q, eps), f);
    CandidatesNoDup(items, q, eps);
    BBoxWellFormed(d.wire[w]);
    forall x: NodeId | x.WireId? && x.i != w && x.i in c.wires && PolylineIntersectsPolyline(d.wire[w], d.wire[x.i], eps)
      ensures x in Candidates(WireGrid(d, c), q, eps)
    {
      var k :| 0 <= k < |c.wires| && c.wires[k] == x.i;
      BBoxWellFormed(d.wire[x.i]);
      BBoxIntersectsSymmetric(q, BBox(d.wire[x.i]).value, eps);
      FoundIfNear(items, k, q, eps);
    }
    forall x | x in Candidates(WireGrid(d, c), q, eps) ensures x.WireId? && x.i in c.wires {
      var k := CandidateIndexed(items, q, eps, x);
    }
  }

  /** Wire-to-wire contact in the tables goes both ways. */
  lemma WiresMetSymmetric(d: Drawing, eps: Tol, c: Comp, w: nat, v: nat)
    requires Indexable(d, c) && w in c.wires && v in c.wires
    ensures w < |d.wire| && v < |d.wire| && BBox(d.wire[w]).Some? && BBox(d.wire[v]).Some?
    ensures WireId(v) in WiresMet(d, eps, c, w) <==> WireId(w) in WiresMet(d, eps, c, v)
  {
    var kw :| 0 <= kw < |c.wires| && c.wires[kw] == w;
    var kv :| 0 <= kv < |c.wires| && c.wires[kv] == v;
    WiresMetSpec(d, eps, c, w);
    WiresMetSpec(d, eps, c, v);
    PolylineIntersectsPolylineSymmetric(d.wire[w], d.wire[v], eps);
  }

  /** A part lists a wire exactly when the wire lists the part. */
  lemma PartWireSymmetric(d: Drawing, eps: Tol, c: Comp, p: NodeId, w: nat)
    requires Indexable(d, c) && p in c.parts && w in c.wires
    ensures w < |d.wire| && BBox(d.wire[w]).Some? && ValidNode(d, p) && BBox(Pts(d, p)).Some?
    ensures WireId(w) in WiresOn(d, eps, c, Pts(d, p)) <==> p in PartsOn(d, eps, c, w)
  {
    var kw :| 0 <= kw < |c.wires| && c.wires[kw] == w;
    var kp :| 0 <= kp < |c.parts| && c.parts[kp] == p;
    WiresOnSpec(d, eps, c, Pts(d, p));
    PartsOnSpec(d, eps, c, w);
  }

  // ---------------------------------------------------------------------
  // Building the tables
  // ---------------------------------------------------------------------

  /** `box -> wires`, `part -> wires`: query the wire index with the
      rectangle's box and keep the wires that touch the rectangle. */
  method WiresOnRect(d: Drawing, eps: Tol, c: Comp, wgrid: Grid<NodeId>, rect: seq<Point>) returns (arr: seq<NodeId>)
    requires Indexable(d, c) && BBox(rect).Some? && wgrid == WireGrid(d, c)
    ensures arr == WiresOn(d, eps, c, rect)
  {
    var cands := Query(wgrid, Grow(BBox(rect).value, eps), CELL);
    arr := KeepLoop(cands, TouchesRect(d, eps, rect));
  }

  /** `wire -> parts` for one wire: query the part index with the wire's
      box and keep the parts the wire touches. */
  method PartsOnWire(d: Drawing, eps: Tol, c: Comp, pgrid: Grid<NodeId>, w: nat) returns (arr: seq<NodeId>)
    requires Indexable(d, c) && pgrid == PartGrid(d, c) && w < |d.wire| && BBox(d.wire[w]).Some?
    ensures arr == PartsOn(d, eps, c, w)
  {
    var cands := Query(pgrid, Grow(BBox(d.wire[w]).value, eps), CELL);
    arr := KeepLoop(cands, TouchedBy(d, eps, d.wire[w]));
  }

  /** `wire -> wire` for one wire: query the wire index with the wire's
      box and keep the other wires it meets. */
  method WiresMetBy(d: Drawing, eps: Tol, c: Comp, wgrid: Grid<NodeId>, w: nat) returns (arr: seq<NodeId>)
    requires Indexable(d, c) && wgrid == WireGrid(d, c) && w < |d.wire| && BBox(d.wire[w]).Some?
    ensures arr == WiresMet(d, eps, c, w)
  {
    var cands := Query(wgrid, Grow(BBox(d.wire[w]).value, eps), CELL);
    arr := KeepLoop(cands, Meets(d, eps, w));
  }

  /** `part <-> wires`: one list per part of the component. */
  method PartTable(d: Drawing, eps: Tol, c: Comp, wgrid: Grid<NodeId>) returns (m: map<NodeId, seq<NodeId>>)
    requires Indexable(d, c) && wgrid == WireGrid(d, c)
    ensures m == Table(c.parts, PartRow(d, eps, c))
  {
    ghost var row := PartRow(d, eps, c);
    m := map[];
    for k := 0 to |c.parts|
      invariant m == Table(c.parts[..k], row)
    {
      var p := c.parts[k];
      var arr := WiresOnRect(d, eps, c, wgrid, Pts(d, p));
      assert arr == row(p);
      TableStep(c.parts, k, row);
      m := m[p := arr];
    }
    assert c.parts[..|c.parts|] == c.parts;
  }

  /** `wire -> parts`: one list per wire of the component. */
  method WirePartTable(d: Drawing, eps: Tol, c: Comp, pgrid: Grid<NodeId>) returns (m: map<NodeId, seq<NodeId>>)
    requires Indexable(d, c) && pgrid == PartGrid(d, c)
    ensures m == Table(WireNodes(c), WirePartRow(d, eps, c))
  {
    ghost var row := WirePartRow(d, eps, c);
    ghost var keys := WireNodes(c);
    m := map[];
    for k := 0 to |c.wires|
      invariant m == Table(keys[..k], row)
    {
      var w := c.wires[k];
      var arr := PartsOnWire(d, eps, c, pgrid, w);
      assert arr == row(WireId(w));
      TableStep(keys, k, row);
      m := m[WireId(w) := arr];
    }
    assert keys[..|c.wires|] == keys;
  }

  /** `wire -> wire`: one list per wire of the component. */
  method WireWireTable(d: Drawing, eps: Tol, c: Comp, wgrid: Grid<NodeId>) returns (m: map<NodeId, seq<NodeId>>)
    requires Indexable(d, c) && wgrid == WireGrid(d, c)
    ensures m == Table(WireNodes(c), WireWireRow(d, eps, c))
  {
    ghost var row := WireWireRow(d, eps, c);
    ghost var keys := WireNodes(c);
    m := map[];
    for k := 0 to |c.wires|
      invariant m == Table(keys[..k], row)
    {
      var w := c.wires[k];
      var arr := WiresMetBy(d, eps, c, wgrid, w);
      assert arr == row(WireId(w));
      TableStep(keys, k, row);
      m := m[WireId(w) := arr];
    }
    assert keys[..|c.wires|] == keys;
  }

  /** `buildAdjacencyForComp`: the component's two indexes and four tables. */
  method BuildAdjacency(d: Drawing, eps: Tol, c: Comp) returns (a: Adjacency)
    requires Indexable(d, c)
    ensures a == AdjacencyOf(d, eps, c)
  {
    var wgrid := Build(WireItemsOf(d, c.wires), CELL);
    var pgrid := Build(PartItemsOf(d, c.parts), CELL);
    var boxWires := WiresOnRect(d, eps, c, wgrid, d.box[c.box]);
    var partWires := PartTable(d, eps, c, wgrid);
    var wireParts := WirePartTable(d, eps, c, pgrid);
    var wireWires := WireWireTable(d, eps, c, wgrid);
    a := Adjacency(boxWires, partWires, wireParts, wireWires);
  }

  // ---------------------------------------------------------------------
  // Components found by the search can be indexed
  // ---------------------------------------------------------------------

  /** Every node the search reaches from a box with a box of its own has a
      box too: reaching a node means touching it. */
  lemma ReachedHasBox(d: Drawing, eps: Tol, b: nat, v: NodeId)
    requires b < |d.box| && BBox(d.box[b]).Some?
    requires Reachable(d, eps, BoxId(b), v)
    ensures ValidNode(d, v) && BBox(Pts(d, v)).Some?
  {
    var w :| |w| > 0 && w[0] == BoxId(b) && w[|w| - 1] == v && IsWalk(d, eps, w);
    if |w| > 1 {
      var u := w[|w| - 2];
      assert Adj(d, eps, u, v);
    }
  }

  lemma ComponentIndexable(d: Drawing, eps: Tol, b: nat, c: Comp)
    requires b < |d.box| && BBox(d.box[b]).Some?
    requires c.box == b && (forall p :: p in c.parts ==> p.PartId?)
    requires forall v :: InComp(c, v) <==> Reachable(d, eps, BoxId(b), v)
    ensures Indexable(d, c)
  {
    forall k | 0 <= k < |c.wires| ensures c.wires[k] < |d.wire| && BBox(d.wire[c.wires[k]]).Some? {
      assert InComp(c, WireId(c.wires[k]));
      ReachedHasBox(d, eps, b, WireId(c.wires[k]));
    }
    forall k | 0 <= k < |c.parts| ensures c.parts[k].PartId? && ValidNode(d, c.parts[k]) && BBox(Pts(d, c.parts[k])).Some? {
      assert c.parts[k] in c.parts;
      assert InComp(c, c.parts[k]);
      ReachedHasBox(d, eps, b, c.parts[k]);
    }
  }
}
