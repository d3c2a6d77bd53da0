/**
 * `buildLinkSets` (src/link/fn.js): a breadth-first search from every box
 * over box, wire and part nodes, through the grid indexes, keeping a visited
 * set and collecting the wires and parts met into one component per box.
 */
module LinkSets {
  import opened Wrappers
  import opened Geometry
  import opened GridIndex
  import opened Ids
  import opened Drawing

  // ---------------------------------------------------------------------
  // Walks and reachability
  // ---------------------------------------------------------------------

  /** Consecutive nodes of the walk are in contact. */
  ghost predicate IsWalk(d: Drawing, eps: Tol, w: seq<NodeId>) {
    forall k :: 0 <= k < |w| - 1 ==> Adj(d, eps, w[k], w[k + 1])
  }

  /** `v` can be reached from `u` by following contacts. */
  ghost predicate Reachable(d: Drawing, eps: Tol, u: NodeId, v: NodeId) {
    exists w :: |w| > 0 && w[0] == u && w[|w| - 1] == v && IsWalk(d, eps, w)
  }

  /** Every node after the first was found from an earlier one it is in
      contact with, its parent: the order in which a search discovers nodes. */
  ghost predicate Chain(d: Drawing, eps: Tol, order: seq<NodeId>, parent: seq<nat>) {
    && |parent| == |order|
    && forall k :: 1 <= k < |order| ==> parent[k] < k && Adj(d, eps, order[parent[k]], order[k])
  }

  lemma WalkSnoc(d: Drawing, eps: Tol, w: seq<NodeId>, x: NodeId)
    requires |w| > 0 && IsWalk(d, eps, w) && Adj(d, eps, w[|w| - 1], x)
    ensures IsWalk(d, eps, w + [x])
  {
    var w2 := w + [x];
    forall k | 0 <= k < |w2| - 1
      ensures Adj(d, eps, w2[k], w2[k + 1])
    {
      if k < |w| - 1 {
        assert w2[k] == w[k] && w2[k + 1] == w[k + 1];
      }
    }
  }

  /** A walk from the first node of a discovery order to its `k`-th node. */
  lemma {:induction false} ChainWalk(d: Drawing, eps: Tol, order: seq<NodeId>, parent: seq<nat>, k: nat)
    returns (w: seq<NodeId>)
    requires Chain(d, eps, order, parent) && k < |order|
    ensures |w| > 0 && w[0] == order[0] && w[|w| - 1] == order[k] && IsWalk(d, eps, w)
    decreases k
  {
    if k == 0 {
      w := [order[0]];
    } else {
      var j := parent[k];
      var w0 := ChainWalk(d, eps, order, parent, j);
      assert Adj(d, eps, order[j], order[k]);
      WalkSnoc(d, eps, w0, order[k]);
      w := w0 + [order[k]];
    }
  }

  /** Every node of a discovery order is reachable from its first node. */
  lemma ChainReachable(d: Drawing, eps: Tol, order: seq<NodeId>, parent: seq<nat>, k: nat)
    requires Chain(d, eps, order, parent) && k < |order|
    ensures Reachable(d, eps, order[0], order[k])
  {
    var w := ChainWalk(d, eps, order, parent, k);
    assert |w| > 0 && w[0] == order[0] && w[|w| - 1] == order[k] && IsWalk(d, eps, w);
  }

  /** A set closed under contact holds every walk that starts in it. */
  lemma {:induction false} ClosedHoldsWalk(d: Drawing, eps: Tol, s: set<NodeId>, w: seq<NodeId>)
    requires forall u, v :: u in s && Adj(d, eps, u, v) ==> v in s
    requires |w| > 0 && w[0] in s && IsWalk(d, eps, w)
    ensures w[|w| - 1] in s
    decreases |w|
  {
    if |w| > 1 {
      var init := w[..|w| - 1];
      assert IsWalk(d, eps, init) by {
        forall k | 0 <= k < |init| - 1
          ensures Adj(d, eps, init[k], init[k + 1])
        {
          assert init[k] == w[k] && init[k + 1] == w[k + 1];
        }
      }
      ClosedHoldsWalk(d, eps, s, init);
      assert Adj(d, eps, w[|w| - 2], w[|w| - 1]);
    }
  }

  // ---------------------------------------------------------------------
  // Components
  // ---------------------------------------------------------------------

  /** `comp`: the start box, the wires (`comp.wires`) and the parts
      (`comp.parts`) in the order they were reached. */
  datatype Comp = Comp(box: nat, wires: seq<nat>, parts: seq<NodeId>)

  predicate InComp(c: Comp, v: NodeId) {
    v == BoxId(c.box) || (v.WireId? && v.i in c.wires) || (v.PartId? && v in c.parts)
  }

  /** The wire numbers of a node list, in order. */
  function WiresOf(order: seq<NodeId>): seq<nat>
    decreases |order|
  {
    if order == [] then []
    else
      var x := order[|order| - 1];
      WiresOf(order[..|order| - 1]) + (if x.WireId? then [x.i] else [])
  }

  /** The parts of a node list, in order. */
  function PartsOf(order: seq<NodeId>): seq<NodeId>
    decreases |order|
  {
    if order == [] then []
    else
      var x := order[|order| - 1];
      PartsOf(order[..|order| - 1]) + (if x.PartId? then [x] else [])
  }

  lemma WiresOfSnoc(order: seq<NodeId>, x: NodeId)
    ensures WiresOf(order + [x]) == WiresOf(order) + (if x.WireId? then [x.i] else [])
    ensures PartsOf(order + [x]) == PartsOf(order) + (if x.PartId? then [x] else [])
  {
    assert (order + [x])[..|order|] == order;
  }

  /** The projections hold exactly the wires and parts of the list, each
      once when the list has no repetition. */
  lemma {:induction false} ProjectionsSpec(order: seq<NodeId>)
    ensures forall i :: i in WiresOf(order) <==> WireId(i) in order
    ensures forall p :: p in PartsOf(order) <==> p.PartId? && p in order
    ensures NoDup(order) ==> NoDup(WiresOf(order)) && NoDup(PartsOf(order))
    decreases |order|
  {
    if order != [] {
      var init, x := order[..|order| - 1], order[|order| - 1];
      ProjectionsSpec(init);
      assert order == init + [x];
      if NoDup(order) {
        assert NoDup(init) by {
          forall a, b | 0 <= a < b < |init| ensures init[a] != init[b] {
            assert init[a] == order[a] && init[b] == order[b];
          }
        }
        assert x !in init;
      }
    }
  }

  // ---------------------------------------------------------------------
  // The search
  // ---------------------------------------------------------------------

  /** The elements of a list, as a set. */
  function SetOf(order: seq<NodeId>): set<NodeId>
    decreases |order|
  {
    if order == [] then {} else SetOf(order[..|order| - 1]) + {order[|order| - 1]}
  }

  lemma {:induction false} SetOfSpec(order: seq<NodeId>, x: NodeId)
    ensures x in SetOf(order) <==> x in order
    decreases |order|
  {
    if order != [] {
      SetOfSpec(order[..|order| - 1], x);
      assert order == order[..|order| - 1] + [order[|order| - 1]];
    }
  }

  /** What the search keeps in step: the visited set is the set of
      discovered nodes, discovered once each (as many nodes as entries), all
      of the drawing, and the
      component lists are their wire and part projections. */
  ghost predicate Coupled(all: set<NodeId>, order: seq<NodeId>, visited: set<NodeId>, wires: seq<nat>, parts: seq<NodeId>) {
    && visited == SetOf(order)
    && |visited| == |order|
    && visited <= all
    && wires == WiresOf(order)
    && parts == PartsOf(order)
  }

  /** Discovering one more node keeps the search state coupled and shrinks
      the undiscovered part of the drawing by one. */
  lemma Discover(all: set<NodeId>, order0: seq<NodeId>, added: seq<NodeId>, visited: set<NodeId>,
                 wires: seq<nat>, parts: seq<NodeId>, x: NodeId)
    requires Coupled(all, order0 + added, visited, wires, parts)
    requires x in all && x !in visited
    ensures Coupled(all, order0 + (added + [x]), visited + {x}, wires + (if x.WireId? then [x.i] else []),
                    parts + (if x.PartId? then [x] else []))
    ensures |all - (visited + {x})| == |all - visited| - 1
  {
    var order := order0 + added;
    var o := order + [x];
    assert o == order0 + (added + [x]);
    assert o[..|order|] == order;
    assert all - (visited + {x}) == (all - visited) - {x};
    WiresOfSnoc(order, x);
  }

  /** A list with as many distinct elements as entries has no repetition. */
  lemma {:induction false} CountedNoDup(order: seq<NodeId>)
    ensures |SetOf(order)| <= |order|
    ensures |SetOf(order)| == |order| ==> NoDup(order)
    decreases |order|
  {
    if order != [] {
      var init, x := order[..|order| - 1], order[|order| - 1];
      CountedNoDup(init);
      SetOfSpec(init, x);
      if |SetOf(order)| == |order| {
        assert x !in SetOf(init);
        forall a, b | 0 <= a < b < |order| ensures order[a] != order[b] {
          if b < |init| {
            assert order[a] == init[a] && order[b] == init[b];
          } else {
            assert order[a] == init[a];
          }
        }
      }
    }
  }

  /** The parent indices after `n` nodes are discovered from `order[from]`. */
  ghost function Adopted(parent0: seq<nat>, n: nat, from: nat): (r: seq<nat>)
    ensures |r| == |parent0| + n
    ensures forall k :: 0 <= k < |parent0| ==> r[k] == parent0[k]
    ensures forall k :: |parent0| <= k < |r| ==> r[k] == from
  {
    parent0 + seq(n, _ => from)
  }

  /** Nodes appended to a discovery order, each in contact with the node at
      `from`, extend it with `from` as their parent. */
  lemma ChainExtend(d: Drawing, eps: Tol, order0: seq<NodeId>, parent0: seq<nat>, added: seq<NodeId>, from: nat)
    requires Chain(d, eps, order0, parent0) && from < |order0|
    requires forall k :: 0 <= k < |added| ==> Adj(d, eps, order0[from], added[k])
    ensures Chain(d, eps, order0 + added, Adopted(parent0, |added|, from))
    ensures forall k :: 0 <= k < |added| ==> !added[k].BoxId?
  {
    var order, parent := order0 + added, Adopted(parent0, |added|, from);
    forall k | 0 <= k < |added| ensures !added[k].BoxId? {
      AdjTarget(d, eps, order0[from], added[k]);
    }
    forall k | 1 <= k < |order| ensures parent[k] < k && Adj(d, eps, order[parent[k]], order[k]) {
      if k < |order0| {
        assert order[parent[k]] == order0[parent0[k]] && order[k] == order0[k];
      } else {
        assert parent[k] == from && order[from] == order0[from] && order[k] == added[k - |order0|];
      }
    }
  }

  /** The loop over one candidate list: every candidate passing `test` that
      was not visited yet is marked, queued and added to the component. */
  method Scan(ghost all: set<NodeId>, test: NodeId -> bool, cands: seq<NodeId>,
              visited0: set<NodeId>, q0: seq<NodeId>, wires0: seq<nat>, parts0: seq<NodeId>,
              ghost order0: seq<NodeId>)
    returns (visited: set<NodeId>, q: seq<NodeId>, wires: seq<nat>, parts: seq<NodeId>,
             ghost added: seq<NodeId>)
    requires Coupled(all, order0, visited0, wires0, parts0)
    requires forall x :: test(x) ==> x in all
    ensures Coupled(all, order0 + added, visited, wires, parts)
    ensures visited0 <= visited
    ensures q == q0 + added
    ensures forall k :: 0 <= k < |added| ==> test(added[k])
    ensures forall j :: 0 <= j < |cands| && test(cands[j]) ==> cands[j] in visited
    ensures |all - visited| + |q| == |all - visited0| + |q0|
  {
    visited, q, wires, parts, added := visited0, q0, wires0, parts0, [];
    assert order0 + added == order0;
    var i := 0;
    while i < |cands|
      invariant 0 <= i <= |cands|
      invariant Coupled(all, order0 + added, visited, wires, parts)
      invariant visited0 <= visited
      invariant q == q0 + added
      invariant forall k :: 0 <= k < |added| ==> test(added[k])
      invariant forall j :: 0 <= j < i && test(cands[j]) ==> cands[j] in visited
      invariant |all - visited| + |q| == |all - visited0| + |q0|
    {
      var x := cands[i];
      if test(x) && x !in visited {
        Discover(all, order0, added, visited, wires, parts, x);
        visited := visited + {x};
        q := q + [x];
        if x.WireId? { wires := wires + [x.i]; }
        if x.PartId? { parts := parts + [x]; }
        added := added + [x];
      }
      i := i + 1;
    }
  }

  /** Contact ends in a wire or a part, never in a box. */
  lemma AdjTarget(d: Drawing, eps: Tol, u: NodeId, v: NodeId)
    requires Adj(d, eps, u, v)
    ensures !v.BoxId?
    ensures v.PartId? ==> BBox(Pts(d, v)).Some?
    ensures u.WireId? ==> BBox(Pts(d, u)).Some?
  {
  }

  /** Every contact of a box or a part is a wire the wire index returns for
      its grown box. */
  lemma RectContactsFound(d: Drawing, eps: Tol, u: NodeId, v: NodeId)
    requires (u.BoxId? || u.PartId?) && Adj(d, eps, u, v)
    ensures BBox(Pts(d, u)).Some?
    ensures v in Candidates(GridOf(WireItems(d), CELL), BBox(Pts(d, u)).value, eps)
  {
    CandidatesFindWire(d, eps, v.i, Pts(d, u));
  }

  /** Every contact of a wire is a part the part index returns or a wire the
      wire index returns for its grown box. */
  lemma WireContactsFound(d: Drawing, eps: Tol, u: NodeId, v: NodeId)
    requires u.WireId? && Adj(d, eps, u, v)
    ensures BBox(Pts(d, u)).Some?
    ensures v.PartId? ==> v in Candidates(GridOf(PartItems(d), CELL), BBox(Pts(d, u)).value, eps)
    ensures v.WireId? ==> v in Candidates(GridOf(WireItems(d), CELL), BBox(Pts(d, u)).value, eps)
  {
    if v.PartId? {
      CandidatesFindPart(d, eps, u.i, v);
    } else {
      CandidatesFindWireFromWire(d, eps, u.i, v.i);
    }
  }

  /** The search state after scanning the contacts of `u`: what `Scan`
      promises, with Adj in place of the test. */
  ghost predicate Scanned(d: Drawing, all: set<NodeId>, eps: Tol, u: NodeId,
                          order0: seq<NodeId>, visited0: set<NodeId>, q0: seq<NodeId>,
                          added: seq<NodeId>, visited: set<NodeId>, q: seq<NodeId>, wires: seq<nat>, parts: seq<NodeId>) {
    && Coupled(all, order0 + added, visited, wires, parts)
    && visited0 <= visited
    && q == q0 + added
    && (forall k :: 0 <= k < |added| ==> Adj(d, eps, u, added[k]))
    && (forall v :: Adj(d, eps, u, v) ==> v in visited)
    && |all - visited| + |q| == |all - visited0| + |q0|
  }

  /** What a scan of the candidates `cs` for node `u` leaves: the search
      state extended by `added`, every node in contact with `u` among `cs`
      visited, and only such nodes added. */
  ghost predicate ScannedAmong(d: Drawing, all: set<NodeId>, eps: Tol, u: NodeId, cs: seq<NodeId>,
                               order0: seq<NodeId>, visited0: set<NodeId>, q0: seq<NodeId>,
                               added: seq<NodeId>, visited: set<NodeId>, q: seq<NodeId>, wires: seq<nat>, parts: seq<NodeId>) {
    && Coupled(all, order0 + added, visited, wires, parts)
    && visited0 <= visited
    && q == q0 + added
    && (forall k :: 0 <= k < |added| ==> Adj(d, eps, u, added[k]))
    && (forall v :: v in cs && Adj(d, eps, u, v) ==> v in visited)
    && |all - visited| + |q| == |all - visited0| + |q0|
  }

  /** Scans the candidates the grid gives for rectangle `r` grown by `eps`,
      keeping those in contact with `u`. */
  method ScanNear(d: Drawing, ghost all: set<NodeId>, eps: Tol, grid: Grid<NodeId>, u: NodeId, r: Rect,
                  visited0: set<NodeId>, q0: seq<NodeId>, wires0: seq<nat>, parts0: seq<NodeId>,
                  ghost order0: seq<NodeId>)
    returns (visited: set<NodeId>, q: seq<NodeId>, wires: seq<nat>, parts: seq<NodeId>, ghost added: seq<NodeId>)
    requires all == AllNodes(d)
    requires Coupled(all, order0, visited0, wires0, parts0)
    ensures ScannedAmong(d, all, eps, u, Candidates(grid, r, eps), order0, visited0, q0, added, visited, q, wires, parts)
  {
    var test := x => ValidNode(d, x) && Adj(d, eps, u, x);
    forall x | test(x) ensures x in all {
      AllNodesValid(d, x);
    }
    var cands := Query(grid, Grow(r, eps), CELL);
    visited, q, wires, parts, added := Scan(all, test, cands, visited0, q0, wires0, parts0, order0);
    forall v | v in cands && Adj(d, eps, u, v) ensures v in visited {
      var j :| 0 <= j < |cands| && cands[j] == v;
      assert test(cands[j]);
    }
  }

  /** The turn of a box or a part: the wires touching its rectangle. */
  method RectStep(d: Drawing, ghost all: set<NodeId>, eps: Tol, wgrid: Grid<NodeId>, u: NodeId,
                  visited0: set<NodeId>, q0: seq<NodeId>, wires0: seq<nat>, parts0: seq<NodeId>,
                  ghost order0: seq<NodeId>)
    returns (visited: set<NodeId>, q: seq<NodeId>, wires: seq<nat>, parts: seq<NodeId>, ghost added: seq<NodeId>)
    requires wgrid == GridOf(WireItems(d), CELL) && all == AllNodes(d)
    requires Coupled(all, order0, visited0, wires0, parts0)
    requires (u.BoxId? || u.PartId?) && ValidNode(d, u) && BBox(Pts(d, u)).Some?
    ensures Scanned(d, all, eps, u, order0, visited0, q0, added, visited, q, wires, parts)
  {
    visited, q, wires, parts, added := ScanNear(d, all, eps, wgrid, u, BBox(Pts(d, u)).value, visited0, q0, wires0, parts0, order0);
    forall v | Adj(d, eps, u, v) ensures v in visited {
      RectContactsFound(d, eps, u, v);
    }
  }

  /** The scan of a wire's part candidates followed by the scan of its wire
      candidates is a complete turn for the wire. */
  lemma BothScans(d: Drawing, all: set<NodeId>, eps: Tol, u: NodeId, order0: seq<NodeId>,
                  visited0: set<NodeId>, q0: seq<NodeId>,
                  a1: seq<NodeId>, visited1: set<NodeId>, q1: seq<NodeId>, wires1: seq<nat>, parts1: seq<NodeId>,
                  a2: seq<NodeId>, visited: set<NodeId>, q: seq<NodeId>, wires: seq<nat>, parts: seq<NodeId>)
    requires u.WireId? && ValidNode(d, u) && BBox(Pts(d, u)).Some?
    requires ScannedAmong(d, all, eps, u, Candidates(GridOf(PartItems(d), CELL), BBox(Pts(d, u)).value, eps),
                          order0, visited0, q0, a1, visited1, q1, wires1, parts1)
    requires ScannedAmong(d, all, eps, u, Candidates(GridOf(WireItems(d), CELL), BBox(Pts(d, u)).value, eps),
                          order0 + a1, visited1, q1, a2, visited, q, wires, parts)
    ensures Scanned(d, all, eps, u, order0, visited0, q0, a1 + a2, visited, q, wires, parts)
  {
    var added := a1 + a2;
    AppendAssoc(order0, a1, a2);
    AppendAssoc(q0, a1, a2);
    forall k | 0 <= k < |added| ensures Adj(d, eps, u, added[k]) {
      if k < |a1| { assert added[k] == a1[k]; } else { assert added[k] == a2[k - |a1|]; }
    }
    forall v | Adj(d, eps, u, v) ensures v in visited {
      WireContactsFound(d, eps, u, v);
    }
  }

  /** The turn of a wire: the parts it touches, then the other wires it touches. */
  method WireStep(d: Drawing, ghost all: set<NodeId>, eps: Tol, wgrid: Grid<NodeId>, pgrid: Grid<NodeId>, u: NodeId,
                  visited0: set<NodeId>, q0: seq<NodeId>, wires0: seq<nat>, parts0: seq<NodeId>,
                  ghost order0: seq<NodeId>)
    returns (visited: set<NodeId>, q: seq<NodeId>, wires: seq<nat>, parts: seq<NodeId>, ghost added: seq<NodeId>)
    requires wgrid == GridOf(WireItems(d), CELL) && pgrid == GridOf(PartItems(d), CELL) && all == AllNodes(d)
    requires Coupled(all, order0, visited0, wires0, parts0)
    requires u.WireId? && ValidNode(d, u) && BBox(Pts(d, u)).Some?
    ensures Scanned(d, all, eps, u, order0, visited0, q0, added, visited, q, wires, parts)
  {
    var wb := BBox(Pts(d, u)).value;
    ghost var a1, a2;
    var visited1, q1, wires1, parts1;
    visited1, q1, wires1, parts1, a1 := ScanNear(d, all, eps, pgrid, u, wb, visited0, q0, wires0, parts0, order0);
    visited, q, wires, parts, a2 := ScanNear(d, all, eps, wgrid, u, wb, visited1, q1, wires1, parts1, order0 + a1);
    added := a1 + a2;
    BothScans(d, all, eps, u, order0, visited0, q0, a1, visited1, q1, wires1, parts1, a2, visited, q, wires, parts);
  }

  /** A wire with no points touches nothing: its turn changes nothing. */
  lemma IsolatedWire(d: Drawing, all: set<NodeId>, eps: Tol, u: NodeId, order0: seq<NodeId>,
                     visited0: set<NodeId>, q0: seq<NodeId>, wires0: seq<nat>, parts0: seq<NodeId>)
    requires Coupled(all, order0, visited0, wires0, parts0)
    requires u.WireId? && ValidNode(d, u) && BBox(Pts(d, u)).None?
    ensures Scanned(d, all, eps, u, order0, visited0, q0, [], visited0, q0, wires0, parts0)
  {
    assert order0 + [] == order0 && q0 + [] == q0;
    forall v | Adj(d, eps, u, v) ensures false {
      AdjTarget(d, eps, u, v);
    }
  }

  /** One turn of the search: the node taken from the queue has every node
      it is in contact with marked visited, the new ones queued. */
  method Step(d: Drawing, ghost all: set<NodeId>, eps: Tol, wgrid: Grid<NodeId>, pgrid: Grid<NodeId>, u: NodeId,
              visited0: set<NodeId>, q0: seq<NodeId>, wires0: seq<nat>, parts0: seq<NodeId>,
              ghost order0: seq<NodeId>, ghost parent0: seq<nat>, ghost from: nat)
    returns (visited: set<NodeId>, q: seq<NodeId>, wires: seq<nat>, parts: seq<NodeId>,
             ghost added: seq<NodeId>, ghost parent: seq<nat>)
    requires wgrid == GridOf(WireItems(d), CELL) && pgrid == GridOf(PartItems(d), CELL)
    requires all == AllNodes(d)
    requires Coupled(all, order0, visited0, wires0, parts0) && Chain(d, eps, order0, parent0)
    requires from < |order0| && order0[from] == u && ValidNode(d, u)
    requires !u.WireId? ==> BBox(Pts(d, u)).Some?
    ensures Coupled(all, order0 + added, visited, wires, parts) && Chain(d, eps, order0 + added, parent)
    ensures visited0 <= visited && q == q0 + added
    ensures forall k :: 0 <= k < |added| ==> !added[k].BoxId?
    ensures forall v :: Adj(d, eps, u, v) ==> v in visited
    ensures |all - visited| + |q| == |all - visited0| + |q0|
  {
    if u.WireId? && BBox(Pts(d, u)).None? {
      visited, q, wires, parts, added := visited0, q0, wires0, parts0, [];
      IsolatedWire(d, all, eps, u, order0, visited0, q0, wires0, parts0);
    } else if u.WireId? {
      visited, q, wires, parts, added := WireStep(d, all, eps, wgrid, pgrid, u, visited0, q0, wires0, parts0, order0);
    } else {
      visited, q, wires, parts, added := RectStep(d, all, eps, wgrid, u, visited0, q0, wires0, parts0, order0);
    }
    ChainExtend(d, eps, order0, parent0, added, from);
    parent := Adopted(parent0, |added|, from);
  }

  /** The state of the search from box `b` before the turn of `order[head]`:
      `order` lists the visited nodes in discovery order, the queue is its
      unexplored tail, every node was reached through an earlier one, and the
      explored nodes have all their contacts visited. */
  ghost predicate Searching(d: Drawing, eps: Tol, all: set<NodeId>, b: nat, order: seq<NodeId>, parent: seq<nat>,
                            head: nat, visited: set<NodeId>, q: seq<NodeId>, wires: seq<nat>, parts: seq<NodeId>) {
    && all == AllNodes(d)
    && head <= |order| && |order| > 0 && order[0] == BoxId(b)
    && q == order[head..]
    && Coupled(all, order, visited, wires, parts) && Chain(d, eps, order, parent)
    && (forall k :: 1 <= k < |order| ==> !order[k].BoxId?)
    && (forall k, v :: 0 <= k < head && Adj(d, eps, order[k], v) ==> v in visited)
  }

  lemma SearchStart(d: Drawing, eps: Tol, b: nat)
    requires b < |d.box|
    ensures Searching(d, eps, AllNodes(d), b, [BoxId(b)], [0], 0, {BoxId(b)}, [BoxId(b)], [], [])
  {
    var order := [BoxId(b)];
    assert order[..0] == [];
    assert SetOf(order) == SetOf([]) + {BoxId(b)};
    AllNodesValid(d, BoxId(b));
  }

  /** The node at the head of the queue meets what `Step` asks of it. */
  lemma SearchHead(d: Drawing, eps: Tol, all: set<NodeId>, b: nat, order: seq<NodeId>, parent: seq<nat>,
                   head: nat, visited: set<NodeId>, q: seq<NodeId>, wires: seq<nat>, parts: seq<NodeId>)
    requires Searching(d, eps, all, b, order, parent, head, visited, q, wires, parts)
    requires b < |d.box| && BBox(d.box[b]).Some? && q != []
    ensures head < |order| && q[0] == order[head] && ValidNode(d, q[0])
    ensures !q[0].WireId? ==> BBox(Pts(d, q[0])).Some?
  {
    var u := order[head];
    SetOfSpec(order, u);
    AllNodesValid(d, u);
    if head > 0 && u.PartId? {
      AdjTarget(d, eps, order[parent[head]], u);
    }
  }

  /** A turn of `Step` on the head of the queue keeps the search state. */
  lemma SearchAdvance(d: Drawing, eps: Tol, all: set<NodeId>, b: nat, order0: seq<NodeId>, parent0: seq<nat>,
                      head: nat, visited0: set<NodeId>, q0: seq<NodeId>, wires0: seq<nat>, parts0: seq<NodeId>,
                      added: seq<NodeId>, parent: seq<nat>, visited: set<NodeId>, q: seq<NodeId>, wires: seq<nat>, parts: seq<NodeId>)
    requires Searching(d, eps, all, b, order0, parent0, head, visited0, q0, wires0, parts0) && q0 != []
    requires Coupled(all, order0 + added, visited, wires, parts) && Chain(d, eps, order0 + added, parent)
    requires visited0 <= visited
    requires q == q0[1..] + added
    requires forall k :: 0 <= k < |added| ==> !added[k].BoxId?
    requires forall v :: Adj(d, eps, q0[0], v) ==> v in visited
    ensures Searching(d, eps, all, b, order0 + added, parent, head + 1, visited, q, wires, parts)
  {
    var order := order0 + added;
    assert order[head + 1..] == order0[head + 1..] + added;
    forall k | 1 <= k < |order| ensures !order[k].BoxId? {
      if k < |order0| { assert order[k] == order0[k]; } else { assert order[k] == added[k - |order0|]; }
    }
    forall k, v | 0 <= k < head + 1 && Adj(d, eps, order[k], v) ensures v in visited {
      assert order[k] == order0[k];
    }
  }

  /** When the queue is empty the visited nodes are exactly those reachable from the box. */
  lemma SearchDone(d: Drawing, eps: Tol, all: set<NodeId>, b: nat, order: seq<NodeId>, parent: seq<nat>,
                   head: nat, visited: set<NodeId>, wires: seq<nat>, parts: seq<NodeId>)
    requires Searching(d, eps, all, b, order, parent, head, visited, [], wires, parts)
    ensures NoDup(wires) && NoDup(parts)
    ensures forall p :: p in parts ==> p.PartId?
    ensures forall v :: InComp(Comp(b, wires, parts), v) ==> ValidNode(d, v)
    ensures forall v :: InComp(Comp(b, wires, parts), v) <==> Reachable(d, eps, BoxId(b), v)
  {
    var c := Comp(b, wires, parts);
    assert head == |order| && forall v :: v in visited ==> v in order by {
      assert order[head..] == [];
      forall v | v in visited ensures v in order {
        SetOfSpec(order, v);
      }
    }
    assert forall v :: v in order <==> Reachable(d, eps, BoxId(b), v) by {
      OrderReachable(d, eps, b, order, parent, visited);
    }
    CountedNoDup(order);
    ProjectionsSpec(order);
    forall v | v in order ensures ValidNode(d, v) {
      SetOfSpec(order, v);
      AllNodesValid(d, v);
    }
    forall v ensures InComp(c, v) <==> v in order {
      if v.BoxId? {
        if v in order {
          var k :| 0 <= k < |order| && order[k] == v;
        }
      } else if v.WireId? {
        assert v == WireId(v.i);
      }
    }
  }

  /** A discovery order whose every node was reached through an earlier one
      and whose contacts are all in it holds exactly the nodes reachable
      from its first. */
  lemma OrderReachable(d: Drawing, eps: Tol, b: nat, order: seq<NodeId>, parent: seq<nat>, visited: set<NodeId>)
    requires |order| > 0 && order[0] == BoxId(b) && Chain(d, eps, order, parent)
    requires forall k, v :: 0 <= k < |order| && Adj(d, eps, order[k], v) ==> v in visited
    requires forall v :: v in visited ==> v in order
    ensures forall v :: v in order <==> Reachable(d, eps, BoxId(b), v)
  {
    ghost var s := set x | x in order;
    assert forall u, v :: u in s && Adj(d, eps, u, v) ==> v in s;
    forall v ensures v in order <==> Reachable(d, eps, BoxId(b), v) {
      if v in order {
        var k :| 0 <= k < |order| && order[k] == v;
        ChainReachable(d, eps, order, parent, k);
      }
      if Reachable(d, eps, BoxId(b), v) {
        var w :| |w| > 0 && w[0] == BoxId(b) && w[|w| - 1] == v && IsWalk(d, eps, w);
        ClosedHoldsWalk(d, eps, s, w);
      }
    }
  }

  /** The component of box `b`: a breadth-first search over the contact
      relation, seeded with the box, queried through the two grids. */
  method Explore(d: Drawing, eps: Tol, wgrid: Grid<NodeId>, pgrid: Grid<NodeId>, b: nat)
    returns (c: Comp)
    requires b < |d.box| && BBox(d.box[b]).Some?
    requires wgrid == GridOf(WireItems(d), CELL) && pgrid == GridOf(PartItems(d), CELL)
    ensures c.box == b
    ensures NoDup(c.wires) && NoDup(c.parts)
    ensures forall p :: p in c.parts ==> p.PartId?
    ensures forall v :: InComp(c, v) ==> ValidNode(d, v)
    ensures forall v :: InComp(c, v) <==> Reachable(d, eps, BoxId(b), v)
  {
    var q := [BoxId(b)];
    var visited := {BoxId(b)};
    var wires: seq<nat> := [];
    var parts: seq<NodeId> := [];
    ghost var order := [BoxId(b)];
    ghost var parent: seq<nat> := [0];
    ghost var head := 0;
    ghost var all := AllNodes(d);
    SearchStart(d, eps, b);
    while q != []
      invariant Searching(d, eps, all, b, order, parent, head, visited, q, wires, parts)
      decreases |all - visited| + |q|
    {
      SearchHead(d, eps, all, b, order, parent, head, visited, q, wires, parts);
      var u := q[0];
      ghost var order0, parent0, visited0, q0, wires0, parts0 := order, parent, visited, q, wires, parts;
      ghost var added;
      visited, q, wires, parts, added, parent := Step(d, all, eps, wgrid, pgrid, u, visited, q[1..], wires, parts, order, parent, head);
      SearchAdvance(d, eps, all, b, order0, parent0, head, visited0, q0, wires0, parts0, added, parent, visited, q, wires, parts);
      order := order0 + added;
      head := head + 1;
    }
    SearchDone(d, eps, all, b, order, parent, head, visited, wires, parts);
    c := Comp(b, wires, parts);
  }
}
