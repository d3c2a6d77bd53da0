/**
 * The Dijkstra pass of `printRoute` (src/link/fn2.js:70-109): distances from
 * the start wires over the wire adjacency, every wire counted by its whole
 * length, with a re-sorted array as the heap, stale entries skipped, and
 * `pathTo` following the `prev` links back to a start wire.
 */
module Dijkstra {
  import opened Wrappers
  import opened Ids
  import opened RouteEnum

  /** `wireLenMap.get(v) ?? 0`. */
  function WLen(m: map<NodeId, real>, v: NodeId): real {
    if v in m then m[v] else 0.0
  }

  predicate NonNegLens(m: map<NodeId, real>) {
    forall v :: v in m ==> m[v] >= 0.0
  }

  // ---------------------------------------------------------------------
  // The heap
  // ---------------------------------------------------------------------

  /** A heap item `{ node, d }`. */
  datatype Entry = Entry(node: NodeId, d: real)

  ghost predicate SortedHeap(h: seq<Entry>) {
    forall i, j :: 0 <= i < j < |h| ==> h[i].d <= h[j].d
  }

  /** `push`: append, then sort by `d`. The sort is stable and the heap was
      sorted, so the new item lands after every item with `d` no greater. */
  function Push(h: seq<Entry>, e: Entry): seq<Entry>
    decreases |h|
  {
    if h == [] || h[|h| - 1].d <= e.d then h + [e] else Push(h[..|h| - 1], e) + [h[|h| - 1]]
  }

  lemma {:induction false} PushMultiset(h: seq<Entry>, e: Entry)
    ensures multiset(Push(h, e)) == multiset(h) + multiset{e}
    decreases |h|
  {
    if h != [] && h[|h| - 1].d > e.d {
      var init, last := h[..|h| - 1], h[|h| - 1];
      assert h == init + [last];
      PushMultiset(init, e);
    }
  }

  lemma PushHas(h: seq<Entry>, e: Entry)
    ensures forall x :: x in Push(h, e) <==> x in h || x == e
  {
    PushMultiset(h, e);
    forall x ensures x in Push(h, e) <==> x in h || x == e {
      assert x in Push(h, e) <==> x in multiset(Push(h, e));
      assert x in h <==> x in multiset(h);
    }
  }

  lemma {:induction false} PushSorted(h: seq<Entry>, e: Entry)
    requires SortedHeap(h)
    ensures SortedHeap(Push(h, e))
    decreases |h|
  {
    if h != [] && h[|h| - 1].d > e.d {
      var init, last := h[..|h| - 1], h[|h| - 1];
      PushSorted(init, e);
      PushHas(init, e);
      var p := Push(init, e);
      forall i, j | 0 <= i < j < |p + [last]| ensures (p + [last])[i].d <= (p + [last])[j].d {
        if j == |p| {
          assert p[i] in p;
          if p[i] != e {
            var k :| 0 <= k < |init| && init[k] == p[i];
            assert h[k] == p[i];
          }
        }
      }
    }
  }

  // ---------------------------------------------------------------------
  // What the pass keeps true
  // ---------------------------------------------------------------------

  /** `nd < dist.get(v)`: a wire without a distance is at Infinity; any
      other node is `undefined`, and no number is below it. */
  predicate Lt(wires: set<NodeId>, dist: map<NodeId, real>, nd: real, v: NodeId) {
    if v in dist then nd < dist[v] else v in wires
  }

  /** Distances and links are for wires only; `fin` is the ghost order in
      which wires were settled. */
  ghost predicate Domains(wires: set<NodeId>, dist: map<NodeId, real>, prev: map<NodeId, Option<NodeId>>, fin: map<NodeId, nat>) {
    dist.Keys == prev.Keys && dist.Keys <= wires && fin.Keys <= dist.Keys
  }

  /** The heap is sorted, holds no item twice, and nothing in it is below
      its node's distance or below the last settled distance `floor`. */
  ghost predicate HeapBounds(dist: map<NodeId, real>, heap: seq<Entry>, floor: real) {
    && SortedHeap(heap)
    && (forall x :: multiset(heap)[x] <= 1)
    && (forall e :: e in heap ==> e.node in dist && e.d >= dist[e.node] && e.d >= floor)
  }

  /** A settled wire lies at or below the floor, and the heap holds only
      outdated items for it. */
  ghost predicate FinBounds(dist: map<NodeId, real>, heap: seq<Entry>, fin: map<NodeId, nat>, clock: nat, floor: real) {
    && (forall x :: x in fin && x in dist ==> dist[x] <= floor && fin[x] < clock)
    && (forall e :: e in heap && e.node in fin && e.node in dist ==> e.d > dist[e.node])
  }

  /** Every unsettled distance is in the heap. */
  ghost predicate Pending(dist: map<NodeId, real>, heap: seq<Entry>, fin: map<NodeId, nat>) {
    forall x :: x in dist && x !in fin ==> Entry(x, dist[x]) in heap
  }

  ghost predicate NonNeg(dist: map<NodeId, real>, floor: real) {
    floor >= 0.0 && forall x :: x in dist ==> dist[x] >= 0.0
  }

  /** A wire without a link is a start wire at its own length. */
  ghost predicate Roots(m: map<NodeId, real>, starts: seq<NodeId>, dist: map<NodeId, real>, prev: map<NodeId, Option<NodeId>>) {
    forall v :: v in dist && v in prev && prev[v].None? ==> v in starts && dist[v] == WLen(m, v)
  }

  /** A link points to a settled wire that lists the node, settled before
      it, and the node's distance is that wire's plus the node's length. */
  ghost predicate Links(adj: map<NodeId, seq<NodeId>>, m: map<NodeId, real>, dist: map<NodeId, real>,
                        prev: map<NodeId, Option<NodeId>>, fin: map<NodeId, nat>) {
    forall v {:trigger prev[v]} :: v in dist && v in prev && prev[v].Some? ==>
      var u := prev[v].value;
      u in fin && u in dist && v in Listed(adj, u) && dist[v] == dist[u] + WLen(m, v) && (v in fin ==> fin[u] < fin[v])
  }

  /** The bookkeeping of the pass. */
  ghost predicate Core(wires: set<NodeId>, adj: map<NodeId, seq<NodeId>>, m: map<NodeId, real>, starts: seq<NodeId>,
                       dist: map<NodeId, real>, prev: map<NodeId, Option<NodeId>>, heap: seq<Entry>,
                       fin: map<NodeId, nat>, clock: nat, floor: real) {
    && Domains(wires, dist, prev, fin) && HeapBounds(dist, heap, floor) && FinBounds(dist, heap, fin, clock, floor)
    && Pending(dist, heap, fin) && NonNeg(dist, floor) && Roots(m, starts, dist, prev) && Links(adj, m, dist, prev, fin)
  }

  /** Every settled wire has relaxed its neighbours; the one being settled,
      `cur`, only its first `j`. */
  ghost predicate Settled(adj: map<NodeId, seq<NodeId>>, m: map<NodeId, real>, dist: map<NodeId, real>,
                          fin: map<NodeId, nat>, cur: Option<NodeId>, j: nat) {
    forall u, k {:trigger Listed(adj, u)[k]} :: u in fin && u in dist && 0 <= k < |Listed(adj, u)| && (cur == Some(u) ==> k < j) ==>
      Listed(adj, u)[k] in dist && dist[Listed(adj, u)[k]] <= dist[u] + WLen(m, Listed(adj, u)[k])
  }

  /** The start wires seen so far sit at their own length, without a link. */
  ghost predicate Seeded(m: map<NodeId, real>, starts: seq<NodeId>, dist: map<NodeId, real>, prev: map<NodeId, Option<NodeId>>) {
    forall s :: s in starts ==> s in dist && s in prev && dist[s] == WLen(m, s) && prev[s] == None
  }

  /** Distances never go up. */
  ghost predicate Below(dist0: map<NodeId, real>, dist: map<NodeId, real>) {
    forall v :: v in dist0 ==> v in dist && dist[v] <= dist0[v]
  }

  /** What the pass returns: every start wire at its own length without a
      link; every other wire with a distance linked to a wire that lists
      it, at that wire's distance plus its own length; every neighbour of a
      wire with a distance has one no greater than that plus its length;
      and the links follow a ranking, so following them ends. */
  ghost predicate ShortestTree(wires: set<NodeId>, adj: map<NodeId, seq<NodeId>>, m: map<NodeId, real>, starts: seq<NodeId>,
                               dist: map<NodeId, real>, prev: map<NodeId, Option<NodeId>>, rank: map<NodeId, nat>) {
    && dist.Keys == prev.Keys && dist.Keys <= wires && rank.Keys == dist.Keys
    && Seeded(m, starts, dist, prev)
    && (forall v :: v in dist && prev[v].None? ==> v in starts && dist[v] == WLen(m, v))
    && (forall v {:trigger prev[v]} :: v in dist && prev[v].Some? ==>
          var u := prev[v].value;
          u in dist && v in Listed(adj, u) && dist[v] == dist[u] + WLen(m, v) && rank[u] < rank[v])
    && (forall u, v :: u in dist && v in Listed(adj, u) ==> v in dist && dist[v] <= dist[u] + WLen(m, v))
  }

  // ---------------------------------------------------------------------
  // One step at a time
  // ---------------------------------------------------------------------

  /** Lowering `v` to `nd`, a value below every item of `v` in the heap,
      keeps the heap's own bounds. */
  lemma LowerHeap(dist: map<NodeId, real>, heap: seq<Entry>, floor: real, v: NodeId, nd: real)
    requires HeapBounds(dist, heap, floor) && nd >= floor
    requires v in dist ==> nd < dist[v]
    ensures HeapBounds(dist[v := nd], Push(heap, Entry(v, nd)), floor)
  {
    PushSorted(heap, Entry(v, nd));
    PushMultiset(heap, Entry(v, nd));
    PushHas(heap, Entry(v, nd));
    assert Entry(v, nd) !in heap;
    assert multiset(heap)[Entry(v, nd)] == 0;
  }

  /** Taking the first item off a heap keeps it sorted and loses nothing
      else. */
  lemma TailHeap(heap: seq<Entry>)
    requires SortedHeap(heap) && heap != []
    ensures SortedHeap(heap[1..])
    ensures multiset(heap) == multiset{heap[0]} + multiset(heap[1..])
    ensures forall e :: e in heap[1..] ==> e in heap
    ensures forall e :: e in heap ==> e == heap[0] || e in heap[1..]
    ensures forall e :: e in heap[1..] ==> heap[0].d <= e.d
  {
    assert heap == [heap[0]] + heap[1..];
    var rest := heap[1..];
    forall i, j | 0 <= i < j < |rest| ensures rest[i].d <= rest[j].d {
      assert heap[i + 1].d <= heap[j + 1].d;
    }
    forall e | e in rest ensures heap[0].d <= e.d {
      var k :| 0 <= k < |rest| && rest[k] == e;
      assert heap[0].d <= heap[k + 1].d;
    }
  }

  /** Seeding start wire `wid` at its length, below its distance. */
  lemma SeedSet(wires: set<NodeId>, adj: map<NodeId, seq<NodeId>>, m: map<NodeId, real>, starts: seq<NodeId>, i: nat,
                dist: map<NodeId, real>, prev: map<NodeId, Option<NodeId>>, heap: seq<Entry>)
    requires NonNegLens(m) && i < |starts| && starts[i] in wires
    requires Core(wires, adj, m, starts[..i], dist, prev, heap, map[], 0, 0.0) && Seeded(m, starts[..i], dist, prev)
    requires Lt(wires, dist, WLen(m, starts[i]), starts[i])
    ensures var wid := starts[i]; var d0 := WLen(m, wid);
      && Core(wires, adj, m, starts[..i + 1], dist[wid := d0], prev[wid := None], Push(heap, Entry(wid, d0)), map[], 0, 0.0)
      && Seeded(m, starts[..i + 1], dist[wid := d0], prev[wid := None])
  {
    var wid := starts[i];
    var d0 := WLen(m, wid);
    assert starts[..i + 1] == starts[..i] + [wid];
    assert d0 >= 0.0;
    LowerHeap(dist, heap, 0.0, wid, d0);
    SeedRoots(m, starts[..i], dist, prev, wid);
    SeedRest(wires, adj, m, dist, prev, heap, wid, d0);
  }

  /** A start wire put at its own length without a link is a root. */
  lemma SeedRoots(m: map<NodeId, real>, ss: seq<NodeId>, dist: map<NodeId, real>,
                  prev: map<NodeId, Option<NodeId>>, wid: NodeId)
    requires Roots(m, ss, dist, prev) && Seeded(m, ss, dist, prev)
    ensures Roots(m, ss + [wid], dist[wid := WLen(m, wid)], prev[wid := None])
    ensures Seeded(m, ss + [wid], dist[wid := WLen(m, wid)], prev[wid := None])
  {
  }

  /** Seeding a wire keeps the domains, the signs and the (empty) links,
      and puts its distance in the heap. */
  lemma SeedRest(wires: set<NodeId>, adj: map<NodeId, seq<NodeId>>, m: map<NodeId, real>,
                 dist: map<NodeId, real>, prev: map<NodeId, Option<NodeId>>, heap: seq<Entry>, wid: NodeId, d0: real)
    requires Domains(wires, dist, prev, map[]) && Pending(dist, heap, map[]) && NonNeg(dist, 0.0)
    requires Links(adj, m, dist, prev, map[]) && wid in wires && d0 >= 0.0
    ensures var dist', prev', heap' := dist[wid := d0], prev[wid := None], Push(heap, Entry(wid, d0));
      && Domains(wires, dist', prev', map[]) && FinBounds(dist', heap', map[], 0, 0.0)
      && Pending(dist', heap', map[]) && NonNeg(dist', 0.0) && Links(adj, m, dist', prev', map[])
  {
    PushHas(heap, Entry(wid, d0));
  }

  /** Skipping start wire `wid`, already at its length. */
  lemma SeedSkip(wires: set<NodeId>, adj: map<NodeId, seq<NodeId>>, m: map<NodeId, real>, starts: seq<NodeId>, i: nat,
                 dist: map<NodeId, real>, prev: map<NodeId, Option<NodeId>>, heap: seq<Entry>)
    requires i < |starts| && starts[i] in wires
    requires Core(wires, adj, m, starts[..i], dist, prev, heap, map[], 0, 0.0) && Seeded(m, starts[..i], dist, prev)
    requires !Lt(wires, dist, WLen(m, starts[i]), starts[i])
    ensures Core(wires, adj, m, starts[..i + 1], dist, prev, heap, map[], 0, 0.0)
    ensures Seeded(m, starts[..i + 1], dist, prev)
  {
    var wid := starts[i];
    assert starts[..i + 1] == starts[..i] + [wid];
    assert Roots(m, starts[..i + 1], dist, prev);
  }

  /** Taking a stale item off the heap changes nothing else. */
  lemma PopStale(wires: set<NodeId>, adj: map<NodeId, seq<NodeId>>, m: map<NodeId, real>, starts: seq<NodeId>,
                 dist: map<NodeId, real>, prev: map<NodeId, Option<NodeId>>, heap: seq<Entry>,
                 fin: map<NodeId, nat>, clock: nat, floor: real)
    requires Core(wires, adj, m, starts, dist, prev, heap, fin, clock, floor) && heap != []
    requires heap[0].node in dist && heap[0].d != dist[heap[0].node]
    ensures Core(wires, adj, m, starts, dist, prev, heap[1..], fin, clock, floor)
  {
    TailHeap(heap);
    var rest := heap[1..];
    assert HeapBounds(dist, rest, floor) by {
      forall x ensures multiset(rest)[x] <= 1 {
        assert multiset(heap)[x] <= 1;
      }
    }
    assert FinBounds(dist, rest, fin, clock, floor);
    assert Pending(dist, rest, fin) by {
      forall x | x in dist && x !in fin ensures Entry(x, dist[x]) in rest {
        assert Entry(x, dist[x]) in heap;
      }
    }
  }

  /** The first item of the heap is not a settled wire's, and the rest of
      the heap lies at or above it. */
  lemma PopHeap(dist: map<NodeId, real>, heap: seq<Entry>, fin: map<NodeId, nat>, clock: nat, floor: real)
    requires HeapBounds(dist, heap, floor) && FinBounds(dist, heap, fin, clock, floor) && heap != []
    requires heap[0].node in dist && heap[0].d == dist[heap[0].node]
    ensures heap[0].node !in fin && heap[0] !in heap[1..] && floor <= heap[0].d
    ensures HeapBounds(dist, heap[1..], heap[0].d)
  {
    TailHeap(heap);
    var rest := heap[1..];
    assert heap[0] in heap;
    assert heap[0] !in rest by {
      assert multiset(heap)[heap[0]] == 1 + multiset(rest)[heap[0]];
    }
    forall x ensures multiset(rest)[x] <= 1 {
      assert multiset(heap)[x] <= 1;
    }
  }

  /** Settling `u`, the node of the first item, at the new floor. */
  lemma PopFin(dist: map<NodeId, real>, heap: seq<Entry>, fin: map<NodeId, nat>, clock: nat, floor: real)
    requires HeapBounds(dist, heap, floor) && FinBounds(dist, heap, fin, clock, floor) && heap != []
    requires heap[0].node in dist && heap[0].d == dist[heap[0].node]
    ensures FinBounds(dist, heap[1..], fin[heap[0].node := clock], clock + 1, heap[0].d)
  {
    var u, d := heap[0].node, heap[0].d;
    PopHeap(dist, heap, fin, clock, floor);
    TailHeap(heap);
    var fin', rest := fin[u := clock], heap[1..];
    forall e | e in rest && e.node in fin' && e.node in dist ensures e.d > dist[e.node] {
      if e.node == u {
        assert e != heap[0];
      }
    }
  }

  /** Every unsettled distance but the one settled stays in the heap. */
  lemma PopPending(dist: map<NodeId, real>, heap: seq<Entry>, fin: map<NodeId, nat>)
    requires Pending(dist, heap, fin) && heap != [] && heap[0].node in dist
    ensures Pending(dist, heap[1..], fin[heap[0].node := 0])
  {
    var fin' := fin[heap[0].node := 0];
    forall x | x in dist && x !in fin' ensures Entry(x, dist[x]) in heap[1..] {
      assert Entry(x, dist[x]) in heap;
      assert heap == [heap[0]] + heap[1..];
    }
  }

  /** Settling a wire not settled before keeps the links' order. */
  lemma PopLinks(adj: map<NodeId, seq<NodeId>>, m: map<NodeId, real>, dist: map<NodeId, real>,
                 prev: map<NodeId, Option<NodeId>>, fin: map<NodeId, nat>, clock: nat, u: NodeId)
    requires Links(adj, m, dist, prev, fin) && u !in fin && forall x :: x in fin ==> fin[x] < clock
    ensures Links(adj, m, dist, prev, fin[u := clock])
  {
  }

  /** Settling a wire with nothing relaxed yet keeps what the others did. */
  lemma PopSettled(adj: map<NodeId, seq<NodeId>>, m: map<NodeId, real>, dist: map<NodeId, real>,
                   fin: map<NodeId, nat>, u: NodeId, clock: nat)
    requires Settled(adj, m, dist, fin, None, 0)
    ensures Settled(adj, m, dist, fin[u := clock], Some(u), 0)
  {
  }

  /** Taking a current item off the heap settles its wire, which was not
      settled before; the floor rises to its distance. */
  lemma PopCurrent(wires: set<NodeId>, adj: map<NodeId, seq<NodeId>>, m: map<NodeId, real>, starts: seq<NodeId>,
                   dist: map<NodeId, real>, prev: map<NodeId, Option<NodeId>>, heap: seq<Entry>,
                   fin: map<NodeId, nat>, clock: nat, floor: real)
    requires Core(wires, adj, m, starts, dist, prev, heap, fin, clock, floor) && heap != []
    requires Settled(adj, m, dist, fin, None, 0)
    requires heap[0].node in dist && heap[0].d == dist[heap[0].node]
    ensures heap[0].node !in fin && heap[0].node in wires
    ensures Core(wires, adj, m, starts, dist, prev, heap[1..], fin[heap[0].node := clock], clock + 1, heap[0].d)
    ensures Settled(adj, m, dist, fin[heap[0].node := clock], Some(heap[0].node), 0)
  {
    var u := heap[0].node;
    PopHeap(dist, heap, fin, clock, floor);
    PopFin(dist, heap, fin, clock, floor);
    PopPending(dist, heap, fin);
    assert fin[u := clock].Keys == fin[u := 0].Keys;
    PopLinks(adj, m, dist, prev, fin, clock, u);
    PopSettled(adj, m, dist, fin, u, clock);
  }

  /** Lowering `v`, not settled, keeps the settled wires' bounds and puts
      its new distance in the heap. */
  lemma LowerFin(dist: map<NodeId, real>, heap: seq<Entry>, fin: map<NodeId, nat>, clock: nat, floor: real,
                 v: NodeId, nd: real)
    requires FinBounds(dist, heap, fin, clock, floor) && Pending(dist, heap, fin) && v !in fin
    ensures FinBounds(dist[v := nd], Push(heap, Entry(v, nd)), fin, clock, floor)
    ensures Pending(dist[v := nd], Push(heap, Entry(v, nd)), fin)
  {
    PushHas(heap, Entry(v, nd));
  }

  /** Linking `v` to the settled wire `u` keeps every link's promise. */
  lemma LowerLinks(adj: map<NodeId, seq<NodeId>>, m: map<NodeId, real>, dist: map<NodeId, real>,
                   prev: map<NodeId, Option<NodeId>>, fin: map<NodeId, nat>, u: NodeId, v: NodeId, nd: real)
    requires Links(adj, m, dist, prev, fin) && dist.Keys == prev.Keys
    requires u in fin && u in dist && v !in fin && v in Listed(adj, u) && nd == dist[u] + WLen(m, v)
    ensures Links(adj, m, dist[v := nd], prev[v := Some(u)], fin)
  {
    assert u != v;
  }

  /** Lowering `v`, a neighbour of `u` not yet relaxed, to `u`'s distance
      plus its length relaxes it. */
  lemma LowerSettled(adj: map<NodeId, seq<NodeId>>, m: map<NodeId, real>, dist: map<NodeId, real>,
                     fin: map<NodeId, nat>, u: NodeId, j: nat, v: NodeId, nd: real)
    requires u in fin && u in dist && j < |Listed(adj, u)| && v == Listed(adj, u)[j] && v !in fin
    requires nd == dist[u] + WLen(m, v) && (v in dist ==> nd < dist[v])
    requires Settled(adj, m, dist, fin, Some(u), j)
    ensures Settled(adj, m, dist[v := nd], fin, Some(u), j + 1)
  {
    var dist' := dist[v := nd];
    forall x, k {:trigger Listed(adj, x)[k]} | x in fin && x in dist' && 0 <= k < |Listed(adj, x)| && (Some(u) == Some(x) ==> k < j + 1)
      ensures Listed(adj, x)[k] in dist' && dist'[Listed(adj, x)[k]] <= dist'[x] + WLen(m, Listed(adj, x)[k])
    {
      assert x != v;
      if !(x == u && k == j) {
        assert Listed(adj, x)[k] in dist && dist[Listed(adj, x)[k]] <= dist[x] + WLen(m, Listed(adj, x)[k]);
      }
    }
  }

  /** Linking `v` leaves the start wires without a link as they were. */
  lemma LowerRoots(m: map<NodeId, real>, starts: seq<NodeId>, dist: map<NodeId, real>,
                   prev: map<NodeId, Option<NodeId>>, u: NodeId, v: NodeId, nd: real)
    requires Roots(m, starts, dist, prev)
    ensures Roots(m, starts, dist[v := nd], prev[v := Some(u)])
  {
    var dist', prev' := dist[v := nd], prev[v := Some(u)];
    forall x | x in dist' && x in prev' && prev'[x].None? ensures x in starts && dist'[x] == WLen(m, x) {
      assert x != v && prev[x] == prev'[x];
    }
  }

  /** Lowering neighbour `v` of the wire `u` being settled to `u`'s
      distance plus `v`'s length. */
  lemma RelaxSet(wires: set<NodeId>, adj: map<NodeId, seq<NodeId>>, m: map<NodeId, real>, starts: seq<NodeId>,
                 dist: map<NodeId, real>, prev: map<NodeId, Option<NodeId>>, heap: seq<Entry>,
                 fin: map<NodeId, nat>, clock: nat, u: NodeId, j: nat, v: NodeId, nd: real)
    requires NonNegLens(m) && (forall x, y :: y in Listed(adj, x) ==> y in wires)
    requires u in fin && u in dist && j < |Listed(adj, u)|
    requires v == Listed(adj, u)[j] && nd == dist[u] + WLen(m, v)
    requires Core(wires, adj, m, starts, dist, prev, heap, fin, clock, dist[u])
    requires Settled(adj, m, dist, fin, Some(u), j) && Seeded(m, starts, dist, prev)
    requires Lt(wires, dist, nd, v)
    ensures Core(wires, adj, m, starts, dist[v := nd], prev[v := Some(u)], Push(heap, Entry(v, nd)), fin, clock, dist[u])
    ensures Settled(adj, m, dist[v := nd], fin, Some(u), j + 1) && Seeded(m, starts, dist[v := nd], prev[v := Some(u)])
    ensures Below(dist, dist[v := nd])
  {
    var d := dist[u];
    RelaxFresh(wires, m, starts, dist, prev, heap, fin, clock, u, v, nd);
    LowerHeap(dist, heap, d, v, nd);
    LowerFin(dist, heap, fin, clock, d, v, nd);
    LowerLinks(adj, m, dist, prev, fin, u, v, nd);
    LowerRoots(m, starts, dist, prev, u, v, nd);
    LowerDomains(wires, m, starts, dist, prev, fin, d, u, v, nd);
    LowerSettled(adj, m, dist, fin, u, j, v, nd);
  }

  /** The neighbour to be lowered is a wire, neither settled nor a start
      wire, and its new distance is at least the floor. */
  lemma RelaxFresh(wires: set<NodeId>, m: map<NodeId, real>, starts: seq<NodeId>,
                   dist: map<NodeId, real>, prev: map<NodeId, Option<NodeId>>, heap: seq<Entry>,
                   fin: map<NodeId, nat>, clock: nat, u: NodeId, v: NodeId, nd: real)
    requires NonNegLens(m) && u in dist && nd == dist[u] + WLen(m, v)
    requires Domains(wires, dist, prev, fin) && FinBounds(dist, heap, fin, clock, dist[u])
    requires NonNeg(dist, dist[u]) && Seeded(m, starts, dist, prev)
    requires Lt(wires, dist, nd, v)
    ensures v in wires && v !in fin && v !in starts && nd >= dist[u] >= 0.0
  {
    assert WLen(m, v) >= 0.0;
  }

  /** Lowering `v` keeps the domains and the signs, leaves the start wires
      alone and lowers only `v`. */
  lemma LowerDomains(wires: set<NodeId>, m: map<NodeId, real>, starts: seq<NodeId>,
                     dist: map<NodeId, real>, prev: map<NodeId, Option<NodeId>>, fin: map<NodeId, nat>,
                     d: real, u: NodeId, v: NodeId, nd: real)
    requires Domains(wires, dist, prev, fin) && NonNeg(dist, d) && Seeded(m, starts, dist, prev)
    requires v in wires && v !in starts && nd >= 0.0 && (v in dist ==> nd < dist[v])
    ensures Domains(wires, dist[v := nd], prev[v := Some(u)], fin) && NonNeg(dist[v := nd], d)
    ensures Seeded(m, starts, dist[v := nd], prev[v := Some(u)]) && Below(dist, dist[v := nd])
  {
  }

  /** Leaving neighbour `v` of the wire `u` being settled as it is. */
  lemma RelaxSkip(wires: set<NodeId>, adj: map<NodeId, seq<NodeId>>, m: map<NodeId, real>, starts: seq<NodeId>,
                  dist: map<NodeId, real>, prev: map<NodeId, Option<NodeId>>, heap: seq<Entry>,
                  fin: map<NodeId, nat>, clock: nat, u: NodeId, j: nat)
    requires (forall x, y :: y in Listed(adj, x) ==> y in wires)
    requires u in fin && u in dist && j < |Listed(adj, u)|
    requires Core(wires, adj, m, starts, dist, prev, heap, fin, clock, dist[u])
    requires Settled(adj, m, dist, fin, Some(u), j)
    requires !Lt(wires, dist, dist[u] + WLen(m, Listed(adj, u)[j]), Listed(adj, u)[j])
    ensures Settled(adj, m, dist, fin, Some(u), j + 1)
  {
  }

  /** Once the heap is empty every wire with a distance is settled and has
      relaxed its neighbours. */
  lemma Drained(wires: set<NodeId>, adj: map<NodeId, seq<NodeId>>, m: map<NodeId, real>, starts: seq<NodeId>,
                dist: map<NodeId, real>, prev: map<NodeId, Option<NodeId>>,
                fin: map<NodeId, nat>, clock: nat, floor: real)
    requires Core(wires, adj, m, starts, dist, prev, [], fin, clock, floor)
    requires Settled(adj, m, dist, fin, None, 0) && Seeded(m, starts, dist, prev)
    ensures ShortestTree(wires, adj, m, starts, dist, prev, fin)
  {
    assert forall x :: x in dist ==> x in fin;
  }

  // ---------------------------------------------------------------------
  // The pass
  // ---------------------------------------------------------------------

  /** The seeding loop: each start wire at its own length, unless it is
      already there. */
  method Seed(wires: set<NodeId>, adj: map<NodeId, seq<NodeId>>, m: map<NodeId, real>, starts: seq<NodeId>)
    returns (dist: map<NodeId, real>, prev: map<NodeId, Option<NodeId>>, heap: seq<Entry>)
    requires NonNegLens(m) && (forall s :: s in starts ==> s in wires)
    ensures Core(wires, adj, m, starts, dist, prev, heap, map[], 0, 0.0) && Seeded(m, starts, dist, prev)
  {
    dist, prev, heap := map[], map[], [];
    for i := 0 to |starts|
      invariant Core(wires, adj, m, starts[..i], dist, prev, heap, map[], 0, 0.0) && Seeded(m, starts[..i], dist, prev)
    {
      var wid := starts[i];
      var d0 := WLen(m, wid);
      if Lt(wires, dist, d0, wid) {
        SeedSet(wires, adj, m, starts, i, dist, prev, heap);
        dist := dist[wid := d0];
        prev := prev[wid := None];
        heap := Push(heap, Entry(wid, d0));
      } else {
        SeedSkip(wires, adj, m, starts, i, dist, prev, heap);
      }
    }
    assert starts[..|starts|] == starts;
  }

  /** The inner loop: relaxing every neighbour of the wire `u` just
      settled at distance `d`. */
  method RelaxAll(wires: set<NodeId>, adj: map<NodeId, seq<NodeId>>, m: map<NodeId, real>, starts: seq<NodeId>,
                  dist0: map<NodeId, real>, prev0: map<NodeId, Option<NodeId>>, heap0: seq<Entry>,
                  ghost fin: map<NodeId, nat>, ghost clock: nat, u: NodeId, d: real)
    returns (dist: map<NodeId, real>, prev: map<NodeId, Option<NodeId>>, heap: seq<Entry>)
    requires NonNegLens(m) && (forall x, y :: y in Listed(adj, x) ==> y in wires)
    requires u in fin && u in dist0 && dist0[u] == d
    requires Core(wires, adj, m, starts, dist0, prev0, heap0, fin, clock, d)
    requires Settled(adj, m, dist0, fin, Some(u), 0) && Seeded(m, starts, dist0, prev0)
    ensures Core(wires, adj, m, starts, dist, prev, heap, fin, clock, d)
    ensures Settled(adj, m, dist, fin, None, 0) && Seeded(m, starts, dist, prev)
    ensures Below(dist0, dist)
  {
    dist, prev, heap := dist0, prev0, heap0;
    var vs := Listed(adj, u);
    for j := 0 to |vs|
      invariant u in fin && u in dist && dist[u] == d
      invariant Core(wires, adj, m, starts, dist, prev, heap, fin, clock, d)
      invariant Settled(adj, m, dist, fin, Some(u), j) && Seeded(m, starts, dist, prev)
      invariant Below(dist0, dist)
    {
      var v := vs[j];
      var nd := d + WLen(m, v);
      if Lt(wires, dist, nd, v) {
        RelaxSet(wires, adj, m, starts, dist, prev, heap, fin, clock, u, j, v, nd);
        dist := dist[v := nd];
        prev := prev[v := Some(u)];
        heap := Push(heap, Entry(v, nd));
      } else {
        RelaxSkip(wires, adj, m, starts, dist, prev, heap, fin, clock, u, j);
      }
    }
  }

  /** One turn of the heap loop: drop a stale item, or settle the wire of
      a current one and relax its neighbours. Either fewer wires are left
      unsettled, or as many with a shorter heap. */
  method Step(wires: set<NodeId>, adj: map<NodeId, seq<NodeId>>, m: map<NodeId, real>, starts: seq<NodeId>,
              dist0: map<NodeId, real>, prev0: map<NodeId, Option<NodeId>>, heap0: seq<Entry>,
              ghost fin0: map<NodeId, nat>, ghost clock0: nat, ghost floor0: real)
    returns (dist: map<NodeId, real>, prev: map<NodeId, Option<NodeId>>, heap: seq<Entry>,
             ghost fin: map<NodeId, nat>, ghost clock: nat, ghost floor: real)
    requires NonNegLens(m) && (forall x, y :: y in Listed(adj, x) ==> y in wires)
    requires heap0 != [] && Core(wires, adj, m, starts, dist0, prev0, heap0, fin0, clock0, floor0)
    requires Settled(adj, m, dist0, fin0, None, 0) && Seeded(m, starts, dist0, prev0)
    ensures Core(wires, adj, m, starts, dist, prev, heap, fin, clock, floor)
    ensures Settled(adj, m, dist, fin, None, 0) && Seeded(m, starts, dist, prev)
    ensures |wires - fin.Keys| < |wires - fin0.Keys| || (fin.Keys == fin0.Keys && |heap| < |heap0|)
  {
    var e := heap0[0];
    if e.d != dist0[e.node] {
      PopStale(wires, adj, m, starts, dist0, prev0, heap0, fin0, clock0, floor0);
      dist, prev, heap, fin, clock, floor := dist0, prev0, heap0[1..], fin0, clock0, floor0;
    } else {
      dist, prev, heap, fin, clock, floor := Settle(wires, adj, m, starts, dist0, prev0, heap0, fin0, clock0, floor0);
    }
  }

  /** Settling the wire of the current item at the head of the heap, then
      relaxing its neighbours; one wire fewer is left unsettled. */
  method Settle(wires: set<NodeId>, adj: map<NodeId, seq<NodeId>>, m: map<NodeId, real>, starts: seq<NodeId>,
                dist0: map<NodeId, real>, prev0: map<NodeId, Option<NodeId>>, heap0: seq<Entry>,
                ghost fin0: map<NodeId, nat>, ghost clock0: nat, ghost floor0: real)
    returns (dist: map<NodeId, real>, prev: map<NodeId, Option<NodeId>>, heap: seq<Entry>,
             ghost fin: map<NodeId, nat>, ghost clock: nat, ghost floor: real)
    requires NonNegLens(m) && (forall x, y :: y in Listed(adj, x) ==> y in wires)
    requires heap0 != [] && Core(wires, adj, m, starts, dist0, prev0, heap0, fin0, clock0, floor0)
    requires heap0[0].node in dist0 && heap0[0].d == dist0[heap0[0].node]
    requires Settled(adj, m, dist0, fin0, None, 0) && Seeded(m, starts, dist0, prev0)
    ensures Core(wires, adj, m, starts, dist, prev, heap, fin, clock, floor)
    ensures Settled(adj, m, dist, fin, None, 0) && Seeded(m, starts, dist, prev)
    ensures |wires - fin.Keys| < |wires - fin0.Keys|
  {
    var u, d := heap0[0].node, heap0[0].d;
    PopCurrent(wires, adj, m, starts, dist0, prev0, heap0, fin0, clock0, floor0);
    fin, clock, floor := fin0[u := clock0], clock0 + 1, d;
    assert wires - fin.Keys < wires - fin0.Keys;
    dist, prev, heap := RelaxAll(wires, adj, m, starts, dist0, prev0, heap0[1..], fin, clock, u, d);
  }

  /** `printRoute`'s Dijkstra pass: seeding, then the heap loop with its
      stale-item check. `rank` is the order in which wires were settled. */
  method ShortestFrom(wires: set<NodeId>, adj: map<NodeId, seq<NodeId>>, m: map<NodeId, real>, starts: seq<NodeId>)
    returns (dist: map<NodeId, real>, prev: map<NodeId, Option<NodeId>>, ghost rank: map<NodeId, nat>)
    requires NonNegLens(m) && (forall s :: s in starts ==> s in wires)
    requires forall x, y :: y in Listed(adj, x) ==> y in wires
    ensures ShortestTree(wires, adj, m, starts, dist, prev, rank)
  {
    var heap;
    dist, prev, heap := Seed(wires, adj, m, starts);
    ghost var fin: map<NodeId, nat> := map[];
    ghost var clock: nat := 0;
    ghost var floor: real := 0.0;
    while heap != []
      invariant Core(wires, adj, m, starts, dist, prev, heap, fin, clock, floor)
      invariant Settled(adj, m, dist, fin, None, 0) && Seeded(m, starts, dist, prev)
      decreases |wires - fin.Keys|, |heap|
    {
      dist, prev, heap, fin, clock, floor := Step(wires, adj, m, starts, dist, prev, heap, fin, clock, floor);
    }
    Drained(wires, adj, m, starts, dist, prev, fin, clock, floor);
    rank := fin;
  }
}
