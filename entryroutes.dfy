/**
 * The routes of `printRoute` (src/link/fn2.js:101-206): `pathTo` walks the
 * `prev` links back from a wire to a start wire; a part with jumpers gets one
 * route per jumper, entering by the nearer end of the jumper and coming back
 * by the other; a part without jumpers gets one route, entering by the
 * nearest wire that touches it.
 */
module EntryRoutes {
  import opened Wrappers
  import opened Strs
  import opened Geometry
  import opened GridIndex
  import opened Ids
  import opened Drawing
  import opened LinkSets
  import opened PartLinks
  import opened CompAdj
  import opened RouteEnum
  import opened Dijkstra
  import opened Shortest

  /** A route as `printRoute` returns it: the node labels, the lengths
      added along it, and their sum. */
  datatype EntryRoute = EntryRoute(nodes: seq<string>, lens: seq<real>, sum: real)

  // ---------------------------------------------------------------------
  // pathTo
  // ---------------------------------------------------------------------

  /** The `prev` links follow a ranking, so walking them back ends. */
  ghost predicate Ranked(prev: map<NodeId, Option<NodeId>>, rank: map<NodeId, nat>) {
    && prev.Keys <= rank.Keys
    && forall v {:trigger prev[v]} :: v in prev && prev[v].Some? ==> prev[v].value in prev && rank[prev[v].value] < rank[v]
  }

  /** What the Dijkstra pass leaves behind, as `pathTo` and the route sums
      need it: a start wire sits at its own length, any other wire at the
      distance of the wire it was reached from plus its own length. */
  ghost predicate Tree(m: map<NodeId, real>, dist: map<NodeId, real>, prev: map<NodeId, Option<NodeId>>, rank: map<NodeId, nat>) {
    && dist.Keys == prev.Keys && Ranked(prev, rank)
    && (forall v :: v in dist && prev[v].None? ==> dist[v] == WLen(m, v))
    && (forall v {:trigger prev[v]} :: v in dist && prev[v].Some? ==> dist[v] == dist[prev[v].value] + WLen(m, v))
  }

  lemma ShortestTreeIsTree(wires: set<NodeId>, adj: map<NodeId, seq<NodeId>>, m: map<NodeId, real>, starts: seq<NodeId>,
                           dist: map<NodeId, real>, prev: map<NodeId, Option<NodeId>>, rank: map<NodeId, nat>)
    requires ShortestTree(wires, adj, m, starts, dist, prev, rank)
    ensures Tree(m, dist, prev, rank)
  {
  }

  /** The wires from a start wire to `t`, each reached from the one before. */
  function PathTo(prev: map<NodeId, Option<NodeId>>, rank: map<NodeId, nat>, t: NodeId): seq<NodeId>
    requires Ranked(prev, rank) && t in prev
    decreases rank[t]
  {
    match prev[t]
    case None => [t]
    case Some(u) => PathTo(prev, rank, u) + [t]
  }

  /** `Array.prototype.reverse`. */
  function Reversed(s: seq<NodeId>): seq<NodeId>
    decreases |s|
  {
    if s == [] then [] else Reversed(s[1..]) + [s[0]]
  }

  lemma {:induction false} ReversedSnoc(s: seq<NodeId>, x: NodeId)
    ensures Reversed(s + [x]) == [x] + Reversed(s)
    decreases |s|
  {
    if s != [] {
      assert (s + [x])[1..] == s[1..] + [x];
      ReversedSnoc(s[1..], x);
    }
  }

  /** `pathTo`: push the wires met while following `prev`, then reverse. */
  method WalkBack(prev: map<NodeId, Option<NodeId>>, ghost rank: map<NodeId, nat>, t: NodeId) returns (path: seq<NodeId>)
    requires Ranked(prev, rank) && t in prev
    ensures path == PathTo(prev, rank, t)
  {
    var res: seq<NodeId> := [];
    var cur: Option<NodeId> := Some(t);
    while cur.Some?
      invariant cur.Some? ==> cur.value in prev
      invariant PathTo(prev, rank, t) == (if cur.Some? then PathTo(prev, rank, cur.value) else []) + Reversed(res)
      decreases if cur.Some? then rank[cur.value] + 1 else 0
    {
      ReversedSnoc(res, cur.value);
      res := res + [cur.value];
      cur := prev[cur.value];
    }
    path := Reversed(res);
    assert [] + path == path;
  }

  /** The lengths `wireLenMap.get(wid) ?? 0` of a list of wires. */
  function WireLens(m: map<NodeId, real>, ws: seq<NodeId>): (r: seq<real>)
    ensures |r| == |ws|
  {
    seq(|ws|, k requires 0 <= k < |ws| => WLen(m, ws[k]))
  }

  lemma WireLensSnoc(m: map<NodeId, real>, ws: seq<NodeId>, w: NodeId)
    ensures WireLens(m, ws + [w]) == WireLens(m, ws) + [WLen(m, w)]
  {
  }

  lemma {:induction false} SumAppend(a: seq<real>, b: seq<real>)
    ensures Sum(a + b) == Sum(a) + Sum(b)
    decreases |b|
  {
    if b != [] {
      var b0, x := b[..|b| - 1], b[|b| - 1];
      assert a + b == (a + b0) + [x];
      assert (a + b)[..|a + b| - 1] == a + b0;
      SumAppend(a, b0);
    } else {
      assert a + b == a;
    }
  }

  lemma SumOfFour(x: real, y: real, z: real, w: real)
    ensures Sum([x, y, z, w]) == x + y + z + w
  {
    assert [x][..0] == [];
    assert Sum([x]) == x;
    assert [x, y][..1] == [x];
    assert Sum([x, y]) == x + y;
    assert [x, y, z][..2] == [x, y];
    assert Sum([x, y, z]) == x + y + z;
    assert [x, y, z, w][..3] == [x, y, z];
  }

  /** What `pathTo` returns for a wire with a finite distance: it ends at the
      wire, starts at a start wire (one without `prev`), each wire is reached
      from the one before it, and the wires' lengths add up to the distance. */
  lemma {:induction false} PathToSpec(m: map<NodeId, real>, dist: map<NodeId, real>, prev: map<NodeId, Option<NodeId>>,
                                      rank: map<NodeId, nat>, t: NodeId)
    requires Tree(m, dist, prev, rank) && t in dist
    ensures var p := PathTo(prev, rank, t);
      && |p| > 0 && p[|p| - 1] == t && p[0] in prev && prev[p[0]].None?
      && (forall k :: 0 <= k < |p| ==> p[k] in dist)
      && (forall k :: 0 < k < |p| ==> prev[p[k]] == Some(p[k - 1]))
      && Sum(WireLens(m, p)) == dist[t]
    decreases rank[t]
  {
    match prev[t]
    case None =>
      assert WireLens(m, [t]) == [WLen(m, t)];
      assert Sum([WLen(m, t)]) == Sum([]) + WLen(m, t);
    case Some(u) =>
      PathToSpec(m, dist, prev, rank, u);
      var q := PathTo(prev, rank, u);
      WireLensSnoc(m, q, t);
      SumAppend(WireLens(m, q), [WLen(m, t)]);
      assert Sum([WLen(m, t)]) == Sum([]) + WLen(m, t);
  }

  // ---------------------------------------------------------------------
  // Labels
  // ---------------------------------------------------------------------

  function BoxLabel(c: Comp): string { "box" + PidNum(IdStr(BoxId(c.box))) }

  function WireLabel(w: NodeId): string { "wire" + PidNum(IdStr(w)) }

  function PartLabel(p: NodeId): string { "part" + PidNum(IdStr(p)) }

  function WireLabels(ws: seq<NodeId>): (r: seq<string>)
    ensures |r| == |ws|
  {
    seq(|ws|, k requires 0 <= k < |ws| => WireLabel(ws[k]))
  }

  /** Labels carry the node's number: `box3`, `wire12`, `part5`. */
  lemma LabelsSpec(c: Comp, n: NodeId)
    ensures BoxLabel(c) == "box" + NatStr(c.box)
    ensures WireLabel(n) == "wire" + NatStr(n.i) && PartLabel(n) == "part" + NatStr(n.i)
  {
    ShortIdOfNode(BoxId(c.box));
    ShortIdOfNode(n);
  }

  // ---------------------------------------------------------------------
  // Routes through a jumper
  // ---------------------------------------------------------------------

  /** A distance as `dist.get(w)` gives it: a number, Infinity for a wire of
      the component not reached, `undefined` for any other id. */
  datatype Reach = At(d: real) | Unreached | Missing

  function ReachOf(wires: set<NodeId>, dist: map<NodeId, real>, w: NodeId): Reach {
    if w in dist then At(dist[w]) else if w in wires then Unreached else Missing
  }

  /** JavaScript's `dA <= dB` on such values: Infinity is above every
      number and equal to itself; `undefined` compares false with anything. */
  predicate NotAbove(a: Reach, b: Reach) {
    match (a, b)
    case (At(x), At(y)) => x <= y
    case (At(_), Unreached) => true
    case (Unreached, Unreached) => true
    case _ => false
  }

  /** The entry end of a jumper (`dA <= dB ? wA : wB`) and its other end. */
  function Ends(wires: set<NodeId>, dist: map<NodeId, real>, lk: Link): (NodeId, NodeId) {
    var wA, wB := WireId(lk.from.0), WireId(lk.from.1);
    var entry := if NotAbove(ReachOf(wires, dist, wA), ReachOf(wires, dist, wB)) then wA else wB;
    (entry, if entry == wA then wB else wA)
  }

  /** The route for jumper `i` of part `p`: none when its entry end is not
      reached; otherwise the path to the entry, across the jumper to the
      other end, back across the jumper to the entry, and the part. */
  function LinkRoute(c: Comp, wires: set<NodeId>, m: map<NodeId, real>, dist: map<NodeId, real>,
                     prev: map<NodeId, Option<NodeId>>, rank: map<NodeId, nat>, p: NodeId, lk: Link, i: nat): Option<EntryRoute>
    requires Tree(m, dist, prev, rank)
  {
    var (entry, other) := Ends(wires, dist, lk);
    if entry !in dist then None
    else
      var prefix := PathTo(prev, rank, entry);
      var tag := PartLabel(p) + "(link" + NatStr(i) + ")";
      var nodes := [BoxLabel(c)] + WireLabels(prefix) + [tag, WireLabel(other), tag, WireLabel(entry), PartLabel(p)];
      var lens := WireLens(m, prefix) + [lk.len, WLen(m, other), lk.len, WLen(m, entry)];
      Some(EntryRoute(nodes, lens, Sum(lens)))
  }

  /** The jumper routes of one part, jumper by jumper. */
  function JumperRoutes(c: Comp, wires: set<NodeId>, m: map<NodeId, real>, dist: map<NodeId, real>,
                        prev: map<NodeId, Option<NodeId>>, rank: map<NodeId, nat>, p: NodeId, lks: seq<Link>): seq<EntryRoute>
    requires Tree(m, dist, prev, rank)
    decreases |lks|
  {
    if lks == [] then []
    else
      var n := |lks| - 1;
      JumperRoutes(c, wires, m, dist, prev, rank, p, lks[..n]) + Opt(LinkRoute(c, wires, m, dist, prev, rank, p, lks[n], n))
  }

  /** The jumper routes of the parts that have jumpers, part by part. */
  function LinkRoutes(c: Comp, wires: set<NodeId>, m: map<NodeId, real>, links: map<NodeId, seq<Link>>,
                      dist: map<NodeId, real>, prev: map<NodeId, Option<NodeId>>, rank: map<NodeId, nat>, ps: seq<NodeId>)
    : seq<EntryRoute>
    requires Tree(m, dist, prev, rank)
    decreases |ps|
  {
    if ps == [] then []
    else
      var p := ps[|ps| - 1];
      LinkRoutes(c, wires, m, links, dist, prev, rank, ps[..|ps| - 1]) + JumperRoutes(c, wires, m, dist, prev, rank, p, LinkList(links, p))
  }

  /** The entry end is the reached end with the smaller distance, the first
      end on a tie. The entry is reached when the first end is reached and
      the second is a wire of the component, or when the second end is
      reached: `undefined <= d` is false, so a first end outside the
      component hands the entry to the second, while a second end outside
      it takes the entry from a reached first end. */
  lemma EndsSpec(wires: set<NodeId>, dist: map<NodeId, real>, lk: Link)
    requires dist.Keys <= wires
    ensures var wA, wB := WireId(lk.from.0), WireId(lk.from.1);
      var (entry, other) := Ends(wires, dist, lk);
      && {entry, other} == {wA, wB}
      && (entry in dist <==> (wA in dist && wB in wires) || wB in dist)
      && (entry in dist && other in dist ==> dist[entry] <= dist[other])
      && (wA in dist && wB in dist && dist[wA] == dist[wB] ==> entry == wA)
  {
    var wA, wB := WireId(lk.from.0), WireId(lk.from.1);
    var ra, rb := ReachOf(wires, dist, wA), ReachOf(wires, dist, wB);
    var (entry, other) := Ends(wires, dist, lk);
    if NotAbove(ra, rb) {
      assert entry == wA;
      assert entry in dist <==> ra.At?;
    } else {
      assert entry == wB && other == wA;
      assert entry in dist <==> rb.At?;
    }
  }

  /** A jumper route exists exactly when the entry end is reached. Its
      labels run from the box to the part; its lengths are the path to the
      entry, then jumper, other end, jumper, entry; its sum is their total,
      which is the entry's distance plus those four. */
  lemma LinkRouteSpec(c: Comp, wires: set<NodeId>, m: map<NodeId, real>, dist: map<NodeId, real>,
                      prev: map<NodeId, Option<NodeId>>, rank: map<NodeId, nat>, p: NodeId, lk: Link, i: nat)
    requires Tree(m, dist, prev, rank)
    ensures var (entry, other) := Ends(wires, dist, lk);
      var r := LinkRoute(c, wires, m, dist, prev, rank, p, lk, i);
      && (r.Some? <==> entry in dist)
      && (r.Some? ==>
            var prefix := PathTo(prev, rank, entry);
            && r.value.nodes[0] == BoxLabel(c) && r.value.nodes[|r.value.nodes| - 1] == PartLabel(p)
            && |r.value.nodes| == |prefix| + 6
            && r.value.lens == WireLens(m, prefix) + [lk.len, WLen(m, other), lk.len, WLen(m, entry)]
            && r.value.sum == Sum(r.value.lens)
            && r.value.sum == dist[entry] + lk.len + WLen(m, other) + lk.len + WLen(m, entry))
  {
    var (entry, other) := Ends(wires, dist, lk);
    if entry in dist {
      var prefix := PathTo(prev, rank, entry);
      PathToSpec(m, dist, prev, rank, entry);
      var tail := [lk.len, WLen(m, other), lk.len, WLen(m, entry)];
      SumAppend(WireLens(m, prefix), tail);
      SumOfFour(lk.len, WLen(m, other), lk.len, WLen(m, entry));
    }
  }

  // ---------------------------------------------------------------------
  // Routes to a part without a jumper
  // ---------------------------------------------------------------------

  /** The position of the hit wire chosen as entry: the first of those with
      the smallest finite distance (`d < best.d` keeps the earlier one on a
      tie); none when no hit wire is reached. */
  function BestHit(hits: seq<NodeId>, dist: map<NodeId, real>): (r: Option<nat>)
    ensures r.Some? ==> r.value < |hits| && hits[r.value] in dist
    decreases |hits|
  {
    if hits == [] then None
    else
      var n := |hits| - 1;
      var b := BestHit(hits[..n], dist);
      if hits[n] !in dist then b
      else if b.None? || dist[hits[n]] < dist[hits[b.value]] then Some(n)
      else b
  }

  /** No position exactly when no hit wire is reached; otherwise the
      smallest distance, at its first position. */
  lemma {:induction false} BestHitSpec(hits: seq<NodeId>, dist: map<NodeId, real>)
    ensures var r := BestHit(hits, dist);
      && (r.None? <==> forall k :: 0 <= k < |hits| ==> hits[k] !in dist)
      && (r.Some? ==> forall k :: 0 <= k < |hits| && hits[k] in dist ==> dist[hits[r.value]] <= dist[hits[k]])
      && (r.Some? ==> forall k :: 0 <= k < r.value && hits[k] in dist ==> dist[hits[r.value]] < dist[hits[k]])
    decreases |hits|
  {
    if hits != [] {
      var n := |hits| - 1;
      BestHitSpec(hits[..n], dist);
      assert forall k :: 0 <= k < n ==> hits[..n][k] == hits[k];
    }
  }

  /** The loop choosing `best`. */
  method PickBest(hits: seq<NodeId>, dist: map<NodeId, real>) returns (best: Option<nat>)
    ensures best == BestHit(hits, dist)
  {
    best := None;
    for k := 0 to |hits|
      invariant best == BestHit(hits[..k], dist)
    {
      assert hits[..k + 1][..k] == hits[..k];
      var wid := hits[k];
      if wid !in dist {
        continue;
      }
      if best.None? || dist[wid] < dist[hits[best.value]] {
        best := Some(k);
      }
    }
    assert hits[..|hits|] == hits;
  }

  /** The route to a part without a jumper: the path to its entry wire, then
      the part. */
  function TerminalRoute(d: Drawing, eps: Tol, c: Comp, m: map<NodeId, real>, dist: map<NodeId, real>,
                         prev: map<NodeId, Option<NodeId>>, rank: map<NodeId, nat>, p: NodeId): Option<EntryRoute>
    requires Indexable(d, c) && ValidNode(d, p) && BBox(Pts(d, p)).Some? && Tree(m, dist, prev, rank)
  {
    var hits := HitWires(d, eps, c, Pts(d, p));
    match BestHit(hits, dist)
    case None => None
    case Some(k) =>
      var prefix := PathTo(prev, rank, hits[k]);
      var lens := WireLens(m, prefix);
      Some(EntryRoute([BoxLabel(c)] + WireLabels(prefix) + [PartLabel(p)], lens, Sum(lens)))
  }

  /** The routes `f` gives the parts of `ps`, part by part. */
  ghost function Joined(f: NodeId -> seq<EntryRoute>, ps: seq<NodeId>): seq<EntryRoute>
    decreases |ps|
  {
    if ps == [] then [] else Joined(f, ps[..|ps| - 1]) + f(ps[|ps| - 1])
  }

  lemma JoinedSnoc(f: NodeId -> seq<EntryRoute>, ps: seq<NodeId>, p: NodeId)
    ensures Joined(f, ps + [p]) == Joined(f, ps) + f(p)
  {
    assert (ps + [p])[..|ps|] == ps;
  }

  /** One more part joined: the loops' step. */
  lemma JoinedStep(f: NodeId -> seq<EntryRoute>, ps: seq<NodeId>, n: nat, out: seq<EntryRoute>, more: seq<EntryRoute>)
    requires n < |ps| && out == Joined(f, ps[..n]) && more == f(ps[n])
    ensures out + more == Joined(f, ps[..n + 1])
  {
    assert ps[..n + 1] == ps[..n] + [ps[n]];
    JoinedSnoc(f, ps[..n], ps[n]);
  }

  /** What one part adds to the routes without jumpers: nothing when it has
      jumpers, otherwise its route if it has one. */
  ghost function TerminalPart(d: Drawing, eps: Tol, c: Comp, m: map<NodeId, real>, links: map<NodeId, seq<Link>>,
                              dist: map<NodeId, real>, prev: map<NodeId, Option<NodeId>>, rank: map<NodeId, nat>)
    : NodeId -> seq<EntryRoute>
  {
    (p: NodeId) =>
      if Indexable(d, c) && ValidNode(d, p) && BBox(Pts(d, p)).Some? && Tree(m, dist, prev, rank) && LinkList(links, p) == []
      then Opt(TerminalRoute(d, eps, c, m, dist, prev, rank, p))
      else []
  }

  /** The routes of the parts that have no jumper, part by part. */
  ghost function TerminalRoutes(d: Drawing, eps: Tol, c: Comp, m: map<NodeId, real>, links: map<NodeId, seq<Link>>,
                                dist: map<NodeId, real>, prev: map<NodeId, Option<NodeId>>, rank: map<NodeId, nat>)
    : seq<EntryRoute>
  {
    Joined(TerminalPart(d, eps, c, m, links, dist, prev, rank), c.parts)
  }

  /** A wire of the component touching part `p`: crossing its rectangle
      within the tolerance, or with a vertex inside it. */
  predicate TouchesPart(d: Drawing, eps: Tol, c: Comp, p: NodeId, v: NodeId)
    requires ValidNode(d, p)
  {
    v.WireId? && v.i in c.wires && v.i < |d.wire| && Shortest.Hits(d.wire[v.i], Pts(d, p), eps)
  }

  /** A part without a jumper gets a route exactly when some wire of the
      component touching it is reached; the route enters by a touching
      reached wire no farther than any other, ends at the part, and sums to
      that wire's distance. */
  lemma TerminalRouteSpec(d: Drawing, eps: Tol, c: Comp, m: map<NodeId, real>, dist: map<NodeId, real>,
                          prev: map<NodeId, Option<NodeId>>, rank: map<NodeId, nat>, p: NodeId)
    returns (entry: NodeId)
    requires Indexable(d, c) && ValidNode(d, p) && BBox(Pts(d, p)).Some? && Tree(m, dist, prev, rank)
    ensures var r := TerminalRoute(d, eps, c, m, dist, prev, rank, p);
      && (r.None? <==> forall v :: v in dist ==> !TouchesPart(d, eps, c, p, v))
      && (r.Some? ==>
            && entry in dist && TouchesPart(d, eps, c, p, entry)
            && (forall v :: v in dist && TouchesPart(d, eps, c, p, v) ==> dist[entry] <= dist[v])
            && r.value.nodes == [BoxLabel(c)] + WireLabels(PathTo(prev, rank, entry)) + [PartLabel(p)]
            && r.value.sum == Sum(r.value.lens) == dist[entry])
  {
    var hits := HitWires(d, eps, c, Pts(d, p));
    assert forall v :: v in hits <==> TouchesPart(d, eps, c, p, v) by {
      HitWiresSpec(d, eps, c, Pts(d, p));
    }
    BestHitNearest(hits, dist, v => TouchesPart(d, eps, c, p, v));
    var b := BestHit(hits, dist);
    entry := if b.Some? then hits[b.value] else BoxId(c.box);
    if b.Some? {
      assert Sum(WireLens(m, PathTo(prev, rank, entry))) == dist[entry] by {
        PathToSpec(m, dist, prev, rank, entry);
      }
    }
  }

  /** The entry `BestHit` picks among the wires touching something is a
      reached one no farther than any other reached one touching it; there
      is none exactly when no touching wire is reached. */
  lemma BestHitNearest(hits: seq<NodeId>, dist: map<NodeId, real>, touches: NodeId -> bool)
    requires forall v :: v in hits <==> touches(v)
    ensures var b := BestHit(hits, dist);
      && (b.None? <==> forall v :: v in dist ==> !touches(v))
      && (b.Some? ==> touches(hits[b.value]) && forall v :: v in dist && touches(v) ==> dist[hits[b.value]] <= dist[v])
  {
    var b := BestHit(hits, dist);
    BestHitSpec(hits, dist);
    if b.Some? {
      forall v | v in dist && touches(v) ensures dist[hits[b.value]] <= dist[v] {
        var k :| 0 <= k < |hits| && hits[k] == v;
      }
    } else {
      assert forall v :: v in hits ==> v !in dist;
    }
  }

  // ---------------------------------------------------------------------
  // printRoute
  // ---------------------------------------------------------------------

  function WireSet(c: Comp): set<NodeId> {
    set x | x in WireNodes(c)
  }

  /** Everything `printRoute` returns for a component whose wires and
      parts are both non-empty: first the jumper routes, then the routes to
      the parts without jumpers. */
  ghost function Routes(d: Drawing, eps: Tol, c: Comp, m: map<NodeId, real>, links: map<NodeId, seq<Link>>,
                  dist: map<NodeId, real>, prev: map<NodeId, Option<NodeId>>, rank: map<NodeId, nat>): seq<EntryRoute>
    requires Indexable(d, c) && Tree(m, dist, prev, rank)
  {
    LinkRoutes(c, WireSet(c), m, links, dist, prev, rank, c.parts)
    + TerminalRoutes(d, eps, c, m, links, dist, prev, rank)
  }

  /** Every route starts at the box, has at least one more node, and its
      sum is the total of its lengths. */
  ghost predicate WellFormed(c: Comp, rs: seq<EntryRoute>) {
    forall k :: 0 <= k < |rs| ==> |rs[k].nodes| >= 2 && rs[k].nodes[0] == BoxLabel(c) && rs[k].sum == Sum(rs[k].lens)
  }

  lemma WellFormedAppend(c: Comp, a: seq<EntryRoute>, b: seq<EntryRoute>)
    requires WellFormed(c, a) && WellFormed(c, b)
    ensures WellFormed(c, a + b)
  {
  }

  lemma {:induction false} JumperRoutesWellFormed(c: Comp, wires: set<NodeId>, m: map<NodeId, real>, dist: map<NodeId, real>,
                                                  prev: map<NodeId, Option<NodeId>>, rank: map<NodeId, nat>, p: NodeId, lks: seq<Link>)
    requires Tree(m, dist, prev, rank)
    ensures WellFormed(c, JumperRoutes(c, wires, m, dist, prev, rank, p, lks))
    decreases |lks|
  {
    if lks != [] {
      var n := |lks| - 1;
      JumperRoutesWellFormed(c, wires, m, dist, prev, rank, p, lks[..n]);
      LinkRouteSpec(c, wires, m, dist, prev, rank, p, lks[n], n);
      WellFormedAppend(c, JumperRoutes(c, wires, m, dist, prev, rank, p, lks[..n]), Opt(LinkRoute(c, wires, m, dist, prev, rank, p, lks[n], n)));
    }
  }

  lemma {:induction false} LinkRoutesWellFormed(c: Comp, wires: set<NodeId>, m: map<NodeId, real>, links: map<NodeId, seq<Link>>,
                                                dist: map<NodeId, real>, prev: map<NodeId, Option<NodeId>>, rank: map<NodeId, nat>, ps: seq<NodeId>)
    requires Tree(m, dist, prev, rank)
    ensures WellFormed(c, LinkRoutes(c, wires, m, links, dist, prev, rank, ps))
    decreases |ps|
  {
    if ps != [] {
      var p := ps[|ps| - 1];
      LinkRoutesWellFormed(c, wires, m, links, dist, prev, rank, ps[..|ps| - 1]);
      JumperRoutesWellFormed(c, wires, m, dist, prev, rank, p, LinkList(links, p));
      WellFormedAppend(c, LinkRoutes(c, wires, m, links, dist, prev, rank, ps[..|ps| - 1]), JumperRoutes(c, wires, m, dist, prev, rank, p, LinkList(links, p)));
    }
  }

  lemma {:induction false} JoinedWellFormed(c: Comp, f: NodeId -> seq<EntryRoute>, ps: seq<NodeId>)
    requires forall p :: WellFormed(c, f(p))
    ensures WellFormed(c, Joined(f, ps))
    decreases |ps|
  {
    if ps != [] {
      JoinedWellFormed(c, f, ps[..|ps| - 1]);
      WellFormedAppend(c, Joined(f, ps[..|ps| - 1]), f(ps[|ps| - 1]));
    }
  }

  lemma TerminalPartWellFormed(d: Drawing, eps: Tol, c: Comp, m: map<NodeId, real>, links: map<NodeId, seq<Link>>,
                                dist: map<NodeId, real>, prev: map<NodeId, Option<NodeId>>, rank: map<NodeId, nat>, p: NodeId)
    ensures WellFormed(c, TerminalPart(d, eps, c, m, links, dist, prev, rank)(p))
  {
    if Indexable(d, c) && ValidNode(d, p) && BBox(Pts(d, p)).Some? && Tree(m, dist, prev, rank) && LinkList(links, p) == [] {
      assert TerminalPart(d, eps, c, m, links, dist, prev, rank)(p) == Opt(TerminalRoute(d, eps, c, m, dist, prev, rank, p));
      TerminalRouteWellFormed(d, eps, c, m, dist, prev, rank, p);
    }
  }

  lemma TerminalRouteWellFormed(d: Drawing, eps: Tol, c: Comp, m: map<NodeId, real>, dist: map<NodeId, real>,
                                prev: map<NodeId, Option<NodeId>>, rank: map<NodeId, nat>, p: NodeId)
    requires Indexable(d, c) && ValidNode(d, p) && BBox(Pts(d, p)).Some? && Tree(m, dist, prev, rank)
    ensures WellFormed(c, Opt(TerminalRoute(d, eps, c, m, dist, prev, rank, p)))
  {
    var hits := HitWires(d, eps, c, Pts(d, p));
    var b := BestHit(hits, dist);
    if b.Some? {
      var prefix := PathTo(prev, rank, hits[b.value]);
      var nodes := [BoxLabel(c)] + WireLabels(prefix) + [PartLabel(p)];
      assert nodes[0] == BoxLabel(c);
    }
  }

  lemma TerminalRoutesWellFormed(d: Drawing, eps: Tol, c: Comp, m: map<NodeId, real>, links: map<NodeId, seq<Link>>,
                                 dist: map<NodeId, real>, prev: map<NodeId, Option<NodeId>>, rank: map<NodeId, nat>)
    ensures WellFormed(c, TerminalRoutes(d, eps, c, m, links, dist, prev, rank))
  {
    var f := TerminalPart(d, eps, c, m, links, dist, prev, rank);
    forall p ensures WellFormed(c, f(p)) {
      TerminalPartWellFormed(d, eps, c, m, links, dist, prev, rank, p);
    }
    JoinedWellFormed(c, f, c.parts);
  }

  /** Every route `printRoute` returns starts at the component's box, goes
      on to at least one more node, and carries the total of its lengths. */
  lemma RoutesWellFormed(d: Drawing, eps: Tol, c: Comp, m: map<NodeId, real>, links: map<NodeId, seq<Link>>,
                         dist: map<NodeId, real>, prev: map<NodeId, Option<NodeId>>, rank: map<NodeId, nat>)
    requires Indexable(d, c) && Tree(m, dist, prev, rank)
    ensures WellFormed(c, Routes(d, eps, c, m, links, dist, prev, rank))
  {
    LinkRoutesWellFormed(c, WireSet(c), m, links, dist, prev, rank, c.parts);
    TerminalRoutesWellFormed(d, eps, c, m, links, dist, prev, rank);
  }

  // ---------------------------------------------------------------------
  // The loops
  // ---------------------------------------------------------------------

  /** `lens.reduce((a, b) => a + b, 0)`. */
  method Total(lens: seq<real>) returns (sum: real)
    ensures sum == Sum(lens)
  {
    sum := 0.0;
    for k := 0 to |lens|
      invariant sum == Sum(lens[..k])
    {
      assert lens[..k + 1][..k] == lens[..k];
      sum := sum + lens[k];
    }
    assert lens[..|lens|] == lens;
  }

  /** The box label, then one label and one length per wire of the path. */
  method Prefix(c: Comp, m: map<NodeId, real>, path: seq<NodeId>) returns (nodes: seq<string>, lens: seq<real>)
    ensures nodes == [BoxLabel(c)] + WireLabels(path) && lens == WireLens(m, path)
  {
    nodes, lens := [BoxLabel(c)], [];
    for j := 0 to |path|
      invariant nodes == [BoxLabel(c)] + WireLabels(path[..j]) && lens == WireLens(m, path[..j])
    {
      assert path[..j + 1] == path[..j] + [path[j]];
      assert WireLabels(path[..j + 1]) == WireLabels(path[..j]) + [WireLabel(path[j])];
      WireLensSnoc(m, path[..j], path[j]);
      nodes := nodes + [WireLabel(path[j])];
      lens := lens + [WLen(m, path[j])];
    }
    assert path[..|path|] == path;
  }

  /** The route for jumper `i` of part `p`. */
  method JumperRoute(c: Comp, wires: set<NodeId>, m: map<NodeId, real>, dist: map<NodeId, real>,
                     prev: map<NodeId, Option<NodeId>>, ghost rank: map<NodeId, nat>, p: NodeId, lk: Link, i: nat)
    returns (r: Option<EntryRoute>)
    requires Tree(m, dist, prev, rank)
    ensures r == LinkRoute(c, wires, m, dist, prev, rank, p, lk, i)
  {
    var wA, wB := WireId(lk.from.0), WireId(lk.from.1);
    var entry := if NotAbove(ReachOf(wires, dist, wA), ReachOf(wires, dist, wB)) then wA else wB;
    var other := if entry == wA then wB else wA;
    if entry !in dist {
      return None;
    }
    var prefix := WalkBack(prev, rank, entry);
    var nodes, lens := Prefix(c, m, prefix);
    var tag := PartLabel(p) + "(link" + NatStr(i) + ")";
    nodes := nodes + [tag, WireLabel(other), tag, WireLabel(entry), PartLabel(p)];
    lens := lens + [lk.len, WLen(m, other), lk.len, WLen(m, entry)];
    var sum := Total(lens);
    r := Some(EntryRoute(nodes, lens, sum));
  }

  /** `p.link.forEach((lk, i) => ...)` for one part. */
  method JumperRoutesLoop(c: Comp, wires: set<NodeId>, m: map<NodeId, real>, dist: map<NodeId, real>,
                          prev: map<NodeId, Option<NodeId>>, ghost rank: map<NodeId, nat>, p: NodeId, lks: seq<Link>)
    returns (out: seq<EntryRoute>)
    requires Tree(m, dist, prev, rank)
    ensures out == JumperRoutes(c, wires, m, dist, prev, rank, p, lks)
  {
    out := [];
    for i := 0 to |lks|
      invariant out == JumperRoutes(c, wires, m, dist, prev, rank, p, lks[..i])
    {
      assert lks[..i + 1][..i] == lks[..i];
      var r := JumperRoute(c, wires, m, dist, prev, rank, p, lks[i], i);
      out := out + Opt(r);
    }
    assert lks[..|lks|] == lks;
  }

  /** The routes of the parts with jumpers. */
  method LinkRoutesLoop(c: Comp, m: map<NodeId, real>, links: map<NodeId, seq<Link>>, dist: map<NodeId, real>,
                        prev: map<NodeId, Option<NodeId>>, ghost rank: map<NodeId, nat>)
    returns (out: seq<EntryRoute>)
    requires Tree(m, dist, prev, rank)
    ensures out == LinkRoutes(c, WireSet(c), m, links, dist, prev, rank, c.parts)
  {
    out := [];
    var wires := WireSet(c);
    for k := 0 to |c.parts|
      invariant out == LinkRoutes(c, wires, m, links, dist, prev, rank, c.parts[..k])
    {
      assert c.parts[..k + 1][..k] == c.parts[..k];
      var p := c.parts[k];
      var lks := LinkList(links, p);
      if lks == [] {
        continue;
      }
      var more := JumperRoutesLoop(c, wires, m, dist, prev, rank, p, lks);
      out := out + more;
    }
    assert c.parts[..|c.parts|] == c.parts;
  }

  /** The route of a part without jumpers: the wires touching it, the best
      reached one, the path to it. */
  method TerminalRouteOf(d: Drawing, eps: Tol, c: Comp, m: map<NodeId, real>, dist: map<NodeId, real>,
                         prev: map<NodeId, Option<NodeId>>, ghost rank: map<NodeId, nat>, wgrid: Grid<NodeId>, p: NodeId)
    returns (r: Option<EntryRoute>)
    requires Indexable(d, c) && ValidNode(d, p) && BBox(Pts(d, p)).Some? && Tree(m, dist, prev, rank) && wgrid == WireGrid(d, c)
    ensures r == TerminalRoute(d, eps, c, m, dist, prev, rank, p)
  {
    var hits := HitWiresLoop(d, eps, c, wgrid, Pts(d, p));
    var best := PickBest(hits, dist);
    if best.None? {
      return None;
    }
    var prefix := WalkBack(prev, rank, hits[best.value]);
    var nodes, lens := Prefix(c, m, prefix);
    nodes := nodes + [PartLabel(p)];
    var sum := Total(lens);
    r := Some(EntryRoute(nodes, lens, sum));
  }

  /** One part's share of the routes without jumpers: skipped when it has
      jumpers. */
  method TerminalPartOf(d: Drawing, eps: Tol, c: Comp, m: map<NodeId, real>, links: map<NodeId, seq<Link>>,
                        dist: map<NodeId, real>, prev: map<NodeId, Option<NodeId>>, ghost rank: map<NodeId, nat>,
                        wgrid: Grid<NodeId>, p: NodeId)
    returns (more: seq<EntryRoute>)
    requires Indexable(d, c) && ValidNode(d, p) && BBox(Pts(d, p)).Some? && Tree(m, dist, prev, rank) && wgrid == WireGrid(d, c)
    ensures more == TerminalPart(d, eps, c, m, links, dist, prev, rank)(p)
  {
    more := [];
    if LinkList(links, p) == [] {
      var r := TerminalRouteOf(d, eps, c, m, dist, prev, rank, wgrid, p);
      more := Opt(r);
    }
  }

  /** The routes of the parts without jumpers. */
  method TerminalRoutesLoop(d: Drawing, eps: Tol, c: Comp, m: map<NodeId, real>, links: map<NodeId, seq<Link>>,
                            dist: map<NodeId, real>, prev: map<NodeId, Option<NodeId>>, ghost rank: map<NodeId, nat>,
                            wgrid: Grid<NodeId>)
    returns (out: seq<EntryRoute>)
    requires Indexable(d, c) && Tree(m, dist, prev, rank) && wgrid == WireGrid(d, c)
    ensures out == TerminalRoutes(d, eps, c, m, links, dist, prev, rank)
  {
    ghost var f := TerminalPart(d, eps, c, m, links, dist, prev, rank);
    out := [];
    for n := 0 to |c.parts|
      invariant out == Joined(f, c.parts[..n])
    {
      var p := c.parts[n];
      var more := TerminalPartOf(d, eps, c, m, links, dist, prev, rank, wgrid, p);
      JoinedStep(f, c.parts, n, out, more);
      out := out + more;
    }
    assert c.parts[..|c.parts|] == c.parts;
  }

  lemma WireSetHas(c: Comp, x: NodeId)
    ensures x in WireSet(c) <==> x.WireId? && x.i in c.wires
  {
    if x.WireId? && x.i in c.wires {
      var k :| 0 <= k < |c.wires| && c.wires[k] == x.i;
      assert WireNodes(c)[k] == x;
    }
  }

  /** What the Dijkstra pass of `printRoute` needs of its inputs: lengths are
      not negative, and start wires and neighbours are wires of the
      component. */
  lemma ShortestInputs(d: Drawing, eps: Tol, hypot: Hypot, c: Comp)
    requires Indexable(d, c)
    ensures NonNegLens(WireLengths(d, c, hypot, 1.0))
    ensures forall s :: s in HitWires(d, eps, c, d.box[c.box]) ==> s in WireSet(c)
    ensures forall x, y :: y in Listed(WireAdj(d, eps, c), x) ==> y in WireSet(c)
  {
    var m := WireLengths(d, c, hypot, 1.0);
    forall v | v in m ensures m[v] >= 0.0 {
      var k :| 0 <= k < |c.wires| && c.wires[k] == v.i;
    }
    HitWiresSpec(d, eps, c, d.box[c.box]);
    forall s | s in HitWires(d, eps, c, d.box[c.box]) ensures s in WireSet(c) {
      WireSetHas(c, s);
    }
    forall x, y | y in Listed(WireAdj(d, eps, c), x) ensures y in WireSet(c) {
      WireAdjHas(d, eps, c, x, y);
      WireSetHas(c, y);
    }
  }

  /** `printRoute(comp)`: nothing for a component without wires or without
      parts; otherwise the wire adjacency, the start wires at the box, the
      Dijkstra pass over them, and the routes built from its result. */
  method PrintRoute(d: Drawing, eps: Tol, hypot: Hypot, c: Comp, links: map<NodeId, seq<Link>>)
    returns (ret: Option<seq<EntryRoute>>, ghost dist: map<NodeId, real>, ghost prev: map<NodeId, Option<NodeId>>,
             ghost rank: map<NodeId, nat>)
    requires Indexable(d, c)
    ensures ret.None? <==> c.wires == [] || c.parts == []
    ensures ret.Some? ==>
      var m := WireLengths(d, c, hypot, 1.0);
      && ShortestTree(WireSet(c), WireAdj(d, eps, c), m, HitWires(d, eps, c, d.box[c.box]), dist, prev, rank)
      && Tree(m, dist, prev, rank)
      && ret.value == Routes(d, eps, c, m, links, dist, prev, rank)
  {
    if |c.wires| == 0 || |c.parts| == 0 {
      return None, map[], map[], map[];
    }
    var m := MeasureWires(d, c, hypot, 1.0);
    var wgrid := Build(WireItemsOf(d, c.wires), CELL);
    var adj := BuildWireAdj(d, eps, c, wgrid);
    var starts := HitWiresLoop(d, eps, c, wgrid, d.box[c.box]);
    ShortestInputs(d, eps, hypot, c);
    var dist', prev', rank' := ShortestFrom(WireSet(c), adj, m, starts);
    dist, prev, rank := dist', prev', rank';
    ShortestTreeIsTree(WireSet(c), adj, m, starts, dist, prev, rank);
    var linkRoutes := LinkRoutesLoop(c, m, links, dist', prev', rank);
    var terminalRoutes := TerminalRoutesLoop(d, eps, c, m, links, dist', prev', rank, wgrid);
    ret := Some(linkRoutes + terminalRoutes);
  }
}
