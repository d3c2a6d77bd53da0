/**
 * `printRoutesFromBox` (src/link/fn.js): a depth-first search from the
 * component's box along wire -> part -> wire steps, crossing each part by its
 * first jumper, with backtracking over shared token, length and visited
 * stacks and a depth cap. A route is reported where a part has no way on.
 */
module RouteEnum {
  import opened Wrappers
  import opened Geometry
  import opened Ids
  import opened Drawing
  import opened LinkSets
  import opened PartLinks
  import opened CompAdj

  /** The options the search uses; `decimals` only formats the report. */
  datatype Opts = Opts(scale: real, includeWireWire: bool, maxDepth: nat)

  const DEFAULT_OPTS := Opts(1.0, false, 80)

  /** What the search walks: the component's box, its tables, each wire's
      scaled length and each part's first link. */
  datatype Graph = Graph(box: NodeId, adj: Adjacency, wireLen: map<NodeId, real>, link: map<NodeId, Link>)

  /** A token of a route: a node, or a part crossed by the link with the
      given id. */
  datatype Token = Node(n: NodeId) | Crossing(n: NodeId, link: string)

  /** How a token is printed: the short id, with the link's short id in
      brackets after a crossed part. */
  function TokenText(t: Token): string {
    match t
    case Node(n) => ShortId(IdStr(n))
    case Crossing(n, l) => ShortId(IdStr(n)) + "(" + ShortId(l) + ")"
  }

  /** A reported route: its tokens, the lengths added along it and their total. */
  datatype Route = Route(tokens: seq<Token>, lens: seq<real>, total: real)

  /** The shared stacks of the search. */
  datatype Walk = Walk(tokens: seq<Token>, lens: seq<real>, visited: set<NodeId>)

  function Sum(s: seq<real>): real
    decreases |s|
  {
    if s == [] then 0.0 else Sum(s[..|s| - 1]) + s[|s| - 1]
  }

  /** `table.get(x) || []`. */
  function Listed(m: map<NodeId, seq<NodeId>>, x: NodeId): seq<NodeId> {
    if x in m then m[x] else []
  }

  /** `wireLen.get(w) || 0`. */
  function Len(g: Graph, w: NodeId): real {
    if w in g.wireLen then g.wireLen[w] else 0.0
  }

  /** `getLink`: the part's first link, when it joins both wires. */
  function GetLink(g: Graph, p: NodeId, wireIn: NodeId, wireOut: NodeId): Option<Link> {
    if p !in g.link then None
    else
      var lk := g.link[p];
      var ends := [WireId(lk.from.0), WireId(lk.from.1)];
      if wireIn in ends && wireOut in ends then Some(lk) else None
  }

  /** The wires of a part other than the one the search came in by. */
  function Without(s: seq<NodeId>, x: NodeId): (r: seq<NodeId>)
    decreases |s|
  {
    if s == [] then [] else Without(s[..|s| - 1], x) + (if s[|s| - 1] != x then [s[|s| - 1]] else [])
  }

  lemma {:induction false} WithoutSpec(s: seq<NodeId>, x: NodeId)
    ensures forall y :: y in Without(s, x) <==> y in s && y != x
    decreases |s|
  {
    if s != [] {
      WithoutSpec(s[..|s| - 1], x);
      assert s == s[..|s| - 1] + [s[|s| - 1]];
    }
  }

  /** The report at a part with no way on. */
  function Emit(st: Walk): Route {
    Route(st.tokens, st.lens, Sum(st.lens))
  }

  /** The steps left before the depth cap. */
  function Fuel(o: Opts, depth: nat): nat {
    if depth > o.maxDepth then 0 else o.maxDepth + 1 - depth
  }

  // ---------------------------------------------------------------------
  // The routes, as functions of the search state
  // ---------------------------------------------------------------------

  /** `dfsWire(wid, cameFrom, depth)`: the routes found from wire `wid`. */
  function WireRoutes(g: Graph, o: Opts, st: Walk, wid: NodeId, came: Option<NodeId>, depth: nat): seq<Route>
    requires |st.tokens| > 0
    decreases Fuel(o, depth), 2, 0
  {
    if depth > o.maxDepth then []
    else
      PartSteps(g, o, st, wid, came, depth, Listed(g.adj.wireToParts, wid))
      + (if o.includeWireWire then WireHops(g, o, st, wid, came, depth, Listed(g.adj.wireToWires, wid)) else [])
  }

  /** The parts of wire `wid`, in table order. */
  function PartSteps(g: Graph, o: Opts, st: Walk, wid: NodeId, came: Option<NodeId>, depth: nat, ps: seq<NodeId>)
    : seq<Route>
    requires |st.tokens| > 0 && depth <= o.maxDepth
    decreases Fuel(o, depth), 1, |ps|
  {
    if ps == [] then []
    else PartSteps(g, o, st, wid, came, depth, ps[..|ps| - 1]) + PartStep(g, o, st, wid, came, depth, ps[|ps| - 1])
  }

  /** Enter part `pid` from wire `wid`, unless it is the part the search just
      left or is already on the route. */
  function PartStep(g: Graph, o: Opts, st: Walk, wid: NodeId, came: Option<NodeId>, depth: nat, pid: NodeId): seq<Route>
    requires |st.tokens| > 0 && depth <= o.maxDepth
    decreases Fuel(o, depth), 0, 0
  {
    if came == Some(pid) || pid in st.visited then []
    else PartRoutes(g, o, Walk(st.tokens + [Node(pid)], st.lens, st.visited + {pid}), pid, wid, depth + 1)
  }

  /** The wires that wire `wid` touches, in table order. */
  function WireHops(g: Graph, o: Opts, st: Walk, wid: NodeId, came: Option<NodeId>, depth: nat, ws: seq<NodeId>)
    : seq<Route>
    requires |st.tokens| > 0 && depth <= o.maxDepth
    decreases Fuel(o, depth), 1, |ws|
  {
    if ws == [] then []
    else WireHops(g, o, st, wid, came, depth, ws[..|ws| - 1]) + WireHop(g, o, st, came, depth, ws[|ws| - 1])
  }

  /** Go on to wire `w2` unless it is already on the route. */
  function WireHop(g: Graph, o: Opts, st: Walk, came: Option<NodeId>, depth: nat, w2: NodeId): seq<Route>
    requires |st.tokens| > 0 && depth <= o.maxDepth
    decreases Fuel(o, depth), 0, 0
  {
    if w2 in st.visited then []
    else WireRoutes(g, o, Walk(st.tokens + [Node(w2)], st.lens + [Len(g, w2)], st.visited + {w2}), w2, came, depth + 1)
  }

  /** `dfsPart(pid, wireIn, depth)`: the routes found from part `pid`. */
  function PartRoutes(g: Graph, o: Opts, st: Walk, pid: NodeId, wireIn: NodeId, depth: nat): seq<Route>
    requires |st.tokens| > 0
    decreases Fuel(o, depth), 2, 0
  {
    if depth > o.maxDepth then []
    else
      var outs := Without(Listed(g.adj.partToWires, pid), wireIn);
      if outs == [] then [Emit(st)] else OutSteps(g, o, st, pid, wireIn, depth, outs)
  }

  /** The ways out of part `pid`, in table order. */
  function OutSteps(g: Graph, o: Opts, st: Walk, pid: NodeId, wireIn: NodeId, depth: nat, outs: seq<NodeId>)
    : seq<Route>
    requires |st.tokens| > 0 && depth <= o.maxDepth
    decreases Fuel(o, depth), 1, |outs|
  {
    if outs == [] then []
    else OutSteps(g, o, st, pid, wireIn, depth, outs[..|outs| - 1]) + OutStep(g, o, st, pid, wireIn, depth, outs[|outs| - 1])
  }

  /** The token of the part when it is crossed by link `lk`. */
  function Crossed(last: Token, lk: Option<Link>): Token {
    if lk.Some? then Crossing(last.n, lk.value.id) else last
  }

  /** Leave part `pid` by wire `wout`: a wire already on the route ends the
      route at the part; otherwise the link (if any) and the wire are added. */
  function OutStep(g: Graph, o: Opts, st: Walk, pid: NodeId, wireIn: NodeId, depth: nat, wout: NodeId): seq<Route>
    requires |st.tokens| > 0 && depth <= o.maxDepth
    decreases Fuel(o, depth), 0, 0
  {
    if wout in st.visited then [Emit(st)]
    else WireRoutes(g, o, Leave(g, o, st, pid, wireIn, wout), wout, Some(pid), depth + 1)
  }

  /** The stacks after leaving part `pid` by wire `wout`: the part's token
      crossed by the link (if any), the wire's token, the link's scaled
      length (0 without a link) and the wire's length, and the wire visited. */
  function Leave(g: Graph, o: Opts, st: Walk, pid: NodeId, wireIn: NodeId, wout: NodeId): (r: Walk)
    requires |st.tokens| > 0
    ensures |r.tokens| == |st.tokens| + 1 && |r.lens| == |st.lens| + 2
    ensures r.tokens[..|st.tokens| - 1] == st.tokens[..|st.tokens| - 1] && st.lens <= r.lens
  {
    var lk := GetLink(g, pid, wireIn, wout);
    var n := |st.tokens| - 1;
    Walk(st.tokens[..n] + [Crossed(st.tokens[n], lk), Node(wout)], st.lens + [LinkLen(o, lk), Len(g, wout)], st.visited + {wout})
  }

  /** The scaled length of the link crossed, 0 without one. */
  function LinkLen(o: Opts, lk: Option<Link>): real {
    if lk.Some? then lk.value.len * o.scale else 0.0
  }

  /** The stacks when the search starts at wire `w0` of the box. */
  function Start(g: Graph, w0: NodeId): Walk {
    Walk([Node(g.box), Node(w0)], [Len(g, w0)], {g.box, w0})
  }

  /** The routes of every start wire, in order. */
  function FromBox(g: Graph, o: Opts, starts: seq<NodeId>): seq<Route>
    decreases |starts|
  {
    if starts == [] then []
    else
      var w0 := starts[|starts| - 1];
      FromBox(g, o, starts[..|starts| - 1]) + WireRoutes(g, o, Start(g, w0), w0, None, 1)
  }

  // ---------------------------------------------------------------------
  // The shape of every route
  // ---------------------------------------------------------------------

  /** A route that carries on from the given stacks: their tokens and
      lengths come first, it has two tokens more than lengths (the box, and
      the part it ends at), and its total is the sum of its lengths. */
  ghost predicate Extends(r: Route, tokens: seq<Token>, lens: seq<real>) {
    && tokens <= r.tokens && lens <= r.lens
    && |r.tokens| == |r.lens| + 2
    && r.total == Sum(r.lens)
  }

  ghost predicate AllExtend(rs: seq<Route>, tokens: seq<Token>, lens: seq<real>) {
    forall k :: 0 <= k < |rs| ==> Extends(rs[k], tokens, lens)
  }

  lemma AllExtendAppend(a: seq<Route>, b: seq<Route>, tokens: seq<Token>, lens: seq<real>)
    requires AllExtend(a, tokens, lens) && AllExtend(b, tokens, lens)
    ensures AllExtend(a + b, tokens, lens)
  {
    forall k | 0 <= k < |a + b| ensures Extends((a + b)[k], tokens, lens) {
      if k >= |a| {
        assert (a + b)[k] == b[k - |a|];
      }
    }
  }

  lemma AllExtendWeaken(rs: seq<Route>, t: seq<Token>, l: seq<real>, t': seq<Token>, l': seq<real>)
    requires AllExtend(rs, t, l) && t' <= t && l' <= l
    ensures AllExtend(rs, t', l')
  {
  }

  /** Routes from a wire carry on from the stacks there. */
  lemma {:induction false} WireRoutesShape(g: Graph, o: Opts, st: Walk, wid: NodeId, came: Option<NodeId>, depth: nat)
    requires |st.tokens| == |st.lens| + 1
    ensures AllExtend(WireRoutes(g, o, st, wid, came, depth), st.tokens, st.lens)
    decreases Fuel(o, depth), 2, 0
  {
    if depth <= o.maxDepth {
      var ps := Listed(g.adj.wireToParts, wid);
      PartStepsShape(g, o, st, wid, came, depth, ps);
      if o.includeWireWire {
        var ws := Listed(g.adj.wireToWires, wid);
        WireHopsShape(g, o, st, wid, came, depth, ws);
        AllExtendAppend(PartSteps(g, o, st, wid, came, depth, ps), WireHops(g, o, st, wid, came, depth, ws), st.tokens, st.lens);
      } else {
        assert WireRoutes(g, o, st, wid, came, depth) == PartSteps(g, o, st, wid, came, depth, ps) + [];
      }
    }
  }

  lemma {:induction false} PartStepsShape(g: Graph, o: Opts, st: Walk, wid: NodeId, came: Option<NodeId>, depth: nat, ps: seq<NodeId>)
    requires |st.tokens| == |st.lens| + 1 && depth <= o.maxDepth
    ensures AllExtend(PartSteps(g, o, st, wid, came, depth, ps), st.tokens, st.lens)
    decreases Fuel(o, depth), 1, |ps|
  {
    if ps != [] {
      PartStepsShape(g, o, st, wid, came, depth, ps[..|ps| - 1]);
      PartStepShape(g, o, st, wid, came, depth, ps[|ps| - 1]);
      AllExtendAppend(PartSteps(g, o, st, wid, came, depth, ps[..|ps| - 1]), PartStep(g, o, st, wid, came, depth, ps[|ps| - 1]), st.tokens, st.lens);
    }
  }

  lemma {:induction false} PartStepShape(g: Graph, o: Opts, st: Walk, wid: NodeId, came: Option<NodeId>, depth: nat, pid: NodeId)
    requires |st.tokens| == |st.lens| + 1 && depth <= o.maxDepth
    ensures AllExtend(PartStep(g, o, st, wid, came, depth, pid), st.tokens, st.lens)
    decreases Fuel(o, depth), 0, 0
  {
    if came != Some(pid) && pid !in st.visited {
      var st' := Walk(st.tokens + [Node(pid)], st.lens, st.visited + {pid});
      PartRoutesShape(g, o, st', pid, wid, depth + 1);
      assert st'.tokens[..|st'.tokens| - 1] == st.tokens;
    }
  }

  lemma {:induction false} WireHopsShape(g: Graph, o: Opts, st: Walk, wid: NodeId, came: Option<NodeId>, depth: nat, ws: seq<NodeId>)
    requires |st.tokens| == |st.lens| + 1 && depth <= o.maxDepth
    ensures AllExtend(WireHops(g, o, st, wid, came, depth, ws), st.tokens, st.lens)
    decreases Fuel(o, depth), 1, |ws|
  {
    if ws != [] {
      WireHopsShape(g, o, st, wid, came, depth, ws[..|ws| - 1]);
      WireHopShape(g, o, st, came, depth, ws[|ws| - 1]);
      AllExtendAppend(WireHops(g, o, st, wid, came, depth, ws[..|ws| - 1]), WireHop(g, o, st, came, depth, ws[|ws| - 1]), st.tokens, st.lens);
    }
  }

  lemma {:induction false} WireHopShape(g: Graph, o: Opts, st: Walk, came: Option<NodeId>, depth: nat, w2: NodeId)
    requires |st.tokens| == |st.lens| + 1 && depth <= o.maxDepth
    ensures AllExtend(WireHop(g, o, st, came, depth, w2), st.tokens, st.lens)
    decreases Fuel(o, depth), 0, 0
  {
    if w2 !in st.visited {
      var st' := Walk(st.tokens + [Node(w2)], st.lens + [Len(g, w2)], st.visited + {w2});
      WireRoutesShape(g, o, st', w2, came, depth + 1);
      AllExtendWeaken(WireRoutes(g, o, st', w2, came, depth + 1), st'.tokens, st'.lens, st.tokens, st.lens);
    }
  }

  /** Routes from a part carry on from the stacks there, all but the part's
      own token, which a link may change. */
  lemma {:induction false} PartRoutesShape(g: Graph, o: Opts, st: Walk, pid: NodeId, wireIn: NodeId, depth: nat)
    requires |st.tokens| == |st.lens| + 2
    ensures AllExtend(PartRoutes(g, o, st, pid, wireIn, depth), st.tokens[..|st.tokens| - 1], st.lens)
    decreases Fuel(o, depth), 2, 0
  {
    if depth <= o.maxDepth {
      var outs := Without(Listed(g.adj.partToWires, pid), wireIn);
      if outs != [] {
        OutStepsShape(g, o, st, pid, wireIn, depth, outs);
      }
    }
  }

  lemma {:induction false} OutStepsShape(g: Graph, o: Opts, st: Walk, pid: NodeId, wireIn: NodeId, depth: nat, outs: seq<NodeId>)
    requires |st.tokens| == |st.lens| + 2 && depth <= o.maxDepth
    ensures AllExtend(OutSteps(g, o, st, pid, wireIn, depth, outs), st.tokens[..|st.tokens| - 1], st.lens)
    decreases Fuel(o, depth), 1, |outs|
  {
    if outs != [] {
      OutStepsShape(g, o, st, pid, wireIn, depth, outs[..|outs| - 1]);
      OutStepShape(g, o, st, pid, wireIn, depth, outs[|outs| - 1]);
      AllExtendAppend(OutSteps(g, o, st, pid, wireIn, depth, outs[..|outs| - 1]), OutStep(g, o, st, pid, wireIn, depth, outs[|outs| - 1]),
                      st.tokens[..|st.tokens| - 1], st.lens);
    }
  }

  lemma {:induction false} OutStepShape(g: Graph, o: Opts, st: Walk, pid: NodeId, wireIn: NodeId, depth: nat, wout: NodeId)
    requires |st.tokens| == |st.lens| + 2 && depth <= o.maxDepth
    ensures AllExtend(OutStep(g, o, st, pid, wireIn, depth, wout), st.tokens[..|st.tokens| - 1], st.lens)
    decreases Fuel(o, depth), 0, 0
  {
    var n := |st.tokens| - 1;
    if wout !in st.visited {
      var st' := Leave(g, o, st, pid, wireIn, wout);
      WireRoutesShape(g, o, st', wout, Some(pid), depth + 1);
      assert st.tokens[..n] <= st'.tokens;
      AllExtendWeaken(WireRoutes(g, o, st', wout, Some(pid), depth + 1), st'.tokens, st'.lens, st.tokens[..n], st.lens);
    } else {
      assert st.tokens[..n] <= st.tokens;
    }
  }

  /** Every route of the box starts with the box and one of its start wires,
      whose length comes first; it has two tokens more than lengths and
      its total is the sum of its lengths. */
  lemma {:induction false} FromBoxShape(g: Graph, o: Opts, starts: seq<NodeId>)
    ensures forall r :: r in FromBox(g, o, starts) ==>
              && |r.tokens| == |r.lens| + 2 && |r.lens| >= 1 && r.total == Sum(r.lens)
              && r.tokens[0] == Node(g.box)
              && (exists w0 :: w0 in starts && r.tokens[1] == Node(w0) && r.lens[0] == Len(g, w0))
    decreases |starts|
  {
    if starts != [] {
      var init, w0 := starts[..|starts| - 1], starts[|starts| - 1];
      FromBoxShape(g, o, init);
      var rs := WireRoutes(g, o, Start(g, w0), w0, None, 1);
      WireRoutesShape(g, o, Start(g, w0), w0, None, 1);
      forall r | r in FromBox(g, o, starts)
        ensures && |r.tokens| == |r.lens| + 2 && |r.lens| >= 1 && r.total == Sum(r.lens)
                && r.tokens[0] == Node(g.box)
                && (exists w :: w in starts && r.tokens[1] == Node(w) && r.lens[0] == Len(g, w))
      {
        if r in FromBox(g, o, init) {
          var w :| w in init && r.tokens[1] == Node(w) && r.lens[0] == Len(g, w);
          assert w in starts;
        } else {
          assert r in rs;
          var k :| 0 <= k < |rs| && rs[k] == r;
          assert Extends(rs[k], Start(g, w0).tokens, Start(g, w0).lens);
          assert r.tokens[..2] == [Node(g.box), Node(w0)];
          assert r.tokens[1] == Node(w0) && r.lens[0] == Len(g, w0);
        }
      }
    }
  }

  // ---------------------------------------------------------------------
  // Every route is a simple path along the tables, within the depth cap
  // ---------------------------------------------------------------------

  /** No node occurs twice among the tokens. */
  ghost predicate Simple(ts: seq<Token>) {
    forall i, j :: 0 <= i < j < |ts| ==> ts[i].n != ts[j].n
  }

  /** A step the search may take: wire to part, part to wire, or (when
      wire-to-wire jumps are on) wire to wire, as the tables list them. */
  ghost predicate Follows(g: Graph, o: Opts, a: NodeId, b: NodeId) {
    || b in Listed(g.adj.wireToParts, a)
    || b in Listed(g.adj.partToWires, a)
    || (o.includeWireWire && b in Listed(g.adj.wireToWires, a))
  }

  /** From the start wire on, each token follows the one before it. */
  ghost predicate Chained(g: Graph, o: Opts, ts: seq<Token>) {
    forall i :: 1 <= i < |ts| - 1 ==> Follows(g, o, ts[i].n, ts[i + 1].n)
  }

  /** The route ends at a part that the wire before it touches. */
  ghost predicate EndsAtPart(g: Graph, ts: seq<Token>) {
    |ts| >= 3 && ts[|ts| - 1].n in Listed(g.adj.wireToParts, ts[|ts| - 2].n)
  }

  /** Every node on the token stack is marked visited. */
  ghost predicate Marked(st: Walk) {
    forall i :: 0 <= i < |st.tokens| ==> st.tokens[i].n in st.visited
  }

  /** The search state at `depth`, standing on node `cur`: one token more
      than the depth, the last one `cur`, no node twice, every node marked
      visited, and each step along the tables. */
  ghost predicate OnPath(g: Graph, o: Opts, st: Walk, depth: nat, cur: NodeId) {
    && 1 <= depth && |st.tokens| == depth + 1 && st.tokens[depth].n == cur
    && Simple(st.tokens) && Marked(st) && Chained(g, o, st.tokens)
  }

  /** What every reported route satisfies. */
  ghost predicate RouteOk(g: Graph, o: Opts, r: Route) {
    Simple(r.tokens) && Chained(g, o, r.tokens) && EndsAtPart(g, r.tokens) && |r.tokens| <= o.maxDepth + 1
  }

  ghost predicate AllOk(g: Graph, o: Opts, rs: seq<Route>) {
    forall k :: 0 <= k < |rs| ==> RouteOk(g, o, rs[k])
  }

  lemma AllOkAppend(g: Graph, o: Opts, a: seq<Route>, b: seq<Route>)
    requires AllOk(g, o, a) && AllOk(g, o, b)
    ensures AllOk(g, o, a + b)
  {
    forall k | 0 <= k < |a + b| ensures RouteOk(g, o, (a + b)[k]) {
      if k >= |a| {
        assert (a + b)[k] == b[k - |a|];
      }
    }
  }

  /** Pushing a node that is not visited and follows the current one keeps
      the search on a simple path. */
  lemma Push(g: Graph, o: Opts, st: Walk, depth: nat, cur: NodeId, x: NodeId, lens: seq<real>)
    requires OnPath(g, o, st, depth, cur) && x !in st.visited && Follows(g, o, cur, x)
    ensures OnPath(g, o, Walk(st.tokens + [Node(x)], lens, st.visited + {x}), depth + 1, x)
  {
    var ts := st.tokens + [Node(x)];
    forall i, j | 0 <= i < j < |ts| ensures ts[i].n != ts[j].n {
      if j == |st.tokens| {
        assert ts[i].n == st.tokens[i].n && st.tokens[i].n in st.visited;
      } else {
        assert ts[i] == st.tokens[i] && ts[j] == st.tokens[j];
      }
    }
    forall i | 1 <= i < |ts| - 1 ensures Follows(g, o, ts[i].n, ts[i + 1].n) {
      if i < depth {
        assert ts[i] == st.tokens[i] && ts[i + 1] == st.tokens[i + 1];
      }
    }
  }

  /** Routes from a wire on a simple path are simple, follow the tables,
      end at a part and respect the depth cap. */
  lemma {:induction false} WireRoutesOk(g: Graph, o: Opts, st: Walk, wid: NodeId, came: Option<NodeId>, depth: nat)
    requires OnPath(g, o, st, depth, wid)
    ensures AllOk(g, o, WireRoutes(g, o, st, wid, came, depth))
    decreases Fuel(o, depth), 2, 0
  {
    if depth <= o.maxDepth {
      var ps := Listed(g.adj.wireToParts, wid);
      PartStepsOk(g, o, st, wid, came, depth, ps);
      if o.includeWireWire {
        var ws := Listed(g.adj.wireToWires, wid);
        WireHopsOk(g, o, st, wid, came, depth, ws);
        AllOkAppend(g, o, PartSteps(g, o, st, wid, came, depth, ps), WireHops(g, o, st, wid, came, depth, ws));
      } else {
        assert WireRoutes(g, o, st, wid, came, depth) == PartSteps(g, o, st, wid, came, depth, ps) + [];
      }
    }
  }

  lemma {:induction false} PartStepsOk(g: Graph, o: Opts, st: Walk, wid: NodeId, came: Option<NodeId>, depth: nat, ps: seq<NodeId>)
    requires OnPath(g, o, st, depth, wid) && depth <= o.maxDepth
    requires forall p :: p in ps ==> p in Listed(g.adj.wireToParts, wid)
    ensures AllOk(g, o, PartSteps(g, o, st, wid, came, depth, ps))
    decreases Fuel(o, depth), 1, |ps|
  {
    if ps != [] {
      PartStepsOk(g, o, st, wid, came, depth, ps[..|ps| - 1]);
      PartStepOk(g, o, st, wid, came, depth, ps[|ps| - 1]);
      AllOkAppend(g, o, PartSteps(g, o, st, wid, came, depth, ps[..|ps| - 1]), PartStep(g, o, st, wid, came, depth, ps[|ps| - 1]));
    }
  }

  lemma {:induction false} PartStepOk(g: Graph, o: Opts, st: Walk, wid: NodeId, came: Option<NodeId>, depth: nat, pid: NodeId)
    requires OnPath(g, o, st, depth, wid) && depth <= o.maxDepth && pid in Listed(g.adj.wireToParts, wid)
    ensures AllOk(g, o, PartStep(g, o, st, wid, came, depth, pid))
    decreases Fuel(o, depth), 0, 0
  {
    if came != Some(pid) && pid !in st.visited {
      var st' := Walk(st.tokens + [Node(pid)], st.lens, st.visited + {pid});
      Push(g, o, st, depth, wid, pid, st.lens);
      assert st'.tokens[depth] == st.tokens[depth];
      PartRoutesOk(g, o, st', pid, wid, depth + 1);
    }
  }

  lemma {:induction false} WireHopsOk(g: Graph, o: Opts, st: Walk, wid: NodeId, came: Option<NodeId>, depth: nat, ws: seq<NodeId>)
    requires OnPath(g, o, st, depth, wid) && depth <= o.maxDepth && o.includeWireWire
    requires forall w :: w in ws ==> w in Listed(g.adj.wireToWires, wid)
    ensures AllOk(g, o, WireHops(g, o, st, wid, came, depth, ws))
    decreases Fuel(o, depth), 1, |ws|
  {
    if ws != [] {
      WireHopsOk(g, o, st, wid, came, depth, ws[..|ws| - 1]);
      WireHopOk(g, o, st, wid, came, depth, ws[|ws| - 1]);
      AllOkAppend(g, o, WireHops(g, o, st, wid, came, depth, ws[..|ws| - 1]), WireHop(g, o, st, came, depth, ws[|ws| - 1]));
    }
  }

  lemma {:induction false} WireHopOk(g: Graph, o: Opts, st: Walk, wid: NodeId, came: Option<NodeId>, depth: nat, w2: NodeId)
    requires OnPath(g, o, st, depth, wid) && depth <= o.maxDepth && o.includeWireWire && w2 in Listed(g.adj.wireToWires, wid)
    ensures AllOk(g, o, WireHop(g, o, st, came, depth, w2))
    decreases Fuel(o, depth), 0, 0
  {
    if w2 !in st.visited {
      Push(g, o, st, depth, wid, w2, st.lens + [Len(g, w2)]);
      WireRoutesOk(g, o, Walk(st.tokens + [Node(w2)], st.lens + [Len(g, w2)], st.visited + {w2}), w2, came, depth + 1);
    }
  }

  /** A part entered from the wire before it: its reports end there, and
      every way out carries on along a simple path. */
  lemma {:induction false} PartRoutesOk(g: Graph, o: Opts, st: Walk, pid: NodeId, wireIn: NodeId, depth: nat)
    requires OnPath(g, o, st, depth, pid) && depth >= 2 && EndsAtPart(g, st.tokens)
    ensures AllOk(g, o, PartRoutes(g, o, st, pid, wireIn, depth))
    decreases Fuel(o, depth), 2, 0
  {
    if depth <= o.maxDepth {
      var outs := Without(Listed(g.adj.partToWires, pid), wireIn);
      if outs != [] {
        WithoutSpec(Listed(g.adj.partToWires, pid), wireIn);
        OutStepsOk(g, o, st, pid, wireIn, depth, outs);
      }
    }
  }

  lemma {:induction false} OutStepsOk(g: Graph, o: Opts, st: Walk, pid: NodeId, wireIn: NodeId, depth: nat, outs: seq<NodeId>)
    requires OnPath(g, o, st, depth, pid) && depth <= o.maxDepth && EndsAtPart(g, st.tokens)
    requires forall w :: w in outs ==> w in Listed(g.adj.partToWires, pid)
    ensures AllOk(g, o, OutSteps(g, o, st, pid, wireIn, depth, outs))
    decreases Fuel(o, depth), 1, |outs|
  {
    if outs != [] {
      OutStepsOk(g, o, st, pid, wireIn, depth, outs[..|outs| - 1]);
      OutStepOk(g, o, st, pid, wireIn, depth, outs[|outs| - 1]);
      AllOkAppend(g, o, OutSteps(g, o, st, pid, wireIn, depth, outs[..|outs| - 1]), OutStep(g, o, st, pid, wireIn, depth, outs[|outs| - 1]));
    }
  }

  /** Leaving a part keeps every node below the new wire, the part's token
      changing at most by its link. */
  lemma LeaveNodes(g: Graph, o: Opts, st: Walk, pid: NodeId, wireIn: NodeId, wout: NodeId)
    requires |st.tokens| > 0
    ensures forall i :: 0 <= i < |st.tokens| ==> Leave(g, o, st, pid, wireIn, wout).tokens[i].n == st.tokens[i].n
    ensures Leave(g, o, st, pid, wireIn, wout).tokens[|st.tokens|] == Node(wout)
    ensures Leave(g, o, st, pid, wireIn, wout).visited == st.visited + {wout}
  {
  }

  lemma {:induction false} OutStepOk(g: Graph, o: Opts, st: Walk, pid: NodeId, wireIn: NodeId, depth: nat, wout: NodeId)
    requires OnPath(g, o, st, depth, pid) && depth <= o.maxDepth && EndsAtPart(g, st.tokens)
    requires wout in Listed(g.adj.partToWires, pid)
    ensures AllOk(g, o, OutStep(g, o, st, pid, wireIn, depth, wout))
    decreases Fuel(o, depth), 0, 0
  {
    if wout !in st.visited {
      var st' := Leave(g, o, st, pid, wireIn, wout);
      var ts := st'.tokens;
      LeaveNodes(g, o, st, pid, wireIn, wout);
      forall i, j | 0 <= i < j < |ts| ensures ts[i].n != ts[j].n {
        assert ts[i].n == st.tokens[i].n && st.tokens[i].n in st.visited;
      }
      forall i | 1 <= i < |ts| - 1 ensures Follows(g, o, ts[i].n, ts[i + 1].n) {
        assert ts[i].n == st.tokens[i].n;
      }
      assert OnPath(g, o, st', depth + 1, wout);
      WireRoutesOk(g, o, st', wout, Some(pid), depth + 1);
    }
  }

  /** Every route of the box is a simple path (no node twice) that starts
      at the box and one of its start wires, steps along `wireToParts`,
      `partToWires` and (when enabled) `wireToWires`, ends at a part the
      wire before it touches, and has at most `maxDepth + 1` tokens. */
  lemma {:induction false} FromBoxRoutes(g: Graph, o: Opts, starts: seq<NodeId>)
    requires g.box !in starts
    ensures forall r :: r in FromBox(g, o, starts) ==>
              && EndsAtPart(g, r.tokens) && |r.tokens| <= o.maxDepth + 1
              && r.tokens[0] == Node(g.box) && r.tokens[1].n in starts
              && Simple(r.tokens) && Chained(g, o, r.tokens)
    decreases |starts|
  {
    FromBoxShape(g, o, starts);
    FromBoxOk(g, o, starts);
    forall r | r in FromBox(g, o, starts) ensures r.tokens[1].n in starts {
      var w0 :| w0 in starts && r.tokens[1] == Node(w0) && r.lens[0] == Len(g, w0);
    }
    forall r | r in FromBox(g, o, starts) ensures RouteOk(g, o, r) {
      var k :| 0 <= k < |FromBox(g, o, starts)| && FromBox(g, o, starts)[k] == r;
    }
  }

  lemma {:induction false} FromBoxOk(g: Graph, o: Opts, starts: seq<NodeId>)
    requires g.box !in starts
    ensures AllOk(g, o, FromBox(g, o, starts))
    decreases |starts|
  {
    if starts != [] {
      var init, w0 := starts[..|starts| - 1], starts[|starts| - 1];
      assert g.box !in init;
      FromBoxOk(g, o, init);
      assert OnPath(g, o, Start(g, w0), 1, w0);
      WireRoutesOk(g, o, Start(g, w0), w0, None, 1);
      AllOkAppend(g, o, FromBox(g, o, init), WireRoutes(g, o, Start(g, w0), w0, None, 1));
    }
  }

  // ---------------------------------------------------------------------
  // The search, with shared stacks
  // ---------------------------------------------------------------------

  /** The closures of `printRoutesFromBox`: the token, length and visited
      stacks they share, and the routes reported so far. */
  class RouteWalker {
    var tokens: seq<Token>
    var lens: seq<real>
    var visited: set<NodeId>
    var out: seq<Route>

    constructor ()
      ensures tokens == [] && lens == [] && visited == {} && out == []
    {
      tokens, lens, visited, out := [], [], {}, [];
    }

    function State(): Walk
      reads this
    {
      Walk(tokens, lens, visited)
    }

    /** `dfsWire`: every push is popped again, and the routes found are
        those of `WireRoutes`. */
    method DfsWire(g: Graph, o: Opts, wid: NodeId, came: Option<NodeId>, depth: nat)
      requires |tokens| > 0
      modifies this
      ensures State() == old(State())
      ensures out == old(out) + WireRoutes(g, o, old(State()), wid, came, depth)
      decreases Fuel(o, depth), 2
    {
      if depth > o.maxDepth {
        return;
      }
      EnterParts(g, o, wid, came, depth, Listed(g.adj.wireToParts, wid));
      if o.includeWireWire {
        EnterWires(g, o, wid, came, depth, Listed(g.adj.wireToWires, wid));
      }
    }

    /** The loop of `dfsWire` over the parts the wire touches. */
    method EnterParts(g: Graph, o: Opts, wid: NodeId, came: Option<NodeId>, depth: nat, ps: seq<NodeId>)
      requires |tokens| > 0 && depth <= o.maxDepth
      modifies this
      ensures State() == old(State())
      ensures out == old(out) + PartSteps(g, o, old(State()), wid, came, depth, ps)
      decreases Fuel(o, depth), 1
    {
      ghost var st := State();
      ghost var out0 := out;
      for i := 0 to |ps|
        invariant State() == st
        invariant out == out0 + PartSteps(g, o, st, wid, came, depth, ps[..i])
      {
        PartStepsSnoc(g, o, st, wid, came, depth, ps, i);
        EnterPart(g, o, wid, came, depth, ps[i]);
      }
      assert ps[..|ps|] == ps;
    }

    /** The loop of `dfsWire` over the wires the wire touches. */
    method EnterWires(g: Graph, o: Opts, wid: NodeId, came: Option<NodeId>, depth: nat, ws: seq<NodeId>)
      requires |tokens| > 0 && depth <= o.maxDepth
      modifies this
      ensures State() == old(State())
      ensures out == old(out) + WireHops(g, o, old(State()), wid, came, depth, ws)
      decreases Fuel(o, depth), 1
    {
      ghost var st := State();
      ghost var out0 := out;
      for i := 0 to |ws|
        invariant State() == st
        invariant out == out0 + WireHops(g, o, st, wid, came, depth, ws[..i])
      {
        WireHopsSnoc(g, o, st, wid, came, depth, ws, i);
        EnterWire(g, o, came, depth, ws[i]);
      }
      assert ws[..|ws|] == ws;
    }

    /** One part of the wire: pushed, searched from and popped again. */
    method EnterPart(g: Graph, o: Opts, wid: NodeId, came: Option<NodeId>, depth: nat, pid: NodeId)
      requires |tokens| > 0 && depth <= o.maxDepth
      modifies this
      ensures State() == old(State())
      ensures out == old(out) + PartStep(g, o, old(State()), wid, came, depth, pid)
      decreases Fuel(o, depth), 0
    {
      if came == Some(pid) || pid in visited {
        return;
      }
      ghost var st := State();
      visited := visited + {pid};
      tokens := tokens + [Node(pid)];
      DfsPart(g, o, pid, wid, depth + 1);
      tokens := tokens[..|tokens| - 1];
      visited := visited - {pid};
      assert visited == st.visited;
    }

    /** One wire the wire touches: pushed, searched from and popped again. */
    method EnterWire(g: Graph, o: Opts, came: Option<NodeId>, depth: nat, w2: NodeId)
      requires |tokens| > 0 && depth <= o.maxDepth
      modifies this
      ensures State() == old(State())
      ensures out == old(out) + WireHop(g, o, old(State()), came, depth, w2)
      decreases Fuel(o, depth), 0
    {
      if w2 in visited {
        return;
      }
      ghost var st := State();
      visited := visited + {w2};
      tokens := tokens + [Node(w2)];
      lens := lens + [Len(g, w2)];
      DfsWire(g, o, w2, came, depth + 1);
      lens := lens[..|lens| - 1];
      tokens := tokens[..|tokens| - 1];
      visited := visited - {w2};
      assert visited == st.visited;
    }

    /** `dfsPart`: a part with no way on reports the route; otherwise each
        way out is tried with the part crossed by its link. */
    method DfsPart(g: Graph, o: Opts, pid: NodeId, wireIn: NodeId, depth: nat)
      requires |tokens| > 0
      modifies this
      ensures State() == old(State())
      ensures out == old(out) + PartRoutes(g, o, old(State()), pid, wireIn, depth)
      decreases Fuel(o, depth), 2
    {
      if depth > o.maxDepth {
        return;
      }
      var outs := Without(Listed(g.adj.partToWires, pid), wireIn);
      if outs == [] {
        out := out + [Route(tokens, lens, Sum(lens))];
        return;
      }
      LeaveAll(g, o, pid, wireIn, depth, outs);
    }

    /** The loop of `dfsPart` over the ways out of the part. */
    method LeaveAll(g: Graph, o: Opts, pid: NodeId, wireIn: NodeId, depth: nat, outs: seq<NodeId>)
      requires |tokens| > 0 && depth <= o.maxDepth
      modifies this
      ensures State() == old(State())
      ensures out == old(out) + OutSteps(g, o, old(State()), pid, wireIn, depth, outs)
      decreases Fuel(o, depth), 1
    {
      ghost var st := State();
      ghost var out0 := out;
      for i := 0 to |outs|
        invariant State() == st
        invariant out == out0 + OutSteps(g, o, st, pid, wireIn, depth, outs[..i])
      {
        OutStepsSnoc(g, o, st, pid, wireIn, depth, outs, i);
        LeavePart(g, o, pid, wireIn, depth, outs[i]);
      }
      assert outs[..|outs|] == outs;
    }

    /** One way out of the part: the part's token is crossed by the link,
        the link and the wire are pushed, searched from and popped again. */
    method LeavePart(g: Graph, o: Opts, pid: NodeId, wireIn: NodeId, depth: nat, wout: NodeId)
      requires |tokens| > 0 && depth <= o.maxDepth
      modifies this
      ensures State() == old(State())
      ensures out == old(out) + OutStep(g, o, old(State()), pid, wireIn, depth, wout)
      decreases Fuel(o, depth), 0
    {
      ghost var st := State();
      var lk := GetLink(g, pid, wireIn, wout);
      var lkLen := LinkLen(o, lk);
      var n := |tokens| - 1;
      var last := tokens[n];
      tokens := tokens[n := Crossed(last, lk)];
      assert tokens == st.tokens[..n] + [Crossed(last, lk)];
      if wout in visited {
        tokens := tokens[n := last];
        assert tokens == st.tokens;
        out := out + [Route(tokens, lens, Sum(lens))];
        return;
      }
      visited := visited + {wout};
      tokens := tokens + [Node(wout)];
      lens := lens + [lkLen];
      lens := lens + [Len(g, wout)];
      assert tokens == st.tokens[..n] + [Crossed(last, lk), Node(wout)];
      assert lens == st.lens + [lkLen, Len(g, wout)];
      ghost var st' := Leave(g, o, st, pid, wireIn, wout);
      assert tokens == st'.tokens;
      assert lens == st'.lens;
      assert visited == st'.visited;
      assert State() == st';
      DfsWire(g, o, wout, Some(pid), depth + 1);
      Unwind(g, o, st, pid, wireIn, wout, n, last);
    }

    /** The pops after a way out of the part: both lengths, the wire's
        token and visit, and the link's crossing of the part's token. */
    method Unwind(g: Graph, o: Opts, ghost st: Walk, pid: NodeId, wireIn: NodeId, wout: NodeId, n: nat, last: Token)
      requires |st.tokens| > 0 && n == |st.tokens| - 1 && last == st.tokens[n] && wout !in st.visited
      requires State() == Leave(g, o, st, pid, wireIn, wout)
      modifies this
      ensures State() == st && out == old(out)
    {
      lens := lens[..|lens| - 1];
      lens := lens[..|lens| - 1];
      assert lens == st.lens;
      tokens := tokens[..|tokens| - 1];
      visited := visited - {wout};
      tokens := tokens[n := last];
      assert tokens == st.tokens;
    }

    /** The loop over the start wires of the box. */
    method Run(g: Graph, o: Opts)
      modifies this
      ensures out == old(out) + FromBox(g, o, g.adj.boxToWires)
    {
      var starts := g.adj.boxToWires;
      ghost var out0 := out;
      for i := 0 to |starts|
        invariant out == out0 + FromBox(g, o, starts[..i])
      {
        FromBoxSnoc(g, o, starts, i);
        var w0 := starts[i];
        tokens := [Node(g.box), Node(w0)];
        lens := [Len(g, w0)];
        visited := {g.box, w0};
        assert State() == Start(g, w0);
        DfsWire(g, o, w0, None, 1);
      }
      assert starts[..|starts|] == starts;
    }
  }

  lemma PartStepsSnoc(g: Graph, o: Opts, st: Walk, wid: NodeId, came: Option<NodeId>, depth: nat, ps: seq<NodeId>, i: nat)
    requires |st.tokens| > 0 && depth <= o.maxDepth && i < |ps|
    ensures PartSteps(g, o, st, wid, came, depth, ps[..i + 1])
            == PartSteps(g, o, st, wid, came, depth, ps[..i]) + PartStep(g, o, st, wid, came, depth, ps[i])
  {
    assert ps[..i + 1][..i] == ps[..i];
  }

  lemma WireHopsSnoc(g: Graph, o: Opts, st: Walk, wid: NodeId, came: Option<NodeId>, depth: nat, ws: seq<NodeId>, i: nat)
    requires |st.tokens| > 0 && depth <= o.maxDepth && i < |ws|
    ensures WireHops(g, o, st, wid, came, depth, ws[..i + 1])
            == WireHops(g, o, st, wid, came, depth, ws[..i]) + WireHop(g, o, st, came, depth, ws[i])
  {
    assert ws[..i + 1][..i] == ws[..i];
  }

  lemma OutStepsSnoc(g: Graph, o: Opts, st: Walk, pid: NodeId, wireIn: NodeId, depth: nat, outs: seq<NodeId>, i: nat)
    requires |st.tokens| > 0 && depth <= o.maxDepth && i < |outs|
    ensures OutSteps(g, o, st, pid, wireIn, depth, outs[..i + 1])
            == OutSteps(g, o, st, pid, wireIn, depth, outs[..i]) + OutStep(g, o, st, pid, wireIn, depth, outs[i])
  {
    assert outs[..i + 1][..i] == outs[..i];
  }

  lemma FromBoxSnoc(g: Graph, o: Opts, starts: seq<NodeId>, i: nat)
    requires i < |starts|
    ensures FromBox(g, o, starts[..i + 1]) == FromBox(g, o, starts[..i]) + WireRoutes(g, o, Start(g, starts[i]), starts[i], None, 1)
  {
    assert starts[..i + 1][..i] == starts[..i];
  }

  /** The routes `printRoutesFromBox` reports for a graph. */
  method RoutesOf(g: Graph, o: Opts) returns (routes: seq<Route>)
    ensures routes == FromBox(g, o, g.adj.boxToWires)
    ensures g.box !in g.adj.boxToWires ==> forall r :: r in routes ==>
              && EndsAtPart(g, r.tokens) && |r.tokens| <= o.maxDepth + 1
              && r.tokens[0] == Node(g.box) && r.tokens[1].n in g.adj.boxToWires
              && Simple(r.tokens) && Chained(g, o, r.tokens)
  {
    var walker := new RouteWalker();
    walker.Run(g, o);
    routes := walker.out;
    if g.box !in g.adj.boxToWires {
      FromBoxRoutes(g, o, g.adj.boxToWires);
    }
  }

  // ---------------------------------------------------------------------
  // The graph of a component
  // ---------------------------------------------------------------------

  /** The scaled length of a wire, 0 for any other node. */
  function LenRow(d: Drawing, hypot: Hypot, scale: real): NodeId -> real {
    (x: NodeId) => if x.WireId? && x.i < |d.wire| then PolylineLength(d.wire[x.i], hypot) * scale else 0.0
  }

  function Lengths(keys: seq<NodeId>, row: NodeId -> real): map<NodeId, real> {
    map x | x in keys :: row(x)
  }

  lemma LengthsSnoc(keys: seq<NodeId>, x: NodeId, row: NodeId -> real)
    ensures Lengths(keys + [x], row) == Lengths(keys, row)[x := row(x)]
  {
  }

  /** `wireLen`: every wire of the component with its scaled length, and
      nothing else. */
  function WireLengths(d: Drawing, c: Comp, hypot: Hypot, scale: real): (m: map<NodeId, real>)
    requires forall k :: 0 <= k < |c.wires| ==> c.wires[k] < |d.wire|
    ensures forall x: NodeId :: x in m <==> x.WireId? && x.i in c.wires
    ensures forall k :: 0 <= k < |c.wires| ==> m[WireId(c.wires[k])] == PolylineLength(d.wire[c.wires[k]], hypot) * scale
  {
    var keys := WireNodes(c);
    assert forall x: NodeId :: x in keys <==> x.WireId? && x.i in c.wires by {
      forall x: NodeId | x.WireId? && x.i in c.wires ensures x in keys {
        var k :| 0 <= k < |c.wires| && c.wires[k] == x.i;
        assert keys[k] == x;
      }
    }
    Lengths(keys, LenRow(d, hypot, scale))
  }

  /** The first link of each part that has one. */
  function FirstLinks(links: map<NodeId, seq<Link>>, parts: seq<NodeId>): map<NodeId, Link> {
    map p | p in parts && LinkList(links, p) != [] :: LinkList(links, p)[0]
  }

  function GraphOf(d: Drawing, eps: Tol, hypot: Hypot, scale: real, c: Comp, links: map<NodeId, seq<Link>>): Graph
    requires Indexable(d, c)
  {
    Graph(BoxId(c.box), AdjacencyOf(d, eps, c), WireLengths(d, c, hypot, scale), FirstLinks(links, c.parts))
  }

  /** The loop that fills `wireLen`. */
  method MeasureWires(d: Drawing, c: Comp, hypot: Hypot, scale: real) returns (m: map<NodeId, real>)
    requires forall k :: 0 <= k < |c.wires| ==> c.wires[k] < |d.wire|
    ensures m == WireLengths(d, c, hypot, scale)
  {
    ghost var row := LenRow(d, hypot, scale);
    m := map[];
    var keys := WireNodes(c);
    for k := 0 to |c.wires|
      invariant m == Lengths(keys[..k], row)
    {
      var w := c.wires[k];
      var len := MeasurePolyline(d.wire[w], hypot);
      assert row(WireId(w)) == len * scale;
      assert keys[..k + 1] == keys[..k] + [WireId(w)];
      LengthsSnoc(keys[..k], WireId(w), row);
      m := m[WireId(w) := len * scale];
    }
    assert keys[..|c.wires|] == keys;
  }

  /** A token path of the drawing: no node twice, and each node in contact
      with the next. */
  ghost predicate ContactPath(d: Drawing, eps: Tol, ts: seq<Token>) {
    Simple(ts) && forall i :: 0 <= i < |ts| - 1 ==> Adj(d, eps, ts[i].n, ts[i + 1].n)
  }

  /** A wire of the component is a wire of the drawing. */
  lemma CompWire(d: Drawing, c: Comp, w: nat)
    requires Indexable(d, c) && w in c.wires
    ensures w < |d.wire|
  {
    var k :| 0 <= k < |c.wires| && c.wires[k] == w;
  }

  /** A key of the wire tables is a wire of the component with a box. */
  lemma KeyWire(d: Drawing, c: Comp, a: NodeId) returns (w: nat)
    requires Indexable(d, c) && a in WireNodes(c)
    ensures a == WireId(w) && w in c.wires && w < |d.wire| && BBox(d.wire[w]).Some?
  {
    var k :| 0 <= k < |c.wires| && WireNodes(c)[k] == a;
    w := c.wires[k];
  }

  /** A part of the component is a valid part node. */
  lemma CompPart(d: Drawing, c: Comp, p: NodeId)
    requires Indexable(d, c) && p in c.parts
    ensures p.PartId? && ValidNode(d, p) && BBox(Pts(d, p)).Some?
  {
    var j :| 0 <= j < |c.parts| && c.parts[j] == p;
  }

  /** A wire touching a part's rectangle is in contact with it, both ways. */
  lemma AdjWirePart(d: Drawing, eps: Tol, w: nat, p: NodeId)
    requires w < |d.wire| && p.PartId? && ValidNode(d, p) && PolylineIntersectsRect(d.wire[w], Pts(d, p), eps)
    ensures Adj(d, eps, WireId(w), p) && Adj(d, eps, p, WireId(w))
  {
  }

  /** Two different wires that touch are in contact. */
  lemma AdjWireWire(d: Drawing, eps: Tol, w: nat, v: nat)
    requires w < |d.wire| && v < |d.wire| && w != v && PolylineIntersectsPolyline(d.wire[w], d.wire[v], eps)
    ensures Adj(d, eps, WireId(w), WireId(v))
  {
  }

  /** The row of a wire key in `wireToParts`. */
  lemma WirePartRowAt(d: Drawing, eps: Tol, c: Comp, a: NodeId) returns (w: nat)
    requires Indexable(d, c) && a in WireNodes(c)
    ensures a == WireId(w) && w in c.wires && w < |d.wire| && BBox(d.wire[w]).Some?
    ensures Table(WireNodes(c), WirePartRow(d, eps, c))[a] == PartsOn(d, eps, c, w)
  {
    w := KeyWire(d, c, a);
  }

  /** The row of a wire key in `wireToWires`. */
  lemma WireWireRowAt(d: Drawing, eps: Tol, c: Comp, a: NodeId) returns (w: nat)
    requires Indexable(d, c) && a in WireNodes(c)
    ensures a == WireId(w) && w in c.wires && w < |d.wire| && BBox(d.wire[w]).Some?
    ensures Table(WireNodes(c), WireWireRow(d, eps, c))[a] == WiresMet(d, eps, c, w)
  {
    w := KeyWire(d, c, a);
  }

  /** A part listed for a wire in `wireToParts` touches it. */
  lemma WirePartContact(d: Drawing, eps: Tol, c: Comp, a: NodeId, b: NodeId)
    requires Indexable(d, c) && b in Listed(Table(WireNodes(c), WirePartRow(d, eps, c)), a)
    ensures Adj(d, eps, a, b)
    ensures b.PartId?
  {
    var w := WirePartRowAt(d, eps, c, a);
    assert b in c.parts && PolylineIntersectsRect(d.wire[w], Pts(d, b), eps) by {
      PartsOnSpec(d, eps, c, w);
    }
    CompPart(d, c, b);
    AdjWirePart(d, eps, w, b);
  }

  /** A wire listed for a part in `partToWires` touches it. */
  lemma PartWireContact(d: Drawing, eps: Tol, c: Comp, a: NodeId, b: NodeId)
    requires Indexable(d, c) && b in Listed(Table(c.parts, PartRow(d, eps, c)), a)
    ensures Adj(d, eps, a, b)
  {
    assert a in c.parts;
    CompPart(d, c, a);
    assert b in WiresOn(d, eps, c, Pts(d, a)) by {
      assert PartRow(d, eps, c)(a) == WiresOn(d, eps, c, Pts(d, a));
    }
    assert b.WireId? && b.i in c.wires && PolylineIntersectsRect(d.wire[b.i], Pts(d, a), eps) by {
      WiresOnSpec(d, eps, c, Pts(d, a));
    }
    CompWire(d, c, b.i);
    AdjWirePart(d, eps, b.i, a);
  }

  /** A wire listed for a wire in `wireToWires` is another wire touching it. */
  lemma WireWireContact(d: Drawing, eps: Tol, c: Comp, a: NodeId, b: NodeId)
    requires Indexable(d, c) && b in Listed(Table(WireNodes(c), WireWireRow(d, eps, c)), a)
    ensures Adj(d, eps, a, b)
  {
    var w := WireWireRowAt(d, eps, c, a);
    assert b.WireId? && b.i != w && b.i in c.wires && PolylineIntersectsPolyline(d.wire[w], d.wire[b.i], eps) by {
      WiresMetSpec(d, eps, c, w);
    }
    CompWire(d, c, b.i);
    AdjWireWire(d, eps, w, b.i);
  }

  /** A step along the component's tables is a contact in the drawing:
      `wireToParts` and `partToWires` list touching wire/part pairs, and
      `wireToWires` touching pairs of different wires. */
  lemma TablesFollowContact(d: Drawing, eps: Tol, c: Comp, g: Graph, o: Opts, a: NodeId, b: NodeId)
    requires Indexable(d, c) && g.adj == AdjacencyOf(d, eps, c) && Follows(g, o, a, b)
    ensures Adj(d, eps, a, b)
  {
    var adj := g.adj;
    assert adj.wireToParts == Table(WireNodes(c), WirePartRow(d, eps, c));
    assert adj.partToWires == Table(c.parts, PartRow(d, eps, c));
    assert adj.wireToWires == Table(WireNodes(c), WireWireRow(d, eps, c));
    if b in Listed(adj.wireToParts, a) {
      WirePartContact(d, eps, c, a, b);
    } else if b in Listed(adj.partToWires, a) {
      PartWireContact(d, eps, c, a, b);
    } else {
      WireWireContact(d, eps, c, a, b);
    }
  }

  /** What the component's tables promise about its contacts: the box's
      start wires touch it, every step along the tables is a contact, and
      `wireToParts` lists parts only. */
  ghost predicate TablesContact(d: Drawing, eps: Tol, g: Graph, o: Opts) {
    && g.box.BoxId? && ValidNode(d, g.box)
    && (forall x :: x in g.adj.boxToWires ==> Adj(d, eps, g.box, x))
    && (forall a, b :: Follows(g, o, a, b) ==> Adj(d, eps, a, b))
    && (forall a, b :: b in Listed(g.adj.wireToParts, a) ==> b.PartId?)
  }

  /** The tables `buildAdjacencyForComp` builds keep that promise. */
  lemma AdjacencyContact(d: Drawing, eps: Tol, c: Comp, g: Graph, o: Opts)
    requires Indexable(d, c) && g.box == BoxId(c.box) && g.adj == AdjacencyOf(d, eps, c)
    ensures TablesContact(d, eps, g, o)
  {
    var rect := d.box[c.box];
    forall x | x in g.adj.boxToWires ensures Adj(d, eps, g.box, x) {
      assert x.WireId? && x.i in c.wires && PolylineIntersectsRect(d.wire[x.i], rect, eps) by {
        WiresOnSpec(d, eps, c, rect);
      }
      CompWire(d, c, x.i);
    }
    forall a, b | Follows(g, o, a, b) ensures Adj(d, eps, a, b) {
      TablesFollowContact(d, eps, c, g, o, a, b);
    }
    forall a, b | b in Listed(g.adj.wireToParts, a) ensures b.PartId? {
      assert g.adj.wireToParts == Table(WireNodes(c), WirePartRow(d, eps, c));
      WirePartContact(d, eps, c, a, b);
    }
  }

  /** A token path that starts at the box and one of its start wires,
      then follows the tables and ends at a part a wire lists, is a path of
      contacts ending at a part, under tables that keep that promise. */
  lemma ChainedContact(d: Drawing, eps: Tol, g: Graph, o: Opts, ts: seq<Token>)
    requires TablesContact(d, eps, g, o)
    requires EndsAtPart(g, ts) && ts[0] == Node(g.box) && ts[1].n in g.adj.boxToWires && Chained(g, o, ts)
    ensures forall i :: 0 <= i < |ts| - 1 ==> Adj(d, eps, ts[i].n, ts[i + 1].n)
    ensures ts[|ts| - 1].n.PartId?
  {
    forall i | 0 <= i < |ts| - 1 ensures Adj(d, eps, ts[i].n, ts[i + 1].n) {
      if i > 0 {
        assert Follows(g, o, ts[i].n, ts[i + 1].n);
      }
    }
  }

  /** The box is not one of its own start wires, since only wires touch it. */
  lemma BoxNotStart(d: Drawing, eps: Tol, g: Graph, o: Opts)
    requires TablesContact(d, eps, g, o)
    ensures g.box !in g.adj.boxToWires
  {
    forall x | x in g.adj.boxToWires ensures x != g.box {
      AdjTarget(d, eps, g.box, x);
    }
  }

  /** What `FromBoxRoutes` says of one route. */
  lemma RouteFacts(g: Graph, o: Opts, r: Route)
    requires g.box !in g.adj.boxToWires && r in FromBox(g, o, g.adj.boxToWires)
    ensures && EndsAtPart(g, r.tokens) && |r.tokens| <= o.maxDepth + 1
            && r.tokens[0] == Node(g.box) && r.tokens[1].n in g.adj.boxToWires
            && Simple(r.tokens) && Chained(g, o, r.tokens)
  {
    FromBoxRoutes(g, o, g.adj.boxToWires);
  }

  /** Over tables that keep that promise, every route of the box is a
      contact path of the drawing: it starts at the box, never visits a node
      twice, steps from each node to one it touches, ends at a part, and has
      at most `maxDepth + 1` tokens. */
  lemma RoutesAreContactPaths(d: Drawing, eps: Tol, g: Graph, o: Opts, r: Route)
    requires TablesContact(d, eps, g, o) && r in FromBox(g, o, g.adj.boxToWires)
    ensures 3 <= |r.tokens| <= o.maxDepth + 1
    ensures r.tokens[0] == Node(g.box) && r.tokens[|r.tokens| - 1].n.PartId?
    ensures ContactPath(d, eps, r.tokens)
  {
    BoxNotStart(d, eps, g, o);
    RouteFacts(g, o, r);
    ChainedContact(d, eps, g, o, r.tokens);
  }

  /** `printRoutesFromBox(comp, opts)`: the component's tables and wire
      lengths, and the routes of the search over them. */
  method PrintRoutesFromBox(d: Drawing, eps: Tol, hypot: Hypot, o: Opts, c: Comp, links: map<NodeId, seq<Link>>)
    returns (routes: seq<Route>)
    requires Indexable(d, c)
    ensures routes == FromBox(GraphOf(d, eps, hypot, o.scale, c, links), o, AdjacencyOf(d, eps, c).boxToWires)
    ensures forall r :: r in routes ==>
              && 3 <= |r.tokens| <= o.maxDepth + 1
              && r.tokens[0] == Node(BoxId(c.box)) && r.tokens[|r.tokens| - 1].n.PartId?
              && ContactPath(d, eps, r.tokens)
  {
    var adj := BuildAdjacency(d, eps, c);
    var wireLen := MeasureWires(d, c, hypot, o.scale);
    var g := Graph(BoxId(c.box), adj, wireLen, FirstLinks(links, c.parts));
    routes := RoutesOf(g, o);
    AdjacencyContact(d, eps, c, g, o);
    forall r | r in routes
      ensures && 3 <= |r.tokens| <= o.maxDepth + 1
              && r.tokens[0] == Node(BoxId(c.box)) && r.tokens[|r.tokens| - 1].n.PartId?
              && ContactPath(d, eps, r.tokens)
    {
      RoutesAreContactPaths(d, eps, g, o, r);
    }
  }
}
