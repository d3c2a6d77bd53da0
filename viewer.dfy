/**
 * The link viewer (src/link/Canvas.jsx): `drawPaths` sorts the flattened
 * paths into the five lists `buildLinkSets` takes by their layer prefix and
 * keeps the defined `printRoute` results; the wheel handler zooms about the
 * mouse with the scale clamped to [1, 20]; a left-button drag moves the
 * offset by the mouse delta.
 */
module LinkViewer {
  import opened Wrappers
  import opened Strs
  import opened Geometry
  import opened Ids
  import opened Drawing
  import opened LinkSets
  import opened PartLinks
  import opened LinkBuild
  import opened CompAdj
  import opened RouteEnum
  import opened Dijkstra
  import opened Shortest
  import opened EntryRoutes
  import Flatten

  // ---------------------------------------------------------------------
  // drawPaths: the layer buckets
  // ---------------------------------------------------------------------

  const EqlPrefix: string := "EQUIP-照明"
  const EqePrefix: string := "EQUIP-动力"
  const EqpPrefix: string := "EQUIP-插座"
  const WirePrefix: string := "WIRE-照明"

  /** The five arrays `drawPaths` fills. */
  datatype Bucket = BoxBucket | EqlBucket | EqeBucket | EqpBucket | WireBucket

  /** The `switch (true)` over the layer: the four prefixes in order, and
      everything else a box. */
  function BucketOf(layer: string): Bucket {
    if StartsWith(layer, EqlPrefix) then EqlBucket
    else if StartsWith(layer, EqePrefix) then EqeBucket
    else if StartsWith(layer, EqpPrefix) then EqpBucket
    else if StartsWith(layer, WirePrefix) then WireBucket
    else BoxBucket
  }

  /** No layer starts with two of the four prefixes, so the order of the
      cases does not matter: each bucket holds exactly the layers with its
      own prefix, and the boxes are the layers with none of them. */
  lemma BucketOfSpec(layer: string)
    ensures BucketOf(layer) == EqlBucket <==> StartsWith(layer, EqlPrefix)
    ensures BucketOf(layer) == EqeBucket <==> StartsWith(layer, EqePrefix)
    ensures BucketOf(layer) == EqpBucket <==> StartsWith(layer, EqpPrefix)
    ensures BucketOf(layer) == WireBucket <==> StartsWith(layer, WirePrefix)
    ensures BucketOf(layer) == BoxBucket <==>
      !StartsWith(layer, EqlPrefix) && !StartsWith(layer, EqePrefix)
      && !StartsWith(layer, EqpPrefix) && !StartsWith(layer, WirePrefix)
  {
    if StartsWith(layer, WirePrefix) {
      assert layer[0] == WirePrefix[0] == 'W';
      assert !StartsWith(layer, EqlPrefix) by { assert EqlPrefix[0] == 'E'; }
      assert !StartsWith(layer, EqePrefix) by { assert EqePrefix[0] == 'E'; }
      assert !StartsWith(layer, EqpPrefix) by { assert EqpPrefix[0] == 'E'; }
    }
    if StartsWith(layer, EqlPrefix) {
      assert layer[6] == EqlPrefix[6] == '照';
      assert !StartsWith(layer, EqePrefix) by { assert EqePrefix[6] == '动'; }
      assert !StartsWith(layer, EqpPrefix) by { assert EqpPrefix[6] == '插'; }
    }
    if StartsWith(layer, EqePrefix) {
      assert layer[6] == EqePrefix[6] == '动';
      assert !StartsWith(layer, EqpPrefix) by { assert EqpPrefix[6] == '插'; }
    }
  }

  /** A path is classified when it has at least two points. */
  predicate Drawn(p: Flatten.Path) {
    |p.points| >= 2
  }

  /** The point lists of the classified paths of bucket `b`, in path order. */
  function Kept(paths: seq<Flatten.Path>, b: Bucket): (r: seq<seq<Point>>)
    ensures |r| <= |paths|
    ensures forall k :: 0 <= k < |r| ==> |r[k]| >= 2
    decreases |paths|
  {
    if paths == [] then []
    else
      var p := paths[|paths| - 1];
      Kept(paths[..|paths| - 1], b) + (if Drawn(p) && BucketOf(p.layer) == b then [p.points] else [])
  }

  /** The lists `drawPaths` hands to `buildLinkSets`. */
  function Sorted(paths: seq<Flatten.Path>): Drawing {
    Drawing(Kept(paths, BoxBucket), Kept(paths, EqlBucket), Kept(paths, EqeBucket),
            Kept(paths, EqpBucket), Kept(paths, WireBucket))
  }

  /** The number of paths with at least two points. */
  function DrawnCount(paths: seq<Flatten.Path>): nat
    decreases |paths|
  {
    if paths == [] then 0
    else DrawnCount(paths[..|paths| - 1]) + (if Drawn(paths[|paths| - 1]) then 1 else 0)
  }

  /** The buckets partition the paths with at least two points: none is
      lost and none is counted twice. */
  lemma {:induction false} SortedPartition(paths: seq<Flatten.Path>)
    ensures var d := Sorted(paths);
      |d.box| + |d.eql| + |d.eqe| + |d.eqp| + |d.wire| == DrawnCount(paths)
    decreases |paths|
  {
    if paths != [] {
      SortedPartition(paths[..|paths| - 1]);
    }
  }

  /** A path with at least two points sits in the bucket of its layer, and
      every list in a bucket is the point list of a path of that bucket. */
  lemma {:induction false} KeptSpec(paths: seq<Flatten.Path>, b: Bucket)
    ensures forall i :: 0 <= i < |paths| && Drawn(paths[i]) && BucketOf(paths[i].layer) == b ==>
      paths[i].points in Kept(paths, b)
    ensures forall q :: q in Kept(paths, b) ==>
      exists i :: 0 <= i < |paths| && Drawn(paths[i]) && BucketOf(paths[i].layer) == b && paths[i].points == q
    decreases |paths|
  {
    if paths != [] {
      var n := |paths| - 1;
      var init := paths[..n];
      KeptSpec(init, b);
      forall i | 0 <= i < |paths| && Drawn(paths[i]) && BucketOf(paths[i].layer) == b
        ensures paths[i].points in Kept(paths, b)
      {
        if i < n {
          assert init[i] == paths[i];
        }
      }
      forall q | q in Kept(paths, b)
        ensures exists i :: 0 <= i < |paths| && Drawn(paths[i]) && BucketOf(paths[i].layer) == b && paths[i].points == q
      {
        if q in Kept(init, b) {
          var i :| 0 <= i < |init| && Drawn(init[i]) && BucketOf(init[i].layer) == b && init[i].points == q;
          assert paths[i] == init[i];
        } else {
          assert paths[n].points == q;
        }
      }
    }
  }

  /** The classification loop of `drawPaths`: paths with fewer than two
      points are skipped, the others pushed onto the array of the first
      prefix their layer starts with, or onto the boxes. */
  method Classify(paths: seq<Flatten.Path>) returns (d: Drawing)
    ensures d == Sorted(paths)
  {
    var box, eql, eqe, eqp, wire := [], [], [], [], [];
    for i := 0 to |paths|
      invariant Drawing(box, eql, eqe, eqp, wire) == Sorted(paths[..i])
    {
      var p := paths[i];
      assert paths[..i + 1][..i] == paths[..i];
      if |p.points| < 2 {
        continue;
      }
      if StartsWith(p.layer, EqlPrefix) {
        eql := eql + [p.points];
      } else if StartsWith(p.layer, EqePrefix) {
        eqe := eqe + [p.points];
      } else if StartsWith(p.layer, EqpPrefix) {
        eqp := eqp + [p.points];
      } else if StartsWith(p.layer, WirePrefix) {
        wire := wire + [p.points];
      } else {
        box := box + [p.points];
      }
    }
    assert paths[..|paths|] == paths;
    d := Drawing(box, eql, eqe, eqp, wire);
  }

  // ---------------------------------------------------------------------
  // drawPaths: the route list
  // ---------------------------------------------------------------------

  /** `printRoute` returns a value for a component with wires and parts. */
  predicate Routable(c: Comp) {
    c.wires != [] && c.parts != []
  }

  /** The positions of the components whose routes enter the route list. */
  function RoutedAt(comps: seq<Comp>): (r: seq<nat>)
    ensures forall k :: 0 <= k < |r| ==> r[k] < |comps| && Routable(comps[r[k]])
    ensures forall i, j :: 0 <= i < j < |r| ==> r[i] < r[j]
    decreases |comps|
  {
    if comps == [] then []
    else
      var n := |comps| - 1;
      RoutedAt(comps[..n]) + (if Routable(comps[n]) then [n] else [])
  }

  /** Every routable component has its place in the route list. */
  lemma {:induction false} RoutedAtComplete(comps: seq<Comp>, k: nat)
    requires k < |comps| && Routable(comps[k])
    ensures k in RoutedAt(comps)
    decreases |comps|
  {
    var n := |comps| - 1;
    if k < n {
      assert comps[..n][k] == comps[k];
      RoutedAtComplete(comps[..n], k);
    }
  }

  /** The shortest-path tree a `printRoute` call computed. */
  datatype Run = Run(dist: map<NodeId, real>, prev: map<NodeId, Option<NodeId>>, rank: map<NodeId, nat>)

  /** What `printRoute` returned for component `c`: the routes of a
      shortest-path tree over its wires from the wires at its box. */
  ghost predicate RoutesFor(d: Drawing, eps: Tol, hypot: Hypot, c: Comp, links: map<NodeId, seq<Link>>,
                            run: Run, rs: seq<EntryRoute>)
    requires Indexable(d, c)
  {
    var m := WireLengths(d, c, hypot, 1.0);
    && ShortestTree(WireSet(c), WireAdj(d, eps, c), m, HitWires(d, eps, c, d.box[c.box]), run.dist, run.prev, run.rank)
    && Tree(m, run.dist, run.prev, run.rank)
    && rs == Routes(d, eps, c, m, links, run.dist, run.prev, run.rank)
    && WellFormed(c, rs)
  }

  /** The route list after the components below `n`: one entry per
      routable one among them, in order, each one `ok` for its component. */
  ghost predicate Listed(comps: seq<Comp>, n: nat, routeList: seq<seq<EntryRoute>>, runs: seq<Run>,
                         ok: (nat, seq<EntryRoute>, Run) -> bool)
    requires n <= |comps|
  {
    var at := RoutedAt(comps[..n]);
    && |routeList| == |at| == |runs|
    && forall j :: 0 <= j < |routeList| ==> at[j] < n && ok(at[j], routeList[j], runs[j])
  }

  lemma ListedSkip(comps: seq<Comp>, n: nat, routeList: seq<seq<EntryRoute>>, runs: seq<Run>,
                   ok: (nat, seq<EntryRoute>, Run) -> bool)
    requires n < |comps| && Listed(comps, n, routeList, runs, ok) && !Routable(comps[n])
    ensures Listed(comps, n + 1, routeList, runs, ok)
  {
    assert comps[..n + 1][..n] == comps[..n];
  }

  lemma ListedAdd(comps: seq<Comp>, n: nat, routeList: seq<seq<EntryRoute>>, runs: seq<Run>,
                  ok: (nat, seq<EntryRoute>, Run) -> bool, rs: seq<EntryRoute>, run: Run)
    requires n < |comps| && Listed(comps, n, routeList, runs, ok) && Routable(comps[n]) && ok(n, rs, run)
    ensures Listed(comps, n + 1, routeList + [rs], runs + [run], ok)
  {
    assert comps[..n + 1][..n] == comps[..n];
    assert comps[..n + 1][n] == comps[n];
  }

  /** The route loop of `drawPaths`: `printRoute` on every component, and
      only the defined results pushed, in component order. */
  method RouteList(d: Drawing, eps: Tol, hypot: Hypot, comps: seq<Comp>, links: map<NodeId, seq<Link>>)
    returns (routeList: seq<seq<EntryRoute>>, ghost runs: seq<Run>)
    requires forall k :: 0 <= k < |comps| ==> Indexable(d, comps[k])
    ensures |routeList| == |RoutedAt(comps)| == |runs|
    ensures forall j :: 0 <= j < |routeList| ==>
      RoutesFor(d, eps, hypot, comps[RoutedAt(comps)[j]], links, runs[j], routeList[j])
  {
    ghost var ok := (k: nat, rs: seq<EntryRoute>, run: Run) =>
      k < |comps| && Indexable(d, comps[k]) && RoutesFor(d, eps, hypot, comps[k], links, run, rs);
    routeList, runs := [], [];
    for i := 0 to |comps|
      invariant Listed(comps, i, routeList, runs, ok)
    {
      var c := comps[i];
      var r, dist, prev, rank := PrintRoute(d, eps, hypot, c, links);
      if r.None? {
        ListedSkip(comps, i, routeList, runs, ok);
        continue;
      }
      RoutesWellFormed(d, eps, c, WireLengths(d, c, hypot, 1.0), links, dist, prev, rank);
      assert ok(i, r.value, Run(dist, prev, rank));
      ListedAdd(comps, i, routeList, runs, ok, r.value, Run(dist, prev, rank));
      routeList, runs := routeList + [r.value], runs + [Run(dist, prev, rank)];
    }
    assert comps[..|comps|] == comps;
  }

  /** `drawPaths`: the classified drawing, its components and part
      jumpers, and the route list of the components with wires and parts. */
  method DrawPaths(paths: seq<Flatten.Path>, eps: PosTol, hypot: Hypot)
    returns (d: Drawing, comps: seq<Comp>, routeList: seq<seq<EntryRoute>>, ghost links: map<NodeId, seq<Link>>,
             ghost runs: seq<Run>)
    ensures d == Sorted(paths)
    ensures |comps| == |Seeds(d, |d.box|)|
    ensures forall k :: 0 <= k < |comps| ==> ComponentOf(d, eps, Seeds(d, |d.box|)[k], comps[k]) && Indexable(d, comps[k])
    ensures links == LinksAfter(map[], d, eps, hypot, comps)
    ensures |routeList| == |RoutedAt(comps)| == |runs|
    ensures forall j :: 0 <= j < |routeList| ==>
      RoutesFor(d, eps, hypot, comps[RoutedAt(comps)[j]], links, runs[j], routeList[j])
  {
    d := Classify(paths);
    var table;
    comps, table := BuildLinkSets(d, eps, hypot);
    links := table.links;
    SeedsSpec(d, |d.box|);
    forall k | 0 <= k < |comps| ensures Indexable(d, comps[k]) {
      var b := Seeds(d, |d.box|)[k];
      assert b in Seeds(d, |d.box|);
      assert InComp(comps[k], BoxId(b));
      ComponentIndexable(d, eps, b, comps[k]);
    }
    routeList, runs := RouteList(d, eps, hypot, comps, table.links);
  }

  // ---------------------------------------------------------------------
  // Zoom and drag
  // ---------------------------------------------------------------------

  const MinScale: real := 1.0
  const MaxScale: real := 20.0

  /** `Math.max(MIN_SCALE, Math.min(MAX_SCALE, s))`. */
  function Clamp(s: real): real {
    Max(MinScale, Min(MaxScale, s))
  }

  /** The clamp lands in [1, 20] and leaves a scale already there alone. */
  lemma ClampSpec(s: real)
    ensures MinScale <= Clamp(s) <= MaxScale
    ensures MinScale <= s <= MaxScale ==> Clamp(s) == s
    ensures s < MinScale ==> Clamp(s) == MinScale
    ensures s > MaxScale ==> Clamp(s) == MaxScale
  {
  }

  /** 12% in for a wheel turned up, 12% out otherwise. */
  function ZoomFactor(deltaY: real): real {
    if deltaY < 0.0 then 1.12 else 0.88
  }

  /** The view transform: the zoom scale and the pan offset. */
  datatype Transform = Transform(scale: real, x: real, y: real)

  /** The drawing coordinates under canvas point (mx, my) of a
      `width` x `height` canvas; `fit` is the initial fitting scale. */
  function AnchorX(t: Transform, fit: real, mx: real, width: real): real
    requires fit > 0.0 && t.scale > 0.0
  {
    (mx - width / 2.0 - t.x) / (fit * t.scale)
  }

  function AnchorY(t: Transform, fit: real, my: real, height: real): real
    requires fit > 0.0 && t.scale > 0.0
  {
    (my - height / 2.0 + t.y) / (fit * t.scale)
  }

  /** The transform after one wheel step at (mx, my). */
  function Zoomed(t: Transform, fit: real, deltaY: real, mx: real, my: real, width: real, height: real): Transform
    requires fit > 0.0 && t.scale > 0.0
  {
    var s := Clamp(t.scale * ZoomFactor(deltaY));
    if s == t.scale then t
    else
      var xBefore := AnchorX(t, fit, mx, width);
      var yBefore := AnchorY(t, fit, my, height);
      Transform(s, mx - width / 2.0 - xBefore * fit * s, -(my - height / 2.0 - yBefore * fit * s))
  }

  lemma AnchorAfterScale(a: real, fit: real, s: real)
    requires fit > 0.0 && s > 0.0
    ensures (a * fit * s) / (fit * s) == a
  {
    assert a * fit * s == a * (fit * s);
  }

  /** A wheel step keeps the scale in [1, 20], changes nothing when the
      clamped scale is the old one, and otherwise keeps the drawing point
      under the mouse where it was. */
  lemma ZoomedSpec(t: Transform, fit: real, deltaY: real, mx: real, my: real, width: real, height: real)
    requires fit > 0.0 && MinScale <= t.scale <= MaxScale
    ensures var t' := Zoomed(t, fit, deltaY, mx, my, width, height);
      && MinScale <= t'.scale <= MaxScale
      && (Clamp(t.scale * ZoomFactor(deltaY)) == t.scale ==> t' == t)
      && t'.scale == Clamp(t.scale * ZoomFactor(deltaY))
      && AnchorX(t', fit, mx, width) == AnchorX(t, fit, mx, width)
      && AnchorY(t', fit, my, height) == AnchorY(t, fit, my, height)
  {
    var t' := Zoomed(t, fit, deltaY, mx, my, width, height);
    ClampSpec(t.scale * ZoomFactor(deltaY));
    if t' != t {
      var s := t'.scale;
      var xb := AnchorX(t, fit, mx, width);
      var yb := AnchorY(t, fit, my, height);
      assert mx - width / 2.0 - t'.x == xb * fit * s;
      AnchorAfterScale(xb, fit, s);
      assert my - height / 2.0 + t'.y == yb * fit * s;
      AnchorAfterScale(yb, fit, s);
    }
  }

  /** Zooming in never shrinks the scale and zooming out never grows it. */
  lemma ZoomDirection(t: Transform, fit: real, deltaY: real, mx: real, my: real, width: real, height: real)
    requires fit > 0.0 && MinScale <= t.scale <= MaxScale
    ensures deltaY < 0.0 ==> Zoomed(t, fit, deltaY, mx, my, width, height).scale >= t.scale
    ensures deltaY >= 0.0 ==> Zoomed(t, fit, deltaY, mx, my, width, height).scale <= t.scale
  {
    ClampSpec(t.scale * ZoomFactor(deltaY));
  }

  /** Where a drag started: the mouse and the offset at the time. */
  datatype DragStart = DragStart(mouseX: real, mouseY: real, offsetX: real, offsetY: real)

  /** The canvas view: `scaleRef`, `offsetRef`, `initialTransformRef.scale`,
      `isDraggingRef` and `dragStartRef`. */
  class View {
    var scale: real
    var offsetX: real
    var offsetY: real
    var fit: real
    var dragging: bool
    var start: DragStart

    /** The scale stays in [1, 20] and the fitting scale is positive. */
    predicate Valid()
      reads this
    {
      fit > 0.0 && MinScale <= scale <= MaxScale
    }

    function State(): Transform
      reads this
    {
      Transform(scale, offsetX, offsetY)
    }

    /** The refs' initial values. */
    constructor ()
      ensures Valid()
      ensures State() == Transform(1.0, 0.0, 0.0) && fit == 1.0 && !dragging
      ensures start == DragStart(0.0, 0.0, 0.0, 0.0)
    {
      scale, offsetX, offsetY := 1.0, 0.0, 0.0;
      fit := 1.0;
      dragging := false;
      start := DragStart(0.0, 0.0, 0.0, 0.0);
    }

    /** A new drawing: the fitting scale recomputed, zoom and pan reset. */
    method Reset(newFit: real)
      requires newFit > 0.0
      modifies this
      ensures Valid()
      ensures State() == Transform(1.0, 0.0, 0.0) && fit == newFit
      ensures dragging == old(dragging) && start == old(start)
    {
      fit := newFit;
      scale, offsetX, offsetY := 1.0, 0.0, 0.0;
    }

    /** `handleWheel` at canvas point (mx, my): the refs take the
        transform of one wheel step (an unchanged scale leaves them as
        they were). */
    method Wheel(deltaY: real, mx: real, my: real, width: real, height: real)
      requires Valid()
      modifies this
      ensures Valid()
      ensures State() == Zoomed(old(State()), fit, deltaY, mx, my, width, height)
      ensures fit == old(fit) && dragging == old(dragging) && start == old(start)
    {
      var next := Zoomed(State(), fit, deltaY, mx, my, width, height);
      ZoomedSpec(State(), fit, deltaY, mx, my, width, height);
      scale, offsetX, offsetY := next.scale, next.x, next.y;
    }

    /** `handleMouseDown`: only the left button starts a drag. */
    method MouseDown(button: int, clientX: real, clientY: real)
      modifies this
      ensures button != 0 ==> unchanged(this)
      ensures button == 0 ==> dragging && start == DragStart(clientX, clientY, old(offsetX), old(offsetY))
      ensures State() == old(State()) && fit == old(fit)
    {
      if button != 0 {
        return;
      }
      dragging := true;
      start := DragStart(clientX, clientY, offsetX, offsetY);
    }

    /** `handleMouseMove`: while dragging, the offset is the offset at the
        start of the drag plus the distance the mouse moved since. */
    method MouseMove(clientX: real, clientY: real)
      modifies this
      ensures !old(dragging) ==> unchanged(this)
      ensures old(dragging) ==>
        offsetX == start.offsetX + (clientX - start.mouseX) && offsetY == start.offsetY + (clientY - start.mouseY)
      ensures scale == old(scale) && fit == old(fit) && dragging == old(dragging) && start == old(start)
    {
      if !dragging {
        return;
      }
      var deltaX := clientX - start.mouseX;
      var deltaY := clientY - start.mouseY;
      offsetX, offsetY := start.offsetX + deltaX, start.offsetY + deltaY;
    }

    /** `handleMouseUp` and `handleMouseLeave`. */
    method MouseUp()
      modifies this
      ensures !dragging
      ensures State() == old(State()) && fit == old(fit) && start == old(start)
    {
      dragging := false;
    }
  }

  /** A press, moves and a move back to where the press was leave the
      offset where it was: the offset follows the mouse, not the path it
      took. */
  method DragRoundTrip(v: View, button: int, x0: real, y0: real, xs: seq<(real, real)>)
    modifies v
    ensures button == 0 ==> v.State() == old(v.State()) && v.dragging
  {
    v.MouseDown(button, x0, y0);
    for i := 0 to |xs|
      invariant button == 0 ==> v.dragging && v.start == DragStart(x0, y0, old(v.offsetX), old(v.offsetY))
      invariant v.scale == old(v.scale) && v.fit == old(v.fit)
    {
      v.MouseMove(xs[i].0, xs[i].1);
    }
    v.MouseMove(x0, y0);
  }
}
