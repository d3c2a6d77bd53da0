/**
 * Flattening a DXF drawing into paths (src/link/fn.js): layer inheritance,
 * the target-layer filter, the conversion of single entities to point
 * lists, and the recursive expansion of INSERTs, whose contents become their
 * tight bounding rectangle.
 */
module Flatten {
  import opened Wrappers
  import opened Js
  import opened Strs
  import opened Geometry

  // ---------------------------------------------------------------------
  // Layers
  // ---------------------------------------------------------------------

  /** `resolveLayer`: an entity on the empty layer or on layer "0" takes the
      layer of the INSERT that placed it. */
  function ResolveLayer(entityLayer: OptStr, inherited: OptStr): (r: string)
    ensures Trim(r) == r
  {
    var l := Trim(entityLayer.OrEmpty());
    TrimIdempotent(entityLayer.OrEmpty());
    TrimIdempotent(inherited.OrEmpty());
    if l == "" || l == "0" then Trim(inherited.OrEmpty()) else l
  }

  /** Both branches of the inheritance rule. */
  lemma ResolveLayerSpec(entityLayer: OptStr, inherited: OptStr)
    ensures var l := Trim(entityLayer.OrEmpty());
      && (l == "" || l == "0" ==> ResolveLayer(entityLayer, inherited) == Trim(inherited.OrEmpty()))
      && (l != "" && l != "0" ==> ResolveLayer(entityLayer, inherited) == l)
  {
  }

  /** A resolved layer that is a real layer name resolves to itself again,
      whatever it would inherit. */
  lemma ResolveLayerStable(entityLayer: OptStr, inherited: OptStr, other: OptStr)
    requires var r := ResolveLayer(entityLayer, inherited); r != "" && r != "0"
    ensures var r := ResolveLayer(entityLayer, inherited); ResolveLayer(Str(r), other) == r
  {
  }

  /** `isTargetLayer` */
  predicate IsTargetLayer(layer: string) {
    StartsWith(layer, "WIRE-") || StartsWith(layer, "EQUIP-")
  }

  /** `isWireLayer`: the upper-cased layer starts with `WIRE-照明`. */
  predicate IsWireLayer(layer: string) {
    StartsWith(ToUpper(layer), "WIRE-照明")
  }

  /** Among the target layers the wire layers are exactly those starting with
      `WIRE-照明` as written: upper-casing cannot produce its last two
      characters. */
  lemma TargetWireLayer(layer: string)
    ensures IsTargetLayer(layer) && IsWireLayer(layer) <==> StartsWith(layer, "WIRE-照明")
  {
    var w := "WIRE-照明";
    if StartsWith(layer, w) {
      assert layer[..5] == "WIRE-";
      var u := ToUpper(layer);
      forall i | 0 <= i < |w| ensures u[i] == w[i] {
        assert layer[i] == w[i];
      }
      assert u[..|w|] == w;
    }
    if IsTargetLayer(layer) && IsWireLayer(layer) {
      var u := ToUpper(layer);
      assert u[5] == '照' && u[6] == '明';
      assert u[..5] == "WIRE-";
      assert u[0] == 'W';
      assert !StartsWith(layer, "EQUIP-");
      forall i | 0 <= i < |w| ensures layer[i] == w[i] {
        if i < 5 { assert layer[..5][i] == layer[i]; }
      }
      assert layer[..|w|] == w;
    }
  }

  // ---------------------------------------------------------------------
  // Entities and paths
  // ---------------------------------------------------------------------

  /** A DXF entity as the flattening reads it. `blockName` is
      `e.name || e.block || e.blockName`; `position` is
      `e.position || e.insertPoint || e.location`; `xScale` and `yScale` are
      the first of `xScale`, `scaleX`, `scale.x` (resp. y) that is present;
      `rotation` is the INSERT's rotation matrix; `samples` are the points
      of the sampled circle or arc before the matrix is applied. */
  datatype Entity = Entity(
    etype: string,
    layer: OptStr,
    blockName: OptStr,
    position: Option<Point>,
    xScale: Option<real>,
    yScale: Option<real>,
    rotation: Mat,
    vertices: seq<Point>,
    start: Option<Point>,
    end: Option<Point>,
    closedFlag: bool,
    center: Option<Point>,
    radius: Option<real>,
    samples: seq<Point>)

  /** Where a path came from: drawn as is, or the tight rectangle of an
      entity (`sourceType`) or of an INSERT (`sourceType` "INSERT"). */
  datatype Source = Drawn | RectOf(sourceType: string, blockName: OptStr)

  datatype Path = Path(layer: string, points: seq<Point>, closed: bool, source: Source)

  /** The block table: a block name to the block's entities. */
  type Blocks = map<string, seq<Entity>>

  /** `blocksMap[blockName]`: a missing name is looked up as "undefined". */
  function BlockKey(n: OptStr): string {
    if n.Str? then n.s else "undefined"
  }

  function MapPoints(m: Mat, pts: seq<Point>): (r: seq<Point>)
    ensures |r| == |pts| && forall i :: 0 <= i < |pts| ==> r[i] == ApplyMat(m, pts[i])
  {
    if pts == [] then [] else [ApplyMat(m, pts[0])] + MapPoints(m, pts[1..])
  }

  /** `e.vertices?.[k] ?? fallback` */
  function VertexOr(vs: seq<Point>, k: nat, fallback: Option<Point>): Option<Point> {
    if k < |vs| then Some(vs[k]) else fallback
  }

  /** `entityToPaths`: a LINE gives its two end points, a polyline its
      vertices (when there are at least two), a circle and an arc their
      samples (when they have a center and a positive radius); every other
      type gives nothing. */
  function EntityToPaths(e: Entity, m: Mat, layer: string): (r: seq<Path>)
    ensures |r| <= 1
    ensures forall p :: p in r ==> p.layer == layer && p.source == Drawn
    ensures ToUpper(e.etype) == "LINE" ==>
      (r != [] <==> VertexOr(e.vertices, 0, e.start).Some? && VertexOr(e.vertices, 1, e.end).Some?)
    ensures ToUpper(e.etype) == "LINE" && r != [] ==>
      r[0].points == [ApplyMat(m, VertexOr(e.vertices, 0, e.start).value),
                      ApplyMat(m, VertexOr(e.vertices, 1, e.end).value)]
    ensures (ToUpper(e.etype) == "LWPOLYLINE" || ToUpper(e.etype) == "POLYLINE") ==>
      (r != [] <==> |e.vertices| >= 2) && (r != [] ==> |r[0].points| == |e.vertices|)
    ensures (ToUpper(e.etype) == "LWPOLYLINE" || ToUpper(e.etype) == "POLYLINE") && r != [] ==>
      r[0].points == MapPoints(m, e.vertices) && r[0].closed == e.closedFlag
    ensures (ToUpper(e.etype) == "CIRCLE" || ToUpper(e.etype) == "ARC") ==>
      (r != [] <==> e.center.Some? && e.radius.GetOr(0.0) > 0.0) &&
      (r != [] ==> r[0].points == MapPoints(m, e.samples) && r[0].closed == (ToUpper(e.etype) == "CIRCLE"))
    ensures ToUpper(e.etype) !in {"LINE", "LWPOLYLINE", "POLYLINE", "CIRCLE", "ARC"} ==> r == []
  {
    var t := ToUpper(e.etype);
    if t == "LINE" then
      var a := VertexOr(e.vertices, 0, e.start);
      var b := VertexOr(e.vertices, 1, e.end);
      if a.None? || b.None? then []
      else [Path(layer, [ApplyMat(m, a.value), ApplyMat(m, b.value)], false, Drawn)]
    else if t == "LWPOLYLINE" || t == "POLYLINE" then
      if |e.vertices| < 2 then []
      else [Path(layer, MapPoints(m, e.vertices), e.closedFlag, Drawn)]
    else if t == "CIRCLE" || t == "ARC" then
      var r := e.radius.GetOr(0.0);
      if e.center.None? || r <= 0.0 then []
      else [Path(layer, MapPoints(m, e.samples), t == "CIRCLE", Drawn)]
    else []
  }

  /** Every point of a list of paths, in order. */
  function AllPoints(paths: seq<Path>): seq<Point>
    decreases |paths|
  {
    if paths == [] then [] else AllPoints(paths[..|paths| - 1]) + paths[|paths| - 1].points
  }

  lemma LiftAllAppend(a: seq<Point>, b: seq<Point>)
    ensures LiftAll(a + b) == LiftAll(a) + LiftAll(b)
  {
  }

  lemma BoundsOfSnoc(s: seq<NumPoint>, p: NumPoint)
    ensures BoundsOf(s + [p]) == ExtendBounds(BoundsOf(s), p)
  {
    assert (s + [p])[..|s|] == s;
  }

  /** The box after one more point. */
  lemma BBoxSnoc(pts: seq<Point>, p: Point)
    ensures BBox(pts + [p]) == ExtendBounds(BBox(pts), Lift(p))
  {
    LiftAllAppend(pts, [p]);
    BoundsOfSnoc(LiftAll(pts), Lift(p));
  }

  lemma AllPointsSnoc(paths: seq<Path>, i: nat)
    requires i < |paths|
    ensures AllPoints(paths[..i + 1]) == AllPoints(paths[..i]) + paths[i].points
  {
    assert paths[..i + 1][..i] == paths[..i];
  }

  /** One step of the running minima and maxima. */
  lemma StepBox(pts: seq<Point>, p: Point, hasPoint: bool, minX: real, minY: real, maxX: real, maxY: real)
    requires BBox(pts) == if hasPoint then Some(Rect(minX, minY, maxX, maxY)) else None
    ensures BBox(pts + [p]) == Some(if hasPoint then Rect(Min(minX, p.x), Min(minY, p.y), Max(maxX, p.x), Max(maxY, p.y))
                                    else Rect(p.x, p.y, p.x, p.y))
  {
    BBoxSnoc(pts, p);
  }

  /** `pathsToBBox`: the running minima and maxima over every point of every path. */
  method PathsToBBox(paths: seq<Path>) returns (r: Option<Rect>)
    ensures r == BBox(AllPoints(paths))
  {
    var minX, minY, maxX, maxY := 0.0, 0.0, 0.0, 0.0;
    var hasPoint := false;
    ghost var seen: seq<Point> := [];
    var i := 0;
    assert paths[..0] == [];
    while i < |paths|
      invariant 0 <= i <= |paths|
      invariant seen == AllPoints(paths[..i])
      invariant BBox(seen) == if hasPoint then Some(Rect(minX, minY, maxX, maxY)) else None
    {
      var pts := paths[i].points;
      var j := 0;
      ghost var before := seen;
      while j < |pts|
        invariant 0 <= j <= |pts|
        invariant seen == before + pts[..j]
        invariant BBox(seen) == if hasPoint then Some(Rect(minX, minY, maxX, maxY)) else None
      {
        var x, y := pts[j].x, pts[j].y;
        StepBox(seen, pts[j], hasPoint, minX, minY, maxX, maxY);
        if !hasPoint {
          minX, minY, maxX, maxY := x, y, x, y;
        } else {
          minX, minY, maxX, maxY := Min(minX, x), Min(minY, y), Max(maxX, x), Max(maxY, y);
        }
        hasPoint := true;
        seen := seen + [pts[j]];
        assert pts[..j + 1] == pts[..j] + [pts[j]];
        j := j + 1;
      }
      assert pts[..j] == pts;
      AllPointsSnoc(paths, i);
      i := i + 1;
    }
    assert paths[..i] == paths;
    r := if hasPoint then Some(Rect(minX, minY, maxX, maxY)) else None;
  }

  /** `bboxToRectPath`: the closed five-point outline of a box. */
  function RectPath(b: Rect, layer: string, source: Source): (p: Path)
    ensures p.closed && |p.points| == 5 && p.layer == layer && p.source == source
    ensures p.points[0] == p.points[4]
  {
    Path(layer, [Point(b.minX, b.minY), Point(b.maxX, b.minY), Point(b.maxX, b.maxY),
                 Point(b.minX, b.maxY), Point(b.minX, b.minY)], true, source)
  }

  /** The outline of a well-formed box has that box as its own box, so taking
      the rectangle of a rectangle changes nothing. */
  lemma RectPathBBox(b: Rect, layer: string, source: Source)
    requires b.minX <= b.maxX && b.minY <= b.maxY
    ensures BBox(RectPath(b, layer, source).points) == Some(b)
  {
    var pts := RectPath(b, layer, source).points;
    var l := LiftAll(pts);
    assert l[..1] == [Lift(pts[0])];
    assert l[..2] == l[..1] + [l[1]];
    assert l[..3] == l[..2] + [l[2]];
    assert l[..4] == l[..3] + [l[3]];
    assert l == l[..4] + [l[4]];
    assert BoundsOf(l[..1]) == Some(Rect(b.minX, b.minY, b.minX, b.minY)) by {
      assert l[..1][..0] == [];
    }
    assert BoundsOf(l[..2]) == Some(Rect(b.minX, b.minY, b.maxX, b.minY)) by {
      assert l[..2][..1] == l[..1];
    }
    assert BoundsOf(l[..3]) == Some(b) by {
      assert l[..3][..2] == l[..2];
    }
    assert BoundsOf(l[..4]) == Some(b) by {
      assert l[..4][..3] == l[..3];
    }
    assert l[..5][..4] == l[..4];
  }

  // ---------------------------------------------------------------------
  // INSERT expansion
  // ---------------------------------------------------------------------

  /** `if (depth > 20) return []`: the guard against blocks that insert themselves. */
  const MAX_DEPTH: nat := 20

  function Fuel(depth: nat): nat {
    if depth > MAX_DEPTH then 0 else MAX_DEPTH + 1 - depth
  }

  /** The placement matrix of an INSERT's contents:
      parent * translate(pos) * rotate * scale(sx, sy). */
  function InsertMatrix(e: Entity, parentMat: Mat): Mat {
    var pos := e.position.GetOr(Point(0.0, 0.0));
    var sx := e.xScale.GetOr(1.0);
    var sy := e.yScale.GetOr(1.0);
    MatMul(parentMat, MatMul(MatTranslate(pos.x, pos.y), MatMul(e.rotation, MatScale(sx, sy))))
  }

  /** `flattenToPaths(dxf, entities, blocksMap, inheritedLayer, parentMat, depth, {asRect})` */
  function Flatten(ents: seq<Entity>, blocks: Blocks, inherited: OptStr, m: Mat, depth: nat, asRect: bool): seq<Path>
    decreases Fuel(depth), |ents|, 2
  {
    if |ents| == 0 || depth > MAX_DEPTH then [] else FlattenList(ents, blocks, inherited, m, depth, asRect)
  }

  /** The paths of a list of entities, in order. */
  function FlattenList(ents: seq<Entity>, blocks: Blocks, inherited: OptStr, m: Mat, depth: nat, asRect: bool): seq<Path>
    requires depth <= MAX_DEPTH
    decreases Fuel(depth), |ents|, 1
  {
    if ents == [] then []
    else
      FlattenList(ents[..|ents| - 1], blocks, inherited, m, depth, asRect)
        + FlattenEntity(ents[|ents| - 1], blocks, inherited, m, depth, asRect)
  }

  /** The paths one entity contributes: INSERTs and the other entities
      follow the two branches of the loop body. */
  function FlattenEntity(e: Entity, blocks: Blocks, inherited: OptStr, m: Mat, depth: nat, asRect: bool): seq<Path>
    requires depth <= MAX_DEPTH
    decreases Fuel(depth), 0, 1
  {
    if ToUpper(e.etype) == "INSERT" then FlattenInsert(e, blocks, inherited, m, depth, asRect)
    else FlattenLeaf(e, inherited, m)
  }

  /** An INSERT of a known block contributes the contents of the block placed
      by its matrix on its resolved layer (`asRect` false), or the tight
      rectangle of those contents when there are any. */
  function FlattenInsert(e: Entity, blocks: Blocks, inherited: OptStr, m: Mat, depth: nat, asRect: bool): seq<Path>
    requires depth <= MAX_DEPTH
    decreases Fuel(depth), 0, 0
  {
    var key := BlockKey(e.blockName);
    if key !in blocks then []
    else
      var insertLayer := ResolveLayer(e.layer, inherited);
      var children := Flatten(blocks[key], blocks, Str(insertLayer), InsertMatrix(e, m), depth + 1, false);
      if !asRect then children
      else
        match BBox(AllPoints(children))
        case Some(b) => [RectPath(b, insertLayer, RectOf("INSERT", e.blockName))]
        case None => []
  }

  /** Any other entity on a target layer contributes its paths as drawn when
      the layer is a wire layer, and their tight rectangle otherwise. */
  function FlattenLeaf(e: Entity, inherited: OptStr, m: Mat): seq<Path> {
    var layer := ResolveLayer(e.layer, inherited);
    if !IsTargetLayer(layer) then []
    else
      var paths := EntityToPaths(e, m, layer);
      if IsWireLayer(layer) then paths
      else
        match BBox(AllPoints(paths))
        case Some(b) => [RectPath(b, layer, RectOf(ToUpper(e.etype), NoStr))]
        case None => []
  }

  /** `flattenToPaths`: the loop over the entities, recursing into blocks. */
  method FlattenToPaths(ents: seq<Entity>, blocks: Blocks, inherited: OptStr, m: Mat, depth: nat, asRect: bool)
    returns (out: seq<Path>)
    ensures out == Flatten(ents, blocks, inherited, m, depth, asRect)
    decreases Fuel(depth), |ents|, 2
  {
    if |ents| == 0 || depth > MAX_DEPTH {
      return [];
    }
    out := [];
    var i := 0;
    while i < |ents|
      invariant 0 <= i <= |ents|
      invariant out == FlattenList(ents[..i], blocks, inherited, m, depth, asRect)
    {
      assert ents[..i + 1][..i] == ents[..i];
      var e := ents[i];
      var paths;
      if ToUpper(e.etype) == "INSERT" {
        paths := InsertPaths(e, blocks, inherited, m, depth, asRect);
      } else {
        paths := LeafPaths(e, inherited, m);
      }
      out := out + paths;
      i := i + 1;
    }
    assert ents[..i] == ents;
  }

  /** The INSERT branch of the loop body. */
  method InsertPaths(e: Entity, blocks: Blocks, inherited: OptStr, m: Mat, depth: nat, asRect: bool)
    returns (out: seq<Path>)
    requires depth <= MAX_DEPTH
    ensures out == FlattenInsert(e, blocks, inherited, m, depth, asRect)
    decreases Fuel(depth), 0, 0
  {
    out := [];
    var key := BlockKey(e.blockName);
    if key in blocks {
      var insertLayer := ResolveLayer(e.layer, inherited);
      var children := FlattenToPaths(blocks[key], blocks, Str(insertLayer), InsertMatrix(e, m), depth + 1, false);
      if !asRect {
        out := children;
      } else {
        var bbox := PathsToBBox(children);
        if bbox.Some? {
          out := [RectPath(bbox.value, insertLayer, RectOf("INSERT", e.blockName))];
        }
      }
    }
  }

  /** The branch of the loop body for every other entity. */
  method LeafPaths(e: Entity, inherited: OptStr, m: Mat) returns (out: seq<Path>)
    ensures out == FlattenLeaf(e, inherited, m)
  {
    out := [];
    var layer := ResolveLayer(e.layer, inherited);
    if IsTargetLayer(layer) {
      var paths := EntityToPaths(e, m, layer);
      if IsWireLayer(layer) {
        out := paths;
      } else {
        var bbox := PathsToBBox(paths);
        if bbox.Some? {
          out := [RectPath(bbox.value, layer, RectOf(ToUpper(e.etype), NoStr))];
        }
      }
    }
  }

  // ---------------------------------------------------------------------
  // What flattening produces
  // ---------------------------------------------------------------------

  /** The shape of a flattened path: a drawn path lies on a wire layer; a
      rectangle is a closed five-point outline, and it is an INSERT's only
      when rectangles of INSERTs were asked for, and otherwise it lies on a
      target layer that is not a wire layer. */
  predicate PathOk(p: Path, asRect: bool) {
    match p.source
    case Drawn => IsTargetLayer(p.layer) && IsWireLayer(p.layer)
    case RectOf(t, _) =>
      && p.closed && |p.points| == 5
      && (t == "INSERT" ==> asRect)
      && (t != "INSERT" ==> IsTargetLayer(p.layer) && !IsWireLayer(p.layer))
  }

  predicate AllOk(paths: seq<Path>, asRect: bool) {
    forall i :: 0 <= i < |paths| ==> PathOk(paths[i], asRect)
  }

  lemma {:induction false} FlattenShapes(ents: seq<Entity>, blocks: Blocks, inherited: OptStr, m: Mat, depth: nat, asRect: bool)
    ensures AllOk(Flatten(ents, blocks, inherited, m, depth, asRect), asRect)
    decreases Fuel(depth), |ents|, 2
  {
    if |ents| > 0 && depth <= MAX_DEPTH {
      FlattenListShapes(ents, blocks, inherited, m, depth, asRect);
    }
  }

  lemma {:induction false} FlattenListShapes(ents: seq<Entity>, blocks: Blocks, inherited: OptStr, m: Mat, depth: nat, asRect: bool)
    requires depth <= MAX_DEPTH
    ensures AllOk(FlattenList(ents, blocks, inherited, m, depth, asRect), asRect)
    decreases Fuel(depth), |ents|, 1
  {
    if ents != [] {
      var init := FlattenList(ents[..|ents| - 1], blocks, inherited, m, depth, asRect);
      var last := FlattenEntity(ents[|ents| - 1], blocks, inherited, m, depth, asRect);
      FlattenListShapes(ents[..|ents| - 1], blocks, inherited, m, depth, asRect);
      EntityShapes(ents[|ents| - 1], blocks, inherited, m, depth, asRect);
      assert forall i :: 0 <= i < |init + last| ==> (init + last)[i] == if i < |init| then init[i] else last[i - |init|];
    }
  }

  lemma {:induction false} EntityShapes(e: Entity, blocks: Blocks, inherited: OptStr, m: Mat, depth: nat, asRect: bool)
    requires depth <= MAX_DEPTH
    ensures AllOk(FlattenEntity(e, blocks, inherited, m, depth, asRect), asRect)
    decreases Fuel(depth), 0, 1
  {
    if ToUpper(e.etype) == "INSERT" {
      InsertShapes(e, blocks, inherited, m, depth, asRect);
    } else {
      LeafShapes(e, inherited, m, asRect);
    }
  }

  lemma {:induction false} InsertShapes(e: Entity, blocks: Blocks, inherited: OptStr, m: Mat, depth: nat, asRect: bool)
    requires depth <= MAX_DEPTH
    ensures AllOk(FlattenInsert(e, blocks, inherited, m, depth, asRect), asRect)
    decreases Fuel(depth), 0, 0
  {
    var key := BlockKey(e.blockName);
    if key in blocks && !asRect {
      var insertLayer := ResolveLayer(e.layer, inherited);
      FlattenShapes(blocks[key], blocks, Str(insertLayer), InsertMatrix(e, m), depth + 1, false);
    }
  }

  lemma LeafShapes(e: Entity, inherited: OptStr, m: Mat, asRect: bool)
    requires ToUpper(e.etype) != "INSERT"
    ensures AllOk(FlattenLeaf(e, inherited, m), asRect)
  {
    var layer := ResolveLayer(e.layer, inherited);
    if IsTargetLayer(layer) {
      var paths := EntityToPaths(e, m, layer);
      if IsWireLayer(layer) {
        assert forall i :: 0 <= i < |paths| ==> paths[i] in paths;
      }
    }
  }

  /** Without INSERT rectangles every flattened path lies on a target layer:
      the connectivity pipeline sees nothing else inside a block. */
  lemma ContentsOnTargetLayers(ents: seq<Entity>, blocks: Blocks, inherited: OptStr, m: Mat, depth: nat)
    ensures forall p :: p in Flatten(ents, blocks, inherited, m, depth, false) ==> IsTargetLayer(p.layer)
  {
    FlattenShapes(ents, blocks, inherited, m, depth, false);
  }

  // ---------------------------------------------------------------------
  // boundsFromPaths
  // ---------------------------------------------------------------------

  /** A coordinate of the running box, which starts at +/-Infinity. */
  datatype Ext = NegInf | Val(v: real) | PosInf {
    predicate IsFinite() { Val? }
  }

  /** Widening a minimum by `x`: never raises it and, unless it is
      -Infinity, leaves it at or below `x`. */
  function ExtMin(a: Ext, x: real): (r: Ext)
    ensures r.NegInf? <==> a.NegInf?
    ensures r.Val? ==> r.v <= x
    ensures a.Val? ==> r.Val? && r.v <= a.v && (r.v == a.v || r.v == x)
  {
    match a
    case PosInf => Val(x)
    case NegInf => NegInf
    case Val(v) => Val(Min(v, x))
  }

  /** Widening a maximum by `x`: never lowers it and, unless it is
      +Infinity, leaves it at or above `x`. */
  function ExtMax(a: Ext, x: real): (r: Ext)
    ensures r.PosInf? <==> a.PosInf?
    ensures r.Val? ==> r.v >= x
    ensures a.Val? ==> r.Val? && r.v >= a.v && (r.v == a.v || r.v == x)
  {
    match a
    case NegInf => Val(x)
    case PosInf => PosInf
    case Val(v) => Val(Max(v, x))
  }

  /** The box `makeEmptyBounds` creates and `expandBounds` widens in place. */
  class Bounds {
    var minX: Ext
    var minY: Ext
    var maxX: Ext
    var maxY: Ext

    /** The box seen after the given points: infinite while it is empty. */
    predicate Tracks(pts: seq<Point>)
      reads this
    {
      match BBox(pts)
      case None => minX == PosInf && minY == PosInf && maxX == NegInf && maxY == NegInf
      case Some(b) => minX == Val(b.minX) && minY == Val(b.minY) && maxX == Val(b.maxX) && maxY == Val(b.maxY)
    }

    /** `makeEmptyBounds` */
    constructor ()
      ensures Tracks([])
    {
      minX, minY := PosInf, PosInf;
      maxX, maxY := NegInf, NegInf;
    }

    /** `expandBounds(b, p)` */
    method Expand(p: Point)
      modifies this
      ensures minX == ExtMin(old(minX), p.x) && minY == ExtMin(old(minY), p.y)
      ensures maxX == ExtMax(old(maxX), p.x) && maxY == ExtMax(old(maxY), p.y)
    {
      minX := ExtMin(minX, p.x);
      minY := ExtMin(minY, p.y);
      maxX := ExtMax(maxX, p.x);
      maxY := ExtMax(maxY, p.y);
    }
  }

  /** Widening the box tracking `pts` by `p` gives the box tracking `pts + [p]`. */
  lemma ExpandTracks(b: Bounds, pts: seq<Point>, p: Point, b0: (Ext, Ext, Ext, Ext))
    requires b0 == (b.minX, b.minY, b.maxX, b.maxY)
    ensures (match BBox(pts)
      case None => b0 == (PosInf, PosInf, NegInf, NegInf)
      case Some(r) => b0 == (Val(r.minX), Val(r.minY), Val(r.maxX), Val(r.maxY)))
      ==> (match BBox(pts + [p])
      case None => false
      case Some(r) => (ExtMin(b0.0, p.x), ExtMin(b0.1, p.y), ExtMax(b0.2, p.x), ExtMax(b0.3, p.y))
                      == (Val(r.minX), Val(r.minY), Val(r.maxX), Val(r.maxY)))
  {
    BBoxSnoc(pts, p);
  }

  /** The fallback box of an empty drawing. */
  const DEFAULT_BOUNDS := Rect(-10.0, -10.0, 10.0, 10.0)

  /** `boundsFromPaths`: the box of every point, or the fixed box
      (-10, -10, 10, 10) when no point was seen. */
  method BoundsFromPaths(paths: seq<Path>) returns (r: Rect)
    ensures r == BBox(AllPoints(paths)).GetOr(DEFAULT_BOUNDS)
  {
    var b := new Bounds();
    ghost var seen: seq<Point> := [];
    var i := 0;
    assert paths[..0] == [];
    while i < |paths|
      invariant 0 <= i <= |paths|
      invariant seen == AllPoints(paths[..i])
      invariant b.Tracks(seen)
    {
      var pts := paths[i].points;
      var j := 0;
      ghost var before := seen;
      while j < |pts|
        invariant 0 <= j <= |pts|
        invariant seen == before + pts[..j]
        invariant b.Tracks(seen)
      {
        ghost var b0 := (b.minX, b.minY, b.maxX, b.maxY);
        ExpandTracks(b, seen, pts[j], b0);
        b.Expand(pts[j]);
        seen := seen + [pts[j]];
        assert pts[..j + 1] == pts[..j] + [pts[j]];
        j := j + 1;
      }
      assert pts[..j] == pts;
      AllPointsSnoc(paths, i);
      i := i + 1;
    }
    assert paths[..i] == paths;
    if !b.minX.IsFinite() || !b.minY.IsFinite() || !b.maxX.IsFinite() || !b.maxY.IsFinite() {
      return DEFAULT_BOUNDS;
    }
    r := Rect(b.minX.v, b.minY.v, b.maxX.v, b.maxY.v);
  }
}
