/**
 * The insert viewer: how it reads points out of loosely shaped parsed
 * entities, finds the block an INSERT refers to, measures entities and
 * nested blocks, adds the scanned ATTRIBs to the drawing as entities of
 * their own, and lists each distinct INSERT once.
 */
module InsertView {
  import opened Wrappers
  import opened Js
  import opened Strs
  import opened Geometry
  import opened Attrib
  import Flatten

  // ---------------------------------------------------------------------
  // Loose values
  // ---------------------------------------------------------------------

  /** A field as `??` and `Number(...)` see it: `undefined`, `null`, or some
      other value, held as what `Number(v)` makes of it. */
  datatype Raw = Undefined | Null | Value(num: Num) {
    predicate Nullish() { Undefined? || Null? }
  }

  /** `a ?? b` */
  function Coalesce(a: Raw, b: Raw): (r: Raw)
    ensures !a.Nullish() ==> r == a
    ensures a.Nullish() ==> r == b
  {
    if a.Nullish() then b else a
  }

  /** `Number(v)`: NaN for `undefined`, 0 for `null`. */
  function NumberOf(v: Raw): Num {
    match v
    case Undefined => NonFin
    case Null => Fin(0.0)
    case Value(n) => n
  }

  /** Something that may stand for a point: a falsy value, an array, or an
      object with the fields `x`, `X`, `y`, `Y`. */
  datatype PointLike = NoValue | ArrayLike(items: seq<Raw>) | ObjectLike(x: Raw, X: Raw, y: Raw, Y: Raw)

  /** `p[k]`: `undefined` past the end. */
  function At(items: seq<Raw>, k: nat): Raw {
    if k < |items| then items[k] else Undefined
  }

  /** The x and y that `toXY` reads: `Number(p[0])`, `Number(p[1])` of an
      array, `Number(p.x ?? p.X)`, `Number(p.y ?? p.Y)` of an object. */
  function XOf(p: PointLike): Num {
    match p
    case NoValue => NonFin
    case ArrayLike(items) => NumberOf(At(items, 0))
    case ObjectLike(x, bigX, _, _) => NumberOf(Coalesce(x, bigX))
  }

  function YOf(p: PointLike): Num {
    match p
    case NoValue => NonFin
    case ArrayLike(items) => NumberOf(At(items, 1))
    case ObjectLike(_, _, y, bigY) => NumberOf(Coalesce(y, bigY))
  }

  /** `toXY(p)`: a point exactly when both coordinates it reads are finite. */
  function ToXY(p: PointLike): (r: Option<Point>)
    ensures r.Some? <==> !p.NoValue? && XOf(p).Fin? && YOf(p).Fin?
    ensures r.Some? ==> r.value == Point(XOf(p).r, YOf(p).r)
  {
    if p.NoValue? then None
    else if p.ArrayLike? then
      var x := NumberOf(At(p.items, 0));
      var y := NumberOf(At(p.items, 1));
      if x.Fin? && y.Fin? then Some(Point(x.r, y.r)) else None
    else
      var x := NumberOf(Coalesce(p.x, p.X));
      var y := NumberOf(Coalesce(p.y, p.Y));
      if x.Fin? && y.Fin? then Some(Point(x.r, y.r)) else None
  }

  /** What `toXY` accepts: a pair of finite numbers as an array; an object
      whose lower-case field wins over the upper-case one; and nothing from
      a falsy value or an array shorter than two. */
  lemma ToXYCases(a: real, b: real, u: Raw, v: Raw, items: seq<Raw>)
    ensures ToXY(ArrayLike([Value(Fin(a)), Value(Fin(b))])) == Some(Point(a, b))
    ensures ToXY(ObjectLike(Value(Fin(a)), u, Value(Fin(b)), v)) == Some(Point(a, b))
    ensures ToXY(ObjectLike(Undefined, Value(Fin(a)), Null, Value(Fin(b)))) == Some(Point(a, b))
    ensures ToXY(ObjectLike(Undefined, Undefined, u, v)).None?
    ensures |items| < 2 ==> ToXY(ArrayLike(items)).None?
    ensures ToXY(NoValue).None?
  {
  }

  /** `a || b` on points read by `toXY`. */
  function OrPoint(a: Option<Point>, b: Option<Point>): Option<Point> {
    if a.Some? then a else b
  }

  // ---------------------------------------------------------------------
  // expandBBox
  // ---------------------------------------------------------------------

  /** `expandBBox(b, x, y)`: a new box that also holds the point; the box
      as it was when a coordinate is not finite. */
  function ExpandBBox(b: Option<Rect>, x: Num, y: Num): (r: Option<Rect>)
    ensures !(x.Fin? && y.Fin?) ==> r == b
    ensures x.Fin? && y.Fin? ==> r.Some? && Contains(r.value, Point(x.r, y.r))
    ensures x.Fin? && y.Fin? && b.None? ==> r == Some(Rect(x.r, y.r, x.r, y.r))
    ensures x.Fin? && y.Fin? && b.Some? ==>
      && r.value.minX <= b.value.minX && r.value.minY <= b.value.minY
      && r.value.maxX >= b.value.maxX && r.value.maxY >= b.value.maxY
      && (r.value.minX == b.value.minX || r.value.minX == x.r)
      && (r.value.minY == b.value.minY || r.value.minY == y.r)
      && (r.value.maxX == b.value.maxX || r.value.maxX == x.r)
      && (r.value.maxY == b.value.maxY || r.value.maxY == y.r)
    ensures r == ExtendBounds(b, NumPoint(x, y))
  {
    if !x.Fin? || !y.Fin? then b
    else if b.None? then Some(Rect(x.r, y.r, x.r, y.r))
    else Some(Rect(Min(b.value.minX, x.r), Min(b.value.minY, y.r), Max(b.value.maxX, x.r), Max(b.value.maxY, y.r)))
  }

  // ---------------------------------------------------------------------
  // Entities
  // ---------------------------------------------------------------------

  /** An entry of a point list: the entry itself, and its `point` and
      `vertex` fields. */
  datatype Item = Item(self: PointLike, point: PointLike, vertex: PointLike)

  /** A parsed entity as the viewer reads it. `blockRefs` holds
      `String(v)` of each of `name`, `block`, `blockName`, `block_id`,
      `blockId`, `blockHandle` in that order (`None` for `null` or
      `undefined`); `rotation` is `Number(e.rotation || 0)` and `radius`
      is `Number(e.radius || 0)`; `visible` and `inPaperSpace` are `None`
      when absent. */
  datatype IEnt = IEnt(
    etype: OptStr,
    visible: Option<bool>, inPaperSpace: Option<bool>,
    handle: OptStr, id: OptStr, dxfHandle: OptStr,
    blockRefs: seq<Option<string>>,
    position: PointLike, insert: PointLike,
    scaleX: Raw, xScale: Raw, scaleY: Raw, yScale: Raw,
    rotation: Num,
    start: PointLike, startPoint: PointLike, start_point: PointLike,
    end: PointLike, endPoint: PointLike, end_point: PointLike,
    vertices: Option<seq<Item>>, points: Option<seq<Item>>,
    polylineVertices: Option<seq<Item>>, controlPoints: Option<seq<Item>>,
    center: PointLike, pointField: PointLike, radius: Num,
    majorAxisEndPoint: PointLike,
    boundaryLoops: Option<seq<Option<seq<Item>>>>)

  /** `getLinePoints(e)`: start and end through their aliases; when either
      is missing, the first two vertices, if there are more than one. */
  function LinePoints(e: IEnt): (r: Option<(Point, Point)>)
    ensures r.Some? && ToXY(e.start).Some? && ToXY(e.end).Some? ==> r.value == (ToXY(e.start).value, ToXY(e.end).value)
    ensures r.None? && e.vertices.Some? && |e.vertices.value| > 1 ==>
      ToXY(e.vertices.value[0].self).None? || ToXY(e.vertices.value[1].self).None?
  {
    var s := OrPoint(OrPoint(ToXY(e.start), ToXY(e.startPoint)), ToXY(e.start_point));
    var t := OrPoint(OrPoint(ToXY(e.end), ToXY(e.endPoint)), ToXY(e.end_point));
    var (s', t') :=
      if (s.None? || t.None?) && e.vertices.Some? && |e.vertices.value| > 1
      then (ToXY(e.vertices.value[0].self), ToXY(e.vertices.value[1].self))
      else (s, t);
    if s'.None? || t'.None? then None else Some((s'.value, t'.value))
  }

  /** `getCenter(e)` */
  function Center(e: IEnt): Option<Point> {
    OrPoint(OrPoint(OrPoint(ToXY(e.center), ToXY(e.position)), ToXY(e.insert)), ToXY(e.pointField))
  }

  /** One vertex: the entry itself, its `point` or its `vertex`. */
  function VertexOf(v: Item): Option<Point> {
    OrPoint(OrPoint(ToXY(v.self), ToXY(v.point)), ToXY(v.vertex))
  }

  /** The vertices that read as points, in order. */
  function VertexList(vs: seq<Item>): (r: seq<Point>)
    ensures |r| <= |vs|
    ensures forall q :: q in r <==> exists i :: 0 <= i < |vs| && VertexOf(vs[i]) == Some(q)
  {
    if vs == [] then []
    else
      var init := vs[..|vs| - 1];
      var r := VertexList(init);
      assert forall i :: 0 <= i < |init| ==> init[i] == vs[i];
      match VertexOf(vs[|vs| - 1])
      case None => r
      case Some(q) => r + [q]
  }

  /** `getVertices(e)`: from `vertices`, else `points`, else
      `polylineVertices`; entries that read as no point are dropped. */
  function Vertices(e: IEnt): seq<Point> {
    var vs := if e.vertices.Some? then e.vertices.value
      else if e.points.Some? then e.points.value
      else e.polylineVertices.GetOr([]);
    VertexList(vs)
  }

  // ---------------------------------------------------------------------
  // resolveBlockKey
  // ---------------------------------------------------------------------

  /** What the viewer knows of a block: its entities and its base point. */
  datatype BlockInfo = BlockInfo(entities: seq<Option<IEnt>>, basePoint: Point)

  /** `blockInfoMap`, in insertion order. The program fills it from the
      entries of an object, so its keys are distinct (`DistinctKeys`); the
      functions below are total and, on a list with a repeated key, let the
      last entry win, as `Map.set` would. */
  type InfoMap = seq<(string, BlockInfo)>

  /** No key is stored twice. */
  predicate DistinctKeys(infos: InfoMap) {
    forall i, j :: 0 <= i < j < |infos| ==> infos[i].0 != infos[j].0
  }

  predicate HasKey(infos: InfoMap, k: string) {
    exists i :: 0 <= i < |infos| && infos[i].0 == k
  }

  /** `blockInfoMap.get(k)`: the last entry stored under `k`. */
  function Lookup(infos: InfoMap, k: string): (r: Option<BlockInfo>)
    ensures r.Some? <==> HasKey(infos, k)
  {
    if infos == [] then None
    else if infos[|infos| - 1].0 == k then Some(infos[|infos| - 1].1)
    else
      var r := Lookup(infos[..|infos| - 1], k);
      assert HasKey(infos, k) <==> HasKey(infos[..|infos| - 1], k) by {
        if HasKey(infos, k) {
          var i :| 0 <= i < |infos| && infos[i].0 == k;
          assert infos[..|infos| - 1][i].0 == k;
        }
      }
      r
  }

  /** The candidates: the references that are there, as trimmed strings. */
  function Candidates(refs: seq<Option<string>>): (r: seq<string>)
    ensures |r| <= |refs|
  {
    if refs == [] then []
    else
      var r := Candidates(refs[..|refs| - 1]);
      match refs[|refs| - 1]
      case None => r
      case Some(s) => r + [Trim(s)]
  }

  /** The first candidate that is a key, as it is. */
  function FirstExact(cands: seq<string>, infos: InfoMap): (r: Option<nat>)
    ensures r.Some? ==>
      && r.value < |cands| && HasKey(infos, cands[r.value])
      && forall j :: 0 <= j < r.value ==> !HasKey(infos, cands[j])
    ensures r.None? ==> forall j :: 0 <= j < |cands| ==> !HasKey(infos, cands[j])
  {
    if cands == [] then None
    else if HasKey(infos, cands[0]) then Some(0)
    else
      var r := FirstExact(cands[1..], infos);
      assert forall j :: 1 <= j < |cands| ==> cands[j] == cands[1..][j - 1];
      if r.None? then None else Some(r.value + 1)
  }

  /** `lowerMap`: each key under its lower-case form; a later key replaces
      an earlier one with the same form. */
  function LowerMap(infos: InfoMap): (lm: map<string, string>)
    ensures forall l :: l in lm ==> HasKey(infos, lm[l]) && ToLower(lm[l]) == l
  {
    if infos == [] then map[]
    else
      var init := infos[..|infos| - 1];
      var lm := LowerMap(init);
      assert forall i :: 0 <= i < |init| ==> init[i] == infos[i];
      var k := infos[|infos| - 1].0;
      lm[ToLower(k) := k]
  }

  /** A lower-case form is in `lowerMap` exactly when some key has it. */
  lemma {:induction false} LowerMapKeys(infos: InfoMap, l: string)
    ensures l in LowerMap(infos) <==> exists i :: 0 <= i < |infos| && ToLower(infos[i].0) == l
  {
    if infos != [] {
      var init := infos[..|infos| - 1];
      LowerMapKeys(init, l);
      assert forall i :: 0 <= i < |init| ==> init[i] == infos[i];
    }
  }

  /** `lowerMap` overwrites: a lower-case form maps to the last key with
      that form. */
  lemma {:induction false} LowerMapLast(infos: InfoMap, l: string) returns (i: nat)
    requires l in LowerMap(infos)
    ensures i < |infos| && infos[i].0 == LowerMap(infos)[l] && ToLower(infos[i].0) == l
    ensures forall j :: i < j < |infos| ==> ToLower(infos[j].0) != l
  {
    var n := |infos| - 1;
    var init := infos[..n];
    var k := infos[n].0;
    assert LowerMap(infos) == LowerMap(init)[ToLower(k) := k];
    if ToLower(k) != l {
      i := LowerMapLast(init, l);
      assert infos[i] == init[i];
      forall j | i < j < |infos| ensures ToLower(infos[j].0) != l {
        if j < n {
          assert infos[j] == init[j];
        }
      }
    } else {
      i := n;
    }
  }

  /** Candidate `c` hits `lowerMap` with a non-empty key. */
  predicate LowerHit(lm: map<string, string>, c: string) {
    ToLower(c) in lm && lm[ToLower(c)] != ""
  }

  /** The case-insensitive search returns the hit of the first candidate
      that hits, candidate `j`, and nothing when none does. */
  lemma {:induction false} FirstLowerHitSpec(cands: seq<string>, lm: map<string, string>) returns (j: nat)
    ensures FirstLowerHit(cands, lm).Some? ==>
              && j < |cands| && LowerHit(lm, cands[j]) && FirstLowerHit(cands, lm).value == lm[ToLower(cands[j])]
              && forall k :: 0 <= k < j ==> !LowerHit(lm, cands[k])
    ensures FirstLowerHit(cands, lm).None? ==> forall k :: 0 <= k < |cands| ==> !LowerHit(lm, cands[k])
  {
    j := 0;
    if cands != [] && !LowerHit(lm, cands[0]) {
      var tail := cands[1..];
      var jt := FirstLowerHitSpec(tail, lm);
      assert FirstLowerHit(cands, lm) == FirstLowerHit(tail, lm);
      forall k | 1 <= k < |cands| ensures cands[k] == tail[k - 1] {
      }
      j := jt + 1;
    }
  }

  /** The first candidate whose lower-case form hits a non-empty key. */
  function FirstLowerHit(cands: seq<string>, lm: map<string, string>): (r: Option<string>)
    ensures r.Some? ==> r.value != "" && exists i :: 0 <= i < |cands| && ToLower(cands[i]) in lm && lm[ToLower(cands[i])] == r.value
  {
    if cands == [] then None
    else
      var l := ToLower(cands[0]);
      if l in lm && lm[l] != "" then Some(lm[l])
      else
        var r := FirstLowerHit(cands[1..], lm);
        assert forall j :: 1 <= j < |cands| ==> cands[j] == cands[1..][j - 1];
        r
  }

  /** The key `resolveBlockKey` returns, `None` for `null`. */
  function ResolveKey(refs: seq<Option<string>>, infos: InfoMap): Option<string> {
    var cands := Candidates(refs);
    match FirstExact(cands, infos)
    case Some(i) => Some(cands[i])
    case None => if cands == [] then None else FirstLowerHit(cands, LowerMap(infos))
  }

  /** The key found is one of the map's; an exact match wins, the earliest
      candidate first; otherwise the key `lowerMap` holds for the first
      candidate that hits it (the last key with that lower-case form), and
      a key equal to some candidate up to case is found whenever there is
      a non-empty one. */
  lemma ResolveKeySpec(refs: seq<Option<string>>, infos: InfoMap)
    ensures var r := ResolveKey(refs, infos); var cands := Candidates(refs);
      && (r.Some? ==> HasKey(infos, r.value))
      && (forall i :: 0 <= i < |cands| && HasKey(infos, cands[i]) ==>
            exists j :: 0 <= j <= i && r == Some(cands[j]) && forall k :: 0 <= k < j ==> !HasKey(infos, cands[k]))
      && ((forall i :: 0 <= i < |cands| ==> !HasKey(infos, cands[i])) ==>
            && (r.Some? ==> r.value != "" && exists i :: 0 <= i < |cands| && ToLower(cands[i]) == ToLower(r.value))
            && (r.Some? ==> exists j :: 0 <= j < |cands| && LowerHit(LowerMap(infos), cands[j])
                                        && r.value == LowerMap(infos)[ToLower(cands[j])]
                                        && forall k :: 0 <= k < j ==> !LowerHit(LowerMap(infos), cands[k]))
            && (r.None? ==> forall j :: 0 <= j < |cands| ==> !LowerHit(LowerMap(infos), cands[j]))
            && ((exists i, k :: 0 <= i < |cands| && 0 <= k < |infos| && infos[k].0 != "" && ToLower(infos[k].0) == ToLower(cands[i]))
                ==> r.Some?))
  {
    var cands := Candidates(refs);
    var r := ResolveKey(refs, infos);
    var lm := LowerMap(infos);
    var first := FirstLowerHitSpec(cands, lm);
    if FirstExact(cands, infos).None? && cands != [] {
      if r.Some? {
        assert r == FirstLowerHit(cands, lm);
        assert first < |cands| && LowerHit(lm, cands[first]);
      }
      if r.Some? {
        var i :| 0 <= i < |cands| && ToLower(cands[i]) in lm && lm[ToLower(cands[i])] == r.value;
        assert ToLower(r.value) == ToLower(cands[i]);
      }
      if exists i, k :: 0 <= i < |cands| && 0 <= k < |infos| && infos[k].0 != "" && ToLower(infos[k].0) == ToLower(cands[i]) {
        var i, k :| 0 <= i < |cands| && 0 <= k < |infos| && infos[k].0 != "" && ToLower(infos[k].0) == ToLower(cands[i]);
        LowerHitFound(cands, infos, i, k);
      }
    }
  }

  /** A candidate whose lower-case form is that of a non-empty key makes
      the case-insensitive search succeed. */
  lemma {:induction false} LowerHitFound(cands: seq<string>, infos: InfoMap, i: nat, k: nat)
    requires i < |cands| && k < |infos| && infos[k].0 != "" && ToLower(infos[k].0) == ToLower(cands[i])
    ensures FirstLowerHit(cands, LowerMap(infos)).Some?
    decreases i
  {
    var lm := LowerMap(infos);
    var l := ToLower(cands[0]);
    if i == 0 {
      LowerMapKeys(infos, l);
      assert l in lm;
      assert |lm[l]| == |ToLower(lm[l])| == |l| == |infos[k].0| > 0;
    } else if !(l in lm && lm[l] != "") {
      assert cands[1..][i - 1] == cands[i];
      LowerHitFound(cands[1..], infos, i - 1, k);
    }
  }

  /** `resolveBlockKey(insert, blockInfoMap)`: the loops as written. */
  method ResolveBlockKey(refs: seq<Option<string>>, infos: InfoMap) returns (r: Option<string>)
    ensures r == ResolveKey(refs, infos)
  {
    var cands := Candidates(refs);
    var e := FindExact(cands, infos);
    if e.Some? {
      return Some(cands[e.value]);
    }
    if |cands| == 0 {
      return None;
    }
    var lm := BuildLowerMap(infos);
    r := FindLowerHit(cands, lm);
  }

  /** The first loop: the first candidate that is a key as it is. */
  method FindExact(cands: seq<string>, infos: InfoMap) returns (e: Option<nat>)
    ensures e == FirstExact(cands, infos)
  {
    var i := 0;
    while i < |cands|
      invariant 0 <= i <= |cands|
      invariant forall j :: 0 <= j < i ==> !HasKey(infos, cands[j])
    {
      if HasKey(infos, cands[i]) {
        return Some(i);
      }
      i := i + 1;
    }
    return None;
  }

  /** The second loop: `lowerMap` filled key by key. */
  method BuildLowerMap(infos: InfoMap) returns (lm: map<string, string>)
    ensures lm == LowerMap(infos)
  {
    lm := map[];
    for k := 0 to |infos|
      invariant lm == LowerMap(infos[..k])
    {
      assert infos[..k + 1][..k] == infos[..k];
      lm := lm[ToLower(infos[k].0) := infos[k].0];
    }
    assert infos[..|infos|] == infos;
  }

  /** The third loop: the first candidate whose lower-case form hits a
      non-empty key. */
  method FindLowerHit(cands: seq<string>, lm: map<string, string>) returns (r: Option<string>)
    ensures r == FirstLowerHit(cands, lm)
  {
    var c := 0;
    while c < |cands|
      invariant 0 <= c <= |cands|
      invariant FirstLowerHit(cands, lm) == FirstLowerHit(cands[c..], lm)
    {
      assert cands[c..][1..] == cands[c + 1..];
      var l := ToLower(cands[c]);
      if l in lm && lm[l] != "" {
        return Some(lm[l]);
      }
      c := c + 1;
    }
    return None;
  }

  // ---------------------------------------------------------------------
  // calculateBBox
  // ---------------------------------------------------------------------

  /** The entity types the measuring tells apart (compared as written). */
  datatype IKind = IInsert | ILine | IPoly | ICircle | IEllipse | ISpline | ISolid | IHatch | IOther

  function IKindOf(t: string): IKind {
    if t == "INSERT" then IInsert
    else if t == "LINE" then ILine
    else if t == "LWPOLYLINE" || t == "POLYLINE" then IPoly
    else if t == "CIRCLE" || t == "ARC" then ICircle
    else if t == "ELLIPSE" then IEllipse
    else if t == "SPLINE" then ISpline
    else if t == "SOLID" || t == "TRACE" then ISolid
    else if t == "HATCH" then IHatch
    else IOther
  }

  /** `addPoint(null)` adds nothing; it is carried as a non-finite point,
      which `expandBBox` skips all the same. */
  const NullPoint := NumPoint(NonFin, NonFin)

  function PointOrNull(p: Option<Point>): NumPoint {
    if p.Some? then Lift(p.value) else NullPoint
  }

  /** `toXY` of each entry, in order. */
  function ItemPoints(items: seq<Item>): (r: seq<NumPoint>)
    ensures |r| == |items| && forall i :: 0 <= i < |items| ==> r[i] == PointOrNull(ToXY(items[i].self))
  {
    seq(|items|, i requires 0 <= i < |items| => PointOrNull(ToXY(items[i].self)))
  }

  /** The points of every boundary loop that has vertices. */
  function LoopPoints(loops: seq<Option<seq<Item>>>): seq<NumPoint> {
    if loops == [] then []
    else
      LoopPoints(loops[..|loops| - 1])
        + (match loops[|loops| - 1] case None => [] case Some(vs) => ItemPoints(vs))
  }

  /** `c - r` and `c + r` with a radius that may not be finite. */
  function Offset(c: real, r: Num, sign: real): Num {
    if r.Fin? then Fin(c + sign * r.r) else NonFin
  }

  /** The points the measuring adds for an entity that is not an INSERT.
      `hypot(x, y)` stands for `Math.sqrt(x * x + y * y)`. */
  function PrimitivePoints(e: IEnt, hypot: Hypot): seq<NumPoint> {
    match IKindOf(e.etype.OrEmpty())
    case ILine =>
      var pts := LinePoints(e);
      if pts.None? then [] else [Lift(pts.value.0), Lift(pts.value.1)]
    case IPoly => LiftAll(Vertices(e))
    case ICircle =>
      var c := Center(e);
      if c.None? then []
      else [NumPoint(Offset(c.value.x, e.radius, -1.0), Offset(c.value.y, e.radius, -1.0)),
            NumPoint(Offset(c.value.x, e.radius, 1.0), Offset(c.value.y, e.radius, 1.0))]
    case IEllipse =>
      var c := Center(e);
      var mj := ToXY(e.majorAxisEndPoint);
      if c.None? || mj.None? then []
      else
        var r := hypot(mj.value.x, mj.value.y);
        [Lift(Point(c.value.x - r, c.value.y - r)), Lift(Point(c.value.x + r, c.value.y + r))]
    case ISpline =>
      ItemPoints(if e.controlPoints.Some? then e.controlPoints.value else e.points.GetOr([]))
    case ISolid =>
      ItemPoints(if e.points.Some? then e.points.value else e.vertices.GetOr([]))
    case IHatch => LoopPoints(e.boundaryLoops.GetOr([]))
    case _ => []
  }

  /** `e.scaleX ?? e.xScale ?? 1` as a number. */
  function ScaleX(e: IEnt): Num { NumberOf(Coalesce(Coalesce(e.scaleX, e.xScale), Value(Fin(1.0)))) }
  function ScaleY(e: IEnt): Num { NumberOf(Coalesce(Coalesce(e.scaleY, e.yScale), Value(Fin(1.0)))) }

  /** The insertion point: `toXY(position) || toXY(insert) || {0, 0}`. */
  function InsertPos(e: IEnt): Point {
    OrPoint(ToXY(e.position), ToXY(e.insert)).GetOr(Point(0.0, 0.0))
  }

  /** One corner of the child box: less the base point, scaled, moved to
      the insertion point. A scale that is not finite makes both
      coordinates NaN. */
  function Place(cx: real, cy: real, bp: Point, sx: Num, sy: Num, pos: Point): NumPoint {
    if sx.NonFin? || sy.NonFin? then NullPoint
    else Lift(Point((cx - bp.x) * sx.r + pos.x, (cy - bp.y) * sy.r + pos.y))
  }

  /** The four corners of the child box, in the order they are added. */
  function Corners(child: Rect, bp: Point, e: IEnt): seq<NumPoint> {
    var sx, sy, pos := ScaleX(e), ScaleY(e), InsertPos(e);
    [Place(child.minX, child.minY, bp, sx, sy, pos), Place(child.minX, child.maxY, bp, sx, sy, pos),
     Place(child.maxX, child.minY, bp, sx, sy, pos), Place(child.maxX, child.maxY, bp, sx, sy, pos)]
  }

  /** A key `resolveBlockKey` returns that the measuring follows. */
  function ChildKey(e: IEnt, infos: InfoMap, visited: set<string>): Option<string> {
    var k := ResolveKey(e.blockRefs, infos);
    if k.None? || k.value == "" || k.value in visited then None else k
  }

  /** The points `calculateBBox(entities, blockInfoMap, depth, visited)`
      adds, in order: none for an empty list or a depth of zero or less. */
  function ListPoints(ents: seq<Option<IEnt>>, infos: InfoMap, depth: int, visited: set<string>, hypot: Hypot): seq<NumPoint>
    decreases if depth < 0 then 0 else depth, 1, 0
  {
    if ents == [] || depth <= 0 then [] else PrefixPoints(ents, infos, depth, visited, hypot)
  }

  /** The points of the loop over the list. */
  function PrefixPoints(ents: seq<Option<IEnt>>, infos: InfoMap, depth: int, visited: set<string>, hypot: Hypot): seq<NumPoint>
    requires depth > 0
    decreases depth, 0, |ents|
  {
    if ents == [] then []
    else
      PrefixPoints(ents[..|ents| - 1], infos, depth, visited, hypot)
        + EntityPointsOf(ents[|ents| - 1], infos, depth, visited, hypot)
  }

  /** The points of one entity. A missing, untyped or invisible entity
      adds none; an INSERT adds the corners of its block's box, placed,
      unless its key is missing, already being measured, or names an empty
      block, or the block has no box. */
  function EntityPointsOf(e: Option<IEnt>, infos: InfoMap, depth: int, visited: set<string>, hypot: Hypot): seq<NumPoint>
    requires depth > 0
    decreases depth, 0, 0
  {
    if e.None? || !e.value.etype.Truthy() || e.value.visible == Some(false) then []
    else if IKindOf(e.value.etype.s) != IInsert then PrimitivePoints(e.value, hypot)
    else
      match ChildKey(e.value, infos, visited)
      case None => []
      case Some(k) =>
        match Lookup(infos, k)
        case None => []
        case Some(info) =>
          if info.entities == [] then []
          else
            match BoundsOf(ListPoints(info.entities, infos, depth - 1, visited + {k}, hypot))
            case None => []
            case Some(child) => Corners(child, info.basePoint, e.value)
  }

  /** An INSERT whose key is already being measured adds nothing: the
      measuring never enters a block inside itself. */
  lemma VisitedNotEntered(e: IEnt, infos: InfoMap, depth: int, visited: set<string>, hypot: Hypot)
    requires depth > 0 && IKindOf(e.etype.OrEmpty()) == IInsert
    requires ResolveKey(e.blockRefs, infos).Some? && ResolveKey(e.blockRefs, infos).value in visited
    ensures EntityPointsOf(Some(e), infos, depth, visited, hypot) == []
  {
  }

  /** The key set `visitedBlocks`, shared by the whole recursion. */
  class VisitedBlocks {
    var keys: set<string>

    constructor ()
      ensures keys == {}
    {
      keys := {};
    }

    predicate Has(k: string)
      reads this
    {
      k in keys
    }

    method Add(k: string)
      modifies this
      ensures keys == old(keys) + {k}
    {
      keys := keys + {k};
    }

    method Delete(k: string)
      modifies this
      ensures keys == old(keys) - {k}
    {
      keys := keys - {k};
    }
  }

  /** `addPoint` on each point in turn. */
  method AddPoints(b: Option<Rect>, ghost seen: seq<NumPoint>, pts: seq<NumPoint>) returns (r: Option<Rect>)
    requires b == BoundsOf(seen)
    ensures r == BoundsOf(seen + pts)
  {
    r := b;
    var j := 0;
    assert seen + pts[..0] == seen;
    while j < |pts|
      invariant 0 <= j <= |pts|
      invariant r == BoundsOf(seen + pts[..j])
    {
      Flatten.BoundsOfSnoc(seen + pts[..j], pts[j]);
      assert seen + pts[..j + 1] == (seen + pts[..j]) + [pts[j]];
      r := ExpandBBox(r, pts[j].x, pts[j].y);
      j := j + 1;
    }
    assert pts[..j] == pts;
  }

  /** `calculateBBox(entities, blockInfoMap, depth, visitedBlocks)`: the box
      of the points above, and `visitedBlocks` as it was. */
  method CalculateBBox(ents: seq<Option<IEnt>>, infos: InfoMap, depth: int, visited: VisitedBlocks, hypot: Hypot)
    returns (b: Option<Rect>)
    modifies visited
    ensures visited.keys == old(visited.keys)
    ensures b == BoundsOf(ListPoints(ents, infos, depth, old(visited.keys), hypot))
    decreases if depth < 0 then 0 else depth, 1
  {
    if ents == [] || depth <= 0 {
      return None;
    }
    b := None;
    ghost var v := visited.keys;
    var i := 0;
    while i < |ents|
      invariant 0 <= i <= |ents|
      invariant visited.keys == v
      invariant b == BoundsOf(PrefixPoints(ents[..i], infos, depth, v, hypot))
    {
      assert ents[..i + 1][..i] == ents[..i];
      var pts := EntityPoints(ents[i], infos, depth, visited, hypot);
      b := AddPoints(b, PrefixPoints(ents[..i], infos, depth, v, hypot), pts);
      i := i + 1;
    }
    assert ents[..i] == ents;
  }

  /** The body of the loop for one entity. */
  method EntityPoints(e: Option<IEnt>, infos: InfoMap, depth: int, visited: VisitedBlocks, hypot: Hypot)
    returns (pts: seq<NumPoint>)
    requires depth > 0
    modifies visited
    ensures visited.keys == old(visited.keys)
    ensures pts == EntityPointsOf(e, infos, depth, old(visited.keys), hypot)
    decreases depth, 0
  {
    if e.None? || !e.value.etype.Truthy() || e.value.visible == Some(false) {
      return [];
    }
    var ent := e.value;
    if IKindOf(ent.etype.s) != IInsert {
      return PrimitivePoints(ent, hypot);
    }
    var childKey := ResolveBlockKey(ent.blockRefs, infos);
    if childKey.None? || childKey.value == "" || visited.Has(childKey.value) {
      return [];
    }
    var k := childKey.value;
    var info := Lookup(infos, k);
    if info.None? || info.value.entities == [] {
      return [];
    }
    ghost var v := visited.keys;
    visited.Add(k);
    var childBBox := CalculateBBox(info.value.entities, infos, depth - 1, visited, hypot);
    visited.Delete(k);
    assert visited.keys == v;
    if childBBox.None? {
      return [];
    }
    pts := Corners(childBBox.value, info.value.basePoint, ent);
  }

  /** The box holds every finite point the measuring adds, and reaches each
      of its bounds at one of them. */
  lemma CalculateBBoxSpec(ents: seq<Option<IEnt>>, infos: InfoMap, depth: int, visited: set<string>, hypot: Hypot)
    ensures var pts := ListPoints(ents, infos, depth, visited, hypot);
      && (ents == [] || depth <= 0 ==> BoundsOf(pts).None?)
      && (BoundsOf(pts).Some? ==> forall i :: 0 <= i < |pts| && IsFinitePoint(pts[i]) ==> Contains(BoundsOf(pts).value, Coords(pts[i])))
      && (BoundsOf(pts).None? <==> forall i :: 0 <= i < |pts| ==> !IsFinitePoint(pts[i]))
  {
    var pts := ListPoints(ents, infos, depth, visited, hypot);
    BoundsOfNone(pts);
    if BoundsOf(pts).Some? {
      BoundsOfSpec(pts);
    }
  }

  // ---------------------------------------------------------------------
  // injectAttribEntitiesIntoDxf
  // ---------------------------------------------------------------------

  /** `getInsertHandle(e)` of this viewer: `handle || id || dxf.handle`. */
  function HandleOf(e: IEnt): OptStr {
    OrElse(OrElse(e.handle, e.id), e.dxfHandle)
  }

  /** The stored ATTRIBs of an entry that is an INSERT with a truthy
      handle; none otherwise. */
  function StoredAttribs(e: Option<IEnt>, attribs: AttribMap): seq<AttribRec> {
    if e.None? || e.value.etype != Str("INSERT") then []
    else
      var h := HandleOf(e.value);
      if h.Truthy() && h.s in attribs then attribs[h.s] else []
  }

  /** An ATTRIB entity made from a scanned attribute. */
  datatype Added = Added(
    text: string, tag: string, position: Point, textHeight: real, rotation: Num,
    inPaperSpace: Option<bool>, visible: Option<bool>)

  /** An entry of the new entity list: one of the parsed entities or an
      added ATTRIB. */
  datatype DxfEntry = Parsed(e: Option<IEnt>) | AddedAttrib(a: Added)

  /** The ATTRIB entity for attribute `a` of INSERT `e`: its own position,
      height and rotation where it has them, else the INSERT's position,
      a height of 10 and the INSERT's rotation. */
  function AddedFor(a: AttribRec, e: IEnt): (r: Added)
    ensures r.position == (if a.position.Some? then a.position.value else InsertPos(e))
    ensures r.textHeight == (if a.textHeight.Some? then a.textHeight.value else 10.0)
    ensures r.rotation == (if a.rotation.Some? then Fin(a.rotation.value) else e.rotation)
    ensures r.text == a.text.OrEmpty() && r.tag == a.tag.OrEmpty()
    ensures r.inPaperSpace == e.inPaperSpace && r.visible == e.visible
  {
    Added(a.text.OrEmpty(), a.tag.OrEmpty(),
      OrPoint(a.position, Some(InsertPos(e))).value,
      a.textHeight.GetOr(10.0),
      if a.rotation.Some? then Fin(a.rotation.value) else e.rotation,
      e.inPaperSpace, e.visible)
  }

  /** The ATTRIB entities for one entry: one per stored attribute. */
  function AddedForEntry(e: Option<IEnt>, attribs: AttribMap): seq<Added> {
    var list := StoredAttribs(e, attribs);
    seq(|list|, k requires 0 <= k < |list| => AddedFor(list[k], e.value))
  }

  lemma AddedForEntrySpec(e: Option<IEnt>, attribs: AttribMap)
    ensures |AddedForEntry(e, attribs)| == |StoredAttribs(e, attribs)|
    ensures forall k :: 0 <= k < |StoredAttribs(e, attribs)| ==>
      AddedForEntry(e, attribs)[k] == AddedFor(StoredAttribs(e, attribs)[k], e.value)
  {
  }

  /** The ATTRIB entities of the list, entry by entry. */
  function Extras(ents: seq<Option<IEnt>>, attribs: AttribMap): seq<Added> {
    if ents == [] then []
    else Extras(ents[..|ents| - 1], attribs) + AddedForEntry(ents[|ents| - 1], attribs)
  }

  /** The number of stored attributes of the list's INSERTs. */
  function StoredCount(ents: seq<Option<IEnt>>, attribs: AttribMap): nat {
    if ents == [] then 0
    else StoredCount(ents[..|ents| - 1], attribs) + |StoredAttribs(ents[|ents| - 1], attribs)|
  }

  /** One ATTRIB entity per stored attribute, and none for a list without
      INSERTs that have some. */
  lemma {:induction false} ExtrasCount(ents: seq<Option<IEnt>>, attribs: AttribMap)
    ensures |Extras(ents, attribs)| == StoredCount(ents, attribs)
    ensures (forall i :: 0 <= i < |ents| ==> StoredAttribs(ents[i], attribs) == []) ==> Extras(ents, attribs) == []
  {
    if ents != [] {
      var init := ents[..|ents| - 1];
      ExtrasCount(init, attribs);
      assert forall i :: 0 <= i < |init| ==> init[i] == ents[i];
    }
  }

  /** The ATTRIB entities of two lists one after the other are those of
      each list one after the other. */
  lemma {:induction false} ExtrasAppend(a: seq<Option<IEnt>>, b: seq<Option<IEnt>>, attribs: AttribMap)
    ensures Extras(a + b, attribs) == Extras(a, attribs) + Extras(b, attribs)
    decreases |b|
  {
    if b == [] {
      assert a + b == a;
    } else {
      var n := |b| - 1;
      var init, e := b[..n], b[n];
      ExtrasAppend(a, init, attribs);
      assert b == init + [e];
      assert a + b == (a + init) + [e];
      ExtrasSnoc(a + init, e, attribs);
      ExtrasSnoc(init, e, attribs);
      AppendAssoc(Extras(a, attribs), Extras(init, attribs), AddedForEntry(e, attribs));
    }
  }

  lemma ExtrasSnoc(xs: seq<Option<IEnt>>, e: Option<IEnt>, attribs: AttribMap)
    ensures Extras(xs + [e], attribs) == Extras(xs, attribs) + AddedForEntry(e, attribs)
  {
    var ys := xs + [e];
    assert ys[..|ys| - 1] == xs;
  }

  function AsParsed(ents: seq<Option<IEnt>>): (r: seq<DxfEntry>)
    ensures |r| == |ents| && forall i :: 0 <= i < |ents| ==> r[i] == Parsed(ents[i])
  {
    seq(|ents|, i requires 0 <= i < |ents| => Parsed(ents[i]))
  }

  function AsAdded(xs: seq<Added>): (r: seq<DxfEntry>)
    ensures |r| == |xs| && forall i :: 0 <= i < |xs| ==> r[i] == AddedAttrib(xs[i])
  {
    seq(|xs|, i requires 0 <= i < |xs| => AddedAttrib(xs[i]))
  }

  /** The inner loop: one ATTRIB entity per attribute of the list. */
  method AttribEntities(e: IEnt, attrs: seq<AttribRec>) returns (xs: seq<Added>)
    ensures |xs| == |attrs| && forall k :: 0 <= k < |attrs| ==> xs[k] == AddedFor(attrs[k], e)
  {
    xs := [];
    var k := 0;
    while k < |attrs|
      invariant 0 <= k <= |attrs|
      invariant |xs| == k && forall j :: 0 <= j < k ==> xs[j] == AddedFor(attrs[j], e)
    {
      xs := xs + [AddedFor(attrs[k], e)];
      k := k + 1;
    }
  }

  /** `injectAttribEntitiesIntoDxf(dxf, attribMap)` on the entity list: the
      originals, unchanged, followed by the added ATTRIBs; a missing list
      stays missing. */
  method InjectAttribEntities(ents: Option<seq<Option<IEnt>>>, attribs: AttribMap) returns (r: Option<seq<DxfEntry>>)
    ensures ents.None? ==> r.None?
    ensures ents.Some? ==> r == Some(AsParsed(ents.value) + AsAdded(Extras(ents.value, attribs)))
  {
    if ents.None? {
      return None;
    }
    if ents.value == [] {
      assert AsParsed([]) + AsAdded(Extras([], attribs)) == [];
      return Some([]);
    }
    var list := ents.value;
    var extra: seq<Added> := [];
    var i := 0;
    while i < |list|
      invariant 0 <= i <= |list|
      invariant extra == Extras(list[..i], attribs)
    {
      assert list[..i + 1][..i] == list[..i];
      var e := list[i];
      if e.Some? && e.value.etype == Str("INSERT") {
        var handle := HandleOf(e.value);
        if handle.Truthy() && handle.s in attribs && |attribs[handle.s]| > 0 {
          var xs := AttribEntities(e.value, attribs[handle.s]);
          AddedForEntrySpec(e, attribs);
          assert xs == AddedForEntry(e, attribs);
          extra := extra + xs;
        }
      }
      i := i + 1;
    }
    assert list[..i] == list;
    r := Some(AsParsed(list) + AsAdded(extra));
  }

  // ---------------------------------------------------------------------
  // The unique INSERTs
  // ---------------------------------------------------------------------

  /** An entry of the list of INSERTs. */
  datatype InsertEntry = InsertEntry(actualName: string, blockKey: string)

  /** The text of the first attribute tagged "A" with a truthy text. */
  function NameAttrib(attrs: seq<AttribRec>): (r: Option<string>)
    ensures r.Some? ==> r.value != "" && exists i :: 0 <= i < |attrs| && attrs[i].tag == Str("A") && attrs[i].text == Str(r.value)
  {
    if attrs == [] then None
    else if attrs[0].tag == Str("A") && attrs[0].text.Truthy() then Some(attrs[0].text.s)
    else
      var r := NameAttrib(attrs[1..]);
      assert forall i :: 1 <= i < |attrs| ==> attrs[i] == attrs[1..][i - 1];
      r
  }

  /** The entry an entity contributes: an INSERT whose block key resolves
      (to a non-empty key) is listed under its "A" attribute's text, or
      under the key when it has none. */
  function EntryOf(e: Option<IEnt>, attribs: AttribMap, infos: InfoMap): (r: Option<InsertEntry>)
    ensures r.Some? ==>
      && e.Some? && e.value.etype == Str("INSERT")
      && Some(r.value.blockKey) == ResolveKey(e.value.blockRefs, infos) && r.value.blockKey != ""
      && r.value.actualName != ""
  {
    if e.None? || e.value.etype != Str("INSERT") then None
    else
      var h := HandleOf(e.value);
      var name := if h.Truthy() && h.s in attribs then NameAttrib(attribs[h.s]) else None;
      var key := ResolveKey(e.value.blockRefs, infos);
      if key.None? || key.value == "" then None
      else Some(InsertEntry(name.GetOr(key.value), key.value))
  }

  /** `uniqueInsertMap`: the names in first-insertion order, and the last
      entry set under each. */
  datatype Unique = Unique(order: seq<string>, entries: map<string, InsertEntry>)

  /** `map.set(k, v)`: a new name goes to the end; a name already there
      keeps its place and takes the new entry. */
  function SetEntry(u: Unique, v: InsertEntry): Unique {
    if v.actualName in u.entries then Unique(u.order, u.entries[v.actualName := v])
    else Unique(u.order + [v.actualName], u.entries[v.actualName := v])
  }

  /** The map after `set` with each entry of the list that is there. */
  function Collect(vs: seq<Option<InsertEntry>>): Unique {
    if vs == [] then Unique([], map[])
    else
      var u := Collect(vs[..|vs| - 1]);
      match vs[|vs| - 1]
      case None => u
      case Some(v) => SetEntry(u, v)
  }

  /** The entry of each entity of the list. */
  function EntriesOf(ents: seq<Option<IEnt>>, attribs: AttribMap, infos: InfoMap): (r: seq<Option<InsertEntry>>)
    ensures |r| == |ents| && forall i :: 0 <= i < |ents| ==> r[i] == EntryOf(ents[i], attribs, infos)
  {
    seq(|ents|, i requires 0 <= i < |ents| => EntryOf(ents[i], attribs, infos))
  }

  /** Each name once, in the order, under its own name. */
  ghost predicate WellFormed(u: Unique) {
    && (forall i, j :: 0 <= i < j < |u.order| ==> u.order[i] != u.order[j])
    && (forall k :: k in u.entries <==> k in u.order)
    && (forall k :: k in u.entries ==> u.entries[k].actualName == k)
  }

  /** `Array.from(uniqueInsertMap.values())` */
  function Values(u: Unique): (r: seq<InsertEntry>)
    requires WellFormed(u)
    ensures |r| == |u.order| && forall i :: 0 <= i < |r| ==> r[i] == u.entries[u.order[i]]
  {
    seq(|u.order|, i requires 0 <= i < |u.order| => u.entries[u.order[i]])
  }

  /** `set` keeps the map well formed. */
  lemma SetEntryWellFormed(u: Unique, v: InsertEntry)
    requires WellFormed(u)
    ensures WellFormed(SetEntry(u, v))
  {
    var u' := SetEntry(u, v);
    if v.actualName !in u.entries {
      forall i, j | 0 <= i < j < |u'.order| ensures u'.order[i] != u'.order[j] {
        if j == |u.order| {
          assert u'.order[i] == u.order[i];
          assert u.order[i] in u.entries;
        }
      }
    }
  }

  lemma {:induction false} CollectWellFormed(vs: seq<Option<InsertEntry>>)
    ensures WellFormed(Collect(vs))
  {
    if vs != [] {
      CollectWellFormed(vs[..|vs| - 1]);
      if vs[|vs| - 1].Some? {
        SetEntryWellFormed(Collect(vs[..|vs| - 1]), vs[|vs| - 1].value);
      }
    }
  }

  /** A name is in the map exactly when some entry of the list has it. */
  lemma {:induction false} CollectKeys(vs: seq<Option<InsertEntry>>, k: string)
    ensures k in Collect(vs).entries <==> exists i :: 0 <= i < |vs| && vs[i].Some? && vs[i].value.actualName == k
  {
    if vs != [] {
      var init := vs[..|vs| - 1];
      CollectKeys(init, k);
      assert forall i :: 0 <= i < |init| ==> init[i] == vs[i];
    }
  }

  /** The entry under a name is the last entry of the list with it. */
  lemma {:induction false} CollectLast(vs: seq<Option<InsertEntry>>, i: nat)
    requires i < |vs| && vs[i].Some?
    requires forall j :: i < j < |vs| && vs[j].Some? ==> vs[j].value.actualName != vs[i].value.actualName
    ensures vs[i].value.actualName in Collect(vs).entries
    ensures Collect(vs).entries[vs[i].value.actualName] == vs[i].value
  {
    var n := |vs| - 1;
    if i < n {
      var init := vs[..n];
      assert init[i] == vs[i];
      forall j | i < j < n && init[j].Some? ensures init[j].value.actualName != init[i].value.actualName {
        assert init[j] == vs[j];
      }
      CollectLast(init, i);
    }
  }

  /** The map after the loop has seen the list. */
  function UniqueOf(ents: seq<Option<IEnt>>, attribs: AttribMap, infos: InfoMap): Unique {
    Collect(EntriesOf(ents, attribs, infos))
  }

  /** The loop over the parsed entities that fills `uniqueInsertMap`. */
  method UniqueInserts(ents: seq<Option<IEnt>>, attribs: AttribMap, infos: InfoMap) returns (out: seq<InsertEntry>)
    ensures WellFormed(UniqueOf(ents, attribs, infos)) && out == Values(UniqueOf(ents, attribs, infos))
    ensures forall i, j :: 0 <= i < j < |out| ==> out[i].actualName != out[j].actualName
  {
    ghost var vs := EntriesOf(ents, attribs, infos);
    var order: seq<string> := [];
    var entries: map<string, InsertEntry> := map[];
    var i := 0;
    while i < |ents|
      invariant 0 <= i <= |ents|
      invariant Unique(order, entries) == Collect(vs[..i])
    {
      assert vs[..i + 1][..i] == vs[..i];
      var e := ents[i];
      if e.Some? && e.value.etype == Str("INSERT") {
        var handle := HandleOf(e.value);
        var actualName: Option<string> := None;
        if handle.Truthy() && handle.s in attribs {
          actualName := NameAttrib(attribs[handle.s]);
        }
        var resolvedKey := ResolveBlockKey(e.value.blockRefs, infos);
        if resolvedKey.Some? && resolvedKey.value != "" {
          var name := actualName.GetOr(resolvedKey.value);
          if name !in entries {
            order := order + [name];
          }
          entries := entries[name := InsertEntry(name, resolvedKey.value)];
        }
      }
      i := i + 1;
    }
    assert vs[..i] == vs;
    CollectWellFormed(vs);
    out := Values(Unique(order, entries));
    forall i, j | 0 <= i < j < |out| ensures out[i].actualName != out[j].actualName {
      assert out[i].actualName == order[i];
      assert out[j].actualName == order[j];
    }
  }
}
