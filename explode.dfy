/**
 * How the selectInsert viewer prepares a parsed drawing before it is drawn:
 * the entities it skips, the block index, the ATTRIBs attached to every
 * INSERT, the recursive explosion of INSERTs (with their row and column
 * arrays) into leaf entities placed by a world matrix and carrying the
 * attributes of the INSERTs around them, and the bounds of the result.
 */
module Explode {
  import opened Wrappers
  import opened Js
  import opened Strs
  import opened Geometry
  import opened Attrib
  import Flatten

  // ---------------------------------------------------------------------
  // Entities
  // ---------------------------------------------------------------------

  /** A parsed DXF entity as these functions read it. A point field that is
      missing or not finite holds a non-finite coordinate (`asPoint` makes
      `null` of both). `handle`, `id`, `dxfHandle` and `objectId` are
      `handle`, `id`, `dxf.handle` and `objectId`; `solid` holds, for each
      of the four corners k, the aliases `pk`, `pointk` and the k-th
      `...Corner`; `pointAt` is `position || point || ent` of a POINT. */
  datatype Ent = Ent(
    etype: OptStr,
    inPaperSpace: bool,
    handle: OptStr, id: OptStr, dxfHandle: OptStr, objectId: OptStr,
    name: OptStr,
    position: NumPoint, insert: NumPoint, insertionPoint: NumPoint,
    startPoint: NumPoint, alignPoint: NumPoint,
    xScale: Num, yScale: Num, rotation: Num,
    columnCount: Num, rowCount: Num, columnSpacing: Num, rowSpacing: Num,
    attributes: Option<seq<AttribRec>>,
    start: NumPoint, end: NumPoint, vertices: seq<NumPoint>,
    center: NumPoint, radius: Num,
    solid: (seq<NumPoint>, seq<NumPoint>, seq<NumPoint>, seq<NumPoint>),
    pointAt: NumPoint)

  /** An entry of an entity list; `None` is a `null` entry. */
  type Slot = Option<Ent>

  /** The entity types these functions tell apart, by upper-cased name. */
  datatype Kind =
    | LineKind | PolylineKind | CircleKind | TextKind | AttdefKind | AttribKind
    | SolidKind | PointKind | InsertKind | ViewportKind | OtherKind

  function KindOf(t: string): Kind {
    var u := ToUpper(t);
    if u == "LINE" then LineKind
    else if u == "LWPOLYLINE" || u == "POLYLINE" then PolylineKind
    else if u == "CIRCLE" || u == "ARC" then CircleKind
    else if u == "TEXT" || u == "MTEXT" then TextKind
    else if u == "ATTDEF" then AttdefKind
    else if u == "ATTRIB" then AttribKind
    else if u == "SOLID" then SolidKind
    else if u == "POINT" then PointKind
    else if u == "INSERT" then InsertKind
    else if u == "VIEWPORT" then ViewportKind
    else OtherKind
  }

  /** `shouldSkipEntity`: a missing entity or type, an entity in paper space
      and a VIEWPORT are skipped. An entity is kept exactly when it is there,
      has a non-empty type, lies in model space and its upper-cased type is
      not "VIEWPORT". */
  function ShouldSkipEntity(e: Slot): (skip: bool)
    ensures !skip <==> && e.Some? && e.value.etype.Str? && e.value.etype.s != ""
                       && !e.value.inPaperSpace && ToUpper(e.value.etype.s) != "VIEWPORT"
  {
    || e.None?
    || !e.value.etype.Truthy()
    || e.value.inPaperSpace
    || KindOf(e.value.etype.s) == ViewportKind
  }

  /** A slot that is kept and is an INSERT. */
  predicate IsInsert(e: Slot) {
    !ShouldSkipEntity(e) && KindOf(e.value.etype.s) == InsertKind
  }

  /** `getInsertHandle`: the first truthy of `handle`, `id`, `dxf.handle`,
      `objectId`, else `null`. */
  function GetInsertHandle(e: Ent): (h: OptStr)
    ensures h.Truthy() <==> e.handle.Truthy() || e.id.Truthy() || e.dxfHandle.Truthy() || e.objectId.Truthy()
    ensures !h.Truthy() ==> h == NoStr
    ensures e.handle.Truthy() ==> h == e.handle
    ensures !e.handle.Truthy() && e.id.Truthy() ==> h == e.id
  {
    var h := OrElse(OrElse(OrElse(e.handle, e.id), e.dxfHandle), e.objectId);
    if h.Truthy() then h else NoStr
  }

  // ---------------------------------------------------------------------
  // The block index
  // ---------------------------------------------------------------------

  /** A block: its name and its entity list (`None` when it has no array). */
  datatype Block = Block(name: OptStr, entities: Option<seq<Slot>>)

  /** `dxf.blocks`: absent, an array, or an object read in key order. */
  datatype BlockTable = NoBlocks | BlockArray(items: seq<Option<Block>>) | BlockObject(entries: seq<(string, Option<Block>)>)

  type Index = map<string, Block>

  /** Where one item of the table goes: under its own truthy name; for an
      object entry without one but with entities, under its key (as
      `{ name: k, ...item }`, a missing name standing for the key). */
  function IndexEntry(key: OptStr, item: Option<Block>): Option<(string, Block)> {
    if item.None? then None
    else if item.value.name.Truthy() then Some((item.value.name.s, item.value))
    else if key.Str? && item.value.entities.Some? then
      Some((key.s, if item.value.name.Str? then item.value else item.value.(name := key)))
    else None
  }

  /** The table's items with their keys (array items have none). */
  function Entries(t: BlockTable): (r: seq<(OptStr, Option<Block>)>)
    ensures t.NoBlocks? ==> r == []
    ensures t.BlockArray? ==> |r| == |t.items| && forall i :: 0 <= i < |r| ==> r[i] == (NoStr, t.items[i])
    ensures t.BlockObject? ==> |r| == |t.entries| && forall i :: 0 <= i < |r| ==> r[i] == (Str(t.entries[i].0), t.entries[i].1)
  {
    match t
    case NoBlocks => []
    case BlockArray(items) => seq(|items|, i requires 0 <= i < |items| => (NoStr, items[i]))
    case BlockObject(es) => seq(|es|, i requires 0 <= i < |es| => (Str(es[i].0), es[i].1))
  }

  /** The map after `map.set` for the first `n` items. */
  function IndexOf(es: seq<(OptStr, Option<Block>)>): Index
    decreases |es|
  {
    if es == [] then map[]
    else
      var m := IndexOf(es[..|es| - 1]);
      match IndexEntry(es[|es| - 1].0, es[|es| - 1].1)
      case None => m
      case Some(kv) => m[kv.0 := kv.1]
  }

  /** The key item `i` goes under, if any. */
  function KeyAt(es: seq<(OptStr, Option<Block>)>, i: nat): Option<string>
    requires i < |es|
  {
    match IndexEntry(es[i].0, es[i].1)
    case None => None
    case Some(kv) => Some(kv.0)
  }

  /** A name is in the index exactly when some item goes under it. */
  lemma {:induction false} IndexOfKeys(es: seq<(OptStr, Option<Block>)>, k: string)
    ensures k in IndexOf(es) <==> exists i :: 0 <= i < |es| && KeyAt(es, i) == Some(k)
    decreases |es|
  {
    if es != [] {
      var n := |es| - 1;
      var init := es[..n];
      IndexOfKeys(init, k);
      assert forall i :: 0 <= i < n ==> KeyAt(init, i) == KeyAt(es, i);
      if KeyAt(es, n) == Some(k) {
        assert k in IndexOf(es);
      } else {
        assert k in IndexOf(es) <==> k in IndexOf(init);
      }
    }
  }

  /** The name holds the last item that goes under it. */
  lemma {:induction false} IndexOfLast(es: seq<(OptStr, Option<Block>)>, k: string, i: nat)
    requires i < |es| && KeyAt(es, i) == Some(k)
    requires forall j :: i < j < |es| ==> KeyAt(es, j) != Some(k)
    ensures k in IndexOf(es) && IndexEntry(es[i].0, es[i].1) == Some((k, IndexOf(es)[k]))
    decreases |es|
  {
    var n := |es| - 1;
    if i < n {
      var init := es[..n];
      assert KeyAt(init, i) == KeyAt(es, i);
      forall j | i < j < n
        ensures KeyAt(init, j) != Some(k)
      {
        assert KeyAt(init, j) == KeyAt(es, j);
      }
      IndexOfLast(init, k, i);
      assert KeyAt(es, n) != Some(k);
    }
  }

  /** `buildBlockIndex(dxf)` */
  method BuildBlockIndex(t: BlockTable) returns (index: Index)
    ensures index == IndexOf(Entries(t))
  {
    var es := Entries(t);
    index := map[];
    var i := 0;
    while i < |es|
      invariant 0 <= i <= |es|
      invariant index == IndexOf(es[..i])
    {
      assert es[..i + 1][..i] == es[..i];
      var kv := IndexEntry(es[i].0, es[i].1);
      if kv.Some? {
        index := index[kv.value.0 := kv.value.1];
      }
      i := i + 1;
    }
    assert es[..i] == es;
  }

  // ---------------------------------------------------------------------
  // Attaching the ATTRIBs to the INSERTs
  // ---------------------------------------------------------------------

  /** The list stored for a handle, `[]` for none. */
  function AttribsFor(h: OptStr, attribs: AttribMap): seq<AttribRec> {
    if h.Truthy() && h.s in attribs then attribs[h.s] else []
  }

  /** One entity after `attachOnList`: a kept INSERT gets the list of its
      handle; every other slot is left as it is. */
  function Attached(e: Slot, attribs: AttribMap): (r: Slot)
    ensures !IsInsert(e) ==> r == e
    ensures IsInsert(e) ==>
      && r.Some? && r.value.attributes == Some(AttribsFor(GetInsertHandle(e.value), attribs))
      && r.value.(attributes := e.value.attributes) == e.value
  {
    if IsInsert(e) then Some(e.value.(attributes := Some(AttribsFor(GetInsertHandle(e.value), attribs)))) else e
  }

  function AttachedAll(list: seq<Slot>, attribs: AttribMap): (r: seq<Slot>)
    ensures |r| == |list| && forall i :: 0 <= i < |list| ==> r[i] == Attached(list[i], attribs)
  {
    seq(|list|, i requires 0 <= i < |list| => Attached(list[i], attribs))
  }

  /** `attachOnList(list)`: every entity of the list in turn. */
  method AttachOnList(list: Option<seq<Slot>>, attribs: AttribMap) returns (r: Option<seq<Slot>>)
    ensures list.None? ==> r == list
    ensures list.Some? ==> r == Some(AttachedAll(list.value, attribs))
  {
    if list.None? {
      return list;
    }
    var ents := list.value;
    var out := [];
    var i := 0;
    while i < |ents|
      invariant 0 <= i <= |ents|
      invariant out == AttachedAll(ents[..i], attribs)
    {
      out := out + [Attached(ents[i], attribs)];
      i := i + 1;
    }
    assert ents[..i] == ents;
    r := Some(out);
  }

  /** A block of the index after its list has been attached. */
  function AttachedBlock(b: Block, attribs: AttribMap): Block {
    if b.entities.Some? then b.(entities := Some(AttachedAll(b.entities.value, attribs))) else b
  }

  /** The parsed drawing: its top-level entities and its blocks. */
  datatype Dxf = Dxf(entities: Option<seq<Slot>>, blocks: BlockTable)

  /** `attachAttribToAllInserts(dxf, attribMap)`. The entities it writes to
      are those of the top-level list and those of the blocks in the index,
      which is also where the explosion reads them: the result is that list
      and that index after the writes. */
  method AttachAttribToAllInserts(dxf: Dxf, attribs: AttribMap) returns (ents: Option<seq<Slot>>, index: Index)
    ensures index.Keys == IndexOf(Entries(dxf.blocks)).Keys
    ensures forall k :: k in index ==> index[k] == AttachedBlock(IndexOf(Entries(dxf.blocks))[k], attribs)
    ensures dxf.entities.None? ==> ents.None?
    ensures dxf.entities.Some? ==> ents == Some(AttachedAll(dxf.entities.value, attribs))
  {
    var blocks := BuildBlockIndex(dxf.blocks);
    ents := AttachOnList(dxf.entities, attribs);
    index := map[];
    var todo := blocks.Keys;
    while todo != {}
      invariant todo <= blocks.Keys
      invariant index.Keys == blocks.Keys - todo
      invariant forall k :: k in index ==> index[k] == AttachedBlock(blocks[k], attribs)
      decreases todo
    {
      var k :| k in todo;
      var b := blocks[k];
      var list := AttachOnList(b.entities, attribs);
      index := index[k := b.(entities := list)];
      todo := todo - {k};
    }
  }

  // ---------------------------------------------------------------------
  // Attributes of an INSERT
  // ---------------------------------------------------------------------

  /** Tag to text, as the explosion hands them down. */
  type Attrs = map<string, OptStr>

  /** `currentAttrs[a.tag] = a.text` for every attribute with a truthy tag. */
  function CurrentAttrs(attrs: seq<AttribRec>): Attrs
    decreases |attrs|
  {
    if attrs == [] then map[]
    else
      var m := CurrentAttrs(attrs[..|attrs| - 1]);
      var a := attrs[|attrs| - 1];
      if a.tag.Truthy() then m[a.tag.s := a.text] else m
  }

  /** A tag is present exactly when some attribute carries it (untagged
      attributes are ignored), and its text is that of the last attribute
      with the tag. */
  lemma {:induction false} CurrentAttrsSpec(attrs: seq<AttribRec>, k: string)
    ensures k in CurrentAttrs(attrs) <==> k != "" && exists i :: 0 <= i < |attrs| && attrs[i].tag == Str(k)
    ensures k in CurrentAttrs(attrs) ==> exists i :: (0 <= i < |attrs| && attrs[i].tag == Str(k)
      && CurrentAttrs(attrs)[k] == attrs[i].text
      && forall j :: i < j < |attrs| ==> attrs[j].tag != Str(k))
    decreases |attrs|
  {
    if attrs != [] {
      var n := |attrs| - 1;
      var init := attrs[..n];
      CurrentAttrsSpec(init, k);
      assert forall i :: 0 <= i < n ==> init[i] == attrs[i];
    }
  }

  /** The attributes an INSERT contributes. */
  function AttrsOf(e: Ent): Attrs {
    if e.attributes.Some? then CurrentAttrs(e.attributes.value) else map[]
  }

  /** The loop that collects them. */
  method CollectAttrs(e: Ent) returns (cur: Attrs)
    ensures cur == AttrsOf(e)
  {
    cur := map[];
    if e.attributes.Some? {
      var attrs := e.attributes.value;
      var i := 0;
      while i < |attrs|
        invariant 0 <= i <= |attrs|
        invariant cur == CurrentAttrs(attrs[..i])
      {
        assert attrs[..i + 1][..i] == attrs[..i];
        if attrs[i].tag.Truthy() {
          cur := cur[attrs[i].tag.s := attrs[i].text];
        }
        i := i + 1;
      }
      assert attrs[..i] == attrs;
    }
  }

  // ---------------------------------------------------------------------
  // Matrices
  // ---------------------------------------------------------------------

  /** `matRotate(deg * PI / 180)`, supplied by the caller; a zero angle is
      the identity. */
  type Rotate = f: real -> Mat | f(0.0) == MatIdentity() witness (deg: real) => MatIdentity()

  /** `asPoint(p)` */
  function AsPoint(p: NumPoint): (r: Option<Point>)
    ensures r.Some? <==> IsFinitePoint(p)
    ensures r.Some? ==> r.value == Coords(p)
  {
    if IsFinitePoint(p) then Some(Coords(p)) else None
  }

  /** `asPoint(a) || asPoint(b) || ...`: the first finite point of the list. */
  function FirstPoint(ps: seq<NumPoint>): (r: Option<Point>)
    ensures r.Some? <==> exists i :: 0 <= i < |ps| && IsFinitePoint(ps[i])
    ensures r.Some? ==> exists i :: (0 <= i < |ps| && IsFinitePoint(ps[i]) && r.value == Coords(ps[i])
      && forall j :: 0 <= j < i ==> !IsFinitePoint(ps[j]))
  {
    if ps == [] then None
    else if IsFinitePoint(ps[0]) then Some(Coords(ps[0]))
    else
      var r := FirstPoint(ps[1..]);
      assert forall i :: 1 <= i < |ps| ==> ps[i] == ps[1..][i - 1];
      r
  }

  /** `applyMatToPoint(m, p)`: `null` unless the point is finite. */
  function ApplyMatToPoint(m: Mat, p: NumPoint): (r: Option<Point>)
    ensures r.Some? <==> IsFinitePoint(p)
  {
    match AsPoint(p)
    case None => None
    case Some(q) => Some(ApplyMat(m, q))
  }

  /** Placing a point by a product places it by the factors in turn. */
  lemma ApplyMatToPointComposes(m1: Mat, m2: Mat, p: NumPoint)
    requires IsFinitePoint(p)
    ensures ApplyMatToPoint(MatMul(m1, m2), p).value == ApplyMat(m1, ApplyMatToPoint(m2, p).value)
  {
    MatMulComposes(m1, m2, Coords(p));
  }

  /** The insertion point: `asPoint(position) || asPoint(insert) || asPoint(insertionPoint)`. */
  function InsertPos(e: Ent): Option<Point> {
    FirstPoint([e.position, e.insert, e.insertionPoint])
  }

  /** `getInsertMatrix(ent)`: translate(pos) * (rotate * scale), `null`
      without a finite insertion point; scales default to 1, the angle to 0. */
  function GetInsertMatrix(e: Ent, rot: Rotate): (r: Option<Mat>)
    ensures r.Some? <==> InsertPos(e).Some?
  {
    match InsertPos(e)
    case None => None
    case Some(pos) =>
      var sx := e.xScale.FiniteOr(1.0);
      var sy := e.yScale.FiniteOr(1.0);
      var deg := e.rotation.FiniteOr(0.0);
      Some(MatMul(MatTranslate(pos.x, pos.y), MatMul(rot(deg), MatScale(sx, sy))))
  }

  /** The number of turns of `for (let k = 0; k < n; k++)`: the least
      natural number not below `n`. */
  function Count(n: real): (k: nat)
    ensures (k as real) >= n
    ensures k > 0 ==> ((k - 1) as real) < n
  {
    if n <= 0.0 then 0 else if n.Floor as real == n then n.Floor else n.Floor + 1
  }

  // ---------------------------------------------------------------------
  // The explosion
  // ---------------------------------------------------------------------

  /** The matrix of an INSERT, as the explosion asks for it: the drawing's
      own is `GetInsertMatrix` with its rotation. */
  type InsertMat = Ent -> Option<Mat>

  /** A leaf entity with its world matrix and the attributes handed down. */
  datatype Leaf = Leaf(ent: Ent, worldMat: Mat, attr: Attrs)

  /** The names of indexed blocks not yet on the stack: every expansion
      takes one away, which is why the explosion ends. */
  function Remaining(index: Index, stack: seq<string>): nat {
    |set k | k in index && k !in stack|
  }

  lemma RemainingShrinks(index: Index, stack: seq<string>, name: string)
    requires name in index && name !in stack
    ensures Remaining(index, stack + [name]) < Remaining(index, stack)
  {
    var a := set k | k in index && k !in stack;
    var b := set k | k in index && k !in stack + [name];
    assert a == b + {name};
  }

  /** Everything about one expandable INSERT that its copies share. */
  datatype Placement = Placement(
    block: seq<Slot>, base: Mat, colSp: real, rowSp: real,
    stack: seq<string>, attrs: Attrs)

  /** The placement of an INSERT, when it is expanded at all: it needs a
      matrix, a block with an entity list, and a name not on the stack. */
  function PlacementOf(e: Ent, index: Index, stack: seq<string>, attrs: Attrs, insMat: InsertMat): (r: Option<Placement>)
    ensures r.Some? ==>
      && e.name.Str? && e.name.s in index && e.name.s !in stack
      && r.value.stack == stack + [e.name.s]
      && Some(r.value.block) == index[e.name.s].entities
      && r.value.attrs == attrs + AttrsOf(e)
  {
    match insMat(e)
    case None => None
    case Some(base) =>
      if e.name.NoStr? || e.name.s !in index || index[e.name.s].entities.None? || e.name.s in stack then None
      else
        Some(Placement(index[e.name.s].entities.value, base,
          e.columnSpacing.FiniteOr(0.0), e.rowSpacing.FiniteOr(0.0),
          stack + [e.name.s], attrs + AttrsOf(e)))
  }

  /** The world matrix of the copy in row `r` and column `c` of an INSERT
      placed by `base` under a parent placed by `parent`:
      parent * (base * translate(c * colSp, r * rowSp)). */
  function CopyMat(parent: Mat, base: Mat, colSp: real, rowSp: real, r: nat, c: nat): Mat {
    MatMul(parent, MatMul(base, MatTranslate(c as real * colSp, r as real * rowSp)))
  }

  /** `explodeEntities(entities, dxf, parentMat, stack, parentAttrs)` */
  function ExplodeList(ents: seq<Slot>, index: Index, m: Mat, stack: seq<string>, attrs: Attrs, insMat: InsertMat): seq<Leaf>
    decreases Remaining(index, stack), |ents|, 0, 0
  {
    if ents == [] then []
    else
      ExplodeList(ents[..|ents| - 1], index, m, stack, attrs, insMat)
        + ExplodeOne(ents[|ents| - 1], index, m, stack, attrs, insMat)
  }

  /** The leaves one entry of the list contributes. */
  function ExplodeOne(e: Slot, index: Index, m: Mat, stack: seq<string>, attrs: Attrs, insMat: InsertMat): seq<Leaf>
    decreases Remaining(index, stack), 0, 3, 0
  {
    if ShouldSkipEntity(e) then []
    else if KindOf(e.value.etype.s) == InsertKind then ExplodeInsert(e.value, index, m, stack, attrs, insMat)
    else [Leaf(e.value, m, attrs)]
  }

  /** The leaves of an INSERT: rows x columns copies of its block. */
  function ExplodeInsert(e: Ent, index: Index, m: Mat, stack: seq<string>, attrs: Attrs, insMat: InsertMat): seq<Leaf>
    decreases Remaining(index, stack), 0, 2, 0
  {
    match PlacementOf(e, index, stack, attrs, insMat)
    case None => []
    case Some(p) =>
      RemainingShrinks(index, stack, e.name.s);
      GridRows(p, index, m, insMat, Count(e.columnCount.FiniteOr(1.0)), Count(e.rowCount.FiniteOr(1.0)))
  }

  /** The copies of rows `0 .. r - 1`, row by row. */
  function GridRows(p: Placement, index: Index, m: Mat, insMat: InsertMat, cols: nat, r: nat): seq<Leaf>
    decreases Remaining(index, p.stack) + 1, 0, 1, r
  {
    if r == 0 then [] else GridRows(p, index, m, insMat, cols, r - 1) + GridCols(p, index, m, insMat, r - 1, cols)
  }

  /** The copies of columns `0 .. c - 1` of row `r`. */
  function GridCols(p: Placement, index: Index, m: Mat, insMat: InsertMat, r: nat, c: nat): seq<Leaf>
    decreases Remaining(index, p.stack) + 1, 0, 0, c
  {
    if c == 0 then []
    else GridCols(p, index, m, insMat, r, c - 1) + ExplodeList(p.block, index, CopyMat(m, p.base, p.colSp, p.rowSp, r, c - 1), p.stack, p.attrs, insMat)
  }

  // ---------------------------------------------------------------------
  // What the explosion produces
  // ---------------------------------------------------------------------

  /** The entity is one of the list or of an indexed block. */
  predicate FromDrawing(e: Ent, ents: seq<Slot>, index: Index) {
    Some(e) in ents || exists k :: k in index && index[k].entities.Some? && Some(e) in index[k].entities.value
  }

  /** Every leaf is a kept entity that is not an INSERT, it comes from the
      list or from an indexed block, and it carries at least the tags handed
      down to the list. */
  predicate GoodLeaf(l: Leaf, ents: seq<Slot>, index: Index, attrs: Attrs) {
    && !ShouldSkipEntity(Some(l.ent)) && KindOf(l.ent.etype.s) != InsertKind
    && FromDrawing(l.ent, ents, index)
    && attrs.Keys <= l.attr.Keys
  }

  lemma {:induction false} ExplodeListLeaves(ents: seq<Slot>, index: Index, m: Mat, stack: seq<string>, attrs: Attrs, insMat: InsertMat)
    ensures forall l :: l in ExplodeList(ents, index, m, stack, attrs, insMat) ==> GoodLeaf(l, ents, index, attrs)
    decreases Remaining(index, stack), |ents|, 0, 0
  {
    if ents != [] {
      var n := |ents| - 1;
      ExplodeListLeaves(ents[..n], index, m, stack, attrs, insMat);
      ExplodeOneLeaves(ents[n], index, m, stack, attrs, insMat);
      forall l | l in ExplodeList(ents, index, m, stack, attrs, insMat)
        ensures GoodLeaf(l, ents, index, attrs)
      {
        if l in ExplodeList(ents[..n], index, m, stack, attrs, insMat) {
          assert GoodLeaf(l, ents[..n], index, attrs);
          if Some(l.ent) in ents[..n] {
            var i :| 0 <= i < n && ents[..n][i] == Some(l.ent);
            assert ents[i] == Some(l.ent);
          }
        } else {
          assert GoodLeaf(l, [ents[n]], index, attrs);
        }
      }
    }
  }

  lemma {:induction false} ExplodeOneLeaves(e: Slot, index: Index, m: Mat, stack: seq<string>, attrs: Attrs, insMat: InsertMat)
    ensures forall l :: l in ExplodeOne(e, index, m, stack, attrs, insMat) ==> GoodLeaf(l, [e], index, attrs)
    decreases Remaining(index, stack), 0, 3, 0
  {
    if !ShouldSkipEntity(e) && KindOf(e.value.etype.s) == InsertKind {
      ExplodeInsertLeaves(e.value, index, m, stack, attrs, insMat);
    }
  }

  lemma {:induction false} ExplodeInsertLeaves(e: Ent, index: Index, m: Mat, stack: seq<string>, attrs: Attrs, insMat: InsertMat)
    ensures forall l :: l in ExplodeInsert(e, index, m, stack, attrs, insMat) ==> GoodLeaf(l, [], index, attrs + AttrsOf(e))
    decreases Remaining(index, stack), 0, 2, 0
  {
    match PlacementOf(e, index, stack, attrs, insMat)
    case None =>
    case Some(p) =>
      RemainingShrinks(index, stack, e.name.s);
      assert index[e.name.s].entities == Some(p.block);
      GridRowsLeaves(p, index, m, insMat, Count(e.columnCount.FiniteOr(1.0)), Count(e.rowCount.FiniteOr(1.0)));
  }

  lemma {:induction false} GridRowsLeaves(p: Placement, index: Index, m: Mat, insMat: InsertMat, cols: nat, r: nat)
    requires exists k :: k in index && index[k].entities == Some(p.block)
    ensures forall l :: l in GridRows(p, index, m, insMat, cols, r) ==> GoodLeaf(l, [], index, p.attrs)
    decreases Remaining(index, p.stack) + 1, 0, 1, r
  {
    if r > 0 {
      GridRowsLeaves(p, index, m, insMat, cols, r - 1);
      GridColsLeaves(p, index, m, insMat, r - 1, cols);
    }
  }

  lemma {:induction false} GridColsLeaves(p: Placement, index: Index, m: Mat, insMat: InsertMat, r: nat, c: nat)
    requires exists k :: k in index && index[k].entities == Some(p.block)
    ensures forall l :: l in GridCols(p, index, m, insMat, r, c) ==> GoodLeaf(l, [], index, p.attrs)
    decreases Remaining(index, p.stack) + 1, 0, 0, c
  {
    if c > 0 {
      GridColsLeaves(p, index, m, insMat, r, c - 1);
      ExplodeListLeaves(p.block, index, CopyMat(m, p.base, p.colSp, p.rowSp, r, c - 1), p.stack, p.attrs, insMat);
      var k :| k in index && index[k].entities == Some(p.block);
      forall l | l in ExplodeList(p.block, index, CopyMat(m, p.base, p.colSp, p.rowSp, r, c - 1), p.stack, p.attrs, insMat)
        ensures GoodLeaf(l, [], index, p.attrs)
      {
        assert GoodLeaf(l, p.block, index, p.attrs);
      }
    }
  }

  // ---------------------------------------------------------------------
  // How many leaves
  // ---------------------------------------------------------------------

  /** The number of leaves does not depend on the matrix or on the tags
      handed down: only the entities, the index and the stack decide it. */
  lemma {:induction false} ExplodeListSize(ents: seq<Slot>, index: Index, m1: Mat, m2: Mat, stack: seq<string>, a1: Attrs, a2: Attrs, insMat: InsertMat)
    ensures |ExplodeList(ents, index, m1, stack, a1, insMat)| == |ExplodeList(ents, index, m2, stack, a2, insMat)|
    decreases Remaining(index, stack), |ents|, 0, 0
  {
    if ents != [] {
      var n := |ents| - 1;
      ExplodeListSize(ents[..n], index, m1, m2, stack, a1, a2, insMat);
      ExplodeOneSize(ents[n], index, m1, m2, stack, a1, a2, insMat);
    }
  }

  lemma {:induction false} ExplodeOneSize(e: Slot, index: Index, m1: Mat, m2: Mat, stack: seq<string>, a1: Attrs, a2: Attrs, insMat: InsertMat)
    ensures |ExplodeOne(e, index, m1, stack, a1, insMat)| == |ExplodeOne(e, index, m2, stack, a2, insMat)|
    decreases Remaining(index, stack), 0, 3, 0
  {
    if !ShouldSkipEntity(e) && KindOf(e.value.etype.s) == InsertKind {
      ExplodeInsertSize(e.value, index, m1, m2, stack, a1, a2, insMat);
    }
  }

  lemma {:induction false} ExplodeInsertSize(e: Ent, index: Index, m1: Mat, m2: Mat, stack: seq<string>, a1: Attrs, a2: Attrs, insMat: InsertMat)
    ensures |ExplodeInsert(e, index, m1, stack, a1, insMat)| == |ExplodeInsert(e, index, m2, stack, a2, insMat)|
    decreases Remaining(index, stack), 0, 2, 0
  {
    var o1, o2 := PlacementOf(e, index, stack, a1, insMat), PlacementOf(e, index, stack, a2, insMat);
    if o1.Some? {
      RemainingShrinks(index, stack, e.name.s);
      GridRowsSize(o1.value, o2.value, index, m1, m2, insMat,
        Count(e.columnCount.FiniteOr(1.0)), Count(e.rowCount.FiniteOr(1.0)));
    }
  }

  lemma {:induction false} GridRowsSize(p1: Placement, p2: Placement, index: Index, m1: Mat, m2: Mat, insMat: InsertMat, cols: nat, r: nat)
    requires p2 == p1.(attrs := p2.attrs)
    ensures |GridRows(p1, index, m1, insMat, cols, r)| == |GridRows(p2, index, m2, insMat, cols, r)|
    decreases Remaining(index, p1.stack) + 1, 0, 1, r
  {
    if r > 0 {
      GridRowsSize(p1, p2, index, m1, m2, insMat, cols, r - 1);
      GridColsSize(p1, p2, index, m1, m2, insMat, r - 1, cols);
    }
  }

  lemma {:induction false} GridColsSize(p1: Placement, p2: Placement, index: Index, m1: Mat, m2: Mat, insMat: InsertMat, r: nat, c: nat)
    requires p2 == p1.(attrs := p2.attrs)
    ensures |GridCols(p1, index, m1, insMat, r, c)| == |GridCols(p2, index, m2, insMat, r, c)|
    decreases Remaining(index, p1.stack) + 1, 0, 0, c
  {
    if c > 0 {
      GridColsSize(p1, p2, index, m1, m2, insMat, r, c - 1);
      ExplodeListSize(p1.block, index, CopyMat(m1, p1.base, p1.colSp, p1.rowSp, r, c - 1),
        CopyMat(m2, p2.base, p2.colSp, p2.rowSp, r, c - 1), p1.stack, p1.attrs, p2.attrs, insMat);
    }
  }

  /** The leaves of one copy of the block, placed at the origin. */
  function CopySize(p: Placement, index: Index, insMat: InsertMat): nat {
    |ExplodeList(p.block, index, MatIdentity(), p.stack, p.attrs, insMat)|
  }

  lemma MulSucc(a: nat, b: nat)
    ensures (a + 1) * b == a * b + b
  {
  }

  /** `c` columns hold `c` copies. */
  lemma {:induction false} GridColsCount(p: Placement, index: Index, m: Mat, insMat: InsertMat, r: nat, c: nat)
    ensures |GridCols(p, index, m, insMat, r, c)| == c * CopySize(p, index, insMat)
  {
    if c > 0 {
      GridColsCount(p, index, m, insMat, r, c - 1);
      ExplodeListSize(p.block, index, CopyMat(m, p.base, p.colSp, p.rowSp, r, c - 1), MatIdentity(), p.stack, p.attrs, p.attrs, insMat);
      MulSucc(c - 1, CopySize(p, index, insMat));
    }
  }

  /** `r` rows of `cols` columns hold `r * cols` copies. */
  lemma {:induction false} GridRowsCount(p: Placement, index: Index, m: Mat, insMat: InsertMat, cols: nat, r: nat)
    ensures |GridRows(p, index, m, insMat, cols, r)| == r * (cols * CopySize(p, index, insMat))
  {
    if r > 0 {
      GridRowsCount(p, index, m, insMat, cols, r - 1);
      GridColsCount(p, index, m, insMat, r - 1, cols);
      MulSucc(r - 1, cols * CopySize(p, index, insMat));
    }
  }

  /** An INSERT that is expanded yields rows x columns copies of its block
      (the counts defaulting to 1); one that is not (no matrix, no block
      list, or its name already on the stack) yields nothing. */
  lemma ExplodeInsertCount(e: Ent, index: Index, m: Mat, stack: seq<string>, attrs: Attrs, insMat: InsertMat)
    ensures PlacementOf(e, index, stack, attrs, insMat).None? ==> ExplodeInsert(e, index, m, stack, attrs, insMat) == []
    ensures e.name.Str? && e.name.s in stack ==> ExplodeInsert(e, index, m, stack, attrs, insMat) == []
    ensures PlacementOf(e, index, stack, attrs, insMat).Some? ==>
      |ExplodeInsert(e, index, m, stack, attrs, insMat)|
      == Count(e.rowCount.FiniteOr(1.0)) * (Count(e.columnCount.FiniteOr(1.0))
         * CopySize(PlacementOf(e, index, stack, attrs, insMat).value, index, insMat))
  {
    var o := PlacementOf(e, index, stack, attrs, insMat);
    if o.Some? {
      GridRowsCount(o.value, index, m, insMat, Count(e.columnCount.FiniteOr(1.0)), Count(e.rowCount.FiniteOr(1.0)));
    }
  }

  // ---------------------------------------------------------------------
  // The recursion as written
  // ---------------------------------------------------------------------

  /** `explodeEntities(entities, dxf, parentMat, stack, parentAttrs)`: the
      block index is passed in rather than rebuilt at every level. */
  method ExplodeEntities(ents: seq<Slot>, index: Index, m: Mat, stack: seq<string>, attrs: Attrs, insMat: InsertMat)
    returns (out: seq<Leaf>)
    ensures out == ExplodeList(ents, index, m, stack, attrs, insMat)
    decreases Remaining(index, stack)
  {
    out := [];
    var i := 0;
    while i < |ents|
      invariant 0 <= i <= |ents|
      invariant out == ExplodeList(ents[..i], index, m, stack, attrs, insMat)
    {
      assert ents[..i + 1][..i] == ents[..i];
      var ent := ents[i];
      if !ShouldSkipEntity(ent) {
        if KindOf(ent.value.etype.s) == InsertKind {
          var more := ExplodeInsertAt(ent.value, index, m, stack, attrs, insMat);
          out := out + more;
        } else {
          out := out + [Leaf(ent.value, m, attrs)];
        }
      }
      i := i + 1;
    }
    assert ents[..i] == ents;
  }

  /** The INSERT branch of the loop: the row and column loops around the
      recursive call. */
  method ExplodeInsertAt(e: Ent, index: Index, m: Mat, stack: seq<string>, attrs: Attrs, insMat: InsertMat)
    returns (out: seq<Leaf>)
    ensures out == ExplodeInsert(e, index, m, stack, attrs, insMat)
    decreases Remaining(index, stack), 2
  {
    out := [];
    var currentAttrs := CollectAttrs(e);
    var mergedAttrs := attrs + currentAttrs;
    var mInsBase := insMat(e);
    if mInsBase.None? || e.name.NoStr? {
      return;
    }
    var blockName := e.name.s;
    if blockName !in index || index[blockName].entities.None? || blockName in stack {
      return;
    }
    var block := index[blockName].entities.value;
    var cols := e.columnCount.FiniteOr(1.0);
    var rows := e.rowCount.FiniteOr(1.0);
    var colSp := e.columnSpacing.FiniteOr(0.0);
    var rowSp := e.rowSpacing.FiniteOr(0.0);
    var p := Placement(block, mInsBase.value, colSp, rowSp, stack + [blockName], mergedAttrs);
    assert PlacementOf(e, index, stack, attrs, insMat) == Some(p);
    RemainingShrinks(index, stack, blockName);
    var r := 0;
    while (r as real) < rows
      invariant r <= Count(rows)
      invariant out == GridRows(p, index, m, insMat, Count(cols), r)
    {
      var row := ExplodeRow(p, index, m, insMat, cols, r);
      out := out + row;
      r := r + 1;
    }
  }

  /** The column loop of one row: a copy of the block for each column. */
  method ExplodeRow(p: Placement, index: Index, m: Mat, insMat: InsertMat, cols: real, r: nat)
    returns (out: seq<Leaf>)
    ensures out == GridCols(p, index, m, insMat, r, Count(cols))
    decreases Remaining(index, p.stack) + 1, 0
  {
    out := [];
    var c := 0;
    while (c as real) < cols
      invariant c <= Count(cols)
      invariant out == GridCols(p, index, m, insMat, r, c)
    {
      var worldMat := CopyMat(m, p.base, p.colSp, p.rowSp, r, c);
      var sub := ExplodeEntities(p.block, index, worldMat, p.stack, p.attrs, insMat);
      out := out + sub;
      c := c + 1;
    }
  }

  // ---------------------------------------------------------------------
  // Bounds of the exploded drawing
  // ---------------------------------------------------------------------

  /** `applyMatToPoint(m, p)` on a point that is already finite or `null`. */
  function ApplyOpt(m: Mat, p: Option<Point>): (r: Option<Point>)
    ensures r.Some? <==> p.Some?
  {
    match p
    case None => None
    case Some(q) => Some(ApplyMat(m, q))
  }

  /** `getTextInsert2`: position, startPoint, insert, insertionPoint, alignPoint. */
  function TextInsert(e: Ent): Option<Point> {
    FirstPoint([e.position, e.startPoint, e.insert, e.insertionPoint, e.alignPoint])
  }

  /** `getAttdefInsert`: startPoint, position, insert, insertionPoint. */
  function AttdefInsert(e: Ent): Option<Point> {
    FirstPoint([e.startPoint, e.position, e.insert, e.insertionPoint])
  }

  /** The points of a list that are there, in order (`filter(Boolean)`). */
  function Present(ps: seq<Option<Point>>): (r: seq<Point>)
    ensures |r| <= |ps|
    ensures forall q :: q in r <==> Some(q) in ps
  {
    if ps == [] then []
    else
      var init := ps[..|ps| - 1];
      var r := Present(init);
      assert forall o :: o in ps <==> o in init || o == ps[|ps| - 1];
      match ps[|ps| - 1]
      case None => r
      case Some(q) => r + [q]
  }

  lemma {:induction false} PresentAppend(a: seq<Option<Point>>, b: seq<Option<Point>>)
    ensures Present(a + b) == Present(a) + Present(b)
    decreases |b|
  {
    if b == [] {
      assert a + b == a;
    } else {
      var n := |b| - 1;
      PresentAppend(a, b[..n]);
      assert (a + b)[..|a + b| - 1] == a + b[..n];
      assert (a + b)[|a + b| - 1] == b[n];
    }
  }

  /** `getSolidPoints`: for each corner the first finite alias; `null`
      unless at least three corners have one. */
  function SolidPoints(e: Ent): (r: Option<seq<Point>>)
    ensures r.Some? ==> 3 <= |r.value| <= 4
  {
    var pts := Present([FirstPoint(e.solid.0), FirstPoint(e.solid.1), FirstPoint(e.solid.2), FirstPoint(e.solid.3)]);
    if |pts| >= 3 then Some(pts) else None
  }

  /** The points `computeBoundsFromDxf` widens its box by for one leaf, in
      order (a `null` leaves the box as it is). A circle or arc counts its
      centre plus and minus the radius scaled by the larger column length of
      the matrix. */
  function LeafPoints(l: Leaf, hypot: Hypot): seq<Option<Point>> {
    var e, w := l.ent, l.worldMat;
    match KindOf(e.etype.OrEmpty())
    case LineKind => [ApplyMatToPoint(w, e.start), ApplyMatToPoint(w, e.end)]
    case PolylineKind => seq(|e.vertices|, i requires 0 <= i < |e.vertices| => ApplyMatToPoint(w, e.vertices[i]))
    case CircleKind =>
      var c := ApplyMatToPoint(w, e.center);
      if c.None? || e.radius.NonFin? then []
      else
        var rr := e.radius.r * Max(hypot(w.a, w.b), hypot(w.c, w.d));
        [Some(Point(c.value.x - rr, c.value.y - rr)), Some(Point(c.value.x + rr, c.value.y + rr))]
    case TextKind => [ApplyOpt(w, TextInsert(e))]
    case AttdefKind => [ApplyOpt(w, AttdefInsert(e))]
    case AttribKind => [ApplyMatToPoint(w, e.position)]
    case SolidKind =>
      var pts := SolidPoints(e);
      if pts.None? then []
      else seq(|pts.value|, i requires 0 <= i < |pts.value| => Some(ApplyMat(w, pts.value[i])))
    case PointKind => [ApplyMatToPoint(w, e.pointAt)]
    case _ => []
  }

  /** The points of all the leaves, leaf by leaf. */
  function AllLeafPoints(leaves: seq<Leaf>, hypot: Hypot): seq<Option<Point>> {
    if leaves == [] then []
    else AllLeafPoints(leaves[..|leaves| - 1], hypot) + LeafPoints(leaves[|leaves| - 1], hypot)
  }

  /** The final step: `{0, 0, 1, 1}` when no point was seen, and a width or
      height of zero widened to one. */
  function FinishBounds(b: Option<Rect>): Rect {
    match b
    case None => Rect(0.0, 0.0, 1.0, 1.0)
    case Some(r) =>
      Rect(r.minX, r.minY,
        if r.maxX - r.minX == 0.0 then r.minX + 1.0 else r.maxX,
        if r.maxY - r.minY == 0.0 then r.minY + 1.0 else r.maxY)
  }

  /** The bounds of a list of seen points: the unit box for none; otherwise
      a box of positive width and height holding every point, whose lower
      corner is the least coordinates seen. */
  lemma FinishBoundsSpec(pts: seq<Point>)
    ensures var r := FinishBounds(BBox(pts));
      && (pts == [] ==> r == Rect(0.0, 0.0, 1.0, 1.0))
      && r.minX < r.maxX && r.minY < r.maxY
      && (forall i :: 0 <= i < |pts| ==> Contains(r, pts[i]))
      && (pts != [] ==> r.minX == BBox(pts).value.minX && r.minY == BBox(pts).value.minY)
  {
    BBoxSpec(pts);
    if pts != [] {
      assert Contains(BBox(pts).value, pts[0]);
    }
  }

  /** `expandBounds(b, p)`: a `null` point leaves the box alone. */
  method ExpandBounds(b: Flatten.Bounds, p: Option<Point>)
    modifies b
    ensures p.None? ==> unchanged(b)
    ensures p.Some? ==> b.minX == Flatten.ExtMin(old(b.minX), p.value.x) && b.minY == Flatten.ExtMin(old(b.minY), p.value.y)
    ensures p.Some? ==> b.maxX == Flatten.ExtMax(old(b.maxX), p.value.x) && b.maxY == Flatten.ExtMax(old(b.maxY), p.value.y)
  {
    if p.Some? {
      b.Expand(p.value);
    }
  }

  /** Widening by one more point, or by `null`, keeps the box tracking the
      points seen. */
  method ExpandTracked(b: Flatten.Bounds, ghost seen: seq<Point>, p: Option<Point>)
    requires b.Tracks(seen)
    modifies b
    ensures b.Tracks(seen + Present([p]))
  {
    assert Present([p]) == (if p.Some? then [p.value] else []);
    if p.Some? {
      ghost var b0 := (b.minX, b.minY, b.maxX, b.maxY);
      Flatten.ExpandTracks(b, seen, p.value, b0);
    } else {
      assert seen + [] == seen;
    }
    ExpandBounds(b, p);
  }

  lemma AllLeafPointsSnoc(leaves: seq<Leaf>, i: nat, hypot: Hypot)
    requires i < |leaves|
    ensures AllLeafPoints(leaves[..i + 1], hypot) == AllLeafPoints(leaves[..i], hypot) + LeafPoints(leaves[i], hypot)
  {
    assert leaves[..i + 1][..i] == leaves[..i];
  }

  /** The inner loop: widen the box by each of one leaf's points. */
  method ExpandByAll(b: Flatten.Bounds, ghost seen: seq<Point>, ps: seq<Option<Point>>)
    requires b.Tracks(seen)
    modifies b
    ensures b.Tracks(seen + Present(ps))
  {
    ghost var cur := seen;
    var j := 0;
    while j < |ps|
      invariant 0 <= j <= |ps|
      invariant cur == seen + Present(ps[..j])
      invariant b.Tracks(cur)
    {
      ExpandTracked(b, cur, ps[j]);
      PresentAppend(ps[..j], [ps[j]]);
      assert ps[..j + 1] == ps[..j] + [ps[j]];
      cur := cur + Present([ps[j]]);
      j := j + 1;
    }
    assert ps[..j] == ps;
  }

  /** The last lines of `computeBoundsFromDxf`, on the box tracking `seen`. */
  method Finish(b: Flatten.Bounds, ghost seen: seq<Point>) returns (r: Rect)
    requires b.Tracks(seen)
    ensures r == FinishBounds(BBox(seen))
  {
    if !b.minX.IsFinite() {
      return Rect(0.0, 0.0, 1.0, 1.0);
    }
    var maxX := b.maxX.v;
    var maxY := b.maxY.v;
    if maxX - b.minX.v == 0.0 {
      maxX := b.minX.v + 1.0;
    }
    if maxY - b.minY.v == 0.0 {
      maxY := b.minY.v + 1.0;
    }
    r := Rect(b.minX.v, b.minY.v, maxX, maxY);
  }

  /** `computeBoundsFromDxf(dxf)`: explode the top-level list from the
      identity, widen the box by every leaf's points, then finish it. */
  method ComputeBoundsFromDxf(ents: Option<seq<Slot>>, index: Index, insMat: InsertMat, hypot: Hypot) returns (r: Rect)
    ensures r == FinishBounds(BBox(Present(AllLeafPoints(
      ExplodeList(ents.GetOr([]), index, MatIdentity(), [], map[], insMat), hypot))))
  {
    var flat := ExplodeEntities(ents.GetOr([]), index, MatIdentity(), [], map[], insMat);
    var b := new Flatten.Bounds();
    ghost var seen: seq<Point> := [];
    var i := 0;
    while i < |flat|
      invariant 0 <= i <= |flat|
      invariant seen == Present(AllLeafPoints(flat[..i], hypot))
      invariant b.Tracks(seen)
    {
      var ps := LeafPoints(flat[i], hypot);
      ExpandByAll(b, seen, ps);
      AllLeafPointsSnoc(flat, i, hypot);
      PresentAppend(AllLeafPoints(flat[..i], hypot), ps);
      seen := seen + Present(ps);
      i := i + 1;
    }
    assert flat[..i] == flat;
    r := Finish(b, seen);
  }
}
