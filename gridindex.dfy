/**
 * `makeGridIndex`: a uniform grid hash from cells to the ids of the items
 * whose bounding boxes cover them, and the query that collects, without
 * repetition and in first-seen order, every id filed under a cell that a
 * query box covers.
 */
module GridIndex {
  import opened Wrappers
  import opened Geometry

  type Cell = (int, int)

  type CellSize = s: real | s > 0.0 witness 2000.0

  /** The default `cellSize = 2000`. */
  const DEFAULT_CELL_SIZE: CellSize := 2000.0

  /** `Math.floor(v / cellSize)` */
  function CellOf(v: real, size: CellSize): int {
    (v / size).Floor
  }

  /** The cells (ix, y0) .. (ix, y1), in increasing iy. */
  function Column(ix: int, y0: int, y1: int): seq<Cell>
    decreases if y1 < y0 then 0 else y1 - y0 + 1
  {
    if y1 < y0 then [] else Column(ix, y0, y1 - 1) + [(ix, y1)]
  }

  /** The cells of the rectangle [x0, x1] x [y0, y1], column by column. */
  function CellRange(x0: int, x1: int, y0: int, y1: int): seq<Cell>
    decreases if x1 < x0 then 0 else x1 - x0 + 1
  {
    if x1 < x0 then [] else CellRange(x0, x1 - 1, y0, y1) + Column(x1, y0, y1)
  }

  predicate NoDup<T(==)>(s: seq<T>) {
    forall i, j :: 0 <= i < j < |s| ==> s[i] != s[j]
  }

  lemma {:induction false} ColumnSpec(ix: int, y0: int, y1: int)
    ensures forall c :: c in Column(ix, y0, y1) <==> c.0 == ix && y0 <= c.1 <= y1
    ensures NoDup(Column(ix, y0, y1))
    decreases if y1 < y0 then 0 else y1 - y0 + 1
  {
    if y0 <= y1 {
      ColumnSpec(ix, y0, y1 - 1);
    }
  }

  /** A cell range holds exactly the cells inside it, each once. */
  lemma {:induction false} CellRangeSpec(x0: int, x1: int, y0: int, y1: int)
    ensures forall c :: c in CellRange(x0, x1, y0, y1) <==> x0 <= c.0 <= x1 && y0 <= c.1 <= y1
    ensures NoDup(CellRange(x0, x1, y0, y1))
    decreases if x1 < x0 then 0 else x1 - x0 + 1
  {
    if x0 <= x1 {
      CellRangeSpec(x0, x1 - 1, y0, y1);
      ColumnSpec(x1, y0, y1);
      var a, b := CellRange(x0, x1 - 1, y0, y1), Column(x1, y0, y1);
      forall i, j | 0 <= i < j < |a + b| ensures (a + b)[i] != (a + b)[j] {
        if j >= |a| && i < |a| {
          assert (a + b)[i] in a && (a + b)[j] in b;
        }
      }
    }
  }

  /** The cells a box covers. */
  function CellsOf(b: Rect, size: CellSize): seq<Cell> {
    CellRange(CellOf(b.minX, size), CellOf(b.maxX, size), CellOf(b.minY, size), CellOf(b.maxY, size))
  }

  /** `bboxToCells`: two nested counting loops, ix outer and iy inner. */
  method BBoxToCells(b: Rect, size: CellSize) returns (cells: seq<Cell>)
    ensures cells == CellsOf(b, size)
  {
    var x0, x1 := CellOf(b.minX, size), CellOf(b.maxX, size);
    var y0, y1 := CellOf(b.minY, size), CellOf(b.maxY, size);
    cells := [];
    var ix := x0;
    while ix <= x1
      invariant x0 <= ix && (x0 <= x1 + 1 ==> ix <= x1 + 1) && (x1 < x0 ==> ix == x0)
      invariant cells == CellRange(x0, ix - 1, y0, y1)
      decreases x1 - ix + 1
    {
      var iy := y0;
      while iy <= y1
        invariant y0 <= iy && (y0 <= y1 + 1 ==> iy <= y1 + 1) && (y1 < y0 ==> iy == y0)
        invariant cells == CellRange(x0, ix - 1, y0, y1) + Column(ix, y0, iy - 1)
        decreases y1 - iy + 1
      {
        cells := cells + [(ix, iy)];
        iy := iy + 1;
      }
      assert Column(ix, y0, iy - 1) == Column(ix, y0, y1);
      ix := ix + 1;
    }
    assert CellRange(x0, ix - 1, y0, y1) == CellRange(x0, x1, y0, y1);
  }

  type Grid<Id> = map<Cell, seq<Id>>

  function Get<Id>(grid: Grid<Id>, c: Cell): seq<Id> {
    if c in grid then grid[c] else []
  }

  /** `addToCell` */
  function AddToCell<Id>(grid: Grid<Id>, c: Cell, id: Id): Grid<Id> {
    grid[c := Get(grid, c) + [id]]
  }

  /** Files `id` under every cell of `cells`, in order. */
  function AddCells<Id>(grid: Grid<Id>, cells: seq<Cell>, id: Id): Grid<Id>
    decreases |cells|
  {
    if cells == [] then grid
    else AddToCell(AddCells(grid, cells[..|cells| - 1], id), cells[|cells| - 1], id)
  }

  /** The grid built from items with their (possibly missing) boxes. */
  function GridOf<Id>(items: seq<(Id, Option<Rect>)>, size: CellSize): Grid<Id>
    decreases |items|
  {
    if items == [] then map[]
    else
      var g := GridOf(items[..|items| - 1], size);
      var (id, bb) := items[|items| - 1];
      match bb
      case None => g
      case Some(b) => AddCells(g, CellsOf(b, size), id)
  }

  /** The build loop of `makeGridIndex`. */
  method Build<Id>(items: seq<(Id, Option<Rect>)>, size: CellSize) returns (grid: Grid<Id>)
    ensures grid == GridOf(items, size)
  {
    grid := map[];
    var i := 0;
    while i < |items|
      invariant 0 <= i <= |items|
      invariant grid == GridOf(items[..i], size)
    {
      assert items[..i + 1][..i] == items[..i];
      var (id, bb) := items[i];
      if bb.Some? {
        var cells := BBoxToCells(bb.value, size);
        var j := 0;
        while j < |cells|
          invariant 0 <= j <= |cells|
          invariant grid == AddCells(GridOf(items[..i], size), cells[..j], id)
        {
          assert cells[..j + 1][..j] == cells[..j];
          grid := AddToCell(grid, cells[j], id);
          j := j + 1;
        }
        assert cells[..j] == cells;
      }
      i := i + 1;
    }
    assert items[..i] == items;
  }

  lemma {:induction false} AddCellsMember<Id>(grid: Grid<Id>, cells: seq<Cell>, id: Id, c: Cell, x: Id)
    ensures x in Get(AddCells(grid, cells, id), c) <==> x in Get(grid, c) || (x == id && c in cells)
    decreases |cells|
  {
    if cells != [] {
      var init := cells[..|cells| - 1];
      AddCellsMember(grid, init, id, c, x);
      assert cells == init + [cells[|cells| - 1]];
    }
  }

  /** An id is filed under a cell exactly when some item with that id has a box covering the cell. */
  lemma {:induction false} GridOfMember<Id>(items: seq<(Id, Option<Rect>)>, size: CellSize, c: Cell, x: Id)
    ensures x in Get(GridOf(items, size), c) <==>
      exists k :: 0 <= k < |items| && items[k].0 == x && items[k].1.Some? && c in CellsOf(items[k].1.value, size)
    decreases |items|
  {
    if items != [] {
      var init := items[..|items| - 1];
      GridOfMember(init, size, c, x);
      assert forall k :: 0 <= k < |init| ==> init[k] == items[k];
      var (id, bb) := items[|items| - 1];
      if bb.Some? {
        AddCellsMember(GridOf(init, size), CellsOf(bb.value, size), id, c, x);
      }
    }
  }

  /** Appends the ids not yet present (`Set.add` in insertion order). */
  function AddNew<Id(==)>(out: seq<Id>, ids: seq<Id>): seq<Id>
    decreases |ids|
  {
    if ids == [] then out
    else
      var o := AddNew(out, ids[..|ids| - 1]);
      if ids[|ids| - 1] in o then o else o + [ids[|ids| - 1]]
  }

  lemma {:induction false} AddNewSpec<Id>(out: seq<Id>, ids: seq<Id>)
    requires NoDup(out)
    ensures NoDup(AddNew(out, ids))
    ensures forall x :: x in AddNew(out, ids) <==> x in out || x in ids
    decreases |ids|
  {
    if ids != [] {
      var init := ids[..|ids| - 1];
      AddNewSpec(out, init);
      assert ids == init + [ids[|ids| - 1]];
    }
  }

  /** The ids collected from the given cells. */
  function QueryOf<Id(==)>(grid: Grid<Id>, cells: seq<Cell>): seq<Id>
    decreases |cells|
  {
    if cells == [] then [] else AddNew(QueryOf(grid, cells[..|cells| - 1]), Get(grid, cells[|cells| - 1]))
  }

  /** `query`: the ids of every cell the box covers, without repetition. */
  method Query<Id(==)>(grid: Grid<Id>, q: Rect, size: CellSize) returns (out: seq<Id>)
    ensures out == QueryOf(grid, CellsOf(q, size))
  {
    var cells := BBoxToCells(q, size);
    out := [];
    var i := 0;
    while i < |cells|
      invariant 0 <= i <= |cells|
      invariant out == QueryOf(grid, cells[..i])
    {
      assert cells[..i + 1][..i] == cells[..i];
      var arr := Get(grid, cells[i]);
      var j := 0;
      ghost var before := out;
      while j < |arr|
        invariant 0 <= j <= |arr|
        invariant out == AddNew(before, arr[..j])
      {
        assert arr[..j + 1][..j] == arr[..j];
        if arr[j] !in out {
          out := out + [arr[j]];
        }
        j := j + 1;
      }
      assert arr[..j] == arr;
      i := i + 1;
    }
    assert cells[..i] == cells;
  }

  /** The query result has no repetition and holds exactly the ids filed under the given cells. */
  lemma {:induction false} QueryOfSpec<Id>(grid: Grid<Id>, cells: seq<Cell>, x: Id)
    ensures NoDup(QueryOf(grid, cells))
    ensures x in QueryOf(grid, cells) <==> exists i :: 0 <= i < |cells| && x in Get(grid, cells[i])
    decreases |cells|
  {
    if cells != [] {
      var init := cells[..|cells| - 1];
      QueryOfSpec(grid, init, x);
      AddNewSpec(QueryOf(grid, init), Get(grid, cells[|cells| - 1]));
      if x in QueryOf(grid, init) {
        var i :| 0 <= i < |init| && x in Get(grid, init[i]);
        assert cells[i] == init[i];
      }
      if exists i :: 0 <= i < |cells| && x in Get(grid, cells[i]) {
        var i :| 0 <= i < |cells| && x in Get(grid, cells[i]);
        if i < |init| { assert cells[i] == init[i]; }
      }
    }
  }

  /** Some item with id `x` has a box sharing a cell with the query cells. */
  ghost predicate Indexed<Id>(items: seq<(Id, Option<Rect>)>, size: CellSize, qc: seq<Cell>, x: Id) {
    exists k, c :: 0 <= k < |items| && items[k].0 == x && items[k].1.Some?
      && c in CellsOf(items[k].1.value, size) && c in qc
  }

  lemma QuerySound<Id>(items: seq<(Id, Option<Rect>)>, qc: seq<Cell>, size: CellSize, x: Id)
    requires x in QueryOf(GridOf(items, size), qc)
    ensures Indexed(items, size, qc, x)
  {
    var grid := GridOf(items, size);
    QueryOfSpec(grid, qc, x);
    var i :| 0 <= i < |qc| && x in Get(grid, qc[i]);
    GridOfMember(items, size, qc[i], x);
    var k :| 0 <= k < |items| && items[k].0 == x && items[k].1.Some? && qc[i] in CellsOf(items[k].1.value, size);
    assert qc[i] in qc;
  }

  lemma QueryComplete<Id>(items: seq<(Id, Option<Rect>)>, qc: seq<Cell>, size: CellSize, x: Id)
    requires Indexed(items, size, qc, x)
    ensures x in QueryOf(GridOf(items, size), qc)
  {
    var grid := GridOf(items, size);
    var k, c :| 0 <= k < |items| && items[k].0 == x && items[k].1.Some?
      && c in CellsOf(items[k].1.value, size) && c in qc;
    GridOfMember(items, size, c, x);
    var i :| 0 <= i < |qc| && qc[i] == c;
    assert x in Get(grid, qc[i]);
    QueryOfSpec(grid, qc, x);
  }

  /** What a query over a built index returns: exactly the ids of items whose
      box shares a cell with the query box, each once. Items without a box are
      never returned. */
  lemma QuerySpec<Id>(items: seq<(Id, Option<Rect>)>, q: Rect, size: CellSize, x: Id)
    ensures NoDup(QueryOf(GridOf(items, size), CellsOf(q, size)))
    ensures x in QueryOf(GridOf(items, size), CellsOf(q, size)) <==> Indexed(items, size, CellsOf(q, size), x)
  {
    var qc := CellsOf(q, size);
    QueryOfSpec(GridOf(items, size), qc, x);
    if x in QueryOf(GridOf(items, size), qc) { QuerySound(items, qc, size, x); }
    if Indexed(items, size, qc, x) { QueryComplete(items, qc, size, x); }
  }

  predicate WellFormed(r: Rect) { r.minX <= r.maxX && r.minY <= r.maxY }

  /** Exact (tolerance-free) overlap of two closed boxes. */
  predicate Overlap(a: Rect, b: Rect) {
    a.minX <= b.maxX && b.minX <= a.maxX && a.minY <= b.maxY && b.minY <= a.maxY
  }

  /** A box grown by `eps` on every side. */
  function Grow(r: Rect, eps: Tol): Rect {
    Rect(r.minX - eps, r.minY - eps, r.maxX + eps, r.maxY + eps)
  }

  lemma CellOfMonotone(u: real, v: real, size: CellSize)
    requires u <= v
    ensures CellOf(u, size) <= CellOf(v, size)
  {
    assert u / size <= v / size by {
      assert (v - u) / size >= 0.0;
      assert v / size - u / size == (v - u) / size;
    }
  }

  /** Two overlapping well-formed boxes share a cell. */
  lemma OverlapSharesCell(a: Rect, b: Rect, size: CellSize)
    requires WellFormed(a) && WellFormed(b) && Overlap(a, b)
    ensures exists c :: c in CellsOf(a, size) && c in CellsOf(b, size)
  {
    var ax := if a.minX >= b.minX then a.minX else b.minX;
    var ay := if a.minY >= b.minY then a.minY else b.minY;
    CellOfMonotone(a.minX, ax, size); CellOfMonotone(b.minX, ax, size);
    CellOfMonotone(ax, a.maxX, size); CellOfMonotone(ax, b.maxX, size);
    CellOfMonotone(a.minY, ay, size); CellOfMonotone(b.minY, ay, size);
    CellOfMonotone(ay, a.maxY, size); CellOfMonotone(ay, b.maxY, size);
    var c := (CellOf(ax, size), CellOf(ay, size));
    CellRangeSpec(CellOf(a.minX, size), CellOf(a.maxX, size), CellOf(a.minY, size), CellOf(a.maxY, size));
    CellRangeSpec(CellOf(b.minX, size), CellOf(b.maxX, size), CellOf(b.minY, size), CellOf(b.maxY, size));
    assert c in CellsOf(a, size) && c in CellsOf(b, size);
  }

  /** The index has no false negatives for exact overlap: an item whose
      well-formed box overlaps the query box is returned. */
  lemma QueryFindsOverlap<Id>(items: seq<(Id, Option<Rect>)>, k: nat, q: Rect, size: CellSize)
    requires k < |items| && items[k].1.Some?
    requires WellFormed(items[k].1.value) && WellFormed(q) && Overlap(items[k].1.value, q)
    ensures items[k].0 in QueryOf(GridOf(items, size), CellsOf(q, size))
  {
    OverlapSharesCell(items[k].1.value, q, size);
    QuerySpec(items, q, size, items[k].0);
  }

  /** The tolerant box test is exact overlap with the second box grown by the tolerance. */
  lemma BBoxIntersectsIsOverlapGrown(a: Rect, b: Rect, eps: Tol)
    ensures BBoxIntersects(a, b, eps) <==> Overlap(a, Grow(b, eps))
  {
  }
}
