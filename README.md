# dxfTopology, modelled in Dafny

dxfTopology reads a DXF drawing of an electrical layout and works out how it
is wired. This project models the logic that turns the drawing's geometry
into connectivity and routes, and proves what that logic promises. Drawing
on screen is not modelled.

The pipeline of the link viewer (`src/link/fn.js`, `src/link/fn2.js`,
`src/link/Canvas.jsx`):

- **Flattening** (`flatten.dfy`): the drawing's entities become point lists
  on their resolved layers, keeping only `WIRE-` and `EQUIP-` layers.
  INSERTs are expanded through the affine matrix algebra (`geometry.dfy`),
  and their contents become a bounding rectangle.
- **Tolerant predicates** (`geometry.dfy`): orientation, segment and
  rectangle tests, each up to the tolerance `EPS`.
- **Bucketing** (`viewer.dfy`): the viewer sorts the paths into five buckets
  by layer prefix.
- **Spatial index** (`gridindex.dfy`, `drawing.dfy`): a grid hash finds the
  candidates for the exact tests.
- **Link sets** (`linksets.dfy`, `linkbuild.dfy`): `buildLinkSets` runs one
  breadth-first search per box over boxes, wires and parts. It then
  de-duplicates the components by their sorted key.
- **Jumpers** (`partlinks.dfy`): `buildPartLinks` gives every part touched
  by two or more wires a jumper. The jumper joins the farthest pair of
  attach points.
- **Route enumeration** (`compadj.dfy`, `routeenum.dfy`):
  `printRoutesFromBox` runs a depth-first search with backtracking and a
  depth cap.
- **Shortest entry routes** (`shortest.dfy`, `dijkstra.dfy`,
  `entryroutes.dfy`): `printRoute` builds a wire adjacency. It runs Dijkstra
  from the wires that touch the box, reconstructs paths with `pathTo`, and
  assembles one route per jumper or terminal part.
- **Id formatting** (`ids.dfy`): `shortId`, `widNum`, `pidNum` and
  `filterName`.

The Three.js viewer (`src/Canvas.jsx`, `src/helper.js`):

- **Grouping** (`helper.dfy`, `scene.dfy`): colour, display name, category
  keys and the category-to-group rule. Categories fall into wire, panel,
  component and other, and the group switches control visibility.
- **Contacts and purple links** (`contact.dfy`, `scene.dfy`):
  `classifyContact` decides whether a contact is on a face, an edge or a
  corner. The contact loop then links every pair of wires that meet a
  component on different edges.

The block viewers (`src/selectInsert/Canvas.jsx`, `src/insert/Canvas.jsx`):

- **Attribute scanner** (`attrib.dfy`): the raw-text scanner
  `parseInsertAttribMapFromRaw`. Both viewers carry the same copy, and the
  rows below cite the selectInsert one.
- **Block expansion** (`explode.dfy`): the block index, attribute
  attachment, `explodeEntities` and the bounds computation.
- **Insert viewer** (`insertview.dfy`): `toXY`, `resolveBlockKey`,
  `calculateBBox`, the injection of ATTRIB entities and the unique-inserts
  list.

Some conventions hold throughout the model:

- **Numbers.** Coordinates are `real`. A JavaScript number that may be
  `NaN` or infinite is `Num = Fin(r) | NonFin`. The source only ever checks
  such numbers for finiteness.
- **Parameters.** The tolerances are parameters. So are `Math.hypot` and
  `Number(...)`, as functions the caller supplies.
- **Shared helpers.** `strs.dfy` (string helpers), `js.dfy` (JavaScript
  values) and `wrappers.dfy` (`Option`) are shared by all modules.
- **Loops.** Where the source loops and mutates, the model has a method
  with loop invariants, proved equal to a function. The properties are
  proved about that function.
- **State.** The objects the source updates in place are classes:
  `Flatten.Bounds`, `PartLinks.PartLinkTable`, `RouteEnum.RouteWalker`,
  `InsertView.VisitedBlocks` and `LinkViewer.View`.

Where the code and its comments disagree, the model follows the code:

- **Contact loop.** Only the component group is examined for purple links,
  although a comment names panels too (`src/Canvas.jsx:979-984`).

## Model

| member | source | states |
|---|---|---|
| Wrappers.AppendAssoc | src/link/fn.js:1041-1079 | concatenation is associative (used wherever a route or a list is extended step by step) |
| Strs.TrimStartSpec | src/selectInsert/Canvas.jsx:766-767 | the start-trimmed string is a suffix of the input, every dropped character is white space and the first kept one is not |
| Strs.TrimEndSpec | src/selectInsert/Canvas.jsx:766-767 | the end-trimmed string is a prefix of the input, every dropped character is white space and the last kept one is not |
| Strs.TrimSpec | src/link/fn.js:71-75 | `trim()` keeps one contiguous slice of the input with no white space at either end and only white space around it |
| Strs.TrimIdempotent | src/helper.js:357-358 | trimming a trimmed string changes nothing |
| Strs.ToUpper | src/link/fn.js:127 | `toUpperCase()` on ASCII letters: the result has the input's length and each lower-case ASCII letter becomes its upper-case form, every other character being kept |
| Strs.ToLower | src/insert/Canvas.jsx:290 | `toLowerCase()` on ASCII letters: the result has the input's length and each upper-case ASCII letter becomes its lower-case form, every other character being kept |
| Strs.ReplaceAllAbsent | src/link/fn.js:1275-1287 | `replaceAll` changes nothing when the pattern's first character does not occur |
| Strs.ReplaceAllPrefix | src/link/fn.js:1275-1287 | an occurrence at the start is replaced and the scan resumes after it |
| Strs.ReplaceAllCons | src/link/fn.js:1275-1287 | a first character that cannot start the pattern is kept |
| Strs.ReplaceAllKeep | src/link/fn.js:1275-1287 | a prefix at none of whose positions the pattern starts is kept unchanged |
| Strs.Split | src/link/fn.js:919-927 | `split(sep)` returns at least one piece, at least two when the separator occurs, and no piece holds the separator |
| Strs.SplitAbsent | src/link/fn2.js:209-215 | splitting at a character that does not occur yields the whole string |
| Strs.SplitAt | src/link/fn.js:922-925 | splitting `a + sep + b` where `a` has no separator yields `a` followed by the pieces of `b` |
| Strs.NatStr | src/link/fn.js:556-562 | `String(n)` is a non-empty string of decimal digits |
| Strs.DigitsValueNatStr | src/link/fn2.js:209-211 | reading back the decimal rendering gives the number, as `Number(...)` does in `widNum` |
| Strs.NatStrInjective | src/link/fn.js:556-562 | distinct numbers render to distinct decimal strings |
| Strs.PadStart | src/helper.js:331-334 | `padStart(n, c)` has length max(n, length), ends with the input and is filled with `c` in front |
| Strs.HexStrDigits | src/helper.js:331-334 | `toString(16)` yields only lower-case hexadecimal digits |
| Strs.HexDigitsValueHexStr | src/helper.js:331-334 | reading back the hexadecimal rendering gives the number |
| Strs.HexDigitsValueUpperPadded | src/helper.js:333 | zero padding and upper-casing do not change the value of a hexadecimal string |
| Geometry.MatMulComposes | src/link/fn.js:36-46 | applying `matMul(m1, m2)` to a point equals applying `m2` and then `m1`, as the comment on `matMul` promises |
| Geometry.MatIdentityUnit | src/link/fn.js:31-34 | the identity matrix is a left and right unit of `matMul` and fixes every point under `applyMat` |
| Geometry.TranslateScaleAct | src/link/fn.js:48-56 | `matTranslate` moves a point by its offset; `matScale` multiplies each coordinate by its factor |
| Geometry.RectFromPoints | src/link/fn.js:567-583 | the loop computes `BoundsOf`, the box of the finite points, skipping NaN and infinite coordinates |
| Geometry.BoundsOfNone | src/link/fn.js:581 | `rectFromPoints` returns `null` exactly when no point has two finite coordinates |
| Geometry.BoundsOfSpec | src/link/fn.js:567-583 | the box is well formed, holds every finite point, and each of its four bounds is attained by a finite point |
| Geometry.BBoxSpec | src/link/fn.js:585-592 | the box of a list of finite points exists exactly when the list is non-empty, and it holds every point |
| Geometry.BBoxIntersectsSymmetric | src/link/fn.js:598-600 | the `EPS`-tolerant box overlap test gives the same answer with its arguments swapped |
| Geometry.Orient | src/link/fn.js:602-607 | 0 exactly when the cross product is within the tolerance of zero, else 1 for a positive and -1 for a non-positive cross product |
| Geometry.OrientSwap | src/link/fn.js:602-607 | with a positive tolerance, swapping the first two points negates the orientation |
| Geometry.OrientSwapFailsWithoutTolerance | src/link/fn.js:604-606 | with tolerance 0 a collinear triple gets -1 both ways round, so the tolerance is what makes `orient` antisymmetric |
| Geometry.OnSegmentSwap | src/link/fn.js:609-617 | `onSegment` does not depend on the order of the segment's endpoints |
| Geometry.SegmentsIntersectSymmetric | src/link/fn.js:619-635 | `segmentsIntersect(a, b, c, d)` equals `segmentsIntersect(c, d, a, b)` |
| Geometry.SegmentsIntersectReverse | src/link/fn.js:619-635 | with a positive tolerance, reversing either segment does not change the answer |
| Geometry.SegmentsIntersectReverseFailsWithoutTolerance | src/link/fn.js:619-635 | with tolerance 0, a T-junction is found with one segment orientation and missed with the other |
| Geometry.PolylineSegments | src/link/fn.js:637-646 | the segments are exactly the consecutive point pairs, one fewer than the points |
| Geometry.VertexInRectHits | src/link/fn.js:648-678 | a wire of two or more points with a vertex inside the `EPS`-grown box always intersects the rectangle |
| Geometry.PolylineIntersectsPolylineSymmetric | src/link/fn.js:680-693 | wire-to-wire contact does not depend on which wire is passed first |
| Geometry.PolylineLength | src/link/fn.js:488-498 | the length is non-negative, and 0 for fewer than two points |
| Geometry.PolylineLengthSegment | src/link/fn2.js:217-225 | a two-point polyline is as long as `Math.hypot` of its one displacement |
| Ids.NatStrNoColon | src/link/fn.js:556-558 | the number in an id never holds a colon, so the colons of an id are exactly its separators |
| Ids.LastSplit | src/link/fn2.js:213-215 | the last piece of `a:d` is `d` when `d` has no colon, as `pop()` takes it |
| Ids.IdStrInjective | src/link/fn.js:753-758 | two nodes with the same id string are the same node: the `box:`, `wire:` and `part:<category>:` prefixes and the numbers never collide |
| Ids.SplitIdStr | src/link/fn.js:753-758 | splitting an id at `:` gives `box`/`wire` and the number, or `part`, the category and the number |
| Ids.ShortIdOfNode | src/link/fn.js:919-927 | `shortId` turns `wire:n` into `wiren`, `box:n` into `boxn` and `part:c:n` into `partn`; `pidNum` returns the number of a part |
| Ids.ShortIdDropsCategory | src/link/fn.js:924 | parts with the same number in the three categories get the same short token |
| Ids.ShortIdOfLink | src/link/fn.js:925 | the short token of the jumper `link:<part>:<k>` is `link` followed by `k` |
| Ids.WidNumOfWire | src/link/fn2.js:209-211 | `widNum` of the wire id `wire:n` is the number n |
| Ids.LeadWord | src/link/fn.js:1278-1281 | replacing a leading kind word in `w:digits` touches that word only |
| Ids.AbbreviateWire | src/link/fn.js:1277-1281 | the kind-word replacements turn `wire:d` into `W:d` |
| Ids.AbbreviateBox | src/link/fn.js:1277-1281 | the kind-word replacements turn `box:d` into `B:d` |
| Ids.AbbreviatePart | src/link/fn.js:1277-1281 | the kind-word replacements turn `part:c:d` into `P:c:d` |
| Ids.RemoveCat | src/link/fn.js:1282-1284 | each category-removal step deletes the category it names from `P:c:d` and keeps the others |
| Ids.DropCategoryPart | src/link/fn.js:1282-1284 | the three category removals turn `P:c:d` into `P::d` whatever the category |
| Ids.DropColonsOne | src/link/fn.js:1285-1286 | the colon removal turns `W:d` or `B:d` into `Wd`/`Bd` and keeps the digits |
| Ids.DropColonsTwo | src/link/fn.js:1285-1286 | the colon removal turns `P::d` into `Pd` |
| Ids.FilterNameOfWire | src/link/fn.js:1275-1287 | the label of the wire `wire:n` is `W` followed by n |
| Ids.FilterNameOfBox | src/link/fn.js:1275-1287 | the label of the box `box:n` is `B` followed by n |
| Ids.FilterNameOfPart | src/link/fn.js:1275-1287 | the label of a part is `P` followed by its number, whatever its category |
| GridIndex.ColumnSpec | src/link/fn.js:719-721 | one column of the inner `iy` loop holds exactly the cells (ix, y) for y0 <= y <= y1, each once |
| GridIndex.CellRangeSpec | src/link/fn.js:713-723 | the cells of a range are exactly those with x0 <= ix <= x1 and y0 <= iy <= y1, each once |
| GridIndex.BBoxToCells | src/link/fn.js:713-723 | the nested loops produce `CellsOf(b)`: the cells from `floor(min / cellSize)` to `floor(max / cellSize)` on each axis, ix outer |
| GridIndex.Build | src/link/fn.js:726-732 | the build loop files every item that has a box under each cell of its box, skipping items without a box |
| GridIndex.AddCellsMember | src/link/fn.js:706-711 | after filing an id under a list of cells, a cell holds that id exactly when it held it before or is one of the cells |
| GridIndex.GridOfMember | src/link/fn.js:726-732 | an id is filed under a cell exactly when some item with that id has a box covering the cell |
| GridIndex.AddNewSpec | src/link/fn.js:735-741 | adding ids to the output set keeps it free of repetition and yields the union |
| GridIndex.Query | src/link/fn.js:734-743 | `query` returns `QueryOf`: the ids filed under the cells of the box, in first-seen order, without repetition |
| GridIndex.QueryOfSpec | src/link/fn.js:734-743 | the query result has no repetition and holds exactly the ids filed under the given cells |
| GridIndex.QuerySound | src/link/fn.js:734-743 | every id returned belongs to an item whose box shares a cell with the query |
| GridIndex.QueryComplete | src/link/fn.js:734-743 | every item whose box shares a cell with the query is returned |
| GridIndex.QuerySpec | src/link/fn.js:699-746 | querying the built index returns, without repetition, exactly the items sharing a cell with the query box |
| GridIndex.CellOfMonotone | src/link/fn.js:714-717 | `Math.floor(v / cellSize)` is monotone in v |
| GridIndex.OverlapSharesCell | src/link/fn.js:713-723 | two overlapping well-formed boxes share a cell |
| GridIndex.QueryFindsOverlap | src/link/fn.js:699-746 | an item whose box overlaps the query box is always returned, so the index never misses an overlapping item |
| GridIndex.BBoxIntersectsIsOverlapGrown | src/link/fn.js:598-600 | the tolerant box test is exact overlap with the second box grown by the tolerance on every side |
| Drawing.AllNodesValid | src/link/fn.js:753-758 | the node set holds exactly the boxes, wires and parts of the drawing |
| Drawing.WireItems | src/link/fn.js:754 | the indexed wire list pairs `wire:i` with the box of the i-th wire, for every wire |
| Drawing.CatItems | src/link/fn.js:756-758 | the indexed list of one part category pairs `part:<cat>:i` with the box of the i-th part |
| Drawing.PartItemsHas | src/link/fn.js:755-759 | every part of the drawing is in the concatenated part list with its own box |
| Drawing.PartItemsValid | src/link/fn.js:755-759 | only parts of the drawing, with their own boxes, are in the part list |
| Drawing.AdjSymmetricBetweenWiresAndParts | src/link/fn.js:816-874 | contact between a part and a wire, and between two wires, is symmetric |
| Drawing.BBoxWellFormed | src/link/fn.js:567-583 | the box of a non-empty point list is well formed |
| Drawing.CandidatesFindWire | src/link/fn.js:796-813 | with the query box grown by `EPS`, every wire that touches a rectangle is among the candidates for that rectangle |
| Drawing.CandidatesFindPart | src/link/fn.js:842-857 | with the query box grown by `EPS`, every part a wire touches is among the candidates for the wire's box |
| Drawing.CandidatesFindWireFromWire | src/link/fn.js:860-874 | with the query box grown by `EPS`, every wire another wire touches is among the candidates for its box |
| Drawing.WireCandidatesValid | src/link/fn.js:800-802 | the wire index returns only wires of the drawing, so `wireById.get` never misses |
| Drawing.PartCandidatesValid | src/link/fn.js:844-846 | the part index returns only parts of the drawing |
| Drawing.ExampleCells | src/link/fn.js:713-723 | the example box lies in cell (1, 0) only and the example wire in cell (0, 0) only |
| Drawing.DisjointCellsMiss | src/link/fn.js:734-743 | an item filed under cell (0, 0) only is not returned by a query of cell (1, 0) |
| Drawing.AsWrittenQueryMissesContact | src/link/fn.js:796-804 | a wire one unit left of a cell boundary touches a box one unit right of it, yet `wireIndex.query(rbox)` as written does not return it; the grown query does |
| Flatten.ResolveLayer | src/link/fn.js:71-75 | the resolved layer is always a trimmed string |
| Flatten.ResolveLayerSpec | src/link/fn.js:71-75 | an empty or `0` entity layer inherits the trimmed parent layer; any other layer is kept, trimmed |
| Flatten.ResolveLayerStable | src/link/fn.js:71-75 | resolving an already resolved, non-inheriting layer again gives the same layer whatever the parent |
| Flatten.TargetWireLayer | src/link/fn.js:78-80 | among target layers, the wire layers are exactly those starting with `WIRE-照明` |
| Flatten.MapPoints | src/link/fn.js:145 | mapping a point list through a matrix keeps its length and transforms each point by `applyMat` |
| Flatten.EntityToPaths | src/link/fn.js:126-167 | at most one path, on the given layer. A LINE yields one exactly when both its ends exist, and then their transforms. A polyline yields one exactly when it has two or more vertices, and then the transforms of its vertices, closed as its closed flag says. A CIRCLE or ARC yields one exactly when it has a center and a positive radius, and then the transforms of its sample points, closed for a CIRCLE and open for an ARC. Every other type yields nothing |
| Flatten.BBoxSnoc | src/link/fn.js:229-234 | the box after one more point is the previous box widened by that point |
| Flatten.StepBox | src/link/fn.js:229-234 | one step of the running minima and maxima with the `hasPoint` flag gives the box of the longer list |
| Flatten.PathsToBBox | src/link/fn.js:216-240 | `pathsToBBox` returns the box of every point of every path, or `null` when there is none |
| Flatten.RectPath | src/link/fn.js:265-280 | `bboxToRectPath` is a closed five-point outline on the given layer whose last point repeats the first |
| Flatten.RectPathBBox | src/link/fn.js:265-280 | the box of that outline is the box it was made from |
| Flatten.FlattenToPaths | src/link/fn.js:291-378 | the entity loop returns `Flatten`: INSERTs are expanded recursively to depth 20, and other entities are kept when on a target layer (wire layers as drawn, others as their box) |
| Flatten.InsertPaths | src/link/fn.js:307-342 | the INSERT branch returns the child paths, or their box as a rectangle when rectangles are asked for; it returns nothing for an unknown block |
| Flatten.LeafPaths | src/link/fn.js:345-357 | the branch for other entities: nothing off the target layers, the drawn paths on a wire layer, the box of the paths otherwise |
| Flatten.FlattenShapes | src/link/fn.js:291-378 | every output path is a drawn path on a wire layer, or a closed five-point rectangle; an INSERT's rectangle occurs only when rectangles are asked for, and any other rectangle lies on a non-wire target layer |
| Flatten.FlattenListShapes | src/link/fn.js:305-375 | the same shape guarantee for the loop over an entity list |
| Flatten.EntityShapes | src/link/fn.js:306-357 | the same shape guarantee for one entity |
| Flatten.InsertShapes | src/link/fn.js:309-342 | the same shape guarantee for an INSERT |
| Flatten.LeafShapes | src/link/fn.js:345-357 | the same shape guarantee for a non-INSERT entity |
| Flatten.ContentsOnTargetLayers | src/link/fn.js:347-349 | without INSERT rectangles, every flattened path lies on a `WIRE-` or `EQUIP-` layer |
| Flatten.ExtMin | src/link/fn.js:13-14 | `Math.min` over the extended reals: -Infinity stays, and otherwise the result is at most the new value and either the old or the new one |
| Flatten.ExtMax | src/link/fn.js:15-16 | `Math.max` over the extended reals, the mirror image of `ExtMin` |
| Flatten.Bounds.constructor | src/link/fn.js:7-9 | `makeEmptyBounds` creates the infinite box that tracks no point |
| Flatten.Bounds.Expand | src/link/fn.js:12-17 | `expandBounds` updates the four fields in place with `Math.min`/`Math.max` of the point |
| Flatten.ExpandTracks | src/link/fn.js:12-17 | widening the box that tracks a point list by `p` gives the box that tracks the list extended by `p` |
| Flatten.BoundsFromPaths | src/link/fn.js:20-29 | `boundsFromPaths` returns the box of every point, or (-10, -10, 10, 10) when no point was seen |
| LinkSets.WalkSnoc | src/link/fn.js:790-876 | a walk extended by a node in contact with its last node is a walk |
| LinkSets.ChainWalk | src/link/fn.js:790-876 | every node of the BFS discovery order is the end of a walk from the first node along recorded parents |
| LinkSets.ChainReachable | src/link/fn.js:790-876 | every discovered node is reachable from the box the search started at |
| LinkSets.ClosedHoldsWalk | src/link/fn.js:790-876 | a node set closed under contact holds the end of every walk that starts in it |
| LinkSets.WiresOfSnoc | src/link/fn.js:810-811 | discovering a node appends it to `comp.wires` or `comp.parts` according to its kind, and to nothing else |
| LinkSets.ProjectionsSpec | src/link/fn.js:810-811 | `comp.wires` and `comp.parts` hold exactly the discovered wires and parts, without repetition when the order has none |
| LinkSets.SetOfSpec | src/link/fn.js:787 | the `visited` set holds exactly the members of the discovery order |
| LinkSets.Discover | src/link/fn.js:806-812 | marking an unvisited node visited keeps order, set and component lists in step and shrinks the unvisited count by one |
| LinkSets.CountedNoDup | src/link/fn.js:787 | a list with as many distinct elements as entries has no repetition |
| LinkSets.Adopted | src/link/fn.js:790-812 | nodes discovered from `order[from]` get `from` as their parent and earlier parents are kept |
| LinkSets.ChainExtend | src/link/fn.js:790-812 | appending nodes in contact with `order[from]` keeps the parent chain valid, and those nodes are never boxes |
| LinkSets.Scan | src/link/fn.js:800-813 | the candidate loop visits each passing, unvisited candidate once and appends it to the order and the queue; afterwards every passing candidate is visited |
| LinkSets.AdjTarget | src/link/fn.js:798-874 | a contact ends in a wire or a part, never in a box, and the nodes involved have boxes |
| LinkSets.RectContactsFound | src/link/fn.js:796-813 | every wire touching a box or part rectangle is among the (grown) wire candidates for that rectangle |
| LinkSets.WireContactsFound | src/link/fn.js:836-874 | every part or wire a wire touches is among the (grown) part or wire candidates for its box |
| LinkSets.ScanNear | src/link/fn.js:800-813 | scanning the candidates of a query keeps the search state and visits every candidate in contact |
| LinkSets.RectStep | src/link/fn.js:796-833 | the turn of a box or part visits exactly the new wires touching its rectangle |
| LinkSets.BothScans | src/link/fn.js:842-874 | the part scan followed by the wire scan of a wire's turn together visit all its contacts |
| LinkSets.WireStep | src/link/fn.js:836-874 | the turn of a wire visits the parts it touches, then the other wires it touches |
| LinkSets.IsolatedWire | src/link/fn.js:840-841 | a wire with no box is skipped and changes nothing |
| LinkSets.Step | src/link/fn.js:793-876 | one turn keeps the search state, adds only wires and parts, and leaves every contact of the current node visited |
| LinkSets.SearchStart | src/link/fn.js:781-787 | the queue and visited set seeded with the box satisfy the search invariant |
| LinkSets.SearchHead | src/link/fn.js:793-794 | the node at the head of the queue is a valid node of the drawing with a box unless it is a wire |
| LinkSets.SearchAdvance | src/link/fn.js:793-876 | a turn on the head of the queue keeps the search invariant |
| LinkSets.SearchDone | src/link/fn.js:793-877 | when the queue is empty, the component's wires and parts have no repetition and are exactly the nodes reachable from the box |
| LinkSets.OrderReachable | src/link/fn.js:793-877 | a discovery order closed under contact holds exactly the nodes reachable from its first node |
| LinkSets.Explore | src/link/fn.js:777-877 | the BFS from a box yields a component with no repeated wire or part whose members are exactly the nodes reachable from the box |
| PartLinks.Dist2 | src/link/fn.js:385-389 | the squared distance is never negative |
| PartLinks.Dist2Symmetric | src/link/fn.js:385-389 | the squared distance does not depend on the order of the points |
| PartLinks.RectEdges | src/link/fn.js:395-406 | four edges that chain end to start around the box, counter-clockwise from (minX, minY) |
| PartLinks.CrossingOnBothLines | src/link/fn.js:413-432 | the point `a + t r` with `t` from Cramer's rule also equals `c + u s`: the returned point lies on both lines |
| PartLinks.CrossComponents | src/link/fn.js:426-427 | the Cramer quotients satisfy both coordinate equations once multiplied by the determinant |
| PartLinks.CrossingUnique | src/link/fn.js:426-427 | non-parallel lines meet at one parameter pair only, the one Cramer's rule gives |
| PartLinks.SolvedComponents | src/link/fn.js:426-427 | parameters satisfying both line equations solve Cramer's rule |
| PartLinks.SegmentIntersectionPointSpec | src/link/fn.js:413-432 | `null` exactly when the determinant is below `EPS` or the crossing parameters fall outside [-EPS, 1+EPS]; otherwise the crossing point of the two lines, with both parameters in range |
| PartLinks.SegHitsSound | src/link/fn.js:457-459 | every crossing collected for one segment comes from one of the rectangle's edges |
| PartLinks.SegHitsComplete | src/link/fn.js:457-459 | every crossing of the segment with an edge is collected |
| PartLinks.HitsSound | src/link/fn.js:456-466 | every candidate crossing comes from some wire segment and some rectangle edge |
| PartLinks.HitsComplete | src/link/fn.js:456-466 | every crossing of a wire segment with a rectangle edge is a candidate |
| PartLinks.NearestIndex | src/link/fn.js:461-465 | the chosen crossing is at least as near to an end of the wire as every other one, and strictly nearer than every earlier one: the first nearest, as the strict `<` keeps |
| PartLinks.AttachPointSpec | src/link/fn.js:435-469 | an attach point exists only for a rectangle with a box and a wire of two or more points. It is the head or the tail when inside the `EPS`-grown box, else a crossing of a wire segment with a rectangle edge |
| PartLinks.Consider | src/link/fn.js:458-465 | one crossing replaces the best only when strictly nearer to an end of the wire; the best stays the first nearest of those seen |
| PartLinks.NearStep | src/link/fn.js:461-465 | comparing one more candidate keeps the best the first nearest of those seen |
| PartLinks.SegHitsPrefix | src/link/fn.js:457-459 | scanning one more edge appends that edge's crossing, if any |
| PartLinks.ScanEdges | src/link/fn.js:457-466 | the inner edge loop sees exactly the segment's crossings and keeps the first nearest of everything seen |
| PartLinks.PickWireAttachPoint | src/link/fn.js:435-469 | `pickWireAttachPointToRect` returns `AttachPoint`: null without a box or with fewer than two points, then head, then tail, then the first nearest crossing |
| PartLinks.NearestCrossing | src/link/fn.js:453-468 | the nested loops return the first nearest of all crossings, or `null` when there is none |
| PartLinks.UniqSpec | src/link/fn.js:524-533 | the de-duplicated list keeps one attach point per rounded `EPS` cell, covers every cell of the input, and keeps only input points |
| PartLinks.Uniq | src/link/fn.js:524-533 | the de-duplication loop keeps the first attach point of each rounded cell, in order |
| PartLinks.RowSpec | src/link/fn.js:475-476 | the inner loop of `pickFarthestPair` visits (i, i+1), ..., (i, n-1) |
| PartLinks.RowsComplete | src/link/fn.js:474-476 | every pair p < q of indices is visited by the nested loops |
| PartLinks.PairsSpec | src/link/fn.js:474-476 | the nested loops visit every index pair i < j exactly in lexicographic order, and none when there are fewer than two points |
| PartLinks.FarthestIndexSpec | src/link/fn.js:477-481 | the chosen pair is at least as far apart as every pair, and strictly farther than every earlier pair |
| PartLinks.FarthestSnoc | src/link/fn.js:477-481 | one more pair becomes the best exactly when strictly farther than the current best |
| PartLinks.Farthest | src/link/fn.js:472-486 | the pair picked is a pair of valid indices i < j |
| PartLinks.FarthestSpec | src/link/fn.js:472-486 | `pickFarthestPair` returns `null` exactly for fewer than two points; otherwise the first pair (in loop order) of maximal squared distance |
| PartLinks.SortedBefore | src/link/fn.js:474-476 | in the visiting order, a pair that comes lexicographically earlier is visited earlier |
| PartLinks.ScanRow | src/link/fn.js:475-482 | the inner loop sees the pairs of row i and keeps the first farthest of all pairs seen |
| PartLinks.ComparePair | src/link/fn.js:477-481 | one pair replaces the best only when strictly farther apart |
| PartLinks.TracksStep | src/link/fn.js:477-481 | comparing one more pair keeps the best the first farthest of those seen |
| PartLinks.PickFarthestPair | src/link/fn.js:472-486 | the nested loops compute `Farthest` |
| PartLinks.MeasurePolyline | src/link/fn.js:488-498 | the running sum equals `PolylineLength` |
| PartLinks.GatheredSpec | src/link/fn.js:507-521 | every collected value comes from some wire, and every wire with a value contributes it |
| PartLinks.AttachesSpec | src/link/fn.js:507-521 | the attach list holds exactly the attach points of the component's wires that touch the part, each tagged with its wire |
| PartLinks.AtPoints | src/link/fn.js:535 | the positions of a list of attach points, one per entry |
| PartLinks.PairOfSpec | src/link/fn.js:535-536 | no pair for fewer than two points; otherwise two listed points at maximal distance, in distinct cells when the list's cells are distinct |
| PartLinks.ChosenPairSpec | src/link/fn.js:504-538 | a part gets a pair exactly when two or more distinct attach cells remain. Both ends are attach points of component wires touching the part, lie in different cells and are distinct points at maximal distance |
| PartLinks.LinkOfSpec | src/link/fn.js:538-552 | the jumper is named `link:<part>:<n>`, records its part, runs between the two chosen points, records their wires, and has `Math.hypot` length |
| PartLinks.PartLinkFor | src/link/fn.js:504-553 | the loop body for one part computes `PartLink` |
| PartLinks.JumperFor | src/link/fn.js:504-553 | the same body as the component's jumper rule |
| PartLinks.PartLinksLabelled | src/link/fn.js:540-541 | the jumper rule names each link after its part and its index |
| PartLinks.WithPartLinksPrefix | src/link/fn.js:504-553 | taking one more part applies that part's rule to the map so far |
| PartLinks.WithPartLinksNumbered | src/link/fn.js:549-552 | every list stays numbered: link k of part p is `link:<p>:<k>` and carries p |
| PartLinks.AddLinkNumbered | src/link/fn.js:549-552 | one turn of a labelled rule keeps the lists numbered |
| PartLinks.WithPartLinksOthers | src/link/fn.js:505 | parts outside the component keep their link lists |
| PartLinks.WithPartLinksGrow | src/link/fn.js:504-553 | each part of the component, listed once, gains exactly its jumper, if any, at the end of its list |
| PartLinks.WithPartLinksTail | src/link/fn.js:505 | later parts leave a part's list alone |
| PartLinks.PartLinkTable.constructor | src/link/fn.js:549 | the link table starts empty |
| PartLinks.PartLinkTable.AddPartLinks | src/link/fn.js:501-554 | `buildPartLinks(comp)` updates the table in place to `WithPartLinks` of the old table, one part after another |
| PartLinks.PartLinkTable.AddPartLink | src/link/fn.js:504-553 | one part's jumper, if it has one, is appended to its list in place |
| LinkBuild.KeyOfBox | src/link/fn.js:897-902 | components found from different boxes have different `compKey`s, because the key holds the box id |
| LinkBuild.SeedsSpec | src/link/fn.js:776-778 | the boxes searched from are exactly those with a bounding box, in increasing order |
| LinkBuild.LinksAfterNumbered | src/link/fn.js:911 | after the jumpers of every component, every link list is still numbered `link:<part>:<k>` |
| LinkBuild.LinksAfterUnreached | src/link/fn.js:911 | a part that no component reaches gets no link |
| LinkBuild.ComponentInDrawing | src/link/fn.js:777-877 | the wires and parts of a component name elements of the drawing |
| LinkBuild.BuiltSkip | src/link/fn.js:777-778 | a box without a bounding box is skipped and changes nothing |
| LinkBuild.KeysSnoc | src/link/fn.js:905 | adding a component adds its key to the seen keys |
| LinkBuild.BuiltAdd | src/link/fn.js:897-913 | the component of a new box never repeats a seen key, so it is kept, its jumpers are built and it is pushed |
| LinkBuild.BuildLinkSets | src/link/fn.js:751-917 | one component per box with a bounding box, in box order. Each holds exactly the nodes reachable from its box, all keys are distinct, and the link table holds the jumpers of every component in order |
| CompAdj.KeepSpec | src/link/fn.js:952-955 | the filtered candidates are exactly those that pass the exact test, without repetition when the candidates have none |
| CompAdj.KeepLoop | src/link/fn.js:951-955 | the candidate loop pushes exactly the passing candidates, in candidate order |
| CompAdj.WireItemsOf | src/link/fn.js:934 | the component's wire index holds each of its wires with that wire's box |
| CompAdj.PartItemsOf | src/link/fn.js:935 | the component's part index holds each of its parts with that part's box |
| CompAdj.FoundIfNear | src/link/fn.js:949-950 | an item whose box meets the query box within the tolerance is a candidate |
| CompAdj.CandidateIndexed | src/link/fn.js:952-953 | only indexed ids are candidates, so `wireById.get` / `partById.get` always finds them |
| CompAdj.CandidatesNoDup | src/link/fn.js:734-743 | a candidate list has no repetition |
| CompAdj.WireNodes | src/link/fn.js:972 | the wire ids of the component, in order |
| CompAdj.TableSnoc | src/link/fn.js:968 | setting one more key extends the table by that key's row |
| CompAdj.TableStep | src/link/fn.js:959-969 | one turn of a table loop sets the current key to its row and keeps the others |
| CompAdj.WiresOnSpec | src/link/fn.js:947-969 | the wires listed for a rectangle are exactly the component's wires touching it, each once |
| CompAdj.PartsOnSpec | src/link/fn.js:971-981 | the parts listed for a wire are exactly the component's parts it touches, each once |
| CompAdj.WiresMetSpec | src/link/fn.js:983-995 | the wires listed for a wire are exactly the component's other wires it touches, each once; the wire itself is skipped |
| CompAdj.WiresMetSymmetric | src/link/fn.js:983-995 | wire v is in wire w's list exactly when w is in v's list |
| CompAdj.PartWireSymmetric | src/link/fn.js:959-981 | a part lists a wire in `partToWires` exactly when the wire lists the part in `wireToParts` |
| CompAdj.WiresOnRect | src/link/fn.js:949-955 | one pass over the candidates of a rectangle yields `WiresOn` |
| CompAdj.PartsOnWire | src/link/fn.js:973-979 | one pass over the part candidates of a wire yields `PartsOn` |
| CompAdj.WiresMetBy | src/link/fn.js:985-992 | one pass over the wire candidates of a wire yields `WiresMet` |
| CompAdj.PartTable | src/link/fn.js:959-969 | the `partToWires` loop builds the table of `WiresOn` for every part of the component |
| CompAdj.WirePartTable | src/link/fn.js:971-981 | the `wireToParts` loop builds the table of `PartsOn` for every wire of the component |
| CompAdj.WireWireTable | src/link/fn.js:983-995 | the `wireToWires` loop builds the table of `WiresMet` for every wire of the component |
| CompAdj.BuildAdjacency | src/link/fn.js:929-997 | `buildAdjacencyForComp` returns the box's wires and the three tables of `AdjacencyOf` |
| CompAdj.ReachedHasBox | src/link/fn.js:777-877 | every node reachable from a box with a box of its own is a valid node with a bounding box |
| CompAdj.ComponentIndexable | src/link/fn.js:929-936 | a component found by the search can be indexed: its box, wires and parts all have boxes |
| RouteEnum.WithoutSpec | src/link/fn.js:1085-1086 | `outs` holds exactly the part's wires other than the one it was entered by |
| RouteEnum.Leave | src/link/fn.js:1098-1117 | leaving a part pushes one token and two lengths (the link's, then the wire's) and changes nothing below the part's token |
| RouteEnum.AllExtendAppend | src/link/fn.js:1041-1132 | routes that all extend the current stacks still do when joined |
| RouteEnum.AllExtendWeaken | src/link/fn.js:1041-1132 | routes that extend a stack also extend every prefix of it |
| RouteEnum.WireRoutesShape | src/link/fn.js:1041-1079 | every route reported from a wire extends the token and length stacks as they were there |
| RouteEnum.PartStepsShape | src/link/fn.js:1045-1059 | the same for the routes through the wire's parts |
| RouteEnum.PartStepShape | src/link/fn.js:1046-1058 | the same for the routes through one part |
| RouteEnum.WireHopsShape | src/link/fn.js:1062-1077 | the same for the routes through the wire's neighbouring wires |
| RouteEnum.WireHopShape | src/link/fn.js:1063-1076 | the same for the routes through one neighbouring wire |
| RouteEnum.PartRoutesShape | src/link/fn.js:1081-1132 | every route reported from a part keeps the stacks below the part's token and its lengths |
| RouteEnum.OutStepsShape | src/link/fn.js:1095-1131 | the same for the loop over the ways out of a part |
| RouteEnum.OutStepShape | src/link/fn.js:1096-1130 | the same for one way out, including the cycle case that reports the route as it is |
| RouteEnum.FromBoxShape | src/link/fn.js:1029-1041 | every route starts with the box token and one of the box's start wires and has one more token than lengths plus one. Its first length is that wire's scaled length, and its total is the sum of its lengths |
| RouteEnum.AllOkAppend | src/link/fn.js:1041-1132 | routes that are all simple table paths within the depth cap still are when joined |
| RouteEnum.Push | src/link/fn.js:1048-1053 | pushing a node that is not visited and that the tables list after the current node keeps the stack a simple path along the tables, one deeper |
| RouteEnum.WireRoutesOk | src/link/fn.js:1041-1079 | from a wire on a simple path, every route reported has no node twice, steps along the tables, ends at a part entered from a wire, and has at most `maxDepth + 1` tokens |
| RouteEnum.PartStepsOk | src/link/fn.js:1045-1059 | the same for the routes through the wire's parts |
| RouteEnum.PartStepOk | src/link/fn.js:1046-1058 | the same for one part: a part already visited is skipped, so it never appears twice |
| RouteEnum.WireHopsOk | src/link/fn.js:1062-1077 | the same for the routes through the wire's neighbouring wires |
| RouteEnum.WireHopOk | src/link/fn.js:1063-1076 | the same for one neighbouring wire: a wire already visited is skipped |
| RouteEnum.PartRoutesOk | src/link/fn.js:1081-1093 | a part reports its route only within the depth cap, and every way out keeps the properties |
| RouteEnum.OutStepsOk | src/link/fn.js:1095-1131 | the same for the loop over the ways out of a part |
| RouteEnum.LeaveNodes | src/link/fn.js:1098-1117 | leaving a part keeps the nodes of the tokens below the new wire and marks that wire visited |
| RouteEnum.OutStepOk | src/link/fn.js:1096-1130 | the same for one way out: a visited wire ends the route at the part, and an unvisited one is pushed without repeating a node |
| RouteEnum.FromBoxOk | src/link/fn.js:1031-1041 | when the box is not one of its start wires, every route of every start wire is a simple table path ending at a part within the depth cap |
| RouteEnum.FromBoxRoutes | src/link/fn.js:1029-1132 | every route of the box starts at the box and one of its start wires, never holds a node twice, steps along `wireToParts`, `partToWires` and (when enabled) `wireToWires`, ends at a part the wire before it lists, and has at most `maxDepth + 1` tokens |
| RouteEnum.RouteWalker.constructor | src/link/fn.js:1033-1037 | the token, length and visited stacks and the report start empty |
| RouteEnum.RouteWalker.DfsWire | src/link/fn.js:1041-1079 | `dfsWire` appends `WireRoutes` to the report and restores the stacks it found |
| RouteEnum.RouteWalker.EnterParts | src/link/fn.js:1045-1059 | the loop over the wire's parts appends `PartSteps` and restores the stacks |
| RouteEnum.RouteWalker.EnterWires | src/link/fn.js:1062-1077 | the loop over the wire's wires appends `WireHops` and restores the stacks |
| RouteEnum.RouteWalker.EnterPart | src/link/fn.js:1046-1058 | one part is marked visited, pushed, searched from, popped and unmarked |
| RouteEnum.RouteWalker.EnterWire | src/link/fn.js:1063-1076 | one wire is marked visited, pushed with its length, searched from, popped and unmarked |
| RouteEnum.RouteWalker.DfsPart | src/link/fn.js:1081-1132 | `dfsPart` reports the route at a terminal part or follows every way out, and restores the stacks |
| RouteEnum.RouteWalker.LeaveAll | src/link/fn.js:1095-1131 | the loop over the ways out appends `OutSteps` and restores the stacks |
| RouteEnum.RouteWalker.LeavePart | src/link/fn.js:1096-1130 | one way out: report and stop on a visited wire, or cross the link, push the wire, search from it and undo it all |
| RouteEnum.RouteWalker.Unwind | src/link/fn.js:1122-1129 | the pops after a way out restore the stacks to what they were before it |
| RouteEnum.RouteWalker.Run | src/link/fn.js:1029-1041 | the loop over the box's start wires appends `FromBox` |
| RouteEnum.PartStepsSnoc | src/link/fn.js:1045-1059 | one more part of the loop appends that part's routes |
| RouteEnum.WireHopsSnoc | src/link/fn.js:1062-1077 | one more wire of the loop appends that wire's routes |
| RouteEnum.OutStepsSnoc | src/link/fn.js:1095-1131 | one more way out appends its routes |
| RouteEnum.FromBoxSnoc | src/link/fn.js:1031-1041 | one more start wire appends the routes from it |
| RouteEnum.RoutesOf | src/link/fn.js:1028-1134 | a fresh walker run over the box reports exactly `FromBox`; when the box is not among its start wires, every route is a simple path along the tables that starts at the box and a start wire, ends at a part and has at most `maxDepth + 1` tokens |
| RouteEnum.WireLengths | src/link/fn.js:1011-1012 | `wireLen` maps exactly the component's wires, each to its polyline length times `scale` |
| RouteEnum.MeasureWires | src/link/fn.js:1011-1012 | the loop fills `wireLen` as `WireLengths` |
| RouteEnum.CompWire | src/link/fn.js:1011-1012 | a wire of the component is a wire of the drawing |
| RouteEnum.KeyWire | src/link/fn.js:1007-1008 | a key of the wire tables is a wire of the component with a bounding box |
| RouteEnum.CompPart | src/link/fn.js:1007-1008 | a part of the component is a valid part with a bounding box |
| RouteEnum.WirePartContact | src/link/fn.js:1045 | a part that `wireToParts` lists for a wire is a part that touches the wire |
| RouteEnum.PartWireContact | src/link/fn.js:1084 | a wire that `partToWires` lists for a part touches the part's rectangle |
| RouteEnum.WireWireContact | src/link/fn.js:1063 | a wire that `wireToWires` lists for a wire is another wire touching it |
| RouteEnum.TablesFollowContact | src/link/fn.js:1007-1008 | every step along the component's tables is a contact in the drawing |
| RouteEnum.AdjacencyContact | src/link/fn.js:1007-1008 | the tables `buildAdjacencyForComp` builds list only contacts, start from wires touching the box, and list only parts after a wire |
| RouteEnum.BoxNotStart | src/link/fn.js:1037 | the box is never one of its own start wires, so the visited set starts with two different nodes |
| RouteEnum.ChainedContact | src/link/fn.js:1029-1132 | a token path from the box through a start wire along the tables, ending at a part a wire lists, is a path of contacts in the drawing that ends at a part |
| RouteEnum.RoutesAreContactPaths | src/link/fn.js:1029-1132 | over such tables, every route starts at the box, never visits a node twice, steps from each node to one it touches, ends at a part, and has between 3 and `maxDepth + 1` tokens |
| RouteEnum.PrintRoutesFromBox | src/link/fn.js:999-1135 | the routes reported for a component are `FromBox` over its adjacency, starting from `boxToWires`; each is a path of the drawing from the component's box to a part that never visits a node twice, steps from each node to one it touches, and has between 3 and `maxDepth + 1` tokens |
| EntryRoutes.ShortestTreeIsTree | src/link/fn2.js:73-109 | the distances and `prev` links Dijkstra leaves form a tree that `pathTo` can walk back |
| EntryRoutes.ReversedSnoc | src/link/fn2.js:108 | reversing a list extended at the end puts the new element first |
| EntryRoutes.WalkBack | src/link/fn2.js:101-109 | `pathTo` collects the wires met while following `prev` and reverses them, yielding `PathTo` |
| EntryRoutes.WireLens | src/link/fn2.js:134-137 | one length per wire of the path |
| EntryRoutes.WireLensSnoc | src/link/fn2.js:134-137 | one more wire appends its length |
| EntryRoutes.SumAppend | src/link/fn2.js:153 | the sum of a concatenation is the sum of the sums |
| EntryRoutes.PathToSpec | src/link/fn2.js:101-109 | the path ends at the target and starts at a start wire (whose `prev` is null). Each wire's `prev` is the one before it, and the path's lengths add up to the target's distance |
| EntryRoutes.WireLabels | src/link/fn2.js:134-137 | one `wire<n>` label per wire of the path |
| EntryRoutes.LabelsSpec | src/link/fn2.js:131-140 | labels carry the node's number: `box<n>`, `wire<n>`, `part<n>` |
| EntryRoutes.EndsSpec | src/link/fn2.js:117-121 | entry and other are the jumper's two wires. The entry has a distance when either does. It is the nearer one, and on a tie the first |
| EntryRoutes.LinkRouteSpec | src/link/fn2.js:116-161 | a jumper's route exists exactly when its entry was reached. It runs from the box along the path to the entry, out over the jumper and the other wire, back over the jumper and the entry, to the part. Its sum is the entry's distance plus both jumper lengths and both wire lengths |
| EntryRoutes.BestHit | src/link/fn2.js:184-189 | the chosen wire is one of the hit wires and has a distance |
| EntryRoutes.BestHitSpec | src/link/fn2.js:184-189 | no choice exactly when no hit wire was reached; otherwise the first reached hit wire of least distance |
| EntryRoutes.PickBest | src/link/fn2.js:183-189 | the loop choosing `best` computes `BestHit` |
| EntryRoutes.JoinedSnoc | src/link/fn2.js:114-205 | one more part appends that part's routes |
| EntryRoutes.JoinedStep | src/link/fn2.js:114-205 | the loops' step: the routes so far plus the current part's are the routes of one more part |
| EntryRoutes.TerminalRouteSpec | src/link/fn2.js:168-204 | a part without jumpers gets a route exactly when some reached wire touches it. The route enters by a touching wire of least distance, follows the path from the box to that wire, and sums to that distance |
| EntryRoutes.BestHitNearest | src/link/fn2.js:173-189 | when the hit list holds exactly the touching wires, the best hit is a reached touching wire of least distance, and it is absent exactly when none is reached |
| EntryRoutes.WellFormedAppend | src/link/fn2.js:110-206 | routes that all start at the box and add up correctly still do when joined |
| EntryRoutes.JumperRoutesWellFormed | src/link/fn2.js:116-161 | every jumper route starts at the box label and its sum is the sum of its lengths |
| EntryRoutes.LinkRoutesWellFormed | src/link/fn2.js:114-162 | the same for the routes of every part with jumpers |
| EntryRoutes.JoinedWellFormed | src/link/fn2.js:114-205 | joining per-part routes that are well formed gives well formed routes |
| EntryRoutes.TerminalPartWellFormed | src/link/fn2.js:167-204 | the routes of one part without jumpers are well formed |
| EntryRoutes.TerminalRouteWellFormed | src/link/fn2.js:191-204 | a terminal route starts at the box label and its sum is the sum of its lengths |
| EntryRoutes.TerminalRoutesWellFormed | src/link/fn2.js:165-205 | the same for the routes of every part without jumpers |
| EntryRoutes.RoutesWellFormed | src/link/fn2.js:110-206 | every route `printRoute` returns starts at the box label and its sum is the sum of its lengths |
| EntryRoutes.Total | src/link/fn2.js:153 | `lens.reduce((a, b) => a + b, 0)` is the sum of the lengths |
| EntryRoutes.Prefix | src/link/fn2.js:130-137 | the prefix is the box label followed by one label and one length per wire of the path |
| EntryRoutes.JumperRoute | src/link/fn2.js:116-161 | the body of the `forEach` over a part's jumpers yields `LinkRoute` |
| EntryRoutes.JumperRoutesLoop | src/link/fn2.js:116-161 | the `forEach` over one part's jumpers yields `JumperRoutes` |
| EntryRoutes.LinkRoutesLoop | src/link/fn2.js:113-162 | the loop over the parts with jumpers yields `LinkRoutes` |
| EntryRoutes.TerminalRouteOf | src/link/fn2.js:168-204 | the body for one part without jumpers yields `TerminalRoute` |
| EntryRoutes.TerminalPartOf | src/link/fn2.js:167-204 | the same, as the part's list of routes |
| EntryRoutes.TerminalRoutesLoop | src/link/fn2.js:165-205 | the loop over the parts without jumpers yields `TerminalRoutes` |
| EntryRoutes.WireSetHas | src/link/fn2.js:36-40 | the wire set holds exactly the component's wires |
| EntryRoutes.ShortestInputs | src/link/fn2.js:40-66 | wire lengths are non-negative; start wires and adjacency lists name only the component's wires |
| EntryRoutes.PrintRoute | src/link/fn2.js:31-207 | nothing without wires or parts. Otherwise Dijkstra's distances and `prev` links form a shortest-path tree, and the result is the jumper routes followed by the terminal routes |
| Shortest.RectBoundsFromPoints | src/link/fn2.js:2-14 | the running minima and maxima from ±Infinity give the box of the points (infinite for no point) |
| Shortest.PointInRectInclusiveSpec | src/link/fn2.js:15-18 | a point is inside exactly when some rectangle point is at or left of it, some at or right of it, some at or below and some at or above |
| Shortest.InclusiveTouchIntersects | src/link/fn2.js:19-21 | a wire with a vertex inside the rectangle also passes the tolerant test when it has two or more points; with fewer, the tolerant test always fails |
| Shortest.SharedPointIntersects | src/link/fn.js:598-600 | two boxes sharing a point meet at any tolerance |
| Shortest.HitWiresSpec | src/link/fn2.js:61-67 | the start wires are exactly the component's wires that touch the box or have a vertex inside it, each once |
| Shortest.HitWiresLoop | src/link/fn2.js:61-67 | the start-wire loop computes `HitWires` |
| Shortest.TouchSymmetric | src/link/fn2.js:47-56 | wire contact is symmetric |
| Shortest.PartnersSpec | src/link/fn2.js:47-56 | the wires joined to w when w is scanned are exactly the touching wires with a larger number, each once |
| Shortest.AddEdgeKeys | src/link/fn2.js:54-55 | adding an edge adds both directions and keeps the rows free of repetition |
| Shortest.AddEdgeHas | src/link/fn2.js:54-55 | after adding the edge a–b, y is listed for x exactly when it was before or {x, y} = {a, b} |
| Shortest.AddEdgesKeys | src/link/fn2.js:47-56 | joining a wire to its partners keeps the keys and the rows free of repetition |
| Shortest.AddEdgesHas | src/link/fn2.js:47-56 | joining a to each of bs adds exactly those pairs, both ways |
| Shortest.AdjOfKeys | src/link/fn2.js:43-57 | scanning keeps a row for every wire, without repetition |
| Shortest.AdjOfHas | src/link/fn2.js:43-57 | after the scan, y is listed for x exactly when they touch and the lower-numbered of the two was scanned |
| Shortest.PartnerRowHas | src/link/fn2.js:47-56 | the partner row of w holds exactly the touching wires with a larger number |
| Shortest.InitRows | src/link/fn2.js:43 | every wire of the component starts with an empty row |
| Shortest.WireAdjKeys | src/link/fn2.js:43-57 | the adjacency has one row per wire of the component, without repetition |
| Shortest.WireAdjHas | src/link/fn2.js:43-57 | y is listed for x exactly when they are two different wires of the component in contact |
| Shortest.WireAdjSymmetric | src/link/fn2.js:54-55 | every edge of the adjacency goes both ways |
| Shortest.KeepSnoc | src/link/fn2.js:47-56 | looking at one more candidate keeps it exactly when it passes |
| Shortest.AddEdgesSnoc | src/link/fn2.js:54-55 | joining one more partner adds its edge |
| Shortest.JoinPartners | src/link/fn2.js:47-56 | the inner loop adds an edge, both ways, for each passing candidate |
| Shortest.EmptyAdj | src/link/fn2.js:43 | the adjacency starts with an empty row for every wire |
| Shortest.AdjOfSnoc | src/link/fn2.js:45-57 | scanning one more wire joins it to its partners |
| Shortest.PartnerRowQuery | src/link/fn2.js:47-53 | what the scan of a wire queries and keeps is its row of partners |
| Shortest.BuildWireAdj | src/link/fn2.js:43-57 | the nested loops build `WireAdj`, in which contact goes both ways |
| Dijkstra.PushMultiset | src/link/fn2.js:74-77 | `push` adds exactly the new item to the heap's contents |
| Dijkstra.PushHas | src/link/fn2.js:74-77 | after `push`, the heap holds the old items and the new one |
| Dijkstra.PushSorted | src/link/fn2.js:74-77 | `push` keeps the heap sorted by `d` |
| Dijkstra.LowerHeap | src/link/fn2.js:92-96 | lowering a distance and pushing the new item keeps the heap's bounds |
| Dijkstra.TailHeap | src/link/fn2.js:88-89 | `heap.shift()` removes the least item, and the rest stays sorted |
| Dijkstra.SeedSet | src/link/fn2.js:79-86 | seeding a start wire at its length, below its distance, keeps the invariant |
| Dijkstra.SeedRoots | src/link/fn2.js:82-84 | a start wire set to its own length without a link is a root |
| Dijkstra.SeedRest | src/link/fn2.js:82-85 | seeding keeps the domains, the pending items, non-negative distances and the links |
| Dijkstra.SeedSkip | src/link/fn2.js:81 | skipping a start wire already at its length keeps the invariant |
| Dijkstra.PopStale | src/link/fn2.js:88 | taking a stale item off the heap changes nothing else |
| Dijkstra.PopHeap | src/link/fn2.js:87-88 | the current item's wire is unsettled, is not repeated in the rest, and bounds the rest from below |
| Dijkstra.PopFin | src/link/fn2.js:87-88 | settling the current wire at the new floor keeps the settled bounds |
| Dijkstra.PopPending | src/link/fn2.js:88-89 | every unsettled distance but the one settled stays in the heap |
| Dijkstra.PopLinks | src/link/fn2.js:87-89 | settling a wire not settled before keeps the links' order |
| Dijkstra.PopSettled | src/link/fn2.js:87-89 | settling a wire with nothing relaxed yet keeps what the others relaxed |
| Dijkstra.PopCurrent | src/link/fn2.js:87-89 | taking a current item off the heap settles its wire and keeps the invariant |
| Dijkstra.LowerFin | src/link/fn2.js:92-95 | lowering an unsettled wire keeps the settled bounds and the pending items |
| Dijkstra.LowerLinks | src/link/fn2.js:92-94 | linking v to the settled wire u, at u's distance plus v's length, keeps every link's promise |
| Dijkstra.LowerSettled | src/link/fn2.js:89-96 | relaxing neighbour j of u keeps the settled wires' neighbours relaxed |
| Dijkstra.LowerRoots | src/link/fn2.js:94 | linking v leaves the start wires without a link as they were |
| Dijkstra.RelaxSet | src/link/fn2.js:90-95 | relaxing a neighbour to a lower distance keeps the invariant, and distances never go up |
| Dijkstra.RelaxFresh | src/link/fn2.js:90-92 | a neighbour that gets lowered is an unsettled wire and not a start wire, and the new distance is non-negative |
| Dijkstra.LowerDomains | src/link/fn2.js:92-95 | lowering keeps the domains, non-negative distances and the seeded start wires |
| Dijkstra.RelaxSkip | src/link/fn2.js:91-92 | leaving a neighbour as it is keeps the invariant |
| Dijkstra.Drained | src/link/fn2.js:86-98 | when the heap is empty, the distances and links form a shortest-path tree |
| Dijkstra.Seed | src/link/fn2.js:72-86 | the seeding loop leaves every start wire at its own length without a link, and the invariant holds |
| Dijkstra.RelaxAll | src/link/fn2.js:89-96 | the loop over the settled wire's neighbours relaxes all of them and never raises a distance |
| Dijkstra.Step | src/link/fn2.js:86-97 | one turn of the main loop keeps the invariant and settles a wire or shrinks the heap |
| Dijkstra.Settle | src/link/fn2.js:87-96 | a current item settles one more wire |
| Dijkstra.ShortestFrom | src/link/fn2.js:72-98 | every start wire is at its own length without a link, and every other reached wire is linked to a wire listing it at that wire's distance plus its length. Every neighbour of a reached wire is reached no further than that, and the links follow a ranking |
| Helper.GetColor | src/helper.js:23-35 | a positive entity colour wins, else a positive layer colour, else white; the result is positive and at most `0xffffff` |
| Helper.HexOfRed | src/helper.js:331-334 | `0xFF0000` prints as `FF0000` |
| Helper.HexOfCyan | src/helper.js:331-334 | `0x00FFFF` prints as `00FFFF` after padding |
| Helper.HexStrSnoc | src/helper.js:331-334 | one more low hex digit appends its character to the base-16 text |
| Helper.NegativeHasMinus | src/helper.js:331-334 | a negative colour prints with a minus sign |
| Helper.NegativeNotRed | src/helper.js:341-347 | no negative number is taken for a wire colour |
| Helper.NoMinusInWireHex | src/helper.js:342-343 | neither wire colour code has a minus sign |
| Helper.HexColorValue | src/helper.js:331-334 | reading the printed hex back gives the colour (padding and upper case lose nothing) |
| Helper.WireColorsAreRed | src/helper.js:341-347 | red `0xFF0000` and cyan `0x00FFFF` are wire colours |
| Helper.OnlyWireColorsAreRed | src/helper.js:341-347 | any colour taken for a wire colour is one of the two |
| Helper.IsRedColorByHexSpec | src/helper.js:341-347 | the hex comparison holds exactly for `0xFF0000` and `0x00FFFF` |
| Helper.ColorHexInjective | src/helper.js:369 | two non-negative colours with the same `#` code are equal |
| Helper.SuffixEqual | src/helper.js:371-374 | keys with the same prefix are equal only when their tails are |
| Helper.CategoryUniqueKeyColor | src/helper.js:368-375 | polyline and line keys differ exactly when the colours differ; other types ignore the colour |
| Helper.PaddedValue | src/helper.js:333 | zero padding keeps the hex value |
| Helper.IsContainChinese | src/helper.js:378-382 | true exactly for a non-empty string with a character in U+4E00..U+9FA5 |
| Helper.HasHan | src/helper.js:380-381 | the regular expression finds a character exactly when one in the range exists |
| Helper.FirstText | src/helper.js:352 | `find` returns the first attribute with truthy text, or none when no attribute has it |
| Helper.FirstAttdef | src/helper.js:357 | `find` returns the first ATTDEF whose trimmed text is non-empty, or none |
| Helper.IndexOf | src/helper.js:361 | the position of the first occurrence of the character |
| Helper.ReplaceFirstDollar | src/helper.js:361 | replacing the first `$` keeps the length |
| Helper.UnderscoresToSpaces | src/helper.js:361 | every underscore becomes a space and nothing else changes |
| Helper.CleanNameSpec | src/helper.js:361 | the cleaned block name has no underscore and is already trimmed |
| Helper.SliceKeepsOut | src/helper.js:361 | trimming cannot bring back a removed character |
| Helper.AttrText | src/helper.js:351-354 | a non-empty result is the trimmed text of the first attribute with text |
| Helper.AttdefText | src/helper.js:356-359 | an INSERT whose block has an ATTDEF with text yields the trimmed text of the first such one, and only then |
| Helper.AttrTextTrimmed | src/helper.js:352 | the attribute text is returned trimmed |
| Helper.AttdefTextTrimmed | src/helper.js:358 | the ATTDEF text is returned trimmed |
| Helper.DisplayNameSpec | src/helper.js:349-365 | priority: attribute text, then ATTDEF text, then the cleaned block name, then the type or the word for entity; the first three are trimmed |
| Helper.KeyShape | src/helper.js:321-324 | the key is type, `:`, layer, `:`, id |
| Helper.SplitEntityKey | src/helper.js:321-324 | splitting the key at `:` gives back type and layer first |
| Helper.EntityUniqueKeyInjective | src/helper.js:321-324 | for types and layers without `:`, two keys are equal exactly when type, id and layer (missing becoming `default`) are |
| Contact.StrLtIrreflexive | src/helper.js:587 | the default string order is irreflexive |
| Contact.StrLtTransitive | src/helper.js:587 | the default string order is transitive |
| Contact.StrLtTotal | src/helper.js:587 | any two different strings are ordered |
| Contact.Insert | src/helper.js:587 | inserting into the sorted list adds exactly that element |
| Contact.SortStrs | src/helper.js:587 | `slice().sort()` returns a permutation of the candidates |
| Contact.InsertSorted | src/helper.js:587 | insertion keeps a list sorted |
| Contact.SortStrsSorted | src/helper.js:587 | the sorted copy is in order |
| Contact.SortedHeadLeast | src/helper.js:587 | the first element of a sorted list is the least |
| Contact.SortedUnique | src/helper.js:587 | a sorted permutation is unique, so any correct sort gives the same key |
| Contact.ClassifyContact | src/helper.js:566-589 | the function returns the classification of the point against the box |
| Contact.PushAxis | src/helper.js:576-581 | the two tests on one axis push the min code, then the max code, exactly when each plane is within the tolerance |
| Contact.Finish | src/helper.js:583-588 | no candidate gives `unknown`; otherwise the count picks the kind and the sorted codes joined by a vertical bar the key |
| Contact.AxisStarts | src/helper.js:587 | an axis's sorted codes all start with the axis letter |
| Contact.SortedAppend | src/helper.js:587 | two sorted lists for successive axes make one sorted list |
| Contact.AxisSortedSorted | src/helper.js:587 | an axis's codes come out in order, `max` before `min` |
| Contact.CanonicalSorted | src/helper.js:587 | the canonical code order is sorted |
| Contact.AxisSameCodes | src/helper.js:576-581 | an axis pushes the same codes as it contributes in sorted order |
| Contact.SortedCandidates | src/helper.js:587 | sorting the pushed candidates gives the canonical order |
| Contact.CountCandidates | src/helper.js:576-581 | one candidate is pushed per plane within the tolerance |
| Contact.ClassifySpec | src/helper.js:566-589 | `unknown` exactly when no plane is near; one plane gives a face, two an edge, three or more a corner; the key joins the sorted plane codes |
| Contact.SplitJoin | src/helper.js:587 | the key can be split at the vertical bar back into its codes |
| Contact.LeadAppend | src/helper.js:587 | the codes of one axis lead the key up to the next axis |
| Contact.SplitAxis | src/helper.js:587 | the key splits uniquely into the parts of each axis |
| Contact.AxisInjective | src/helper.js:576-581 | an axis's sorted codes tell which of its planes were near |
| Contact.PartsStart | src/helper.js:587 | the canonical order is the x codes, then y, then z |
| Contact.CanonicalParts | src/helper.js:587 | equal canonical lists have equal parts per axis |
| Contact.CanonicalInjective | src/helper.js:587 | equal canonical lists come from the same planes |
| Contact.CanonicalCodes | src/helper.js:587 | there is one code per near plane; none holds a vertical bar or is `unknown` |
| Contact.KeyNotUnknown | src/helper.js:583-587 | a contact near some plane never has the key `unknown` |
| Contact.KeyInjective | src/helper.js:583-587 | equal keys come from the same set of near planes |
| Contact.KeyIffPlanes | src/helper.js:566-589 | two contacts share a key exactly when the same planes are near them, which is what makes the "same edge" filter sound |
| Scene.Toggle | src/Canvas.jsx:679-694 | pressing a button flips exactly its own switch |
| Scene.IsGroupVisible | src/Canvas.jsx:640-644 | panels and components follow the main switch, wires the wire switch, everything else the other switch: a group is shown exactly when its own switch is on |
| Scene.ToggleSpec | src/Canvas.jsx:640-644 | after a toggle, exactly the groups on that switch change visibility; toggling twice restores the switches |
| Scene.ContainsChar | src/Canvas.jsx:929 | a string containing a pattern contains each of its characters |
| Scene.PanelRegexSpec | src/Canvas.jsx:929 | the four-way alternation matches exactly when the name contains the single character for box, since every alternative contains it |
| Scene.GroupOfSpec | src/Canvas.jsx:924-934 | red or cyan lines and polylines are wires; otherwise a name with Han characters is a panel when it contains the box character and a component when not; everything else is other. The four groups are exclusive |
| Scene.CategoryKeyNotIndex | src/Canvas.jsx:898 | a category key always has a `:`, so it never reads as an array index and `Object.values` keeps insertion order |
| Scene.ObjRows | src/Canvas.jsx:892-898 | one row, with its key, per top-level object |
| Scene.Members | src/Canvas.jsx:900-914 | the positions of a key's objects lie below the scanned prefix |
| Scene.MembersHold | src/Canvas.jsx:900-914 | every object of a category has that category's key |
| Scene.MembersIncreasing | src/Canvas.jsx:913 | a category's objects keep traversal order |
| Scene.MembersComplete | src/Canvas.jsx:900-914 | every object with the key is in its category |
| Scene.MembersHead | src/Canvas.jsx:900-911 | the object that opened a category has its key |
| Scene.MembersNone | src/Canvas.jsx:900-912 | a key not seen before has no object yet, and then exactly the new one |
| Scene.DescribedNew | src/Canvas.jsx:900-911 | a new entry takes name, type and colour from the first object of its key |
| Scene.ListedNew | src/Canvas.jsx:900-911 | a new key is listed once, last |
| Scene.CollectedNew | src/Canvas.jsx:900-914 | a new key opens an entry holding the new object alone |
| Scene.CollectedOld | src/Canvas.jsx:913-914 | a known key's entry gets the object appended |
| Scene.CatOwn | src/Canvas.jsx:913 | the object joins the entry of its own key |
| Scene.CatOther | src/Canvas.jsx:913 | the other entries are left as they were |
| Scene.Categorize | src/Canvas.jsx:890-918 | the category list holds one entry per distinct key, in first-seen order, each with exactly its objects in order and the first object's description |
| Scene.RowsOf | src/Canvas.jsx:892-898 | the traversal computes each object's row |
| Scene.CollectStats | src/Canvas.jsx:890-918 | filling `entityStats` and listing it gives the categorized list |
| Scene.Record | src/Canvas.jsx:900-914 | one object recorded keeps the collection invariant one step further |
| Scene.RowOf | src/Canvas.jsx:895-898 | the row of one object: display name, colour defaulting to white, category key |
| Scene.ListStats | src/Canvas.jsx:918 | the entries are listed in key order |
| Scene.CollectedCategorized | src/Canvas.jsx:890-918 | a finished collection, listed, is the categorized list |
| Scene.InitialGroupMap | src/Canvas.jsx:922-935 | every category key maps to its computed group, and nothing else is mapped |
| Scene.KeyedBy | src/Canvas.jsx:923-935 | the loop gives one entry per category, under its key |
| Scene.InGroupSpec | src/Canvas.jsx:971-984 | an object is collected for a group exactly when some category of that group holds it |
| Scene.CollectGroup | src/Canvas.jsx:971-984 | `wireObjs` and `compObjs` are the objects of the categories in the group, missing keys counting as other |
| Scene.FirstWhere | src/Canvas.jsx:1002-1013 | the first match lies within the searched range |
| Scene.FirstWhereSpec | src/Canvas.jsx:1002-1013 | the search finds the first element that passes, or reports that none does |
| Scene.FirstClassified | src/Canvas.jsx:1002-1013 | the first segment with a contact lies within range |
| Scene.FirstClassifiedSpec | src/Canvas.jsx:1002-1013 | a wire's recorded contact comes from its first segment that hits the box at a point not `unknown`; with none, the wire has no contact |
| Scene.TryContact | src/Canvas.jsx:1003-1008 | one segment yields a contact exactly when it hits the box and the point is classified |
| Scene.WireHit | src/Canvas.jsx:1000-1014 | the segment loop with its `break` finds the first contact |
| Scene.WiresOfCons | src/Canvas.jsx:998 | the keys of the map are those of its entries |
| Scene.MapSetWires | src/Canvas.jsx:1011 | `hits.set` adds the key and its entry |
| Scene.MapSetFrom | src/Canvas.jsx:1011 | every entry after `set` is the new one or an old one under another key |
| Scene.MapSetDistinct | src/Canvas.jsx:1011 | `set` keeps the keys distinct |
| Scene.MapSetAt | src/Canvas.jsx:1011 | `set` on a present key replaces its entry where it stands |
| Scene.MapSetNew | src/Canvas.jsx:1011 | `set` on a new key appends its entry |
| Scene.Found | src/Canvas.jsx:1000-1014 | one search result per wire |
| Scene.HitsMapSpec | src/Canvas.jsx:998-1014 | the map has distinct keys, holds exactly the wires with a contact, and each entry is that wire's contact |
| Scene.FoundWiresSnoc | src/Canvas.jsx:1000 | scanning one more wire adds it when it has a contact |
| Scene.CollectHits | src/Canvas.jsx:998-1014 | the wire loop builds the map of first contacts |
| Scene.HitFor | src/Canvas.jsx:1001-1013 | the contact of the n-th wire |
| Scene.AddHit | src/Canvas.jsx:1000-1014 | one turn of the wire loop records that wire's contact |
| Scene.SetHit | src/Canvas.jsx:1011 | `hits.set` replaces the wire's entry or appends a new one |
| Scene.Row | src/Canvas.jsx:1020-1030 | row i links i to later contacts only |
| Scene.Pairs | src/Canvas.jsx:1019-1031 | the linked pairs are ordered and within the map |
| Scene.RowSpec | src/Canvas.jsx:1020-1030 | row i holds exactly the later contacts with a different key |
| Scene.PairsSpec | src/Canvas.jsx:1019-1031 | the pairs are exactly i < j whose contacts differ in key |
| Scene.Points | src/Canvas.jsx:1028 | one purple link per linked pair |
| Scene.PointsAppend | src/Canvas.jsx:1028-1029 | links of successive rows follow each other |
| Scene.PairLinks | src/Canvas.jsx:1018-1031 | the i/j loops add one link per linked pair, row by row |
| Scene.RowLinks | src/Canvas.jsx:1020-1030 | the inner loop adds the links of contact i |
| Scene.ComponentLinks | src/Canvas.jsx:998-1031 | the links of one component come from its map of first contacts |
| Scene.CompLinksSpec | src/Canvas.jsx:1016-1031 | fewer than two contacts give no link; otherwise two contacts are linked exactly when their keys differ, the `w1 === w2` test never firing |
| Scene.LinksOfComp | src/Canvas.jsx:993-996 | an empty component box gives no link |
| Scene.WireLinks | src/Canvas.jsx:993-1032 | the component loop concatenates each component's links |
| Scene.ClassifyAndLink | src/Canvas.jsx:890-1032 | every category gets its computed group, and the links are those between the wire objects and the component objects, at tolerance 2 |
| Attrib.TrimAll | src/selectInsert/Canvas.jsx:761-767 | one trimmed line per line |
| Attrib.TrimAllAt | src/selectInsert/Canvas.jsx:766-767 | the scanner's view of line k is line k trimmed |
| Attrib.Span | src/selectInsert/Canvas.jsx:783-788 | the read-ahead's pairs lie inside the text |
| Attrib.LastNone | src/selectInsert/Canvas.jsx:803-817 | a code that never occurs in the group leaves its field at its start value |
| Attrib.LastAt | src/selectInsert/Canvas.jsx:803-817 | a field takes the value of the group's last pair with its code |
| Attrib.AttribAt | src/selectInsert/Canvas.jsx:819-825 | the position is set exactly when x and y read as finite numbers, the height and the rotation exactly when each does |
| Attrib.Step | src/selectInsert/Canvas.jsx:774-833 | every turn advances by one pair and keeps the current handle's list present |
| Attrib.StepSpec | src/selectInsert/Canvas.jsx:779-833 | an INSERT sets the current handle to its code-5 value (or none) and opens an empty list for a new handle; an ATTRIB appends its record to the current handle only; SEQEND and ENDSEC clear the handle; any other pair changes nothing |
| Attrib.ScanKeepsLists | src/selectInsert/Canvas.jsx:790-819 | lists are only ever extended, never dropped or shortened |
| Attrib.ScanKeysTruthy | src/selectInsert/Canvas.jsx:790 | no handle in the map is empty |
| Attrib.ScanHandle | src/selectInsert/Canvas.jsx:782-788 | the read-ahead finds the last code-5 value of the INSERT's group |
| Attrib.ReadFieldsSeparately | src/selectInsert/Canvas.jsx:803-817 | the one pass over the group gives each field the value of its own last pair |
| Attrib.ScanAttrib | src/selectInsert/Canvas.jsx:795-825 | the read-ahead builds the ATTRIB's record |
| Attrib.StepBy | src/selectInsert/Canvas.jsx:779-833 | the turn depends only on the marker of its pair |
| Attrib.ReadMarker | src/selectInsert/Canvas.jsx:775-779 | the pair read is classified by its trimmed code and value |
| Attrib.Turn | src/selectInsert/Canvas.jsx:775-833 | one turn of the main loop performs `Step` |
| Attrib.ParseInsertAttribMapFromRaw | src/selectInsert/Canvas.jsx:757-837 | the loop computes the scan of the whole text from an empty map and no handle; no key is empty |
| Explode.ShouldSkipEntity | src/selectInsert/Canvas.jsx:742-754 | an entity is kept exactly when it is present, has a non-empty type, is not in paper space and its upper-cased type is not VIEWPORT; otherwise it is skipped |
| Explode.GetInsertHandle | src/selectInsert/Canvas.jsx:839-841 | the first truthy of handle, id, `dxf.handle` and `objectId`, else `null` |
| Explode.Entries | src/selectInsert/Canvas.jsx:846-858 | no block table gives nothing, an array gives its items in order, an object its entries with their keys |
| Explode.IndexOfKeys | src/selectInsert/Canvas.jsx:849-858 | a name is indexed exactly when some item is filed under it: its own name, or for a nameless item with entities its key |
| Explode.IndexOfLast | src/selectInsert/Canvas.jsx:851-857 | a name holds the last item filed under it, since `map.set` overwrites |
| Explode.BuildBlockIndex | src/selectInsert/Canvas.jsx:844-862 | the loops build the index of the block table |
| Explode.Attached | src/selectInsert/Canvas.jsx:877-884 | a kept INSERT gets the ATTRIBs of its handle, or none, and nothing else changes; any other entity is left alone |
| Explode.AttachedAll | src/selectInsert/Canvas.jsx:876-885 | every entity of the list is attached in place |
| Explode.AttachOnList | src/selectInsert/Canvas.jsx:874-886 | a missing list is left alone; a list has every entity attached |
| Explode.AttachAttribToAllInserts | src/selectInsert/Canvas.jsx:869-895 | the top-level entities and every indexed block's entities get their INSERTs' ATTRIBs, and the block names stay the same |
| Explode.CurrentAttrsSpec | src/selectInsert/Canvas.jsx:1137-1145 | a tag is collected exactly when some ATTRIB carries it, and it maps to the text of the last ATTRIB with that tag |
| Explode.CollectAttrs | src/selectInsert/Canvas.jsx:1137-1145 | the loop collects the INSERT's tags |
| Explode.AsPoint | src/selectInsert/Canvas.jsx:898-903 | a point exactly when both coordinates are finite, with those coordinates |
| Explode.FirstPoint | src/selectInsert/Canvas.jsx:1004 | the chain of logical-or alternatives gives the first finite candidate, or none |
| Explode.ApplyMatToPoint | src/selectInsert/Canvas.jsx:997-1001 | a placed point exactly when the point is finite |
| Explode.ApplyMatToPointComposes | src/selectInsert/Canvas.jsx:976-1001 | placing by a product of matrices places by the second and then the first |
| Explode.GetInsertMatrix | src/selectInsert/Canvas.jsx:1003-1015 | there is a matrix exactly when the INSERT has a finite position, insert point or insertion point |
| Explode.Count | src/selectInsert/Canvas.jsx:1168-1169 | `for (r = 0; r < n; r++)` runs the least whole number of turns at or above n |
| Explode.RemainingShrinks | src/selectInsert/Canvas.jsx:1160-1180 | pushing an unvisited block name onto the stack leaves fewer names to visit, so the recursion ends even on cyclic blocks |
| Explode.PlacementOf | src/selectInsert/Canvas.jsx:1149-1166 | an INSERT is expanded only with a matrix, an indexed block with an entity list, and a name not on the stack; its copies carry the stack plus that name and the inherited tags overridden by its own |
| Explode.ExplodeListLeaves | src/selectInsert/Canvas.jsx:1123-1199 | every leaf is a kept entity that is not an INSERT, comes from the list or an indexed block, and keeps every tag handed down |
| Explode.ExplodeOneLeaves | src/selectInsert/Canvas.jsx:1128-1196 | the same for one entity |
| Explode.ExplodeInsertLeaves | src/selectInsert/Canvas.jsx:1135-1187 | the leaves of an INSERT come from indexed blocks and carry its merged tags |
| Explode.GridRowsLeaves | src/selectInsert/Canvas.jsx:1168-1185 | the same for the rows of the array |
| Explode.GridColsLeaves | src/selectInsert/Canvas.jsx:1169-1184 | the same for the columns of one row |
| Explode.ExplodeListSize | src/selectInsert/Canvas.jsx:1123-1199 | the number of leaves does not depend on the parent matrix or the inherited tags |
| Explode.ExplodeOneSize | src/selectInsert/Canvas.jsx:1128-1196 | the same for one entity |
| Explode.ExplodeInsertSize | src/selectInsert/Canvas.jsx:1135-1187 | the same for one INSERT |
| Explode.GridRowsSize | src/selectInsert/Canvas.jsx:1168-1185 | the same for the rows |
| Explode.GridColsSize | src/selectInsert/Canvas.jsx:1169-1184 | the same for the columns |
| Explode.MulSucc | src/selectInsert/Canvas.jsx:1168 | one more row adds one row's worth of leaves |
| Explode.GridColsCount | src/selectInsert/Canvas.jsx:1169-1184 | c columns hold c copies of the block |
| Explode.GridRowsCount | src/selectInsert/Canvas.jsx:1168-1185 | r rows of `cols` columns hold r times `cols` copies |
| Explode.ExplodeInsertCount | src/selectInsert/Canvas.jsx:1152-1186 | an INSERT that is not expanded, or whose block is on the stack, gives nothing; otherwise the rows times the columns (each rounded up, 1 when not finite) times one copy's size |
| Explode.ExplodeEntities | src/selectInsert/Canvas.jsx:1123-1199 | the loop computes the explosion of the list |
| Explode.ExplodeInsertAt | src/selectInsert/Canvas.jsx:1135-1187 | the INSERT branch computes the explosion of the INSERT |
| Explode.ExplodeRow | src/selectInsert/Canvas.jsx:1169-1184 | the column loop of one row gives one copy per column |
| Explode.ApplyOpt | src/selectInsert/Canvas.jsx:997-1001 | a point that is present stays present |
| Explode.Present | src/selectInsert/Canvas.jsx:919 | the kept points are exactly the present ones, and no more than there were |
| Explode.PresentAppend | src/selectInsert/Canvas.jsx:1225-1260 | the points of two lists are the points of each in turn |
| Explode.SolidPoints | src/selectInsert/Canvas.jsx:914-921 | a SOLID contributes three or four corners, or none |
| Explode.FinishBoundsSpec | src/selectInsert/Canvas.jsx:1262-1265 | no point gives the unit box; otherwise the box holds every point, keeps the lower corner and never collapses to zero width or height |
| Explode.ExpandBounds | src/selectInsert/Canvas.jsx:1209-1217 | a missing point leaves the box; a point widens each side exactly as far as needed |
| Explode.ExpandTracked | src/selectInsert/Canvas.jsx:1209-1217 | widening keeps the box equal to the bounds of the points seen, now including this one |
| Explode.AllLeafPointsSnoc | src/selectInsert/Canvas.jsx:1225-1260 | one more leaf adds its points |
| Explode.ExpandByAll | src/selectInsert/Canvas.jsx:1232 | the inner loop widens the box by each point of the leaf |
| Explode.Finish | src/selectInsert/Canvas.jsx:1262-1265 | the last lines turn the tracked box into the final bounds |
| Explode.ComputeBoundsFromDxf | src/selectInsert/Canvas.jsx:1219-1266 | the bounds are the finished box of every present point of every leaf of the explosion |
| InsertView.Coalesce | src/insert/Canvas.jsx:33-34 | `a ?? b` keeps a unless it is `null` or `undefined` |
| InsertView.ToXY | src/insert/Canvas.jsx:25-37 | a point exactly when both coordinates read (items 0 and 1, or x falling back to X and y to Y) convert to finite numbers |
| InsertView.ToXYCases | src/insert/Canvas.jsx:25-37 | arrays read items 0 and 1, objects prefer lower case, short arrays and missing values give nothing |
| InsertView.ExpandBBox | src/insert/Canvas.jsx:14-23 | a non-finite point leaves the box; a first point makes a point box; otherwise the box grows just enough to hold the point |
| InsertView.LinePoints | src/insert/Canvas.jsx:39-49 | start and end are used when both read; otherwise the first two vertices, and nothing when those fail too |
| InsertView.VertexList | src/insert/Canvas.jsx:55-67 | the vertices kept are exactly those that read as points, in order |
| InsertView.Lookup | src/insert/Canvas.jsx:636-641 | a key is found exactly when the block map holds it |
| InsertView.Candidates | src/insert/Canvas.jsx:280-282 | the references that are neither `null` nor `undefined`, as trimmed strings |
| InsertView.FirstExact | src/insert/Canvas.jsx:284-286 | the first candidate that is a key as it is, or none |
| InsertView.LowerMap | src/insert/Canvas.jsx:289-290 | every lower-case form maps to a key with that form |
| InsertView.LowerMapKeys | src/insert/Canvas.jsx:289-290 | a lower-case form is present exactly when some key has it |
| InsertView.FirstLowerHit | src/insert/Canvas.jsx:291-294 | a hit is a non-empty key whose lower-case form equals some candidate's |
| InsertView.LowerMapLast | src/insert/Canvas.jsx:290 | `lowerMap.set` overwrites: a lower-case form maps to the last key of the map with that form |
| InsertView.FirstLowerHitSpec | src/insert/Canvas.jsx:291-294 | the case-insensitive loop returns the key `lowerMap` holds for the first candidate that hits a non-empty key, and nothing when no candidate hits |
| InsertView.ResolveKeySpec | src/insert/Canvas.jsx:278-297 | the result is always a key; an exact match wins and is the first one; without one, the result is the key `lowerMap` holds for the first candidate that hits it, nothing when none hits, and a case-insensitive match to a non-empty key is found whenever one exists |
| InsertView.LowerHitFound | src/insert/Canvas.jsx:291-294 | a candidate matching a non-empty key ignoring case is always found |
| InsertView.ResolveBlockKey | src/insert/Canvas.jsx:278-297 | the loops compute the resolved key |
| InsertView.FindExact | src/insert/Canvas.jsx:284-286 | the first loop finds the first exact key |
| InsertView.BuildLowerMap | src/insert/Canvas.jsx:289-290 | the second loop builds `lowerMap` |
| InsertView.FindLowerHit | src/insert/Canvas.jsx:291-294 | the third loop finds the first case-insensitive hit |
| InsertView.ItemPoints | src/insert/Canvas.jsx:388-398 | `toXY` of each point, in order |
| InsertView.VisitedNotEntered | src/insert/Canvas.jsx:321-322 | an INSERT whose block is being measured contributes nothing, so a block never measures itself |
| InsertView.VisitedBlocks.constructor | src/insert/Canvas.jsx:696 | the set starts empty |
| InsertView.VisitedBlocks.Add | src/insert/Canvas.jsx:330 | `add` adds exactly the key |
| InsertView.VisitedBlocks.Delete | src/insert/Canvas.jsx:332 | `delete` removes exactly the key |
| InsertView.AddPoints | src/insert/Canvas.jsx:307-310 | `addPoint` on each point keeps the box equal to the bounds of every point so far |
| InsertView.CalculateBBox | src/insert/Canvas.jsx:302-402 | the box is the bounds of every point the entities contribute, and the visited set is as it was on entry |
| InsertView.EntityPoints | src/insert/Canvas.jsx:312-399 | one entity's points, with the visited set restored after a nested block |
| InsertView.CalculateBBoxSpec | src/insert/Canvas.jsx:302-402 | no entities or no depth give `null`; otherwise the box holds every finite point, and is `null` exactly when there is none |
| InsertView.AddedFor | src/insert/Canvas.jsx:562-580 | the ATTRIB entity takes the attribute's position or the INSERT's, its height or 10, its rotation or the INSERT's, and the INSERT's paper-space and visibility flags |
| InsertView.AddedForEntrySpec | src/insert/Canvas.jsx:550-581 | one ATTRIB entity per stored attribute of the INSERT, in order |
| InsertView.ExtrasCount | src/insert/Canvas.jsx:548-582 | one extra entity per stored attribute of all INSERTs; none when nothing is stored |
| InsertView.ExtrasAppend | src/insert/Canvas.jsx:550 | the extras of two lists are those of each in turn |
| InsertView.ExtrasSnoc | src/insert/Canvas.jsx:550-581 | one more entity adds its own extras |
| InsertView.AsParsed | src/insert/Canvas.jsx:587 | the original entities, unchanged, in order |
| InsertView.AsAdded | src/insert/Canvas.jsx:587 | the extras as entities, in order |
| InsertView.AttribEntities | src/insert/Canvas.jsx:562-581 | the inner loop makes one entity per attribute |
| InsertView.InjectAttribEntities | src/insert/Canvas.jsx:545-589 | no entities give the input back; otherwise the entities are the originals followed by the ATTRIB extras |
| InsertView.NameAttrib | src/insert/Canvas.jsx:652-655 | the name is the non-empty text of an attribute tagged `A` |
| InsertView.EntryOf | src/insert/Canvas.jsx:647-663 | only an INSERT with a resolved key has an entry, under a non-empty name |
| InsertView.EntriesOf | src/insert/Canvas.jsx:647-664 | the entry of each entity, in order |
| InsertView.Values | src/insert/Canvas.jsx:665 | the entries in insertion order |
| InsertView.SetEntryWellFormed | src/insert/Canvas.jsx:660 | `set` keeps the insertion order free of repetition and in step with the entries |
| InsertView.CollectWellFormed | src/insert/Canvas.jsx:646-664 | the filled map is well formed |
| InsertView.CollectKeys | src/insert/Canvas.jsx:646-664 | a name is in the map exactly when some entry has it |
| InsertView.CollectLast | src/insert/Canvas.jsx:660 | a name holds the last entry with that name |
| InsertView.UniqueInserts | src/insert/Canvas.jsx:644-666 | the list holds the collected entries in insertion order, with no name twice |
| LinkViewer.BucketOfSpec | src/link/Canvas.jsx:99-120 | a path goes to exactly one bucket: the first of the lighting, power and socket equipment prefixes and the lighting wire prefix that its layer starts with, and to the box bucket when none does |
| LinkViewer.Kept | src/link/Canvas.jsx:95-97 | a bucket keeps only point lists of two or more points, never more than there are paths |
| LinkViewer.SortedPartition | src/link/Canvas.jsx:95-120 | every drawable path lands in exactly one bucket |
| LinkViewer.KeptSpec | src/link/Canvas.jsx:95-120 | a bucket holds exactly the drawable paths classified into it |
| LinkViewer.Classify | src/link/Canvas.jsx:89-126 | the classification loop fills the five buckets |
| LinkViewer.RoutedAt | src/link/Canvas.jsx:132-140 | the components whose route result is defined, in order |
| LinkViewer.RoutedAtComplete | src/link/Canvas.jsx:136-140 | no component with a defined result is skipped |
| LinkViewer.ListedSkip | src/link/Canvas.jsx:138-139 | a component without a result adds nothing |
| LinkViewer.ListedAdd | src/link/Canvas.jsx:136-137 | a component with a result adds it at the end |
| LinkViewer.RouteList | src/link/Canvas.jsx:130-140 | `routeList` holds, in order, the routes of exactly the components with a defined result |
| LinkViewer.DrawPaths | src/link/Canvas.jsx:84-140 | the buckets, then the link sets built from them and their part links, then the route list |
| LinkViewer.ClampSpec | src/link/Canvas.jsx:277 | the zoom scale stays within [1, 20], and a scale already inside is kept |
| LinkViewer.AnchorAfterScale | src/link/Canvas.jsx:287-292 | dividing by the new scale undoes multiplying by it |
| LinkViewer.ZoomedSpec | src/link/Canvas.jsx:265-306 | the new scale is the clamped product, in range; at a bound nothing changes; the world point under the mouse stays under the mouse |
| LinkViewer.ZoomDirection | src/link/Canvas.jsx:274-277 | scrolling up never zooms out and scrolling down never zooms in |
| LinkViewer.View.constructor | src/link/Canvas.jsx:242-250 | the refs start at scale 1, no offset and no drag |
| LinkViewer.View.Reset | src/link/Canvas.jsx:242-253 | a new drawing resets zoom and pan and records its fitting scale |
| LinkViewer.View.Wheel | src/link/Canvas.jsx:265-306 | a wheel event moves the view to the anchored zoom and keeps the scale within range |
| LinkViewer.View.MouseDown | src/link/Canvas.jsx:309-322 | only the left button starts a drag, recording the mouse and the offset |
| LinkViewer.View.MouseMove | src/link/Canvas.jsx:325-344 | while dragging, the offset is the starting offset plus the mouse's travel; otherwise nothing changes |
| LinkViewer.View.MouseUp | src/link/Canvas.jsx:347-355 | releasing or leaving ends the drag and keeps the view |
| LinkViewer.DragRoundTrip | src/link/Canvas.jsx:309-344 | after a left press, any moves and a move back to the press point, the view is where it was and the drag goes on |

## Left out

- Rendering and UI: canvas and Three.js drawing, React state and effects, cursor styles, and the drawing of ids and links. These are side effects on objects outside the core. `drawEntities`, `renderEntities`, `drawId`, `strokePolyline`, `makeDashedBoxHelper` and `fitCameraToBox` are not part of this model. A purple link (`makePurpleLink`) is modelled as its two end points.
- Console output: `printRoutesFromBox` and `printRoute` return their routes as data. Their `console.log` text and the number formatting `fmt1` are not modelled.
- Three.js geometry: `segmentIntersectBox`, `extractWorldSegments` and `Box3.setFromObject` run inside a library that is not part of this model. The contact loop takes each wire's segment hits (`Option<Point3>`) and each component's box as inputs.
- Trigonometry and sampled curves: `matRotate` is an abstract rotation matrix supplied by the caller, with angle 0 giving the identity. Circle and arc samples (`circlePoints`, `arcPoints`, `bulgeToPoints`) are supplied as data, because they depend on `Math.sin` and `Math.cos`.
- InsertView.CalculateBBox: the rotation of a nested block's corners is fixed at 0, because the source rotates them with `Math.cos` and `Math.sin`.
- `Math.hypot` and `Math.sqrt` are a caller-supplied non-negative function (`Hypot`), because floating-point square roots are not modelled.
- Floating point: coordinates are exact reals. Rounding, overflow to infinity and `NaN` arithmetic are not modelled, and every non-finite number is one value, `NonFin`.
- `fetch`, `DxfParser.parseSync`, `normalizeMText` and the MTEXT formatting codes are not part of this model. The model starts from parsed entities, or from the raw text in the attribute scanner.
- Scene.Categorize: the category list is modelled in first-seen order, without the final sort by object count (`src/Canvas.jsx:918`). The groups and the set of linked wire pairs do not depend on that order; the order of the links, and which end of a link comes first, do.
- The `boxIndex` grid built in `buildLinkSets` (`src/link/fn.js:768`) is never queried, so it is not modelled.
- The insert viewer's copy of `parseInsertAttribMapFromRaw` (`src/insert/Canvas.jsx:453-539`) is the selectInsert copy plus a flag nothing reads. It is modelled once, by `Attrib`.
- Grid query: `Drawing.Candidates`, used throughout the model, grows the query box by `EPS`, as the exact tests do. The query as written is modelled only by `Drawing.CandidatesAsWritten`, to exhibit the finding below. Growing the box changes more than which contacts are found: it can also change the ORDER of the candidates when the plain box would find the same set. Example: wire B (index 0) is filed only under cell (1, 0) and wire A (index 1) under cells (0, 0) and (1, 0); a box in cell (1, 0) whose grown box reaches cell (0, 0) gets [B, A] from the plain query and [A, B] from the grown one. The model therefore follows the grown candidate order, not the order as written, in: the discovery order of `comp.wires` and `comp.parts` (`LinkSets.Explore`); the rows of the adjacency tables (`CompAdj.KeepLoop`, `Shortest.JoinPartners`); the order of the start wires (`Shortest.HitWiresLoop`); which attach point `uniq` keeps first; Dijkstra's tie-break for `prev`; the first reached best hit (`EntryRoutes.PickBest`); and the order of the routes.
- Ids.ShortIdDropsCategory: `shortId` and `pidNum` print `part:eql:2` and `part:eqe:2` the same way. The model keeps this behaviour and states it.
- Strs.ToUpper / Strs.ToLower: only the ASCII letters are case-mapped. JavaScript's `toUpperCase()` and `toLowerCase()` also map other letters ('é' to 'É'), and some change the length ('ß' becomes "SS"). The model keeps such characters unchanged. This affects the entity type test in `entityToPaths`, the upper-casing in `isWireLayer` and the case-insensitive lookup of `resolveBlockKey`: a name whose non-ASCII letters JavaScript maps onto ASCII ones ('ı' to 'I') can be classified or resolved differently in the model.
- Commented-out code in the source files is not modelled.

## Findings

| source | as written | input that shows it | evidently intended | confidence | as-written member | corrected member |
|---|---|---|---|---|---|---|
| src/link/fn.js:796-804 | `wireIndex.query(rbox)` looks up the cells of the plain bounding box, while the exact test that follows accepts contacts up to `EPS` outside it; the queries at lines 820, 845 and 862, those of `buildAdjacencyForComp` at lines 950-986, and those of src/link/fn2.js at lines 47-49, 62-63 and 163-164 do the same | a wire from (1999, 0) to (1999, 10) and a box from (2001, 0) to (2100, 100): they touch within `EPS = 150`, but the wire lies in grid cell 0 and the box in cell 1, so the exact test never sees the wire | query the cells of the box grown by `EPS`, so every wire the exact test accepts is a candidate | not executed | Drawing.AsWrittenQueryMissesContact | Drawing.CandidatesFindWire |
