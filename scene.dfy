/**
 * The classification and wire-link part of the 3D viewer's
 * `renderDxfFromText`: top-level objects are collected into categories by
 * their category key, each category gets an initial group (wire, panel,
 * component or other), and for every component object each wire contributes
 * its first classified contact with the component's box; a link joins every
 * two contacts with different keys. Three buttons switch the groups on and
 * off.
 */
module Scene {
  import opened Wrappers
  import opened Js
  import opened Strs
  import opened Helper
  import opened Contact

  // ---------------------------------------------------------------------
  // Groups and visibility
  // ---------------------------------------------------------------------

  datatype Group = Panel | Component | Wire | Other

  /** The three visibility switches: `main` for panels and components. */
  datatype Vis = Vis(main: bool, wire: bool, other: bool)

  datatype Switch = MainSwitch | WireSwitch | OtherSwitch

  /** The state of one switch. */
  function SwitchOn(vis: Vis, which: Switch): bool {
    match which
    case MainSwitch => vis.main
    case WireSwitch => vis.wire
    case OtherSwitch => vis.other
  }

  /** `isGroupVisible(groupKey, vis)`: a group is shown exactly when the
      switch that governs it is on. */
  function IsGroupVisible(g: Group, vis: Vis): (shown: bool)
    ensures shown == SwitchOn(vis, SwitchOf(g))
  {
    if g == Panel || g == Component then vis.main
    else if g == Wire then vis.wire
    else vis.other
  }

  /** `toggleGroupVisibility(which)`: `{ ...prev, [which]: !prev[which] }` */
  function Toggle(vis: Vis, which: Switch): (r: Vis)
    ensures which == MainSwitch ==> r == vis.(main := !vis.main)
    ensures which == WireSwitch ==> r == vis.(wire := !vis.wire)
    ensures which == OtherSwitch ==> r == vis.(other := !vis.other)
  {
    match which
    case MainSwitch => vis.(main := !vis.main)
    case WireSwitch => vis.(wire := !vis.wire)
    case OtherSwitch => vis.(other := !vis.other)
  }

  /** The switch that governs a group. */
  function SwitchOf(g: Group): Switch {
    if g == Panel || g == Component then MainSwitch else if g == Wire then WireSwitch else OtherSwitch
  }

  /** Toggling a switch flips the visibility of exactly the groups it
      governs, panels and components together, and leaves the others. */
  lemma ToggleSpec(vis: Vis, which: Switch, g: Group)
    ensures IsGroupVisible(g, Toggle(vis, which)) == if SwitchOf(g) == which then !IsGroupVisible(g, vis) else IsGroupVisible(g, vis)
    ensures Toggle(Toggle(vis, which), which) == vis
  {
  }

  // ---------------------------------------------------------------------
  // The initial group of a category
  // ---------------------------------------------------------------------

  const Box: char := '\U{7BB1}'
  const PanelWords: seq<string> := ["\U{914D}\U{7535}\U{7BB1}", "\U{7535}\U{7BB1}", "\U{7BB1}\U{4F53}", "\U{7BB1}"]

  /** `pat` occurs in `s` at position `i`. */
  predicate OccursAt(s: string, pat: string, i: int) {
    0 <= i && i + |pat| <= |s| && s[i..i + |pat|] == pat
  }

  predicate Contains(s: string, pat: string) {
    exists i :: 0 <= i <= |s| && OccursAt(s, pat, i)
  }

  /** `/配电箱|电箱|箱体|箱/.test(name)` */
  predicate PanelRegex(name: string) {
    exists w :: w in PanelWords && Contains(name, w)
  }

  lemma ContainsChar(s: string, pat: string, k: nat)
    requires Contains(s, pat) && k < |pat|
    ensures pat[k] in s
  {
    var i :| 0 <= i <= |s| && OccursAt(s, pat, i);
    assert s[i + k] == pat[k];
  }

  /** The panel pattern matches exactly the names holding the character 箱
      ("box"): every alternative holds it, and it is an alternative itself. */
  lemma PanelRegexSpec(name: string)
    ensures PanelRegex(name) <==> Box in name
  {
    if PanelRegex(name) {
      var w :| w in PanelWords && Contains(name, w);
      if w == PanelWords[0] {
        ContainsChar(name, w, 2);
      } else if w == PanelWords[1] {
        ContainsChar(name, w, 1);
      } else {
        ContainsChar(name, w, 0);
      }
    }
    if Box in name {
      var i :| 0 <= i < |name| && name[i] == Box;
      assert name[i..i + 1] == [Box];
      assert PanelWords[3] == [Box];
      assert OccursAt(name, PanelWords[3], i);
      assert Contains(name, PanelWords[3]);
    }
  }

  /** The statistics of one key: the name, type, block name, layer and
      colour of the first object seen with it, and the objects that have
      it (`count` is their number). */
  datatype Stat<K> = Stat(key: K, name: string, typ: string, blockName: string, layer: string, color: int, objects: seq<nat>)

  /** A category of top-level objects sharing one category key. */
  type Category = Stat<string>

  /** The group rule of a new category: a red or cyan line is a wire, a
      Chinese name with the panel pattern a panel, any other Chinese name a
      component, everything else other. */
  function GroupOf(typ: string, color: int, name: string): Group {
    if (typ == "LINE" || typ == "LWPOLYLINE") && IsRedColorByHex(color) then Wire
    else if IsContainChinese(Str(name)) then (if PanelRegex(name) then Panel else Component)
    else Other
  }

  /** The group in terms of the colour values and the characters of the
      name. */
  lemma GroupOfSpec(typ: string, color: int, name: string)
    ensures var line := typ == "LINE" || typ == "LWPOLYLINE";
      var wireColor := color == 0xFF0000 || color == 0x00FFFF;
      var han := exists i :: 0 <= i < |name| && IsHan(name[i]);
      var g := GroupOf(typ, color, name);
      && (g == Wire <==> line && wireColor)
      && (g == Panel <==> !(line && wireColor) && han && Box in name)
      && (g == Component <==> !(line && wireColor) && han && Box !in name)
      && (g == Other <==> !(line && wireColor) && !han)
  {
    IsRedColorByHexSpec(color);
    PanelRegexSpec(name);
  }

  // ---------------------------------------------------------------------
  // Categories
  // ---------------------------------------------------------------------

  /** A top-level object: its `userData` and the colour it was drawn with. */
  datatype Obj = Obj(ud: UserData, baseColor: int)

  /** `${userData.type}`; a missing type prints as "undefined", which no
      type test of the source matches either. */
  function TypeStr(t: OptStr): string {
    if t.Str? then t.s else "undefined"
  }

  /** `userData.baseColor || 0xffffff` */
  function ColorOf(o: Obj): int {
    if o.baseColor != 0 then o.baseColor else White
  }

  /** `v || "N/A"` */
  function OrNA(v: OptStr): string {
    if v.Truthy() then v.s else "N/A"
  }

  /** A category key always holds a `:`, so it is never an array index and
      `Object.values` lists the categories in insertion order. */
  lemma CategoryKeyNotIndex(typ: string, name: string, color: int)
    ensures ':' in CategoryUniqueKey(typ, name, color)
  {
    var k := CategoryUniqueKey(typ, name, color);
    assert k[|typ|] == ':';
  }

  function NameOf(o: Obj, blocks: map<string, seq<BlockEnt>>): string {
    DisplayName(o.ud, blocks)
  }

  function KeyOfObj(o: Obj, blocks: map<string, seq<BlockEnt>>): string {
    CategoryUniqueKey(TypeStr(o.ud.typ), NameOf(o, blocks), ColorOf(o))
  }

  /** The category an object opens when its key is new, its object list
      still to be filled. */
  function ObjRow(o: Obj, blocks: map<string, seq<BlockEnt>>): Category {
    Stat(KeyOfObj(o, blocks), NameOf(o, blocks), TypeStr(o.ud.typ), OrNA(o.ud.name), OrNA(o.ud.layer), ColorOf(o), [])
  }

  function ObjRows(objs: seq<Obj>, blocks: map<string, seq<BlockEnt>>): (r: seq<Category>)
    ensures |r| == |objs|
  {
    if objs == [] then [] else ObjRows(objs[..|objs| - 1], blocks) + [ObjRow(objs[|objs| - 1], blocks)]
  }

  /** The positions below `n` of the rows with key `k`, in order. */
  function Members<K(==)>(rows: seq<Stat<K>>, k: K, n: nat): (r: seq<nat>)
    requires n <= |rows|
    ensures forall j :: 0 <= j < |r| ==> r[j] < n
  {
    if n == 0 then []
    else Members(rows, k, n - 1) + (if rows[n - 1].key == k then [n - 1] else [])
  }

  /** Every member of a key holds it. */
  lemma {:induction false} MembersHold<K>(rows: seq<Stat<K>>, k: K, n: nat)
    requires n <= |rows|
    ensures forall j :: 0 <= j < |Members(rows, k, n)| ==> rows[Members(rows, k, n)[j]].key == k
  {
    if n > 0 {
      MembersHold(rows, k, n - 1);
    }
  }

  /** The members come in increasing order. */
  lemma {:induction false} MembersIncreasing<K>(rows: seq<Stat<K>>, k: K, n: nat)
    requires n <= |rows|
    ensures forall i, j :: 0 <= i < j < |Members(rows, k, n)| ==> Members(rows, k, n)[i] < Members(rows, k, n)[j]
  {
    if n > 0 {
      MembersIncreasing(rows, k, n - 1);
    }
  }

  /** Every position holding the key is a member. */
  lemma {:induction false} MembersComplete<K>(rows: seq<Stat<K>>, k: K, n: nat)
    requires n <= |rows|
    ensures forall x :: 0 <= x < n && rows[x].key == k ==> x in Members(rows, k, n)
  {
    if n > 0 {
      MembersComplete(rows, k, n - 1);
    }
  }

  /** The first member of a key holds it. */
  lemma MembersHead<K>(rows: seq<Stat<K>>, k: K, n: nat)
    requires n <= |rows| && Members(rows, k, n) != []
    ensures rows[Members(rows, k, n)[0]].key == k
  {
    MembersHold(rows, k, n);
  }

  /** The statistics of key `k` after `n` rows: described by its first row,
      listing all its positions. */
  function Cat<K(==)>(rows: seq<Stat<K>>, k: K, n: nat): Stat<K>
    requires n <= |rows|
  {
    var m := Members(rows, k, n);
    if m == [] then Stat(k, [], [], [], [], 0, []) else rows[m[0]].(objects := m)
  }

  ghost predicate DistinctKeys<K>(keys: seq<K>) {
    forall i, j :: 0 <= i < j < |keys| ==> keys[i] != keys[j]
  }

  /** Every listed key has its statistics. */
  ghost predicate Described<K>(rows: seq<Stat<K>>, n: nat, keys: seq<K>, stats: map<K, Stat<K>>)
    requires n <= |rows|
  {
    forall i :: 0 <= i < |keys| ==> keys[i] in stats && Members(rows, keys[i], n) != [] && stats[keys[i]] == Cat(rows, keys[i], n)
  }

  ghost predicate Listed<K>(keys: seq<K>, stats: map<K, Stat<K>>) {
    forall k :: k in stats ==> k in keys
  }

  ghost predicate Seen<K>(rows: seq<Stat<K>>, n: nat, stats: map<K, Stat<K>>)
    requires n <= |rows|
  {
    forall x :: 0 <= x < n ==> rows[x].key in stats
  }

  /** What the statistics hold after the first `n` rows: one entry per key
      seen, listed in first-seen order. */
  ghost predicate Collected<K>(rows: seq<Stat<K>>, n: nat, keys: seq<K>, stats: map<K, Stat<K>>)
    requires n <= |rows|
  {
    DistinctKeys(keys) && Described(rows, n, keys, stats) && Listed(keys, stats) && Seen(rows, n, stats)
  }

  lemma MembersNone<K>(rows: seq<Stat<K>>, n: nat, stats: map<K, Stat<K>>)
    requires n < |rows| && Seen(rows, n, stats) && rows[n].key !in stats
    ensures Members(rows, rows[n].key, n) == [] && Members(rows, rows[n].key, n + 1) == [n]
  {
    var k := rows[n].key;
    if Members(rows, k, n) != [] {
      MembersHead(rows, k, n);
    }
  }

  lemma DescribedNew<K>(rows: seq<Stat<K>>, n: nat, keys: seq<K>, stats: map<K, Stat<K>>)
    requires n < |rows| && Described(rows, n, keys, stats) && Seen(rows, n, stats) && rows[n].key !in stats
    ensures Described(rows, n + 1, keys + [rows[n].key], stats[rows[n].key := rows[n].(objects := [n])])
  {
    var k := rows[n].key;
    MembersNone(rows, n, stats);
    var keys' := keys + [k];
    var stats' := stats[k := rows[n].(objects := [n])];
    forall i | 0 <= i < |keys'|
      ensures keys'[i] in stats' && Members(rows, keys'[i], n + 1) != [] && stats'[keys'[i]] == Cat(rows, keys'[i], n + 1)
    {
      if i < |keys| {
        assert keys[i] in stats;
        assert Members(rows, keys[i], n + 1) == Members(rows, keys[i], n);
      }
    }
  }

  lemma ListedNew<K>(keys: seq<K>, stats: map<K, Stat<K>>, k: K, v: Stat<K>)
    requires DistinctKeys(keys) && Listed(keys, stats) && k !in stats && forall i :: 0 <= i < |keys| ==> keys[i] in stats
    ensures DistinctKeys(keys + [k]) && Listed(keys + [k], stats[k := v])
  {
    var keys' := keys + [k];
    forall i, j | 0 <= i < j < |keys'| ensures keys'[i] != keys'[j] {
      if j == |keys| {
        assert keys[i] in stats;
      }
    }
    forall q | q in stats[k := v] ensures q in keys' {
      if q == k {
        assert keys'[|keys|] == q;
      } else {
        var i :| 0 <= i < |keys| && keys[i] == q;
        assert keys'[i] == q;
      }
    }
  }

  /** A new key opens an entry holding the new position alone. */
  lemma CollectedNew<K>(rows: seq<Stat<K>>, n: nat, keys: seq<K>, stats: map<K, Stat<K>>)
    requires n < |rows| && Collected(rows, n, keys, stats) && rows[n].key !in stats
    ensures Collected(rows, n + 1, keys + [rows[n].key], stats[rows[n].key := rows[n].(objects := [n])])
  {
    DescribedNew(rows, n, keys, stats);
    ListedNew(keys, stats, rows[n].key, rows[n].(objects := [n]));
  }

  /** A known key gets the new position appended to its entry. */
  lemma CollectedOld<K>(rows: seq<Stat<K>>, n: nat, keys: seq<K>, stats: map<K, Stat<K>>)
    requires n < |rows| && Collected(rows, n, keys, stats) && rows[n].key in stats
    ensures var k := rows[n].key;
      Collected(rows, n + 1, keys, stats[k := stats[k].(objects := stats[k].objects + [n])])
  {
    var k := rows[n].key;
    var stats' := stats[k := stats[k].(objects := stats[k].objects + [n])];
    assert Described(rows, n + 1, keys, stats') by {
      forall i | 0 <= i < |keys|
        ensures keys[i] in stats' && Members(rows, keys[i], n + 1) != [] && stats'[keys[i]] == Cat(rows, keys[i], n + 1)
      {
        if keys[i] == k {
          CatOwn(rows, n, stats[k]);
        } else {
          CatOther(rows, n, keys[i]);
        }
      }
    }
    assert Seen(rows, n + 1, stats');
  }

  /** The row's own key: its position joins the entry. */
  lemma CatOwn<K>(rows: seq<Stat<K>>, n: nat, s: Stat<K>)
    requires n < |rows| && Members(rows, rows[n].key, n) != [] && s == Cat(rows, rows[n].key, n)
    ensures Members(rows, rows[n].key, n + 1) != [] && s.(objects := s.objects + [n]) == Cat(rows, rows[n].key, n + 1)
  {
    assert Members(rows, rows[n].key, n + 1) == Members(rows, rows[n].key, n) + [n];
  }

  /** Any other key: its entry is left as it was. */
  lemma CatOther<K>(rows: seq<Stat<K>>, n: nat, k: K)
    requires n < |rows| && rows[n].key != k
    ensures Members(rows, k, n + 1) == Members(rows, k, n) && Cat(rows, k, n + 1) == Cat(rows, k, n)
  {
  }

  /** The categories of `rows`: one per key, with distinct keys, each
      described by the first row with its key and listing every position
      with it. */
  ghost predicate Categorized<K>(rows: seq<Stat<K>>, cats: seq<Stat<K>>) {
    && (forall i, j :: 0 <= i < j < |cats| ==> cats[i].key != cats[j].key)
    && (forall x :: 0 <= x < |rows| ==> exists i :: 0 <= i < |cats| && cats[i].key == rows[x].key)
    && (forall i :: 0 <= i < |cats| ==> Members(rows, cats[i].key, |rows|) != [] && cats[i] == Cat(rows, cats[i].key, |rows|))
  }

  /** The first loop of `renderDxfFromText`: every top-level object joins
      the category of its key, opening it when the key is new. The
      categories come out in first-seen order. The key and description of
      each object depend on that object alone, so they are computed first
      and the entries collected after. */
  method Categorize(objs: seq<Obj>, blocks: map<string, seq<BlockEnt>>) returns (cats: seq<Category>)
    ensures Categorized(ObjRows(objs, blocks), cats)
  {
    var rows := RowsOf(objs, blocks);
    cats := CollectStats(rows);
  }

  /** The key, name, type and colour of every object. */
  method RowsOf(objs: seq<Obj>, blocks: map<string, seq<BlockEnt>>) returns (rows: seq<Category>)
    ensures rows == ObjRows(objs, blocks)
  {
    rows := [];
    for n := 0 to |objs|
      invariant rows == ObjRows(objs[..n], blocks)
    {
      var row := RowOf(objs[n], blocks);
      assert objs[..n + 1][..n] == objs[..n];
      rows := rows + [row];
    }
    assert objs[..|objs|] == objs;
  }

  /** The `entityStats` map filled row by row, then listed. */
  method CollectStats<K(==)>(rows: seq<Stat<K>>) returns (cats: seq<Stat<K>>)
    ensures Categorized(rows, cats)
  {
    var keys: seq<K> := [];
    var stats: map<K, Stat<K>> := map[];
    for n := 0 to |rows|
      invariant Collected(rows, n, keys, stats)
    {
      keys, stats := Record(rows, n, rows[n], keys, stats);
    }
    cats := ListStats(keys, stats);
    CollectedCategorized(rows, keys, stats, cats);
  }

  /** One pass of the loop: open the entry of a new key, or append the
      position to the entry of a known one. */
  method Record<K(==)>(ghost rows: seq<Stat<K>>, n: nat, row: Stat<K>, keys: seq<K>, stats: map<K, Stat<K>>)
    returns (keys': seq<K>, stats': map<K, Stat<K>>)
    requires n < |rows| && row == rows[n] && Collected(rows, n, keys, stats)
    ensures Collected(rows, n + 1, keys', stats')
  {
    var k := row.key;
    if k !in stats {
      CollectedNew(rows, n, keys, stats);
      stats' := stats[k := row.(objects := [n])];
      keys' := keys + [k];
    } else {
      CollectedOld(rows, n, keys, stats);
      stats' := stats[k := stats[k].(objects := stats[k].objects + [n])];
      keys' := keys;
    }
  }

  /** The key, name, type and colour of one object, as a category with no
      objects yet. */
  method RowOf(o: Obj, blocks: map<string, seq<BlockEnt>>) returns (row: Category)
    ensures row == ObjRow(o, blocks)
  {
    var name := NameOf(o, blocks);
    var typ := TypeStr(o.ud.typ);
    var color := ColorOf(o);
    var key := CategoryUniqueKey(typ, name, color);
    row := Stat(key, name, typ, OrNA(o.ud.name), OrNA(o.ud.layer), color, []);
  }

  /** `Array.from(entityStats.values())`: the entries in key order. */
  method ListStats<K(==)>(keys: seq<K>, stats: map<K, Stat<K>>) returns (cats: seq<Stat<K>>)
    requires forall i :: 0 <= i < |keys| ==> keys[i] in stats
    ensures |cats| == |keys| && forall j :: 0 <= j < |keys| ==> cats[j] == stats[keys[j]]
  {
    cats := [];
    for i := 0 to |keys|
      invariant |cats| == i && forall j :: 0 <= j < i ==> cats[j] == stats[keys[j]]
    {
      cats := cats + [stats[keys[i]]];
    }
  }

  /** Statistics collected over all rows, listed in key order, are the
      categories of the rows. */
  lemma CollectedCategorized<K>(rows: seq<Stat<K>>, keys: seq<K>, stats: map<K, Stat<K>>, cats: seq<Stat<K>>)
    requires Collected(rows, |rows|, keys, stats)
    requires |cats| == |keys| && forall j :: 0 <= j < |keys| ==> cats[j] == stats[keys[j]]
    ensures Categorized(rows, cats)
  {
    forall i | 0 <= i < |cats|
      ensures cats[i].key == keys[i]
      ensures Members(rows, cats[i].key, |rows|) != [] && cats[i] == Cat(rows, cats[i].key, |rows|)
    {
      assert keys[i] in stats && Members(rows, keys[i], |rows|) != [] && stats[keys[i]] == Cat(rows, keys[i], |rows|);
      MembersHead(rows, keys[i], |rows|);
    }
    assert forall i :: 0 <= i < |cats| ==> Members(rows, cats[i].key, |rows|) != [] && cats[i] == Cat(rows, cats[i].key, |rows|);
    forall i, j | 0 <= i < j < |cats| ensures cats[i].key != cats[j].key {
      assert keys[i] != keys[j];
    }
    forall x | 0 <= x < |rows| ensures exists i :: 0 <= i < |cats| && cats[i].key == rows[x].key {
      assert rows[x].key in stats;
      var i :| 0 <= i < |keys| && keys[i] == rows[x].key;
      assert cats[i].key == keys[i];
    }
  }

  /** `initialGroupMap`: the group of every category, by key. */
  method InitialGroupMap(cats: seq<Category>) returns (gm: map<string, Group>)
    requires forall i, j :: 0 <= i < j < |cats| ==> cats[i].key != cats[j].key
    ensures gm.Keys == set i | 0 <= i < |cats| :: cats[i].key
    ensures forall i :: 0 <= i < |cats| ==> cats[i].key in gm && gm[cats[i].key] == GroupOf(cats[i].typ, cats[i].color, cats[i].name)
  {
    gm := KeyedBy(cats, CatGroup);
  }

  /** The group rule applied to a category. */
  function CatGroup(c: Category): Group {
    GroupOf(c.typ, c.color, c.name)
  }

  /** The loop of `initialGroupMap`: one entry per category, by its key. */
  method KeyedBy<V>(cats: seq<Category>, f: Category -> V) returns (gm: map<string, V>)
    requires forall i, j :: 0 <= i < j < |cats| ==> cats[i].key != cats[j].key
    ensures gm.Keys == set i | 0 <= i < |cats| :: cats[i].key
    ensures forall i :: 0 <= i < |cats| ==> cats[i].key in gm && gm[cats[i].key] == f(cats[i])
  {
    gm := map[];
    for n := 0 to |cats|
      invariant gm.Keys == set i | 0 <= i < n :: cats[i].key
      invariant forall i :: 0 <= i < n ==> cats[i].key in gm && gm[cats[i].key] == f(cats[i])
    {
      var c := cats[n];
      assert (set i | 0 <= i < n + 1 :: cats[i].key) == (set i | 0 <= i < n :: cats[i].key) + {c.key};
      gm := gm[c.key := f(c)];
    }
  }

  /** `groupMap[key] || "other"` */
  function GroupAt(gm: map<string, Group>, key: string): Group {
    if key in gm then gm[key] else Other
  }

  /** The objects of the categories in group `g`, category by category. */
  function InGroup(cats: seq<Category>, gm: map<string, Group>, g: Group): seq<nat> {
    if cats == [] then []
    else
      var n := |cats| - 1;
      InGroup(cats[..n], gm, g) + (if GroupAt(gm, cats[n].key) == g then cats[n].objects else [])
  }

  /** An object is collected exactly when it belongs to a category in the
      group; in particular the link search below looks at the objects of
      component categories and at no panel. */
  lemma {:induction false} InGroupSpec(cats: seq<Category>, gm: map<string, Group>, g: Group, x: nat)
    ensures x in InGroup(cats, gm, g) <==> exists i :: 0 <= i < |cats| && GroupAt(gm, cats[i].key) == g && x in cats[i].objects
  {
    if cats != [] {
      var n := |cats| - 1;
      InGroupSpec(cats[..n], gm, g, x);
      if x in InGroup(cats[..n], gm, g) {
        var i :| 0 <= i < n && GroupAt(gm, cats[..n][i].key) == g && x in cats[..n][i].objects;
        assert cats[i] == cats[..n][i];
      }
      if exists i :: 0 <= i < |cats| && GroupAt(gm, cats[i].key) == g && x in cats[i].objects {
        var i :| 0 <= i < |cats| && GroupAt(gm, cats[i].key) == g && x in cats[i].objects;
        if i < n {
          assert cats[..n][i] == cats[i];
        }
      }
    }
  }

  /** `wireObjs` / `compObjs`: the objects of the categories in group `g`. */
  method CollectGroup(cats: seq<Category>, gm: map<string, Group>, g: Group) returns (out: seq<nat>)
    ensures out == InGroup(cats, gm, g)
  {
    out := [];
    for n := 0 to |cats|
      invariant out == InGroup(cats[..n], gm, g)
    {
      assert cats[..n + 1][..n] == cats[..n];
      if GroupAt(gm, cats[n].key) == g {
        out := out + cats[n].objects;
      }
    }
    assert cats[..|cats|] == cats;
  }

  // ---------------------------------------------------------------------
  // Contacts and links
  // ---------------------------------------------------------------------

  /** The first classified contact of a wire: where it meets the box and the
      key of the face, edge or corner there. */
  datatype Hit = Hit(point: Point3, key: string)

  /** What one segment contributes: its hit with the box, when there is
      one and it lies within `s` of a box plane. */
  function TryHit(seg: Option<Point3>, box: Box3, s: real): Option<Hit> {
    if seg.None? then None
    else
      var c := Classify(seg.value, box, s);
      if c.kind == "unknown" then None else Some(Hit(seg.value, c.key))
  }

  /** The first position from `from` on whose element satisfies `ok`. */
  function FirstWhere<T>(xs: seq<T>, ok: T -> bool, from: nat): (r: Option<nat>)
    requires from <= |xs|
    ensures r.Some? ==> from <= r.value < |xs|
    decreases |xs| - from
  {
    if from == |xs| then None
    else if ok(xs[from]) then Some(from)
    else FirstWhere(xs, ok, from + 1)
  }

  lemma {:induction false} FirstWhereSpec<T>(xs: seq<T>, ok: T -> bool, from: nat)
    requires from <= |xs|
    ensures var r := FirstWhere(xs, ok, from);
      && (r.Some? ==> ok(xs[r.value]) && forall k :: from <= k < r.value ==> !ok(xs[k]))
      && (r.None? ==> forall k :: from <= k < |xs| ==> !ok(xs[k]))
    decreases |xs| - from
  {
    if from < |xs| && !ok(xs[from]) {
      FirstWhereSpec(xs, ok, from + 1);
    }
  }

  /** A segment contributes when it gives a hit. */
  function Contributes(box: Box3, s: real): Option<Point3> -> bool {
    seg => TryHit(seg, box, s).Some?
  }

  /** The first segment that contributes a hit. */
  function FirstClassified(segs: seq<Option<Point3>>, box: Box3, s: real, from: nat): (r: Option<nat>)
    requires from <= |segs|
    ensures r.Some? ==> from <= r.value < |segs|
  {
    FirstWhere(segs, Contributes(box, s), from)
  }

  /** The segment found contributes a hit and none before it does; none is
      found exactly when no segment contributes. */
  lemma FirstClassifiedSpec(segs: seq<Option<Point3>>, box: Box3, s: real, from: nat)
    requires from <= |segs|
    ensures var r := FirstClassified(segs, box, s, from);
      && (r.Some? ==> TryHit(segs[r.value], box, s).Some? && forall k :: from <= k < r.value ==> TryHit(segs[k], box, s).None?)
      && (r.None? ==> forall k :: from <= k < |segs| ==> TryHit(segs[k], box, s).None?)
  {
    FirstWhereSpec(segs, Contributes(box, s), from);
  }

  /** The contact of a wire: the hit of its first contributing segment. */
  function HitOf(segs: seq<Option<Point3>>, box: Box3, s: real): Option<Hit> {
    match FirstClassified(segs, box, s, 0)
    case None => None
    case Some(k) => TryHit(segs[k], box, s)
  }

  /** One pass of the segment loop: `segmentIntersectBox`, then
      `classifyContact` on the hit. */
  method TryContact(seg: Option<Point3>, box: Box3, s: real) returns (h: Option<Hit>)
    ensures h == TryHit(seg, box, s)
  {
    if seg.None? {
      return None;
    }
    var c := ClassifyContact(seg.value, box, s);
    if c.kind == "unknown" {
      return None;
    }
    return Some(Hit(seg.value, c.key));
  }

  /** The segment loop for one wire: skip segments that miss the box or
      whose hit is "unknown", stop at the first that remains. */
  method WireHit(segs: seq<Option<Point3>>, box: Box3, s: real) returns (h: Option<Hit>)
    ensures h == HitOf(segs, box, s)
  {
    var i := 0;
    while i < |segs|
      invariant 0 <= i <= |segs|
      invariant FirstClassified(segs, box, s, 0) == FirstClassified(segs, box, s, i)
    {
      var t := TryContact(segs[i], box, s);
      if t.Some? {
        return t;
      }
      i := i + 1;
    }
    return None;
  }

  /** `hits.set(w, h)` on a Map kept as its entries in insertion order: the
      entry of `w` is replaced in place, or appended when there is none. */
  function MapSet(hits: seq<(nat, Hit)>, w: nat, h: Hit): seq<(nat, Hit)> {
    if hits == [] then [(w, h)]
    else if hits[0].0 == w then [(w, h)] + hits[1..]
    else [hits[0]] + MapSet(hits[1..], w, h)
  }

  /** The wires that have an entry. */
  function WiresOf(hits: seq<(nat, Hit)>): set<nat> {
    set j | 0 <= j < |hits| :: hits[j].0
  }

  predicate DistinctWires(hits: seq<(nat, Hit)>) {
    forall i, j :: 0 <= i < j < |hits| ==> hits[i].0 != hits[j].0
  }

  lemma WiresOfCons(e: (nat, Hit), t: seq<(nat, Hit)>)
    ensures WiresOf([e] + t) == {e.0} + WiresOf(t)
  {
    var l := [e] + t;
    forall v ensures v in WiresOf(l) <==> v == e.0 || v in WiresOf(t) {
      if v == e.0 {
        assert l[0].0 == v;
      }
      if v in WiresOf(t) {
        var j :| 0 <= j < |t| && t[j].0 == v;
        assert l[j + 1].0 == v;
      }
      if v in WiresOf(l) && v != e.0 {
        var j :| 0 <= j < |l| && l[j].0 == v;
        assert t[j - 1].0 == v;
      }
    }
  }

  /** Setting a key adds it to the keys. */
  lemma {:induction false} MapSetWires(hits: seq<(nat, Hit)>, w: nat, h: Hit)
    ensures WiresOf(MapSet(hits, w, h)) == WiresOf(hits) + {w}
    ensures (w, h) in MapSet(hits, w, h)
  {
    if hits == [] {
      assert MapSet(hits, w, h)[0] == (w, h);
    } else {
      var t := hits[1..];
      assert hits == [hits[0]] + t;
      WiresOfCons(hits[0], t);
      if hits[0].0 == w {
        WiresOfCons((w, h), t);
      } else {
        MapSetWires(t, w, h);
        WiresOfCons(hits[0], MapSet(t, w, h));
      }
    }
  }

  /** Setting a key leaves every entry of another key as it was and adds
      the new one. */
  lemma {:induction false} MapSetFrom(hits: seq<(nat, Hit)>, w: nat, h: Hit)
    requires DistinctWires(hits)
    ensures forall e :: e in MapSet(hits, w, h) ==> e == (w, h) || (e in hits && e.0 != w)
  {
    var r := MapSet(hits, w, h);
    if hits == [] {
    } else if hits[0].0 == w {
      forall e | e in r ensures e == (w, h) || (e in hits && e.0 != w) {
        var j :| 0 <= j < |r| && r[j] == e;
        if j > 0 {
          assert r[j] == hits[j];
        }
      }
    } else {
      var t := hits[1..];
      MapSetFrom(t, w, h);
      assert r == [hits[0]] + MapSet(t, w, h);
      forall e | e in r ensures e == (w, h) || (e in hits && e.0 != w) {
        if e != hits[0] {
          assert e in MapSet(t, w, h);
        }
      }
    }
  }

  /** Setting a key keeps the keys distinct. */
  lemma {:induction false} MapSetDistinct(hits: seq<(nat, Hit)>, w: nat, h: Hit)
    requires DistinctWires(hits)
    ensures DistinctWires(MapSet(hits, w, h))
  {
    var r := MapSet(hits, w, h);
    if hits != [] && hits[0].0 != w {
      var t := hits[1..];
      var rt := MapSet(t, w, h);
      MapSetDistinct(t, w, h);
      MapSetFrom(t, w, h);
      assert r == [hits[0]] + rt;
      forall i, j | 0 <= i < j < |r| ensures r[i].0 != r[j].0 {
        if i == 0 {
          assert r[j] == rt[j - 1];
          if r[j] != (w, h) {
            var k :| 0 <= k < |t| && t[k] == r[j];
            assert hits[k + 1] == t[k];
          }
        } else {
          assert r[i] == rt[i - 1] && r[j] == rt[j - 1];
        }
      }
    } else if hits != [] {
      forall i, j | 0 <= i < j < |r| ensures r[i].0 != r[j].0 {
        assert r[i].0 == hits[i].0 && r[j].0 == hits[j].0;
      }
    }
  }

  /** Setting a key held first at `i` replaces that entry. */
  lemma {:induction false} MapSetAt(hits: seq<(nat, Hit)>, w: nat, h: Hit, i: nat)
    requires i < |hits| && hits[i].0 == w && forall j :: 0 <= j < i ==> hits[j].0 != w
    ensures MapSet(hits, w, h) == hits[i := (w, h)]
  {
    if i > 0 {
      MapSetAt(hits[1..], w, h, i - 1);
    }
  }

  /** Setting a key held nowhere appends its entry. */
  lemma {:induction false} MapSetNew(hits: seq<(nat, Hit)>, w: nat, h: Hit)
    requires forall j :: 0 <= j < |hits| ==> hits[j].0 != w
    ensures MapSet(hits, w, h) == hits + [(w, h)]
  {
    if hits != [] {
      MapSetNew(hits[1..], w, h);
    }
  }

  /** The first classified contact of every wire with the box of component
      `c`. */
  function Found(c: nat, wires: seq<nat>, segsOf: (nat, nat) -> seq<Option<Point3>>, box: Box3, s: real): (r: seq<Option<Hit>>)
    ensures |r| == |wires|
  {
    seq(|wires|, k requires 0 <= k < |wires| => HitOf(segsOf(c, wires[k]), box, s))
  }

  /** The hits map after the first `n` wires. */
  function HitsMap(wires: seq<nat>, found: seq<Option<Hit>>, n: nat): seq<(nat, Hit)>
    requires n <= |wires| == |found|
  {
    if n == 0 then []
    else
      var hits := HitsMap(wires, found, n - 1);
      match found[n - 1]
      case None => hits
      case Some(h) => MapSet(hits, wires[n - 1], h)
  }

  /** The map never holds a wire twice, holds exactly the wires that have a
      classified contact, and maps each to one of that wire's contacts. */
  lemma {:induction false} HitsMapSpec(wires: seq<nat>, found: seq<Option<Hit>>, n: nat)
    requires n <= |wires| == |found|
    ensures DistinctWires(HitsMap(wires, found, n))
    ensures WiresOf(HitsMap(wires, found, n)) == set k | 0 <= k < n && found[k].Some? :: wires[k]
    ensures forall e :: e in HitsMap(wires, found, n) ==> exists k :: 0 <= k < n && wires[k] == e.0 && found[k] == Some(e.1)
  {
    if n > 0 {
      HitsMapSpec(wires, found, n - 1);
      var hits := HitsMap(wires, found, n - 1);
      FoundWiresSnoc(wires, found, n);
      if found[n - 1].Some? {
        var w, h := wires[n - 1], found[n - 1].value;
        assert HitsMap(wires, found, n) == MapSet(hits, w, h);
        MapSetWires(hits, w, h);
        MapSetDistinct(hits, w, h);
        MapSetFrom(hits, w, h);
        forall e | e in MapSet(hits, w, h) ensures exists k :: 0 <= k < n && wires[k] == e.0 && found[k] == Some(e.1) {
          if e == (w, h) {
            assert wires[n - 1] == e.0 && found[n - 1] == Some(e.1);
          } else {
            var k :| 0 <= k < n - 1 && wires[k] == e.0 && found[k] == Some(e.1);
          }
        }
      }
    }
  }

  lemma FoundWiresSnoc(wires: seq<nat>, found: seq<Option<Hit>>, n: nat)
    requires 0 < n <= |wires| == |found|
    ensures (set k | 0 <= k < n && found[k].Some? :: wires[k])
         == (set k | 0 <= k < n - 1 && found[k].Some? :: wires[k]) + (if found[n - 1].Some? then {wires[n - 1]} else {})
  {
  }

  /** The wire loop for one component box. */
  method CollectHits(c: nat, wires: seq<nat>, segsOf: (nat, nat) -> seq<Option<Point3>>, box: Box3, s: real) returns (hits: seq<(nat, Hit)>)
    ensures hits == HitsMap(wires, Found(c, wires, segsOf, box, s), |wires|)
  {
    ghost var found := Found(c, wires, segsOf, box, s);
    hits := [];
    var n := 0;
    while n < |wires|
      invariant n <= |wires| == |found|
      invariant hits == HitsMap(wires, found, n)
    {
      var h := HitFor(c, wires, segsOf, box, s, n);
      hits := AddHit(hits, wires, found, n, h);
      n := n + 1;
    }
  }

  /** The hit of the `n`-th wire of the component. */
  method HitFor(c: nat, wires: seq<nat>, segsOf: (nat, nat) -> seq<Option<Point3>>, box: Box3, s: real, n: nat)
    returns (h: Option<Hit>)
    requires n < |wires|
    ensures h == Found(c, wires, segsOf, box, s)[n]
  {
    h := WireHit(segsOf(c, wires[n]), box, s);
  }

  /** One turn of the wire loop: the wire's hit, if any, set in the map. */
  method AddHit(hits0: seq<(nat, Hit)>, wires: seq<nat>, ghost found: seq<Option<Hit>>, n: nat, h: Option<Hit>)
    returns (hits: seq<(nat, Hit)>)
    requires n < |wires| == |found| && hits0 == HitsMap(wires, found, n) && h == found[n]
    ensures hits == HitsMap(wires, found, n + 1)
  {
    hits := hits0;
    if h.Some? {
      hits := SetHit(hits, wires[n], h.value);
    }
  }

  /** `hits.set(w, h)`: find the entry of `w`, replace it or append one. */
  method SetHit(hits: seq<(nat, Hit)>, w: nat, h: Hit) returns (r: seq<(nat, Hit)>)
    ensures r == MapSet(hits, w, h)
  {
    var i := 0;
    while i < |hits| && hits[i].0 != w
      invariant 0 <= i <= |hits|
      invariant forall j :: 0 <= j < i ==> hits[j].0 != w
    {
      i := i + 1;
    }
    if i < |hits| {
      MapSetAt(hits, w, h, i);
      r := hits[i := (w, h)];
    } else {
      MapSetNew(hits, w, h);
      r := hits + [(w, h)];
    }
  }

  /** Whether the pair of entries `i < j` gets a link. */
  predicate Linked(hits: seq<(nat, Hit)>, i: nat, j: nat)
    requires i < j < |hits|
  {
    hits[i].0 != hits[j].0 && hits[i].1.key != hits[j].1.key
  }

  /** The pairs `(i, j)`, `i < j' < j`, of row `i` that get a link. */
  function Row(hits: seq<(nat, Hit)>, i: nat, j: nat): (r: seq<(nat, nat)>)
    requires i < |hits| && j <= |hits|
    ensures forall k :: 0 <= k < |r| ==> r[k].0 == i && i < r[k].1 < j
  {
    if j <= i + 1 then []
    else Row(hits, i, j - 1) + (if Linked(hits, i, j - 1) then [(i, j - 1)] else [])
  }

  /** The linked pairs of the rows below `i`, row by row. */
  function Pairs(hits: seq<(nat, Hit)>, i: nat): (r: seq<(nat, nat)>)
    requires i <= |hits|
    ensures forall k :: 0 <= k < |r| ==> r[k].0 < i && r[k].1 < |hits|
  {
    if i == 0 then [] else Pairs(hits, i - 1) + Row(hits, i - 1, |hits|)
  }

  lemma {:induction false} RowSpec(hits: seq<(nat, Hit)>, i: nat, j: nat, p: (nat, nat))
    requires i < |hits| && j <= |hits|
    ensures p in Row(hits, i, j) <==> p.0 == i && i < p.1 < j && Linked(hits, i, p.1)
  {
    if j > i + 1 {
      RowSpec(hits, i, j - 1, p);
    }
  }

  /** A pair of contacts is linked exactly when it is a pair of distinct
      entries of different wires whose keys differ. */
  lemma {:induction false} PairsSpec(hits: seq<(nat, Hit)>, i: nat, p: (nat, nat))
    requires i <= |hits|
    ensures p in Pairs(hits, i) <==> p.0 < i && p.0 < p.1 < |hits| && Linked(hits, p.0, p.1)
  {
    if i > 0 {
      var a, b := Pairs(hits, i - 1), Row(hits, i - 1, |hits|);
      assert Pairs(hits, i) == a + b;
      assert p in a <==> p.0 < i - 1 && p.0 < p.1 < |hits| && Linked(hits, p.0, p.1) by {
        PairsSpec(hits, i - 1, p);
      }
      assert p in b <==> p.0 == i - 1 && p.0 < p.1 < |hits| && Linked(hits, p.0, p.1) by {
        RowSpec(hits, i - 1, |hits|, p);
      }
      assert p in a + b <==> p in a || p in b;
    }
  }

  /** The link segments of a list of pairs. */
  function Points(hits: seq<(nat, Hit)>, ps: seq<(nat, nat)>): (r: seq<(Point3, Point3)>)
    requires forall k :: 0 <= k < |ps| ==> ps[k].0 < |hits| && ps[k].1 < |hits|
    ensures |r| == |ps|
  {
    seq(|ps|, k requires 0 <= k < |ps| => (hits[ps[k].0].1.point, hits[ps[k].1].1.point))
  }

  lemma PointsAppend(hits: seq<(nat, Hit)>, a: seq<(nat, nat)>, b: seq<(nat, nat)>)
    requires forall k :: 0 <= k < |a| ==> a[k].0 < |hits| && a[k].1 < |hits|
    requires forall k :: 0 <= k < |b| ==> b[k].0 < |hits| && b[k].1 < |hits|
    ensures Points(hits, a + b) == Points(hits, a) + Points(hits, b)
  {
  }

  /** The links of one component: none with fewer than two contacts,
      otherwise one per linked pair. */
  function CompLinks(hits: seq<(nat, Hit)>): seq<(Point3, Point3)> {
    if |hits| < 2 then []
    else Points(hits, Pairs(hits, |hits|))
  }

  /** The i/j loop over the contacts of one component. */
  method PairLinks(hits: seq<(nat, Hit)>) returns (links: seq<(Point3, Point3)>)
    ensures links == Points(hits, Pairs(hits, |hits|))
  {
    links := [];
    for i := 0 to |hits|
      invariant links == Points(hits, Pairs(hits, i))
    {
      var row := RowLinks(hits, i);
      PointsAppend(hits, Pairs(hits, i), Row(hits, i, |hits|));
      links := links + row;
    }
  }

  /** The inner loop: the links of contact `i` with the contacts after it. */
  method RowLinks(hits: seq<(nat, Hit)>, i: nat) returns (links: seq<(Point3, Point3)>)
    requires i < |hits|
    ensures links == Points(hits, Row(hits, i, |hits|))
  {
    links := [];
    for j := i + 1 to |hits|
      invariant links == Points(hits, Row(hits, i, j))
    {
      if hits[i].0 == hits[j].0 {
        continue;
      }
      if hits[i].1.key == hits[j].1.key {
        continue;
      }
      PointsAppend(hits, Row(hits, i, j), [(i, j)]);
      links := links + [(hits[i].1.point, hits[j].1.point)];
    }
  }

  /** The links of one component object: its box, the first contact of each
      wire, the pairs. */
  method ComponentLinks(c: nat, wires: seq<nat>, segsOf: (nat, nat) -> seq<Option<Point3>>, box: Box3, s: real) returns (links: seq<(Point3, Point3)>)
    ensures links == CompLinks(HitsMap(wires, Found(c, wires, segsOf, box, s), |wires|))
  {
    var hits := CollectHits(c, wires, segsOf, box, s);
    if |hits| < 2 {
      return [];
    }
    links := PairLinks(hits);
  }

  /** Fewer than two contacts give no link; otherwise a link joins two
      contacts exactly when they lie on different wires and on different
      faces, edges or corners; two contacts with one key are never linked. */
  lemma CompLinksSpec(hits: seq<(nat, Hit)>)
    requires DistinctWires(hits)
    ensures |hits| < 2 ==> CompLinks(hits) == []
    ensures forall i, j :: 0 <= i < j < |hits| ==>
      ((i, j) in Pairs(hits, |hits|) <==> hits[i].1.key != hits[j].1.key)
  {
    if |hits| < 2 {
      if Pairs(hits, |hits|) != [] {
        PairsSpec(hits, |hits|, Pairs(hits, |hits|)[0]);
      }
    }
    forall i, j | 0 <= i < j < |hits| ensures (i, j) in Pairs(hits, |hits|) <==> hits[i].1.key != hits[j].1.key {
      PairsSpec(hits, |hits|, (i, j));
    }
  }

  /** The links of one component: none when its box is empty. */
  function LinksAt(c: nat, wires: seq<nat>, boxOf: nat -> Option<Box3>, segsOf: (nat, nat) -> seq<Option<Point3>>, s: real)
    : seq<(Point3, Point3)>
  {
    match boxOf(c)
    case None => []
    case Some(box) => CompLinks(HitsMap(wires, Found(c, wires, segsOf, box, s), |wires|))
  }

  /** The links of the components below `n`, component by component. */
  function AllLinks(comps: seq<nat>, wires: seq<nat>, boxOf: nat -> Option<Box3>, segsOf: (nat, nat) -> seq<Option<Point3>>,
                    s: real, n: nat): seq<(Point3, Point3)>
    requires n <= |comps|
  {
    if n == 0 then []
    else AllLinks(comps, wires, boxOf, segsOf, s, n - 1) + LinksAt(comps[n - 1], wires, boxOf, segsOf, s)
  }

  /** The body of the component loop: skip an empty box. */
  method LinksOfComp(c: nat, wires: seq<nat>, boxOf: nat -> Option<Box3>, segsOf: (nat, nat) -> seq<Option<Point3>>, s: real)
    returns (links: seq<(Point3, Point3)>)
    ensures links == LinksAt(c, wires, boxOf, segsOf, s)
  {
    var box := boxOf(c);
    links := [];
    if box.Some? {
      links := ComponentLinks(c, wires, segsOf, box.value, s);
    }
  }

  /** `compObjs.forEach(...)`: the link search over all component objects.
      `boxOf(c)` is the bounding box of object `c`, `None` when it is
      empty; `segsOf(c, w)` is, per world segment of wire `w`, where the
      segment meets the box of `c` grown by `s`. */
  method WireLinks(comps: seq<nat>, wires: seq<nat>, boxOf: nat -> Option<Box3>, segsOf: (nat, nat) -> seq<Option<Point3>>, s: real)
    returns (links: seq<(Point3, Point3)>)
    ensures links == AllLinks(comps, wires, boxOf, segsOf, s, |comps|)
  {
    links := [];
    for n := 0 to |comps|
      invariant links == AllLinks(comps, wires, boxOf, segsOf, s, n)
    {
      var more := LinksOfComp(comps[n], wires, boxOf, segsOf, s);
      links := links + more;
    }
  }

  /** The tolerance of the link search. */
  const LinkTol: real := 2.0

  /** The classification and link part of `renderDxfFromText`: categories,
      their initial groups, the wire and component objects, and the links. */
  method ClassifyAndLink(objs: seq<Obj>, blocks: map<string, seq<BlockEnt>>, boxOf: nat -> Option<Box3>,
                         segsOf: (nat, nat) -> seq<Option<Point3>>)
    returns (cats: seq<Category>, gm: map<string, Group>, links: seq<(Point3, Point3)>)
    ensures forall i :: 0 <= i < |cats| ==> cats[i].key in gm && gm[cats[i].key] == GroupOf(cats[i].typ, cats[i].color, cats[i].name)
    ensures links == AllLinks(InGroup(cats, gm, Component), InGroup(cats, gm, Wire), boxOf, segsOf, LinkTol,
                              |InGroup(cats, gm, Component)|)
  {
    cats := Categorize(objs, blocks);
    gm := InitialGroupMap(cats);
    var wireObjs := CollectGroup(cats, gm, Wire);
    var compObjs := CollectGroup(cats, gm, Component);
    links := WireLinks(compObjs, wireObjs, boxOf, segsOf, LinkTol);
  }
}
