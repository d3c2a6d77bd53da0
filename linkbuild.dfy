/**
 * The outer loop of `buildLinkSets` (src/link/fn.js): one breadth-first
 * search per box with a bounding box, a de-duplication of the components by
 * their sorted box/wire/part key, and the part jumpers of every component
 * kept.
 */
module LinkBuild {
  import opened Wrappers
  import opened Geometry
  import opened GridIndex
  import opened Ids
  import opened Drawing
  import opened LinkSets
  import opened PartLinks

  /** The de-duplication key of a component: its box ids, wire ids and part
      ids, each as a set (the sorted, `|`-joined lists of the source are a
      function of these sets). */
  datatype CompKey = CompKey(boxes: set<string>, wires: set<string>, parts: set<string>)

  function KeyOf(c: Comp): CompKey {
    CompKey({IdStr(BoxId(c.box))},
            set w | w in c.wires :: IdStr(WireId(w)),
            set p | p in c.parts :: IdStr(p))
  }

  /** Components of different boxes have different keys. */
  lemma KeyOfBox(c: Comp, c': Comp)
    requires c.box != c'.box
    ensures KeyOf(c) != KeyOf(c')
  {
    if KeyOf(c) == KeyOf(c') {
      assert IdStr(BoxId(c.box)) in KeyOf(c').boxes;
      IdStrInjective(BoxId(c.box), BoxId(c'.box));
    }
  }

  /** The boxes below `n` that have a bounding box, in order: the boxes the
      loop searches from. */
  function Seeds(d: Drawing, n: nat): (r: seq<nat>)
    requires n <= |d.box|
  {
    if n == 0 then []
    else Seeds(d, n - 1) + (if BBox(d.box[n - 1]).Some? then [n - 1] else [])
  }

  /** The seeds are exactly the boxes with a bounding box, increasing. */
  lemma {:induction false} SeedsSpec(d: Drawing, n: nat)
    requires n <= |d.box|
    ensures forall b: nat :: b in Seeds(d, n) <==> b < n && BBox(d.box[b]).Some?
    ensures forall i, j :: 0 <= i < j < |Seeds(d, n)| ==> Seeds(d, n)[i] < Seeds(d, n)[j]
  {
    if n > 0 {
      SeedsSpec(d, n - 1);
      var s0 := Seeds(d, n - 1);
      var s := Seeds(d, n);
      assert forall k :: 0 <= k < |s0| ==> s[k] == s0[k];
      forall i, j | 0 <= i < j < |s| ensures s[i] < s[j] {
        if j == |s0| {
          assert s0[i] in s0;
        }
      }
    }
  }

  /** The link lists after the part jumpers of each component, in order. */
  function LinksAfter(m: map<NodeId, seq<Link>>, d: Drawing, eps: PosTol, hypot: Hypot, comps: seq<Comp>)
    : map<NodeId, seq<Link>>
  {
    if comps == [] then m
    else
      var c := comps[|comps| - 1];
      WithPartLinks(LinksAfter(m, d, eps, hypot, comps[..|comps| - 1]), JumperRule(d, eps, hypot, c.wires), c.parts)
  }

  /** The link lists stay numbered `link:<part id>:<index>` whatever the
      components. */
  lemma {:induction false} LinksAfterNumbered(m: map<NodeId, seq<Link>>, d: Drawing, eps: PosTol, hypot: Hypot, comps: seq<Comp>)
    requires Numbered(m)
    ensures Numbered(LinksAfter(m, d, eps, hypot, comps))
    decreases |comps|
  {
    if comps != [] {
      var c := comps[|comps| - 1];
      LinksAfterNumbered(m, d, eps, hypot, comps[..|comps| - 1]);
      PartLinksLabelled(d, eps, hypot, c.wires);
      WithPartLinksNumbered(LinksAfter(m, d, eps, hypot, comps[..|comps| - 1]), JumperRule(d, eps, hypot, c.wires), c.parts);
    }
  }

  /** A part that no component reaches gets no link. */
  lemma {:induction false} LinksAfterUnreached(m: map<NodeId, seq<Link>>, d: Drawing, eps: PosTol, hypot: Hypot,
                                               comps: seq<Comp>, p: NodeId)
    requires forall k :: 0 <= k < |comps| ==> p !in comps[k].parts
    ensures LinkList(LinksAfter(m, d, eps, hypot, comps), p) == LinkList(m, p)
    decreases |comps|
  {
    if comps != [] {
      var n := |comps| - 1;
      LinksAfterUnreached(m, d, eps, hypot, comps[..n], p);
      WithPartLinksOthers(LinksAfter(m, d, eps, hypot, comps[..n]), JumperRule(d, eps, hypot, comps[n].wires), comps[n].parts, p);
    }
  }

  /** The component of box `b`, as the search finds it: the box, its wires
      and parts exactly the nodes reachable from it, each once. */
  ghost predicate ComponentOf(d: Drawing, eps: Tol, b: nat, c: Comp) {
    && c.box == b
    && NoDup(c.wires) && NoDup(c.parts)
    && (forall p :: p in c.parts ==> p.PartId?)
    && (forall v :: InComp(c, v) ==> ValidNode(d, v))
    && (forall v :: InComp(c, v) <==> Reachable(d, eps, BoxId(b), v))
  }

  /** The keys of a list of components are pairwise different. */
  ghost predicate DistinctKeys(comps: seq<Comp>) {
    forall i, j :: 0 <= i < j < |comps| ==> KeyOf(comps[i]) != KeyOf(comps[j])
  }

  /** The wires and parts of a component name elements of the drawing. */
  lemma ComponentInDrawing(d: Drawing, eps: Tol, b: nat, c: Comp)
    requires ComponentOf(d, eps, b, c)
    ensures WiresIn(d, c.wires) && PartsIn(d, c.parts)
  {
    forall k | 0 <= k < |c.wires| ensures c.wires[k] < |d.wire| {
      assert InComp(c, WireId(c.wires[k]));
    }
    forall k | 0 <= k < |c.parts| ensures c.parts[k].PartId? && ValidNode(d, c.parts[k]) {
      assert c.parts[k] in c.parts;
      assert InComp(c, c.parts[k]);
    }
  }

  /** The state of the box loop after the boxes below `b`: one component
      per seed so far, their keys seen, and the link lists written. */
  ghost predicate Built(d: Drawing, eps: PosTol, hypot: Hypot, b: nat, comps: seq<Comp>, seen: set<CompKey>,
                        links: map<NodeId, seq<Link>>) {
    && b <= |d.box|
    && |comps| == |Seeds(d, b)|
    && (forall k :: 0 <= k < |comps| ==> ComponentOf(d, eps, Seeds(d, b)[k], comps[k]))
    && (forall k :: 0 <= k < |comps| ==> comps[k].box < b)
    && seen == KeySet(comps)
    && DistinctKeys(comps)
    && links == LinksAfter(map[], d, eps, hypot, comps)
  }

  lemma BuiltSkip(d: Drawing, eps: PosTol, hypot: Hypot, b: nat, comps: seq<Comp>, seen: set<CompKey>,
                  links: map<NodeId, seq<Link>>)
    requires Built(d, eps, hypot, b, comps, seen, links) && b < |d.box| && BBox(d.box[b]).None?
    ensures Built(d, eps, hypot, b + 1, comps, seen, links)
  {
  }

  function KeySet(comps: seq<Comp>): set<CompKey> {
    set k | 0 <= k < |comps| :: KeyOf(comps[k])
  }

  lemma KeysSnoc(comps: seq<Comp>, c: Comp)
    ensures KeySet(comps + [c]) == KeySet(comps) + {KeyOf(c)}
  {
    var cs := comps + [c];
    forall x | x in KeySet(cs) ensures x in KeySet(comps) + {KeyOf(c)} {
      var k :| 0 <= k < |cs| && x == KeyOf(cs[k]);
      if k < |comps| {
        assert x == KeyOf(comps[k]);
      }
    }
    assert KeyOf(cs[|comps|]) == KeyOf(c);
    forall x | x in KeySet(comps) ensures x in KeySet(cs) {
      var k :| 0 <= k < |comps| && x == KeyOf(comps[k]);
      assert cs[k] == comps[k];
    }
  }

  /** The component of a new box is never a repeat, so it is kept. */
  lemma BuiltAdd(d: Drawing, eps: PosTol, hypot: Hypot, b: nat, comps: seq<Comp>, seen: set<CompKey>,
                 links: map<NodeId, seq<Link>>, c: Comp, links': map<NodeId, seq<Link>>)
    requires Built(d, eps, hypot, b, comps, seen, links) && b < |d.box| && BBox(d.box[b]).Some?
    requires ComponentOf(d, eps, b, c)
    requires links' == WithPartLinks(links, JumperRule(d, eps, hypot, c.wires), c.parts)
    ensures KeyOf(c) !in seen
    ensures Built(d, eps, hypot, b + 1, comps + [c], seen + {KeyOf(c)}, links')
  {
    var cs := comps + [c];
    assert cs[..|comps|] == comps;
    forall k | 0 <= k < |comps| ensures KeyOf(comps[k]) != KeyOf(c) {
      KeyOfBox(comps[k], c);
    }
    assert Seeds(d, b + 1) == Seeds(d, b) + [b];
    KeysSnoc(comps, c);
  }

  /** `buildLinkSets`: one component per box with a bounding box, in box
      order, none dropped as a repeat, and the part jumpers of every
      component in a fresh link table. */
  method BuildLinkSets(d: Drawing, eps: PosTol, hypot: Hypot) returns (comps: seq<Comp>, table: PartLinkTable)
    ensures fresh(table)
    ensures |comps| == |Seeds(d, |d.box|)|
    ensures forall k :: 0 <= k < |comps| ==> ComponentOf(d, eps, Seeds(d, |d.box|)[k], comps[k])
    ensures DistinctKeys(comps)
    ensures table.links == LinksAfter(map[], d, eps, hypot, comps)
  {
    var wgrid := Build(WireItems(d), CELL);
    var pgrid := Build(PartItems(d), CELL);
    table := new PartLinkTable();
    comps := [];
    var seen: set<CompKey> := {};
    for b := 0 to |d.box|
      invariant Built(d, eps, hypot, b, comps, seen, table.links)
    {
      if BBox(d.box[b]).None? {
        BuiltSkip(d, eps, hypot, b, comps, seen, table.links);
        continue;
      }
      var c := Explore(d, eps, wgrid, pgrid, b);
      var key := KeyOf(c);
      ghost var links := table.links;
      ComponentInDrawing(d, eps, b, c);
      table.AddPartLinks(d, eps, hypot, c.wires, c.parts);
      BuiltAdd(d, eps, hypot, b, comps, seen, links, c, table.links);
      if key in seen {
        assert false;
        continue;
      }
      seen := seen + {key};
      comps := comps + [c];
    }
  }
}
