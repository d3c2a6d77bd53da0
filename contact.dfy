/**
 * `classifyContact`: where a contact point lies on a component's box. The
 * box planes within the tolerance of the point are collected in the order
 * x-min, x-max, y-min, y-max, z-min, z-max; their number gives the kind
 * (face, edge, corner) and their codes, sorted and joined by `|`, the key
 * that tells two contacts on the same face, edge or corner apart from two
 * on different ones.
 */
module Contact {
  import opened Strs

  datatype Point3 = Point3(x: real, y: real, z: real)

  /** A `THREE.Box3`: its two corners. */
  datatype Box3 = Box3(min: Point3, max: Point3)

  datatype Contact = Contact(kind: string, key: string)

  /** Which of the six box planes lie within the tolerance of the point. */
  datatype Planes = Planes(xmin: bool, xmax: bool, ymin: bool, ymax: bool, zmin: bool, zmax: bool)

  function Abs(r: real): real {
    if r < 0.0 then -r else r
  }

  function PlanesOf(p: Point3, box: Box3, s: real): Planes {
    Planes(Abs(p.x - box.min.x) <= s, Abs(p.x - box.max.x) <= s,
           Abs(p.y - box.min.y) <= s, Abs(p.y - box.max.y) <= s,
           Abs(p.z - box.min.z) <= s, Abs(p.z - box.max.z) <= s)
  }

  /** The codes one axis pushes, in push order: the "min" plane first. */
  function Axis(lo: bool, hi: bool, min: string, max: string): seq<string> {
    (if lo then [min] else []) + (if hi then [max] else [])
  }

  /** The same codes in sorted order: "max" before "min". */
  function AxisSorted(lo: bool, hi: bool, min: string, max: string): seq<string> {
    (if hi then [max] else []) + (if lo then [min] else [])
  }

  /** The candidate codes in the order they are pushed. */
  function Candidates(pl: Planes): seq<string> {
    Axis(pl.xmin, pl.xmax, "xmin", "xmax") + Axis(pl.ymin, pl.ymax, "ymin", "ymax") + Axis(pl.zmin, pl.zmax, "zmin", "zmax")
  }

  /** The number of planes matched. */
  function Count(pl: Planes): nat {
    (if pl.xmin then 1 else 0) + (if pl.xmax then 1 else 0) + (if pl.ymin then 1 else 0)
    + (if pl.ymax then 1 else 0) + (if pl.zmin then 1 else 0) + (if pl.zmax then 1 else 0)
  }

  /** The candidate codes in code-unit order. */
  function Canonical(pl: Planes): seq<string> {
    AxisSorted(pl.xmin, pl.xmax, "xmin", "xmax")
    + (AxisSorted(pl.ymin, pl.ymax, "ymin", "ymax") + AxisSorted(pl.zmin, pl.zmax, "zmin", "zmax"))
  }

  // ---------------------------------------------------------------------
  // `Array.prototype.sort` on strings
  // ---------------------------------------------------------------------

  /** The default sort order: lexicographic comparison of code units. */
  predicate StrLt(a: string, b: string)
    decreases |a|
  {
    if a == [] then b != []
    else b != [] && (a[0] < b[0] || (a[0] == b[0] && StrLt(a[1..], b[1..])))
  }

  lemma {:induction false} StrLtIrreflexive(a: string)
    ensures !StrLt(a, a)
    decreases |a|
  {
    if a != [] {
      StrLtIrreflexive(a[1..]);
    }
  }

  lemma {:induction false} StrLtTransitive(a: string, b: string, c: string)
    requires StrLt(a, b) && StrLt(b, c)
    ensures StrLt(a, c)
    decreases |a|
  {
    if a != [] && a[0] == b[0] && b[0] == c[0] {
      StrLtTransitive(a[1..], b[1..], c[1..]);
    }
  }

  lemma {:induction false} StrLtTotal(a: string, b: string)
    ensures a == b || StrLt(a, b) || StrLt(b, a)
    decreases |a|
  {
    if a != [] && b != [] && a[0] == b[0] {
      StrLtTotal(a[1..], b[1..]);
      if a[1..] == b[1..] {
        assert a == [a[0]] + a[1..] && b == [b[0]] + b[1..];
      }
    }
  }

  /** Non-decreasing in the default sort order. */
  predicate Sorted(s: seq<string>) {
    forall i, j :: 0 <= i < j < |s| ==> !StrLt(s[j], s[i])
  }

  function Insert(x: string, s: seq<string>): (r: seq<string>)
    ensures multiset(r) == multiset(s) + multiset{x}
  {
    if s == [] then [x]
    else if StrLt(s[0], x) then
      assert s == [s[0]] + s[1..];
      [s[0]] + Insert(x, s[1..])
    else [x] + s
  }

  /** `xs.slice().sort()` */
  function SortStrs(xs: seq<string>): (r: seq<string>)
    ensures multiset(r) == multiset(xs)
  {
    if xs == [] then []
    else
      assert xs == xs[..|xs| - 1] + [xs[|xs| - 1]];
      Insert(xs[|xs| - 1], SortStrs(xs[..|xs| - 1]))
  }

  lemma {:induction false} InsertSorted(x: string, s: seq<string>)
    requires Sorted(s)
    ensures Sorted(Insert(x, s))
  {
    if s != [] && StrLt(s[0], x) {
      InsertSorted(x, s[1..]);
      var r := Insert(x, s);
      var t := Insert(x, s[1..]);
      assert r == [s[0]] + t;
      forall i, j | 0 <= i < j < |r| ensures !StrLt(r[j], r[i]) {
        if i == 0 {
          assert r[j] in multiset(t);
          assert r[j] == x || r[j] in multiset(s[1..]);
          if r[j] == x {
            if StrLt(x, s[0]) { StrLtTransitive(x, s[0], x); StrLtIrreflexive(x); }
          } else {
            var k :| 0 <= k < |s[1..]| && s[1..][k] == r[j];
            assert s[k + 1] == r[j];
          }
        } else {
          assert r[i] == t[i - 1] && r[j] == t[j - 1];
        }
      }
    } else if s != [] {
      var r := [x] + s;
      StrLtTotal(x, s[0]);
      forall j | 0 < j < |r| ensures !StrLt(r[j], x) {
        assert r[j] == s[j - 1];
        if StrLt(s[j - 1], x) {
          if j > 1 {
            StrLtTotal(s[j - 1], s[0]);
            if s[j - 1] != s[0] {
              StrLtTransitive(s[0], s[j - 1], x);
            }
          }
        }
      }
      forall i, j | 0 <= i < j < |r| ensures !StrLt(r[j], r[i]) {
        if i > 0 {
          assert r[i] == s[i - 1] && r[j] == s[j - 1];
        }
      }
    }
  }

  lemma {:induction false} SortStrsSorted(xs: seq<string>)
    ensures Sorted(SortStrs(xs))
  {
    if xs != [] {
      SortStrsSorted(xs[..|xs| - 1]);
      InsertSorted(xs[|xs| - 1], SortStrs(xs[..|xs| - 1]));
    }
  }

  /** The least element of a sorted non-empty sequence comes first. */
  lemma SortedHeadLeast(s: seq<string>, y: string)
    requires Sorted(s) && s != [] && y in s
    ensures !StrLt(y, s[0])
  {
    var k :| 0 <= k < |s| && s[k] == y;
    if k == 0 { StrLtIrreflexive(y); }
  }

  /** Two sorted sequences with the same elements are the same sequence. */
  lemma {:induction false} SortedUnique(a: seq<string>, b: seq<string>)
    requires Sorted(a) && Sorted(b) && multiset(a) == multiset(b)
    ensures a == b
    decreases |a|
  {
    if a != [] {
      assert a[0] in multiset(b);
      assert b != [];
      assert b[0] in multiset(a);
      SortedHeadLeast(a, b[0]);
      SortedHeadLeast(b, a[0]);
      StrLtTotal(a[0], b[0]);
      assert a[0] == b[0];
      assert a == [a[0]] + a[1..] && b == [b[0]] + b[1..];
      assert multiset(a) == multiset{a[0]} + multiset(a[1..]);
      assert multiset(b) == multiset{b[0]} + multiset(b[1..]);
      assert multiset(a[1..]) == multiset(a) - multiset{a[0]};
      assert multiset(b[1..]) == multiset(b) - multiset{b[0]};
      SortedUnique(a[1..], b[1..]);
    } else {
      assert |b| == |multiset(b)| == 0;
    }
  }

  // ---------------------------------------------------------------------
  // The classification
  // ---------------------------------------------------------------------

  function KindOf(n: nat): string {
    if n == 1 then "face" else if n == 2 then "edge" else "corner"
  }

  /** The contact a list of candidate codes describes. */
  function OfCandidates(cands: seq<string>): Contact {
    if cands == [] then Contact("unknown", "unknown")
    else Contact(KindOf(|cands|), Join(SortStrs(cands), "|"))
  }

  /** What `classifyContact(p, box, s)` returns. */
  function Classify(p: Point3, box: Box3, s: real): Contact {
    OfCandidates(Candidates(PlanesOf(p, box, s)))
  }

  /** `classifyContact(p, box, s)`: the six plane tests push their codes;
      none gives "unknown", otherwise the count gives the kind and the
      sorted codes the key. */
  method ClassifyContact(p: Point3, box: Box3, s: real) returns (c: Contact)
    ensures c == Classify(p, box, s)
  {
    ghost var pl := PlanesOf(p, box, s);
    ghost var x, y, z := Axis(pl.xmin, pl.xmax, "xmin", "xmax"), Axis(pl.ymin, pl.ymax, "ymin", "ymax"), Axis(pl.zmin, pl.zmax, "zmin", "zmax");
    var candidates: seq<string> := [];
    candidates := PushAxis(candidates, p.x, box.min.x, box.max.x, s, "xmin", "xmax");
    assert candidates == x by { assert [] + x == x; }
    candidates := PushAxis(candidates, p.y, box.min.y, box.max.y, s, "ymin", "ymax");
    candidates := PushAxis(candidates, p.z, box.min.z, box.max.z, s, "zmin", "zmax");
    assert candidates == x + y + z;
    c := Finish(candidates);
  }

  /** Two of the plane tests of `classifyContact`: coordinate `v` against
      the box's `lo` and `hi` planes, pushing `min` and then `max`. */
  method PushAxis(candidates0: seq<string>, v: real, lo: real, hi: real, s: real, min: string, max: string)
    returns (candidates: seq<string>)
    ensures candidates == candidates0 + Axis(Abs(v - lo) <= s, Abs(v - hi) <= s, min, max)
  {
    candidates := candidates0;
    if Abs(v - lo) <= s { candidates := candidates + [min]; }
    if Abs(v - hi) <= s { candidates := candidates + [max]; }
  }

  /** The end of `classifyContact`, once the candidates are collected. */
  method Finish(candidates: seq<string>) returns (c: Contact)
    ensures c == OfCandidates(candidates)
  {
    if |candidates| == 0 {
      return Contact("unknown", "unknown");
    }
    var kind := if |candidates| == 1 then "face" else if |candidates| == 2 then "edge" else "corner";
    c := Contact(kind, Join(SortStrs(candidates), "|"));
  }

  /** Every string of the list starts with `c`. */
  predicate Starts(c: char, xs: seq<string>) {
    forall k :: 0 <= k < |xs| ==> xs[k] != [] && xs[k][0] == c
  }

  /** Every string of the list starts with a character above `c`. */
  predicate Above(c: char, xs: seq<string>) {
    forall k :: 0 <= k < |xs| ==> xs[k] != [] && xs[k][0] > c
  }

  lemma AxisStarts(lo: bool, hi: bool, min: string, max: string, c: char)
    requires min != [] && max != [] && min[0] == c && max[0] == c
    ensures Starts(c, AxisSorted(lo, hi, min, max))
  {
  }

  /** A concatenation of two sorted sequences, the first starting with `c`
      and the second with characters above it, is sorted. */
  lemma SortedAppend(c: char, a: seq<string>, b: seq<string>)
    requires Sorted(a) && Sorted(b) && Starts(c, a) && Above(c, b)
    ensures Sorted(a + b)
  {
    var r := a + b;
    forall i, j | 0 <= i < j < |r| ensures !StrLt(r[j], r[i]) {
      if i < |a| <= j {
        assert r[i] == a[i] && r[j] == b[j - |a|];
      } else if j < |a| {
        assert r[i] == a[i] && r[j] == a[j];
      } else {
        assert r[i] == b[i - |a|] && r[j] == b[j - |a|];
      }
    }
  }

  lemma AxisSortedSorted(lo: bool, hi: bool, min: string, max: string)
    requires StrLt(max, min)
    ensures Sorted(AxisSorted(lo, hi, min, max))
  {
    if lo && hi {
      if StrLt(min, max) {
        StrLtTransitive(max, min, max);
        StrLtIrreflexive(max);
      }
    }
  }

  lemma CanonicalSorted(pl: Planes)
    ensures Sorted(Canonical(pl))
  {
    var x := AxisSorted(pl.xmin, pl.xmax, "xmin", "xmax");
    var y := AxisSorted(pl.ymin, pl.ymax, "ymin", "ymax");
    var z := AxisSorted(pl.zmin, pl.zmax, "zmin", "zmax");
    assert StrLt("xmax", "xmin") && StrLt("ymax", "ymin") && StrLt("zmax", "zmin");
    AxisSortedSorted(pl.xmin, pl.xmax, "xmin", "xmax");
    AxisSortedSorted(pl.ymin, pl.ymax, "ymin", "ymax");
    AxisSortedSorted(pl.zmin, pl.zmax, "zmin", "zmax");
    AxisStarts(pl.xmin, pl.xmax, "xmin", "xmax", 'x');
    AxisStarts(pl.ymin, pl.ymax, "ymin", "ymax", 'y');
    AxisStarts(pl.zmin, pl.zmax, "zmin", "zmax", 'z');
    SortedAppend('y', y, z);
    assert Above('x', y + z);
    SortedAppend('x', x, y + z);
  }

  lemma AxisSameCodes(lo: bool, hi: bool, min: string, max: string)
    ensures multiset(Axis(lo, hi, min, max)) == multiset(AxisSorted(lo, hi, min, max))
  {
  }

  /** Sorting the pushed candidates gives the canonical order. */
  lemma SortedCandidates(pl: Planes)
    ensures SortStrs(Candidates(pl)) == Canonical(pl)
  {
    AxisSameCodes(pl.xmin, pl.xmax, "xmin", "xmax");
    AxisSameCodes(pl.ymin, pl.ymax, "ymin", "ymax");
    AxisSameCodes(pl.zmin, pl.zmax, "zmin", "zmax");
    assert multiset(Candidates(pl)) == multiset(Canonical(pl));
    SortStrsSorted(Candidates(pl));
    CanonicalSorted(pl);
    SortedUnique(SortStrs(Candidates(pl)), Canonical(pl));
  }

  lemma CountCandidates(pl: Planes)
    ensures |Candidates(pl)| == Count(pl)
  {
  }

  /** No plane within `s` gives "unknown"; one plane a face, two an edge,
      three or more a corner; the key is the matched codes in sorted order
      joined by `|`. */
  lemma ClassifySpec(p: Point3, box: Box3, s: real)
    ensures var pl, c := PlanesOf(p, box, s), Classify(p, box, s);
      && (c.kind == "unknown" <==> Count(pl) == 0)
      && (Count(pl) == 0 ==> c.key == "unknown")
      && (Count(pl) == 1 ==> c.kind == "face")
      && (Count(pl) == 2 ==> c.kind == "edge")
      && (Count(pl) >= 3 ==> c.kind == "corner")
      && (Count(pl) > 0 ==> c.key == Join(Canonical(pl), "|"))
  {
    var pl := PlanesOf(p, box, s);
    CountCandidates(pl);
    SortedCandidates(pl);
    assert "face" != "unknown" && "edge" != "unknown" && "corner" != "unknown";
  }

  /** Splitting a `|`-joined list of `|`-free strings gives the list back. */
  lemma {:induction false} SplitJoin(xs: seq<string>)
    requires xs != [] && forall k :: 0 <= k < |xs| ==> '|' !in xs[k]
    ensures Split(Join(xs, "|"), '|') == xs
    decreases |xs|
  {
    if |xs| == 1 {
      SplitAbsent(xs[0], '|');
    } else {
      SplitJoin(xs[1..]);
      assert Join(xs, "|") == xs[0] + ['|'] + Join(xs[1..], "|");
      SplitAt(xs[0], '|', Join(xs[1..], "|"));
      assert xs == [xs[0]] + xs[1..];
    }
  }

  /** The number of leading strings that start with `c`. */
  function Lead(c: char, xs: seq<string>): nat {
    if xs != [] && xs[0] != [] && xs[0][0] == c then 1 + Lead(c, xs[1..]) else 0
  }

  lemma {:induction false} LeadAppend(c: char, a: seq<string>, r: seq<string>)
    requires Starts(c, a) && Above(c, r)
    ensures Lead(c, a + r) == |a|
    decreases |a|
  {
    if a != [] {
      assert (a + r)[1..] == a[1..] + r;
      LeadAppend(c, a[1..], r);
    } else {
      assert a + r == r;
    }
  }

  /** A list of `c`-strings followed by a list of later strings splits
      back at the same place. */
  lemma SplitAxis(c: char, a1: seq<string>, r1: seq<string>, a2: seq<string>, r2: seq<string>)
    requires Starts(c, a1) && Starts(c, a2) && Above(c, r1) && Above(c, r2) && a1 + r1 == a2 + r2
    ensures a1 == a2 && r1 == r2
  {
    LeadAppend(c, a1, r1);
    LeadAppend(c, a2, r2);
    assert a1 == (a1 + r1)[..|a1|];
    assert a2 == (a2 + r2)[..|a2|];
    assert r1 == (a1 + r1)[|a1|..];
    assert r2 == (a2 + r2)[|a2|..];
  }

  lemma AxisInjective(lo1: bool, hi1: bool, lo2: bool, hi2: bool, min: string, max: string)
    requires |min| == |max| == 4 && min[2] == 'i' && max[2] == 'a'
    requires AxisSorted(lo1, hi1, min, max) == AxisSorted(lo2, hi2, min, max)
    ensures lo1 == lo2 && hi1 == hi2
  {
    var s := AxisSorted(lo1, hi1, min, max);
    assert min != max by { assert min[2] != max[2]; }
    if |s| == 1 {
      assert s[0] == min <==> lo1;
      assert s[0] == min <==> lo2;
    }
  }

  function XPart(pl: Planes): seq<string> { AxisSorted(pl.xmin, pl.xmax, "xmin", "xmax") }
  function YPart(pl: Planes): seq<string> { AxisSorted(pl.ymin, pl.ymax, "ymin", "ymax") }
  function ZPart(pl: Planes): seq<string> { AxisSorted(pl.zmin, pl.zmax, "zmin", "zmax") }

  lemma PartsStart(pl: Planes)
    ensures Starts('x', XPart(pl)) && Starts('y', YPart(pl)) && Starts('z', ZPart(pl))
    ensures Above('x', YPart(pl) + ZPart(pl)) && Above('y', ZPart(pl))
    ensures Canonical(pl) == XPart(pl) + (YPart(pl) + ZPart(pl))
  {
    AxisStarts(pl.xmin, pl.xmax, "xmin", "xmax", 'x');
    AxisStarts(pl.ymin, pl.ymax, "ymin", "ymax", 'y');
    AxisStarts(pl.zmin, pl.zmax, "zmin", "zmax", 'z');
  }

  lemma CanonicalParts(a: Planes, b: Planes)
    requires Canonical(a) == Canonical(b)
    ensures XPart(a) == XPart(b) && YPart(a) == YPart(b) && ZPart(a) == ZPart(b)
  {
    PartsStart(a);
    PartsStart(b);
    SplitAxis('x', XPart(a), YPart(a) + ZPart(a), XPart(b), YPart(b) + ZPart(b));
    SplitAxis('y', YPart(a), ZPart(a), YPart(b), ZPart(b));
  }

  lemma CanonicalInjective(a: Planes, b: Planes)
    requires Canonical(a) == Canonical(b)
    ensures a == b
  {
    CanonicalParts(a, b);
    AxisInjective(a.xmin, a.xmax, b.xmin, b.xmax, "xmin", "xmax");
    AxisInjective(a.ymin, a.ymax, b.ymin, b.ymax, "ymin", "ymax");
    AxisInjective(a.zmin, a.zmax, b.zmin, b.zmax, "zmin", "zmax");
  }

  lemma CanonicalCodes(pl: Planes)
    ensures |Canonical(pl)| == Count(pl)
    ensures forall k :: 0 <= k < |Canonical(pl)| ==> '|' !in Canonical(pl)[k] && Canonical(pl)[k] != "unknown"
  {
    var c := Canonical(pl);
    forall k | 0 <= k < |c| ensures '|' !in c[k] && c[k] != "unknown" {
      assert |c[k]| == 4 && c[k][1] == 'm' && c[k][3] != '|';
      assert "unknown"[1] == 'n';
    }
  }

  /** The key of a set of matched planes. */
  function KeyOf(pl: Planes): string {
    if Count(pl) == 0 then "unknown" else Join(Canonical(pl), "|")
  }

  lemma KeyNotUnknown(pl: Planes)
    requires Count(pl) > 0
    ensures KeyOf(pl) != "unknown"
  {
    CanonicalCodes(pl);
    SplitJoin(Canonical(pl));
    SplitAbsent("unknown", '|');
  }

  lemma {:induction false} KeyInjective(a: Planes, b: Planes)
    requires KeyOf(a) == KeyOf(b)
    ensures a == b
  {
    CanonicalCodes(a);
    CanonicalCodes(b);
    if Count(a) > 0 && Count(b) > 0 {
      SplitJoin(Canonical(a));
      SplitJoin(Canonical(b));
    } else if Count(a) > 0 {
      KeyNotUnknown(a);
    } else if Count(b) > 0 {
      KeyNotUnknown(b);
    }
    CanonicalInjective(a, b);
  }

  /** Two contacts get the same key exactly when the same box planes lie
      within the tolerance of their points: the key names the face, edge or
      corner and nothing else. */
  lemma KeyIffPlanes(p1: Point3, b1: Box3, p2: Point3, b2: Box3, s: real)
    ensures Classify(p1, b1, s).key == Classify(p2, b2, s).key <==> PlanesOf(p1, b1, s) == PlanesOf(p2, b2, s)
  {
    ClassifySpec(p1, b1, s);
    ClassifySpec(p2, b2, s);
    if Classify(p1, b1, s).key == Classify(p2, b2, s).key {
      KeyInjective(PlanesOf(p1, b1, s), PlanesOf(p2, b2, s));
    }
  }
}
