/**
 * Node identifiers of the connectivity pipeline and the ways they are
 * rendered: the `__id` strings given by `makeIds`, the short route tokens of
 * `shortId` and `pidNum`, the numeric wire order of `widNum`, and the label
 * abbreviation `filterName`.
 */
module Ids {
  import opened Strs
  import opened Js

  /** The three equipment layers a part can come from. */
  datatype PartCat = Eql | Eqe | Eqp

  function CatStr(c: PartCat): string {
    match c
    case Eql => "eql"
    case Eqe => "eqe"
    case Eqp => "eqp"
  }

  /** A box (panel), a wire or a part, by position in its input list. */
  datatype NodeId = BoxId(i: nat) | WireId(i: nat) | PartId(cat: PartCat, i: nat)

  /** The `__id` that `makeIds` gives: `box:i`, `wire:i`, `part:eql:i`, ... */
  function IdStr(n: NodeId): string {
    match n
    case BoxId(i) => "box:" + NatStr(i)
    case WireId(i) => "wire:" + NatStr(i)
    case PartId(c, i) => "part:" + CatStr(c) + ":" + NatStr(i)
  }

  /** The `__id` of the k-th jumper of a part: `link:<part id>:k`. */
  function LinkIdStr(part: NodeId, k: nat): string {
    "link:" + IdStr(part) + ":" + NatStr(k)
  }

  lemma NatStrNoColon(n: nat)
    ensures ':' !in NatStr(n)
  {
  }

  /** The last piece of `a:d` is `d` when `d` holds no colon. */
  lemma {:induction false} LastSplit(a: string, d: string)
    requires ':' !in d
    ensures Last(Split(a + [':'] + d, ':')) == d
    decreases |a|
  {
    if a == [] {
      assert a + [':'] + d == [':'] + d;
      assert ([':'] + d)[1..] == d;
      SplitAbsent(d, ':');
    } else {
      var s := a + [':'] + d;
      assert s[1..] == a[1..] + [':'] + d;
      LastSplit(a[1..], d);
      assert ':' in s[1..] by { assert s[1..][|a| - 1] == ':'; }
    }
  }

  /** Distinct nodes have distinct ids, so sets of id strings and sets of
      nodes are interchangeable. */
  lemma IdStrInjective(a: NodeId, b: NodeId)
    requires IdStr(a) == IdStr(b)
    ensures a == b
  {
    var s := IdStr(a);
    assert s[0] == IdStr(b)[0];
    match a
    case BoxId(i) =>
      assert s[4..] == NatStr(i) == NatStr(b.i) by { assert IdStr(b)[4..] == NatStr(b.i); }
      NatStrInjective(i, b.i);
    case WireId(i) =>
      assert s[5..] == NatStr(i) == NatStr(b.i) by { assert IdStr(b)[5..] == NatStr(b.i); }
      NatStrInjective(i, b.i);
    case PartId(c, i) =>
      assert s[5..8] == CatStr(c) && IdStr(b)[5..8] == CatStr(b.cat);
      assert s[9..] == NatStr(i) && IdStr(b)[9..] == NatStr(b.i);
      NatStrInjective(i, b.i);
  }

  /** The last element of a non-empty list (`Array.prototype.pop`'s result). */
  function Last(parts: seq<string>): string
    requires parts != []
  {
    parts[|parts| - 1]
  }

  /** `shortId`: "wire:12" becomes "wire12", "part:eqe:5" becomes "part5". */
  function ShortId(s: string): string {
    if StartsWith(s, "wire:") then assert s[4] == ':'; "wire" + Split(s, ':')[1]
    else if StartsWith(s, "box:") then assert s[3] == ':'; "box" + Split(s, ':')[1]
    else if StartsWith(s, "part:") then "part" + Last(Split(s, ':'))
    else if StartsWith(s, "link:") then "link" + Last(Split(s, ':'))
    else s
  }

  /** `pidNum`: the text after the last colon. */
  function PidNum(s: string): string {
    Last(Split(s, ':'))
  }

  /** `Number(t)` on the strings that reach it: surrounding white space is
      ignored, the empty string is 0, a decimal digit string is its value and
      anything else is NaN. */
  function NumberOf(t: string): Num {
    var u := Trim(t);
    if u == "" then Fin(0.0) else if AllDigits(u) then Fin(DigitsValue(u) as real) else NonFin
  }

  /** `widNum`: `Number(id.split(":")[1] || 0)`. */
  function WidNum(s: string): Num {
    var parts := Split(s, ':');
    if |parts| < 2 || parts[1] == "" then Fin(0.0) else NumberOf(parts[1])
  }

  lemma SplitBoxWire(prefix: string, d: string)
    requires ':' !in prefix && AllDigits(d)
    ensures Split(prefix + [':'] + d, ':') == [prefix, d]
  {
    SplitAt(prefix, ':', d);
    SplitAbsent(d, ':');
  }

  lemma SplitPart(c: PartCat, d: string)
    requires AllDigits(d)
    ensures Split("part:" + CatStr(c) + ":" + d, ':') == ["part", CatStr(c), d]
  {
    SplitBoxWire(CatStr(c), d);
    assert "part:" + CatStr(c) + ":" + d == "part" + [':'] + (CatStr(c) + [':'] + d);
    SplitAt("part", ':', CatStr(c) + [':'] + d);
  }

  /** The pieces of a node id between the colons. */
  lemma SplitIdStr(n: NodeId)
    ensures Split(IdStr(n), ':') == match n
      case BoxId(i) => ["box", NatStr(i)]
      case WireId(i) => ["wire", NatStr(i)]
      case PartId(c, i) => ["part", CatStr(c), NatStr(i)]
  {
    match n
    case BoxId(i) =>
      SplitBoxWire("box", NatStr(i));
      assert IdStr(n) == "box" + [':'] + NatStr(i);
    case WireId(i) =>
      SplitBoxWire("wire", NatStr(i));
      assert IdStr(n) == "wire" + [':'] + NatStr(i);
    case PartId(c, i) =>
      SplitPart(c, NatStr(i));
      assert IdStr(n) == "part:" + CatStr(c) + ":" + NatStr(i);
  }

  /** The route token of each kind of node: the kind followed by its number;
      the category of a part is dropped. */
  lemma ShortIdOfNode(n: NodeId)
    ensures ShortId(IdStr(n)) == match n
      case BoxId(i) => "box" + NatStr(i)
      case WireId(i) => "wire" + NatStr(i)
      case PartId(_, i) => "part" + NatStr(i)
    ensures PidNum(IdStr(n)) == NatStr(n.i)
  {
    SplitIdStr(n);
    var s := IdStr(n);
    match n
    case BoxId(i) => assert s[..5] != "wire:" by { assert s[0] == 'b'; }
    case WireId(i) =>
    case PartId(c, i) =>
      assert s[..5] != "wire:" && s[..4] != "box:" by { assert s[0] == 'p'; }
  }

  /** Two parts with the same number in different categories get the same token. */
  lemma ShortIdDropsCategory(i: nat)
    ensures ShortId(IdStr(PartId(Eql, i))) == ShortId(IdStr(PartId(Eqe, i))) == ShortId(IdStr(PartId(Eqp, i)))
  {
    ShortIdOfNode(PartId(Eql, i));
    ShortIdOfNode(PartId(Eqe, i));
    ShortIdOfNode(PartId(Eqp, i));
  }

  /** The token of a jumper is `link` followed by its index on the part. */
  lemma ShortIdOfLink(c: PartCat, i: nat, k: nat)
    ensures ShortId(LinkIdStr(PartId(c, i), k)) == "link" + NatStr(k)
  {
    var s := LinkIdStr(PartId(c, i), k);
    assert s == ("link:" + IdStr(PartId(c, i))) + [':'] + NatStr(k);
    LastSplit("link:" + IdStr(PartId(c, i)), NatStr(k));
    assert s[0] == 'l';
  }

  /** Wire ids are ordered by their number. */
  lemma WidNumOfWire(i: nat)
    ensures WidNum(IdStr(WireId(i))) == Fin(i as real)
  {
    SplitIdStr(WireId(i));
    var d := NatStr(i);
    assert TrimStart(d) == d by { assert !IsWhite(d[0]); }
    assert TrimEnd(d) == d by { assert !IsWhite(d[|d| - 1]); }
    DigitsValueNatStr(i);
  }

  /** `filterName`: the label abbreviation used on the drawing and the route
      list. Its ten replacements fall into three stages: the words are
      abbreviated, the part categories are dropped, and the colons are
      dropped (with `LP` folded to `L`). */
  function FilterName(s: string): string {
    DropColons(DropCategory(Abbreviate(s)))
  }

  function Abbreviate(s: string): string {
    var s1 := ReplaceAll(s, "(link0)", "");
    var s2 := ReplaceAll(s1, "link", "L");
    var s3 := ReplaceAll(s2, "box", "B");
    var s4 := ReplaceAll(s3, "part", "P");
    ReplaceAll(s4, "wire", "W")
  }

  function DropCategory(s: string): string {
    var s6 := ReplaceAll(s, "eql", "");
    var s7 := ReplaceAll(s6, "eqe", "");
    ReplaceAll(s7, "eqp", "")
  }

  function DropColons(s: string): string {
    ReplaceAll(ReplaceAll(s, ":", ""), "LP", "L")
  }

  /** Strings made of digits and colons: the numeric tails of ids. */
  predicate NumTail(t: string) {
    forall i :: 0 <= i < |t| ==> IsDigit(t[i]) || t[i] == ':'
  }

  lemma DigitsUntouched(d: string, pat: string, rep: string)
    requires NumTail(d) && pat != [] && !IsDigit(pat[0]) && pat[0] != ':'
    ensures ReplaceAll(d, pat, rep) == d
  {
    assert pat[0] !in d;
    ReplaceAllAbsent(d, pat, rep);
  }

  lemma AbsentFrom(a: string, d: string, pat: string, rep: string)
    requires NumTail(d) && pat != [] && !IsDigit(pat[0]) && pat[0] != ':' && pat[0] !in a
    ensures ReplaceAll(a + d, pat, rep) == a + d
  {
    assert pat[0] !in a + d;
    ReplaceAllAbsent(a + d, pat, rep);
  }

  /** A literal head at none of whose positions the pattern starts is kept,
      and the numeric tail after it is untouched. */
  lemma KeepHead(a: string, d: string, pat: string, rep: string)
    requires NumTail(d) && pat != [] && !IsDigit(pat[0]) && pat[0] != ':'
    requires forall k :: 0 <= k < |a| ==> !StartsWith((a + d)[k..], pat)
    ensures ReplaceAll(a + d, pat, rep) == a + d
  {
    ReplaceAllKeep(a, d, pat, rep);
    DigitsUntouched(d, pat, rep);
  }

  /** The leading word of `w:d` is replaced and the rest is kept. */
  lemma LeadWord(w: string, rep: string, d: string)
    requires NumTail(d) && w != [] && !IsDigit(w[0]) && w[0] != ':'
    ensures ReplaceAll(w + ":" + d, w, rep) == rep + ":" + d
  {
    assert w + ":" + d == w + (":" + d);
    assert ReplaceAll(w + (":" + d), w, rep) == rep + ReplaceAll(":" + d, w, rep) by {
      ReplaceAllPrefix(w, ":" + d, rep);
    }
    assert ReplaceAll(":" + d, w, rep) == ":" + d by {
      AbsentFrom(":", d, w, rep);
    }
    assert rep + (":" + d) == rep + ":" + d;
  }

  lemma AbbreviateWire(d: string)
    requires NumTail(d)
    ensures Abbreviate("wire:" + d) == "W:" + d
  {
    var s0 := "wire:" + d;
    var s1 := ReplaceAll(s0, "(link0)", "");
    assert s1 == s0 by { AbsentFrom("wire:", d, "(link0)", ""); }
    var s2 := ReplaceAll(s1, "link", "L");
    assert s2 == s0 by { AbsentFrom("wire:", d, "link", "L"); }
    var s3 := ReplaceAll(s2, "box", "B");
    assert s3 == s0 by { AbsentFrom("wire:", d, "box", "B"); }
    var s4 := ReplaceAll(s3, "part", "P");
    assert s4 == s0 by { AbsentFrom("wire:", d, "part", "P"); }
    assert ReplaceAll(s4, "wire", "W") == "W:" + d by {
      assert "wire:" + d == "wire" + ":" + d;
      LeadWord("wire", "W", d);
      assert "W" + ":" + d == "W:" + d;
    }
  }

  lemma AbbreviateBox(d: string)
    requires NumTail(d)
    ensures Abbreviate("box:" + d) == "B:" + d
  {
    var s0 := "box:" + d;
    var s1 := ReplaceAll(s0, "(link0)", "");
    assert s1 == s0 by { AbsentFrom("box:", d, "(link0)", ""); }
    var s2 := ReplaceAll(s1, "link", "L");
    assert s2 == s0 by { AbsentFrom("box:", d, "link", "L"); }
    var s3 := ReplaceAll(s2, "box", "B");
    assert s3 == "B:" + d by {
      assert "box:" + d == "box" + ":" + d;
      LeadWord("box", "B", d);
      assert "B" + ":" + d == "B:" + d;
    }
    var s4 := ReplaceAll(s3, "part", "P");
    assert s4 == "B:" + d by { AbsentFrom("B:", d, "part", "P"); }
    assert ReplaceAll(s4, "wire", "W") == "B:" + d by { AbsentFrom("B:", d, "wire", "W"); }
  }

  /** The words inside a category (`eql` holds an `l`, `eqp` a `p`) are no
      abbreviation's pattern. */
  lemma AbbreviatePart(c: PartCat, d: string)
    requires NumTail(d)
    ensures Abbreviate("part:" + CatStr(c) + ":" + d) == "P:" + CatStr(c) + ":" + d
  {
    var x := CatStr(c);
    var s0 := "part:" + x + ":" + d;
    assert s0 == ("part:" + x + ":") + d;
    var s1 := ReplaceAll(s0, "(link0)", "");
    assert s1 == s0 by { AbsentFrom("part:" + x + ":", d, "(link0)", ""); }
    var s2 := ReplaceAll(s1, "link", "L");
    assert s2 == s0 by { NoLinkInPart(c, d); }
    var s3 := ReplaceAll(s2, "box", "B");
    assert s3 == s0 by { AbsentFrom("part:" + x + ":", d, "box", "B"); }
    var s4 := ReplaceAll(s3, "part", "P");
    assert s4 == "P:" + x + ":" + d by { PartLead(c, d); }
    assert ReplaceAll(s4, "wire", "W") == "P:" + x + ":" + d by {
      assert "P:" + x + ":" + d == ("P:" + x + ":") + d;
      AbsentFrom("P:" + x + ":", d, "wire", "W");
    }
  }

  lemma NoLinkInPart(c: PartCat, d: string)
    requires NumTail(d)
    ensures var h := "part:" + CatStr(c) + ":"; ReplaceAll(h + d, "link", "L") == h + d
  {
    var h := "part:" + CatStr(c) + ":";
    forall j | 0 <= j < |h| ensures !StartsWith((h + d)[j..], "link") {
      assert (h + d)[j..][0] == h[j];
      if h[j] == 'l' {
        assert j == 7 && (h + d)[j..][1] == ':';
      }
    }
    KeepHead(h, d, "link", "L");
  }

  lemma PartLead(c: PartCat, d: string)
    requires NumTail(d)
    ensures ReplaceAll("part:" + CatStr(c) + ":" + d, "part", "P") == "P:" + CatStr(c) + ":" + d
  {
    var t := ":" + CatStr(c) + ":";
    assert "part:" + CatStr(c) + ":" + d == "part" + (t + d);
    assert ReplaceAll("part" + (t + d), "part", "P") == "P" + ReplaceAll(t + d, "part", "P") by {
      ReplaceAllPrefix("part", t + d, "P");
    }
    assert ReplaceAll(t + d, "part", "P") == t + d by {
      NoPartAfterLead(c, d);
    }
    assert "P" + (t + d) == "P:" + CatStr(c) + ":" + d;
  }

  lemma NoPartAfterLead(c: PartCat, d: string)
    requires NumTail(d)
    ensures var t := ":" + CatStr(c) + ":"; ReplaceAll(t + d, "part", "P") == t + d
  {
    var t := ":" + CatStr(c) + ":";
    forall j | 0 <= j < |t| ensures !StartsWith((t + d)[j..], "part") {
      assert (t + d)[j..][0] == t[j];
      if t[j] == 'p' {
        assert j == 3 && (t + d)[j..][1] == ':';
      }
    }
    KeepHead(t, d, "part", "P");
  }

  /** A head without `e` loses no category. */
  lemma DropCategoryNone(h: string, d: string)
    requires NumTail(d) && 'e' !in h
    ensures DropCategory(h + d) == h + d
  {
    AbsentFrom(h, d, "eql", "");
    AbsentFrom(h, d, "eqe", "");
    AbsentFrom(h, d, "eqp", "");
  }

  /** Each category-removal step deletes the category it names and keeps the others. */
  lemma RemoveCat(c: PartCat, t: string, pat: string)
    requires NumTail(t)
    requires pat == "eql" || pat == "eqe" || pat == "eqp"
    ensures ReplaceAll("P:" + CatStr(c) + ":" + t, pat, "")
         == if CatStr(c) == pat then "P::" + t else "P:" + CatStr(c) + ":" + t
  {
    var x := CatStr(c);
    if x != pat {
      KeepOtherCat(x, t, pat);
    }
    RemoveCatIn("P:", x, t, pat);
    assert "P:" + (":" + t) == "P::" + t;
  }

  /** Behind a head without `e`, removing a category either deletes the
      category (when it is the one named) or keeps everything. */
  lemma RemoveCatIn(h: string, x: string, t: string, pat: string)
    requires NumTail(t) && pat != [] && pat[0] == 'e' && 'e' !in h && x != [] && x[0] == 'e'
    requires x != pat ==> ReplaceAll(x + (":" + t), pat, "") == x + (":" + t)
    ensures ReplaceAll(h + x + ":" + t, pat, "") == if x == pat then h + (":" + t) else h + x + ":" + t
  {
    assert h + x + ":" + t == h + (x + (":" + t));
    ReplaceAllHeadAbsent(h, x + (":" + t), pat, "");
    if x == pat {
      RemoveOwnCat(x, t);
    } else {
      assert h + (x + (":" + t)) == h + x + ":" + t;
    }
  }

  lemma RemoveOwnCat(x: string, t: string)
    requires NumTail(t) && x != [] && x[0] == 'e'
    ensures ReplaceAll(x + (":" + t), x, "") == ":" + t
  {
    assert NumTail(":" + t);
    ReplaceAllPrefix(x, ":" + t, "");
    DigitsUntouched(":" + t, x, "");
    assert "" + (":" + t) == ":" + t;
  }

  lemma KeepOtherCat(x: string, t: string, pat: string)
    requires NumTail(t)
    requires x == "eql" || x == "eqe" || x == "eqp"
    requires pat == "eql" || pat == "eqe" || pat == "eqp"
    requires x != pat
    ensures ReplaceAll(x + (":" + t), pat, "") == x + (":" + t)
  {
    var u := ":" + t;
    assert NumTail(u);
    forall j | 0 <= j < |x| ensures !StartsWith((x + u)[j..], pat) {
      assert (x + u)[j..][0] == x[j];
      if j == 0 { assert (x + u)[..3] == x; }
    }
    KeepHead(x, u, pat, "");
  }

  lemma DropCategoryPart(c: PartCat, d: string)
    requires NumTail(d)
    ensures DropCategory("P:" + CatStr(c) + ":" + d) == "P::" + d
  {
    RemoveCat(c, d, "eql");
    RemoveCat(c, d, "eqe");
    RemoveCat(c, d, "eqp");
    match c
    case Eql => DropCategoryTail(d, "eqe"); DropCategoryTail(d, "eqp");
    case Eqe => DropCategoryTail(d, "eqp");
    case Eqp =>
  }

  lemma DropCategoryTail(d: string, pat: string)
    requires NumTail(d) && pat != [] && pat[0] == 'e'
    ensures ReplaceAll("P::" + d, pat, "") == "P::" + d
  {
    AbsentFrom("P::", d, pat, "");
  }

  /** The colons after a one-letter head vanish, and the digits stay. */
  lemma DropColonsOne(l: char, d: string)
    requires AllDigits(d) && l != ':' && l != 'L'
    ensures DropColons([l] + ":" + d) == [l] + d
  {
    assert [l] + ":" + d == [l] + (":" + d);
    var u := ReplaceAll([l] + (":" + d), ":", "");
    assert u == [l] + d by {
      ReplaceAllCons(l, ":" + d, ":", "");
      ColonsGone(d);
    }
    assert ReplaceAll(u, "LP", "L") == u by {
      assert 'L' !in u;
      ReplaceAllAbsent(u, "LP", "L");
    }
  }

  /** A colon followed by digits loses the colon. */
  lemma ColonsGone(d: string)
    requires AllDigits(d)
    ensures ReplaceAll(":" + d, ":", "") == d
  {
    ReplaceAllPrefix(":", d, "");
    assert ':' !in d;
    ReplaceAllAbsent(d, ":", "");
    assert "" + d == d;
  }

  lemma DropColonsTwo(d: string)
    requires AllDigits(d)
    ensures DropColons("P::" + d) == "P" + d
  {
    assert "P::" + d == ['P'] + (":" + (":" + d));
    var u := ReplaceAll(['P'] + (":" + (":" + d)), ":", "");
    assert u == ['P'] + ReplaceAll(":" + (":" + d), ":", "") by {
      ReplaceAllCons('P', ":" + (":" + d), ":", "");
    }
    assert ReplaceAll(":" + (":" + d), ":", "") == d by {
      ReplaceAllPrefix(":", ":" + d, "");
      ColonsGone(d);
      assert "" + d == d;
    }
    assert ReplaceAll(u, "LP", "L") == u by {
      assert 'L' !in u;
      ReplaceAllAbsent(u, "LP", "L");
    }
  }

  lemma DigitsAreTail(d: string)
    requires AllDigits(d)
    ensures NumTail(d)
  {
  }

  /** The label drawn beside a wire: `W<n>`. */
  lemma FilterNameOfWire(i: nat)
    ensures FilterName(IdStr(WireId(i))) == "W" + NatStr(i)
  {
    var d := NatStr(i);
    assert IdStr(WireId(i)) == "wire:" + d;
    DigitsAreTail(d);
    AbbreviateWire(d);
    DropCategoryNone("W:", d);
    DropColonsOne('W', d);
    assert ['W'] + ":" + d == "W:" + d;
    assert ['W'] + d == "W" + d;
  }

  /** The label drawn beside a box: `B<n>`. */
  lemma FilterNameOfBox(i: nat)
    ensures FilterName(IdStr(BoxId(i))) == "B" + NatStr(i)
  {
    var d := NatStr(i);
    assert IdStr(BoxId(i)) == "box:" + d;
    DigitsAreTail(d);
    AbbreviateBox(d);
    DropCategoryNone("B:", d);
    DropColonsOne('B', d);
    assert ['B'] + ":" + d == "B:" + d;
    assert ['B'] + d == "B" + d;
  }

  /** The label drawn beside a part: `P<n>`, whatever its category. */
  lemma FilterNameOfPart(c: PartCat, i: nat)
    ensures FilterName(IdStr(PartId(c, i))) == "P" + NatStr(i)
  {
    var d := NatStr(i);
    assert IdStr(PartId(c, i)) == "part:" + CatStr(c) + ":" + d;
    DigitsAreTail(d);
    AbbreviatePart(c, d);
    DropCategoryPart(c, d);
    DropColonsTwo(d);
  }
}
