/**
 * The classification helpers of the drawing viewer: the colour of an entity,
 * the red/cyan wire-colour test, the category key, the Chinese-text test,
 * the display name and the unique key of a top-level entity.
 */
module Helper {
  import opened Wrappers
  import opened Js
  import opened Strs

  /** The largest 24-bit RGB colour, white. */
  const White: int := 0xFFFFFF

  /** `getColor(entity, tables)`: `entityColor` is `entity.color` when it is
      a number, `layerColor` the colour of the entity's layer when that layer
      exists and its colour is a number. */
  function GetColor(entityColor: Option<int>, layerColor: Option<int>): (r: int)
    ensures 0 < r <= White
    ensures entityColor.Some? && entityColor.value > 0 ==> r == Min(entityColor.value, White)
    ensures !(entityColor.Some? && entityColor.value > 0) && layerColor.Some? && layerColor.value > 0 ==> r == Min(layerColor.value, White)
    ensures !(entityColor.Some? && entityColor.value > 0) && !(layerColor.Some? && layerColor.value > 0) ==> r == White
  {
    if entityColor.Some? && entityColor.value > 0 then
      if entityColor.value > White then White else entityColor.value
    else if layerColor.Some? && layerColor.value > 0 then
      if layerColor.value > White then White else layerColor.value
    else White
  }

  function Min(a: int, b: int): int {
    if a < b then a else b
  }

  /** `decimalToHexColor(c)`: hexadecimal, padded to six digits, upper case. */
  function DecimalToHexColor(c: int): string {
    ToUpper(PadStart(IntHex(c), 6, '0'))
  }

  /** `isRedColorByHex(c)` */
  predicate IsRedColorByHex(c: int) {
    var h := DecimalToHexColor(c);
    h == "FF0000" || h == "00FFFF"
  }

  lemma HexOfRed()
    ensures DecimalToHexColor(0xFF0000) == "FF0000"
  {
    assert HexStr(0xFF) == "ff" by { HexStrSnoc(0xF, 15); }
    HexStrSnoc(0xFF, 0);
    HexStrSnoc(0xFF0, 0);
    HexStrSnoc(0xFF00, 0);
    HexStrSnoc(0xFF000, 0);
    assert HexStr(0xFF0000) == "ff0000";
  }

  lemma HexOfCyan()
    ensures DecimalToHexColor(0x00FFFF) == "00FFFF"
  {
    assert HexStr(0xFF) == "ff" by { HexStrSnoc(0xF, 15); }
    HexStrSnoc(0xFF, 15);
    HexStrSnoc(0xFFF, 15);
    assert HexStr(0xFFFF) == "ffff";
    assert PadStart("ffff", 6, '0') == "00ffff";
  }

  /** Appending hex digit `d` to a positive number appends its character. */
  lemma HexStrSnoc(n: nat, d: nat)
    requires 0 < n && d < 16
    ensures HexStr(16 * n + d) == HexStr(n) + [HexDigitChar(d)]
  {
    assert (16 * n + d) / 16 == n && (16 * n + d) % 16 == d;
  }

  /** A negative colour prints with a minus sign, which survives padding and
      upper-casing. */
  lemma NegativeHasMinus(c: int)
    requires c < 0
    ensures '-' in DecimalToHexColor(c)
  {
    var s := IntHex(c);
    var p := PadStart(s, 6, '0');
    assert s[0] == '-';
    assert p[|p| - |s|] == '-';
    assert ToUpper(p)[|p| - |s|] == '-';
  }

  lemma NegativeNotRed(c: int)
    requires c < 0
    ensures !IsRedColorByHex(c)
  {
    NegativeHasMinus(c);
    NoMinusInWireHex();
  }

  lemma NoMinusInWireHex()
    ensures '-' !in "FF0000" && '-' !in "00FFFF"
  {
  }

  /** Reading the colour back from its printed form. */
  lemma HexColorValue(c: nat)
    ensures HexDigitsValue(DecimalToHexColor(c)) == c
  {
    HexDigitsValueUpperPadded(HexStr(c), 6);
    HexDigitsValueHexStr(c);
  }

  lemma WireColorsAreRed()
    ensures IsRedColorByHex(0xFF0000) && IsRedColorByHex(0x00FFFF)
  {
    HexOfRed();
    HexOfCyan();
  }

  lemma OnlyWireColorsAreRed(c: nat)
    requires IsRedColorByHex(c)
    ensures c == 0xFF0000 || c == 0x00FFFF
  {
    HexColorValue(c);
    HexColorValue(0xFF0000);
    HexColorValue(0x00FFFF);
    HexOfRed();
    HexOfCyan();
  }

  /** The colour is reported as wire-coloured exactly for pure red 0xFF0000
      and for 0x00FFFF (which the code names blue; it is cyan). */
  lemma IsRedColorByHexSpec(c: int)
    ensures IsRedColorByHex(c) <==> c == 0xFF0000 || c == 0x00FFFF
  {
    WireColorsAreRed();
    if c < 0 {
      NegativeNotRed(c);
    } else if IsRedColorByHex(c) {
      OnlyWireColorsAreRed(c);
    }
  }

  /** `"#" + color.toString(16).padStart(6, "0")` */
  function ColorHex(c: int): string {
    "#" + PadStart(IntHex(c), 6, '0')
  }

  /** `getCategoryUniqueKey(userData, name, color)` */
  function CategoryUniqueKey(typ: string, name: string, color: int): string {
    if typ == "LWPOLYLINE" || typ == "LINE" then typ + ":" + name + ":" + ColorHex(color)
    else typ + ":" + name
  }

  /** Different non-negative colours print differently. */
  lemma ColorHexInjective(c1: nat, c2: nat)
    requires ColorHex(c1) == ColorHex(c2)
    ensures c1 == c2
  {
    var h1, h2 := PadStart(HexStr(c1), 6, '0'), PadStart(HexStr(c2), 6, '0');
    assert h1 == ColorHex(c1)[1..] && h2 == ColorHex(c2)[1..];
    PaddedValue(HexStr(c1));
    PaddedValue(HexStr(c2));
    HexDigitsValueHexStr(c1);
    HexDigitsValueHexStr(c2);
  }

  lemma SuffixEqual(pre: string, a: string, b: string)
    requires pre + a == pre + b
    ensures a == b
  {
    assert a == (pre + a)[|pre|..];
    assert b == (pre + b)[|pre|..];
  }

  /** Line entities of one name but different colours fall into different
      categories; other entities of one name share a category whatever
      their colours. */
  lemma CategoryUniqueKeyColor(typ: string, name: string, c1: nat, c2: nat)
    ensures (typ == "LWPOLYLINE" || typ == "LINE") ==>
              (CategoryUniqueKey(typ, name, c1) == CategoryUniqueKey(typ, name, c2) <==> c1 == c2)
    ensures !(typ == "LWPOLYLINE" || typ == "LINE") ==> CategoryUniqueKey(typ, name, c1) == CategoryUniqueKey(typ, name, c2)
  {
    var line := typ == "LWPOLYLINE" || typ == "LINE";
    if line && CategoryUniqueKey(typ, name, c1) == CategoryUniqueKey(typ, name, c2) {
      SuffixEqual(typ + ":" + name + ":", ColorHex(c1), ColorHex(c2));
      ColorHexInjective(c1, c2);
    }
  }

  /** Padding with zeros does not change the value of a hex string. */
  lemma PaddedValue(s: string)
    ensures HexDigitsValue(PadStart(s, 6, '0')) == HexDigitsValue(s)
  {
    var p := PadStart(s, 6, '0');
    ZerosPrefixValue(|p| - |s|, s);
    assert p == seq(|p| - |s|, _ => '0') + s;
  }

  /** The CJK unified ideographs U+4E00..U+9FA5 the Chinese-text test looks for. */
  predicate IsHan(c: char) {
    '\U{4E00}' <= c <= '\U{9FA5}'
  }

  /** `isContainChinese(str)`: false for a missing or empty string,
      otherwise whether some character is a CJK ideograph. */
  function IsContainChinese(str: OptStr): (r: bool)
    ensures r <==> str.Str? && exists i :: 0 <= i < |str.s| && IsHan(str.s[i])
  {
    if !str.Truthy() then false else HasHan(str.s)
  }

  function HasHan(s: string): (r: bool)
    ensures r <==> exists i :: 0 <= i < |s| && IsHan(s[i])
  {
    if s == [] then false
    else if IsHan(s[0]) then true
    else
      assert forall i :: 1 <= i < |s| ==> s[i] == s[1..][i - 1];
      HasHan(s[1..])
  }

  // ---------------------------------------------------------------------
  // Display name
  // ---------------------------------------------------------------------

  /** An attribute of an INSERT, as far as the display name reads it. */
  datatype Attrib = Attrib(tag: OptStr, text: OptStr)

  /** An entity of a block definition, as far as the display name reads it. */
  datatype BlockEnt = BlockEnt(typ: string, text: OptStr)

  /** The `userData` of a top-level drawn entity. `attributes` is `None`
      when the field is not an array. */
  datatype UserData = UserData(typ: OptStr, layer: OptStr, id: string, name: OptStr, attributes: Option<seq<Attrib>>)

  /** `attributes.find((a) => a.text)`: the first attribute with a
      non-empty text. */
  function FirstText(attrs: seq<Attrib>): (r: Option<nat>)
    ensures r.Some? ==> r.value < |attrs| && attrs[r.value].text.Truthy()
                        && forall k :: 0 <= k < r.value ==> !attrs[k].text.Truthy()
    ensures r.None? ==> forall k :: 0 <= k < |attrs| ==> !attrs[k].text.Truthy()
  {
    if attrs == [] then None
    else if attrs[0].text.Truthy() then Some(0)
    else
      match FirstText(attrs[1..])
      case None => None
      case Some(k) => Some(k + 1)
  }

  predicate IsAttdefWithText(e: BlockEnt) {
    e.typ == "ATTDEF" && e.text.Truthy() && Trim(e.text.s) != ""
  }

  /** `entities.find((e) => e.type === "ATTDEF" && e.text && e.text.trim())` */
  function FirstAttdef(ents: seq<BlockEnt>): (r: Option<nat>)
    ensures r.Some? ==> r.value < |ents| && IsAttdefWithText(ents[r.value])
                        && forall k :: 0 <= k < r.value ==> !IsAttdefWithText(ents[k])
    ensures r.None? ==> forall k :: 0 <= k < |ents| ==> !IsAttdefWithText(ents[k])
  {
    if ents == [] then None
    else if IsAttdefWithText(ents[0]) then Some(0)
    else
      match FirstAttdef(ents[1..])
      case None => None
      case Some(k) => Some(k + 1)
  }

  /** `s.indexOf(c)` for a character that occurs. */
  function IndexOf(s: string, c: char): (i: nat)
    requires c in s
    ensures i < |s| && s[i] == c && c !in s[..i]
  {
    if s[0] == c then 0
    else
      assert c in s[1..];
      var j := IndexOf(s[1..], c);
      assert s[..j + 1] == [s[0]] + s[1..][..j];
      j + 1
  }

  /** `name.replace(/\$/, " ")`: the first dollar sign becomes a space. */
  function ReplaceFirstDollar(s: string): (r: string)
    ensures |r| == |s|
  {
    if '$' in s then
      var i := IndexOf(s, '$');
      s[..i] + " " + s[i + 1..]
    else s
  }

  /** `.replace(/_/g, " ")`: every underscore becomes a space. */
  function UnderscoresToSpaces(s: string): (r: string)
    ensures |r| == |s| && '_' !in r
    ensures forall i :: 0 <= i < |s| ==> r[i] == if s[i] == '_' then ' ' else s[i]
  {
    seq(|s|, i requires 0 <= i < |s| => if s[i] == '_' then ' ' else s[i])
  }

  /** The block name cleaned for display: a leading `$` dropped, the next
      `$` turned into a space, underscores turned into spaces, trimmed. */
  function CleanName(name: string): string {
    var a := if name != [] && name[0] == '$' then name[1..] else name;
    Trim(UnderscoresToSpaces(ReplaceFirstDollar(a)))
  }

  /** A trimmed string has no underscore when the string it came from had none. */
  lemma CleanNameSpec(name: string)
    ensures '_' !in CleanName(name)
    ensures Trim(CleanName(name)) == CleanName(name)
  {
    var a := if name != [] && name[0] == '$' then name[1..] else name;
    var u := UnderscoresToSpaces(ReplaceFirstDollar(a));
    TrimSpec(u);
    TrimIdempotent(u);
    var r := Trim(u);
    var k := |u| - |TrimStart(u)|;
    SliceKeepsOut(u, k, k + |r|, '_');
  }

  lemma SliceKeepsOut(u: string, a: nat, b: nat, c: char)
    requires a <= b <= |u| && c !in u
    ensures c !in u[a..b]
  {
  }

  /** The default name "实体" ("entity"). */
  const EntityWord: string := "\U{5B9E}\U{4F53}"

  /** Step 1 of `getEntityDisplayName`: the trimmed text of the first
      attribute that has a text, or "" when there is none. */
  function AttrText(ud: UserData): (r: string)
    ensures r != "" ==> ud.attributes.Some?
    ensures r != "" ==>
      exists k :: 0 <= k < |ud.attributes.value| && ud.attributes.value[k].text.Truthy()
        && r == Trim(ud.attributes.value[k].text.s)
        && forall j :: 0 <= j < k ==> !ud.attributes.value[j].text.Truthy()
  {
    if ud.attributes.Some? then
      match FirstText(ud.attributes.value)
      case None => ""
      case Some(k) => Trim(ud.attributes.value[k].text.s)
    else ""
  }

  /** Step 2: for an INSERT whose block is known, the trimmed text of the
      block's first ATTDEF with a non-blank text. */
  function AttdefText(ud: UserData, blocks: map<string, seq<BlockEnt>>): (r: Option<string>)
    ensures r.Some? <==> ud.typ == Str("INSERT") && ud.name.Truthy() && ud.name.s in blocks
                         && exists k :: 0 <= k < |blocks[ud.name.s]| && IsAttdefWithText(blocks[ud.name.s][k])
    ensures r.Some? ==> exists k :: 0 <= k < |blocks[ud.name.s]| && IsAttdefWithText(blocks[ud.name.s][k])
                                    && r.value == Trim(blocks[ud.name.s][k].text.s)
                                    && forall j :: 0 <= j < k ==> !IsAttdefWithText(blocks[ud.name.s][j])
  {
    if ud.typ == Str("INSERT") && ud.name.Truthy() && ud.name.s in blocks then
      match FirstAttdef(blocks[ud.name.s])
      case None => None
      case Some(k) => Some(Trim(blocks[ud.name.s][k].text.s))
    else None
  }

  /** `getEntityDisplayName(userData, blocks)`; `blocks` maps a block name
      to the entities of that block. */
  function DisplayName(ud: UserData, blocks: map<string, seq<BlockEnt>>): string {
    var t := AttrText(ud);
    if t != "" then t
    else if AttdefText(ud, blocks).Some? then AttdefText(ud, blocks).value
    else if ud.name.Truthy() then CleanName(ud.name.s)
    else if ud.typ.Truthy() then ud.typ.s
    else EntityWord
  }

  lemma AttrTextTrimmed(ud: UserData)
    ensures Trim(AttrText(ud)) == AttrText(ud)
  {
    if ud.attributes.Some? && FirstText(ud.attributes.value).Some? {
      TrimIdempotent(ud.attributes.value[FirstText(ud.attributes.value).value].text.s);
    }
  }

  lemma AttdefTextTrimmed(ud: UserData, blocks: map<string, seq<BlockEnt>>)
    requires AttdefText(ud, blocks).Some?
    ensures Trim(AttdefText(ud, blocks).value) == AttdefText(ud, blocks).value
  {
    TrimIdempotent(blocks[ud.name.s][FirstAttdef(blocks[ud.name.s]).value].text.s);
  }

  /** The display name comes from the first attribute with a text, when
      that text is not blank; else from the first non-blank ATTDEF of an
      INSERT's block; else from the cleaned block name (with no underscore
      left); else it is the entity type, or "实体" without one. The first
      three are trimmed. */
  lemma DisplayNameSpec(ud: UserData, blocks: map<string, seq<BlockEnt>>)
    ensures var r, t, a := DisplayName(ud, blocks), AttrText(ud), AttdefText(ud, blocks);
      && (t != "" ==> r == t)
      && (t == "" && a.Some? ==> r == a.value)
      && (t == "" && a.None? && ud.name.Truthy() ==> r == CleanName(ud.name.s) && '_' !in r)
      && (t == "" && a.None? && !ud.name.Truthy() ==> r == (if ud.typ.Truthy() then ud.typ.s else EntityWord))
      && (t != "" || a.Some? || ud.name.Truthy() ==> Trim(r) == r)
  {
    AttrTextTrimmed(ud);
    if AttdefText(ud, blocks).Some? {
      AttdefTextTrimmed(ud, blocks);
    }
    if ud.name.Truthy() {
      CleanNameSpec(ud.name.s);
    }
  }

  /** `getEntityUniqueKey(userData)`: `type:layer:id`, with "default" for a
      missing or empty layer. `typ` is the type as the template prints it. */
  function EntityUniqueKey(typ: string, layer: OptStr, id: string): string {
    typ + ":" + (if layer.Truthy() then layer.s else "default") + ":" + id
  }

  lemma KeyShape(t: string, l: string, id: string)
    ensures t + ":" + l + ":" + id == t + [':'] + (l + [':'] + id)
  {
  }

  /** Splitting a key at its colons gives the type, the printed layer and
      then the pieces of the id. */
  lemma SplitEntityKey(t: string, l: string, id: string)
    requires ':' !in t && ':' !in l
    ensures Split(t + ":" + l + ":" + id, ':') == [t, l] + Split(id, ':')
  {
    KeyShape(t, l, id);
    SplitAt(t, ':', l + [':'] + id);
    SplitAt(l, ':', id);
  }

  /** Two entities whose types and layers hold no colon get the same key
      exactly when type, printed layer and id are all the same. */
  lemma EntityUniqueKeyInjective(t1: string, l1: OptStr, i1: string, t2: string, l2: OptStr, i2: string)
    requires ':' !in t1 && ':' !in t2 && ':' !in l1.OrEmpty() && ':' !in l2.OrEmpty()
    ensures EntityUniqueKey(t1, l1, i1) == EntityUniqueKey(t2, l2, i2) <==>
            t1 == t2 && i1 == i2 && (if l1.Truthy() then l1.s else "default") == (if l2.Truthy() then l2.s else "default")
  {
    var la := if l1.Truthy() then l1.s else "default";
    var lb := if l2.Truthy() then l2.s else "default";
    if EntityUniqueKey(t1, l1, i1) == EntityUniqueKey(t2, l2, i2) {
      assert ':' !in "default";
      SplitEntityKey(t1, la, i1);
      SplitEntityKey(t2, lb, i2);
      var k := EntityUniqueKey(t1, l1, i1);
      assert Split(k, ':')[0] == t1 && Split(k, ':')[0] == t2;
      assert Split(k, ':')[1] == la && Split(k, ':')[1] == lb;
      SuffixEqual(t1 + ":" + la + ":", i1, i2);
    }
  }
}
