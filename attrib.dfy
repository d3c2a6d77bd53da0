/**
 * The scanner that reads the ATTRIBs of every INSERT straight from the raw
 * DXF text (`parseInsertAttribMapFromRaw`). The selectInsert viewer and the
 * insert viewer carry the same function; the insert viewer's copy also keeps
 * a flag `curInInsert` that nothing reads.
 *
 * The text is a list of lines read as (group code, value) pairs. A group
 * starts at a pair with code "0" and runs up to the next code "0".
 */
module Attrib {
  import opened Wrappers
  import opened Js
  import opened Strs
  import opened Geometry

  /** One ATTRIB as the scanner records it: `tag`, `text`, and `position`,
      `textHeight`, `rotation`, each `null` unless finite. */
  datatype AttribRec = AttribRec(
    tag: OptStr,
    text: OptStr,
    position: Option<Point>,
    textHeight: Option<real>,
    rotation: Option<real>)

  /** INSERT handle to its ATTRIBs in the order of the file. */
  type AttribMap = map<string, seq<AttribRec>>

  /** JavaScript's `Number(v)` on a trimmed value, supplied by the caller. */
  type ToNumber = string -> Num

  /** The lines of the text: "\r\n" and then "\r" become "\n", then the text
      is split at "\n". */
  function Lines(text: string): seq<string> {
    Split(ReplaceAll(ReplaceAll(text, "\r\n", "\n"), "\r", "\n"), '\n')
  }

  /** Every line trimmed: the scanner only ever reads `lines[k].trim()`. */
  function TrimAll(lines: seq<string>): (r: seq<string>)
    ensures |r| == |lines|
    decreases |lines|
  {
    if lines == [] then [] else TrimAll(lines[..|lines| - 1]) + [Trim(lines[|lines| - 1])]
  }

  /** Line `k` of the trimmed lines is line `k` trimmed. */
  lemma {:induction false} TrimAllAt(lines: seq<string>, k: nat)
    requires k < |lines|
    ensures TrimAll(lines)[k] == Trim(lines[k])
    decreases |lines|
  {
    if k < |lines| - 1 {
      TrimAllAt(lines[..|lines| - 1], k);
    }
  }

  // ---------------------------------------------------------------------
  // The pairs of one group
  // ---------------------------------------------------------------------

  /** The number of pairs read ahead from line `j`: they stop at a code "0"
      or when no full pair is left. */
  function Span(lines: seq<string>, j: nat): (n: nat)
    ensures n > 0 ==> j + 2 * n <= |lines|
    decreases |lines| - j
  {
    if j + 1 >= |lines| || lines[j] == "0" then 0 else 1 + Span(lines, j + 2)
  }

  /** The code of the `t`-th pair read ahead from line `j`. */
  function PairCode(lines: seq<string>, j: nat, t: nat): string
    requires j + 2 * t + 1 < |lines|
  {
    lines[j + 2 * t]
  }

  /** The value of the `t`-th pair read ahead from line `j`. */
  function PairValue(lines: seq<string>, j: nat, t: nat): string
    requires j + 2 * t + 1 < |lines|
  {
    lines[j + 2 * t + 1]
  }

  /** The group codes the read-ahead loops look at. */
  datatype Code = Handle | Tag | Text | XCoord | YCoord | Height | Rotation | OtherCode

  /** Code 5 is an entity's handle; in an ATTRIB, 2 is the tag, 1 the text,
      10 and 20 the insertion point, 40 the text height and 50 the rotation. */
  function CodeOf(c: string): Code {
    if c == "5" then Handle
    else if c == "2" then Tag
    else if c == "1" then Text
    else if c == "10" then XCoord
    else if c == "20" then YCoord
    else if c == "40" then Height
    else if c == "50" then Rotation
    else OtherCode
  }

  /** The read-ahead loop for one field: every pair with code `code` sets the
      variable to `f(value)`, starting from `acc`. */
  function Last<T>(lines: seq<string>, j: nat, code: Code, f: string -> T, acc: T): T
    decreases |lines| - j
  {
    if j + 1 >= |lines| || lines[j] == "0" then acc
    else Last(lines, j + 2, code, f, if CodeOf(lines[j]) == code then f(lines[j + 1]) else acc)
  }

  /** The read-ahead loop leaves a field at its initial value when no pair of
      the group has the code. */
  lemma {:induction false} LastNone<T>(lines: seq<string>, j: nat, code: Code, f: string -> T, acc: T)
    requires forall t :: 0 <= t < Span(lines, j) ==> CodeOf(PairCode(lines, j, t)) != code
    ensures Last(lines, j, code, f, acc) == acc
    decreases |lines| - j
  {
    if j + 1 < |lines| && lines[j] != "0" {
      assert PairCode(lines, j, 0) == lines[j];
      var j2 := j + 2;
      forall t | 0 <= t < Span(lines, j2)
        ensures CodeOf(PairCode(lines, j2, t)) != code
      {
        assert PairCode(lines, j2, t) == PairCode(lines, j, t + 1);
      }
      LastNone(lines, j2, code, f, acc);
    }
  }

  /** Otherwise the read-ahead loop sets the field from the last pair of the
      group that has the code. */
  lemma {:induction false} LastAt<T>(lines: seq<string>, j: nat, code: Code, f: string -> T, acc: T, t: nat)
    requires t < Span(lines, j) && CodeOf(PairCode(lines, j, t)) == code
    requires forall u :: t < u < Span(lines, j) ==> CodeOf(PairCode(lines, j, u)) != code
    ensures Last(lines, j, code, f, acc) == f(PairValue(lines, j, t))
    decreases |lines| - j
  {
    var j2 := j + 2;
    var acc' := if CodeOf(lines[j]) == code then f(lines[j + 1]) else acc;
    forall u | 0 <= u < Span(lines, j2) && t <= u
      ensures CodeOf(PairCode(lines, j2, u)) != code
    {
      assert PairCode(lines, j2, u) == PairCode(lines, j, u + 1);
    }
    if t == 0 {
      LastNone(lines, j2, code, f, acc');
    } else {
      assert PairCode(lines, j2, t - 1) == PairCode(lines, j, t);
      assert PairValue(lines, j2, t - 1) == PairValue(lines, j, t);
      LastAt(lines, j2, code, f, acc', t - 1);
    }
  }

  /** `Number(v)` of the last pair with the code, `null` (not finite) when
      there is none. */
  function NumField(lines: seq<string>, j: nat, code: Code, num: ToNumber): Num {
    Last(lines, j, code, num, NonFin)
  }

  /** A string value stored as is. */
  function StrOf(v: string): OptStr { Str(v) }

  /** A string field: the last pair's value, `null` when there is none. */
  function StrField(lines: seq<string>, j: nat, code: Code): OptStr {
    Last(lines, j, code, StrOf, NoStr)
  }

  /** The ATTRIB whose own pairs start at line `j`: tag from code 2, text
      from 1, x and y from 10 and 20, height from 40, rotation from 50; a
      position only when both coordinates are finite. */
  function AttribAt(lines: seq<string>, j: nat, num: ToNumber): (r: AttribRec)
    ensures r.position.Some? <==> NumField(lines, j, XCoord, num).Fin? && NumField(lines, j, YCoord, num).Fin?
    ensures r.textHeight.Some? <==> NumField(lines, j, Height, num).Fin?
    ensures r.rotation.Some? <==> NumField(lines, j, Rotation, num).Fin?
  {
    var x := NumField(lines, j, XCoord, num);
    var y := NumField(lines, j, YCoord, num);
    var h := NumField(lines, j, Height, num);
    var rot := NumField(lines, j, Rotation, num);
    AttribRec(
      StrField(lines, j, Tag),
      StrField(lines, j, Text),
      if x.Fin? && y.Fin? then Some(Point(x.r, y.r)) else None,
      if h.Fin? then Some(h.r) else None,
      if rot.Fin? then Some(rot.r) else None)
  }

  // ---------------------------------------------------------------------
  // The main loop
  // ---------------------------------------------------------------------

  /** The loop state: the line index, the current INSERT handle and the map. */
  datatype State = State(i: nat, cur: OptStr, m: AttribMap)

  /** An ATTRIB is only ever appended to a handle that has a list. */
  predicate Consistent(s: State) {
    s.cur.Truthy() ==> s.cur.s in s.m
  }

  /** What the pair read by the main loop announces. */
  datatype Marker = InsertStart | AttribStart | SectionEnd | Ignored

  /** Code "0" with INSERT, ATTRIB, or SEQEND / ENDSEC; anything else is ignored. */
  function MarkerOf(code: string, val: string): Marker {
    if code != "0" then Ignored
    else if val == "INSERT" then InsertStart
    else if val == "ATTRIB" then AttribStart
    else if val == "SEQEND" || val == "ENDSEC" then SectionEnd
    else Ignored
  }

  /** One turn of the main loop, reading the pair at line `i`. */
  function Step(lines: seq<string>, s: State, num: ToNumber): (r: State)
    requires s.i + 1 < |lines| && Consistent(s)
    ensures r.i == s.i + 2 && Consistent(r)
  {
    var next := s.i + 2;
    match MarkerOf(lines[s.i], lines[s.i + 1])
    case InsertStart =>
      var h := StrField(lines, next, Handle);
      State(next, h, if h.Truthy() && h.s !in s.m then s.m[h.s := []] else s.m)
    case AttribStart =>
      if s.cur.Truthy() then State(next, s.cur, s.m[s.cur.s := s.m[s.cur.s] + [AttribAt(lines, next, num)]])
      else s.(i := next)
    case SectionEnd => State(next, NoStr, s.m)
    case Ignored => s.(i := next)
  }

  /** The map once the loop has run from state `s` to the end of the lines. */
  function Scan(lines: seq<string>, s: State, num: ToNumber): AttribMap
    requires Consistent(s)
    decreases |lines| - s.i
  {
    if s.i + 1 >= |lines| then s.m else Scan(lines, Step(lines, s, num), num)
  }

  /** `parseInsertAttribMapFromRaw(dxfText)` */
  function ParseAttribMap(text: string, num: ToNumber): AttribMap {
    if text == "" then map[] else Scan(TrimAll(Lines(text)), State(0, NoStr, map[]), num)
  }

  // ---------------------------------------------------------------------
  // What one turn and the whole scan do
  // ---------------------------------------------------------------------

  /** An INSERT makes the last code-5 value of its own group the current
      handle and gives that handle an empty list unless it already has one;
      an ATTRIB appends its record to the current handle's list when there
      is a current handle and changes nothing otherwise; SEQEND and ENDSEC
      clear the current handle; any other pair changes nothing. No turn
      removes a handle or changes a list other than by appending. */
  lemma StepSpec(lines: seq<string>, s: State, num: ToNumber)
    requires s.i + 1 < |lines| && Consistent(s)
    ensures var r := Step(lines, s, num);
      var mk := MarkerOf(lines[s.i], lines[s.i + 1]);
      var h := StrField(lines, s.i + 2, Handle);
      && (mk == InsertStart ==>
            r.cur == h
            && r.m.Keys == s.m.Keys + (if h.Truthy() then {h.s} else {})
            && (forall k :: k in s.m ==> r.m[k] == s.m[k])
            && (h.Truthy() && h.s !in s.m ==> r.m[h.s] == []))
      && (mk == AttribStart ==>
            r.cur == s.cur && r.m.Keys == s.m.Keys
            && (forall k :: k in s.m ==>
                  r.m[k] == s.m[k] + (if s.cur.Truthy() && k == s.cur.s then [AttribAt(lines, s.i + 2, num)] else [])))
      && (mk == SectionEnd ==> r.cur == NoStr && r.m == s.m)
      && (mk == Ignored ==> r.cur == s.cur && r.m == s.m)
  {
  }

  /** Once a handle has a list, the rest of the scan keeps the handle and
      only appends to its list: a handle that recurs keeps what it had. */
  lemma {:induction false} ScanKeepsLists(lines: seq<string>, s: State, num: ToNumber)
    requires Consistent(s)
    ensures forall k :: k in s.m ==> k in Scan(lines, s, num) && s.m[k] <= Scan(lines, s, num)[k]
    decreases |lines| - s.i
  {
    if s.i + 1 < |lines| {
      var r := Step(lines, s, num);
      StepSpec(lines, s, num);
      ScanKeepsLists(lines, r, num);
    }
  }

  /** Every handle in the map is non-empty: a handle that is `null` or ""
      never gets a list. */
  lemma {:induction false} ScanKeysTruthy(lines: seq<string>, s: State, num: ToNumber)
    requires Consistent(s) && forall k :: k in s.m ==> k != ""
    ensures forall k :: k in Scan(lines, s, num) ==> k != ""
    decreases |lines| - s.i
  {
    if s.i + 1 < |lines| {
      StepSpec(lines, s, num);
      ScanKeysTruthy(lines, Step(lines, s, num), num);
    }
  }

  // ---------------------------------------------------------------------
  // The loops as written
  // ---------------------------------------------------------------------

  /** The read-ahead over an INSERT's own pairs for its handle (code 5). */
  method ScanHandle(lines: seq<string>, j0: nat) returns (h: OptStr)
    ensures h == StrField(TrimAll(lines), j0, Handle)
  {
    ghost var tl := TrimAll(lines);
    h := NoStr;
    var j := j0;
    while j + 1 < |lines| && Trim(lines[j]) != "0"
      invariant Last(tl, j, Handle, StrOf, h) == StrField(tl, j0, Handle)
      decreases |lines| - j
    {
      TrimAllAt(lines, j);
      TrimAllAt(lines, j + 1);
      var c := Trim(lines[j]);
      var v := Trim(lines[j + 1]);
      if CodeOf(c) == Handle {
        h := Str(v);
      }
      j := j + 2;
    }
    if j + 1 < |lines| {
      TrimAllAt(lines, j);
    }
  }

  /** The six variables of the read-ahead over an ATTRIB's own pairs. */
  datatype Fields = Fields(tag: OptStr, text: OptStr, x: Num, y: Num, h: Num, rot: Num)

  /** One turn of that read-ahead: the pair's code picks the variable it sets. */
  function SetField(fs: Fields, c: string, v: string, num: ToNumber): Fields {
    match CodeOf(c)
    case Tag => fs.(tag := Str(v))
    case Text => fs.(text := Str(v))
    case XCoord => fs.(x := num(v))
    case YCoord => fs.(y := num(v))
    case Height => fs.(h := num(v))
    case Rotation => fs.(rot := num(v))
    case _ => fs
  }

  /** The read-ahead over all six variables at once. */
  function ReadFields(lines: seq<string>, j: nat, fs: Fields, num: ToNumber): Fields
    decreases |lines| - j
  {
    if j + 1 >= |lines| || lines[j] == "0" then fs
    else ReadFields(lines, j + 2, SetField(fs, lines[j], lines[j + 1], num), num)
  }

  /** Reading the six variables together sets each of them as its own
      read-ahead would. */
  lemma {:induction false} ReadFieldsSeparately(lines: seq<string>, j: nat, fs: Fields, num: ToNumber)
    ensures ReadFields(lines, j, fs, num) == Fields(
      Last(lines, j, Tag, StrOf, fs.tag),
      Last(lines, j, Text, StrOf, fs.text),
      Last(lines, j, XCoord, num, fs.x),
      Last(lines, j, YCoord, num, fs.y),
      Last(lines, j, Height, num, fs.h),
      Last(lines, j, Rotation, num, fs.rot))
    decreases |lines| - j
  {
    if j + 1 < |lines| && lines[j] != "0" {
      ReadFieldsSeparately(lines, j + 2, SetField(fs, lines[j], lines[j + 1], num), num);
    }
  }

  /** The read-ahead over an ATTRIB's own pairs. */
  method ScanAttrib(lines: seq<string>, j0: nat, num: ToNumber) returns (a: AttribRec)
    ensures a == AttribAt(TrimAll(lines), j0, num)
  {
    ghost var tl := TrimAll(lines);
    var tag, text := NoStr, NoStr;
    var x, y, h, rot := NonFin, NonFin, NonFin, NonFin;
    var j := j0;
    while j + 1 < |lines| && Trim(lines[j]) != "0"
      invariant ReadFields(tl, j, Fields(tag, text, x, y, h, rot), num)
        == ReadFields(tl, j0, Fields(NoStr, NoStr, NonFin, NonFin, NonFin, NonFin), num)
      decreases |lines| - j
    {
      TrimAllAt(lines, j);
      TrimAllAt(lines, j + 1);
      var c := Trim(lines[j]);
      var v := Trim(lines[j + 1]);
      match CodeOf(c) {
        case Tag => tag := Str(v);
        case Text => text := Str(v);
        case XCoord => x := num(v);
        case YCoord => y := num(v);
        case Height => h := num(v);
        case Rotation => rot := num(v);
        case _ =>
      }
      j := j + 2;
    }
    if j + 1 < |lines| {
      TrimAllAt(lines, j);
    }
    ReadFieldsSeparately(tl, j0, Fields(NoStr, NoStr, NonFin, NonFin, NonFin, NonFin), num);
    assert tag == StrField(tl, j0, Tag) && text == StrField(tl, j0, Text);
    assert x == NumField(tl, j0, XCoord, num) && y == NumField(tl, j0, YCoord, num);
    assert h == NumField(tl, j0, Height, num) && rot == NumField(tl, j0, Rotation, num);
    a := AttribRec(
      tag, text,
      if x.Fin? && y.Fin? then Some(Point(x.r, y.r)) else None,
      if h.Fin? then Some(h.r) else None,
      if rot.Fin? then Some(rot.r) else None);
  }

  /** `Step` by the marker the pair announces. */
  lemma StepBy(lines: seq<string>, s: State, num: ToNumber, mk: Marker)
    requires s.i + 1 < |lines| && Consistent(s) && mk == MarkerOf(lines[s.i], lines[s.i + 1])
    ensures var next := s.i + 2;
      Step(lines, s, num) == match mk
        case InsertStart =>
          var h := StrField(lines, next, Handle);
          State(next, h, if h.Truthy() && h.s !in s.m then s.m[h.s := []] else s.m)
        case AttribStart =>
          if s.cur.Truthy() then State(next, s.cur, s.m[s.cur.s := s.m[s.cur.s] + [AttribAt(lines, next, num)]])
          else s.(i := next)
        case SectionEnd => State(next, NoStr, s.m)
        case Ignored => s.(i := next)
  {
  }

  /** The marker of the pair at line `i`, read from the trimmed lines. */
  method ReadMarker(lines: seq<string>, i: nat) returns (mk: Marker)
    requires i + 1 < |lines|
    ensures mk == MarkerOf(TrimAll(lines)[i], TrimAll(lines)[i + 1])
  {
    TrimAllAt(lines, i);
    TrimAllAt(lines, i + 1);
    mk := MarkerOf(Trim(lines[i]), Trim(lines[i + 1]));
  }

  /** One turn of the main loop: read the pair at line `i`, then act on
      the marker it announces. */
  method Turn(lines: seq<string>, i: nat, cur: OptStr, m: AttribMap, num: ToNumber)
    returns (i': nat, cur': OptStr, m': AttribMap)
    requires i + 1 < |lines| && Consistent(State(i, cur, m))
    ensures State(i', cur', m') == Step(TrimAll(lines), State(i, cur, m), num)
  {
    ghost var tl := TrimAll(lines);
    var mk := ReadMarker(lines, i);
    StepBy(tl, State(i, cur, m), num, mk);
    i', cur', m' := i + 2, cur, m;
    match mk {
      case InsertStart =>
        cur' := ScanHandle(lines, i');
        if cur'.Truthy() && cur'.s !in m {
          m' := m[cur'.s := []];
        }
        assert State(i', cur', m') == Step(tl, State(i, cur, m), num);
      case AttribStart =>
        if cur.Truthy() {
          var rec := ScanAttrib(lines, i', num);
          m' := m[cur.s := m[cur.s] + [rec]];
        }
        assert State(i', cur', m') == Step(tl, State(i, cur, m), num);
      case SectionEnd =>
        cur' := NoStr;
        assert State(i', cur', m') == Step(tl, State(i, cur, m), num);
      case Ignored =>
        assert State(i', cur', m') == Step(tl, State(i, cur, m), num);
    }
  }

  /** `parseInsertAttribMapFromRaw(dxfText)`: the main loop over the pairs. */
  method ParseInsertAttribMapFromRaw(text: string, num: ToNumber) returns (m: AttribMap)
    ensures m == ParseAttribMap(text, num)
    ensures forall k :: k in m ==> k != ""
  {
    m := map[];
    if text == "" {
      return;
    }
    var lines := Lines(text);
    ghost var tl := TrimAll(lines);
    var i := 0;
    var cur := NoStr;
    ScanKeysTruthy(tl, State(0, NoStr, map[]), num);
    while i + 1 < |lines|
      invariant Consistent(State(i, cur, m))
      invariant Scan(tl, State(i, cur, m), num) == ParseAttribMap(text, num)
      decreases |lines| - i
    {
      i, cur, m := Turn(lines, i, cur, m, num);
    }
  }
}
