/**
 * The generic-dialect specification parser: `## Object: Name` headings, each followed
 * (anywhere later in the document) by a `|Attribute|Description|Type|` table whose rows
 * become field definitions; plus the inline enum-value splitter and the records' reprs.
 */
module MdTables {
  import opened Wrappers
  import opened Strings
  import opened Scan

  /** One row of an attribute table. */
  datatype FieldDef = FieldDef(attribute: string, description: string, typeRaw: string, required: bool)

  /** One object section; `section` and `description` are filled only by the Adcom dialect. */
  datatype ObjectDef = ObjectDef(
    name: string,
    fields: seq<FieldDef>,
    section: Option<string>,
    description: Option<string>)

  // ---------------------------------------------------------------------------
  // Reprs

  function FieldDefRepr(f: FieldDef): string {
    "FieldDef(" + f.attribute + (if f.required then "*" else "") + ": " + f.typeRaw + ")"
  }

  function ObjectDefRepr(o: ObjectDef): string {
    "ObjectDef(" + o.name + ", " + NatToDecimal(|o.fields|) + " fields)"
  }

  /** A required field's repr carries the `*` marker; an optional one's does not (unless its own text has one). */
  lemma FieldReprMarksRequired(f: FieldDef)
    ensures f.required ==> '*' in FieldDefRepr(f)
    ensures !f.required && '*' !in f.attribute && '*' !in f.typeRaw ==> '*' !in FieldDefRepr(f)
  {
    var r := FieldDefRepr(f);
    if f.required {
      assert r[9 + |f.attribute|] == '*';
    } else {
      assert r == "FieldDef(" + f.attribute + ": " + f.typeRaw + ")";
      if '*' !in f.attribute && '*' !in f.typeRaw {
        forall i | 0 <= i < |r| ensures r[i] != '*' {
          if i < 9 {
          } else if i < 9 + |f.attribute| {
            assert r[i] == f.attribute[i - 9];
          } else if i < 11 + |f.attribute| {
          } else if i < 11 + |f.attribute| + |f.typeRaw| {
            assert r[i] == f.typeRaw[i - 11 - |f.attribute|];
          }
        }
      }
    }
  }

  /** The object repr names the object and reports its field count in decimal. */
  lemma ObjectReprReportsFieldCount(o: ObjectDef) returns (count: string)
    ensures ObjectDefRepr(o) == "ObjectDef(" + o.name + ", " + count + " fields)"
    ensures forall i :: 0 <= i < |count| ==> IsDigit(count[i])
    ensures DecimalValue(count) == |o.fields|
  {
    count := NatToDecimal(|o.fields|);
    DecimalRoundTrip(|o.fields|);
  }

  // ---------------------------------------------------------------------------
  // One table row

  /**
   * A separator row: nothing but `|`, `-` and spaces. `SeparatorTest` shows this is exactly
   * when deleting those three characters with `replace` leaves the empty string.
   */
  predicate IsSeparatorLine(line: string) {
    forall i :: 0 <= i < |line| ==> line[i] in "|- "
  }

  /** The required-marker rule: a trailing `*` on the raw attribute cell, or "required" in the description. */
  predicate RequiredCell(attr: string, desc: string) {
    EndsWith(attr, "*") || Contains(Lower(desc), "required")
  }

  /** The field a table row yields, or None for a row the loop skips. */
  function ParseRow(raw: string): Option<FieldDef> {
    var line := Strip(raw);
    if line == [] then None
    else if IsSeparatorLine(line) then None
    else FieldFromCells(Split(line, '|'))
  }

  /**
   * The row's `|`-separated cells: attribute, description and type are cells 1 to 3, each
   * stripped (the other cells are stripped too but never read).
   */
  function FieldFromCells(cells: seq<string>): Option<FieldDef> {
    if |cells| < 4 then None
    else
      var attr, desc, typ := Strip(cells[1]), Strip(cells[2]), Strip(cells[3]);
      if attr == [] || typ == [] then None
      else Some(FieldDef(Strip(RStripChar(attr, '*')), Strip(desc), Strip(typ), RequiredCell(attr, desc)))
  }

  /**
   * `ParseRow` behind a call boundary: the table loop only needs the row's result, and
   * keeping the row parser's case analysis out of the loop's proof keeps that proof small.
   */
  function RowField(raw: string): (r: Option<FieldDef>)
    ensures r == ParseRow(raw)
  {
    ParseRow(raw)
  }

  /** Each line's row result, in line order. */
  function ParsedRows(lines: seq<string>): (r: seq<Option<FieldDef>>)
    ensures |r| == |lines|
  {
    if lines == [] then [] else ParsedRows(lines[..|lines| - 1]) + [ParseRow(lines[|lines| - 1])]
  }

  lemma {:induction false} ParsedRowsAt(lines: seq<string>, i: nat)
    requires i < |lines|
    ensures ParsedRows(lines)[i] == ParseRow(lines[i])
  {
    if i < |lines| - 1 {
      ParsedRowsAt(lines[..|lines| - 1], i);
    }
  }

  lemma ParsedRowsExtend(lines: seq<string>, i: nat)
    requires i < |lines|
    ensures ParsedRows(lines[..i + 1]) == ParsedRows(lines[..i]) + [ParseRow(lines[i])]
  {
    assert lines[..i + 1][..i] == lines[..i];
  }

  /** `parse_table_body`: one pass over the body's lines, appending each row's field. */
  method ParseTableBody(body: string) returns (fields: seq<FieldDef>)
    ensures fields == Somes(ParsedRows(Split(body, '\n')))
  {
    var lines := Split(body, '\n');
    fields := [];
    var i := 0;
    while i < |lines|
      invariant 0 <= i <= |lines|
      invariant fields == Somes(ParsedRows(lines[..i]))
    {
      var row := RowField(lines[i]);
      ParsedRowsExtend(lines, i);
      SomesAppend(ParsedRows(lines[..i]), row);
      fields := fields + ToSeq(row);
      i := i + 1;
    }
    assert lines[..i] == lines;
  }

  /** The fields of a table body, as `ParseTableBody` computes them. */
  function TableBodyFields(body: string): seq<FieldDef> {
    Somes(ParsedRows(Split(body, '\n')))
  }

  // ---------------------------------------------------------------------------
  // Facts about rows

  /** The text that can appear inside one table cell. */
  predicate CellText(t: string) {
    Trimmed(t) && '|' !in t && '\n' !in t
  }

  /** A field that a one-line table row can carry. */
  predicate RowRenderable(f: FieldDef) {
    && CellText(f.attribute) && CellText(f.description) && CellText(f.typeRaw)
    && f.attribute != [] && f.typeRaw != []
    && f.attribute[|f.attribute| - 1] != '*'
    // an optional field's description must not itself say "required"
    && (f.required || !Contains(Lower(f.description), "required"))
    && (exists i :: 0 <= i < |f.attribute| && f.attribute[i] !in "-* ")
  }

  /** The table row that writes `f` down, marking a required attribute with `*`. */
  function RenderRow(f: FieldDef): string {
    "|" + f.attribute + (if f.required then "*" else "") + "|" + f.description + "|" + f.typeRaw + "|"
  }

  /** The separator test as three `replace` calls agrees with `IsSeparatorLine`. */
  lemma SeparatorTest(line: string)
    ensures Replace(Replace(Replace(line, "|", ""), "-", ""), " ", "") == "" <==> IsSeparatorLine(line)
  {
    var a := Replace(line, "|", "");
    var b := Replace(a, "-", "");
    var c := Replace(b, " ", "");
    ReplaceCharByNothing(line, '|');
    ReplaceCharByNothing(a, '-');
    ReplaceCharByNothing(b, ' ');
    if IsSeparatorLine(line) && c != [] {
      WithoutMembers(b, ' ', c[0]);
      WithoutMembers(a, '-', c[0]);
      WithoutMembers(line, '|', c[0]);
    }
    if !IsSeparatorLine(line) {
      var i :| 0 <= i < |line| && line[i] !in "|- ";
      var x := line[i];
      WithoutMembers(line, '|', x);
      WithoutMembers(a, '-', x);
      WithoutMembers(b, ' ', x);
    }
  }

  /**
   * The skip rules: blank lines, separator lines (nothing but `|`, `-` and spaces), rows
   * with fewer than four `|`-parts and rows whose attribute or type cell is empty give no field.
   */
  lemma {:induction false} ParseRowSkips(raw: string)
    ensures AllSpace(raw) ==> ParseRow(raw).None?
    ensures (forall i :: 0 <= i < |raw| ==> raw[i] in "|- ") ==> ParseRow(raw).None?
    ensures |Split(Strip(raw), '|')| < 4 ==> ParseRow(raw).None?
    ensures |Split(Strip(raw), '|')| >= 4 && (Strip(Split(Strip(raw), '|')[1]) == [] || Strip(Split(Strip(raw), '|')[3]) == [])
      ==> ParseRow(raw).None?
  {
    var line := Strip(raw);
    var r := RStrip(raw);
    RStripShape(raw);
    LStripShape(r);
    assert line == r[|r| - |line|..];
    if forall i :: 0 <= i < |raw| ==> raw[i] in "|- " {
      forall i | 0 <= i < |line| ensures line[i] in "|- " {
        assert line[i] == raw[|r| - |line| + i];
      }
    }
  }

  /**
   * What a kept row carries: trimmed attribute and description, a non-empty trimmed type, the
   * attribute cell without its trailing `*`s, and the required flag set exactly when the cell
   * ends with `*` or the description mentions "required" in any case.
   */
  lemma FieldShape(raw: string)
    requires ParseRow(raw).Some?
    ensures Trimmed(ParseRow(raw).value.attribute)
    ensures Trimmed(ParseRow(raw).value.description)
    ensures Trimmed(ParseRow(raw).value.typeRaw) && ParseRow(raw).value.typeRaw != []
    ensures |Split(Strip(raw), '|')| >= 4
    ensures ParseRow(raw).value.required <==>
      EndsWith(Strip(Split(Strip(raw), '|')[1]), "*") || Contains(Lower(ParseRow(raw).value.description), "required")
    ensures ParseRow(raw).value.attribute == Strip(RStripChar(Strip(Split(Strip(raw), '|')[1]), '*'))
  {
    var cells := Split(Strip(raw), '|');
    assert ParseRow(raw) == FieldFromCells(cells);
    CellsShape(cells);
  }

  lemma CellsShape(cells: seq<string>)
    requires FieldFromCells(cells).Some?
    ensures |cells| >= 4
    ensures Trimmed(FieldFromCells(cells).value.attribute)
    ensures Trimmed(FieldFromCells(cells).value.description)
    ensures Trimmed(FieldFromCells(cells).value.typeRaw) && FieldFromCells(cells).value.typeRaw != []
    ensures FieldFromCells(cells).value.required <==>
      EndsWith(Strip(cells[1]), "*") || Contains(Lower(FieldFromCells(cells).value.description), "required")
    ensures FieldFromCells(cells).value.attribute == Strip(RStripChar(Strip(cells[1]), '*'))
  {
    var attr, desc, typ := Strip(cells[1]), Strip(cells[2]), Strip(cells[3]);
    StripIsTrimmed(cells[2]);
    StripIsTrimmed(cells[3]);
    TrimmedStripIsIdentity(desc);
    TrimmedStripIsIdentity(typ);
    StripIsTrimmed(RStripChar(attr, '*'));
    assert FieldFromCells(cells) == Some(FieldDef(Strip(RStripChar(attr, '*')), desc, typ, RequiredCell(attr, desc)));
  }

  /** The attribute cell of a rendered row. */
  function AttributeCell(f: FieldDef): string {
    f.attribute + (if f.required then "*" else "")
  }

  lemma RenderedCells(f: FieldDef)
    requires '|' !in f.attribute && '|' !in f.description && '|' !in f.typeRaw
    ensures Split(RenderRow(f), '|') == ["", AttributeCell(f), f.description, f.typeRaw, ""]
  {
    var cell := AttributeCell(f);
    assert '|' !in cell;
    var t3 := f.typeRaw + "|";
    var t2 := f.description + "|" + t3;
    var t1 := cell + "|" + t2;
    assert RenderRow(f) == [] + "|" + t1;
    assert Split("", '|') == [""];
    SplitAtSeparator(f.typeRaw, '|', "");
    assert t3 == f.typeRaw + "|" + "";
    SplitAtSeparator(f.description, '|', t3);
    SplitAtSeparator(cell, '|', t2);
    SplitAtSeparator([], '|', t1);
  }

  lemma StripStarMarker(a: string, required: bool)
    requires a != [] && a[|a| - 1] != '*'
    ensures RStripChar(a + (if required then "*" else ""), '*') == a
    ensures EndsWith(a + (if required then "*" else ""), "*") == required
  {
    var b := a + (if required then "*" else "");
    if required {
      assert b[..|b| - 1] == a;
    }
  }

  lemma RenderedCellsParse(f: FieldDef, cells: seq<string>)
    requires CellText(f.attribute) && CellText(f.description) && CellText(f.typeRaw)
    requires f.attribute != [] && f.typeRaw != [] && f.attribute[|f.attribute| - 1] != '*'
    requires f.required || !Contains(Lower(f.description), "required")
    requires |cells| >= 4 && cells[1] == AttributeCell(f) && cells[2] == f.description && cells[3] == f.typeRaw
    ensures FieldFromCells(cells) == Some(f)
  {
    var cell := AttributeCell(f);
    assert Trimmed(cell);
    TrimmedStripIsIdentity(cell);
    StripStarMarker(f.attribute, f.required);
    TrimmedStripIsIdentity(f.attribute);
    TrimmedStripIsIdentity(f.description);
    TrimmedStripIsIdentity(f.typeRaw);
    assert RequiredCell(cell, f.description) == f.required;
  }

  /** A trimmed, non-separator line is parsed from its cells. */
  lemma ParseRowOfCells(line: string)
    requires Trimmed(line) && line != [] && !IsSeparatorLine(line)
    ensures ParseRow(line) == FieldFromCells(Split(line, '|'))
  {
    TrimmedStripIsIdentity(line);
  }

  lemma RenderedRowIsData(f: FieldDef)
    requires RowRenderable(f)
    ensures Trimmed(RenderRow(f)) && RenderRow(f) != [] && !IsSeparatorLine(RenderRow(f))
  {
    var i :| 0 <= i < |f.attribute| && f.attribute[i] !in "-* ";
    assert RenderRow(f)[1 + i] == f.attribute[i];
  }

  lemma RenderedRowCells(f: FieldDef)
    requires RowRenderable(f)
    ensures FieldFromCells(Split(RenderRow(f), '|')) == Some(f)
  {
    RenderedCells(f);
    RenderedCellsParse(f, Split(RenderRow(f), '|'));
  }

  /** Rendering a field as a table row and parsing the row gives the field back. */
  lemma RowRoundTrip(f: FieldDef)
    requires RowRenderable(f)
    ensures ParseRow(RenderRow(f)) == Some(f)
  {
    var line := RenderRow(f);
    RenderedRowIsData(f);
    ParseRowOfCells(line);
    RenderedRowCells(f);
  }

  // ---------------------------------------------------------------------------
  // Facts about table bodies

  /** One rendered row per field. */
  function RenderRows(fs: seq<FieldDef>): (rows: seq<string>)
    ensures |rows| == |fs|
    ensures forall k :: 0 <= k < |fs| ==> rows[k] == RenderRow(fs[k])
  {
    seq(|fs|, k requires 0 <= k < |fs| => RenderRow(fs[k]))
  }

  lemma RenderedRowsParse(fs: seq<FieldDef>)
    requires forall k :: 0 <= k < |fs| ==> RowRenderable(fs[k])
    ensures Somes(ParsedRows(RenderRows(fs))) == fs
  {
    var xs := ParsedRows(RenderRows(fs));
    forall k | 0 <= k < |xs| ensures xs[k] == Some(fs[k]) {
      ParsedRowsAt(RenderRows(fs), k);
      RowRoundTrip(fs[k]);
    }
    SomesAllPresent(xs, fs);
  }

  /** A table body written from fields, one row per line, parses back to those fields. */
  lemma TableRoundTrip(fs: seq<FieldDef>)
    requires forall k :: 0 <= k < |fs| ==> RowRenderable(fs[k])
    ensures TableBodyFields(Join(RenderRows(fs), "\n")) == fs
  {
    var rows := RenderRows(fs);
    if fs == [] {
      // The empty body is one empty line, which is skipped.
      assert Split(Join(rows, "\n"), '\n') == [""];
      assert ParsedRows([""]) == [None];
      return;
    }
    forall k | 0 <= k < |rows| ensures '\n' !in rows[k] {
      assert rows[k] == "|" + AttributeCell(fs[k]) + "|" + fs[k].description + "|" + fs[k].typeRaw + "|";
    }
    SplitJoin(rows, '\n');
    RenderedRowsParse(fs);
  }

  /**
   * Each field of a table body comes from its own line, in line order, and every line that
   * parses to a field contributes it: at most one field per line, nothing reordered or lost.
   */
  lemma TableFieldsFromLines(body: string) returns (idx: seq<nat>)
    ensures |idx| == |TableBodyFields(body)| <= |Split(body, '\n')|
    ensures forall k :: 0 <= k < |idx| ==>
      idx[k] < |Split(body, '\n')| && ParseRow(Split(body, '\n')[idx[k]]) == Some(TableBodyFields(body)[k])
    ensures forall k, l :: 0 <= k < l < |idx| ==> idx[k] < idx[l]
    ensures forall i :: 0 <= i < |Split(body, '\n')| && ParseRow(Split(body, '\n')[i]).Some? ==>
      ParseRow(Split(body, '\n')[i]).value in TableBodyFields(body)
  {
    var lines := Split(body, '\n');
    var rows := ParsedRows(lines);
    idx := SomesOrigin(rows);
    forall k | 0 <= k < |idx| ensures ParseRow(lines[idx[k]]) == Some(Somes(rows)[k]) {
      ParsedRowsAt(lines, idx[k]);
    }
    forall i | 0 <= i < |lines| && ParseRow(lines[i]).Some? ensures ParseRow(lines[i]).value in Somes(rows) {
      ParsedRowsAt(lines, i);
      SomesComplete(rows, i);
    }
  }

  // ---------------------------------------------------------------------------
  // Object headings: `^## Object: (?P<name>\w+)\s*$`, MULTILINE, found by `finditer`

  const ObjectPrefix := "## Object: "
  const ObjectHeading := HeadingPattern(ObjectPrefix, Word)

  function Headings(s: string): seq<Heading> {
    HeadingsFrom(s, 0, ObjectHeading)
  }

  // ---------------------------------------------------------------------------
  // Attribute tables: `\|Attribute\|Description\|Type\|\n\|--\|--\|--\|\n(?P<body>.*?)(?=\n\n|^##|\Z)`

  const TableHeader := "|Attribute|Description|Type|\n|--|--|--|\n"

  /**
   * `search` from `pos`: the leftmost header (see `FindTableIsLeftmost`); the lazy body after
   * it always matches.
   */
  function FindTable(c: string, pos: nat): (r: Option<nat>)
    requires pos <= |c|
    ensures r.Some? ==> pos <= r.value && r.value + |TableHeader| <= |c|
    decreases |c| - pos
  {
    if HasAt(c, pos, TableHeader) then Some(pos)
    else if pos == |c| then None
    else FindTable(c, pos + 1)
  }

  lemma {:induction false} FindTableIsLeftmost(c: string, pos: nat)
    requires pos <= |c|
    ensures FindTable(c, pos).Some? ==> HasAt(c, FindTable(c, pos).value, TableHeader)
    ensures FindTable(c, pos).Some? ==> forall p :: pos <= p < FindTable(c, pos).value ==> !HasAt(c, p, TableHeader)
    ensures FindTable(c, pos).None? ==> forall p :: pos <= p <= |c| ==> !HasAt(c, p, TableHeader)
    decreases |c| - pos
  {
    if !HasAt(c, pos, TableHeader) && pos < |c| {
      var next := FindTable(c, pos + 1);
      assert FindTable(c, pos) == next;
      FindTableIsLeftmost(c, pos + 1);
      var end := if next.Some? then next.value else |c| + 1;
      forall p | pos <= p < end ensures !HasAt(c, p, TableHeader) {
        if p == pos {
        }
      }
    }
  }

  /** The body group that starts at `q`, just after a header, stripped. */
  function TableBody(c: string, q: nat): string
    requires q <= |c|
  {
    Strip(c[q..BodyEnd(c, q)])
  }

  /** The stripped body of the first table in `c`, if `c` holds one. */
  function FirstTableBody(c: string): Option<string> {
    match FindTable(c, 0)
    case None => None
    case Some(p) => Some(TableBody(c, p + |TableHeader|))
  }

  /** The fields of the first table in `c`, or none when `c` holds no table. */
  function TableFieldsIn(c: string): seq<FieldDef> {
    match FirstTableBody(c)
    case None => []
    case Some(body) => TableBodyFields(body)
  }

  /** What one heading contributes: its object, unless its table is missing or gives no field. */
  function ObjectFor(s: string, h: Heading): (r: Option<ObjectDef>)
    requires h.start + |ObjectPrefix| <= h.nameEnd <= h.end <= |s|
  {
    ObjectWithFields(HeadingName(s, h, ObjectHeading), TableFieldsIn(s[h.end..]))
  }

  /** `if fields: objects.append(ObjectDef(name=name, fields=fields))` */
  function ObjectWithFields(name: string, fields: seq<FieldDef>): Option<ObjectDef> {
    if fields == [] then None else Some(ObjectDef(name, fields, None, None))
  }


  /** What each heading contributes, heading by heading. */
  function HeadingObjects(s: string, hs: seq<Heading>): (r: seq<Option<ObjectDef>>)
    requires forall k :: 0 <= k < |hs| ==> hs[k].start + |ObjectPrefix| <= hs[k].nameEnd <= hs[k].end <= |s|
    ensures |r| == |hs|
  {
    if hs == [] then [] else HeadingObjects(s, hs[..|hs| - 1]) + [ObjectFor(s, hs[|hs| - 1])]
  }

  lemma HeadingObjectsAt(s: string, hs: seq<Heading>, k: nat)
    requires forall k :: 0 <= k < |hs| ==> hs[k].start + |ObjectPrefix| <= hs[k].nameEnd <= hs[k].end <= |s|
    requires k < |hs|
    ensures HeadingObjects(s, hs)[k] == ObjectFor(s, hs[k])
    decreases |hs|
  {
    if k < |hs| - 1 {
      HeadingObjectsAt(s, hs[..|hs| - 1], k);
    }
  }

  /** The objects of a document: one per heading whose table yields a field, in heading order. */
  function DocumentObjects(s: string): seq<ObjectDef> {
    Somes(HeadingObjects(s, Headings(s)))
  }

  /**
   * One step of `extract_objects`: search the text after the heading for a table, parse its
   * stripped body, and make an object of the fields if there are any.
   */
  method ObjectAfterHeading(content: string, h: Heading) returns (found: Option<ObjectDef>)
    requires h.start + |ObjectPrefix| <= h.nameEnd <= h.end <= |content|
    ensures found == ObjectFor(content, h)
  {
    var chunk := content[h.end..];
    var table := FindTable(chunk, 0);
    if table.None? {
      return None;
    }
    var fields := ParseTableBody(TableBody(chunk, table.value + |TableHeader|));
    found := ObjectWithFields(HeadingName(content, h, ObjectHeading), fields);
  }

  /**
   * `extract_objects`: for each heading match, search the rest of the document for a table,
   * parse its stripped body, and keep the object if it has fields.
   */
  method ExtractObjects(content: string) returns (objects: seq<ObjectDef>)
    ensures objects == DocumentObjects(content)
  {
    var hs := Headings(content);
    ghost var results := HeadingObjects(content, hs);
    objects := [];
    for i := 0 to |hs|
      invariant objects == Somes(results[..i])
    {
      var found := ObjectAfterHeading(content, hs[i]);
      HeadingObjectsAt(content, hs, i);
      SomesPrefixStep(results, i);
      objects := objects + ToSeq(found);
    }
    assert results[..|hs|] == results;
  }

  // ---------------------------------------------------------------------------
  // Facts about tables and objects

  /** Searching a suffix finds the same header as searching the whole string from the suffix on. */
  lemma {:induction false} FindTableShift(s: string, a: nat, j: nat)
    requires a + j <= |s|
    ensures FindTable(s[a..], j).Some? <==> FindTable(s, a + j).Some?
    ensures FindTable(s[a..], j).Some? ==> a + FindTable(s[a..], j).value == FindTable(s, a + j).value
    decreases |s| - a - j
  {
    HasAtShift(s, a, j, TableHeader);
    if HasAt(s, a + j, TableHeader) {
      assert FindTable(s[a..], j) == Some(j);
    } else if a + j < |s| {
      FindTableShift(s, a, j + 1);
      assert FindTable(s[a..], j) == FindTable(s[a..], j + 1);
    }
  }

  /** The stripped body of the first table at or after position `a` of `s`. */
  function TableBodyFrom(s: string, a: nat): Option<string>
    requires a <= |s|
  {
    match FindTable(s, a)
    case None => None
    case Some(p) => Some(TableBody(s, p + |TableHeader|))
  }

  lemma FirstTableBodyAt(c: string, p: nat)
    requires FindTable(c, 0) == Some(p)
    ensures FirstTableBody(c) == Some(TableBody(c, p + |TableHeader|))
  {
  }

  /** A body read in a suffix is the body read at the same place of the whole string. */
  lemma TableBodyShift(s: string, a: nat, q: nat, t: nat)
    requires a <= |s| && 1 <= q <= |s| - a && t == a + q
    ensures TableBody(s[a..], q) == TableBody(s, t)
  {
    BodyEndShift(s, a, q, t);
    assert s[a..][q..BodyEnd(s[a..], q)] == s[t..BodyEnd(s, t)];
  }

  lemma TableBodyFromAt(s: string, a: nat, p: nat)
    requires a <= |s| && FindTable(s, a) == Some(p)
    ensures TableBodyFrom(s, a) == Some(TableBody(s, p + |TableHeader|))
  {
  }

  lemma TableBodyInSuffix(s: string, a: nat)
    requires a <= |s|
    ensures FirstTableBody(s[a..]) == TableBodyFrom(s, a)
  {
    FindTableShift(s, a, 0);
    if FindTable(s, a).Some? {
      var p := FindTable(s[a..], 0).value;
      var r := FindTable(s, a).value;
      FirstTableBodyAt(s[a..], p);
      TableBodyFromAt(s, a, r);
      TableBodyShift(s, a, p + |TableHeader|, r + |TableHeader|);
    }
  }

  /** Searching from `a` or from `b` finds the same table when no header starts in between. */
  lemma {:induction false} FindTableSkips(s: string, a: nat, b: nat)
    requires a <= b <= |s|
    requires forall p :: a <= p < b ==> !HasAt(s, p, TableHeader)
    ensures FindTable(s, a) == FindTable(s, b)
    decreases b - a
  {
    if a < b {
      FindTableSkips(s, a + 1, b);
    }
  }

  /**
   * The table is searched for in the whole rest of the document, not up to the next heading:
   * when no table header starts between the ends of two headings, the earlier heading gets the
   * fields of the same table as the later one.
   */
  lemma SharedTable(s: string, g: Heading, h: Heading)
    requires g.start + |ObjectPrefix| <= g.nameEnd <= g.end <= h.end <= |s|
    requires h.start + |ObjectPrefix| <= h.nameEnd <= h.end
    requires forall p :: g.end <= p < h.end ==> !HasAt(s, p, TableHeader)
    ensures TableFieldsIn(s[g.end..]) == TableFieldsIn(s[h.end..])
    ensures ObjectFor(s, g).Some? <==> ObjectFor(s, h).Some?
  {
    SharedTableBody(s, g.end, h.end);
  }

  lemma SharedTableBody(s: string, a: nat, b: nat)
    requires a <= b <= |s|
    requires forall p :: a <= p < b ==> !HasAt(s, p, TableHeader)
    ensures FirstTableBody(s[a..]) == FirstTableBody(s[b..])
  {
    TableBodyInSuffix(s, a);
    TableBodyInSuffix(s, b);
    TableBodyFromSkips(s, a, b);
  }

  lemma TableBodyFromSkips(s: string, a: nat, b: nat)
    requires a <= b <= |s|
    requires forall p :: a <= p < b ==> !HasAt(s, p, TableHeader)
    ensures TableBodyFrom(s, a) == TableBodyFrom(s, b)
  {
    FindTableSkips(s, a, b);
    if FindTable(s, a).Some? {
      TableBodyFromAt(s, a, FindTable(s, a).value);
      TableBodyFromAt(s, b, FindTable(s, a).value);
    }
  }

  /** A header found in a string is still the first one after anything is appended. */
  lemma {:induction false} FindTableAppend(c: string, e: string, j: nat, t: nat)
    requires j <= |c| && FindTable(c, j) == Some(t)
    ensures FindTable(c + e, j) == Some(t)
    decreases t - j
  {
    FindTableIsLeftmost(c, j);
    assert (c + e)[j..j + |TableHeader|] == c[j..j + |TableHeader|];
    if j < t {
      FindTableAppend(c, e, j + 1, t);
    }
  }


  /** The stripped body of a table that runs to the end, with or without a blank line after it. */
  lemma BodyAtEnd(c: string, q: nat, body: string)
    requires q <= |c| && c[q..] == body && BodyEnd(c, q) == |c|
    ensures TableBody(c, q) == Strip(body)
    ensures TableBody(c + "\n\n", q) == Strip(body)
  {
    var d := c + "\n\n";
    assert c[q..BodyEnd(c, q)] == body;
    BodyEndBlankLine(c, q);
    if BodyEnd(d, q) == |c| {
      assert d[q..BodyEnd(d, q)] == body;
    } else {
      var shorter := body[..|body| - 1];
      assert d[q..BodyEnd(d, q)] == shorter;
      assert RStrip(body) == RStrip(shorter);
      assert Strip(shorter) == Strip(body);
    }
  }

  /**
   * A table that runs to the end of the document gives the same fields whether or not a blank
   * line follows it: the trailing newline the lookahead may leave out is stripped anyway.
   */
  lemma TableAtEnd(pre: string, body: string)
    requires FindTable(pre + TableHeader + body, 0) == Some(|pre|)
    requires BodyEnd(pre + TableHeader + body, |pre| + |TableHeader|) == |pre + TableHeader + body|
    ensures FirstTableBody(pre + TableHeader + body) == Some(Strip(body))
    ensures FirstTableBody(pre + TableHeader + body + "\n\n") == Some(Strip(body))
    ensures TableFieldsIn(pre + TableHeader + body + "\n\n") == TableFieldsIn(pre + TableHeader + body)
  {
    var c := pre + TableHeader + body;
    var q := |pre| + |TableHeader|;
    assert c[q..] == body;
    FindTableAppend(c, "\n\n", 0, |pre|);
    BodyAtEnd(c, q, body);
    FirstTableBodyAt(c, |pre|);
    FirstTableBodyAt(c + "\n\n", |pre|);
  }

  /** An object made for a heading carries the heading's name and a non-empty field list, and no section or description. */
  lemma ObjectForShape(s: string, h: Heading)
    requires h.start + |ObjectPrefix| <= h.nameEnd <= h.end <= |s|
    requires ObjectFor(s, h).Some?
    ensures ObjectFor(s, h).value.name == HeadingName(s, h, ObjectHeading)
    ensures ObjectFor(s, h).value.fields == TableFieldsIn(s[h.end..]) != []
    ensures ObjectFor(s, h).value.section.None? && ObjectFor(s, h).value.description.None?
  {
  }

  /**
   * `extract_objects` keeps document order: each object comes from its own heading, the
   * headings of later objects come later in the document, and every object has fields.
   */
  lemma DocumentObjectsInOrder(s: string) returns (idx: seq<nat>)
    ensures |idx| == |DocumentObjects(s)|
    ensures forall k :: 0 <= k < |idx| ==> idx[k] < |Headings(s)|
    ensures forall k :: 0 <= k < |idx| ==> ObjectFor(s, Headings(s)[idx[k]]) == Some(DocumentObjects(s)[k])
    ensures forall k, l :: 0 <= k < l < |idx| ==> idx[k] < idx[l]
    ensures forall k, l :: 0 <= k < l < |idx| ==> Headings(s)[idx[k]].end <= Headings(s)[idx[l]].start
    ensures forall k :: 0 <= k < |idx| ==> DocumentObjects(s)[k].fields != []
  {
    var hs := Headings(s);
    var results := HeadingObjects(s, hs);
    idx := SomesOrigin(results);
    HeadingsOrdered(s, 0, ObjectHeading);
    forall k | 0 <= k < |idx| ensures ObjectFor(s, hs[idx[k]]) == Some(DocumentObjects(s)[k]) {
      HeadingObjectsAt(s, hs, idx[k]);
    }
    forall k | 0 <= k < |idx| ensures DocumentObjects(s)[k].fields != [] {
      ObjectForShape(s, hs[idx[k]]);
    }
  }

  /** No heading whose table yields fields is dropped. */
  lemma DocumentObjectsComplete(s: string, k: nat)
    requires k < |Headings(s)| && ObjectFor(s, Headings(s)[k]).Some?
    ensures ObjectFor(s, Headings(s)[k]).value in DocumentObjects(s)
  {
    var hs := Headings(s);
    HeadingObjectsAt(s, hs, k);
    SomesComplete(HeadingObjects(s, hs), k);
  }

  // ---------------------------------------------------------------------------
  // Inline enum values: `get_enum_values`

  /** The member key of an enum value: upper-cased, spaces turned into `_`. */
  function EnumKey(v: string): string {
    Replace(Upper(v), " ", "_")
  }

  /** Each part stripped, in order. */
  function StripEach(parts: seq<string>): (r: seq<string>)
    ensures |r| == |parts|
    ensures forall k :: 0 <= k < |parts| ==> r[k] == Strip(parts[k])
  {
    seq(|parts|, k requires 0 <= k < |parts| => Strip(parts[k]))
  }

  /** One (key, value) pair per value, in order. */
  function EnumPairs(vs: seq<string>): (r: seq<(string, string)>)
    ensures |r| == |vs|
    ensures forall k :: 0 <= k < |vs| ==> r[k] == (EnumKey(vs[k]), vs[k])
  {
    seq(|vs|, k requires 0 <= k < |vs| => (EnumKey(vs[k]), vs[k]))
  }

  /**
   * `get_enum_values`: the comma items of the first parenthesised group on one line; without
   * a group, the comma items of the whole text when there are at least two, else nothing.
   */
  function GetEnumValues(text: string): seq<(string, string)> {
    match ParenGroup(text, 0)
    case Some((a, b)) => EnumPairs(StripEach(Split(text[a..b], ',')))
    case None =>
      var vs := StripEach(Split(text, ','));
      if |vs| > 1 then EnumPairs(vs) else []
  }

  /** A key is the value with each space made `_` and each lower-case letter upper-cased. */
  lemma EnumKeyShape(v: string)
    ensures |EnumKey(v)| == |v|
    ensures forall i :: 0 <= i < |v| ==> EnumKey(v)[i] == (if v[i] == ' ' then '_' else UpperChar(v[i]))
    ensures ' ' !in EnumKey(v)
    ensures forall i :: 0 <= i < |v| ==> !IsLowerLetter(EnumKey(v)[i])
  {
    ReplaceChar(Upper(v), ' ', '_');
  }

  /** Every pair's value is a stripped item and its key is made from that value. */
  lemma EnumValuesShape(text: string)
    ensures forall k :: 0 <= k < |GetEnumValues(text)| ==>
      GetEnumValues(text)[k].0 == EnumKey(GetEnumValues(text)[k].1) && Trimmed(GetEnumValues(text)[k].1)
  {
    var parts := match ParenGroup(text, 0)
      case Some((a, b)) => Split(text[a..b], ',')
      case None => Split(text, ',');
    forall k | 0 <= k < |parts| ensures Trimmed(StripEach(parts)[k]) {
      StripIsTrimmed(parts[k]);
    }
  }

  /** An enum item as written inside a list: trimmed, and free of the list's delimiters. */
  predicate EnumItem(v: string) {
    Trimmed(v) && ',' !in v && '(' !in v && ')' !in v && '\n' !in v
  }

  lemma StripEachItems(vs: seq<string>)
    requires forall k :: 0 <= k < |vs| ==> EnumItem(vs[k])
    ensures StripEach(vs) == vs
  {
    forall k | 0 <= k < |vs| ensures StripEach(vs)[k] == vs[k] {
      TrimmedStripIsIdentity(vs[k]);
    }
  }

  /** The group `re.search` finds in `pre(list)post` is `list` when `pre` has no `(`. */
  lemma ParenGroupOfList(pre: string, list: string, post: string)
    requires '(' !in pre && ')' !in list && '\n' !in list
    ensures ParenGroup(pre + "(" + list + ")" + post, 0) == Some((|pre| + 1, |pre| + 1 + |list|))
    ensures (pre + "(" + list + ")" + post)[|pre| + 1..|pre| + 1 + |list|] == list
  {
    var t := pre + "(" + list + ")" + post;
    var o, c := |pre|, |pre| + 1 + |list|;
    forall j | o < j < c ensures t[j] != ')' && t[j] != '\n' {
      assert t[j] == list[j - o - 1];
    }
    forall j | 0 <= j < o ensures t[j] != '(' {
      assert t[j] == pre[j];
    }
    ParenGroupAt(t, 0, o, c);
    assert t[o + 1..c] == list;
  }

  /** A comma list of items holds no parenthesis and no newline. */
  lemma ListAvoids(vs: seq<string>)
    requires forall k :: 0 <= k < |vs| ==> EnumItem(vs[k])
    ensures '(' !in Join(vs, ",") && ')' !in Join(vs, ",") && '\n' !in Join(vs, ",")
  {
    JoinAvoids(vs, ",", '(');
    JoinAvoids(vs, ",", ')');
    JoinAvoids(vs, ",", '\n');
  }

  /** Values listed in parentheses after text without a `(` come back as their pairs, in order. */
  lemma ParenListRoundTrip(pre: string, vs: seq<string>, post: string)
    requires '(' !in pre
    requires |vs| >= 1 && forall k :: 0 <= k < |vs| ==> EnumItem(vs[k])
    ensures GetEnumValues(pre + "(" + Join(vs, ",") + ")" + post) == EnumPairs(vs)
  {
    var list := Join(vs, ",");
    var text := pre + "(" + list + ")" + post;
    var a, b := |pre| + 1, |pre| + 1 + |list|;
    assert ParenGroup(text, 0) == Some((a, b)) && text[a..b] == list by {
      ListAvoids(vs);
      ParenGroupOfList(pre, list, post);
    }
    GroupValues(text, a, b, vs);
  }

  /** A group holding a comma list of items gives one pair per item. */
  lemma GroupValues(text: string, a: nat, b: nat, vs: seq<string>)
    requires ParenGroup(text, 0) == Some((a, b)) && text[a..b] == Join(vs, ",")
    requires |vs| >= 1 && forall k :: 0 <= k < |vs| ==> EnumItem(vs[k])
    ensures GetEnumValues(text) == EnumPairs(vs)
  {
    EnumValuesOfGroup(text, a, b);
    SplitJoin(vs, ',');
    StripEachItems(vs);
  }

  lemma EnumValuesOfGroup(text: string, a: nat, b: nat)
    requires ParenGroup(text, 0) == Some((a, b))
    ensures GetEnumValues(text) == EnumPairs(StripEach(Split(text[a..b], ',')))
  {
  }

  /** Without parentheses, a comma list of at least two values comes back as their pairs. */
  lemma PlainListRoundTrip(vs: seq<string>)
    requires |vs| >= 2 && forall k :: 0 <= k < |vs| ==> EnumItem(vs[k])
    ensures GetEnumValues(Join(vs, ",")) == EnumPairs(vs)
  {
    var t := Join(vs, ",");
    ListAvoids(vs);
    NoParenGroup(t, 0);
    SplitJoin(vs, ',');
    StripEachItems(vs);
  }

  /** Without parentheses, a text with no comma is a single item and gives no pairs. */
  lemma SingleItemGivesNothing(text: string)
    requires '(' !in text && ',' !in text
    ensures GetEnumValues(text) == []
  {
    NoParenGroup(text, 0);
    SplitWithoutSeparator(text, ',');
  }
}
