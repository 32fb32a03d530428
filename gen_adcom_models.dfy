/**
 * The AdCom model generator: `AdcomTypeMapper.map_type`, which turns an AdCom field type into a
 * Python type (a primitive, a list, or a quoted reference to another AdCom object), and
 * `AdcomModelGenerator`, which writes enumerations, Pydantic classes and the whole module.
 *
 * A Python set is iterated in an order this model cannot know; where the source iterates the
 * set of object names, the order is a parameter (`known`), a sequence listing each name once.
 */
module GenAdcomModels {
  import opened Strings
  import opened Wrappers
  import opened Ordering
  import opened MdTables
  import GenModels

  // ---------------------------------------------------------------------------
  // Word search: `re.search(r'\b' + re.escape(p) + r'\b', s)`

  /** Index `i` holds a word character (positions outside the text do not). */
  predicate IsWordAt(s: string, i: int) {
    0 <= i < |s| && IsWordChar(s[i])
  }

  /** `\b` at position `i`: a word character on exactly one side. */
  predicate Boundary(s: string, i: int) {
    IsWordAt(s, i - 1) != IsWordAt(s, i)
  }

  predicate WordAt(s: string, i: int, p: string) {
    HasAt(s, i, p) && Boundary(s, i) && Boundary(s, i + |p|)
  }

  /** `p` occurs in `s` as a whole word. */
  predicate WordIn(s: string, p: string) {
    exists i :: 0 <= i <= |s| && WordAt(s, i, p)
  }

  // ---------------------------------------------------------------------------
  // `sorted(known_objects, key=len, reverse=True)`: longest first, ties in iteration order

  /** `x` placed before the first name that is not longer than it. */
  function InsertByLength(x: string, ys: seq<string>): (r: seq<string>)
    ensures multiset(r) == multiset(ys) + multiset{x}
  {
    if ys == [] || |ys[0]| <= |x| then [x] + ys
    else
      assert ys == [ys[0]] + ys[1..];
      [ys[0]] + InsertByLength(x, ys[1..])
  }

  function ByLengthDesc(xs: seq<string>): (r: seq<string>)
    ensures multiset(r) == multiset(xs)
  {
    if xs == [] then []
    else
      assert xs == [xs[0]] + xs[1..];
      InsertByLength(xs[0], ByLengthDesc(xs[1..]))
  }

  predicate LengthsDesc(xs: seq<string>) {
    forall i, j :: 0 <= i < j < |xs| ==> |xs[j]| <= |xs[i]|
  }

  lemma {:induction false} InsertKeepsOrder(x: string, ys: seq<string>)
    requires LengthsDesc(ys)
    ensures LengthsDesc(InsertByLength(x, ys))
    decreases |ys|
  {
    if ys != [] && |ys[0]| > |x| {
      var rest := InsertByLength(x, ys[1..]);
      InsertKeepsOrder(x, ys[1..]);
      forall k | 0 <= k < |rest| ensures |rest[k]| <= |ys[0]| {
        assert rest[k] in multiset(rest);
        assert rest[k] == x || rest[k] in multiset(ys[1..]);
        if rest[k] != x {
          var m :| 0 <= m < |ys[1..]| && ys[1..][m] == rest[k];
          assert ys[m + 1] == rest[k];
        }
      }
    }
  }

  /** The names in order of decreasing length, each kept once. */
  lemma {:induction false} ByLengthDescSorted(xs: seq<string>)
    ensures LengthsDesc(ByLengthDesc(xs))
    ensures forall x :: x in ByLengthDesc(xs) <==> x in xs
    decreases |xs|
  {
    if xs != [] {
      ByLengthDescSorted(xs[1..]);
      InsertKeepsOrder(xs[0], ByLengthDesc(xs[1..]));
    }
    var r := ByLengthDesc(xs);
    forall x ensures x in r <==> x in xs {
      assert x in r <==> x in multiset(r);
      assert x in xs <==> x in multiset(xs);
    }
  }

  // ---------------------------------------------------------------------------
  // `map_type`

  /** What `map_type` reports: the Python type and whether the type was marked optional. */
  datatype Mapped = Mapped(pyType: string, optional: bool)

  /** The primitive table, in the order it is searched. */
  const AdcomPrimitiveTable: seq<(string, string)> := [
    ("string", "str"), ("integer", "int"), ("int", "int"), ("number", "float"), ("float", "float"),
    ("double", "float"), ("boolean", "bool"), ("bool", "bool"), ("object", "Dict[str, Any]"),
    ("datetime", "datetime"), ("date-time", "datetime")]

  /** `name` is the object a lower-cased type `lt` refers to: the name as a whole word, and "object". */
  predicate Refers(lt: string, name: string) {
    WordIn(lt, Lower(name)) && Contains(lt, "object")
  }

  /** The first of `names` the lower-cased type refers to. */
  function FirstRef(names: seq<string>, lt: string): (r: Option<nat>)
    ensures r.Some? ==> r.value < |names| && Refers(lt, names[r.value])
    ensures r.Some? ==> forall j :: 0 <= j < r.value ==> !Refers(lt, names[j])
    ensures r.None? ==> forall j :: 0 <= j < |names| ==> !Refers(lt, names[j])
  {
    if names == [] then None
    else if Refers(lt, names[0]) then Some(0)
    else
      match FirstRef(names[1..], lt)
      case Some(i) => Some(i + 1)
      case None => None
  }

  /** The object a type refers to, trying the longest names first. */
  function ObjectRef(lt: string, known: seq<string>): Option<string> {
    var names := ByLengthDesc(known);
    match FirstRef(names, lt)
    case Some(i) => Some(names[i])
    case None => None
  }

  /** A forward reference: the name in double quotes. */
  function Quoted(name: string): string {
    "\"" + name + "\""
  }

  /** The stripped type with each lower-case "optional" removed, stripped again. */
  function AdcomCleaned(spec: string): string {
    Strip(Replace(Strip(spec), "optional", ""))
  }

  /** The element type of "array of X": the lower-cased type with each "array of" removed, stripped. */
  function AdcomArrayBase(t: string): string {
    Strip(Replace(Lower(t), "array of", ""))
  }

  /** Every recursive call of `map_type` is on a shorter type. */
  lemma AdcomArrayBaseShrinks(spec: string)
    requires Contains(Lower(AdcomCleaned(spec)), "array of")
    ensures |AdcomArrayBase(AdcomCleaned(spec))| < |spec|
  {
    var s0 := Strip(spec);
    var s1 := Replace(s0, "optional", "");
    var t := Strip(s1);
    var v := Replace(Lower(t), "array of", "");
    StripShrinks(spec);
    RemoveShrinks(s0, "optional");
    StripShrinks(s1);
    RemoveShrinks(Lower(t), "array of");
    StripShrinks(v);
  }

  /** `AdcomTypeMapper.map_type(spec, known_objects)`, the set iterated in the order `known`. */
  function AdcomMapType(spec: string, known: seq<string>): (r: Mapped)
    decreases |spec|
  {
    var optional := Contains(Lower(Strip(spec)), "optional");
    var t := AdcomCleaned(spec);
    var lt := Lower(t);
    if Contains(lt, "array of") then
      AdcomArrayBaseShrinks(spec);
      Mapped(GenModels.ListOf(AdcomMapType(AdcomArrayBase(t), known).pyType), optional)
    else
      match ObjectRef(lt, known)
      case Some(name) => Mapped(Quoted(name), optional)
      case None => Mapped(GenModels.Lookup(AdcomPrimitiveTable, lt, "str"), optional)
  }

  /**
   * A reference is made exactly when some known name occurs as a whole word and "object" occurs;
   * the name referred to is known, and no longer known name qualifies.
   */
  lemma ObjectRefIsLongest(lt: string, known: seq<string>)
    ensures ObjectRef(lt, known).Some? <==> exists n :: n in known && Refers(lt, n)
    ensures ObjectRef(lt, known).Some? ==>
      var name := ObjectRef(lt, known).value;
      && name in known && Refers(lt, name)
      && forall n :: n in known && Refers(lt, n) ==> |n| <= |name|
  {
    var names := ByLengthDesc(known);
    ByLengthDescSorted(known);
    var refers := n => Refers(lt, n);
    match FirstRef(names, lt)
    case Some(i) => FirstOfDescIsLongest(known, names, i, refers);
    case None => NoneOfSameMembers(known, names, refers);
  }

  /** In a longest-first permutation, the first name satisfying `p` is a longest one that does. */
  lemma FirstOfDescIsLongest(known: seq<string>, names: seq<string>, i: nat, p: string -> bool)
    requires multiset(names) == multiset(known) && LengthsDesc(names)
    requires i < |names| && p(names[i]) && forall j :: 0 <= j < i ==> !p(names[j])
    ensures names[i] in known && forall n :: n in known && p(n) ==> |n| <= |names[i]|
  {
    SameMembers(names, known, names[i]);
    forall n | n in known && p(n) ensures |n| <= |names[i]| {
      SameMembers(known, names, n);
      var j :| 0 <= j < |names| && names[j] == n;
      assert i <= j;
    }
  }

  lemma NoneOfSameMembers(known: seq<string>, names: seq<string>, p: string -> bool)
    requires multiset(names) == multiset(known) && forall j :: 0 <= j < |names| ==> !p(names[j])
    ensures forall n :: n in known ==> !p(n)
  {
    forall n | n in known ensures !p(n) {
      SameMembers(known, names, n);
    }
  }

  lemma SameMembers(xs: seq<string>, ys: seq<string>, n: string)
    requires multiset(xs) == multiset(ys) && n in xs
    ensures n in ys && exists j :: 0 <= j < |ys| && ys[j] == n
  {
    assert n in multiset(xs);
  }

  const AdcomPrimitiveNames: set<string> := {"str", "int", "float", "bool", "Dict[str, Any]", "datetime"}

  /** A type `map_type` can produce: a primitive, a quoted known name, or a list of either. */
  predicate AdcomType(t: string, known: seq<string>)
    decreases |t|
  {
    || t in AdcomPrimitiveNames
    || (exists n :: n in known && t == Quoted(n))
    || (|t| > 6 && t[..5] == "List[" && t[|t| - 1] == ']' && AdcomType(t[5..|t| - 1], known))
  }

  lemma AdcomPrimitiveIsName(lt: string)
    ensures GenModels.Lookup(AdcomPrimitiveTable, lt, "str") in AdcomPrimitiveNames
  {
    var r := GenModels.FirstKeyIn(AdcomPrimitiveTable, lt);
    if r.Some? {
      assert AdcomPrimitiveTable[r.value].1 in AdcomPrimitiveNames;
    }
  }

  lemma AdcomListOfType(inner: string, known: seq<string>)
    requires AdcomType(inner, known)
    ensures AdcomType(GenModels.ListOf(inner), known)
  {
    var l := GenModels.ListOf(inner);
    assert l[..5] == "List[" && l[5..|l| - 1] == inner;
  }

  /** Every mapped type is a primitive, a quoted known object name, or `List[…]` of one. */
  lemma {:induction false} AdcomMapTypeShape(spec: string, known: seq<string>)
    ensures AdcomType(AdcomMapType(spec, known).pyType, known)
    decreases |spec|
  {
    var t := AdcomCleaned(spec);
    var lt := Lower(t);
    if Contains(lt, "array of") {
      AdcomArrayBaseShrinks(spec);
      AdcomMapTypeShape(AdcomArrayBase(t), known);
      AdcomListOfType(AdcomMapType(AdcomArrayBase(t), known).pyType, known);
    } else if ObjectRef(lt, known).Some? {
      ObjectRefIsLongest(lt, known);
    } else {
      AdcomPrimitiveIsName(lt);
    }
  }

  /** No mapped type already reads as `Optional[…]`. */
  lemma AdcomTypeIsNotOptional(t: string, known: seq<string>)
    requires AdcomType(t, known)
    ensures !StartsWith(t, "Optional[")
  {
    assert forall p :: p in AdcomPrimitiveNames ==> |p| < 9 || p[0] == 'D';
    assert forall n :: Quoted(n)[0] == '"';
    if |t| >= 9 {
      assert t[..5][0] == t[0] == t[..9][0];
    }
  }

  // ---------------------------------------------------------------------------
  // `generate_enum_code`

  /** One character of a member name: a word character upper-cased, anything else `_`. */
  function MemberChar(c: char): char {
    if IsWordChar(c) then UpperChar(c) else '_'
  }

  /** `re.sub(r"[^\w]", "_", s)` */
  function WordsOnly(s: string): (r: string)
    ensures |r| == |s| && forall i :: 0 <= i < |s| ==> r[i] == (if IsWordChar(s[i]) then s[i] else '_')
  {
    seq(|s|, i requires 0 <= i < |s| => if IsWordChar(s[i]) then s[i] else '_')
  }

  /** The member name of an enumeration literal. */
  function MemberName(value: string): string {
    WordsOnly(Upper(Replace(Replace("VALUE_" + value, " ", "_"), "-", "_")))
  }

  /** The member name is "VALUE_" followed by one character per character of the literal. */
  lemma MemberNameChars(value: string)
    ensures |MemberName(value)| == 6 + |value|
    ensures forall i :: 0 <= i < |value| ==> MemberName(value)[6 + i] == MemberChar(value[i])
    ensures forall i :: 0 <= i < 6 ==> MemberName(value)[i] == "VALUE_"[i]
  {
    var s := "VALUE_" + value;
    var s1 := Replace(s, [' '], ['_']);
    var s2 := Replace(s1, ['-'], ['_']);
    ReplaceChar(s, ' ', '_');
    ReplaceChar(s1, '-', '_');
    forall k | 0 <= k < |s| ensures MemberName(value)[k] == MemberChar(s[k]) {
      assert s2[k] == (if s[k] == ' ' || s[k] == '-' then '_' else s[k]);
    }
  }

  /** Every member name is an identifier of upper-case letters, digits and underscores. */
  lemma MemberNameIsIdentifier(value: string)
    ensures forall c :: c in MemberName(value) ==> IsWordChar(c) && !IsLowerLetter(c)
  {
    MemberNameChars(value);
  }

  /**
   * Two literals get the same member name exactly when they have the same length and agree
   * character by character once each is mapped by `MemberChar`: nothing tells such members apart.
   */
  lemma MemberNamesCollide(v: string, w: string)
    ensures MemberName(v) == MemberName(w) <==>
      |v| == |w| && forall i :: 0 <= i < |v| ==> MemberChar(v[i]) == MemberChar(w[i])
  {
    MemberNameChars(v);
    MemberNameChars(w);
    if MemberName(v) == MemberName(w) {
      forall i | 0 <= i < |v| ensures MemberChar(v[i]) == MemberChar(w[i]) {
        assert MemberName(v)[6 + i] == MemberName(w)[6 + i];
      }
    } else if |v| == |w| && forall i :: 0 <= i < |v| ==> MemberChar(v[i]) == MemberChar(w[i]) {
      forall k | 0 <= k < 6 + |v| ensures MemberName(v)[k] == MemberName(w)[k] {
        if k >= 6 {
          assert MemberChar(v[k - 6]) == MemberChar(w[k - 6]);
        }
      }
    }
  }

  function EnumHeader(name: string): seq<string> {
    ["class " + name + "(str, Enum):", "    \"\"\"" + name + " enum values.\"\"\"", ""]
  }

  function MemberLine(value: string, description: string): string {
    "    " + MemberName(value) + " = \"" + value + "\"  # " + description
  }

  function MemberLines(values: seq<(string, string)>): (r: seq<string>)
    ensures |r| == |values| && forall k :: 0 <= k < |values| ==> r[k] == MemberLine(values[k].0, values[k].1)
  {
    seq(|values|, k requires 0 <= k < |values| => MemberLine(values[k].0, values[k].1))
  }

  lemma MemberLinesStep(values: seq<(string, string)>, i: nat)
    requires i < |values|
    ensures MemberLines(values[..i + 1]) == MemberLines(values[..i]) + [MemberLine(values[i].0, values[i].1)]
  {
    assert values[..i + 1][..i] == values[..i];
  }

  /** The enumeration class: its header, then one member line per literal, in order. */
  function EnumLines(name: string, values: seq<(string, string)>): seq<string> {
    EnumHeader(name) + MemberLines(values)
  }

  /** `generate_enum_code`. */
  method GenerateEnumCode(name: string, values: seq<(string, string)>) returns (code: string)
    ensures code == Join(EnumLines(name, values), "\n")
  {
    var lines := ["class " + name + "(str, Enum):"];
    lines := lines + ["    \"\"\"" + name + " enum values.\"\"\""];
    lines := lines + [""];
    assert lines == EnumHeader(name);
    ghost var head := lines;
    for i := 0 to |values|
      invariant lines == head + MemberLines(values[..i])
    {
      var (value, description) := values[i];
      lines := lines + ["    " + MemberName(value) + " = \"" + value + "\"  # " + description];
      MemberLinesStep(values, i);
    }
    assert values[..|values|] == values;
    code := Join(lines, "\n");
  }

  // ---------------------------------------------------------------------------
  // `generate_model_code`

  const ConfigLine := "    model_config = ConfigDict(extra='allow')"

  /** The docstring: the object's description when it has a non-empty one, else a default. */
  function ModelDoc(o: ObjectDef): string {
    if o.description.Some? && o.description.value != "" then "    \"\"\"" + o.description.value + "\"\"\""
    else "    \"\"\"" + o.name + " model from Adcom specification.\"\"\""
  }

  /** A description with each double quote turned into a single quote. */
  function Sanitized(d: string): string {
    Replace(d, "\"", "'")
  }

  /** Sanitising keeps the length and every other character, and leaves no double quote. */
  lemma SanitizedHasNoQuote(d: string)
    ensures |Sanitized(d)| == |d| && '"' !in Sanitized(d)
    ensures forall i :: 0 <= i < |d| ==> Sanitized(d)[i] == (if d[i] == '"' then '\'' else d[i])
  {
    ReplaceChar(d, '"', '\'');
  }

  /** The annotation and the default: `Optional[T]` and ` = None` when optional or not required. */
  function AdcomFieldDecl(f: FieldDef, known: seq<string>): (string, string) {
    var m := AdcomMapType(f.typeRaw, known);
    if m.optional || !f.required then ("Optional[" + m.pyType + "]", " = None") else (m.pyType, "")
  }

  /** A field is declared `Optional[…] = None` exactly when it maps to optional or is not required. */
  lemma AdcomFieldDeclOptional(f: FieldDef, known: seq<string>)
    ensures var (annotation, default) := AdcomFieldDecl(f, known);
      var opt := AdcomMapType(f.typeRaw, known).optional || !f.required;
      && (StartsWith(annotation, "Optional[") <==> opt)
      && (default == " = None" <==> opt)
      && (default == "" <==> !opt)
  {
    var t := AdcomMapType(f.typeRaw, known).pyType;
    AdcomMapTypeShape(f.typeRaw, known);
    AdcomTypeIsNotOptional(t, known);
    var o := "Optional[" + t + "]";
    assert o[..9] == "Optional[";
  }

  function AdcomFieldText(attribute: string, annotation: string, default: string, description: string): string {
    "    " + attribute + ": " + annotation + default + "  # " + description
  }

  function AdcomFieldLine(f: FieldDef, known: seq<string>): string {
    AdcomFieldText(f.attribute, AdcomFieldDecl(f, known).0, AdcomFieldDecl(f, known).1, Sanitized(f.description))
  }

  function AdcomFieldLines(fields: seq<FieldDef>, known: seq<string>): (r: seq<string>)
    ensures |r| == |fields| && forall k :: 0 <= k < |fields| ==> r[k] == AdcomFieldLine(fields[k], known)
  {
    seq(|fields|, k requires 0 <= k < |fields| => AdcomFieldLine(fields[k], known))
  }

  lemma AdcomFieldLinesStep(fields: seq<FieldDef>, known: seq<string>, i: nat)
    requires i < |fields|
    ensures AdcomFieldLines(fields[..i + 1], known) == AdcomFieldLines(fields[..i], known) + [AdcomFieldLine(fields[i], known)]
  {
    assert fields[..i + 1][..i] == fields[..i];
  }

  function AdcomModelHeader(o: ObjectDef): seq<string> {
    ["class " + o.name + "(BaseModel):", ModelDoc(o), "", ConfigLine, ""]
  }

  /** The class: its header, then `pass` for no fields or one line per field in order. */
  function AdcomModelLines(o: ObjectDef, known: seq<string>): seq<string> {
    AdcomModelHeader(o) + (if o.fields == [] then ["    pass"] else AdcomFieldLines(o.fields, known))
  }

  /**
   * The class line and docstring come first; a class without fields has the single body line
   * `pass`, otherwise one declaration per field follows the header, in field order.
   */
  lemma AdcomModelLinesShape(o: ObjectDef, known: seq<string>)
    ensures var lines := AdcomModelLines(o, known);
      && |lines| >= 6 && lines[0] == "class " + o.name + "(BaseModel):" && lines[1] == ModelDoc(o)
      && (o.fields == [] <==> lines[5] == "    pass")
      && (o.fields == [] ==> |lines| == 6)
      && (o.fields != [] ==>
            |lines| == 5 + |o.fields| && forall k :: 0 <= k < |o.fields| ==> lines[5 + k] == AdcomFieldLine(o.fields[k], known))
  {
    if o.fields != [] {
      var f := o.fields[0];
      var d := AdcomFieldDecl(f, known);
      assert AdcomModelLines(o, known)[5] == AdcomFieldText(f.attribute, d.0, d.1, Sanitized(f.description));
      assert |AdcomFieldText(f.attribute, d.0, d.1, Sanitized(f.description))| >= 10;
    }
  }

  /** `generate_model_code`; the set of enumeration names it also receives is never read. */
  method GenerateAdcomModelCode(o: ObjectDef, known: seq<string>) returns (code: string)
    ensures code == Join(AdcomModelLines(o, known), "\n")
  {
    var lines := ["class " + o.name + "(BaseModel):"];
    if o.description.Some? && o.description.value != "" {
      lines := lines + ["    \"\"\"" + o.description.value + "\"\"\""];
    } else {
      lines := lines + ["    \"\"\"" + o.name + " model from Adcom specification.\"\"\""];
    }
    lines := lines + ["", ConfigLine, ""];
    assert lines == AdcomModelHeader(o);
    if |o.fields| == 0 {
      lines := lines + ["    pass"];
    } else {
      lines := AppendAdcomFieldLines(lines, o.fields, known);
    }
    code := Join(lines, "\n");
  }

  /** The loop appending one declaration per field. */
  method AppendAdcomFieldLines(head: seq<string>, fields: seq<FieldDef>, known: seq<string>) returns (lines: seq<string>)
    ensures lines == head + AdcomFieldLines(fields, known)
  {
    lines := head;
    for i := 0 to |fields|
      invariant lines == head + AdcomFieldLines(fields[..i], known)
    {
      var field := fields[i];
      var m := AdcomMapType(field.typeRaw, known);
      var annotation, default;
      if m.optional || !field.required {
        annotation, default := "Optional[" + m.pyType + "]", " = None";
      } else {
        annotation, default := m.pyType, "";
      }
      assert (annotation, default) == AdcomFieldDecl(field, known);
      var desc := Replace(field.description, "\"", "'");
      lines := lines + [AdcomFieldText(field.attribute, annotation, default, desc)];
      AdcomFieldLinesStep(fields, known, i);
    }
    assert fields[..|fields|] == fields;
  }

  // ---------------------------------------------------------------------------
  // `generate_file`

  /** `"# " + "=" * 78` */
  function Rule(): string {
    "# " + seq(78, _ => '=')
  }

  /** The module docstring (with the generation time) and the imports. */
  function FileHeader(generated: string): (r: seq<string>)
    ensures |r| == 11
  {
    ["\"\"\"Auto-generated Pydantic models for Adcom v1.0 specification.", "",
     "This file is auto-generated. Do not edit manually.", "Generated: " + generated + "Z", "\"\"\"", "",
     "from typing import Optional, List, Dict, Any", "from enum import Enum",
     "from pydantic import BaseModel, Field, ConfigDict", "", ""]
  }

  /** Each text followed by two empty lines. */
  function Blocks(texts: seq<string>): (r: seq<string>)
    ensures |r| == 3 * |texts|
  {
    if texts == [] then [] else Blocks(texts[..|texts| - 1]) + [texts[|texts| - 1], "", ""]
  }

  lemma {:induction false} BlocksAt(texts: seq<string>)
    ensures forall k :: 0 <= k < |texts| ==>
      Blocks(texts)[3 * k] == texts[k] && Blocks(texts)[3 * k + 1] == "" && Blocks(texts)[3 * k + 2] == ""
    decreases |texts|
  {
    if texts != [] {
      var n := |texts| - 1;
      BlocksAt(texts[..n]);
      forall k | 0 <= k < n ensures texts[..n][k] == texts[k] {
      }
    }
  }

  lemma BlocksStep(texts: seq<string>, i: nat)
    requires i < |texts|
    ensures Blocks(texts[..i + 1]) == Blocks(texts[..i]) + [texts[i], "", ""]
  {
    assert texts[..i + 1][..i] == texts[..i];
  }

  /** The code of each enumeration, in the order of `names`. */
  function EnumCodes(names: seq<string>, enums: map<string, seq<(string, string)>>): (r: seq<string>)
    requires forall k :: 0 <= k < |names| ==> names[k] in enums
    ensures |r| == |names|
  {
    seq(|names|, k requires 0 <= k < |names| => Join(EnumLines(names[k], enums[names[k]]), "\n"))
  }

  /** A titled section: a rule, the title, a rule, an empty line, then the blocks. */
  function SectionLines(title: string, codes: seq<string>): seq<string> {
    [Rule(), title, Rule(), ""] + Blocks(codes)
  }

  /** Block `k` of a section sits at line `4 + 3 * k`. */
  lemma SectionAt(title: string, codes: seq<string>)
    ensures |SectionLines(title, codes)| == 4 + 3 * |codes|
    ensures forall k :: 0 <= k < |codes| ==> SectionLines(title, codes)[4 + 3 * k] == codes[k]
  {
    BlocksAt(codes);
  }

  /** The enumeration section: present only when there are enumerations, sorted by name. */
  function EnumSection(enums: map<string, seq<(string, string)>>): seq<string> {
    if |enums| == 0 then [] else SectionLines("# Enums", EnumCodes(Sorted(enums.Keys), enums))
  }

  /** The text of every model, in input order. */
  function ModelCodes(objects: seq<ObjectDef>, known: seq<string>): (r: seq<string>)
    ensures |r| == |objects|
  {
    seq(|objects|, k requires 0 <= k < |objects| => Join(AdcomModelLines(objects[k], known), "\n"))
  }

  function RebuildLines(objects: seq<ObjectDef>): (r: seq<string>)
    ensures |r| == |objects| && forall k :: 0 <= k < |objects| ==> r[k] == objects[k].name + ".model_rebuild()"
  {
    seq(|objects|, k requires 0 <= k < |objects| => objects[k].name + ".model_rebuild()")
  }

  /** The models, then the rebuild lines. */
  function ModelSection(objects: seq<ObjectDef>, known: seq<string>): seq<string> {
    SectionLines("# Models", ModelCodes(objects, known)) + RebuildSection(objects)
  }

  function RebuildSection(objects: seq<ObjectDef>): (r: seq<string>)
    ensures |r| == |objects| + 2 && forall i :: 0 <= i < |objects| ==> r[1 + i] == objects[i].name + ".model_rebuild()"
  {
    ["# Rebuild models to resolve forward references"] + RebuildLines(objects) + [""]
  }

  function FileLines(objects: seq<ObjectDef>, enums: map<string, seq<(string, string)>>, known: seq<string>,
    generated: string): seq<string>
  {
    FileHeader(generated) + EnumSection(enums) + ModelSection(objects, known)
  }

  function Names(objects: seq<ObjectDef>): (r: seq<string>)
    ensures |r| == |objects| && forall k :: 0 <= k < |objects| ==> r[k] == objects[k].name
  {
    seq(|objects|, k requires 0 <= k < |objects| => objects[k].name)
  }

  /** `known` lists the set `{obj.name for obj in objects}` in some iteration order, each name once. */
  ghost predicate ListsNames(known: seq<string>, objects: seq<ObjectDef>) {
    && (forall n :: n in known <==> n in Names(objects))
    && forall i, j :: 0 <= i < j < |known| ==> known[i] != known[j]
  }

  /** A type that is well formed over some names is well formed over any names that include them. */
  lemma {:induction false} AdcomTypeWider(t: string, known: seq<string>, names: seq<string>)
    requires AdcomType(t, known) && forall n :: n in known ==> n in names
    ensures AdcomType(t, names)
    decreases |t|
  {
    if t !in AdcomPrimitiveNames && !(exists n :: n in known && t == Quoted(n)) {
      AdcomTypeWider(t[5..|t| - 1], known, names);
    }
  }

  /**
   * Every name a field annotation quotes is the name of an object of the same file, so the
   * `model_rebuild()` calls at its end can resolve each forward reference.
   */
  lemma ForwardRefsResolve(spec: string, known: seq<string>, objects: seq<ObjectDef>)
    requires ListsNames(known, objects)
    ensures AdcomType(AdcomMapType(spec, known).pyType, Names(objects))
  {
    AdcomMapTypeShape(spec, known);
    AdcomTypeWider(AdcomMapType(spec, known).pyType, known, Names(objects));
  }

  /** Enumeration `k` in name order sits at line `4 + 3 * k` of its section. */
  lemma EnumSectionAt(enums: map<string, seq<(string, string)>>)
    ensures var keys := Sorted(enums.Keys);
      && |EnumSection(enums)| == (if |enums| == 0 then 0 else 4 + 3 * |enums|)
      && forall k :: 0 <= k < |keys| ==> EnumSection(enums)[4 + 3 * k] == EnumCodes(keys, enums)[k]
  {
    var keys := Sorted(enums.Keys);
    assert |enums.Keys| == |enums|;
    if |enums| > 0 {
      SectionAt("# Enums", EnumCodes(keys, enums));
    }
  }

  /** Model `i` sits at line `4 + 3 * i` of its section, its rebuild line after all the models. */
  lemma ModelSectionAt(objects: seq<ObjectDef>, known: seq<string>)
    ensures var section, n := ModelSection(objects, known), |objects|;
      && |section| == 4 + 3 * n + 1 + n + 1
      && (forall i :: 0 <= i < n ==> section[4 + 3 * i] == ModelCodes(objects, known)[i])
      && (forall i :: 0 <= i < n ==> section[5 + 3 * n + i] == objects[i].name + ".model_rebuild()")
  {
    var codes := ModelCodes(objects, known);
    var top := SectionLines("# Models", codes);
    SectionAt("# Models", codes);
    assert ModelSection(objects, known) == top + RebuildSection(objects);
  }

  /** The enumerations keep their places whatever precedes and follows their section. */
  lemma EnumsPlaced(h: seq<string>, enums: map<string, seq<(string, string)>>, m: seq<string>)
    ensures var lines, keys := h + EnumSection(enums) + m, Sorted(enums.Keys);
      && |EnumSection(enums)| == (if |enums| == 0 then 0 else 4 + 3 * |enums|)
      && forall k :: 0 <= k < |keys| ==> lines[|h| + 4 + 3 * k] == EnumCodes(keys, enums)[k]
  {
    assert |enums.Keys| == |enums|;
    EnumSectionAt(enums);
  }

  /** The models and rebuild lines keep their places whatever precedes their section. */
  lemma ModelsPlaced(p: seq<string>, objects: seq<ObjectDef>, known: seq<string>)
    ensures var lines, n := p + ModelSection(objects, known), |objects|;
      && |lines| == |p| + 4 + 3 * n + 1 + n + 1
      && (forall i :: 0 <= i < n ==> lines[|p| + 4 + 3 * i] == ModelCodes(objects, known)[i])
      && (forall i :: 0 <= i < n ==> lines[|p| + 5 + 3 * n + i] == objects[i].name + ".model_rebuild()")
  {
    ModelSectionAt(objects, known);
  }

  /**
   * The module: after the 11 header lines come the enumerations, sorted by name, each followed by
   * two empty lines; then every model in input order, likewise; then one `model_rebuild` line per
   * object in the same order (where the models sit is `ModelsLayout`).
   */
  lemma FileLayout(objects: seq<ObjectDef>, enums: map<string, seq<(string, string)>>, known: seq<string>,
    generated: string)
    requires ListsNames(known, objects)
    ensures var lines, keys := FileLines(objects, enums, known, generated), Sorted(enums.Keys);
      var m := 11 + (if |enums| == 0 then 0 else 4 + 3 * |enums|);
      && StrictlySorted(keys) && (forall k :: k in keys <==> k in enums)
      && |lines| == m + 4 + 3 * |objects| + 1 + |objects| + 1
      && (forall k :: 0 <= k < |keys| ==> lines[15 + 3 * k] == EnumCodes(keys, enums)[k])
  {
    var h := FileHeader(generated);
    EnumsPlaced(h, enums, ModelSection(objects, known));
    ModelsPlaced(h + EnumSection(enums), objects, known);
  }

  /**
   * The model section, whose layout `ModelSectionAt` gives, starts right after the header and the
   * enumerations and runs to the end of the module.
   */
  lemma ModelsLayout(objects: seq<ObjectDef>, enums: map<string, seq<(string, string)>>, known: seq<string>,
    generated: string)
    requires ListsNames(known, objects)
    ensures var lines, m := FileLines(objects, enums, known, generated), 11 + (if |enums| == 0 then 0 else 4 + 3 * |enums|);
      m <= |lines| && lines[m..] == ModelSection(objects, known)
  {
    var h, e := FileHeader(generated), EnumSection(enums);
    EnumsPlaced(h, enums, []);
    assert FileLines(objects, enums, known, generated) == (h + e) + ModelSection(objects, known);
  }

  /** `generate_file`, with the generation time as a parameter. */
  method GenerateFile(objects: seq<ObjectDef>, enums: map<string, seq<(string, string)>>, known: seq<string>,
    generated: string) returns (content: string)
    requires ListsNames(known, objects)
    ensures content == Join(FileLines(objects, enums, known, generated), "\n")
  {
    var lines := FileHeader(generated);
    var enumSection := EmitEnumSection(enums);
    var modelSection := EmitModelSection(objects, known);
    lines := lines + enumSection + modelSection;
    content := Join(lines, "\n");
  }

  /** The enumeration part of `generate_file`. */
  method EmitEnumSection(enums: map<string, seq<(string, string)>>) returns (lines: seq<string>)
    ensures lines == EnumSection(enums)
  {
    lines := [];
    if |enums| > 0 {
      var keys := Sorted(enums.Keys);
      ghost var codes := EnumCodes(keys, enums);
      lines := EmitBlocksHead("# Enums");
      for i := 0 to |keys|
        invariant lines == SectionLines("# Enums", codes[..i])
      {
        var code := GenerateEnumCode(keys[i], enums[keys[i]]);
        lines := lines + [code, "", ""];
        SectionStep("# Enums", codes, i);
      }
      assert codes[..|keys|] == codes;
    }
  }

  lemma SectionStep(title: string, codes: seq<string>, i: nat)
    requires i < |codes|
    ensures SectionLines(title, codes[..i + 1]) == SectionLines(title, codes[..i]) + [codes[i], "", ""]
  {
    BlocksStep(codes, i);
  }

  /** The rule, the title, the rule and an empty line that open a section. */
  method EmitBlocksHead(title: string) returns (lines: seq<string>)
    ensures lines == SectionLines(title, [])
  {
    var rule := "# " + seq(78, _ => '=');
    lines := [rule, title, rule, ""];
  }

  /** The model part of `generate_file`: the models, then the rebuild lines. */
  method EmitModelSection(objects: seq<ObjectDef>, known: seq<string>) returns (lines: seq<string>)
    requires ListsNames(known, objects)
    ensures lines == ModelSection(objects, known)
  {
    ghost var models := ModelCodes(objects, known);
    lines := EmitBlocksHead("# Models");
    for i := 0 to |objects|
      invariant lines == SectionLines("# Models", models[..i])
    {
      var code := GenerateAdcomModelCode(objects[i], known);
      lines := lines + [code, "", ""];
      SectionStep("# Models", models, i);
    }
    assert models[..|objects|] == models;
    var rebuild := EmitRebuildSection(objects);
    lines := lines + rebuild;
  }

  /** The rebuild lines that close `generate_file`. */
  method EmitRebuildSection(objects: seq<ObjectDef>) returns (lines: seq<string>)
    ensures lines == RebuildSection(objects)
  {
    lines := ["# Rebuild models to resolve forward references"];
    for i := 0 to |objects|
      invariant lines == ["# Rebuild models to resolve forward references"] + RebuildLines(objects[..i])
    {
      lines := lines + [objects[i].name + ".model_rebuild()"];
      assert RebuildLines(objects[..i + 1]) == RebuildLines(objects[..i]) + [objects[i].name + ".model_rebuild()"];
    }
    assert objects[..|objects|] == objects;
    lines := lines + [""];
  }
}
