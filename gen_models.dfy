/**
 * The OpenDirect model generator: `TypeMapping.map_type`, which turns a specification type
 * into a Python type with an optional flag and an enumeration flag, and
 * `PydanticGenerator.generate_model_code`, which writes one Pydantic class.
 */
module GenModels {
  import opened Strings
  import opened Wrappers
  import opened Ordering

  // ---------------------------------------------------------------------------
  // First-match search over an ordered table (a Python dict iterated in insertion order)

  /** The index of the first entry whose key occurs in `t`. */
  function FirstKeyIn(table: seq<(string, string)>, t: string): (r: Option<nat>)
    ensures r.Some? ==> r.value < |table| && Contains(t, table[r.value].0)
    ensures r.Some? ==> forall j :: 0 <= j < r.value ==> !Contains(t, table[j].0)
    ensures r.None? ==> forall j :: 0 <= j < |table| ==> !Contains(t, table[j].0)
  {
    if table == [] then None
    else if Contains(t, table[0].0) then Some(0)
    else
      match FirstKeyIn(table[1..], t)
      case Some(i) => Some(i + 1)
      case None => None
  }

  /** The value of the first entry whose key occurs in `t`, or `fallback`. */
  function Lookup(table: seq<(string, string)>, t: string, fallback: string): string {
    match FirstKeyIn(table, t)
    case Some(i) => table[i].1
    case None => fallback
  }

  /** Nothing is found when no key occurs. */
  lemma NoKeyFound(table: seq<(string, string)>, t: string)
    requires forall j :: 0 <= j < |table| ==> !Contains(t, table[j].0)
    ensures FirstKeyIn(table, t).None?
  {
  }

  /** Every result of a lookup is a value of the table or the fallback. */
  lemma LookupIsValue(table: seq<(string, string)>, t: string, fallback: string)
    ensures Lookup(table, t, fallback) == fallback ||
      exists i :: 0 <= i < |table| && Lookup(table, t, fallback) == table[i].1
  {
  }

  // ---------------------------------------------------------------------------
  // `map_type`

  /** What `map_type` reports. */
  datatype TypeInfo = TypeInfo(pyType: string, optional: bool, isEnum: bool)

  /** The primitive table, in the order it is searched. */
  const PrimitiveTable: seq<(string, string)> := [
    ("string", "str"), ("integer", "int"), ("int", "int"), ("number", "float"),
    ("float", "float"), ("double", "float"), ("boolean", "bool"), ("bool", "bool"),
    ("datetime", "datetime"), ("date-time", "datetime"), ("date", "date"), ("uuid", "str")]

  const PrimitiveNames: set<string> := {"str", "int", "float", "bool", "datetime", "date"}

  function Primitive(t: string): string {
    Lookup(PrimitiveTable, Lower(t), "str")
  }

  /** The field is optional when "optional" occurs in the stripped type in any case. */
  predicate IsOptional(spec: string) {
    Contains(Lower(Strip(spec)), "optional")
  }

  /** The text the type is read from: stripped, each lower-case "optional" removed, stripped again. */
  function Cleaned(spec: string): string {
    Strip(Replace(Strip(spec), "optional", ""))
  }

  predicate IsArrayType(t: string) {
    EndsWith(t, "[]") || Contains(Lower(t), "array")
  }

  function ListOf(t: string): string {
    "List[" + t + "]"
  }

  /** The element type as written: every "[]" and every lower-case "array" removed, then stripped. */
  function ArrayBaseAsWritten(t: string): string {
    Strip(Replace(Replace(t, "[]", ""), "array", ""))
  }

  /**
   * `map_type` as written. The array test looks for "array" in any case but only the lower-case
   * word is removed, so for a type such as "Array" the recursive call receives its own argument
   * again and never returns: that is the None result.
   */
  function MapTypeAsWritten(spec: string): (r: Option<TypeInfo>)
    decreases |spec|
  {
    var t := Cleaned(spec);
    if StartsWith(t, "enum") then Some(TypeInfo("str", IsOptional(spec), true))
    else if IsArrayType(t) then
      var base := ArrayBaseAsWritten(t);
      if |base| < |spec| then
        match MapTypeAsWritten(base)
        case Some(inner) => Some(TypeInfo(ListOf(inner.pyType), IsOptional(spec), false))
        case None => None
      else None
    else Some(TypeInfo(Primitive(t), IsOptional(spec), false))
  }

  /**
   * The None case of `MapTypeAsWritten` is exactly a call that repeats itself: when the element
   * type is not shorter than the argument, it is the argument.
   */
  lemma AsWrittenRepeats(spec: string)
    requires IsArrayType(Cleaned(spec)) && |ArrayBaseAsWritten(Cleaned(spec))| >= |spec|
    ensures ArrayBaseAsWritten(Cleaned(spec)) == spec
  {
    var s0 := Strip(spec);
    var s1 := Replace(s0, "optional", "");
    var t := Strip(s1);
    var u := Replace(t, "[]", "");
    var v := Replace(u, "array", "");
    StripShrinks(spec);
    RemoveShrinks(s0, "optional");
    StripShrinks(s1);
    RemoveShrinks(t, "[]");
    RemoveShrinks(u, "array");
    StripShrinks(v);
  }

  /** `s` is the word "Array", with a capital A. */
  predicate SpelledArray(s: string) {
    |s| == 5 && s[0] == 'A' && s[1] == 'r' && s[2] == 'r' && s[3] == 'a' && s[4] == 'y'
  }

  /** A type spelled "Array" makes the original call itself again with the same argument. */
  lemma CapitalArrayDiverges(spec: string)
    requires SpelledArray(spec)
    ensures MapTypeAsWritten(spec).None?
  {
    CapitalArrayIsArray(spec);
    CapitalArrayBaseAsWritten(spec);
    RepeatingCallIsNone(spec);
  }

  /** The corrected mapping reads "Array" as a list of the default element type. */
  lemma CapitalArrayIsListOfStr(spec: string)
    requires SpelledArray(spec)
    ensures MapType(spec) == TypeInfo(ListOf("str"), false, false)
  {
    CapitalArrayIsArray(spec);
    CapitalArrayBaseAsWritten(spec);
    CapitalArrayBase(spec);
    EmptyTypeIsStr(ArrayBase(spec));
  }

  lemma CapitalArrayIsArray(s: string)
    requires SpelledArray(s)
    ensures Cleaned(s) == s && !StartsWith(s, "enum") && IsArrayType(s) && !IsOptional(s)
  {
    assert Trimmed(s);
    TrimmedStripIsIdentity(s);
    assert Lower(s)[0..5] == "array";
    assert HasAt(Lower(s), 0, "array");
    ContainsIff(Lower(s), "array", 0);
    LongerNotContained(Lower(s), "optional");
  }

  lemma CapitalArrayBaseAsWritten(s: string)
    requires SpelledArray(s)
    ensures ArrayBaseAsWritten(s) == s
  {
    NoBracketsInArray(s);
    SameLengthContained(s, "array");
    RemoveAbsent(s, "array");
    assert Trimmed(s);
    TrimmedStripIsIdentity(s);
  }

  lemma NoBracketsInArray(s: string)
    requires SpelledArray(s)
    ensures Replace(s, "[]", "") == s
  {
    if Contains(s, "[]") {
      ContainsFirstChar(s, "[]");
    }
    RemoveAbsent(s, "[]");
  }

  lemma CapitalArrayBase(s: string)
    requires SpelledArray(s)
    ensures |ArrayBase(s)| == 0
  {
    NoBracketsInArray(s);
    assert s[..5] == s;
    assert Lower(s) == "array";
    assert RemoveFolded(s[5..], "array") == "";
  }

  /** The empty type is a required `str`. */
  lemma EmptyTypeIsStr(t: string)
    requires |t| == 0
    ensures MapType(t) == TypeInfo("str", false, false)
  {
    EmptyIsPlain(t);
    NothingInEmpty(PrimitiveTable, Lower(t));
    PlainIsPrimitive(t);
  }

  lemma EmptyIsPlain(t: string)
    requires |t| == 0
    ensures Cleaned(t) == t && !StartsWith(t, "enum") && !IsArrayType(t) && !IsOptional(t)
  {
    LongerNotContained(Lower(t), "array");
    LongerNotContained(Lower(Strip(t)), "optional");
  }

  /** No key of a table of non-empty keys occurs in the empty string. */
  lemma NothingInEmpty(table: seq<(string, string)>, t: string)
    requires |t| == 0 && forall j :: 0 <= j < |table| ==> table[j].0 != []
    ensures FirstKeyIn(table, t).None?
  {
    forall j | 0 <= j < |table| ensures !Contains(t, table[j].0) {
      LongerNotContained(t, table[j].0);
    }
    NoKeyFound(table, t);
  }

  /** The original returns nothing exactly when the array branch would call it on its own argument. */
  lemma RepeatingCallIsNone(spec: string)
    requires !StartsWith(Cleaned(spec), "enum") && IsArrayType(Cleaned(spec))
    requires ArrayBaseAsWritten(Cleaned(spec)) == spec
    ensures MapTypeAsWritten(spec).None?
  {
  }

  /** `s` with every occurrence of the lower-case `pat` removed, matched in any case. */
  function RemoveFolded(s: string, pat: string): (r: string)
    requires |pat| > 0
    ensures |r| <= |s|
    ensures Contains(Lower(s), pat) ==> |r| < |s|
    decreases |s|
  {
    if |s| < |pat| then
      ContainsIff(Lower(s), pat, 0);
      s
    else if Lower(s[..|pat|]) == pat then
      assert HasAt(Lower(s), 0, pat) by {
        assert Lower(s)[0..|pat|] == Lower(s[..|pat|]);
      }
      RemoveFolded(s[|pat|..], pat)
    else
      assert !HasAt(Lower(s), 0, pat) by {
        assert Lower(s)[0..|pat|] == Lower(s[..|pat|]);
      }
      assert Lower(s)[1..] == Lower(s[1..]);
      [s[0]] + RemoveFolded(s[1..], pat)
  }

  /** Without capital letters, removing in any case is removing the lower-case pattern. */
  lemma {:induction false} RemoveFoldedOfLower(s: string, pat: string)
    requires |pat| > 0 && forall c :: c in s ==> !IsUpperLetter(c)
    ensures RemoveFolded(s, pat) == Replace(s, pat, "")
    decreases |s|
  {
    if |s| >= |pat| {
      LowerOfLower(s[..|pat|]);
      if s[..|pat|] == pat {
        RemoveFoldedOfLower(s[|pat|..], pat);
      } else {
        RemoveFoldedOfLower(s[1..], pat);
      }
    }
  }

  /** The element type with "[]" removed, then "array" removed in any case, then stripped. */
  function ArrayBase(t: string): string {
    Strip(RemoveFolded(Replace(t, "[]", ""), "array"))
  }

  /** The element type with "array" removed in any case is always shorter than the argument. */
  lemma ArrayBaseShrinks(spec: string)
    requires IsArrayType(Cleaned(spec))
    ensures |ArrayBase(Cleaned(spec))| < |spec|
  {
    CleanedShrinks(spec);
    ArrayBaseOfArray(Cleaned(spec));
  }

  lemma CleanedShrinks(spec: string)
    ensures |Cleaned(spec)| <= |spec|
  {
    var s0 := Strip(spec);
    StripShrinks(spec);
    RemoveShrinks(s0, "optional");
    StripShrinks(Replace(s0, "optional", ""));
  }

  lemma ArrayBaseOfArray(t: string)
    requires IsArrayType(t)
    ensures |ArrayBase(t)| < |t|
  {
    var u := Replace(t, "[]", "");
    var v := RemoveFolded(u, "array");
    RemoveShrinks(t, "[]");
    StripShrinks(v);
    if Contains(t, "[]") {
      assert |u| < |t|;
    } else {
      if EndsWith(t, "[]") {
        assert HasAt(t, |t| - 2, "[]");
        ContainsIff(t, "[]", |t| - 2);
        assert false;
      }
      RemoveAbsent(t, "[]");
      assert Contains(Lower(u), "array");
    }
  }

  /**
   * `map_type`, corrected: the element type as written wherever that call is on a shorter type
   * (every call on which the original returns), and "array" removed in any case where the original
   * would call itself again with its own argument. Total, and the rest of the model uses it.
   */
  function MapType(spec: string): (r: TypeInfo)
    decreases |spec|
  {
    var t := Cleaned(spec);
    if StartsWith(t, "enum") then TypeInfo("str", IsOptional(spec), true)
    else if IsArrayType(t) then
      var base := ArrayBaseAsWritten(t);
      if |base| < |spec| then TypeInfo(ListOf(MapType(base).pyType), IsOptional(spec), false)
      else
        ArrayBaseShrinks(spec);
        TypeInfo(ListOf(MapType(ArrayBase(t)).pyType), IsOptional(spec), false)
    else TypeInfo(Primitive(t), IsOptional(spec), false)
  }

  /** Wherever the original returns, it returns what the corrected mapping does. */
  lemma {:induction false} AsWrittenAgrees(spec: string)
    ensures MapTypeAsWritten(spec).Some? ==> MapTypeAsWritten(spec) == Some(MapType(spec))
    decreases |spec|
  {
    var t := Cleaned(spec);
    if !StartsWith(t, "enum") && IsArrayType(t) {
      var base := ArrayBaseAsWritten(t);
      if |base| < |spec| {
        AsWrittenAgrees(base);
      }
    }
  }

  predicate NoCapitals(s: string) {
    forall c :: c in s ==> !IsUpperLetter(c)
  }

  /** On types written without capital letters the original ends, and agrees with the correction. */
  lemma {:induction false} AsWrittenAgreesWithoutCapitals(spec: string)
    requires NoCapitals(spec)
    ensures MapTypeAsWritten(spec) == Some(MapType(spec))
    decreases |spec|
  {
    var t := Cleaned(spec);
    if !StartsWith(t, "enum") && IsArrayType(t) {
      var s0 := Strip(spec);
      var s1 := Replace(s0, "optional", "");
      var u := Replace(t, "[]", "");
      StripShrinks(spec);
      forall c | c in s1 ensures c in s0 {
        RemoveKeeps(s0, "optional", c);
      }
      StripShrinks(s1);
      forall c | c in u ensures c in t {
        RemoveKeeps(t, "[]", c);
      }
      RemoveFoldedOfLower(u, "array");
      var base := ArrayBase(t);
      assert base == ArrayBaseAsWritten(t);
      ArrayBaseShrinks(spec);
      forall c | c in Replace(u, "array", "") ensures c in u {
        RemoveKeeps(u, "array", c);
      }
      StripShrinks(Replace(u, "array", ""));
      AsWrittenAgreesWithoutCapitals(base);
    }
  }

  /** A Python type `map_type` can produce: a primitive name wrapped in any number of `List[…]`. */
  predicate PythonType(t: string)
    decreases |t|
  {
    t in PrimitiveNames || (|t| > 6 && t[..5] == "List[" && t[|t| - 1] == ']' && PythonType(t[5..|t| - 1]))
  }

  lemma ListOfIsPythonType(inner: string)
    requires PythonType(inner)
    ensures PythonType(ListOf(inner))
  {
    var l := ListOf(inner);
    assert l[..5] == "List[" && l[5..|l| - 1] == inner;
  }

  lemma PrimitiveIsName(t: string)
    ensures Primitive(t) in PrimitiveNames
  {
    var r := FirstKeyIn(PrimitiveTable, Lower(t));
    if r.Some? {
      var i := r.value;
      assert PrimitiveTable[i].1 in PrimitiveNames;
    }
  }

  /** Every mapped type is a primitive name inside zero or more `List[…]`; an enumeration maps to `str`. */
  lemma {:induction false} MapTypeIsPythonType(spec: string)
    ensures PythonType(MapType(spec).pyType)
    ensures MapType(spec).isEnum ==> MapType(spec).pyType == "str"
    decreases |spec|
  {
    var t := Cleaned(spec);
    if StartsWith(t, "enum") {
    } else if IsArrayType(t) {
      var base := ArrayBaseAsWritten(t);
      if |base| >= |spec| {
        ArrayBaseShrinks(spec);
        base := ArrayBase(t);
      }
      MapTypeIsPythonType(base);
      ListOfIsPythonType(MapType(base).pyType);
    } else {
      PrimitiveIsName(t);
    }
  }

  /** Optional exactly when "optional" occurs in any case; an enumeration exactly when the cleaned type starts with "enum". */
  lemma MapTypeFlags(spec: string)
    ensures MapType(spec).optional <==> Contains(Lower(Strip(spec)), "optional")
    ensures MapType(spec).isEnum <==> StartsWith(Cleaned(spec), "enum")
  {
  }

  /**
   * "datetime" is looked up before "date": a type naming a date-time never maps to `date`.
   */
  lemma DateTimeIsNotDate(t: string)
    requires Contains(Lower(t), "datetime") || Contains(Lower(t), "date-time")
    ensures Primitive(t) != "date"
  {
    var r := FirstKeyIn(PrimitiveTable, Lower(t));
    assert PrimitiveTable[8].0 == "datetime" && PrimitiveTable[9].0 == "date-time";
    assert r.Some? && r.value <= 9;
  }

  // ---------------------------------------------------------------------------
  // `generate_model_code`

  /** A field as the generator receives it: a dictionary in which any key may be missing. */
  datatype FieldSpec = FieldSpec(
    attribute: Option<string>, description: Option<string>, typeText: Option<string>, required: Option<bool>)

  function Get<T>(o: Option<T>, default: T): T {
    match o
    case Some(v) => v
    case None => default
  }

  /** The mapped type of a field; a field without a type is mapped as "str" (`StrIsStr`). */
  function FieldType(f: FieldSpec): TypeInfo {
    match f.typeText
    case Some(spec) => MapType(spec)
    case None => TypeInfo("str", false, false)
  }

  /** `map_type(field.get("type", "str"))`. */
  method MapFieldType(f: FieldSpec) returns (info: TypeInfo)
    ensures info == FieldType(f)
  {
    var spec := Get(f.typeText, "str");
    info := MapType(spec);
    if f.typeText.None? {
      StrIsStr(spec);
    }
  }

  /** "str" maps to a required `str`. */
  lemma StrIsStr(spec: string)
    requires |spec| == 3 && spec[0] == 's' && spec[1] == 't' && spec[2] == 'r'
    ensures MapType(spec) == TypeInfo("str", false, false)
  {
    StrIsCleaned(spec);
    StrIsPlain(spec);
    StrIsPrimitive(spec);
    PlainIsPrimitive(spec);
  }

  lemma StrIsCleaned(spec: string)
    requires |spec| == 3 && spec[0] == 's' && spec[1] == 't' && spec[2] == 'r'
    ensures Cleaned(spec) == spec
  {
    assert Trimmed(spec);
    TrimmedStripIsIdentity(spec);
  }

  lemma StrIsPlain(spec: string)
    requires |spec| == 3 && spec[0] == 's' && spec[1] == 't' && spec[2] == 'r'
    ensures !StartsWith(spec, "enum") && !IsArrayType(spec) && !IsOptional(spec)
  {
    StrIsCleaned(spec);
    LowerOfLower(spec);
    LongerNotContained(spec, "optional");
    LongerNotContained(spec, "array");
  }

  lemma StrIsPrimitive(spec: string)
    requires |spec| == 3 && spec[0] == 's' && spec[1] == 't' && spec[2] == 'r'
    ensures Primitive(spec) == "str"
  {
    LowerOfLower(spec);
    forall j | 0 <= j < |PrimitiveTable| ensures !Contains(spec, PrimitiveTable[j].0) {
      if j == 2 {
        SameLengthContained(spec, "int");
      } else {
        LongerNotContained(spec, PrimitiveTable[j].0);
      }
    }
    NoKeyFound(PrimitiveTable, spec);
  }

  /** A type with nothing to clean, not an enumeration, array or optional, maps to its primitive. */
  lemma PlainIsPrimitive(spec: string)
    requires Cleaned(spec) == spec && !StartsWith(spec, "enum") && !IsArrayType(spec) && !IsOptional(spec)
    ensures MapType(spec) == TypeInfo(Primitive(spec), false, false)
  {
  }

  /** The annotation and the default of a field: `Optional[T]` and `None` only for an optional, non-required field. */
  function FieldDecl(f: FieldSpec): (string, string) {
    var info := FieldType(f);
    if info.optional && !Get(f.required, false) then ("Optional[" + info.pyType + "]", "None")
    else (info.pyType, "...")
  }

  /** The line declaring one field. */
  function FieldText(attribute: string, annotation: string, default: string, description: string): string {
    "    " + attribute + ": " + annotation + " = Field(" + default + ", description=\"" + description + "\")"
  }

  function FieldLine(f: FieldSpec): string {
    FieldText(Get(f.attribute, "field"), FieldDecl(f).0, FieldDecl(f).1, Get(f.description, ""))
  }

  /** A field is declared `Optional[…] = Field(None, …)` exactly when it maps to optional and is not required. */
  lemma FieldDeclOptional(f: FieldSpec)
    ensures StartsWith(FieldDecl(f).0, "Optional[") <==> FieldType(f).optional && !Get(f.required, false)
    ensures FieldDecl(f).1 == "None" <==> FieldType(f).optional && !Get(f.required, false)
    ensures FieldDecl(f).1 == "..." <==> !(FieldType(f).optional && !Get(f.required, false))
    ensures PythonType(FieldDecl(f).0) || FieldDecl(f).0 == "Optional[" + FieldType(f).pyType + "]"
  {
    var t := FieldType(f).pyType;
    FieldTypeIsPythonType(f);
    PythonTypeIsNotOptional(t);
    var o := "Optional[" + t + "]";
    assert o[..9] == "Optional[";
  }

  /** Every field maps to a primitive name inside zero or more `List[…]`. */
  lemma FieldTypeIsPythonType(f: FieldSpec)
    ensures PythonType(FieldType(f).pyType)
  {
    match f.typeText
    case Some(spec) => MapTypeIsPythonType(spec);
    case None => assert "str" in PrimitiveNames;
  }

  /** No type `map_type` produces already reads as `Optional[…]`. */
  lemma PythonTypeIsNotOptional(t: string)
    requires PythonType(t)
    ensures !StartsWith(t, "Optional[")
  {
    assert forall p :: p in PrimitiveNames ==> |p| < 9;
    if |t| >= 9 {
      assert t[..5][0] == t[0] == t[..9][0];
    }
  }

  const PydanticImport := "from pydantic import BaseModel, Field"
  const TypingImport := "from typing import Optional, List"
  const DatetimeImport := "from datetime import datetime"

  predicate DatetimeField(f: FieldSpec) {
    Contains(FieldType(f).pyType, "datetime")
  }

  predicate HasDatetime(fields: seq<FieldSpec>) {
    AnyOf(fields, DatetimeField)
  }

  function ImportSet(hasDatetime: bool): set<string> {
    {PydanticImport, TypingImport} + (if hasDatetime then {DatetimeImport} else {})
  }

  lemma DatetimeFirst()
    ensures Less(DatetimeImport, PydanticImport)
  {
    LessAt(DatetimeImport, PydanticImport, 5);
  }

  lemma PydanticBeforeTyping()
    ensures Less(PydanticImport, TypingImport)
  {
    LessAt(PydanticImport, TypingImport, 5);
  }

  /** The import lines in `sorted` order: the datetime import, when present, comes first. */
  function ImportLines(hasDatetime: bool): seq<string> {
    if hasDatetime then [DatetimeImport, PydanticImport, TypingImport] else [PydanticImport, TypingImport]
  }

  lemma SortedImports(hasDatetime: bool)
    ensures Sorted(ImportSet(hasDatetime)) == ImportLines(hasDatetime)
  {
    if hasDatetime {
      ImportsWithDatetime();
    } else {
      ImportsWithoutDatetime();
    }
  }

  lemma ImportsWithDatetime()
    ensures Sorted(ImportSet(true)) == [DatetimeImport, PydanticImport, TypingImport]
  {
    assert ImportSet(true) == {DatetimeImport, PydanticImport, TypingImport};
    DatetimeFirst();
    PydanticBeforeTyping();
    SortedOfTriple(DatetimeImport, PydanticImport, TypingImport);
  }

  lemma ImportsWithoutDatetime()
    ensures Sorted(ImportSet(false)) == [PydanticImport, TypingImport]
  {
    assert ImportSet(false) == {PydanticImport, TypingImport};
    PydanticBeforeTyping();
    SortedOfPair(PydanticImport, TypingImport);
  }

  function FieldLines(fields: seq<FieldSpec>): (r: seq<string>)
    ensures |r| == |fields| && forall k :: 0 <= k < |fields| ==> r[k] == FieldLine(fields[k])
  {
    seq(|fields|, k requires 0 <= k < |fields| => FieldLine(fields[k]))
  }

  lemma FieldLinesStep(fields: seq<FieldSpec>, i: nat)
    requires i < |fields|
    ensures FieldLines(fields[..i + 1]) == FieldLines(fields[..i]) + [FieldLine(fields[i])]
  {
    assert fields[..i + 1][..i] == fields[..i];
  }

  const ClassDoc := "    \"\"\"Object definition from specification.\"\"\""

  function ClassLine(name: string): string {
    "class " + name + "(BaseModel):"
  }

  function ClassHeader(name: string): seq<string> {
    ["", "", ClassLine(name), ClassDoc, ""]
  }

  /** The lines of a generated class: `pass` alone for no fields, else one line per field. */
  function BodyLines(fields: seq<FieldSpec>): seq<string> {
    if fields == [] then ["    pass"] else FieldLines(fields)
  }

  function ModelLines(name: string, fields: seq<FieldSpec>): seq<string> {
    Sorted(ImportSet(HasDatetime(fields))) + ClassHeader(name) + BodyLines(fields)
  }

  /**
   * The class text: the imports, with the datetime import first exactly when some field's type
   * mentions datetime, the class line, then `pass` for no fields or one line per field in order.
   */
  lemma ModelLinesShape(name: string, fields: seq<FieldSpec>)
    ensures var lines, n := ModelLines(name, fields), (if HasDatetime(fields) then 3 else 2);
      && lines[..n] == ImportLines(HasDatetime(fields))
      && (lines[0] == DatetimeImport <==> HasDatetime(fields))
      && lines[n + 2] == ClassLine(name)
      && (fields == [] ==> |lines| == n + 6 && lines[n + 5] == "    pass")
      && (fields != [] ==>
           && |lines| == n + 5 + |fields|
           && forall k :: 0 <= k < |fields| ==> lines[n + 5 + k] == FieldLine(fields[k]))
  {
    var h := HasDatetime(fields);
    var imports := ImportLines(h);
    SortedImports(h);
    assert ModelLines(name, fields) == imports + ClassHeader(name) + BodyLines(fields);
    Layout(imports, name, fields);
    ImportsDiffer();
  }

  lemma ImportsDiffer()
    ensures DatetimeImport != PydanticImport
  {
    assert DatetimeImport[5] != PydanticImport[5];
  }

  /** Where the class line and the body sit after any list of imports. */
  lemma Layout(imports: seq<string>, name: string, fields: seq<FieldSpec>)
    ensures var lines, n := imports + ClassHeader(name) + BodyLines(fields), |imports|;
      && lines[..n] == imports
      && lines[n + 2] == ClassLine(name)
      && (fields == [] ==> |lines| == n + 6 && lines[n + 5] == "    pass")
      && (fields != [] ==>
           && |lines| == n + 5 + |fields|
           && forall k :: 0 <= k < |fields| ==> lines[n + 5 + k] == FieldLine(fields[k]))
  {
  }

  /** `generate_model_code`: the class text, its lines joined by newlines. */
  method GenerateModelCode(name: string, fields: seq<FieldSpec>) returns (code: string)
    ensures code == Join(ModelLines(name, fields), "\n")
  {
    var imports := {PydanticImport, TypingImport};
    var hasDatetime := NeedsDatetime(fields);
    if hasDatetime {
      imports := imports + {DatetimeImport};
    }
    assert imports == ImportSet(HasDatetime(fields));
    var lines := Sorted(imports);
    lines := lines + ["", "", ClassLine(name), ClassDoc, ""];
    assert lines == Sorted(ImportSet(HasDatetime(fields))) + ClassHeader(name);
    if |fields| == 0 {
      lines := lines + ["    pass"];
    } else {
      lines := AppendFieldLines(lines, fields);
    }
    code := Join(lines, "\n");
  }

  /** The scan for a field whose mapped type mentions datetime. */
  method NeedsDatetime(fields: seq<FieldSpec>) returns (hasDatetime: bool)
    ensures hasDatetime == HasDatetime(fields)
  {
    hasDatetime := false;
    for i := 0 to |fields|
      invariant hasDatetime == HasDatetime(fields[..i])
    {
      var info := MapFieldType(fields[i]);
      AnyOfStep(fields, i, DatetimeField);
      if Contains(info.pyType, "datetime") {
        hasDatetime := true;
      }
    }
    assert fields[..|fields|] == fields;
  }

  /** The loop appending one declaration per field. */
  method AppendFieldLines(head: seq<string>, fields: seq<FieldSpec>) returns (lines: seq<string>)
    ensures lines == head + FieldLines(fields)
  {
    lines := head;
    for i := 0 to |fields|
      invariant lines == head + FieldLines(fields[..i])
    {
      var info := MapFieldType(fields[i]);
      var required := Get(fields[i].required, false);
      var annotation, default;
      if info.optional && !required {
        annotation, default := "Optional[" + info.pyType + "]", "None";
      } else {
        annotation, default := info.pyType, "...";
      }
      assert (annotation, default) == FieldDecl(fields[i]);
      lines := lines + [FieldText(Get(fields[i].attribute, "field"), annotation, default, Get(fields[i].description, ""))];
      FieldLinesStep(fields, i);
    }
    assert fields[..|fields|] == fields;
  }
}
