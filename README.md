# OpenDirect / AdCOM spec-to-code pipeline, modelled in Dafny

The repository turns two markdown specifications into Python code and serves it from an
in-memory store:

- **Table parsers** (`md_tables.dfy`, `adcom_parser.dfy`, with the regular expressions written
  out as scanning functions in `scan.dfy`). `MarkdownTableParser` reads `## Object: Name`
  headings and `|Attribute|Description|Type|` tables into `ObjectDef`/`FieldDef` records.
  `AdcomParser` is the AdCOM dialect. It has a tolerant header row, object chunks bounded by the
  next heading, object descriptions, and `### List:` enumeration sections with
  `Value | Description` tables.
- **Type mappers and code emitters** (`gen_models.dfy`, `gen_adcom_models.dfy`, `routes.dfy`,
  `gen_routes.dfy`, `gen_adcom_routes.dfy`). `map_type` turns a raw type into a Python type. The
  generators write Pydantic classes, enumerations and FastAPI CRUD handlers as lists of lines,
  joined with newlines.
- **`InMemoryStore`** (`store.dfy`): a dictionary of insertion-ordered collections with `list`,
  `get`, `create`, `update`, `delete`, `delete_all`, `count` and `exists`.

Python semantics the model writes out:

- `strip`, `split`, `join`, `replace`, `lower`/`upper` on ASCII, `in` and `sorted` on strings,
  and slice-bound adjustment (`strings.dfy`, `order.dfy`, `Store.Bound`).
- The regular expressions as leftmost searches, including the lazy table body and its lookahead,
  the greedy name run backing off to `\s*$`, and `\b` word boundaries.
- Truthiness, and dictionary keys where `True` and `1` are the same key (`Store.HashKey`).
- Dictionary insertion order: a collection is an id sequence plus a map.

Each loop of the source that builds a result (a list, a dictionary, the lines of a module) is a
`method` with a loop. It is proved equal to a function of its inputs, and the properties are
proved as lemmas about that function. The first-match searches inside the two `map_type`
functions (over the type table and over the known object names) are recursive functions. The store is a class whose
methods state the whole new state.

## Model

| member | source | states |
|---|---|---|
| MdTables.FieldReprMarksRequired | tools/spec_parser/md_tables.py:17-19 | A required field's repr contains `*`. A field that is not required, with no `*` in its attribute or type, has a repr without one. |
| MdTables.ObjectReprReportsFieldCount | tools/spec_parser/md_tables.py:31-32 | The repr is `ObjectDef(<name>, <count> fields)`. `count` is a string of decimal digits whose value is the number of fields. |
| MdTables.ParseTableBody | tools/spec_parser/md_tables.py:57-103 | The loop over the body's lines returns the fields of the rows that yield one, in line order. |
| MdTables.SeparatorTest | tools/spec_parser/md_tables.py:74-75 | Deleting `\|`, `-` and spaces with three `replace` calls leaves the empty string exactly when the line holds nothing else. |
| MdTables.ParseRowSkips | tools/spec_parser/md_tables.py:68-88 | These lines give no field: blank lines, separator lines, lines with fewer than four `\|`-parts, and lines whose attribute or type cell is empty once stripped. |
| MdTables.FieldShape | tools/spec_parser/md_tables.py:83-101 | A kept row has at least four parts. Its attribute, description and type are trimmed, and its type is non-empty. `required` holds iff the raw attribute cell ends in `*` or the lower-cased description contains "required". The attribute is the cell with trailing `*`s removed, then stripped. |
| MdTables.RowRoundTrip | tools/spec_parser/md_tables.py:68-101 | A field written as a one-line table row is parsed back to the same field. The row marks a required attribute with `*`. The field's texts must be one-line cell texts, and an optional field's description must not say "required". |
| MdTables.TableRoundTrip | tools/spec_parser/md_tables.py:57-103 | A body of such rows, one per line, parses back to exactly those fields, in order. |
| MdTables.TableFieldsFromLines | tools/spec_parser/md_tables.py:68-101 | Each field comes from its own line, at strictly increasing line indices, so there is at most one field per line and order is kept. Every line that yields a field contributes it. |
| MdTables.FindTableIsLeftmost | tools/spec_parser/md_tables.py:43-46 | The table search reports an occurrence of the header. No header starts between the search start and it, and there is none at all when the search fails. |
| MdTables.ObjectAfterHeading | tools/spec_parser/md_tables.py:115-127 | One step of the heading loop: search the rest of the text for a table, parse its stripped body, and make an object when there are fields. |
| MdTables.ExtractObjects | tools/spec_parser/md_tables.py:105-129 | The loop over heading matches returns the document's objects. |
| MdTables.DocumentObjectsInOrder | tools/spec_parser/md_tables.py:114-127 | Each object comes from its own heading, and the headings of later objects start after earlier ones end. No object has an empty field list. |
| MdTables.DocumentObjectsComplete | tools/spec_parser/md_tables.py:114-127 | Every heading whose table yields fields contributes its object. |
| MdTables.SharedTable | tools/spec_parser/md_tables.py:116-118 | The table is searched for in the whole rest of the document. Take two headings with no table header between their ends: they get the same fields, and one yields an object iff the other does. |
| MdTables.TableAtEnd | tools/spec_parser/md_tables.py:43-46 | A table running to the end of the document gives the same stripped body and fields whether or not a blank line follows it. |
| MdTables.EnumKeyShape | tools/spec_parser/md_tables.py:144 | The key has the value's length. Each space becomes `_` and every other character is upper-cased, so no space or lower-case letter is left. |
| MdTables.EnumValuesShape | tools/spec_parser/md_tables.py:141-149 | Every pair's value is trimmed, and its key is made from that value. |
| MdTables.ParenGroupOfList | tools/spec_parser/md_tables.py:141 | In `pre(list)post`, with no `(` in `pre` and a one-line `list` without `)`, the group found is exactly `list`. |
| MdTables.ParenListRoundTrip | tools/spec_parser/md_tables.py:141-144 | Items written as `(a,b,…)` after text with no `(` come back as their pairs, in order. |
| MdTables.PlainListRoundTrip | tools/spec_parser/md_tables.py:147-149 | Without parentheses, a comma list of at least two items comes back as their pairs, in order. |
| MdTables.SingleItemGivesNothing | tools/spec_parser/md_tables.py:147-151 | Without parentheses or commas the result is empty. |
| Scan.HeadingAtShape | tools/spec_parser/md_tables.py:39 | A heading match starts a line with the prefix, then a non-empty run of the name's class, then only blanks up to the end of a line. |
| Scan.NextHeadingIsLeftmost | tools/spec_parser/adcom_parser.py:162 | `search` from a position reports a heading match, with no match starting between that position and it. It reports none only when no match exists. |
| Scan.HeadingsOrdered | tools/spec_parser/md_tables.py:114 | The matches `finditer` yields do not overlap and come in document order. |
| Scan.HeadingsMatch | tools/spec_parser/md_tables.py:114 | Every match `finditer` yields is a heading match at its own start. |
| Scan.BacktrackName | tools/spec_parser/adcom_parser.py:23 | The backtracked `[\w\s]+\s*$` split ends at a line end, with only whitespace between the name and that end. |
| Scan.BodyEnd | tools/spec_parser/md_tables.py:44 | The lazy body ends at the first position where a blank line follows, a line starts with `##`, or the text ends. |
| Scan.BodyEndBlankLine | tools/spec_parser/md_tables.py:44 | Appending a blank line to a text whose body runs to the end moves the body's end back by at most the one newline the text already ended with. |
| Scan.ParenGroupAt | tools/spec_parser/md_tables.py:141 | The group is found at the first `(` with a `)` after it on the same line, and it spans the text between them. |
| Scan.NoParenGroup | tools/spec_parser/md_tables.py:141-142 | Without a `(` there is no match. |
| Scan.SectionHasNoOwn | tools/spec_parser/adcom_parser.py:162-168 | No heading of a section's own kind starts inside it. |
| Scan.SectionEndsAtOwn | tools/spec_parser/adcom_parser.py:162-164 | A section ends at the first later heading of its own kind, when there is one. |
| Scan.SectionEndsAtOther | tools/spec_parser/adcom_parser.py:165-168 | Otherwise a section ends at the first heading of the other kind, or at the end of the text. |
| AdcomParser.FindHeaderIsLeftmost | tools/spec_parser/adcom_parser.py:17-20 | The header search reports the leftmost position where the pattern matches, with the match's end. It reports none only when no position matches. |
| AdcomParser.MatchedIsRendered | tools/spec_parser/adcom_parser.py:17-20 | A match spells out the header with at most one blank around each title and a non-empty dash run per column, and nothing else. |
| AdcomParser.RenderedMatches | tools/spec_parser/adcom_parser.py:17-20 | Conversely, any spelling of the header the pattern allows is matched, to its full length. |
| AdcomParser.NonEmptyCellsMembers | tools/spec_parser/adcom_parser.py:58-60 | The filter keeps exactly the non-empty cells. |
| AdcomParser.FirstNonEmptyCell | tools/spec_parser/adcom_parser.py:60-66 | The first kept cell is the first non-empty one, and every cell before it is empty. |
| AdcomParser.AdcomRowShape | tools/spec_parser/adcom_parser.py:51-84 | A row yields a field iff it has at least three non-empty cells. Description and type are the second and third of them, and the type is non-empty and trimmed. The attribute is the first cell without trailing `*`s. `required` holds iff that cell ends in `*` or the description contains "required". |
| AdcomParser.AdcomRowRoundTrip | tools/spec_parser/adcom_parser.py:51-84 | A field with a non-empty description, written as a row, is read back unchanged. |
| AdcomParser.EmptyDescriptionSkipsRow | tools/spec_parser/adcom_parser.py:58-63 | A row with an empty description is kept by the generic dialect but skipped by this one: the empty cell is dropped and two cells are left. |
| AdcomParser.ParseAdcomTableBody | tools/spec_parser/adcom_parser.py:40-86 | The loop returns the fields of the rows that yield one, in line order. |
| AdcomParser.AdcomFieldsFromLines | tools/spec_parser/adcom_parser.py:51-84 | Each field comes from its own line, in increasing line order, and no line's field is lost. |
| AdcomParser.EnumRowShape | tools/spec_parser/adcom_parser.py:99-113 | A line yields a pair iff, once stripped, it starts with `\|`, has at least three parts, and has non-empty stripped second and third parts. The pair is those two parts, trimmed and free of `\|`. |
| AdcomParser.EnumRowRoundTrip | tools/spec_parser/adcom_parser.py:99-113 | A pair of non-empty one-line texts written as a row is read back unchanged. |
| AdcomParser.ParseEnumBody | tools/spec_parser/adcom_parser.py:88-117 | The loop returns the pairs of the rows that yield one, in line order. |
| AdcomParser.EnumValuesFromLines | tools/spec_parser/adcom_parser.py:99-113 | Pairs keep the order of their lines, at most one per line, and none is lost. |
| AdcomParser.EnumAfterHeading | tools/spec_parser/adcom_parser.py:128-144 | One step of the list loop: search the 2000-character window after the heading for a value table and parse its stripped body. Report the space-free key and the pairs when there are any. |
| AdcomParser.ExtractEnums | tools/spec_parser/adcom_parser.py:119-146 | The loop returns the document's enumeration dictionary. |
| AdcomParser.EnumEntryOrigin | tools/spec_parser/adcom_parser.py:127-144 | Every entry comes from the last section that yields that key. |
| AdcomParser.EnumEntryPresent | tools/spec_parser/adcom_parser.py:127-144 | Every section that yields pairs has an entry under its key. |
| AdcomParser.EnumEntriesNonEmpty | tools/spec_parser/adcom_parser.py:141-144 | Every entry has at least one pair and a key without spaces. |
| AdcomParser.ListEntryShape | tools/spec_parser/adcom_parser.py:128-144 | A kept section's key holds exactly the characters of the stripped heading name other than spaces, and its pair list is non-empty. |
| AdcomParser.EnumTableInWindow | tools/spec_parser/adcom_parser.py:132-133 | A value table found in the window starts after the heading and ends at most 2000 characters after it. |
| AdcomParser.ChunkHasNoObject | tools/spec_parser/adcom_parser.py:162-170 | No object heading starts inside an object's chunk. |
| AdcomParser.ChunkEndsAtObject | tools/spec_parser/adcom_parser.py:162-164 | A chunk ends at the next object heading when there is one. |
| AdcomParser.ChunkEndsAtList | tools/spec_parser/adcom_parser.py:165-168 | Otherwise a chunk ends at the first list heading after it, or at the end of the document. |
| AdcomParser.DescriptionIsFirstLine | tools/spec_parser/adcom_parser.py:182-187 | The description is the first line of the stripped text that is not blank, stripped. There is none exactly when every line is blank. |
| AdcomParser.DescriptionShape | tools/spec_parser/adcom_parser.py:184-187 | A description is one non-empty, trimmed line. |
| AdcomParser.ObjectInChunk | tools/spec_parser/adcom_parser.py:158-191 | One step of the heading loop: cut the chunk, find its attribute table, parse the body, and describe the object from the text before the table. |
| AdcomParser.ExtractAdcomObjects | tools/spec_parser/adcom_parser.py:148-193 | The loop returns the document's objects. |
| AdcomParser.AdcomObjectsInOrder | tools/spec_parser/adcom_parser.py:157-191 | Objects come from distinct headings in document order. Each has fields and the section "adcom". |
| AdcomParser.AdcomObjectsComplete | tools/spec_parser/adcom_parser.py:157-191 | Every heading whose chunk yields fields contributes its object. |
| AdcomParser.Parse | tools/spec_parser/adcom_parser.py:195-205 | `parse` returns the document's objects and its enumerations. |
| GenModels.FirstKeyIn | tools/spec_parser/gen_models.py:53-55 | The lookup finds the first table key, in table order, that occurs in the type. No earlier key occurs, and it finds none when no key occurs. |
| GenModels.AsWrittenRepeats | tools/spec_parser/gen_models.py:32-34 | When the array branch's argument does not shrink, it is the original argument itself. |
| GenModels.CapitalArrayDiverges | tools/spec_parser/gen_models.py:32-34 | `map_type("Array")` as written calls itself with the same argument and never returns. |
| GenModels.AsWrittenAgreesWithoutCapitals | tools/spec_parser/gen_models.py:14-58 | On types without capital letters the as-written mapping returns, and agrees with the corrected one. |
| GenModels.ArrayBaseShrinks | tools/spec_parser/gen_models.py:32-34 | With "array" removed in any case, the element type is always shorter than the argument, so the corrected recursion ends. |
| GenModels.AsWrittenAgrees | tools/spec_parser/gen_models.py:14-58 | Wherever the as-written mapping returns, it returns exactly what the corrected mapping does. |
| GenModels.CapitalArrayIsListOfStr | tools/spec_parser/gen_models.py:32-35 | The corrected mapping reads "Array" as a required `List[str]`. |
| GenModels.MapTypeIsPythonType | tools/spec_parser/gen_models.py:14-58 | Every mapped type is a primitive name inside zero or more `List[…]`, and an enumeration maps to `str`. |
| GenModels.DateTimeIsNotDate | tools/spec_parser/gen_models.py:38-55 | "datetime" and "date-time" are tried before "date": such a type never maps to `date`. |
| GenModels.EmptyTypeIsStr | tools/spec_parser/gen_models.py:53-58 | The empty type maps to a required `str`. |
| GenModels.StrIsStr | tools/spec_parser/gen_models.py:92 | A field without a type is mapped as "str", which gives a required `str`. |
| GenModels.MapFieldType | tools/spec_parser/gen_models.py:114 | A field's type is mapped from its `type` entry, or from "str" when it has none. |
| GenModels.FieldDeclOptional | tools/spec_parser/gen_models.py:115-122 | A field is declared `Optional[T] = Field(None, …)` iff it maps to optional and is not required. Otherwise it is declared `T = Field(..., …)`. |
| GenModels.SortedImports | tools/spec_parser/gen_models.py:86-100 | The import lines are the import set in sorted order. |
| GenModels.ImportsWithDatetime | tools/spec_parser/gen_models.py:96-100 | With a datetime field the order is the datetime import, pydantic, then typing. |
| GenModels.ImportsWithoutDatetime | tools/spec_parser/gen_models.py:99-100 | Without one, the order is pydantic, then typing. |
| GenModels.NeedsDatetime | tools/spec_parser/gen_models.py:90-94 | The loop finds whether some field's mapped type mentions "datetime". |
| GenModels.AppendFieldLines | tools/spec_parser/gen_models.py:111-126 | The loop appends one declaration per field, in field order. |
| GenModels.ModelLinesShape | tools/spec_parser/gen_models.py:83-128 | The first line is the datetime import iff a field needs it, and the class line follows the imports. With no fields the body is only `pass`. Otherwise there is one field line per field, in order. |
| GenModels.GenerateModelCode | tools/spec_parser/gen_models.py:73-128 | The class text is those lines joined by newlines. |
| GenAdcomModels.ByLengthDescSorted | tools/spec_parser/gen_adcom_models.py:40 | `sorted(…, key=len, reverse=True)` gives the names in non-increasing length, each known name present. |
| GenAdcomModels.ByLengthDesc | tools/spec_parser/gen_adcom_models.py:40 | The sorted names are a permutation of the known names. |
| GenAdcomModels.InsertByLength | tools/spec_parser/gen_adcom_models.py:40 | One step of the stable sort by length: inserting a name adds exactly that name. |
| GenAdcomModels.FirstRef | tools/spec_parser/gen_adcom_models.py:40-45 | The search returns the first name in its order that occurs as a whole word, provided "object" occurs. No earlier name qualifies. |
| GenAdcomModels.ObjectRefIsLongest | tools/spec_parser/gen_adcom_models.py:40-45 | A reference is made iff some known name occurs as a whole word and "object" occurs. The name chosen is known and qualifies, and no longer qualifying name exists, so `TitleAsset` beats `Asset`. |
| GenAdcomModels.AdcomArrayBaseShrinks | tools/spec_parser/gen_adcom_models.py:33-35 | Every recursive call is on a strictly shorter type. |
| GenAdcomModels.AdcomPrimitiveIsName | tools/spec_parser/gen_adcom_models.py:48-68 | The primitive lookup yields one of the table's types, or `str`. |
| GenAdcomModels.AdcomMapTypeShape | tools/spec_parser/gen_adcom_models.py:16-68 | Every mapped type is a primitive, a double-quoted known name, or `List[…]` of one of these. |
| GenAdcomModels.ForwardRefsResolve | tools/spec_parser/gen_adcom_models.py:208-220 | With the known names taken from the file's objects, every name an annotation quotes is an object of that file, which its `model_rebuild()` line resolves. |
| GenAdcomModels.MemberNameChars | tools/spec_parser/gen_adcom_models.py:100-102 | The member name is `VALUE_` followed by one character per character of the literal: word characters upper-cased, anything else `_`. |
| GenAdcomModels.MemberNameIsIdentifier | tools/spec_parser/gen_adcom_models.py:100-102 | A member name has only upper-case letters, digits and `_`. |
| GenAdcomModels.MemberNamesCollide | tools/spec_parser/gen_adcom_models.py:98-103 | Two literals get the same member name iff they have the same length and agree after that mapping. Nothing tells such members apart. |
| GenAdcomModels.GenerateEnumCode | tools/spec_parser/gen_adcom_models.py:83-105 | The enumeration text is the header, then the member lines, joined by newlines. |
| GenAdcomModels.SanitizedHasNoQuote | tools/spec_parser/gen_adcom_models.py:151 | Sanitising keeps the length and turns each double quote into a single quote, so no double quote is left. |
| GenAdcomModels.AdcomFieldDeclOptional | tools/spec_parser/gen_adcom_models.py:142-148 | A field is declared `Optional[T] = None` iff it maps to optional or is not required. Otherwise it is declared `T` with no default. |
| GenAdcomModels.AppendAdcomFieldLines | tools/spec_parser/gen_adcom_models.py:136-156 | The loop appends the declarations after the header. |
| GenAdcomModels.AdcomModelLinesShape | tools/spec_parser/gen_adcom_models.py:120-156 | The class line and docstring come first. The body is the single line `pass` iff there are no fields; otherwise it is one line per field, in order. |
| GenAdcomModels.GenerateAdcomModelCode | tools/spec_parser/gen_adcom_models.py:107-158 | The class text is those lines joined by newlines. |
| GenAdcomModels.BlocksAt | tools/spec_parser/gen_adcom_models.py:196-215 | Each block is followed by two empty lines. |
| GenAdcomModels.EnumSectionAt | tools/spec_parser/gen_adcom_models.py:190-200 | The enumeration section is absent when there are no enumerations. Otherwise enumeration `k`, in sorted name order, sits at line `4 + 3k` of it. |
| GenAdcomModels.ModelSectionAt | tools/spec_parser/gen_adcom_models.py:202-221 | Model `i` sits at line `4 + 3i`, and its rebuild line comes after all the models, in the same order. |
| GenAdcomModels.RebuildSection | tools/spec_parser/gen_adcom_models.py:218-221 | There is one `Name.model_rebuild()` line per object, in input order. |
| GenAdcomModels.FileLayout | tools/spec_parser/gen_adcom_models.py:172-200 | The 11 header lines are followed by the enumerations, sorted by name. The sorted keys are strictly increasing and are exactly the enumeration names. The file's length accounts for every model and rebuild line. |
| GenAdcomModels.ModelsLayout | tools/spec_parser/gen_adcom_models.py:202-223 | The model section (laid out as `ModelSectionAt` states) starts right after the header and the enumerations and runs to the end of the module. |
| GenAdcomModels.EmitEnumSection | tools/spec_parser/gen_adcom_models.py:190-200 | The loop over the sorted enumerations emits the enumeration section. |
| GenAdcomModels.EmitModelSection | tools/spec_parser/gen_adcom_models.py:202-221 | The loops over the objects emit the model and rebuild sections, given the known names as the set of the objects' names. |
| GenAdcomModels.EmitRebuildSection | tools/spec_parser/gen_adcom_models.py:218-221 | The loop emits the rebuild lines. |
| GenAdcomModels.GenerateFile | tools/spec_parser/gen_adcom_models.py:160-223 | The module text is the file lines joined by newlines, with the known names being exactly the objects' names, each once. |
| Ordering.Sorted | tools/spec_parser/gen_adcom_models.py:196 | `sorted` of a set of names lists each name once, in strictly increasing order. |
| Ordering.SortedUnique | tools/spec_parser/gen_models.py:99 | Only one sequence lists a set in strictly increasing order. |
| Routes.RenderDecorators | tools/spec_parser/gen_routes.py:38-106 | Rendered handlers declare one route each, in order, and no other line starts with `@`. |
| Routes.EndpointCallAt | tools/spec_parser/gen_routes.py:57-62 | A handler's store call follows its signature and docstring. A 404 guard follows the call when there is one; otherwise only return lines follow. |
| GenRoutes.HandlersPlain | tools/spec_parser/gen_routes.py:38-106 | No line of a handler other than its decorator starts with `@`. |
| GenRoutes.HandlerDeclarations | tools/spec_parser/gen_routes.py:38-106 | The handlers declare exactly five routes, in table order. |
| GenRoutes.CrudDeclarations | tools/spec_parser/gen_routes.py:20-108 | Exactly five routes are declared, in order: list and create on `/<name>s`, then read, replace and delete on `/<name>s/{id}`. Creation answers 201 and deletion 204. |
| GenRoutes.HandlerStoreUse | tools/spec_parser/gen_routes.py:40-105 | Each of the five store calls (`list`, `get`, `create`, `update`, `delete`) is keyed by the model name. Read, replace and delete, and only they, raise a 404 "<name> not found". The list takes `skip` (default 0, `ge=0`) and `limit` (default 100, `ge=1, le=1000`). |
| GenRoutes.GenerateCrudRoutes | tools/spec_parser/gen_routes.py:20-108 | The handler text is the comment line, an empty line and the five handlers, joined by newlines. |
| GenRoutes.EmitHandlers | tools/spec_parser/gen_routes.py:37-106 | The appends render the five handlers in order. |
| GenRoutes.EmitHandler | tools/spec_parser/gen_routes.py:38-106 | Each append adds the next handler of the route table to those already emitted, and every handler is plain. |
| GenRoutes.CrudCodeAt | tools/spec_parser/gen_routes.py:151 | The call made for object `i` produces that object's handler text. |
| GenRoutes.PairBlocksAt | tools/spec_parser/gen_routes.py:150-152 | Each object's handler text is followed by an empty line. |
| GenRoutes.ImportSectionAt | tools/spec_parser/gen_routes.py:122-147 | The import list holds one `    <name>,` line per object, in input order. The router line declares the prefix `/api/v1`. |
| GenRoutes.EmitImportSection | tools/spec_parser/gen_routes.py:122-147 | The import loop emits exactly the import section: one line per object in input order. |
| GenRoutes.FileLayoutOf | tools/spec_parser/gen_routes.py:122-152 | The import lines sit right after the opening lines, and the handler texts come after the router line, each followed by an empty line. |
| GenRoutes.AllRoutesLayout | tools/spec_parser/gen_routes.py:122-156 | Every model is imported once, in input order, and the router is declared on `/api/v1`. Each object's handlers then follow in input order, each followed by an empty line. |
| GenRoutes.GenerateAllRoutes | tools/spec_parser/gen_routes.py:110-156 | The content written is those lines joined by newlines. |
| GenRoutes.EmitRouteBlocks | tools/spec_parser/gen_routes.py:150-152 | The loop emits each object's handlers and an empty line, in input order. |
| GenAdcomRoutes.ExemptionIsDisplayOnly | tools/spec_parser/gen_adcom_routes.py:34-44 | Of the three exempted names only "display" ends in `y`. The prefix is the plural rule with that one exemption. |
| GenAdcomRoutes.RoutePrefixShape | tools/spec_parser/gen_adcom_routes.py:34-44 | The prefix ends in `s` and keeps the lower-cased name minus at most its last character. It keeps the whole name unless that character is a `y` turned into `ies`. |
| GenAdcomRoutes.HandlersPlain | tools/spec_parser/gen_adcom_routes.py:60-102 | No line of a handler other than its decorator starts with `@`. |
| GenAdcomRoutes.HandlerDeclarations | tools/spec_parser/gen_adcom_routes.py:60-102 | The handlers declare exactly five routes, in table order. |
| GenAdcomRoutes.ModelDeclarations | tools/spec_parser/gen_adcom_routes.py:46-104 | Exactly five routes are declared, in order: list and create on `/<prefix>`, then read, replace and delete on `/<prefix>/{id}`. Creation answers 201 and deletion 204. |
| GenAdcomRoutes.HandlerStoreUse | tools/spec_parser/gen_adcom_routes.py:60-102 | Every store call is keyed by the route prefix. Read, replace and delete, and only they, raise a 404 "<name> not found". The list takes `skip` (`ge=0`) and `limit` (default 100, `ge=1, le=1000`). |
| GenAdcomRoutes.GenerateRoutesForModel | tools/spec_parser/gen_adcom_routes.py:46-104 | The handler text is the comment line and the five handlers, joined by newlines. |
| GenAdcomRoutes.EmitHandlers | tools/spec_parser/gen_adcom_routes.py:59-102 | The appends render the five handlers in order. |
| GenAdcomRoutes.EmitHandler | tools/spec_parser/gen_adcom_routes.py:60-102 | Each append adds the next handler of the route table to those already emitted, and every handler is plain. |
| GenAdcomRoutes.ImportCommas | tools/spec_parser/gen_adcom_routes.py:132-136 | Every object is imported once, in input order, with a comma after all but the last. |
| GenAdcomRoutes.SelectedMembers | tools/spec_parser/gen_adcom_routes.py:168-169 | An object is emitted in a category iff it is one of the objects and its name is listed there. |
| GenAdcomRoutes.SelectedAppend | tools/spec_parser/gen_adcom_routes.py:168-171 | Selection keeps input order: selecting from two parts selects from each in turn. |
| GenAdcomRoutes.CategoryMembers | tools/spec_parser/gen_adcom_routes.py:154-171 | An object has handlers in a category iff its name is listed there. An object listed in no category gets no handlers. |
| GenAdcomRoutes.CategoryOrder | tools/spec_parser/gen_adcom_routes.py:154-171 | The handlers are grouped as media, then assets, then context. Each group sits under its banner and holds its listed objects in input order. |
| GenAdcomRoutes.FileLayout | tools/spec_parser/gen_adcom_routes.py:115-165 | The imports start at line 11, and the first category banner follows the lines that close the header. |
| GenAdcomRoutes.GenerateFile | tools/spec_parser/gen_adcom_routes.py:106-173 | The module text is the file lines joined by newlines. |
| GenAdcomRoutes.EmitImports | tools/spec_parser/gen_adcom_routes.py:133-135 | The loop emits the import lines. |
| GenAdcomRoutes.EmitSections | tools/spec_parser/gen_adcom_routes.py:164-171 | The outer loop emits the category sections in order. |
| GenAdcomRoutes.EmitCategory | tools/spec_parser/gen_adcom_routes.py:165-171 | The inner loop emits the banner, an empty line and the handlers of each listed object, in input order. |
| Store.HashKey | opendirect21/store.py:53-60 | Lists and dictionaries are unhashable. `None`, strings and integers are their own keys, and `True`/`False` are the keys 1 and 0. |
| Store.HashKeyIsEquality | opendirect21/store.py:53-60 | Two hashable ids name the same entry exactly when Python finds them equal: `True` is the id 1 and `False` the id 0. |
| Store.Contents | opendirect21/store.py:41 | `values()` lists one entity's data per id, in insertion order. |
| Store.Merge | opendirect21/store.py:72 | `dict.update`: every key of the updates takes its new value, and every other key keeps its own. |
| Store.Slice | opendirect21/store.py:42 | The slice holds the elements between the adjusted bounds, and is empty when they cross. |
| Store.InMemoryStore.constructor | opendirect21/store.py:32-34 | A new store has no collections. |
| Store.InMemoryStore.List | opendirect21/store.py:36-42 | An unknown collection gives `[]`. Otherwise the result is the data in insertion order, sliced `[skip:skip+limit]`. |
| Store.InMemoryStore.ListFirstPage | opendirect21/store.py:36-42 | A call without `skip` and `limit` takes Python's defaults 0 and 100: `[]` for an unknown collection, else the first hundred entries in insertion order (all of them when there are fewer). |
| Store.InMemoryStore.Get | opendirect21/store.py:44-49 | The result is present iff the collection and the id exist, and it is the stored data. Stored data always holds an `id`. |
| Store.InMemoryStore.Create | opendirect21/store.py:51-62 | The supplied truthy `id`, else the generated one, is written into the data, which is stored under that key. The collection is created first, even when the id proves unhashable (`TypeError`). Only that collection changes. |
| Store.InMemoryStore.Update | opendirect21/store.py:64-75 | The result is `None`, with nothing changed, for an unknown collection or id. Otherwise the stored data is merged with the updates and restamped. The id order and every other entity and collection are kept. |
| Store.InMemoryStore.Delete | opendirect21/store.py:77-83 | The result is true iff the id existed. Then only that entry is removed; otherwise nothing changes. |
| Store.InMemoryStore.DeleteAll | opendirect21/store.py:85-92 | The result is the previous count, and the collection is left empty. An unknown collection gives 0 and nothing changes. |
| Store.InMemoryStore.Count | opendirect21/store.py:94-96 | The number of entities, which is also the length of the full list, or 0 for an unknown collection. |
| Store.InMemoryStore.Exists | opendirect21/store.py:98-100 | True iff the collection and the id are both present, which is exactly when `get` finds it. |
| Store.PutValid | opendirect21/store.py:59-60 | Storing keeps a collection valid, finds the entity under its key and leaves every other key as it was. |
| Store.PutOrder | opendirect21/store.py:56-60 | Storing under a present key replaces that entity where it stands, so count and order are unchanged. A new key is appended last. |
| Store.RemoveValid | opendirect21/store.py:82 | Deleting keeps a collection valid and finds nothing under the key afterwards. Every other entity is kept, and the key leaves the insertion order without reordering the rest. |
| Store.RemoveKeyAt | opendirect21/store.py:82 | Deleting the id at position `p` of the insertion order leaves the ids before and after it, in order. |
| Store.IdsCount | opendirect21/store.py:90-96 | A valid collection holds as many entities as it lists ids. |
| Store.ChosenId | opendirect21/store.py:53 | The id is the supplied one when truthy, else the generated one, which is truthy when non-empty. |
| Store.CreateThenGet | opendirect21/store.py:53-62 | After storing, reading the key back gives the stored data. It has the chosen `id`, and the caller's other fields are unchanged. |
| Store.PageOf | opendirect21/store.py:42 | With `skip` and `limit` not negative, a page has `min(limit, max(0, n - skip))` items, item `i` being item `skip + i`. |
| Store.PagesJoin | opendirect21/store.py:42 | Consecutive pages do not overlap and together make the page spanning both. |

## Left out

- File and console I/O is not modelled: reading the AdCOM file in `parse_adcom_spec`, `mkdir` in the generator constructors, `write_text`, every `print` and the `__main__` blocks. The generators stop at the text they would write.
- The clock is a parameter. The `Generated:` header takes the ISO time text as `generated`. A store entity's `created_at`/`updated_at` take an integer `now`.
- Store.InMemoryStore.Create: stamps `createdAt` and `updatedAt` with one `now`, where the source reads the clock twice.
- `uuid.uuid4()` is the `newId` parameter of `Store.InMemoryStore.Create`.
- Concurrency and `async` are not modelled. The store is modelled sequentially; its "thread-safe" docstring is backed by no lock.
- Store.InMemoryStore.Create: the data is stored as a value, so the source's aliasing is not captured. The source writes `id` into the caller's dictionary and stores that same dictionary, so later changes through either reference show in both.
- Store.InMemoryStore.Update: merges into a stored value, so callers holding the dictionary returned earlier do not see the change, as they would in the source.
- Entity data is a map: the key order inside one entity's dictionary is not kept. Values are none, booleans, integers, strings, lists and dictionaries; floats and other Python objects are not modelled.
- Store.InMemoryStore.Get: ids are `Key` values (none, integer, string). A lookup with an unhashable id, which raises `TypeError` in the source, cannot be expressed.
- The `get_store` lazy global singleton is not modelled.
- The set iteration order of `known_objects` is not knowable. It is the parameter `known`, which lists each name once and fixes the order that ties in length are tried in.
- `generate_model_code` in `gen_adcom_models.py` receives a set of enumeration names that it never reads, so the model leaves that parameter out.
- AdcomParser.ExtractEnums: returns a map, so the insertion order of the dictionary's keys is not kept. Its only consumer, `generate_file`, sorts the keys.
- Characters are ASCII only: `lower`, `upper`, `\s`, `\w` and `isspace` follow their ASCII definitions. Unicode case mapping is not modelled.
- `OBJECT_ALT_RE` (`md_tables.py:40`) is never used by the source and is not modelled.
- The runtime behaviour of the generated Pydantic and FastAPI modules (validation, status codes served, `model_dump`) is library code that is not part of this model. Only the emitted text is modelled.
- GenModels.MapFieldType: where `map_type` raises `RecursionError` (an array type whose marker is a capitalised "Array"), the model maps the type instead of failing. `GenModels.AsWrittenAgrees` shows that it returns what the source returns on every other type.
- GenModels.GenerateModelCode: for a field type on which `map_type` raises `RecursionError`, the model emits the corrected declaration instead of failing.
- GenModels.NeedsDatetime: tests the corrected mapping, so it answers where the source raises `RecursionError`.
- GenModels.AppendFieldLines: appends the corrected declaration where the source raises `RecursionError`.
- GenModels.MapFieldType: a field is a record of optional attribute, description, type and `required` entries. Its `required` is a boolean, so the truthiness of other values stored there is not modelled.

## Findings

| source | as written | input that shows it | evidently intended | confidence | as-written member | corrected member |
|---|---|---|---|---|---|---|
| tools/spec_parser/gen_models.py:32-34 | The array test looks for "array" in any case, but only the lower-case "array" is removed before the recursive call. | `map_type("Array")`: the element type is "Array" again, so the call repeats forever and Python raises `RecursionError`. | Where removing the lower-case word leaves the type unchanged, remove the array marker in any case, so "Array" maps to `List[str]` and every recursive call is on a shorter type. | not executed | GenModels.CapitalArrayDiverges | GenModels.CapitalArrayIsListOfStr |
