/**
 * `AdcomRouteGenerator`: English-style plural route prefixes, five CRUD handlers per model keyed
 * in the store by that prefix, and the module that imports every model and emits the handlers
 * grouped by category (media, asset, context).
 */
module GenAdcomRoutes {
  import opened Strings
  import opened Wrappers
  import opened Routes
  import opened MdTables
  import GenAdcomModels

  // ---------------------------------------------------------------------------
  // `get_route_prefix`

  /** `s.endswith(c)` for a one-character suffix. */
  predicate EndsWithChar(s: string, c: char) {
    |s| > 0 && s[|s| - 1] == c
  }

  /** `get_route_prefix`: lower-case, then `y` → `ies` (except the three listed names), `s` → `ses`, else `+s`. */
  function RoutePrefix(name: string): string {
    var n := Lower(name);
    if EndsWithChar(n, 'y') then
      if n !in ["display", "video", "audio"] then n[..|n| - 1] + "ies" else n + "s"
    else if EndsWithChar(n, 's') then n + "es"
    else n + "s"
  }

  /** The same rule with only "display" exempted: "video" and "audio" never end in `y`. */
  function Plural(n: string): string {
    if EndsWithChar(n, 'y') && n != "display" then n[..|n| - 1] + "ies"
    else if EndsWithChar(n, 's') then n + "es"
    else n + "s"
  }

  /** Of the three exempted names only "display" can reach the exemption. */
  lemma ExemptionIsDisplayOnly(name: string)
    ensures RoutePrefix(name) == Plural(Lower(name))
  {
    var n := Lower(name);
    if EndsWithChar(n, 'y') {
      assert n != "video" && n != "audio" by {
        assert "video"[4] == 'o' && "audio"[4] == 'o';
      }
    }
  }

  /**
   * The prefix ends in `s`, keeps the lower-cased name minus at most its last character, and keeps
   * all of it unless that character is a `y` being turned into `ies`.
   */
  lemma RoutePrefixShape(name: string)
    ensures var n, r := Lower(name), RoutePrefix(name);
      && EndsWithChar(r, 's')
      && |n| <= |r| && (|n| > 0 ==> r[..|n| - 1] == n[..|n| - 1])
      && (r[..|n|] == n || (EndsWithChar(n, 'y') && n != "display" && r == n[..|n| - 1] + "ies"))
  {
    ExemptionIsDisplayOnly(name);
    var n := Lower(name);
    if EndsWithChar(n, 'y') && n != "display" {
      assert Plural(n) == n[..|n| - 1] + "ies";
    } else if EndsWithChar(n, 's') {
      assert Plural(n)[..|n|] == n;
    } else {
      assert Plural(n)[..|n|] == n;
    }
  }

  // ---------------------------------------------------------------------------
  // `generate_routes_for_model`

  function ListRoute(name: string, prefix: string, v: string): Endpoint {
    Endpoint("get", "/" + prefix, ["response_model=List[" + name + "]"],
      ["async def list_" + prefix + "(", Indented("skip: int = Query(0, ge=0),"),
       Indented("limit: int = Query(100, ge=1, le=1000),"), ") -> List[" + name + "]:"],
      Indented("\"\"\"List all " + name + " objects with pagination.\"\"\""),
      StoreCall("items = await ", "list", prefix, ", skip=skip, limit=limit"), None,
      [Indented("return [" + name + "(**item) for item in items]")])
  }

  function GetRoute(name: string, prefix: string, v: string): Endpoint {
    Endpoint("get", "/" + prefix + "/{id}", ["response_model=" + name],
      ["async def get_" + v + "(id: str) -> " + name + ":"],
      Indented("\"\"\"Get a specific " + name + " by ID.\"\"\""),
      StoreCall("item = await ", "get", prefix, ", id"), Some(Guard("item", name)),
      [Indented("return " + name + "(**item)")])
  }

  function CreateRoute(name: string, prefix: string, v: string): Endpoint {
    Endpoint("post", "/" + prefix, ["response_model=" + name, "status_code=201"],
      ["async def create_" + v + "(item: " + name + ") -> " + name + ":"],
      Indented("\"\"\"Create a new " + name + ".\"\"\""),
      StoreCall("created = await ", "create", prefix, ", item.model_dump()"), None,
      [Indented("return " + name + "(**created)")])
  }

  function UpdateRoute(name: string, prefix: string, v: string): Endpoint {
    Endpoint("put", "/" + prefix + "/{id}", ["response_model=" + name],
      ["async def update_" + v + "(id: str, item: " + name + ") -> " + name + ":"],
      Indented("\"\"\"Update an existing " + name + ".\"\"\""),
      StoreCall("updated = await ", "update", prefix, ", id, item.model_dump()"), Some(Guard("updated", name)),
      [Indented("return " + name + "(**updated)")])
  }

  function DeleteRoute(name: string, prefix: string, v: string): Endpoint {
    Endpoint("delete", "/" + prefix + "/{id}", ["status_code=204"],
      ["async def delete_" + v + "(id: str):"],
      Indented("\"\"\"Delete a " + name + ".\"\"\""),
      StoreCall("deleted = await ", "delete", prefix, ", id"), Some(Guard("deleted", name)),
      [Indented("return")])
  }

  /** The five handlers for `name`, on `/<prefix>`, with handler names built from `v`. */
  function Handlers(name: string, prefix: string, v: string): (r: seq<Endpoint>)
    ensures |r| == 5
  {
    seq(5, k requires 0 <= k < 5 => Handler(name, prefix, v, k))
  }

  /** Handler `k` in emission order: list, read, create, replace, delete. */
  function Handler(name: string, prefix: string, v: string, k: nat): Endpoint
    requires k < 5
  {
    match k
    case 0 => ListRoute(name, prefix, v)
    case 1 => GetRoute(name, prefix, v)
    case 2 => CreateRoute(name, prefix, v)
    case 3 => UpdateRoute(name, prefix, v)
    case 4 => DeleteRoute(name, prefix, v)
  }

  /** The handlers `generate_routes_for_model` emits for `name`. */
  function ModelRoutes(name: string): seq<Endpoint> {
    Handlers(name, RoutePrefix(name), Lower(name))
  }

  /** `generate_routes_for_model` as lines: a comment, then the five handlers. */
  function ModelRouteLines(name: string): seq<string> {
    ["# Routes for " + name] + RenderAll(ModelRoutes(name))
  }

  function ModelRouteCode(name: string): string {
    Join(ModelRouteLines(name), "\n")
  }

  /** `AdcomRouteGenerator.generate_routes_for_model` */
  method GenerateRoutesForModel(obj: ObjectDef) returns (code: string)
    ensures code == ModelRouteCode(obj.name)
  {
    var name := obj.name;
    var prefix := RoutePrefix(name);
    var lines := ["# Routes for " + name];
    var handlers := EmitHandlers(name, prefix, Lower(name));
    lines := lines + handlers;
    code := Join(lines, "\n");
  }

  /** The five handlers appended one after the other. */
  method EmitHandlers(name: string, prefix: string, v: string) returns (lines: seq<string>)
    ensures lines == RenderAll(Handlers(name, prefix, v))
  {
    ghost var es := Handlers(name, prefix, v);
    RenderNone(es);
    lines := [];
    lines := EmitHandler(lines, name, prefix, v, 0);
    lines := EmitHandler(lines, name, prefix, v, 1);
    lines := EmitHandler(lines, name, prefix, v, 2);
    lines := EmitHandler(lines, name, prefix, v, 3);
    lines := EmitHandler(lines, name, prefix, v, 4);
    assert es[..|es|] == es;
  }

  /** One block of appends: handler `k` after the `k` before it. */
  method EmitHandler(lines: seq<string>, name: string, prefix: string, v: string, k: nat) returns (r: seq<string>)
    requires k < 5 && lines == RenderAll(Handlers(name, prefix, v)[..k])
    ensures r == RenderAll(Handlers(name, prefix, v)[..k + 1])
  {
    r := AppendEndpoint(lines, Handlers(name, prefix, v), k, Handler(name, prefix, v, k));
  }

  lemma HandlersPlain(name: string, prefix: string, v: string)
    ensures forall i :: 0 <= i < 5 ==> Plain(Handlers(name, prefix, v)[i])
  {
    ListPlain(name, prefix, v);
    GetPlain(name, prefix, v);
    CreatePlain(name, prefix, v);
    UpdatePlain(name, prefix, v);
    DeletePlain(name, prefix, v);
  }

  lemma ListPlain(name: string, prefix: string, v: string) ensures Plain(ListRoute(name, prefix, v)) { }
  lemma GetPlain(name: string, prefix: string, v: string) ensures Plain(GetRoute(name, prefix, v)) { }
  lemma CreatePlain(name: string, prefix: string, v: string) ensures Plain(CreateRoute(name, prefix, v)) { }
  lemma UpdatePlain(name: string, prefix: string, v: string) ensures Plain(UpdateRoute(name, prefix, v)) { }
  lemma DeletePlain(name: string, prefix: string, v: string) ensures Plain(DeleteRoute(name, prefix, v)) { }

  /** The verb, path and decorator options of the five handlers, in emission order. */
  function RouteTable(name: string, prefix: string): seq<(string, string, seq<string>)> {
    [("get", "/" + prefix, ["response_model=List[" + name + "]"]),
     ("get", "/" + prefix + "/{id}", ["response_model=" + name]),
     ("post", "/" + prefix, ["response_model=" + name, "status_code=201"]),
     ("put", "/" + prefix + "/{id}", ["response_model=" + name]),
     ("delete", "/" + prefix + "/{id}", ["status_code=204"])]
  }

  lemma HandlersFollowTable(name: string, prefix: string, v: string)
    ensures var es, t := Handlers(name, prefix, v), RouteTable(name, prefix);
      forall k :: 0 <= k < 5 ==> (es[k].verb, es[k].path, es[k].options) == t[k]
  {
  }

  lemma HandlerDeclarations(name: string, prefix: string, v: string)
    ensures var d, t := Decorators(RenderAll(Handlers(name, prefix, v))), RouteTable(name, prefix);
      |d| == 5 && forall k :: 0 <= k < 5 ==> d[k] == Decorator(t[k].0, t[k].1, t[k].2)
  {
    HandlersPlain(name, prefix, v);
    RenderDecorators(Handlers(name, prefix, v));
    HandlersFollowTable(name, prefix, v);
  }

  /**
   * Exactly five routes are declared, in this order: the list and the creation on `/<prefix>`,
   * reading, replacing and deleting one entity on `/<prefix>/{id}`; creation answers 201 and
   * deletion 204.
   */
  lemma ModelDeclarations(name: string)
    ensures var d, t := Decorators(ModelRouteLines(name)), RouteTable(name, RoutePrefix(name));
      |d| == 5 && forall k :: 0 <= k < 5 ==> d[k] == Decorator(t[k].0, t[k].1, t[k].2)
  {
    var head := ["# Routes for " + name];
    HandlerDeclarations(name, RoutePrefix(name), Lower(name));
    DecoratorsAppend(head, RenderAll(ModelRoutes(name)));
    NoDecorators(head);
  }

  /**
   * Every store call is keyed by the route prefix (not the model name); reading, replacing and
   * deleting, and only they, answer 404 "<name> not found" on a falsy store result; the list pages
   * with `skip` (default 0, at least 0) and `limit` (default 100, between 1 and 1000).
   */
  lemma HandlerStoreUse(name: string, prefix: string, v: string)
    ensures var es := Handlers(name, prefix, v);
      && (forall i :: 0 <= i < 5 ==> es[i].call.key == prefix)
      && [es[0].call.op, es[1].call.op, es[2].call.op, es[3].call.op, es[4].call.op] == ["list", "get", "create", "update", "delete"]
      && (forall i :: 0 <= i < 5 ==> (es[i].guard.Some? <==> i in {1, 3, 4}))
      && (forall i :: 0 <= i < 5 && es[i].guard.Some? ==> es[i].guard.value.model == name)
      && es[0].signature[1..3] == [Indented("skip: int = Query(0, ge=0),"), Indented("limit: int = Query(100, ge=1, le=1000),")]
  {
  }

  // ---------------------------------------------------------------------------
  // `generate_file`

  /** The docstring (with the generation time) and the imports, up to the model import list. */
  function FileHead(generated: string): seq<string> {
    ["\"\"\"Auto-generated FastAPI routes for Adcom v1.0 specification.", "",
     "This file is auto-generated. Do not edit manually.", "Generated: " + generated + "Z", "\"\"\"", "",
     "from typing import List", "from fastapi import APIRouter, HTTPException, Query, status",
     "from opendirect21.store import InMemoryStore", "",
     "from opendirect21.models.generated.adcom import ("]
  }

  /** Closing the import list, the router on `/api/v1/adcom` and the module-level store. */
  const FileTail: seq<string> := [
    ")", "", "",
    "# Create router with /api/v1/adcom prefix", "router = APIRouter(", "    prefix=\"/api/v1/adcom\",",
    "    tags=[\"adcom\"],", ")", "",
    "# Initialize data store", "store = InMemoryStore()", "", ""]

  /** Import `i` of `n`: the name, with a comma unless it is the last. */
  function ImportLine(name: string, i: nat, n: nat): string {
    "    " + name + (if i < n - 1 then "," else "")
  }

  function ImportLines(objects: seq<ObjectDef>): (r: seq<string>)
    ensures |r| == |objects|
    ensures forall i :: 0 <= i < |objects| ==> r[i] == ImportLine(objects[i].name, i, |objects|)
  {
    seq(|objects|, i requires 0 <= i < |objects| => ImportLine(objects[i].name, i, |objects|))
  }

  /** Every object is imported once, in input order, with a comma after all but the last. */
  lemma ImportCommas(objects: seq<ObjectDef>)
    ensures var r, n := ImportLines(objects), |objects|;
      && (forall i :: 0 <= i < n - 1 ==> r[i] == "    " + objects[i].name + ",")
      && (n > 0 ==> r[n - 1] == "    " + objects[n - 1].name)
  {
    var n := |objects|;
    if n > 0 {
      assert "    " + objects[n - 1].name + "" == "    " + objects[n - 1].name;
    }
  }

  const MediaNames: seq<string> := ["Ad", "Display", "Banner", "Video", "Audio", "Native"]
  const AssetNames: seq<string> := ["Asset", "LinkAsset", "ImageAsset", "VideoAsset", "TitleAsset", "DataAsset", "Event"]
  const ContextNames: seq<string> := ["Publisher", "Content", "User", "Device", "Geo"]

  /** A category banner: a rule, the title and a rule, as one text. */
  function Banner(title: string): string {
    GenAdcomModels.Rule() + "\n# " + title + "\n" + GenAdcomModels.Rule()
  }

  /** The categories in emission order: media, then assets, then context. */
  function Categories(): seq<(string, seq<string>)> {
    [(Banner("Media Objects"), MediaNames), (Banner("Asset Objects"), AssetNames),
     (Banner("Context Objects"), ContextNames)]
  }

  /** The objects whose name is listed, in input order. */
  function Selected(objects: seq<ObjectDef>, names: seq<string>): (r: seq<ObjectDef>)
    ensures |r| <= |objects|
  {
    if objects == [] then []
    else
      var last := objects[|objects| - 1];
      Selected(objects[..|objects| - 1], names) + (if last.name in names then [last] else [])
  }

  /** An object is selected exactly when it is one of the objects and its name is listed. */
  lemma {:induction false} SelectedMembers(objects: seq<ObjectDef>, names: seq<string>)
    ensures forall o :: o in Selected(objects, names) <==> o in objects && o.name in names
    decreases |objects|
  {
    if objects != [] {
      var n := |objects| - 1;
      SelectedMembers(objects[..n], names);
      assert objects == objects[..n] + [objects[n]];
    }
  }

  /** Selection keeps input order: selecting from two parts selects from each in turn. */
  lemma {:induction false} SelectedAppend(xs: seq<ObjectDef>, ys: seq<ObjectDef>, names: seq<string>)
    ensures Selected(xs + ys, names) == Selected(xs, names) + Selected(ys, names)
    decreases |ys|
  {
    if ys == [] {
      assert xs + ys == xs;
    } else {
      var n := |ys| - 1;
      SelectedAppend(xs, ys[..n], names);
      assert (xs + ys)[..|xs + ys| - 1] == xs + ys[..n];
      assert (xs + ys)[|xs + ys| - 1] == ys[n];
    }
  }

  lemma SelectedStep(objects: seq<ObjectDef>, i: nat, names: seq<string>)
    requires i < |objects|
    ensures Selected(objects[..i + 1], names)
      == Selected(objects[..i], names) + (if objects[i].name in names then [objects[i]] else [])
  {
    assert objects[..i + 1][..i] == objects[..i];
  }

  /** The handler texts of the objects, in order. */
  function RouteCodes(objects: seq<ObjectDef>): (r: seq<string>)
    ensures |r| == |objects|
  {
    seq(|objects|, i requires 0 <= i < |objects| => ModelRouteCode(objects[i].name))
  }

  /** A category: its banner, an empty line, and the handlers of its objects in input order. */
  function CategoryLines(banner: string, names: seq<string>, objects: seq<ObjectDef>): seq<string> {
    [banner, ""] + RouteCodes(Selected(objects, names))
  }

  function CategorySections(categories: seq<(string, seq<string>)>, objects: seq<ObjectDef>): seq<string> {
    if categories == [] then []
    else
      var last := categories[|categories| - 1];
      CategorySections(categories[..|categories| - 1], objects) + CategoryLines(last.0, last.1, objects)
  }

  function FileLines(objects: seq<ObjectDef>, generated: string): seq<string> {
    FileHead(generated) + ImportLines(objects) + FileTail + CategorySections(Categories(), objects)
  }

  /**
   * An object has handlers in a category exactly when its name is listed there; an object listed
   * in no category gets no handlers at all.
   */
  lemma CategoryMembers(objects: seq<ObjectDef>)
    ensures forall c, o :: 0 <= c < 3 && o in objects ==>
      (o in Selected(objects, Categories()[c].1) <==> o.name in Categories()[c].1)
    ensures forall o :: o in objects && o.name !in MediaNames && o.name !in AssetNames && o.name !in ContextNames ==>
      forall c :: 0 <= c < 3 ==> o !in Selected(objects, Categories()[c].1)
  {
    SelectedMembers(objects, MediaNames);
    SelectedMembers(objects, AssetNames);
    SelectedMembers(objects, ContextNames);
  }

  /**
   * The handlers come grouped by category, media first, then assets, then context, each group
   * under its banner and holding the listed objects in input order.
   */
  lemma CategoryOrder(objects: seq<ObjectDef>)
    ensures CategorySections(Categories(), objects)
      == [Banner("Media Objects"), ""] + RouteCodes(Selected(objects, MediaNames))
       + [Banner("Asset Objects"), ""] + RouteCodes(Selected(objects, AssetNames))
       + [Banner("Context Objects"), ""] + RouteCodes(Selected(objects, ContextNames))
  {
    var cs := Categories();
    assert cs[..2][..1][..0] == [];
    assert cs[..2][..1] == cs[..1] && cs[..3][..2] == cs[..2] && cs[..3] == cs;
    assert CategorySections(cs[..1], objects) == CategoryLines(cs[0].0, cs[0].1, objects);
    assert CategorySections(cs[..2], objects) == CategorySections(cs[..1], objects) + CategoryLines(cs[1].0, cs[1].1, objects);
  }

  /** The imports start at line 11; the first category banner follows the 13 closing lines. */
  lemma FileLayout(objects: seq<ObjectDef>, generated: string)
    ensures var lines, n := FileLines(objects, generated), |objects|;
      && |lines| > 24 + n
      && (forall i :: 0 <= i < n ==> lines[11 + i] == ImportLine(objects[i].name, i, n))
      && lines[24 + n] == Categories()[0].0
  {
    var head, imports := FileHead(generated), ImportLines(objects);
    var sections := CategorySections(Categories(), objects);
    SectionsHead(Categories(), objects);
    assert |head| == 11 && |FileTail| == 13;
    assert FileLines(objects, generated) == head + imports + FileTail + sections;
  }

  /** The sections start with the banner of the first category. */
  lemma {:induction false} SectionsHead(categories: seq<(string, seq<string>)>, objects: seq<ObjectDef>)
    requires |categories| > 0
    ensures var s := CategorySections(categories, objects); |s| > 0 && s[0] == categories[0].0
    decreases |categories|
  {
    var n := |categories| - 1;
    if n > 0 {
      SectionsHead(categories[..n], objects);
    } else {
      assert categories[..n] == [];
    }
  }

  /** `AdcomRouteGenerator.generate_file`, with the generation time as a parameter. */
  method GenerateFile(objects: seq<ObjectDef>, generated: string) returns (content: string)
    ensures content == Join(FileLines(objects, generated), "\n")
  {
    var lines := FileHead(generated);
    var imports := EmitImports(objects);
    var sections := EmitSections(Categories(), objects);
    lines := lines + imports + FileTail + sections;
    content := Join(lines, "\n");
  }

  /** The outer loop over the categories. */
  method EmitSections(categories: seq<(string, seq<string>)>, objects: seq<ObjectDef>) returns (lines: seq<string>)
    ensures lines == CategorySections(categories, objects)
  {
    lines := [];
    for c := 0 to |categories|
      invariant lines == CategorySections(categories[..c], objects)
    {
      var section := EmitCategory(categories[c].0, categories[c].1, objects);
      lines := lines + section;
      assert categories[..c + 1][..c] == categories[..c];
    }
    assert categories[..|categories|] == categories;
  }

  method EmitImports(objects: seq<ObjectDef>) returns (lines: seq<string>)
    ensures lines == ImportLines(objects)
  {
    lines := [];
    for i := 0 to |objects|
      invariant |lines| == i && forall k :: 0 <= k < i ==> lines[k] == ImportLine(objects[k].name, k, |objects|)
    {
      var comma := if i < |objects| - 1 then "," else "";
      lines := lines + ["    " + objects[i].name + comma];
    }
  }

  /** One pass of the inner loop: the banner, then the handlers of every listed object. */
  method EmitCategory(banner: string, names: seq<string>, objects: seq<ObjectDef>) returns (lines: seq<string>)
    ensures lines == CategoryLines(banner, names, objects)
  {
    lines := [banner, ""];
    ghost var selected: seq<ObjectDef> := [];
    for i := 0 to |objects|
      invariant selected == Selected(objects[..i], names)
      invariant lines == [banner, ""] + RouteCodes(selected)
    {
      SelectedStep(objects, i, names);
      if objects[i].name in names {
        var code := NextRouteCode(selected, objects[i]);
        lines := lines + [code];
        selected := selected + [objects[i]];
      }
    }
    assert objects[..|objects|] == objects;
  }

  /** The handlers of `o`, which extend those already emitted for `done`. */
  method NextRouteCode(ghost done: seq<ObjectDef>, o: ObjectDef) returns (code: string)
    ensures RouteCodes(done + [o]) == RouteCodes(done) + [code]
  {
    code := GenerateRoutesForModel(o);
    CodesAppend(done, o);
  }

  lemma CodesAppend(objects: seq<ObjectDef>, o: ObjectDef)
    ensures RouteCodes(objects + [o]) == RouteCodes(objects) + [ModelRouteCode(o.name)]
  {
  }
}
