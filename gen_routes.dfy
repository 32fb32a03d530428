/**
 * `RouteGenerator` for OpenDirect 2.1: five CRUD handlers per object, keyed in the store by the
 * object's own name, and the module that imports every model and registers every handler.
 */
module GenRoutes {
  import opened Strings
  import opened Wrappers
  import opened Routes
  import opened MdTables

  /** `f"/{model_name.lower()}s"` */
  function RoutePrefix(name: string): (r: string)
    ensures |r| == |name| + 2 && r[0] == '/' && r[|r| - 1] == 's'
    ensures r[1..|r| - 1] == Lower(name)
  {
    "/" + Lower(name) + "s"
  }

  const StoreParam := Indented("store: InMemoryStore = Depends(get_store),")
  const IdParam := Indented("id: str = Path(..., description='Unique identifier'),")
  const SkipParam := Indented("skip: int = Query(0, ge=0, description='Number of items to skip'),")
  const LimitParam := Indented("limit: int = Query(100, ge=1, le=1000, description='Max items to return'),")

  function ListRoute(name: string, prefix: string, v: string): Endpoint {
    Endpoint("get", prefix, ["response_model=list[" + name + "]"],
      ["async def list_" + v + "s(", SkipParam, LimitParam, StoreParam, ") -> list[dict]:"],
      Indented("\"\"\"List all " + name + " objects with pagination.\"\"\""),
      StoreCall("return ", "list", name, ", skip=skip, limit=limit"), None, [])
  }

  function GetRoute(name: string, prefix: string, v: string): Endpoint {
    Endpoint("get", prefix + "/{id}", ["response_model=" + name],
      ["async def get_" + v + "(", IdParam, StoreParam, ") -> dict:"],
      Indented("\"\"\"Get a specific " + name + " by ID.\"\"\""),
      StoreCall("entity = ", "get", name, ", id"), Some(Guard("entity", name)), [Indented("return entity")])
  }

  function CreateRoute(name: string, prefix: string, v: string): Endpoint {
    Endpoint("post", prefix, ["response_model=" + name, "status_code=201"],
      ["async def create_" + v + "(", Indented("entity: " + name + ","), StoreParam, ") -> dict:"],
      Indented("\"\"\"Create a new " + name + ".\"\"\""),
      StoreCall("created = ", "create", name, ", entity.model_dump()"), None, [Indented("return created")])
  }

  function UpdateRoute(name: string, prefix: string, v: string): Endpoint {
    Endpoint("put", prefix + "/{id}", ["response_model=" + name],
      ["async def update_" + v + "(", Indented("entity: " + name + ","), IdParam, StoreParam, ") -> dict:"],
      Indented("\"\"\"Update an existing " + name + ".\"\"\""),
      StoreCall("updated = ", "update", name, ", id, entity.model_dump()"), Some(Guard("updated", name)),
      [Indented("return updated")])
  }

  function DeleteRoute(name: string, prefix: string, v: string): Endpoint {
    Endpoint("delete", prefix + "/{id}", ["status_code=204"],
      ["async def delete_" + v + "(", IdParam, StoreParam, ") -> None:"],
      Indented("\"\"\"Delete a " + name + ".\"\"\""),
      StoreCall("success = ", "delete", name, ", id"), Some(Guard("success", name)), [])
  }

  /** The five handlers for `name`, on `prefix`, with handler names built from `v`. */
  function Handlers(name: string, prefix: string, v: string): (r: seq<Endpoint>)
    ensures |r| == 5
  {
    seq(5, k requires 0 <= k < 5 => Handler(name, prefix, v, k))
  }

  /** Handler `k` in emission order: list, read, create, replace, delete. */
  function Handler(name: string, prefix: string, v: string, k: nat): Endpoint
    requires k < 5
  {
    match k
    case 0 => ListRoute(name, prefix, v)
    case 1 => GetRoute(name, prefix, v)
    case 2 => CreateRoute(name, prefix, v)
    case 3 => UpdateRoute(name, prefix, v)
    case 4 => DeleteRoute(name, prefix, v)
  }

  /** The handlers `generate_crud_routes` emits, in order. */
  function CrudRoutes(name: string): seq<Endpoint> {
    Handlers(name, RoutePrefix(name), Lower(name))
  }

  /** `generate_crud_routes` as lines: a comment, an empty line, then the five handlers. */
  function CrudLines(name: string): seq<string> {
    ["# " + name + " routes", ""] + RenderAll(CrudRoutes(name))
  }

  function CrudCode(name: string): string {
    Join(CrudLines(name), "\n")
  }

  /** `RouteGenerator.generate_crud_routes` */
  method GenerateCrudRoutes(obj: ObjectDef) returns (code: string)
    ensures code == CrudCode(obj.name)
  {
    var name := obj.name;
    var prefix := "/" + Lower(name) + "s";
    var v := Lower(name);
    var lines := ["# " + name + " routes", ""];
    var handlers := EmitHandlers(name, prefix, v);
    lines := lines + handlers;
    code := Join(lines, "\n");
  }

  /** The five handlers appended one after the other. */
  method EmitHandlers(name: string, prefix: string, v: string) returns (lines: seq<string>)
    ensures lines == RenderAll(Handlers(name, prefix, v))
  {
    ghost var es := Handlers(name, prefix, v);
    RenderNone(es);
    lines := [];
    lines := EmitHandler(lines, name, prefix, v, 0);
    lines := EmitHandler(lines, name, prefix, v, 1);
    lines := EmitHandler(lines, name, prefix, v, 2);
    lines := EmitHandler(lines, name, prefix, v, 3);
    lines := EmitHandler(lines, name, prefix, v, 4);
    assert es[..|es|] == es;
  }

  /** One block of appends: handler `k` after the `k` before it. */
  method EmitHandler(lines: seq<string>, name: string, prefix: string, v: string, k: nat) returns (r: seq<string>)
    requires k < 5 && lines == RenderAll(Handlers(name, prefix, v)[..k])
    ensures r == RenderAll(Handlers(name, prefix, v)[..k + 1])
  {
    r := AppendEndpoint(lines, Handlers(name, prefix, v), k, Handler(name, prefix, v, k));
  }

  lemma HandlersPlain(name: string, prefix: string, v: string)
    ensures forall i :: 0 <= i < 5 ==> Plain(Handlers(name, prefix, v)[i])
  {
    ListPlain(name, prefix, v);
    GetPlain(name, prefix, v);
    CreatePlain(name, prefix, v);
    UpdatePlain(name, prefix, v);
    DeletePlain(name, prefix, v);
  }

  lemma ListPlain(name: string, prefix: string, v: string) ensures Plain(ListRoute(name, prefix, v)) { }
  lemma GetPlain(name: string, prefix: string, v: string) ensures Plain(GetRoute(name, prefix, v)) { }
  lemma CreatePlain(name: string, prefix: string, v: string) ensures Plain(CreateRoute(name, prefix, v)) { }
  lemma UpdatePlain(name: string, prefix: string, v: string) ensures Plain(UpdateRoute(name, prefix, v)) { }
  lemma DeletePlain(name: string, prefix: string, v: string) ensures Plain(DeleteRoute(name, prefix, v)) { }

  /** The verb, path and decorator options of the five handlers, in emission order. */
  function RouteTable(name: string, prefix: string): seq<(string, string, seq<string>)> {
    [("get", prefix, ["response_model=list[" + name + "]"]),
     ("get", prefix + "/{id}", ["response_model=" + name]),
     ("post", prefix, ["response_model=" + name, "status_code=201"]),
     ("put", prefix + "/{id}", ["response_model=" + name]),
     ("delete", prefix + "/{id}", ["status_code=204"])]
  }

  lemma HandlersFollowTable(name: string, prefix: string, v: string)
    ensures var es, t := Handlers(name, prefix, v), RouteTable(name, prefix);
      forall k :: 0 <= k < 5 ==> (es[k].verb, es[k].path, es[k].options) == t[k]
  {
  }

  /** The five handlers declare, in order: list, read, create, replace, delete. */
  lemma HandlerDeclarations(name: string, prefix: string, v: string)
    ensures var d, t := Decorators(RenderAll(Handlers(name, prefix, v))), RouteTable(name, prefix);
      |d| == 5 && forall k :: 0 <= k < 5 ==> d[k] == Decorator(t[k].0, t[k].1, t[k].2)
  {
    var es := Handlers(name, prefix, v);
    HandlersPlain(name, prefix, v);
    RenderDecorators(es);
    HandlersFollowTable(name, prefix, v);
  }

  /**
   * Exactly five routes are declared, in this order: the list and the creation on the plural
   * prefix, reading, replacing and deleting one entity on `<prefix>/{id}`; creation answers 201
   * and deletion 204.
   */
  lemma CrudDeclarations(name: string)
    ensures var d, t := Decorators(CrudLines(name)), RouteTable(name, RoutePrefix(name));
      |d| == 5 && forall k :: 0 <= k < 5 ==> d[k] == Decorator(t[k].0, t[k].1, t[k].2)
  {
    var head := ["# " + name + " routes", ""];
    HandlerDeclarations(name, RoutePrefix(name), Lower(name));
    DecoratorsAppend(head, RenderAll(CrudRoutes(name)));
    NoDecorators(head);
  }

  /**
   * Every store call is keyed by the model name itself; reading, replacing and deleting, and only
   * they, answer 404 "<name> not found" on a falsy store result; the list pages with `skip`
   * (default 0, at least 0) and `limit` (default 100, between 1 and 1000).
   */
  lemma HandlerStoreUse(name: string, prefix: string, v: string)
    ensures var es := Handlers(name, prefix, v);
      && |es| == 5
      && (forall i :: 0 <= i < 5 ==> es[i].call.key == name)
      && [es[0].call.op, es[1].call.op, es[2].call.op, es[3].call.op, es[4].call.op] == ["list", "get", "create", "update", "delete"]
      && (forall i :: 0 <= i < 5 ==> (es[i].guard.Some? <==> i in {1, 3, 4}))
      && (forall i :: 0 <= i < 5 && es[i].guard.Some? ==> es[i].guard.value.model == name)
      && es[0].signature[1..3] == [SkipParam, LimitParam]
  {
  }

  // ---------------------------------------------------------------------------
  // `generate_all_routes`, without the file write

  const AllRoutesHead: seq<string> := [
    "\"\"\"Auto-generated FastAPI routes from OpenDirect 2.1 specification.\"\"\"", "",
    "# This file is auto-generated. Do not edit manually.", "",
    "from fastapi import APIRouter, HTTPException, Depends, Query, Path",
    "from opendirect21.store import InMemoryStore, get_store", "",
    "from opendirect21.models.generated import ("]

  const RouterLine := "router = APIRouter(prefix=\"/api/v1\", tags=[\"opendirect\"])"

  /** One `    <name>,` line per object, in order. */
  function ImportLines(objects: seq<ObjectDef>): (r: seq<string>)
    ensures |r| == |objects| && forall i :: 0 <= i < |objects| ==> r[i] == "    " + objects[i].name + ","
  {
    seq(|objects|, i requires 0 <= i < |objects| => "    " + objects[i].name + ",")
  }

  /** Each text followed by an empty line. */
  function PairBlocks(codes: seq<string>): (r: seq<string>)
    ensures |r| == 2 * |codes|
  {
    if codes == [] then [] else PairBlocks(codes[..|codes| - 1]) + [codes[|codes| - 1], ""]
  }

  lemma {:induction false} PairBlocksAt(codes: seq<string>)
    ensures forall i :: 0 <= i < |codes| ==> PairBlocks(codes)[2 * i] == codes[i] && PairBlocks(codes)[2 * i + 1] == ""
    decreases |codes|
  {
    if codes != [] {
      var n := |codes| - 1;
      PairBlocksAt(codes[..n]);
      forall i | 0 <= i < n ensures codes[..n][i] == codes[i] {
      }
    }
  }

  lemma PairBlocksStep(codes: seq<string>, i: nat)
    requires i < |codes|
    ensures PairBlocks(codes[..i + 1]) == PairBlocks(codes[..i]) + [codes[i], ""]
  {
    assert codes[..i + 1][..i] == codes[..i];
  }

  /** The handler texts of the objects, in order. */
  function CrudCodes(objects: seq<ObjectDef>): (r: seq<string>)
    ensures |r| == |objects|
  {
    seq(|objects|, i requires 0 <= i < |objects| => CrudCode(objects[i].name))
  }

  function RouteBlocks(objects: seq<ObjectDef>): seq<string> {
    PairBlocks(CrudCodes(objects))
  }

  function ImportSection(objects: seq<ObjectDef>): seq<string> {
    AllRoutesHead + ImportLines(objects) + [")", "", "", RouterLine, "", ""]
  }

  function AllRoutesLines(objects: seq<ObjectDef>): seq<string> {
    ImportSection(objects) + RouteBlocks(objects)
  }

  lemma ImportSectionAt(objects: seq<ObjectDef>)
    ensures var s, n := ImportSection(objects), |objects|;
      && |s| == n + 14
      && (forall i :: 0 <= i < n ==> s[8 + i] == "    " + objects[i].name + ",")
      && s[n + 11] == RouterLine
  {
  }

  /**
   * The module imports every model once, in input order, declares the router on `/api/v1`, and
   * then carries each object's handlers in input order, each followed by an empty line.
   */
  lemma AllRoutesLayout(objects: seq<ObjectDef>)
    ensures var lines, n := AllRoutesLines(objects), |objects|;
      && |lines| == 14 + 3 * n
      && (forall i :: 0 <= i < n ==> lines[8 + i] == "    " + objects[i].name + ",")
      && lines[n + 11] == RouterLine
      && (forall i :: 0 <= i < n ==> lines[14 + n + 2 * i] == CrudCodes(objects)[i])
      && (forall i :: 0 <= i < n ==> lines[15 + n + 2 * i] == "")
  {
    FileLayoutOf(objects, CrudCodes(objects));
  }

  lemma FileLayoutOf(objects: seq<ObjectDef>, codes: seq<string>)
    requires |codes| == |objects|
    ensures var lines, n := ImportSection(objects) + PairBlocks(codes), |objects|;
      && |lines| == 14 + 3 * n
      && (forall i :: 0 <= i < n ==> lines[8 + i] == "    " + objects[i].name + ",")
      && lines[n + 11] == RouterLine
      && (forall i :: 0 <= i < n ==> lines[14 + n + 2 * i] == codes[i])
      && (forall i :: 0 <= i < n ==> lines[15 + n + 2 * i] == "")
  {
    ImportSectionAt(objects);
    PairBlocksAt(codes);
  }

  /** `RouteGenerator.generate_all_routes` up to the joined content it writes. */
  method GenerateAllRoutes(objects: seq<ObjectDef>) returns (content: string)
    ensures content == Join(AllRoutesLines(objects), "\n")
  {
    var lines := EmitImportSection(objects);
    var blocks := EmitRouteBlocks(objects);
    lines := lines + blocks;
    content := Join(lines, "\n");
  }

  method EmitImportSection(objects: seq<ObjectDef>) returns (lines: seq<string>)
    ensures lines == ImportSection(objects)
  {
    lines := AllRoutesHead;
    for i := 0 to |objects|
      invariant lines == AllRoutesHead + ImportLines(objects[..i])
    {
      lines := lines + ["    " + objects[i].name + ","];
      assert ImportLines(objects[..i + 1]) == ImportLines(objects[..i]) + ["    " + objects[i].name + ","];
    }
    assert objects[..|objects|] == objects;
    lines := lines + [")", "", "", RouterLine, "", ""];
  }

  method EmitRouteBlocks(objects: seq<ObjectDef>) returns (lines: seq<string>)
    ensures lines == RouteBlocks(objects)
  {
    ghost var codes := CrudCodes(objects);
    lines := [];
    for i := 0 to |objects|
      invariant lines == PairBlocks(codes[..i])
    {
      var code := CrudCodeAt(objects, i);
      lines := lines + [code, ""];
      PairBlocksStep(codes, i);
    }
    assert codes[..|objects|] == codes;
  }

  /** The handlers of object `i`. */
  method CrudCodeAt(objects: seq<ObjectDef>, i: nat) returns (code: string)
    requires i < |objects|
    ensures code == CrudCodes(objects)[i]
  {
    code := GenerateCrudRoutes(objects[i]);
  }
}
