/**
 * The shape shared by the two route generators: each emitted CRUD handler is a decorator line,
 * its signature, a docstring, one call into the store, an optional not-found guard, the return
 * lines and a closing empty line.
 */
module Routes {
  import opened Wrappers

  /** One call into the store: `<lhs>store.<op>("<key>"<args>)` on a line of its own. */
  datatype StoreCall = StoreCall(lhs: string, op: string, key: string, args: string)

  /** `if not <variable>: raise HTTPException(status_code=404, detail="<model> not found")` */
  datatype Guard = Guard(variable: string, model: string)

  /** One emitted handler. `options` are the keyword arguments of the decorator after the path. */
  datatype Endpoint = Endpoint(
    verb: string, path: string, options: seq<string>,
    signature: seq<string>, doc: string, call: StoreCall, guard: Option<Guard>, ret: seq<string>)

  /** A line of a handler body, indented by four spaces. */
  function Indented(text: string): (r: string)
    ensures |r| > 0 && r[0] == ' '
  {
    "    " + text
  }

  /** `, o1, o2, …` */
  function Options(options: seq<string>): string {
    if options == [] then "" else ", " + options[0] + Options(options[1..])
  }

  /** `@router.<verb>("<path>", <options>)` */
  function Decorator(verb: string, path: string, options: seq<string>): (r: string)
    ensures |r| > 0 && r[0] == '@'
  {
    "@router." + verb + "(\"" + path + "\"" + Options(options) + ")"
  }

  function CallLine(c: StoreCall): (r: string)
    ensures |r| > 0 && r[0] == ' '
  {
    "    " + c.lhs + "store." + c.op + "(\"" + c.key + "\"" + c.args + ")"
  }

  function NotFoundLine(model: string): (r: string)
    ensures |r| > 0 && r[0] == ' '
  {
    "        " + "raise HTTPException(status_code=404, detail=\"" + model + " not found\")"
  }

  function GuardLines(g: Option<Guard>): (r: seq<string>)
    ensures forall i :: 0 <= i < |r| ==> |r[i]| > 0 && r[i][0] == ' '
  {
    match g
    case None => []
    case Some(Guard(variable, model)) => ["    if not " + variable + ":", NotFoundLine(model)]
  }

  function EndpointLines(e: Endpoint): seq<string> {
    [Decorator(e.verb, e.path, e.options)] + e.signature + [e.doc, CallLine(e.call)] + GuardLines(e.guard) + e.ret + [""]
  }

  /** The handlers one after the other. */
  function RenderAll(es: seq<Endpoint>): seq<string> {
    Concat(Pieces(es))
  }

  function Pieces(es: seq<Endpoint>): (r: seq<seq<string>>)
    ensures |r| == |es| && forall i :: 0 <= i < |es| ==> r[i] == EndpointLines(es[i])
  {
    seq(|es|, i requires 0 <= i < |es| => EndpointLines(es[i]))
  }

  /** The pieces one after the other. */
  function Concat(pieces: seq<seq<string>>): seq<string> {
    if pieces == [] then [] else Concat(pieces[..|pieces| - 1]) + pieces[|pieces| - 1]
  }

  /** A route declaration: a line that begins with `@`. */
  predicate IsDecorator(line: string) {
    |line| > 0 && line[0] == '@'
  }

  /** The route declarations among `lines`, in order. */
  function Decorators(lines: seq<string>): (r: seq<string>)
    ensures |r| <= |lines| && forall i :: 0 <= i < |r| ==> IsDecorator(r[i])
  {
    if lines == [] then []
    else (if IsDecorator(lines[0]) then [lines[0]] else []) + Decorators(lines[1..])
  }

  /** Apart from its decorator, no line of the handler begins with `@`. */
  predicate Plain(e: Endpoint) {
    && (forall i :: 0 <= i < |e.signature| ==> !IsDecorator(e.signature[i]))
    && (forall i :: 0 <= i < |e.ret| ==> !IsDecorator(e.ret[i]))
    && !IsDecorator(e.doc)
  }

  lemma {:induction false} DecoratorsAppend(a: seq<string>, b: seq<string>)
    ensures Decorators(a + b) == Decorators(a) + Decorators(b)
    decreases |a|
  {
    if a == [] {
      assert a + b == b;
    } else {
      DecoratorsAppend(a[1..], b);
      assert (a + b)[0] == a[0];
      assert (a + b)[1..] == a[1..] + b;
    }
  }

  lemma {:induction false} NoDecorators(lines: seq<string>)
    requires forall i :: 0 <= i < |lines| ==> !IsDecorator(lines[i])
    ensures Decorators(lines) == []
    decreases |lines|
  {
    if lines != [] {
      NoDecorators(lines[1..]);
    }
  }

  /** A plain handler declares exactly one route: its own decorator. */
  lemma EndpointDecorators(e: Endpoint)
    requires Plain(e)
    ensures Decorators(EndpointLines(e)) == [Decorator(e.verb, e.path, e.options)]
  {
    var rest := e.signature + [e.doc, CallLine(e.call)] + GuardLines(e.guard) + e.ret + [""];
    assert EndpointLines(e) == [Decorator(e.verb, e.path, e.options)] + rest;
    NoDecorators(rest);
    DecoratorsAppend([Decorator(e.verb, e.path, e.options)], rest);
  }

  /** Handlers rendered one at a time add up to the rendering of all of them. */
  lemma RenderAppend(es: seq<Endpoint>, e: Endpoint)
    ensures RenderAll(es + [e]) == RenderAll(es) + EndpointLines(e)
  {
    var ps := Pieces(es + [e]);
    assert ps[..|es|] == Pieces(es);
  }

  /** Emitting handler `k` of `es` after the `k` handlers before it. */
  method AppendEndpoint(lines: seq<string>, ghost es: seq<Endpoint>, k: nat, e: Endpoint) returns (r: seq<string>)
    requires k < |es| && e == es[k] && lines == RenderAll(es[..k])
    ensures r == RenderAll(es[..k + 1])
  {
    r := lines + EndpointLines(e);
    RenderAppend(es[..k], e);
    assert es[..k + 1] == es[..k] + [e];
  }

  /** No handler rendered yet. */
  lemma RenderNone(es: seq<Endpoint>)
    ensures RenderAll(es[..0]) == []
  {
    assert Pieces(es[..0]) == [];
  }

  /** Pieces declaring one route each declare, together, those routes in order. */
  lemma {:induction false} ConcatDecorators(pieces: seq<seq<string>>, ds: seq<string>)
    requires |pieces| == |ds| && forall i :: 0 <= i < |ds| ==> Decorators(pieces[i]) == [ds[i]]
    ensures Decorators(Concat(pieces)) == ds
    decreases |ds|
  {
    if ds != [] {
      var n := |ds| - 1;
      ConcatDecorators(pieces[..n], ds[..n]);
      DecoratorsAppend(Concat(pieces[..n]), pieces[n]);
      assert ds == ds[..n] + [ds[n]];
    }
  }

  function DecoratorsOf(es: seq<Endpoint>): (r: seq<string>)
    ensures |r| == |es| && forall i :: 0 <= i < |es| ==> r[i] == Decorator(es[i].verb, es[i].path, es[i].options)
  {
    seq(|es|, i requires 0 <= i < |es| => Decorator(es[i].verb, es[i].path, es[i].options))
  }

  /** Rendered plain handlers declare one route each, in order. */
  lemma RenderDecorators(es: seq<Endpoint>)
    requires forall i :: 0 <= i < |es| ==> Plain(es[i])
    ensures Decorators(RenderAll(es)) == DecoratorsOf(es)
  {
    var pieces, ds := Pieces(es), DecoratorsOf(es);
    forall i | 0 <= i < |ds| ensures Decorators(pieces[i]) == [ds[i]] {
      EndpointDecorators(es[i]);
    }
    ConcatDecorators(pieces, ds);
  }

  /** The store call of a handler follows its signature and docstring; a guard follows the call. */
  lemma EndpointCallAt(e: Endpoint)
    ensures var lines, k := EndpointLines(e), |e.signature| + 2;
      && k < |lines| && lines[k] == CallLine(e.call)
      && (e.guard.Some? ==> k + 2 < |lines| && lines[k + 2] == NotFoundLine(e.guard.value.model))
      && (e.guard.None? ==> forall i :: k < i < |lines| ==> lines[i] in e.ret + [""])
  {
  }
}
