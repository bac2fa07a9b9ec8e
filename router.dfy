/**
 * The HTTP router: routes registered in order under a base path, and a dispatch that picks
 * the first route whose method and `{param}` pattern match the request path.
 */
module Routing {
  import opened Results
  import opened Text

  /** A registered route; the handler is an opaque callable, named by a number. */
  datatype Rota = Rota(metodo: string, caminho: string, handler: nat)

  /** The route `dispatch` picked, its position, and the parameters it passes to the handler. */
  datatype Despachado = Despachado(indice: nat, handler: nat, params: seq<string>)

  /** The pieces of `s` between occurrences of `c`. */
  function Split(s: string, c: char): (r: seq<string>)
    ensures |r| >= 1
    ensures forall i :: 0 <= i < |r| ==> c !in r[i]
  {
    if s == [] then [""]
    else
      var rest := Split(s[1..], c);
      if s[0] == c then [""] + rest else [[s[0]] + rest[0]] + rest[1..]
  }

  /** A whole path segment of the form `{name}` (what `/\{[^}]+\}/` replaces). */
  predicate IsPlaceholder(seg: string)
  {
    |seg| >= 3 && seg[0] == '{' && seg[|seg| - 1] == '}' && '}' !in seg[1..|seg| - 1]
  }

  /** `#^pattern$#` segment by segment: a placeholder takes a non-empty segment, a literal only itself. */
  predicate CasaSegmentos(ps: seq<string>, us: seq<string>)
  {
    |ps| == |us| && forall i :: 0 <= i < |ps| ==> if IsPlaceholder(ps[i]) then us[i] != "" else us[i] == ps[i]
  }

  /** `matchPath`. */
  predicate Casa(pattern: string, uri: string)
  {
    CasaSegmentos(Split(pattern, '/'), Split(uri, '/'))
  }

  /** The segments the placeholders captured, left to right. */
  function Capturas(ps: seq<string>, us: seq<string>): seq<string>
    requires |ps| == |us|
  {
    if ps == [] then []
    else (if IsPlaceholder(ps[0]) then [us[0]] else []) + Capturas(ps[1..], us[1..])
  }

  /** How many placeholders a pattern's segments hold. */
  function Placeholders(ps: seq<string>): nat
  {
    if ps == [] then 0 else (if IsPlaceholder(ps[0]) then 1 else 0) + Placeholders(ps[1..])
  }

  /** `extractParams`: the captures of a match, and none when the path does not match. */
  function Params(pattern: string, uri: string): seq<string>
  {
    if Casa(pattern, uri) then Capturas(Split(pattern, '/'), Split(uri, '/')) else []
  }

  /** The test `dispatch` applies to each route. */
  predicate Aceita(r: Rota, metodo: string, uri: string)
  {
    r.metodo == metodo && Casa(r.caminho, uri)
  }

  class Router {
    var routes: seq<Rota>
    var basePath: string

    /** `rtrim($basePath, '/')`. */
    constructor (basePath: string)
      ensures this.basePath == TrimRight(basePath, '/') && routes == []
    {
      this.basePath := TrimRight(basePath, '/');
      routes := [];
    }

    method AddRoute(metodo: string, path: string, handler: nat)
      modifies this
      ensures routes == old(routes) + [Rota(metodo, basePath + path, handler)]
      ensures basePath == old(basePath)
    {
      routes := routes + [Rota(metodo, basePath + path, handler)];
    }

    method Post(path: string, handler: nat)
      modifies this
      ensures routes == old(routes) + [Rota("POST", basePath + path, handler)] && basePath == old(basePath)
    {
      AddRoute("POST", path, handler);
    }

    method Get(path: string, handler: nat)
      modifies this
      ensures routes == old(routes) + [Rota("GET", basePath + path, handler)] && basePath == old(basePath)
    {
      AddRoute("GET", path, handler);
    }

    method Put(path: string, handler: nat)
      modifies this
      ensures routes == old(routes) + [Rota("PUT", basePath + path, handler)] && basePath == old(basePath)
    {
      AddRoute("PUT", path, handler);
    }

    method Delete(path: string, handler: nat)
      modifies this
      ensures routes == old(routes) + [Rota("DELETE", basePath + path, handler)] && basePath == old(basePath)
    {
      AddRoute("DELETE", path, handler);
    }

    /**
     * `dispatch` for a request method and path: the first route, in registration order, that
     * accepts it, with its parameters; None is the 404 answer.
     */
    method Dispatch(metodo: string, uri: string) returns (r: Option<Despachado>)
      ensures r.None? <==> forall j :: 0 <= j < |routes| ==> !Aceita(routes[j], metodo, uri)
      ensures r.Some? ==>
        && r.value.indice < |routes|
        && Aceita(routes[r.value.indice], metodo, uri)
        && (forall j :: 0 <= j < r.value.indice ==> !Aceita(routes[j], metodo, uri))
        && r.value.handler == routes[r.value.indice].handler
        && r.value.params == Params(routes[r.value.indice].caminho, uri)
    {
      var i := 0;
      while i < |routes|
        invariant 0 <= i <= |routes|
        invariant forall j :: 0 <= j < i ==> !Aceita(routes[j], metodo, uri)
      {
        if routes[i].metodo == metodo && Casa(routes[i].caminho, uri) {
          return Some(Despachado(i, routes[i].handler, Params(routes[i].caminho, uri)));
        }
        i := i + 1;
      }
      return None;
    }
  }
}
