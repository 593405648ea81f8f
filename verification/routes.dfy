/** Route registration and dispatch: the `@Route` decorator
    (backend/src/decorators/route.decorator.ts) fills a table from method to
    path to handler list; `configureRoutes` and `configureErrorHandling`
    (backend/src/app.ts) turn the controllers' tables into the ordered list
    of layers Express tries, followed by the 404 catch-all and the error
    handler. */
module Routes {
  import opened Wrappers
  import OrderedMaps
  import opened Errors

  /** The methods a route is declared with; `All` is `app.all`. */
  datatype Verb = Get | Post | Put | Patch | Delete | All

  /** One segment of a route path: a literal or a `:name` parameter. */
  datatype Segment = Lit(text: string) | Param(name: string)

  /** A route path by its segments: '/send/:receiverId' is
      `[Lit("send"), Param("receiverId")]`, '' is `[]` and '/' is `[Lit("")]`. */
  type RoutePath = seq<Segment>

  function SegmentText(s: Segment): string {
    match s
    case Lit(t) => t
    case Param(n) => ":" + n
  }

  /** The path as it is written. */
  function Render(p: RoutePath): string {
    if |p| == 0 then "" else "/" + SegmentText(p[0]) + Render(p[1..])
  }

  /** Joining paths is joining their texts, which is how the mounted path
      is built from its three parts. */
  lemma {:induction false} RenderAppend(a: RoutePath, b: RoutePath)
    ensures Render(a + b) == Render(a) + Render(b)
  {
    if |a| == 0 {
      assert a + b == b;
    } else {
      assert (a + b)[1..] == a[1..] + b;
      RenderAppend(a[1..], b);
    }
  }

  /** The middleware and handlers a route runs, by name. */
  datatype Handler =
    | ProtectRoute
    | Validate(schema: string)
    | Action(name: string)
    | NotFoundHandler
    | ErrorHandler

  /** `Map<string, RequestHandler[]>` and `Map<method, ...>`, in insertion order. */
  type PathTable = OrderedMaps.OrderedMap<RoutePath, seq<Handler>>
  type RouteTable = OrderedMaps.OrderedMap<Verb, PathTable>

  /** One `@Route(method, path, ...middleware)` on a method `action`;
      `path` is `None` when the argument is omitted. */
  datatype Decl = Decl(verb: Verb, path: Option<RoutePath>, middleware: seq<Handler>, action: Handler)

  /** The path a declaration registers: omitted means ''. */
  function PathOf(d: Decl): RoutePath {
    d.path.GetOr([])
  }

  /** The handler list stored under a method and a path, if any. */
  function Lookup(table: RouteTable, verb: Verb, path: RoutePath): Option<seq<Handler>> {
    match OrderedMaps.Get(table, verb)
    case None => None
    case Some(paths) => OrderedMaps.Get(paths, path)
  }

  /** The decorator applied to `table`: the method's path table is created
      on first use, and the path is set to the middleware followed by the
      decorated method. */
  function Route(table: RouteTable, d: Decl): (r: RouteTable)
    ensures Lookup(r, d.verb, PathOf(d)) == Some(d.middleware + [d.action])
    ensures forall v, p :: v != d.verb || p != PathOf(d) ==> Lookup(r, v, p) == Lookup(table, v, p)
    ensures OrderedMaps.Keys(r) == if d.verb in OrderedMaps.Keys(table) then OrderedMaps.Keys(table) else OrderedMaps.Keys(table) + [d.verb]
    ensures OrderedMaps.Wf(table) ==> OrderedMaps.Wf(r)
  {
    var paths := OrderedMaps.Get(table, d.verb).GetOr([]);
    var paths' := OrderedMaps.Put(paths, PathOf(d), d.middleware + [d.action]);
    var r := OrderedMaps.Put(table, d.verb, paths');
    RouteLookups(table, d.verb, paths, paths', PathOf(d), d.middleware + [d.action]);
    OrderedMaps.PutKeys(table, d.verb, paths');
    if OrderedMaps.Wf(table) then OrderedMaps.PutWf(table, d.verb, paths'); r else r
  }

  lemma RouteLookups(table: RouteTable, verb: Verb, paths: PathTable, paths': PathTable, path: RoutePath, hs: seq<Handler>)
    requires paths == OrderedMaps.Get(table, verb).GetOr([]) && paths' == OrderedMaps.Put(paths, path, hs)
    ensures Lookup(OrderedMaps.Put(table, verb, paths'), verb, path) == Some(hs)
    ensures forall v, p :: v != verb || p != path ==> Lookup(OrderedMaps.Put(table, verb, paths'), v, p) == Lookup(table, v, p)
  {
    forall v, p
      ensures Lookup(OrderedMaps.Put(table, verb, paths'), v, p) ==
              if v == verb && p == path then Some(hs) else Lookup(table, v, p)
    {
      RouteLookup(table, verb, paths, paths', path, hs, v, p);
    }
  }

  lemma RouteLookup(table: RouteTable, verb: Verb, paths: PathTable, paths': PathTable, path: RoutePath, hs: seq<Handler>,
                    v: Verb, p: RoutePath)
    requires paths == OrderedMaps.Get(table, verb).GetOr([]) && paths' == OrderedMaps.Put(paths, path, hs)
    ensures Lookup(OrderedMaps.Put(table, verb, paths'), v, p) ==
            if v == verb && p == path then Some(hs) else Lookup(table, v, p)
  {
    OrderedMaps.PutGet(table, verb, paths', v);
    OrderedMaps.PutGet(paths, path, hs, p);
    if v == verb && OrderedMaps.Get(table, verb).None? {
      assert paths == [];
    }
  }

  /** The first declaration with a method creates the method's path table
      after those of the methods already in use. */
  lemma RouteFirstUse(table: RouteTable, d: Decl)
    requires d.verb !in OrderedMaps.Keys(table)
    ensures Route(table, d) == table + [(d.verb, [(PathOf(d), d.middleware + [d.action])])]
  {
    OrderedMaps.PutAppends(table, d.verb, [(PathOf(d), d.middleware + [d.action])]);
  }

  /** A later declaration with that method and a new path adds the path at
      the end of that method's table and leaves every other method's alone. */
  lemma RouteNewPath(table: RouteTable, d: Decl, g: nat)
    requires OrderedMaps.Wf(table) && g < |table| && table[g].0 == d.verb
    requires PathOf(d) !in OrderedMaps.Keys(table[g].1)
    ensures Route(table, d) == table[g := (d.verb, table[g].1 + [(PathOf(d), d.middleware + [d.action])])]
  {
    OrderedMaps.GetAt(table, g);
    OrderedMaps.PutAppends(table[g].1, PathOf(d), d.middleware + [d.action]);
    OrderedMaps.PutReplaces(table, d.verb, table[g].1 + [(PathOf(d), d.middleware + [d.action])], g);
  }

  /** All of a class's decorators, in declaration order. */
  function Register(decls: seq<Decl>): RouteTable
    decreases |decls|
  {
    if |decls| == 0 then [] else Route(Register(decls[..|decls| - 1]), decls[|decls| - 1])
  }

  /** One more decorator is one more `Route` on the table built so far. */
  lemma RegisterSnoc(decls: seq<Decl>, d: Decl)
    ensures Register(decls + [d]) == Route(Register(decls), d)
  {
    assert (decls + [d])[..|decls|] == decls;
  }

  /** A class's first declaration with a method adds that method's table at the end. */
  lemma RegisterFirstUse(decls: seq<Decl>, d: Decl)
    requires d.verb !in OrderedMaps.Keys(Register(decls))
    ensures Register(decls + [d]) == Register(decls) + [(d.verb, [(PathOf(d), d.middleware + [d.action])])]
  {
    RegisterSnoc(decls, d);
    RouteFirstUse(Register(decls), d);
  }

  /** A later declaration with a new path extends its method's table in place. */
  lemma RegisterNewPath(decls: seq<Decl>, d: Decl, g: nat)
    requires g < |Register(decls)| && Register(decls)[g].0 == d.verb
    requires PathOf(d) !in OrderedMaps.Keys(Register(decls)[g].1)
    ensures Register(decls + [d]) ==
      Register(decls)[g := (d.verb, Register(decls)[g].1 + [(PathOf(d), d.middleware + [d.action])])]
  {
    RegisterSnoc(decls, d);
    RegisterWf(decls);
    RouteNewPath(Register(decls), d, g);
  }

  /** The reference reading of a class's routes: the handler list of the
      last declaration with that method and path. */
  function LastDeclared(decls: seq<Decl>, verb: Verb, path: RoutePath): Option<seq<Handler>>
    decreases |decls|
  {
    if |decls| == 0 then None
    else
      var d := decls[|decls| - 1];
      if d.verb == verb && PathOf(d) == path then Some(d.middleware + [d.action])
      else LastDeclared(decls[..|decls| - 1], verb, path)
  }

  /** Registrations accumulate, and a repeated method and path replaces the
      earlier handler list. */
  lemma {:induction false} RegisterLookup(decls: seq<Decl>, verb: Verb, path: RoutePath)
    ensures Lookup(Register(decls), verb, path) == LastDeclared(decls, verb, path)
    decreases |decls|
  {
    if |decls| > 0 {
      RegisterLookup(decls[..|decls| - 1], verb, path);
    }
  }

  /** Each method has one path table, whatever the number of declarations. */
  lemma {:induction false} RegisterWf(decls: seq<Decl>)
    ensures OrderedMaps.Wf(Register(decls))
    decreases |decls|
  {
    if |decls| > 0 {
      RegisterWf(decls[..|decls| - 1]);
    }
  }

  // ----- mounting -----

  /** A controller class: its `@Controller` base path and its declarations. */
  datatype Controller = Controller(base: RoutePath, decls: seq<Decl>)

  /** '/api/v1'. */
  const ApiBase: RoutePath := [Lit("api"), Lit("v1")]

  lemma ApiBaseText()
    ensures Render(ApiBase) == "/api/v1"
  {
    assert Render(ApiBase[1..]) == "/v1";
  }

  /** What a layer's path accepts: exactly one path, or every path that
      continues a prefix (the trailing star of the catch-all). */
  datatype Pattern = Exact(path: RoutePath) | Prefix(path: RoutePath)

  /** A layer of the application stack: a route, or the error middleware. */
  datatype Layer = RouteLayer(verb: Verb, pattern: Pattern, handlers: seq<Handler>) | ErrorLayer(handler: Handler)

  /** One method's paths under `prefix`, in path-insertion order. */
  function PathLayers(verb: Verb, prefix: RoutePath, paths: PathTable): (r: seq<Layer>)
    ensures |r| == |paths|
    ensures forall i :: 0 <= i < |r| ==> r[i] == RouteLayer(verb, Exact(prefix + paths[i].0), paths[i].1)
  {
    if |paths| == 0 then [] else [RouteLayer(verb, Exact(prefix + paths[0].0), paths[0].1)] + PathLayers(verb, prefix, paths[1..])
  }

  /** A class's table under `prefix`, in method-insertion order. */
  function TableLayers(prefix: RoutePath, table: RouteTable): (r: seq<Layer>)
    ensures forall l :: l in r ==> exists i :: 0 <= i < |table| && l in PathLayers(table[i].0, prefix, table[i].1)
    ensures forall i, l :: 0 <= i < |table| && l in PathLayers(table[i].0, prefix, table[i].1) ==> l in r
  {
    if |table| == 0 then []
    else
      var rest := TableLayers(prefix, table[1..]);
      assert forall i :: 1 <= i < |table| ==> table[i] == table[1..][i - 1];
      PathLayers(table[0].0, prefix, table[0].1) + rest
  }

  /** The layers of a table are its first method's, then the rest's. */
  lemma TableLayersCons(prefix: RoutePath, e: (Verb, PathTable), table: RouteTable)
    ensures TableLayers(prefix, [e] + table) == PathLayers(e.0, prefix, e.1) + TableLayers(prefix, table)
  {
    assert ([e] + table)[1..] == table;
  }

  /** `configureRoutes(controllers)`: every route at
      '/api/v1' + base path + route path, class by class. */
  function Mount(controllers: seq<Controller>): seq<Layer> {
    if |controllers| == 0 then []
    else TableLayers(ApiBase + controllers[0].base, Register(controllers[0].decls)) + Mount(controllers[1..])
  }

  /** Classes are mounted one after the other. */
  lemma MountCons(c: Controller, rest: seq<Controller>)
    ensures Mount([c] + rest) == TableLayers(ApiBase + c.base, Register(c.decls)) + Mount(rest)
  {
    assert ([c] + rest)[1..] == rest;
  }

  /** Every path table of the class table holds each path once. */
  ghost predicate DeepWf(table: RouteTable) {
    OrderedMaps.Wf(table) && forall i :: 0 <= i < |table| ==> OrderedMaps.Wf(table[i].1)
  }

  lemma RouteDeepWf(table: RouteTable, d: Decl)
    requires DeepWf(table)
    ensures DeepWf(Route(table, d))
  {
    var paths := OrderedMaps.Get(table, d.verb).GetOr([]);
    var paths' := OrderedMaps.Put(paths, PathOf(d), d.middleware + [d.action]);
    if OrderedMaps.Get(table, d.verb).Some? {
      OrderedMaps.GetSome(table, d.verb);
    }
    OrderedMaps.PutWf(paths, PathOf(d), d.middleware + [d.action]);
    OrderedMaps.PutEntries(table, d.verb, paths');
    var r := Route(table, d);
    assert r == OrderedMaps.Put(table, d.verb, paths');
    forall i | 0 <= i < |r|
      ensures OrderedMaps.Wf(r[i].1)
    {
      assert r[i] in r;
    }
  }

  /** The decorators never repeat a method or, within one method, a path. */
  lemma {:induction false} RegisterDeepWf(decls: seq<Decl>)
    ensures DeepWf(Register(decls))
    decreases |decls|
  {
    if |decls| > 0 {
      RegisterDeepWf(decls[..|decls| - 1]);
      RouteDeepWf(Register(decls[..|decls| - 1]), decls[|decls| - 1]);
    }
  }

  /** A table's layers are its looked-up routes ... */
  lemma InTableLayers(prefix: RoutePath, table: RouteTable, l: Layer)
    requires DeepWf(table) && l in TableLayers(prefix, table)
    ensures exists p :: l.RouteLayer? && l.pattern == Exact(prefix + p) && Lookup(table, l.verb, p) == Some(l.handlers)
  {
    var i :| 0 <= i < |table| && l in PathLayers(table[i].0, prefix, table[i].1);
    var paths := table[i].1;
    var j :| 0 <= j < |paths| && l == PathLayers(table[i].0, prefix, paths)[j];
    OrderedMaps.GetAt(table, i);
    OrderedMaps.GetAt(paths, j);
    assert Lookup(table, l.verb, paths[j].0) == Some(l.handlers);
  }

  /** ... and every looked-up route is one of its layers. */
  lemma InTableLayersBack(prefix: RoutePath, table: RouteTable, verb: Verb, p: RoutePath, hs: seq<Handler>)
    requires Lookup(table, verb, p) == Some(hs)
    ensures RouteLayer(verb, Exact(prefix + p), hs) in TableLayers(prefix, table)
  {
    OrderedMaps.GetSome(table, verb);
    var i :| 0 <= i < |table| && table[i] == (verb, OrderedMaps.Get(table, verb).value);
    var paths := table[i].1;
    OrderedMaps.GetSome(paths, p);
    var j :| 0 <= j < |paths| && paths[j] == (p, hs);
    assert PathLayers(verb, prefix, paths)[j] == RouteLayer(verb, Exact(prefix + p), hs);
  }

  /** Every mounted layer is a declared route of one of the classes, at
      '/api/v1' + its base path + its route path ... */
  lemma {:induction false} MountedRoutesDeclared(controllers: seq<Controller>, l: Layer)
    requires l in Mount(controllers)
    ensures exists c, p :: c in controllers && l.RouteLayer? && l.pattern == Exact(ApiBase + c.base + p) &&
                           Lookup(Register(c.decls), l.verb, p) == Some(l.handlers)
  {
    var c0 := controllers[0];
    var table := Register(c0.decls);
    if l in TableLayers(ApiBase + c0.base, table) {
      RegisterDeepWf(c0.decls);
      InTableLayers(ApiBase + c0.base, table, l);
      var p :| l.RouteLayer? && l.pattern == Exact(ApiBase + c0.base + p) && Lookup(table, l.verb, p) == Some(l.handlers);
      assert c0 in controllers;
    } else {
      MountedRoutesDeclared(controllers[1..], l);
      var c, p :| c in controllers[1..] && l.RouteLayer? && l.pattern == Exact(ApiBase + c.base + p) &&
                  Lookup(Register(c.decls), l.verb, p) == Some(l.handlers);
      assert c in controllers;
    }
  }

  /** ... and every declared route of every class is mounted. */
  lemma {:induction false} DeclaredRoutesMounted(controllers: seq<Controller>, k: nat, verb: Verb, p: RoutePath, hs: seq<Handler>)
    requires k < |controllers| && Lookup(Register(controllers[k].decls), verb, p) == Some(hs)
    ensures RouteLayer(verb, Exact(ApiBase + controllers[k].base + p), hs) in Mount(controllers)
  {
    var l := RouteLayer(verb, Exact(ApiBase + controllers[k].base + p), hs);
    var head := TableLayers(ApiBase + controllers[0].base, Register(controllers[0].decls));
    assert Mount(controllers) == head + Mount(controllers[1..]);
    if k == 0 {
      InTableLayersBack(ApiBase + controllers[0].base, Register(controllers[0].decls), verb, p, hs);
      assert l in head;
    } else {
      assert controllers[1..][k - 1] == controllers[k];
      DeclaredRoutesMounted(controllers[1..], k - 1, verb, p, hs);
      assert l in Mount(controllers[1..]);
    }
  }

  /** The path string Express is given is '/api/v1' + base path + route path. */
  lemma MountedPathText(base: RoutePath, p: RoutePath)
    ensures Render(ApiBase + base + p) == "/api/v1" + Render(base) + Render(p)
  {
    RenderAppend(ApiBase + base, p);
    RenderAppend(ApiBase, base);
    ApiBaseText();
  }

  // ----- dispatch -----

  /** A request path by its segments: '/api/v1/messages/users' is
      `["api", "v1", "messages", "users"]`; a trailing slash is a final "". */
  type UrlPath = seq<string>

  /** The path as `req.originalUrl` shows it. */
  function UrlText(u: UrlPath): string {
    if |u| == 0 then "" else "/" + u[0] + UrlText(u[1..])
  }

  /** A literal matches itself; a parameter matches any non-empty segment. */
  predicate SegmentMatches(s: Segment, part: string) {
    match s
    case Lit(t) => t == part
    case Param(_) => part != ""
  }

  predicate SegmentsMatch(p: RoutePath, u: UrlPath) {
    |p| == |u| && forall i :: 0 <= i < |p| ==> SegmentMatches(p[i], u[i])
  }

  /** Routing is not strict: one trailing slash is ignored on either side. */
  function TrimRoute(p: RoutePath): RoutePath {
    if |p| > 0 && p[|p| - 1] == Lit("") then p[..|p| - 1] else p
  }

  function TrimUrl(u: UrlPath): UrlPath {
    if |u| > 0 && u[|u| - 1] == "" then u[..|u| - 1] else u
  }

  predicate Matches(pat: Pattern, u: UrlPath) {
    match pat
    case Exact(p) => SegmentsMatch(TrimRoute(p), TrimUrl(u))
    case Prefix(p) => |u| > |p| && SegmentsMatch(p, u[..|p|])
  }

  /** A route layer takes the request when the method agrees and the path matches. */
  predicate Handles(l: Layer, verb: Verb, u: UrlPath) {
    l.RouteLayer? && (l.verb == verb || l.verb == All) && Matches(l.pattern, u)
  }

  /** The first layer that takes the request, in stack order. */
  function FirstMatch(layers: seq<Layer>, verb: Verb, u: UrlPath): (r: Option<nat>)
    ensures r.Some? ==> r.value < |layers| && Handles(layers[r.value], verb, u)
    ensures r.Some? ==> forall j :: 0 <= j < r.value ==> !Handles(layers[j], verb, u)
    ensures r.None? ==> forall j :: 0 <= j < |layers| ==> !Handles(layers[j], verb, u)
  {
    if |layers| == 0 then None
    else if Handles(layers[0], verb, u) then Some(0)
    else
      match FirstMatch(layers[1..], verb, u)
      case None => None
      case Some(k) => Some(k + 1)
  }

  /** The first-match index is determined by where the request is taken:
      the layer at `k` takes it and none before it does. */
  lemma FirstMatchAt(layers: seq<Layer>, verb: Verb, u: UrlPath, k: nat)
    requires k < |layers| && Handles(layers[k], verb, u)
    requires forall j :: 0 <= j < k ==> !Handles(layers[j], verb, u)
    ensures FirstMatch(layers, verb, u) == Some(k)
  {
  }

  /** Express's router loop: try the layers in order, stop at the first. */
  method Dispatch(layers: seq<Layer>, verb: Verb, u: UrlPath) returns (r: Option<nat>)
    ensures r == FirstMatch(layers, verb, u)
  {
    var i := 0;
    while i < |layers|
      invariant i <= |layers|
      invariant forall j :: 0 <= j < i ==> !Handles(layers[j], verb, u)
    {
      if Handles(layers[i], verb, u) {
        return Some(i);
      }
      i := i + 1;
    }
    return None;
  }

  /** The catch-all `app.all` on every path below '/api/v1/'. */
  const CatchAll := RouteLayer(All, Prefix(ApiBase), [NotFoundHandler])

  /** The whole stack: the routes, then the catch-all, then the error handler. */
  function Layers(controllers: seq<Controller>): (r: seq<Layer>)
    ensures |r| == |Mount(controllers)| + 2
    ensures r[|r| - 2] == CatchAll && r[|r| - 1] == ErrorLayer(ErrorHandler)
    ensures forall i :: 0 <= i < |Mount(controllers)| ==> r[i] == Mount(controllers)[i]
  {
    Mount(controllers) + [CatchAll, ErrorLayer(ErrorHandler)]
  }

  /** What the catch-all passes to `next`. */
  function NotFoundError(u: UrlPath): (e: AppError)
    ensures e.statusCode == 404 && e.isOperational
    ensures e.message == "API route " + UrlText(u) + " not found"
  {
    NotFound(Some("API route " + UrlText(u) + " not found"))
  }

  /** How a request ends: a route runs its handlers, the catch-all raises
      its 404, or nothing under this application takes it. */
  datatype Served = Handled(layer: nat, handlers: seq<Handler>) | RouteNotFound(err: AppError) | Unmatched

  function Serve(controllers: seq<Controller>, verb: Verb, u: UrlPath): (r: Served)
    // A route runs only when it is the first mounted route that takes the request.
    ensures r.Handled? ==>
      (r.layer < |Mount(controllers)| && Handles(Mount(controllers)[r.layer], verb, u) &&
       r.handlers == Mount(controllers)[r.layer].handlers &&
       forall j :: 0 <= j < r.layer ==> !Handles(Mount(controllers)[j], verb, u))
    // The catch-all answers only what no route takes, under '/api/v1/'.
    ensures r.RouteNotFound? <==>
      (forall j :: 0 <= j < |Mount(controllers)| ==> !Handles(Mount(controllers)[j], verb, u)) && Matches(Prefix(ApiBase), u)
    ensures r.RouteNotFound? ==> r.err == NotFoundError(u)
    ensures r.Unmatched? <==>
      (forall j :: 0 <= j < |Mount(controllers)| ==> !Handles(Mount(controllers)[j], verb, u)) && !Matches(Prefix(ApiBase), u)
  {
    var layers := Layers(controllers);
    var n := |Mount(controllers)|;
    match FirstMatch(layers, verb, u)
    case None => Unmatched
    case Some(i) =>
      if i == n then RouteNotFound(NotFoundError(u))
      else if i < n then Handled(i, layers[i].handlers)
      else assert false; Unmatched
  }

  /** Every mounted route is an exact path below '/api/v1', even after a
      trailing slash is dropped. */
  lemma MountedUnderApi(controllers: seq<Controller>, l: Layer)
    requires l in Mount(controllers)
    ensures l.RouteLayer? && l.pattern.Exact?
    ensures |TrimRoute(l.pattern.path)| >= 2 && TrimRoute(l.pattern.path)[0] == Lit("api") && TrimRoute(l.pattern.path)[1] == Lit("v1")
  {
    var rest := MountedRest(controllers, l);
    ApiPrefixSurvivesTrim(rest);
  }

  lemma {:induction false} MountedRest(controllers: seq<Controller>, l: Layer) returns (rest: RoutePath)
    requires l in Mount(controllers)
    ensures l.RouteLayer? && l.pattern == Exact(ApiBase + rest)
  {
    var c0 := controllers[0];
    var table := Register(c0.decls);
    if l in TableLayers(ApiBase + c0.base, table) {
      var p := TableRest(ApiBase + c0.base, table, l);
      rest := c0.base + p;
      AppendAssoc(ApiBase, c0.base, p);
    } else {
      rest := MountedRest(controllers[1..], l);
    }
  }

  lemma AppendAssoc<T>(a: seq<T>, b: seq<T>, c: seq<T>)
    ensures a + b + c == a + (b + c)
  {
  }

  lemma TableRest(prefix: RoutePath, table: RouteTable, l: Layer) returns (p: RoutePath)
    requires l in TableLayers(prefix, table)
    ensures l.RouteLayer? && l.pattern == Exact(prefix + p)
  {
    var i :| 0 <= i < |table| && l in PathLayers(table[i].0, prefix, table[i].1);
    var paths := table[i].1;
    var j :| 0 <= j < |paths| && l == PathLayers(table[i].0, prefix, paths)[j];
    p := paths[j].0;
  }

  lemma ApiPrefixSurvivesTrim(rest: RoutePath)
    ensures |TrimRoute(ApiBase + rest)| >= 2
    ensures TrimRoute(ApiBase + rest)[0] == Lit("api") && TrimRoute(ApiBase + rest)[1] == Lit("v1")
  {
    var full := ApiBase + rest;
    assert full[0] == Lit("api") && full[1] == Lit("v1");
    if |rest| == 0 {
      assert full == ApiBase;
    }
  }

  lemma MountedLayerOutside(controllers: seq<Controller>, l: Layer, verb: Verb, u: UrlPath)
    requires l in Mount(controllers)
    requires |TrimUrl(u)| < 2 || TrimUrl(u)[0] != "api" || TrimUrl(u)[1] != "v1"
    ensures !Handles(l, verb, u)
  {
    MountedUnderApi(controllers, l);
    var t := TrimRoute(l.pattern.path);
    assert !SegmentsMatch(t, TrimUrl(u));
  }

  /** A request path that does not begin with 'api' and 'v1' is outside the
      application: no route takes it and the catch-all does not either. */
  lemma OutsideApiUnmatched(controllers: seq<Controller>, verb: Verb, u: UrlPath)
    requires |TrimUrl(u)| < 2 || TrimUrl(u)[0] != "api" || TrimUrl(u)[1] != "v1"
    ensures Serve(controllers, verb, u) == Unmatched
  {
    var m := Mount(controllers);
    forall j | 0 <= j < |m|
      ensures !Handles(m[j], verb, u)
    {
      MountedLayerOutside(controllers, m[j], verb, u);
    }
    if |u| > 2 {
      assert TrimUrl(u)[0] == u[0] && TrimUrl(u)[1] == u[1];
      assert u[..2][0] == u[0] && u[..2][1] == u[1];
    }
  }

  /** The route that serves a request is the first mounted route that takes it. */
  lemma ServeFirst(controllers: seq<Controller>, verb: Verb, u: UrlPath, k: nat)
    requires k < |Mount(controllers)| && Handles(Mount(controllers)[k], verb, u)
    requires forall j :: 0 <= j < k ==> !Handles(Mount(controllers)[j], verb, u)
    ensures Serve(controllers, verb, u) == Handled(k, Mount(controllers)[k].handlers)
  {
  }
}
