/**
 Serve applications: building and mounting them (src/sdk/serve/index.ts) and dispatching requests to
 them (src/runtime/serve/worker.ts). Mounting preserves what a request reaches.
 */
module ServeApps {
  import opened Prelude
  import opened ServePaths

  type HandlerId = nat

  datatype Route = Route(httpMethod: string, path: Path, handler: HandlerId)
  datatype Middleware = Middleware(pathPrefix: Option<Path>, handler: HandlerId)
  datatype App = App(routes: seq<Route>, middleware: seq<Middleware>)

  // ---- Building ----

  function MountRoute(base: Option<Path>, route: Route): Route {
    route.(path := JoinPaths(base, route.path))
  }

  function MountMiddleware(base: Option<Path>, m: Middleware): Middleware {
    m.(pathPrefix := if m.pathPrefix.Some? then Some(JoinPaths(base, m.pathPrefix.value)) else base)
  }

  function MountRoutes(base: Option<Path>, routes: seq<Route>): (r: seq<Route>)
    ensures |r| == |routes|
  {
    seq(|routes|, i requires 0 <= i < |routes| => MountRoute(base, routes[i]))
  }

  function MountMiddlewares(base: Option<Path>, middleware: seq<Middleware>): (r: seq<Middleware>)
    ensures |r| == |middleware|
  {
    seq(|middleware|, i requires 0 <= i < |middleware| => MountMiddleware(base, middleware[i]))
  }

  function Mount(target: App, child: App, base: Option<Path>): App {
    App(target.routes + MountRoutes(base, child.routes), target.middleware + MountMiddlewares(base, child.middleware))
  }

  predicate ProperPrefix(pathPrefix: Option<string>) {
    pathPrefix.Some? ==> |pathPrefix.value| > 0 && pathPrefix.value[0] == '/'
  }

  function NormalizePrefix(pathPrefix: Option<string>): Option<Path>
    requires ProperPrefix(pathPrefix)
  {
    if pathPrefix.Some? then Some(NormalizePath(pathPrefix.value)) else None
  }

  class ServeAppBuilder {
    var routes: seq<Route>
    var middleware: seq<Middleware>

    ghost function Abs(): App
      reads this
    {
      App(routes, middleware)
    }

    constructor ()
      ensures Abs() == App([], [])
    {
      routes := [];
      middleware := [];
    }

    /** `app.get(...)` and its siblings; throws when the path does not start with '/'. */
    method RegisterRoute(httpMethod: string, path: string, handler: HandlerId) returns (threw: bool)
      modifies this
      ensures threw <==> (path == "" || path[0] != '/')
      ensures threw ==> Abs() == old(Abs())
      ensures !threw ==>
        Abs() == old(Abs()).(routes := old(routes) + [Route(httpMethod, NormalizePath(path), handler)])
    {
      if path == "" || path[0] != '/' {
        return true;
      }
      routes := routes + [Route(httpMethod, NormalizePath(path), handler)];
      return false;
    }

    /** `app.use(prefix, handler)`; throws on a prefix that does not start with '/'. */
    method UseMiddleware(pathPrefix: Option<string>, handler: HandlerId) returns (threw: bool)
      modifies this
      ensures threw <==> !ProperPrefix(pathPrefix)
      ensures threw ==> Abs() == old(Abs())
      ensures !threw ==>
        Abs() == old(Abs()).(middleware := old(middleware) + [Middleware(NormalizePrefix(pathPrefix), handler)])
    {
      if !ProperPrefix(pathPrefix) {
        return true;
      }
      middleware := middleware + [Middleware(NormalizePrefix(pathPrefix), handler)];
      return false;
    }

    /** `app.use(prefix, childApp)`; throws on a prefix that does not start with '/'. */
    method UseApp(pathPrefix: Option<string>, child: App) returns (threw: bool)
      modifies this
      ensures threw <==> !ProperPrefix(pathPrefix)
      ensures threw ==> Abs() == old(Abs())
      ensures !threw ==> Abs() == Mount(old(Abs()), child, NormalizePrefix(pathPrefix))
    {
      if !ProperPrefix(pathPrefix) {
        return true;
      }
      var base := NormalizePrefix(pathPrefix);
      PushRoutes(base, child.routes);
      PushMiddleware(base, child.middleware);
      return false;
    }

    method PushRoutes(base: Option<Path>, added: seq<Route>)
      modifies this`routes
      ensures routes == old(routes) + MountRoutes(base, added)
    {
      for i := 0 to |added|
        invariant routes == old(routes) + MountRoutes(base, added)[..i]
      {
        var route := added[i];
        routes := routes + [Route(route.httpMethod, JoinPaths(base, route.path), route.handler)];
      }
    }

    method PushMiddleware(base: Option<Path>, added: seq<Middleware>)
      modifies this`middleware
      ensures middleware == old(middleware) + MountMiddlewares(base, added)
    {
      for i := 0 to |added|
        invariant middleware == old(middleware) + MountMiddlewares(base, added)[..i]
      {
        var m := added[i];
        var prefix := if m.pathPrefix.Some? then Some(JoinPaths(base, m.pathPrefix.value)) else base;
        middleware := middleware + [Middleware(prefix, m.handler)];
      }
    }
  }

  // ---- Compiling a route ----

  datatype Piece = Literal(text: string) | Param(name: string)

  function PieceOf(segment: string): Piece {
    if |segment| > 0 && segment[0] == ':' then Param(segment[1..]) else Literal(segment)
  }

  function Pieces(segments: seq<string>): (r: seq<Piece>)
    ensures |r| == |segments|
  {
    seq(|segments|, i requires 0 <= i < |segments| => PieceOf(segments[i]))
  }

  function ParamNames(pieces: seq<Piece>): seq<string> {
    if pieces == [] then []
    else
      match pieces[|pieces| - 1]
      case Param(name) => ParamNames(pieces[..|pieces| - 1]) + [name]
      case Literal(_) => ParamNames(pieces[..|pieces| - 1])
  }

  datatype CompiledRoute = CompiledRoute(httpMethod: string, pattern: seq<Piece>, paramNames: seq<string>, handler: HandlerId)

  function Compile(route: Route): CompiledRoute {
    var pieces := Pieces(Segments(NormalizePath(route.path)));
    CompiledRoute(route.httpMethod, pieces, ParamNames(pieces), route.handler)
  }

  method CompileRoute(route: Route) returns (compiled: CompiledRoute)
    ensures compiled == Compile(route)
  {
    var segments := Segments(NormalizePath(route.path));
    var paramNames: seq<string> := [];
    var pattern: seq<Piece> := [];
    for i := 0 to |segments|
      invariant pattern == Pieces(segments)[..i] && paramNames == ParamNames(pattern)
    {
      var piece := PieceOf(segments[i]);
      assert (pattern + [piece])[..i] == pattern;
      if piece.Param? {
        paramNames := paramNames + [piece.name];
      }
      pattern := pattern + [piece];
    }
    assert Pieces(segments)[..|segments|] == Pieces(segments);
    return CompiledRoute(route.httpMethod, pattern, paramNames, route.handler);
  }

  // ---- Matching ----

  /** Segment-wise matching: literals must be equal, parameters take any non-empty segment. */
  function MatchPieces(pieces: seq<Piece>, segments: seq<string>): Option<seq<string>> {
    if |pieces| != |segments| then None
    else if pieces == [] then Some([])
    else
      match pieces[0]
      case Literal(text) => if text == segments[0] then MatchPieces(pieces[1..], segments[1..]) else None
      case Param(_) =>
        if segments[0] == "" then None
        else
          match MatchPieces(pieces[1..], segments[1..])
          case None => None
          case Some(captures) => Some([segments[0]] + captures)
  }

  /** How each piece of the anchored regular expression may be filled: `([^/]+)` for a parameter. */
  ghost predicate Fills(pieces: seq<Piece>, texts: seq<string>) {
    && |texts| == |pieces|
    && forall i :: 0 <= i < |pieces| ==>
         match pieces[i]
         case Literal(text) => texts[i] == text
         case Param(_) => texts[i] != "" && '/' !in texts[i]
  }

  ghost function Captured(pieces: seq<Piece>, texts: seq<string>): seq<string>
    requires |texts| == |pieces|
  {
    if pieces == [] then []
    else if pieces[0].Param? then [texts[0]] + Captured(pieces[1..], texts[1..])
    else Captured(pieces[1..], texts[1..])
  }

  /** The regular expression's own meaning: the whole path is '/' and the filled pieces joined by '/'. */
  ghost predicate RegexMatches(pieces: seq<Piece>, path: Path, captures: seq<string>) {
    exists texts :: Fills(pieces, texts) && path == "/" + Join(texts) && captures == Captured(pieces, texts)
  }

  /** The pieces of a compiled route. */
  ghost predicate FromRoute(pieces: seq<Piece>) {
    exists path: Path :: pieces == Pieces(Segments(path))
  }

  lemma {:induction false} MatchFills(pieces: seq<Piece>, segments: seq<string>)
    requires forall s :: s in segments ==> '/' !in s
    ensures MatchPieces(pieces, segments)
         == if Fills(pieces, segments) then Some(Captured(pieces, segments)) else None
  {
    if |pieces| == |segments| && pieces != [] {
      MatchFills(pieces[1..], segments[1..]);
      assert Fills(pieces, segments) ==> Fills(pieces[1..], segments[1..]);
      if Fills(pieces[1..], segments[1..]) {
        assert forall i :: 1 <= i < |pieces| ==> pieces[i] == pieces[1..][i - 1] && segments[i] == segments[1..][i - 1];
      }
    }
  }

  /** Matching by segments is exactly matching the route's regular expression, captures included. */
  lemma MatchIsRegex(pieces: seq<Piece>, path: Path, captures: seq<string>)
    requires FromRoute(pieces)
    ensures MatchPieces(pieces, Segments(path)) == Some(captures) <==> RegexMatches(pieces, path, captures)
  {
    var source: Path :| pieces == Pieces(Segments(source));
    PathOfSegments(source);
    PathOfSegments(path);
    MatchFills(pieces, Segments(path));
    if RegexMatches(pieces, path, captures) {
      var texts :| Fills(pieces, texts) && path == "/" + Join(texts) && captures == Captured(pieces, texts);
      if texts != [] {
        forall t | t in texts ensures '/' !in t {
          var i :| 0 <= i < |texts| && texts[i] == t;
          assert pieces[i] == PieceOf(Segments(source)[i]);
        }
        SplitJoin(texts);
        assert path[1..] == Join(texts);
        assert Split("") == [""] && pieces[0] == PieceOf(Segments(source)[0]);
        assert path != "/";
      }
      assert texts == Segments(path);
    }
  }

  // ---- Dispatch ----

  datatype Dispatch = NotFound | BadEncoding | Found(handler: HandlerId, params: map<string, string>)

  type Decoder = string -> Option<string>

  /** `Object.fromEntries` over the decoded captures: later names win, and a malformed one throws. */
  function BuildParams(names: seq<string>, captures: seq<string>, decode: Decoder): Option<map<string, string>>
    requires |names| == |captures|
  {
    if names == [] then Some(map[])
    else
      var n := |names| - 1;
      match BuildParams(names[..n], captures[..n], decode)
      case None => None
      case Some(params) =>
        match decode(captures[n])
        case None => None
        case Some(value) => Some(params[names[n] := value])
  }

  predicate MethodMatches(route: CompiledRoute, httpMethod: string) {
    route.httpMethod == "ALL" || route.httpMethod == httpMethod
  }

  lemma {:induction false} CaptureCount(pieces: seq<Piece>, segments: seq<string>)
    ensures MatchPieces(pieces, segments).Some? ==> |MatchPieces(pieces, segments).value| == |ParamNames(pieces)|
  {
    if |pieces| == |segments| && pieces != [] {
      CaptureCount(pieces[1..], segments[1..]);
      ParamNamesHead(pieces);
    }
  }

  lemma {:induction false} ParamNamesHead(pieces: seq<Piece>)
    requires pieces != []
    ensures ParamNames(pieces)
         == (if pieces[0].Param? then [pieces[0].name] else []) + ParamNames(pieces[1..])
  {
    if |pieces| > 1 {
      var init := pieces[..|pieces| - 1];
      ParamNamesHead(init);
      assert pieces[1..][..|pieces| - 2] == init[1..];
    }
  }

  predicate WellCompiled(routes: seq<CompiledRoute>) {
    forall r :: r in routes ==> r.paramNames == ParamNames(r.pattern)
  }

  function TryRoute(route: CompiledRoute, path: Path, httpMethod: string, decode: Decoder): Dispatch
    requires route.paramNames == ParamNames(route.pattern)
  {
    if !MethodMatches(route, httpMethod) then NotFound
    else
      match MatchPieces(route.pattern, Segments(path))
      case None => NotFound
      case Some(captures) =>
        CaptureCount(route.pattern, Segments(path));
        match BuildParams(route.paramNames, captures, decode)
        case None => BadEncoding
        case Some(params) => Found(route.handler, params)
  }

  function Find(routes: seq<CompiledRoute>, path: Path, httpMethod: string, decode: Decoder): Dispatch
    requires WellCompiled(routes)
  {
    if routes == [] then NotFound
    else
      var first := TryRoute(routes[0], path, httpMethod, decode);
      if first != NotFound then first else Find(routes[1..], path, httpMethod, decode)
  }

  /** `findRoute`: the first route whose method and pattern match. */
  method FindRoute(routes: seq<CompiledRoute>, path: Path, httpMethod: string, decode: Decoder) returns (result: Dispatch)
    requires WellCompiled(routes)
    ensures result == Find(routes, path, httpMethod, decode)
  {
    assert routes[0..] == routes;
    for i := 0 to |routes|
      invariant Find(routes, path, httpMethod, decode) == Find(routes[i..], path, httpMethod, decode)
    {
      assert routes[i..][1..] == routes[i + 1..];
      var outcome := TryRoute(routes[i], path, httpMethod, decode);
      if outcome != NotFound {
        return outcome;
      }
    }
    return NotFound;
  }

  function CompileAll(routes: seq<Route>): (r: seq<CompiledRoute>)
    ensures |r| == |routes| && forall i :: 0 <= i < |r| ==> r[i] == Compile(routes[i])
    ensures WellCompiled(r)
  {
    if routes == [] then [] else [Compile(routes[0])] + CompileAll(routes[1..])
  }

  function DispatchRequest(app: App, path: Path, httpMethod: string, decode: Decoder): Dispatch {
    Find(CompileAll(app.routes), path, httpMethod, decode)
  }

  /** The middleware a request runs through, in order. */
  function Chain(middleware: seq<Middleware>, path: Path): seq<HandlerId> {
    if middleware == [] then []
    else
      (if PathStartsWithPrefix(path, NormalizePrefix(middleware[0].pathPrefix)) then [middleware[0].handler] else []) + Chain(middleware[1..], path)
  }
}
