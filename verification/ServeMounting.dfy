/** Mounting preserves meaning: what a request reaches in a mounted application, and what it does not. */
module ServeMounting {
  import opened Prelude
  import opened ServePaths
  import opened ServeApps

  /**
   Every stored path is normalised by normalising it once more, which compiling does. Registering has
   already normalised once, so this fails only for paths registered with three or more trailing slashes.
   */
  ghost predicate TidyApp(app: App) {
    && (forall r :: r in app.routes ==> Tidy(r.path))
    && (forall m :: m in app.middleware && m.pathPrefix.Some? ==> Tidy(m.pathPrefix.value))
  }

  /** Every stored path is normalised already. */
  ghost predicate CleanApp(app: App) {
    && (forall r :: r in app.routes ==> Clean(r.path))
    && (forall m :: m in app.middleware && m.pathPrefix.Some? ==> Clean(m.pathPrefix.value))
  }

  ghost predicate LiteralBase(base: Path) {
    forall p :: p in Pieces(Segments(base)) ==> p.Literal?
  }

  // ---- Patterns of mounted routes ----

  lemma PiecesConcat(a: seq<string>, b: seq<string>)
    ensures Pieces(a + b) == Pieces(a) + Pieces(b)
  {
  }

  lemma {:induction false} ParamNamesConcat(a: seq<Piece>, b: seq<Piece>)
    ensures ParamNames(a + b) == ParamNames(a) + ParamNames(b)
  {
    if b == [] {
      assert a + b == a;
    } else {
      var init := b[..|b| - 1];
      assert (a + b)[..|a + b| - 1] == a + init;
      ParamNamesConcat(a, init);
    }
  }

  /** The base under which a route is matched: the normalised base, and for the root route that normalised once more. */
  function BaseFor(base: Path, route: Route): Path {
    if NormalizePath(route.path) == "/" then NormalizePath(NormalizePath(base)) else NormalizePath(base)
  }

  /** A mounted route matches the base's segments followed by its own, whatever the base ends in. */
  lemma MountedPattern(base: Path, route: Route)
    requires Tidy(route.path)
    ensures var mounted, plain, under := Compile(MountRoute(Some(base), route)), Compile(route), BaseFor(base, route);
      && mounted.pattern == Pieces(Segments(under)) + plain.pattern
      && mounted.paramNames == ParamNames(Pieces(Segments(under))) + plain.paramNames
      && mounted.httpMethod == plain.httpMethod && mounted.handler == plain.handler
  {
    var path, under := NormalizePath(route.path), BaseFor(base, route);
    JoinedSegments(base, path);
    JoinTidy(Some(base), route.path);
    PiecesConcat(Segments(under), Segments(path));
    ParamNamesConcat(Pieces(Segments(under)), Pieces(Segments(path)));
  }

  lemma JoinedSegments(base: Path, path: Path)
    requires Clean(path)
    ensures var normal := NormalizePath(base);
      Segments(NormalizePath(JoinPaths(Some(base), path)))
      == (if path == "/" then Segments(NormalizePath(normal)) else Segments(normal) + Segments(path))
  {
    var normal := NormalizePath(base);
    RequestSegments(normal, path);
    if path != "/" { assert Clean(JoinPaths(Some(base), path)); }
  }

  /** One base for all of them: either it needs no second normalisation, or there is no root route to feel it. */
  ghost predicate BaseFits(base: Path, routes: seq<Route>) {
    Tidy(base) || forall r :: r in routes ==> NormalizePath(r.path) != "/"
  }

  lemma {:induction false} MatchConcat(a: seq<Piece>, b: seq<Piece>, s: seq<string>, t: seq<string>)
    requires |a| == |s|
    ensures MatchPieces(a + b, s + t)
         == match MatchPieces(a, s)
            case None => None
            case Some(first) => match MatchPieces(b, t) case None => None case Some(second) => Some(first + second)
  {
    if a == [] {
      assert a + b == b && s + t == t;
      assert MatchPieces(b, t).Some? ==> [] + MatchPieces(b, t).value == MatchPieces(b, t).value;
    } else if |b| == |t| {
      MatchConcat(a[1..], b, s[1..], t);
      assert (a + b)[1..] == a[1..] + b && (s + t)[1..] == s[1..] + t;
      if MatchPieces(a[1..], s[1..]).Some? && MatchPieces(b, t).Some? {
        var first, second := MatchPieces(a[1..], s[1..]).value, MatchPieces(b, t).value;
        assert ([s[0]] + first) + second == [s[0]] + (first + second);
      }
    }
  }

  lemma {:induction false} ParamsConcat(
      n1: seq<string>, c1: seq<string>, n2: seq<string>, c2: seq<string>, decode: Decoder)
    requires |n1| == |c1| && |n2| == |c2|
    ensures BuildParams(n1 + n2, c1 + c2, decode)
         == match BuildParams(n1, c1, decode)
            case None => None
            case Some(p1) => match BuildParams(n2, c2, decode) case None => None case Some(p2) => Some(p1 + p2)
  {
    if n2 == [] {
      assert n1 + n2 == n1 && c1 + c2 == c1;
      assert forall p: map<string, string> :: p + map[] == p;
    } else {
      var k := |n2| - 1;
      ParamsConcat(n1, c1, n2[..k], c2[..k], decode);
      assert (n1 + n2)[..|n1| + k] == n1 + n2[..k] && (c1 + c2)[..|n1| + k] == c1 + c2[..k];
      var p1, p2, last := BuildParams(n1, c1, decode), BuildParams(n2[..k], c2[..k], decode), decode(c2[k]);
      if p1.Some? && p2.Some? && last.Some? {
        assert (p1.value + p2.value)[n2[k] := last.value] == p1.value + p2.value[n2[k] := last.value];
      }
    }
  }

  // ---- Dispatch through a mount ----

  /** What a child's answer becomes when the base itself has bound parameters. */
  function WithBaseParams(baseParams: map<string, string>, result: Dispatch): Dispatch {
    match result
    case Found(handler, params) => Found(handler, baseParams + params)
    case _ => result
  }

  /** `actual` is a concrete path for the base pattern, binding the given parameters. */
  ghost predicate BaseMatches(base: Path, actual: Path, decode: Decoder, baseParams: map<string, string>) {
    var pieces := Pieces(Segments(base));
    var captures := MatchPieces(pieces, Segments(actual));
    && captures.Some?
    && |captures.value| == |ParamNames(pieces)|
    && BuildParams(ParamNames(pieces), captures.value, decode) == Some(baseParams)
  }

  lemma MountedRoute(base: Path, actual: Path, route: Route, path: Path, httpMethod: string, decode: Decoder,
                     baseParams: map<string, string>)
    requires Tidy(route.path) && BaseMatches(BaseFor(base, route), actual, decode, baseParams)
    ensures TryRoute(Compile(MountRoute(Some(base), route)), RequestPath(actual, path), httpMethod, decode)
         == WithBaseParams(baseParams, TryRoute(Compile(route), path, httpMethod, decode))
  {
    MountedPattern(base, route);
    RequestSegments(actual, path);
    var plain := Compile(route);
    var basePieces := Pieces(Segments(BaseFor(base, route)));
    MatchConcat(basePieces, plain.pattern, Segments(actual), Segments(path));
    CaptureCount(plain.pattern, Segments(path));
    var captures := MatchPieces(plain.pattern, Segments(path));
    if captures.Some? {
      ParamsConcat(ParamNames(basePieces), MatchPieces(basePieces, Segments(actual)).value,
                   plain.paramNames, captures.value, decode);
    }
  }

  lemma {:induction false} MountedFind(base: Path, actual: Path, routes: seq<Route>, path: Path, httpMethod: string,
                                       decode: Decoder, baseParams: map<string, string>)
    requires BaseFits(base, routes) && BaseMatches(NormalizePath(base), actual, decode, baseParams)
    requires forall r :: r in routes ==> Tidy(r.path)
    ensures Find(CompileAll(MountRoutes(Some(base), routes)), RequestPath(actual, path), httpMethod, decode)
         == WithBaseParams(baseParams, Find(CompileAll(routes), path, httpMethod, decode))
  {
    if routes != [] {
      MountedRoute(base, actual, routes[0], path, httpMethod, decode, baseParams);
      MountedFind(base, actual, routes[1..], path, httpMethod, decode, baseParams);
      var mounted := MountRoutes(Some(base), routes);
      MountRoutesCons(Some(base), routes);
      FindHead(routes, path, httpMethod, decode);
      FindHead(mounted, RequestPath(actual, path), httpMethod, decode);
    }
  }

  lemma MountRoutesCons(base: Option<Path>, routes: seq<Route>)
    requires routes != []
    ensures var mounted := MountRoutes(base, routes);
      mounted[0] == MountRoute(base, routes[0]) && mounted[1..] == MountRoutes(base, routes[1..])
  {
  }

  lemma CompileTail(routes: seq<Route>)
    requires routes != []
    ensures CompileAll(routes)[0] == Compile(routes[0]) && CompileAll(routes)[1..] == CompileAll(routes[1..])
  {
    TailOfCons(Compile(routes[0]), CompileAll(routes[1..]));
  }

  lemma FindHead(routes: seq<Route>, path: Path, httpMethod: string, decode: Decoder)
    requires routes != []
    ensures Find(CompileAll(routes), path, httpMethod, decode)
         == var first := TryRoute(Compile(routes[0]), path, httpMethod, decode);
            if first != NotFound then first else Find(CompileAll(routes[1..]), path, httpMethod, decode)
  {
    CompileTail(routes);
  }

  lemma {:induction false} FindConcat(a: seq<CompiledRoute>, b: seq<CompiledRoute>, path: Path, httpMethod: string, decode: Decoder)
    requires WellCompiled(a) && WellCompiled(b)
    ensures WellCompiled(a + b)
    ensures Find(a + b, path, httpMethod, decode)
         == if Find(a, path, httpMethod, decode) != NotFound then Find(a, path, httpMethod, decode)
            else Find(b, path, httpMethod, decode)
  {
    if a == [] {
      assert a + b == b;
    } else {
      assert (a + b)[1..] == a[1..] + b;
      FindConcat(a[1..], b, path, httpMethod, decode);
    }
  }

  lemma CompileConcat(a: seq<Route>, b: seq<Route>)
    ensures CompileAll(a + b) == CompileAll(a) + CompileAll(b)
  {
  }

  /**
   Mounting preserves dispatch. For a request under a concrete form of the base that no earlier
   parent route answers, the parent reaches exactly the handler the child reaches for the rest of
   the path, with the child's parameters on top of those the base binds; what the child does not
   answer falls through to the routes registered after the mount.
   */
  lemma MountPreservesDispatch(
      parent: App, child: App, later: seq<Route>, base: Path, actual: Path, path: Path, httpMethod: string,
      decode: Decoder, baseParams: map<string, string>)
    requires TidyApp(child) && BaseFits(base, child.routes) && BaseMatches(NormalizePath(base), actual, decode, baseParams)
    requires DispatchRequest(parent, RequestPath(actual, path), httpMethod, decode) == NotFound
    ensures var mounted := Mount(parent, child, Some(base));
      var app := mounted.(routes := mounted.routes + later);
      var inner := DispatchRequest(child, path, httpMethod, decode);
      DispatchRequest(app, RequestPath(actual, path), httpMethod, decode)
      == if inner != NotFound then WithBaseParams(baseParams, inner)
         else Find(CompileAll(later), RequestPath(actual, path), httpMethod, decode)
  {
    var request := RequestPath(actual, path);
    var routes := MountRoutes(Some(base), child.routes);
    MountedFind(base, actual, child.routes, path, httpMethod, decode, baseParams);
    CompileConcat(parent.routes, routes);
    CompileConcat(parent.routes + routes, later);
    FindConcat(CompileAll(parent.routes), CompileAll(routes), request, httpMethod, decode);
    FindConcat(CompileAll(parent.routes + routes), CompileAll(later), request, httpMethod, decode);
  }

  lemma {:induction false} LiteralBinds(pieces: seq<Piece>, segments: seq<string>)
    requires Pieces(segments) == pieces && forall p :: p in pieces ==> p.Literal?
    ensures MatchPieces(pieces, segments) == Some([]) && ParamNames(pieces) == []
  {
    if pieces != [] {
      assert pieces[1..] == Pieces(segments[1..]);
      LiteralBinds(pieces[1..], segments[1..]);
      ParamNamesHead(pieces);
    }
  }

  /** At a literal base the parent answers exactly as the child does: same handler, same parameters. */
  lemma LiteralMountPreservesDispatch(
      parent: App, child: App, later: seq<Route>, base: Path, path: Path, httpMethod: string, decode: Decoder)
    requires TidyApp(child) && BaseFits(base, child.routes) && LiteralBase(NormalizePath(base))
    requires DispatchRequest(parent, RequestPath(NormalizePath(base), path), httpMethod, decode) == NotFound
    requires DispatchRequest(child, path, httpMethod, decode) != NotFound
    ensures var mounted := Mount(parent, child, Some(base));
      DispatchRequest(mounted.(routes := mounted.routes + later), RequestPath(NormalizePath(base), path), httpMethod, decode)
      == DispatchRequest(child, path, httpMethod, decode)
  {
    var normal := NormalizePath(base);
    LiteralBinds(Pieces(Segments(normal)), Segments(normal));
    assert BuildParams([], [], decode) == Some(map[]);
    MountPreservesDispatch(parent, child, later, base, normal, path, httpMethod, decode, map[]);
    var inner := DispatchRequest(child, path, httpMethod, decode);
    assert WithBaseParams(map[], inner) == inner by {
      if inner.Found? { assert map[] + inner.params == inner.params; }
    }
  }

  /** A mounted route answers only requests whose leading segments match the base. */
  lemma MountIsolated(base: Path, routes: seq<Route>, request: Path, httpMethod: string, decode: Decoder)
    requires BaseFits(base, routes) && forall r :: r in routes ==> Tidy(r.path)
    requires Find(CompileAll(MountRoutes(Some(base), routes)), request, httpMethod, decode) != NotFound
    ensures var under := Segments(NormalizePath(base));
      |under| <= |Segments(request)| && MatchPieces(Pieces(under), Segments(request)[..|under|]).Some?
  {
    var compiled := CompileAll(MountRoutes(Some(base), routes));
    var i := FindWitness(compiled, request, httpMethod, decode);
    assert compiled[i] == Compile(MountRoute(Some(base), routes[i])) && routes[i] in routes;
    MountedPattern(base, routes[i]);
    PrefixOfMatch(Pieces(Segments(NormalizePath(base))), Compile(routes[i]).pattern, Segments(request));
  }

  lemma PrefixOfMatch(a: seq<Piece>, b: seq<Piece>, segments: seq<string>)
    requires MatchPieces(a + b, segments).Some?
    ensures |a| <= |segments| && MatchPieces(a, segments[..|a|]).Some?
  {
    MatchLength(a + b, segments);
    PrefixAndRest(segments[..|a|], segments);
    MatchConcat(a, b, segments[..|a|], segments[|a|..]);
  }

  lemma MatchLength(pieces: seq<Piece>, segments: seq<string>)
    ensures MatchPieces(pieces, segments).Some? ==> |pieces| == |segments|
  {
  }

  lemma {:induction false} FindWitness(routes: seq<CompiledRoute>, path: Path, httpMethod: string, decode: Decoder) returns (i: nat)
    requires WellCompiled(routes) && Find(routes, path, httpMethod, decode) != NotFound
    ensures i < |routes| && MatchPieces(routes[i].pattern, Segments(path)).Some?
  {
    if TryRoute(routes[0], path, httpMethod, decode) != NotFound {
      i := 0;
    } else {
      var k := FindWitness(routes[1..], path, httpMethod, decode);
      i := k + 1;
    }
  }

  // ---- Middleware through a mount ----

  lemma {:induction false} ChainConcat(a: seq<Middleware>, b: seq<Middleware>, path: Path)
    ensures Chain(a + b, path) == Chain(a, path) + Chain(b, path)
  {
    if a == [] {
      assert a + b == b;
    } else {
      assert (a + b)[1..] == a[1..] + b;
      ChainConcat(a[1..], b, path);
    }
  }

  lemma PrefixSplit(a: seq<string>, b: seq<string>, c: seq<string>, d: seq<string>)
    requires |a| == |c|
    ensures a + b <= c + d <==> a == c && b <= d
  {
    if a + b <= c + d {
      assert forall i :: 0 <= i < |a| ==> a[i] == (a + b)[i] == (c + d)[i] == c[i];
      assert forall i :: 0 <= i < |b| ==> b[i] == (a + b)[|a| + i] == (c + d)[|a| + i] == d[i];
    }
    if a == c && b <= d {
      assert c + d == (a + b) + d[|b|..];
    }
  }

  lemma MountedPrefix(base: Path, actual: Path, m: Middleware, path: Path)
    requires Clean(base) && (m.pathPrefix.Some? ==> Tidy(m.pathPrefix.value))
    requires |Segments(base)| == |Segments(actual)|
    ensures PathStartsWithPrefix(RequestPath(actual, path), NormalizePrefix(MountMiddleware(Some(base), m).pathPrefix))
       <==> actual == base && PathStartsWithPrefix(path, NormalizePrefix(m.pathPrefix))
  {
    var inner := if m.pathPrefix.Some? then NormalizePath(m.pathPrefix.value) else "/";
    if m.pathPrefix.Some? { JoinTidy(Some(base), m.pathPrefix.value); }
    JoinIsRequest(base, inner);
    var mounted := JoinPaths(Some(base), inner);
    assert NormalizePrefix(MountMiddleware(Some(base), m).pathPrefix) == Some(mounted);
    PrefixIsSegmentwise(RequestPath(actual, path), mounted);
    PrefixIsSegmentwise(path, inner);
    RequestSegments(actual, path);
    PrefixSplit(Segments(base), Segments(inner), Segments(actual), Segments(path));
    SegmentsInjective(base, actual);
  }

  ghost predicate SamePaths(base: Path, m: Middleware, path: Path) {
    PathStartsWithPrefix(RequestPath(base, path), NormalizePrefix(MountMiddleware(Some(base), m).pathPrefix))
    <==> PathStartsWithPrefix(path, NormalizePrefix(m.pathPrefix))
  }

  /** Mounted middleware covers exactly the paths it covers alone if and only if its stored prefix is tidy. */
  lemma MountedPrefixExactly(base: Path, m: Middleware)
    requires Clean(base)
    ensures (m.pathPrefix.Some? ==> Tidy(m.pathPrefix.value)) <==> forall path :: SamePaths(base, m, path)
  {
    if m.pathPrefix.Some? && !Tidy(m.pathPrefix.value) {
      UntidyPrefixWidens(base, m);
    } else {
      forall path ensures SamePaths(base, m, path) {
        MountedPrefix(base, base, m, path);
      }
    }
  }

  lemma UntidyPrefixWidens(base: Path, m: Middleware)
    requires Clean(base) && m.pathPrefix.Some? && !Tidy(m.pathPrefix.value)
    ensures !SamePaths(base, m, NormalizePath(m.pathPrefix.value) + "x")
  {
    var prefix := NormalizePath(m.pathPrefix.value);
    var path, joined := prefix + "x", JoinPaths(Some(base), m.pathPrefix.value);
    assert prefix[|prefix| - 1] == '/' && joined == RequestPath(base, prefix);
    assert RequestPath(base, path) == joined + "x";
    assert joined == NormalizePath(joined) + "/";
    assert joined <= joined + "x";
    assert path[|prefix|] == 'x' && (prefix + "/")[|prefix|] == '/';
  }

  lemma MountMiddlewaresCons(base: Option<Path>, middleware: seq<Middleware>)
    requires middleware != []
    ensures var mounted := MountMiddlewares(base, middleware);
      mounted[0] == MountMiddleware(base, middleware[0]) && mounted[1..] == MountMiddlewares(base, middleware[1..])
  {
  }

  /**
   Middleware of a mounted child, in order: a request under the base's own text runs exactly the
   child's chain for the rest of the path. Under any other form of a parametrised base it runs none
   of it, because prefixes are compared as text.
   */
  lemma {:induction false} MountedChain(base: Path, actual: Path, middleware: seq<Middleware>, path: Path)
    requires Clean(base) && |Segments(base)| == |Segments(actual)|
    requires forall m :: m in middleware && m.pathPrefix.Some? ==> Tidy(m.pathPrefix.value)
    ensures Chain(MountMiddlewares(Some(base), middleware), RequestPath(actual, path))
         == if actual == base then Chain(middleware, path) else []
  {
    if middleware != [] {
      MountedPrefix(base, actual, middleware[0], path);
      MountedChain(base, actual, middleware[1..], path);
      MountMiddlewaresCons(Some(base), middleware);
    }
  }

  /** In the parent, a request under a literal base runs the parent's own chain, then the child's. */
  lemma MountPreservesChain(parent: App, child: App, base: Path, path: Path)
    requires TidyApp(child) && Clean(base)
    ensures Chain(Mount(parent, child, Some(base)).middleware, RequestPath(base, path))
         == Chain(parent.middleware, RequestPath(base, path)) + Chain(child.middleware, path)
  {
    ChainConcat(parent.middleware, MountMiddlewares(Some(base), child.middleware), RequestPath(base, path));
    MountedChain(base, base, child.middleware, path);
  }

  // ---- Mounting mounts ----

  lemma ComposeRoute(outer: Path, inner: Path, route: Route)
    requires Clean(outer) && Clean(inner) && Tidy(route.path)
    ensures MountRoute(Some(outer), MountRoute(Some(inner), route)) == MountRoute(Some(JoinPaths(Some(outer), inner)), route)
  {
    JoinAssociativeTidy(outer, inner, route.path);
  }

  lemma ComposeMiddleware(outer: Path, inner: Path, m: Middleware)
    requires Clean(outer) && Clean(inner) && (m.pathPrefix.Some? ==> Tidy(m.pathPrefix.value))
    ensures MountMiddleware(Some(outer), MountMiddleware(Some(inner), m)) == MountMiddleware(Some(JoinPaths(Some(outer), inner)), m)
  {
    if m.pathPrefix.Some? { JoinAssociativeTidy(outer, inner, m.pathPrefix.value); }
  }

  lemma ComposeRoutes(outer: Path, inner: Path, routes: seq<Route>)
    requires Clean(outer) && Clean(inner) && forall r :: r in routes ==> Tidy(r.path)
    ensures MountRoutes(Some(outer), MountRoutes(Some(inner), routes)) == MountRoutes(Some(JoinPaths(Some(outer), inner)), routes)
  {
    var twice, once := MountRoutes(Some(outer), MountRoutes(Some(inner), routes)), MountRoutes(Some(JoinPaths(Some(outer), inner)), routes);
    forall i | 0 <= i < |routes| ensures twice[i] == once[i] {
      ComposeRoute(outer, inner, routes[i]);
    }
  }

  lemma ComposeMiddlewares(outer: Path, inner: Path, middleware: seq<Middleware>)
    requires Clean(outer) && Clean(inner) && forall m :: m in middleware && m.pathPrefix.Some? ==> Tidy(m.pathPrefix.value)
    ensures MountMiddlewares(Some(outer), MountMiddlewares(Some(inner), middleware))
         == MountMiddlewares(Some(JoinPaths(Some(outer), inner)), middleware)
  {
    var twice := MountMiddlewares(Some(outer), MountMiddlewares(Some(inner), middleware));
    var once := MountMiddlewares(Some(JoinPaths(Some(outer), inner)), middleware);
    forall i | 0 <= i < |middleware| ensures twice[i] == once[i] {
      ComposeMiddleware(outer, inner, middleware[i]);
    }
  }

  /** Mounting a mounted application is mounting it once, at the joined base. */
  lemma MountsCompose(outer: Path, inner: Path, child: App)
    requires TidyApp(child) && Clean(outer) && Clean(inner)
    ensures Mount(App([], []), Mount(App([], []), child, Some(inner)), Some(outer))
         == Mount(App([], []), child, Some(JoinPaths(Some(outer), inner)))
  {
    ComposeRoutes(outer, inner, child.routes);
    ComposeMiddlewares(outer, inner, child.middleware);
    MountAlone(child, Some(inner));
    MountAlone(child, Some(JoinPaths(Some(outer), inner)));
    MountAlone(Mount(App([], []), child, Some(inner)), Some(outer));
  }

  lemma MountAlone(child: App, base: Option<Path>)
    ensures Mount(App([], []), child, base) == App(MountRoutes(base, child.routes), MountMiddlewares(base, child.middleware))
  {
    NothingBefore(MountRoutes(base, child.routes));
    NothingBefore(MountMiddlewares(base, child.middleware));
  }

  lemma NothingBefore<T>(s: seq<T>)
    ensures [] + s == s
  {
  }

  lemma JoinAssociativeTidy(a: Path, b: Path, c: Path)
    requires Clean(a) && Clean(b) && Tidy(c)
    ensures JoinPaths(Some(a), JoinPaths(Some(b), c)) == JoinPaths(Some(JoinPaths(Some(a), b)), c)
  {
    JoinTidy(Some(b), c);
    JoinTidy(Some(JoinPaths(Some(a), b)), c);
    JoinAssociative(a, b, NormalizePath(c));
  }

  /** Mounting without a prefix stores the same application exactly when every path was already normalised. */
  lemma MountWithoutPrefix(child: App)
    ensures Mount(App([], []), child, None) == child <==> CleanApp(child)
  {
    var mounted := Mount(App([], []), child, None);
    if CleanApp(child) {
      forall i | 0 <= i < |child.routes| ensures mounted.routes[i] == child.routes[i] {
        assert child.routes[i] in child.routes;
      }
      forall i | 0 <= i < |child.middleware| ensures mounted.middleware[i] == child.middleware[i] {
        assert child.middleware[i] in child.middleware;
      }
    }
    if mounted == child {
      UnchangedIsClean(child);
    }
  }

  lemma UnchangedIsClean(child: App)
    requires Mount(App([], []), child, None) == child
    ensures CleanApp(child)
  {
    var mounted := Mount(App([], []), child, None);
    forall r | r in child.routes ensures Clean(r.path) {
      var i :| 0 <= i < |child.routes| && child.routes[i] == r;
      assert mounted.routes[i].path == NormalizePath(r.path);
    }
    forall m | m in child.middleware && m.pathPrefix.Some? ensures Clean(m.pathPrefix.value) {
      var i :| 0 <= i < |child.middleware| && child.middleware[i] == m;
      assert mounted.middleware[i].pathPrefix == Some(NormalizePath(m.pathPrefix.value));
    }
  }

  /** The prefix a mounted middleware is compared with, whatever the base ends in. */
  lemma MountedPrefixText(base: Path, m: Middleware)
    requires m.pathPrefix.Some? ==> Tidy(m.pathPrefix.value)
    ensures var normal := NormalizePath(base);
      NormalizePrefix(MountMiddleware(Some(base), m).pathPrefix)
      == Some(if m.pathPrefix.None? then normal
              else if NormalizePath(m.pathPrefix.value) == "/" then NormalizePath(normal)
              else Under(normal, NormalizePath(m.pathPrefix.value)))
  {
    if m.pathPrefix.Some? && NormalizePath(m.pathPrefix.value) != "/" {
      var inner := NormalizePath(m.pathPrefix.value);
      assert "" + inner == inner;
      assert JoinPaths(Some(base), m.pathPrefix.value) == Under(NormalizePath(base), inner);
      assert Clean(Under(NormalizePath(base), inner));
    }
  }

  /** A base that keeps one trailing slash mounts like the base without it. */
  lemma BaseWithTrailingSlash(base: Path, child: App, path: Path)
    requires Tidy(base)
    ensures MountRoutes(Some(base), child.routes) == MountRoutes(Some(NormalizePath(base)), child.routes)
    ensures Chain(MountMiddlewares(Some(base), child.middleware), path)
         == Chain(MountMiddlewares(Some(NormalizePath(base)), child.middleware), path)
  {
    SlashChain(base, child.middleware, path);
  }

  lemma {:induction false} SlashChain(base: Path, middleware: seq<Middleware>, path: Path)
    requires Tidy(base)
    ensures Chain(MountMiddlewares(Some(base), middleware), path)
         == Chain(MountMiddlewares(Some(NormalizePath(base)), middleware), path)
  {
    if middleware != [] {
      SlashChain(base, middleware[1..], path);
      MountMiddlewaresCons(Some(base), middleware);
      MountMiddlewaresCons(Some(NormalizePath(base)), middleware);
    }
  }

  // ---- Exactly when a mounted route answers like the route itself ----

  ghost predicate SameAnswer(base: Path, actual: Path, route: Route, path: Path, httpMethod: string, decode: Decoder,
                             baseParams: map<string, string>)
  {
    TryRoute(Compile(MountRoute(Some(base), route)), RequestPath(actual, path), httpMethod, decode)
      == WithBaseParams(baseParams, TryRoute(Compile(route), path, httpMethod, decode))
  }

  /** A path matches its own pattern. */
  lemma {:induction false} SelfMatch(segments: seq<string>)
    ensures MatchPieces(Pieces(segments), segments).Some?
  {
    if segments != [] {
      SelfMatch(segments[1..]);
      assert Pieces(segments)[1..] == Pieces(segments[1..]);
    }
  }

  lemma {:induction false} PlainDecode(names: seq<string>, captures: seq<string>)
    requires |names| == |captures|
    ensures BuildParams(names, captures, (text: string) => Some(text)).Some?
  {
    if names != [] { PlainDecode(names[..|names| - 1], captures[..|captures| - 1]); }
  }

  /** A route stored with two trailing slashes, such as "/a//", answers "/a/" alone but is lost under a mount. */
  lemma UntidyRouteLost(base: Path, route: Route)
    requires Clean(base) && !Tidy(route.path)
    ensures var path, decode := NormalizePath(route.path), (text: string) => Some(text);
      && TryRoute(Compile(route), path, route.httpMethod, decode).Found?
      && TryRoute(Compile(MountRoute(Some(base), route)), RequestPath(base, path), route.httpMethod, decode) == NotFound
  {
    var path := NormalizePath(route.path);
    SelfMatch(Segments(path));
    CaptureCount(Pieces(Segments(path)), Segments(path));
    PlainDecode(ParamNames(Pieces(Segments(path))), MatchPieces(Pieces(Segments(path)), Segments(path)).value);
    var joined := JoinPaths(Some(base), route.path);
    assert joined == RequestPath(base, path) && joined[|joined| - 1] == '/' && |joined| > 1;
    NormalizeShortens(joined);
    MatchLength(Compile(MountRoute(Some(base), route)).pattern, Segments(joined));
  }

  /** A mounted route answers every request like the route itself exactly when its stored path is tidy. */
  lemma MountedRouteExactly(base: Path, route: Route)
    requires Clean(base)
    ensures Tidy(route.path) <==>
      forall actual, path, httpMethod, decode, baseParams :: BaseMatches(base, actual, decode, baseParams) ==>
        SameAnswer(base, actual, route, path, httpMethod, decode, baseParams)
  {
    if Tidy(route.path) {
      forall actual, path, httpMethod, decode, baseParams | BaseMatches(base, actual, decode, baseParams)
        ensures SameAnswer(base, actual, route, path, httpMethod, decode, baseParams)
      {
        TidyAnswers(base, actual, route, path, httpMethod, decode, baseParams);
      }
    } else {
      var decode, baseParams := UntidyDiffers(base, route);
    }
  }

  lemma TidyAnswers(base: Path, actual: Path, route: Route, path: Path, httpMethod: string, decode: Decoder,
                    baseParams: map<string, string>)
    requires Clean(base) && Tidy(route.path) && BaseMatches(base, actual, decode, baseParams)
    ensures SameAnswer(base, actual, route, path, httpMethod, decode, baseParams)
  {
    MountedRoute(base, actual, route, path, httpMethod, decode, baseParams);
  }

  lemma UntidyDiffers(base: Path, route: Route) returns (decode: Decoder, baseParams: map<string, string>)
    requires Clean(base) && !Tidy(route.path)
    ensures BaseMatches(base, base, decode, baseParams)
    ensures !SameAnswer(base, base, route, NormalizePath(route.path), route.httpMethod, decode, baseParams)
  {
    decode := (text: string) => Some(text);
    baseParams := BaseMatchesItself(base);
    UntidyRouteLost(base, route);
  }

  /** The base's own text is one of its concrete forms. */
  lemma BaseMatchesItself(base: Path) returns (baseParams: map<string, string>)
    ensures BaseMatches(base, base, (text: string) => Some(text), baseParams)
  {
    var pieces := Pieces(Segments(base));
    SelfMatch(Segments(base));
    CaptureCount(pieces, Segments(base));
    var captures := MatchPieces(pieces, Segments(base)).value;
    PlainDecode(ParamNames(pieces), captures);
    baseParams := BuildParams(ParamNames(pieces), captures, (text: string) => Some(text)).value;
  }

  // ---- The request as text ----

  /** No route mounted at a proper base answers the base with a trailing slash. */
  lemma TrailingSlashMissed(base: Path, actual: Path, route: Route, httpMethod: string, decode: Decoder)
    requires Clean(base) && base != "/" && Tidy(route.path) && |Segments(base)| == |Segments(actual)| && actual != "/"
    ensures TryRoute(Compile(MountRoute(Some(base), route)), Under(actual, "/"), httpMethod, decode) == NotFound
  {
    MountedPattern(base, route);
    UnderSegments(actual, "/");
    PathOfSegments(NormalizePath(route.path));
    var plain := Compile(route).pattern;
    MatchConcat(Pieces(Segments(base)), plain, Segments(actual), [""]);
    MatchLength(plain, [""]);
    if |plain| == 1 {
      var segment := Segments(NormalizePath(route.path))[0];
      assert plain[0] == PieceOf(segment);
      assert segment != "";
    }
  }

  /**
   On the base's text followed by the path's, a mounted route answers as the route itself answers the
   path, except when the route answers "/" and the base is a proper one: the root has no trailing slash.
   */
  lemma MountedTextExactly(base: Path, actual: Path, route: Route, path: Path, httpMethod: string, decode: Decoder,
                           baseParams: map<string, string>)
    requires Clean(base) && Tidy(route.path) && BaseMatches(base, actual, decode, baseParams)
    ensures TryRoute(Compile(MountRoute(Some(base), route)), Under(actual, path), httpMethod, decode)
         == WithBaseParams(baseParams, TryRoute(Compile(route), path, httpMethod, decode))
       <==> path != "/" || base == "/" || TryRoute(Compile(route), "/", httpMethod, decode) == NotFound
  {
    SegmentsInjective(base, "/");
    SegmentsInjective(actual, "/");
    MatchLength(Pieces(Segments(base)), Segments(actual));
    UnderSegments(actual, path);
    if path != "/" || base == "/" {
      MountedRoute(base, actual, route, path, httpMethod, decode, baseParams);
    } else {
      TrailingSlashMissed(base, actual, route, httpMethod, decode);
    }
  }

  lemma {:induction false} TrailingSlashFind(base: Path, actual: Path, routes: seq<Route>, httpMethod: string, decode: Decoder)
    requires Clean(base) && base != "/" && |Segments(base)| == |Segments(actual)| && actual != "/"
    requires forall r :: r in routes ==> Tidy(r.path)
    ensures Find(CompileAll(MountRoutes(Some(base), routes)), Under(actual, "/"), httpMethod, decode) == NotFound
  {
    if routes != [] {
      TrailingSlashMissed(base, actual, routes[0], httpMethod, decode);
      TrailingSlashFind(base, actual, routes[1..], httpMethod, decode);
      MountRoutesCons(Some(base), routes);
      FindHead(MountRoutes(Some(base), routes), Under(actual, "/"), httpMethod, decode);
    }
  }

  /** The same for whole applications: only the child's root is out of reach, and only with the slash. */
  lemma MountPreservesText(
      parent: App, child: App, base: Path, actual: Path, path: Path, httpMethod: string,
      decode: Decoder, baseParams: map<string, string>)
    requires TidyApp(child) && Clean(base) && BaseMatches(base, actual, decode, baseParams)
    requires DispatchRequest(parent, Under(actual, path), httpMethod, decode) == NotFound
    ensures DispatchRequest(Mount(parent, child, Some(base)), Under(actual, path), httpMethod, decode)
         == WithBaseParams(baseParams, DispatchRequest(child, path, httpMethod, decode))
       <==> path != "/" || base == "/" || DispatchRequest(child, "/", httpMethod, decode) == NotFound
  {
    SegmentsInjective(base, "/");
    SegmentsInjective(actual, "/");
    MatchLength(Pieces(Segments(base)), Segments(actual));
    UnderSegments(actual, path);
    var routes := MountRoutes(Some(base), child.routes);
    CompileConcat(parent.routes, routes);
    FindConcat(CompileAll(parent.routes), CompileAll(routes), Under(actual, path), httpMethod, decode);
    if path != "/" || base == "/" {
      MountedFind(base, actual, child.routes, path, httpMethod, decode, baseParams);
    } else {
      TrailingSlashFind(base, actual, child.routes, httpMethod, decode);
    }
  }

  /** A child's root route answers "/", but its mounted form does not answer the base followed by "/". */
  lemma RootMissesTrailingSlash(base: Path, httpMethod: string, handler: HandlerId, decode: Decoder)
    requires Clean(base) && base != "/"
    ensures var root := Route(httpMethod, "/", handler);
      && TryRoute(Compile(root), "/", httpMethod, decode) == Found(handler, map[])
      && TryRoute(Compile(MountRoute(Some(base), root)), base + "/", httpMethod, decode) == NotFound
  {
    TrailingSlashMissed(base, base, Route(httpMethod, "/", handler), httpMethod, decode);
  }
}
