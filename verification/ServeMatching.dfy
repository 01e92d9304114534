/**
 What a route's path text means to a request (src/runtime/serve/worker.ts): which segments it takes,
 which parameters an answer carries, which route of an application answers and which middleware runs.
 */
module ServeMatching {
  import opened Prelude
  import opened ServePaths
  import opened ServeApps

  /** A segment written ":name". */
  ghost predicate IsParam(segment: string) {
    segment != "" && segment[0] == ':'
  }

  /** Segment for segment: a parameter takes anything but the empty segment, everything else only itself. */
  ghost predicate Takes(pattern: seq<string>, parts: seq<string>) {
    |parts| == |pattern| && forall i :: 0 <= i < |pattern| ==> TakesSegment(pattern[i], parts[i])
  }

  ghost predicate TakesSegment(segment: string, part: string) {
    if IsParam(segment) then part != "" else part == segment
  }

  /** The last parameter of its name. */
  ghost predicate LastNamed(pattern: seq<string>, i: int) {
    0 <= i < |pattern| && IsParam(pattern[i]) && forall j :: i < j < |pattern| ==> pattern[j] != pattern[i]
  }

  ghost predicate Malformed(pattern: seq<string>, parts: seq<string>, decode: Decoder, i: int) {
    0 <= i < |pattern| && i < |parts| && IsParam(pattern[i]) && decode(parts[i]) == None
  }

  /** The parameters are those of the pattern, each with the decoded segment at its last place. */
  ghost predicate Carries(pattern: seq<string>, parts: seq<string>, decode: Decoder, params: map<string, string>)
    requires |parts| == |pattern|
  {
    && (forall name :: name in params <==> ":" + name in pattern)
    && forall i :: LastNamed(pattern, i) ==>
         pattern[i][1..] in params && decode(parts[i]) == Some(params[pattern[i][1..]])
  }

  // ---- Captures in order ----

  lemma {:induction false} CapturedLast(pieces: seq<Piece>, texts: seq<string>)
    requires |texts| == |pieces| > 0
    ensures var n := |pieces| - 1;
      Captured(pieces, texts) == Captured(pieces[..n], texts[..n]) + if pieces[n].Param? then [texts[n]] else []
  {
    var n := |pieces| - 1;
    if n > 0 {
      CapturedLast(pieces[1..], texts[1..]);
      assert pieces[..n][1..] == pieces[1..][..n - 1] && texts[..n][1..] == texts[1..][..n - 1];
    }
  }

  lemma {:induction false} CapturedCount(pieces: seq<Piece>, texts: seq<string>)
    requires |texts| == |pieces|
    ensures |Captured(pieces, texts)| == |ParamNames(pieces)|
  {
    if pieces != [] {
      var n := |pieces| - 1;
      CapturedLast(pieces, texts);
      CapturedCount(pieces[..n], texts[..n]);
    }
  }

  lemma FillsTakes(pattern: seq<string>, parts: seq<string>)
    requires forall part :: part in parts ==> '/' !in part
    ensures Fills(Pieces(pattern), parts) <==> Takes(pattern, parts)
  {
    if |pattern| == |parts| {
      forall i | 0 <= i < |pattern|
        ensures TakesSegment(pattern[i], parts[i]) <==>
          match Pieces(pattern)[i]
          case Literal(text) => parts[i] == text
          case Param(_) => parts[i] != "" && '/' !in parts[i]
      {
        assert Pieces(pattern)[i] == PieceOf(pattern[i]);
      }
    }
  }

  ghost function Built(pattern: seq<string>, parts: seq<string>, decode: Decoder): Option<map<string, string>>
    requires |parts| == |pattern|
  {
    CapturedCount(Pieces(pattern), parts);
    BuildParams(ParamNames(Pieces(pattern)), Captured(Pieces(pattern), parts), decode)
  }

  lemma BuiltLast(pattern: seq<string>, parts: seq<string>, decode: Decoder)
    requires |parts| == |pattern| > 0
    ensures var n := |pattern| - 1;
      var before, after := Built(pattern[..n], parts[..n], decode), Built(pattern, parts, decode);
      if !IsParam(pattern[n]) then after == before
      else if before.None? || decode(parts[n]).None? then after == None
      else after == Some(before.value[pattern[n][1..] := decode(parts[n]).value])
  {
    var n := |pattern| - 1;
    var pieces, names, captures := Pieces(pattern), ParamNames(Pieces(pattern)), Captured(Pieces(pattern), parts);
    assert pieces[..n] == Pieces(pattern[..n]) && pieces[n] == PieceOf(pattern[n]);
    CapturedLast(pieces, parts);
    CapturedCount(pieces, parts);
    CapturedCount(pieces[..n], parts[..n]);
    if IsParam(pattern[n]) {
      assert names[..|names| - 1] == ParamNames(pieces[..n]);
      assert captures[..|captures| - 1] == Captured(pieces[..n], parts[..n]);
    } else {
      assert names == ParamNames(pieces[..n]);
      assert captures == Captured(pieces[..n], parts[..n]);
    }
  }

  lemma MalformedLast(pattern: seq<string>, parts: seq<string>, decode: Decoder)
    requires |parts| == |pattern| > 0
    ensures var n := |pattern| - 1;
      (exists i :: Malformed(pattern, parts, decode, i)) <==>
      (exists i :: Malformed(pattern[..n], parts[..n], decode, i)) || Malformed(pattern, parts, decode, n)
  {
    var n := |pattern| - 1;
    if i :| Malformed(pattern[..n], parts[..n], decode, i) {
      assert Malformed(pattern, parts, decode, i);
    }
    if i :| Malformed(pattern, parts, decode, i) && i < n {
      assert Malformed(pattern[..n], parts[..n], decode, i);
    }
  }

  lemma {:induction false} BuiltCarries(pattern: seq<string>, parts: seq<string>, decode: Decoder)
    requires |parts| == |pattern|
    ensures Built(pattern, parts, decode).None? <==> exists i :: Malformed(pattern, parts, decode, i)
    ensures Built(pattern, parts, decode).Some? ==> Carries(pattern, parts, decode, Built(pattern, parts, decode).value)
  {
    if pattern != [] {
      var n := |pattern| - 1;
      BuiltCarries(pattern[..n], parts[..n], decode);
      BuiltLast(pattern, parts, decode);
      MalformedLast(pattern, parts, decode);
      if Built(pattern, parts, decode).Some? { CarriesLast(pattern, parts, decode); }
    }
  }

  lemma CarriesLast(pattern: seq<string>, parts: seq<string>, decode: Decoder)
    requires |parts| == |pattern| > 0
    requires Built(pattern, parts, decode).Some? && Built(pattern[..|pattern| - 1], parts[..|pattern| - 1], decode).Some?
    requires Carries(pattern[..|pattern| - 1], parts[..|pattern| - 1], decode, Built(pattern[..|pattern| - 1], parts[..|pattern| - 1], decode).value)
    ensures Carries(pattern, parts, decode, Built(pattern, parts, decode).value)
  {
    var n := |pattern| - 1;
    BuiltLast(pattern, parts, decode);
    PutCarries(pattern, parts, decode, Built(pattern[..n], parts[..n], decode).value);
  }

  /** The parameters of all but the last segment, and the last segment's own. */
  ghost function PutLast(pattern: seq<string>, parts: seq<string>, decode: Decoder, params: map<string, string>): map<string, string>
    requires |parts| == |pattern| > 0
  {
    var n := |pattern| - 1;
    if IsParam(pattern[n]) && decode(parts[n]).Some? then params[pattern[n][1..] := decode(parts[n]).value] else params
  }

  lemma PutCarries(pattern: seq<string>, parts: seq<string>, decode: Decoder, params: map<string, string>)
    requires |parts| == |pattern| > 0 && Carries(pattern[..|pattern| - 1], parts[..|pattern| - 1], decode, params)
    requires IsParam(pattern[|pattern| - 1]) ==> decode(parts[|pattern| - 1]).Some?
    ensures Carries(pattern, parts, decode, PutLast(pattern, parts, decode, params))
  {
    var after := PutLast(pattern, parts, decode, params);
    forall name ensures name in after <==> ":" + name in pattern {
      PutKeys(pattern, parts, decode, params, name);
    }
    forall i | LastNamed(pattern, i) ensures pattern[i][1..] in after && decode(parts[i]) == Some(after[pattern[i][1..]]) {
      PutValue(pattern, parts, decode, params, i);
    }
  }

  lemma ParamText(segment: string, name: string)
    ensures IsParam(segment) ==> (segment[1..] == name <==> segment == ":" + name)
    ensures !IsParam(segment) ==> segment != ":" + name
  {
    assert (":" + name)[1..] == name;
    if IsParam(segment) { assert segment == ":" + segment[1..]; }
  }

  lemma PutKeys(pattern: seq<string>, parts: seq<string>, decode: Decoder, params: map<string, string>, name: string)
    requires |parts| == |pattern| > 0 && (name in params <==> ":" + name in pattern[..|pattern| - 1])
    requires IsParam(pattern[|pattern| - 1]) ==> decode(parts[|pattern| - 1]).Some?
    ensures name in PutLast(pattern, parts, decode, params) <==> ":" + name in pattern
  {
    var n := |pattern| - 1;
    ParamText(pattern[n], name);
    assert ":" + name in pattern <==> ":" + name in pattern[..n] || ":" + name == pattern[n];
  }

  lemma PutValue(pattern: seq<string>, parts: seq<string>, decode: Decoder, params: map<string, string>, i: nat)
    requires |parts| == |pattern| > 0 && Carries(pattern[..|pattern| - 1], parts[..|pattern| - 1], decode, params)
    requires IsParam(pattern[|pattern| - 1]) ==> decode(parts[|pattern| - 1]).Some?
    requires LastNamed(pattern, i)
    ensures var after := PutLast(pattern, parts, decode, params);
      pattern[i][1..] in after && decode(parts[i]) == Some(after[pattern[i][1..]])
  {
    var n := |pattern| - 1;
    if i < n {
      assert LastNamed(pattern[..n], i);
      ParamText(pattern[n], pattern[i][1..]);
      ParamText(pattern[i], pattern[i][1..]);
    }
  }

  // ---- One route ----

  ghost predicate Answers(route: Route, path: Path, httpMethod: string) {
    (route.httpMethod == "ALL" || route.httpMethod == httpMethod) && Takes(Segments(NormalizePath(route.path)), Segments(path))
  }

  /**
   A route answers exactly the requests of its method whose segments its own segments take, with its
   handler and every named segment decoded; a malformed one is an error.
   */
  lemma RouteMeans(route: Route, path: Path, httpMethod: string, decode: Decoder)
    ensures var pattern, parts := Segments(NormalizePath(route.path)), Segments(path);
      match TryRoute(Compile(route), path, httpMethod, decode)
      case NotFound => !Answers(route, path, httpMethod)
      case BadEncoding => Answers(route, path, httpMethod) && exists i :: Malformed(pattern, parts, decode, i)
      case Found(handler, params) =>
        Answers(route, path, httpMethod) && handler == route.handler && Carries(pattern, parts, decode, params)
  {
    var pattern, parts := Segments(NormalizePath(route.path)), Segments(path);
    PathOfSegments(path);
    FillsTakes(pattern, parts);
    MatchFills(Pieces(pattern), parts);
    if Takes(pattern, parts) { BuiltCarries(pattern, parts, decode); }
  }

  // ---- A whole application ----

  /** The first of the routes that answers. */
  ghost predicate FirstAnswers(routes: seq<Route>, path: Path, httpMethod: string, i: int) {
    && 0 <= i < |routes| && Answers(routes[i], path, httpMethod)
    && forall j :: 0 <= j < i ==> !Answers(routes[j], path, httpMethod)
  }

  ghost predicate NoneAnswers(routes: seq<Route>, path: Path, httpMethod: string) {
    forall route :: route in routes ==> !Answers(route, path, httpMethod)
  }

  /** The first route that answers a request decides it; a request that none answers is not found. */
  lemma DispatchMeans(app: App, path: Path, httpMethod: string, decode: Decoder)
    ensures forall i :: FirstAnswers(app.routes, path, httpMethod, i) ==>
      DispatchRequest(app, path, httpMethod, decode) == TryRoute(Compile(app.routes[i]), path, httpMethod, decode)
    ensures DispatchRequest(app, path, httpMethod, decode) == NotFound <==> NoneAnswers(app.routes, path, httpMethod)
  {
    var compiled := CompileAll(app.routes);
    forall i | 0 <= i < |compiled|
      ensures TryRoute(compiled[i], path, httpMethod, decode) == NotFound <==> !Answers(app.routes[i], path, httpMethod)
    {
      RouteMeans(app.routes[i], path, httpMethod, decode);
    }
    forall i | FirstAnswers(app.routes, path, httpMethod, i)
      ensures Find(compiled, path, httpMethod, decode) == TryRoute(Compile(app.routes[i]), path, httpMethod, decode)
    {
      FindFirst(compiled, path, httpMethod, decode, i);
    }
    FindNone(compiled, path, httpMethod, decode);
  }

  ghost predicate Misses(route: CompiledRoute, path: Path, httpMethod: string, decode: Decoder)
    requires route.paramNames == ParamNames(route.pattern)
  {
    TryRoute(route, path, httpMethod, decode) == NotFound
  }

  lemma {:induction false} FindFirst(routes: seq<CompiledRoute>, path: Path, httpMethod: string, decode: Decoder, i: nat)
    requires WellCompiled(routes) && i < |routes|
    requires forall j :: 0 <= j < i ==> Misses(routes[j], path, httpMethod, decode)
    requires !Misses(routes[i], path, httpMethod, decode)
    ensures Find(routes, path, httpMethod, decode) == TryRoute(routes[i], path, httpMethod, decode)
  {
    if i > 0 {
      var rest := routes[1..];
      assert Misses(routes[0], path, httpMethod, decode);
      assert forall j :: 0 <= j < i - 1 ==> rest[j] == routes[j + 1];
      FindFirst(rest, path, httpMethod, decode, i - 1);
    }
  }

  lemma {:induction false} FindNone(routes: seq<CompiledRoute>, path: Path, httpMethod: string, decode: Decoder)
    requires WellCompiled(routes)
    ensures Find(routes, path, httpMethod, decode) == NotFound
       <==> forall i :: 0 <= i < |routes| ==> Misses(routes[i], path, httpMethod, decode)
  {
    if routes != [] {
      var rest := routes[1..];
      FindNone(rest, path, httpMethod, decode);
      assert forall i :: 1 <= i < |routes| ==> routes[i] == rest[i - 1];
      assert forall i :: 0 <= i < |rest| ==> rest[i] == routes[i + 1];
    }
  }

  // ---- Middleware ----

  /** Without a prefix, or with one whose segments the path starts with. */
  ghost predicate Covers(m: Middleware, path: Path) {
    match m.pathPrefix
    case None => true
    case Some(prefix) => Segments(NormalizePath(prefix)) <= Segments(path)
  }

  lemma CoversText(m: Middleware, path: Path)
    ensures Covers(m, path) <==> PathStartsWithPrefix(path, NormalizePrefix(m.pathPrefix))
  {
    if m.pathPrefix.Some? { PrefixIsSegmentwise(path, NormalizePath(m.pathPrefix.value)); }
  }

  ghost function Handlers(middleware: seq<Middleware>): (r: seq<HandlerId>)
    ensures |r| == |middleware| && forall i :: 0 <= i < |r| ==> r[i] == middleware[i].handler
  {
    if middleware == [] then [] else [middleware[0].handler] + Handlers(middleware[1..])
  }

  /** A request runs through exactly the middleware that covers its path, in the order of registration. */
  lemma {:induction false} ChainMeans(middleware: seq<Middleware>, path: Path)
    ensures Chain(middleware, path) == Handlers(Filter(m => Covers(m, path), middleware))
  {
    if middleware != [] {
      var m, covers := middleware[0], m => Covers(m, path);
      ChainMeans(middleware[1..], path);
      CoversText(m, path);
      var later := Filter(covers, middleware[1..]);
      TailOfCons(m, later);
      assert Handlers([m] + later) == [m.handler] + Handlers(later);
    }
  }
}
