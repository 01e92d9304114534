/**
 Paths of serve applications: normalising and joining (src/sdk/serve/index.ts), prefix stripping and
 prefix tests (src/runtime/serve/worker.ts), and their meaning in terms of path segments.
 */
module ServePaths {
  import opened Prelude

  /** Anything else makes the path functions throw. */
  type Path = p: string | |p| > 0 && p[0] == '/' witness "/"

  function NormalizePath(path: Path): Path {
    if |path| > 1 && path[|path| - 1] == '/' then path[..|path| - 1] else path
  }

  /** Normalising takes off one trailing slash only; a clean path has none left. */
  predicate Clean(path: Path) {
    NormalizePath(path) == path
  }

  /** Normalising once is enough. */
  predicate Tidy(path: Path) {
    Clean(NormalizePath(path))
  }

  function JoinPaths(basePath: Option<Path>, childPath: Path): Path {
    if basePath.None? then NormalizePath(childPath)
    else
      var base, child := NormalizePath(basePath.value), NormalizePath(childPath);
      if base == "/" then child else if child == "/" then base else base + child
  }

  function StripMatchPrefix(pathname: Path, matchPrefix: Path): Path {
    var prefix := NormalizePath(matchPrefix);
    if prefix == "/" || !(prefix <= pathname) then pathname
    else
      var stripped := pathname[|prefix|..];
      if |stripped| == 0 then "/" else if stripped[0] == '/' then stripped else "/" + stripped
  }

  predicate PathStartsWithPrefix(pathname: Path, pathPrefix: Option<Path>) {
    pathPrefix.None? || pathPrefix.value == "/" || pathname == pathPrefix.value || pathPrefix.value + "/" <= pathname
  }

  /** The base's text followed by the path's; the root base contributes nothing. */
  function Under(base: Path, path: Path): Path {
    (if base == "/" then "" else base) + path
  }

  /** The same, except that the root of an application served under a base is the base itself. */
  function RequestPath(base: Path, path: Path): Path {
    if base == "/" then path else if path == "/" then base else base + path
  }

  // ---- Segments ----

  /** `s.split("/")`. */
  function Split(s: string): (r: seq<string>)
    ensures |r| >= 1
  {
    if s == [] then [[]]
    else
      var rest := Split(s[1..]);
      if s[0] == '/' then [[]] + rest else [[s[0]] + rest[0]] + rest[1..]
  }

  /** `parts.join("/")`. */
  function Join(parts: seq<string>): string {
    if parts == [] then "" else if |parts| == 1 then parts[0] else parts[0] + "/" + Join(parts[1..])
  }

  function Segments(path: Path): seq<string> {
    if path == "/" then [] else Split(path[1..])
  }

  lemma SplitCons(c: char, s: string)
    ensures Split([c] + s) == if c == '/' then [[]] + Split(s) else [[c] + Split(s)[0]] + Split(s)[1..]
  {
    assert ([c] + s)[1..] == s;
  }

  lemma {:induction false} SplitConcat(a: string, b: string)
    ensures Split(a + "/" + b) == Split(a) + Split(b)
  {
    if a == [] {
      assert a + "/" + b == ['/'] + b;
      SplitCons('/', b);
    } else {
      var tail := a[1..];
      SplitConcat(tail, b);
      assert a == [a[0]] + tail && a + "/" + b == [a[0]] + (tail + "/" + b);
      SplitCons(a[0], tail);
      SplitCons(a[0], tail + "/" + b);
      if a[0] == '/' {
        ConcatAssociative([[]], Split(tail), Split(b));
      } else {
        ReplaceHead([a[0]] + Split(tail)[0], Split(tail), Split(b));
      }
    }
  }

  lemma ReplaceHead<T(!new)>(head: T, a: seq<T>, b: seq<T>)
    requires |a| >= 1
    ensures (a + b)[0] == a[0] && [head] + (a + b)[1..] == ([head] + a[1..]) + b
  {
  }

  lemma {:induction false} JoinSplit(s: string)
    ensures Join(Split(s)) == s
  {
    if s != [] {
      JoinSplit(s[1..]);
      var rest := Split(s[1..]);
      if s[0] == '/' {
        TailOfCons([], rest);
        assert Join([[]] + rest) == [] + "/" + Join(rest);
        assert s == "/" + s[1..];
      } else {
        JoinGrowHead(s[0], rest);
        assert s == [s[0]] + s[1..];
      }
    }
  }

  lemma JoinGrowHead(c: char, parts: seq<string>)
    requires parts != []
    ensures Join([[c] + parts[0]] + parts[1..]) == [c] + Join(parts)
  {
    JoinCons([c] + parts[0], parts[1..]);
    if |parts| > 1 {
      ConcatAssociative([c], parts[0], "/");
      ConcatAssociative([c], parts[0] + "/", Join(parts[1..]));
    }
  }

  lemma JoinCons(head: string, tail: seq<string>)
    ensures Join([head] + tail) == if tail == [] then head else head + "/" + Join(tail)
  {
    TailOfCons(head, tail);
  }

  lemma {:induction false} SplitSlashFree(s: string)
    requires '/' !in s
    ensures Split(s) == [s]
  {
    if s != [] {
      SplitSlashFree(s[1..]);
      assert s == [s[0]] + s[1..];
    }
  }

  lemma {:induction false} SplitJoin(parts: seq<string>)
    requires parts != [] && forall part :: part in parts ==> '/' !in part
    ensures Split(Join(parts)) == parts
  {
    SplitSlashFree(parts[0]);
    if |parts| > 1 {
      SplitJoin(parts[1..]);
      SplitConcat(parts[0], Join(parts[1..]));
      assert parts == [parts[0]] + parts[1..];
    }
  }

  lemma {:induction false} SplitParts(s: string)
    ensures forall part :: part in Split(s) ==> '/' !in part
  {
    if s != [] {
      SplitParts(s[1..]);
      var rest := Split(s[1..]);
      assert rest[0] in rest;
      assert forall part :: part in rest[1..] ==> part in rest;
    }
  }

  lemma {:induction false} JoinConcat(a: seq<string>, b: seq<string>)
    requires a != [] && b != []
    ensures Join(a + b) == Join(a) + "/" + Join(b)
  {
    assert (a + b)[1..] == a[1..] + b;
    if |a| > 1 {
      JoinConcat(a[1..], b);
      assert Join(a + b) == a[0] + "/" + (Join(a[1..]) + "/" + Join(b));
      assert Join(a) == a[0] + "/" + Join(a[1..]);
      assert a[0] + "/" + (Join(a[1..]) + "/" + Join(b)) == (a[0] + "/" + Join(a[1..])) + "/" + Join(b);
    } else {
      assert a[1..] + b == b;
    }
  }

  /** A path is its segments. */
  lemma PathOfSegments(path: Path)
    ensures path == "/" + Join(Segments(path))
    ensures forall s :: s in Segments(path) ==> '/' !in s
    ensures Segments(path) != [""]
  {
    JoinSplit(path[1..]);
    SplitParts(path[1..]);
    assert path == "/" + path[1..];
    assert Join([""]) == "";
  }

  lemma SegmentsInjective(a: Path, b: Path)
    ensures Segments(a) == Segments(b) <==> a == b
  {
    PathOfSegments(a);
    PathOfSegments(b);
  }

  lemma RequestSegments(base: Path, path: Path)
    ensures Segments(RequestPath(base, path)) == Segments(base) + Segments(path)
  {
    if base != "/" && path != "/" {
      assert path == "/" + path[1..];
      assert (base + path)[1..] == base[1..] + "/" + path[1..];
      SplitConcat(base[1..], path[1..]);
    }
  }

  /** Appending as text agrees except at the root of a proper base, where it leaves an empty last segment. */
  lemma UnderSegments(base: Path, path: Path)
    ensures Segments(Under(base, path)) == Segments(base) + if path == "/" && base != "/" then [""] else Segments(path)
    ensures Under(base, path) == RequestPath(base, path) <==> path != "/" || base == "/"
  {
    if path == "/" && base != "/" {
      assert (base + "/")[1..] == base[1..] + "/" + "";
      SplitConcat(base[1..], "");
    } else {
      RequestSegments(base, path);
      if base == "/" { assert "" + path == path; }
    }
  }

  /** Taking off a trailing slash takes off a segment. */
  lemma NormalizeShortens(path: Path)
    requires !Clean(path)
    ensures |Segments(NormalizePath(path))| < |Segments(path)|
  {
    var shorter := NormalizePath(path);
    assert path == shorter + "/";
    if shorter != "/" {
      assert path[1..] == shorter[1..] + "/" + "";
      SplitConcat(shorter[1..], "");
    }
  }

  // ---- Joining ----

  lemma JoinTidy(base: Option<Path>, child: Path)
    requires Tidy(child)
    ensures JoinPaths(base, child) == JoinPaths(base, NormalizePath(child))
  {
  }

  lemma NormalizeClean(path: Path)
    ensures Tidy(path) <==> !(|path| > 2 && path[|path| - 2..] == "//")
  {
    if |path| > 2 {
      assert path[|path| - 2..] == [path[|path| - 2], path[|path| - 1]];
    }
  }

  lemma JoinIsRequest(base: Path, child: Path)
    requires Clean(base) && Clean(child)
    ensures JoinPaths(Some(base), child) == RequestPath(base, child)
    ensures Clean(JoinPaths(Some(base), child))
    ensures Segments(JoinPaths(Some(base), child)) == Segments(base) + Segments(child)
  {
    RequestSegments(base, child);
  }

  /** On clean paths joining is associative, with "/" and the absent base as units. */
  lemma JoinAssociative(a: Path, b: Path, c: Path)
    requires Clean(a) && Clean(b) && Clean(c)
    ensures JoinPaths(Some(a), JoinPaths(Some(b), c)) == JoinPaths(Some(JoinPaths(Some(a), b)), c)
    ensures JoinPaths(Some("/"), c) == c && JoinPaths(Some(c), "/") == c && JoinPaths(None, c) == c
  {
    JoinIsRequest(a, b);
    JoinIsRequest(b, c);
    JoinIsRequest(a, JoinPaths(Some(b), c));
    JoinIsRequest(JoinPaths(Some(a), b), c);
    ConcatAssociative(Segments(a), Segments(b), Segments(c));
    SegmentsInjective(JoinPaths(Some(a), JoinPaths(Some(b), c)), JoinPaths(Some(JoinPaths(Some(a), b)), c));
  }

  /** Cleanliness matters: a path that ends in two slashes is normalised once more each time it is joined. */
  lemma UncleanJoinDiffers()
    ensures NormalizePath("/a//") == "/a/"
    ensures JoinPaths(None, JoinPaths(None, "/a//")) == "/a"
    ensures JoinPaths(None, "/a//") == "/a/"
  {
  }

  // ---- Prefixes ----

  /** The textual prefix test is the segment-wise one. */
  lemma PrefixIsSegmentwise(pathname: Path, prefix: Path)
    ensures PathStartsWithPrefix(pathname, Some(prefix)) <==> Segments(prefix) <= Segments(pathname)
  {
    if prefix != "/" {
      if prefix + "/" <= pathname { TextualIsSegmentwise(pathname, prefix); }
      if Segments(prefix) <= Segments(pathname) { SegmentwiseIsTextual(pathname, prefix); }
    }
  }

  lemma TextualIsSegmentwise(pathname: Path, prefix: Path)
    requires prefix != "/" && prefix + "/" <= pathname
    ensures Segments(prefix) <= Segments(pathname)
  {
    var rest := pathname[|prefix| + 1..];
    assert pathname == prefix + "/" + rest;
    assert pathname[1..] == prefix[1..] + "/" + rest;
    SplitConcat(prefix[1..], rest);
    assert pathname != "/";
  }

  lemma SegmentwiseIsTextual(pathname: Path, prefix: Path)
    requires prefix != "/" && Segments(prefix) <= Segments(pathname)
    ensures pathname == prefix || prefix + "/" <= pathname
  {
    PathOfSegments(pathname);
    PathOfSegments(prefix);
    var ps, ss := Segments(prefix), Segments(pathname);
    var tail := ss[|ps|..];
    PrefixAndRest(ps, ss);
    if tail != [] {
      JoinConcat(ps, tail);
      assert pathname == (prefix + "/") + Join(tail);
    }
  }

  /** Stripping the pipeline's prefix undoes serving under it. */
  lemma StripInvertsRequest(prefix: Path, path: Path)
    requires Clean(prefix)
    ensures StripMatchPrefix(RequestPath(prefix, path), prefix) == path
  {
    if prefix != "/" && path != "/" {
      assert (prefix + path)[|prefix|..] == path;
    }
  }

  /** Stripping works on the text: what follows the prefix, with a slash in front; any other path is left alone. */
  lemma StripMeans(prefix: Path, pathname: Path, rest: string)
    requires Clean(prefix) && prefix != "/"
    ensures pathname == prefix + rest ==>
      StripMatchPrefix(pathname, prefix) == (if rest != "" && rest[0] == '/' then rest else "/" + rest)
    ensures !(prefix <= pathname) ==> StripMatchPrefix(pathname, prefix) == pathname
    ensures StripMatchPrefix(pathname, "/") == pathname
  {
    assert (prefix + rest)[|prefix|..] == rest;
  }
}
