/** How the handler turns the inbound path into the upstream URL (main.go, ProxyRequest). */
module PathRewrite {
  import opened Text
  import Http

  /** The prefix the proxy's own routes may carry in front of an upstream path. */
  const ApiPrefix := "/api"

  predicate IsSuffix(s: string, t: string) {
    |s| <= |t| && t[|t| - |s|..] == s
  }

  /** The inbound path without one leading "/api" (a plain text match, not a path segment). */
  function Unprefixed(p: string): string {
    TrimPrefix(p, ApiPrefix)
  }

  /**
   * The upstream path: one leading "/api" is removed and a leading "/" is guaranteed.
   * The result ends with what is left of the inbound path and adds at most the "/".
   */
  function NormalizePath(p: string): (r: string)
    ensures |r| >= 1 && r[0] == '/'
    ensures IsSuffix(Unprefixed(p), r) && |r| <= |Unprefixed(p)| + 1
    ensures r == Unprefixed(p) <==> HasPrefix(Unprefixed(p), "/")
    ensures HasPrefix(p, ApiPrefix) ==> ApiPrefix + Unprefixed(p) == p
  {
    var s := Unprefixed(p);
    if HasPrefix(s, "/") then s else "/" + s
  }

  /**
   * The request target: base URL, normalised path, then "?" and the encoded query if and
   * only if the query has at least one key.
   */
  function TargetUrl(base: string, path: string, query: Http.Multimap, encode: Http.Multimap -> string): (url: string)
    ensures HasPrefix(url, base + NormalizePath(path))
    ensures |query| == 0 <==> url == base + NormalizePath(path)
    ensures |query| > 0 ==> url[|base + NormalizePath(path)|..] == "?" + encode(query)
  {
    var target := base + NormalizePath(path);
    if |query| > 0 then target + "?" + encode(query) else target
  }

  /** A versioned path loses its "/api". */
  lemma ExampleVersionedPath()
    ensures NormalizePath("/api/ticker/24hr") == "/ticker/24hr"
  {
    var p := "/api/ticker/24hr";
    assert p[..4] == ApiPrefix;
    assert p[4..] == "/ticker/24hr";
  }

  /** A relative path gains its leading "/". */
  lemma ExampleRelativePath()
    ensures NormalizePath("ticker/price") == "/ticker/price"
  {
    var p := "ticker/price";
    assert p[..4] != ApiPrefix by { assert p[..4][0] == 't'; }
    assert p[..1] != "/" by { assert p[..1][0] == 't'; }
  }

  /** "/api" alone becomes the root path. */
  lemma ExampleBarePrefix()
    ensures NormalizePath("/api") == "/"
  {
    assert "/api"[..4] == ApiPrefix;
  }

  /** The match is textual: "/apix" becomes "/x". */
  lemma ExampleTextualMatch()
    ensures NormalizePath("/apix") == "/x"
  {
    var p := "/apix";
    assert p[..4] == ApiPrefix;
    assert p[4..] == "x";
    assert "x"[..1] != "/" by { assert "x"[..1][0] == 'x'; }
  }

  /** Only one "/api" is removed: "/api/api/x" becomes "/api/x", and "/api/api" becomes "/api". */
  lemma StripsOnlyOnce(rest: string)
    ensures NormalizePath(ApiPrefix + ApiPrefix + rest) == ApiPrefix + rest
  {
    var p := ApiPrefix + ApiPrefix + rest;
    assert p[..4] == ApiPrefix;
    assert p[4..] == ApiPrefix + rest;
    assert (ApiPrefix + rest)[..1] == "/" by { assert (ApiPrefix + rest)[0] == '/'; }
  }
}
