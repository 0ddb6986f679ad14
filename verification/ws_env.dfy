/**
 * Where the replay stream lives (src/lib/env.ts): the WebSocket base URL and
 * path, resolved from build-time configuration, the REST API base URL and,
 * in a browser, the page's own location.
 */
module WsEnv {
  import opened Wrappers
  import opened Text

  /** The path used when none is configured. */
  const DefaultWsPath: string := "/ws"

  /** The parts of a URL the resolution reads: `protocol` (with its colon) and `host`. */
  datatype Location = Location(protocol: string, host: string)

  /** The build-time configuration; `None` for an unset variable. */
  datatype EnvConfig = EnvConfig(
    wsBaseUrl: Option<string>,   // NEXT_PUBLIC_WS_BASE_URL
    apiBaseUrl: Option<string>,  // NEXT_PUBLIC_API_BASE_URL
    wsPath: Option<string>)      // NEXT_PUBLIC_WS_PATH

  /** WS_PATH: the configured path when set and non-empty, otherwise "/ws". */
  function WsPath(cfg: EnvConfig): (r: string)
    ensures r != ""
    ensures cfg.wsPath.Some? && cfg.wsPath.value != "" ==> r == cfg.wsPath.value
    ensures cfg.wsPath.None? || cfg.wsPath.value == "" ==> r == DefaultWsPath
  {
    if cfg.wsPath.Some? && cfg.wsPath.value != "" then cfg.wsPath.value else DefaultWsPath
  }

  /**
   * removeTrailingSlash: the value without its trailing run of slashes. The
   * result is a prefix of the value that does not end in "/", and only
   * slashes were removed.
   */
  function RemoveTrailingSlash(s: string): (r: string)
    ensures |r| <= |s| && r == s[..|r|]
    ensures r == "" || r[|r| - 1] != '/'
    ensures forall i :: |r| <= i < |s| ==> s[i] == '/'
  {
    DropTrailing(s, '/')
  }

  /** Removing trailing slashes twice is removing them once. */
  lemma RemoveTrailingSlashIdempotent(s: string)
    ensures RemoveTrailingSlash(RemoveTrailingSlash(s)) == RemoveTrailingSlash(s)
  {
  }

  /** Every character of `s` is "/" (true of ""). */
  predicate AllSlashes(s: string) {
    forall i :: 0 <= i < |s| ==> s[i] == '/'
  }

  /** The WebSocket scheme matching an HTTP(S) protocol. */
  function WsScheme(protocol: string): string {
    if protocol == "https:" then "wss" else "ws"
  }

  /**
   * `${scheme}://${host}` without trailing slashes: the host is kept whole
   * unless it ends in "/", and an empty or all-slash host leaves only the
   * scheme and its colon.
   */
  function SocketOrigin(loc: Location): (r: string)
    ensures StartsWith(r, WsScheme(loc.protocol) + ":")
    ensures r == "" || r[|r| - 1] != '/'
    ensures loc.host != "" && loc.host[|loc.host| - 1] != '/' ==> r == WsScheme(loc.protocol) + "://" + loc.host
    ensures AllSlashes(loc.host) ==> r == WsScheme(loc.protocol) + ":"
  {
    var full := WsScheme(loc.protocol) + "://" + loc.host;
    var r := RemoveTrailingSlash(full);
    assert |WsScheme(loc.protocol) + ":"| <= |r| by {
      assert full[|WsScheme(loc.protocol)|] == ':';
    }
    assert r[..|WsScheme(loc.protocol) + ":"|] == full[..|WsScheme(loc.protocol) + ":"|];
    r
  }

  /**
   * An origin splits back into its parts: the scheme's "wss://" exactly for
   * an HTTPS page, then the host unchanged.
   */
  lemma SocketOriginReadsBack(loc: Location)
    requires loc.host != "" && loc.host[|loc.host| - 1] != '/'
    ensures var r := SocketOrigin(loc); var n := |WsScheme(loc.protocol)| + 3;
      n <= |r| && r[n..] == loc.host && r[..n] == (if loc.protocol == "https:" then "wss://" else "ws://")
  {
    var r := SocketOrigin(loc);
    var scheme := WsScheme(loc.protocol);
    assert r == (scheme + "://") + loc.host;
  }

  /**
   * resolveFromApiBase: the socket origin of the REST base URL. Nothing when
   * that URL is unset, blank or rejected by the URL parser (`parseUrl`
   * stands for `new URL`, `None` when it throws); otherwise the secure
   * scheme exactly when the API is served over HTTPS.
   */
  function ResolveFromApiBase(cfg: EnvConfig, parseUrl: string -> Option<Location>): (r: Option<string>)
    ensures r.Some? <==> Trim(cfg.apiBaseUrl.OrElse("")) != "" && parseUrl(Trim(cfg.apiBaseUrl.OrElse(""))).Some?
    ensures r.Some? ==> r.value == SocketOrigin(parseUrl(Trim(cfg.apiBaseUrl.OrElse(""))).value)
    ensures r.Some? ==> StartsWith(r.value, "wss:")
                        == (parseUrl(Trim(cfg.apiBaseUrl.OrElse(""))).value.protocol == "https:")
  {
    var baseUrl := Trim(cfg.apiBaseUrl.OrElse(""));
    if baseUrl == "" then None
    else
      match parseUrl(baseUrl)
      case None => None
      case Some(loc) =>
        var o := SocketOrigin(loc);
        assert loc.protocol != "https:" ==> o[2] == ':';
        Some(o)
  }

  /**
   * resolveWsBase: a configured, non-blank base wins (minus trailing
   * slashes); otherwise, in a browser (`window` present), the API-derived
   * origin and failing that the page's own origin; on the server, the
   * API-derived origin or "".
   */
  function ResolveWsBase(cfg: EnvConfig, window: Option<Location>, parseUrl: string -> Option<Location>): (r: string)
    ensures r == "" || r[|r| - 1] != '/'
    ensures Trim(cfg.wsBaseUrl.OrElse("")) != "" ==> r == RemoveTrailingSlash(Trim(cfg.wsBaseUrl.value))
    ensures Trim(cfg.wsBaseUrl.OrElse("")) == "" ==>
      match ResolveFromApiBase(cfg, parseUrl)
      case Some(o) => r == o
      case None => r == (if window.Some? then SocketOrigin(window.value) else "")
  {
    var configured := Trim(cfg.wsBaseUrl.OrElse(""));
    if configured != "" then RemoveTrailingSlash(configured)
    else if window.Some? then
      var fromApi := ResolveFromApiBase(cfg, parseUrl);
      if fromApi.Some? && fromApi.value != "" then fromApi.value else SocketOrigin(window.value)
    else
      ResolveFromApiBase(cfg, parseUrl).OrElse("")
  }

  /** The path with a "/" in front unless it already starts with one. */
  function WithLeadingSlash(t: string): (r: string)
    requires t != ""
    ensures |r| >= |t| && r[0] == '/'
  {
    if t[0] == '/' then t else "/" + t
  }

  /**
   * normalizePath: a blank or all-slash path is "/ws"; otherwise the trimmed
   * path with a leading "/" added when missing and its trailing slashes
   * removed: a prefix of it that ends before a run of slashes only, and
   * does not end in "/".
   */
  function NormalizePath(path: string): (r: string)
    ensures |r| >= 2 && r[0] == '/' && r[|r| - 1] != '/'
    ensures AllSlashes(Trim(path)) ==> r == DefaultWsPath
    ensures !AllSlashes(Trim(path)) ==>
      var w := WithLeadingSlash(Trim(path));
      |r| <= |w| && r == w[..|r|] && forall i :: |r| <= i < |w| ==> w[i] == '/'
  {
    var trimmed := Trim(path);
    if trimmed == "" then DefaultWsPath
    else
      var withLeading := WithLeadingSlash(trimmed);
      var withoutTrailing := RemoveTrailingSlash(withLeading);
      StripEmptyIffSlashes(trimmed);
      if withoutTrailing == "" then DefaultWsPath
      else
        assert withoutTrailing[0] == withLeading[0] == '/';
        assert |withoutTrailing| != 1;
        withoutTrailing
  }

  /** Adding the leading slash and removing the trailing ones leaves nothing exactly for an all-slash path. */
  lemma StripEmptyIffSlashes(t: string)
    requires t != ""
    ensures RemoveTrailingSlash(WithLeadingSlash(t)) == "" <==> AllSlashes(t)
  {
    var w := WithLeadingSlash(t);
    var d := |w| - |t|;
    assert forall i :: 0 <= i < |t| ==> w[i + d] == t[i];
    if RemoveTrailingSlash(w) == "" {
      forall i | 0 <= i < |t| ensures t[i] == '/' {
        assert w[i + d] == t[i];
      }
    }
  }

  /** A trimmed path that starts with "/" and does not end with one is already normal. */
  lemma NormalizePathFixedPoint(path: string)
    requires Trim(path) == path && |path| >= 2 && path[0] == '/' && path[|path| - 1] != '/'
    ensures NormalizePath(path) == path
  {
  }

  /** A path is normalised to the same value whether or not it starts with "/". */
  lemma NormalizePathLeadingSlash(path: string)
    requires Trim(path) == path && path != "" && path[0] != '/'
    ensures NormalizePath("/" + path) == NormalizePath(path)
  {
    var p := "/" + path;
    assert p[1..] == path;
    TrimSpec(path);
    assert !IsJsWhitespace(p[0]) && !IsJsWhitespace(p[|p| - 1]);
    assert TrimStart(p) == p;
    assert TrimEnd(p) == p;
    assert WithLeadingSlash(Trim(p)) == p == WithLeadingSlash(Trim(path));
    SameLeadingSameNormal(p, path);
  }

  /** Normalising depends only on the non-blank trimmed path with its leading slash. */
  lemma SameLeadingSameNormal(a: string, b: string)
    requires Trim(a) != "" && Trim(b) != "" && WithLeadingSlash(Trim(a)) == WithLeadingSlash(Trim(b))
    ensures NormalizePath(a) == NormalizePath(b)
  {
  }

  /**
   * Normalising is not idempotent: whitespace uncovered by removing trailing
   * slashes survives one pass and is trimmed by the next.
   */
  lemma NormalizePathNotIdempotent()
    ensures NormalizePath("a /") == "/a "
    ensures NormalizePath(NormalizePath("a /")) == "/a"
  {
    assert !IsJsWhitespace('a') && !IsJsWhitespace('/');
    assert TrimStart("a /") == "a /";
    assert TrimEnd("a /") == "a /";
    assert WithLeadingSlash("a /") == "/a /";
    assert "/a /"[..3] == "/a ";
    assert DropTrailing("/a ", '/') == "/a ";
    assert RemoveTrailingSlash("/a /") == "/a ";
    assert TrimStart("/a ") == "/a ";
    assert "/a "[..2] == "/a";
    assert TrimEnd("/a") == "/a";
    assert TrimEnd("/a ") == "/a";
    assert TrimStart("/a") == "/a";
    assert WithLeadingSlash("/a") == "/a";
    assert DropTrailing("/a", '/') == "/a";
  }
}
