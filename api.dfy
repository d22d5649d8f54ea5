/**
 * The client's URL builder: an API path resolved against the configured base
 * URL. The base comes from the build environment; an absent base is the
 * empty string, which keeps the path relative.
 */
module Api {

  predicate EndsWithSlash(s: string) {
    |s| > 0 && s[|s| - 1] == '/'
  }

  predicate StartsWithSlash(s: string) {
    |s| > 0 && s[0] == '/'
  }

  /** `s.replace(/\/$/, "")`: one trailing slash removed, if there is one. */
  function TrimTrailingSlash(s: string): (r: string)
    ensures EndsWithSlash(s) ==> r + "/" == s
    ensures !EndsWithSlash(s) ==> r == s
  {
    if EndsWithSlash(s) then s[..|s| - 1] else s
  }

  /** `path.startsWith("/") ? path : "/" + path`. */
  function WithLeadingSlash(path: string): (r: string)
    ensures StartsWithSlash(r)
    ensures StartsWithSlash(path) ==> r == path
    ensures !StartsWithSlash(path) ==> r == "/" + path
  {
    if StartsWithSlash(path) then path else "/" + path
  }

  /** `apiUrl`: the path itself without a base, otherwise the base and the path joined by a slash. */
  function ApiUrl(base: string, path: string): (r: string)
    ensures base == "" ==> r == path
    ensures base != "" ==> r == TrimTrailingSlash(base) + WithLeadingSlash(path)
  {
    if base != "" then TrimTrailingSlash(base) + WithLeadingSlash(path) else path
  }

  /**
   * With a base, the result is the base without its trailing slash, one
   * slash, and the path without its leading slash.
   */
  lemma ApiUrlShape(base: string, path: string)
    requires base != ""
    ensures var b, p := TrimTrailingSlash(base), if StartsWithSlash(path) then path[1..] else path;
      ApiUrl(base, path) == b + "/" + p
  {
    if StartsWithSlash(path) {
      assert path == "/" + path[1..];
    }
  }

  /** A trailing slash on the base makes no difference. */
  lemma TrailingSlashIgnored(base: string, path: string)
    requires base != "" && !EndsWithSlash(base)
    ensures ApiUrl(base + "/", path) == ApiUrl(base, path)
  {
    assert (base + "/")[..|base|] == base;
  }

  /** A leading slash on the path makes no difference. */
  lemma LeadingSlashIgnored(base: string, path: string)
    requires base != "" && !StartsWithSlash(path)
    ensures ApiUrl(base, "/" + path) == ApiUrl(base, path)
  {
  }

  /** Only one slash is removed: a base ending in two keeps a doubled slash at the join. */
  lemma DoubleSlashKept(base: string, path: string)
    requires !EndsWithSlash(base)
    ensures ApiUrl(base + "//", path) == base + "/" + WithLeadingSlash(path)
  {
    assert (base + "//")[..|base| + 1] == base + "/";
  }

  /** The path is always the tail of the result. */
  lemma ApiUrlEndsWithPath(base: string, path: string)
    ensures var r := ApiUrl(base, path);
      |r| >= |path| && r[|r| - |path|..] == path
  {
    var r := ApiUrl(base, path);
    if base != "" {
      var b := TrimTrailingSlash(base);
      if StartsWithSlash(path) {
        assert r == b + path;
        assert r[|b|..] == path;
      } else {
        assert r == (b + "/") + path;
        assert r[|b| + 1..] == path;
      }
    }
  }
}
