/**
 * The site's base URL and the one piece of URL handling the sitemap and
 * the SEO head share: the base with one trailing slash removed, followed by a path.
 */
module Site {
  import opened Wrappers

  const DefaultSiteUrl: string := "https://diagnoseme.vercel.app"

  /** The configured site URL; an unset or empty environment value falls back to the default. */
  function SiteUrl(env: Option<string>): (r: string)
    ensures r != ""
    ensures r == DefaultSiteUrl || (env.Some? && r == env.value)
    ensures (env.None? || env.value == "") ==> r == DefaultSiteUrl
    ensures env.Some? && env.value != "" ==> r == env.value
  {
    if env.Some? && env.value != "" then env.value else DefaultSiteUrl
  }

  predicate EndsWithSlash(s: string) {
    |s| > 0 && s[|s| - 1] == '/'
  }

  /** Removes one `/` at the very end of `s`, if there is one (a regex anchored at the end, without the global flag). */
  function StripTrailingSlash(s: string): (r: string)
    ensures r + (if EndsWithSlash(s) then "/" else "") == s
    ensures |s| - 1 <= |r| <= |s|
    ensures r == s <==> !EndsWithSlash(s)
  {
    if EndsWithSlash(s) then s[..|s| - 1] else s
  }

  /** Only one slash goes: a base ending in `//` keeps one. */
  lemma OnlyOneSlashStripped(s: string)
    requires |s| >= 2 && s[|s| - 2..] == "//"
    ensures EndsWithSlash(StripTrailingSlash(s))
    ensures StripTrailingSlash(s) + "/" == s
  {
    assert s[|s| - 2] == '/' && s[|s| - 1] == '/';
  }

  /** A page URL: the base with one trailing slash removed, then the path. */
  function JoinUrl(base: string, path: string): (r: string)
    ensures |r| == |base| + |path| - (if EndsWithSlash(base) then 1 else 0)
    ensures r[|r| - |path|..] == path
    ensures r[..|r| - |path|] + (if EndsWithSlash(base) then "/" else "") == base
  {
    StripTrailingSlash(base) + path
  }
}
