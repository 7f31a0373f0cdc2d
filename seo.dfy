/**
 * The `<SEO>` head component: page title, canonical URL, description and
 * the JSON-LD record, computed from optional `title`, `description` and
 * `path` props, and the meta tags that receive them.
 */
module Seo {
  import opened Wrappers
  import opened Site
  import Sitemap

  const SiteName: string := "Diagnose Me"
  const DefaultDescription: string :=
    "Diagnose Me - AI-powered preliminary health condition diagnosis from medical images."

  /** The component's props; None is an omitted (undefined) prop. */
  datatype Props = Props(title: Option<string>, description: Option<string>, path: Option<string>)

  /** JavaScript truthiness of an optional string prop. */
  predicate Given(s: Option<string>) {
    s.Some? && s.value != ""
  }

  datatype Publisher = Publisher(kind: string, name: string, url: string)

  /** The JSON-LD object serialised into the `application/ld+json` script. */
  datatype JsonLd = JsonLd(context: string, kind: string, name: string, url: string,
                           description: string, publisher: Publisher)

  /** The values the rendered `<Head>` carries. */
  datatype Head = Head(
    title: string,
    metaDescription: string,
    viewport: string,
    ogTitle: string,
    ogDescription: string,
    ogType: string,
    ogUrl: string,
    ogSiteName: string,
    twitterCard: string,
    canonical: string,
    jsonLd: JsonLd)

  /** The page title: a given title followed by the site name, or the site name alone. */
  function PageTitle(title: Option<string>): (r: string)
    ensures r == SiteName <==> !Given(title)
    ensures Given(title) ==> |r| == |title.value| + 3 + |SiteName|
    ensures Given(title) ==> r[..|title.value|] == title.value && r[|title.value|..] == " | " + SiteName
  {
    if Given(title) then title.value + " | " + SiteName else SiteName
  }

  /** The path prop's default `/` applies only when the prop is omitted, not when it is empty. */
  function PathOf(path: Option<string>): (r: string)
    ensures path.None? ==> r == "/"
    ensures path.Some? ==> r == path.value
  {
    match path
    case None => "/"
    case Some(p) => p
  }

  /** The description: the prop when it is truthy, the site's default text otherwise. */
  function DescriptionOf(description: Option<string>): (r: string)
    ensures r != ""
    ensures r == DefaultDescription || (description.Some? && r == description.value)
    ensures Given(description) <==> (description.Some? && r == description.value)
  {
    if Given(description) then description.value else DefaultDescription
  }

  /** The page URL: the base with one trailing slash stripped, then the path. */
  function PageUrl(siteUrl: string, path: Option<string>): (r: string)
    ensures |PathOf(path)| <= |r| && r[|r| - |PathOf(path)|..] == PathOf(path)
    ensures r[..|r| - |PathOf(path)|] + (if EndsWithSlash(siteUrl) then "/" else "") == siteUrl
  {
    JoinUrl(siteUrl, PathOf(path))
  }

  function MakeJsonLd(siteUrl: string, props: Props): JsonLd {
    JsonLd("https://schema.org", "MedicalWebPage", PageTitle(props.title), PageUrl(siteUrl, props.path),
           DescriptionOf(props.description), Publisher("Organization", SiteName, siteUrl))
  }

  /** What the component renders for the given base URL and props. */
  function Render(siteUrl: string, props: Props): Head {
    var pageTitle := PageTitle(props.title);
    var url := PageUrl(siteUrl, props.path);
    var description := DescriptionOf(props.description);
    Head(pageTitle, description, "width=device-width, initial-scale=1",
         pageTitle, description, "website", url, SiteName,
         "summary_large_image", url, MakeJsonLd(siteUrl, props))
  }

  /**
   * The head is consistent with itself: every URL field is the computed
   * page URL, every title field the page title, every description field
   * the description; the JSON-LD type and publisher are fixed, and the
   * publisher keeps the unstripped base.
   */
  lemma HeadIsConsistent(siteUrl: string, props: Props)
    ensures var h := Render(siteUrl, props);
      && h.canonical == h.ogUrl == h.jsonLd.url == StripTrailingSlash(siteUrl) + PathOf(props.path)
      && h.title == h.ogTitle == h.jsonLd.name == PageTitle(props.title)
      && h.metaDescription == h.ogDescription == h.jsonLd.description == DescriptionOf(props.description)
      && h.jsonLd.kind == "MedicalWebPage" && h.jsonLd.context == "https://schema.org"
      && h.jsonLd.publisher == Publisher("Organization", SiteName, siteUrl)
      && h.ogSiteName == SiteName
  {
  }

  /** The publisher URL is the base as configured; the page URL drops its trailing slash. */
  lemma PublisherKeepsTrailingSlash(siteUrl: string, props: Props)
    requires EndsWithSlash(siteUrl)
    ensures var ld := Render(siteUrl, props).jsonLd;
      ld.publisher.url == siteUrl && ld.url == siteUrl[..|siteUrl| - 1] + PathOf(props.path)
  {
  }

  /** The head `_app` renders on every page (`<SEO />` with no props). */
  lemma DefaultHead(env: Option<string>)
    ensures var h := Render(SiteUrl(env), Props(None, None, None));
      h.title == SiteName && h.metaDescription == DefaultDescription &&
      h.canonical == StripTrailingSlash(SiteUrl(env)) + "/"
  {
  }

  /** An empty title or description counts as missing; an empty path does not. */
  lemma EmptyPropsFallBack(siteUrl: string)
    ensures var h := Render(siteUrl, Props(Some(""), Some(""), Some("")));
      h.title == SiteName && h.metaDescription == DefaultDescription &&
      h.canonical == StripTrailingSlash(siteUrl)
  {
    assert StripTrailingSlash(siteUrl) + "" == StripTrailingSlash(siteUrl);
  }

  /**
   * For every page the sitemap lists, the canonical URL of that page's head
   * is exactly the sitemap's `<loc>` for it, under the same configured base.
   */
  lemma CanonicalMatchesSitemap(env: Option<string>, props: Props, k: nat)
    requires k < |Sitemap.Pages| && props.path == Some(Sitemap.Pages[k])
    ensures Render(SiteUrl(env), props).canonical == Sitemap.Locs(SiteUrl(env))[k]
  {
  }

  /** Combined with the sitemap's round trip: the canonical URL of a listed page is read back from the sitemap. */
  lemma {:induction false} CanonicalListedInSitemap(env: Option<string>, props: Props, k: nat)
    requires Sitemap.NoTagOpen(SiteUrl(env))
    requires k < |Sitemap.Pages| && props.path == Some(Sitemap.Pages[k])
    ensures var parsed := Sitemap.ParseSitemap(Sitemap.SitemapXml(SiteUrl(env)));
      parsed.Some? && |parsed.value| == 4 && parsed.value[k] == Render(SiteUrl(env), props).canonical
  {
    Sitemap.SitemapListsPagesInOrder(SiteUrl(env));
    CanonicalMatchesSitemap(env, props, k);
  }
}
