# Diagnose Me: a Dafny model of the diagnosis endpoint, the sitemap and the SEO head

Diagnose Me is a small Next.js site. A visitor uploads a photo of a visible
symptom. The `/api/diagnose` handler forwards it to a hosted multimodal
model (Gemini) and returns the model's reply as JSON. The site also serves a
generated `/sitemap.xml` and puts an `<SEO>` head component on every page.

This project models the deterministic logic of these three pieces as pure
Dafny functions and proves properties about them:

- `diagnose.dfy` (module `Diagnose`) is the handler as a function from the
  HTTP method, the request body, the model call and `JSON.parse` to one
  response (status and JSON body). The regular expression `/\{[\s\S]*\}/`
  is specified independently as a leftmost, longest match of a
  `{`...`}` span (`BraceMatch`). It is implemented as a slice from the
  first `{` to the last `}`.
- `sitemap.dfy` (module `Sitemap`) is the XML serialiser. It comes with a
  parser for the same shape (`ParseSitemap`), and the two are proved to
  round-trip.
- `seo.dfy` (module `Seo`) computes the title, URL, description and
  JSON-LD record, and records which head fields receive them.
- `site.dfy` (module `Site`) holds the default site URL and the URL join:
  the base with one trailing slash removed, followed by the path. Both
  `sitemap.xml.tsx` and `SEO.tsx` define these, in the same way.
- `text.dfy` (module `Text`) has first/last character search.
  `wrappers.dfy` has `Option`.

The Gemini call is a parameter `gemini: JsValue -> GeminiOutcome`, applied
to the image value: it either gives `Reply(text)` or throws (`CallFailed`).
`JSON.parse` is a parameter `parse: string -> Option<Json>`, with `None`
where it throws. Because both are parameters, "the model is never invoked"
is stated as "the response is the same whatever `gemini` is".

One path of the code is easy to miss: a POST whose `req.body` is `null` or
`undefined` makes the destructuring of `imageBase64` from the body throw. The outer `catch`
then answers 500 "Failed to process the image", not 400. The model has
this as `RequestBody.NullishBody`.

## Model

| member | source | states |
|---|---|---|
| `Diagnose.Handle` | src/pages/api/diagnose.ts:8-93 | Every request gets one status, from {200, 400, 405, 500}. 405 "Method not allowed" exactly for non-POST. 400 "No image provided" exactly for a POST whose image is falsy. 200 exactly when the model replied and the direct or the extracted parse succeeded, and only then is the body a JSON value. A `rawResponse` is always the model's full text. A POST with a `null` or `undefined` body, and a failed model call, both give 500 "Failed to process the image" with no `rawResponse`. Once the model has replied, the answer is `Interpret` of its text. |
| `Diagnose.Interpret` | src/pages/api/diagnose.ts:66-89 | A reply that parses whole is returned with 200 and the fallback is not used. Otherwise, if a candidate exists and parses, it is returned with 200. A candidate that does not parse gives 500 "Failed to parse response from AI model". No candidate gives 500 "AI response was not in the expected format". Both 500s carry the full reply, not the candidate. |
| `Diagnose.BraceSpan` | src/pages/api/diagnose.ts:72 | The span it returns is a `{`...`}` match, no match starts further left, and no match from that start is longer (the regex's leftmost, greedy semantics). None exactly when the text has no match. |
| `Diagnose.Candidate` | src/pages/api/diagnose.ts:72-73 | A candidate starts with `{`, ends with `}`, has length at least 2 and is a substring of the reply. It exists exactly when some brace match exists. |
| `Diagnose.CandidateIsFirstOpenToLastClose` | src/pages/api/diagnose.ts:72 | A candidate exists iff some `}` follows some `{`. It is then the slice from the first `{` through the last `}`. |
| `Diagnose.NonPostIgnoresEverythingElse` | src/pages/api/diagnose.ts:8-10 | For a non-POST request the answer is 405 "Method not allowed", whatever the body, the model and the parser. |
| `Diagnose.MissingImageNeverReachesModel` | src/pages/api/diagnose.ts:13-17 | A POST with a falsy image gets 400 "No image provided", whatever the model would have answered. |
| `Diagnose.FalsyImagesRejected` | src/pages/api/diagnose.ts:15-17 | An empty string, `undefined` or `null` image is rejected with 400. |
| `Diagnose.EmbeddedObjectExtracted` | src/pages/api/diagnose.ts:72 | Take prose without `{`, then a `{`...`}` span, then prose without `}`. The candidate is exactly that span. |
| `Diagnose.WrappedReplyAnswered` | src/pages/api/diagnose.ts:66-76 | Suppose such a wrapped reply does not parse whole but its embedded object parses. Then the handler answers 200 with the embedded object's value. |
| `Diagnose.NoBracesEchoesReply` | src/pages/api/diagnose.ts:83-88 | A reply with no `}` that does not parse gets 500 "AI response was not in the expected format", with the full reply echoed back. |
| `Site.SiteUrl` | src/pages/sitemap.xml.tsx:3 | The base URL is never empty. It is `https://diagnoseme.vercel.app` when the variable is unset or empty, and the variable's value otherwise. |
| `Site.StripTrailingSlash` | src/pages/sitemap.xml.tsx:10 | The result, followed by a `/` exactly when the input ended in one, is the input. At most one character is removed. The input is unchanged iff it does not end in `/`. |
| `Site.OnlyOneSlashStripped` | src/pages/sitemap.xml.tsx:10 | A base ending in `//` keeps one trailing slash. |
| `Site.JoinUrl` | src/components/SEO.tsx:15 | The joined URL ends with the path. What comes before the path, followed by a `/` exactly when the base ends in one, is the base: one trailing slash is dropped and nothing else changes. The length is the base's plus the path's, less one when a slash was dropped. |
| `Sitemap.Locs` | src/pages/sitemap.xml.tsx:6-11 | There is one location per page. Location k ends with page k's path, and what comes before it, followed by a `/` exactly when the base ends in one, is the base. |
| `Sitemap.JoinLinesSnoc` | src/pages/sitemap.xml.tsx:13 | Joining puts exactly one `\n` before each later element and none after the last. |
| `Sitemap.ParseBlocksRoundTrip` | src/pages/sitemap.xml.tsx:8-13 | The joined `<url><loc>` blocks read back as the list of locations, in order, when no location contains `<`. |
| `Sitemap.DocumentRoundTrip` | src/pages/sitemap.xml.tsx:15 | A document (the prologue, the joined blocks, the epilogue) reads back as its locations. The prologue is the XML declaration line and the `<urlset>` line, each ending in `\n`. The epilogue is `\n` followed by `</urlset>`. |
| `Sitemap.SitemapListsPagesInOrder` | src/pages/sitemap.xml.tsx:6-15 | The sitemap holds exactly one block per page, in the order `/`, `/diagnose`, `/about`, `/contact`. Each location is the stripped base followed by the path. |
| `Sitemap.SitemapFrame` | src/pages/sitemap.xml.tsx:13-15 | The document is exactly the prologue, then the four blocks separated by single `\n`, then the epilogue, with nothing before or after. |
| `Sitemap.DefaultSitemap` | src/pages/sitemap.xml.tsx:3-15 | With the base URL unset, the four pages are listed under `https://diagnoseme.vercel.app`. |
| `Seo.PageTitle` | src/components/SEO.tsx:14 | The title is exactly `Diagnose Me` iff the title prop is absent or empty. Otherwise it is the title, a space, a vertical bar, a space and `Diagnose Me`. |
| `Seo.DescriptionOf` | src/components/SEO.tsx:22 | The description is never empty. It is the prop iff the prop is given and non-empty, and the default text otherwise. |
| `Seo.PageUrl` | src/components/SEO.tsx:15 | The page URL ends with the resolved path (`/` when the prop is omitted). What comes before it, followed by a `/` exactly when the base ends in one, is the base. |
| `Seo.HeadIsConsistent` | src/components/SEO.tsx:17-47 | These fields are equal to the computed URL: canonical, og:url and JSON-LD `url`. These are equal to the page title: `<title>`, og:title and JSON-LD `name`. These are equal to the description: meta description, og:description and JSON-LD `description`. JSON-LD `@type` is `MedicalWebPage`, and the publisher is the Organization `Diagnose Me` at the unstripped base. |
| `Seo.PublisherKeepsTrailingSlash` | src/components/SEO.tsx:26 | With a base ending in `/`, the publisher URL keeps the slash and the page URL drops it. |
| `Seo.DefaultHead` | src/pages/_app.tsx:7 | The prop-less `<SEO />` that `_app` renders has title `Diagnose Me`, the default description, and canonical URL equal to the stripped base followed by `/`. |
| `Seo.EmptyPropsFallBack` | src/components/SEO.tsx:12-22 | An empty title or description falls back to the default. An empty path stays empty. |
| `Seo.CanonicalMatchesSitemap` | src/components/SEO.tsx:15 | For a page the sitemap lists, the head's canonical URL equals that page's sitemap `<loc>` under the same configured base. The two files each define the site URL and the join in the same way; the model has one copy of each in `Site`, so this holds by construction once that sameness is granted. |
| `Seo.CanonicalListedInSitemap` | src/pages/sitemap.xml.tsx:10-11 | Reading the sitemap back gives four locations, and the one at the page's position is the page head's canonical URL. |

## Left out

- The Gemini SDK (client construction, `generateContent`, `response.text()`) is a network call. It is the parameter `gemini`, and any exception it throws is `CallFailed`.
- `JSON.parse` is the parameter `parse`. No JSON grammar is modelled.
- The prompt text, the model name and the `image/jpeg` MIME tag are constants with no effect on the decision logic, so they are not modelled.
- `console.error` logging, `res.setHeader`/`write`/`end` in the sitemap, Next.js `<Head>` rendering, and `JSON.stringify` of the JSON-LD record are all left out. The model stops at the record and at the string the sitemap writes.
- `req.method` is a string. Node always sets it for HTTP requests, so the `undefined` case is not modelled.
- JavaScript numbers are modelled as `real` plus a separate `NaN`. That is enough for truthiness, the only thing the handler asks of the image value.
- The sitemap writes the base URL into XML without escaping. The round-trip lemmas therefore require the base to contain no `<`.
- `src/pages/index.tsx` is not part of this model. Its `selectedImage.split(',')[1]` yields `undefined` when there is no comma, and the handler rejects that with 400 (`FalsyImagesRejected`). The rest of that file is UI state, rendering and `fetch`.
- `src/pages/_app.tsx` only composes `<SEO />` with the page. Its one effect on the model is `DefaultHead`.
- A failure of `res.status(...).json(...)` itself is not modelled.
