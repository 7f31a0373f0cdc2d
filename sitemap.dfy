/**
 * `/sitemap.xml`: an XML document listing the site's four pages, each as
 * a `<url><loc>` block whose location is the base URL joined with the
 * page's path.
 */
module Sitemap {
  import opened Wrappers
  import opened Text
  import opened Site

  /** The pages, in the order the sitemap lists them. */
  const Pages: seq<string> := ["/", "/diagnose", "/about", "/contact"]

  /** Everything before the first block: the XML declaration and the opening `<urlset>` line, each ending in `\n`. */
  const Prologue: string :=
    "<?xml version=\"1.0\" encoding=\"UTF-8\"?>\n<urlset xmlns=\"http://www.sitemaps.org/schemas/sitemap/0.9\">\n"
  /** Everything after the last block: `\n` and the closing tag. */
  const Epilogue: string := "\n</urlset>"
  const UrlOpen: string := "  <url>\n    <loc>"
  const UrlClose: string := "</loc>\n  </url>"

  /** The block one page contributes. */
  function UrlBlock(loc: string): string {
    UrlOpen + loc + UrlClose
  }

  /** The elements of `xs` with one `\n` between neighbours, as JavaScript's array join does. */
  function JoinLines(xs: seq<string>): string {
    if |xs| == 0 then ""
    else if |xs| == 1 then xs[0]
    else xs[0] + ("\n" + JoinLines(xs[1..]))
  }

  /** The location of every page: the base URL with one trailing slash stripped, then the path. */
  function Locs(siteUrl: string): (r: seq<string>)
    ensures |r| == |Pages|
    ensures forall k :: 0 <= k < |Pages| ==>
      |Pages[k]| <= |r[k]| && r[k][|r[k]| - |Pages[k]|..] == Pages[k] &&
      r[k][..|r[k]| - |Pages[k]|] + (if EndsWithSlash(siteUrl) then "/" else "") == siteUrl
  {
    seq(|Pages|, k requires 0 <= k < |Pages| => JoinUrl(siteUrl, Pages[k]))
  }

  function UrlBlocks(locs: seq<string>): seq<string> {
    seq(|locs|, k requires 0 <= k < |locs| => UrlBlock(locs[k]))
  }

  /** The document: declaration and `<urlset>` line, the joined blocks, the closing tag. */
  function Document(locs: seq<string>): string {
    Prologue + (JoinLines(UrlBlocks(locs)) + Epilogue)
  }

  /** The sitemap served for a given site URL. */
  function SitemapXml(siteUrl: string): string {
    Document(Locs(siteUrl))
  }

  /** Joining puts one `\n` between neighbours and none after the last element. */
  lemma {:induction false} JoinLinesSnoc(xs: seq<string>, x: string)
    requires |xs| > 0
    ensures JoinLines(xs + [x]) == JoinLines(xs) + "\n" + x
  {
    if |xs| == 1 {
      assert (xs + [x])[1..] == [x];
    } else {
      assert (xs + [x])[1..] == xs[1..] + [x];
      JoinLinesSnoc(xs[1..], x);
    }
  }

  /** `s` begins with `prefix`. */
  predicate StartsWith(s: string, prefix: string) {
    |prefix| <= |s| && s[..|prefix|] == prefix
  }

  /**
   * Reads a sequence of blocks back: each block is the opening tags, a
   * location up to the next `<`, and the closing tags; blocks are
   * separated by exactly one `\n`.
   */
  function ParseBlocks(s: string): Option<seq<string>>
    decreases |s|, 2
  {
    if s == [] then Some([])
    else if !StartsWith(s, UrlOpen) then None
    else ParseLoc(s[|UrlOpen|..])
  }

  /** After the opening tags: the location runs up to the next `<`, where the closing tags must follow. */
  function ParseLoc(rest: string): Option<seq<string>>
    decreases |rest|, 1
  {
    match FirstIndexOf(rest, '<')
    case None => None
    case Some(i) =>
      if !StartsWith(rest[i..], UrlClose) then None
      else ParseAfterBlock(rest[..i], rest[i + |UrlClose|..])
  }

  /** After a block: the end, or one `\n` and at least one more block. */
  function ParseAfterBlock(loc: string, tail: string): Option<seq<string>>
    decreases |tail|, 0
  {
    if tail == [] then Some([loc])
    else if tail[0] == '\n' && |tail| > 1 then
      match ParseBlocks(tail[1..])
      case None => None
      case Some(locs) => Some([loc] + locs)
    else None
  }

  /** Reads a whole document back into its list of locations. */
  function ParseSitemap(doc: string): Option<seq<string>> {
    var pre := Prologue;
    var post := Epilogue;
    if |doc| >= |pre| + |post| && doc[..|pre|] == pre && doc[|doc| - |post|..] == post then
      ParseBlocks(doc[|pre|..|doc| - |post|])
    else None
  }

  predicate NoTagOpen(loc: string) {
    '<' !in loc
  }

  /** Text after the opening tags is handed to the location reader. */
  lemma {:induction false} ParseBlocksOpen(rest: string)
    ensures ParseBlocks(UrlOpen + rest) == ParseLoc(rest)
  {
    assert (UrlOpen + rest)[..|UrlOpen|] == UrlOpen;
    assert (UrlOpen + rest)[|UrlOpen|..] == rest;
  }

  /** A location without `<` is read up to the closing tags, and what follows them is handed on. */
  lemma {:induction false} ParseLocPieces(loc: string, tail: string)
    requires NoTagOpen(loc)
    ensures ParseLoc(loc + (UrlClose + tail)) == ParseAfterBlock(loc, tail)
  {
    var rest := loc + (UrlClose + tail);
    assert UrlClose[0] == '<';
    FirstIndexOfAfterPrefix(loc, UrlClose + tail, '<', 0);
    assert rest[|loc|..] == UrlClose + tail;
    assert (UrlClose + tail)[..|UrlClose|] == UrlClose;
    assert rest[..|loc|] == loc;
    assert rest[|loc| + |UrlClose|..] == tail;
  }

  /** A block followed by `tail` is read as its location, and `tail` decides what follows. */
  lemma {:induction false} ParseBlockPieces(loc: string, tail: string)
    requires NoTagOpen(loc)
    ensures ParseBlocks(UrlBlock(loc) + tail) == ParseAfterBlock(loc, tail)
  {
    assert UrlBlock(loc) + tail == UrlOpen + (loc + (UrlClose + tail));
    ParseBlocksOpen(loc + (UrlClose + tail));
    ParseLocPieces(loc, tail);
  }

  /** A last block is read back as its location. */
  lemma {:induction false} ParseLastBlock(loc: string)
    requires NoTagOpen(loc)
    ensures ParseBlocks(UrlBlock(loc)) == Some([loc])
  {
    ParseBlockPieces(loc, "");
    assert UrlBlock(loc) + "" == UrlBlock(loc);
  }

  /** A block followed by `\n` and further blocks is read back as its location followed by theirs. */
  lemma {:induction false} ParseBlockThenMore(loc: string, more: string, locs: seq<string>)
    requires NoTagOpen(loc) && |more| > 0
    requires ParseBlocks(more) == Some(locs)
    ensures ParseBlocks(UrlBlock(loc) + ("\n" + more)) == Some([loc] + locs)
  {
    ParseBlockPieces(loc, "\n" + more);
    assert ("\n" + more)[1..] == more;
  }

  /** Parsing the joined blocks gives back the locations, in order. */
  lemma {:induction false} ParseBlocksRoundTrip(locs: seq<string>)
    requires forall k :: 0 <= k < |locs| ==> NoTagOpen(locs[k])
    ensures ParseBlocks(JoinLines(UrlBlocks(locs))) == Some(locs)
  {
    if |locs| == 1 {
      RoundTripSingle(locs);
    } else if |locs| > 1 {
      ParseBlocksRoundTrip(locs[1..]);
      RoundTripCons(locs);
    }
  }

  lemma {:induction false} RoundTripSingle(locs: seq<string>)
    requires |locs| == 1 && NoTagOpen(locs[0])
    ensures ParseBlocks(JoinLines(UrlBlocks(locs))) == Some(locs)
  {
    assert UrlBlocks(locs) == [UrlBlock(locs[0])];
    assert JoinLines([UrlBlock(locs[0])]) == UrlBlock(locs[0]);
    ParseLastBlock(locs[0]);
    assert locs == [locs[0]];
  }

  lemma {:induction false} RoundTripCons(locs: seq<string>)
    requires |locs| > 1 && NoTagOpen(locs[0])
    requires ParseBlocks(JoinLines(UrlBlocks(locs[1..]))) == Some(locs[1..])
    ensures ParseBlocks(JoinLines(UrlBlocks(locs))) == Some(locs)
  {
    var more := JoinLines(UrlBlocks(locs[1..]));
    JoinUrlBlocksCons(locs);
    JoinLinesNonEmpty(UrlBlocks(locs[1..]));
    ParseBlockThenMore(locs[0], more, locs[1..]);
    assert [locs[0]] + locs[1..] == locs;
  }

  lemma {:induction false} JoinUrlBlocksCons(locs: seq<string>)
    requires |locs| > 1
    ensures JoinLines(UrlBlocks(locs)) == UrlBlock(locs[0]) + ("\n" + JoinLines(UrlBlocks(locs[1..])))
  {
    var blocks := UrlBlocks(locs);
    assert blocks[0] == UrlBlock(locs[0]);
    assert blocks[1..] == UrlBlocks(locs[1..]);
  }

  lemma {:induction false} JoinLinesNonEmpty(xs: seq<string>)
    requires |xs| > 0 && forall k :: 0 <= k < |xs| ==> |xs[k]| > 0
    ensures |JoinLines(xs)| > 0
  {
  }

  lemma Sandwich(pre: string, body: string, post: string)
    ensures var d := pre + (body + post);
      |d| >= |pre| + |post| && d[..|pre|] == pre && d[|d| - |post|..] == post && d[|pre|..|d| - |post|] == body
  {
    var d := pre + (body + post);
    assert d[..|pre|] == pre;
    assert d[|d| - |post|..] == post;
    assert d[|pre|..|d| - |post|] == body;
  }

  /** The document parser strips exactly the prologue and the epilogue. */
  lemma {:induction false} ParseSitemapUnwraps(body: string)
    ensures ParseSitemap(Prologue + (body + Epilogue)) == ParseBlocks(body)
  {
    Sandwich(Prologue, body, Epilogue);
  }

  /** Parsing a document gives back the locations it was built from. */
  lemma {:induction false} DocumentRoundTrip(locs: seq<string>)
    requires forall k :: 0 <= k < |locs| ==> NoTagOpen(locs[k])
    ensures ParseSitemap(Document(locs)) == Some(locs)
  {
    ParseSitemapUnwraps(JoinLines(UrlBlocks(locs)));
    ParseBlocksRoundTrip(locs);
  }

  /** Joining a base without `<` and a path without `<` gives a location without `<`. */
  lemma JoinedLocNoTag(siteUrl: string, path: string)
    requires NoTagOpen(siteUrl) && NoTagOpen(path)
    ensures NoTagOpen(JoinUrl(siteUrl, path))
  {
    var base := StripTrailingSlash(siteUrl);
    assert base + (if EndsWithSlash(siteUrl) then "/" else "") == siteUrl;
    assert forall c :: c in base ==> c in siteUrl;
  }

  lemma LocsSpelledOut(siteUrl: string)
    ensures var base := StripTrailingSlash(siteUrl);
      Locs(siteUrl) == [base + "/", base + "/diagnose", base + "/about", base + "/contact"]
  {
    var locs := Locs(siteUrl);
    var base := StripTrailingSlash(siteUrl);
    assert locs[0] == JoinUrl(siteUrl, "/") == base + "/";
    assert locs[1] == JoinUrl(siteUrl, "/diagnose") == base + "/diagnose";
    assert locs[2] == JoinUrl(siteUrl, "/about") == base + "/about";
    assert locs[3] == JoinUrl(siteUrl, "/contact") == base + "/contact";
  }

  /**
   * The sitemap lists exactly one block per page, in the order `/`,
   * `/diagnose`, `/about`, `/contact`, each located at the base URL (one
   * trailing slash stripped) followed by the path.
   */
  lemma SitemapListsPagesInOrder(siteUrl: string)
    requires NoTagOpen(siteUrl)
    ensures ParseSitemap(SitemapXml(siteUrl)) == Some(Locs(siteUrl))
    ensures var base := StripTrailingSlash(siteUrl);
      ParseSitemap(SitemapXml(siteUrl)) == Some([base + "/", base + "/diagnose", base + "/about", base + "/contact"])
  {
    var locs := Locs(siteUrl);
    var base := StripTrailingSlash(siteUrl);
    var want := [base + "/", base + "/diagnose", base + "/about", base + "/contact"];
    LocsSpelledOut(siteUrl);
    JoinedLocNoTag(siteUrl, "/");
    JoinedLocNoTag(siteUrl, "/diagnose");
    JoinedLocNoTag(siteUrl, "/about");
    JoinedLocNoTag(siteUrl, "/contact");
    DocumentRoundTrip(locs);
  }

  /** The document is the fixed header, a newline, the four blocks separated by single newlines, a newline and the footer. */
  lemma SitemapFrame(siteUrl: string)
    ensures var locs := Locs(siteUrl);
      SitemapXml(siteUrl) ==
        Prologue +
        ((UrlBlock(locs[0]) + ("\n" + (UrlBlock(locs[1]) + ("\n" + (UrlBlock(locs[2]) + ("\n" + UrlBlock(locs[3]))))))) +
        Epilogue)
  {
    var locs := Locs(siteUrl);
    assert locs == [locs[0], locs[1], locs[2], locs[3]];
    DocumentOfFour(locs[0], locs[1], locs[2], locs[3]);
  }

  lemma DocumentOfFour(l0: string, l1: string, l2: string, l3: string)
    ensures Document([l0, l1, l2, l3]) ==
      Prologue +
      ((UrlBlock(l0) + ("\n" + (UrlBlock(l1) + ("\n" + (UrlBlock(l2) + ("\n" + UrlBlock(l3))))))) +
      Epilogue)
  {
    var bs := UrlBlocks([l0, l1, l2, l3]);
    assert bs == [UrlBlock(l0), UrlBlock(l1), UrlBlock(l2), UrlBlock(l3)];
    JoinFour(bs[0], bs[1], bs[2], bs[3]);
  }

  lemma JoinFour(a: string, b: string, c: string, d: string)
    ensures JoinLines([a, b, c, d]) == a + ("\n" + (b + ("\n" + (c + ("\n" + d)))))
  {
    assert [a, b, c, d][1..] == [b, c, d];
    assert [b, c, d][1..] == [c, d];
    assert [c, d][1..] == [d];
    assert JoinLines([c, d]) == c + ("\n" + d);
    assert JoinLines([b, c, d]) == b + ("\n" + JoinLines([c, d]));
  }

  /** With the site URL unset, the pages are listed under the default host. */
  lemma DefaultSitemap()
    ensures ParseSitemap(SitemapXml(SiteUrl(None))) == Some([
      DefaultSiteUrl + "/", DefaultSiteUrl + "/diagnose", DefaultSiteUrl + "/about", DefaultSiteUrl + "/contact"])
  {
    assert DefaultSiteUrl[|DefaultSiteUrl| - 1] == 'p';
    assert NoTagOpen(DefaultSiteUrl);
    SitemapListsPagesInOrder(DefaultSiteUrl);
  }
}
