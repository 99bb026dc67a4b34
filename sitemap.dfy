/** The sitemap and robots files written at the end of the build. */
module Sitemap {
  import opened Wrappers
  import opened Site

  /** `s.rstrip("/")`: every trailing slash removed. */
  function RStripSlash(s: string): (r: string)
    ensures |r| <= |s| && r == s[..|r|]
    ensures r == [] || r[|r| - 1] != '/'
    ensures forall k :: |r| <= k < |s| ==> s[k] == '/'
  {
    if s != [] && s[|s| - 1] == '/' then RStripSlash(s[..|s| - 1]) else s
  }

  /** `s[:n]`: the first n characters, or all of s when it is shorter. */
  function Take(s: string, n: nat): (r: string)
    ensures |r| == if |s| < n then |s| else n
    ensures r == s[..|r|]
  {
    if |s| <= n then s else s[..n]
  }

  /** Trailing slashes on the site URL do not change the sitemap's URLs. */
  lemma StripIgnoresTrailingSlash(u: string)
    ensures RStripSlash(u + "/") == RStripSlash(u)
  {
    assert (u + "/")[..|u|] == u;
  }

  /** Stripping is idempotent, and a URL without a trailing slash is left as it is. */
  lemma StripIdempotent(u: string)
    ensures RStripSlash(RStripSlash(u)) == RStripSlash(u)
    ensures (u == [] || u[|u| - 1] != '/') ==> RStripSlash(u) == u
  {
  }

  /** `page["config"][key]`, raising a `KeyError` when it is missing. */
  function Setting(page: Page, key: string): (r: Result<string, BuildError>)
    ensures r.Success? <==> key in page.config
    ensures r.Success? ==> r.value == page.config[key]
    ensures r.Failure? ==> r.error == MissingKey(key)
  {
    if key in page.config then Success(page.config[key]) else Failure(MissingKey(key))
  }

  /** The loc of a page: the stripped site URL followed by its canonical path. */
  function Loc(siteUrl: string, canonical: string): string
  {
    RStripSlash(siteUrl) + canonical
  }

  /** The six-line `<url>` block of one page, from `<url>` to `</url>` inclusive. */
  function UrlBlock(loc: string, lastmod: string, changefreq: string, priority: string): string
  {
    "  <url>\n    <loc>" + loc + "</loc>\n    <lastmod>" + lastmod + "</lastmod>\n    <changefreq>"
      + changefreq + "</changefreq>\n    <priority>" + priority + "</priority>\n  </url>"
  }

  /**
   * One sitemap entry. The keys are read in the order the source evaluates
   * them, so the first missing one is reported: canonical, changefreq, priority.
   */
  function UrlEntry(siteUrl: string, buildDate: string, page: Page): (r: Result<string, BuildError>)
  {
    var canonical :- Setting(page, "canonical");
    var changefreq :- Setting(page, "changefreq");
    var priority :- Setting(page, "priority");
    Success(UrlBlock(Loc(siteUrl, canonical), Take(buildDate, 10), changefreq, priority))
  }

  /** An entry exists iff the page has all three keys, and the error names the first missing one. */
  lemma UrlEntryOutcome(siteUrl: string, buildDate: string, page: Page)
    ensures UrlEntry(siteUrl, buildDate, page).Success? <==>
      "canonical" in page.config && "changefreq" in page.config && "priority" in page.config
    ensures "canonical" !in page.config ==> UrlEntry(siteUrl, buildDate, page) == Failure(MissingKey("canonical"))
    ensures "canonical" in page.config && "changefreq" !in page.config ==>
      UrlEntry(siteUrl, buildDate, page) == Failure(MissingKey("changefreq"))
    ensures "canonical" in page.config && "changefreq" in page.config && "priority" !in page.config ==>
      UrlEntry(siteUrl, buildDate, page) == Failure(MissingKey("priority"))
  {
  }

  /** The entries of the pages in order, or the first page's missing key. */
  function Entries(siteUrl: string, buildDate: string, pages: seq<Page>): Result<seq<string>, BuildError>
  {
    if pages == [] then Success([])
    else
      var init :- Entries(siteUrl, buildDate, pages[..|pages| - 1]);
      var entry :- UrlEntry(siteUrl, buildDate, pages[|pages| - 1]);
      Success(init + [entry])
  }

  /** The entries exist exactly when every page has one. */
  lemma {:induction false} EntriesSucceed(siteUrl: string, buildDate: string, pages: seq<Page>)
    ensures Entries(siteUrl, buildDate, pages).Success? <==>
      forall i :: 0 <= i < |pages| ==> UrlEntry(siteUrl, buildDate, pages[i]).Success?
  {
    if pages != [] {
      var init := pages[..|pages| - 1];
      EntriesSucceed(siteUrl, buildDate, init);
      assert forall i :: 0 <= i < |init| ==> init[i] == pages[i];
    }
  }

  /** One entry per page, in page order. */
  lemma {:induction false} EntriesShape(siteUrl: string, buildDate: string, pages: seq<Page>)
    requires Entries(siteUrl, buildDate, pages).Success?
    ensures var es := Entries(siteUrl, buildDate, pages).value;
      && |es| == |pages|
      && forall i :: 0 <= i < |pages| ==>
           UrlEntry(siteUrl, buildDate, pages[i]).Success? && es[i] == UrlEntry(siteUrl, buildDate, pages[i]).value
  {
    if pages != [] {
      var init := pages[..|pages| - 1];
      var before := Entries(siteUrl, buildDate, init);
      var entry := UrlEntry(siteUrl, buildDate, pages[|pages| - 1]);
      assert before.Success? && entry.Success?;
      EntriesShape(siteUrl, buildDate, init);
      assert forall i :: 0 <= i < |init| ==> init[i] == pages[i];
      assert Entries(siteUrl, buildDate, pages).value == before.value + [entry.value];
    }
  }

  /** A failure is the error of the first page without an entry. */
  lemma {:induction false} EntriesFailure(siteUrl: string, buildDate: string, pages: seq<Page>)
    requires Entries(siteUrl, buildDate, pages).Failure?
    ensures exists n :: && 0 <= n < |pages|
                        && (forall i :: 0 <= i < n ==> UrlEntry(siteUrl, buildDate, pages[i]).Success?)
                        && UrlEntry(siteUrl, buildDate, pages[n]).Failure?
                        && Entries(siteUrl, buildDate, pages).error == UrlEntry(siteUrl, buildDate, pages[n]).error
  {
    var init := pages[..|pages| - 1];
    assert forall i :: 0 <= i < |init| ==> init[i] == pages[i];
    if Entries(siteUrl, buildDate, init).Failure? {
      EntriesFailure(siteUrl, buildDate, init);
    } else {
      EntriesSucceed(siteUrl, buildDate, init);
      assert UrlEntry(siteUrl, buildDate, pages[|pages| - 1]).Failure?;
    }
  }

  /** `"\n".join(lines)`. */
  function JoinLines(lines: seq<string>): string
  {
    if lines == [] then ""
    else if |lines| == 1 then lines[0]
    else JoinLines(lines[..|lines| - 1]) + "\n" + lines[|lines| - 1]
  }

  const XML_DECLARATION: string := "<?xml version=\"1.0\" encoding=\"UTF-8\"?>"
  const URLSET_OPEN: string := "<urlset xmlns=\"http://www.sitemaps.org/schemas/sitemap/0.9\">"
  const URLSET_CLOSE: string := "</urlset>"

  /** The sitemap document around the joined entries. */
  function Document(entries: seq<string>): string
  {
    XML_DECLARATION + "\n" + URLSET_OPEN + "\n" + JoinLines(entries) + "\n" + URLSET_CLOSE
  }

  /** The sitemap text for the pages, or the first page's missing key. */
  function SitemapText(siteUrl: string, buildDate: string, pages: seq<Page>): Result<string, BuildError>
  {
    var entries :- Entries(siteUrl, buildDate, pages);
    Success(Document(entries))
  }

  /** `generate_sitemap`: append one entry per page, then wrap the joined entries. */
  method GenerateSitemap(siteUrl: string, buildDate: string, pages: seq<Page>) returns (r: Result<string, BuildError>)
    ensures r == SitemapText(siteUrl, buildDate, pages)
  {
    var entries: seq<string> := [];
    var i := 0;
    while i < |pages|
      invariant 0 <= i <= |pages|
      invariant Entries(siteUrl, buildDate, pages[..i]) == Success(entries)
    {
      assert pages[..i + 1][..i] == pages[..i];
      var entry := UrlEntry(siteUrl, buildDate, pages[i]);
      if entry.Failure? {
        FirstFailureWins(siteUrl, buildDate, pages, i + 1);
        return Failure(entry.error);
      }
      entries := entries + [entry.value];
      i := i + 1;
    }
    assert pages[..i] == pages;
    return Success(Document(entries));
  }

  /** Once a prefix of the pages fails, the whole list fails with the same error. */
  lemma {:induction false} FirstFailureWins(siteUrl: string, buildDate: string, pages: seq<Page>, n: nat)
    requires n <= |pages|
    requires Entries(siteUrl, buildDate, pages[..n]).Failure?
    ensures Entries(siteUrl, buildDate, pages) == Entries(siteUrl, buildDate, pages[..n])
    decreases |pages| - n
  {
    if n < |pages| {
      assert pages[..n + 1][..n] == pages[..n];
      FirstFailureWins(siteUrl, buildDate, pages, n + 1);
    } else {
      assert pages[..n] == pages;
    }
  }

  /** Trailing slashes on the site URL leave the whole sitemap unchanged. */
  lemma {:induction false} SitemapIgnoresTrailingSlash(siteUrl: string, buildDate: string, pages: seq<Page>)
    ensures SitemapText(siteUrl + "/", buildDate, pages) == SitemapText(siteUrl, buildDate, pages)
  {
    StripIgnoresTrailingSlash(siteUrl);
    EntriesIgnoreTrailingSlash(siteUrl, buildDate, pages);
  }

  lemma {:induction false} EntriesIgnoreTrailingSlash(siteUrl: string, buildDate: string, pages: seq<Page>)
    ensures Entries(siteUrl + "/", buildDate, pages) == Entries(siteUrl, buildDate, pages)
  {
    StripIgnoresTrailingSlash(siteUrl);
    if pages != [] {
      EntriesIgnoreTrailingSlash(siteUrl, buildDate, pages[..|pages| - 1]);
    }
  }

  /** The listed pages all produce an entry, so the build's sitemap always exists. */
  lemma SitemapOfPages(buildDate: string)
    ensures SitemapText(SITE_URL, buildDate, PAGES).Success?
  {
    PagesHaveKeys();
    forall i | 0 <= i < |PAGES| ensures UrlEntry(SITE_URL, buildDate, PAGES[i]).Success? {
      UrlEntryOutcome(SITE_URL, buildDate, PAGES[i]);
    }
    EntriesSucceed(SITE_URL, buildDate, PAGES);
  }

  /** `generate_robots`: the site URL is used as it is, with no slash stripping. */
  function Robots(siteUrl: string): string
  {
    "User-agent: *\nAllow: /\n\nSitemap: " + siteUrl + "/sitemap.xml"
  }

  /** Different site URLs give different robots files, so a trailing slash shows up in it. */
  lemma RobotsInjective(u: string, v: string)
    ensures Robots(u) == Robots(v) <==> u == v
  {
    if Robots(u) == Robots(v) {
      var p := |"User-agent: *\nAllow: /\n\nSitemap: "|;
      assert |u| == |v|;
      assert u == Robots(u)[p..p + |u|];
      assert v == Robots(v)[p..p + |v|];
    }
  }

  /** The site URL has no trailing slash, so the robots file names the sitemap at the same base as its locs. */
  lemma RobotsMatchesSitemapBase()
    ensures RStripSlash(SITE_URL) == SITE_URL
    ensures Robots(SITE_URL) == "User-agent: *\nAllow: /\n\nSitemap: " + RStripSlash(SITE_URL) + "/sitemap.xml"
  {
    StripIdempotent(SITE_URL);
  }
}
