/**
 * The static-site build: the site configuration, the page table and the
 * rendering loop that merges both into each page's template context and
 * writes the result under the build directory.
 */
module Site {
  import opened Wrappers

  /** A context value: text, a number, or the speed-comparison table, which is kept abstract. */
  datatype Value = Text(s: string) | Number(n: int) | SpeedTable

  /** A `KeyError` raised by a missing page-configuration key. */
  datatype BuildError = MissingKey(key: string)

  /** A page: its template, its output path under the build directory and its own settings. */
  datatype Page = Page(template: string, output: string, config: map<string, string>)

  const SITE_URL: string := "https://speed-migration.pages.dev"
  const BUILD_DIR: string := "dist"

  /**
   * The site-wide settings. The build date and year come from the clock when
   * the build starts and are given here as parameters.
   */
  function SiteConfig(buildDate: string, year: int): map<string, Value>
  {
    map[
      "site_name" := Text("flows123"),
      "site_url" := Text(SITE_URL),
      "site_description" := Text("Migrate your slow AI-generated website to lightning-fast static hosting. 7x faster loading, better SEO, higher conversions."),
      "default_title" := Text("Migrate Your Slow AI Website | 7x Faster Loading | Flows123"),
      "default_og_image" := Text("/images/og-image.png"),
      "twitter_handle" := Text(""),
      "business_name" := Text("Flows123"),
      "business_type" := Text("SoftwareApplication"),
      "build_date" := Text(buildDate),
      "year" := Number(year)
    ]
  }

  function PageConfig(title: string, description: string, canonical: string, priority: string, changefreq: string): map<string, string>
  {
    map["title" := title, "description" := description, "canonical" := canonical,
        "priority" := priority, "changefreq" := changefreq]
  }

  /** The four pages, in build order. */
  const PAGES: seq<Page> := [
    Page("index.html", "index.html",
         PageConfig("Migrate Your Slow AI Website | 7x Faster Loading",
                    "Your Bolt.new site loads in 20 seconds. We make it load in 2.6. Free speed audit.",
                    "/", "1.0", "weekly")),
    Page("pages/privacy.html", "privacy/index.html",
         PageConfig("Privacy Policy | Flows123",
                    "Privacy policy for Flows123 website migration service.",
                    "/privacy/", "0.3", "monthly")),
    Page("pages/terms.html", "terms/index.html",
         PageConfig("Terms of Service | Flows123",
                    "Terms of service for Flows123 website migration service.",
                    "/terms/", "0.3", "monthly")),
    Page("pages/thank-you.html", "thank-you/index.html",
         PageConfig("Thanks! We're Analyzing Your Site | LightLoad",
                    "Your migration analysis is on its way.",
                    "/thank-you/", "0.1", "monthly"))
  ]

  /** A page's settings as context values. */
  function PageValues(config: map<string, string>): map<string, Value>
  {
    map k | k in config :: Text(config[k])
  }

  /**
   * The render context of a page (build.py:130-135): the site settings, then
   * the page settings, then the speed table and the current path, each later
   * source winning on a shared key. A page without a canonical path raises a
   * `KeyError`.
   */
  function RenderContext(site: map<string, Value>, page: Page, speed: Value): (r: Result<map<string, Value>, BuildError>)
    ensures r.Failure? <==> "canonical" !in page.config
    ensures r.Failure? ==> r.error == MissingKey("canonical")
  {
    if "canonical" !in page.config then Failure(MissingKey("canonical"))
    else Success(site + PageValues(page.config)
                 + map["speed_data" := speed, "current_path" := Text(page.config["canonical"])])
  }

  /** Each key of the context takes the value of the last source that has it. */
  lemma RenderContextPrecedence(site: map<string, Value>, page: Page, speed: Value)
    requires "canonical" in page.config
    ensures var ctx := RenderContext(site, page, speed).value;
      && ctx.Keys == site.Keys + page.config.Keys + {"speed_data", "current_path"}
      && ctx["current_path"] == Text(page.config["canonical"])
      && ctx["speed_data"] == speed
      && (forall k :: k in page.config && k != "speed_data" && k != "current_path" ==> ctx[k] == Text(page.config[k]))
      && (forall k :: k in site && k !in page.config && k != "speed_data" && k != "current_path" ==> ctx[k] == site[k])
  {
  }

  /** The page settings never override the speed table or the current path, even when they name them. */
  lemma ReservedKeysWin(site: map<string, Value>, page: Page, speed: Value)
    requires "canonical" in page.config && "current_path" in page.config
    requires page.config["current_path"] != page.config["canonical"]
    ensures RenderContext(site, page, speed).value["current_path"] != Text(page.config["current_path"])
  {
  }

  /** The file a page is written to: its output joined under the build directory (build.py:142). */
  function OutputPath(output: string): string
  {
    BUILD_DIR + "/" + output
  }

  /** Different outputs are written to different files. */
  lemma OutputPathInjective(a: string, b: string)
    ensures OutputPath(a) == OutputPath(b) <==> a == b
  {
    if OutputPath(a) == OutputPath(b) {
      assert a == OutputPath(a)[|BUILD_DIR| + 1..];
    }
  }

  /** A template renderer: the template's name and the context give the page text. */
  type Renderer = (string, map<string, Value>) -> string

  /** How many leading pages can be built before the first one without a canonical path. */
  function BuildablePrefix(pages: seq<Page>): (n: nat)
    ensures n <= |pages|
    ensures forall i :: 0 <= i < n ==> "canonical" in pages[i].config
    ensures n < |pages| ==> "canonical" !in pages[n].config
  {
    if pages == [] || "canonical" !in pages[0].config then 0
    else 1 + BuildablePrefix(pages[1..])
  }

  /** The files written by building the given pages in order, later writes replacing earlier ones. */
  function Written(render: Renderer, site: map<string, Value>, speed: Value, pages: seq<Page>): map<string, string>
    requires forall i :: 0 <= i < |pages| ==> "canonical" in pages[i].config
  {
    if pages == [] then map[]
    else
      var last := pages[|pages| - 1];
      Written(render, site, speed, pages[..|pages| - 1])
        [OutputPath(last.output) := render(last.template, RenderContext(site, last, speed).value)]
  }

  /**
   * The files written are exactly the pages' output paths, and each holds
   * the rendering of the last page written there.
   */
  lemma {:induction false} WrittenContents(render: Renderer, site: map<string, Value>, speed: Value, pages: seq<Page>, i: nat)
    requires forall j :: 0 <= j < |pages| ==> "canonical" in pages[j].config
    requires i < |pages|
    requires forall j :: i < j < |pages| ==> pages[j].output != pages[i].output
    ensures OutputPath(pages[i].output) in Written(render, site, speed, pages)
    ensures Written(render, site, speed, pages)[OutputPath(pages[i].output)]
         == render(pages[i].template, RenderContext(site, pages[i], speed).value)
  {
    var n := |pages|;
    if i < n - 1 {
      var init := pages[..n - 1];
      OutputPathInjective(pages[n - 1].output, pages[i].output);
      WrittenContents(render, site, speed, init, i);
    }
  }

  lemma {:induction false} WrittenKeys(render: Renderer, site: map<string, Value>, speed: Value, pages: seq<Page>)
    requires forall j :: 0 <= j < |pages| ==> "canonical" in pages[j].config
    ensures Written(render, site, speed, pages).Keys == set j | 0 <= j < |pages| :: OutputPath(pages[j].output)
  {
    if pages != [] {
      var init := pages[..|pages| - 1];
      WrittenKeys(render, site, speed, init);
      assert forall j :: 0 <= j < |init| ==> init[j] == pages[j];
    }
  }

  /**
   * `build_pages`: render and write each page in order. A page without a
   * canonical path stops the build; the pages before it stay written.
   */
  method BuildPages(render: Renderer, site: map<string, Value>, speed: Value, pages: seq<Page>)
    returns (written: map<string, string>, err: Option<BuildError>)
    ensures err.None? <==> forall i :: 0 <= i < |pages| ==> "canonical" in pages[i].config
    ensures err.Some? ==> err.value == MissingKey("canonical")
    ensures written == Written(render, site, speed, pages[..BuildablePrefix(pages)])
  {
    written := map[];
    var i := 0;
    while i < |pages|
      invariant 0 <= i <= BuildablePrefix(pages)
      invariant written == Written(render, site, speed, pages[..i])
    {
      var page := pages[i];
      var context := RenderContext(site, page, speed);
      if context.Failure? {
        return written, Some(context.error);
      }
      assert pages[..i + 1][..i] == pages[..i];
      written := written[OutputPath(page.output) := render(page.template, context.value)];
      i := i + 1;
    }
    assert pages[..i] == pages;
    return written, None;
  }

  /** Every listed page has a canonical path, a change frequency and a priority. */
  lemma PagesHaveKeys()
    ensures forall i :: 0 <= i < |PAGES| ==>
      "canonical" in PAGES[i].config && "changefreq" in PAGES[i].config && "priority" in PAGES[i].config
  {
  }

  /** The listed pages have different outputs. */
  lemma PagesOutputsDistinct()
    ensures forall i, j :: 0 <= i < j < |PAGES| ==> PAGES[i].output != PAGES[j].output
  {
    assert PAGES[0].output[0] == 'i';
    assert PAGES[1].output[0] == 'p';
    assert PAGES[2].output[0] == 't' && PAGES[2].output[1] == 'e';
    assert PAGES[3].output[0] == 't' && PAGES[3].output[1] == 'h';
  }

  /** Building the listed pages writes every one of them, each to its own file. */
  lemma BuildOfPages(render: Renderer, site: map<string, Value>, speed: Value)
    ensures BuildablePrefix(PAGES) == |PAGES|
    ensures forall i :: 0 <= i < |PAGES| ==>
      && OutputPath(PAGES[i].output) in Written(render, site, speed, PAGES)
      && Written(render, site, speed, PAGES)[OutputPath(PAGES[i].output)]
         == render(PAGES[i].template, RenderContext(site, PAGES[i], speed).value)
  {
    PagesHaveKeys();
    PagesOutputsDistinct();
    forall i | 0 <= i < |PAGES|
      ensures && OutputPath(PAGES[i].output) in Written(render, site, speed, PAGES)
              && Written(render, site, speed, PAGES)[OutputPath(PAGES[i].output)]
                 == render(PAGES[i].template, RenderContext(site, PAGES[i], speed).value)
    {
      WrittenContents(render, site, speed, PAGES, i);
    }
  }
}
