/** The behaviour the repository's tests expect (crawler_test.go) and the end-to-end crawl
    scenarios, each stated for every input of the tested shape rather than for one string. */
module Scenarios {
  import opened Wrappers
  import opened Urls
  import opened UrlSyntax
  import opened Html
  import opened Pages
  import opened Crawl

  /** A URL that renders and parses back unchanged: a valid lower-case scheme, a host, a rooted
      path. */
  predicate WellFormed(u: Url)
  {
    && ValidScheme(u.scheme) && Lower(u.scheme) == u.scheme
    && u.host != "" && Avoids(u.host, {'/', '?', '#', '@'})
    && (u.path == "" || u.path[0] == '/') && Avoids(u.path, {'?', '#'})
  }

  /** A rooted relative reference such as `/logo.png`: a `/`, not `//`, and no `?`, `#` or `:`. */
  predicate RootedRef(ref: string)
  {
    && |ref| > 0 && ref[0] == '/' && !(|ref| >= 2 && ref[1] == '/')
    && Avoids(ref, {'?', '#', ':'})
  }

  /** `TestNormalizeURL` (crawler_test.go:9-49) for every scheme, host and one-segment path:
      `scheme://host/seg`, with or without a trailing slash and with any query or fragment,
      has the key `host/seg`. */
  lemma NormalizeURLTestCases(raw: string, scheme: string, host: string, seg: string, slash: string, tail: string)
    requires raw == scheme + "://" + host + "/" + seg + slash + tail
    requires slash == "" || slash == "/"
    requires ValidScheme(scheme)
    requires host != "" && Avoids(host, {'/', '?', '#', '@'})
    requires seg != "" && Avoids(seg, {'/', '?', '#'})
    requires ValidTail(tail)
    ensures NormalizeURL(Parse, raw) == Ok(host + "/" + seg)
  {
    var path := "/" + seg + slash;
    assert raw == scheme + "://" + host + path + tail;
    assert Avoids(path, {'?', '#'}) by {
      assert forall k :: 0 <= k < |path| ==> path[k] == '/' || path[k] == seg[k - 1];
    }
    ParseAbsolute(raw, scheme, host, path, tail);
    assert path[1..1 + |seg|] == seg;
    TrimSlashesUnique(path, 1, 1 + |seg|);
  }

  /** `TestGetImagesFromHTMLRelative` and the references of `TestExtractPageData`
      (crawler_test.go:151-193), for every rooted path: the reference takes the page's scheme
      and host, and the link it becomes parses back onto the page's host. */
  lemma RootedRefStaysOnPageHost(ref: string, base: Url)
    requires RootedRef(ref) && WellFormed(base)
    ensures RewriteRef(Parse, ref, base) == Some(base.scheme + "://" + base.host + ref)
    ensures Parse(base.scheme + "://" + base.host + ref) == Some(Url(base.scheme, base.host, ref))
  {
    assert ref == ref + "";
    ParseRelative(ref, ref, "");
    var link := base.scheme + "://" + base.host + ref;
    assert link == base.scheme + "://" + base.host + ref + "";
    ParseAbsolute(link, base.scheme, base.host, ref, "");
  }

  /** `TestGetURLsFromHTMLAbsolute` (crawler_test.go:130-149), for every absolute URL: it is
      kept as written, whatever the page. */
  lemma AbsoluteRefKept(u: Url, base: Url)
    requires WellFormed(u)
    ensures RewriteRef(Parse, Render(u), base) == Some(Render(u))
  {
    RenderParses(u);
  }

  /** The fill-in is not reference resolution: a reference without a leading `/` is glued to
      the host, and the link it becomes parses to a different host. */
  lemma UnrootedRefLeavesHost(ref: string, base: Url)
    requires |ref| > 0 && Avoids(ref, {'/', '?', '#', ':', '@'})
    requires WellFormed(base)
    ensures RewriteRef(Parse, ref, base) == Some(base.scheme + "://" + (base.host + ref))
    ensures Parse(base.scheme + "://" + (base.host + ref)) == Some(Url(base.scheme, base.host + ref, ""))
    ensures base.host + ref != base.host
  {
    assert ref == ref + "";
    ParseRelative(ref, ref, "");
    assert base.scheme + "://" + base.host + ref == base.scheme + "://" + (base.host + ref);
    var host := base.host + ref;
    AvoidsConcat(base.host, ref, {'/', '?', '#', '@'});
    var link := base.scheme + "://" + host;
    assert link == base.scheme + "://" + host + "" + "";
    ParseAbsolute(link, base.scheme, host, "", "");
    assert |host| > |base.host|;
  }

  /** Such a link is then dropped by the crawl as off-host. */
  lemma UnrootedLinkNotFollowed(w: World, cfg: Config, pages: Registry, ref: string, base: Url)
    requires w.parse == Parse && cfg.baseHost == base.host
    requires |ref| > 0 && Avoids(ref, {'/', '?', '#', ':', '@'})
    requires WellFormed(base)
    ensures var link := base.scheme + "://" + (base.host + ref);
      && RewriteRef(Parse, ref, base) == Some(link)
      && CrawlPage(w, cfg, pages, link).outcome == OffHost
      && !CrawlPage(w, cfg, pages, link).fetched
  {
    UnrootedRefLeavesHost(ref, base);
  }

  function El(tag: string, text: string): Element
  {
    Element(tag, map[], text, false)
  }

  /** `TestGetH1FromHTMLBasic` (crawler_test.go:51-82): an `h1`, also nested, gives its text;
      an `h2` is no heading. */
  lemma H1TestCases(parseHtml: HtmlParser, h1: string, h2: string, nested: string, title: string)
    requires parseHtml(h1) == Some([El("html", ""), El("body", ""), El("h1", title)])
    requires parseHtml(h2) == Some([El("html", ""), El("body", ""), El("h2", title)])
    requires parseHtml(nested) == Some([El("html", ""), El("body", ""), El("div", ""), El("h1", title)])
    ensures GetH1(parseHtml, h1) == title
    ensures GetH1(parseHtml, h2) == ""
    ensures GetH1(parseHtml, nested) == title
  {
    assert IsFirstSelected(parseHtml(h1).value, 2, "h1", false);
    assert IsFirstSelected(parseHtml(nested).value, 3, "h1", false);
  }

  /** `TestGetFirstParagraphFromHTMLMainPriority` (crawler_test.go:84-128): with a `main`, its
      first paragraph wins over an earlier outer one; without, the outer one is taken. And the
      case the tests leave out: a `main` holding no paragraph gives `""`, not the outer one. */
  lemma FirstParagraphTestCases(parseHtml: HtmlParser, withMain: string, twoInMain: string,
                                noMain: string, emptyMain: string, outer: string, inner: string, second: string)
    requires parseHtml(withMain) == Some([El("p", outer), El("main", ""), Element("p", map[], inner, true)])
    requires parseHtml(twoInMain) == Some([El("p", outer), El("main", ""), Element("p", map[], inner, true),
                                           Element("p", map[], second, true)])
    requires parseHtml(noMain) == Some([El("body", ""), El("p", outer)])
    requires parseHtml(emptyMain) == Some([El("p", outer), El("main", "")])
    ensures GetFirstParagraph(parseHtml, withMain) == inner
    ensures GetFirstParagraph(parseHtml, twoInMain) == inner
    ensures GetFirstParagraph(parseHtml, noMain) == outer
    ensures GetFirstParagraph(parseHtml, emptyMain) == ""
  {
    assert parseHtml(withMain).value[1].tag == "main";
    assert IsFirstSelected(parseHtml(withMain).value, 2, "p", true);
    assert parseHtml(twoInMain).value[1].tag == "main";
    assert IsFirstSelected(parseHtml(twoInMain).value, 2, "p", true);
    assert !HasMain(parseHtml(noMain).value) && IsFirstSelected(parseHtml(noMain).value, 1, "p", false);
    assert parseHtml(emptyMain).value[1].tag == "main";
    assert NoneSelected(parseHtml(emptyMain).value, "p", true);
  }

  /** The page of `TestExtractPageData`. */
  function ExtractTestPage(title: string, para: string, link: string, image: string): Document
  {
    [El("html", ""), El("body", ""), El("h1", title), El("p", para),
     Element("a", map["href" := link], "", false), Element("img", map["src" := image], "", false)]
  }

  lemma ExtractTestPageRefs(parse: Parser, base: Url, title: string, para: string, link: string, image: string)
    requires parse(link) == Some(Url("", "", link)) && parse(image) == Some(Url("", "", image))
    ensures Refs(parse, ExtractTestPage(title, para, link, image), "a", "href", base)
         == [base.scheme + "://" + base.host + link]
    ensures Refs(parse, ExtractTestPage(title, para, link, image), "img", "src", base)
         == [base.scheme + "://" + base.host + image]
  {
    var d := ExtractTestPage(title, para, link, image);
    var l, i := base.scheme + "://" + base.host + link, base.scheme + "://" + base.host + image;
    assert d == d[..4] + [d[4], d[5]];
    RefsIgnoreOtherTags(parse, d[..4], "a", "href", base);
    RefsIgnoreOtherTags(parse, d[..4], "img", "src", base);
    assert Refs(parse, [d[4], d[5]], "a", "href", base) == [l] by {
      assert RefOf(parse, d[4], "a", "href", base) == [l];
      assert Refs(parse, [d[5]], "a", "href", base) == [];
    }
    assert Refs(parse, [d[4], d[5]], "img", "src", base) == [i] by {
      assert RefOf(parse, d[5], "img", "src", base) == [i];
      assert Refs(parse, [d[5]], "img", "src", base) == [i];
    }
    RefsAppend(parse, d[..4], [d[4], d[5]], "a", "href", base);
    RefsAppend(parse, d[..4], [d[4], d[5]], "img", "src", base);
  }

  /** `TestExtractPageData` (crawler_test.go:172-193), for every page URL, heading, paragraph and
      pair of references the parser reads as bare paths. */
  lemma ExtractPageDataTestCase(parse: Parser, parseHtml: HtmlParser, html: string, pageURL: string,
                                base: Url, title: string, para: string, link: string, image: string)
    requires parse(pageURL) == Some(base)
    requires parse(link) == Some(Url("", "", link)) && parse(image) == Some(Url("", "", image))
    requires parseHtml(html) == Some(ExtractTestPage(title, para, link, image))
    ensures ExtractPageData(parse, parseHtml, html, pageURL)
         == PageData(pageURL, title, para,
                     [base.scheme + "://" + base.host + link], [base.scheme + "://" + base.host + image])
  {
    var d := parseHtml(html).value;
    assert GetH1(parseHtml, html) == title by {
      assert IsFirstSelected(d, 2, "h1", false);
    }
    assert GetFirstParagraph(parseHtml, html) == para by {
      assert !HasMain(d);
      assert IsFirstSelected(d, 3, "p", false);
    }
    ExtractTestPageRefs(parse, base, title, para, link, image);
  }

  /** `TestExtractPageData` with the URL parser itself: a well-formed page URL and two rooted
      references, as in the test's `https://blog.boot.dev`, `/link1` and `/image1.jpg`. */
  lemma ExtractPageDataTestCaseParsed(parseHtml: HtmlParser, html: string, base: Url,
                                      title: string, para: string, link: string, image: string)
    requires WellFormed(base) && RootedRef(link) && RootedRef(image)
    requires parseHtml(html) == Some(ExtractTestPage(title, para, link, image))
    ensures ExtractPageData(Parse, parseHtml, html, Render(base))
         == PageData(Render(base), title, para,
                     [base.scheme + "://" + base.host + link], [base.scheme + "://" + base.host + image])
  {
    RenderParses(base);
    assert link == link + "" && image == image + "";
    ParseRelative(link, link, "");
    ParseRelative(image, image, "");
    ExtractPageDataTestCase(Parse, parseHtml, html, Render(base), base, title, para, link, image);
  }

  /** The seed page of the two-page scenario: a heading, a paragraph and one link. */
  function SeedPage(ref: string): Document
  {
    [El("h1", "Hi"), El("p", "First."), Element("a", map["href" := ref], "", false)]
  }

  lemma SeedPageRecord(parse: Parser, parseHtml: HtmlParser, html: string, seed: string, base: Url,
                        ref: string, link: string)
    requires parse(seed) == Some(base) && parse(ref) == Some(Url("", "", ref))
    requires parseHtml(html) == Some(SeedPage(ref))
    requires link == base.scheme + "://" + base.host + ref
    ensures ExtractPageData(parse, parseHtml, html, seed) == PageData(seed, "Hi", "First.", [link], [])
  {
    var d := SeedPage(ref);
    assert GetH1(parseHtml, html) == "Hi" by {
      assert IsFirstSelected(d, 0, "h1", false);
    }
    assert GetFirstParagraph(parseHtml, html) == "First." by {
      assert !HasMain(d);
      assert IsFirstSelected(d, 1, "p", false);
    }
    assert d == [d[0], d[1]] + [d[2]];
    RefsIgnoreOtherTags(parse, [d[0], d[1]], "a", "href", base);
    RefsIgnoreOtherTags(parse, d, "img", "src", base);
    RefsAppend(parse, [d[0], d[1]], [d[2]], "a", "href", base);
  }

  lemma LinkedPageRecord(parse: Parser, parseHtml: HtmlParser, html: string, link: string)
    requires parse(link).Some?
    requires parseHtml(html) == Some([El("h1", "Bye")])
    ensures ExtractPageData(parse, parseHtml, html, link) == PageData(link, "Bye", "", [], [])
  {
    var d := parseHtml(html).value;
    assert IsFirstSelected(d, 0, "h1", false);
    assert !HasMain(d);
  }

  /** One pending task that registers: it is fetched, its record added, its links pending. */
  lemma SoleTaskRegisters(w: World, cfg: Config, st: State, key: string, data: PageData)
    requires |st.pending| == 1 && Registers(w, cfg, st.pages, st.pending[0])
    requires key == Key(w.parse(st.pending[0]).value)
    requires data == ExtractPageData(w.parse, w.parseHtml, w.fetch(st.pending[0]).value, st.pending[0])
    ensures Step(w, cfg, st, 0) == State(st.pages[key := data], data.outgoingLinks, st.fetched + [st.pending[0]])
  {
    var raw := st.pending[0];
    var t := CrawlPage(w, cfg, st.pages, raw);
    assert t.outcome == Registered && t.fetched;
    assert t.pages == st.pages[key := data] && t.children == data.outgoingLinks;
    assert st.pending[..0] + st.pending[1..] + t.children == data.outgoingLinks;
  }

  /** The key of a page URL with an empty path is its host and a `/`. */
  lemma RootKey(scheme: string, host: string)
    ensures Key(Url(scheme, host, "")) == host + "/"
  {
    assert TrimSlashes("") == "";
  }

  lemma PathKeyDiffers(host: string, p: string)
    requires p != ""
    ensures host + "/" + p != host + "/"
  {
    assert |host + "/" + p| > |host + "/"|;
  }

  lemma Singleton(k: string, d: PageData, other: string)
    requires other != k
    ensures |map[k := d]| == 1 && other !in map[k := d]
  {
    assert map[k := d].Keys == {k};
  }

  /** A crawl where the seed registers and links to one page, which registers and links
      nowhere, ends with those two records. */
  lemma ChainOfTwo(w: World, cfg: Config, seed: string, link: string,
                   k1: string, k2: string, dA: PageData, dB: PageData)
    requires Registers(w, cfg, map[], seed) && k1 == Key(w.parse(seed).value)
    requires dA == ExtractPageData(w.parse, w.parseHtml, w.fetch(seed).value, seed)
    requires dA.outgoingLinks == [link]
    requires Registers(w, cfg, map[k1 := dA], link) && k2 == Key(w.parse(link).value)
    requires dB == ExtractPageData(w.parse, w.parseHtml, w.fetch(link).value, link)
    requires dB.outgoingLinks == []
    ensures Drain(w, cfg, Start(seed)).pages == map[k1 := dA, k2 := dB]
  {
    var st0 := Start(seed);
    var st1 := State(map[k1 := dA], [link], [seed]);
    SoleTaskRegisters(w, cfg, st0, k1, dA);
    var st2 := State(map[k1 := dA, k2 := dB], [], [seed, link]);
    SoleTaskRegisters(w, cfg, st1, k2, dB);
    DrainUnfold(w, cfg, st0);
    DrainUnfold(w, cfg, st1);
    DrainUnfold(w, cfg, st2);
  }

  /** The two records of the scenario below, under their keys, satisfy the premises of `ChainOfTwo`. */
  lemma TwoPageFacts(w: World, cfg: Config, seed: string, scheme: string, host: string,
                     htmlA: string, htmlB: string, ref: string, link: string,
                     k1: string, k2: string, dA: PageData, dB: PageData)
    requires cfg == Config(host, cfg.maxPages) && cfg.maxPages >= 2
    requires w.parse(seed) == Some(Url(scheme, host, "")) && w.fetch(seed) == Some(htmlA)
    requires w.parseHtml(htmlA) == Some(SeedPage(ref))
    requires w.parse(ref) == Some(Url("", "", ref)) && TrimSlashes(ref) != ""
    requires link == scheme + "://" + host + ref
    requires w.parse(link) == Some(Url(scheme, host, ref))
    requires w.fetch(link) == Some(htmlB) && w.parseHtml(htmlB) == Some([El("h1", "Bye")])
    requires k1 == host + "/" && k2 == host + "/" + TrimSlashes(ref)
    requires dA == PageData(seed, "Hi", "First.", [link], []) && dB == PageData(link, "Bye", "", [], [])
    ensures Registers(w, cfg, map[], seed) && k1 == Key(w.parse(seed).value)
    ensures dA == ExtractPageData(w.parse, w.parseHtml, w.fetch(seed).value, seed)
    ensures Registers(w, cfg, map[k1 := dA], link) && k2 == Key(w.parse(link).value)
    ensures dB == ExtractPageData(w.parse, w.parseHtml, w.fetch(link).value, link)
  {
    SeedFacts(w, cfg, seed, scheme, host, htmlA, ref, link, k1, dA);
    LinkFacts(w, cfg, scheme, host, htmlB, ref, link, k1, k2, dA, dB);
  }

  lemma SeedFacts(w: World, cfg: Config, seed: string, scheme: string, host: string,
                  htmlA: string, ref: string, link: string, k1: string, dA: PageData)
    requires cfg == Config(host, cfg.maxPages) && cfg.maxPages >= 2
    requires w.parse(seed) == Some(Url(scheme, host, "")) && w.fetch(seed) == Some(htmlA)
    requires w.parseHtml(htmlA) == Some(SeedPage(ref)) && w.parse(ref) == Some(Url("", "", ref))
    requires k1 == host + "/"
    requires link == scheme + "://" + host + ref
    requires dA == PageData(seed, "Hi", "First.", [link], [])
    ensures Registers(w, cfg, map[], seed) && k1 == Key(w.parse(seed).value)
    ensures dA == ExtractPageData(w.parse, w.parseHtml, w.fetch(seed).value, seed)
  {
    SeedRegisters(w, cfg, seed, scheme, host, k1);
    SeedPageRecord(w.parse, w.parseHtml, htmlA, seed, Url(scheme, host, ""), ref, link);
  }

  lemma SeedRegisters(w: World, cfg: Config, seed: string, scheme: string, host: string, k1: string)
    requires cfg == Config(host, cfg.maxPages) && cfg.maxPages >= 2
    requires w.parse(seed) == Some(Url(scheme, host, "")) && w.fetch(seed).Some?
    requires k1 == host + "/"
    ensures Registers(w, cfg, map[], seed) && k1 == Key(w.parse(seed).value)
  {
    RootKey(scheme, host);
  }

  lemma LinkFacts(w: World, cfg: Config, scheme: string, host: string, htmlB: string,
                  ref: string, link: string, k1: string, k2: string, dA: PageData, dB: PageData)
    requires cfg == Config(host, cfg.maxPages) && cfg.maxPages >= 2
    requires TrimSlashes(ref) != ""
    requires w.parse(link) == Some(Url(scheme, host, ref))
    requires w.fetch(link) == Some(htmlB) && w.parseHtml(htmlB) == Some([El("h1", "Bye")])
    requires k1 == host + "/" && k2 == host + "/" + TrimSlashes(ref)
    requires dB == PageData(link, "Bye", "", [], [])
    ensures Registers(w, cfg, map[k1 := dA], link) && k2 == Key(w.parse(link).value)
    ensures dB == ExtractPageData(w.parse, w.parseHtml, w.fetch(link).value, link)
  {
    LinkedPageRecord(w.parse, w.parseHtml, htmlB, link);
    PathKeyDiffers(host, TrimSlashes(ref));
    Singleton(k1, dA, k2);
  }

  /** End-to-end scenario: the seed page (heading, paragraph, one rooted link) and the page it
      links to (a heading only) are both registered, under `host/` and `host/path`, and nothing
      else is. */
  lemma TwoPageCrawl(w: World, seed: string, maxPages: int, scheme: string, host: string,
                     htmlA: string, htmlB: string, ref: string)
    requires maxPages >= 2
    requires w.parse(seed) == Some(Url(scheme, host, "")) && w.fetch(seed) == Some(htmlA)
    requires w.parseHtml(htmlA) == Some(SeedPage(ref))
    requires w.parse(ref) == Some(Url("", "", ref)) && TrimSlashes(ref) != ""
    requires var link := scheme + "://" + host + ref;
      && w.parse(link) == Some(Url(scheme, host, ref))
      && w.fetch(link) == Some(htmlB)
      && w.parseHtml(htmlB) == Some([El("h1", "Bye")])
    ensures var link := scheme + "://" + host + ref;
      Run(w, seed, maxPages).value.pages
        == map[host + "/" := PageData(seed, "Hi", "First.", [link], []),
               host + "/" + TrimSlashes(ref) := PageData(link, "Bye", "", [], [])]
  {
    var link := scheme + "://" + host + ref;
    var cfg := Config(host, maxPages);
    var dA := PageData(seed, "Hi", "First.", [link], []);
    var dB := PageData(link, "Bye", "", [], []);
    var k1, k2 := host + "/", host + "/" + TrimSlashes(ref);
    TwoPageFacts(w, cfg, seed, scheme, host, htmlA, htmlB, ref, link, k1, k2, dA, dB);
    ChainOfTwo(w, cfg, seed, link, k1, k2, dA, dB);
  }

  /** What the URL parser says about the seed `scheme://host`, a rooted reference on its page,
      and the link that reference becomes. */
  lemma TwoPageParses(scheme: string, host: string, ref: string, seed: string, link: string)
    requires WellFormed(Url(scheme, host, "")) && RootedRef(ref)
    requires seed == scheme + "://" + host && link == scheme + "://" + host + ref
    ensures Parse(seed) == Some(Url(scheme, host, ""))
    ensures Parse(ref) == Some(Url("", "", ref))
    ensures Parse(link) == Some(Url(scheme, host, ref))
  {
    var base := Url(scheme, host, "");
    assert Render(base) == seed;
    RenderParses(base);
    RootedRefStaysOnPageHost(ref, base);
    assert ref == ref + "";
    ParseRelative(ref, ref, "");
  }

  /** `TwoPageCrawl` with the URL parser itself: the seed `scheme://host` and the rooted link
      `ref` on its page. */
  lemma TwoPageCrawlParsed(w: World, maxPages: int, scheme: string, host: string,
                           htmlA: string, htmlB: string, ref: string, seed: string, link: string)
    requires w.parse == Parse && WellFormed(Url(scheme, host, "")) && maxPages >= 2
    requires RootedRef(ref) && TrimSlashes(ref) != ""
    requires seed == scheme + "://" + host && link == scheme + "://" + host + ref
    requires w.fetch(seed) == Some(htmlA) && w.parseHtml(htmlA) == Some(SeedPage(ref))
    requires w.fetch(link) == Some(htmlB) && w.parseHtml(htmlB) == Some([El("h1", "Bye")])
    ensures Run(w, seed, maxPages).Some?
    ensures Run(w, seed, maxPages).value.pages
        == map[host + "/" := PageData(seed, "Hi", "First.", [link], []),
               host + "/" + TrimSlashes(ref) := PageData(link, "Bye", "", [], [])]
  {
    TwoPageParses(scheme, host, ref, seed, link);
    TwoPageCrawl(w, seed, maxPages, scheme, host, htmlA, htmlB, ref);
  }
}
