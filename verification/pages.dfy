/** Page records and the shared registry of crawled pages. */
module Pages {
  import opened Wrappers
  import opened Urls
  import opened Html

  /** `PageData` (crawler.go:28-34): one crawled page. */
  datatype PageData = PageData(
    url: string,
    h1: string,
    firstParagraph: string,
    outgoingLinks: seq<string>,
    imageURLs: seq<string>)

  /** The zero record Go returns when extraction gives up. */
  const ZeroPage := PageData("", "", "", [], [])

  /** `ExtractPageData` (crawler.go:115-135): the zero record when the page URL or the page
      does not parse; otherwise the page URL verbatim, the first heading, the first paragraph,
      and the `a`/`img` references rewritten against the page URL, in document order. */
  function ExtractPageData(parse: Parser, parseHtml: HtmlParser, html: string, pageURL: string): (r: PageData)
    ensures parse(pageURL).None? || parseHtml(html).None? ==> r == ZeroPage
    ensures parse(pageURL).Some? && parseHtml(html).Some? ==>
      var base, doc := parse(pageURL).value, parseHtml(html).value;
      && r.url == pageURL
      && r.h1 == GetH1(parseHtml, html)
      && r.firstParagraph == GetFirstParagraph(parseHtml, html)
      && r.outgoingLinks == Refs(parse, doc, "a", "href", base)
      && r.imageURLs == Refs(parse, doc, "img", "src", base)
  {
    match parse(pageURL)
    case None => ZeroPage
    case Some(u) =>
      match ExtractRefs(parse, parseHtml, html, u, "a", "href")
      case None => ZeroPage
      case Some(links) =>
        match ExtractRefs(parse, parseHtml, html, u, "img", "src")
        case None => ZeroPage
        case Some(images) =>
          PageData(pageURL, GetH1(parseHtml, html), GetFirstParagraph(parseHtml, html), links, images)
  }

  /** The registry: normalised key to the record registered first under it. */
  type Registry = map<string, PageData>

  /** The outcome of `addPageVisit`: Go's inverted flag (`true` means rejected) and the
      registry afterwards. */
  datatype Visit = Visit(rejected: bool, pages: Registry)

  /** `Config.addPageVisit` (crawler.go:167-178), one atomic critical section: rejected, with
      the registry untouched, when it already holds `maxPages` records or the key; otherwise
      exactly `key -> data` is added. */
  function AddPageVisit(pages: Registry, maxPages: int, key: string, data: PageData): (v: Visit)
    ensures v.rejected <==> |pages| >= maxPages || key in pages
    ensures v.rejected ==> v.pages == pages
    ensures !v.rejected ==> key !in pages && v.pages.Keys == pages.Keys + {key} && v.pages[key] == data
    ensures !v.rejected ==> forall k :: k in pages ==> v.pages[k] == pages[k]
    ensures !v.rejected ==> |v.pages| == |pages| + 1 <= maxPages
  {
    if |pages| >= maxPages then Visit(true, pages)
    else if key in pages then Visit(true, pages)
    else Visit(false, pages[key := data])
  }

  /** The first registration wins: once `key` is registered, no later visit changes its record,
      whatever it carries. */
  lemma FirstRegistrationWins(pages: Registry, maxPages: int, key: string, d1: PageData, d2: PageData)
    requires !AddPageVisit(pages, maxPages, key, d1).rejected
    ensures
      var after := AddPageVisit(pages, maxPages, key, d1).pages;
      && AddPageVisit(after, maxPages, key, d2).rejected
      && AddPageVisit(after, maxPages, key, d2).pages[key] == d1
  {
  }
}
