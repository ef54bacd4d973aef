# webCrawler core in Dafny

A model of the crawler in `crawler.go`. It covers:

- the dedup key `NormalizeURL`;
- the HTML extractors `getH1FromHTML`, `getFirstParagraphFromHTML`, `getURLsFromHTML` and `getImagesFromHTML`;
- `ExtractPageData`;
- the mutex-guarded registry `Config.addPageVisit`;
- the crawl engine `Config.CrawlPage`, together with the driver in `main.go` that seeds it and waits for it.

Modules, one per file:

- `Wrappers` (`wrappers.dfy`): `Option` and `Result`.
- `Urls` (`urls.dfy`): the parsed-URL record and `strings.Trim(path, "/")`.
  - the key, and when two URLs share one;
  - the scheme/host fill-in that rewrites `href`/`src` values.
- `UrlSyntax` (`urlsyntax.dfy`): a reduced concrete `url.Parse`, used to state the repository's test cases on real strings.
  - It handles fragment and query cut-off, `getScheme`, lower-casing the scheme, and authority versus path. After a scheme, `//` always opens an authority, so `http:///x` has an empty host and the path `/x`. In a scheme-less reference, `//` opens one only when it is not `///`.
  - It has the three rejections relevant here:
    - a control character;
    - a leading `:`;
    - a colon in the first segment of a relative reference.
- `Html` (`html.dfy`): a parsed page as its elements in document order. Each element has a tag, attributes, text, and whether it lies under a `main`.
  - first-match selection;
  - the heading and first-paragraph rules, including the `main` quirk;
  - reference extraction: a reference list defined element by element, and the `Each` loop as a method proved to compute it.
- `Pages` (`pages.dfy`): `PageData`, `ExtractPageData` and `addPageVisit` on an immutable registry (a map from key to record).
- `Crawl` (`crawl.dfy`): `CrawlPage` as one atomic task and the crawl as a worklist. A step may run any pending task, which covers every goroutine interleaving, since the only shared state is touched inside one mutex-guarded call.
  - `Drain` runs first in, first out, until nothing is pending. It terminates on the measure (room left under the cap, pending count).
  - Invariants: the registry stays within the cap; every key starts with the seed's host and `/`; every record normalises to its own key (or is the zero record); nothing off the host is ever fetched; no record is ever overwritten.
- `Scenarios` (`scenarios.dfy`): the repository's tests, each stated for every input of the tested shape, plus a complete two-page crawl.

The URL parser, the HTML parser and the page fetcher are function-valued parameters (`Parser`, `HtmlParser`, `World.fetch`). Every property in `Urls`, `Html`, `Pages` and `Crawl` therefore holds for every parser and every server. `UrlSyntax.Parse` is only plugged in by the scenarios.

Behaviour kept as the code has it:

- The fetch happens before the duplicate check, so an already registered URL is downloaded again and then rejected.
- When the page's HTML fails to parse, the zero record is registered under the page's key.
- Once any `main` element exists, the first paragraph is the first `p` inside a `main`, or `""`. A `p` outside is ignored.
- References are not resolved. A missing scheme and host are copied from the page URL and the path is appended verbatim, so `href="link1"` on `https://blog.boot.dev` becomes `https://blog.boot.devlink1`. That URL names another host, so the crawl never follows it.
- `addPageVisit` answers `true` for "rejected". `maxPages` may be negative, in which case nothing is registered.

## Model

| member | source | states |
|---|---|---|
| Urls.TrimSlashes | crawler.go:41 | `strings.Trim(p, "/")`: the result has no `/` at either end, only slashes lie before and after it in `p`, and it is the infix of `p` starting after the leading slashes |
| Urls.TrimSlashesUnique | crawler.go:41 | any split of `p` into slashes, an infix with no edge slash, and slashes again, has `TrimSlashes(p)` as that infix |
| Urls.TrimLeftAppend | crawler.go:41 | cutting leading slashes from `p + s` cuts them from `p` only, unless `p` is all slashes |
| Urls.TrimSlashesIgnoresTrailingSlash | crawler.go:41 | a trailing `/` does not change the trimmed path |
| Urls.TrimSlashesIgnoresLeadingSlash | crawler.go:41 | a leading `/` does not change the trimmed path |
| Urls.TrimSlashesIdempotent | crawler.go:41 | trimming twice equals trimming once |
| Urls.NormalizeURL | crawler.go:36-43 | error exactly when the URL does not parse; otherwise the key is the host, `/`, and the path with no edge slash, equal to the trimmed path |
| Urls.SplitKey | crawler.go:42 | for a host without `/`, the first `/` of the key ends the host, so host and trimmed path can be read back from the key |
| Urls.KeyEqualIff | crawler.go:36-43 | two URLs (hosts without `/`) share a key if and only if they share host and trimmed path; scheme, query and fragment are ignored |
| Urls.KeyIgnoresSchemeAndTrailingSlash | crawler.go:36-43 | `http` and `https`, with or without a trailing slash, give the same key |
| Urls.FillFromBase | crawler.go:79-84 | the path is kept; an empty scheme is taken from the page URL, as is an empty host; non-empty ones are kept |
| Urls.RewriteRef | crawler.go:75-85 | no result exactly when the value does not parse; otherwise the filled-in URL as `scheme://host` + path |
| Urls.FillFromBaseIdempotent | crawler.go:79-84 | filling in twice equals filling in once |
| Urls.AbsoluteRefIgnoresBase | crawler.go:79-85 | a reference with its own scheme and host is rewritten the same on every page |
| Urls.RelativeRefUsesBase | crawler.go:79-85 | a reference with neither scheme nor host becomes the page's `scheme://host` followed by its path verbatim |
| UrlSyntax.ScanSchemeFinds | crawler.go:37 | a valid scheme followed by `:` is split off as the scheme, the rest after the `:` |
| UrlSyntax.ScanSchemeAbsent | crawler.go:75 | a string whose first non-scheme character comes before any `:` has no scheme |
| UrlSyntax.ParseRestAuthority | crawler.go:37 | after the scheme, `//host` (the host possibly empty) with a rooted path and a query gives exactly that host and path |
| UrlSyntax.ParseAbsolute | crawler.go:37 | `scheme://host/path` with an optional query or fragment parses to the lower-cased scheme, the host (possibly empty) and the path |
| UrlSyntax.ParseEmptyAuthority | crawler.go:37 | `scheme:///path` parses to an empty host and the path `/path`, as after a scheme `//` always opens an authority |
| UrlSyntax.ParseRelative | crawler.go:75 | a colon-free path not starting with `//`, with optional query or fragment, parses to that path with no scheme and no host |
| UrlSyntax.RenderParses | crawler.go:85 | a rendered well-formed URL parses back to itself |
| Html.FirstIndex | crawler.go:50 | the index found is the first selected element; none is found exactly when no element is selected |
| Html.GetH1 | crawler.go:45-52 | `""` when the page does not parse or has no `h1`; otherwise the text of the first `h1` in document order |
| Html.GetFirstParagraph | crawler.go:54-65 | `""` on a parse failure; with a `main` present, the text of the first `p` inside a `main`, or `""` when none is inside; with no `main`, the first `p` anywhere, or `""` |
| Html.RefOf | crawler.go:74-86 | an element contributes at most one URL, and contributes one exactly when it has the tag, carries the attribute, and the value parses; that URL is the rewrite of the value |
| Html.Refs | crawler.go:73-87 | no more references than elements |
| Html.RefsAppend | crawler.go:73-87 | the references of a concatenated page are the two lists concatenated: order and duplicates are kept |
| Html.RefsIgnoreOtherTags | crawler.go:73 | a page without the tag yields no references |
| Html.RefsComeFromElements | crawler.go:73-87 | every reference in the list is the contribution of some element of the page |
| Html.RefsIncludeElements | crawler.go:73-87 | every element with the tag whose attribute parses has its rewrite in the list |
| Html.CollectRefs | crawler.go:73-87 | the loop appends exactly the element-by-element reference list, at most one per element |
| Html.ExtractRefs | crawler.go:67-113 | `getURLsFromHTML` (`a`/`href`) and `getImagesFromHTML` (`img`/`src`): no list exactly when the page does not parse; otherwise exactly the element-by-element list, in document order with duplicates kept; every entry is the rewrite of some tagged element's attribute, every tagged element whose value parses has its rewrite in the list, and there are no more entries than elements |
| Pages.ExtractPageData | crawler.go:115-135 | the zero record when the page URL or the HTML does not parse; otherwise the URL verbatim, heading, first paragraph, and the `a href` and `img src` references rewritten against the page URL |
| Pages.AddPageVisit | crawler.go:167-178 | rejected exactly when the registry holds `maxPages` records or the key; a rejection changes nothing; an acceptance adds exactly the new key with its record, keeps every other record, and stays within `maxPages` |
| Pages.FirstRegistrationWins | crawler.go:173-176 | after a key is registered, a second visit with any record is rejected and the first record stays |
| Crawl.CrawlPage | crawler.go:180-210 | fetches exactly when the URL parses and is on the crawled host; registers exactly when it also fetches and the registry has room and lacks the key; otherwise the registry is unchanged and no link is spawned; a registration adds the extracted record and spawns its links |
| Crawl.Step | crawler.go:180-210 | running one pending task removes exactly that task from the pending multiset and adds one task per spawned link at the end; the registry becomes the task's; the fetch log grows by this URL exactly when it was fetched |
| Crawl.StepKeepsInv | crawler.go:180-210 | running any pending task keeps the cap, the key shape, each record matching its key, and every fetch on the host, and overwrites no record |
| Crawl.RunPicksKeepsInv | crawler.go:202-209 | under every order of running the spawned tasks, the invariant holds and no record is overwritten |
| Crawl.StepProgress | crawler.go:199-202 | each task either registers a record, using up room under the cap, or leaves the registry alone and shrinks the pending list |
| Crawl.Drain | main.go:38-44 | running tasks until none is pending ends with nothing pending |
| Crawl.DrainKeepsInv | main.go:38-44 | a run to completion keeps the invariant and overwrites no record |
| Crawl.DrainWhenFull | crawler.go:170-172 | once the registry holds `maxPages` records, nothing more is registered |
| Crawl.Run | main.go:24-44 | the crawl fails exactly when the seed does not parse; otherwise it ends with nothing pending |
| Crawl.RunInvariant | main.go:29-44 | a finished crawl has at most `max(maxPages, 0)` records, keys starting with the seed's host and `/`, records normalising to their own keys, and fetched only on-host URLs |
| Crawl.SeedFetchFailureLeavesNothing | crawler.go:193-197 | a seed whose fetch fails leaves an empty registry |
| Crawl.OffHostNeverFetched | crawler.go:186-188 | a URL on another host is never fetched, whatever the pages link to |
| Crawl.CapOneKeepsOnlySeed | crawler.go:170-172 | with a cap of one, a fetchable seed's record is the only record |
| Crawl.RunPicksWhenFull | crawler.go:170-172 | once the registry holds `maxPages` records, no order of running the pending tasks registers anything more |
| Crawl.SeedFetchFailureAnyOrder | crawler.go:193-197 | under every order, a seed whose fetch fails leaves an empty registry and nothing pending |
| Crawl.CapOneAnyOrder | crawler.go:170-172 | under every order, with a cap of one, a fetchable seed's record is the only record |
| Crawl.RegisteredKeyIsFetchedAgain | crawler.go:193-201 | a task whose key is already registered still fetches, then is rejected, leaving the registry as it was |
| Scenarios.NormalizeURLTestCases | crawler_test.go:9-49 | `scheme://host/seg`, with or without a trailing slash and any query or fragment, has the key `host/seg` |
| Scenarios.RootedRefStaysOnPageHost | crawler_test.go:151-170 | a rooted relative reference becomes the page's `scheme://host` + path, and that URL parses back onto the page's host |
| Scenarios.AbsoluteRefKept | crawler_test.go:130-149 | an absolute reference is kept as written on any page |
| Scenarios.UnrootedRefLeavesHost | crawler.go:79-85 | a reference without a leading `/` is glued to the host and names a different host |
| Scenarios.UnrootedLinkNotFollowed | crawler.go:186-188 | such a link is dropped as off-host and never fetched |
| Scenarios.H1TestCases | crawler_test.go:51-82 | an `h1`, nested or not, gives its text; an `h2` gives `""` |
| Scenarios.FirstParagraphTestCases | crawler_test.go:84-128 | the `main` paragraph wins over an earlier outer one; the first of two inside `main` wins; with no `main` the outer one is taken; a `main` without a paragraph gives `""` |
| Scenarios.ExtractPageDataTestCase | crawler_test.go:172-193 | the test page gives its URL, heading, paragraph, and the link and image rewritten onto the page's scheme and host |
| Scenarios.ExtractPageDataTestCaseParsed | crawler_test.go:172-193 | with the concrete URL parser: a well-formed page URL and rooted link and image references give the URL, heading, paragraph, and both references on the page's scheme and host |
| Scenarios.TwoPageCrawl | crawler.go:180-210 | a seed linking to one on-host page ends with exactly two records: the seed under `host/` and the linked page under `host/path` |
| Scenarios.TwoPageCrawlParsed | crawler.go:180-210 | with the concrete URL parser: the seed `scheme://host` linking to the rooted `ref` ends with exactly two records, under `host/` and under `host/` followed by `ref` without its edge slashes |

## Left out

- `getHTML` (crawler.go:137-165) is a fetch oracle `string -> Option<string>`. HTTP, the timeout, the status and content-type checks and the body read are not modelled; any error is `None`. The oracle is deterministic, so a URL fetched twice gives the same page.
- Goroutines, the concurrency semaphore and the `WaitGroup` are not modelled directly. The crawl is a worklist whose steps may run in any order (`RunPicks`), and one step is one atomic `addPageVisit`. With a concurrency limit of at least 1, the semaphore only limits how many tasks run at once; which records end up registered is covered by the any-order runs.
- `net/url.Parse` is abstract in the generic model. `UrlSyntax.Parse` is a reduced version for ASCII input: no percent-decoding, `RawPath`, or host/port validation (IPv6 brackets, port digits).
- goquery and its HTML parser are abstract: a page is its element list, with text content and `main` ancestry precomputed.
- `writeCSVRport` and the CSV report (crawler.go:212-235) are output only.
- `main.go` argument handling (argument counts, `strconv.Atoi` with errors ignored, `log.Fatalln`) is not modelled. The crawl takes the already parsed `maxPages`, including negative values.
- Logging is not modelled.
- The model assumes `maxConcurrency >= 1`. `main.go` ignores the `Atoi` error (main.go:22), so a non-numeric or zero limit gives an unbuffered channel (main.go:34). The seed goroutine's send (main.go:40) then never completes, `wg.Wait` never returns, and the Go runtime aborts with a deadlock. A negative limit makes `make` panic. `Crawl.Run` and `Crawl.Drain` promise a finished crawl, which the program delivers only for a limit of at least 1.
