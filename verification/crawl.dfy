/** The crawl engine (`Config.CrawlPage`, crawler.go:180-210) as a sequential worklist. In the
    program every task runs in its own goroutine, but the only shared state is the registry and
    every access to it is one mutex-guarded `addPageVisit`; so each task is modelled as one
    atomic step taken at its registration point, and a run may take the pending tasks in any
    order. */
module Crawl {
  import opened Wrappers
  import opened Urls
  import opened Html
  import opened Pages

  /** The outside world the engine calls into: the URL parser, the HTML parser and the page
      fetcher (`getHTML`; `None` is any fetch error). */
  datatype World = World(parse: Parser, parseHtml: HtmlParser, fetch: string -> Option<string>)

  /** The fixed part of `Config` (crawler.go:19-26): the seed's host and the page cap. */
  datatype Config = Config(baseHost: string, maxPages: int)

  /** How one task ends. */
  datatype Outcome = BadUrl | OffHost | BadKey | FetchFailed | Rejected | Registered

  /** What one task does: how it ended, the registry afterwards, the links it spawns tasks
      for, and whether it fetched its URL. */
  datatype Task = Task(outcome: Outcome, pages: Registry, children: seq<string>, fetched: bool)

  /** The task runs to registration: its URL parses and is on the crawled host, it fetches,
      and the registry has room and lacks its key. */
  predicate Registers(w: World, cfg: Config, pages: Registry, raw: string)
  {
    && w.parse(raw).Some?
    && w.parse(raw).value.host == cfg.baseHost
    && w.fetch(raw).Some?
    && |pages| < cfg.maxPages
    && Key(w.parse(raw).value) !in pages
  }

  /** `Config.CrawlPage` (crawler.go:180-210) for the URL `raw`: parse, host check, normalise,
      fetch, extract, register, and spawn one task per outgoing link only if registered. */
  function CrawlPage(w: World, cfg: Config, pages: Registry, raw: string): (t: Task)
    ensures t.fetched <==> w.parse(raw).Some? && w.parse(raw).value.host == cfg.baseHost
    ensures t.outcome == Registered <==> Registers(w, cfg, pages, raw)
    ensures t.outcome != Registered ==> t.pages == pages && t.children == []
    ensures t.outcome == Registered ==>
      var key := Key(w.parse(raw).value);
      var data := ExtractPageData(w.parse, w.parseHtml, w.fetch(raw).value, raw);
      && t.pages == pages[key := data]
      && t.children == data.outgoingLinks
  {
    match w.parse(raw)
    case None => Task(BadUrl, pages, [], false)
    case Some(u) =>
      if cfg.baseHost != u.host then Task(OffHost, pages, [], false)
      else
        match NormalizeURL(w.parse, raw)
        case Err(_) => Task(BadKey, pages, [], false)
        case Ok(key) =>
          match w.fetch(raw)
          case None => Task(FetchFailed, pages, [], true)
          case Some(html) =>
            var data := ExtractPageData(w.parse, w.parseHtml, html, raw);
            var v := AddPageVisit(pages, cfg.maxPages, key, data);
            if v.rejected then Task(Rejected, pages, [], true)
            else Task(Registered, v.pages, data.outgoingLinks, true)
  }

  /** The engine's state: the registry, the URLs whose tasks are spawned but not yet run, and
      every URL fetched so far, in order. */
  datatype State = State(pages: Registry, pending: seq<string>, fetched: seq<string>)

  /** Runs the pending task at position `i` (crawler.go:180-210): the task leaves the pending
      list, one new task joins per link it spawns and nothing else is lost or added, the
      registry becomes the task's, and the fetch log grows by this URL exactly when it was
      fetched. */
  function Step(w: World, cfg: Config, st: State, i: nat): (r: State)
    requires i < |st.pending|
    ensures
      var t := CrawlPage(w, cfg, st.pages, st.pending[i]);
      && multiset(r.pending) == multiset(st.pending) - multiset{st.pending[i]} + multiset(t.children)
      && |r.pending| == |st.pending| - 1 + |t.children|
      && r.pending[|r.pending| - |t.children|..] == t.children
      && r.pages == t.pages
      && st.fetched <= r.fetched
      && (|r.fetched| == |st.fetched| + 1 <==> t.fetched)
      && (forall j :: |st.fetched| <= j < |r.fetched| ==> r.fetched[j] == st.pending[i])
  {
    var raw := st.pending[i];
    var t := CrawlPage(w, cfg, st.pages, raw);
    var rest := st.pending[..i] + st.pending[i + 1..];
    RemoveAt(st.pending, i);
    AppendParts(rest, t.children);
    State(t.pages, rest + t.children, st.fetched + (if t.fetched then [raw] else []))
  }

  /** Taking out position `i` takes one copy of `s[i]` out of the multiset. */
  lemma RemoveAt(s: seq<string>, i: nat)
    requires i < |s|
    ensures multiset(s[..i] + s[i + 1..]) == multiset(s) - multiset{s[i]}
  {
    assert s == s[..i] + [s[i]] + s[i + 1..];
  }

  lemma AppendParts(a: seq<string>, b: seq<string>)
    ensures multiset(a + b) == multiset(a) + multiset(b)
    ensures (a + b)[|a + b| - |b|..] == b
  {
  }

  /** The cap as a count: a negative `maxPages` admits nothing. */
  function Cap(cfg: Config): nat
  {
    if cfg.maxPages < 0 then 0 else cfg.maxPages
  }

  /** The key starts with the crawled host and a `/`. */
  predicate KeyOnHost(k: string, host: string)
  {
    |host| < |k| && k[..|host| + 1] == host + "/"
  }

  /** The record under key `k` belongs there: it is the zero record (the page did not parse) or
      its URL is on the crawled host and normalises to `k`. */
  predicate RecordMatchesKey(w: World, cfg: Config, k: string, d: PageData)
  {
    || d == ZeroPage
    || (&& w.parse(d.url).Some?
        && w.parse(d.url).value.host == cfg.baseHost
        && NormalizeURL(w.parse, d.url) == Ok(k))
  }

  /** Only URLs on the crawled host join the fetch log. */
  predicate FetchedOnHost(w: World, cfg: Config, fetched: seq<string>)
  {
    forall j :: 0 <= j < |fetched| ==> w.parse(fetched[j]).Some? && w.parse(fetched[j]).value.host == cfg.baseHost
  }

  /** The crawl invariant: the registry within the cap, every key on the crawled host, every
      record matching its key, and every fetched URL on the crawled host. */
  predicate Inv(w: World, cfg: Config, st: State)
  {
    && |st.pages| <= Cap(cfg)
    && (forall k :: k in st.pages ==> KeyOnHost(k, cfg.baseHost))
    && (forall k :: k in st.pages ==> RecordMatchesKey(w, cfg, k, st.pages[k]))
    && FetchedOnHost(w, cfg, st.fetched)
  }

  /** Registered records are never changed or removed. */
  predicate Extends(before: Registry, after: Registry)
  {
    forall k :: k in before ==> k in after && after[k] == before[k]
  }

  /** One step keeps the invariant and never overwrites a registered record. */
  lemma StepKeepsInv(w: World, cfg: Config, st: State, i: nat)
    requires i < |st.pending|
    requires Inv(w, cfg, st)
    ensures Inv(w, cfg, Step(w, cfg, st, i))
    ensures Extends(st.pages, Step(w, cfg, st, i).pages)
  {
    var raw := st.pending[i];
    var t := CrawlPage(w, cfg, st.pages, raw);
    var r := Step(w, cfg, st, i);
    if t.outcome == Registered {
      var u := w.parse(raw).value;
      var key := Key(u);
      var data := ExtractPageData(w.parse, w.parseHtml, w.fetch(raw).value, raw);
      assert NormalizeURL(w.parse, raw) == Ok(key);
      assert KeyOnHost(key, cfg.baseHost);
      assert RecordMatchesKey(w, cfg, key, data);
    }
    StepFetchesOnHost(w, cfg, st, i);
  }

  lemma StepFetchesOnHost(w: World, cfg: Config, st: State, i: nat)
    requires i < |st.pending|
    requires FetchedOnHost(w, cfg, st.fetched)
    ensures FetchedOnHost(w, cfg, Step(w, cfg, st, i).fetched)
  {
    var r := Step(w, cfg, st, i);
    var t := CrawlPage(w, cfg, st.pages, st.pending[i]);
    forall j | 0 <= j < |r.fetched|
      ensures w.parse(r.fetched[j]).Some? && w.parse(r.fetched[j]).value.host == cfg.baseHost
    {
      if j < |st.fetched| {
        assert r.fetched[j] == st.fetched[j];
      } else {
        assert t.fetched && r.fetched[j] == st.pending[i];
      }
    }
  }

  /** A run that takes the pending tasks in any order: `picks[n]` chooses (modulo the pending
      count) which task runs at step `n`. It stops when the picks or the tasks run out. */
  function RunPicks(w: World, cfg: Config, st: State, picks: seq<nat>): State
    decreases |picks|
  {
    if picks == [] || st.pending == [] then st
    else RunPicks(w, cfg, Step(w, cfg, st, picks[0] % |st.pending|), picks[1..])
  }

  /** Under every schedule the invariant holds throughout and no record is ever overwritten. */
  lemma {:induction false} RunPicksKeepsInv(w: World, cfg: Config, st: State, picks: seq<nat>)
    requires Inv(w, cfg, st)
    ensures Inv(w, cfg, RunPicks(w, cfg, st, picks))
    ensures Extends(st.pages, RunPicks(w, cfg, st, picks).pages)
    decreases |picks|
  {
    if picks != [] && st.pending != [] {
      var st' := Step(w, cfg, st, picks[0] % |st.pending|);
      StepKeepsInv(w, cfg, st, picks[0] % |st.pending|);
      RunPicksKeepsInv(w, cfg, st', picks[1..]);
    }
  }

  /** Room left under the cap. */
  function Headroom(cfg: Config, pages: Registry): nat
  {
    if |pages| >= cfg.maxPages then 0 else cfg.maxPages - |pages|
  }

  /** Each step either registers one record (using up room under the cap) or leaves the
      registry alone and shortens the pending list: this is why a crawl always ends. */
  lemma StepProgress(w: World, cfg: Config, st: State, i: nat)
    requires i < |st.pending|
    ensures
      var r := Step(w, cfg, st, i);
      || (r.pages == st.pages && |r.pending| == |st.pending| - 1)
      || Headroom(cfg, r.pages) < Headroom(cfg, st.pages)
  {
    var t := CrawlPage(w, cfg, st.pages, st.pending[i]);
    if t.outcome == Registered {
      var u := w.parse(st.pending[i]).value;
      assert Key(u) !in st.pages;
      assert |t.pages| == |st.pages| + 1;
    }
  }

  /** Runs pending tasks, first in first out, until none is left: the wait group's `Wait`
      (main.go:44). Terminates without a step bound: each step uses up room under the cap or
      removes a task. */
  function Drain(w: World, cfg: Config, st: State): (r: State)
    ensures r.pending == []
    decreases Headroom(cfg, st.pages), |st.pending|
  {
    if st.pending == [] then st
    else
      StepProgress(w, cfg, st, 0);
      Drain(w, cfg, Step(w, cfg, st, 0))
  }

  lemma DrainUnfold(w: World, cfg: Config, st: State)
    ensures st.pending == [] ==> Drain(w, cfg, st) == st
    ensures st.pending != [] ==> Drain(w, cfg, st) == Drain(w, cfg, Step(w, cfg, st, 0))
  {
  }

  /** Draining keeps the invariant and never overwrites a record. */
  lemma {:induction false} DrainKeepsInv(w: World, cfg: Config, st: State)
    requires Inv(w, cfg, st)
    ensures Inv(w, cfg, Drain(w, cfg, st))
    ensures Extends(st.pages, Drain(w, cfg, st).pages)
    decreases Headroom(cfg, st.pages), |st.pending|
  {
    if st.pending != [] {
      StepKeepsInv(w, cfg, st, 0);
      StepProgress(w, cfg, st, 0);
      DrainKeepsInv(w, cfg, Step(w, cfg, st, 0));
    }
  }

  /** Once the registry is full, draining changes nothing in it. */
  lemma {:induction false} DrainWhenFull(w: World, cfg: Config, st: State)
    requires |st.pages| >= cfg.maxPages
    ensures Drain(w, cfg, st).pages == st.pages
    decreases |st.pending|
  {
    if st.pending != [] {
      StepProgress(w, cfg, st, 0);
      DrainWhenFull(w, cfg, Step(w, cfg, st, 0));
    }
  }

  /** The state the crawl starts from: one task for the seed. */
  function Start(seed: string): State
  {
    State(map[], [seed], [])
  }

  /** A whole crawl (main.go:24-44): fails when the seed does not parse; otherwise it crawls the
      seed's host from the seed until no task is left and returns the final state. */
  function Run(w: World, seed: string, maxPages: int): (r: Option<State>)
    ensures r.None? <==> w.parse(seed).None?
    ensures r.Some? ==> r.value.pending == []
  {
    match w.parse(seed)
    case None => None
    case Some(u) => Some(Drain(w, Config(u.host, maxPages), Start(seed)))
  }

  /** The global properties of a finished crawl: at most `max(maxPages, 0)` records, every key
      on the seed's host, every record normalising to its own key (so no two records share one),
      and nothing off the seed's host ever fetched. */
  lemma RunInvariant(w: World, seed: string, maxPages: int)
    requires w.parse(seed).Some?
    ensures
      var cfg := Config(w.parse(seed).value.host, maxPages);
      Inv(w, cfg, Run(w, seed, maxPages).value)
  {
    var cfg := Config(w.parse(seed).value.host, maxPages);
    DrainKeepsInv(w, cfg, Start(seed));
  }

  /** A seed whose fetch fails leaves the registry empty, and the crawl still finishes. */
  lemma SeedFetchFailureLeavesNothing(w: World, seed: string, maxPages: int)
    requires w.parse(seed).Some? && w.fetch(seed).None?
    ensures Run(w, seed, maxPages).value.pages == map[]
  {
    var cfg := Config(w.parse(seed).value.host, maxPages);
    var st := Start(seed);
    var st1 := Step(w, cfg, st, 0);
    assert st1.pending == [] && st1.pages == map[];
    assert Drain(w, cfg, st) == Drain(w, cfg, st1) == st1;
  }

  /** A link off the seed's host is never fetched, whatever the pages link to. */
  lemma OffHostNeverFetched(w: World, seed: string, maxPages: int, link: string)
    requires w.parse(seed).Some? && w.parse(link).Some?
    requires w.parse(link).value.host != w.parse(seed).value.host
    ensures link !in Run(w, seed, maxPages).value.fetched
  {
    RunInvariant(w, seed, maxPages);
  }

  /** With a cap of one, a fetchable seed is the only record, whatever it links to. */
  lemma CapOneKeepsOnlySeed(w: World, seed: string)
    requires w.parse(seed).Some? && w.fetch(seed).Some?
    ensures
      var key := Key(w.parse(seed).value);
      Run(w, seed, 1).value.pages == map[key := ExtractPageData(w.parse, w.parseHtml, w.fetch(seed).value, seed)]
  {
    var cfg := Config(w.parse(seed).value.host, 1);
    var st := Start(seed);
    var st1 := Step(w, cfg, st, 0);
    assert Registers(w, cfg, st.pages, seed);
    DrainWhenFull(w, cfg, st1);
  }

  /** Once the registry is full, no schedule registers anything more. */
  lemma {:induction false} RunPicksWhenFull(w: World, cfg: Config, st: State, picks: seq<nat>)
    requires |st.pages| >= cfg.maxPages
    ensures RunPicks(w, cfg, st, picks).pages == st.pages
    decreases |picks|
  {
    if picks != [] && st.pending != [] {
      var i := picks[0] % |st.pending|;
      assert !Registers(w, cfg, st.pages, st.pending[i]);
      RunPicksWhenFull(w, cfg, Step(w, cfg, st, i), picks[1..]);
    }
  }

  /** `SeedFetchFailureLeavesNothing` under every schedule: the seed's task is the only one, and
      once it fails nothing is left to run. */
  lemma SeedFetchFailureAnyOrder(w: World, seed: string, maxPages: int, picks: seq<nat>)
    requires w.parse(seed).Some? && w.fetch(seed).None?
    ensures
      var r := RunPicks(w, Config(w.parse(seed).value.host, maxPages), Start(seed), picks);
      && r.pages == map[]
      && (picks != [] ==> r.pending == [])
  {
    var cfg := Config(w.parse(seed).value.host, maxPages);
    var st := Start(seed);
    if picks != [] {
      var st1 := Step(w, cfg, st, picks[0] % 1);
      assert st1.pending == [] && st1.pages == map[];
    }
  }

  /** `CapOneKeepsOnlySeed` under every schedule: once the seed's task has run, its record is the
      only one, whichever spawned tasks run next and in whatever order. */
  lemma CapOneAnyOrder(w: World, seed: string, picks: seq<nat>)
    requires w.parse(seed).Some? && w.fetch(seed).Some? && picks != []
    ensures
      var key := Key(w.parse(seed).value);
      RunPicks(w, Config(w.parse(seed).value.host, 1), Start(seed), picks).pages
        == map[key := ExtractPageData(w.parse, w.parseHtml, w.fetch(seed).value, seed)]
  {
    var cfg := Config(w.parse(seed).value.host, 1);
    var st := Start(seed);
    var st1 := Step(w, cfg, st, picks[0] % 1);
    assert Registers(w, cfg, st.pages, seed);
    RunPicksWhenFull(w, cfg, st1, picks[1..]);
  }

  /** The fetch comes before the duplicate check: a task for an already registered key fetches
      its URL again, then is rejected, leaving the registry as it was and spawning nothing. */
  lemma RegisteredKeyIsFetchedAgain(w: World, cfg: Config, st: State, i: nat)
    requires i < |st.pending|
    requires w.parse(st.pending[i]).Some? && w.parse(st.pending[i]).value.host == cfg.baseHost
    requires w.fetch(st.pending[i]).Some?
    requires Key(w.parse(st.pending[i]).value) in st.pages
    ensures Step(w, cfg, st, i).fetched == st.fetched + [st.pending[i]]
    ensures Step(w, cfg, st, i).pages == st.pages
    ensures |Step(w, cfg, st, i).pending| == |st.pending| - 1
  {
  }
}
