/** `crawler/scraper.py`: `scrape_url`, `is_allowed` and the recursive `crawl_website`
    built on `crawler/requester.py`.

    Unlike the crawler with module globals, this `crawl` receives `crawl_count` and `delay`
    by value: a child sees its parent's incremented count and the delay that the parent's
    link search produced, and nothing a child does flows back.  What is shared is the
    caller's `visited` set, the `articles` list of `crawl_website` and the sleeps, the
    fields of a `Scraper` object here.
 */
module Scraper {
  import opened Common
  import opened Urls
  import opened Requester
  import opened Web
  import opened Robots

  /** `config.MAX_CRAWL_COUNT`. */
  const MaxCrawlCount: int := 30

  /** The limits `crawl_website` works with (`max_depth`, MAX_CRAWL_COUNT) and whether a
      robots parser was passed. */
  datatype Config = Config(maxDepth: int, maxCount: int, robots: bool)

  /** The shared state: the caller's visited set, the article list and the sleep log. */
  datatype State = State(visited: set<string>, articles: seq<Document>, sleeps: seq<real>)

  /** Every article is a visited page, and no page is collected twice. */
  predicate WellFormed(s: State) {
    && (forall i :: 0 <= i < |s.articles| ==> s.articles[i].url in s.visited)
    && (forall i, j :: 0 <= i < j < |s.articles| ==> s.articles[i].url != s.articles[j].url)
  }

  /** What a crawl may do to the shared state. */
  predicate Grows(s: State, t: State) {
    && s.visited <= t.visited
    && s.articles <= t.articles
    && s.sleeps <= t.sleeps
    && (WellFormed(s) ==> WellFormed(t))
  }

  lemma GrowsTransitive(s: State, t: State, u: State)
    requires Grows(s, t) && Grows(t, u)
    ensures Grows(s, u)
  {
  }

  // ---------------------------------------------------------------------
  // is_allowed and scrape_url

  /** `is_allowed(url)`: `read(robots_url)` is None when reading robots.txt raises, and
      otherwise the parsed file's `can_fetch` test. */
  function IsAllowed(read: string -> Option<string -> bool>, url: string): bool {
    match read(RobotsUrl(BaseUrl(url)))
    case None => true
    case Some(canFetch) => canFetch(url)
  }

  /** The check fails open: when the robots.txt of a site cannot be read, every URL of that
      site (same scheme and network location) is allowed; when it can, a URL of the site is
      denied exactly when the parsed file forbids it. */
  lemma IsAllowedFailsOpen(read: string -> Option<string -> bool>, u: string, v: string)
    requires Scheme(u) == Scheme(v) && Netloc(u) == Netloc(v)
    ensures read(RobotsUrl(BaseUrl(u))).None? ==> IsAllowed(read, v)
    ensures read(RobotsUrl(BaseUrl(u))).Some? ==> (IsAllowed(read, v) <==> read(RobotsUrl(BaseUrl(u))).value(v))
  {
    SameSiteSameRobots(u, v);
  }

  /** For a scheme `urljoin` resolves against, the file consulted is the URL's base URL
      followed by `/robots.txt`. */
  lemma IsAllowedReadsSiteRobots(read: string -> Option<string -> bool>, url: string)
    requires Scheme(url) != "" && UsesRelative(Scheme(url))
    ensures var file := BaseUrl(url) + RobotsPath;
      IsAllowed(read, url) <==> read(file).None? || read(file).value(url)
  {
    RobotsUrlOfPage(url);
  }

  /** `scrape_url(url, headers, pause)`: sleep (a pause `time.sleep` refuses raises before the `try`),
      then fetch with `make_request` and extract; any exception or empty text gives None. */
  function Scraped(site: Site, s: State, url: string, pause: real): (Option<Document>, State)
    requires SleepOk(pause)
  {
    var page := Retry(site.pageResponses(url), MaxRetries, MinDelay, 1);
    var t := s.(sleeps := s.sleeps + [pause] + page.1);
    if page.0.Fetched? && site.text(url) != "" then (Some(Document(url, site.text(url))), t) else (None, t)
  }

  /** The page's document exactly when a 200 arrives within MAX_RETRIES attempts and the text
      is not empty; the fetch's waits follow the pause, and nothing else changes. */
  lemma ScrapedSpec(site: Site, s: State, url: string, pause: real)
    requires SleepOk(pause)
    ensures var r := Scraped(site, s, url, pause);
      && (r.0.Some? <==> (exists k :: Retry(site.pageResponses(url), MaxRetries, MinDelay, 1).0 == Fetched(k)) && site.text(url) != "")
      && (r.0.Some? ==> r.0.value == Document(url, site.text(url)) && r.0.value.content != "")
      && r.1.visited == s.visited && r.1.articles == s.articles
      && r.1.sleeps == s.sleeps + [pause] + Retry(site.pageResponses(url), MaxRetries, MinDelay, 1).1
  {
    var fetch := Retry(site.pageResponses(url), MaxRetries, MinDelay, 1);
    if fetch.0.Fetched? {
      assert fetch.0 == Fetched(fetch.0.attempt);
    }
  }

  // ---------------------------------------------------------------------
  // crawl(url, current_depth, crawl_count, delay)

  /** The globals after `crawl` has passed its guards, the links it walks and the delay its
      link search returned. */
  datatype Visit = Visit(state: State, links: seq<string>, delay: real)

  /** `visited.add(url)`, fetch the page (an exception ends the visit), keep its text, then
      `find_article_links(url, visited, delay)`; an exception there ends the visit too. */
  function VisitPage(site: Site, s: State, url: string, delay: real): Visit {
    var s1 := s.(visited := s.visited + {url});
    var page := Retry(site.pageResponses(url), MaxRetries, MinDelay, 1);
    var s2 := s1.(sleeps := s1.sleeps + page.1);
    if !page.0.Fetched? || site.text(url) == "" then Visit(s2, [], delay)
    else
      var s3 := s2.(articles := s2.articles + [Document(url, site.text(url))]);
      var search := ArticleSearch(site.linkResponses(url), url, site.hrefs(url), s3.visited, delay);
      var s4 := s3.(sleeps := s3.sleeps + search.1);
      match search.0
      case Links(links, next) => Visit(s4, links, next)
      case Raised => Visit(s4, [], delay)
  }

  /** A visit adds the page to `visited`, appends at most its own article, and returns
      unvisited candidate links together with a delay of at least 1 when there are any. */
  lemma VisitPageSpec(site: Site, s: State, url: string, delay: real)
    ensures var v := VisitPage(site, s, url, delay);
      && v.state.visited == s.visited + {url}
      && s.sleeps <= v.state.sleeps
      && (v.state.articles == s.articles || v.state.articles == s.articles + [Document(url, site.text(url))])
      && (v.links != [] ==> v.delay >= 1.0)
  {
  }

  lemma VisitPageGrows(site: Site, s: State, url: string, delay: real)
    requires url !in s.visited
    ensures Grows(s, VisitPage(site, s, url, delay).state)
  {
    var t := VisitPage(site, s, url, delay).state;
    VisitPageSpec(site, s, url, delay);
    if WellFormed(s) && t.articles != s.articles {
      forall i, j | 0 <= i < j < |t.articles|
        ensures t.articles[i].url != t.articles[j].url
      {
        if j == |s.articles| {
          assert t.articles[i] == s.articles[i];
        }
      }
    }
  }

  lemma VisitPageLinks(site: Site, s: State, url: string, delay: real)
    ensures var v := VisitPage(site, s, url, delay);
      forall l :: l in v.links ==> l !in v.state.visited && l in Candidates(site, url)
  {
    var v := VisitPage(site, s, url, delay);
    var page := Retry(site.pageResponses(url), MaxRetries, MinDelay, 1);
    if page.0.Fetched? && site.text(url) != "" {
      var visited := s.visited + {url};
      ArticleSearchSound(site.linkResponses(url), url, site.hrefs(url), visited, delay);
      assert v.state.visited == visited;
    } else {
      assert v.links == [];
    }
  }

  /** The guard of `crawl`. */
  predicate Stops(cfg: Config, s: State, url: string, depth: int, count: int) {
    depth > cfg.maxDepth || url in s.visited || (count >= cfg.maxCount && cfg.maxCount != -1)
  }

  predicate Blocked(cfg: Config, site: Site, url: string) {
    cfg.robots && !site.canFetch(url)
  }

  /** The test before each recursive call. */
  predicate MayDescend(cfg: Config, count: int) {
    count <= cfg.maxCount || cfg.maxCount == -1
  }

  function Budget(cfg: Config, depth: int): nat {
    if depth > cfg.maxDepth then 0 else cfg.maxDepth - depth + 1
  }

  /** `crawl(url, depth, count, delay)`: the shared state afterwards. */
  function Crawled(cfg: Config, site: Site, s: State, url: string, depth: int, count: int, delay: real): State
    decreases Budget(cfg, depth), 1, 0
  {
    if Stops(cfg, s, url, depth, count) || Blocked(cfg, site, url) then s
    else
      var v := VisitPage(site, s, url, delay);
      CrawledLinks(cfg, site, v.state, v.links, depth, count + 1, v.delay)
  }

  /** The loop over the links at `depth`: sleep for the delay the search returned, then crawl
      the link one level deeper with this call's count and delay.  A delay `time.sleep` refuses would
      make it raise and end the loop; the search returns one with links only for a caller
      delay above 2 * `MaxSleep`. */
  function CrawledLinks(cfg: Config, site: Site, s: State, links: seq<string>, depth: int, count: int, delay: real): State
    decreases Budget(cfg, depth + 1) + 1, 0, |links|
  {
    if links == [] || !SleepOk(delay) then s
    else
      var s1 := s.(sleeps := s.sleeps + [delay]);
      var s2 := if MayDescend(cfg, count) then Crawled(cfg, site, s1, links[0], depth + 1, count, delay) else s1;
      CrawledLinks(cfg, site, s2, links[1..], depth, count, delay)
  }

  /** A crawl only grows the shared state, and articles stay distinct visited pages. */
  lemma {:induction false} CrawlGrows(cfg: Config, site: Site, s: State, url: string, depth: int, count: int, delay: real)
    ensures Grows(s, Crawled(cfg, site, s, url, depth, count, delay))
    decreases Budget(cfg, depth), 1, 0
  {
    if !(Stops(cfg, s, url, depth, count) || Blocked(cfg, site, url)) {
      var v := VisitPage(site, s, url, delay);
      VisitPageGrows(site, s, url, delay);
      CrawlLinksGrow(cfg, site, v.state, v.links, depth, count + 1, v.delay);
      GrowsTransitive(s, v.state, Crawled(cfg, site, s, url, depth, count, delay));
    }
  }

  lemma {:induction false} CrawlLinksGrow(cfg: Config, site: Site, s: State, links: seq<string>, depth: int, count: int, delay: real)
    ensures Grows(s, CrawledLinks(cfg, site, s, links, depth, count, delay))
    decreases Budget(cfg, depth + 1) + 1, 0, |links|
  {
    if links != [] && SleepOk(delay) {
      var s1 := s.(sleeps := s.sleeps + [delay]);
      var s2 := if MayDescend(cfg, count) then Crawled(cfg, site, s1, links[0], depth + 1, count, delay) else s1;
      assert Grows(s, s1);
      if MayDescend(cfg, count) {
        CrawlGrows(cfg, site, s1, links[0], depth + 1, count, delay);
      }
      GrowsTransitive(s, s1, s2);
      CrawlLinksGrow(cfg, site, s2, links[1..], depth, count, delay);
      GrowsTransitive(s, s2, CrawledLinks(cfg, site, s, links, depth, count, delay));
    }
  }

  /** How many more levels a crawl at `depth` with count `count` may visit: the depth limit,
      and, with a count limit, the count, which grows by one per level of the call path. */
  function Horizon(cfg: Config, depth: int, count: int): int {
    if cfg.maxCount == -1 || cfg.maxDepth - depth <= cfg.maxCount - count - 1 then cfg.maxDepth - depth
    else cfg.maxCount - count - 1
  }

  /** The count bounds the length of the call path, not the number of pages: every page
      visited lies within `Horizon` link steps of the start. */
  lemma {:induction false} CrawlWithinReach(cfg: Config, site: Site, s: State, url: string, depth: int, count: int, delay: real)
    ensures Crawled(cfg, site, s, url, depth, count, delay).visited <= s.visited + Reachable(site, url, Horizon(cfg, depth, count))
    decreases Budget(cfg, depth), 1, 0
  {
    if !(Stops(cfg, s, url, depth, count) || Blocked(cfg, site, url)) {
      var v := VisitPage(site, s, url, delay);
      VisitPageSpec(site, s, url, delay);
      VisitPageLinks(site, s, url, delay);
      var n := Horizon(cfg, depth, count);
      CrawlLinksWithinReach(cfg, site, v.state, v.links, depth, count + 1, v.delay);
      assert Horizon(cfg, depth + 1, count + 1) == n - 1;
      forall x | x in ReachableAll(site, v.links, n - 1)
        ensures x in Reachable(site, url, n)
      {
        var l :| l in v.links && x in Reachable(site, l, n - 1);
        assert l in Candidates(site, url);
      }
    }
  }

  lemma {:induction false} CrawlLinksWithinReach(cfg: Config, site: Site, s: State, links: seq<string>, depth: int, count: int, delay: real)
    ensures CrawledLinks(cfg, site, s, links, depth, count, delay).visited
         <= s.visited + ReachableAll(site, links, Horizon(cfg, depth + 1, count))
    decreases Budget(cfg, depth + 1) + 1, 0, |links|
  {
    if links != [] && SleepOk(delay) {
      var n := Horizon(cfg, depth + 1, count);
      var s1 := s.(sleeps := s.sleeps + [delay]);
      var s2 := if MayDescend(cfg, count) then Crawled(cfg, site, s1, links[0], depth + 1, count, delay) else s1;
      if MayDescend(cfg, count) {
        CrawlWithinReach(cfg, site, s1, links[0], depth + 1, count, delay);
      }
      ReachableAllCons(site, links, n);
      CrawlLinksWithinReach(cfg, site, s2, links[1..], depth, count, delay);
    }
  }

  /** A crawl its guards turn away changes nothing: beyond `max_depth`, at a visited URL, at
      the count limit (unless it is -1), or at a URL robots.txt forbids, which stays unvisited. */
  lemma CrawlSkipped(cfg: Config, site: Site, s: State, url: string, depth: int, count: int, delay: real)
    requires depth > cfg.maxDepth || url in s.visited || (count >= cfg.maxCount && cfg.maxCount != -1)
             || (cfg.robots && !site.canFetch(url))
    ensures Crawled(cfg, site, s, url, depth, count, delay) == s
  {
  }

  /** A crawl that passes the depth and count guards visits its URL unless robots.txt forbids it. */
  lemma CrawlVisitsOrBlocks(cfg: Config, site: Site, s: State, url: string, depth: int, count: int, delay: real)
    requires depth <= cfg.maxDepth && (count < cfg.maxCount || cfg.maxCount == -1)
    ensures url in Crawled(cfg, site, s, url, depth, count, delay).visited || Blocked(cfg, site, url)
  {
    if Stops(cfg, s, url, depth, count) || Blocked(cfg, site, url) {
      CrawlSkipped(cfg, site, s, url, depth, count, delay);
    } else {
      CrawlAdmittedVisits(cfg, site, s, url, depth, count, delay);
    }
  }

  /** A crawl its guards let through leaves its URL visited. */
  lemma CrawlAdmittedVisits(cfg: Config, site: Site, s: State, url: string, depth: int, count: int, delay: real)
    requires !(Stops(cfg, s, url, depth, count) || Blocked(cfg, site, url))
    ensures url in Crawled(cfg, site, s, url, depth, count, delay).visited
  {
    var v := VisitPage(site, s, url, delay);
    VisitPageSpec(site, s, url, delay);
    CrawlLinksGrow(cfg, site, v.state, v.links, depth, count + 1, v.delay);
    var t := CrawledLinks(cfg, site, v.state, v.links, depth, count + 1, v.delay);
    assert Crawled(cfg, site, s, url, depth, count, delay) == t;
    assert url in v.state.visited && v.state.visited <= t.visited;
  }

  /** Siblings all see the same count, so the limit does not cap the number of pages: while
      the count passed down is below the limit, every link of the loop gets visited (or is
      forbidden by robots.txt), however many there are. */
  lemma {:induction false} SiblingsAllVisited(cfg: Config, site: Site, s: State, links: seq<string>, depth: int, count: int, delay: real)
    requires depth < cfg.maxDepth && SleepOk(delay) && (count < cfg.maxCount || cfg.maxCount == -1)
    ensures forall l :: l in links ==> l in CrawledLinks(cfg, site, s, links, depth, count, delay).visited || Blocked(cfg, site, l)
    decreases |links|
  {
    if links != [] {
      var s1 := s.(sleeps := s.sleeps + [delay]);
      var s2 := Crawled(cfg, site, s1, links[0], depth + 1, count, delay);
      CrawlVisitsOrBlocks(cfg, site, s1, links[0], depth + 1, count, delay);
      SiblingsAllVisited(cfg, site, s2, links[1..], depth, count, delay);
      CrawlLinksGrow(cfg, site, s2, links[1..], depth, count, delay);
      forall l | l in links
        ensures l in CrawledLinks(cfg, site, s, links, depth, count, delay).visited || Blocked(cfg, site, l)
      {
        if l != links[0] {
          assert l in links[1..];
        }
      }
    }
  }

  // ---------------------------------------------------------------------
  // The extractor as imported

  /* `scrape_url` and `crawl` call `extract_main_content(html_content, url)`, but the
     `extractor` module they import defines `extract_main_content(url)` with a single
     parameter.  The call raises TypeError after the page has been fetched, and the
     `except Exception` of each function catches it.  The members below are the code as
     written; `Scraped`, `VisitPage` and `Crawled` above are what it evidently intends,
     the extracted text of the fetched page. */

  /** `scrape_url` as written: the pause and the fetch happen, then the extractor call
      raises and None is returned. */
  function ScrapedAsWritten(site: Site, s: State, url: string, pause: real): (Option<Document>, State)
    requires SleepOk(pause)
  {
    var page := Retry(site.pageResponses(url), MaxRetries, MinDelay, 1);
    (None, s.(sleeps := s.sleeps + [pause] + page.1))
  }

  /** As written, `scrape_url` never returns a document, and it loses exactly the documents
      the intended version returns; the waits are the same. */
  lemma ScrapedAsWrittenNone(site: Site, s: State, url: string, pause: real)
    requires SleepOk(pause)
    ensures var r := ScrapedAsWritten(site, s, url, pause);
      && r.0 == None
      && r.1 == Scraped(site, s, url, pause).1
      && (Scraped(site, s, url, pause).0.Some? ==> r.0 != Scraped(site, s, url, pause).0)
  {
  }

  /** The visit of `crawl` as written: `visited.add(url)` and the fetch, then the extractor
      call raises before the article is stored and before `find_article_links`. */
  function VisitPageAsWritten(site: Site, s: State, url: string, delay: real): Visit {
    var s1 := s.(visited := s.visited + {url});
    var page := Retry(site.pageResponses(url), MaxRetries, MinDelay, 1);
    Visit(s1.(sleeps := s1.sleeps + page.1), [], delay)
  }

  /** `crawl` as written: the guards, then a visit that returns no links, so the loop over
      links never runs. */
  function CrawledAsWritten(cfg: Config, site: Site, s: State, url: string, depth: int, count: int, delay: real): State {
    if Stops(cfg, s, url, depth, count) || Blocked(cfg, site, url) then s
    else VisitPageAsWritten(site, s, url, delay).state
  }

  /** As written, `crawl_website` collects no article and visits no page but its start. */
  lemma CrawlAsWrittenCollectsNothing(cfg: Config, site: Site, s: State, url: string, depth: int, count: int, delay: real)
    ensures var t := CrawledAsWritten(cfg, site, s, url, depth, count, delay);
      t.articles == s.articles && t.visited <= s.visited + {url} && s.sleeps <= t.sleeps
  {
  }

  /** A crawl whose start page is admitted, downloads and has text collects that page. */
  lemma CrawlCollectsStartPage(cfg: Config, site: Site, s: State, url: string, depth: int, count: int, delay: real)
    requires !(Stops(cfg, s, url, depth, count) || Blocked(cfg, site, url))
    requires Retry(site.pageResponses(url), MaxRetries, MinDelay, 1).0.Fetched? && site.text(url) != ""
    ensures Document(url, site.text(url)) in Crawled(cfg, site, s, url, depth, count, delay).articles
  {
    var v := VisitPage(site, s, url, delay);
    assert v.state.articles == s.articles + [Document(url, site.text(url))];
    CrawlLinksGrow(cfg, site, v.state, v.links, depth, count + 1, v.delay);
    assert v.state.articles[|s.articles|] == Document(url, site.text(url));
  }

  /** Where the start page is admitted, downloads and has text, the intended crawl collects
      it and the crawl as written does not. */
  lemma CrawlAsWrittenLosesArticle(cfg: Config, site: Site, s: State, url: string, depth: int, count: int, delay: real)
    requires WellFormed(s)
    requires !(Stops(cfg, s, url, depth, count) || Blocked(cfg, site, url))
    requires Retry(site.pageResponses(url), MaxRetries, MinDelay, 1).0.Fetched? && site.text(url) != ""
    ensures Document(url, site.text(url)) in Crawled(cfg, site, s, url, depth, count, delay).articles
    ensures Document(url, site.text(url)) !in CrawledAsWritten(cfg, site, s, url, depth, count, delay).articles
  {
    CrawlCollectsStartPage(cfg, site, s, url, depth, count, delay);
  }

  // ---------------------------------------------------------------------
  // The shared state as an object

  class Scraper {
    var visited: set<string>
    var articles: seq<Document>
    var sleeps: seq<real>

    function Snapshot(): State
      reads this
    {
      State(visited, articles, sleeps)
    }

    /** A caller's `visited` set, no articles and no sleeps yet. */
    constructor (visited0: set<string>)
      ensures Snapshot() == State(visited0, [], [])
    {
      visited := visited0;
      articles := [];
      sleeps := [];
    }

    /** `make_request(url)` of `crawler/requester.py`. */
    method Fetch(responses: Responses) returns (outcome: RequestOutcome)
      modifies this
      ensures outcome == Retry(responses, MaxRetries, MinDelay, 1).0
      ensures Snapshot() == old(Snapshot()).(sleeps := old(sleeps) + Retry(responses, MaxRetries, MinDelay, 1).1)
    {
      var waits;
      outcome, waits := MakeRequest(responses, MaxRetries, MinDelay);
      sleeps := sleeps + waits;
    }

    /** `scrape_url(url, headers, pause)`. */
    method ScrapeUrl(site: Site, url: string, pause: real) returns (doc: Option<Document>)
      requires SleepOk(pause)
      modifies this
      ensures (doc, Snapshot()) == Scraped(site, old(Snapshot()), url, pause)
    {
      sleeps := sleeps + [pause];
      var page := Fetch(site.pageResponses(url));
      if page.Fetched? && site.text(url) != "" {
        doc := Some(Document(url, site.text(url)));
      } else {
        doc := None;
      }
    }

    /** The body of `crawl` from `visited.add(url)` to `find_article_links`. */
    method Enter(site: Site, url: string, delay: real) returns (links: seq<string>, next: real)
      modifies this
      ensures Visit(Snapshot(), links, next) == VisitPage(site, old(Snapshot()), url, delay)
    {
      visited := visited + {url};
      var page := Fetch(site.pageResponses(url));
      if !page.Fetched? || site.text(url) == "" {
        return [], delay;
      }
      articles := articles + [Document(url, site.text(url))];
      var result, waits := FindArticleLinks(site.linkResponses(url), url, site.hrefs(url), visited, delay);
      sleeps := sleeps + waits;
      match result
      case Links(found, d) =>
        links, next := found, d;
      case Raised =>
        links, next := [], delay;
    }

    /** `crawl(url, current_depth, crawl_count, delay)`. */
    method Crawl(cfg: Config, site: Site, url: string, depth: int, count: int, delay: real)
      modifies this
      ensures Snapshot() == Crawled(cfg, site, old(Snapshot()), url, depth, count, delay)
      decreases Budget(cfg, depth), 1
    {
      if Stops(cfg, Snapshot(), url, depth, count) || Blocked(cfg, site, url) {
        return;
      }
      var links, next := Enter(site, url, delay);
      CrawlLinks(cfg, site, links, depth, count + 1, next);
    }

    /** The `for link in links` loop of `crawl`. */
    method CrawlLinks(cfg: Config, site: Site, links: seq<string>, depth: int, count: int, delay: real)
      modifies this
      ensures Snapshot() == CrawledLinks(cfg, site, old(Snapshot()), links, depth, count, delay)
      decreases Budget(cfg, depth + 1) + 1, 0
    {
      ghost var start := Snapshot();
      for i := 0 to |links|
        invariant CrawledLinks(cfg, site, Snapshot(), links[i..], depth, count, delay)
               == CrawledLinks(cfg, site, start, links, depth, count, delay)
      {
        assert links[i..][1..] == links[i + 1..];
        if !SleepOk(delay) {
          return;
        }
        sleeps := sleeps + [delay];
        if count <= cfg.maxCount || cfg.maxCount == -1 {
          Crawl(cfg, site, links[i], depth + 1, count, delay);
        }
      }
      assert links[|links|..] == [];
    }

    /** `crawl_website(start_url, visited, robots_parser, depth, max_depth, headers,
        crawl_count, delay)`: a fresh article list, one crawl, and the articles it collected. */
    method CrawlWebsite(cfg: Config, site: Site, startUrl: string, depth: int, count: int, delay: real)
      returns (collected: seq<Document>)
      modifies this
      ensures Snapshot() == Crawled(cfg, site, old(Snapshot()).(articles := []), startUrl, depth, count, delay)
      ensures collected == articles
    {
      articles := [];
      Crawl(cfg, site, startUrl, depth, count, delay);
      collected := articles;
    }
  }

  /** The articles `crawl_website` returns are distinct pages, all of them in `visited`. */
  lemma CrawlWebsiteArticles(cfg: Config, site: Site, visited: set<string>, sleeps: seq<real>, startUrl: string, depth: int, count: int, delay: real)
    ensures var t := Crawled(cfg, site, State(visited, [], sleeps), startUrl, depth, count, delay);
      && visited <= t.visited
      && (forall i :: 0 <= i < |t.articles| ==> t.articles[i].url in t.visited)
      && (forall i, j :: 0 <= i < j < |t.articles| ==> t.articles[i].url != t.articles[j].url)
  {
    CrawlGrows(cfg, site, State(visited, [], sleeps), startUrl, depth, count, delay);
  }
}
