/** `crawler.py` at the repository root: the first draft of the crawler with module globals.

    It differs from `crawler/crawler.py` in ways the model keeps: the count limit is 30 and
    has no "-1 means unlimited" case, `find_article_links` returns every same-site link
    without the visited filter, the page text comes from the extractor's own download (no
    `make_request`), `crawl` has no `try`, so an exception escaping the link search ends
    the whole crawl, and `main` falls through from the recursive crawl into the sitemap
    loop.  `is_allowed` and `scrape_url` are not defined in this file; they are oracles.
 */
module RootCrawler {
  import opened Common
  import opened Urls
  import opened Requester
  import opened Web
  import Robots
  import Sitemaps

  /** `MAX_CRAWL_COUNT`. */
  const MaxCrawlCount: int := 30
  const Retries: int := 5
  const DelayCeiling: real := 60.0
  /** `max_depth` in `main`. */
  const MainMaxDepth: int := 3

  /** The module globals and the sleep log; `raised` is set once an exception is propagating
      out of `crawl`, after which no more of the crawl runs. */
  datatype State = State(visited: set<string>, count: int, articles: seq<Document>, delay: real, sleeps: seq<real>, raised: bool)

  /** The globals at import time: the initial delay is 2 seconds. */
  const Initial: State := State({}, 0, [], 2.0, [], false)

  predicate InRange(delay: real) {
    1.0 <= delay <= DelayCeiling
  }

  predicate WellFormed(s: State) {
    && (forall i :: 0 <= i < |s.articles| ==> s.articles[i].url in s.visited)
    && (forall i, j :: 0 <= i < j < |s.articles| ==> s.articles[i].url != s.articles[j].url)
  }

  predicate Grows(s: State, t: State) {
    && s.visited <= t.visited
    && t.count - |t.visited| == s.count - |s.visited|
    && s.articles <= t.articles
    && s.sleeps <= t.sleeps
    && (InRange(s.delay) ==> InRange(t.delay))
    && (WellFormed(s) ==> WellFormed(t))
  }

  lemma GrowsTransitive(s: State, t: State, u: State)
    requires Grows(s, t) && Grows(t, u)
    ensures Grows(s, u)
  {
  }

  // ---------------------------------------------------------------------
  // find_article_links and one visit

  /** `find_article_links(url)`: like the package's version, but every same-site link is
      returned, visited or not.  None stands for an exception escaping `make_request`. */
  function SearchLinks(site: Site, s: State, url: string): (Option<seq<string>>, State) {
    var fetch := Retry(site.linkResponses(url), Retries, s.delay, 1);
    var s1 := s.(sleeps := s.sleeps + fetch.1);
    match fetch.0
    case Fetched(_) => (Some(Candidates(site, url)), s1.(delay := AfterSuccess(s1.delay)))
    case Exhausted => (Some([]), s1.(delay := AfterFailure(s1.delay, DelayCeiling)))
    case SleepRejected(_) => (None, s1)
  }

  /** The search keeps the globals other than the delay and the sleeps, appends its waits,
      keeps the delay in range, and returns all the page's candidate links or none. */
  lemma SearchLinksSpec(site: Site, s: State, url: string)
    ensures var (links, t) := SearchLinks(site, s, url);
      && t == s.(delay := t.delay, sleeps := t.sleeps)
      && s.sleeps <= t.sleeps
      && (InRange(s.delay) ==> InRange(t.delay))
      && (links.Some? ==> links.value == [] || links.value == Candidates(site, url))
  {
  }

  datatype Visit = Visit(state: State, links: seq<string>)

  /** Mark the page visited and count it, extract its text (empty text ends the visit), keep
      it, then search the page for links; an exception there starts propagating. */
  function VisitPage(site: Site, s: State, url: string): Visit {
    var s1 := s.(visited := s.visited + {url}, count := s.count + 1);
    if site.text(url) == "" then Visit(s1, [])
    else
      var s2 := s1.(articles := s1.articles + [Document(url, site.text(url))]);
      var found := SearchLinks(site, s2, url);
      match found.0
      case Some(links) => Visit(found.1, links)
      case None => Visit(found.1.(raised := true), [])
  }

  /** A visit counts the page once and appends at most its article; the links it returns are
      all the page's candidate links, with no visited filter, or none. */
  lemma VisitPageSpec(site: Site, s: State, url: string)
    ensures var v := VisitPage(site, s, url);
      && v.state.visited == s.visited + {url}
      && v.state.count == s.count + 1
      && s.sleeps <= v.state.sleeps
      && (InRange(s.delay) ==> InRange(v.state.delay))
      && (v.state.articles == s.articles || v.state.articles == s.articles + [Document(url, site.text(url))])
      && (v.links == [] || v.links == Candidates(site, url))
  {
    if site.text(url) != "" {
      var s1 := s.(visited := s.visited + {url}, count := s.count + 1);
      SearchLinksSpec(site, s1.(articles := s1.articles + [Document(url, site.text(url))]), url);
    }
  }

  lemma VisitPageGrows(site: Site, s: State, url: string)
    requires url !in s.visited
    ensures Grows(s, VisitPage(site, s, url).state)
  {
    var t := VisitPage(site, s, url).state;
    VisitPageSpec(site, s, url);
    VisitedOnce(s, t, url, site.text(url));
  }

  /** Marking an unvisited `url` visited, and storing at most its own document, keeps a
      state well formed and its count in step. */
  lemma VisitedOnce(s: State, t: State, url: string, text: string)
    requires url !in s.visited && t.visited == s.visited + {url} && t.count == s.count + 1
    requires t.articles == s.articles || t.articles == s.articles + [Document(url, text)]
    ensures t.count - |t.visited| == s.count - |s.visited|
    ensures WellFormed(s) ==> WellFormed(t)
  {
    assert |s.visited + {url}| == |s.visited| + 1;
    if WellFormed(s) && t.articles != s.articles {
      forall i, j | 0 <= i < j < |t.articles|
        ensures t.articles[i].url != t.articles[j].url
      {
        if j == |s.articles| {
          assert t.articles[i] == s.articles[i];
        }
      }
    }
  }

  // ---------------------------------------------------------------------
  // crawl(url, current_depth)

  /** The guard of `crawl`, with no unlimited case. */
  predicate Stops(maxDepth: int, s: State, url: string, depth: int) {
    depth > maxDepth || url in s.visited || s.count >= MaxCrawlCount
  }

  function Budget(maxDepth: int, depth: int): nat {
    if depth > maxDepth then 0 else maxDepth - depth + 1
  }

  /** `crawl(url, depth)` in a `crawl_website` whose `max_depth` is `maxDepth`;
      `site.canFetch` stands for `is_allowed(url, DEFAULT_USER_AGENT)`. */
  function Crawled(maxDepth: int, site: Site, s: State, url: string, depth: int): State
    decreases Budget(maxDepth, depth), 1, 0
  {
    if s.raised || Stops(maxDepth, s, url, depth) || !site.canFetch(url) then s
    else
      var v := VisitPage(site, s, url);
      CrawledLinks(maxDepth, site, v.state, v.links, depth)
  }

  /** The loop over the links: sleep for the global delay, then crawl the link one level
      deeper while the count is below the limit; a propagating exception ends the loop. */
  function CrawledLinks(maxDepth: int, site: Site, s: State, links: seq<string>, depth: int): State
    decreases Budget(maxDepth, depth + 1) + 1, 0, |links|
  {
    if links == [] || s.raised then s
    else if !SleepOk(s.delay) then s.(raised := true)
    else
      var s1 := s.(sleeps := s.sleeps + [s.delay]);
      var s2 := if s1.count < MaxCrawlCount then Crawled(maxDepth, site, s1, links[0], depth + 1) else s1;
      CrawledLinks(maxDepth, site, s2, links[1..], depth)
  }

  /** A crawl only grows the globals.  Without the visited filter, links already seen do come
      back, and it is the guard alone that keeps the articles distinct. */
  lemma {:induction false} CrawlGrows(maxDepth: int, site: Site, s: State, url: string, depth: int)
    ensures Grows(s, Crawled(maxDepth, site, s, url, depth))
    decreases Budget(maxDepth, depth), 1, 0
  {
    if !(s.raised || Stops(maxDepth, s, url, depth) || !site.canFetch(url)) {
      var v := VisitPage(site, s, url);
      VisitPageGrows(site, s, url);
      CrawlLinksGrow(maxDepth, site, v.state, v.links, depth);
      GrowsTransitive(s, v.state, Crawled(maxDepth, site, s, url, depth));
    }
  }

  lemma {:induction false} CrawlLinksGrow(maxDepth: int, site: Site, s: State, links: seq<string>, depth: int)
    ensures Grows(s, CrawledLinks(maxDepth, site, s, links, depth))
    decreases Budget(maxDepth, depth + 1) + 1, 0, |links|
  {
    if links != [] && !s.raised && SleepOk(s.delay) {
      var s1 := s.(sleeps := s.sleeps + [s.delay]);
      var s2 := if s1.count < MaxCrawlCount then Crawled(maxDepth, site, s1, links[0], depth + 1) else s1;
      assert Grows(s, s1);
      if s1.count < MaxCrawlCount {
        CrawlGrows(maxDepth, site, s1, links[0], depth + 1);
      }
      GrowsTransitive(s, s1, s2);
      CrawlLinksGrow(maxDepth, site, s2, links[1..], depth);
      GrowsTransitive(s, s2, CrawledLinks(maxDepth, site, s, links, depth));
    }
  }

  /** `crawl_count` never exceeds 30. */
  lemma {:induction false} CrawlCountBounded(maxDepth: int, site: Site, s: State, url: string, depth: int)
    requires s.count <= MaxCrawlCount
    ensures Crawled(maxDepth, site, s, url, depth).count <= MaxCrawlCount
    decreases Budget(maxDepth, depth), 1, 0
  {
    if !(s.raised || Stops(maxDepth, s, url, depth) || !site.canFetch(url)) {
      var v := VisitPage(site, s, url);
      CrawlLinksCountBounded(maxDepth, site, v.state, v.links, depth);
    }
  }

  lemma {:induction false} CrawlLinksCountBounded(maxDepth: int, site: Site, s: State, links: seq<string>, depth: int)
    requires s.count <= MaxCrawlCount
    ensures CrawledLinks(maxDepth, site, s, links, depth).count <= MaxCrawlCount
    decreases Budget(maxDepth, depth + 1) + 1, 0, |links|
  {
    if links != [] && !s.raised && SleepOk(s.delay) {
      var s1 := s.(sleeps := s.sleeps + [s.delay]);
      var s2 := if s1.count < MaxCrawlCount then Crawled(maxDepth, site, s1, links[0], depth + 1) else s1;
      if s1.count < MaxCrawlCount {
        CrawlCountBounded(maxDepth, site, s1, links[0], depth + 1);
      }
      CrawlLinksCountBounded(maxDepth, site, s2, links[1..], depth);
    }
  }

  /** An exception in the start page's link search (a Retry-After `time.sleep` refuses) ends the crawl:
      no link is followed and the exception reaches `crawl_website`'s caller. */
  lemma SearchFailureEndsCrawl(maxDepth: int, site: Site, s: State, url: string, depth: int)
    requires !(s.raised || Stops(maxDepth, s, url, depth) || !site.canFetch(url)) && site.text(url) != ""
    requires Retry(site.linkResponses(url), Retries, s.delay, 1).0.SleepRejected?
    ensures Crawled(maxDepth, site, s, url, depth).raised
    ensures Crawled(maxDepth, site, s, url, depth).visited == s.visited + {url}
  {
  }

  /** A link back to a visited page, which this draft's search does return, changes nothing. */
  lemma VisitedLinkSkipped(maxDepth: int, site: Site, s: State, url: string, depth: int)
    requires url in s.visited
    ensures Crawled(maxDepth, site, s, url, depth) == s
  {
  }

  /** `crawl_website(start_url, depth)`: `max_depth` is the `depth` argument and the crawl starts at depth 0. */
  function WebsiteCrawled(site: Site, s: State, startUrl: string, depth: int): State {
    Crawled(depth, site, s, startUrl, 0)
  }

  // ---------------------------------------------------------------------
  // main

  /** How `main` ends. */
  datatype MainEnd =
    | CrawlRaised       // an exception escaped `crawl_website`
    | UnboundLocal      // `articles_content` is read in `main` before any assignment to it
    | NothingScraped    // the last scrape gave None: "No articles were scraped"
    | Finished

  /** The sitemap loop: each URL robots.txt allows (or every URL, without a parser) is slept
      on and scraped, and `main`'s local `articles_content` is overwritten with the result.
      `last` is that local variable, None while it is unassigned. */
  function SitemapLoop(s: State, robots: bool, canFetch: string -> bool, scrape: string -> Option<Document>,
                       urls: seq<string>, last: Option<Option<Document>>): (State, Option<Option<Document>>)
    requires SleepOk(s.delay)
    decreases |urls|
  {
    if urls == [] then (s, last)
    else if Admitted(robots, canFetch, urls[0]) then
      SitemapLoop(s.(sleeps := s.sleeps + [s.delay]), robots, canFetch, scrape, urls[1..], Some(scrape(urls[0])))
    else SitemapLoop(s, robots, canFetch, scrape, urls[1..], last)
  }

  function Ending(last: Option<Option<Document>>): MainEnd {
    match last
    case None => UnboundLocal
    case Some(doc) => if doc.None? then NothingScraped else Finished
  }

  /** `order` is the order in which `main` walks the set `fetch_and_parse_sitemaps` returns
      for the sitemaps listed in the start URL's robots.txt (`get` answers the robots.txt
      request, `fetch` the sitemap requests). */
  predicate SitemapOrder(get: string -> Robots.RobotsFetch, fetch: string -> Sitemaps.SitemapFetch, startUrl: string, order: seq<string>) {
    Enumerates(order, Sitemaps.Gathered(fetch, Robots.SiteRobots(get, startUrl).1, Sitemaps.DefaultMaxDepth, 0))
  }

  /** `main()`: read robots.txt (`canFetch` is the test of the parser built from it); with
      no sitemap, the recursive crawl to depth 3, after which the code falls through to the
      loop over `fetch_and_parse_sitemaps([])`, which is empty; with sitemaps, the loop over
      their URLs. */
  function MainRun(site: Site, s: State, startUrl: string, get: string -> Robots.RobotsFetch,
                   fetch: string -> Sitemaps.SitemapFetch, order: seq<string>,
                   canFetch: string -> bool, scrape: string -> Option<Document>): (State, MainEnd)
    requires SleepOk(s.delay)
    requires SitemapOrder(get, fetch, startUrl, order)
  {
    var robots := Robots.SiteRobots(get, startUrl);
    if robots.1 == [] then
      var t := WebsiteCrawled(site, s, startUrl, MainMaxDepth);
      (t, if t.raised then CrawlRaised else UnboundLocal)
    else
      var r := SitemapLoop(s, robots.0.Some?, canFetch, scrape, order, None);
      (r.0, Ending(r.1))
  }

  predicate Admitted(robots: bool, canFetch: string -> bool, url: string) {
    !robots || canFetch(url)
  }

  /** The loop keeps only the result of the last URL it admitted (the earlier results are
      overwritten), keeps `last` when it admits none, and changes no global but the sleeps. */
  lemma {:induction false} SitemapLoopKeepsLast(s: State, robots: bool, canFetch: string -> bool, scrape: string -> Option<Document>,
                                                urls: seq<string>, last: Option<Option<Document>>)
    requires SleepOk(s.delay)
    ensures var r := SitemapLoop(s, robots, canFetch, scrape, urls, last);
      && (forall i :: (0 <= i < |urls| && Admitted(robots, canFetch, urls[i])
                       && (forall j :: i < j < |urls| ==> !Admitted(robots, canFetch, urls[j])))
                      ==> r.1 == Some(scrape(urls[i])))
      && ((forall i :: 0 <= i < |urls| ==> !Admitted(robots, canFetch, urls[i])) ==> r.1 == last)
      && r.0 == s.(sleeps := r.0.sleeps)
    decreases |urls|
  {
    if urls != [] {
      var admitted := Admitted(robots, canFetch, urls[0]);
      var next := if admitted then Some(scrape(urls[0])) else last;
      var s1 := if admitted then s.(sleeps := s.sleeps + [s.delay]) else s;
      SitemapLoopKeepsLast(s1, robots, canFetch, scrape, urls[1..], next);
      var r := SitemapLoop(s, robots, canFetch, scrape, urls, last);
      forall i | 0 <= i < |urls| && Admitted(robots, canFetch, urls[i])
          && (forall j :: i < j < |urls| ==> !Admitted(robots, canFetch, urls[j]))
        ensures r.1 == Some(scrape(urls[i]))
      {
        if i == 0 {
          assert forall j :: 0 <= j < |urls[1..]| ==> urls[1..][j] == urls[j + 1];
        } else {
          assert urls[1..][i - 1] == urls[i];
          assert forall j :: i - 1 < j < |urls[1..]| ==> urls[1..][j] == urls[j + 1];
        }
      }
      if forall i :: 0 <= i < |urls| ==> !Admitted(robots, canFetch, urls[i]) {
        assert forall j :: 0 <= j < |urls[1..]| ==> urls[1..][j] == urls[j + 1];
      }
    }
  }

  /** In recursive mode `main` never ends normally: the sitemap loop that follows the crawl
      walks `fetch_and_parse_sitemaps([])`, which is empty, so after a crawl that did not
      raise `articles_content` is unassigned and the final test raises. */
  lemma RecursiveModeEndsUnbound(site: Site, s: State, startUrl: string, get: string -> Robots.RobotsFetch,
                                 fetch: string -> Sitemaps.SitemapFetch, order: seq<string>,
                                 canFetch: string -> bool, scrape: string -> Option<Document>)
    requires SleepOk(s.delay) && SitemapOrder(get, fetch, startUrl, order)
    requires Robots.SiteRobots(get, startUrl).1 == []
    ensures MainRun(site, s, startUrl, get, fetch, order, canFetch, scrape).1 in {CrawlRaised, UnboundLocal}
    ensures MainRun(site, s, startUrl, get, fetch, order, canFetch, scrape).0 == WebsiteCrawled(site, s, startUrl, MainMaxDepth)
  {
  }

  /** The loop leaves `articles_content` unassigned exactly when it was unassigned before
      and the loop admits no URL. */
  lemma {:induction false} SitemapLoopAssigns(s: State, robots: bool, canFetch: string -> bool, scrape: string -> Option<Document>,
                                              urls: seq<string>, last: Option<Option<Document>>)
    requires SleepOk(s.delay)
    ensures SitemapLoop(s, robots, canFetch, scrape, urls, last).1.None?
        <==> last.None? && forall i :: 0 <= i < |urls| ==> !Admitted(robots, canFetch, urls[i])
    decreases |urls|
  {
    if urls != [] {
      if Admitted(robots, canFetch, urls[0]) {
        SitemapLoopAssigns(s.(sleeps := s.sleeps + [s.delay]), robots, canFetch, scrape, urls[1..], Some(scrape(urls[0])));
      } else {
        SitemapLoopAssigns(s, robots, canFetch, scrape, urls[1..], last);
        assert forall i :: 0 < i < |urls| ==> urls[i] == urls[1..][i - 1];
      }
    }
  }

  /** The sitemap loop leaves `articles_content` unassigned exactly when it admits no URL. */
  lemma SitemapLoopUnassigned(s: State, robots: bool, canFetch: string -> bool, scrape: string -> Option<Document>, urls: seq<string>)
    requires SleepOk(s.delay)
    ensures (Ending(SitemapLoop(s, robots, canFetch, scrape, urls, None).1) == UnboundLocal)
        <==> (forall i :: 0 <= i < |urls| ==> !Admitted(robots, canFetch, urls[i]))
  {
    SitemapLoopAssigns(s, robots, canFetch, scrape, urls, None);
  }

  /** A URL of the set is allowed exactly when one in its order is. */
  lemma EnumeratedForbidden(order: seq<string>, urls: set<string>, canFetch: string -> bool)
    requires Enumerates(order, urls)
    ensures (forall u :: u in urls ==> !canFetch(u)) <==> (forall i :: 0 <= i < |order| ==> !canFetch(order[i]))
  {
    if exists i :: 0 <= i < |order| && canFetch(order[i]) {
      var i :| 0 <= i < |order| && canFetch(order[i]);
      assert order[i] in urls;
    }
  }

  /** With sitemaps listed, `main` ends in UnboundLocalError exactly when robots.txt forbids
      every URL of the sitemaps (a parser was built, since robots.txt was read). */
  lemma SitemapModeUnboundIffAllForbidden(site: Site, s: State, startUrl: string, get: string -> Robots.RobotsFetch,
                                          fetch: string -> Sitemaps.SitemapFetch, order: seq<string>,
                                          canFetch: string -> bool, scrape: string -> Option<Document>)
    requires SleepOk(s.delay) && SitemapOrder(get, fetch, startUrl, order)
    requires Robots.SiteRobots(get, startUrl).1 != []
    ensures var urls := Sitemaps.Gathered(fetch, Robots.SiteRobots(get, startUrl).1, Sitemaps.DefaultMaxDepth, 0);
      (MainRun(site, s, startUrl, get, fetch, order, canFetch, scrape).1 == UnboundLocal) <==> (forall u :: u in urls ==> !canFetch(u))
  {
    var robots := Robots.SiteRobots(get, startUrl);
    SitemapLoopUnassigned(s, true, canFetch, scrape, order);
    EnumeratedForbidden(order, Sitemaps.Gathered(fetch, robots.1, Sitemaps.DefaultMaxDepth, 0), canFetch);
  }

  // ---------------------------------------------------------------------
  // The module's globals as an object

  class Crawler {
    var visited: set<string>
    var crawlCount: int
    var articlesContent: seq<Document>
    var delay: real
    var sleeps: seq<real>

    function Snapshot(raised: bool): State
      reads this
    {
      State(visited, crawlCount, articlesContent, delay, sleeps, raised)
    }

    constructor ()
      ensures Snapshot(false) == Initial
    {
      visited := {};
      crawlCount := 0;
      articlesContent := [];
      delay := 2.0;
      sleeps := [];
    }

    /** `find_article_links(url)`; `raised` reports an exception escaping it. */
    method FindArticleLinks(site: Site, url: string) returns (links: seq<string>, raised: bool)
      modifies this
      ensures (if raised then None else Some(links), Snapshot(false)) == SearchLinks(site, old(Snapshot(false)), url)
    {
      var outcome, waits := MakeRequest(site.linkResponses(url), Retries, delay);
      sleeps := sleeps + waits;
      match outcome
      case Fetched(_) =>
        delay := AfterSuccess(delay);
        links := CollectLinks(BaseUrl(url), site.hrefs(url), {});
        raised := false;
      case Exhausted =>
        delay := AfterFailure(delay, DelayCeiling);
        links, raised := [], false;
      case SleepRejected(_) =>
        links, raised := [], true;
    }

    /** The body of `crawl` from `visited.add(url)` to `find_article_links(url)`. */
    method Enter(site: Site, url: string) returns (links: seq<string>, raised: bool)
      modifies this
      ensures Visit(Snapshot(raised), links) == VisitPage(site, old(Snapshot(false)), url)
    {
      ghost var s0 := Snapshot(false);
      visited := visited + {url};
      crawlCount := crawlCount + 1;
      if site.text(url) == "" {
        return [], false;
      }
      articlesContent := articlesContent + [Document(url, site.text(url))];
      ghost var s2 := Snapshot(false);
      assert s2 == s0.(visited := s0.visited + {url}, count := s0.count + 1).(articles := s0.articles + [Document(url, site.text(url))]);
      links, raised := FindArticleLinks(site, url);
      ghost var found := SearchLinks(site, s2, url);
      if raised {
        links := [];
        assert found == (None, Snapshot(false));
      } else {
        assert found == (Some(links), Snapshot(false));
      }
    }

    /** `crawl(url, current_depth)`; `raised` reports an exception escaping it. */
    method Crawl(maxDepth: int, site: Site, url: string, depth: int) returns (raised: bool)
      modifies this
      ensures Snapshot(raised) == Crawled(maxDepth, site, old(Snapshot(false)), url, depth)
      decreases Budget(maxDepth, depth), 1
    {
      if Stops(maxDepth, Snapshot(false), url, depth) || !site.canFetch(url) {
        return false;
      }
      var links;
      links, raised := Enter(site, url);
      if raised {
        assert links == [];
        return;
      }
      raised := CrawlLinks(maxDepth, site, links, depth);
    }

    /** The `for link in links` loop of `crawl`. */
    method CrawlLinks(maxDepth: int, site: Site, links: seq<string>, depth: int) returns (raised: bool)
      modifies this
      ensures Snapshot(raised) == CrawledLinks(maxDepth, site, old(Snapshot(false)), links, depth)
      decreases Budget(maxDepth, depth + 1) + 1, 0
    {
      ghost var start := Snapshot(false);
      raised := false;
      for i := 0 to |links|
        invariant !raised
        invariant CrawledLinks(maxDepth, site, Snapshot(false), links[i..], depth) == CrawledLinks(maxDepth, site, start, links, depth)
      {
        assert links[i..][1..] == links[i + 1..];
        if !SleepOk(delay) {
          return true;
        }
        sleeps := sleeps + [delay];
        if crawlCount < MaxCrawlCount {
          raised := Crawl(maxDepth, site, links[i], depth + 1);
          if raised {
            assert links[i + 1..] == [] || CrawledLinks(maxDepth, site, Snapshot(true), links[i + 1..], depth) == Snapshot(true);
            return;
          }
        }
      }
      assert links[|links|..] == [];
    }

    /** `crawl_website(start_url, depth)`. */
    method CrawlWebsite(site: Site, startUrl: string, depth: int) returns (raised: bool)
      modifies this
      ensures Snapshot(raised) == WebsiteCrawled(site, old(Snapshot(false)), startUrl, depth)
    {
      raised := Crawl(depth, site, startUrl, 0);
    }

    /** `main()`: `get` answers the robots.txt request and `fetch` the sitemap requests;
        `order` is the order in which the loop walks the set of sitemap URLs, `canFetch` the
        test of the robots.txt parser and `scrape` the `scrape_url` call. */
    method RunMain(site: Site, startUrl: string, get: string -> Robots.RobotsFetch,
                   fetch: string -> Sitemaps.SitemapFetch, order: seq<string>,
                   canFetch: string -> bool, scrape: string -> Option<Document>) returns (end: MainEnd)
      requires SleepOk(delay)
      requires SitemapOrder(get, fetch, startUrl, order)
      modifies this
      ensures var r := MainRun(site, old(Snapshot(false)), startUrl, get, fetch, order, canFetch, scrape);
        Snapshot(r.0.raised) == r.0 && end == r.1
    {
      var rp, sitemapUrls := Robots.FetchAndParseRobotsTxt(get, BaseUrl(startUrl));
      if sitemapUrls == [] {
        var raised := CrawlWebsite(site, startUrl, MainMaxDepth);
        if raised {
          return CrawlRaised;
        }
        return UnboundLocal;
      }
      var urlsToCrawl := Sitemaps.FetchAndParseSitemaps(fetch, sitemapUrls, Sitemaps.DefaultMaxDepth, 0);
      assert Enumerates(order, urlsToCrawl);
      var articles := ScrapeAll(rp.Some?, canFetch, scrape, order);
      end := Ending(articles);
    }

    /** The `for url in urls_to_crawl` loop of `main`, walking the set in `urls`' order:
        `articles_content` is unassigned (None) until an admitted URL is scraped. */
    method ScrapeAll(robots: bool, canFetch: string -> bool, scrape: string -> Option<Document>, urls: seq<string>)
      returns (articles: Option<Option<Document>>)
      requires SleepOk(delay)
      modifies this
      ensures (Snapshot(false), articles) == SitemapLoop(old(Snapshot(false)), robots, canFetch, scrape, urls, None)
    {
      articles := None;
      ghost var start := Snapshot(false);
      for i := 0 to |urls|
        invariant delay == start.delay
        invariant SitemapLoop(Snapshot(false), robots, canFetch, scrape, urls[i..], articles)
               == SitemapLoop(start, robots, canFetch, scrape, urls, None)
      {
        assert urls[i..][1..] == urls[i + 1..];
        var url := urls[i];
        if !robots || canFetch(url) {
          sleeps := sleeps + [delay];
          articles := Some(scrape(url));
        }
      }
      assert urls[|urls|..] == [];
    }
  }
}
