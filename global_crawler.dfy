/** `crawler/crawler.py`: the crawler that keeps its state in module globals
    (`crawl_count`, `visited`, `articles_content`, `delay`), here the fields of a
    `Crawler` object.  `crawl_website`'s nested `crawl` is the recursive method
    `Crawler.Crawl`, proved equal to the specification function `Crawled`; `main`
    chooses between that recursive crawl and scraping the URLs of the sitemaps.

    The web is an oracle (`Site`): for each URL, what the requests of the page fetch
    and of the link search produce, the text `extract_main_content` extracts, the
    hrefs of the page's `<a>` tags and the robots.txt verdict.  Sleeps are recorded
    in a log instead of being slept.
 */
module GlobalCrawler {
  import opened Common
  import opened Urls
  import opened Requester
  import opened Web
  import Robots
  import Sitemaps

  /** `MAX_CRAWL_COUNT`: -1 is documented as "no limit". */
  const MaxCrawlCount: int := -1
  /** `make_request`'s default `max_retries`. */
  const Retries: int := 5
  /** The ceiling of the delay after a failed link search. */
  const DelayCeiling: real := 60.0
  /** `max_depth` in `main`. */
  const MainMaxDepth: int := 3

  /** The test that guards the recursive call for each link. */
  datatype ChildTest =
    | AsWritten  // `crawl_count < MAX_CRAWL_COUNT`
    | Intended   // the same limit as the guard at the top of `crawl`, where -1 means no limit

  /** The arguments of `crawl_website` and the crawl limits. */
  datatype Config = Config(maxDepth: int, maxCount: int, pause: real, robots: bool, childTest: ChildTest)

  /** The module globals, and the log of every sleep in order. */
  datatype State = State(visited: set<string>, count: int, articles: seq<Option<Document>>, delay: real, sleeps: seq<real>)

  /** The globals at import time. */
  const Initial: State := State({}, 0, [], 1.0, [])

  predicate InRange(delay: real) {
    1.0 <= delay <= DelayCeiling
  }

  /** Every collected article is a visited page, and no page is collected twice. */
  predicate WellFormed(s: State) {
    && (forall i :: 0 <= i < |s.articles| && s.articles[i].Some? ==> s.articles[i].value.url in s.visited)
    && (forall i, j :: 0 <= i < j < |s.articles| && s.articles[i].Some? && s.articles[j].Some? ==>
          s.articles[i].value.url != s.articles[j].value.url)
  }

  /** What a crawl may do to the globals: visit new pages, counting each once, append
      articles and sleeps, and keep the delay and the article list well formed. */
  predicate Grows(s: State, t: State) {
    && s.visited <= t.visited
    && t.count - |t.visited| == s.count - |s.visited|
    && s.articles <= t.articles
    && s.sleeps <= t.sleeps
    && (InRange(s.delay) ==> InRange(t.delay))
    && (WellFormed(s) ==> WellFormed(t))
  }

  lemma GrowsTransitive(s: State, t: State, u: State)
    requires Grows(s, t) && Grows(t, u)
    ensures Grows(s, u)
  {
  }

  // ---------------------------------------------------------------------
  // find_article_links and one visit

  /** `find_article_links(url)`: the links found (None when an exception other than HTTPError
      escapes `make_request`) and the globals after it.  The fetch backs off from the global
      delay; success halves the delay down to 1, HTTPError doubles it up to 60 and gives no links. */
  function SearchLinks(site: Site, s: State, url: string): (Option<seq<string>>, State) {
    var fetch := Retry(site.linkResponses(url), Retries, s.delay, 1);
    var s1 := s.(sleeps := s.sleeps + fetch.1);
    match fetch.0
    case Fetched(_) => (Some(ArticleLinks(BaseUrl(url), site.hrefs(url), s1.visited)), s1.(delay := AfterSuccess(s1.delay)))
    case Exhausted => (Some([]), s1.(delay := AfterFailure(s1.delay, DelayCeiling)))
    case SleepRejected(_) => (None, s1)
  }

  /** A search keeps `visited`, and the links it finds are unvisited links of the page. */
  lemma SearchLinksSound(site: Site, s: State, url: string)
    ensures var r := SearchLinks(site, s, url);
      && r.1.visited == s.visited
      && (r.0.Some? ==> forall l :: l in r.0.value ==> l !in s.visited && l in Candidates(site, url))
  {
    ArticleLinksSound(BaseUrl(url), site.hrefs(url), s.visited);
    ArticleLinksAntitone(BaseUrl(url), site.hrefs(url), {}, s.visited);
  }

  /** The globals after `crawl` has passed its two guards, and the links its loop walks. */
  datatype Visit = Visit(state: State, links: seq<string>)

  /** Mark the page visited and count it, fetch it (any exception ends the visit), keep its
      text when there is some, then search it for links; a failed search leaves no links. */
  function VisitPage(site: Site, s: State, url: string): Visit {
    var s1 := s.(visited := s.visited + {url}, count := s.count + 1);
    var page := Retry(site.pageResponses(url), Retries, s1.delay, 1);
    var s2 := s1.(sleeps := s1.sleeps + page.1);
    if !page.0.Fetched? || site.text(url) == "" then Visit(s2, [])
    else
      var s3 := s2.(articles := s2.articles + [Some(Document(url, site.text(url)))]);
      var found := SearchLinks(site, s3, url);
      Visit(found.1, if found.0.Some? then found.0.value else [])
  }

  /** A visit counts the page, adds it to `visited` and appends at most its own article. */
  lemma VisitPageShape(site: Site, s: State, url: string)
    ensures var v := VisitPage(site, s, url);
      && v.state.visited == s.visited + {url}
      && v.state.count == s.count + 1
      && s.sleeps <= v.state.sleeps
      && (InRange(s.delay) ==> InRange(v.state.delay))
      && (v.state.articles == s.articles || (site.text(url) != "" && v.state.articles == s.articles + [Some(Document(url, site.text(url)))]))
  {
  }

  /** Visiting a page not yet visited grows the globals. */
  lemma VisitPageGrows(site: Site, s: State, url: string)
    requires url !in s.visited
    ensures Grows(s, VisitPage(site, s, url).state)
  {
    var t := VisitPage(site, s, url).state;
    VisitPageShape(site, s, url);
    assert |s.visited + {url}| == |s.visited| + 1;
    if WellFormed(s) && t.articles != s.articles {
      forall i, j | 0 <= i < j < |t.articles| && t.articles[i].Some? && t.articles[j].Some?
        ensures t.articles[i].value.url != t.articles[j].value.url
      {
        if j == |s.articles| {
          assert t.articles[i] == s.articles[i];
        }
      }
    }
  }

  /** The links a visit returns are unvisited candidate links of the page. */
  lemma VisitPageLinks(site: Site, s: State, url: string)
    ensures var v := VisitPage(site, s, url);
      forall l :: l in v.links ==> l !in v.state.visited && l in Candidates(site, url)
  {
    var v := VisitPage(site, s, url);
    var s1 := s.(visited := s.visited + {url}, count := s.count + 1);
    var page := Retry(site.pageResponses(url), Retries, s1.delay, 1);
    if page.0.Fetched? && site.text(url) != "" {
      var s3 := s1.(sleeps := s1.sleeps + page.1, articles := s1.articles + [Some(Document(url, site.text(url)))]);
      SearchLinksSound(site, s3, url);
      assert v.state.visited == s3.visited;
    } else {
      assert v.links == [];
    }
  }

  // ---------------------------------------------------------------------
  // crawl(url, current_depth)

  /** The first guard of `crawl`: too deep, already visited, or the count limit reached. */
  predicate Stops(cfg: Config, s: State, url: string, depth: int) {
    depth > cfg.maxDepth || url in s.visited || (s.count >= cfg.maxCount && cfg.maxCount != -1)
  }

  /** The second guard: a robots parser is present and disallows the URL. */
  predicate Blocked(cfg: Config, site: Site, url: string) {
    cfg.robots && !site.canFetch(url)
  }

  /** The test before each recursive call. */
  predicate MayDescend(cfg: Config, count: int) {
    match cfg.childTest
    case AsWritten => count < cfg.maxCount
    case Intended => count < cfg.maxCount || cfg.maxCount == -1
  }

  /** Depth levels left from `depth`: what the recursion decreases. */
  function Budget(cfg: Config, depth: int): nat {
    if depth > cfg.maxDepth then 0 else cfg.maxDepth - depth + 1
  }

  /** `crawl(url, depth)`: the globals afterwards. */
  function Crawled(cfg: Config, site: Site, s: State, url: string, depth: int): State
    decreases Budget(cfg, depth), 1, 0
  {
    if Stops(cfg, s, url, depth) || Blocked(cfg, site, url) then s
    else
      var v := VisitPage(site, s, url);
      CrawledLinks(cfg, site, v.state, v.links, depth)
  }

  /** The `for link in links` loop of `crawl` at `depth`: sleep for `crawl_website`'s own
      `delay` argument, then crawl the link one level deeper if the child test allows.
      A pause `time.sleep` refuses (negative, or longer than `MaxSleep`) makes it raise, and
      `crawl`'s handler ends the loop. */
  function CrawledLinks(cfg: Config, site: Site, s: State, links: seq<string>, depth: int): State
    decreases Budget(cfg, depth + 1) + 1, 0, |links|
  {
    if links == [] || !SleepOk(cfg.pause) then s
    else
      var s1 := s.(sleeps := s.sleeps + [cfg.pause]);
      var s2 := if MayDescend(cfg, s1.count) then Crawled(cfg, site, s1, links[0], depth + 1) else s1;
      CrawledLinks(cfg, site, s2, links[1..], depth)
  }

  /** A crawl only grows the globals: each newly visited page is counted once, articles and
      sleeps are appended, the delay stays in [1, 60], and no page is collected twice. */
  lemma {:induction false} CrawlGrows(cfg: Config, site: Site, s: State, url: string, depth: int)
    ensures Grows(s, Crawled(cfg, site, s, url, depth))
    decreases Budget(cfg, depth), 1, 0
  {
    if !(Stops(cfg, s, url, depth) || Blocked(cfg, site, url)) {
      var v := VisitPage(site, s, url);
      VisitPageGrows(site, s, url);
      CrawlLinksGrow(cfg, site, v.state, v.links, depth);
      GrowsTransitive(s, v.state, Crawled(cfg, site, s, url, depth));
    }
  }

  lemma {:induction false} CrawlLinksGrow(cfg: Config, site: Site, s: State, links: seq<string>, depth: int)
    ensures Grows(s, CrawledLinks(cfg, site, s, links, depth))
    decreases Budget(cfg, depth + 1) + 1, 0, |links|
  {
    if links != [] && SleepOk(cfg.pause) {
      var s1 := s.(sleeps := s.sleeps + [cfg.pause]);
      var s2 := if MayDescend(cfg, s1.count) then Crawled(cfg, site, s1, links[0], depth + 1) else s1;
      assert Grows(s, s1);
      if MayDescend(cfg, s1.count) {
        CrawlGrows(cfg, site, s1, links[0], depth + 1);
      }
      GrowsTransitive(s, s1, s2);
      CrawlLinksGrow(cfg, site, s2, links[1..], depth);
      GrowsTransitive(s, s2, CrawledLinks(cfg, site, s, links, depth));
    }
  }

  /** With a limit (anything but -1), a crawl that starts within it ends within it. */
  lemma {:induction false} CrawlCountBounded(cfg: Config, site: Site, s: State, url: string, depth: int)
    requires cfg.maxCount != -1 && s.count <= cfg.maxCount
    ensures Crawled(cfg, site, s, url, depth).count <= cfg.maxCount
    decreases Budget(cfg, depth), 1, 0
  {
    if !(Stops(cfg, s, url, depth) || Blocked(cfg, site, url)) {
      var v := VisitPage(site, s, url);
      CrawlLinksCountBounded(cfg, site, v.state, v.links, depth);
    }
  }

  lemma {:induction false} CrawlLinksCountBounded(cfg: Config, site: Site, s: State, links: seq<string>, depth: int)
    requires cfg.maxCount != -1 && s.count <= cfg.maxCount
    ensures CrawledLinks(cfg, site, s, links, depth).count <= cfg.maxCount
    decreases Budget(cfg, depth + 1) + 1, 0, |links|
  {
    if links != [] && SleepOk(cfg.pause) {
      var s1 := s.(sleeps := s.sleeps + [cfg.pause]);
      var s2 := if MayDescend(cfg, s1.count) then Crawled(cfg, site, s1, links[0], depth + 1) else s1;
      if MayDescend(cfg, s1.count) {
        CrawlCountBounded(cfg, site, s1, links[0], depth + 1);
      }
      CrawlLinksCountBounded(cfg, site, s2, links[1..], depth);
    }
  }

  // ---------------------------------------------------------------------
  // How far a crawl reaches

  /** Every page a crawl from `url` at `depth` visits is within `max_depth - depth` link steps of `url`. */
  lemma {:induction false} CrawlWithinReach(cfg: Config, site: Site, s: State, url: string, depth: int)
    ensures Crawled(cfg, site, s, url, depth).visited <= s.visited + Reachable(site, url, cfg.maxDepth - depth)
    decreases Budget(cfg, depth), 1, 0
  {
    if !(Stops(cfg, s, url, depth) || Blocked(cfg, site, url)) {
      var v := VisitPage(site, s, url);
      VisitPageShape(site, s, url);
      VisitPageLinks(site, s, url);
      var n := cfg.maxDepth - depth;
      CrawlLinksWithinReach(cfg, site, v.state, v.links, depth);
      forall x | x in ReachableAll(site, v.links, n - 1)
        ensures x in Reachable(site, url, n)
      {
        var l :| l in v.links && x in Reachable(site, l, n - 1);
        assert l in Candidates(site, url);
      }
    }
  }

  /** Two steps that each stay within what the whole list reaches stay within it together. */
  lemma SubsetThroughStep<T>(v0: set<T>, v1: set<T>, v2: set<T>, first: set<T>, rest: set<T>, all: set<T>)
    requires v1 <= v0 + first && v2 <= v1 + rest
    requires first <= all && rest <= all
    ensures v2 <= v0 + all
  {
  }

  lemma {:induction false} CrawlLinksWithinReach(cfg: Config, site: Site, s: State, links: seq<string>, depth: int)
    ensures CrawledLinks(cfg, site, s, links, depth).visited <= s.visited + ReachableAll(site, links, cfg.maxDepth - depth - 1)
    decreases Budget(cfg, depth + 1) + 1, 0, |links|
  {
    if links != [] && SleepOk(cfg.pause) {
      var n := cfg.maxDepth - depth - 1;
      var s1 := s.(sleeps := s.sleeps + [cfg.pause]);
      var s2 := if MayDescend(cfg, s1.count) then Crawled(cfg, site, s1, links[0], depth + 1) else s1;
      var first := Reachable(site, links[0], n);
      if MayDescend(cfg, s1.count) {
        CrawlWithinReach(cfg, site, s1, links[0], depth + 1);
        assert cfg.maxDepth - (depth + 1) == n;
        assert s2.visited <= s1.visited + first;
      } else {
        assert s2.visited == s1.visited;
      }
      assert s1.visited == s.visited;
      ReachableAllCons(site, links, n);
      CrawlLinksWithinReach(cfg, site, s2, links[1..], depth);
      var t := CrawledLinks(cfg, site, s2, links[1..], depth);
      assert CrawledLinks(cfg, site, s, links, depth) == t;
      SubsetThroughStep(s.visited, s2.visited, t.visited, first,
                        ReachableAll(site, links[1..], n), ReachableAll(site, links, n));
    }
  }

  /** A crawl its guards turn away changes nothing: beyond `max_depth`, at a visited URL, at
      the count limit (unless it is -1), or at a URL robots.txt forbids, which therefore stays
      unvisited and uncounted. */
  lemma CrawlSkipped(cfg: Config, site: Site, s: State, url: string, depth: int)
    requires depth > cfg.maxDepth || url in s.visited || (s.count >= cfg.maxCount && cfg.maxCount != -1)
             || (cfg.robots && !site.canFetch(url))
    ensures Crawled(cfg, site, s, url, depth) == s
  {
  }

  // ---------------------------------------------------------------------
  // The child test and MAX_CRAWL_COUNT = -1

  /** As written, with MAX_CRAWL_COUNT = -1 the child test `crawl_count < -1` never holds:
      the loop sleeps once per link and recurses into none of them. */
  lemma {:induction false} AsWrittenLinksNeverDescend(cfg: Config, site: Site, s: State, links: seq<string>, depth: int)
    requires cfg.childTest == AsWritten && cfg.maxCount == -1 && s.count >= 0
    ensures CrawledLinks(cfg, site, s, links, depth).visited == s.visited
    ensures CrawledLinks(cfg, site, s, links, depth).articles == s.articles
    decreases |links|
  {
    if links != [] && SleepOk(cfg.pause) {
      AsWrittenLinksNeverDescend(cfg, site, s.(sleeps := s.sleeps + [cfg.pause]), links[1..], depth);
    }
  }

  /** So `crawl_website` visits its start URL and nothing else, and every link found on the
      start page stays unvisited. */
  lemma OnlyStartUrlCrawled(cfg: Config, site: Site, s: State, url: string, depth: int)
    requires cfg.childTest == AsWritten && cfg.maxCount == -1 && s.count >= 0
    ensures Crawled(cfg, site, s, url, depth).visited <= s.visited + {url}
    ensures !(Stops(cfg, s, url, depth) || Blocked(cfg, site, url)) ==>
      forall l :: l in VisitPage(site, s, url).links ==> l !in Crawled(cfg, site, s, url, depth).visited
  {
    if !(Stops(cfg, s, url, depth) || Blocked(cfg, site, url)) {
      var v := VisitPage(site, s, url);
      VisitPageShape(site, s, url);
      VisitPageLinks(site, s, url);
      AsWrittenLinksNeverDescend(cfg, site, v.state, v.links, depth);
    }
  }

  /** With no count limit and the intended test, a crawl that passes the depth guard visits
      its URL unless robots.txt forbids it. */
  lemma CrawlVisitsOrBlocks(cfg: Config, site: Site, s: State, url: string, depth: int)
    requires cfg.maxCount == -1 && depth <= cfg.maxDepth
    ensures url in Crawled(cfg, site, s, url, depth).visited || Blocked(cfg, site, url)
  {
    if Stops(cfg, s, url, depth) || Blocked(cfg, site, url) {
      CrawlSkipped(cfg, site, s, url, depth);
    } else {
      CrawlAdmittedVisits(cfg, site, s, url, depth);
    }
  }

  /** A crawl its guards let through leaves its URL visited. */
  lemma CrawlAdmittedVisits(cfg: Config, site: Site, s: State, url: string, depth: int)
    requires !(Stops(cfg, s, url, depth) || Blocked(cfg, site, url))
    ensures url in Crawled(cfg, site, s, url, depth).visited
  {
    var v := VisitPage(site, s, url);
    VisitPageShape(site, s, url);
    CrawlLinksGrow(cfg, site, v.state, v.links, depth);
    var t := CrawledLinks(cfg, site, v.state, v.links, depth);
    assert Crawled(cfg, site, s, url, depth) == t;
    assert url in v.state.visited && v.state.visited <= t.visited;
  }

  /** With the intended test, every link of the loop is visited by the end of it, unless
      robots.txt forbids it, as long as the next level is within `max_depth`. */
  lemma {:induction false} IntendedLinksAllVisited(cfg: Config, site: Site, s: State, links: seq<string>, depth: int)
    requires cfg.childTest == Intended && cfg.maxCount == -1 && SleepOk(cfg.pause) && depth < cfg.maxDepth
    ensures forall l :: l in links ==> l in CrawledLinks(cfg, site, s, links, depth).visited || Blocked(cfg, site, l)
    decreases |links|
  {
    if links != [] {
      var s1 := s.(sleeps := s.sleeps + [cfg.pause]);
      var s2 := Crawled(cfg, site, s1, links[0], depth + 1);
      CrawlVisitsOrBlocks(cfg, site, s1, links[0], depth + 1);
      IntendedLinksAllVisited(cfg, site, s2, links[1..], depth);
      CrawlLinksGrow(cfg, site, s2, links[1..], depth);
      forall l | l in links
        ensures l in CrawledLinks(cfg, site, s, links, depth).visited || Blocked(cfg, site, l)
      {
        if l != links[0] {
          assert l in links[1..];
        }
      }
    }
  }

  /** The corrected crawl follows the links: below `max_depth`, every link found on a crawled
      page ends up visited unless robots.txt forbids it. */
  lemma IntendedCrawlFollowsLinks(cfg: Config, site: Site, s: State, url: string, depth: int)
    requires cfg.childTest == Intended && cfg.maxCount == -1 && SleepOk(cfg.pause) && depth < cfg.maxDepth
    requires !(Stops(cfg, s, url, depth) || Blocked(cfg, site, url))
    ensures forall l :: l in VisitPage(site, s, url).links ==>
      l in Crawled(cfg, site, s, url, depth).visited || Blocked(cfg, site, l)
  {
    var v := VisitPage(site, s, url);
    IntendedLinksAllVisited(cfg, site, v.state, v.links, depth);
  }

  // ---------------------------------------------------------------------
  // scrape_url and main

  /** `scrape_url(url, headers, pause)`: sleep, fetch (any exception gives None), and keep the
      page's text when there is some.  `time.sleep` rejects a negative or overlong pause before
      the `try`. */
  function Scraped(site: Site, s: State, url: string, pause: real): (Option<Document>, State)
    requires SleepOk(pause)
  {
    (ScrapedDoc(site, s.delay, url), s.(sleeps := s.sleeps + ScrapeSleeps(site, s.delay, pause, url)))
  }

  /** `scrape_url` step by step: the pause is logged, then the request's waits. */
  lemma ScrapedUnfolded(site: Site, s: State, url: string, pause: real)
    requires SleepOk(pause)
    ensures var page := Retry(site.pageResponses(url), Retries, s.delay, 1);
      Scraped(site, s, url, pause)
      == (if page.0.Fetched? && site.text(url) != "" then Some(Document(url, site.text(url))) else None,
          s.(sleeps := (s.sleeps + [pause]) + page.1))
  {
    var page := Retry(site.pageResponses(url), Retries, s.delay, 1);
    assert s.sleeps + ScrapeSleeps(site, s.delay, pause, url) == (s.sleeps + [pause]) + page.1;
  }

  /** What `scrape_url` returns for a page, the backoff base being `delay`. */
  function ScrapedDoc(site: Site, delay: real, url: string): Option<Document> {
    if Retry(site.pageResponses(url), Retries, delay, 1).0.Fetched? && site.text(url) != "" then Some(Document(url, site.text(url)))
    else None
  }

  function ScrapedDocOf(site: Site, delay: real): string -> Option<Document> {
    url => ScrapedDoc(site, delay, url)
  }

  /** What `scrape_url` sleeps for a page: the pause, then the waits of `make_request`. */
  function ScrapeSleeps(site: Site, delay: real, pause: real, url: string): seq<real> {
    [pause] + Retry(site.pageResponses(url), Retries, delay, 1).1
  }

  /** A document exactly when the fetch succeeds with some text; only the sleep log changes. */
  lemma ScrapedSpec(site: Site, s: State, url: string, pause: real)
    requires SleepOk(pause)
    ensures var r := Scraped(site, s, url, pause);
      && (r.0.Some? <==> Retry(site.pageResponses(url), Retries, s.delay, 1).0.Fetched? && site.text(url) != "")
      && (r.0.Some? ==> r.0.value == Document(url, site.text(url)))
      && r.1 == s.(sleeps := r.1.sleeps)
      && r.1.sleeps[..|s.sleeps| + 1] == s.sleeps + [pause]
  {
    var r := Scraped(site, s, url, pause);
    assert r.1.sleeps[..|s.sleeps| + 1] == s.sleeps + [pause];
  }

  /** The test of `main`'s loop: `rp is None or (rp.can_fetch(...) and (crawl_count <=
      MAX_CRAWL_COUNT or MAX_CRAWL_COUNT == -1))`, since `and` binds tighter than `or`. */
  predicate Admits(robots: bool, allowed: bool, count: int, maxCount: int) {
    !robots || (allowed && (count <= maxCount || maxCount == -1))
  }

  /** One turn of `main`'s loop over the sitemap URLs: an admitted URL is scraped (pausing
      for the global delay), counted and its result (a document or None) appended; any
      other URL changes nothing. */
  function SitemapStep(site: Site, s: State, robots: bool, maxCount: int, url: string): (r: State)
    requires SleepOk(s.delay)
    ensures Admits(robots, site.canFetch(url), s.count, maxCount) ==>
      r == s.(count := s.count + 1, articles := s.articles + [ScrapedDoc(site, s.delay, url)],
              sleeps := s.sleeps + ScrapeSleeps(site, s.delay, s.delay, url))
    ensures !Admits(robots, site.canFetch(url), s.count, maxCount) ==> r == s
  {
    if Admits(robots, site.canFetch(url), s.count, maxCount) then
      var r := Scraped(site, s, url, s.delay);
      r.1.(count := r.1.count + 1, articles := r.1.articles + [r.0])
    else s
  }

  /** `main`'s loop over the sitemap URLs, in the set's iteration order. */
  function SitemapScrape(site: Site, s: State, robots: bool, maxCount: int, urls: seq<string>): (r: State)
    requires SleepOk(s.delay)
    decreases |urls|
    ensures r.delay == s.delay
  {
    if urls == [] then s
    else SitemapScrape(site, SitemapStep(site, s, robots, maxCount, urls[0]), robots, maxCount, urls[1..])
  }

  /** `order` is the order in which `main` walks the set `fetch_and_parse_sitemaps` returns
      for the sitemaps listed in the start URL's robots.txt (`get` answers the robots.txt
      request, `fetch` the sitemap requests). */
  predicate SitemapOrder(get: string -> Robots.RobotsFetch, fetch: string -> Sitemaps.SitemapFetch, startUrl: string, order: seq<string>) {
    Enumerates(order, Sitemaps.Gathered(fetch, Robots.SiteRobots(get, startUrl).1, Sitemaps.DefaultMaxDepth, 0))
  }

  /** `main`: read robots.txt; with no sitemap listed there, the recursive crawl from the
      start URL (depth 0, max_depth 3, pausing for the global delay, consulting robots.txt
      when a parser was built); otherwise the loop over the URLs of the sitemaps. */
  function MainRun(site: Site, s: State, startUrl: string, get: string -> Robots.RobotsFetch,
                   fetch: string -> Sitemaps.SitemapFetch, order: seq<string>): State
    requires SleepOk(s.delay)
    requires SitemapOrder(get, fetch, startUrl, order)
  {
    var robots := Robots.SiteRobots(get, startUrl);
    if robots.1 == [] then Crawled(Config(MainMaxDepth, MaxCrawlCount, s.delay, robots.0.Some?, AsWritten), site, s, startUrl, 0)
    else SitemapScrape(site, s, robots.0.Some?, MaxCrawlCount, order)
  }

  /** The URLs of `urls` the loop scrapes, in order, when it starts at count `count`. */
  function AdmittedUrls(site: Site, robots: bool, maxCount: int, count: int, urls: seq<string>): seq<string>
    decreases |urls|
  {
    if urls == [] then []
    else if Admits(robots, site.canFetch(urls[0]), count, maxCount) then
      [urls[0]] + AdmittedUrls(site, robots, maxCount, count + 1, urls[1..])
    else AdmittedUrls(site, robots, maxCount, count, urls[1..])
  }

  /** The sleeps of `scrape_url` for each of `urls` in turn, pausing for `delay`. */
  function ScrapeLog(site: Site, delay: real, urls: seq<string>): seq<real>
    decreases |urls|
  {
    if urls == [] then [] else ScrapeSleeps(site, delay, delay, urls[0]) + ScrapeLog(site, delay, urls[1..])
  }

  lemma MapSeqCons<T, U>(x: T, xs: seq<T>, f: T -> U)
    ensures MapSeq([x] + xs, f) == [f(x)] + MapSeq(xs, f)
  {
    MapSeqAppend([x], xs, f);
    assert MapSeq([x], f) == [f(x)];
  }

  /** A scrape of `u` followed by the scrapes of `rest` is the scrapes of `[u] + rest`. */
  lemma ScrapeThenRest(site: Site, s: State, s1: State, t: State, u: string, rest: seq<string>)
    requires s1 == s.(count := s.count + 1, articles := s.articles + [ScrapedDoc(site, s.delay, u)],
                      sleeps := s.sleeps + ScrapeSleeps(site, s.delay, s.delay, u))
    requires t == s1.(count := s1.count + |rest|, articles := s1.articles + MapSeq(rest, ScrapedDocOf(site, s1.delay)),
                      sleeps := s1.sleeps + ScrapeLog(site, s1.delay, rest))
    ensures var a := [u] + rest;
      t == s.(count := s.count + |a|, articles := s.articles + MapSeq(a, ScrapedDocOf(site, s.delay)),
              sleeps := s.sleeps + ScrapeLog(site, s.delay, a))
  {
    var f := ScrapedDocOf(site, s.delay);
    var d := ScrapedDoc(site, s.delay, u);
    var w := ScrapeSleeps(site, s.delay, s.delay, u);
    MapSeqCons(u, rest, f);
    assert f(u) == d;
    ScrapeLogCons(site, s.delay, u, rest);
    StepThenRest(s, d, w, MapSeq(rest, f), ScrapeLog(site, s.delay, rest), |rest|);
  }

  lemma ScrapeLogCons(site: Site, delay: real, u: string, rest: seq<string>)
    ensures ScrapeLog(site, delay, [u] + rest) == ScrapeSleeps(site, delay, delay, u) + ScrapeLog(site, delay, rest)
  {
    assert ([u] + rest)[1..] == rest;
  }

  /** A scrape followed by the scrapes of a list is the scrapes of the longer list. */
  lemma StepThenRest(s: State, d: Option<Document>, w: seq<real>, ds: seq<Option<Document>>, ws: seq<real>, n: int)
    ensures var s1 := s.(count := s.count + 1, articles := s.articles + [d], sleeps := s.sleeps + w);
      s1.(count := s1.count + n, articles := s1.articles + ds, sleeps := s1.sleeps + ws)
      == s.(count := s.count + (1 + n), articles := s.articles + ([d] + ds), sleeps := s.sleeps + (w + ws))
  {
  }

  /** The loop's whole effect: it counts the admitted URLs, appends their results in order and
      logs their sleeps; the visited set and the delay stay. */
  lemma {:induction false} SitemapScrapeState(site: Site, s: State, robots: bool, maxCount: int, urls: seq<string>)
    requires SleepOk(s.delay)
    ensures var a := AdmittedUrls(site, robots, maxCount, s.count, urls);
      SitemapScrape(site, s, robots, maxCount, urls)
      == s.(count := s.count + |a|, articles := s.articles + MapSeq(a, ScrapedDocOf(site, s.delay)),
            sleeps := s.sleeps + ScrapeLog(site, s.delay, a))
    decreases |urls|
  {
    if urls != [] {
      var u := urls[0];
      var s1 := SitemapStep(site, s, robots, maxCount, u);
      SitemapScrapeState(site, s1, robots, maxCount, urls[1..]);
      if Admits(robots, site.canFetch(u), s.count, maxCount) {
        ScrapeThenRest(site, s, s1, SitemapScrape(site, s1, robots, maxCount, urls[1..]), u,
                       AdmittedUrls(site, robots, maxCount, s.count + 1, urls[1..]));
      }
    }
  }

  /** Without a robots parser every URL is admitted, whatever the count. */
  lemma {:induction false} AdmittedWithoutRobots(site: Site, maxCount: int, count: int, urls: seq<string>)
    ensures AdmittedUrls(site, false, maxCount, count, urls) == urls
    decreases |urls|
  {
    if urls != [] {
      AdmittedWithoutRobots(site, maxCount, count + 1, urls[1..]);
    }
  }

  /** The URLs of a list that robots.txt allows, in list order. */
  function AllowedIn(site: Site, urls: seq<string>): seq<string>
    decreases |urls|
  {
    if urls == [] then []
    else if site.canFetch(urls[0]) then [urls[0]] + AllowedIn(site, urls[1..])
    else AllowedIn(site, urls[1..])
  }

  /** With a parser and no count limit the loop admits exactly the allowed URLs. */
  lemma {:induction false} AdmittedUnlimited(site: Site, count: int, urls: seq<string>)
    ensures AdmittedUrls(site, true, MaxCrawlCount, count, urls) == AllowedIn(site, urls)
    decreases |urls|
  {
    if urls != [] {
      AdmittedUnlimited(site, count + 1, urls[1..]);
      AdmittedUnlimited(site, count, urls[1..]);
    }
  }

  /** The URLs of `urls` that robots.txt allows. */
  function AllowedOf(site: Site, urls: set<string>): set<string> {
    set u | u in urls && site.canFetch(u)
  }

  /** The allowed URLs of a list: those of its tail, and its head if allowed. */
  lemma AllowedCons(site: Site, urls: seq<string>)
    requires urls != []
    ensures AllowedOf(site, set u | u in urls)
         == AllowedOf(site, set u | u in urls[1..]) + (if site.canFetch(urls[0]) then {urls[0]} else {})
  {
    assert forall u :: u in urls <==> u == urls[0] || u in urls[1..];
  }

  /** A URL is kept exactly when it is in the list and allowed. */
  lemma {:induction false} AllowedInMembers(site: Site, urls: seq<string>, x: string)
    ensures x in AllowedIn(site, urls) <==> x in urls && site.canFetch(x)
    decreases |urls|
  {
    if urls != [] {
      AllowedInMembers(site, urls[1..], x);
      assert x in urls <==> x == urls[0] || x in urls[1..];
    }
  }

  /** Keeping some URLs of a list without repetition repeats none. */
  lemma {:induction false} AllowedInDistinct(site: Site, urls: seq<string>)
    requires forall i, j :: 0 <= i < j < |urls| ==> urls[i] != urls[j]
    ensures forall i, j :: 0 <= i < j < |AllowedIn(site, urls)| ==> AllowedIn(site, urls)[i] != AllowedIn(site, urls)[j]
    decreases |urls|
  {
    if urls != [] && site.canFetch(urls[0]) {
      var a := AllowedIn(site, urls[1..]);
      AllowedInDistinct(site, urls[1..]);
      AllowedInMembers(site, urls[1..], urls[0]);
      assert urls[0] !in urls[1..];
      var b := [urls[0]] + a;
      forall i, j | 0 <= i < j < |b| ensures b[i] != b[j] {
        assert b[j] == a[j - 1];
        if i > 0 {
          assert b[i] == a[i - 1];
        }
      }
    } else if urls != [] {
      AllowedInDistinct(site, urls[1..]);
      assert AllowedIn(site, urls) == AllowedIn(site, urls[1..]);
    }
  }

  /** The allowed URLs of a list without repetition list each allowed URL of the list once,
      and nothing else. */
  lemma AllowedInEnumerates(site: Site, urls: seq<string>)
    requires forall i, j :: 0 <= i < j < |urls| ==> urls[i] != urls[j]
    ensures Enumerates(AllowedIn(site, urls), AllowedOf(site, set u | u in urls))
  {
    var a, allowed := AllowedIn(site, urls), AllowedOf(site, set u | u in urls);
    forall x ensures x in a <==> x in allowed {
      AllowedInMembers(site, urls, x);
    }
    AllowedInDistinct(site, urls);
    assert forall i, j :: 0 <= i < j < |a| ==> a[i] != a[j];
    assert (forall x :: x in a ==> x in allowed) && (forall x :: x in allowed ==> x in a);
  }

  /** As many allowed URLs in the list as in its set. */
  lemma {:induction false} AllowedInCount(site: Site, urls: seq<string>)
    requires forall i, j :: 0 <= i < j < |urls| ==> urls[i] != urls[j]
    ensures |AllowedIn(site, urls)| == |AllowedOf(site, set u | u in urls)|
    decreases |urls|
  {
    if urls != [] {
      var tail := urls[1..];
      AllowedInCount(site, tail);
      AllowedCons(site, urls);
      assert urls[0] !in tail;
      assert urls[0] !in AllowedOf(site, set u | u in tail);
    }
  }

  /** With a parser and no count limit, the loop over a list without repetition scrapes each
      allowed URL once, in list order, and no other: the count grows by their number, the
      article list by their results and the sleep log by their sleeps. */
  lemma SitemapScrapesEachAllowedOnce(site: Site, s: State, urls: seq<string>)
    requires SleepOk(s.delay)
    requires forall i, j :: 0 <= i < j < |urls| ==> urls[i] != urls[j]
    ensures var t := SitemapScrape(site, s, true, MaxCrawlCount, urls);
      var a := AllowedIn(site, urls);
      && Enumerates(a, AllowedOf(site, set u | u in urls))
      && t == s.(count := s.count + |AllowedOf(site, set u | u in urls)|,
                 articles := s.articles + MapSeq(a, ScrapedDocOf(site, s.delay)),
                 sleeps := s.sleeps + ScrapeLog(site, s.delay, a))
  {
    SitemapScrapeState(site, s, true, MaxCrawlCount, urls);
    AdmittedUnlimited(site, s.count, urls);
    AllowedInEnumerates(site, urls);
    AllowedInCount(site, urls);
  }

  /** The sitemap loop over any order of a set: each allowed URL of the set scraped once, in
      that order, and no other. */
  lemma SitemapScrapesSetOnce(site: Site, s: State, order: seq<string>, urls: set<string>)
    requires SleepOk(s.delay) && Enumerates(order, urls)
    ensures var t := SitemapScrape(site, s, true, MaxCrawlCount, order);
      var a := AllowedIn(site, order);
      && Enumerates(a, AllowedOf(site, urls))
      && t == s.(count := s.count + |AllowedOf(site, urls)|,
                 articles := s.articles + MapSeq(a, ScrapedDocOf(site, s.delay)),
                 sleeps := s.sleeps + ScrapeLog(site, s.delay, a))
  {
    SitemapScrapesEachAllowedOnce(site, s, order);
    assert (set u | u in order) == urls;
  }

  /** When robots.txt lists sitemaps, a parser was built, and `main` scrapes every URL of the
      sitemaps that robots.txt allows, each once, in the set's iteration order, and no other. */
  lemma MainScrapesAllowedSitemapUrls(site: Site, s: State, startUrl: string, get: string -> Robots.RobotsFetch,
                                      fetch: string -> Sitemaps.SitemapFetch, order: seq<string>)
    requires SleepOk(s.delay) && SitemapOrder(get, fetch, startUrl, order)
    requires Robots.SiteRobots(get, startUrl).1 != []
    ensures var t := MainRun(site, s, startUrl, get, fetch, order);
      var urls := Sitemaps.Gathered(fetch, Robots.SiteRobots(get, startUrl).1, Sitemaps.DefaultMaxDepth, 0);
      var a := AllowedIn(site, order);
      && Enumerates(a, AllowedOf(site, urls))
      && t == s.(count := s.count + |AllowedOf(site, urls)|,
                 articles := s.articles + MapSeq(a, ScrapedDocOf(site, s.delay)),
                 sleeps := s.sleeps + ScrapeLog(site, s.delay, a))
  {
    var robots := Robots.SiteRobots(get, startUrl);
    SitemapScrapesSetOnce(site, s, order, Sitemaps.Gathered(fetch, robots.1, Sitemaps.DefaultMaxDepth, 0));
  }

  /** Without a robots parser the count limit is never consulted: every URL is scraped, in
      order, counted, and its result appended. */
  lemma NoRobotsScrapesEveryUrl(site: Site, s: State, maxCount: int, urls: seq<string>)
    requires SleepOk(s.delay)
    ensures SitemapScrape(site, s, false, maxCount, urls)
         == s.(count := s.count + |urls|, articles := s.articles + MapSeq(urls, ScrapedDocOf(site, s.delay)),
               sleeps := s.sleeps + ScrapeLog(site, s.delay, urls))
  {
    SitemapScrapeState(site, s, false, maxCount, urls);
    AdmittedWithoutRobots(site, maxCount, s.count, urls);
  }

  /** With a robots parser and a limit, the `<=` test lets the count reach one past the limit
      and no further; each scrape appends exactly one entry. */
  lemma {:induction false} SitemapCountBounded(site: Site, s: State, maxCount: int, urls: seq<string>)
    requires SleepOk(s.delay) && maxCount >= 0 && s.count <= maxCount + 1
    decreases |urls|
    ensures SitemapScrape(site, s, true, maxCount, urls).count <= maxCount + 1
    ensures |SitemapScrape(site, s, true, maxCount, urls).articles| - |s.articles|
         == SitemapScrape(site, s, true, maxCount, urls).count - s.count
  {
    if urls != [] {
      var s1 := SitemapStep(site, s, true, maxCount, urls[0]);
      assert SitemapScrape(site, s, true, maxCount, urls) == SitemapScrape(site, s1, true, maxCount, urls[1..]);
      SitemapCountBounded(site, s1, maxCount, urls[1..]);
    }
  }

  /** A single allowed URL at the limit is still scraped: the count ends one past the limit. */
  lemma SitemapScrapesOnePastLimit(site: Site, s: State, maxCount: int, url: string)
    requires SleepOk(s.delay) && maxCount >= 0 && s.count == maxCount && site.canFetch(url)
    ensures SitemapScrape(site, s, true, maxCount, [url]).count == maxCount + 1
  {
    var r := Scraped(site, s, url, s.delay);
    assert [url][1..] == [];
  }

  // ---------------------------------------------------------------------
  // The module's globals as an object

  class Crawler {
    var visited: set<string>
    var crawlCount: int
    var articlesContent: seq<Option<Document>>
    var delay: real
    var sleeps: seq<real>

    function Snapshot(): State
      reads this
    {
      State(visited, crawlCount, articlesContent, delay, sleeps)
    }

    constructor ()
      ensures Snapshot() == Initial
    {
      visited := {};
      crawlCount := 0;
      articlesContent := [];
      delay := 1.0;
      sleeps := [];
    }

    /** `make_request(url)`: the retry loop, backing off from the global delay. */
    method MakeRequest(responses: Responses) returns (outcome: RequestOutcome)
      modifies this
      ensures outcome == Retry(responses, Retries, old(delay), 1).0
      ensures Snapshot() == old(Snapshot()).(sleeps := old(sleeps) + Retry(responses, Retries, old(delay), 1).1)
    {
      var waits;
      outcome, waits := Requester.MakeRequest(responses, Retries, delay);
      sleeps := sleeps + waits;
    }

    method FindArticleLinks(site: Site, url: string) returns (links: Option<seq<string>>)
      modifies this
      ensures (links, Snapshot()) == SearchLinks(site, old(Snapshot()), url)
    {
      var outcome := MakeRequest(site.linkResponses(url));
      match outcome
      case Fetched(_) =>
        delay := AfterSuccess(delay);
        var found := CollectLinks(BaseUrl(url), site.hrefs(url), visited);
        links := Some(found);
      case Exhausted =>
        delay := AfterFailure(delay, DelayCeiling);
        links := Some([]);
      case SleepRejected(_) =>
        links := None;
    }

    /** The body of `crawl` from `visited.add(url)` to `find_article_links(url)`: the links
        its loop walks, empty when the visit ended early. */
    method Enter(site: Site, url: string) returns (links: seq<string>)
      modifies this
      ensures Visit(Snapshot(), links) == VisitPage(site, old(Snapshot()), url)
    {
      visited := visited + {url};
      crawlCount := crawlCount + 1;
      var page := MakeRequest(site.pageResponses(url));
      if !page.Fetched? || site.text(url) == "" {
        return [];
      }
      articlesContent := articlesContent + [Some(Document(url, site.text(url)))];
      var found := FindArticleLinks(site, url);
      links := if found.Some? then found.value else [];
    }

    /** `crawl(url, current_depth)`. */
    method Crawl(cfg: Config, site: Site, url: string, depth: int)
      requires cfg.childTest == AsWritten
      modifies this
      ensures Snapshot() == Crawled(cfg, site, old(Snapshot()), url, depth)
      decreases Budget(cfg, depth), 1
    {
      if depth > cfg.maxDepth || url in visited || (crawlCount >= cfg.maxCount && cfg.maxCount != -1) {
        return;
      }
      if cfg.robots && !site.canFetch(url) {
        return;
      }
      var links := Enter(site, url);
      CrawlLinks(cfg, site, links, depth);
    }

    /** The `for link in links` loop of `crawl`. */
    method CrawlLinks(cfg: Config, site: Site, links: seq<string>, depth: int)
      requires cfg.childTest == AsWritten
      modifies this
      ensures Snapshot() == CrawledLinks(cfg, site, old(Snapshot()), links, depth)
      decreases Budget(cfg, depth + 1) + 1, 0
    {
      ghost var start := Snapshot();
      for i := 0 to |links|
        invariant CrawledLinks(cfg, site, Snapshot(), links[i..], depth) == CrawledLinks(cfg, site, start, links, depth)
      {
        assert links[i..][1..] == links[i + 1..];
        if !SleepOk(cfg.pause) {
          return;
        }
        sleeps := sleeps + [cfg.pause];
        if MayDescend(cfg, crawlCount) {
          Crawl(cfg, site, links[i], depth + 1);
        }
      }
      assert links[|links|..] == [];
    }

    /** `crawl_website(start_url, depth, max_depth, headers, delay, robots_parser)`. */
    method CrawlWebsite(cfg: Config, site: Site, startUrl: string, depth: int)
      requires cfg.childTest == AsWritten
      modifies this
      ensures Snapshot() == Crawled(cfg, site, old(Snapshot()), startUrl, depth)
    {
      Crawl(cfg, site, startUrl, depth);
    }

    /** `scrape_url(url, headers, pause)`. */
    method ScrapeUrl(site: Site, url: string, pause: real) returns (doc: Option<Document>)
      requires SleepOk(pause)
      modifies this
      ensures (doc, Snapshot()) == Scraped(site, old(Snapshot()), url, pause)
    {
      ScrapedUnfolded(site, Snapshot(), url, pause);
      sleeps := sleeps + [pause];
      var page := MakeRequest(site.pageResponses(url));
      if page.Fetched? && site.text(url) != "" {
        doc := Some(Document(url, site.text(url)));
      } else {
        doc := None;
      }
    }

    /** `main()`: `get` answers the robots.txt request and `fetch` the sitemap requests;
        `order` is the order in which the loop walks the set of sitemap URLs. */
    method RunMain(site: Site, startUrl: string, get: string -> Robots.RobotsFetch,
                   fetch: string -> Sitemaps.SitemapFetch, order: seq<string>)
      requires SleepOk(delay)
      requires SitemapOrder(get, fetch, startUrl, order)
      modifies this
      ensures Snapshot() == MainRun(site, old(Snapshot()), startUrl, get, fetch, order)
    {
      var rp, sitemapUrls := Robots.FetchAndParseRobotsTxt(get, BaseUrl(startUrl));
      if sitemapUrls == [] {
        CrawlWebsite(Config(MainMaxDepth, MaxCrawlCount, delay, rp.Some?, AsWritten), site, startUrl, 0);
        return;
      }
      var urlsToCrawl := Sitemaps.FetchAndParseSitemaps(fetch, sitemapUrls, Sitemaps.DefaultMaxDepth, 0);
      assert Enumerates(order, urlsToCrawl);
      ScrapeAll(site, rp.Some?, order);
    }

    /** The `for url in urls_to_crawl` loop of `main`, walking the set in `urls`' order. */
    method ScrapeAll(site: Site, robots: bool, urls: seq<string>)
      requires SleepOk(delay)
      modifies this
      ensures Snapshot() == SitemapScrape(site, old(Snapshot()), robots, MaxCrawlCount, urls)
    {
      ghost var start := Snapshot();
      for i := 0 to |urls|
        invariant delay == start.delay
        invariant SitemapScrape(site, Snapshot(), robots, MaxCrawlCount, urls[i..])
               == SitemapScrape(site, start, robots, MaxCrawlCount, urls)
      {
        ghost var before := Snapshot();
        assert urls[i..][1..] == urls[i + 1..];
        var url := urls[i];
        assert SitemapScrape(site, before, robots, MaxCrawlCount, urls[i..])
            == SitemapScrape(site, SitemapStep(site, before, robots, MaxCrawlCount, url), robots, MaxCrawlCount, urls[i + 1..]);
        if !robots || (site.canFetch(url) && (crawlCount <= MaxCrawlCount || MaxCrawlCount == -1)) {
          var doc := ScrapeUrl(site, url, delay);
          crawlCount := crawlCount + 1;
          articlesContent := articlesContent + [doc];
        }
        assert Snapshot() == SitemapStep(site, before, robots, MaxCrawlCount, url);
      }
      assert urls[|urls|..] == [];
    }
  }
}
