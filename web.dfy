/** The crawlers' view of the web: for each URL, what the network, the content extractor,
    the HTML parser and robots.txt give, and the pages reachable by following links. */
module Web {
  import opened Common
  import opened Urls
  import opened Requester

  /** What the network and the parsers give for each URL. */
  datatype Site = Site(
    pageResponses: string -> Responses,  // the attempts of the page fetch in `crawl` or `scrape_url`
    linkResponses: string -> Responses,  // the attempts of the fetch in `find_article_links`
    text: string -> string,              // `extract_main_content` of the page ("" on failure)
    hrefs: string -> seq<string>,        // the `href`s of the page's `<a>` tags, in document order
    canFetch: string -> bool)            // `robots_parser.can_fetch(DEFAULT_USER_AGENT, url)`

  /** The candidate links of a page: what its hrefs give before the visited filter. */
  function Candidates(site: Site, url: string): seq<string> {
    ArticleLinks(BaseUrl(url), site.hrefs(url), {})
  }

  /** Bounds the reachability recursion: -1 and below give no step. */
  function Steps(n: int): nat {
    if n < 0 then 0 else n + 1
  }

  /** The pages within `n` link steps of `url` (none when `n` is negative), following every
      candidate link whether or not it is visited at the time. */
  function Reachable(site: Site, url: string, n: int): set<string>
    decreases Steps(n), 1
  {
    if n < 0 then {} else {url} + ReachableAll(site, Candidates(site, url), n - 1)
  }

  function ReachableAll(site: Site, links: seq<string>, n: int): set<string>
    decreases Steps(n), 2
  {
    set l, x | l in links && x in Reachable(site, l, n) :: x
  }

  /** A list's first link and the rest of it each reach no more than the whole list. */
  lemma ReachableAllCons(site: Site, links: seq<string>, n: int)
    requires links != []
    ensures Reachable(site, links[0], n) <= ReachableAll(site, links, n)
    ensures ReachableAll(site, links[1..], n) <= ReachableAll(site, links, n)
  {
    forall x | x in ReachableAll(site, links[1..], n)
      ensures x in ReachableAll(site, links, n)
    {
      var l :| l in links[1..] && x in Reachable(site, l, n);
      assert l in links;
    }
  }
}
