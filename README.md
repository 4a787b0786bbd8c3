# PyCrawl in Dafny

PyCrawl is a small news crawler written in Python, in several drafts that share most of
their logic:

- the `crawler/` package:
  - `requester.py` holds the retry loop, the adaptive delay and the article-link filter;
  - `scraper.py` holds `scrape_url`, `is_allowed` and a recursive crawl whose count and
    delay are passed by value;
  - `crawler.py` holds a crawler that keeps its state in module globals;
  - `crawler_utils.py` and `robots_sitemaps_parser.py` read `robots.txt` and sitemaps;
  - `utils.py` holds file-name helpers;
- a first draft at the repository root: `crawler.py` and `crawler_utils.py`.

This project models the decision logic of those files. The network, the HTML and XML
parsers, the article extractor and `RobotFileParser` are oracles: functions the model
takes as parameters.

- **Sleeps.** Every `time.sleep` is recorded in a log, in order, rather than slept.
- **Exceptions.** They become explicit outcomes:
  - `Exhausted` is the `HTTPError` after the last retry;
  - `SleepRejected` is the `ValueError` that `time.sleep` raises on a negative wait, or the
    `OverflowError` it raises on a wait longer than (2^63 - 1) nanoseconds (`Common.MaxSleep`).
    Neither is a `RequestException`, so both escape `make_request`. The crawlers' own
    `time.sleep(delay)` calls take the same test (`Common.SleepOk`).
- **Imperative code.**
  - The loops are Dafny methods with loop invariants.
  - The module globals and the shared `visited` set are the fields of classes
    (`GlobalCrawler.Crawler`, `Scraper.Scraper`, `RootCrawler.Crawler`).
  - Each method is proved equal to a specification function: `Retry`, `ArticleLinks`,
    `Directives`, `Locs`, `Gathered`, `Crawled`, `MainRun`.
  - The lemmas state what the code promises about those functions.

The files:

| file | module | source |
|---|---|---|
| `common.dfy` | `Common` | Python's `str.strip`, `lower`, `split(c, 1)`, `startswith` and `endswith`, and base-10 `int()` on strings |
| `urls.dfy` | `Urls` | the subset of `urlparse` and `urljoin` the crawlers use |
| `utils.dfy` | `Utils` | `crawler/utils.py` |
| `requester.dfy` | `Requester` | `crawler/requester.py` |
| `web.dfy` | `Web` | the oracle a crawler sees: page responses, page text, hrefs and the robots verdict |
| `robots.dfy` | `Robots` | `fetch_and_parse_robots_txt`, in its three copies |
| `sitemaps.dfy` | `Sitemaps` | the sitemap functions of both `crawler_utils.py` files |
| `global_crawler.dfy` | `GlobalCrawler` | `crawler/crawler.py` |
| `scraper.dfy` | `Scraper` | `crawler/scraper.py` |
| `root_crawler.dfy` | `RootCrawler` | the root `crawler.py` |

Where the design description and the code disagree, the model follows the code. The cases:

- **Delay floor.** The floor of the adaptive delay is 1 second, below `MIN_DELAY` = 2
  (`Requester.SuccessDropsBelowMinDelay`). The `crawler/crawler.py` copy caps the delay at
  60 seconds, not at `MAX_DELAY` = 30.
- **Backoff base.** In `crawler/requester.py`, `make_request` backs off from its own local
  `MIN_DELAY`, whatever delay its caller uses.
- **Error statuses.** Statuses from 400 to 599 are retried with a backoff, not failed at
  once. Other non-200 statuses use up an attempt with no wait.
- **Same-site test.** It is a plain string-prefix test, so `https://a.com.evil/...` passes
  for `https://a.com` (`Requester.LookalikeHostExample`).
- **Protocol-relative hrefs.** An href starting with `//` is joined to another host
  (`Requester.ProtocolRelativeLeavesSite`).
- **Sleep between links.** In `crawler/crawler.py`, `crawl` sleeps for `crawl_website`'s own
  `delay` argument, not for the global delay that `find_article_links` adapts.
- **Count limit in `crawler/scraper.py`.** It bounds the length of a call path, not the
  number of pages (`Scraper.SiblingsAllVisited`, `Scraper.CrawlWithinReach`).
- **`main` in `crawler/crawler.py`.** Its test uses `<=`, so with a robots parser one URL
  past the limit is still scraped (`GlobalCrawler.SitemapScrapesOnePastLimit`).
- **`main` in the root `crawler.py`.** It has no `return` after the recursive crawl and
  assigns `articles_content` only inside the sitemap loop. It therefore ends with an
  `UnboundLocalError` in recursive mode (`RootCrawler.RecursiveModeEndsUnbound`), and keeps
  only the last scrape in sitemap mode (`RootCrawler.SitemapLoopKeepsLast`).
- **Blank `<loc>`.** The test for an empty `<loc>` runs before `strip()`, so a `<loc>` of
  blanks yields the empty URL `""` (`Sitemaps.BlankLocKept`).

## Model

| member | source | states |
|---|---|---|
| Common.ParseIntRoundTrip | crawler/requester.py:41 | `int()` reads back every integer of at most 4300 digits that a server writes in decimal, so the integer branch of `Retry-After` recovers the exact number of seconds |
| Common.ParseIntRejectsLongDecimal | crawler/requester.py:41-43 | `int()` raises `ValueError` on a decimal integer of more than 4300 digits, the default `sys.set_int_max_str_digits` limit |
| Common.NatDigitsBound | crawler/requester.py:41 | a number below 10^k is written with at most k digits |
| Urls.BaseUrl | crawler/requester.py:102 | `base_url` is the scheme, `://` and the netloc, and never starts with `/` |
| Urls.BaseUrlParses | crawler/requester.py:102 | the base URL parses back to the page's scheme and network location with an empty path, parameters, query and fragment; without a scheme it has no network location |
| Urls.RefParts | crawler/requester.py:107-108 | an href starting with `/` has no scheme of its own, keeps its network location, and has an empty or rooted path, with parameters only when the path is non-empty; `urljoin`'s branch for a relative path is therefore never taken |
| Urls.JoinOnBase | crawler/requester.py:107-108 | `urljoin(base_url, href)` keeps an href's own network location and its path as written; otherwise it uses the page's network location and resolves the path's dot segments, and an empty path stays empty |
| Urls.ResolvePathNormal | crawler/requester.py:108 | the path `urljoin` builds has no `.` or `..` segment left |
| Urls.ResolvePathPlain | crawler/requester.py:108 | a path with no `.` or `..` segment is kept as it is |
| Urls.JoinKeepsEmptySegment | crawler/requester.py:107-108 | an href `/a//b` keeps its empty inner segment: `urljoin` appends it to the page's base URL unchanged |
| Urls.ResolvePathAvoids | crawler/requester.py:108 | resolving dot segments adds no character other than `/` |
| Urls.JoinPlainPath | crawler/robots_sitemaps_parser.py:21 | joining a plain path (no dot segment, query, fragment or parameters) to the base URL of a page whose scheme `urljoin` resolves against appends the path |
| Urls.JoinWithoutScheme | crawler/robots_sitemaps_parser.py:21 | joining a plain path to a base URL without a scheme (`://host`) gives the path alone |
| Utils.GetScrapedFilename | crawler/utils.py:13-16 | the file name is the start URL's netloc followed by `_scraped_data.json` |
| Utils.ScrapedFilenameSharedIffSameHost | crawler/crawler_utils.py:37-40 | two start URLs share a data file if and only if they have the same netloc |
| Utils.SanitizeFilename | crawler/utils.py:58-69 | the result contains none of `\ / * ? : " < > \|` and is never longer than the input |
| Utils.SanitizeConcat | crawler/utils.py:69 | the substitution works character by character: sanitizing a concatenation concatenates the sanitized parts, so every other character is kept, in order |
| Utils.SanitizeIdentity | crawler/utils.py:69 | a name with none of the forbidden characters is returned unchanged |
| Utils.SanitizeIdempotent | crawler/utils.py:69 | sanitizing twice is sanitizing once |
| Utils.SanitizeLength | crawler/utils.py:69 | the result is as long as the number of allowed characters of the input, and as long as the input if and only if nothing is forbidden |
| Utils.PersianCharacterRange | crawler/utils.py:127-129 | a single character is Persian if and only if it lies in U+0600 to U+06FF |
| Utils.PersianStringRange | crawler/utils.py:127-129 | for a longer string, Python's lexicographic comparison admits exactly the strings whose first character lies in U+0600 to U+06FE, or that are U+06FF alone |
| Requester.RetryBounds | crawler/requester.py:29-58 | a returned response or an escaping exception comes from an attempt between 1 and `max_retries`; there are at most `max_retries` waits, each one `time.sleep` accepts (from 0 to (2^63 - 1) ns) |
| Requester.Turn | crawler/requester.py:29-57 | one attempt either ends the request, with the outcome and last waits of the whole loop from that attempt, or sleeps its wait and leaves the outcome to the later attempts |
| Requester.MakeRequest | crawler/requester.py:12-58 | the loop's outcome and waits are those of the retry specification from attempt 1; with `max_retries` of 0 or less it raises `HTTPError` without a request or a wait |
| Requester.RetryFetchedIff | crawler/requester.py:29-34 | the response of attempt k is returned if and only if k is at most `max_retries`, attempt k has status 200 and every earlier attempt went on to the next one |
| Requester.RetryExhaustedIff | crawler/requester.py:29-58 | `HTTPError` is raised after the loop if and only if every attempt went on to the next one |
| Requester.TransientStep | crawler/requester.py:50-57 | a request exception, or an error status other than 429/503/403, costs one wait of `delay * 2 ** (attempt - 1)`, or ends the request when that wait is longer than `time.sleep` accepts |
| Requester.BackoffGrows | crawler/requester.py:55 | with a non-negative base, a later attempt never backs off for less |
| Requester.ConfiguredBackoffFits | crawler/requester.py:27-57 | with a base of at most `MAX_DELAY` and the configured 5 attempts, every backoff is one `time.sleep` accepts |
| Requester.BackoffScheduleDoubles | crawler/requester.py:55 | the i-th backoff wait is `delay * 2 ** (attempt - 1 + i)`, with no ceiling |
| Requester.TransientErrorsBackOffExponentially | crawler/requester.py:29-58 | when every attempt fails transiently and the last backoff is short enough for `time.sleep`, the loop raises `HTTPError` after sleeping exactly the doubling schedule |
| Requester.OverlongBackoffEscapes | crawler/requester.py:29-58 | when every attempt fails transiently and attempt k is the first whose backoff is too long for `time.sleep`, the waits before k are slept and the `OverflowError` of attempt k escapes |
| Requester.NonErrorStatusesNeverWait | crawler/requester.py:50-52 | non-200 statuses that `raise_for_status` accepts use up every attempt without a wait and end in `HTTPError` |
| Requester.RetryAfterSecondsHonoured | crawler/requester.py:35-45 | on 429/503/403 with an integer `Retry-After` of n, 0 <= n <= 9223372036, the wait is exactly n seconds before the next attempt |
| Requester.SleepSecondsDigits | crawler/requester.py:41-45 | every whole number of seconds `time.sleep` accepts has few enough digits for `int()` |
| Requester.NegativeRetryAfterEscapes | crawler/requester.py:41-45 | a negative integer `Retry-After` makes `time.sleep` raise `ValueError`, and the exception escapes the loop |
| Requester.RetryAfterTooLongEscapes | crawler/requester.py:41-45 | an integer `Retry-After` above 9223372036 seconds makes `time.sleep` raise `OverflowError`, and the exception escapes the loop |
| Requester.OverlongRetryAfterBacksOff | crawler/requester.py:39-45 | an integer `Retry-After` of more than 4300 digits fails `int()`, so the attempt takes the exponential backoff instead |
| Requester.ServiceUnavailableThenOk | crawler/requester.py:29-45 | a 503 with `Retry-After: 2` and then a 200 returns the second response after one 2-second wait |
| Requester.ParseRetryAfter | crawler/requester.py:60-81 | as written, a value is returned if and only if the header parses as an integer, and it is that integer |
| Requester.ParseRetryAfterRaisesOnHttpDate | crawler/requester.py:74-78 | as written, every value that starts with a letter, as every HTTP date does, makes the function raise |
| Requester.ParseRetryAfterIntended | crawler/requester.py:60-81 | the intended parser returns integer seconds as is, returns a value for a date if and only if the date parses, and never returns a negative wait for a date |
| Requester.IntendedRetryAfterDate | crawler/requester.py:75-80 | for a date the intended wait is the time until it, or the exponential backoff when the date has passed |
| Requester.AfterSuccess | crawler/requester.py:91 | after a success the delay is at least 1, never grows from 1 or more, and is halved from 2 or more |
| Requester.AfterFailure | crawler/requester.py:95 | after a failure the delay is at most the ceiling, never shrinks within range, and doubles while that stays under the ceiling |
| Requester.DelayStaysInRange | crawler/requester.py:89-96 | a delay in [1, ceiling] stays in [1, ceiling] through any run of successes and failures |
| Requester.SuccessDropsBelowMinDelay | crawler/requester.py:91 | one success takes `MIN_DELAY` to 1 second, below `MIN_DELAY` |
| Requester.CutSpec | crawler/requester.py:114 | the cut link has no `#` and no `?`, is a prefix of the link, and a link with neither is unchanged |
| Requester.CutSplitsTwice | crawler/requester.py:114 | cutting at the first `#` or `?` equals `split('#')[0].split('?')[0]` |
| Requester.CutIdempotent | crawler/requester.py:114 | cutting twice is cutting once |
| Requester.CutAfterPrefix | crawler/requester.py:108-114 | cutting a link whose prefix has no `#` or `?` cuts only the rest |
| Requester.LinkOf | crawler/requester.py:106-114 | one href gives the link of the link specification, or none for an external href |
| Requester.CollectLinks | crawler/requester.py:104-116 | the loop appends exactly the specified links, in href order, skipping visited ones |
| Requester.ArticleLinksConcat | crawler/requester.py:105-116 | the links of two runs of hrefs are the links of the first run followed by those of the second |
| Requester.ArticleLinksSound | crawler/requester.py:105-116 | every returned link has no `#` or `?`, is not visited, and comes from some href starting with `/` or with the base URL |
| Requester.ArticleLinksComplete | crawler/requester.py:105-116 | every unvisited link that an href gives is returned |
| Requester.ArticleLinksAntitone | crawler/requester.py:115 | a larger visited set returns no new links |
| Requester.LinkForIdempotent | crawler/requester.py:107-114 | a link that starts with the base URL, fed back as an href, gives itself again |
| Requester.RootRelativeStaysOnSite | crawler/requester.py:107-108 | an href starting with `/` without a host of its own gives the base URL followed by nothing or by `/` and the href's resolved path, with the query and fragment dropped, so it stays on the page's host |
| Requester.PlainHrefAppended | crawler/requester.py:107-114 | an href with a single leading `/` and no dot segment gives the base URL followed by the href up to its `#` or `?` |
| Requester.ProtocolRelativeLeavesSite | crawler/requester.py:107-108 | an href starting with `//` gives the page's scheme, the href's own host and its path as written; without a `;` that is the scheme, a colon and the cut href |
| Requester.PrefixTestAdmitsLookalikeHost | crawler/requester.py:109-110 | any string that starts with the base URL is kept, whatever host it names |
| Requester.LookalikeHostExample | crawler/requester.py:109-110 | `https://a.com.evil/p` passes as a link of `https://a.com` |
| Requester.QueryVariantsGiveDuplicateLinks | crawler/requester.py:114-116 | `/a` and `/a?x=1` on one page give the same link twice |
| Requester.ArticleSearchSound | crawler/requester.py:83-118 | every link a search returns is unvisited and is a link the page's hrefs give against an empty `visited` |
| Requester.FindArticleLinks | crawler/requester.py:83-118 | the search equals its specification; a delay in [1, MAX_DELAY] stays there; links come only with the halved delay; no link is visited or holds `#` or `?` |
| Robots.RobotsUrlOfPage | crawler/robots_sitemaps_parser.py:21 | the robots URL of a page's base URL is that base URL followed by `/robots.txt` when the page's scheme is one `urljoin` resolves against, and `/robots.txt` alone otherwise |
| Robots.SameSiteSameRobots | crawler/scraper.py:21-23 | two URLs with the same scheme and network location consult the same robots.txt |
| Robots.SitemapLineByPrefix | crawler/robots_sitemaps_parser.py:31 | a line is a directive if and only if, after its leading whitespace, it starts with `sitemap:` in any letter case |
| Robots.DirectiveColon | crawler/robots_sitemaps_parser.py:31-32 | in a directive line, the first colon is the one that ends `sitemap:`, so the split takes exactly the text after the directive's name |
| Robots.DirectiveValue | crawler/robots_sitemaps_parser.py:31-32 | a line yields a value if and only if it is a directive, and the value is the stripped text after `sitemap:` |
| Robots.DirectivesAppend | crawler/robots_sitemaps_parser.py:30-33 | the directives of two runs of lines are those of the first followed by those of the second |
| Robots.DirectivesMatchLines | crawler/robots_sitemaps_parser.py:30-33 | there is one entry per directive line, and entry i is the value of the i-th directive line |
| Robots.OtherLinesIgnored | crawler/crawler_utils.py:92-95 | dropping a non-directive line leaves the sitemap list unchanged |
| Robots.DirectivesMembership | crawler_utils.py:29-32 | a URL is listed if and only if some line's directive value is that URL |
| Robots.RobotsOf | crawler/robots_sitemaps_parser.py:26-42 | a parser exists if and only if the response has status 200, and the list is then the lines' directives; a non-200 status or a request exception gives `(None, [])` |
| Robots.CollectDirectives | crawler/crawler_utils.py:92-95 | the loop appends exactly the directive values, in line order |
| Robots.FetchAndParseRobotsTxt | crawler/robots_sitemaps_parser.py:10-42 | the function returns what the response for the site's `/robots.txt` determines |
| Sitemaps.IndexRecognised | crawler/crawler_utils.py:118-122 | a `sitemapindex` root is an index, a `urlset` root is not, and a parse error gives false |
| Sitemaps.FirstChild | crawler/crawler_utils.py:141 | `find` gives none if and only if no direct child has the tag, and otherwise the first child with the tag |
| Sitemaps.LocsMembership | crawler/crawler_utils.py:140-143 | a URL is collected if and only if some direct entry child has a first `loc` with non-empty text whose stripped form is that URL |
| Sitemaps.LocsAppend | crawler/crawler_utils.py:140-143 | the entries of two runs of children come in document order |
| Sitemaps.OtherChildIgnored | crawler/crawler_utils.py:166-169 | children with another tag contribute nothing |
| Sitemaps.BlankLocKept | crawler/crawler_utils.py:168-169 | a `<loc>` of blanks passes the emptiness test and yields the empty URL |
| Sitemaps.CollectLocs | crawler_utils.py:76-80 | the loop appends exactly the entries' locs, in document order |
| Sitemaps.ParseSitemapIndex | crawler/crawler_utils.py:124-148 | the result is the index's sitemap locs, or `[]` on a parse error |
| Sitemaps.ParseSitemap | crawler/crawler_utils.py:150-175 | the result is the sitemap's url locs, or `[]` on a parse error |
| Sitemaps.FetchAndParseSitemaps | crawler/crawler_utils.py:177-215 | the returned set equals the gathering specification: empty beyond `max_depth`, an index one level down, a sitemap's URLs |
| Sitemaps.GatheredAppend | crawler/crawler_utils.py:194-210 | two lists of sitemaps gather the union of what each gathers |
| Sitemaps.FailedFetchSkipped | crawler/crawler_utils.py:211-212 | a sitemap whose request fails is skipped and the rest are still gathered |
| Sitemaps.GatheredMembership | crawler_utils.py:126-142 | a URL is gathered if and only if one of the listed sitemaps contributes it |
| Sitemaps.GatheredFromLeaves | crawler_utils.py:126-146 | every gathered URL is listed by some leaf sitemap (not an index) |
| Sitemaps.SelfIndexTerminates | crawler/crawler_utils.py:191-205 | an index that lists only itself terminates on the depth bound and gathers nothing |
| Sitemaps.GatheredMonotone | crawler/crawler_utils.py:177-215 | raising `max_depth` never loses a URL |
| GlobalCrawler.VisitPageShape | crawler/crawler.py:192-210 | a visit adds the URL to `visited` and counts it once before fetching, appends only the sleeps, keeps a delay in [1, 60] and appends at most the page's own article |
| GlobalCrawler.VisitPageGrows | crawler/crawler.py:192-210 | visiting a new page keeps the article list made of distinct visited pages |
| GlobalCrawler.SearchLinksSound | crawler/crawler.py:139-175 | a search leaves the visited set alone, and every link it returns is unvisited and a candidate link of the page |
| GlobalCrawler.VisitPageLinks | crawler/crawler.py:161-172 | the links a visit walks are unvisited candidate links of the page |
| GlobalCrawler.CrawlSkipped | crawler/crawler.py:185-190 | a crawl stopped by the depth, visited or count guard, or by robots.txt, changes nothing; a forbidden URL stays unvisited and uncounted |
| GlobalCrawler.CrawlGrows | crawler/crawler.py:181-221 | a crawl only grows the globals: each newly visited page counts once, articles and sleeps are appended, the delay stays in [1, 60], and articles stay distinct visited pages |
| GlobalCrawler.CrawlCountBounded | crawler/crawler.py:185-193 | with a limit other than -1, a crawl that starts within it ends within it |
| GlobalCrawler.CrawlWithinReach | crawler/crawler.py:181-218 | every page visited lies within `max_depth - depth` link steps of the start URL |
| GlobalCrawler.AsWrittenLinksNeverDescend | crawler/crawler.py:214-218 | as written, with `MAX_CRAWL_COUNT = -1`, the link loop only sleeps and visits nothing |
| GlobalCrawler.OnlyStartUrlCrawled | crawler/crawler.py:181-218 | as written, a crawl visits its start URL at most, and every link found there stays unvisited |
| GlobalCrawler.CrawlVisitsOrBlocks | crawler/crawler.py:185-193 | with no count limit, a crawl within `max_depth` visits its URL unless robots.txt forbids it |
| GlobalCrawler.IntendedLinksAllVisited | crawler/crawler.py:213-218 | with the corrected child test, every link of the loop ends up visited or forbidden |
| GlobalCrawler.IntendedCrawlFollowsLinks | crawler/crawler.py:213-218 | with the corrected child test, every link found on a crawled page below `max_depth` ends up visited or forbidden |
| GlobalCrawler.ScrapedSpec | crawler/crawler.py:230-266 | a document comes back if and only if the fetch succeeds with non-empty text, and it is the page's; only the sleep log changes, starting with the pause |
| GlobalCrawler.SitemapStep | crawler/crawler.py:300-303 | one turn of the sitemap loop: an admitted URL adds one to the count, appends the result of `scrape_url` for it (a document or None) and logs the pause and the request's waits, all else unchanged; a URL the test refuses changes nothing |
| GlobalCrawler.SitemapScrapeState | crawler/crawler.py:298-303 | the whole loop counts the URLs it admits, appends their `scrape_url` results in list order and logs their sleeps; the visited set and the delay stay |
| GlobalCrawler.AdmittedWithoutRobots | crawler/crawler.py:300 | without a robots parser the test admits every URL, whatever the count |
| GlobalCrawler.AdmittedUnlimited | crawler/crawler.py:300 | with a parser and `MAX_CRAWL_COUNT` of -1 the test admits exactly the URLs robots.txt allows |
| GlobalCrawler.AllowedInEnumerates | crawler/crawler.py:298-300 | from a list without repetition, the allowed URLs in list order name each allowed URL once and nothing else |
| GlobalCrawler.NoRobotsScrapesEveryUrl | crawler/crawler.py:298-303 | without a robots parser every sitemap URL is scraped and counted, and the article list grows by the `scrape_url` result of each URL, in order, possibly None |
| GlobalCrawler.SitemapCountBounded | crawler/crawler.py:298-303 | with a parser and a limit, the count ends at most one past the limit, and exactly one entry is appended per counted URL |
| GlobalCrawler.SitemapScrapesOnePastLimit | crawler/crawler.py:300 | a URL allowed at the limit is still scraped |
| GlobalCrawler.Crawler.MakeRequest | crawler/crawler.py:36-68 | the retry loop backs off from the global delay and appends its waits to the sleep log |
| GlobalCrawler.Crawler.FindArticleLinks | crawler/crawler.py:139-175 | the search updates the globals as the search specification says |
| GlobalCrawler.Crawler.Enter | crawler/crawler.py:192-212 | the visit updates the globals and returns the links as the visit specification says |
| GlobalCrawler.Crawler.Crawl | crawler/crawler.py:181-221 | the recursive `crawl`, with the child test as written, leaves the globals as the crawl specification says |
| GlobalCrawler.Crawler.CrawlLinks | crawler/crawler.py:214-218 | the link loop, with the child test as written, leaves the globals as the loop specification says |
| GlobalCrawler.Crawler.ScrapeUrl | crawler/crawler.py:230-266 | `scrape_url` returns and logs as the scrape specification says |
| GlobalCrawler.Crawler.CrawlWebsite | crawler/crawler.py:177-225 | `crawl_website`, with the child test as written, leaves the globals as one crawl from the start URL at `depth` does under the crawl specification |
| GlobalCrawler.Crawler.ScrapeAll | crawler/crawler.py:298-303 | the loop over the sitemap URLs leaves the globals as the sitemap loop specification says, for the order in which it walks the set |
| GlobalCrawler.Crawler.RunMain | crawler/crawler.py:273-303 | `main` reads the start URL's robots.txt, runs the recursive crawl when it lists no sitemap, and otherwise scrapes the URLs `fetch_and_parse_sitemaps` gathers, as the `main` specification says |
| GlobalCrawler.SitemapScrapesEachAllowedOnce | crawler/crawler.py:298-303 | with a parser and no count limit, the loop over a list without repetition scrapes each allowed URL once, in list order, and no other: the count grows by their number, and the article list and sleep log by their results and sleeps |
| GlobalCrawler.MainScrapesAllowedSitemapUrls | crawler/crawler.py:286-303 | when robots.txt lists sitemaps, `main` appends the `scrape_url` result of each URL of the sitemaps that robots.txt allows, once, in the set's iteration order, and of no other, and counts them |
| Scraper.IsAllowedFailsOpen | crawler/scraper.py:20-32 | for any two URLs of one site: when its robots.txt cannot be read, every URL of the site is allowed; when it can, a URL is denied if and only if the parsed file forbids it |
| Scraper.IsAllowedReadsSiteRobots | crawler/scraper.py:20-27 | for a scheme `urljoin` resolves against, the file consulted is the URL's base URL followed by `/robots.txt` |
| Scraper.ScrapedSpec | crawler/scraper.py:34-70 | a document comes back if and only if a 200 arrives within `MAX_RETRIES` attempts and the text is non-empty, and it is the page's; only the sleep log changes |
| Scraper.ScrapedAsWrittenNone | crawler/scraper.py:51-70 | as written, `scrape_url` returns None for every URL, losing every document the intended version returns, after the same waits |
| Scraper.CrawlAsWrittenCollectsNothing | crawler/scraper.py:92-130 | as written, a crawl appends no article and visits no page but its start URL |
| Scraper.CrawlCollectsStartPage | crawler/scraper.py:92-117 | a crawl whose start page is admitted, downloads and has text collects that page's article |
| Scraper.CrawlAsWrittenLosesArticle | crawler/scraper.py:103-120 | where the start page is admitted, downloads and has text, the intended crawl collects its article and the crawl as written does not |
| Scraper.VisitPageSpec | crawler/scraper.py:99-122 | a visit adds the URL to `visited`, appends at most its own article, and links come with a delay of at least 1 |
| Scraper.VisitPageLinks | crawler/scraper.py:122 | the links a visit walks are unvisited candidate links of the page |
| Scraper.CrawlSkipped | crawler/scraper.py:92-97 | a crawl stopped by the depth, visited or count guard, or by robots.txt, changes nothing; a forbidden URL stays unvisited |
| Scraper.CrawlGrows | crawler/scraper.py:89-130 | a crawl only grows the shared state, and articles stay distinct visited pages |
| Scraper.CrawlWithinReach | crawler/scraper.py:89-127 | the count passed down bounds the path length: every page lies within the smaller of the depth bound and the remaining count, in link steps of the start |
| Scraper.CrawlVisitsOrBlocks | crawler/scraper.py:92-100 | a crawl within both bounds visits its URL unless robots.txt forbids it |
| Scraper.SiblingsAllVisited | crawler/scraper.py:123-127 | siblings see the same count, so while it is under the limit every link of the loop gets visited or is forbidden, however many there are |
| Scraper.CrawlWebsiteArticles | crawler/scraper.py:87-136 | the returned articles are distinct pages, all in the caller's `visited`, which only grows |
| Scraper.Scraper.Fetch | crawler/scraper.py:105 | `make_request` appends its waits to the sleep log |
| Scraper.Scraper.ScrapeUrl | crawler/scraper.py:34-70 | `scrape_url` returns and logs as the scrape specification says |
| Scraper.Scraper.Enter | crawler/scraper.py:99-122 | the visit updates the shared state and returns the links and delay as the visit specification says |
| Scraper.Scraper.Crawl | crawler/scraper.py:89-130 | the recursive `crawl` leaves the shared state as the crawl specification says |
| Scraper.Scraper.CrawlLinks | crawler/scraper.py:123-127 | the link loop leaves the shared state as the loop specification says |
| Scraper.Scraper.CrawlWebsite | crawler/scraper.py:72-136 | `crawl_website` starts a fresh article list, crawls once and returns that list |
| RootCrawler.VisitPageSpec | crawler.py:189-203 | a visit counts the URL once, appends at most its article, keeps the delay in [1, 60], and returns all the page's candidate links, with no visited filter, or none |
| RootCrawler.VisitPageGrows | crawler.py:189-200 | visiting a new page keeps the article list made of distinct visited pages |
| RootCrawler.CrawlGrows | crawler.py:178-208 | a crawl only grows the globals, each new page counted once |
| RootCrawler.CrawlCountBounded | crawler.py:182-208 | `crawl_count` never exceeds 30 |
| RootCrawler.SearchFailureEndsCrawl | crawler.py:178-203 | an exception in the link search escapes `crawl`, since this draft has no `try` |
| RootCrawler.VisitedLinkSkipped | crawler.py:182-183 | a link back to a visited page, which this draft's search returns, changes nothing |
| RootCrawler.SitemapLoopKeepsLast | crawler.py:241-245 | the loop keeps only the result of the last admitted URL, keeps the old value when it admits none, and changes no global but the sleeps |
| RootCrawler.RecursiveModeEndsUnbound | crawler.py:228-251 | when robots.txt lists no sitemap, `main` runs the recursive crawl and ends with its exception or with `UnboundLocalError` |
| RootCrawler.SitemapLoopAssigns | crawler.py:241-245 | for any earlier value, the loop ends with `articles_content` unassigned if and only if it was unassigned before and the loop admits none of its URLs |
| RootCrawler.SitemapLoopUnassigned | crawler.py:241-249 | the sitemap loop leaves `articles_content` unassigned exactly when it admits no URL |
| RootCrawler.SitemapModeUnboundIffAllForbidden | crawler.py:228-251 | when robots.txt lists sitemaps, `main` ends with `UnboundLocalError` if and only if robots.txt forbids every URL the sitemaps give |
| RootCrawler.Crawler.FindArticleLinks | crawler.py:137-171 | the search updates the globals as the search specification says |
| RootCrawler.Crawler.Enter | crawler.py:189-203 | the visit updates the globals and returns the links as the visit specification says |
| RootCrawler.Crawler.Crawl | crawler.py:178-208 | the recursive `crawl` leaves the globals and the exception flag as the crawl specification says |
| RootCrawler.Crawler.CrawlLinks | crawler.py:204-208 | the link loop leaves the globals as the loop specification says |
| RootCrawler.Crawler.CrawlWebsite | crawler.py:173-214 | `max_depth` is the `depth` argument and the crawl starts at depth 0 |
| RootCrawler.Crawler.ScrapeAll | crawler.py:241-245 | the loop over the sitemap URLs updates the sleeps and `articles_content` as the sitemap loop specification says |
| RootCrawler.Crawler.RunMain | crawler.py:219-251 | `main` reads the start URL's robots.txt and the sitemaps it lists, then updates the globals and ends as the `main` specification says |

## Findings

| source | as written | input that shows it | evidently intended | confidence | as-written member | corrected member |
|---|---|---|---|---|---|---|
| crawler/requester.py:74-78 | a non-integer `Retry-After` reaches `datetime.now(datetime.timezone.utc)`, which reads `timezone` on the class `datetime` and raises `AttributeError`; no date is ever honoured | `Retry-After: Wed, 21 Oct 2015 07:28:00 GMT` | wait until the date, or back off exponentially if it has passed | not executed | Requester.ParseRetryAfterRaisesOnHttpDate | Requester.IntendedRetryAfterDate |
| crawler/scraper.py:61-113 | `scrape_url` and `crawl` call `extract_main_content(html_content, url)`, but the `extractor` module they import defines it with the single parameter `url` (crawler/extractor.py:8); the `TypeError` is caught, so `scrape_url` always returns None and `crawl` collects nothing and follows no link | any page that downloads and has text | extract the text of the fetched page | not executed | Scraper.CrawlAsWrittenLosesArticle | Scraper.CrawlCollectsStartPage |
| crawler/crawler.py:217 | the child test is `crawl_count < MAX_CRAWL_COUNT` with `MAX_CRAWL_COUNT = -1`, documented as "no limit", so no link is ever followed | any start page with links, in recursive mode | `-1` means no limit, as in the guard at line 185 | not executed | GlobalCrawler.OnlyStartUrlCrawled | GlobalCrawler.IntendedCrawlFollowsLinks |

## Left out

- HTTP: `requests.get` and the `Session`/`Retry` adapter setup are oracles (`Responses`, `RobotsFetch`, `SitemapFetch`). `get_clean_content` is not part of this model, because it is a thin wrapper over the request and BeautifulSoup.
- Time: `time.sleep` is recorded in a log rather than slept. The current time in `parse_retry_after` is an input (`untilDate`).
- Parsers: BeautifulSoup gives the page's hrefs (`Site.hrefs`), and ElementTree gives an abstract element tree (`Xml`). `str.splitlines` is taken as given: the robots response is its list of lines.
- `RobotFileParser`: it is represented by the lines it was built from (`RobotsOf`). Its `can_fetch` is an oracle (`Site.canFetch`, `canFetch`).
- Article extraction: newspaper's `Article` is an oracle returning the page's text (`Site.text`). This covers the `extract_main_content` of both `crawler.py` files and `download_and_extract_main_content`. In `crawler/scraper.py`, `Site.text` stands for the evidently intended extraction; the call as written raises (see Findings, `Scraper.ScrapedAsWritten`, `Scraper.CrawledAsWritten`).
- Undefined names: the root `crawler.py` calls `is_allowed` and `scrape_url` without defining them. They are oracles here, and the `NameError` is not modelled.
- Imports that fail: the model assumes every core file's imports succeed; the `ImportError` each of these raises is not modelled.
  - `crawler/scraper.py` imports `DEFAULT_USER_AGENT`, `MAX_DEPTH` and `headers`, and `crawler/requester.py` imports `headers`, from a `config.py` that defines none of them.
  - `crawler/robots_sitemaps_parser.py:1` imports `DEFAULT_USER_AGENT` from `crawler/config.py`, which does not define it (`Robots.FetchAndParseRobotsTxt` models this file).
  - The root `crawler.py` and `crawler_utils.py` (`RootCrawler`, and the root copies in `Robots` and `Sitemaps`) import each other. `crawler.py:10` imports `crawler_utils`, whose line 6 imports `DEFAULT_USER_AGENT` from `crawler`. Without a `crawler/__init__.py`, that name is `crawler.py` loaded a second time, which asks the half-loaded `crawler_utils` for a function it does not define yet. With one, `crawler` is the package, which does not define `DEFAULT_USER_AGENT`.
  - `MAX_DEPTH` is a parameter (`Config.maxDepth`); the user agent and the headers only shape requests, which are oracles.
- Logging, printing, `signal_handler` and `exit`, `setup_logging`, `save_json`, `load_json`, `save_content_to_file`, `create_directories` and the timestamp: I/O with no effect on the modelled decisions.
- `convert_persian_url` is a wrapper over `urllib.parse.quote`.
- Dead code: the commented-out code in triple-quoted strings at the end of both `crawler_utils.py` files. This includes the second `is_allowed` and `get_sitemap_urls`.
- Entry points and tests: `setup.py`, `crawler/main.py` and the test scripts.
- Encodings: `response.encoding` and text decoding are taken as done.
- Urls.UrlJoin: `urljoin` is modelled for an href that starts with `/`, the only kind the crawlers pass; its branch for a relative path is left out because such an href never reaches it (`Urls.RefParts`). The scheme tables are those of CPython 3.12. The `ValueError` that `urlsplit` raises on unbalanced brackets in the network location, and its NFKC check of the network location, are not modelled.
- Common.LowerAscii: only ASCII letters are lowered. This gives the same answer as Python's `lower()` for the `sitemap:` test, because no other character lowers to one of its letters.
- Common.ParseInt: it models `int()` on ASCII digits with sign, surrounding whitespace and single underscores, with the default 4300-digit limit of CPython 3.11 and later (`Common.MaxStrDigits`). A different limit set by `sys.set_int_max_str_digits` is not modelled. The non-ASCII Unicode digits that `int()` also accepts are not modelled; a header value cannot contain them.
- Requester.Pause: waits are exact reals. A float backoff that rounds across the `time.sleep` bound, and the `OverflowError` of converting `2 ** (attempt - 1)` to a float once it exceeds the float range, are not modelled; the model treats a wait above (2^63 - 1) ns as refused and any wait at or below it as slept.
- Sets: the order of iteration over a Python set is not modelled. `main` takes it as a parameter: any sequence that lists each element of `urls_to_crawl` once (`Common.Enumerates`).
- Exceptions other than those modelled: `KeyboardInterrupt`, and exceptions raised inside the oracles (the parsers, the extractor), are not modelled.
