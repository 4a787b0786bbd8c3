/** `fetch_and_parse_robots_txt(base_url)`, which appears three times with the same body
    (`crawler/robots_sitemaps_parser.py`, `crawler/crawler_utils.py`, the root
    `crawler_utils.py`): read `/robots.txt` of the site, hand its lines to a
    `RobotFileParser`, and collect the `Sitemap:` directives.

    The HTTP request is an oracle from URL to outcome, and the body arrives already split
    into lines (`response.text.splitlines()`).  The `RobotFileParser` built from those lines
    is represented by the lines themselves.
 */
module Robots {
  import opened Common
  import opened Urls

  /** What `requests.get(robots_url, ...)` gives: an exception derived from
      `RequestException`, or a response with a status code and the lines of its text. */
  datatype RobotsFetch = NoResponse | RobotsResponse(status: int, lines: seq<string>)

  /** `urljoin(base_url, '/robots.txt')`. */
  function RobotsUrl(baseUrl: string): string {
    assert StartsWith(RobotsPath, "/") by {
      assert RobotsPath[..1] == "/";
    }
    UrlJoin(baseUrl, RobotsPath)
  }

  const RobotsPath: string := "/robots.txt"

  /** `/robots.txt` is a plain path of two segments, neither of them a dot segment. */
  lemma RobotsPathPlain()
    ensures StartsWith(RobotsPath, "/") && !StartsWith(RobotsPath, "//")
    ensures forall c :: c in RobotsPath ==> !IsUnsafe(c) && c != ';' && c != '?' && c != '#'
    ensures ResolvePath(RobotsPath) == RobotsPath
  {
    RobotsPathChars();
    RobotsPathSegments();
    ResolvePathPlain(RobotsPath);
  }

  lemma RobotsPathChars()
    ensures StartsWith(RobotsPath, "/") && !StartsWith(RobotsPath, "//")
    ensures forall c :: c in RobotsPath ==> !IsUnsafe(c) && c != ';' && c != '?' && c != '#'
  {
    assert RobotsPath[..1] == "/";
    assert RobotsPath[1] == 'r';
  }

  lemma RobotsPathSegments()
    ensures NoDotSegment(Split(RobotsPath, '/'))
  {
    var parts := ["", "robots.txt"];
    assert forall x :: x in parts ==> '/' !in x;
    JoinSplit(parts, '/');
    assert JoinWith(parts, '/') == RobotsPath;
    assert parts[1] != "." && parts[1] != "..";
  }

  /** The robots URL of a page's base URL is that base URL followed by `/robots.txt` when
      the page's scheme is one `urljoin` resolves against (even with an empty network
      location), and `/robots.txt` alone otherwise, including when there is no scheme. */
  lemma RobotsUrlOfPage(page: string)
    ensures Scheme(page) != "" && UsesRelative(Scheme(page)) ==> RobotsUrl(BaseUrl(page)) == BaseUrl(page) + RobotsPath
    ensures !(Scheme(page) != "" && UsesRelative(Scheme(page))) ==> RobotsUrl(BaseUrl(page)) == RobotsPath
  {
    if Scheme(page) != "" && UsesRelative(Scheme(page)) {
      RobotsUrlOnSite(page);
    } else if Scheme(page) == "" {
      RobotsUrlWithoutScheme(page);
    } else {
      BaseUrlParses(page);
    }
  }

  lemma RobotsUrlOnSite(page: string)
    requires Scheme(page) != "" && UsesRelative(Scheme(page))
    ensures RobotsUrl(BaseUrl(page)) == BaseUrl(page) + RobotsPath
  {
    RobotsPathPlain();
    JoinPlainPath(page, RobotsPath);
  }

  lemma RobotsUrlWithoutScheme(page: string)
    requires Scheme(page) == ""
    ensures RobotsUrl(BaseUrl(page)) == RobotsPath
  {
    RobotsPathPlain();
    JoinWithoutScheme(page, RobotsPath);
  }

  /** Two URLs with the same scheme and host consult the same robots.txt. */
  lemma SameSiteSameRobots(u: string, v: string)
    requires Scheme(u) == Scheme(v) && Netloc(u) == Netloc(v)
    ensures RobotsUrl(BaseUrl(u)) == RobotsUrl(BaseUrl(v))
  {
  }

  const Directive: string := "sitemap:"

  /** `line.strip().lower().startswith('sitemap:')`.  Lowering only the ASCII letters gives
      the same answer as Python's full `lower()`: no other character lowers to one of the
      letters of `sitemap`. */
  predicate IsSitemapLine(line: string) {
    StartsWith(LowerAscii(Strip(line)), Directive)
  }

  lemma StrippedLineHasPrefix(line: string)
    requires IsSitemapLine(line)
    ensures |TrimStart(line)| >= |Directive| && LowerAscii(TrimStart(line)[..|Directive|]) == Directive
  {
    var t := TrimStart(line);
    var st := Strip(line);
    assert st == t[..|st|] && |st| >= 8;
    assert st[..8] == t[..8];
    LowerAsciiPrefix(st, 8);
  }

  lemma PrefixMakesSitemapLine(line: string)
    requires |TrimStart(line)| >= |Directive| && LowerAscii(TrimStart(line)[..|Directive|]) == Directive
    ensures IsSitemapLine(line)
  {
    var t := TrimStart(line);
    var st := Strip(line);
    assert LowerChar(t[7]) == LowerAscii(t[..8])[7] == ':';
    assert !IsSpace(t[7]);
    assert st == t[..|st|] && |st| >= 8;
    assert st[..8] == t[..8];
    LowerAsciiPrefix(st, 8);
  }

  /** The test looks at the first eight characters after the leading whitespace:
      stripping the end of the line never cuts into `sitemap:`, whose colon is no space. */
  lemma SitemapLineByPrefix(line: string)
    ensures IsSitemapLine(line) <==> |TrimStart(line)| >= |Directive| && LowerAscii(TrimStart(line)[..|Directive|]) == Directive
  {
    if IsSitemapLine(line) {
      StrippedLineHasPrefix(line);
    }
    if |TrimStart(line)| >= |Directive| && LowerAscii(TrimStart(line)[..|Directive|]) == Directive {
      PrefixMakesSitemapLine(line);
    }
  }

  /** The letters of `sitemap` lower only from letters, never from a colon. */
  lemma NameHasNoColon(t: string)
    requires |t| >= |Directive| && LowerAscii(t[..|Directive|]) == Directive
    ensures forall j :: 0 <= j < |Directive| - 1 ==> t[j] != ':'
  {
    var name := LowerAscii(t[..8]);
    assert LowerChar(t[0]) == name[0] == 's' && LowerChar(t[1]) == name[1] == 'i';
    assert LowerChar(t[2]) == name[2] == 't' && LowerChar(t[3]) == name[3] == 'e';
    assert LowerChar(t[4]) == name[4] == 'm' && LowerChar(t[5]) == name[5] == 'a';
    assert LowerChar(t[6]) == name[6] == 'p';
    forall j | 0 <= j < 7 ensures t[j] != ':' {
      if j == 0 {} else if j == 1 {} else if j == 2 {} else if j == 3 {} else if j == 4 {} else if j == 5 {} else {}
    }
  }

  /** Text that starts with `sitemap:` in any letter case has its first colon at position 7. */
  lemma ColonEndsName(t: string)
    requires |t| >= |Directive| && LowerAscii(t[..|Directive|]) == Directive
    ensures IndexOf(t, ':') == |Directive| - 1
  {
    NameHasNoColon(t);
    assert LowerChar(t[7]) == LowerAscii(t[..8])[7] == ':';
    IndexOfAt(t, ':', 7);
  }

  /** The leading whitespace `strip()` removes holds no colon. */
  lemma LeadingSpaceNoColon(line: string)
    ensures ':' !in line[..|line| - |TrimStart(line)|]
    ensures line == line[..|line| - |TrimStart(line)|] + TrimStart(line)
  {
    LeadHasNoColon(line);
    var k := |line| - |TrimStart(line)|;
    assert TrimStart(line) == line[k..];
    assert line == line[..k] + line[k..];
  }

  lemma LeadHasNoColon(line: string)
    ensures ':' !in line[..|line| - |TrimStart(line)|]
  {
    var k := |line| - |TrimStart(line)|;
    var lead := line[..k];
    forall j | 0 <= j < k
      ensures lead[j] != ':'
    {
      assert lead[j] == line[j] && IsSpace(line[j]);
    }
  }

  /** The first colon of a directive line is the one that ends `sitemap:`, so the value
      `line.split(':', 1)[1].strip()` is the text after the directive's name, with surrounding
      whitespace removed. */
  lemma DirectiveColon(line: string)
    requires IsSitemapLine(line)
    ensures ':' in line
    ensures |TrimStart(line)| >= |Directive|
    ensures After(line, ':') == TrimStart(line)[|Directive|..]
  {
    var t := TrimStart(line);
    var k := |line| - |t|;
    SitemapLineByPrefix(line);
    ColonEndsName(t);
    LeadingSpaceNoColon(line);
    IndexOfSkip(line[..k], t, ':');
    assert IndexOf(line, ':') == k + 7;
  }

  /** `line.split(':', 1)[1].strip()` for a line that passes the test, None for any other. */
  function DirectiveOf(line: string): Option<string> {
    if IsSitemapLine(line) then
      DirectiveColon(line);
      Some(Strip(After(line, ':')))
    else None
  }

  /** A directive's value is what follows `sitemap:` (any letter case) once the line's leading
      whitespace is skipped, stripped of whitespace. */
  lemma DirectiveValue(line: string)
    ensures DirectiveOf(line).Some? <==> |TrimStart(line)| >= |Directive| && LowerAscii(TrimStart(line)[..|Directive|]) == Directive
    ensures DirectiveOf(line).Some? ==> DirectiveOf(line).value == Strip(TrimStart(line)[|Directive|..])
  {
    SitemapLineByPrefix(line);
    if IsSitemapLine(line) {
      DirectiveColon(line);
    }
  }

  /** The sitemap list the loop builds from the lines, in line order. */
  function Directives(lines: seq<string>): (r: seq<string>)
    ensures |r| <= |lines|
  {
    FilterMap(lines, DirectiveOf)
  }

  /** Reading a file in two parts gives the directives of the first part, then those of the second. */
  lemma DirectivesAppend(a: seq<string>, b: seq<string>)
    ensures Directives(a + b) == Directives(a) + Directives(b)
  {
    FilterMapAppend(a, b, DirectiveOf);
  }

  /** One entry per directive line, and entry i is the value of directive line i. */
  lemma DirectivesMatchLines(lines: seq<string>)
    ensures |Directives(lines)| == |Kept(lines, DirectiveOf)|
    ensures forall i :: 0 <= i < |Kept(lines, DirectiveOf)| ==>
              IsSitemapLine(Kept(lines, DirectiveOf)[i]) && DirectiveOf(Kept(lines, DirectiveOf)[i]) == Some(Directives(lines)[i])
  {
    FilterMapKept(lines, DirectiveOf);
  }

  /** Lines that are not directives contribute nothing: dropping one leaves the list as it is. */
  lemma OtherLinesIgnored(a: seq<string>, line: string, b: seq<string>)
    requires !IsSitemapLine(line)
    ensures Directives(a + [line] + b) == Directives(a + b)
  {
    DirectivesAppend(a + [line], b);
    DirectivesAppend(a, [line]);
    DirectivesAppend(a, b);
    assert FilterMap([line], DirectiveOf) == [] + FilterMap([line][1..], DirectiveOf);
  }

  /** Membership both ways: a URL is listed exactly when some directive line carries it. */
  lemma DirectivesMembership(lines: seq<string>, url: string)
    ensures url in Directives(lines) <==> exists i :: 0 <= i < |lines| && DirectiveOf(lines[i]) == Some(url)
  {
    FilterMapMembership(lines, DirectiveOf, url);
  }

  /** The returned pair: the parser is present only for a 200 response, and the sitemap list
      is then the directives of its lines; otherwise `(None, [])`. */
  function RobotsOf(outcome: RobotsFetch): (r: (Option<seq<string>>, seq<string>))
    ensures r.0.Some? <==> outcome.RobotsResponse? && outcome.status == 200
    ensures r.0.None? ==> r.1 == []
    ensures r.0.Some? ==> r.0.value == outcome.lines && r.1 == Directives(outcome.lines)
  {
    match outcome
    case NoResponse => (None, [])
    case RobotsResponse(status, lines) => if status == 200 then (Some(lines), Directives(lines)) else (None, [])
  }

  /** Directives of the lines before `i + 1`: those before `i`, then line i's. */
  lemma DirectivesStep(lines: seq<string>, i: nat)
    requires i < |lines|
    ensures Directives(lines[..i + 1]) == Directives(lines[..i]) + (if IsSitemapLine(lines[i]) then [DirectiveOf(lines[i]).value] else [])
  {
    assert lines[..i + 1] == lines[..i] + [lines[i]];
    DirectivesAppend(lines[..i], [lines[i]]);
    assert [lines[i]][1..] == [];
  }

  /** The loop over `response.text.splitlines()` that appends each directive's value. */
  method CollectDirectives(lines: seq<string>) returns (sitemapUrls: seq<string>)
    ensures sitemapUrls == Directives(lines)
  {
    sitemapUrls := [];
    for i := 0 to |lines|
      invariant sitemapUrls == Directives(lines[..i])
    {
      DirectivesStep(lines, i);
      if IsSitemapLine(lines[i]) {
        DirectiveColon(lines[i]);
        var sitemapUrl := Strip(After(lines[i], ':'));
        sitemapUrls := sitemapUrls + [sitemapUrl];
      }
    }
    assert lines[..|lines|] == lines;
  }

  /** `fetch_and_parse_robots_txt(base_url)` with `get` in place of `requests.get`. */
  method FetchAndParseRobotsTxt(get: string -> RobotsFetch, baseUrl: string) returns (rp: Option<seq<string>>, sitemapUrls: seq<string>)
    ensures (rp, sitemapUrls) == RobotsOf(get(RobotsUrl(baseUrl)))
  {
    var robotsUrl := RobotsUrl(baseUrl);
    sitemapUrls := [];
    var response := get(robotsUrl);
    match response
    case NoResponse =>
      rp := None;
    case RobotsResponse(status, lines) =>
      if status == 200 {
        rp := Some(lines);
        sitemapUrls := CollectDirectives(lines);
      } else {
        rp := None;
      }
  }

  /** What `main` reads for its start URL: `fetch_and_parse_robots_txt` of the URL's
      `scheme://netloc`. */
  function SiteRobots(get: string -> RobotsFetch, pageUrl: string): (Option<seq<string>>, seq<string>) {
    RobotsOf(get(RobotsUrl(BaseUrl(pageUrl))))
  }
}
