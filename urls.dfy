/** The part of Python's `urllib.parse` (CPython 3.12) the crawler depends on:
    `urlsplit` and `urlparse`, the `scheme://netloc` base URL the crawler builds from
    them, `urlunsplit` and `urlunparse`, and `urljoin` of a base URL with an href that
    starts with `/`, including its removal of `.` and `..` path segments.
 */
module Urls {
  import opened Common

  predicate IsAsciiLetter(c: char) {
    ('a' <= c <= 'z') || ('A' <= c <= 'Z')
  }

  /** `urllib.parse.scheme_chars`. */
  predicate IsSchemeChar(c: char) {
    IsAsciiLetter(c) || IsDigit(c) || c == '+' || c == '-' || c == '.'
  }

  // ---------------------------------------------------------------------
  // urlsplit and urlparse

  /** `_WHATWG_C0_CONTROL_OR_SPACE`: what `urlsplit` strips from the front of a URL. */
  predicate IsC0OrSpace(c: char) {
    c <= ' '
  }

  /** `_UNSAFE_URL_BYTES_TO_REMOVE`: what `urlsplit` deletes wherever it occurs. */
  predicate IsUnsafe(c: char) {
    c == '\t' || c == '\r' || c == '\n'
  }

  /** `url.lstrip(_WHATWG_C0_CONTROL_OR_SPACE)`. */
  function StripLeadingC0(u: string): (r: string)
    ensures r != [] ==> !IsC0OrSpace(r[0])
    ensures u != [] && !IsC0OrSpace(u[0]) ==> r == u
  {
    if u != [] && IsC0OrSpace(u[0]) then StripLeadingC0(u[1..]) else u
  }

  /** Every tab, carriage return and line feed removed. */
  function RemoveUnsafe(u: string): (r: string)
    ensures forall c :: c in r <==> c in u && !IsUnsafe(c)
    ensures u != [] && !IsUnsafe(u[0]) ==> r != [] && r[0] == u[0]
  {
    if u == [] then []
    else (if IsUnsafe(u[0]) then [] else [u[0]]) + RemoveUnsafe(u[1..])
  }

  /** A URL free of those characters is left as it is. */
  lemma {:induction false} RemoveUnsafeKeeps(u: string)
    requires forall c :: c in u ==> !IsUnsafe(c)
    ensures RemoveUnsafe(u) == u
  {
    if u != [] {
      assert forall c :: c in u[1..] ==> c in u;
      RemoveUnsafeKeeps(u[1..]);
      assert [u[0]] + u[1..] == u;
    }
  }

  /** The text `urlsplit` goes on to split. */
  function Cleaned(u: string): (r: string)
    ensures forall c :: c in r ==> !IsUnsafe(c)
  {
    RemoveUnsafe(StripLeadingC0(u))
  }

  /** `urlsplit` takes the text before the first `:` as the scheme when it is
      non-empty, starts with an ASCII letter and holds only scheme characters. */
  predicate HasScheme(u: string) {
    var i := IndexOf(u, ':');
    && 0 < i < |u|
    && IsAsciiLetter(u[0])
    && forall j :: 0 <= j < i ==> IsSchemeChar(u[j])
  }

  /** What follows `scheme:`, or the whole text when there is no scheme. */
  function AfterScheme(u: string): string {
    if HasScheme(u) then u[IndexOf(u, ':') + 1..] else u
  }

  /** The network location: after a leading `//`, everything up to the first `/`, `?` or `#`. */
  function NetlocOf(rest: string): (r: string)
    ensures forall j :: 0 <= j < |r| ==> r[j] != '/' && r[j] != '?' && r[j] != '#'
    ensures StartsWith(rest, "//") ==> |r| + 2 <= |rest| && rest[2..2 + |r|] == r
  {
    if StartsWith(rest, "//") then UpTo(rest[2..], {'/', '?', '#'}) else ""
  }

  /** What follows the network location. */
  function AfterNetloc(rest: string): (r: string)
    ensures StartsWith(rest, "//") && r != [] ==> r[0] in {'/', '?', '#'}
  {
    if StartsWith(rest, "//") then rest[2 + |NetlocOf(rest)|..] else rest
  }

  /** The scheme `urlsplit` finds in a cleaned URL, lower-cased. */
  function SchemeOf(u: string): (r: string)
    requires HasScheme(u)
    ensures r != [] && IsAsciiLetter(r[0])
    ensures forall j :: 0 <= j < |r| ==> IsSchemeChar(r[j]) && LowerChar(r[j]) == r[j]
  {
    var r := LowerAscii(u[..IndexOf(u, ':')]);
    assert forall j :: 0 <= j < |r| ==> r[j] == LowerChar(u[j]) && IsSchemeChar(u[j]);
    r
  }

  /** The path: what follows the network location, up to the first `#` and then the first `?`. */
  function PathOf(tail: string): (r: string)
    ensures StartsWith(tail, r)
    ensures '#' !in r && '?' !in r
    ensures r != [] ==> r[0] == tail[0]
  {
    var beforeFragment := Before(tail, '#');
    var path := Before(beforeFragment, '?');
    assert forall j :: 0 <= j < |path| ==> path[j] == beforeFragment[j];
    path
  }

  /** The query: after the first `?` that comes before the first `#`. */
  function QueryOf(tail: string): string {
    var beforeFragment := Before(tail, '#');
    if '?' in beforeFragment then After(beforeFragment, '?') else ""
  }

  /** The fragment: after the first `#`. */
  function FragmentOf(tail: string): string {
    if '#' in tail then After(tail, '#') else ""
  }

  datatype SplitResult = SplitResult(scheme: string, netloc: string, path: string, query: string, fragment: string)

  /** `urlsplit(url, scheme)`: the scheme (lower-cased, or the default), the network
      location, then the path, query and fragment split at the first `#` and the first `?`. */
  function UrlSplit(url: string, defaultScheme: string): SplitResult {
    var u := Cleaned(url);
    var rest := AfterScheme(u);
    var tail := AfterNetloc(rest);
    SplitResult(if HasScheme(u) then SchemeOf(u) else defaultScheme,
                NetlocOf(rest), PathOf(tail), QueryOf(tail), FragmentOf(tail))
  }

  /** `urlparse(u).scheme`: lower-cased, empty when there is none. */
  function Scheme(u: string): (r: string)
    ensures r == UrlSplit(u, "").scheme
    ensures r != [] ==> IsAsciiLetter(r[0])
    ensures forall j :: 0 <= j < |r| ==> IsSchemeChar(r[j]) && LowerChar(r[j]) == r[j]
  {
    var c := Cleaned(u);
    if HasScheme(c) then SchemeOf(c) else ""
  }

  /** `urlparse(u).netloc`. */
  function Netloc(u: string): (r: string)
    ensures r == UrlSplit(u, "").netloc
    ensures forall j :: 0 <= j < |r| ==> r[j] != '/' && r[j] != '?' && r[j] != '#' && !IsUnsafe(r[j])
  {
    var rest := AfterScheme(Cleaned(u));
    var r := NetlocOf(rest);
    assert forall j :: 0 <= j < |r| ==> r[j] in rest;
    r
  }

  /** `f"{urlparse(url).scheme}://{urlparse(url).netloc}"`. */
  function BaseUrl(u: string): (r: string)
    ensures r == Scheme(u) + "://" + Netloc(u)
    ensures r != [] && r[0] != '/'
  {
    Scheme(u) + "://" + Netloc(u)
  }

  /** Neither the scheme nor the base URL holds `#` or `?`. */
  lemma BaseUrlUncut(page: string)
    ensures '#' !in Scheme(page) && '?' !in Scheme(page)
    ensures '#' !in BaseUrl(page) && '?' !in BaseUrl(page)
  {
    var scheme, netloc := Scheme(page), Netloc(page);
    assert '#' !in scheme && '?' !in scheme by {
      assert forall j :: 0 <= j < |scheme| ==> IsSchemeChar(scheme[j]);
    }
    assert '#' !in netloc && '?' !in netloc;
    assert '#' !in "://" && '?' !in "://";
  }

  /** `urllib.parse.uses_params`. */
  predicate UsesParams(scheme: string) {
    scheme in {"", "ftp", "hdl", "prospero", "http", "imap", "https", "shttp", "rtsp", "rtsps",
               "rtspu", "sip", "sips", "mms", "sftp", "tel"}
  }

  /** The position of the last `c` in `s`. */
  function LastIndexOf(s: string, c: char): (r: nat)
    requires c in s
    ensures r < |s| && s[r] == c
    ensures forall j :: r < j < |s| ==> s[j] != c
  {
    if s[|s| - 1] == c then |s| - 1
    else
      assert c in s[..|s| - 1] by {
        var k :| 0 <= k < |s| && s[k] == c;
        assert s[..|s| - 1][k] == c;
      }
      LastIndexOf(s[..|s| - 1], c)
  }

  /** `_splitparams(path)`: the path up to the first `;` after its last `/` (the first
      `;` at all when there is no `/`), and the parameters after that `;`. */
  function SplitParams(path: string): (r: (string, string))
    requires ';' in path
    ensures StartsWith(path, r.0)
    ensures '/' in path ==> |r.0| > LastIndexOf(path, '/')
    ensures r.1 != "" ==> path == r.0 + ";" + r.1
    ensures r.1 == "" ==> path == r.0 || path == r.0 + ";"
    ensures forall c :: c in r.0 ==> c in path
    ensures forall c :: c in r.1 ==> c in path
  {
    var start := if '/' in path then LastIndexOf(path, '/') else 0;
    var i := start + IndexOf(path[start..], ';');
    if i == |path| then (path, "")
    else
      assert path == path[..i] + ";" + path[i + 1..];
      (path[..i], path[i + 1..])
  }

  datatype ParseResult = ParseResult(scheme: string, netloc: string, path: string, params: string, query: string, fragment: string)

  /** `urlparse(url, scheme)`: `urlsplit`, then, for a scheme in `uses_params` whose path
      holds a `;`, the parameters split off the path. */
  function UrlParse(url: string, defaultScheme: string): (r: ParseResult)
    ensures r.scheme == UrlSplit(url, defaultScheme).scheme && r.netloc == UrlSplit(url, defaultScheme).netloc
    ensures '#' !in r.path && '?' !in r.path && '#' !in r.params && '?' !in r.params
  {
    var s := UrlSplit(url, defaultScheme);
    if UsesParams(s.scheme) && ';' in s.path then
      var p := SplitParams(s.path);
      ParseResult(s.scheme, s.netloc, p.0, p.1, s.query, s.fragment)
    else
      ParseResult(s.scheme, s.netloc, s.path, "", s.query, s.fragment)
  }

  // ---------------------------------------------------------------------
  // urlunsplit and urlunparse

  /** `urllib.parse.uses_netloc`. */
  predicate UsesNetloc(scheme: string) {
    scheme in {"", "ftp", "http", "gopher", "nntp", "telnet", "imap", "wais", "file", "mms", "https",
               "shttp", "snews", "prospero", "rtsp", "rtsps", "rtspu", "rsync", "svn", "svn+ssh",
               "sftp", "nfs", "git", "git+ssh", "ws", "wss", "itms-services"}
  }

  /** A path after a network location gets a leading `/` when it lacks one. */
  function Rooted(path: string): (r: string)
    ensures path == [] ==> r == []
    ensures path != [] ==> r != [] && r[0] == '/'
    ensures StartsWith(path, "/") ==> r == path
  {
    if path != "" && path[0] != '/' then "/" + path else path
  }

  /** The part of `urlunsplit` before the query: `scheme:`, then `//netloc` when there is
      a network location (or the scheme uses one and the path is empty or rooted). */
  function UnsplitHead(scheme: string, netloc: string, url: string): string {
    var u :=
      if netloc != "" then "//" + netloc + Rooted(url)
      else if StartsWith(url, "//") then "//" + url
      else if scheme != "" && UsesNetloc(scheme) && (url == "" || url[0] == '/') then "//" + url
      else url;
    if scheme != "" then scheme + ":" + u else u
  }

  /** `urlunsplit((scheme, netloc, url, query, fragment))`: empty query and fragment are left out. */
  function UrlUnsplit(scheme: string, netloc: string, url: string, query: string, fragment: string): string {
    UnsplitHead(scheme, netloc, url)
    + (if query != "" then "?" + query else "")
    + (if fragment != "" then "#" + fragment else "")
  }

  /** The path `urlunparse` writes: the parameters follow a `;` when there are any. */
  function WithParams(path: string, params: string): (r: string)
    ensures StartsWith(r, path)
    ensures params == "" ==> r == path
  {
    if params != "" then path + ";" + params else path
  }

  /** `urlunparse(parts)`. */
  function UrlUnparse(p: ParseResult): string {
    UrlUnsplit(p.scheme, p.netloc, WithParams(p.path, p.params), p.query, p.fragment)
  }

  // ---------------------------------------------------------------------
  // Path segments

  /** `s.split(c)`: the pieces between the occurrences of `c`. */
  function Split(s: string, c: char): (r: seq<string>)
    ensures r != []
    ensures forall x :: x in r ==> c !in x
    decreases |s|
  {
    if c in s then [Before(s, c)] + Split(After(s, c), c) else [s]
  }

  /** `c.join(parts)`. */
  function JoinWith(parts: seq<string>, c: char): string
    decreases |parts|
  {
    if parts == [] then ""
    else if |parts| == 1 then parts[0]
    else parts[0] + [c] + JoinWith(parts[1..], c)
  }

  /** Joining the pieces of a split gives the text back. */
  lemma {:induction false} SplitJoin(s: string, c: char)
    ensures JoinWith(Split(s, c), c) == s
    decreases |s|
  {
    if c in s {
      var rest := After(s, c);
      SplitJoin(rest, c);
      var r := Split(s, c);
      assert r[0] == Before(s, c) && r[1..] == Split(rest, c);
    }
  }

  /** Splitting a join of pieces free of `c` gives the pieces back. */
  lemma {:induction false} JoinSplit(parts: seq<string>, c: char)
    requires parts != [] && forall x :: x in parts ==> c !in x
    ensures Split(JoinWith(parts, c), c) == parts
    decreases |parts|
  {
    assert parts[0] in parts;
    if |parts| > 1 {
      var rest := JoinWith(parts[1..], c);
      assert JoinWith(parts, c) == parts[0] + [c] + rest;
      SplitFirst(parts[0], rest, c);
      assert forall x :: x in parts[1..] ==> x in parts;
      JoinSplit(parts[1..], c);
      assert parts == [parts[0]] + parts[1..];
    } else {
      assert JoinWith(parts, c) == parts[0];
    }
  }

  /** A piece free of `c`, then `c`, splits into that piece and the split of the rest. */
  lemma SplitFirst(a: string, rest: string, c: char)
    requires c !in a
    ensures Split(a + [c] + rest, c) == [a] + Split(rest, c)
  {
    var s := a + ([c] + rest);
    assert a + [c] + rest == s;
    IndexOfSkip(a, [c] + rest, c);
    assert s[..|a|] == a;
    assert After(s, c) == rest;
  }

  /** A piece `d` stays out of a join of pieces without it. */
  lemma {:induction false} JoinWithAvoids(parts: seq<string>, c: char, d: char)
    requires c != d && forall x :: x in parts ==> d !in x
    ensures d !in JoinWith(parts, c)
    decreases |parts|
  {
    if |parts| > 1 {
      assert forall x :: x in parts[1..] ==> x in parts;
      JoinWithAvoids(parts[1..], c, d);
      assert parts[0] in parts;
    } else if |parts| == 1 {
      assert parts[0] in parts;
    }
  }

  /** The pieces of a text without `d` are without `d`. */
  lemma {:induction false} SplitAvoids(s: string, c: char, d: char)
    requires d !in s
    ensures forall x :: x in Split(s, c) ==> d !in x
    decreases |s|
  {
    if c in s {
      var after := After(s, c);
      assert forall j :: 0 <= j < |after| ==> after[j] == s[|Before(s, c)| + 1 + j];
      SplitAvoids(after, c, d);
      var b := Before(s, c);
      assert forall j :: 0 <= j < |b| ==> b[j] == s[j];
    }
  }

  /** A list of path segments none of which is `.` or `..`. */
  predicate NoDotSegment(segments: seq<string>) {
    forall x :: x in segments ==> x != "." && x != ".."
  }

  /** `urljoin`'s loop over the segments: `..` drops the last segment kept so far (if any),
      `.` is skipped, and every other segment is kept. */
  function RemoveDots(segments: seq<string>): (r: seq<string>)
    ensures NoDotSegment(r)
    ensures forall x :: x in r ==> x in segments
    decreases |segments|
  {
    if segments == [] then []
    else
      var init := segments[..|segments| - 1];
      var prev := RemoveDots(init);
      var seg := segments[|segments| - 1];
      assert forall x :: x in init ==> x in segments;
      if seg == ".." then
        (if prev == [] then [] else DropLastKeeps(prev); prev[..|prev| - 1])
      else if seg == "." then prev
      else prev + [seg]
  }

  /** Dropping the last segment keeps the others. */
  lemma DropLastKeeps(xs: seq<string>)
    requires xs != [] && NoDotSegment(xs)
    ensures NoDotSegment(xs[..|xs| - 1])
    ensures forall x :: x in xs[..|xs| - 1] ==> x in xs
  {
    var init := xs[..|xs| - 1];
    forall x | x in init
      ensures x in xs && x != "." && x != ".."
    {
      var k :| 0 <= k < |init| && init[k] == x;
      assert xs[k] == x;
      assert xs[k] in xs;
    }
  }

  /** Segments without `.` or `..` are kept as they are. */
  lemma {:induction false} RemoveDotsPlain(segments: seq<string>)
    requires NoDotSegment(segments)
    ensures RemoveDots(segments) == segments
    decreases |segments|
  {
    if segments != [] {
      var init := segments[..|segments| - 1];
      assert forall x :: x in init ==> x in segments;
      RemoveDotsPlain(init);
      assert segments[|segments| - 1] in segments;
      assert init + [segments[|segments| - 1]] == segments;
    }
  }

  /** The segments `urljoin` keeps: those left after dot removal, and an empty one more
      when the last segment was `.` or `..` (so the path ends with `/`). */
  function KeptSegments(segments: seq<string>): (r: seq<string>)
    requires segments != []
    ensures NoDotSegment(r)
    ensures forall x :: x in r ==> x == "" || x in segments
  {
    var last := segments[|segments| - 1];
    RemoveDots(segments) + (if last == "." || last == ".." then [""] else [])
  }

  /** The path `urljoin` builds from a path that starts with `/` (see `RefParts`): the kept
      segments joined by `/`; `/` when that is empty. */
  function ResolvePath(path: string): (r: string)
    ensures r != []
  {
    var joined := JoinWith(KeptSegments(Split(path, '/')), '/');
    if joined == "" then "/" else joined
  }

  /** A path none of whose segments is `.` or `..` is kept as it is. */
  lemma ResolvePathPlain(path: string)
    requires path != [] && NoDotSegment(Split(path, '/'))
    ensures ResolvePath(path) == path
  {
    var segments := Split(path, '/');
    RemoveDotsPlain(segments);
    var last := segments[|segments| - 1];
    assert last in segments;
    assert KeptSegments(segments) == RemoveDots(segments) + [];
    assert KeptSegments(segments) == segments;
    SplitJoin(path, '/');
  }

  /** `/` is two empty segments. */
  lemma SlashSegments()
    ensures Split("/", '/') == ["", ""]
  {
    assert "/"[..0] == "" && "/"[1..] == "";
    IndexOfAt("/", '/', 0);
    assert Split("", '/') == [""];
  }

  /** The resolved path has no `.` or `..` segment left. */
  lemma ResolvePathNormal(path: string)
    ensures NoDotSegment(Split(ResolvePath(path), '/'))
  {
    var kept := KeptSegments(Split(path, '/'));
    if JoinWith(kept, '/') == "" {
      SlashSegments();
    } else {
      assert forall x :: x in kept ==> '/' !in x;
      JoinSplit(kept, '/');
    }
  }

  /** The resolved path holds no character the path did not, other than `/`. */
  lemma ResolvePathAvoids(path: string, d: char)
    requires d != '/' && d !in path
    ensures d !in ResolvePath(path)
  {
    SplitAvoids(path, '/', d);
    JoinWithAvoids(KeptSegments(Split(path, '/')), '/', d);
  }

  // ---------------------------------------------------------------------
  // urljoin

  /** `urllib.parse.uses_relative`: the schemes `urljoin` resolves against. */
  predicate UsesRelative(scheme: string) {
    scheme in {"", "ftp", "http", "gopher", "nntp", "imap", "wais", "file", "https", "shttp", "mms",
               "prospero", "rtsp", "rtsps", "rtspu", "sftp", "svn", "svn+ssh", "ws", "wss"}
  }

  /** `urljoin(base, url)` for a `url` that starts with `/`, the only kind the crawler
      passes. The href is returned as it is when the base is empty or the schemes differ or
      do not resolve; an href with its own network location is only re-assembled; an empty
      path takes the base's path (and query when it has none); any other path has its dot
      segments resolved. */
  function UrlJoin(base: string, url: string): string
    requires StartsWith(url, "/")
  {
    var b := UrlParse(base, "");
    var r := UrlParse(url, b.scheme);
    var netloc := if UsesNetloc(r.scheme) then b.netloc else r.netloc;
    if base == [] || r.scheme != b.scheme || !UsesRelative(r.scheme) then url
    else if UsesNetloc(r.scheme) && r.netloc != "" then UrlUnparse(r)
    else if r.path == "" && r.params == "" then
      UrlUnparse(ParseResult(r.scheme, netloc, b.path, b.params, if r.query == "" then b.query else r.query, r.fragment))
    else
      UrlUnparse(ParseResult(r.scheme, netloc, ResolvePath(r.path), r.params, r.query, r.fragment))
  }

  /** Every scheme `urljoin` resolves against uses a network location. */
  lemma RelativeUsesNetloc(scheme: string)
    requires UsesRelative(scheme)
    ensures UsesNetloc(scheme)
  {
  }

  /** An href that starts with `/` has no scheme of its own, so `urlparse` reports the
      default one; its path is empty or starts with `/`, and it has parameters only with
      a path. So `urljoin` never reaches its branch for a relative path, which is why
      `UrlJoin` leaves that branch out. */
  lemma RefParts(href: string, defaultScheme: string)
    requires StartsWith(href, "/")
    ensures Cleaned(href) == RemoveUnsafe(href) && !HasScheme(Cleaned(href))
    ensures var r := UrlParse(href, defaultScheme);
      && r.scheme == defaultScheme
      && r.netloc == Netloc(href)
      && (r.path == "" ==> r.params == "")
      && (r.path != "" ==> r.path[0] == '/')
  {
    RefClean(href);
    var u := Cleaned(href);
    var tail := AfterNetloc(AfterScheme(u));
    assert tail != [] ==> tail[0] in {'/', '?', '#'};
    var s := UrlSplit(href, defaultScheme);
    assert s.scheme == defaultScheme && s.path == PathOf(tail);
    assert s.path != "" ==> s.path[0] == '/';
    if UsesParams(s.scheme) && ';' in s.path {
      var p := SplitParams(s.path);
      assert p.0[0] == s.path[0];
    }
  }

  /** An href that starts with `/` is only cleaned of tabs, CRs and LFs, still starts with
      `/`, and has no scheme. */
  lemma RefClean(href: string)
    requires StartsWith(href, "/")
    ensures Cleaned(href) == RemoveUnsafe(href) && Cleaned(href) != [] && Cleaned(href)[0] == '/'
    ensures !HasScheme(Cleaned(href))
  {
    assert StripLeadingC0(href) == href;
    assert RemoveUnsafe(href)[0] == '/';
  }

  /** The base URL a page gives parses back to the page's scheme and network location
      with an empty path, parameters, query and fragment; with no scheme it parses to
      no scheme and no network location. */
  lemma BaseUrlParses(page: string)
    ensures var b := UrlParse(BaseUrl(page), "");
      && b.scheme == Scheme(page)
      && (Scheme(page) != "" ==> b == ParseResult(Scheme(page), Netloc(page), "", "", "", ""))
      && (Scheme(page) == "" ==> b.netloc == "")
  {
    var base := BaseUrl(page);
    BaseUrlClean(page);
    RemoveUnsafeKeeps(base);
    if Scheme(page) != "" {
      SchemedBaseSplits(Scheme(page), Netloc(page));
    } else {
      assert base[0] == ':';
      assert StripLeadingC0(base) == base;
      IndexOfAt(base, ':', 0);
      assert !HasScheme(Cleaned(base));
    }
  }

  /** A base URL holds no tab, carriage return or line feed. */
  lemma BaseUrlClean(page: string)
    ensures forall c :: c in BaseUrl(page) ==> !IsUnsafe(c)
  {
    SchemeNetlocClean(Scheme(page), Netloc(page));
  }

  lemma SchemeNetlocClean(scheme: string, netloc: string)
    requires forall j :: 0 <= j < |scheme| ==> IsSchemeChar(scheme[j])
    requires forall j :: 0 <= j < |netloc| ==> !IsUnsafe(netloc[j])
    ensures forall c :: c in scheme + "://" + netloc ==> !IsUnsafe(c)
  {
    assert forall c :: c in scheme ==> !IsUnsafe(c);
    assert forall c :: c in netloc ==> !IsUnsafe(c);
    assert forall c :: c in "://" ==> !IsUnsafe(c);
  }

  /** A scheme, `://` and a network location split back into that scheme and network location. */
  lemma SchemedBaseSplits(scheme: string, netloc: string)
    requires scheme != [] && IsAsciiLetter(scheme[0])
    requires forall j :: 0 <= j < |scheme| ==> IsSchemeChar(scheme[j]) && LowerChar(scheme[j]) == scheme[j]
    requires forall j :: 0 <= j < |netloc| ==> netloc[j] != '/' && netloc[j] != '?' && netloc[j] != '#'
    requires RemoveUnsafe(scheme + "://" + netloc) == scheme + "://" + netloc
    ensures UrlSplit(scheme + "://" + netloc, "") == SplitResult(scheme, netloc, "", "", "")
  {
    var base := scheme + "://" + netloc;
    assert StripLeadingC0(base) == base;
    var rest := "//" + netloc;
    assert base == scheme + [':'] + rest;
    SchemeSplits(scheme, rest);
    NetlocSplits(netloc);
  }

  /** A scheme followed by `:` is split off as that scheme. */
  lemma SchemeSplits(scheme: string, after: string)
    requires scheme != [] && IsAsciiLetter(scheme[0])
    requires forall j :: 0 <= j < |scheme| ==> IsSchemeChar(scheme[j]) && LowerChar(scheme[j]) == scheme[j]
    ensures var u := scheme + [':'] + after; HasScheme(u) && SchemeOf(u) == scheme && AfterScheme(u) == after
  {
    var u := scheme + [':'] + after;
    assert ':' !in scheme by {
      assert forall j :: 0 <= j < |scheme| ==> IsSchemeChar(scheme[j]);
    }
    assert u == scheme + ([':'] + after);
    IndexOfSkip(scheme, [':'] + after, ':');
    assert u[..|scheme|] == scheme;
  }

  /** `//` and a network location split into that network location and nothing after it. */
  lemma NetlocSplits(netloc: string)
    requires forall j :: 0 <= j < |netloc| ==> netloc[j] != '/' && netloc[j] != '?' && netloc[j] != '#'
    ensures NetlocOf("//" + netloc) == netloc && AfterNetloc("//" + netloc) == ""
  {
    var rest := "//" + netloc;
    assert rest[..2] == "//" && rest[2..] == netloc;
    IndexOfAnyAppend(netloc, "", {'/', '?', '#'});
    assert netloc + "" == netloc;
  }

  /** `urljoin` of a page's base URL with an href that starts with `/`, when the page's
      scheme is one `urljoin` resolves against: an href with a network location of its own
      keeps it, with its path as written; otherwise the page's network location is used,
      and a non-empty path has its dot segments resolved. */
  lemma JoinOnBase(page: string, href: string)
    requires Scheme(page) != "" && UsesRelative(Scheme(page)) && StartsWith(href, "/")
    ensures var scheme, r := Scheme(page), UrlParse(href, Scheme(page));
      UrlJoin(BaseUrl(page), href) ==
        if r.netloc != "" then UrlUnparse(r)
        else if r.path == "" then UrlUnparse(ParseResult(scheme, Netloc(page), "", "", r.query, r.fragment))
        else UrlUnparse(ParseResult(scheme, Netloc(page), ResolvePath(r.path), r.params, r.query, r.fragment))
  {
    BaseUrlParses(page);
    RefParts(href, Scheme(page));
    RelativeUsesNetloc(Scheme(page));
    JoinOnParsedBase(BaseUrl(page), href, UrlParse(BaseUrl(page), ""), UrlParse(href, Scheme(page)));
  }

  /** `JoinOnBase` over a base already parsed: one with no path, parameters or query. */
  lemma JoinOnParsedBase(base: string, href: string, b: ParseResult, r: ParseResult)
    requires StartsWith(href, "/") && base != []
    requires b == UrlParse(base, "") && b.path == "" && b.params == "" && b.query == ""
    requires r == UrlParse(href, b.scheme) && r.scheme == b.scheme
    requires UsesRelative(b.scheme) && UsesNetloc(b.scheme)
    requires r.path == "" ==> r.params == ""
    ensures UrlJoin(base, href) ==
        if r.netloc != "" then UrlUnparse(r)
        else if r.path == "" then UrlUnparse(ParseResult(b.scheme, b.netloc, "", "", r.query, r.fragment))
        else UrlUnparse(ParseResult(b.scheme, b.netloc, ResolvePath(r.path), r.params, r.query, r.fragment))
  {
  }

  /** An href with a single leading `/` and no tab, CR, LF, `;`, `?` or `#` parses to its
      path alone. */
  lemma PlainRefParses(href: string, defaultScheme: string)
    requires StartsWith(href, "/") && !StartsWith(href, "//")
    requires forall c :: c in href ==> !IsUnsafe(c) && c != ';' && c != '?' && c != '#'
    ensures UrlParse(href, defaultScheme) == ParseResult(defaultScheme, "", href, "", "", "")
    ensures Netloc(href) == ""
  {
    RemoveUnsafeKeeps(href);
    RefParts(href, defaultScheme);
    assert AfterScheme(Cleaned(href)) == href;
    assert AfterNetloc(href) == href;
    assert Before(href, '#') == href;
    assert Before(href, '?') == href;
  }

  /** An href with a single leading `/` and no tab, CR, LF or `;` has no network location
      and no parameters; its path is the href up to its first `#`, then up to its first `?`. */
  lemma PlainRefPath(href: string, defaultScheme: string)
    requires StartsWith(href, "/") && !StartsWith(href, "//")
    requires forall c :: c in href ==> !IsUnsafe(c) && c != ';'
    ensures Netloc(href) == ""
    ensures UrlParse(href, defaultScheme).path == Before(Before(href, '#'), '?')
    ensures UrlParse(href, defaultScheme).params == ""
  {
    PlainSplit(href, defaultScheme);
    var path := PathOf(href);
    assert ';' !in path by {
      forall j | 0 <= j < |path|
        ensures path[j] != ';'
      {
        assert path[j] == href[j] && href[j] in href;
      }
    }
    var s := UrlSplit(href, defaultScheme);
    assert s.path == path;
    assert !(UsesParams(s.scheme) && ';' in s.path);
  }

  /** An href with a single leading `/` and no tab, CR or LF splits into the default scheme,
      no network location, and the path, query and fragment of the href itself. */
  lemma PlainSplit(href: string, defaultScheme: string)
    requires StartsWith(href, "/") && !StartsWith(href, "//")
    requires forall c :: c in href ==> !IsUnsafe(c)
    ensures Netloc(href) == ""
    ensures UrlSplit(href, defaultScheme) == SplitResult(defaultScheme, "", PathOf(href), QueryOf(href), FragmentOf(href))
  {
    RemoveUnsafeKeeps(href);
    RefParts(href, defaultScheme);
    assert Cleaned(href) == href;
    assert AfterScheme(href) == href;
    assert AfterNetloc(href) == href && NetlocOf(href) == "";
  }

  /** A protocol-relative href (`//host...`), once tabs, CRs and LFs are removed, is `//`,
      its network location, and the tail `urlsplit` takes the path from. */
  lemma ProtocolRelativeSplit(href: string, defaultScheme: string)
    requires StartsWith(href, "/") && Netloc(href) != ""
    ensures var u := RemoveUnsafe(href);
      && u == "//" + Netloc(href) + AfterNetloc(u)
      && UrlSplit(href, defaultScheme).path == PathOf(AfterNetloc(u))
  {
    RefClean(href);
    var u := RemoveUnsafe(href);
    assert AfterScheme(u) == u;
    HostAndTail(u);
  }

  /** Text starting with `//` is `//`, its network location, and what follows. */
  lemma HostAndTail(rest: string)
    requires StartsWith(rest, "//")
    ensures rest == "//" + NetlocOf(rest) + AfterNetloc(rest)
  {
    var netloc := NetlocOf(rest);
    assert rest[..2] == "//" && rest[2..2 + |netloc|] == netloc;
    assert rest == rest[..2] + rest[2..2 + |netloc|] + rest[2 + |netloc|..];
  }

  /** Without a `;`, a protocol-relative href has no parameters, and its path is the one
      `urlsplit` takes from the tail after the network location. */
  lemma ProtocolRelativeParse(href: string, defaultScheme: string)
    requires StartsWith(href, "/") && Netloc(href) != "" && ';' !in href
    ensures var u := RemoveUnsafe(href);
      && u == "//" + Netloc(href) + AfterNetloc(u)
      && UrlParse(href, defaultScheme).path == PathOf(AfterNetloc(u))
      && UrlParse(href, defaultScheme).params == ""
  {
    ProtocolRelativeSplit(href, defaultScheme);
    var u := RemoveUnsafe(href);
    var tail := AfterNetloc(u);
    assert ';' !in u;
    assert ';' !in tail by {
      assert u == ("//" + Netloc(href)) + tail;
    }
    PrefixAvoids(tail, PathOf(tail), ';');
  }

  /** A plain path (a single leading `/`, no tab, CR, LF, `;`, `?` or `#`, no dot segment to
      resolve) is appended to the base URL of a page whose scheme `urljoin` resolves
      against, whether or not it has a network location. */
  lemma JoinPlainPath(page: string, path: string)
    requires Scheme(page) != "" && UsesRelative(Scheme(page))
    requires StartsWith(path, "/") && !StartsWith(path, "//")
    requires forall c :: c in path ==> !IsUnsafe(c) && c != ';' && c != '?' && c != '#'
    requires ResolvePath(path) == path
    ensures UrlJoin(BaseUrl(page), path) == BaseUrl(page) + path
  {
    var scheme, netloc := Scheme(page), Netloc(page);
    PlainRefParses(path, scheme);
    JoinOnBase(page, path);
    RelativeUsesNetloc(scheme);
    UnparseRooted(scheme, netloc, path);
  }

  /** `urlunparse` of a scheme that uses a network location, a network location (possibly
      empty) and a path with a single leading `/` is `scheme://netloc/path`. */
  lemma UnparseRooted(scheme: string, netloc: string, path: string)
    requires scheme != "" && UsesNetloc(scheme)
    requires StartsWith(path, "/") && !StartsWith(path, "//")
    ensures UrlUnparse(ParseResult(scheme, netloc, path, "", "", "")) == scheme + "://" + netloc + path
  {
    assert UnsplitHead(scheme, netloc, path) == scheme + ":" + ("//" + netloc + path);
  }

  /** A base URL without a scheme (`://host`) leaves a plain path as it is. */
  lemma JoinWithoutScheme(page: string, path: string)
    requires Scheme(page) == ""
    requires StartsWith(path, "/") && !StartsWith(path, "//")
    requires forall c :: c in path ==> !IsUnsafe(c) && c != ';' && c != '?' && c != '#'
    requires ResolvePath(path) == path
    ensures UrlJoin(BaseUrl(page), path) == path
  {
    PlainRefParses(path, "");
    BaseUrlParses(page);
    assert UsesRelative("") && UsesNetloc("");
    var b := UrlParse(BaseUrl(page), "");
    JoinRootedOnParsedBase(BaseUrl(page), path, b, UrlParse(path, b.scheme));
    assert UrlUnparse(ParseResult("", "", path, "", "", "")) == UnsplitHead("", "", path);
  }

  /** `urljoin` of an href with no network location of its own and a non-empty path, over
      a parsed base whose scheme it resolves against. */
  lemma JoinRootedOnParsedBase(base: string, href: string, b: ParseResult, r: ParseResult)
    requires StartsWith(href, "/") && base != []
    requires b == UrlParse(base, "") && r == UrlParse(href, b.scheme) && r.scheme == b.scheme
    requires UsesRelative(b.scheme) && UsesNetloc(b.scheme)
    requires r.netloc == "" && r.path != ""
    ensures UrlJoin(base, href) ==
      UrlUnparse(ParseResult(b.scheme, b.netloc, ResolvePath(r.path), r.params, r.query, r.fragment))
  {
  }

  /** The path `/a//b`, for non-empty `a` of ASCII letters and `b` of ASCII letters, is a
      plain path in the sense of `JoinPlainPath`. */
  lemma EmptySegmentPathPlain(a: string, b: string)
    requires a != [] && forall c :: c in a + b ==> IsAsciiLetter(c)
    ensures var path := JoinWith(["", a, "", b], '/');
      && StartsWith(path, "/") && !StartsWith(path, "//")
      && forall c :: c in path ==> !IsUnsafe(c) && c != ';' && c != '?' && c != '#'
  {
    var parts := ["", a, "", b];
    var path := JoinWith(parts, '/');
    assert parts[1..][1..] == ["", b] && ["", b][1..] == [b];
    var tail := JoinWith(["", b], '/');
    assert JoinWith([b], '/') == b;
    assert tail == "" + ['/'] + b;
    assert JoinWith(parts[1..], '/') == a + ['/'] + tail;
    assert path == "" + ['/'] + (a + ['/'] + tail);
    assert path[1] == a[0] && a[0] in a + b;
    forall c | c in path
      ensures !IsUnsafe(c) && c != ';' && c != '?' && c != '#'
    {
      if c != '/' {
        assert c in a + b;
      }
    }
  }

  /** An empty segment inside an absolute path is kept: `urljoin` drops empty segments only
      when it merges a relative path with the base's path, which a root-relative href never
      reaches. Here the path is `/a//b`. */
  lemma ResolveKeepsEmptySegment(a: string, b: string)
    requires a != [] && forall c :: c in a + b ==> IsAsciiLetter(c)
    ensures ResolvePath(JoinWith(["", a, "", b], '/')) == JoinWith(["", a, "", b], '/')
  {
    var parts := ["", a, "", b];
    LetterPieces(a, b);
    assert forall x :: x in parts ==> '/' !in x;
    JoinSplit(parts, '/');
    EmptySegmentPathPlain(a, b);
    ResolvePathPlain(JoinWith(parts, '/'));
  }

  /** Names of ASCII letters hold no `/` and are not dot segments. */
  lemma LetterPieces(a: string, b: string)
    requires a != [] && forall c :: c in a + b ==> IsAsciiLetter(c)
    ensures '/' !in a && '/' !in b
    ensures a != "." && a != ".." && b != "." && b != ".."
  {
    assert forall c :: c in a ==> c in a + b;
    assert forall c :: c in b ==> c in a + b;
    assert a[0] in a;
    assert b != [] ==> b[0] in b;
  }

  /** So `/a//b` joins to the page's base URL followed by `/a//b`. */
  lemma JoinKeepsEmptySegment(page: string, a: string, b: string)
    requires Scheme(page) != "" && UsesRelative(Scheme(page))
    requires a != [] && forall c :: c in a + b ==> IsAsciiLetter(c)
    ensures var path := JoinWith(["", a, "", b], '/');
      UrlJoin(BaseUrl(page), path) == BaseUrl(page) + path
  {
    EmptySegmentPathPlain(a, b);
    ResolveKeepsEmptySegment(a, b);
    JoinPlainPath(page, JoinWith(["", a, "", b], '/'));
  }
}
