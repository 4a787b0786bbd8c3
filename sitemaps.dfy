/** Sitemap traversal, as `crawler/crawler_utils.py` and the root `crawler_utils.py` write it
    (the two copies have the same bodies): `is_sitemap_index`, `parse_sitemap_index`,
    `parse_sitemap` and the depth-bounded `fetch_and_parse_sitemaps`.

    `ElementTree.fromstring(content)` is represented by its outcome: a parse error, or the
    root element of the document.  Elements carry ElementTree's qualified tags
    (`{namespace}name`), their text (None when the element has none) and their children.
    The HTTP request is an oracle from sitemap URL to outcome.
 */
module Sitemaps {
  import opened Common

  /** The namespace the parsers look names up in: `ns:` stands for this prefix. */
  const Namespace: string := "{http://www.sitemaps.org/schemas/sitemap/0.9}"

  /** The default `max_depth` of `fetch_and_parse_sitemaps`. */
  const DefaultMaxDepth: int := 3

  datatype Element = Element(tag: string, text: Option<string>, children: seq<Element>)

  /** What `ElementTree.fromstring(content)` gives: `ParseError`, or the root element. */
  datatype Xml = Malformed | Parsed(root: Element)

  /** `is_sitemap_index(content)`: the root tag ends with `sitemapindex`; false on a parse error. */
  predicate IsSitemapIndex(content: Xml) {
    content.Parsed? && EndsWith(content.root.tag, "sitemapindex")
  }

  /** A `<sitemapindex>` in the sitemap namespace is an index, a `<urlset>` is not, and neither
      is a document that does not parse. */
  lemma IndexRecognised(text: Option<string>, children: seq<Element>)
    ensures IsSitemapIndex(Parsed(Element(Namespace + "sitemapindex", text, children)))
    ensures !IsSitemapIndex(Parsed(Element(Namespace + "urlset", text, children)))
    ensures !IsSitemapIndex(Malformed)
  {
    var index := Namespace + "sitemapindex";
    assert index[|index| - 12..] == "sitemapindex";
    var urlset := Namespace + "urlset";
    assert urlset[|urlset| - 1] == 't';
  }

  /** Position of the first child with the tag, or the number of children when there is none. */
  function FirstIndex(children: seq<Element>, tag: string): (r: nat)
    ensures r <= |children|
    ensures forall j :: 0 <= j < r ==> children[j].tag != tag
    ensures r < |children| ==> children[r].tag == tag
  {
    if children == [] then 0
    else if children[0].tag == tag then 0
    else 1 + FirstIndex(children[1..], tag)
  }

  /** `element.find(tag)`: the first direct child with that tag. */
  function FirstChild(children: seq<Element>, tag: string): (r: Option<Element>)
    ensures r.None? <==> forall i :: 0 <= i < |children| ==> children[i].tag != tag
    ensures r.Some? ==> r.value.tag == tag && r.value in children
    ensures r.Some? ==>
      exists i :: 0 <= i < |children| && children[i] == r.value && forall j :: 0 <= j < i ==> children[j].tag != tag
  {
    var i := FirstIndex(children, tag);
    if i < |children| then Some(children[i]) else None
  }

  /** What the loop body keeps of one child: for an entry with the given tag, the stripped
      text of its first `loc` child when that text is present and not empty; nothing otherwise. */
  function EntryLoc(entry: Element, tag: string): Option<string> {
    if entry.tag != tag then None
    else match FirstChild(entry.children, Namespace + "loc")
      case None => None
      case Some(loc) => if loc.text.Some? && loc.text.value != "" then Some(Strip(loc.text.value)) else None
  }

  function EntryLocOf(tag: string): Element -> Option<string> {
    entry => EntryLoc(entry, tag)
  }

  /** The list `for entry in root.findall(tag): ...append(loc.text.strip())` builds. */
  function Locs(children: seq<Element>, tag: string): seq<string> {
    FilterMap(children, EntryLocOf(tag))
  }

  /** `parse_sitemap_index(content)`: the sitemap URLs of an index, `[]` on a parse error. */
  function IndexedSitemaps(content: Xml): seq<string> {
    if content.Malformed? then [] else Locs(content.root.children, Namespace + "sitemap")
  }

  /** `parse_sitemap(content)`: the page URLs of a sitemap, `[]` on a parse error. */
  function ListedUrls(content: Xml): seq<string> {
    if content.Malformed? then [] else Locs(content.root.children, Namespace + "url")
  }

  /** A URL is listed exactly when some direct child with the entry tag has a first `loc`
      child whose text is present, non-empty, and strips to that URL. */
  lemma LocsMembership(children: seq<Element>, tag: string, url: string)
    ensures url in Locs(children, tag) <==>
              exists i :: 0 <= i < |children| && children[i].tag == tag
                && var loc := FirstChild(children[i].children, Namespace + "loc");
                   loc.Some? && loc.value.text.Some? && loc.value.text.value != "" && Strip(loc.value.text.value) == url
  {
    FilterMapMembership(children, EntryLocOf(tag), url);
  }

  /** Entries come out in document order: the list for two runs of children is the list of
      the first run followed by that of the second. */
  lemma LocsAppend(a: seq<Element>, b: seq<Element>, tag: string)
    ensures Locs(a + b, tag) == Locs(a, tag) + Locs(b, tag)
  {
    FilterMapAppend(a, b, EntryLocOf(tag));
  }

  /** A child with another tag adds nothing: only direct entry children are read. */
  lemma OtherChildIgnored(a: seq<Element>, child: Element, b: seq<Element>, tag: string)
    requires child.tag != tag
    ensures Locs(a + [child] + b, tag) == Locs(a + b, tag)
  {
    LocsAppend(a + [child], b, tag);
    LocsAppend(a, [child], tag);
    LocsAppend(a, b, tag);
    assert Locs([child], tag) == [] + Locs([child][1..], tag);
  }

  /** The emptiness test comes before the strip: a `loc` of blanks is kept, as an empty URL. */
  lemma BlankLocKept(entryTag: string)
    ensures Locs([Element(entryTag, None, [Element(Namespace + "loc", Some(" "), [])])], entryTag) == [""]
  {
    var entry := Element(entryTag, None, [Element(Namespace + "loc", Some(" "), [])]);
    BlankLocEntry(entryTag, entry);
    assert Locs([entry], entryTag) == [""] + Locs([entry][1..], entryTag);
  }

  /** The entry of a blank `loc` gives the empty URL. */
  lemma BlankLocEntry(entryTag: string, entry: Element)
    requires entry == Element(entryTag, None, [Element(Namespace + "loc", Some(" "), [])])
    ensures EntryLoc(entry, entryTag) == Some("")
  {
    var loc := entry.children[0];
    assert FirstChild(entry.children, Namespace + "loc") == Some(loc);
    assert Strip(" ") == "";
  }

  /** Locs of the children before `i + 1`: those before `i`, then child i's. */
  lemma LocsStep(children: seq<Element>, tag: string, i: nat)
    requires i < |children|
    ensures Locs(children[..i + 1], tag) == Locs(children[..i], tag) + (if EntryLoc(children[i], tag).Some? then [EntryLoc(children[i], tag).value] else [])
  {
    assert children[..i + 1] == children[..i] + [children[i]];
    LocsAppend(children[..i], [children[i]], tag);
    assert [children[i]][1..] == [];
  }

  /** The shared loop of `parse_sitemap_index` and `parse_sitemap`. */
  method CollectLocs(root: Element, tag: string) returns (locs: seq<string>)
    ensures locs == Locs(root.children, tag)
  {
    locs := [];
    var children := root.children;
    for i := 0 to |children|
      invariant locs == Locs(children[..i], tag)
    {
      LocsStep(children, tag, i);
      var entry := children[i];
      if entry.tag == tag {
        var loc := FirstChild(entry.children, Namespace + "loc");
        if loc.Some? && loc.value.text.Some? && loc.value.text.value != "" {
          locs := locs + [Strip(loc.value.text.value)];
        }
      }
    }
    assert children[..|children|] == children;
  }

  method ParseSitemapIndex(content: Xml) returns (sitemapUrls: seq<string>)
    ensures sitemapUrls == IndexedSitemaps(content)
  {
    sitemapUrls := [];
    if content.Parsed? {
      sitemapUrls := CollectLocs(content.root, Namespace + "sitemap");
    }
  }

  method ParseSitemap(content: Xml) returns (urls: seq<string>)
    ensures urls == ListedUrls(content)
  {
    urls := [];
    if content.Parsed? {
      urls := CollectLocs(content.root, Namespace + "url");
    }
  }

  // ---------------------------------------------------------------------
  // fetch_and_parse_sitemaps

  /** What `requests.get(sitemap_url, ...)` followed by `raise_for_status()` gives: a
      `RequestException` (connection failure, timeout, status 400 to 599), or the content. */
  datatype SitemapFetch = FetchFailed | Content(content: Xml)

  /** Levels of index still allowed below `depth`. */
  function Budget(maxDepth: int, depth: int): nat {
    if depth > maxDepth then 0 else maxDepth - depth + 1
  }

  /** The URL set `fetch_and_parse_sitemaps(sitemap_urls, ..., max_depth, current_depth)` returns. */
  function Gathered(fetch: string -> SitemapFetch, sitemapUrls: seq<string>, maxDepth: int, depth: int): set<string>
    decreases Budget(maxDepth, depth), 1, |sitemapUrls|
  {
    if depth > maxDepth || sitemapUrls == [] then {}
    else FromSitemap(fetch, sitemapUrls[0], maxDepth, depth) + Gathered(fetch, sitemapUrls[1..], maxDepth, depth)
  }

  /** What one sitemap URL contributes at `depth`: nothing when the request fails, the
      gathering one level down for an index, and the listed URLs for a sitemap. */
  function FromSitemap(fetch: string -> SitemapFetch, sitemapUrl: string, maxDepth: int, depth: int): set<string>
    requires depth <= maxDepth
    decreases Budget(maxDepth, depth), 0, 0
  {
    match fetch(sitemapUrl)
    case FetchFailed => {}
    case Content(content) =>
      if IsSitemapIndex(content) then Gathered(fetch, IndexedSitemaps(content), maxDepth, depth + 1)
      else set u | u in ListedUrls(content)
  }

  method FetchAndParseSitemaps(fetch: string -> SitemapFetch, sitemapUrls: seq<string>, maxDepth: int, currentDepth: int)
    returns (urlsToCrawl: set<string>)
    ensures urlsToCrawl == Gathered(fetch, sitemapUrls, maxDepth, currentDepth)
    decreases Budget(maxDepth, currentDepth)
  {
    urlsToCrawl := {};
    if currentDepth > maxDepth {
      return;
    }
    for i := 0 to |sitemapUrls|
      invariant urlsToCrawl + Gathered(fetch, sitemapUrls[i..], maxDepth, currentDepth) == Gathered(fetch, sitemapUrls, maxDepth, currentDepth)
    {
      assert sitemapUrls[i..][0] == sitemapUrls[i] && sitemapUrls[i..][1..] == sitemapUrls[i + 1..];
      var response := fetch(sitemapUrls[i]);
      match response
      case FetchFailed =>
      case Content(content) =>
        if IsSitemapIndex(content) {
          var newSitemapUrls := ParseSitemapIndex(content);
          var nested := FetchAndParseSitemaps(fetch, newSitemapUrls, maxDepth, currentDepth + 1);
          urlsToCrawl := urlsToCrawl + nested;
        } else {
          var urls := ParseSitemap(content);
          urlsToCrawl := urlsToCrawl + set u | u in urls;
        }
    }
    assert sitemapUrls[|sitemapUrls|..] == [];
  }

  /** Lists of sitemap URLs combine by union. */
  lemma {:induction false} GatheredAppend(fetch: string -> SitemapFetch, a: seq<string>, b: seq<string>, maxDepth: int, depth: int)
    ensures Gathered(fetch, a + b, maxDepth, depth) == Gathered(fetch, a, maxDepth, depth) + Gathered(fetch, b, maxDepth, depth)
    decreases |a|
  {
    if depth <= maxDepth {
      if a == [] {
        assert a + b == b;
      } else {
        assert (a + b)[0] == a[0] && (a + b)[1..] == a[1..] + b;
        GatheredAppend(fetch, a[1..], b, maxDepth, depth);
      }
    }
  }

  /** A sitemap whose request fails is skipped, and only that one: the rest is gathered as if
      it were not listed. */
  lemma FailedFetchSkipped(fetch: string -> SitemapFetch, a: seq<string>, url: string, b: seq<string>, maxDepth: int, depth: int)
    requires fetch(url) == FetchFailed
    ensures Gathered(fetch, a + [url] + b, maxDepth, depth) == Gathered(fetch, a + b, maxDepth, depth)
  {
    GatheredAppend(fetch, a + [url], b, maxDepth, depth);
    GatheredAppend(fetch, a, [url], maxDepth, depth);
    GatheredAppend(fetch, a, b, maxDepth, depth);
    assert [url][1..] == [];
  }

  /** Within the depth bound, a URL is gathered exactly when one of the listed sitemaps
      contributes it. */
  lemma {:induction false} GatheredMembership(fetch: string -> SitemapFetch, sitemapUrls: seq<string>, maxDepth: int, depth: int, url: string)
    requires depth <= maxDepth
    ensures url in Gathered(fetch, sitemapUrls, maxDepth, depth) <==>
              exists i :: 0 <= i < |sitemapUrls| && url in FromSitemap(fetch, sitemapUrls[i], maxDepth, depth)
    decreases |sitemapUrls|
  {
    if sitemapUrls != [] {
      var rest := sitemapUrls[1..];
      GatheredMembership(fetch, rest, maxDepth, depth, url);
      if exists i :: 0 <= i < |sitemapUrls| && url in FromSitemap(fetch, sitemapUrls[i], maxDepth, depth) {
        var i :| 0 <= i < |sitemapUrls| && url in FromSitemap(fetch, sitemapUrls[i], maxDepth, depth);
        if i > 0 {
          assert rest[i - 1] == sitemapUrls[i];
        }
      }
      if url in Gathered(fetch, rest, maxDepth, depth) {
        var i :| 0 <= i < |rest| && url in FromSitemap(fetch, rest[i], maxDepth, depth);
        assert sitemapUrls[i + 1] == rest[i];
      }
    }
  }

  /** `url` is listed by the sitemap (not an index) served at `sitemapUrl`. */
  predicate ListedBy(fetch: string -> SitemapFetch, sitemapUrl: string, url: string) {
    && fetch(sitemapUrl).Content?
    && !IsSitemapIndex(fetch(sitemapUrl).content)
    && url in ListedUrls(fetch(sitemapUrl).content)
  }

  /** Everything gathered comes from the `url` entries of some leaf sitemap. */
  lemma {:induction false} GatheredFromLeaves(fetch: string -> SitemapFetch, sitemapUrls: seq<string>, maxDepth: int, depth: int, url: string)
    requires url in Gathered(fetch, sitemapUrls, maxDepth, depth)
    ensures exists leaf :: ListedBy(fetch, leaf, url)
    decreases Budget(maxDepth, depth), 1, |sitemapUrls|
  {
    if url in FromSitemap(fetch, sitemapUrls[0], maxDepth, depth) {
      FromSitemapFromLeaves(fetch, sitemapUrls[0], maxDepth, depth, url);
    } else {
      GatheredFromLeaves(fetch, sitemapUrls[1..], maxDepth, depth, url);
    }
  }

  lemma {:induction false} FromSitemapFromLeaves(fetch: string -> SitemapFetch, sitemapUrl: string, maxDepth: int, depth: int, url: string)
    requires depth <= maxDepth
    requires url in FromSitemap(fetch, sitemapUrl, maxDepth, depth)
    ensures exists leaf :: ListedBy(fetch, leaf, url)
    decreases Budget(maxDepth, depth), 0, 0
  {
    var content := fetch(sitemapUrl).content;
    if IsSitemapIndex(content) {
      GatheredFromLeaves(fetch, IndexedSitemaps(content), maxDepth, depth + 1, url);
    } else {
      assert ListedBy(fetch, sitemapUrl, url);
    }
  }

  /** An index that lists only itself gives nothing at any depth: each level re-reads it one
      level deeper, until the depth bound is passed. */
  lemma {:induction false} SelfIndexTerminates(fetch: string -> SitemapFetch, sitemapUrl: string, maxDepth: int, depth: int)
    requires fetch(sitemapUrl).Content? && IsSitemapIndex(fetch(sitemapUrl).content)
    requires IndexedSitemaps(fetch(sitemapUrl).content) == [sitemapUrl]
    ensures Gathered(fetch, [sitemapUrl], maxDepth, depth) == {}
    decreases Budget(maxDepth, depth)
  {
    if depth <= maxDepth {
      SelfIndexTerminates(fetch, sitemapUrl, maxDepth, depth + 1);
      assert [sitemapUrl][1..] == [];
    }
  }

  /** A larger depth bound only adds URLs. */
  lemma {:induction false} GatheredMonotone(fetch: string -> SitemapFetch, sitemapUrls: seq<string>, maxDepth: int, depth: int)
    ensures Gathered(fetch, sitemapUrls, maxDepth, depth) <= Gathered(fetch, sitemapUrls, maxDepth + 1, depth)
    decreases Budget(maxDepth, depth), 1, |sitemapUrls|
  {
    if depth <= maxDepth && sitemapUrls != [] {
      FromSitemapMonotone(fetch, sitemapUrls[0], maxDepth, depth);
      GatheredMonotone(fetch, sitemapUrls[1..], maxDepth, depth);
    }
  }

  lemma {:induction false} FromSitemapMonotone(fetch: string -> SitemapFetch, sitemapUrl: string, maxDepth: int, depth: int)
    requires depth <= maxDepth
    ensures FromSitemap(fetch, sitemapUrl, maxDepth, depth) <= FromSitemap(fetch, sitemapUrl, maxDepth + 1, depth)
    decreases Budget(maxDepth, depth), 0, 0
  {
    if fetch(sitemapUrl).Content? && IsSitemapIndex(fetch(sitemapUrl).content) {
      GatheredMonotone(fetch, IndexedSitemaps(fetch(sitemapUrl).content), maxDepth, depth + 1);
    }
  }
}
