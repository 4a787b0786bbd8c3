/** The pure helpers of `crawler/utils.py` (and the copy of `get_scraped_filename`
    in `crawler/crawler_utils.py`): the output file name, file-name sanitising and
    the Persian-character test.
 */
module Utils {
  import opened Common
  import opened Urls

  const ScrapedSuffix: string := "_scraped_data.json"

  /** `get_scraped_filename`: the host of the start URL followed by `_scraped_data.json`. */
  function GetScrapedFilename(startUrl: string): (r: string)
    ensures EndsWith(r, ScrapedSuffix)
    ensures r[..|r| - |ScrapedSuffix|] == Netloc(startUrl)
  {
    Netloc(startUrl) + ScrapedSuffix
  }

  /** Two start URLs share an output file exactly when they share a host. */
  lemma ScrapedFilenameSharedIffSameHost(u: string, v: string)
    ensures GetScrapedFilename(u) == GetScrapedFilename(v) <==> Netloc(u) == Netloc(v)
  {
    var fu, fv := GetScrapedFilename(u), GetScrapedFilename(v);
    if fu == fv {
      assert fu[..|fu| - |ScrapedSuffix|] == fv[..|fv| - |ScrapedSuffix|];
    }
  }

  // ---------------------------------------------------------------------
  // sanitize_filename: a regular-expression substitution that deletes a character class

  /** The characters deleted by the pattern: backslash, slash, star, question mark, colon, double quote, angle brackets and bar. */
  predicate IsForbidden(c: char) {
    c == '\\' || c == '/' || c == '*' || c == '?' || c == ':' || c == '"' || c == '<' || c == '>' || c == '|'
  }

  /** Removes every forbidden character and keeps the others, in order. */
  function SanitizeFilename(name: string): (r: string)
    ensures forall j :: 0 <= j < |r| ==> !IsForbidden(r[j])
    ensures |r| <= |name|
  {
    if name == [] then []
    else (if IsForbidden(name[0]) then [] else [name[0]]) + SanitizeFilename(name[1..])
  }

  /** Sanitising works piecewise: the output keeps the input's order. */
  lemma {:induction false} SanitizeConcat(a: string, b: string)
    ensures SanitizeFilename(a + b) == SanitizeFilename(a) + SanitizeFilename(b)
  {
    if a != [] {
      assert (a + b)[1..] == a[1..] + b;
      SanitizeConcat(a[1..], b);
    } else {
      assert a + b == b;
    }
  }

  /** A name with no forbidden character is left exactly as it is. */
  lemma {:induction false} SanitizeIdentity(name: string)
    requires forall j :: 0 <= j < |name| ==> !IsForbidden(name[j])
    ensures SanitizeFilename(name) == name
  {
    if name != [] {
      SanitizeIdentity(name[1..]);
    }
  }

  /** Sanitising twice is sanitising once. */
  lemma SanitizeIdempotent(name: string)
    ensures SanitizeFilename(SanitizeFilename(name)) == SanitizeFilename(name)
  {
    SanitizeIdentity(SanitizeFilename(name));
  }

  /** Each kept character is counted: the output length is the number of allowed characters. */
  function AllowedCount(name: string): nat {
    if name == [] then 0 else (if IsForbidden(name[0]) then 0 else 1) + AllowedCount(name[1..])
  }

  lemma {:induction false} SanitizeLength(name: string)
    ensures |SanitizeFilename(name)| == AllowedCount(name)
    ensures AllowedCount(name) == |name| <==> forall j :: 0 <= j < |name| ==> !IsForbidden(name[j])
  {
    if name != [] {
      SanitizeLength(name[1..]);
      if AllowedCount(name) == |name| {
        assert AllowedCount(name[1..]) <= |name[1..]| by { SanitizeLength(name[1..]); }
        forall j | 0 <= j < |name| ensures !IsForbidden(name[j]) {
          if j > 0 { assert name[j] == name[1..][j - 1]; }
        }
      }
    }
  }

  // ---------------------------------------------------------------------
  // is_persian_character: a comparison of Python strings against U+0600 and U+06FF

  /** Python's `a <= b` on strings: lexicographic by code point, a proper prefix is smaller. */
  predicate StrLe(a: string, b: string) {
    if a == [] then true
    else if b == [] then false
    else if a[0] != b[0] then a[0] < b[0]
    else StrLe(a[1..], b[1..])
  }

  predicate IsPersianCharacter(s: string) {
    StrLe("\U{0600}", s) && StrLe(s, "\U{06FF}")
  }

  /** On one character the test is the Arabic block U+0600..U+06FF. */
  lemma PersianCharacterRange(c: char)
    ensures IsPersianCharacter([c]) <==> '\U{0600}' <= c <= '\U{06FF}'
  {
    assert [c][1..] == [];
  }

  /** On longer strings only the first character decides, except that U+06FF must stand alone. */
  lemma PersianStringRange(s: string)
    ensures IsPersianCharacter(s) <==>
      s != [] && '\U{0600}' <= s[0] && (s[0] < '\U{06FF}' || (s[0] == '\U{06FF}' && |s| == 1))
  {
    if s != [] {
      var lo, hi := "\U{0600}", "\U{06FF}";
      assert lo[0] == '\U{0600}' && lo[1..] == [];
      assert hi[0] == '\U{06FF}' && hi[1..] == [];
      assert StrLe(lo, s) <==> '\U{0600}' <= s[0];
      if s[0] == '\U{06FF}' {
        assert StrLe(s, hi) == StrLe(s[1..], []);
        assert StrLe(s[1..], []) <==> |s| == 1;
      }
    }
  }
}
