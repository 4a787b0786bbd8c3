/** Values and Python string operations shared by every part of the crawler model.

    Strings are `seq<char>` (Unicode scalar values).  The helpers below give the
    meaning of the handful of `str` methods the crawler relies on:
    `s.startswith`, `s.endswith`, `s.split(c)[0]`, `s.split(c, 1)[1]`,
    `s.strip()`, `s.lower()` (ASCII part) and `int(s)`.
 */
module Common {

  datatype Option<T> = None | Some(value: T)

  /** A scraped page: the `{'url': ..., 'content': ...}` dictionaries the crawler collects. */
  datatype Document = Document(url: string, content: string)

  /** The longest duration `time.sleep` accepts: it counts in signed 64-bit nanoseconds,
      so (2^63 - 1) ns. */
  const MaxSleep: real := 9223372036.854775807

  /** A duration `time.sleep` accepts: a negative one raises ValueError, a longer one
      than `MaxSleep` raises OverflowError. */
  predicate SleepOk(w: real) {
    0.0 <= w <= MaxSleep
  }

  predicate StartsWith(s: string, prefix: string) {
    |prefix| <= |s| && s[..|prefix|] == prefix
  }

  predicate EndsWith(s: string, suffix: string) {
    |suffix| <= |s| && s[|s| - |suffix|..] == suffix
  }

  /** Position of the first `c` in `s`, or `|s|` when there is none (Python `str.find`, with `len` for -1). */
  function IndexOf(s: string, c: char): (r: nat)
    ensures r <= |s|
    ensures forall j :: 0 <= j < r ==> s[j] != c
    ensures r < |s| ==> s[r] == c
    ensures r == |s| <==> c !in s
  {
    if s == [] then 0
    else if s[0] == c then 0
    else 1 + IndexOf(s[1..], c)
  }

  /** `s.split(c)[0]`: the text before the first `c`, or all of `s`. */
  function Before(s: string, c: char): (r: string)
    ensures c !in r
    ensures StartsWith(s, r)
    ensures c !in s ==> r == s
    ensures |r| < |s| ==> s[|r|] == c
  {
    s[..IndexOf(s, c)]
  }

  /** Position of the first character of `s` that is in `stops`, or `|s|` when there is none. */
  function IndexOfAny(s: string, stops: set<char>): (r: nat)
    ensures r <= |s|
    ensures forall j :: 0 <= j < r ==> s[j] !in stops
    ensures r < |s| ==> s[r] in stops
  {
    if s == [] then 0
    else if s[0] in stops then 0
    else 1 + IndexOfAny(s[1..], stops)
  }

  /** The text before the first character in `stops`, or all of `s`. */
  function UpTo(s: string, stops: set<char>): (r: string)
    ensures StartsWith(s, r)
    ensures forall j :: 0 <= j < |r| ==> r[j] !in stops
    ensures |r| < |s| ==> s[|r|] in stops
  {
    s[..IndexOfAny(s, stops)]
  }

  /** Cutting at the first `a` and then at the first `b` is cutting at the first of either. */
  lemma UpToBeforeTwice(s: string, a: char, b: char)
    ensures Before(Before(s, a), b) == UpTo(s, {a, b})
  {
    var v := Before(Before(s, a), b);
    assert forall j :: 0 <= j < |v| ==> v[j] == s[j] && s[j] != a && s[j] != b;
  }

  /** `s.split(c, 1)[1]`: the text after the first `c` (Python raises IndexError when `c` is absent). */
  function After(s: string, c: char): (r: string)
    requires c in s
    ensures s == Before(s, c) + [c] + r
  {
    s[IndexOf(s, c) + 1..]
  }

  /** The characters Python's `str.isspace` accepts, which `str.strip()` and `int()` remove. */
  predicate IsSpace(c: char) {
    ('\t' <= c <= '\r') || ('\U{1C}' <= c <= '\U{1F}') || c == ' ' || c == '\U{85}' || c == '\U{A0}'
    || c == '\U{1680}' || ('\U{2000}' <= c <= '\U{200A}') || c == '\U{2028}' || c == '\U{2029}'
    || c == '\U{202F}' || c == '\U{205F}' || c == '\U{3000}'
  }

  function TrimStart(s: string): (r: string)
    ensures |r| <= |s| && r == s[|s| - |r|..]
    ensures r == [] || !IsSpace(r[0])
    ensures forall j :: 0 <= j < |s| - |r| ==> IsSpace(s[j])
  {
    if s != [] && IsSpace(s[0]) then TrimStart(s[1..]) else s
  }

  function TrimEnd(s: string): (r: string)
    ensures |r| <= |s| && r == s[..|r|]
    ensures r == [] || !IsSpace(r[|r| - 1])
    ensures forall j :: |r| <= j < |s| ==> IsSpace(s[j])
  {
    if s != [] && IsSpace(s[|s| - 1]) then TrimEnd(s[..|s| - 1]) else s
  }

  /** `s.strip()`. */
  function Strip(s: string): (r: string)
    ensures r == [] || (!IsSpace(r[0]) && !IsSpace(r[|r| - 1]))
    ensures |r| <= |s|
  {
    TrimEnd(TrimStart(s))
  }

  lemma StripUnchanged(s: string)
    requires s == [] || (!IsSpace(s[0]) && !IsSpace(s[|s| - 1]))
    ensures Strip(s) == s
  {
  }

  function LowerChar(c: char): char {
    if 'A' <= c <= 'Z' then (c as int + 32) as char else c
  }

  /** `s.lower()` on the ASCII letters; other characters are kept. */
  function LowerAscii(s: string): (r: string)
    ensures |r| == |s|
    ensures forall j :: 0 <= j < |s| ==> r[j] == LowerChar(s[j])
  {
    seq(|s|, j requires 0 <= j < |s| => LowerChar(s[j]))
  }

  /** The first `c` of `s` is at `n`. */
  lemma IndexOfAt(s: string, c: char, n: nat)
    requires n < |s| && s[n] == c
    requires forall j :: 0 <= j < n ==> s[j] != c
    ensures IndexOf(s, c) == n
  {
  }

  /** The first stop in `a + b` when `a` holds none. */
  lemma {:induction false} IndexOfAnyAppend(a: string, b: string, stops: set<char>)
    requires forall j :: 0 <= j < |a| ==> a[j] !in stops
    ensures IndexOfAny(a + b, stops) == |a| + IndexOfAny(b, stops)
  {
    if a != [] {
      assert (a + b)[1..] == a[1..] + b;
      IndexOfAnyAppend(a[1..], b, stops);
    } else {
      assert a + b == b;
    }
  }

  /** The position of `c` in `a + b` when `a` does not hold it. */
  lemma {:induction false} IndexOfSkip(a: string, b: string, c: char)
    requires c !in a
    ensures IndexOf(a + b, c) == |a| + IndexOf(b, c)
  {
    if a != [] {
      assert (a + b)[0] == a[0] && (a + b)[1..] == a[1..] + b;
      IndexOfSkip(a[1..], b, c);
    } else {
      assert a + b == b;
    }
  }

  /** A prefix of a text without `c` is without `c`. */
  lemma PrefixAvoids(s: string, prefix: string, c: char)
    requires StartsWith(s, prefix) && c !in s
    ensures c !in prefix
  {
    assert forall j :: 0 <= j < |prefix| ==> prefix[j] == s[j];
  }

  /** `xs` lists the elements of `s`, each once: an order in which a loop visits the set. */
  predicate Enumerates(xs: seq<string>, s: set<string>) {
    && (forall x :: x in xs ==> x in s)
    && (forall x :: x in s ==> x in xs)
    && (forall i, j :: 0 <= i < j < |xs| ==> xs[i] != xs[j])
  }

  /** `[f(x) for x in xs]`. */
  function MapSeq<T, U>(xs: seq<T>, f: T -> U): seq<U> {
    seq(|xs|, i requires 0 <= i < |xs| => f(xs[i]))
  }

  lemma MapSeqPair<T, U>(a: T, b: T, f: T -> U)
    ensures MapSeq([a, b], f) == [f(a), f(b)]
  {
    assert [a, b][0] == a && [a, b][1] == b;
  }

  lemma MapSeqAppend<T, U>(a: seq<T>, b: seq<T>, f: T -> U)
    ensures MapSeq(a + b, f) == MapSeq(a, f) + MapSeq(b, f)
  {
    var r, s := MapSeq(a + b, f), MapSeq(a, f) + MapSeq(b, f);
    forall k | 0 <= k < |r|
      ensures r[k] == s[k]
    {
      if k < |a| {
        assert (a + b)[k] == a[k];
      } else {
        assert (a + b)[k] == b[k - |a|];
      }
    }
  }

  // ---------------------------------------------------------------------
  // The append-in-a-loop pattern: keep f(x).value for each x with f(x) present

  function FilterMap<T, U>(xs: seq<T>, f: T -> Option<U>): (r: seq<U>)
    ensures |r| <= |xs|
  {
    if xs == [] then []
    else (if f(xs[0]).Some? then [f(xs[0]).value] else []) + FilterMap(xs[1..], f)
  }

  /** The elements `f` keeps, in order. */
  function Kept<T, U>(xs: seq<T>, f: T -> Option<U>): (r: seq<T>)
    ensures forall x :: x in r ==> x in xs && f(x).Some?
  {
    if xs == [] then []
    else (if f(xs[0]).Some? then [xs[0]] else []) + Kept(xs[1..], f)
  }

  lemma {:induction false} FilterMapAppend<T, U>(a: seq<T>, b: seq<T>, f: T -> Option<U>)
    ensures FilterMap(a + b, f) == FilterMap(a, f) + FilterMap(b, f)
  {
    if a != [] {
      assert (a + b)[0] == a[0];
      assert (a + b)[1..] == a[1..] + b;
      FilterMapAppend(a[1..], b, f);
    } else {
      assert a + b == b;
    }
  }

  /** One result per kept element, and result i comes from kept element i. */
  lemma {:induction false} FilterMapKept<T, U>(xs: seq<T>, f: T -> Option<U>)
    ensures |FilterMap(xs, f)| == |Kept(xs, f)|
    ensures forall i :: 0 <= i < |Kept(xs, f)| ==> f(Kept(xs, f)[i]) == Some(FilterMap(xs, f)[i])
  {
    if xs != [] {
      var r, k := FilterMap(xs[1..], f), Kept(xs[1..], f);
      FilterMapKept(xs[1..], f);
      if f(xs[0]).Some? {
        assert FilterMap(xs, f) == [f(xs[0]).value] + r;
        assert Kept(xs, f) == [xs[0]] + k;
        forall i | 0 <= i < |Kept(xs, f)|
          ensures f(Kept(xs, f)[i]) == Some(FilterMap(xs, f)[i])
        {
          if i > 0 {
            assert Kept(xs, f)[i] == k[i - 1];
            assert FilterMap(xs, f)[i] == r[i - 1];
          }
        }
      } else {
        assert FilterMap(xs, f) == r;
        assert Kept(xs, f) == k;
      }
    }
  }

  /** A value is produced exactly when some element maps to it. */
  lemma {:induction false} FilterMapMembership<T, U>(xs: seq<T>, f: T -> Option<U>, y: U)
    ensures y in FilterMap(xs, f) <==> exists i :: 0 <= i < |xs| && f(xs[i]) == Some(y)
  {
    if xs != [] {
      var rest := xs[1..];
      FilterMapMembership(rest, f, y);
      if exists i :: 0 <= i < |xs| && f(xs[i]) == Some(y) {
        var i :| 0 <= i < |xs| && f(xs[i]) == Some(y);
        if i > 0 {
          assert rest[i - 1] == xs[i];
        }
      }
      if y in FilterMap(rest, f) {
        var i :| 0 <= i < |rest| && f(rest[i]) == Some(y);
        assert xs[i + 1] == rest[i];
      }
    }
  }

  lemma LowerAsciiPrefix(s: string, n: nat)
    requires n <= |s|
    ensures LowerAscii(s)[..n] == LowerAscii(s[..n])
  {
  }

  // ---------------------------------------------------------------------
  // Python int() on a string, base 10

  predicate IsDigit(c: char) {
    '0' <= c <= '9'
  }

  /** The digit part `int()` accepts: ASCII digits, with single underscores between digits. */
  predicate IsDigitGroup(t: string) {
    |t| > 0 && forall j :: 0 <= j < |t| ==> DigitGroupAt(t, j)
  }

  /** Position j holds a digit, or an underscore with a digit on each side. */
  predicate DigitGroupAt(t: string, j: int)
    requires 0 <= j < |t|
  {
    IsDigit(t[j]) || (t[j] == '_' && 0 < j < |t| - 1 && IsDigit(t[j - 1]) && IsDigit(t[j + 1]))
  }

  /** A digit group starts and ends with a digit. */
  lemma DigitGroupEnds(t: string)
    requires IsDigitGroup(t)
    ensures IsDigit(t[0]) && IsDigit(t[|t| - 1])
  {
    assert DigitGroupAt(t, 0) && DigitGroupAt(t, |t| - 1);
  }

  /** The value of a digit group, underscores ignored. */
  function DigitsValue(t: string): nat {
    if t == [] then 0
    else if t[|t| - 1] == '_' then DigitsValue(t[..|t| - 1])
    else DigitsValue(t[..|t| - 1]) * 10 + (if IsDigit(t[|t| - 1]) then t[|t| - 1] as int - '0' as int else 0)
  }

  /** The default of `sys.set_int_max_str_digits`: `int()` refuses a decimal string with more
      digits than this (CPython 3.11 and later). */
  const MaxStrDigits: nat := 4300

  /** The number of digits `int()` counts against `MaxStrDigits`: every character but the
      underscores, leading zeros included. */
  function DigitCount(t: string): nat {
    if t == [] then 0 else DigitCount(t[..|t| - 1]) + (if t[|t| - 1] == '_' then 0 else 1)
  }

  /** `int()` on a digit group, the sign already taken off. */
  function GroupValue(g: string): Option<nat> {
    if IsDigitGroup(g) && DigitCount(g) <= MaxStrDigits then Some(DigitsValue(g)) else None
  }

  /** `int(s)`: `Some(n)` where Python returns n, `None` where it raises ValueError (not a
      number, or more than `MaxStrDigits` digits).
      Header values are ISO-8859-1 text, whose only decimal digits are the ASCII ones. */
  function ParseInt(s: string): Option<int> {
    var t := Strip(s);
    if t != [] && (t[0] == '+' || t[0] == '-') then
      match GroupValue(t[1..])
      case Some(v) => Some(if t[0] == '-' then -(v as int) else v as int)
      case None => None
    else match GroupValue(t)
      case Some(v) => Some(v as int)
      case None => None
  }

  /** Digits alone form a digit group. */
  lemma DigitsAreGroup(t: string)
    requires |t| > 0 && forall j :: 0 <= j < |t| ==> IsDigit(t[j])
    ensures IsDigitGroup(t)
  {
    forall j | 0 <= j < |t| ensures DigitGroupAt(t, j) {
      assert IsDigit(t[j]);
    }
  }

  function DigitChar(d: nat): char
    requires d < 10
  {
    ('0' as int + d) as char
  }

  /** Decimal rendering of a natural number, as `str(n)` prints it. */
  function NatDigits(n: nat): (r: string)
    ensures |r| > 0
    ensures forall j :: 0 <= j < |r| ==> IsDigit(r[j])
    decreases n
  {
    if n < 10 then [DigitChar(n)] else NatDigits(n / 10) + [DigitChar(n % 10)]
  }

  /** `str(n)` for any integer. */
  function Decimal(n: int): string {
    if n < 0 then "-" + NatDigits(-n) else NatDigits(n)
  }

  lemma {:induction false} NatDigitsValue(n: nat)
    ensures DigitsValue(NatDigits(n)) == n
    decreases n
  {
    var r := NatDigits(n);
    if n >= 10 {
      NatDigitsValue(n / 10);
      assert r[..|r| - 1] == NatDigits(n / 10);
    }
  }

  /** Without underscores every character is a counted digit. */
  lemma {:induction false} DigitCountOfDigits(t: string)
    requires forall j :: 0 <= j < |t| ==> IsDigit(t[j])
    ensures DigitCount(t) == |t|
  {
    if t != [] {
      DigitCountOfDigits(t[..|t| - 1]);
    }
  }

  /** A string of digits reads back as its value, unless it is too long for `int()`. */
  lemma ParseIntDigits(t: string)
    requires |t| > 0 && forall j :: 0 <= j < |t| ==> IsDigit(t[j])
    ensures ParseInt(t) == if |t| <= MaxStrDigits then Some(DigitsValue(t) as int) else None
  {
    DigitsAreGroup(t);
    DigitCountOfDigits(t);
    assert IsDigit(t[0]) && IsDigit(t[|t| - 1]);
    StripUnchanged(t);
  }

  /** A minus followed by a digit group reads back as the group's negated value, unless the
      group is too long for `int()`. */
  lemma ParseIntNegatedGroup(u: string)
    requires |u| >= 2 && u[0] == '-' && IsDigitGroup(u[1..])
    ensures ParseInt(u) == if DigitCount(u[1..]) <= MaxStrDigits then Some(-(DigitsValue(u[1..]) as int)) else None
  {
    DigitGroupEnds(u[1..]);
    assert u[|u| - 1] == u[1..][|u| - 2];
    StripUnchanged(u);
  }

  /** The magnitude digits of `str(n)`. */
  function Magnitude(n: int): string {
    NatDigits(if n < 0 then -n else n)
  }

  /** `int(str(n)) == n` for every integer of at most `MaxStrDigits` digits: every integer a
      server renders within that bound is read back exactly. */
  lemma ParseIntRoundTrip(n: int)
    requires |Magnitude(n)| <= MaxStrDigits
    ensures ParseInt(Decimal(n)) == Some(n)
  {
    ParseIntOfDecimal(n);
  }

  /** `int(str(n))` raises ValueError once n has more than `MaxStrDigits` digits. */
  lemma ParseIntRejectsLongDecimal(n: int)
    requires |Magnitude(n)| > MaxStrDigits
    ensures ParseInt(Decimal(n)) == None
  {
    ParseIntOfDecimal(n);
  }

  /** `int(str(n))` is n within the digit limit and an error beyond it. */
  lemma ParseIntOfDecimal(n: int)
    ensures ParseInt(Decimal(n)) == if |Magnitude(n)| <= MaxStrDigits then Some(n) else None
  {
    if n < 0 {
      NegativeRoundTrip(n);
    } else {
      NatDigitsValue(n);
      ParseIntDigits(NatDigits(n));
    }
  }

  function Pow10(k: nat): nat {
    if k == 0 then 1 else 10 * Pow10(k - 1)
  }

  /** A number below 10^k has at most k digits. */
  lemma {:induction false} NatDigitsBound(n: nat, k: nat)
    requires 1 <= k && n < Pow10(k)
    ensures |NatDigits(n)| <= k
    decreases k
  {
    if n >= 10 {
      assert k >= 2;
      NatDigitsBound(n / 10, k - 1);
    }
  }

  /** A negative integer renders as a minus followed by the digits of its magnitude. */
  lemma DecimalNegative(n: int, m: nat)
    requires n < 0 && m == -n
    ensures |Decimal(n)| >= 2 && Decimal(n)[0] == '-' && Decimal(n)[1..] == NatDigits(m)
  {
    var d := "-" + NatDigits(m);
    assert d[1..] == NatDigits(m);
  }

  /** `int(str(n))` for a negative n. */
  lemma NegativeRoundTrip(n: int)
    requires n < 0
    ensures ParseInt(Decimal(n)) == if |Magnitude(n)| <= MaxStrDigits then Some(n) else None
  {
    var m: nat := -n;
    var digits := NatDigits(m);
    var d := Decimal(n);
    DecimalNegative(n, m);
    DigitsAreGroup(digits);
    DigitCountOfDigits(digits);
    ParseIntNegatedGroup(d);
    NatDigitsValue(m);
    assert DigitsValue(d[1..]) == DigitsValue(digits) == m;
  }
}
