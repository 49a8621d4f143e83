/**
 * The JavaScript string operations the app relies on, with JavaScript's
 * semantics: relational comparison (`a < b`), `split` on a one-character
 * separator, `trim`, the default `sort` of an array of strings, the data-URL
 * payload `dataUrl.split(',')[1]` and the decimal rendering of a count in a
 * template literal.
 */
module Strings {

  import opened Types

  // ---------------------------------------------------------------------
  // Relational comparison
  // ---------------------------------------------------------------------

  /**
   * JavaScript's `a < b` on strings: lexicographic by character, and a
   * proper prefix is smaller. (Dafny's `<` on sequences is "proper prefix",
   * which is not the same thing.)
   */
  predicate Less(a: string, b: string)
    decreases |a|
  {
    if a == [] then b != []
    else if b == [] then false
    else if a[0] != b[0] then a[0] < b[0]
    else Less(a[1..], b[1..])
  }

  /** `a <= b` on strings. */
  predicate LessEq(a: string, b: string)
  {
    a == b || Less(a, b)
  }

  lemma {:induction false} LessIrreflexive(a: string)
    ensures !Less(a, a)
  {
    if a != [] {
      LessIrreflexive(a[1..]);
    }
  }

  lemma {:induction false} LessTransitive(a: string, b: string, c: string)
    requires Less(a, b) && Less(b, c)
    ensures Less(a, c)
  {
    if a != [] && a[0] == b[0] && b[0] == c[0] {
      LessTransitive(a[1..], b[1..], c[1..]);
    }
  }

  /** Any two distinct strings are ordered one way or the other. */
  lemma {:induction false} LessTotal(a: string, b: string)
    ensures a == b || Less(a, b) || Less(b, a)
  {
    if a != [] && b != [] && a[0] == b[0] {
      LessTotal(a[1..], b[1..]);
      if a[1..] == b[1..] {
        assert a == [a[0]] + a[1..] && b == [b[0]] + b[1..];
      }
    }
  }

  lemma LessAsymmetric(a: string, b: string)
    requires Less(a, b)
    ensures !Less(b, a) && a != b
  {
    if Less(b, a) {
      LessTransitive(a, b, a);
      LessIrreflexive(a);
    }
    LessIrreflexive(a);
  }

  /** `!(a < b)` is exactly `b <= a`: what an inclusive bound test relies on. */
  lemma NotLessIsLessEq(a: string, b: string)
    ensures !Less(a, b) <==> LessEq(b, a)
  {
    LessTotal(a, b);
    if Less(b, a) {
      LessAsymmetric(b, a);
    }
    LessIrreflexive(a);
  }

  /** Strings sharing a prefix compare as their remainders do (e.g. dates of the same month). */
  lemma {:induction false} LessCommonPrefix(p: string, a: string, b: string)
    ensures Less(p + a, p + b) <==> Less(a, b)
  {
    if p != [] {
      LessCommonPrefix(p[1..], a, b);
      assert (p + a)[1..] == p[1..] + a && (p + b)[1..] == p[1..] + b;
    } else {
      assert p + a == a && p + b == b;
    }
  }

  lemma LessEqTransitive(a: string, b: string, c: string)
    requires LessEq(a, b) && LessEq(b, c)
    ensures LessEq(a, c)
  {
    if a != b && b != c {
      LessTransitive(a, b, c);
    }
  }

  // ---------------------------------------------------------------------
  // split
  // ---------------------------------------------------------------------

  /** The inverse of `split`: `parts.join(sep)`. */
  function Join(parts: seq<string>, sep: char): string
    requires |parts| >= 1
  {
    if |parts| == 1 then parts[0] else parts[0] + [sep] + Join(parts[1..], sep)
  }

  /**
   * `s.split(sep)` for a one-character separator: the pieces between
   * separators, always at least one (`"".split(",")` is `[""]`).
   */
  function Split(s: string, sep: char): (parts: seq<string>)
    ensures |parts| >= 1
    ensures forall i :: 0 <= i < |parts| ==> sep !in parts[i]
    ensures Join(parts, sep) == s
    decreases |s|
  {
    if s == [] then [[]]
    else
      var rest := Split(s[1..], sep);
      if s[0] == sep then [[]] + rest
      else
        assert Join(rest, sep) == s[1..];
        JoinConsFirst(s[0], rest, sep);
        [[s[0]] + rest[0]] + rest[1..]
  }

  /** Prepending a character to the first piece prepends it to the join. */
  lemma JoinConsFirst(c: char, parts: seq<string>, sep: char)
    requires |parts| >= 1
    ensures Join([[c] + parts[0]] + parts[1..], sep) == [c] + Join(parts, sep)
  {
    var q := [[c] + parts[0]] + parts[1..];
    assert q[1..] == parts[1..];
  }

  /** A piece without separators splits to itself. */
  lemma {:induction false} SplitNoSeparator(x: string, sep: char)
    requires sep !in x
    ensures Split(x, sep) == [x]
    decreases |x|
  {
    if x != [] {
      SplitNoSeparator(x[1..], sep);
      assert [x[0]] + x[1..] == x;
    }
  }

  /** Splitting `x + sep + y`, where `x` holds no separator, cuts at that separator. */
  lemma {:induction false} SplitAtFirstSeparator(x: string, y: string, sep: char)
    requires sep !in x
    ensures Split(x + [sep] + y, sep) == [x] + Split(y, sep)
    decreases |x|
  {
    var s := x + [sep] + y;
    if x == [] {
      assert s[1..] == y;
    } else {
      assert s[1..] == x[1..] + [sep] + y;
      SplitAtFirstSeparator(x[1..], y, sep);
      assert [x[0]] + x[1..] == x;
    }
  }

  /** Round trip: joining separator-free pieces and splitting gives the pieces back. */
  lemma {:induction false} SplitJoin(parts: seq<string>, sep: char)
    requires |parts| >= 1
    requires forall i :: 0 <= i < |parts| ==> sep !in parts[i]
    ensures Split(Join(parts, sep), sep) == parts
    decreases |parts|
  {
    if |parts| == 1 {
      SplitNoSeparator(parts[0], sep);
    } else {
      SplitJoin(parts[1..], sep);
      SplitAtFirstSeparator(parts[0], Join(parts[1..], sep), sep);
      assert [parts[0]] + parts[1..] == parts;
    }
  }

  /** `dataUrl.split(',')[1]`: the text between the first and second comma, or `undefined`. */
  function DataUrlPayload(dataUrl: string): (r: Option<string>)
    ensures r.Some? <==> ',' in dataUrl
    ensures r.Some? ==> ',' !in r.value
  {
    var parts := Split(dataUrl, ',');
    if |parts| >= 2 then Some(parts[1])
    else
      assert parts == [parts[0]];
      None
  }

  /**
   * A data URL `header,payload` (the base64 alphabet has no comma, and the
   * header of a data URL holds none) yields exactly its payload back.
   */
  lemma DataUrlPayloadRoundTrip(header: string, payload: string)
    requires ',' !in header && ',' !in payload
    ensures DataUrlPayload(header + "," + payload) == Some(payload)
  {
    SplitAtFirstSeparator(header, payload, ',');
    SplitNoSeparator(payload, ',');
  }

  /**
   * In general, `split(',')[1]` of `header,rest` (a comma-free header) is the
   * first comma-separated piece of `rest`.
   */
  lemma DataUrlPayloadFirstComma(header: string, rest: string)
    requires ',' !in header
    ensures DataUrlPayload(header + "," + rest) == Some(Split(rest, ',')[0])
  {
    SplitAtFirstSeparator(header, rest, ',');
  }

  // ---------------------------------------------------------------------
  // trim
  // ---------------------------------------------------------------------

  /** The characters `String.prototype.trim` removes: WhiteSpace and LineTerminator of ECMAScript. */
  predicate IsWhitespace(c: char)
  {
    || c == '\t' || c == '\n' || c == '\U{B}' || c == '\U{C}' || c == '\r' || c == ' '
    || c == '\U{A0}' || c == '\U{1680}' || ('\U{2000}' <= c <= '\U{200A}')
    || c == '\U{2028}' || c == '\U{2029}' || c == '\U{202F}' || c == '\U{205F}'
    || c == '\U{3000}' || c == '\U{FEFF}'
  }

  /** `s` with its leading whitespace removed. */
  function TrimStart(s: string): (r: string)
    ensures |r| <= |s| && r == s[|s| - |r|..]
    ensures forall k :: 0 <= k < |s| - |r| ==> IsWhitespace(s[k])
    ensures r == [] || !IsWhitespace(r[0])
  {
    if s != [] && IsWhitespace(s[0]) then TrimStart(s[1..]) else s
  }

  /** `s` with its trailing whitespace removed. */
  function TrimEnd(s: string): (r: string)
    ensures |r| <= |s| && r == s[..|r|]
    ensures forall k :: |r| <= k < |s| ==> IsWhitespace(s[k])
    ensures r == [] || !IsWhitespace(r[|r| - 1])
  {
    if s != [] && IsWhitespace(s[|s| - 1]) then TrimEnd(s[..|s| - 1]) else s
  }

  /**
   * `s.trim()`: the result is a contiguous piece of `s`, everything cut off
   * on either side is whitespace, and the result neither starts nor ends
   * with whitespace.
   */
  function Trim(s: string): (r: string)
    ensures var lead := |s| - |TrimStart(s)|;
      && lead + |r| <= |s| && r == s[lead..lead + |r|]
      && (forall k :: 0 <= k < lead ==> IsWhitespace(s[k]))
      && (forall k :: lead + |r| <= k < |s| ==> IsWhitespace(s[k]))
    ensures r == [] || (!IsWhitespace(r[0]) && !IsWhitespace(r[|r| - 1]))
  {
    TrimPieces(s, TrimStart(s), TrimEnd(TrimStart(s)));
    TrimEnd(TrimStart(s))
  }

  /** The piece kept by `TrimEnd(TrimStart(s))` sits inside `s` with whitespace on both sides. */
  lemma TrimPieces(s: string, t: string, r: string)
    requires |t| <= |s| && t == s[|s| - |t|..]
    requires |r| <= |t| && r == t[..|r|]
    requires forall k :: |r| <= k < |t| ==> IsWhitespace(t[k])
    ensures |s| - |t| + |r| <= |s| && r == s[|s| - |t|..|s| - |t| + |r|]
    ensures forall k :: |s| - |t| + |r| <= k < |s| ==> IsWhitespace(s[k])
  {
    forall k | |s| - |t| + |r| <= k < |s|
      ensures IsWhitespace(s[k])
    {
      assert s[k] == t[k - (|s| - |t|)];
    }
  }

  /** A string that neither starts nor ends with whitespace is its own trim. */
  lemma TrimUnpadded(s: string)
    requires s == [] || (!IsWhitespace(s[0]) && !IsWhitespace(s[|s| - 1]))
    ensures Trim(s) == s
  {
  }

  /** A leading whitespace character is cut off by the trim. */
  lemma TrimLeadingWhitespace(c: char, s: string)
    requires IsWhitespace(c)
    ensures Trim([c] + s) == Trim(s)
  {
    assert ([c] + s)[1..] == s;
  }

  // ---------------------------------------------------------------------
  // sort
  // ---------------------------------------------------------------------

  /** Ascending under `<=`. */
  predicate Sorted(s: seq<string>)
  {
    forall i, j :: 0 <= i < j < |s| ==> LessEq(s[i], s[j])
  }

  /** Ascending under `<`, hence free of duplicates. */
  predicate StrictlySorted(s: seq<string>)
  {
    forall i, j :: 0 <= i < j < |s| ==> Less(s[i], s[j])
  }

  /** Inserts `x` into a sorted list before the first element not below it. */
  function Insert(x: string, s: seq<string>): (r: seq<string>)
    requires Sorted(s)
    ensures Sorted(r)
    ensures multiset(r) == multiset(s) + multiset{x}
  {
    if s == [] then [x]
    else if LessEq(x, s[0]) then
      InsertFrontSorted(x, s);
      [x] + s
    else
      SortedTail(s);
      var rest := Insert(x, s[1..]);
      LessTotal(x, s[0]);
      InsertConsSorted(s[0], x, s[1..], rest);
      assert s == [s[0]] + s[1..];
      assert multiset([s[0]] + rest) == multiset{s[0]} + multiset(rest);
      [s[0]] + rest
  }

  lemma SortedTail(s: seq<string>)
    requires Sorted(s) && s != []
    ensures Sorted(s[1..])
  {
    forall i, j | 0 <= i < j < |s| - 1
      ensures LessEq(s[1..][i], s[1..][j])
    {
      assert s[1..][i] == s[i + 1] && s[1..][j] == s[j + 1];
    }
  }

  lemma InsertFrontSorted(x: string, s: seq<string>)
    requires Sorted(s) && s != [] && LessEq(x, s[0])
    ensures Sorted([x] + s)
  {
    forall j | 0 <= j < |s|
      ensures LessEq(x, s[j])
    {
      LessEqTransitive(x, s[0], s[j]);
    }
  }

  lemma InsertConsSorted(y: string, x: string, tail: seq<string>, rest: seq<string>)
    requires Sorted([y] + tail) && LessEq(y, x)
    requires Sorted(rest) && multiset(rest) == multiset(tail) + multiset{x}
    ensures Sorted([y] + rest)
  {
    var r := [y] + rest;
    forall j | 0 <= j < |rest|
      ensures LessEq(y, rest[j])
    {
      assert rest[j] in multiset(rest);
      if rest[j] != x {
        assert rest[j] in multiset(tail);
        assert rest[j] in tail;
        var k :| 0 <= k < |tail| && tail[k] == rest[j];
        var yt := [y] + tail;
        assert yt[0] == y && yt[k + 1] == rest[j];
        assert LessEq(yt[0], yt[k + 1]);
      }
    }
  }

  /** JavaScript's default `sort()` on an array of strings, as insertion sort. */
  function SortStrings(s: seq<string>): (r: seq<string>)
    ensures Sorted(r)
    ensures multiset(r) == multiset(s)
  {
    if s == [] then []
    else
      assert s == [s[0]] + s[1..];
      Insert(s[0], SortStrings(s[1..]))
  }

  /** Inserting a new element into a strictly sorted list keeps it strictly sorted. */
  lemma InsertStrictlySorted(x: string, s: seq<string>)
    requires StrictlySorted(s) && x !in s
    ensures StrictlySorted(Insert(x, s))
  {
    var r := Insert(x, s);
    forall i, j | 0 <= i < j < |r|
      ensures Less(r[i], r[j])
    {
      StrictlySortedOnce(s, r[i]);
      assert multiset(r)[r[i]] <= 1;
      OnceNoRepeat(r, i, j);
    }
  }

  /** An element occurring at most once cannot sit at two indices. */
  lemma OnceNoRepeat<T>(s: seq<T>, i: nat, j: nat)
    requires i < j < |s| && multiset(s)[s[i]] <= 1
    ensures s[i] != s[j]
  {
    assert s == s[..i] + [s[i]] + s[i + 1..j] + [s[j]] + s[j + 1..];
    assert multiset(s)[s[i]] >= 1 + multiset([s[j]])[s[i]];
  }

  /** A strictly sorted list holds each string at most once. */
  lemma {:induction false} StrictlySortedOnce(s: seq<string>, x: string)
    requires StrictlySorted(s)
    ensures multiset(s)[x] <= 1
  {
    if s != [] {
      StrictlySortedOnce(s[1..], x);
      assert s == [s[0]] + s[1..];
      if x == s[0] {
        forall k | 0 <= k < |s| - 1
          ensures s[1..][k] != x
        {
          LessAsymmetric(s[0], s[k + 1]);
        }
      }
    }
  }

  /** Sorting a duplicate-free list gives a strictly ascending list. */
  lemma {:induction false} SortStringsDistinct(s: seq<string>)
    requires forall i, j :: 0 <= i < j < |s| ==> s[i] != s[j]
    ensures StrictlySorted(SortStrings(s))
  {
    if s != [] {
      SortStringsDistinct(s[1..]);
      assert s[0] !in s[1..];
      assert s[0] !in multiset(SortStrings(s[1..]));
      InsertStrictlySorted(s[0], SortStrings(s[1..]));
    }
  }

  // ---------------------------------------------------------------------
  // Decimal rendering of a count
  // ---------------------------------------------------------------------

  /** The decimal digits of `n`, as `${n}` renders a non-negative integer: no leading zero. */
  function DecimalString(n: nat): (r: string)
    ensures r != []
    ensures forall k :: 0 <= k < |r| ==> '0' <= r[k] <= '9'
    ensures n > 0 ==> r[0] != '0'
  {
    if n < 10 then [Digit(n)] else DecimalString(n / 10) + [Digit(n % 10)]
  }

  function Digit(d: nat): (c: char)
    requires d < 10
    ensures '0' <= c <= '9'
  {
    "0123456789"[d]
  }

  /** The number a string of decimal digits denotes. */
  function DecimalValue(s: string): nat
    requires forall k :: 0 <= k < |s| ==> '0' <= s[k] <= '9'
  {
    if s == [] then 0
    else DecimalValue(s[..|s| - 1]) * 10 + (s[|s| - 1] as int - '0' as int)
  }

  /** Reading the rendered count back gives the count. */
  lemma {:induction false} DecimalRoundTrip(n: nat)
    ensures DecimalValue(DecimalString(n)) == n
  {
    if n >= 10 {
      DecimalRoundTrip(n / 10);
      var r := DecimalString(n);
      assert r[..|r| - 1] == DecimalString(n / 10);
    }
  }
}
