/**
 * String operations of the .NET base library that the core relies on, on `seq<char>`.
 * Case mapping covers the ASCII letters only (ordinal-ignore-case and ToLower agree
 * with it there); separators are explicit sets of characters.
 */
module Text {

  function LowerChar(c: char): char {
    if 'A' <= c <= 'Z' then (c as int + 32) as char else c
  }

  /** String.ToLower restricted to ASCII letters. */
  function Lower(s: string): (r: string)
    ensures |r| == |s|
    ensures forall i :: 0 <= i < |s| ==> r[i] == LowerChar(s[i])
  {
    seq(|s|, i requires 0 <= i < |s| => LowerChar(s[i]))
  }

  function LowerAll(ss: seq<string>): (r: seq<string>)
    ensures |r| == |ss|
    ensures forall i :: 0 <= i < |ss| ==> r[i] == Lower(ss[i])
  {
    seq(|ss|, i requires 0 <= i < |ss| => Lower(ss[i]))
  }

  predicate IsLowerCase(s: string) {
    forall i :: 0 <= i < |s| ==> !('A' <= s[i] <= 'Z')
  }

  /** String.Equals with StringComparison.OrdinalIgnoreCase. */
  predicate EqualsIgnoreCase(a: string, b: string) {
    Lower(a) == Lower(b)
  }

  predicate StartsWith(s: string, prefix: string) {
    |prefix| <= |s| && s[..|prefix|] == prefix
  }

  /** Ordinal String.EndsWith. */
  predicate EndsWith(s: string, suffix: string) {
    |suffix| <= |s| && s[|s| - |suffix|..] == suffix
  }

  /** String.EndsWith with StringComparison.OrdinalIgnoreCase. */
  predicate EndsWithIgnoreCase(s: string, suffix: string) {
    |suffix| <= |s| && EqualsIgnoreCase(s[|s| - |suffix|..], suffix)
  }

  predicate HasNo(s: string, c: char) {
    forall i :: 0 <= i < |s| ==> s[i] != c
  }

  /** String.IndexOf(char): the first index of `c`, or -1. */
  function IndexOf(s: string, c: char): (r: int)
    ensures -1 <= r < |s|
    ensures r >= 0 ==> s[r] == c && forall i :: 0 <= i < r ==> s[i] != c
    ensures r == -1 ==> HasNo(s, c)
  {
    if s == [] then -1
    else if s[0] == c then 0
    else
      var k := IndexOf(s[1..], c);
      if k == -1 then -1 else k + 1
  }

  /** String.LastIndexOf(char, startIndex): searches backwards from `start` inclusive. */
  function LastIndexOf(s: string, c: char, start: int): (r: int)
    requires -1 <= start < |s|
    ensures -1 <= r <= start
    ensures r >= 0 ==> s[r] == c && forall i :: r < i <= start ==> s[i] != c
    ensures r == -1 ==> forall i :: 0 <= i <= start ==> s[i] != c
    decreases start + 1
  {
    if start < 0 then -1
    else if s[start] == c then start
    else LastIndexOf(s, c, start - 1)
  }

  /** How many copies of `c` open `s`. */
  function LeadingCount(s: string, c: char): (k: nat)
    ensures k <= |s|
    ensures forall i :: 0 <= i < k ==> s[i] == c
    ensures k < |s| ==> s[k] != c
  {
    if s != [] && s[0] == c then 1 + LeadingCount(s[1..], c) else 0
  }

  /** How many copies of `c` close `s`. */
  function TrailingCount(s: string, c: char): (k: nat)
    ensures k <= |s|
    ensures forall i :: |s| - k <= i < |s| ==> s[i] == c
    ensures k < |s| ==> s[|s| - 1 - k] != c
  {
    if s != [] && s[|s| - 1] == c then 1 + TrailingCount(s[..|s| - 1], c) else 0
  }

  /** String.Trim(char): drops every leading and trailing `c`. */
  function Trim(s: string, c: char): (r: string)
    ensures r == "" || (r[0] != c && r[|r| - 1] != c)
  {
    var t := s[LeadingCount(s, c)..];
    t[..|t| - TrailingCount(t, c)]
  }

  predicate IsWhiteSpace(c: char) {
    c == ' ' || c == '\t' || c == '\n' || c == '\r' || c == '\U{000B}' || c == '\U{000C}'
  }

  /** String.Trim(): drops leading and trailing white space (ASCII white space only). */
  function TrimWhiteSpace(s: string): (r: string)
    ensures r == "" || (!IsWhiteSpace(r[0]) && !IsWhiteSpace(r[|r| - 1]))
    decreases |s|
  {
    if s != [] && IsWhiteSpace(s[0]) then TrimWhiteSpace(s[1..])
    else if s != [] && IsWhiteSpace(s[|s| - 1]) then TrimWhiteSpace(s[..|s| - 1])
    else s
  }

  /** A string with no white space at either end is its own trim. */
  lemma TrimOfTrimmed(s: string)
    requires s != [] && !IsWhiteSpace(s[0]) && !IsWhiteSpace(s[|s| - 1])
    ensures TrimWhiteSpace(s) == s
  {
  }

  predicate IsWhiteSpaceOrNull(c: char) {
    IsWhiteSpace(c) || c == '\0'
  }

  /** The trim bool.TryParse applies before its second attempt: white space and '\0' at both ends. */
  function TrimWhiteSpaceAndNull(s: string): (r: string)
    ensures r == "" || (!IsWhiteSpaceOrNull(r[0]) && !IsWhiteSpaceOrNull(r[|r| - 1]))
    decreases |s|
  {
    if s != [] && IsWhiteSpaceOrNull(s[0]) then TrimWhiteSpaceAndNull(s[1..])
    else if s != [] && IsWhiteSpaceOrNull(s[|s| - 1]) then TrimWhiteSpaceAndNull(s[..|s| - 1])
    else s
  }

  /** A string with no white space or '\0' at either end is its own trim. */
  lemma TrimAndNullOfTrimmed(s: string)
    requires s != [] && !IsWhiteSpaceOrNull(s[0]) && !IsWhiteSpaceOrNull(s[|s| - 1])
    ensures TrimWhiteSpaceAndNull(s) == s
  {
  }

  /** String.Replace(char, char). */
  function Replace(s: string, from: char, to: char): (r: string)
    ensures |r| == |s|
    ensures forall i :: 0 <= i < |s| ==> r[i] == (if s[i] == from then to else s[i])
  {
    seq(|s|, i requires 0 <= i < |s| => if s[i] == from then to else s[i])
  }

  /**
   * String.Split on a set of separator characters, keeping empty entries: n separators
   * give n + 1 parts, and no part holds a separator.
   */
  function Split(s: string, seps: set<char>): (parts: seq<string>)
    ensures |parts| >= 1
    ensures forall i, j :: 0 <= i < |parts| && 0 <= j < |parts[i]| ==> parts[i][j] !in seps
    decreases |s|
  {
    if s == [] then [""]
    else
      var rest := Split(s[1..], seps);
      if s[0] in seps then [""] + rest
      else [[s[0]] + rest[0]] + rest[1..]
  }

  /** Drops the empty strings, keeping the order of the others. */
  function RemoveEmpty(parts: seq<string>): (r: seq<string>)
    ensures forall i :: 0 <= i < |r| ==> r[i] != ""
    ensures forall x :: x in r <==> x in parts && x != ""
  {
    if parts == [] then []
    else if parts[0] == "" then RemoveEmpty(parts[1..])
    else [parts[0]] + RemoveEmpty(parts[1..])
  }

  /** String.Split(c, StringSplitOptions.RemoveEmptyEntries). */
  function SplitNonEmpty(s: string, c: char): (r: seq<string>)
    ensures forall i :: 0 <= i < |r| ==> r[i] != "" && HasNo(r[i], c)
  {
    var r := RemoveEmpty(Split(s, {c}));
    assert forall i :: 0 <= i < |r| ==> r[i] in Split(s, {c});
    r
  }

  /** String.Join(sep, parts). */
  function Join(parts: seq<string>, sep: string): string {
    if parts == [] then ""
    else if |parts| == 1 then parts[0]
    else parts[0] + sep + Join(parts[1..], sep)
  }

  // ---------------------------------------------------------------------------
  // Lemmas

  lemma LowerConcat(a: string, b: string)
    ensures Lower(a + b) == Lower(a) + Lower(b)
  {
  }

  lemma LowerOfLowerCase(s: string)
    requires IsLowerCase(s)
    ensures Lower(s) == s
  {
  }

  lemma LowerIsLowerCase(s: string)
    ensures IsLowerCase(Lower(s))
  {
  }

  lemma LowerAllOfLowerCase(xs: seq<string>)
    requires forall i :: 0 <= i < |xs| ==> IsLowerCase(xs[i])
    ensures LowerAll(xs) == xs
  {
    forall i | 0 <= i < |xs| ensures LowerAll(xs)[i] == xs[i] {
      LowerOfLowerCase(xs[i]);
    }
  }

  lemma {:induction false} JoinAppend(xs: seq<string>, y: string, sep: string)
    requires xs != []
    ensures Join(xs + [y], sep) == Join(xs, sep) + sep + y
    decreases |xs|
  {
    if |xs| == 1 {
      assert xs + [y] == [xs[0], y];
    } else {
      assert (xs + [y])[1..] == xs[1..] + [y];
      JoinAppend(xs[1..], y, sep);
    }
  }

  lemma {:induction false} JoinLower(xs: seq<string>, sep: string)
    requires IsLowerCase(sep)
    ensures Lower(Join(xs, sep)) == Join(LowerAll(xs), sep)
    decreases |xs|
  {
    if |xs| > 1 {
      JoinLower(xs[1..], sep);
      LowerConcat(xs[0] + sep, Join(xs[1..], sep));
      LowerConcat(xs[0], sep);
      LowerOfLowerCase(sep);
      assert LowerAll(xs)[1..] == LowerAll(xs[1..]);
    }
  }

  lemma {:induction false} JoinIsLowerCase(xs: seq<string>, sep: string)
    requires IsLowerCase(sep)
    requires forall i :: 0 <= i < |xs| ==> IsLowerCase(xs[i])
    ensures IsLowerCase(Join(xs, sep))
    decreases |xs|
  {
    if |xs| > 1 {
      JoinIsLowerCase(xs[1..], sep);
    }
  }

  lemma {:induction false} SplitWithoutSeparator(s: string, seps: set<char>)
    requires forall j :: 0 <= j < |s| ==> s[j] !in seps
    ensures Split(s, seps) == [s]
    decreases |s|
  {
    if s != [] {
      SplitWithoutSeparator(s[1..], seps);
      assert [s[0]] + s[1..] == s;
    }
  }

  lemma {:induction false} SplitAfterSeparator(a: string, c: char, b: string, seps: set<char>)
    requires c in seps
    requires forall j :: 0 <= j < |a| ==> a[j] !in seps
    ensures Split(a + [c] + b, seps) == [a] + Split(b, seps)
    decreases |a|
  {
    if a == [] {
      assert a + [c] + b == [c] + b;
      assert ([c] + b)[1..] == b;
    } else {
      assert (a + [c] + b)[1..] == a[1..] + [c] + b;
      SplitAfterSeparator(a[1..], c, b, seps);
      assert [a[0]] + a[1..] == a;
    }
  }

  /** Splitting a join on a separator character gives the parts back. */
  lemma {:induction false} SplitJoin(parts: seq<string>, c: char, seps: set<char>)
    requires parts != []
    requires c in seps
    requires forall i, j :: 0 <= i < |parts| && 0 <= j < |parts[i]| ==> parts[i][j] !in seps
    ensures Split(Join(parts, [c]), seps) == parts
    decreases |parts|
  {
    if |parts| == 1 {
      SplitWithoutSeparator(parts[0], seps);
    } else {
      SplitJoin(parts[1..], c, seps);
      assert parts[0] + [c] + Join(parts[1..], [c]) == Join(parts, [c]);
      SplitAfterSeparator(parts[0], c, Join(parts[1..], [c]), seps);
    }
  }

  lemma {:induction false} RemoveEmptyKeepsNonEmpty(parts: seq<string>)
    requires forall i :: 0 <= i < |parts| ==> parts[i] != ""
    ensures RemoveEmpty(parts) == parts
    decreases |parts|
  {
    if parts != [] {
      RemoveEmptyKeepsNonEmpty(parts[1..]);
    }
  }

  /**
   * A path built as "/" followed by non-empty, slash-free segments joined by '/'
   * splits back into exactly those segments.
   */
  /** A non-empty, slash-free segment in front of such segments keeps them all that way. */
  lemma SegmentsWithHead(head: string, rest: seq<string>)
    requires head != "" && HasNo(head, '/')
    requires forall i :: 0 <= i < |rest| ==> rest[i] != "" && HasNo(rest[i], '/')
    ensures forall i :: 0 <= i < |[head] + rest| ==> ([head] + rest)[i] != "" && HasNo(([head] + rest)[i], '/')
  {
    forall i | 0 <= i < |[head] + rest|
      ensures ([head] + rest)[i] != "" && HasNo(([head] + rest)[i], '/')
    {
      if i > 0 {
        assert ([head] + rest)[i] == rest[i - 1];
      }
    }
  }

  lemma SplitRootedJoin(segs: seq<string>)
    requires forall i :: 0 <= i < |segs| ==> segs[i] != "" && HasNo(segs[i], '/')
    ensures SplitNonEmpty("/" + Join(segs, "/"), '/') == segs
  {
    if segs == [] {
      SplitOfRoot();
    } else {
      SplitNonEmptyOfRootedJoin(segs);
    }
  }

  lemma SplitOfRoot()
    ensures SplitNonEmpty("/" + Join([], "/"), '/') == []
  {
    assert "/" + Join([], "/") == "" + ['/'] + "";
    SplitAfterSeparator("", '/', "", {'/'});
    assert Split("", {'/'}) == [""];
    var parts := Split("/", {'/'});
    assert parts == ["", ""];
    assert RemoveEmpty(parts[1..]) == [];
  }

  lemma SplitNonEmptyOfRootedJoin(segs: seq<string>)
    requires segs != []
    requires forall i :: 0 <= i < |segs| ==> segs[i] != "" && HasNo(segs[i], '/')
    ensures SplitNonEmpty("/" + Join(segs, "/"), '/') == segs
  {
    var parts := Split("/" + Join(segs, "/"), {'/'});
    SplitOfRootedJoin(segs);
    assert parts[0] == "" && parts[1..] == segs;
    RemoveEmptyKeepsNonEmpty(segs);
    assert SplitNonEmpty("/" + Join(segs, "/"), '/') == RemoveEmpty(parts);
  }

  lemma SplitOfRootedJoin(segs: seq<string>)
    requires segs != []
    requires forall i :: 0 <= i < |segs| ==> HasNo(segs[i], '/')
    ensures Split("/" + Join(segs, "/"), {'/'}) == [""] + segs
  {
    var body := Join(segs, "/");
    NoSlashInParts(segs);
    SplitJoin(segs, '/', {'/'});
    assert Split(body, {'/'}) == segs;
    RootedIsSeparatorThenBody(body);
    SplitAfterSeparator("", '/', body, {'/'});
  }

  lemma RootedIsSeparatorThenBody(body: string)
    ensures "/" + body == "" + ['/'] + body
  {
  }

  lemma NoSlashInParts(segs: seq<string>)
    requires forall i :: 0 <= i < |segs| ==> HasNo(segs[i], '/')
    ensures forall i, j :: 0 <= i < |segs| && 0 <= j < |segs[i]| ==> segs[i][j] !in {'/'}
  {
    forall i, j | 0 <= i < |segs| && 0 <= j < |segs[i]| ensures segs[i][j] !in {'/'} {
      assert HasNo(segs[i], '/');
    }
  }

  /** Appending to a join appends to its last part. */
  lemma {:induction false} JoinExtendLast(xs: seq<string>, t: string, sep: string)
    requires xs != []
    ensures Join(xs, sep) + t == Join(xs[..|xs| - 1] + [xs[|xs| - 1] + t], sep)
    decreases |xs|
  {
    var ys := xs[..|xs| - 1] + [xs[|xs| - 1] + t];
    if |xs| == 1 {
      assert ys == [xs[0] + t];
    } else {
      JoinExtendLast(xs[1..], t, sep);
      assert ys[0] == xs[0];
      assert ys[1..] == xs[1..][..|xs[1..]| - 1] + [xs[1..][|xs[1..]| - 1] + t];
    }
  }

  /** A leading separator adds only an empty part, which SplitNonEmpty drops. */
  lemma SplitNonEmptyAfterSeparator(s: string)
    ensures SplitNonEmpty("/" + s, '/') == SplitNonEmpty(s, '/')
  {
    RootedIsSeparatorThenBody(s);
    SplitAfterSeparator("", '/', s, {'/'});
    var parts := Split("/" + s, {'/'});
    assert parts[0] == "" && parts[1..] == Split(s, {'/'});
  }

  /** Lower-casing moves no character onto '/' or '.'. */
  lemma LowerKeepsPunctuation(s: string)
    ensures HasNo(s, '/') ==> HasNo(Lower(s), '/')
    ensures HasNo(s, '.') ==> HasNo(Lower(s), '.')
  {
  }
}
