/** The small, failure-compatible Option used throughout the model. */
module Options {

  /** `None` stands for Kotlin's `null` or for an accessor that throws; which one is said where it is used. */
  datatype Option<+T> = None | Some(value: T)
}

/**
 The parts of the Kotlin standard library the tool window relies on, stated over `seq<char>`:
 `Char.isWhitespace`, `String.trim`, `String.isBlank` and `Iterable.joinToString`.
 */
module Text {

  /** Kotlin's `Char.isWhitespace()` on the JVM (`Character.isWhitespace` or
      `Character.isSpaceChar`): the ASCII controls TAB, LF, VT, FF, CR and U+001C..U+001F, plus
      every space, line and paragraph separator of the Unicode tables. */
  predicate IsWhitespace(c: char) {
    var n := c as int;
    || (0x09 <= n <= 0x0D)
    || (0x1C <= n <= 0x20)
    || n == 0xA0
    || n == 0x1680
    || (0x2000 <= n <= 0x200A)
    || n == 0x2028
    || n == 0x2029
    || n == 0x202F
    || n == 0x205F
    || n == 0x3000
  }

  /** The 28 whitespace characters, one by one. */
  const WhitespaceChars: set<char> := {
      '\U{0009}', '\U{000A}', '\U{000B}', '\U{000C}', '\U{000D}', '\U{001C}',
      '\U{001D}', '\U{001E}', '\U{001F}', '\U{0020}', '\U{00A0}', '\U{1680}',
      '\U{2000}', '\U{2001}', '\U{2002}', '\U{2003}', '\U{2004}', '\U{2005}',
      '\U{2006}', '\U{2007}', '\U{2008}', '\U{2009}', '\U{200A}', '\U{2028}',
      '\U{2029}', '\U{202F}', '\U{205F}', '\U{3000}'
    }

  /** The ranges of `IsWhitespace` hold exactly the listed characters. */
  lemma WhitespaceTable(c: char)
    ensures IsWhitespace(c) <==> c in WhitespaceChars
  {
  }

  /** Kotlin's `isBlank()`: every character is whitespace (so the empty string is blank). */
  predicate IsBlank(s: string) {
    forall k :: 0 <= k < |s| ==> IsWhitespace(s[k])
  }

  /** A string is blank exactly when the forward scan `trim()` starts with runs off its end. */
  lemma BlankIffScanEnds(s: string)
    ensures IsBlank(s) <==> SkipLeading(s, 0) == |s|
  {
  }

  /** True when `s` has no whitespace at either end; the strings `trim()` produces. */
  predicate IsTrimmed(s: string) {
    s == [] || (!IsWhitespace(s[0]) && !IsWhitespace(s[|s| - 1]))
  }

  /** The start index `trim()` settles on when scanning forward from `lo`: the first
      non-whitespace position, or the length when there is none. */
  function SkipLeading(s: string, lo: nat): (i: nat)
    requires lo <= |s|
    ensures lo <= i <= |s|
    ensures forall k :: lo <= k < i ==> IsWhitespace(s[k])
    ensures i < |s| ==> !IsWhitespace(s[i])
    decreases |s| - lo
  {
    if lo < |s| && IsWhitespace(s[lo]) then SkipLeading(s, lo + 1) else lo
  }

  /** The end index `trim()` settles on when scanning backward from `hi` but not past `lo`:
      just after the last non-whitespace position, or `lo` when there is none. */
  function SkipTrailing(s: string, lo: nat, hi: nat): (j: nat)
    requires lo <= hi <= |s|
    ensures lo <= j <= hi
    ensures forall k :: j <= k < hi ==> IsWhitespace(s[k])
    ensures j > lo ==> !IsWhitespace(s[j - 1])
    decreases hi
  {
    if hi > lo && IsWhitespace(s[hi - 1]) then SkipTrailing(s, lo, hi - 1) else hi
  }

  /** Kotlin's `trim()`: the substring between the start index and the end index the two scans
      settle on. */
  function Trim(s: string): (r: string)
    ensures IsTrimmed(r)
    ensures |r| <= |s|
    ensures r == [] <==> IsBlank(s)
  {
    var i := SkipLeading(s, 0);
    var j := SkipTrailing(s, i, |s|);
    TrimEmptyIffBlank(s);
    s[i..j]
  }

  lemma TrimEmptyIffBlank(s: string)
    ensures var i := SkipLeading(s, 0); SkipTrailing(s, i, |s|) == i <==> IsBlank(s)
  {
    var i := SkipLeading(s, 0);
    if i < |s| {
      assert !IsWhitespace(s[i]);
    }
  }

  /** What `trim()` keeps and drops: the result is the infix of `s` that starts at the first
      non-whitespace character, and everything outside it is whitespace. */
  lemma TrimShape(s: string)
    ensures var i := SkipLeading(s, 0);
      && i + |Trim(s)| <= |s| && Trim(s) == s[i..i + |Trim(s)|]
      && IsBlank(s[..i]) && IsBlank(s[i + |Trim(s)|..])
  {
    var i := SkipLeading(s, 0);
    var j := SkipTrailing(s, i, |s|);
    assert Trim(s) == s[i..j];
    BlankBefore(s, i);
    BlankAfter(s, j);
  }

  lemma BlankBefore(s: string, i: nat)
    requires i <= |s|
    requires forall k :: 0 <= k < i ==> IsWhitespace(s[k])
    ensures IsBlank(s[..i])
  {
    BlankRange(s, 0, i);
    assert s[..i] == s[0..i];
  }

  lemma BlankAfter(s: string, j: nat)
    requires j <= |s|
    requires forall k :: j <= k < |s| ==> IsWhitespace(s[k])
    ensures IsBlank(s[j..])
  {
    BlankRange(s, j, |s|);
    assert s[j..] == s[j..|s|];
  }

  /** A run of whitespace positions makes a blank slice. */
  lemma BlankRange(s: string, lo: nat, hi: nat)
    requires lo <= hi <= |s|
    requires forall k :: lo <= k < hi ==> IsWhitespace(s[k])
    ensures IsBlank(s[lo..hi])
  {
    assert forall k :: 0 <= k < hi - lo ==> s[lo..hi][k] == s[lo + k];
  }

  /** A string without whitespace at its ends is its own trim. */
  lemma TrimOfTrimmed(s: string)
    requires IsTrimmed(s)
    ensures Trim(s) == s
  {
    if s != [] {
      assert SkipLeading(s, 0) == 0;
      assert SkipTrailing(s, 0, |s|) == |s|;
      assert s[0..|s|] == s;
    }
  }

  /** `trim()` is idempotent. */
  lemma TrimIdempotent(s: string)
    ensures Trim(Trim(s)) == Trim(s)
  {
    TrimOfTrimmed(Trim(s));
  }

  /** A string is its own trim exactly when it has no whitespace at its ends. */
  lemma TrimFixedPoints(s: string)
    ensures Trim(s) == s <==> IsTrimmed(s)
  {
    if IsTrimmed(s) {
      TrimOfTrimmed(s);
    }
  }

  /** `x.trim().isEmpty()` and `x.isBlank()` agree, and trimming never changes blankness:
      the send path checks the first and the status line the second. */
  lemma {:induction false} BlankAfterTrim(s: string)
    ensures IsBlank(Trim(s)) <==> IsBlank(s)
  {
  }

  /** Kotlin's `joinToString(sep)`: the parts in order with `sep` between neighbours. */
  function Join(parts: seq<string>, sep: string): (r: string)
    ensures parts == [] ==> r == []
    ensures |parts| == 1 ==> r == parts[0]
    ensures |parts| > 0 ==> parts[0] <= r
  {
    if |parts| == 0 then []
    else if |parts| == 1 then parts[0]
    else parts[0] + sep + Join(parts[1..], sep)
  }

  /** Joining is associative over concatenated part lists: the separator goes exactly once
      between the two halves. */
  lemma {:induction false} JoinAppend(a: seq<string>, b: seq<string>, sep: string)
    requires a != [] && b != []
    ensures Join(a + b, sep) == Join(a, sep) + sep + Join(b, sep)
  {
    if |a| == 1 {
      assert (a + b)[1..] == b;
    } else {
      assert (a + b)[1..] == a[1..] + b;
      JoinAppend(a[1..], b, sep);
    }
  }

  /** Splits at every occurrence of `c`: the partner of `Join` with a one-character separator. */
  function Split(s: string, c: char): (r: seq<string>)
    ensures |r| >= 1
  {
    if s == [] then [[]]
    else
      var rest := Split(s[1..], c);
      if s[0] == c then [[]] + rest
      else [[s[0]] + rest[0]] + rest[1..]
  }

  /** Joining parts that do not contain the separator and splitting again gives the parts back. */
  lemma {:induction false} SplitJoin(parts: seq<string>, c: char)
    requires parts != []
    requires forall i, k :: 0 <= i < |parts| && 0 <= k < |parts[i]| ==> parts[i][k] != c
    ensures Split(Join(parts, [c]), c) == parts
  {
    if |parts| == 1 {
      SplitNoSeparator(parts[0], c);
    } else {
      var rest := Join(parts[1..], [c]);
      SplitJoin(parts[1..], c);
      SplitPrefix(parts[0], rest, c);
      assert Join(parts, [c]) == parts[0] + [c] + rest;
      assert [parts[0]] + parts[1..] == parts;
    }
  }

  /** A string without the separator splits into itself alone. */
  lemma {:induction false} SplitNoSeparator(s: string, c: char)
    requires forall k :: 0 <= k < |s| ==> s[k] != c
    ensures Split(s, c) == [s]
  {
    if s != [] {
      SplitNoSeparator(s[1..], c);
      assert [s[0]] + s[1..] == s;
    }
  }

  /** A separator-free head followed by the separator splits off as the first part. */
  lemma {:induction false} SplitPrefix(head: string, tail: string, c: char)
    requires forall k :: 0 <= k < |head| ==> head[k] != c
    ensures Split(head + [c] + tail, c) == [head] + Split(tail, c)
  {
    if head == [] {
      assert head + [c] + tail == [c] + tail;
      assert ([c] + tail)[1..] == tail;
    } else {
      assert (head + [c] + tail)[1..] == head[1..] + [c] + tail;
      SplitPrefix(head[1..], tail, c);
      assert [head[0]] + head[1..] == head;
    }
  }
}
