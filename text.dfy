/** The handful of Python `str` operations the parsers rely on, over `string`
    (`seq<char>`): whitespace, `strip`, `split`, `find`/`in`, `replace`,
    `upper`, `join`, and Python's ordering of strings. */
module Text {

  /** Python's `str.isspace()` on the ASCII range: `\t \n \v \f \r`, the four
      separators `\x1c`..`\x1f`, and the space. */
  predicate IsSpace(c: char) {
    ('\t' <= c <= '\r') || ('\U{1C}' <= c <= '\U{1F}') || c == ' '
  }

  predicate IsParen(c: char) {
    c == '(' || c == ')'
  }

  /** The class `[a-zA-Z0-9]`. */
  predicate IsAsciiAlnum(c: char) {
    ('a' <= c <= 'z') || ('A' <= c <= 'Z') || ('0' <= c <= '9')
  }

  predicate AllSpace(s: string) {
    forall i :: 0 <= i < |s| ==> IsSpace(s[i])
  }

  predicate NoSpace(s: string) {
    forall i :: 0 <= i < |s| ==> !IsSpace(s[i])
  }

  /** Neither end of `s` is a whitespace character: the shape `strip()` leaves. */
  predicate IsStripped(s: string) {
    s == [] || (!IsSpace(s[0]) && !IsSpace(s[|s| - 1]))
  }

  // ---------------------------------------------------------------------
  // strip

  predicate NotSpace(c: char) {
    !IsSpace(c)
  }

  /** The first index at or after `from` whose character does not satisfy
      `drop` (or |s|). */
  function SkipWhile(s: string, drop: char -> bool, from: nat): (k: nat)
    requires from <= |s|
    ensures from <= k <= |s|
    ensures forall i :: from <= i < k ==> drop(s[i])
    ensures k == |s| || !drop(s[k])
    decreases |s| - from
  {
    if from < |s| && drop(s[from]) then SkipWhile(s, drop, from + 1) else from
  }

  /** The smallest `k` in [lo, hi] such that every character of s[k..hi]
      satisfies `drop`. */
  function SkipBackWhile(s: string, drop: char -> bool, lo: nat, hi: nat): (k: nat)
    requires lo <= hi <= |s|
    ensures lo <= k <= hi
    ensures forall i :: k <= i < hi ==> drop(s[i])
    ensures k == lo || !drop(s[k - 1])
    decreases hi - lo
  {
    if lo < hi && drop(s[hi - 1]) then SkipBackWhile(s, drop, lo, hi - 1) else hi
  }

  /** Python's `s.strip(chars)` for the characters satisfying `drop`: the
      characters from the first kept one to the last kept one. */
  function StripWhile(s: string, drop: char -> bool): (r: string)
    ensures r == [] || (!drop(r[0]) && !drop(r[|r| - 1]))
    ensures r == [] <==> forall i :: 0 <= i < |s| ==> drop(s[i])
  {
    s[SkipWhile(s, drop, 0)..SkipBackWhile(s, drop, SkipWhile(s, drop, 0), |s|)]
  }

  /** Python's `s.strip()`. */
  function Strip(s: string): (r: string)
    ensures IsStripped(r)
    ensures |r| <= |s|
    ensures r == [] <==> AllSpace(s)
  {
    StripWhile(s, IsSpace)
  }

  /** Python's `s.strip("()")`. */
  function StripParens(s: string): string {
    StripWhile(s, IsParen)
  }

  /** Strip removes whitespace from the two ends and nothing else: `s` is
      whitespace, then `Strip(s)`, then whitespace. */
  lemma StripShape(s: string) returns (lo: nat)
    ensures lo + |Strip(s)| <= |s|
    ensures Strip(s) == s[lo..lo + |Strip(s)|]
    ensures AllSpace(s[..lo]) && AllSpace(s[lo + |Strip(s)|..])
  {
    lo := SkipWhile(s, IsSpace, 0);
    var hi := SkipBackWhile(s, IsSpace, lo, |s|);
    assert Strip(s) == s[lo..hi];
    assert AllSpace(s[hi..]) by {
      forall i | 0 <= i < |s| - hi ensures IsSpace(s[hi..][i]) {
        assert s[hi..][i] == s[hi + i];
      }
    }
  }

  lemma StripIdentity(s: string)
    requires IsStripped(s)
    ensures Strip(s) == s
  {
    if s != [] {
      assert SkipWhile(s, IsSpace, 0) == 0;
      assert SkipBackWhile(s, IsSpace, 0, |s|) == |s|;
    }
  }

  /** Stripping adds no character. */
  lemma StripSubset(s: string, c: char)
    ensures c in Strip(s) ==> c in s
  {
    if c in Strip(s) {
      var lo := StripShape(s);
      var i :| 0 <= i < |Strip(s)| && Strip(s)[i] == c;
      assert s[lo + i] == c;
    }
  }

  /** `strip()` is idempotent. */
  lemma StripIdempotent(s: string)
    ensures Strip(Strip(s)) == Strip(s)
  {
    StripIdentity(Strip(s));
  }

  /** Stripping `a + b` keeps all of `b` when `b` starts and ends with a
      non-space character. */
  lemma StripKeepsSuffix(a: string, b: string)
    requires b != [] && !IsSpace(b[0]) && !IsSpace(b[|b| - 1])
    ensures |b| <= |Strip(a + b)| && Strip(a + b)[|Strip(a + b)| - |b|..] == b
  {
    var s := a + b;
    var lo := StripShape(s);
    var hi := lo + |Strip(s)|;
    assert s[|s| - 1] == b[|b| - 1] && s[|a|] == b[0];
    assert Strip(s)[|Strip(s)| - |b|..] == s[|a|..];
  }

  // ---------------------------------------------------------------------
  // filtering characters

  /** `re.sub(r'[^a-zA-Z0-9]', '', s)`. */
  function KeepAlnum(s: string): (r: string)
    ensures forall i :: 0 <= i < |r| ==> IsAsciiAlnum(r[i])
    ensures |r| <= |s|
  {
    if s == [] then []
    else if IsAsciiAlnum(s[0]) then [s[0]] + KeepAlnum(s[1..])
    else KeepAlnum(s[1..])
  }

  lemma {:induction false} KeepAlnumAppend(a: string, b: string)
    ensures KeepAlnum(a + b) == KeepAlnum(a) + KeepAlnum(b)
  {
    if a == [] {
      assert a + b == b;
    } else {
      assert (a + b)[0] == a[0];
      assert (a + b)[1..] == a[1..] + b;
      KeepAlnumAppend(a[1..], b);
    }
  }

  lemma {:induction false} KeepAlnumOfSpace(s: string)
    requires AllSpace(s)
    ensures KeepAlnum(s) == []
  {
    if s != [] {
      KeepAlnumOfSpace(s[1..]);
    }
  }

  /** Whitespace is not alphanumeric, so stripping first changes nothing. */
  lemma KeepAlnumIgnoresStrip(s: string)
    ensures KeepAlnum(Strip(s)) == KeepAlnum(s)
  {
    var lo := StripShape(s);
    var mid := Strip(s);
    var hi := lo + |mid|;
    var pre, post := s[..lo], s[hi..];
    assert s == pre + mid + post;
    KeepAlnumAppend(pre + mid, post);
    KeepAlnumAppend(pre, mid);
    KeepAlnumOfSpace(pre);
    KeepAlnumOfSpace(post);
  }

  /** ASCII `str.upper()`. */
  function UpperChar(c: char): char {
    if 'a' <= c <= 'z' then (c as int - 'a' as int + 'A' as int) as char else c
  }

  function Upper(s: string): (r: string)
    ensures |r| == |s|
  {
    if s == [] then [] else [UpperChar(s[0])] + Upper(s[1..])
  }

  // ---------------------------------------------------------------------
  // searching

  predicate OccursAt(s: string, pat: string, i: nat) {
    i + |pat| <= |s| && s[i..i + |pat|] == pat
  }

  /** Python's `s.find(pat, from)`: the first occurrence at or after `from`, or -1. */
  function FindFrom(s: string, pat: string, from: nat): (r: int)
    ensures r == -1 || (from <= r && OccursAt(s, pat, r))
    ensures r == -1 ==> forall j :: from <= j ==> !OccursAt(s, pat, j)
    ensures r != -1 ==> forall j :: from <= j < r ==> !OccursAt(s, pat, j)
    decreases |s| - from
  {
    if from + |pat| > |s| then -1
    else if s[from..from + |pat|] == pat then from
    else FindFrom(s, pat, from + 1)
  }

  /** Python's `s.find(pat)`. */
  function Find(s: string, pat: string): (r: int)
    ensures r == -1 <==> forall j :: !OccursAt(s, pat, j)
    ensures r != -1 ==> 0 <= r && OccursAt(s, pat, r) && forall j :: 0 <= j < r ==> !OccursAt(s, pat, j)
  {
    FindFrom(s, pat, 0)
  }

  /** Python's `pat in s`. */
  predicate Contains(s: string, pat: string) {
    Find(s, pat) != -1
  }

  /** Python's `s.replace(pat, "")`: occurrences are removed left to right,
      without overlap. */
  function RemoveAll(s: string, pat: string): (r: string)
    requires pat != []
    ensures |r| <= |s|
    decreases |s|
  {
    if s == [] then []
    else if OccursAt(s, pat, 0) then RemoveAll(s[|pat|..], pat)
    else [s[0]] + RemoveAll(s[1..], pat)
  }

  lemma OccursAtTail(s: string, pat: string, j: nat)
    requires s != []
    ensures OccursAt(s[1..], pat, j) <==> OccursAt(s, pat, j + 1)
  {
    if j + 1 + |pat| <= |s| {
      assert s[1..][j..j + |pat|] == s[j + 1..j + 1 + |pat|];
    }
  }

  /** A string in which `pat` does not occur is left as it is. */
  lemma {:induction false} RemoveAllAbsent(s: string, pat: string)
    requires pat != []
    ensures (forall j :: !OccursAt(s, pat, j)) ==> RemoveAll(s, pat) == s
  {
    if s != [] && forall j :: !OccursAt(s, pat, j) {
      assert !OccursAt(s, pat, 0);
      forall j: nat ensures !OccursAt(s[1..], pat, j) {
        OccursAtTail(s, pat, j);
      }
      RemoveAllAbsent(s[1..], pat);
    }
  }

  // ---------------------------------------------------------------------
  // splitting and joining

  /** Index of the first `c` in `s` at or after `from`, or -1. */
  function IndexOfChar(s: string, c: char, from: nat): (r: int)
    ensures r == -1 ==> forall j :: from <= j < |s| ==> s[j] != c
    ensures r != -1 ==> from <= r < |s| && s[r] == c && forall j :: from <= j < r ==> s[j] != c
    decreases |s| - from
  {
    if from >= |s| then -1 else if s[from] == c then from else IndexOfChar(s, c, from + 1)
  }

  /** Python's `s.split(sep)` for a one-character separator. */
  function SplitOn(s: string, sep: char): (r: seq<string>)
    ensures |r| >= 1
    ensures forall i :: 0 <= i < |r| ==> sep !in r[i]
    decreases |s|
  {
    if IndexOfChar(s, sep, 0) == -1 then [s]
    else [s[..IndexOfChar(s, sep, 0)]] + SplitOn(s[IndexOfChar(s, sep, 0) + 1..], sep)
  }

  /** Python's `sep.join(parts)`. */
  function Join(parts: seq<string>, sep: string): string {
    if |parts| == 0 then ""
    else if |parts| == 1 then parts[0]
    else parts[0] + sep + Join(parts[1..], sep)
  }

  lemma JoinCons(a: string, rest: seq<string>, sep: string)
    requires rest != []
    ensures Join([a] + rest, sep) == a + sep + Join(rest, sep)
  {
    assert ([a] + rest)[1..] == rest;
  }

  /** Splitting on a character and joining back with it gives the string back. */
  lemma {:induction false} JoinSplitOn(s: string, sep: char)
    ensures Join(SplitOn(s, sep), [sep]) == s
    decreases |s|
  {
    var k := IndexOfChar(s, sep, 0);
    if k != -1 {
      var rest := SplitOn(s[k + 1..], sep);
      JoinCons(s[..k], rest, [sep]);
      JoinSplitOn(s[k + 1..], sep);
      assert s == s[..k] + [sep] + s[k + 1..];
    }
  }

  /** The maximal run of non-whitespace characters at the start of `s`. */
  function TakeWord(s: string): (w: string)
    ensures |w| <= |s| && w == s[..|w|] && NoSpace(w)
    ensures |w| == |s| || IsSpace(s[|w|])
  {
    s[..SkipWhile(s, NotSpace, 0)]
  }

  /** Python's `s.split()`: the maximal runs of non-whitespace characters. */
  function Words(s: string): (r: seq<string>)
    ensures forall i :: 0 <= i < |r| ==> r[i] != [] && NoSpace(r[i])
    ensures r == [] <==> AllSpace(s)
    decreases |s|
  {
    var lo := SkipWhile(s, IsSpace, 0);
    if lo == |s| then []
    else
      var hi := SkipWhile(s, NotSpace, lo);
      [s[lo..hi]] + Words(s[hi..])
  }

  /** `w` stands at index `k` of `s` as a whole word, after only whitespace. */
  ghost predicate WordAt(w: string, s: string, k: nat) {
    k + |w| <= |s| && AllSpace(s[..k]) && s[k..k + |w|] == w &&
    (k + |w| == |s| || IsSpace(s[k + |w|]))
  }

  /** `w` is the first whitespace-delimited word of `s` ("" when there is none). */
  ghost predicate IsFirstWord(w: string, s: string) {
    if w == [] then AllSpace(s)
    else NoSpace(w) && exists k: nat :: WordAt(w, s, k)
  }

  /** The first whitespace-delimited word of `s`, "" when there is none. */
  function FirstWord(s: string): (w: string)
    ensures NoSpace(w)
    ensures w == [] <==> AllSpace(s)
  {
    var lo := SkipWhile(s, IsSpace, 0);
    s[lo..SkipWhile(s, NotSpace, lo)]
  }

  /** FirstWord finds the word the declarative IsFirstWord describes. */
  lemma FirstWordIsFirst(s: string)
    ensures IsFirstWord(FirstWord(s), s)
  {
    var lo := SkipWhile(s, IsSpace, 0);
    var hi := SkipWhile(s, NotSpace, lo);
    if lo < |s| {
      assert WordAt(s[lo..hi], s, lo);
    }
  }

  /** `s.split()[0]` is the first word of `s`. */
  lemma WordsHead(s: string)
    requires !AllSpace(s)
    ensures Words(s) != [] && Words(s)[0] == FirstWord(s)
  {
  }

  /** Skipping inside a window of `s` that ends where the skip would stop
      anyway gives the same stopping point as skipping in `s`. */
  lemma {:induction false} SkipWhileWindow(s: string, drop: char -> bool, lo: nat, hi: nat, j: nat)
    requires lo + j <= hi <= |s|
    requires hi == |s| || !drop(s[hi])
    ensures SkipWhile(s[lo..hi], drop, j) + lo == SkipWhile(s, drop, lo + j)
    decreases hi - lo - j
  {
    if lo + j < hi && drop(s[lo + j]) {
      assert s[lo..hi][j] == s[lo + j];
      SkipWhileWindow(s, drop, lo, hi, j + 1);
    } else if lo + j < hi {
      assert s[lo..hi][j] == s[lo + j];
    }
  }

  /** The first word of a window of `s` that starts on a word and ends on
      whitespace (or at the end) is the word of `s` starting there. */
  lemma FirstWordWindow(s: string, lo: nat, hi: nat)
    requires lo < hi <= |s| && !IsSpace(s[lo])
    requires hi == |s| || IsSpace(s[hi])
    ensures FirstWord(s[lo..hi]) == s[lo..SkipWhile(s, NotSpace, lo)]
  {
    var t := s[lo..hi];
    assert t[0] == s[lo];
    assert SkipWhile(t, IsSpace, 0) == 0;
    SkipWhileWindow(s, NotSpace, lo, hi, 0);
    var e := SkipWhile(s, NotSpace, lo);
    assert FirstWord(t) == t[0..e - lo];
    SliceOfSlice(s, lo, hi, e);
  }

  lemma SliceOfSlice(s: string, lo: nat, hi: nat, e: nat)
    requires lo <= e <= hi <= |s|
    ensures s[lo..hi][0..e - lo] == s[lo..e]
  {
  }

  /** Stripping does not change the first word. */
  lemma FirstWordOfStripped(s: string)
    ensures FirstWord(Strip(s)) == FirstWord(s)
  {
    var lo := SkipWhile(s, IsSpace, 0);
    var hi := SkipBackWhile(s, IsSpace, lo, |s|);
    assert Strip(s) == s[lo..hi];
    if lo < |s| {
      FirstWordWindow(s, lo, hi);
    }
  }

  // ---------------------------------------------------------------------
  // Python's ordering of strings (code point by code point, a proper
  // prefix first)

  predicate LexLess(a: string, b: string) {
    if a == [] then b != []
    else if b == [] then false
    else if a[0] != b[0] then a[0] < b[0]
    else LexLess(a[1..], b[1..])
  }

  /** Python's `a <= b` on strings. */
  predicate LexLeq(a: string, b: string) {
    a == b || LexLess(a, b)
  }

  lemma {:induction false} LexLessIrreflexive(a: string)
    ensures !LexLess(a, a)
  {
    if a != [] {
      LexLessIrreflexive(a[1..]);
    }
  }

  lemma {:induction false} LexLessTransitive(a: string, b: string, c: string)
    requires LexLess(a, b) && LexLess(b, c)
    ensures LexLess(a, c)
  {
    if a != [] && b != [] && c != [] && a[0] == b[0] && b[0] == c[0] {
      LexLessTransitive(a[1..], b[1..], c[1..]);
    }
  }

  lemma {:induction false} LexLessTotal(a: string, b: string)
    ensures a == b || LexLess(a, b) || LexLess(b, a)
  {
    if a != [] && b != [] && a[0] == b[0] {
      LexLessTotal(a[1..], b[1..]);
      if a[1..] == b[1..] {
        assert a == [a[0]] + a[1..] && b == [b[0]] + b[1..];
      }
    }
  }

  lemma LexLessAsymmetric(a: string, b: string)
    requires LexLess(a, b)
    ensures !LexLess(b, a)
  {
    if LexLess(b, a) {
      LexLessTransitive(a, b, a);
      LexLessIrreflexive(a);
    }
  }

  lemma LexLeqTotal(a: string, b: string)
    ensures LexLeq(a, b) || LexLeq(b, a)
  {
    LexLessTotal(a, b);
  }

  lemma LexLeqAntisymmetric(a: string, b: string)
    requires LexLeq(a, b) && LexLeq(b, a)
    ensures a == b
  {
    if a != b {
      LexLessAsymmetric(a, b);
    }
  }

  lemma LexLeqTransitive(a: string, b: string, c: string)
    requires LexLeq(a, b) && LexLeq(b, c)
    ensures LexLeq(a, c)
  {
    if a != b && b != c {
      LexLessTransitive(a, b, c);
    }
  }

  /** Python's `<=` on strings is a total order. */
  lemma LexLeqTotalOrder()
    ensures forall a, b :: LexLeq(a, b) || LexLeq(b, a)
    ensures forall a, b :: LexLeq(a, b) && LexLeq(b, a) ==> a == b
    ensures forall a, b, c :: LexLeq(a, b) && LexLeq(b, c) ==> LexLeq(a, c)
  {
    forall a, b ensures LexLeq(a, b) || LexLeq(b, a) {
      LexLeqTotal(a, b);
    }
    forall a, b | LexLeq(a, b) && LexLeq(b, a) ensures a == b {
      LexLeqAntisymmetric(a, b);
    }
    forall a, b, c | LexLeq(a, b) && LexLeq(b, c) ensures LexLeq(a, c) {
      LexLeqTransitive(a, b, c);
    }
  }
}
