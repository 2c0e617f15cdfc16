/**
 * The Python `str` operations the scripts rely on, over `string` (`seq<char>`):
 * `t in s`, `startswith`, `endswith`, `find`, `split(sep)`, `split()`, `strip()`,
 * `replace`, `lower()` and the ordering `<` used by `sorted`.
 */
module Strings {

  /** The characters `str.isspace()` accepts; `split()` and `strip()` cut on them. */
  predicate IsSpace(c: char) {
    c == ' ' || ('\t' <= c <= '\r') || ('\U{1C}' <= c <= '\U{1F}') || c == '\U{85}' || c == '\U{A0}'
    || c == '\U{1680}' || ('\U{2000}' <= c <= '\U{200A}') || c == '\U{2028}' || c == '\U{2029}'
    || c == '\U{202F}' || c == '\U{205F}' || c == '\U{3000}'
  }

  predicate StartsWith(s: string, prefix: string) {
    prefix <= s
  }

  predicate EndsWith(s: string, suffix: string) {
    |suffix| <= |s| && s[|s| - |suffix|..] == suffix
  }

  /** Text in front keeps a suffix. */
  lemma EndsWithAppendLeft(a: string, s: string, suffix: string)
    requires EndsWith(s, suffix)
    ensures EndsWith(a + s, suffix)
  {
    assert (a + s)[|a + s| - |suffix|..] == s[|s| - |suffix|..];
  }

  /** Python's `t in s`: some position of `s` starts a copy of `t`. */
  predicate Contains(s: string, t: string)
    decreases |s|
  {
    t <= s || (|s| > 0 && Contains(s[1..], t))
  }

  /** Python's `s.find(t)`: the first position where `t` occurs, or -1. */
  function Find(s: string, t: string): (r: int)
    ensures -1 <= r <= |s| - |t| || r == -1
    ensures r >= 0 ==> s[r..r + |t|] == t
    ensures r >= 0 ==> forall j :: 0 <= j < r ==> !(t <= s[j..])
    ensures r == -1 <==> !Contains(s, t)
    decreases |s|
  {
    if t <= s then 0
    else if |s| == 0 then -1
    else
      var k := Find(s[1..], t);
      if k < 0 then -1
      else
        assert forall j :: 1 <= j <= k ==> s[j..] == s[1..][j - 1..];
        k + 1
  }

  // ---------------------------------------------------------------------------
  // Facts about Contains
  // ---------------------------------------------------------------------------

  /** A text never contains anything longer than itself. */
  lemma {:induction false} ContainsLength(s: string, t: string)
    requires Contains(s, t)
    ensures |t| <= |s|
    decreases |s|
  {
    if !(t <= s) {
      ContainsLength(s[1..], t);
    }
  }

  /** Python's `s.rfind(c)` for one character: the last position holding `c`, or -1. */
  function RFind(s: string, c: char): (i: int)
    ensures -1 <= i < |s|
    ensures i >= 0 ==> s[i] == c
    ensures forall k :: i < k < |s| ==> s[k] != c
    decreases |s|
  {
    if |s| == 0 then -1
    else if s[|s| - 1] == c then |s| - 1
    else RFind(s[..|s| - 1], c)
  }

  lemma {:induction false} ContainsAt(s: string, t: string, i: nat)
    requires i + |t| <= |s| && s[i..i + |t|] == t
    ensures Contains(s, t)
    decreases i
  {
    if i == 0 {
      assert t <= s;
    } else {
      assert s[1..][i - 1..i - 1 + |t|] == t;
      ContainsAt(s[1..], t, i - 1);
    }
  }

  lemma ContainsAppendLeft(a: string, b: string, t: string)
    requires Contains(b, t)
    ensures Contains(a + b, t)
  {
    var i := Find(b, t);
    assert (a + b)[|a| + i..|a| + i + |t|] == b[i..i + |t|];
    ContainsAt(a + b, t, |a| + i);
  }

  lemma ContainsAppendRight(a: string, b: string, t: string)
    requires Contains(a, t)
    ensures Contains(a + b, t)
  {
    var i := Find(a, t);
    assert (a + b)[i..i + |t|] == a[i..i + |t|];
    ContainsAt(a + b, t, i);
  }

  lemma ContainsMiddle(a: string, t: string, b: string)
    ensures Contains(a + t + b, t)
  {
    assert (a + t + b)[|a|..|a| + |t|] == t;
    ContainsAt(a + t + b, t, |a|);
  }

  /** Every character of an occurring pattern occurs in the text. */
  lemma {:induction false} ContainsChar(s: string, t: string, k: nat)
    requires Contains(s, t) && k < |t|
    ensures t[k] in s
    decreases |s|
  {
    if t <= s {
      assert s[k] == t[k];
    } else {
      ContainsChar(s[1..], t, k);
    }
  }

  /** A pattern that lacks a character cannot occur across that character. */
  lemma {:induction false} ContainsAcross(a: string, c: char, b: string, t: string)
    requires Contains(a + [c] + b, t) && c !in t
    ensures Contains(a, t) || Contains(b, t)
    decreases |a|
  {
    var s := a + [c] + b;
    if t <= s {
      assert s[|a|] == c;
      assert |t| <= |a|;
      assert t == a[..|t|];
      assert t <= a;
    } else if |a| == 0 {
      assert s[1..] == b;
    } else {
      assert s[1..] == a[1..] + [c] + b;
      ContainsAcross(a[1..], c, b, t);
      if Contains(a[1..], t) {
        ContainsAppendLeft([a[0]], a[1..], t);
        assert [a[0]] + a[1..] == a;
      }
    }
  }

  /** `t` occurs in `s` at position `i`. */
  predicate OccursAt(s: string, t: string, i: int) {
    0 <= i && i + |t| <= |s| && s[i..i + |t|] == t
  }

  /** An occurrence in the slice `s[lo:hi]` is an occurrence in `s` that starts at or after `lo` and ends by `hi`. */
  lemma WindowOccurrence(s: string, lo: nat, hi: nat, t: string) returns (j: nat)
    requires lo <= hi <= |s| && Contains(s[lo..hi], t)
    ensures lo <= j && j + |t| <= hi && OccursAt(s, t, j)
  {
    var i := Find(s[lo..hi], t);
    SliceOfSlice(s, lo, hi, i, |t|);
    j := lo + i;
  }

  /** A slice of a slice is a slice of the whole. */
  lemma SliceOfSlice(s: string, lo: nat, hi: nat, i: nat, n: nat)
    requires lo <= hi <= |s| && i + n <= hi - lo
    ensures s[lo..hi][i..i + n] == s[lo + i..lo + i + n]
  {
    var a := s[lo..hi][i..i + n];
    var b := s[lo + i..lo + i + n];
    forall k | 0 <= k < n ensures a[k] == b[k] {
      assert a[k] == s[lo..hi][i + k];
    }
  }

  /** `t` occurs in the slice `s[lo:hi]` exactly when it occurs in `s` starting at or after `lo` and ending by `hi`. */
  lemma ContainsWindow(s: string, lo: nat, hi: nat, t: string)
    requires lo <= hi <= |s|
    ensures Contains(s[lo..hi], t) <==> exists j :: lo <= j && j + |t| <= hi && OccursAt(s, t, j)
  {
    if Contains(s[lo..hi], t) {
      var j := WindowOccurrence(s, lo, hi, t);
    }
    if exists j :: lo <= j && j + |t| <= hi && OccursAt(s, t, j) {
      var j :| lo <= j && j + |t| <= hi && OccursAt(s, t, j);
      OccurrenceInWindow(s, lo, hi, t, j);
    }
  }

  /** An occurrence in `s` that starts at or after `lo` and ends by `hi` is an occurrence in `s[lo:hi]`. */
  lemma OccurrenceInWindow(s: string, lo: nat, hi: nat, t: string, j: nat)
    requires lo <= j && j + |t| <= hi <= |s| && OccursAt(s, t, j)
    ensures Contains(s[lo..hi], t)
  {
    var w := s[lo..hi];
    assert |w| == hi - lo;
    forall k | 0 <= k < |t| ensures w[j - lo + k] == t[k] {
      assert s[j..j + |t|][k] == s[j + k];
    }
    assert w[j - lo..j - lo + |t|] == t;
    ContainsAt(w, t, j - lo);
  }

  lemma ContainsSlice(s: string, lo: nat, hi: nat, t: string)
    requires lo <= hi <= |s| && Contains(s[lo..hi], t)
    ensures Contains(s, t)
  {
    var j := WindowOccurrence(s, lo, hi, t);
    ContainsAt(s, t, j);
  }

  // ---------------------------------------------------------------------------
  // split(sep) and its inverse join
  // ---------------------------------------------------------------------------

  /** Python's `s.split(c)` for a one-character separator: never empty. */
  function Split(s: string, c: char): (parts: seq<string>)
    ensures |parts| >= 1
    decreases |s|
  {
    if |s| == 0 then [""]
    else
      var rest := Split(s[1..], c);
      if s[0] == c then [""] + rest else [[s[0]] + rest[0]] + rest[1..]
  }

  /** Python's `c.join(parts)`. */
  function Join(parts: seq<string>, c: char): string
  {
    if |parts| == 0 then ""
    else if |parts| == 1 then parts[0]
    else parts[0] + [c] + Join(parts[1..], c)
  }

  lemma {:induction false} SplitJoin(s: string, c: char)
    ensures Join(Split(s, c), c) == s
    decreases |s|
  {
    if |s| > 0 {
      var rest := Split(s[1..], c);
      SplitJoin(s[1..], c);
      if s[0] == c {
        assert Join(Split(s, c), c) == "" + [c] + Join(rest, c);
      } else if |rest| == 1 {
        assert Join(Split(s, c), c) == [s[0]] + rest[0];
      } else {
        assert Join(rest, c) == rest[0] + [c] + Join(rest[1..], c);
        assert Join(Split(s, c), c) == [s[0]] + rest[0] + [c] + Join(rest[1..], c);
      }
      assert s == [s[0]] + s[1..];
    }
  }

  lemma {:induction false} SplitPartsLackSeparator(s: string, c: char)
    ensures forall k :: 0 <= k < |Split(s, c)| ==> c !in Split(s, c)[k]
    decreases |s|
  {
    if |s| > 0 {
      SplitPartsLackSeparator(s[1..], c);
    }
  }

  lemma {:induction false} SplitWithoutSeparator(s: string, c: char)
    requires c !in s
    ensures Split(s, c) == [s]
    decreases |s|
  {
    if |s| > 0 {
      SplitWithoutSeparator(s[1..], c);
      assert s == [s[0]] + s[1..];
    }
  }

  lemma {:induction false} SplitWithSeparator(s: string, c: char)
    requires c in s
    ensures |Split(s, c)| >= 2
    decreases |s|
  {
    if s[0] != c {
      SplitWithSeparator(s[1..], c);
    }
  }

  /** One leading part free of the separator splits off as the first part. */
  lemma {:induction false} SplitCons(p: string, c: char, rest: string)
    requires c !in p
    ensures Split(p + [c] + rest, c) == [p] + Split(rest, c)
    decreases |p|
  {
    var s := p + [c] + rest;
    if |p| == 0 {
      assert s[1..] == rest;
    } else {
      assert s[1..] == p[1..] + [c] + rest;
      SplitCons(p[1..], c, rest);
      assert [p[0]] + p[1..] == p;
    }
  }

  lemma {:induction false} JoinSplit(parts: seq<string>, c: char)
    requires |parts| >= 1
    requires forall k :: 0 <= k < |parts| ==> c !in parts[k]
    ensures Split(Join(parts, c), c) == parts
    decreases |parts|
  {
    if |parts| == 1 {
      SplitWithoutSeparator(parts[0], c);
    } else {
      JoinSplit(parts[1..], c);
      SplitCons(parts[0], c, Join(parts[1..], c));
    }
  }

  // ---------------------------------------------------------------------------
  // strip() and split()
  // ---------------------------------------------------------------------------

  function TrimLeft(s: string): (t: string)
    ensures |t| <= |s| && t == s[|s| - |t|..]
    ensures forall k :: 0 <= k < |s| - |t| ==> IsSpace(s[k])
    ensures |t| > 0 ==> !IsSpace(t[0])
    decreases |s|
  {
    if |s| > 0 && IsSpace(s[0]) then TrimLeft(s[1..]) else s
  }

  function TrimRight(s: string): (t: string)
    ensures t <= s
    ensures forall k :: |t| <= k < |s| ==> IsSpace(s[k])
    ensures |t| > 0 ==> !IsSpace(t[|t| - 1])
    decreases |s|
  {
    if |s| > 0 && IsSpace(s[|s| - 1]) then TrimRight(s[..|s| - 1]) else s
  }

  /** Python's `s.strip()`. */
  function Strip(s: string): (t: string)
    ensures |t| > 0 ==> !IsSpace(t[0]) && !IsSpace(t[|t| - 1])
  {
    TrimRight(TrimLeft(s))
  }

  /** Every character `strip()` keeps comes from the text; a non-space one is never dropped. */
  lemma StripKeeps(s: string, k: nat)
    requires k < |s| && !IsSpace(s[k])
    ensures |Strip(s)| > 0
    ensures s[k] in Strip(s)
  {
    var l := TrimLeft(s);
    var j := k - (|s| - |l|);
    assert 0 <= j < |l| && l[j] == s[k];
    var r := TrimRight(l);
    assert j < |r|;
    assert r[j] == s[k];
  }

  /** The maximal run of non-space characters at the start of `s`. */
  function TakeWord(s: string): (w: string)
    ensures w <= s
    ensures forall k :: 0 <= k < |w| ==> !IsSpace(w[k])
    ensures |w| < |s| ==> IsSpace(s[|w|])
    ensures |s| > 0 && !IsSpace(s[0]) ==> |w| > 0
    decreases |s|
  {
    if |s| == 0 || IsSpace(s[0]) then "" else [s[0]] + TakeWord(s[1..])
  }

  /** Python's `s.split()` with no argument: the non-empty runs of non-space characters. */
  function Words(s: string): (ws: seq<string>)
    decreases |s|
  {
    var t := TrimLeft(s);
    if |t| == 0 then []
    else
      var w := TakeWord(t);
      [w] + Words(t[|w|..])
  }

  /** `split()` yields a first word exactly when the text holds a non-space character. */
  lemma WordsNonEmpty(s: string)
    ensures |Words(s)| > 0 <==> exists k :: 0 <= k < |s| && !IsSpace(s[k])
  {
    var t := TrimLeft(s);
    if |t| > 0 {
      assert !IsSpace(s[|s| - |t|]);
    }
  }

  /** The first word: the non-space run that starts at the first non-space character. */
  lemma FirstWord(s: string)
    requires |Words(s)| > 0
    ensures Words(s)[0] == TakeWord(TrimLeft(s))
    ensures |Words(s)[0]| > 0
  {
  }

  predicate AllSpace(s: string) {
    forall k :: 0 <= k < |s| ==> IsSpace(s[k])
  }

  predicate NoSpace(s: string) {
    forall k :: 0 <= k < |s| ==> !IsSpace(s[k])
  }

  /** A word is read up to the first space after it. */
  lemma {:induction false} TakeWordOf(w: string, post: string)
    requires NoSpace(w)
    requires |post| == 0 || IsSpace(post[0])
    ensures TakeWord(w + post) == w
    decreases |w|
  {
    if |w| == 0 {
      assert w + post == post;
    } else {
      assert (w + post)[1..] == w[1..] + post;
      TakeWordOf(w[1..], post);
    }
  }

  /** Leading white space in front of a word is dropped by the left trim, and no more. */
  lemma {:induction false} TrimLeftOf(pre: string, rest: string)
    requires AllSpace(pre)
    requires |rest| > 0 && !IsSpace(rest[0])
    ensures TrimLeft(pre + rest) == rest
    decreases |pre|
  {
    if |pre| == 0 {
      assert pre + rest == rest;
    } else {
      assert (pre + rest)[1..] == pre[1..] + rest;
      TrimLeftOf(pre[1..], rest);
    }
  }

  /** The right trim never drops a non-space character. */
  lemma TrimRightKeeps(s: string, i: nat)
    requires i < |s| && !IsSpace(s[i])
    ensures |TrimRight(s)| > i
  {
  }

  /** Leading white space does not change what `strip()` keeps of a text starting with a non-space. */
  lemma StripAfterSpaces(pre: string, s: string)
    requires AllSpace(pre) && |s| > 0 && !IsSpace(s[0])
    ensures Strip(pre + s) == TrimRight(s)
  {
    TrimLeftOf(pre, s);
  }

  /** Trimming the right of a word followed by white space leaves the word at the front. */
  lemma TrimRightOfWord(w: string, post: string)
    requires |w| > 0 && !IsSpace(w[|w| - 1])
    requires |post| == 0 || IsSpace(post[0])
    ensures |TrimRight(w + post)| >= |w|
    ensures TrimRight(w + post)[..|w|] == w
    ensures |TrimRight(w + post)| == |w| || IsSpace(TrimRight(w + post)[|w|])
  {
    var s := w + post;
    TrimRightKeeps(s, |w| - 1);
    var t := TrimRight(s);
    assert t[..|w|] == s[..|w|];
    assert |t| > |w| ==> t[|w|] == s[|w|];
  }

  /** A text that starts with a word followed by white space has that word first. */
  lemma WordsStartingWith(t: string, w: string)
    requires |w| > 0 && NoSpace(w) && |t| >= |w| && t[..|w|] == w
    requires |t| == |w| || IsSpace(t[|w|])
    ensures |Words(t)| > 0 && Words(t)[0] == w
  {
    assert t == w + t[|w|..];
    TrimLeftOf("", t);
    assert "" + t == t;
    WordsNonEmpty(t);
    FirstWord(t);
    TakeWordOf(w, t[|w|..]);
  }

  /**
   * `(pre + w + post).strip().split()[0] == w` for white space `pre`, a word `w`
   * and a `post` that starts with white space or is empty.
   */
  lemma FirstWordOf(pre: string, w: string, post: string)
    requires AllSpace(pre) && |w| > 0 && NoSpace(w)
    requires |post| == 0 || IsSpace(post[0])
    ensures |Words(Strip(pre + w + post))| > 0
    ensures Words(Strip(pre + w + post))[0] == w
  {
    assert pre + w + post == pre + (w + post);
    StripAfterSpaces(pre, w + post);
    TrimRightOfWord(w, post);
    WordsStartingWith(Strip(pre + w + post), w);
  }

  // ---------------------------------------------------------------------------
  // replace(old, new)
  // ---------------------------------------------------------------------------

  /** Python's `s.replace(n, r)` for a non-empty `n`: left-to-right, non-overlapping. */
  function ReplaceAll(s: string, n: string, r: string): string
    requires |n| > 0
    decreases |s|
  {
    if |s| == 0 then ""
    else if n <= s then r + ReplaceAll(s[|n|..], n, r)
    else [s[0]] + ReplaceAll(s[1..], n, r)
  }

  /** The number of occurrences `replace` substitutes. */
  function Occurrences(s: string, n: string): nat
    requires |n| > 0
    decreases |s|
  {
    if |s| == 0 then 0
    else if n <= s then 1 + Occurrences(s[|n|..], n)
    else Occurrences(s[1..], n)
  }

  lemma {:induction false} OccurrencesPositive(s: string, n: string)
    requires |n| > 0
    ensures Occurrences(s, n) > 0 <==> Contains(s, n)
    decreases |s|
  {
    if |s| > 0 && !(n <= s) {
      OccurrencesPositive(s[1..], n);
    }
  }

  /** Each substitution changes the length by |r| - |n|. */
  lemma {:induction false} ReplaceAllLength(s: string, n: string, r: string)
    requires |n| > 0
    ensures |ReplaceAll(s, n, r)| == |s| + Occurrences(s, n) * (|r| - |n|)
    decreases |s|
  {
    if |s| == 0 {
    } else if n <= s {
      var rest := s[|n|..];
      ReplaceAllLength(rest, n, r);
      assert Occurrences(s, n) == Occurrences(rest, n) + 1;
      assert |ReplaceAll(s, n, r)| == |r| + |ReplaceAll(rest, n, r)|;
      assert |rest| == |s| - |n|;
      MulSucc(Occurrences(rest, n), |r| - |n|);
    } else {
      var rest := s[1..];
      ReplaceAllLength(rest, n, r);
      assert Occurrences(s, n) == Occurrences(rest, n);
      assert |ReplaceAll(s, n, r)| == 1 + |ReplaceAll(rest, n, r)|;
    }
  }

  lemma MulSucc(k: int, d: int)
    ensures (k + 1) * d == k * d + d
  {
  }

  /** Without an occurrence, `replace` returns the text unchanged. */
  lemma {:induction false} ReplaceAllAbsent(s: string, n: string, r: string)
    requires |n| > 0 && !Contains(s, n)
    ensures ReplaceAll(s, n, r) == s
    decreases |s|
  {
    if |s| > 0 {
      ReplaceAllAbsent(s[1..], n, r);
      assert s == [s[0]] + s[1..];
    }
  }

  /** If the replacement itself holds the pattern, so does a text in which the pattern was replaced. */
  lemma {:induction false} ReplaceAllKeepsPattern(s: string, n: string, r: string)
    requires |n| > 0 && Contains(s, n) && Contains(r, n)
    ensures Contains(ReplaceAll(s, n, r), n)
    decreases |s|
  {
    if n <= s {
      ContainsAppendRight(r, ReplaceAll(s[|n|..], n, r), n);
    } else {
      ReplaceAllKeepsPattern(s[1..], n, r);
      ContainsAppendLeft([s[0]], ReplaceAll(s[1..], n, r), n);
    }
  }

  /** A pattern none of whose proper prefixes is also a suffix cannot overlap itself. */
  predicate BorderFree(n: string) {
    forall k :: 0 < k < |n| ==> n[..k] != n[|n| - k..]
  }

  /** A copy of `n` at the start of `s + n` is either inside `s` or makes a border of `n`. */
  lemma PrefixOfAppended(s: string, n: string)
    ensures n <= s + n ==> n <= s || (|s| < |n| && n[..|n| - |s|] == n[|s|..])
  {
    var sn := s + n;
    if n <= sn {
      if |s| >= |n| {
        assert s[..|n|] == sn[..|n|];
      } else {
        forall j | 0 <= j < |n| - |s| ensures n[..|n| - |s|][j] == n[|s|..][j] {
          assert n[|s| + j] == sn[|s| + j];
        }
      }
    }
  }

  /** Replacing in a text followed by a border-free pattern replaces that final copy on its own. */
  lemma {:induction false} ReplaceAllTrailing(s: string, n: string, r: string)
    requires |n| > 0 && BorderFree(n)
    ensures ReplaceAll(s + n, n, r) == ReplaceAll(s, n, r) + r
    decreases |s|
  {
    var sn := s + n;
    if |s| == 0 {
      assert sn == n;
      assert sn[|n|..] == "";
    } else if n <= s {
      assert n <= sn;
      assert sn[|n|..] == s[|n|..] + n;
      ReplaceAllTrailing(s[|n|..], n, r);
    } else {
      PrefixOfAppended(s, n);
      assert !(n <= sn);
      assert sn[1..] == s[1..] + n;
      ReplaceAllTrailing(s[1..], n, r);
    }
  }

  // ---------------------------------------------------------------------------
  // lower() and the ordering of str
  // ---------------------------------------------------------------------------

  /** `lower()` restricted to ASCII letters. */
  function LowerChar(c: char): char {
    if 'A' <= c <= 'Z' then (c as int - 'A' as int + 'a' as int) as char else c
  }

  function Lower(s: string): (t: string)
    ensures |t| == |s|
    ensures forall k :: 0 <= k < |s| ==> t[k] == LowerChar(s[k])
  {
    seq(|s|, k requires 0 <= k < |s| => LowerChar(s[k]))
  }

  /** Python's `a <= b` on `str`: lexicographic by code point, a prefix first. */
  predicate LexLessEq(a: string, b: string)
    decreases |a|
  {
    |a| == 0 || (|b| > 0 && (a[0] < b[0] || (a[0] == b[0] && LexLessEq(a[1..], b[1..]))))
  }

  lemma {:induction false} LexTotal(a: string, b: string)
    ensures LexLessEq(a, b) || LexLessEq(b, a)
    decreases |a|
  {
    if |a| > 0 && |b| > 0 && a[0] == b[0] {
      LexTotal(a[1..], b[1..]);
    }
  }

  lemma {:induction false} LexTransitive(a: string, b: string, c: string)
    requires LexLessEq(a, b) && LexLessEq(b, c)
    ensures LexLessEq(a, c)
    decreases |a|
  {
    if |a| > 0 && a[0] == b[0] && b[0] == c[0] {
      LexTransitive(a[1..], b[1..], c[1..]);
    }
  }

  lemma {:induction false} LexAntisymmetric(a: string, b: string)
    requires LexLessEq(a, b) && LexLessEq(b, a)
    ensures a == b
    decreases |a|
  {
    if |a| > 0 {
      LexAntisymmetric(a[1..], b[1..]);
      assert a == [a[0]] + a[1..] && b == [b[0]] + b[1..];
    }
  }
}
