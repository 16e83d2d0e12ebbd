/**
 * The Kotlin standard-library string operations the client relies on, each
 * stated over `seq<char>` with a contract that says what it computes.
 */
module Strings {
  import opened Optional

  /** `pat` occurs in `s` starting at index `i`. */
  predicate OccursAt(s: string, pat: string, i: int)
  {
    0 <= i && i + |pat| <= |s| && s[i..i + |pat|] == pat
  }

  /** `s.indexOf(pat, from)`: the first occurrence of `pat` at or after `from`. */
  function IndexOf(s: string, pat: string, from: nat): (r: Option<nat>)
    decreases |s| - from
    ensures r.Some? ==> from <= r.value && r.value + |pat| <= |s|
  {
    if from + |pat| > |s| then None
    else if s[from..from + |pat|] == pat then Some(from)
    else IndexOf(s, pat, from + 1)
  }

  /** What `IndexOf` reports is an occurrence. */
  lemma {:induction false} IndexOfOccurs(s: string, pat: string, from: nat)
    decreases |s| - from
    ensures IndexOf(s, pat, from).Some? ==> OccursAt(s, pat, IndexOf(s, pat, from).value)
  {
    if from + |pat| <= |s| && s[from..from + |pat|] != pat {
      IndexOfOccurs(s, pat, from + 1);
    }
  }

  /** `IndexOf` reports the FIRST occurrence: none lies between `from` and it. */
  lemma {:induction false} IndexOfIsFirst(s: string, pat: string, from: nat)
    decreases |s| - from
    ensures var r := IndexOf(s, pat, from);
      forall i :: from <= i && (r.None? || i < r.value) ==> !OccursAt(s, pat, i)
  {
    if from + |pat| <= |s| && s[from..from + |pat|] != pat {
      IndexOfIsFirst(s, pat, from + 1);
    }
  }

  /** `s.indexOf(c, from)` for a single character. */
  function IndexOfChar(s: string, c: char, from: nat): (r: Option<nat>)
    decreases |s| - from
    ensures r.Some? ==> from <= r.value < |s| && s[r.value] == c
    ensures forall i :: from <= i < |s| && (r.None? || i < r.value) ==> s[i] != c
  {
    if from >= |s| then None
    else if s[from] == c then Some(from)
    else IndexOfChar(s, c, from + 1)
  }

  /** The first `c` at or after `from` is the one `IndexOfChar` reports. */
  lemma {:induction false} IndexOfCharAt(s: string, c: char, from: nat, k: nat)
    requires from <= k < |s| && s[k] == c
    requires forall i :: from <= i < k ==> s[i] != c
    ensures IndexOfChar(s, c, from) == Some(k)
  {
  }

  /** The first `c` at or after `from` is at `k` when the stretch in between holds none. */
  lemma {:induction false} FirstCharAt(s: string, c: char, from: nat, k: nat)
    requires from <= k < |s| && s[k] == c && c !in s[from..k]
    ensures IndexOfChar(s, c, from) == Some(k)
  {
    forall i | from <= i < k ensures s[i] != c {
      assert s[i] == s[from..k][i - from];
    }
    IndexOfCharAt(s, c, from, k);
  }

  /** Two pieces that occur back to back occur together. */
  lemma {:induction false} OccursConcat(s: string, i: nat, x: string, y: string)
    requires OccursAt(s, x, i) && OccursAt(s, y, i + |x|)
    ensures OccursAt(s, x + y, i)
  {
    assert s[i..i + |x| + |y|] == s[i..i + |x|] + s[i + |x|..i + |x| + |y|];
  }

  /** `pat in s` (Kotlin's `String.contains`). */
  function Contains(s: string, pat: string): bool
  {
    IndexOf(s, pat, 0).Some?
  }

  /** `Contains` holds exactly when `pat` occurs somewhere in `s`. */
  lemma {:induction false} ContainsIff(s: string, pat: string)
    ensures Contains(s, pat) <==> exists i :: OccursAt(s, pat, i)
  {
    IndexOfIsFirst(s, pat, 0);
    IndexOfOccurs(s, pat, 0);
  }

  /** A stretch of `s` that agrees with `v` index by index is `v`. */
  lemma {:induction false} SliceFromIndices(s: string, a: nat, v: string)
    requires a + |v| <= |s| && forall i :: 0 <= i < |v| ==> s[a + i] == v[i]
    ensures s[a..a + |v|] == v
  {
    var w := s[a..a + |v|];
    assert forall i :: 0 <= i < |v| ==> w[i] == v[i];
  }

  /** A slice of a slice is a slice. */
  lemma {:induction false} SliceOfSlice(s: string, a: nat, b: nat, j: nat, n: nat)
    requires a <= b <= |s| && j + n <= b - a
    ensures s[a..b][j..j + n] == s[a + j..a + j + n]
  {
    var u, v := s[a..b][j..j + n], s[a + j..a + j + n];
    forall t | 0 <= t < n ensures u[t] == v[t] {
    }
    assert u == v;
  }

  /** No proper prefix of `w` is also a suffix of it, so two occurrences of `w` cannot overlap. */
  predicate Unbordered(w: string)
  {
    forall k :: 0 < k < |w| ==> !IsBorder(w, k)
  }

  /** The first `k` characters of `w` are also its last `k`. */
  predicate IsBorder(w: string, k: nat)
    requires k <= |w|
  {
    w[..k] == w[|w| - k..]
  }

  /** A word whose first character occurs nowhere else in it cannot overlap itself. */
  lemma {:induction false} UniqueFirstUnbordered(w: string)
    requires forall i :: 0 < i < |w| ==> w[i] != w[0]
    ensures Unbordered(w)
  {
    forall k | 0 < k < |w| ensures !IsBorder(w, k) {
      assert w[..k][0] == w[0] && w[|w| - k..][0] == w[|w| - k];
    }
  }

  /** A word whose last character occurs nowhere else in it cannot overlap itself. */
  lemma {:induction false} UniqueLastUnbordered(w: string)
    requires forall i :: 0 <= i < |w| - 1 ==> w[i] != w[|w| - 1]
    ensures Unbordered(w)
  {
    forall k | 0 < k < |w| ensures !IsBorder(w, k) {
      assert w[..k][k - 1] == w[k - 1] && w[|w| - k..][k - 1] == w[|w| - 1];
    }
  }

  /** An occurrence with none before it, at or after `from`, is the one `IndexOf` reports. */
  lemma {:induction false} IndexOfAt(s: string, pat: string, from: nat, k: nat)
    requires from <= k && OccursAt(s, pat, k)
    requires forall i :: from <= i < k ==> !OccursAt(s, pat, i)
    decreases k - from
    ensures IndexOf(s, pat, from) == Some(k)
  {
    if from < k {
      assert !OccursAt(s, pat, from);
      IndexOfAt(s, pat, from + 1, k);
    }
  }

  /**
   * Searching from `from` finds the occurrence at `e` when the stretch in
   * between holds no `pat` and `pat` cannot overlap itself.
   */
  lemma {:induction false} FirstOccurrenceAt(s: string, pat: string, from: nat, e: nat)
    requires |pat| > 0 && Unbordered(pat) && from <= e && OccursAt(s, pat, e)
    requires !Contains(s[from..e], pat)
    ensures IndexOf(s, pat, from) == Some(e)
  {
    ContainsIff(s[from..e], pat);
    forall i | from <= i < e
      ensures !OccursAt(s, pat, i)
    {
      if i + |pat| <= e {
        SliceOfSlice(s, from, e, i - from, |pat|);
        assert !OccursAt(s[from..e], pat, i - from);
      } else {
        NoOccurrenceAcross(s, pat, i, e);
      }
    }
    IndexOfAt(s, pat, from, e);
  }

  /**
   * Searching `x + p + pat + rest` from the end of `x` finds the `pat` right
   * after `p`, when `p` holds no `pat` and `pat` cannot overlap itself.
   */
  lemma {:induction false} FirstOccurrenceAfterPiece(x: string, p: string, pat: string, rest: string)
    requires |pat| > 0 && Unbordered(pat) && !Contains(p, pat)
    ensures IndexOf(x + p + pat + rest, pat, |x|) == Some(|x| + |p|)
  {
    var s := x + p + pat + rest;
    var e := |x| + |p|;
    assert s[e..e + |pat|] == pat;
    assert s[|x|..e] == p;
    FirstOccurrenceAt(s, pat, |x|, e);
  }

  /** An unbordered word occurring at `e` cannot also start in `(e - |pat|, e)`. */
  lemma {:induction false} NoOccurrenceAcross(s: string, pat: string, i: nat, e: nat)
    requires Unbordered(pat) && OccursAt(s, pat, e) && i < e < i + |pat|
    ensures !OccursAt(s, pat, i)
  {
    var k := e - i;
    if i + |pat| <= |s| {
      assert s[i..i + |pat|][k..] == s[e..e + |pat| - k] == pat[..|pat| - k];
      assert !IsBorder(pat, |pat| - k);
    }
  }

  predicate StartsWith(s: string, prefix: string)
  {
    |prefix| <= |s| && s[..|prefix|] == prefix
  }

  /** `s.removePrefix(prefix)`. */
  function RemovePrefix(s: string, prefix: string): (r: string)
    ensures StartsWith(s, prefix) ==> s == prefix + r
    ensures !StartsWith(s, prefix) ==> r == s
  {
    if StartsWith(s, prefix) then s[|prefix|..] else s
  }

  /**
   * `s.removeSurrounding("\"")`: drops the delimiter at both ends, and only
   * when it is present at both ends of a string at least two long.
   */
  function RemoveSurrounding(s: string, d: char): (r: string)
    ensures 2 <= |s| && s[0] == d && s[|s| - 1] == d ==> s == [d] + r + [d]
    ensures !(2 <= |s| && s[0] == d && s[|s| - 1] == d) ==> r == s
  {
    if 2 <= |s| && s[0] == d && s[|s| - 1] == d then s[1..|s| - 1] else s
  }

  /**
   * Kotlin's `Char.isWhitespace()` on the JVM: Java whitespace or a Unicode
   * space, line or paragraph separator.
   */
  predicate IsWhitespace(c: char)
  {
    ('\t' <= c <= '\r') || ('\U{1C}' <= c <= ' ') ||
    c == '\U{A0}' || c == '\U{1680}' || ('\U{2000}' <= c <= '\U{200A}') ||
    c == '\U{2028}' || c == '\U{2029}' || c == '\U{202F}' || c == '\U{205F}' || c == '\U{3000}'
  }

  /** `s.trimStart()`. */
  function TrimStart(s: string): (r: string)
    ensures |r| <= |s| && r == s[|s| - |r|..]
    ensures forall i :: 0 <= i < |s| - |r| ==> IsWhitespace(s[i])
    ensures r == [] || !IsWhitespace(r[0])
  {
    if |s| > 0 && IsWhitespace(s[0]) then
      var r := TrimStart(s[1..]);
      assert s[1..][|s| - 1 - |r|..] == s[|s| - |r|..];
      assert forall i :: 1 <= i < |s| - |r| ==> s[i] == s[1..][i - 1];
      r
    else s
  }

  /** `s.trimEnd()`. */
  function TrimEnd(s: string): (r: string)
    ensures |r| <= |s| && r == s[..|r|]
    ensures forall i :: |r| <= i < |s| ==> IsWhitespace(s[i])
    ensures r == [] || !IsWhitespace(r[|r| - 1])
  {
    if |s| > 0 && IsWhitespace(s[|s| - 1]) then TrimEnd(s[..|s| - 1]) else s
  }

  /** `s.trim()`: no whitespace at either end, and only whitespace removed. */
  function Trim(s: string): (r: string)
    ensures r == [] || (!IsWhitespace(r[0]) && !IsWhitespace(r[|r| - 1]))
  {
    TrimEnd(TrimStart(s))
  }

  /** A string that starts and ends with non-whitespace is its own trim. */
  lemma {:induction false} TrimNoop(s: string)
    requires s == [] || (!IsWhitespace(s[0]) && !IsWhitespace(s[|s| - 1]))
    ensures Trim(s) == s
  {
  }

  /** `s.replace(a, b)` for characters. */
  function ReplaceChar(s: string, a: char, b: char): (r: string)
    ensures |r| == |s|
    ensures forall i :: 0 <= i < |s| ==> r[i] == (if s[i] == a then b else s[i])
  {
    seq(|s|, i requires 0 <= i < |s| => if s[i] == a then b else s[i])
  }

  lemma {:induction false} ReplaceCharAbsent(s: string, a: char, b: char)
    requires a !in s
    ensures ReplaceChar(s, a, b) == s
  {
  }

  /** Replacing the one `a` at the end of an `a`-free piece. */
  lemma {:induction false} ReplaceCharLast(x: string, a: char, b: char)
    requires a !in x
    ensures ReplaceChar(x + [a], a, b) == x + [b]
  {
    var s := x + [a];
    forall i | 0 <= i < |s| ensures ReplaceChar(s, a, b)[i] == (x + [b])[i] {
      if i < |x| { assert s[i] == x[i]; }
    }
  }

  /** Replacing the one `a` between two `a`-free pieces. */
  lemma {:induction false} ReplaceCharMiddle(x: string, a: char, y: string, b: char)
    requires a !in x && a !in y
    ensures ReplaceChar(x + [a] + y, a, b) == x + [b] + y
  {
    var s := x + [a] + y;
    forall i | 0 <= i < |s| ensures ReplaceChar(s, a, b)[i] == (x + [b] + y)[i] {
      if i < |x| { assert s[i] == x[i]; } else if i > |x| { assert s[i] == y[i - |x| - 1]; }
    }
  }

  /** The pieces of `s` between occurrences of `sep`, glued back together. */
  function Join(parts: seq<string>, sep: char): string
  {
    if |parts| == 0 then ""
    else if |parts| == 1 then parts[0]
    else parts[0] + [sep] + Join(parts[1..], sep)
  }

  /** Text before a join lands in its first piece. */
  lemma {:induction false} JoinPrependFirst(parts: seq<string>, sep: char, x: string)
    requires |parts| >= 1
    ensures x + Join(parts, sep) == Join(parts[0 := x + parts[0]], sep)
  {
    var q := parts[0 := x + parts[0]];
    if |parts| > 1 {
      assert q[1..] == parts[1..];
    }
  }

  /** Text after a join lands in its last piece. */
  lemma {:induction false} JoinAppendLast(parts: seq<string>, sep: char, x: string)
    requires |parts| >= 1
    ensures Join(parts, sep) + x == Join(parts[|parts| - 1 := parts[|parts| - 1] + x], sep)
  {
    var q := parts[|parts| - 1 := parts[|parts| - 1] + x];
    if |parts| > 1 {
      var t := parts[1..];
      JoinAppendLast(t, sep, x);
      assert q[1..] == t[|t| - 1 := t[|t| - 1] + x];
      assert Join(q, sep) == q[0] + [sep] + Join(q[1..], sep);
    }
  }

  /**
   * `s.split(sep)` with no limit: every piece, empty ones included, so that
   * there is one more piece than there are separators.
   */
  function Split(s: string, sep: char): (r: seq<string>)
    ensures |r| >= 1
    ensures forall k :: 0 <= k < |r| ==> sep !in r[k]
    ensures Join(r, sep) == s
  {
    if |s| == 0 then [""]
    else
      var rest := Split(s[1..], sep);
      assert s == [s[0]] + s[1..];
      if s[0] == sep then
        JoinEmptyFirst(rest, sep);
        [""] + rest
      else
        JoinExtendFirst(s[0], rest, sep);
        [[s[0]] + rest[0]] + rest[1..]
  }

  /** There is one more piece than there are separators. */
  lemma {:induction false} SplitCount(s: string, sep: char)
    ensures |Split(s, sep)| == multiset(s)[sep] + 1
  {
    if |s| > 0 {
      SplitUnfold(s, sep);
      SplitCount(s[1..], sep);
      assert s == [s[0]] + s[1..];
      assert multiset(s) == multiset([s[0]]) + multiset(s[1..]);
    }
  }

  lemma {:induction false} JoinEmptyFirst(rest: seq<string>, sep: char)
    requires |rest| >= 1
    ensures Join([""] + rest, sep) == [sep] + Join(rest, sep)
  {
    assert ([""] + rest)[1..] == rest;
  }

  lemma {:induction false} JoinExtendFirst(c: char, rest: seq<string>, sep: char)
    requires |rest| >= 1
    ensures Join([[c] + rest[0]] + rest[1..], sep) == [c] + Join(rest, sep)
  {
    var r := [[c] + rest[0]] + rest[1..];
    assert r[1..] == rest[1..];
  }

  /** Splitting a joined list gives the list back when no piece holds `sep`. */
  lemma {:induction false} SplitJoin(parts: seq<string>, sep: char)
    requires |parts| >= 1
    requires forall k :: 0 <= k < |parts| ==> sep !in parts[k]
    ensures Split(Join(parts, sep), sep) == parts
  {
    if |parts| == 1 {
      SplitNoSep(parts[0], sep);
    } else {
      SplitJoin(parts[1..], sep);
      SplitAfterPiece(parts[0], sep, Join(parts[1..], sep));
    }
  }

  lemma {:induction false} SplitNoSep(s: string, sep: char)
    requires sep !in s
    ensures Split(s, sep) == [s]
  {
    if |s| > 0 {
      SplitUnfold(s, sep);
      SplitNoSep(s[1..], sep);
      assert [s[0]] + s[1..] == s;
    }
  }

  lemma {:induction false} SplitAfterPiece(a: string, sep: char, b: string)
    requires sep !in a
    ensures Split(a + [sep] + b, sep) == [a] + Split(b, sep)
  {
    var s := a + [sep] + b;
    SplitUnfold(s, sep);
    if |a| == 0 {
      assert s[1..] == b;
    } else {
      assert s[0] == a[0] && s[1..] == a[1..] + [sep] + b;
      SplitAfterPiece(a[1..], sep, b);
      var t := Split(s[1..], sep);
      assert t == [a[1..]] + Split(b, sep);
      assert t[0] == a[1..] && t[1..] == Split(b, sep);
      assert [a[0]] + a[1..] == a;
    }
  }

  lemma {:induction false} SplitUnfold(s: string, sep: char)
    requires |s| > 0
    ensures Split(s, sep) ==
      var rest := Split(s[1..], sep);
      if s[0] == sep then [""] + rest else [[s[0]] + rest[0]] + rest[1..]
  {
  }

  /** No '<' in `s` has a '>' after it: nothing tag-shaped is left. */
  predicate NoTag(s: string)
  {
    forall i, j :: 0 <= i < j < |s| && s[i] == '<' ==> s[j] != '>'
  }

  /**
   * `Regex("<.*?>").replace(s, "")`: every shortest `<…>` segment is removed,
   * scanning left to right; a '<' with no '>' after it is kept.
   */
  function StripTags(s: string): (r: string)
    decreases |s|
    ensures |r| <= |s|
    ensures NoTag(r)
    ensures '<' !in s ==> r == s
  {
    if |s| == 0 then ""
    else if s[0] == '<' then
      match IndexOfChar(s, '>', 1)
      case Some(j) => StripTags(s[j + 1..])
      case None => s
    else
      var rest := StripTags(s[1..]);
      assert '<' !in s ==> '<' !in s[1..];
      [s[0]] + rest
  }

  predicate IsAsciiUpper(c: char) { 'A' <= c <= 'Z' }

  /** `s.toLowerCase()`, on ASCII letters. */
  function ToLower(s: string): (r: string)
    ensures |r| == |s|
    ensures forall i :: 0 <= i < |s| ==> !IsAsciiUpper(r[i])
    ensures forall i :: 0 <= i < |s| && !IsAsciiUpper(s[i]) ==> r[i] == s[i]
    ensures forall i :: 0 <= i < |s| && IsAsciiUpper(s[i]) ==> r[i] == (s[i] as int + 32) as char
  {
    seq(|s|, i requires 0 <= i < |s| =>
      if IsAsciiUpper(s[i]) then (s[i] as int + 32) as char else s[i])
  }

  /** `s.padStart(n, c)`: `c` repeated in front of `s` up to length `n`. */
  function PadStart(s: string, n: nat, c: char): (r: string)
    ensures |r| == if |s| < n then n else |s|
    ensures r[|r| - |s|..] == s
    ensures forall i :: 0 <= i < |r| - |s| ==> r[i] == c
  {
    if |s| >= n then s else seq(n - |s|, _ => c) + s
  }

  /** `Char.isLetter()`, restricted to ASCII letters and the CJK unified ideographs. */
  predicate IsLetter(c: char)
  {
    ('a' <= c <= 'z') || ('A' <= c <= 'Z') || ('\U{4E00}' <= c <= '\U{9FFF}')
  }

  /** `s.any { it.isLetter() }`. */
  predicate HasLetter(s: string)
  {
    exists i | 0 <= i < |s| :: IsLetter(s[i])
  }
}
