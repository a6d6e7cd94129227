/**
 * The few Python `str` operations the core relies on: substring search
 * (`in`, `index`), and `strip()` with Python's notion of whitespace.
 */
module Strings {
  import opened Wrappers

  /** `p` occurs in `s` starting at index `k`. */
  predicate MatchAt(s: string, p: string, k: int) {
    0 <= k && k + |p| <= |s| && s[k..k + |p|] == p
  }

  /** Dropping `d` characters shifts every occurrence left by `d`. */
  lemma MatchAtDrop(s: string, p: string, d: nat)
    requires d <= |s|
    ensures forall k :: d <= k ==> (MatchAt(s, p, k) <==> MatchAt(s[d..], p, k - d))
    ensures forall j :: 0 <= j ==> (MatchAt(s[d..], p, j) <==> MatchAt(s, p, d + j))
  {
    forall k | d <= k
      ensures MatchAt(s, p, k) <==> MatchAt(s[d..], p, k - d)
    {
      if k + |p| <= |s| {
        assert s[k..k + |p|] == s[d..][k - d..k - d + |p|];
      }
    }
  }

  /** An occurrence inside a prefix is an occurrence in the whole string. */
  lemma MatchAtExtend(s: string, t: string, p: string, k: int)
    requires MatchAt(s, p, k)
    ensures MatchAt(s + t, p, k)
  {
    assert (s + t)[k..k + |p|] == s[k..k + |p|];
  }

  /**
   * Index of the leftmost occurrence of `p` in `s`, or None: Python's
   * `s.find(p)`, where `s.index(p)` raises instead of returning -1.
   */
  function IndexOf(s: string, p: string): (r: Option<nat>)
    ensures r.Some? ==> MatchAt(s, p, r.value)
    ensures r.Some? ==> forall k :: 0 <= k < r.value ==> !MatchAt(s, p, k)
    ensures r.None? ==> forall k :: !MatchAt(s, p, k)
  {
    IndexOfFrom(s, p, 0)
  }

  /** Python's `p in s`. */
  predicate Contains(s: string, p: string) {
    IndexOf(s, p).Some?
  }

  /** One occurrence is enough for `p in s`. */
  lemma MatchContains(s: string, p: string, k: int)
    requires MatchAt(s, p, k)
    ensures Contains(s, p) && IndexOf(s, p).value <= k
  {
  }

  /**
   * Index of the leftmost occurrence of `p` at or after `start`: Python's
   * `s.find(p, start)` (None where `s.index(p, start)` raises). The scan
   * tries each position in turn.
   */
  function IndexOfFrom(s: string, p: string, start: nat): (r: Option<nat>)
    ensures r.Some? ==> start <= r.value && MatchAt(s, p, r.value)
    ensures r.Some? ==> forall k :: start <= k < r.value ==> !MatchAt(s, p, k)
    ensures r.None? ==> forall k :: start <= k ==> !MatchAt(s, p, k)
    decreases |s| - start + 1
  {
    if start + |p| > |s| then None
    else if MatchAt(s, p, start) then Some(start)
    else IndexOfFrom(s, p, start + 1)
  }

  /** The leftmost occurrence at or after `start` is what the scan finds. */
  lemma IndexOfFromIs(s: string, p: string, start: nat, k: nat)
    requires start <= k && MatchAt(s, p, k)
    requires forall j :: start <= j < k ==> !MatchAt(s, p, j)
    ensures IndexOfFrom(s, p, start) == Some(k)
  {
  }

  /** `p` overlaps itself when shifted by `d`. */
  predicate SelfOverlap(p: string, d: nat)
    requires d < |p|
  {
    p[d..] == p[..|p| - d]
  }

  /** `p` has no proper border: two occurrences of it can never overlap. */
  predicate NoBorder(p: string) {
    forall d :: 0 < d < |p| ==> !SelfOverlap(p, d)
  }

  /**
   * An occurrence of `p` that starts inside `pre` in `pre + p + rest` either
   * lies wholly in `pre` or overlaps the placed copy of `p`, which makes `p`
   * overlap itself.
   */
  lemma EarlyMatch(pre: string, p: string, rest: string)
    ensures forall k :: 0 <= k < |pre| && MatchAt(pre + p + rest, p, k) ==>
      MatchAt(pre, p, k) || (|pre| - k < |p| && SelfOverlap(p, |pre| - k))
  {
    var s := pre + p + rest;
    forall k | 0 <= k < |pre| && MatchAt(s, p, k)
      ensures MatchAt(pre, p, k) || (|pre| - k < |p| && SelfOverlap(p, |pre| - k))
    {
      if k + |p| <= |pre| {
        assert s[k..k + |p|] == pre[k..k + |p|];
      } else {
        var d := |pre| - k;
        forall i | 0 <= i < |p| - d
          ensures p[d..][i] == p[..|p| - d][i]
        {
          assert p[d..][i] == s[k..k + |p|][d + i] == s[|pre| + i];
          assert s[|pre| + i] == s[|pre|..|pre| + |p|][i] == p[i];
        }
      }
    }
  }

  /**
   * With a border-free pattern, an occurrence placed right after a prefix
   * that does not contain the pattern is the first occurrence.
   */
  lemma FirstOccurrence(pre: string, p: string, rest: string)
    requires NoBorder(p) && !Contains(pre, p)
    ensures IndexOf(pre + p + rest, p) == Some(|pre|)
  {
    var s := pre + p + rest;
    assert s[|pre|..|pre| + |p|] == p;
    assert MatchAt(s, p, |pre|);
    EarlyMatch(pre, p, rest);
  }

  /**
   * The same from a starting point: when `s[start..]` is `pre + p + rest`,
   * the search from `start` lands right after `pre`.
   */
  lemma FirstOccurrenceFrom(s: string, start: nat, pre: string, p: string, rest: string)
    requires NoBorder(p) && !Contains(pre, p)
    requires start <= |s| && s[start..] == pre + p + rest
    ensures IndexOfFrom(s, p, start) == Some(start + |pre|)
    ensures s[start..start + |pre|] == pre
  {
    FirstOccurrence(pre, p, rest);
    MatchAtDrop(s, p, start);
    IndexOfFromIs(s, p, start, start + |pre|);
    assert s[start..start + |pre|] == s[start..][..|pre|];
  }

  /**
   * In `pre + open + mid + close + post`, with a border-free `close` and no
   * `close` in `mid`, the first `close` from the end of `open` on starts
   * where `mid` ends.
   */
  lemma CloseAfterOpen(pre: string, open: string, mid: string, close: string, post: string)
    requires NoBorder(close) && !Contains(mid, close)
    ensures var t, start := pre + open + (mid + close + post), |pre| + |open|;
      && IndexOfFrom(t, close, start) == Some(start + |mid|)
      && t[start..start + |mid|] == mid
  {
    var rest := mid + close + post;
    var t := pre + open + rest;
    assert t[|pre| + |open|..] == rest;
    FirstOccurrenceFrom(t, |pre| + |open|, mid, close, post);
  }

  /**
   * Python's `str.isspace` on one character: the characters of Unicode
   * category Zs or bidirectional class WS, B or S.
   */
  predicate IsSpace(c: char) {
    || ('\t' <= c <= '\r')
    || ('\U{1C}' <= c <= ' ')
    || c == '\U{85}' || c == '\U{A0}' || c == '\U{1680}'
    || ('\U{2000}' <= c <= '\U{200A}')
    || c == '\U{2028}' || c == '\U{2029}' || c == '\U{202F}' || c == '\U{205F}' || c == '\U{3000}'
  }

  /** Every character of `s` is whitespace. */
  predicate AllSpace(s: string) {
    forall i :: 0 <= i < |s| ==> IsSpace(s[i])
  }

  /** `s` neither starts nor ends with whitespace. */
  predicate Trimmed(s: string) {
    s == [] || (!IsSpace(s[0]) && !IsSpace(s[|s| - 1]))
  }

  /** Python's `s.lstrip()`: the suffix left after dropping leading whitespace. */
  function StripLeft(s: string): (r: string)
    ensures |r| <= |s| && r == s[|s| - |r|..]
    ensures AllSpace(s[..|s| - |r|])
    ensures r == [] || !IsSpace(r[0])
    decreases |s|
  {
    if |s| > 0 && IsSpace(s[0]) then
      var r := StripLeft(s[1..]);
      assert s[..|s| - |r|] == [s[0]] + s[1..][..|s| - 1 - |r|];
      r
    else s
  }

  /** Python's `s.rstrip()`: the prefix left after dropping trailing whitespace. */
  function StripRight(s: string): (r: string)
    ensures |r| <= |s| && r == s[..|r|]
    ensures AllSpace(s[|r|..])
    ensures r == [] || !IsSpace(r[|r| - 1])
    decreases |s|
  {
    if |s| > 0 && IsSpace(s[|s| - 1]) then
      var r := StripRight(s[..|s| - 1]);
      assert s[|r|..] == s[..|s| - 1][|r|..] + [s[|s| - 1]];
      r
    else s
  }

  /** Python's `s.strip()`. */
  function Strip(s: string): (r: string)
    ensures Trimmed(r) && |r| <= |s|
  {
    var l := StripLeft(s);
    var r := StripRight(l);
    assert r != [] ==> r[0] == l[0];
    r
  }

  /** Stripping whitespace-only text gives the empty string. */
  lemma {:induction false} StripLeftAllSpace(s: string)
    requires AllSpace(s)
    ensures StripLeft(s) == []
    decreases |s|
  {
    if |s| > 0 {
      StripLeftAllSpace(s[1..]);
    }
  }

  /** Leading whitespace goes, and nothing from the first non-space on. */
  lemma {:induction false} StripLeftPadded(a: string, m: string)
    requires AllSpace(a) && m != [] && !IsSpace(m[0])
    ensures StripLeft(a + m) == m
    decreases |a|
  {
    if |a| > 0 {
      assert (a + m)[1..] == a[1..] + m;
      StripLeftPadded(a[1..], m);
    } else {
      assert a + m == m;
    }
  }

  /** Trailing whitespace goes, and nothing up to the last non-space. */
  lemma {:induction false} StripRightPadded(m: string, b: string)
    requires AllSpace(b) && (m == [] || !IsSpace(m[|m| - 1]))
    ensures StripRight(m + b) == m
    decreases |b|
  {
    if |b| > 0 {
      assert (m + b)[..|m + b| - 1] == m + b[..|b| - 1];
      StripRightPadded(m, b[..|b| - 1]);
    } else {
      assert m + b == m;
    }
  }

  /**
   * `strip` removes exactly the whitespace around a trimmed core: it is
   * characterised by its padding, not just by what its result looks like.
   */
  lemma StripPadded(a: string, m: string, b: string)
    requires AllSpace(a) && AllSpace(b) && Trimmed(m)
    ensures Strip(a + m + b) == m
  {
    if m == [] {
      assert a + m + b == a + b;
      StripLeftAllSpace(a + b);
      assert StripRight([]) == [];
    } else {
      assert a + m + b == a + (m + b);
      StripLeftPadded(a, m + b);
      StripRightPadded(m, b);
    }
  }

  /** Text with no surrounding whitespace is left unchanged by `strip`. */
  lemma StripTrimmed(s: string)
    requires Trimmed(s)
    ensures Strip(s) == s
  {
    StripPadded([], s, []);
    assert [] + s + [] == s;
  }

  /** `strip` is idempotent. */
  lemma StripIdempotent(s: string)
    ensures Strip(Strip(s)) == Strip(s)
  {
    StripTrimmed(Strip(s));
  }
}
