/**
  The few operations of Go's `strings` package that the proxy uses, over `string`
  (`seq<char>`): `HasPrefix`, `HasSuffix`, `TrimPrefix`, `Index` and `Replace`
  with a count of one.
 */
module Strings {
  import opened Wrappers

  /** `pat` starts at position `i` of `s`. */
  predicate OccursAt(s: string, pat: string, i: int) {
    0 <= i && i + |pat| <= |s| && s[i..i + |pat|] == pat
  }

  /** `pat` occurs somewhere in `s`. */
  ghost predicate Contains(s: string, pat: string) {
    exists i :: OccursAt(s, pat, i)
  }

  /** No occurrence of `pat` in `s` starts before position `k`. */
  ghost predicate NoneBefore(s: string, pat: string, k: int) {
    forall j :: 0 <= j < k ==> !OccursAt(s, pat, j)
  }

  predicate HasPrefix(s: string, prefix: string) {
    |prefix| <= |s| && s[..|prefix|] == prefix
  }

  predicate HasSuffix(s: string, suffix: string) {
    |suffix| <= |s| && s[|s| - |suffix|..] == suffix
  }

  /** strings.TrimPrefix: drops `prefix` once when `s` starts with it. */
  function TrimPrefix(s: string, prefix: string): (r: string)
    ensures HasPrefix(s, prefix) ==> s == prefix + r
    ensures !HasPrefix(s, prefix) ==> r == s
  {
    if HasPrefix(s, prefix) then s[|prefix|..] else s
  }

  /** strings.Index: the first position at which `pat` occurs, if any. */
  function IndexOf(s: string, pat: string): (r: Option<nat>)
    ensures r.Some? ==> OccursAt(s, pat, r.value) && NoneBefore(s, pat, r.value)
    ensures r.None? ==> !Contains(s, pat)
    decreases |s|
  {
    if |s| < |pat| then None
    else if s[..|pat|] == pat then Some(0)
    else
      match IndexOf(s[1..], pat)
      case None =>
        assert forall j :: OccursAt(s, pat, j) ==> j == 0 || OccursAt(s[1..], pat, j - 1);
        None
      case Some(i) =>
        assert forall j :: 1 <= j <= i ==> (OccursAt(s, pat, j) <==> OccursAt(s[1..], pat, j - 1));
        Some(i + 1)
  }

  /** strings.Replace(s, target, repl, 1): replaces the first occurrence of `target`. */
  function ReplaceFirst(s: string, target: string, repl: string): (r: string)
    ensures !Contains(s, target) ==> r == s
    ensures Contains(s, target) ==> |r| == |s| - |target| + |repl|
  {
    match IndexOf(s, target)
    case None => s
    case Some(i) => s[..i] + repl + s[i + |target|..]
  }

  /**
    Replacing at the first occurrence: when no occurrence of `target` starts inside
    `prefix`, the result of replacing in `prefix + target + rest` is `prefix + repl + rest`.
   */
  lemma ReplaceFirstAt(prefix: string, target: string, rest: string, repl: string)
    requires NoneBefore(prefix + target + rest, target, |prefix|)
    ensures ReplaceFirst(prefix + target + rest, target, repl) == prefix + repl + rest
  {
    var s := prefix + target + rest;
    assert OccursAt(s, target, |prefix|) by {
      assert s[|prefix|..|prefix| + |target|] == target;
    }
    var i := IndexOf(s, target);
    assert i == Some(|prefix|);
    assert s[..|prefix|] == prefix;
    assert s[|prefix| + |target|..] == rest;
  }

  /**
    Every string that contains `target` splits at its first occurrence, and the
    replacement puts `repl` exactly there.
   */
  lemma ReplaceFirstSplits(s: string, target: string, repl: string)
    requires Contains(s, target)
    ensures exists prefix, rest ::
              s == prefix + target + rest && NoneBefore(s, target, |prefix|)
              && ReplaceFirst(s, target, repl) == prefix + repl + rest
  {
    var i := IndexOf(s, target).value;
    var prefix, rest := s[..i], s[i + |target|..];
    assert s == prefix + target + rest;
  }

  /**
    When the first character of `pat` does not reappear in it, an occurrence
    cannot overlap a later one; so if `prefix` does not contain `pat`, no
    occurrence of `pat` in `prefix + pat + rest` starts inside `prefix`.
   */
  lemma {:induction false} FirstOccurrenceAfterClean(prefix: string, pat: string, rest: string)
    requires |pat| > 0
    requires forall k :: 1 <= k < |pat| ==> pat[k] != pat[0]
    requires !Contains(prefix, pat)
    ensures NoneBefore(prefix + pat + rest, pat, |prefix|)
  {
    var s := prefix + pat + rest;
    forall j | 0 <= j < |prefix|
      ensures !OccursAt(s, pat, j)
    {
      if j + |pat| <= |prefix| {
        assert prefix[j..j + |pat|] == s[j..j + |pat|];
        assert !OccursAt(prefix, pat, j);
      } else {
        assert s[|prefix|] == pat[0];
        assert s[j..j + |pat|][|prefix| - j] == pat[0];
      }
    }
  }

  /** Concatenation regrouped, as a fact the solver can use at a single step. */
  lemma Regroup(a: string, b: string, c: string, d: string)
    ensures a + (b + c) + d == a + b + c + d
  {
  }

  /** A prefix that ends before the first occurrence of `pat` does not contain `pat`. */
  lemma CleanBeforeFirst(s: string, pat: string, prefix: string)
    requires |pat| > 0
    requires HasPrefix(s, prefix) && NoneBefore(s, pat, |prefix|)
    ensures !Contains(prefix, pat)
  {
    forall j | OccursAt(prefix, pat, j)
      ensures false
    {
      assert s[j..j + |pat|] == prefix[j..j + |pat|];
      assert OccursAt(s, pat, j);
    }
  }

  /**
    Where the parts of `open + a + x + b + y + c + close` sit: the string starts
    with `open`, ends with `close`, and `x` and `y` start right after `a` and `b`.
   */
  lemma Layout(open: string, a: string, x: string, b: string, y: string, c: string, close: string)
    ensures var s := open + a + x + b + y + c + close;
            && HasPrefix(s, open) && HasSuffix(s, close)
            && OccursAt(s, a, |open|) && OccursAt(s, x, |open| + |a|)
            && OccursAt(s, b, |open| + |a| + |x|) && OccursAt(s, y, |open| + |a| + |x| + |b|)
            && OccursAt(s, c, |open| + |a| + |x| + |b| + |y|)
  {
    var s := open + a + x + b + y + c + close;
    assert s[..|open|] == open;
    assert s[|open|..|open| + |a|] == a;
    assert s[|open| + |a| + |x|..|open| + |a| + |x| + |b|] == b;
    assert s[|open| + |a| + |x| + |b| + |y|..|s| - |close|] == c;
    assert s[|s| - |close|..] == close;
    var i := |open| + |a|;
    assert s[i..i + |x|] == x;
    var k := i + |x| + |b|;
    assert s[k..k + |y|] == y;
  }

  /** An occurrence inside an occurrence is an occurrence in the whole string. */
  lemma OccursWithin(s: string, big: string, i: int, small: string, k: int)
    requires OccursAt(s, big, i) && OccursAt(big, small, k)
    ensures OccursAt(s, small, i + k)
  {
    forall m | 0 <= m < |small|
      ensures s[i + k + m] == small[m]
    {
      assert s[i..i + |big|][k + m] == big[k + m];
      assert big[k..k + |small|][m] == small[m];
    }
    assert s[i + k..i + k + |small|] == small;
  }

  /** A string ends with at most one of two suffixes neither of which ends the other. */
  lemma SuffixesExclusive(s: string, a: string, b: string)
    requires |a| <= |b| && !HasSuffix(b, a)
    ensures !(HasSuffix(s, a) && HasSuffix(s, b))
  {
  }
}
