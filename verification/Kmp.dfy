/** Knuth-Morris-Pratt matching as log_analysis.cpp uses it: the failure table, and the
    facts that let a streaming matcher keep one number instead of the text it has read. */
module Kmp {
  import opened Bytes

  /** The prefix of `p` of length `k` is a suffix of `t`. */
  ghost predicate SuffixMatch(p: seq<Byte>, k: int, t: seq<Byte>) {
    0 <= k <= |p| && k <= |t| && p[..k] == t[|t| - k..]
  }

  /** `k` is the length of the longest prefix of `p` that is a suffix of `t`. */
  ghost predicate Longest(p: seq<Byte>, k: int, t: seq<Byte>) {
    SuffixMatch(p, k, t) && forall j :: SuffixMatch(p, j, t) ==> j <= k
  }

  /** The length of the longest prefix of `p` that is a suffix of `t`, by trying them all. */
  ghost function MatchLength(p: seq<Byte>, t: seq<Byte>): nat {
    LongestUpTo(p, t, if |p| <= |t| then |p| else |t|)
  }

  ghost function LongestUpTo(p: seq<Byte>, t: seq<Byte>, k: nat): nat
    requires k <= |p| && k <= |t|
  {
    if k == 0 || p[..k] == t[|t| - k..] then k else LongestUpTo(p, t, k - 1)
  }

  lemma LongestUpToIs(p: seq<Byte>, t: seq<Byte>, k: nat)
    requires k <= |p| && k <= |t|
    requires forall j :: SuffixMatch(p, j, t) ==> j <= k
    ensures Longest(p, LongestUpTo(p, t, k), t)
  {
    if k == 0 {
      assert p[..0] == t[|t|..];
    } else if p[..k] != t[|t| - k..] {
      LongestUpToIs(p, t, k - 1);
    }
  }

  lemma MatchLengthIs(p: seq<Byte>, t: seq<Byte>, k: int)
    ensures Longest(p, MatchLength(p, t), t)
    ensures Longest(p, k, t) ==> k == MatchLength(p, t)
  {
    LongestUpToIs(p, t, if |p| <= |t| then |p| else |t|);
  }

  /** Every entry is the longest proper border of the prefix of `p` that ends there. */
  ghost predicate IsFailureTable(p: seq<Byte>, table: seq<nat>) {
    |table| == |p| && forall i :: 0 <= i < |p| ==> IsBorder(p, i + 1, table[i])
  }

  ghost predicate IsBorder(p: seq<Byte>, n: nat, k: nat) {
    k < n <= |p| && SuffixMatch(p, k, p[..n]) && forall j :: SuffixMatch(p, j, p[..n]) && j < n ==> j <= k
  }

  ghost predicate OccursAt(p: seq<Byte>, t: seq<Byte>, i: int) {
    0 <= i && i + |p| <= |t| && t[i..i + |p|] == p
  }

  ghost predicate Absent(p: seq<Byte>, t: seq<Byte>) {
    forall i :: !OccursAt(p, t, i)
  }

  /** `i` is where the leftmost occurrence of `p` in `t` starts. */
  ghost predicate IsLeftmost(p: seq<Byte>, t: seq<Byte>, i: int) {
    OccursAt(p, t, i) && forall j :: OccursAt(p, t, j) ==> i <= j
  }

  // Reading one more byte extends exactly the suffix matches whose next pattern byte it is.
  lemma ExtendMatch(p: seq<Byte>, j: nat, t: seq<Byte>, c: Byte)
    ensures SuffixMatch(p, j + 1, t + [c]) <==> j < |p| && SuffixMatch(p, j, t) && p[j] == c
  {
    var u := t + [c];
    if j < |p| && j <= |t| {
      assert u[|u| - (j + 1)..] == t[|t| - j..] + [c];
      assert p[..j + 1] == p[..j] + [p[j]];
      if SuffixMatch(p, j + 1, u) {
        assert p[j] == p[..j + 1][j] == c;
        assert p[..j] == p[..j + 1][..j] == t[|t| - j..];
      }
    }
  }

  // A shorter suffix match of the text is a suffix match of any longer one.
  lemma ShorterMatch(p: seq<Byte>, a: nat, j: nat, t: seq<Byte>)
    requires SuffixMatch(p, a, t) && j <= a
    ensures SuffixMatch(p, j, t) <==> SuffixMatch(p, j, p[..a])
  {
    assert p[..a][a - j..] == t[|t| - a..][a - j..] == t[|t| - j..];
  }

  /** What the fall-back loop keeps while it looks for the state to extend by `c`. */
  ghost predicate Candidate(p: seq<Byte>, matched: nat, t: seq<Byte>, c: Byte) {
    matched < |p| && SuffixMatch(p, matched, t) &&
    forall j :: matched < j < |p| && SuffixMatch(p, j, t) ==> p[j] != c
  }

  // One failure link loses no candidate.
  lemma FallBack(p: seq<Byte>, border: nat, matched: nat, t: seq<Byte>, c: Byte)
    requires Candidate(p, matched, t, c) && 0 < matched && p[matched] != c
    requires IsBorder(p, matched, border)
    ensures Candidate(p, border, t, c)
  {
    ShorterMatch(p, matched, border, t);
    forall j | border < j < |p| && SuffixMatch(p, j, t) ensures p[j] != c {
      if j < matched {
        ShorterMatch(p, matched, j, t);
      }
    }
  }

  // Where the fall-back loop stops, the longest match of the extended text is known.
  lemma Advance(p: seq<Byte>, matched: nat, t: seq<Byte>, c: Byte)
    requires Candidate(p, matched, t, c)
    requires matched == 0 || p[matched] == c
    ensures Longest(p, if p[matched] == c then matched + 1 else 0, t + [c])
  {
    var k := if p[matched] == c then matched + 1 else 0;
    ExtendMatch(p, matched, t, c);
    assert p[..0] == (t + [c])[|t| + 1..];
    forall j | SuffixMatch(p, j, t + [c]) ensures j <= k {
      if j > 0 {
        ExtendMatch(p, j - 1, t, c);
      }
    }
  }

  // The longest match that is not yet complete is a candidate for every next byte.
  lemma StartCandidate(p: seq<Byte>, matched: nat, t: seq<Byte>, c: Byte)
    requires Longest(p, matched, t) && matched < |p|
    ensures Candidate(p, matched, t, c)
  {
  }

  // Borders of a prefix of the pattern are suffix matches of that prefix less its first byte.
  lemma BorderIsMatch(p: seq<Byte>, n: nat, k: int)
    requires 0 < n <= |p| && k < n
    ensures SuffixMatch(p, k, p[..n]) <==> SuffixMatch(p, k, p[1..n])
  {
    if 0 <= k {
      assert p[..n][n - k..] == p[1..n][n - 1 - k..];
    }
  }

  lemma LongestIsBorder(p: seq<Byte>, n: nat, k: nat)
    requires 0 < n <= |p| && Longest(p, k, p[1..n])
    ensures IsBorder(p, n, k)
  {
    BorderIsMatch(p, n, k);
    forall j | SuffixMatch(p, j, p[..n]) && j < n ensures j <= k {
      BorderIsMatch(p, n, j);
    }
  }

  /** The matching step shared by build_failure_table and search: follow failure links until
      `current` extends the match. Only the entries below `matched` are read. */
  method Step(pattern: seq<Byte>, failure: seq<nat>, matched: nat, current: Byte, ghost text: seq<Byte>)
      returns (next: nat, ghost fallbacks: nat)
    requires matched == MatchLength(pattern, text) && matched < |pattern| && matched <= |failure|
    requires forall i :: 0 <= i < matched ==> IsBorder(pattern, i + 1, failure[i])
    ensures next == MatchLength(pattern, text + [current])
    ensures next <= |pattern| && fallbacks + next <= matched + 1
  {
    hide MatchLength, SuffixMatch;
    next, fallbacks := matched, 0;
    MatchLengthIs(pattern, text, matched);
    StartCandidate(pattern, next, text, current);
    while next > 0 && current != pattern[next]
      invariant next <= matched && fallbacks + next <= matched
      invariant Candidate(pattern, next, text, current)
    {
      FallBack(pattern, failure[next - 1], next, text, current);
      next := failure[next - 1];
      fallbacks := fallbacks + 1;
    }
    Advance(pattern, next, text, current);
    if current == pattern[next] {
      next := next + 1;
    }
    MatchLengthIs(pattern, text + [current], next);
  }

  lemma FirstBorder(p: seq<Byte>)
    requires |p| > 0
    ensures MatchLength(p, p[1..1]) == 0 && IsBorder(p, 1, 0)
  {
    MatchLengthIs(p, p[1..1], 0);
    LongestIsBorder(p, 1, 0);
  }

  // Matching the pattern against itself computes the next entry.
  lemma NextBorder(p: seq<Byte>, n: nat, k: nat)
    requires 0 < n < |p| && k == MatchLength(p, p[1..n] + [p[n]])
    ensures k == MatchLength(p, p[1..n + 1]) && IsBorder(p, n + 1, k)
  {
    assert p[1..n] + [p[n]] == p[1..n + 1];
    MatchLengthIs(p, p[1..n + 1], k);
    LongestIsBorder(p, n + 1, k);
  }

  /** build_failure_table; `fallbacks` counts the failure links it follows. */
  method BuildFailureTable(pattern: seq<Byte>) returns (failure: seq<nat>, ghost fallbacks: nat)
    ensures IsFailureTable(pattern, failure)
    ensures fallbacks <= |pattern|
  {
    hide IsBorder, MatchLength;
    failure := seq(|pattern|, _ => 0);
    fallbacks := 0;
    if |pattern| == 0 {
      return;
    }
    var matched: nat := 0;
    var index := 1;
    FirstBorder(pattern);
    while index < |pattern|
      invariant 1 <= index <= |pattern| == |failure|
      invariant matched < index && matched == MatchLength(pattern, pattern[1..index])
      invariant forall i :: 0 <= i < index ==> IsBorder(pattern, i + 1, failure[i])
      invariant fallbacks + matched <= index
    {
      ghost var falls := 0;
      matched, falls := Step(pattern, failure, matched, pattern[index], pattern[1..index]);
      fallbacks := fallbacks + falls;
      NextBorder(pattern, index, matched);
      failure := failure[index := matched];
      index := index + 1;
    }
  }

  // Whether the pattern occurs inside the old text does not depend on the new byte.
  lemma OccursInPrefix(p: seq<Byte>, t: seq<Byte>, c: Byte, i: nat)
    requires i + |p| <= |t|
    ensures OccursAt(p, t + [c], i) <==> OccursAt(p, t, i)
  {
    assert t[i..i + |p|] == (t + [c])[i..i + |p|];
  }

  // A text without the pattern stays without it unless the new byte completes a match.
  lemma AbsentExtends(p: seq<Byte>, t: seq<Byte>, c: Byte)
    requires |p| > 0 && Absent(p, t)
    ensures MatchLength(p, t + [c]) != |p| ==> Absent(p, t + [c])
    ensures MatchLength(p, t + [c]) == |p| ==> IsLeftmost(p, t + [c], |t| + 1 - |p|)
  {
    MatchLengthIs(p, t + [c], |p|);
    var u := t + [c];
    assert p[..|p|] == p;
    forall i | OccursAt(p, u, i) ensures i == |u| - |p| && SuffixMatch(p, |p|, u) {
      if i + |p| <= |t| {
        OccursInPrefix(p, t, c, i);
      }
    }
  }

  // The leftmost occurrence is not moved by text that follows it.
  lemma LeftmostExtends(p: seq<Byte>, t: seq<Byte>, c: Byte, i: int)
    requires IsLeftmost(p, t, i)
    ensures IsLeftmost(p, t + [c], i)
  {
    var u := t + [c];
    OccursInPrefix(p, t, c, i);
    forall j | OccursAt(p, u, j) ensures i <= j {
      if j + |p| <= |t| {
        OccursInPrefix(p, t, c, j);
      }
    }
  }
}
