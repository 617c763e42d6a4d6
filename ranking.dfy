/**
 * Ranking of scored positions, as the sorting library calls do it:
 * `np.argsort(-sims)` in the vector search and
 * `sorted(..., key=score, reverse=True)` in the chat ranking.
 * Positions come out in descending score; equal scores keep their original
 * relative order (Python's sort is stable; for `np.argsort` this is one of
 * the orders it may produce, and callers only rely on the weaker
 * promise stated by their own contracts).
 */
module Ranking {

  /** Position `a` is ranked ahead of position `b`: a strictly higher score, or the same score and an earlier position. */
  predicate Before(s: seq<real>, a: nat, b: nat)
    requires a < |s| && b < |s|
  {
    s[a] > s[b] || (s[a] == s[b] && a < b)
  }

  predicate InRange(s: seq<real>, xs: seq<nat>) {
    forall t :: 0 <= t < |xs| ==> xs[t] < |s|
  }

  /** `xs` lists positions of `s`, each ranked ahead of all that follow it. */
  predicate Ranked(s: seq<real>, xs: seq<nat>) {
    InRange(s, xs) && forall i, j :: 0 <= i < j < |xs| ==> Before(s, xs[i], xs[j])
  }

  /** Insert position `k`, later than every position already ranked, behind all that score at least as much. */
  function Insert(s: seq<real>, k: nat, xs: seq<nat>): (r: seq<nat>)
    requires k < |s| && Ranked(s, xs)
    requires forall t :: 0 <= t < |xs| ==> xs[t] < k
    ensures |r| == |xs| + 1
    ensures forall x: nat :: x in r <==> x == k || x in xs
    ensures Ranked(s, r)
  {
    if xs == [] then [k]
    else if s[xs[0]] >= s[k] then
      var rest := Insert(s, k, xs[1..]);
      var r := [xs[0]] + rest;
      assert forall j :: 0 < j < |r| ==> Before(s, xs[0], r[j]) by {
        forall j | 0 < j < |r| ensures Before(s, xs[0], r[j]) {
          assert r[j] in rest;
          if r[j] != k {
            assert r[j] in xs[1..];
            var t :| 0 <= t < |xs| - 1 && xs[1..][t] == r[j];
            assert xs[t + 1] == r[j];
          }
        }
      }
      r
    else
      [k] + xs
  }

  function RankPrefix(s: seq<real>, n: nat): (r: seq<nat>)
    requires n <= |s|
    ensures |r| == n
    ensures forall x: nat :: x in r <==> x < n
    ensures Ranked(s, r)
  {
    if n == 0 then []
    else
      var xs := RankPrefix(s, n - 1);
      assert forall t :: 0 <= t < |xs| ==> xs[t] in xs;
      Insert(s, n - 1, xs)
  }

  /** All positions of `s`, each exactly once, in descending score; ties in original order. */
  function RankDesc(s: seq<real>): (r: seq<nat>)
    ensures |r| == |s|
    ensures forall x: nat :: x in r <==> x < |s|
    ensures Ranked(s, r)
  {
    RankPrefix(s, |s|)
  }

  /** A ranking never lists a position twice. */
  lemma {:induction false} RankedDistinct(s: seq<real>, xs: seq<nat>, i: int, j: int)
    requires Ranked(s, xs) && 0 <= i < j < |xs|
    ensures xs[i] != xs[j]
  {
    assert Before(s, xs[i], xs[j]);
  }

  /**
   * Cutting a full ranking after `c` entries: every position left out is
   * ranked behind every position kept, so it scores no higher.
   */
  lemma {:induction false} CutKeepsBest(s: seq<real>, xs: seq<nat>, c: nat, m: nat, j: nat)
    requires Ranked(s, xs) && (forall x: nat :: x in xs <==> x < |s|)
    requires c <= |xs| && m < |s| && m !in xs[..c] && j < c
    ensures Before(s, xs[j], m) && s[xs[j]] >= s[m]
  {
    assert m in xs;
    var p :| 0 <= p < |xs| && xs[p] == m;
    assert forall t :: 0 <= t < c ==> xs[t] == xs[..c][t];
    assert p >= c;
  }
}
