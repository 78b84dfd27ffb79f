/** Sequence identities, kept apart so that proofs about larger functions do not
    have to find them. */
module Seqs {
  ghost predicate Distinct(s: seq<nat>) {
    forall x, y :: 0 <= x < y < |s| ==> s[x] != s[y]
  }

  lemma ConcatCut<T>(b: seq<T>, c: seq<T>, n: nat)
    requires n <= |b|
    ensures (b + c)[n..] == b[n..] + c && (b + c)[..n] == b[..n]
  {
  }

  lemma ConcatAt<T>(b: seq<T>, c: seq<T>)
    ensures (b + c)[..|b|] == b && (b + c)[|b|..] == c
  {
  }

  lemma Regroup<T>(a: seq<T>, b: seq<T>, c: seq<T>)
    ensures a + (b + c) == (a + b) + c
  {
  }

  lemma Units<T>(a: seq<T>)
    ensures a + [] == a && [] + a == a && a[0..] == a && a[..|a|] == a && a[..0] == [] && a[|a|..] == []
  {
  }

  /** Cutting at n + m is cutting at n and then at m. */
  lemma CutTwice<T>(b: seq<T>, n: nat, m: nat)
    requires n + m <= |b|
    ensures b[n + m..] == b[n..][m..]
    ensures b[..n + m][n..] == b[n..][..m]
    ensures b[..n + m] == b[..n] + b[n..][..m]
    ensures b[..n + m][..n] == b[..n]
    ensures b[n..n + m] == b[n..][..m]
  {
  }

  lemma Whole<T>(b: seq<T>, n: nat)
    requires n <= |b|
    ensures b == b[..n] + b[n..]
  {
  }

  lemma PartSlice<T>(b: seq<T>, i: nat, j: nat, p: nat, q: nat)
    requires i <= j <= |b| && p <= q <= j - i
    ensures b[i + p..i + q] == b[i..j][p..q]
  {
    var c, d := b[i + p..i + q], b[i..j][p..q];
    assert |c| == |d|;
    forall k | 0 <= k < |c| ensures c[k] == d[k] {}
  }

  /** Equal slices have equal parts. */
  lemma SubSlice<T>(b: seq<T>, i: nat, c: seq<T>, x: nat, len: nat, p: nat, q: nat)
    requires i + len <= |b| && x + len <= |c| && b[i..i + len] == c[x..x + len] && p <= q <= len
    ensures b[i + p..i + q] == c[x + p..x + q]
  {
    PartSlice(b, i, i + len, p, q);
    PartSlice(c, x, x + len, p, q);
  }

  lemma CutAt<T>(b: seq<T>, i: nat, c: seq<T>, p: nat, q: nat)
    requires i + |c| <= |b| && b[i..i + |c|] == c && p <= q <= |c|
    ensures b[i + p..i + q] == c[p..q]
  {
    PartSlice(b, i, i + |c|, p, q);
  }

  /** What agrees before h, or from h on, agrees on every slice there. */
  lemma KeptBefore<T>(b: seq<T>, c: seq<T>, h: nat, x: nat, y: nat)
    requires h <= |b| && h <= |c| && b[..h] == c[..h] && x <= y <= h
    ensures b[x..y] == c[x..y]
  {
    PartSlice(b, 0, h, x, y);
    PartSlice(c, 0, h, x, y);
  }

  lemma KeptAfter<T>(b: seq<T>, c: seq<T>, h: nat, x: nat, y: nat)
    requires |b| == |c| && h <= x <= y <= |b| && b[h..] == c[h..]
    ensures b[x..y] == c[x..y]
  {
    PartSlice(b, h, |b|, x - h, y - h);
    PartSlice(c, h, |c|, x - h, y - h);
  }

  lemma Later<T>(b: seq<T>, c: seq<T>, h: nat, k: nat)
    requires |b| == |c| && h <= k <= |b| && b[h..] == c[h..]
    ensures b[k..] == c[k..]
  {
    KeptAfter(b, c, h, k, |b|);
  }

  lemma KeptPrefix<T>(b: seq<T>, c: seq<T>, h: nat, k: nat)
    requires h <= |b| && h <= |c| && b[..h] == c[..h] && k <= h
    ensures b[..k] == c[..k]
  {
    KeptBefore(b, c, h, 0, k);
  }

  lemma JoinSlices<T>(b: seq<T>, i: nat, m: nat, j: nat)
    requires i <= m <= j <= |b|
    ensures b[i..j] == b[i..m] + b[m..j]
  {
  }

  lemma HeadAndTail<T>(s: seq<T>, k: nat, m: nat)
    requires k + 1 + m <= |s|
    ensures s[k + 1 + m..] == s[k + 1..][m..] && s[k..k + 1 + m] == [s[k]] + s[k + 1..][..m]
  {
  }

  lemma Regroup4<T>(x: seq<T>, a: seq<T>, b: seq<T>, c: seq<T>)
    ensures x + (a + b + c) == (x + a) + b + c
  {
  }
}
