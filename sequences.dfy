/**
 * Concatenation of a sequence of pieces, and sums: the shapes shared by the
 * feed aggregation (per-feed lists joined with `extend`) and by the digests
 * (text grown piece by piece with `+=`).
 */
module Sequences {

  /** The pieces joined in order; defined from the back, as a loop appends. */
  function Concat<T>(ps: seq<seq<T>>): seq<T>
  {
    if ps == [] then [] else Concat(ps[..|ps| - 1]) + ps[|ps| - 1]
  }

  /** Appending one piece appends its contents. */
  lemma ConcatSnoc<T>(ps: seq<seq<T>>, p: seq<T>)
    ensures Concat(ps + [p]) == Concat(ps) + p
  {
    assert (ps + [p])[..|ps|] == ps;
  }

  /** Joining is associative over splits of the piece list. */
  lemma {:induction false} ConcatAppend<T>(a: seq<seq<T>>, b: seq<seq<T>>)
    ensures Concat(a + b) == Concat(a) + Concat(b)
    decreases |b|
  {
    if b == [] {
      assert a + b == a;
    } else {
      var b' := b[..|b| - 1];
      assert a + b == (a + b') + [b[|b| - 1]];
      ConcatSnoc(a + b', b[|b| - 1]);
      ConcatAppend(a, b');
      ConcatSnoc(b', b[|b| - 1]);
      assert b == b' + [b[|b| - 1]];
    }
  }

  /** Where piece `k` starts in the joined sequence. */
  function Offset<T>(ps: seq<seq<T>>, k: nat): nat
    requires k <= |ps|
  {
    |Concat(ps[..k])|
  }

  /** Piece `k` sits, unchanged, at its offset in the joined sequence. */
  lemma PieceAt<T>(ps: seq<seq<T>>, k: nat)
    requires k < |ps|
    ensures Offset(ps, k) + |ps[k]| <= |Concat(ps)|
    ensures Concat(ps)[Offset(ps, k)..Offset(ps, k) + |ps[k]|] == ps[k]
  {
    assert ps == ps[..k] + [ps[k]] + ps[k + 1..];
    ConcatAppend(ps[..k] + [ps[k]], ps[k + 1..]);
    ConcatSnoc(ps[..k], ps[k]);
  }

  /** Sum of a sequence of counts, from the back. */
  function Sum(xs: seq<nat>): nat
  {
    if xs == [] then 0 else Sum(xs[..|xs| - 1]) + xs[|xs| - 1]
  }

  /** Pieces no longer than the matching counts join to at most their sum, and
      to exactly their sum when every piece has its count. */
  lemma {:induction false} ConcatLengthAtMostSum<T>(ps: seq<seq<T>>, xs: seq<nat>)
    requires |ps| == |xs|
    requires forall k :: 0 <= k < |ps| ==> |ps[k]| <= xs[k]
    ensures |Concat(ps)| <= Sum(xs)
    ensures (forall k :: 0 <= k < |ps| ==> |ps[k]| == xs[k]) ==> |Concat(ps)| == Sum(xs)
  {
    if ps != [] {
      var n := |ps|;
      assert forall k :: 0 <= k < n - 1 ==> ps[..n - 1][k] == ps[k] && xs[..n - 1][k] == xs[k];
      ConcatLengthAtMostSum(ps[..n - 1], xs[..n - 1]);
    }
  }

  /** Pieces of length at most `m` join to at most `m` per piece. */
  lemma {:induction false} ConcatBound<T>(ps: seq<seq<T>>, m: nat)
    requires forall k :: 0 <= k < |ps| ==> |ps[k]| <= m
    ensures |Concat(ps)| <= m * |ps|
  {
    if ps != [] {
      var n := |ps|;
      assert forall k :: 0 <= k < n - 1 ==> ps[..n - 1][k] == ps[k];
      ConcatBound(ps[..n - 1], m);
      assert m * (n - 1) + m == m * n;
    }
  }

  /** Pieces that all have length `m` join to `m` per piece. */
  lemma {:induction false} ConcatUniform<T>(ps: seq<seq<T>>, m: nat)
    requires forall k :: 0 <= k < |ps| ==> |ps[k]| == m
    ensures |Concat(ps)| == m * |ps|
  {
    if ps != [] {
      var n := |ps|;
      assert forall k :: 0 <= k < n - 1 ==> ps[..n - 1][k] == ps[k];
      ConcatUniform(ps[..n - 1], m);
      assert m * (n - 1) + m == m * n;
    }
  }

  /** `t` occurs in `s` starting at position `p`. */
  predicate OccursAt<T(==)>(s: seq<T>, p: nat, t: seq<T>) {
    p + |t| <= |s| && s[p..p + |t|] == t
  }

  /** A slice of a slice is a slice. */
  lemma SliceOfSlice<T>(s: seq<T>, a: nat, b: nat, c: nat, d: nat)
    requires a <= b <= |s| && c <= d <= b - a
    ensures s[a..b][c..d] == s[a + c..a + d]
  {
    assert |s[a..b][c..d]| == d - c == |s[a + c..a + d]|;
    forall x | 0 <= x < d - c ensures s[a..b][c..d][x] == s[a + c..a + d][x] {
      assert s[a..b][c..d][x] == s[a + c + x];
    }
  }
}
