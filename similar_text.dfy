/**
 * PHP's `similar_text`, which the fuzzy matcher uses to compare addresses.
 *
 * The algorithm finds the first longest common substring of the two strings (scanning
 * start positions of the first string, then of the second, and keeping a new candidate
 * only when it is strictly longer), counts its length, and recurses on the parts to
 * its left and to its right. The left recursion only happens when both left parts are
 * non-empty AND more than one improvement was seen during the scan; that last
 * condition is part of PHP's implementation and is kept here.
 */
module SimilarText {

  /** Length of the common run of `s1` from `p` and `s2` from `q`. */
  function RunLength(s1: string, s2: string, p: nat, q: nat): (l: nat)
    requires p <= |s1| && q <= |s2|
    ensures p + l <= |s1| && q + l <= |s2|
    ensures s1[p..p + l] == s2[q..q + l]
    ensures p + l < |s1| && q + l < |s2| ==> s1[p + l] != s2[q + l]
    decreases |s1| - p
  {
    if p < |s1| && q < |s2| && s1[p] == s2[q] then
      var l := RunLength(s1, s2, p + 1, q + 1);
      assert s1[p..p + 1 + l] == [s1[p]] + s1[p + 1..p + 1 + l];
      assert s2[q..q + 1 + l] == [s2[q]] + s2[q + 1..q + 1 + l];
      1 + l
    else 0
  }

  /** The scan state: where the best run starts, its length, and how often it improved. */
  datatype Best = Best(pos1: nat, pos2: nat, max: nat, count: nat)

  /** `b` describes a common run of `s1` and `s2` (or nothing yet). */
  predicate IsRun(s1: string, s2: string, b: Best) {
    b.pos1 + b.max <= |s1| && b.pos2 + b.max <= |s2| &&
    s1[b.pos1..b.pos1 + b.max] == s2[b.pos2..b.pos2 + b.max] &&
    (b.max > 0 ==> b.count > 0)
  }

  /** The inner loop, over the start positions `q..` of `s2`. */
  function ScanQ(s1: string, s2: string, p: nat, q: nat, b: Best): (r: Best)
    requires p < |s1| && q <= |s2| && IsRun(s1, s2, b)
    ensures IsRun(s1, s2, r)
    ensures r.max >= b.max && r.count >= b.count
    ensures r.max == b.max ==> r == b
    ensures forall j :: q <= j < |s2| ==> RunLength(s1, s2, p, j) <= r.max
    decreases |s2| - q
  {
    if q == |s2| then b
    else
      var l := RunLength(s1, s2, p, q);
      ScanQ(s1, s2, p, q + 1, if l > b.max then Best(p, q, l, b.count + 1) else b)
  }

  /** The outer loop, over the start positions `p..` of `s1`. */
  function ScanP(s1: string, s2: string, p: nat, b: Best): (r: Best)
    requires p <= |s1| && IsRun(s1, s2, b)
    ensures IsRun(s1, s2, r)
    ensures r.max >= b.max && r.count >= b.count
    ensures r.max == b.max ==> r == b
    ensures forall i, j :: p <= i < |s1| && 0 <= j < |s2| ==> RunLength(s1, s2, i, j) <= r.max
    decreases |s1| - p
  {
    if p == |s1| then b else ScanP(s1, s2, p + 1, ScanQ(s1, s2, p, 0, b))
  }

  /** The first longest common substring; every common run is at most that long. */
  function FirstLongest(s1: string, s2: string): (r: Best)
    ensures IsRun(s1, s2, r)
    ensures forall i, j :: 0 <= i < |s1| && 0 <= j < |s2| ==> RunLength(s1, s2, i, j) <= r.max
    ensures r.max == 0 ==> r == Best(0, 0, 0, 0)
  {
    ScanP(s1, s2, 0, Best(0, 0, 0, 0))
  }

  /** The number of matching characters `similar_text` returns. */
  function Similar(s1: string, s2: string): (sim: nat)
    ensures sim <= |s1| && sim <= |s2|
    decreases |s1| + |s2|
  {
    var b := FirstLongest(s1, s2);
    if b.max == 0 then 0
    else
      var left := if b.pos1 > 0 && b.pos2 > 0 && b.count > 1
        then Similar(s1[..b.pos1], s2[..b.pos2]) else 0;
      var right := if b.pos1 + b.max < |s1| && b.pos2 + b.max < |s2|
        then Similar(s1[b.pos1 + b.max..], s2[b.pos2 + b.max..]) else 0;
      b.max + left + right
  }

  /**
   * The percentage `similar_text` writes to its third argument, divided by 100 as the
   * caller does: twice the matching characters over the total length, 0 for two empty
   * strings. (The factors 100 cancel exactly on reals.)
   */
  function SimilarityRatio(s1: string, s2: string): (r: real)
    ensures 0.0 <= r <= 1.0
    ensures r == 0.0 <==> Similar(s1, s2) == 0
  {
    if |s1| + |s2| == 0 then 0.0
    else
      var sim := Similar(s1, s2);
      FractionBounds(2 * sim, |s1| + |s2|);
      (2 * sim) as real / (|s1| + |s2|) as real
  }

  lemma FractionBounds(x: nat, d: nat)
    requires 0 < d && x <= d
    ensures 0.0 <= x as real / d as real <= 1.0
    ensures x as real / d as real == 0.0 <==> x == 0
  {
    var f := x as real / d as real;
    assert f * d as real == x as real;
  }

  /** Once the best run is as long as `s1`, no start position can improve it. */
  lemma {:induction false} ScanQFull(s1: string, s2: string, p: nat, q: nat, b: Best)
    requires p < |s1| && q <= |s2| && IsRun(s1, s2, b) && b.max >= |s1|
    ensures ScanQ(s1, s2, p, q, b) == b
    decreases |s2| - q
  {
    if q < |s2| {
      ScanQFull(s1, s2, p, q + 1, b);
    }
  }

  lemma {:induction false} ScanPFull(s1: string, s2: string, p: nat, b: Best)
    requires p <= |s1| && IsRun(s1, s2, b) && b.max >= |s1|
    ensures ScanP(s1, s2, p, b) == b
    decreases |s1| - p
  {
    if p < |s1| {
      ScanQFull(s1, s2, p, 0, b);
      ScanPFull(s1, s2, p + 1, b);
    }
  }

  /** A string compared with itself: the first run found is the whole string. */
  lemma SimilarSelf(s: string)
    ensures Similar(s, s) == |s|
  {
    if s != [] {
      var l := RunLength(s, s, 0, 0);
      assert l == |s|;
      var b1 := Best(0, 0, |s|, 1);
      assert ScanQ(s, s, 0, 0, Best(0, 0, 0, 0)) == ScanQ(s, s, 0, 1, b1);
      ScanQFull(s, s, 0, 1, b1);
      ScanPFull(s, s, 1, b1);
      assert FirstLongest(s, s) == b1;
    }
  }

  /** Identical non-empty addresses have similarity 1. */
  lemma SimilarityRatioSelf(s: string)
    requires s != []
    ensures SimilarityRatio(s, s) == 1.0
  {
    SimilarSelf(s);
  }

  lemma RunHead(s1: string, s2: string, b: Best)
    requires IsRun(s1, s2, b) && b.max > 0
    ensures s1[b.pos1] == s2[b.pos2]
  {
    assert s1[b.pos1] == s1[b.pos1..b.pos1 + b.max][0];
    assert s2[b.pos2] == s2[b.pos2..b.pos2 + b.max][0];
  }

  /** Strings with no character in common have similarity 0. */
  lemma SimilarDisjoint(s1: string, s2: string)
    requires forall i, j :: 0 <= i < |s1| && 0 <= j < |s2| ==> s1[i] != s2[j]
    ensures Similar(s1, s2) == 0
  {
    var b := FirstLongest(s1, s2);
    if b.max > 0 {
      RunHead(s1, s2, b);
      assert false;
    }
  }
}
