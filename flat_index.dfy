/**
 * An exact ("flat") nearest-neighbour index under squared Euclidean distance,
 * the role faiss.IndexFlatL2 plays in proposals/ai_service.py. Vectors are
 * integer sequences, so distances are exact. An index holds its vectors in
 * insertion order; the position of a vector is its label.
 */
module FlatL2 {
  import opened Seqs

  type Vector = seq<int>

  /** Squared L2 distance (over the common length; callers pass equal lengths). */
  function SqDist(a: Vector, b: Vector): int
    decreases |a|
  {
    if a == [] || b == [] then 0
    else (a[0] - b[0]) * (a[0] - b[0]) + SqDist(a[1..], b[1..])
  }

  /** Distance from the query to the vector at label `p`. */
  function Dist(vs: seq<Vector>, q: Vector, p: int): int
  {
    if 0 <= p < |vs| then SqDist(vs[p], q) else 0
  }

  ghost predicate InRange(vs: seq<Vector>, labels: seq<int>)
  {
    forall i :: 0 <= i < |labels| ==> 0 <= labels[i] < |vs|
  }

  /** Labels in non-decreasing distance from `q`. */
  ghost predicate SortedByDist(vs: seq<Vector>, q: Vector, labels: seq<int>)
  {
    forall i, j :: 0 <= i < j < |labels| ==> Dist(vs, q, labels[i]) <= Dist(vs, q, labels[j])
  }

  /** Label `p` is no closer to `q` than any of `labels`. */
  ghost predicate Beyond(vs: seq<Vector>, q: Vector, labels: seq<int>, p: int)
  {
    forall i :: 0 <= i < |labels| ==> Dist(vs, q, labels[i]) <= Dist(vs, q, p)
  }

  /**
   * `labels` is a valid answer of an exact k-nearest search for |labels|
   * neighbours: distinct labels of stored vectors, nearest first, and no stored
   * vector left out is nearer than one taken. The order among equal distances
   * is left open.
   */
  ghost predicate IsRanking(vs: seq<Vector>, q: Vector, labels: seq<int>)
  {
    && InRange(vs, labels)
    && Distinct(labels)
    && SortedByDist(vs, q, labels)
    && (forall p :: 0 <= p < |vs| && p !in labels ==> Beyond(vs, q, labels, p))
  }

  /** Inserts label `x` after every label at most as far away. */
  function InsertByDist(vs: seq<Vector>, q: Vector, labels: seq<int>, x: int): (r: seq<int>)
    ensures |r| == |labels| + 1
    ensures forall y :: y in r <==> y in labels || y == x
    ensures SortedByDist(vs, q, labels) ==> SortedByDist(vs, q, r)
    ensures Distinct(labels) && x !in labels ==> Distinct(r)
    decreases |labels|
  {
    if labels == [] then [x]
    else if Dist(vs, q, x) < Dist(vs, q, labels[0]) then [x] + labels
    else
      var rest := InsertByDist(vs, q, labels[1..], x);
      assert Distinct(labels) ==> Distinct(labels[1..]) && labels[0] !in labels[1..] by {
        if Distinct(labels) {
          forall i | 0 <= i < |labels| - 1 ensures labels[1..][i] != labels[0] { assert labels[1..][i] == labels[i + 1]; }
        }
      }
      assert SortedByDist(vs, q, labels) ==> SortedByDist(vs, q, [labels[0]] + rest) by {
        if SortedByDist(vs, q, labels) {
          assert SortedByDist(vs, q, labels[1..]) by {
            forall i, j | 0 <= i < j < |labels| - 1
              ensures Dist(vs, q, labels[1..][i]) <= Dist(vs, q, labels[1..][j])
            {
              assert labels[1..][i] == labels[i + 1] && labels[1..][j] == labels[j + 1];
            }
          }
          forall j | 0 <= j < |rest| ensures Dist(vs, q, labels[0]) <= Dist(vs, q, rest[j]) {
            assert rest[j] in rest;
            if rest[j] != x {
              var t :| 0 <= t < |labels[1..]| && labels[1..][t] == rest[j];
              assert labels[1..][t] == labels[t + 1];
            }
          }
        }
      }
      [labels[0]] + rest
  }

  class FlatIndex {
    const dimension: nat
    var vectors: seq<Vector>

    ghost predicate Valid()
      reads this
    {
      forall i :: 0 <= i < |vectors| ==> |vectors[i]| == dimension
    }

    /** faiss' `ntotal`. */
    function NTotal(): nat
      reads this
    {
      |vectors|
    }

    constructor (d: nat)
      ensures Valid()
      ensures dimension == d && vectors == []
    {
      dimension := d;
      vectors := [];
    }

    /** Appends a batch of vectors; each gets the next free label. */
    method Add(xs: seq<Vector>)
      requires Valid()
      requires forall i :: 0 <= i < |xs| ==> |xs[i]| == dimension
      modifies this
      ensures Valid()
      ensures vectors == old(vectors) + xs
    {
      vectors := vectors + xs;
    }

    /**
     * Exact k-nearest search by a full scan. The first min(k, ntotal) labels
     * rank the stored vectors; the remaining slots hold -1, as faiss fills
     * them when fewer than k vectors are stored.
     */
    method Search(query: Vector, k: int) returns (labels: seq<int>)
      requires Valid()
      requires |query| == dimension
      requires k > 0
      ensures |labels| == k
      ensures IsRanking(vectors, query, labels[..Min(k, |vectors|)])
      ensures forall i :: Min(k, |vectors|) <= i < k ==> labels[i] == -1
    {
      var top: seq<int> := [];
      var j := 0;
      while j < |vectors|
        invariant 0 <= j <= |vectors|
        invariant |top| == Min(k, j)
        invariant forall i :: 0 <= i < |top| ==> 0 <= top[i] < j
        invariant Distinct(top)
        invariant SortedByDist(vectors, query, top)
        invariant forall p :: 0 <= p < j && p !in top ==> |top| == k && Beyond(vectors, query, top, p)
      {
        var ins := InsertByDist(vectors, query, top, j);
        var next := if |ins| > k then ins[..k] else ins;
        KeepNearest(vectors, query, top, j, k, ins, next);
        top := next;
        j := j + 1;
      }
      labels := top + seq(k - |top|, _ => -1);
      assert labels[..Min(k, |vectors|)] == top;
    }
  }

  /** One step of the scan: inserting label `j` and cutting back to `k` keeps the k nearest of 0..j. */
  lemma KeepNearest(vs: seq<Vector>, q: Vector, top: seq<int>, j: int, k: int, ins: seq<int>, next: seq<int>)
    requires 0 <= j && k > 0
    requires |top| == Min(k, j)
    requires forall i :: 0 <= i < |top| ==> 0 <= top[i] < j
    requires Distinct(top)
    requires SortedByDist(vs, q, top)
    requires forall p :: 0 <= p < j && p !in top ==> |top| == k && Beyond(vs, q, top, p)
    requires ins == InsertByDist(vs, q, top, j)
    requires next == if |ins| > k then ins[..k] else ins
    ensures |next| == Min(k, j + 1)
    ensures forall i :: 0 <= i < |next| ==> 0 <= next[i] < j + 1
    ensures Distinct(next)
    ensures SortedByDist(vs, q, next)
    ensures forall p :: 0 <= p < j + 1 && p !in next ==> |next| == k && Beyond(vs, q, next, p)
  {
    assert j !in top;
    assert next == ins[..|next|];
    PrefixKeepsOrder(vs, q, ins, |next|);
    forall i | 0 <= i < |next| ensures 0 <= next[i] < j + 1 {
      assert next[i] == ins[i] && ins[i] in ins;
    }
    forall p | 0 <= p < j + 1 && p !in next
      ensures |next| == k && Beyond(vs, q, next, p)
    {
      if p in ins {
        CutOffIsBeyond(vs, q, ins, k, p);
      } else {
        assert p !in top && p != j;
        OutsideIsBeyond(vs, q, top, j, k, ins, p);
      }
    }
  }

  /** A prefix of a distinct, distance-sorted list is distinct and distance-sorted. */
  lemma PrefixKeepsOrder(vs: seq<Vector>, q: Vector, s: seq<int>, n: nat)
    requires n <= |s|
    requires Distinct(s) && SortedByDist(vs, q, s)
    ensures Distinct(s[..n]) && SortedByDist(vs, q, s[..n])
  {
    forall i, i' | 0 <= i < i' < n ensures s[..n][i] != s[..n][i'] && Dist(vs, q, s[..n][i]) <= Dist(vs, q, s[..n][i']) {
      assert s[..n][i] == s[i] && s[..n][i'] == s[i'];
    }
  }

  /** The label cut off at position k is at least as far as each of the k kept before it. */
  lemma CutOffIsBeyond(vs: seq<Vector>, q: Vector, ins: seq<int>, k: int, p: int)
    requires 0 < k && |ins| <= k + 1
    requires Distinct(ins) && SortedByDist(vs, q, ins)
    requires p in ins
    requires p !in (if |ins| > k then ins[..k] else ins)
    ensures |ins| > k && Beyond(vs, q, ins[..k], p)
  {
    var idx :| 0 <= idx < |ins| && ins[idx] == p;
    assert |ins| > k;
    assert forall i :: 0 <= i < k ==> ins[..k][i] == ins[i];
    assert idx == k;
  }

  /**
   * A label left out both before and after inserting `j` is at least as far
   * as every kept label: beyond the old top k, and the new label only
   * displaces one at least as far.
   */
  lemma OutsideIsBeyond(vs: seq<Vector>, q: Vector, top: seq<int>, j: int, k: int, ins: seq<int>, p: int)
    requires k > 0 && |top| == k
    requires j !in top && p != j && p !in top
    requires Distinct(top) && SortedByDist(vs, q, top)
    requires Beyond(vs, q, top, p)
    requires ins == InsertByDist(vs, q, top, j)
    ensures Beyond(vs, q, ins[..k], p)
  {
    var last := ins[k];
    assert last in ins;
    forall i | 0 <= i < k ensures Dist(vs, q, ins[..k][i]) <= Dist(vs, q, p) {
      var x := ins[..k][i];
      assert x == ins[i] && x in ins;
      if x == j {
        assert last != j && last in top;
        var t :| 0 <= t < |top| && top[t] == last;
        assert Dist(vs, q, x) <= Dist(vs, q, last);
      } else {
        var t :| 0 <= t < |top| && top[t] == x;
      }
    }
  }

  /** A worked instance: labels 0, 1, 2 hold [0,0], [3,4], [1,0]; the two nearest to [0,0] are 0 then 2. */
  lemma TwoNearestOfThree(labels: seq<int>)
    requires IsRanking([[0, 0], [3, 4], [1, 0]], [0, 0], labels)
    requires |labels| == 2
    ensures labels == [0, 2]
  {
    var vs: seq<Vector> := [[0, 0], [3, 4], [1, 0]];
    var q: Vector := [0, 0];
    assert Dist(vs, q, 0) == 0;
    assert Dist(vs, q, 1) == 25;
    assert Dist(vs, q, 2) == 1;
    // whichever label is left out is at least as far as both taken ones
    assert 0 in labels || Beyond(vs, q, labels, 0);
    assert 1 in labels || Beyond(vs, q, labels, 1);
    assert 2 in labels || Beyond(vs, q, labels, 2);
    assert labels[0] == 0;
    assert labels[1] == 2;
  }
}
