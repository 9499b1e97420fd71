/**
 * What `find_similar_proposals` does with the labels a search returns
 * (proposals/ai_service.py:54-64). Its only guard is `idx < len(proposal_ids)`,
 * and `proposal_ids[idx]` is Python indexing, where a negative label counts
 * from the end (-1 is the last key). A label that passes the guard and names
 * a key that is still stored yields that record; any other label is skipped.
 */
module Retrieval {
  import opened Seqs
  import opened FlatL2
  import opened Models

  /** The position Python's `xs[p]` reads, for a list of length n. */
  function PyIndex(n: int, p: int): int
  {
    if p < 0 then n + p else p
  }

  /** Python's `ids[p]`, for -len(ids) <= p < len(ids). */
  function PyAt(ids: seq<nat>, p: int): (k: nat)
    requires -|ids| <= p < |ids|
    ensures 0 <= p ==> k == ids[p]
    ensures p < 0 ==> k == ids[|ids| + p]
  {
    ids[PyIndex(|ids|, p)]
  }

  /**
   * Label `p` resolves: it passes the guard, Python's `ids[p]` is defined, and
   * the key there is still stored. A label below -len(ids) would make Python
   * raise IndexError; it counts as a miss here, and no search yields one.
   */
  predicate Live(ids: seq<nat>, records: map<nat, Proposal>, p: int)
  {
    -|ids| <= p < |ids| && PyAt(ids, p) in records
  }

  function LiveIn(ids: seq<nat>, records: map<nat, Proposal>): int -> bool
  {
    p => Live(ids, records, p)
  }

  /** The labels that resolve, in search order. */
  function Hits(ids: seq<nat>, records: map<nat, Proposal>, labels: seq<int>): seq<int>
  {
    Filter(labels, LiveIn(ids, records))
  }

  /** The records the lookup loop collects for `labels`, one per resolving label. */
  function Resolve(ids: seq<nat>, records: map<nat, Proposal>, labels: seq<int>): (r: seq<Proposal>)
    ensures |r| <= |labels|
    ensures forall i :: 0 <= i < |r| ==> r[i] in records.Values
    decreases |labels|
  {
    if labels == [] then []
    else
      var p := labels[|labels| - 1];
      Resolve(ids, records, labels[..|labels| - 1]) + (if Live(ids, records, p) then [records[PyAt(ids, p)]] else [])
  }

  /** Resolve pairs its i-th record with the i-th resolving label. */
  lemma {:induction false} ResolveAtHits(ids: seq<nat>, records: map<nat, Proposal>, labels: seq<int>)
    ensures |Resolve(ids, records, labels)| == |Hits(ids, records, labels)|
    ensures forall i :: 0 <= i < |Hits(ids, records, labels)| ==>
      Live(ids, records, Hits(ids, records, labels)[i]) &&
      Resolve(ids, records, labels)[i] == records[PyAt(ids, Hits(ids, records, labels)[i])]
    decreases |labels|
  {
    var h := Hits(ids, records, labels);
    forall i | 0 <= i < |h| ensures Live(ids, records, h[i]) {
      assert LiveIn(ids, records)(h[i]);
    }
    if labels != [] {
      var init := labels[..|labels| - 1];
      ResolveAtHits(ids, records, init);
    }
  }

  /**
   * The lookup never drops a resolving label: it returns a record for every
   * label exactly when every label resolves.
   */
  lemma ResolveLosesOnlyMisses(ids: seq<nat>, records: map<nat, Proposal>, labels: seq<int>)
    ensures |Resolve(ids, records, labels)| <= |labels|
    ensures |Resolve(ids, records, labels)| == |labels| <==> forall i :: 0 <= i < |labels| ==> Live(ids, records, labels[i])
  {
    ResolveAtHits(ids, records, labels);
    FilterKeepsAll(labels, LiveIn(ids, records));
    var h := Hits(ids, records, labels);
    if |h| == |labels| {
      FilterIsSubseq(labels, LiveIn(ids, records));
      SubseqOfSameLength(h, labels);
    }
  }

  /**
   * Skipping misses keeps the search order: the resolving labels are a
   * subsequence of the labels, and if the labels are nearest first, so are they.
   */
  lemma {:induction false} HitsKeepRanking(vs: seq<Vector>, q: Vector, ids: seq<nat>, records: map<nat, Proposal>, labels: seq<int>)
    ensures IsSubseq(Hits(ids, records, labels), labels)
    ensures SortedByDist(vs, q, labels) ==> SortedByDist(vs, q, Hits(ids, records, labels))
    decreases |labels|
  {
    FilterIsSubseq(labels, LiveIn(ids, records));
    if labels != [] && SortedByDist(vs, q, labels) {
      var init := labels[..|labels| - 1];
      assert SortedByDist(vs, q, init) by {
        forall i, j | 0 <= i < j < |init| ensures Dist(vs, q, init[i]) <= Dist(vs, q, init[j]) {
          assert init[i] == labels[i] && init[j] == labels[j];
        }
      }
      HitsKeepRanking(vs, q, ids, records, init);
      LastHitKeepsRanking(vs, q, ids, records, labels);
    }
  }

  /** The step for the last label: a kept last label is at least as far as every label before it. */
  lemma LastHitKeepsRanking(vs: seq<Vector>, q: Vector, ids: seq<nat>, records: map<nat, Proposal>, labels: seq<int>)
    requires labels != [] && SortedByDist(vs, q, labels)
    requires SortedByDist(vs, q, Hits(ids, records, labels[..|labels| - 1]))
    ensures SortedByDist(vs, q, Hits(ids, records, labels))
  {
    var init, last := labels[..|labels| - 1], labels[|labels| - 1];
    var hi, h := Hits(ids, records, init), Hits(ids, records, labels);
    if LiveIn(ids, records)(last) {
      assert h == hi + [last];
      forall i | 0 <= i < |hi| ensures Dist(vs, q, hi[i]) <= Dist(vs, q, last) {
        assert hi[i] in init;
        var t :| 0 <= t < |init| && init[t] == hi[i];
        assert labels[t] == hi[i];
      }
    } else {
      assert h == hi;
    }
  }

  /** Python indexing at work: a -1 label that reaches the lookup reads the last key. */
  lemma NegativeLabelReadsLastKey(p: Proposal)
    ensures Resolve([3, 7], map[7 := p], [-1]) == [p]
    ensures Resolve([3, 7], map[7 := p], [-3]) == []
  {
    assert Resolve([3, 7], map[7 := p], [-1]) == Resolve([3, 7], map[7 := p], []) + [p];
    assert Resolve([3, 7], map[7 := p], [-3]) == Resolve([3, 7], map[7 := p], []);
  }
}
