/**
 * The Proposal record of proposals/models.py and the record store behind the
 * Django ORM, as a value: a map from primary key to record, the order in which
 * a query lists records, and the next key the store will assign.
 */
module Models {
  import opened Seqs
  import opened FlatL2

  datatype Option<T> = None | Some(value: T)

  /** The size of the embedding column (proposals/models.py:18-23). */
  const EmbeddingDim: nat := 384

  /** One row. `id` is None until the record is saved for the first time. */
  datatype Proposal = Proposal(
    id: Option<nat>,
    projectTitle: string,
    projectDescription: string,
    requirements: string,
    budget: string,
    timeline: string,
    clientName: string,
    generatedProposal: string,
    embedding: Option<Vector>)

  /** A present embedding has the configured dimension. */
  predicate WellFormedEmbedding(p: Proposal)
  {
    p.embedding.Some? ==> |p.embedding.value| == EmbeddingDim
  }

  /** Key `k` names a record that has an embedding. */
  predicate Embedded(records: map<nat, Proposal>, k: nat)
  {
    k in records && records[k].embedding.Some?
  }

  function EmbeddedIn(records: map<nat, Proposal>): nat -> bool
  {
    (k: nat) => Embedded(records, k)
  }

  datatype Store = Store(records: map<nat, Proposal>, order: seq<nat>, nextId: nat) {

    ghost predicate Valid()
    {
      && (forall k :: k in records ==> records[k].id == Some(k) && k < nextId && WellFormedEmbedding(records[k]))
      && (forall k :: k in records <==> k in order)
      && Distinct(order)
    }

    /** `Proposal.objects.get(id=k)`: None stands for DoesNotExist. */
    function Get(k: nat): (r: Option<Proposal>)
      requires Valid()
      ensures r.Some? <==> k in order
      ensures r.Some? ==> r.value.id == Some(k)
      ensures k in records ==> r == Some(records[k])
    {
      if k in records then Some(records[k]) else None
    }

    /** Keys of `Proposal.objects.exclude(embedding__isnull=True)`, in query order. */
    function EmbeddedIds(): seq<nat>
    {
      Filter(order, EmbeddedIn(records))
    }

    /** The records of that query, in the same order. */
    function EmbeddedRecords(): (rs: seq<Proposal>)
      requires Valid()
      ensures |rs| == |EmbeddedIds()|
      ensures forall i :: 0 <= i < |rs| ==> rs[i].id.Some? && rs[i].embedding.Some? && |rs[i].embedding.value| == EmbeddingDim
    {
      var ids := EmbeddedIds();
      seq(|ids|, i requires 0 <= i < |ids| => records[ids[i]])
    }

    /**
     * `proposal.save()`: an unsaved record gets the next key and goes first in
     * query order (newest first, `Meta.ordering = ['-created_at']`); a record
     * with a key replaces the stored one, or is inserted under that key.
     */
    function Save(p: Proposal): (result: (Store, Proposal))
      requires Valid()
      requires WellFormedEmbedding(p)
      ensures var (s, saved) := result;
        && s.Valid()
        && saved.id.Some?
        && saved == p.(id := saved.id)
        && (p.id.Some? ==> saved.id == p.id)
        && (p.id.None? ==> saved.id.value !in records)
        && s.records == records[saved.id.value := saved]
        && s.order == (if saved.id.value in records then order else [saved.id.value] + order)
    {
      match p.id
      case None =>
        var k := nextId;
        var saved := p.(id := Some(k));
        (Store(records[k := saved], [k] + order, nextId + 1), saved)
      case Some(k) =>
        if k in records then (Store(records[k := p], order, nextId), p)
        else (Store(records[k := p], [k] + order, if k < nextId then nextId else k + 1), p)
    }
  }

  function IdsOf(rs: seq<Proposal>): seq<nat>
    requires forall i :: 0 <= i < |rs| ==> rs[i].id.Some?
  {
    seq(|rs|, i requires 0 <= i < |rs| => rs[i].id.value)
  }

  function EmbeddingsOf(rs: seq<Proposal>): seq<Vector>
    requires forall i :: 0 <= i < |rs| ==> rs[i].embedding.Some?
  {
    seq(|rs|, i requires 0 <= i < |rs| => rs[i].embedding.value)
  }

  /**
   * The embedded records, listed: their keys are the keys of exactly the
   * embedded records, each once, in query order, and position i pairs the key
   * with that record's embedding.
   */
  lemma EmbeddedRecordsListing(s: Store)
    requires s.Valid()
    ensures var rs := s.EmbeddedRecords();
      && IdsOf(rs) == s.EmbeddedIds()
      && (forall k :: k in IdsOf(rs) <==> k in s.records && s.records[k].embedding.Some?)
      && Distinct(IdsOf(rs))
      && IsSubseq(IdsOf(rs), s.order)
      && (forall i :: 0 <= i < |rs| ==> s.records[IdsOf(rs)[i]].embedding == Some(EmbeddingsOf(rs)[i]))
  {
    var rs := s.EmbeddedRecords();
    var ids := s.EmbeddedIds();
    assert IdsOf(rs) == ids;
    FilterDistinct(s.order, EmbeddedIn(s.records));
    FilterIsSubseq(s.order, EmbeddedIn(s.records));
    forall k | k in s.records && s.records[k].embedding.Some? ensures k in ids {
      var i :| 0 <= i < |s.order| && s.order[i] == k;
      assert EmbeddedIn(s.records)(s.order[i]);
    }
  }

  /** A key is among the embedded keys exactly when its record has an embedding. */
  lemma EmbeddedIdsExactly(s: Store)
    requires s.Valid()
    ensures forall k :: k in s.EmbeddedIds() <==> Embedded(s.records, k)
  {
    forall k | Embedded(s.records, k) ensures k in s.EmbeddedIds() {
      var i :| 0 <= i < |s.order| && s.order[i] == k;
      assert EmbeddedIn(s.records)(s.order[i]);
    }
    forall k | k in s.EmbeddedIds() ensures Embedded(s.records, k) {
      var ids := s.EmbeddedIds();
      var i :| 0 <= i < |ids| && ids[i] == k;
      assert EmbeddedIn(s.records)(ids[i]);
    }
  }

  /** Saving a record with an embedding makes its key one of the embedded keys; all other keys keep their status. */
  lemma SaveEmbedded(s: Store, p: Proposal)
    requires s.Valid() && WellFormedEmbedding(p) && p.embedding.Some?
    ensures var (s', saved) := s.Save(p);
      && saved.id.value in s'.EmbeddedIds()
      && (forall k :: k != saved.id.value ==> (k in s'.EmbeddedIds() <==> k in s.EmbeddedIds()))
  {
    var result := s.Save(p);
    var s', saved := result.0, result.1;
    EmbeddedIdsExactly(s);
    EmbeddedIdsExactly(s');
    assert Embedded(s'.records, saved.id.value);
    forall k | k != saved.id.value ensures Embedded(s'.records, k) == Embedded(s.records, k) {
      assert k in s'.records <==> k in s.records;
    }
  }

  /** Extending the listed records by one extends both lists by one entry. */
  lemma ListsSnoc(rs: seq<Proposal>, r: Proposal)
    requires forall i :: 0 <= i < |rs| ==> rs[i].id.Some? && rs[i].embedding.Some?
    requires r.id.Some? && r.embedding.Some?
    ensures IdsOf(rs + [r]) == IdsOf(rs) + [r.id.value]
    ensures EmbeddingsOf(rs + [r]) == EmbeddingsOf(rs) + [r.embedding.value]
  {
    assert forall i :: 0 <= i < |rs| ==> (rs + [r])[i] == rs[i];
  }
}
