/**
 * AIProposalService of proposals/ai_service.py: the index over stored
 * embeddings, similarity lookup, proposal generation and the write path.
 * The record store, the embedding model and the chat client are passed in:
 * the store as a value, the model as a function from text to a vector of
 * the configured dimension, the client as a function from request to
 * completion.
 */
module AiService {
  import opened Seqs
  import opened FlatL2
  import opened Models
  import opened Retrieval
  import opened Prompt

  /** A sentence-embedding model: deterministic, always of dimension 384. */
  type Embedder = f: string -> Vector | forall s :: |f(s)| == EmbeddingDim
    witness (s: string) => seq(EmbeddingDim, i => 0)

  /** `generate_embedding`: the model's vector for `text`, as a list. */
  function GenerateEmbedding(model: Embedder, text: string): (v: Vector)
    ensures |v| == EmbeddingDim
  {
    model(text)
  }

  /** Every indexed label resolves when each indexed key is still stored, so nothing is skipped. */
  lemma NoMissWhenAllStored(vs: seq<Vector>, q: Vector, ids: seq<nat>, records: map<nat, Proposal>, labels: seq<int>)
    requires IsRanking(vs, q, labels)
    requires |vs| == |ids|
    requires forall i :: 0 <= i < |ids| ==> ids[i] in records
    ensures |Resolve(ids, records, labels)| == |labels|
  {
    ResolveLosesOnlyMisses(ids, records, labels);
  }

  /**
   * What the lookup makes of a ranking of the indexed vectors: one stored
   * record per resolving label, in ranking order, each the record at the
   * label's key.
   */
  lemma ResolvedInRankOrder(vs: seq<Vector>, q: Vector, ids: seq<nat>, store: Store, labels: seq<int>)
    requires store.Valid()
    requires IsRanking(vs, q, labels) && |vs| == |ids|
    ensures var similar, hits := Resolve(ids, store.records, labels), Hits(ids, store.records, labels);
      && |similar| == |hits|
      && IsSubseq(hits, labels)
      && SortedByDist(vs, q, hits)
      && (forall i :: 0 <= i < |hits| ==> 0 <= hits[i] < |ids| && similar[i] == store.records[ids[hits[i]]])
      && (forall i :: 0 <= i < |similar| ==>
            similar[i].id.Some? && similar[i].id.value in ids && store.Get(similar[i].id.value) == Some(similar[i]))
  {
    var similar, hits := Resolve(ids, store.records, labels), Hits(ids, store.records, labels);
    ResolveAtHits(ids, store.records, labels);
    HitsKeepRanking(vs, q, ids, store.records, labels);
    forall i | 0 <= i < |hits|
      ensures 0 <= hits[i] < |ids| && similar[i] == store.records[ids[hits[i]]]
      ensures similar[i].id.Some? && similar[i].id.value in ids && store.Get(similar[i].id.value) == Some(similar[i])
    {
      assert hits[i] in labels;
      var key := ids[hits[i]];
      assert similar[i] == store.records[key];
    }
  }

  /**
   * The two lists a build makes pair up: the keys are the embedded keys in
   * query order, and position i holds the embedding of the record at key i.
   */
  lemma ListingAligned(store: Store, ids: seq<nat>, vs: seq<Vector>)
    requires store.Valid()
    requires ids == IdsOf(store.EmbeddedRecords())
    requires vs == EmbeddingsOf(store.EmbeddedRecords())
    ensures ids == store.EmbeddedIds()
    ensures |vs| == |ids|
    ensures forall i :: 0 <= i < |ids| ==> ids[i] in store.records && store.records[ids[i]].embedding == Some(vs[i])
  {
    EmbeddedRecordsListing(store);
  }

  /**
   * The loop of `_build_index`: walks the records in query order, appending
   * each one's embedding and key to two parallel lists.
   */
  method CollectEmbedded(proposals: seq<Proposal>) returns (ids: seq<nat>, embeddings: seq<Vector>)
    requires forall i :: 0 <= i < |proposals| ==> proposals[i].id.Some? && proposals[i].embedding.Some?
    ensures ids == IdsOf(proposals)
    ensures embeddings == EmbeddingsOf(proposals)
  {
    ids, embeddings := [], [];
    for i := 0 to |proposals|
      invariant ids == IdsOf(proposals[..i])
      invariant embeddings == EmbeddingsOf(proposals[..i])
    {
      assert proposals[..i + 1] == proposals[..i] + [proposals[i]];
      ListsSnoc(proposals[..i], proposals[i]);
      embeddings := embeddings + [proposals[i].embedding.value];
      ids := ids + [proposals[i].id.value];
    }
    assert proposals[..|proposals|] == proposals;
  }

  class AIProposalService {
    /** `self.index`: None until a build finds an embedded proposal. */
    var index: FlatIndex?
    /** `self.proposal_ids`: label i of the index belongs to the record with key proposalIds[i]. */
    var proposalIds: seq<nat>

    ghost predicate Valid()
      reads this, index
    {
      && (index == null ==> proposalIds == [])
      && (index != null ==> index.Valid() && index.dimension == EmbeddingDim && index.NTotal() == |proposalIds|)
    }

    predicate IndexEmpty()
      reads this, index
    {
      index == null || index.NTotal() == 0
    }

    /** The index mirrors the embedded records of `store`, in query order. */
    ghost predicate Mirrors(store: Store)
      reads this, index
      requires store.Valid()
    {
      && index != null
      && index.dimension == EmbeddingDim
      && proposalIds == IdsOf(store.EmbeddedRecords())
      && index.vectors == EmbeddingsOf(store.EmbeddedRecords())
    }

    /**
     * `labels` is what the search returned for `query` and `similar` what the
     * lookup loop kept of it; with no index, or an empty one, both are empty.
     */
    ghost predicate Retrieved(store: Store, query: Vector, k: int, labels: seq<int>, similar: seq<Proposal>)
      reads this, index
    {
      if IndexEmpty() then labels == [] && similar == []
      else
        && |labels| == Min(k, index.NTotal())
        && IsRanking(index.vectors, query, labels)
        && similar == Resolve(proposalIds, store.records, labels)
    }

    constructor (store: Store)
      requires store.Valid()
      ensures Valid()
      ensures store.EmbeddedIds() == [] ==> index == null && proposalIds == []
      ensures store.EmbeddedIds() != [] ==> Mirrors(store) && fresh(index)
    {
      index := null;
      proposalIds := [];
      new;
      BuildIndex(store);
    }

    /**
     * `_build_index`: with no embedded record, nothing changes; otherwise a
     * fresh index holds the embeddings of the embedded records in query order
     * and proposalIds their keys.
     */
    method BuildIndex(store: Store)
      requires Valid() && store.Valid()
      modifies this
      ensures Valid()
      ensures store.EmbeddedIds() == [] ==> index == old(index) && proposalIds == old(proposalIds)
      ensures store.EmbeddedIds() != [] ==> Mirrors(store) && fresh(index)
      ensures store.EmbeddedIds() != [] ==>
        && index != null
        && proposalIds == store.EmbeddedIds()
        && index.NTotal() == |proposalIds|
        && (forall i :: 0 <= i < |proposalIds| ==>
              proposalIds[i] in store.records && store.records[proposalIds[i]].embedding == Some(index.vectors[i]))
    {
      var proposals := store.EmbeddedRecords();
      if |proposals| == 0 {
        return;
      }
      var embeddings;
      proposalIds, embeddings := CollectEmbedded(proposals);
      if |embeddings| > 0 {
        var dimension := |embeddings[0]|;
        var flat := new FlatIndex(dimension);
        flat.Add(embeddings);
        index := flat;
        ListingAligned(store, proposalIds, embeddings);
      }
    }

    /**
     * `find_similar_proposals`: searches for min(k, ntotal) neighbours and
     * returns the stored records of the labels that resolve, in search order.
     */
    method FindSimilar(store: Store, queryEmbedding: Vector, k: int) returns (similar: seq<Proposal>, ghost labels: seq<int>)
      requires Valid() && store.Valid()
      requires !IndexEmpty() ==> |queryEmbedding| == EmbeddingDim && k > 0
      ensures Retrieved(store, queryEmbedding, k, labels, similar)
      ensures IndexEmpty() ==> similar == []
      ensures !IndexEmpty() ==> |similar| <= Min(k, index.NTotal())
      ensures forall i :: 0 <= i < |similar| ==>
        similar[i].id.Some? && similar[i].id.value in proposalIds && store.Get(similar[i].id.value) == Some(similar[i])
      ensures !IndexEmpty() ==>
        var hits := Hits(proposalIds, store.records, labels);
        && |similar| == |hits|
        && IsSubseq(hits, labels)
        && SortedByDist(index.vectors, queryEmbedding, hits)
        && (forall i :: 0 <= i < |hits| ==> 0 <= hits[i] < |proposalIds| && similar[i] == store.records[proposalIds[hits[i]]])
    {
      if index == null || index.NTotal() == 0 {
        return [], [];
      }
      var n := Min(k, index.NTotal());
      var found := index.Search(queryEmbedding, n);
      assert found[..Min(n, |index.vectors|)] == found;
      labels := found;
      similar := [];
      for i := 0 to |found|
        invariant similar == Resolve(proposalIds, store.records, found[..i])
      {
        assert found[..i + 1][..i] == found[..i];
        var idx := found[i];
        // the search asks for at most ntotal neighbours, so no slot holds -1 and idx >= 0
        if idx < |proposalIds| {
          var proposalId := PyAt(proposalIds, idx);
          match store.Get(proposalId) {
            case Some(proposal) => similar := similar + [proposal];
            case None =>
          }
        }
      }
      assert found[..|found|] == found;
      ResolvedInRankOrder(index.vectors, queryEmbedding, proposalIds, store, found);
    }

    /**
     * `generate_proposal`: retrieves two examples for title + " " +
     * description, puts them in the prompt's context slot and returns the
     * model's text, or the error text when the call fails.
     */
    method GenerateProposal(store: Store, data: ProjectData, model: Embedder, llm: ChatRequest -> Completion)
      returns (text: string, similar: seq<Proposal>, request: ChatRequest, ghost labels: seq<int>)
      requires Valid() && store.Valid()
      ensures Retrieved(store, GenerateEmbedding(model, QueryText(data)), SimilarCount, labels, similar)
      ensures |similar| <= SimilarCount
      ensures forall i :: 0 <= i < |similar| ==> similar[i].id.Some? && store.Get(similar[i].id.value) == Some(similar[i])
      ensures request == RequestFor(BuildPrompt(data, Context(similar)))
      ensures text == ReplyText(llm(request))
    {
      var queryText := QueryText(data);
      var queryEmbedding := GenerateEmbedding(model, queryText);
      similar, labels := FindSimilar(store, queryEmbedding, SimilarCount);
      var context := AssembleContext(similar);
      var prompt := BuildPrompt(data, context);
      request := RequestFor(prompt);
      var completion := llm(request);
      text := ReplyText(completion);
    }

    /**
     * `save_proposal_with_embedding`: stores the text, embeds title,
     * description and text, saves, and rebuilds the index, which then holds
     * the saved record.
     */
    method SaveProposalWithEmbedding(store: Store, proposal: Proposal, generatedText: string, model: Embedder)
      returns (store': Store, saved: Proposal)
      requires Valid() && store.Valid()
      modifies this
      ensures var embedding := GenerateEmbedding(model, CombinedText(proposal, generatedText));
        (store', saved) == store.Save(proposal.(generatedProposal := generatedText, embedding := Some(embedding)))
      ensures saved.generatedProposal == generatedText
      ensures saved.embedding == Some(GenerateEmbedding(model, CombinedText(proposal, generatedText)))
      ensures store'.Valid() && Valid() && Mirrors(store') && fresh(index)
      ensures saved.id.Some? && saved.id.value in proposalIds
    {
      var p := proposal.(generatedProposal := generatedText);
      var combinedText := CombinedText(p, generatedText);
      var embedding := GenerateEmbedding(model, combinedText);
      p := p.(embedding := Some(embedding));
      var result := store.Save(p);
      store', saved := result.0, result.1;
      SaveEmbedded(store, p);
      BuildIndex(store');
      EmbeddedRecordsListing(store');
    }
  }
}
