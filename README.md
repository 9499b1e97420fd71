# AI Proposal Generator: the retrieval layer of `AIProposalService`

This Dafny project models the retrieval-augmented core of the proposal
generator's `AIProposalService` (proposals/ai_service.py). The service keeps a
flat nearest-neighbour index over the embeddings of past proposals, together
with a parallel list that maps each index position to a proposal key. When a
new request arrives, it embeds the request's title and description and looks
up the two nearest past proposals. Those records, as far as they still exist,
go into a numbered example block inside the prompt sent to the language model.
After generation, the proposal is embedded, saved, and the index is rebuilt.

Modules, one file each:

- `Seqs` (seqs.dfy): order-preserving filtering (`Filter`, the guarded list
  comprehension), subsequences, infixes, string joining (`Concat`), and
  decimal rendering of a number (`NatToString`, Python's `str(i)`).
- `FlatL2` (flat_index.dfy): a stand-in for `faiss.IndexFlatL2`.
  - Vectors are integer sequences, and distance is the exact squared L2 distance.
  - `IsRanking` is the k-nearest contract: distinct labels of stored vectors,
    nearest first, and no label left out is nearer than one taken. Ties are
    left open.
  - Class `FlatIndex` has `Add` and `Search`. `Search` is a full scan proved
    against `IsRanking`, and it pads with -1 when asked for more labels than
    are stored.
- `Models` (models.dfy): the model's types and the record store.
  - `Proposal` is the row of proposals/models.py. Its `embedding` is optional
    and has 384 entries.
  - The record store is a value `Store`. It holds a map from primary key to
    record, the order in which a query lists records (newest first), and the
    next key to assign.
  - `Store` offers `Get` (`objects.get`), `EmbeddedRecords`
    (`exclude(embedding__isnull=True)`) and `Save` (`save()`).
- `Retrieval` (retrieval.dfy): what the lookup loop of `find_similar_proposals`
  keeps from a search result (`Resolve`), and which labels it keeps (`Hits`).
- `Prompt` (prompt.dfy): the query text, the example context, the prompt, the
  chat request, and the text returned when the model call fails.
- `AiService` (ai_service.dfy): class `AIProposalService` and its state,
  `index` and `proposalIds`.
  - Its methods are `BuildIndex` (`_build_index`), `FindSimilar`,
    `GenerateProposal` and `SaveProposalWithEmbedding`.
  - The embedding model is a parameter of type `Embedder`: a deterministic
    function from text to a 384-entry vector.
  - The chat client is a parameter of type `ChatRequest -> Completion`.

The store is passed to every operation explicitly, because the source reaches
it through the Django ORM's global state.

Two behaviours of the code that the model keeps as they are:

- **Rebuild with no embedded records.** `_build_index` returns early and
  keeps the previous index and id list (proposals/ai_service.py:22-23);
  `BuildIndex` states this.
- **Ties.** The order among equal distances is left open, because the source
  leaves tie-breaking to FAISS.

## Model

| member | source | states |
|---|---|---|
| AiService.AIProposalService.constructor | proposals/ai_service.py:11-16 | With no embedded record the new service has no index and an empty id list. Otherwise its index mirrors the store's embedded records. |
| AiService.AIProposalService.BuildIndex | proposals/ai_service.py:18-37 | With no embedded record, index and id list are left unchanged. Otherwise a fresh index is built whose size equals the id list's length. The id list is exactly the embedded keys in store query order. Index position i holds the embedding of the record with key `proposalIds[i]`. |
| AiService.CollectEmbedded | proposals/ai_service.py:25-30 | The loop appends each record's key and embedding, so the two lists are exactly the keys and the embeddings of the records, position by position. |
| AiService.ListingAligned | proposals/ai_service.py:25-30 | The id list and embedding list built from the embedded records have equal length, and position i of one belongs to position i of the other. The ids are the embedded keys in query order. |
| AiService.GenerateEmbedding | proposals/ai_service.py:39-42 | The embedding of any text has exactly 384 entries. |
| AiService.AIProposalService.FindSimilar | proposals/ai_service.py:44-64 | With no index or an empty one, the result is empty for any k. Otherwise the search asks for min(k, ntotal) neighbours, so the result has at most that many records. Each record's key is in the id list and is stored, and the record is that stored record. Records come in search order: the positions they come from are a subsequence of the ranked labels, nearest first. |
| AiService.NoMissWhenAllStored | proposals/ai_service.py:55-62 | When every indexed key is still stored, the lookup returns one record per ranked label: only stale keys are ever skipped. |
| AiService.ResolvedInRankOrder | proposals/ai_service.py:52-64 | On a ranking of the indexed vectors, the lookup returns one stored record per resolving label, in ranking order and nearest first. Each record is the one stored at its label's key, and that key is in the id list. |
| AiService.AIProposalService.GenerateProposal | proposals/ai_service.py:66-122 | Retrieval runs on the embedding of title + " " + description with k = 2, so at most two examples are used, each a stored record. The request carries the prompt built from the request data and the context of those examples. The returned text is the model's reply, or the error text when the call fails. |
| AiService.AIProposalService.SaveProposalWithEmbedding | proposals/ai_service.py:124-136 | The saved record is the given proposal with its generated text set and its embedding set to embed(title + " " + description + " " + text), stored as `Save` stores it. After the rebuild the index mirrors the new store and the saved key is in the id list. |
| FlatL2.FlatIndex.Add | proposals/ai_service.py:36-37 | Adding appends the vectors in order, and each gets the next label. |
| FlatL2.FlatIndex.Search | proposals/ai_service.py:52 | Exact k-nearest search: the first min(k, ntotal) labels are distinct stored labels, nearest first, and none omitted is nearer than one taken. Slots beyond that hold -1. |
| FlatL2.InsertByDist | proposals/ai_service.py:52 | One step of the scan: inserting a label into a distance-sorted list keeps it sorted and distinct, and the result holds exactly the old labels plus the new one. |
| FlatL2.KeepNearest | proposals/ai_service.py:52 | After inserting label j and cutting back to k, the list is a correct k-nearest ranking of labels 0..j. |
| FlatL2.TwoNearestOfThree | proposals/ai_service.py:50-52 | For stored vectors [0,0], [3,4], [1,0] and query [0,0], the only two-neighbour ranking is labels 0 then 2. |
| Models.Store.Get | proposals/ai_service.py:58-62 | A key yields a record exactly when it is stored, and then it yields the stored record, which carries that key. Absence stands for `DoesNotExist`. |
| Models.Store.EmbeddedRecords | proposals/ai_service.py:20 | The query for records with an embedding returns one record per embedded key. Each has a key and a 384-entry embedding. |
| Models.EmbeddedIdsExactly | proposals/ai_service.py:20 | A key is among the embedded keys exactly when its record is stored and has an embedding. |
| Models.EmbeddedRecordsListing | proposals/ai_service.py:20-30 | The listed keys are exactly the keys of records with an embedding, each once, in query order. Each listed key's record carries the listed embedding. |
| Models.Store.Save | proposals/ai_service.py:133 | Saving keeps the store consistent. An unsaved record gets a key not yet used and goes first in query order (`Meta.ordering` is newest first). A record that already has a key replaces the stored one. Nothing else changes. |
| Models.SaveEmbedded | proposals/ai_service.py:131-136 | Saving a record with an embedding makes its key an embedded key. Every other key keeps its status. |
| Retrieval.ResolveAtHits | proposals/ai_service.py:54-62 | The lookup yields one record per resolving label, in order. A label resolves when it passes `idx < len(proposal_ids)`, Python's `proposal_ids[idx]` is defined, and that key is stored. The i-th record is the stored record at the i-th resolving label's key. |
| Retrieval.ResolveLosesOnlyMisses | proposals/ai_service.py:55-62 | The lookup never returns more records than labels. It returns one per label exactly when every label resolves. |
| Retrieval.HitsKeepRanking | proposals/ai_service.py:54-64 | Skipping labels keeps the others' relative order. If the labels are nearest first, so are the kept ones. |
| Retrieval.PyAt | proposals/ai_service.py:57 | `proposal_ids[idx]` reads position idx for idx >= 0, and position len + idx for a negative idx. |
| Retrieval.Resolve | proposals/ai_service.py:54-62 | The lookup loop keeps at most one record per label, and every record it keeps is a stored one. |
| Retrieval.NegativeLabelReadsLastKey | proposals/ai_service.py:56-57 | A -1 label passes the guard and reads the last key: with ids [3, 7] and key 7 stored, the lookup of [-1] returns that record. A label below -len(ids) yields nothing. |
| Seqs.FilterKeepsAll | proposals/ai_service.py:55-62 | A guarded filter returns its whole input exactly when every element passes. |
| Seqs.FilterIsSubseq | proposals/ai_service.py:55-64 | A guarded filter keeps elements in their input order. |
| Seqs.FilterDistinct | proposals/ai_service.py:20 | Filtering a list without repeats gives a list without repeats. |
| Prompt.Excerpt | proposals/ai_service.py:83 | `text[:300]` is the text's first min(len(text), 300) characters. |
| Prompt.ExampleBlockShows | proposals/ai_service.py:81-83 | Example n opens with its number in decimal, and then shows the proposal's title and its excerpt followed by "...". |
| Seqs.NatToStringRoundTrip | proposals/ai_service.py:81 | The example number is rendered as decimal digits that read back as the same number. |
| Seqs.NatToString | proposals/ai_service.py:81 | The numeral of a positive number has no leading zero, as in `str(i)`. |
| Prompt.Context | proposals/ai_service.py:77-83 | The context is the empty string exactly when no similar proposal was found. |
| Prompt.ContextHasExample | proposals/ai_service.py:79-83 | The i-th found proposal appears as example number i + 1, between the blocks for the proposals before it and those after it. |
| Prompt.AssembleContext | proposals/ai_service.py:77-83 | The `+=` loop over `enumerate(similar, 1)` produces exactly the context. |
| Prompt.PromptCarriesRequest | proposals/ai_service.py:86-105 | The prompt contains each request field and the context verbatim. |
| Prompt.ReplyText | proposals/ai_service.py:107-122 | A completed call returns the model's content. A failed call returns "Error generating proposal: " followed by the failure's message, so no failure escapes. |
| Prompt.QueryText | proposals/ai_service.py:70 | The query text is the title, one space, and the description. |
| Prompt.CombinedText | proposals/ai_service.py:129 | The text embedded on save is the title, a space, the description, a space, and the generated text. |
| Prompt.ExampleBlock | proposals/ai_service.py:81-83 | Example n opens with "--- Example n ---" in decimal and ends with "...". |
| Prompt.BuildPrompt | proposals/ai_service.py:86-105 | The prompt is the head built from the request's fields, then the context slot, then the fixed list of sections to write. |
| Prompt.RequestFor | proposals/ai_service.py:108-117 | The request uses model "llama-3.3-70b-versatile", the system message, the prompt as the user message, temperature 0.7 and at most 2000 tokens. |

## Left out

- The SentenceTransformer model (proposals/ai_service.py:13, 41-42) is a foreign model. It is the `Embedder` parameter: deterministic and of dimension 384. Its failures are not modelled.
- The Groq client and its network call (proposals/ai_service.py:12, 108-119) are external I/O. They are a parameter that returns `Completed(content)` or `Failed(reason)`. Reading `choices[0]` of the response is part of that parameter.
- Float32 and numpy arithmetic, and FAISS internals (proposals/ai_service.py:29, 33-37, 49, 52), are replaced by integer vectors and exact squared distances. `FlatIndex` is a reference implementation of the search contract, not FAISS's code.
- FlatL2.IsRanking: does not fix the order among equal distances, since the source leaves tie-breaking to FAISS.
- AiService.AIProposalService.FindSimilar: requires k > 0 and a 384-entry query when the index is not empty. The callers pass k = 2 and embedder output, and dimension mismatches are never checked in the source.
- AiService.AIProposalService.FindSimilar: has no default for k. The source defaults k to 3 (proposals/ai_service.py:44), but its only caller passes k = 2 (proposals/ai_service.py:74).
- Retrieval.Live: counts a label below -len(proposal_ids) as a miss, where Python would raise IndexError (proposals/ai_service.py:57), which nothing catches. No such label arises: the search asks for at most ntotal neighbours, so every label it returns lies in 0..ntotal-1.
- AiService.AIProposalService.BuildIndex: takes the new index's dimension from the first embedding, as the source does (proposals/ai_service.py:34). The store's consistency guarantees that this is 384.
- The `.get(key, default)` fallbacks of the prompt (proposals/ai_service.py:91-93) are not modelled: the view always supplies these keys (proposals/views.py:20-22), so `ProjectData` has plain fields.
- Prompt.PromptCarriesRequest: states the prompt's structure (fields, context slot, fixed tail). The prose of the template is written out as constants but not reasoned about further.
- The Django ORM, timestamps and `created_at` (proposals/models.py:26-30) are not modelled. The store is a map plus a query order, and a new record goes first in that order.
- Object identity of the `proposal` argument is not modelled. The view's object is mutated and saved in place (proposals/ai_service.py:126-133); here `SaveProposalWithEmbedding` returns the saved record and the new store.
- proposals/views.py, proposals/urls.py and proposals/admin.py handle HTTP, routing, messages and the admin UI, and are not part of this model. The view builds a new service, and therefore a fresh index, on every request (proposals/views.py:36). This is why the constructor rebuilds from the store.
- Concurrent requests rebuilding the index are not modelled: the source has no synchronisation to model.
