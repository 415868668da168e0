# Verified models of the retrieval, memorize and workbench cores

This project models, in Dafny, the algorithmic and state-keeping parts of the memory service and of its
research workbench, and proves what they promise. `dafny verify dfyconfig.toml` checks all of it.

| area | files |
|---|---|
| Reciprocal Rank Fusion (keyed by id and by object identity), the vote bound, order laws | `RankFusion.dfy`, `FusionLaws.dfy` |
| Lightweight, multi-query and agentic retrieval with every exit, what it returns in terms of ranks and answers, and what a rerank service may answer | `Retrieval.dfy`, `RetrievalLaws.dfy`, `RerankReplies.dfy` |
| Hybrid merge, RRF search and the two-round merge of the memory manager | `HybridSearch.dfy` |
| Three rerank providers that split, score, reassemble and cut; where a short answer puts its scores | `Rerank.dfy`, `RerankPlaces.dfy`, `RerankMemories.dfy`, `RerankLaws.dfy` |
| Grouping of hits by group id, importance, batched lookup | `Grouping.dfy`, `GroupingLaws.dfy` |
| Graph layout: force simulation on shared objects, what the forces do to distances, greedy placement | `ForceLayout.dfy`, `Forces.dfy`, `CardPlacement.dfy`, `PlacementLaws.dfy` |
| `memorize` as background jobs that interleave at every await: the log's events, a group's queue, what a boundary closes, start times, the status row, what one job does in all | `MessageLog.dfy`, `RecordStatus.dfy`, `GroupQueue.dfy`, `BatchLaws.dfy`, `Jobs.dfy`, `JobTraces.dfy`, `JobStarts.dfy`, `JobRows.dfy` |
| `memorize` for requests served one at a time | `Accumulation.dfy`, `StatusRow.dfy`, `Memorize.dfy`, `StatusRuns.dfy` |
| The save pipeline behind a boundary | `EpisodeSaving.dfy`, `SavePipeline.dfy` |
| Candidate hydration and its label function | `Labels.dfy`, `LabelLaws.dfy`, `Hydration.dfy`, `HydrationLaws.dfy` |
| Bulk confirm against the confirmation service | `BulkConfirm.dfy`, `BulkLaws.dfy` |
| The autonomous loop under all interleavings | `AutonomousLoop.dfy`, `LoopLaws.dfy` |
| Python slices, stable sort, insertion-ordered dicts | `Sequences.dfy`, `StableSort.dfy`, `OrderedDict.dfy`, `Outcomes.dfy` |

Code that loops and updates is a method proved against a specification function; the laws are lemmas about
that function, usually over every input or every run. Scores are exact reals and Python's sort is stable.
Services outside the code (embeddings, BM25, LLM verdicts, scoring models, HTTP, databases, `cos`, `sin`,
`hypot`) are parameters about which nothing is assumed beyond what a `requires` says.

## Findings

Where the natural claim is false, the code is kept as it is and the exact condition is proved.

- The one-list shortcut of the n-list fusion agrees with the general loop exactly for duplicate-free lists.
- The vote bound is tight: at the bound there are lists in which j votes do not beat j - 1.
- A document's own `index` field can make a well-behaved rerank service repeat documents; the exact condition
  is that these fields collide with no position.
- Both round merges slice by a negative number when round 1 exceeds the budget; the budget holds exactly when
  round 1 keeps it. The memory manager's merge keeps repeats between round-2 queries.
- A successful batch with too few items shifts the scores of later batches in DeepInfra and vLLM. Every batch's
  scores start at its own documents exactly when each batch before the last returned one score per document; a
  document gets its own score, whatever the scorer, exactly when the batches before its own were failed or
  complete and its batch misses neither it nor an earlier document. SiliconFlow only needs the document's own
  batch to answer for it. Failed documents come last exactly when the other scores exceed the fill score (-100, or
  0 for SiliconFlow, with ties decided by position). SiliconFlow with a negative batch size ranks nothing.
- Grouping sorts memories by time but not their scores: they stay aligned exactly when every hit has the score of
  the hit that came in at its place by time. Time order is enough; two hits out of order with different scores
  get each other's score.
- A pinned card may cover a card placed before it, through the whole layout too. With the pins first and free of
  each other, only cards that found no free place overlap anything; a card with at most three cards before it
  always finds one. On a canvas that the pins close entirely, a card falls back onto a pin, through the whole
  layout too.
- Messages are logged before their jobs run, and a job awaits the detector between reading its history and
  closing the group. A message logged in between is closed although no memcell saw it. A job closes exactly what it
  read if and only if every message unclosed at the read was seen and is untaken, or unseen and taken by another
  job, and nothing logged since is left but its own; while no other job closes the group, if and only if the
  history was complete and only its own messages were logged since.
- Two messages logged before the job of the first one runs are closed in the wrong order. The batches of a group
  followed by its open messages are the arrivals in order if and only if every boundary leaves only the last of
  the unclosed messages.
- A memcell stamped later than its request's own message hides that message from every later history. Over every
  run these are the only unclosed messages that a start time leaves out.
- Rows of the status table are written in the order in which the jobs come to it: the new start has not moved back
  if and only if the update written last has the latest one, and a continuing job that loaded the row before a
  memcell was saved puts the old start time back.
- A boundary closes exactly the confirmed accumulation and opens exactly the new messages if and only if nothing
  in the group is pending, the new ids are not among its unclosed messages and every new message has an id. The
  detector sees the whole accumulation exactly when it fits 1000 messages and none of it is older than the last
  memcell.
- `_process_memories` returns a count that is not the number of saved records: the counts agree exactly outside
  assistant conversations, or without a group episode if there is nothing to save, or if the event logs make up
  for all facts and all copies. A missing group episode and a single copy are inputs where they differ.
- `summarizeCandidateLabel` is idempotent for every string exactly for limits of at least 5, the length of its
  label for empty text.
- A second hydration run patches a node again exactly when the label it got leads to a candidate that is neither
  referenced nor shares its id with one that matched; the third run never does.
- The confirm endpoint is not all or nothing: what a failed bulk request has committed is reported as already
  handled. The report is complete exactly when the bulk request succeeds or fails on its first id. A candidate
  reported as skipped is rejected exactly when a reject request sent for it went through; the code swallows the
  failure, and the candidate then stays pending.
- The autonomous loop does not read its condition again after a refresh: once the page is paused or works on
  another pool, a loop still starts one more round, exactly if it was awaiting a refresh and the reply asks for a
  round. A start is lost while the loop of another pool is busy with a round. The waiting arm is reachable exactly
  when a round number or limit is not a number.

The code is followed where its own comments differ: the status update after a memcell takes the old start from
the first new message (the comment says the last history message plus 1 ms) and the new start from the last new
message (the comment says the current time).

## Model

| member | source | states |
|---|---|---|
| StableSort.SortIsStable | backend/src/agentic_layer/retrieval_utils.py:168-172 | the sort of every core is ordered by descending key and keeps equal keys in input order |
| StableSort.StableSortUnique | backend/src/agentic_layer/retrieval_utils.py:168-172 | any stable descending sort returns that same list, whatever its algorithm |
| RankFusion.ReciprocalRankFusion | backend/src/agentic_layer/retrieval_utils.py:146-173 | the two-list loops over `doc_rrf_scores` and `doc_map` return every id once with its total of 1/(k+rank), best first, ties by first appearance |
| RankFusion.MultiRrfFusion | backend/src/agentic_layer/retrieval_utils.py:252-314 | the n-list loops keyed by object identity compute the same specification, with the empty and one-list shortcuts |
| FusionLaws.FusionOrderIndependent | backend/src/agentic_layer/retrieval_utils.py:292-314 | permuting the result lists permutes the output only: same documents, same scores |
| FusionLaws.ScoreOrderIndependent | backend/src/agentic_layer/retrieval_utils.py:297-307 | each key's score is the same for every order of the lists |
| FusionLaws.ParetoOrder | backend/src/agentic_layer/retrieval_utils.py:288-314 | a document that leads another in every list precedes it in the fused output |
| FusionLaws.LeadsIffAbove | backend/src/agentic_layer/retrieval_utils.py:297-307 | in duplicate-free lists, leading is exactly standing above, or the other being absent |
| FusionLaws.VoteBound | backend/src/agentic_layer/retrieval_utils.py:288-314 | over duplicate-free lists of at most L entries with L*(j-1) < k+j, every document found by j lists precedes every one found by fewer |
| FusionLaws.VoteBoundExact | backend/src/agentic_layer/retrieval_utils.py:288-314 | the bound is tight: whenever it fails there are lists in which a document of j lists stands behind one of j-1 |
| FusionLaws.BothRetrieversFirst | backend/src/agentic_layer/retrieval_utils.py:240-249 | with k = 60 and at most 61 hits per retriever, what both found precedes what one found |
| FusionLaws.KeysAgree | backend/src/agentic_layer/retrieval_utils.py:157-173 | fusing by id and by identity gives the same list, ties included, when the two identify the same documents |
| FusionLaws.TwoListRefinement | backend/src/agentic_layer/retrieval_utils.py:252-314 | on two lists the n-list fusion returns what the two-list fusion returns |
| FusionLaws.OneListShortcutExact | backend/src/agentic_layer/retrieval_utils.py:288-295 | the one-list shortcut returns the general loop's documents in its order if and only if the list repeats none |
| RetrievalLaws.FusedScoreExact | backend/src/agentic_layer/retrieval_utils.py:288-307 | in duplicate-free lists the score of every fused hit is the sum of 1/(k + rank) over the lists that hold its document |
| Retrieval.LightweightRetrieval | backend/src/agentic_layer/retrieval_utils.py:176-249 | both retrievers cut, the single-retriever fallbacks, otherwise the fusion cut at final_top_n |
| Retrieval.LightweightSound | backend/src/agentic_layer/retrieval_utils.py:176-249 | every branch returns distinct candidates, at most final_top_n of them |
| RetrievalLaws.OnlyBm25 | backend/src/agentic_layer/retrieval_utils.py:234-241 | without similarities the result is hits of the BM25 run, and none left out scores more than one kept |
| RetrievalLaws.OnlyEmbedding | backend/src/agentic_layer/retrieval_utils.py:234-241 | the same for the embedding search without BM25 |
| RetrievalLaws.BothScored | backend/src/agentic_layer/retrieval_utils.py:240-249 | with hits of both every result comes from one of them and scores 1/(60 + rank) for each that found its id |
| Retrieval.MultiQueryRetrieval | backend/src/agentic_layer/retrieval_utils.py:373-425 | failed and empty queries are dropped, the rest fused and cut |
| Retrieval.MultiQuerySound | backend/src/agentic_layer/retrieval_utils.py:373-425 | the fused result holds distinct candidates, at most final_top_n, whichever queries failed |
| RetrievalLaws.FailedQueryIgnored | backend/src/agentic_layer/retrieval_utils.py:373-425 | a query that fails or finds nothing makes no difference, wherever it stands |
| Retrieval.RerankCandidates | backend/src/agentic_layer/retrieval_utils.py:428-520 | maps the service's usable hits back to documents with new scores; falls back to the cut input when the service fails or nothing is usable |
| Retrieval.RerankSoundExact | backend/src/agentic_layer/retrieval_utils.py:492-520 | the reranked list repeats no document if and only if the service repeats no usable index |
| RetrievalLaws.RerankedExact | backend/src/agentic_layer/retrieval_utils.py:428-520 | the reranked list is the candidates that the service names, by index, by global index without one and the first without either, in its order and with its scores; if it fails or names none, the cut input |
| RerankReplies.OwnIndexExact | backend/src/agentic_layer/retrieval_utils.py:455-470 | documents stay distinct for every well-behaved service if and only if no document's own `index` field collides with another sent index in range |
| RerankReplies.ProvidersWellBehaved | backend/src/agentic_layer/retrieval_utils.py:470-505 | any provider whose answer selects from the hits sent is well behaved, so the three providers keep documents distinct |
| Retrieval.AgenticRetrieval | backend/src/agentic_layer/retrieval_utils.py:592-800 | the exit taken, the final list and the metadata with both round counts, for every answer of retrievers, LLM and rerank service; multi-round is reported if and only if both lists of round 1 are non-empty and the model answers "not sufficient" |
| RetrievalLaws.SecondRoundExact | backend/src/agentic_layer/retrieval_utils.py:609-792 | a second round is returned if and only if round 1 and its check list are non-empty, the model answers "not sufficient" and no exception ends the round; otherwise the result is round 1. Without the reranker it is then round 1 followed by new documents of round 2, cut twice; with it, every result is one of those |
| RetrievalLaws.FirstRoundCuts | backend/src/agentic_layer/retrieval_utils.py:592-603 | which of the limits cuts which list of round 1 |
| RetrievalLaws.SecondRoundCuts | backend/src/agentic_layer/retrieval_utils.py:726-737 | round 2 is cut at the limit of one query, and a single query is retrieved as by itself |
| RetrievalLaws.QueriesAsked | backend/src/agentic_layer/retrieval_utils.py:692-737 | round 2 depends only on the refined queries if several are enabled and could be made, and otherwise only on the original one |
| RetrievalLaws.RerankerOff | backend/src/agentic_layer/retrieval_utils.py:619-792 | with the reranker off neither the exit nor the result depends on what the service would answer |
| RetrievalLaws.RerankerFails | backend/src/agentic_layer/retrieval_utils.py:619-792 | a rerank service that fails both times gives what the call without it gives |
| Retrieval.MergeSound | backend/src/agentic_layer/retrieval_utils.py:740-768 | the combined list keeps round 1 as a prefix and holds distinct candidates |
| RetrievalLaws.NewDocsExact | backend/src/agentic_layer/retrieval_utils.py:754-763 | a hit of round 2 is dropped if and only if some hit of round 1 holds the same object, whatever their ids; every other one stays as often as it came |
| Retrieval.MergeBudgetExact | backend/src/agentic_layer/retrieval_utils.py:740-768 | the combined list respects combined_total if and only if round 1 does; otherwise its exact length |
| Retrieval.EveryExitSound | backend/src/agentic_layer/retrieval_utils.py:592-800 | every exit returns candidates, distinct unless the final rerank service repeats an index, at most max(round1_top_n, final_top_n); the combined list never exceeds combined_total when round1_top_n does not |
| HybridSearch.HybridMergeIsUnion | backend/src/agentic_layer/memory_manager.py:710-714 | for duplicate-free searches the merge holds each id of the union exactly once, keyword hits first |
| HybridSearch.SearchRrf | backend/src/agentic_layer/memory_manager.py:719-747 | keyword and vector hits fused with k = 60 and cut at top_k |
| HybridSearch.RrfResultsOrdered | backend/src/agentic_layer/memory_manager.py:735-747 | distinct documents in non-increasing fused score |
| HybridSearch.RrfResultsScored | backend/src/agentic_layer/memory_manager.py:735-747 | every hit carries its fused score and comes from one of the searches |
| HybridSearch.RrfResultsComplete | backend/src/agentic_layer/memory_manager.py:735-747 | every id of either search has a hit unless the list is cut |
| HybridSearch.CombineRoundsExact | backend/src/agentic_layer/memory_manager.py:952-962 | for duplicate-free searches the combined list repeats no id if and only if no two queries bring the same new id within the room that the total leaves |
| HybridSearch.QueriesRepeat | backend/src/agentic_layer/memory_manager.py:955-962 | two queries that find the same new id put it in twice |
| Rerank.ConvertResponseFormat | backend/src/agentic_layer/rerank_deepinfra.py:197-217 | scores padded with zeros or cut, enumerated, sorted and numbered, form a ranking |
| Rerank.RankScoresIsRanking | backend/src/agentic_layer/rerank_vllm.py:201-216 | indices are a permutation of 0..n-1, ranks count up, scores never increase, ties keep document order |
| Rerank.RankingOrder | backend/src/agentic_layer/rerank_siliconflow.py:180-190 | in a ranking, a stands before b if and only if its score is larger, or equal with a < b |
| Rerank.PositionalRerank | backend/src/agentic_layer/rerank_deepinfra.py:139-195 | reassembly by position for every pattern of failed, short or unreadable batches; the result is a ranking |
| Rerank.SiliconFlowRerank | backend/src/agentic_layer/rerank_siliconflow.py:146-190 | reassembly by global index for every pattern of failed batches; the result is a ranking |
| RerankLaws.ByPositionExact | backend/src/agentic_layer/rerank_vllm.py:193-197 | whatever fields are missing, the scores of an answer are taken in the order of its indices, equal ones as they came; a missing index or score counts as zero |
| RerankLaws.WrittenExact | backend/src/agentic_layer/rerank_siliconflow.py:92-181 | place d gets the score of the last item of the batch whose index leads there and keeps what it had without one |
| RerankLaws.TenByDefault | backend/src/agentic_layer/rerank_deepinfra.py:156-163 | without a usable batch size every batch but the last holds ten documents |
| Rerank.BatchSizeIndependence | backend/src/agentic_layer/rerank_deepinfra.py:156-217 | for complete answers of a pointwise scorer and every positive batch size, both reassemblies return the unbatched ranking |
| RerankLaws.BareScoresRank | backend/src/agentic_layer/rerank_deepinfra.py:174-217 | bare score lists, mixed with complete answers, still give the unbatched ranking for every positive batch size |
| RerankLaws.UnreadAnswersRankNothing | backend/src/agentic_layer/rerank_vllm.py:186-216 | vLLM and SiliconFlow do not read bare lists: every document is ranked in its order with score zero |
| Rerank.PositionalFailedLast | backend/src/agentic_layer/rerank_deepinfra.py:174-217 | DeepInfra and vLLM: documents of failed batches come last if and only if the successful scores exceed -100 (or tie from an earlier place) |
| Rerank.GlobalFailedLast | backend/src/agentic_layer/rerank_siliconflow.py:153-190 | SiliconFlow: the same with the fill score 0 |
| RerankPlaces.StartsInPlaceExact | backend/src/agentic_layer/rerank_deepinfra.py:174-195 | for any answers, every batch's scores start at its first document if and only if each batch before the last contributed one score per document |
| RerankPlaces.PositionalOwnExact | backend/src/agentic_layer/rerank_deepinfra.py:174-217 | for answers with distinct indices in range, a document gets its own score for every scorer if and only if the batches before its own failed or were complete and its batch answered for it and every earlier document |
| RerankPlaces.GlobalOwnExact | backend/src/agentic_layer/rerank_siliconflow.py:153-180 | SiliconFlow: if and only if the document's own batch answered for it |
| RerankPlaces.ShortAnswerShifts | backend/src/agentic_layer/rerank_deepinfra.py:174-195 | an example: a batch of two that answers with one item gives its later score to the wrong documents, by position but not by index |
| Rerank.NegativeSizeRanksNothing | backend/src/agentic_layer/rerank_siliconflow.py:153-170 | a negative batch size sends nothing and returns the documents unranked |
| RerankMemories.DeepInfraRerankMemories | backend/src/agentic_layer/rerank_deepinfra.py:257-329 | hits rebuilt in ranked order with their new scores, cut at a positive top_k |
| RerankMemories.SiliconFlowRerankMemories | backend/src/agentic_layer/rerank_siliconflow.py:228-273 | the same from scores placed by global index |
| RerankMemories.VllmRerankMemories | backend/src/agentic_layer/rerank_vllm.py:256-338 | one request, scores through a map; on failure the original scores decide |
| RerankMemories.ProvidersAgree | backend/src/agentic_layer/rerank_vllm.py:289-320 | with complete answers all three providers return the one unbatched, stably sorted and cut list, whatever their batch sizes |
| RerankLaws.ReferenceBest | backend/src/agentic_layer/rerank_deepinfra.py:293-329 | the reference keeps as many hits as a positive limit allows, each with its own new score, best first, and none left out scores more than one kept |
| RerankLaws.VllmExact | backend/src/agentic_layer/rerank_vllm.py:289-320 | vLLM returns a hit if and only if some item names it, with the score of the last one that does |
| RerankMemories.ReferenceSelects | backend/src/agentic_layer/rerank_deepinfra.py:293-329 | DeepInfra and SiliconFlow return each hit at most once, whatever the batches answer |
| RerankMemories.VllmSelects | backend/src/agentic_layer/rerank_vllm.py:289-338 | vLLM too, on success and on fallback |
| Grouping.CalculateImportanceScore | backend/src/agentic_layer/memory_manager.py:994-1035 | (spoken + mentioned) / conversations over the evidence entries, 0 without evidence or conversations |
| GroupingLaws.ImportanceIsRate | backend/src/agentic_layer/memory_manager.py:994-1035 | the importance is the rate of the mentions, spoken or referred to, of all entries to their conversations |
| GroupingLaws.ImportanceIsMean | backend/src/agentic_layer/memory_manager.py:994-1035 | the importance of the evidence from two sources together is the mean of theirs, weighted by their conversations |
| GroupingLaws.NoEvidence | backend/src/agentic_layer/memory_manager.py:994-1035 | without evidence or conversations it is 0 |
| Grouping.GroupByGroupId | backend/src/agentic_layer/memory_manager.py:1216-1371 | the pass over the hits, the per-group sort and the sort of groups compute the grouping, or raise for an unknown source or type |
| Grouping.NothingLost | backend/src/agentic_layer/memory_manager.py:1216-1371 | the groups together hold exactly one memory per hit; total_count is the number of hits |
| Grouping.GroupsWellFormed | backend/src/agentic_layer/memory_manager.py:1318-1371 | each group once, only its own memories, sorted by time, scores in hit order |
| Grouping.GroupOrder | backend/src/agentic_layer/memory_manager.py:1350-1371 | a group precedes another if and only if it is more important, or equally important and seen first |
| GroupingLaws.GroupDataExact | backend/src/agentic_layer/memory_manager.py:1260-1371 | each group has the importance of the latest evidence among its hits, the scores of its hits in order, and the raw messages of their memcells one after the other |
| Grouping.ScoresAlignedExact | backend/src/agentic_layer/memory_manager.py:1326-1338 | the scores of a group stay aligned with its memories if and only if every hit has the score of the hit that came in at its place by time |
| Grouping.ScoresSwapped | backend/src/agentic_layer/memory_manager.py:1326-1338 | two hits of a group out of time order with different scores get each other's score |
| StableSort.SortedAtPlace | backend/src/agentic_layer/memory_manager.py:1326-1328 | the sort in closed form: each element stands behind all larger keys and the earlier equal ones |
| Grouping.BatchGet | backend/src/agentic_layer/memory_manager.py:1037-1074 | every positive batch size returns the map of a single query; size 0 raises, a negative size finds nothing |
| CardPlacement.NearestFreePosition | frontend/src/workbench-graph-layout.ts:110-130 | the wanted place if free, else the first free spiral candidate in search order, else the grid cell |
| PlacementLaws.NearestExact | frontend/src/workbench-graph-layout.ts:97-130 | the place is the wanted one, at least 32 from the edges, if no card is within 284 by 152 of it; otherwise the earliest free point of the smallest ring, of 46 rings of radius 90 + 46 k with 18 points each, that has one; otherwise a cell of a grid six wide |
| PlacementLaws.SearchEllipse | frontend/src/workbench-graph-layout.ts:115-121 | with cos and sin on the unit circle each ring is an ellipse around the wanted place, flattened by 28 % |
| PlacementLaws.TidyStays | frontend/src/workbench-graph-layout.ts:132-145 | cards that keep the margin and do not overlap stay where they are, whatever is pinned |
| CardPlacement.PreventCardOverlap | frontend/src/workbench-graph-layout.ts:132-145 | cards placed in node order against all earlier ones |
| CardPlacement.SearchedCardIsFree | frontend/src/workbench-graph-layout.ts:110-145 | a card that was searched a place overlaps no earlier card, pinned or not, and has x, y >= 32 |
| CardPlacement.FallbackCardsDisjoint | frontend/src/workbench-graph-layout.ts:126-129 | two cards in fallback cells never overlap |
| CardPlacement.OnlyFallbacksOverlap | frontend/src/workbench-graph-layout.ts:110-145 | with the pins first and free of each other, every overlap is made by a card that found no free place, over a card that is pinned or was searched |
| CardPlacement.FewNeverFallBack | frontend/src/workbench-graph-layout.ts:110-130 | if some step of the search has cos >= 0.9, a card with at most three cards before it never falls back: one card blocks at most 14 of the 46 radii of that step |
| CardPlacement.FewCardsDecide | frontend/src/workbench-graph-layout.ts:132-145 | a layout of up to four cards with the pins first has no overlap if and only if the pins have none |
| CardPlacement.FallbackMayOverlap | frontend/src/workbench-graph-layout.ts:110-130 | 109 pins, free of each other, that close the whole spiral of any geometry with cos and sin in [-1, 1]: the next card falls back onto the last pin |
| ForceLayout.LayoutMayOverlap | frontend/src/workbench-graph-layout.ts:147-201 | through the whole layout: two evidence cards, the second pinned 200 right of where the first is seeded, end up overlapping |
| ForceLayout.LayoutMayFallBack | frontend/src/workbench-graph-layout.ts:147-201 | through the whole layout: with 109 cards pinned around the place where the last one is seeded, that one ends on a pin |
| CardPlacement.LayoutNoOverlap | frontend/src/workbench-graph-layout.ts:132-145 | the guarantee for the id-keyed result, repeated node ids included |
| ForceLayout.SeedByType | frontend/src/workbench-graph-layout.ts:75-95 | new position objects, pinned or on the ring of their type by how many of the type came before |
| PlacementLaws.SeedEllipse | frontend/src/workbench-graph-layout.ts:83-92 | the n-th unpinned card of a cluster starts on the ellipse number n / 6 + 1 around its center, a sixth of a turn from the one before and 0.11 further for each earlier card of the graph |
| PlacementLaws.SlotsDiffer | frontend/src/workbench-graph-layout.ts:83-88 | two unpinned cards of a cluster never get the same number, pinned ones get none |
| PlacementLaws.ClustersApart | frontend/src/workbench-graph-layout.ts:28-36 | the first ellipses of different clusters do not meet |
| ForceLayout.PushAll | frontend/src/workbench-graph-layout.ts:156-175 | the in-place push loops over shared objects act as the specified sequence of pair forces |
| ForceLayout.PullAll | frontend/src/workbench-graph-layout.ts:177-193 | the in-place pull loop over the edges whose ends are nodes |
| Forces.PullLaw | frontend/src/workbench-graph-layout.ts:177-193 | one pull leaves 95 % of the difference between the distance of an edge's ends and 230 if both are free and 97.5 % if one is, along the line between them: they approach beyond 230 and separate below it, two free ends keep their middle, nothing else moves |
| Forces.PushLaw | frontend/src/workbench-graph-layout.ts:157-174 | one push separates two cards, at least one of them free, if they are closer than 160 in the distance it goes by, and moves nothing otherwise |
| Forces.PushAmount | frontend/src/workbench-graph-layout.ts:157-174 | it leaves 96 % of the difference to 160, or 98 % if one card is pinned, along the line between the cards |
| Forces.EdgeSettles | frontend/src/workbench-graph-layout.ts:147-194 | through seeding and all 80 iterations: an evidence card and a conflict card joined by an edge come to a distance of 230 up to 0.95 to the 80 of the difference they were seeded with |
| ForceLayout.SimulationKeeps | frontend/src/workbench-graph-layout.ts:156-194 | whatever every single force keeps, any number of iterations keeps |
| ForceLayout.SimulationConserves | frontend/src/workbench-graph-layout.ts:156-194 | with no pinned cards the sums of x and of y never change, for every force law and distance function |
| ForceLayout.SimulationKeepsPins | frontend/src/workbench-graph-layout.ts:156-194 | the simulation never moves a pinned card |
| ForceLayout.ComputeClusteredLayout | frontend/src/workbench-graph-layout.ts:147-201 | seeding, 80 iterations, placement; every pinned card of the graph ends at its pinned position |
| ForceLayout.PinsAlreadyInPlace | frontend/src/workbench-graph-layout.ts:196-201 | the final overlay of the pins changes nothing, so it cannot undo the separation |
| MessageLog.StepMovesForward | backend/src/infra_layer/adapters/out/persistence/repository/memory_request_log_repository.py:342-437 | closing and confirming only move a record from pending to open to used, leave other groups' records alone, and only closing closes |
| RecordStatus.StatusExact | backend/src/infra_layer/adapters/out/persistence/repository/memory_request_log_repository.py:342-437 | under every interleaving a logged message is used if and only if a later close of its group without its id took it, open if and only if none did and a later confirmation of its group carried its id, and pending otherwise |
| RecordStatus.StoreSettled | backend/src/biz_layer/mem_memorize.py:1361-1395 | for requests served one at a time with fresh ids and a verdict each, nothing is pending when the next request comes, so its boundary closes exactly the accumulation |
| MessageLog.Conservation | backend/src/biz_layer/mem_memorize.py:1341-1395 | under every interleaving of logging, reading, closing and confirming the log keeps every message in arrival order, and each is in exactly one closed batch or unclosed |
| GroupQueue.LogIsQueue | backend/src/infra_layer/adapters/out/persistence/repository/memory_request_log_repository.py:342-437 | under every interleaving and from any log, the records keep the queue of each group: logging appends, a close keeps only its own ids, nothing else matters |
| GroupQueue.QueueMember | backend/src/infra_layer/adapters/out/persistence/repository/memory_request_log_repository.py:342-437 | a message is unclosed after a run if and only if it was logged and no later close of its group, made without its id, took it |
| BatchLaws.OrderExact | backend/src/biz_layer/mem_memorize.py:1373-1395 | under every interleaving the batches of a group followed by its open messages are its messages in arrival order if and only if every boundary of the group leaves only the last of its unclosed messages |
| BatchLaws.SeenExact | backend/src/biz_layer/mem_memorize.py:979-1012 | under every interleaving a boundary closes exactly the history its request read if and only if every message unclosed at the read was seen and is untaken, or unseen and taken by another boundary, and nothing logged since is left but its own |
| BatchLaws.UndisturbedExact | backend/src/biz_layer/mem_memorize.py:979-1012 | while no other request closes the group: if and only if the history was complete and no message of the group but its own was logged since |
| BatchLaws.ClosedUnseen | backend/src/biz_layer/mem_memorize.py:1320-1395 | an input on which a message logged between the read and the close is closed unseen |
| BatchLaws.LaterClosedFirst | backend/src/infra_layer/adapters/input/api/memory/memory_controller.py:299-340 | an input on which two messages logged before the first job runs are closed out of order |
| Jobs.Worker.GoOn | backend/src/biz_layer/mem_memorize.py:1273-1424 | one job from one await to the next: read, close, confirm, load the row, write it |
| JobTraces.JobTrace | backend/src/biz_layer/mem_memorize.py:1320-1395 | over every run a job reads, closes its group if there is a boundary and confirms its own messages unless there is no verdict, in this order and each once, on the verdict of what it read |
| JobTraces.JobWrites | backend/src/biz_layer/mem_db_operations.py:1167-1335 | over every run a finished job has written the row of its group once if the conversation continues or a memcell was saved and never otherwise, with the times of its own messages and the fallbacks for missing ones |
| Jobs.LogOfRun | backend/src/biz_layer/mem_memorize.py:1273-1395 | whatever the jobs do, their log is a run of the log's events |
| Jobs.JobClosesSeenExact | backend/src/biz_layer/mem_memorize.py:1320-1395 | for every run of the worker: when a job is about to close exactly what it read |
| Jobs.JobUndisturbedExact | backend/src/biz_layer/mem_memorize.py:1320-1395 | the same while no other job closes the group |
| Jobs.StoreIsRun | backend/src/biz_layer/mem_memorize.py:1273-1424 | requests served one at a time are runs of the worker, with the log and the rows that the sequential model gives |
| JobStarts.OlderIsOwn | backend/src/biz_layer/mem_memorize.py:988-1002 | over every run an unclosed message older than a start time is one of the new messages of the request whose boundary set it |
| JobStarts.StartFitsExact | backend/src/biz_layer/mem_memorize.py:988-1002 | over every run the start time in the row leaves out no unclosed message if and only if the requests that set it left no older message of their own |
| JobStarts.ReadsAllExact | backend/src/biz_layer/mem_memorize.py:979-1012 | over every run a job reads all unclosed messages but its own if and only if there are at most 1000 and none is an older message of a request that set its start time |
| JobStarts.StartSkipsOwn | backend/src/biz_layer/mem_memorize.py:988-1002 | an input on which a message is left out of every later history |
| JobRows.NewStartExact | backend/src/biz_layer/mem_db_operations.py:1167-1335 | over every run the new start has not moved back if and only if the update written last has the latest new start |
| JobRows.RowWindow | backend/src/biz_layer/mem_db_operations.py:1167-1335 | over every run whose updates of a row are written in time order, old start < new start and the new start exceeds every message of every update, whatever rows the jobs had loaded |
| JobRows.ContinueWriteExact | backend/src/biz_layer/mem_db_operations.py:1190-1240 | a continuing job writes what the sequential update would if and only if the row it loaded still agrees with the table |
| JobRows.MemcellLost | backend/src/biz_layer/mem_db_operations.py:1190-1240 | an input on which the start time of a saved memcell is lost from the row |
| JobRows.WrittenBack | backend/src/biz_layer/mem_db_operations.py:1167-1335 | two updates written one after the other move the new start back if and only if the second one has the earlier new start |
| Accumulation.TurnsAreRuns | backend/src/biz_layer/mem_memorize.py:1341-1395 | requests handled one after the other are runs of the log's events |
| Accumulation.LogRefinesWindow | backend/src/biz_layer/mem_memorize.py:1341-1395 | for requests served one at a time with fresh ids the log refines the intended machine group by group: closed batches followed by the open accumulation are the arrivals in order |
| Accumulation.BoundaryTurnsOver | backend/src/biz_layer/mem_memorize.py:1373-1395 | a boundary on fresh ids closes exactly the old accumulation and opens one of exactly the new messages |
| Accumulation.BoundaryExact | backend/src/biz_layer/mem_memorize.py:1373-1395 | from any log this happens if and only if nothing is pending, the ids are fresh and none is empty |
| Accumulation.HistoryExact | backend/src/infra_layer/adapters/out/persistence/repository/memory_request_log_repository.py:148-218 | the history is the whole accumulation if and only if it fits the limit and none of it is older than the start time |
| StatusRow.RowClosedForm | backend/src/biz_layer/mem_db_operations.py:1167-1335 | after any run with timestamps the row is read off the last updating and the last memcell call |
| StatusRow.InOrderExact | backend/src/biz_layer/mem_db_operations.py:1281-1335 | old start < new start if and only if the last memcell call's first message is not later than the last updating call's last message |
| StatusRow.StatusWindow | backend/src/biz_layer/mem_db_operations.py:1190-1335 | over time-ordered runs old start < new start, and the new start exceeds every message of every call that updated the row |
| StatusRow.NewStartNeverMovesBack | backend/src/biz_layer/mem_db_operations.py:1190-1335 | the new start never moves back during a time-ordered run |
| JobTraces.ServedRow | backend/src/biz_layer/mem_db_operations.py:1167-1335 | what a request served alone makes of the row of its group for each verdict, with every fallback; no other row changes |
| StatusRuns.StoreWindow | backend/src/biz_layer/mem_memorize.py:1021-1103 | for requests served one at a time whose messages for a group come in time, the stored row has old start < new start, and the new start exceeds every message of every request that updated the row |
| StatusRuns.StoreStartNeverMovesBack | backend/src/biz_layer/mem_memorize.py:1021-1103 | for such requests, whose rows are written in request order, the stored new start never moves back |
| Memorize.StoreRow | backend/src/biz_layer/mem_memorize.py:1021-1103 | for requests served one at a time each group's row is the one its updates make |
| Memorize.BatchesThenOpen | backend/src/biz_layer/mem_memorize.py:1341-1395 | for requests served one at a time, whatever the detector answers, closed batches followed by the open accumulation are the messages sent for the group, in order |
| Memorize.StartAlwaysFits | backend/src/biz_layer/mem_memorize.py:979-1002 | for requests served one at a time the start time taken from the row is not later than any unclosed message of the group |
| Memorize.ExtractorStamps | backend/src/memory_layer/memcell_extractor/conv_memcell_extractor.py:427-441 | a memcell stamped with the time of a history message is stamped no later than that message was logged |
| Memorize.SeesAccumulation | backend/src/biz_layer/mem_memorize.py:979-1012 | for requests served one at a time the detector is given exactly the messages accumulated since the last boundary, in order, up to 1000 of them |
| Memorize.ClosedBatchWasSeen | backend/src/biz_layer/mem_memorize.py:1373-1395 | for requests served one at a time a boundary closes exactly the history its memcell was made from |
| EpisodeSaving.SaveEpisodes | backend/src/biz_layer/mem_memorize.py:826-848 | although copies follow, each source episode gets the id of the document built from it, and the parent map holds that document under that id |
| EpisodeSaving.CloneForUsers | backend/src/biz_layer/mem_memorize.py:812-823 | new episodes with the group episode's content and each user's id and name |
| EpisodeSaving.UsersExact | backend/src/biz_layer/mem_memorize.py:884-902 | each participant that is no robot is a user as often as it takes part |
| SavePipeline.ConvertEventLog | backend/src/biz_layer/mem_db_operations.py:346-392 | one record per fact that has an embedding, in order, with the log's own group and parent id and the document's participants and time; none when either list is empty |
| SavePipeline.SaveForesightsAndLogs | backend/src/biz_layer/mem_memorize.py:851-914 | records converted with the group episode's document and copied for every user, or nothing when that document is unknown |
| SavePipeline.ProcessMemories | backend/src/biz_layer/mem_memorize.py:739-776 | the whole save: ids aligned, foresights and facts converted with the group episode's own document although copies follow, the returned count when it is the number of records added, and the copy of the group episode that belongs to each user |
| SavePipeline.SavedForEveryUser | backend/src/biz_layer/mem_memorize.py:884-902 | with h users every foresight and fact is saved exactly 1 + h times with the same content |
| SavePipeline.StoredBelong | backend/src/biz_layer/mem_memorize.py:884-902 | after the extracted records the store has, for each user u and content b, as many records of u under u's id as name that say b as there are extracted ones that say b times the occurrences of u, and nothing else |
| SavePipeline.ExtractedForesightOwner | backend/src/biz_layer/mem_db_operations.py:307-344 | the extracted foresights come first, in order, each with its own user and its own user name, or the document's if it carries none |
| SavePipeline.ExtractedFactOwner | backend/src/biz_layer/mem_db_operations.py:346-392 | the extracted facts come first, in order, each with its own embedding and the user of its log |
| SavePipeline.StoredCounts | backend/src/biz_layer/mem_memorize.py:851-914 | how many records are stored: each foresight and each embedded fact once and once per user, none without the group episode's document |
| SavePipeline.CountExact | backend/src/biz_layer/mem_memorize.py:757-776 | the returned count of foresights and logs is the number of records stored if and only if the scene is not assistant, or there is no group episode and nothing to save, or the logs make up for facts and copies |
| SavePipeline.CountAgreesCases | backend/src/biz_layer/mem_memorize.py:757-776 | with at most one event log: the three cases in which the counts agree |
| SavePipeline.CountsWithoutSaving | backend/src/biz_layer/mem_memorize.py:764-776 | without a group episode a foresight and an event log are counted although nothing is stored |
| SavePipeline.ForesightsBelong | backend/src/biz_layer/mem_memorize.py:779-793 | every stored foresight has the memcell as its parent and the group, group name and participants of the group episode's document |
| SavePipeline.FactsBelong | backend/src/biz_layer/mem_memorize.py:796-809 | every stored fact has the memcell as its parent, the request's group, and the participants and time of that document |
| Labels.SummarizeIdempotentExact | frontend/src/api.ts:673-678 | the label function is idempotent on every string if and only if the limit is at least 5 |
| Labels.SummaryIsNormal | frontend/src/api.ts:673-678 | every label is non-empty, trimmed and has single plain spaces only |
| LabelLaws.NormalIsJoin | frontend/src/api.ts:673-678 | a normalized text is the words of the text with one plain space between each two |
| LabelLaws.LabelLength | frontend/src/api.ts:673-678 | a text that fits is its own label, a longer one keeps its first max units and gets three dots, one without words has the label of unnamed nodes |
| LabelLaws.LabelsAgreeExact | frontend/src/api.ts:673-678 | two texts get the same label if and only if they are the same up to white space, or both are cut and agree in the first max units, or one is blank and the other the label of unnamed nodes |
| Hydration.Hydrate | frontend/src/api.ts:1223-1273 | the loop over the nodes leaves the specified graph and reports exactly the patched nodes |
| HydrationLaws.ReferencedExact | frontend/src/api.ts:680-691 | after a run a node references a candidate id if and only if it did before or a usable candidate with that id corresponds to its texts |
| HydrationLaws.PatchExact | frontend/src/api.ts:1235-1271 | a run patches a node if and only if a usable candidate corresponds to it and one of those is unreferenced or its label is not a label yet; the new label is made from the old one, or from the first corresponding candidate if that is blank; id and description stay |
| HydrationLaws.PatchedIdsExact | frontend/src/api.ts:1257-1271 | the run reports the ids of the patched nodes in the order of the graph |
| Hydration.RefsOnlyGrow | frontend/src/api.ts:1241-1255 | over any runs with any candidates references are only appended, each candidate id at most once |
| Hydration.MatchedStays | frontend/src/api.ts:680-691 | what matched a node still matches after its patch |
| Hydration.SecondRunExact | frontend/src/api.ts:1235-1271 | the second run patches a node if and only if the first one did and the label it gave leads to a candidate that is not referenced and shares its id with none that matched |
| Hydration.SecondRunMayAdd | frontend/src/api.ts:1235-1271 | an example in which it does |
| Hydration.ThirdRunIdle | frontend/src/api.ts:1235-1271 | the third run patches nothing |
| Hydration.HydrationConverges | frontend/src/api.ts:1223-1273 | whatever the graph and the candidates, two runs reach a fixed point |
| BulkConfirm.ConfirmedForGood | backend/src/research_layer/services/candidate_confirmation_service.py:600-815 | after a successful confirm, whatever requests follow, the candidate stays confirmed, can be neither confirmed nor rejected again, and no other candidate of the workspace is confirmed under its text |
| BulkConfirm.RejectedForGood | backend/src/research_layer/services/candidate_confirmation_service.py:817-855 | after a successful reject, whatever requests follow, the candidate stays rejected and is never confirmed |
| BulkConfirm.ResearchServer.ConfirmCandidates | backend/src/research_layer/api/controllers/research_source_controller.py:1627-1648 | one commit per id up to the first error |
| BulkConfirm.ConfirmWithTolerance | frontend/src/pages1.tsx:1593-1629 | the final server state, whether it throws, and the three lists |
| BulkLaws.ThrowsExact | frontend/src/pages1.tsx:1593-1629 | the call throws if and only if the bulk request comes to a candidate that is missing, foreign, taken by another kind or whose transaction fails, or it stops at a duplicate or decided one and the loop comes to one of those; otherwise everything is confirmed at once or the loop decides |
| BulkLaws.OutcomeExact | frontend/src/pages1.tsx:1604-1629 | each id is confirmed if it was pending with a free text, skipped if a confirmed object of its kind has its text, handled if it was decided, on the server as the earlier ids left it, and the server changes accordingly |
| BulkLaws.ListsExact | frontend/src/pages1.tsx:1604-1629 | which outcome each of the three lists stands for |
| BulkConfirm.ListsPartition | frontend/src/pages1.tsx:1604-1629 | confirmed, skipped and handled ids divide the input ids and keep their order |
| BulkConfirm.ReportTruthful | frontend/src/pages1.tsx:1593-1629 | reported confirmed ids are confirmed on the server, handled ones decided, skipped ones rejected or still pending behind a confirmed object with their text |
| BulkConfirm.SkippedExact | frontend/src/pages1.tsx:1610-1620 | a skipped id is rejected if and only if a reject request sent for it went through, and otherwise still pending |
| BulkConfirm.SkippedStaysPending | frontend/src/pages1.tsx:1610-1620 | an input where it stays pending |
| BulkConfirm.ReportCompleteExact | frontend/src/pages1.tsx:1597-1629 | the confirmed list names everything the call confirmed if and only if the bulk request succeeds or fails on its first id |
| BulkConfirm.BulkConsistent | backend/src/research_layer/services/candidate_confirmation_service.py:609-660 | no call, failed or not, makes two confirmed candidates of a workspace share a normalized text |
| AutonomousLoop.FrontierPage.Deliver | frontend/src/frontier.tsx:292-379 | a loop's step from one await to the next, and the running flag at its end |
| AutonomousLoop.AtMostOneLoop | frontend/src/frontier.tsx:287-379 | under every interleaving with start, pause, resume and stop at most one loop is live, and the running flag says whether one is |
| AutonomousLoop.RoundsCounted | frontend/src/frontier.tsx:292-321 | over every run a loop has started exactly as many rounds as its refreshes were answered with a runnable status and a round number below the limit |
| LoopLaws.FinalizesCounted | frontend/src/frontier.tsx:338-358 | over every run a loop has sent exactly as many finalize requests as its refreshes were answered with a pool that is neither over nor paused and is closing or has a round number at or above the limit |
| LoopLaws.UsedUpFinalizes | frontend/src/frontier.tsx:338-358 | a running pool that has used up its rounds is finalized |
| LoopLaws.ClosesExact | frontend/src/frontier.tsx:292-379 | the only ways for a live loop to close, as one equivalence |
| LoopLaws.FailsExact | frontend/src/frontier.tsx:321-379 | as equivalences: when a loop's failure reaches the `catch` block, when an interrupted round is looked into first, and when a loop refreshes a last time |
| LoopLaws.FailureEnds | frontend/src/frontier.tsx:362-379 | after a failed request a loop sends no round and no finalize request, whatever follows |
| LoopLaws.ResumeExact | frontend/src/frontier.tsx:512-515 | a resume gives a pool a live loop if and only if it has one, or none is running and it is the current pool |
| AutonomousLoop.RoundsAfterLapse | frontend/src/frontier.tsx:292-321 | once the loop condition is false a loop starts one more round if it was awaiting a refresh and the reply asks for one, and none otherwise |
| AutonomousLoop.RoundsAfterHalt | frontend/src/frontier.tsx:292-321 | after a pause or stop, until the next start or resume, at most one round is started in all, by the loop that was awaiting a refresh |
| AutonomousLoop.RoundStartsAnyway | frontend/src/frontier.tsx:292-321 | a round starts after a pause, and for a pool that is no longer the current one |
| AutonomousLoop.WaitExact | frontend/src/frontier.tsx:296-361 | the waiting arm is reached if and only if the status is runnable and a number is NaN |
| AutonomousLoop.NeverWaits | frontend/src/frontier.tsx:292-361 | no loop of any run waits while the server's numbers are numbers |
| AutonomousLoop.FinalizeOnce | frontend/src/frontier.tsx:338-358 | every loop sends at most one finalize request and starts no round after it |
| AutonomousLoop.LoopTerminates | frontend/src/frontier.tsx:292-379 | if every completed round raises the round number, a loop starts at most m rounds and closes within 4m + 10 steps, whatever fails or happens in between |
| AutonomousLoop.LaunchExact | frontend/src/frontier.tsx:509-515 | a launch gives a pool a live loop if and only if none is running and the pool is active and current, or its loop is already live |
| AutonomousLoop.LostStart | frontend/src/frontier.tsx:390-430 | a start while another pool's loop is busy leaves the new pool active without a loop |

## Left out

- Floating point: scores, coordinates and forces are exact reals; the fusion constant k is a natural number.
- HTTP clients, retries, semaphores, sessions, Milvus, Elasticsearch, MongoDB, SQLite and Redis: answers are inputs, stores are sequences and maps.
- LLM calls (boundary, sufficiency, query generation, extraction), BM25, embeddings, cosine similarity: opaque answers.
- Metrics, logging, latency metadata, React rendering, labels on screen, local storage.
- Repository exceptions inside `memorize`: the code swallows them and goes on, so the runs here are those without them; a failed extraction after a boundary is modelled (the status row then stays).
- A message whose timestamp key is present but empty: the status update then fails and is swallowed; the model treats it as a missing timestamp.
- Memorizer.Memorize: one call without its awaits, as a request sees it that no other one disturbs; Jobs.Worker has the awaits.
- The two database accesses inside one write of a status row count as one, and so does the race of two jobs to create it.
- Ties of `created_at` in the history query: the database leaves their order open, the model keeps arrival order.
- `memorize` for data other than conversations, clustering, profile extraction, the stored fields that documents copy unchanged.
- Placement of cards: works on values, because the source builds a new result and does not update positions there.
- Layout keys: the node type is normalized as in the source, except for lower-casing beyond ASCII and for prototype keys of JavaScript objects.
- The `force_finalize` control in `runControl`: its own finalize request is outside the loop and not counted by FinalizeOnce.
- Other clients that confirm or reject candidates while the bulk call runs; a confirm request whose reply is lost after its commit.
- `_process_episode_results`, field-by-field converters, `chooseWorkspaceToRestore`, `clampZoom`: would only add easy members.
