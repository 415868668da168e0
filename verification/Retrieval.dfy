/** Lightweight, multi-query and agentic retrieval over the two fusions. Embeddings, BM25, the LLM
    and the rerank service are inputs; every slice, fallback and merge is the code's own. */
module Retrieval {
  import opened Outcomes
  import opened Sequences
  import opened StableSort
  import opened RankFusion
  import opened FusionLaws

  /** What the two retrievers yield for one query: no embedding (service failure or zero norm) or a
      similarity that is absent for unusable documents; no BM25 run or one score per candidate. */
  datatype Retrievers = Retrievers(similarity: Option<Doc -> Option<real>>, bm25: Option<seq<real>>)

  datatype Config = Config(
    embTopN: int, bm25TopN: int, round1TopN: int, rerankTopN: int,
    enableMultiQuery: bool, perQueryTopN: int, combinedTotal: int, finalTopN: int, useReranker: bool)

  // ---------- lightweight retrieval ----------

  function SimilarityHits(candidates: seq<Doc>, similarity: Doc -> Option<real>): seq<Hit> {
    if candidates == [] then []
    else
      var d := candidates[|candidates| - 1];
      SimilarityHits(candidates[..|candidates| - 1], similarity)
      + (match similarity(d) case Some(v) => [Hit(d, v)] case None => [])
  }

  /** `zip(candidates, scores)` */
  function Zip(candidates: seq<Doc>, scores: seq<real>): (r: seq<Hit>)
    ensures |r| == if |candidates| <= |scores| then |candidates| else |scores|
    ensures forall i :: 0 <= i < |r| ==> r[i] == Hit(candidates[i], scores[i])
  {
    seq(if |candidates| <= |scores| then |candidates| else |scores|,
        i requires 0 <= i < |candidates| && i < |scores| => Hit(candidates[i], scores[i]))
  }

  function EmbeddingResults(candidates: seq<Doc>, env: Retrievers, topN: int): seq<Hit> {
    match env.similarity
    case None => []
    case Some(sim) => Take(SortDesc(SimilarityHits(candidates, sim), ScoreOf), topN)
  }

  function Bm25Results(candidates: seq<Doc>, env: Retrievers, topN: int): seq<Hit> {
    match env.bm25
    case None => []
    case Some(scores) => Take(SortDesc(Zip(candidates, scores), ScoreOf), topN)
  }

  function Lightweight(candidates: seq<Doc>, env: Retrievers, embTopN: int, bm25TopN: int, finalTopN: int): seq<Hit> {
    var emb := EmbeddingResults(candidates, env, embTopN);
    var bm25 := Bm25Results(candidates, env, bm25TopN);
    if candidates == [] then []
    else if emb == [] then Take(bm25, finalTopN)
    else if bm25 == [] then Take(emb, finalTopN)
    else Take(FusedBy([Docs(emb), Docs(bm25)], 60, IdOf), finalTopN)
  }

  method LightweightRetrieval(candidates: seq<Doc>, env: Retrievers, embTopN: int, bm25TopN: int, finalTopN: int)
    returns (results: seq<Hit>)
    ensures results == Lightweight(candidates, env, embTopN, bm25TopN, finalTopN)
  {
    if candidates == [] {
      return [];
    }
    var embResults: seq<Hit> := [];
    if env.similarity.Some? {
      var scores: seq<Hit> := [];
      for i := 0 to |candidates|
        invariant scores == SimilarityHits(candidates[..i], env.similarity.value)
      {
        assert candidates[..i + 1][..i] == candidates[..i];
        var sim := env.similarity.value(candidates[i]);
        if sim.Some? {
          scores := scores + [Hit(candidates[i], sim.value)];
        }
      }
      assert candidates[..|candidates|] == candidates;
      embResults := Take(SortDesc(scores, ScoreOf), embTopN);
    }
    var bm25Results: seq<Hit> := [];
    if env.bm25.Some? {
      bm25Results := Take(SortDesc(Zip(candidates, env.bm25.value), ScoreOf), bm25TopN);
    }
    if embResults == [] && bm25Results == [] {
      return [];
    } else if embResults == [] {
      results := Take(bm25Results, finalTopN);
    } else if bm25Results == [] {
      results := Take(embResults, finalTopN);
    } else {
      var fused := ReciprocalRankFusion(embResults, bm25Results, 60);
      results := Take(fused, finalTopN);
    }
  }

  /** A result list worth returning: no document twice, every document a candidate. */
  ghost predicate Sound(results: seq<Hit>, candidates: seq<Doc>) {
    && Distinct(Docs(results))
    && forall h :: h in results ==> h.doc in candidates
  }

  lemma TakeSound(results: seq<Hit>, candidates: seq<Doc>, n: int)
    requires Sound(results, candidates)
    ensures Sound(Take(results, n), candidates)
  {
    var t := Take(results, n);
    assert forall i :: 0 <= i < |t| ==> t[i] == results[i] && Docs(t)[i] == Docs(results)[i];
    forall h | h in t ensures h.doc in candidates {
      assert h in results;
    }
  }

  /** Hits with distinct documents have the document of one hit only once. */
  lemma SameDocSameHit(hits: seq<Hit>, h: Hit, k: Hit)
    requires Distinct(Docs(hits)) && h in hits && k in hits && h.doc == k.doc
    ensures h == k
  {
    var a :| 0 <= a < |hits| && hits[a] == h;
    var b :| 0 <= b < |hits| && hits[b] == k;
    assert Docs(hits)[a] == Docs(hits)[b];
  }

  lemma DistinctDocsDistinctHits(hits: seq<Hit>)
    requires Distinct(Docs(hits))
    ensures Distinct(hits)
  {
    forall i, j | 0 <= i < j < |hits| ensures hits[i] != hits[j] {
      assert Docs(hits)[i] != Docs(hits)[j];
    }
  }

  /** Sorting a sound list keeps it sound. */
  lemma SortSound(results: seq<Hit>, candidates: seq<Doc>)
    requires Sound(results, candidates)
    ensures Sound(SortDesc(results, ScoreOf), candidates)
  {
    var r := SortDesc(results, ScoreOf);
    SortPermutes(results, ScoreOf);
    DistinctDocsDistinctHits(results);
    PermutationDistinct(results, r);
    forall i, j | 0 <= i < j < |r| ensures Docs(r)[i] != Docs(r)[j] {
      assert r[i] in results && r[j] in results;
      if r[i].doc == r[j].doc {
        SameDocSameHit(results, r[i], r[j]);
      }
    }
  }

  lemma {:induction false} SimilarityHitsSound(candidates: seq<Doc>, similarity: Doc -> Option<real>)
    requires Distinct(candidates)
    ensures Sound(SimilarityHits(candidates, similarity), candidates)
  {
    if candidates != [] {
      var rest, d := candidates[..|candidates| - 1], candidates[|candidates| - 1];
      SimilarityHitsSound(rest, similarity);
      assert candidates == rest + [d];
      var r := SimilarityHits(rest, similarity);
      assert d !in rest;
      assert forall i :: 0 <= i < |r| ==> r[i] in r && Docs(r)[i] in rest;
    }
  }

  lemma ZipSound(candidates: seq<Doc>, scores: seq<real>)
    requires Distinct(candidates)
    ensures Sound(Zip(candidates, scores), candidates)
  {
  }

  /** Both fusion forms return distinct documents of the input lists. */
  lemma FusedSound<K>(lists: seq<seq<Doc>>, k: nat, key: Doc -> K, candidates: seq<Doc>)
    requires forall l, d :: l in lists && d in l ==> d in candidates
    ensures Sound(FusedBy(lists, k, key), candidates)
  {
    FusedMembers(lists, k, key);
    FirstByKeyFacts(Flatten(lists), key);
    FlattenMembers(lists);
  }

  lemma RetrieverResultsSound(candidates: seq<Doc>, env: Retrievers, embTopN: int, bm25TopN: int)
    requires Distinct(candidates)
    ensures Sound(EmbeddingResults(candidates, env, embTopN), candidates)
    ensures Sound(Bm25Results(candidates, env, bm25TopN), candidates)
  {
    if env.similarity.Some? {
      var hits := SimilarityHits(candidates, env.similarity.value);
      SimilarityHitsSound(candidates, env.similarity.value);
      SortSound(hits, candidates);
      TakeSound(SortDesc(hits, ScoreOf), candidates, embTopN);
    }
    if env.bm25.Some? {
      var hits := Zip(candidates, env.bm25.value);
      ZipSound(candidates, env.bm25.value);
      SortSound(hits, candidates);
      TakeSound(SortDesc(hits, ScoreOf), candidates, bm25TopN);
    }
  }

  lemma LightweightSound(candidates: seq<Doc>, env: Retrievers, embTopN: int, bm25TopN: int, finalTopN: int)
    requires Distinct(candidates)
    ensures Sound(Lightweight(candidates, env, embTopN, bm25TopN, finalTopN), candidates)
    ensures finalTopN >= 0 ==> |Lightweight(candidates, env, embTopN, bm25TopN, finalTopN)| <= finalTopN
  {
    RetrieverResultsSound(candidates, env, embTopN, bm25TopN);
    var emb := EmbeddingResults(candidates, env, embTopN);
    var bm25 := Bm25Results(candidates, env, bm25TopN);
    TakeSound(emb, candidates, finalTopN);
    TakeSound(bm25, candidates, finalTopN);
    var lists := [Docs(emb), Docs(bm25)];
    FusedSound(lists, 60, IdOf, candidates);
    TakeSound(FusedBy(lists, 60, IdOf), candidates, finalTopN);
  }

  // ---------- multi-query retrieval ----------

  /** The non-empty results of the queries that did not raise, in query order. */
  function ValidResults(results: seq<Try<seq<Hit>>>): (r: seq<seq<Hit>>) {
    if results == [] then []
    else
      var last := results[|results| - 1];
      ValidResults(results[..|results| - 1])
      + (if last.Returned? && last.value != [] then [last.value] else [])
  }

  function MultiQuery(results: seq<Try<seq<Hit>>>, candidates: seq<Doc>, finalTopN: int, k: nat): seq<Hit> {
    if candidates == [] then [] else Take(MultiFused(ValidResults(results), k), finalTopN)
  }

  method MultiQueryRetrieval(results: seq<Try<seq<Hit>>>, candidates: seq<Doc>, finalTopN: int, k: nat)
    returns (final: seq<Hit>)
    ensures final == MultiQuery(results, candidates, finalTopN, k)
  {
    if results == [] || candidates == [] {
      return [];
    }
    var valid: seq<seq<Hit>> := [];
    for i := 0 to |results|
      invariant valid == ValidResults(results[..i])
    {
      assert results[..i + 1][..i] == results[..i];
      if results[i].Returned? && results[i].value != [] {
        valid := valid + [results[i].value];
      }
    }
    assert results[..|results|] == results;
    if valid == [] {
      return [];
    }
    var fused := MultiRrfFusion(valid, k);
    final := Take(fused, finalTopN);
  }

  lemma {:induction false} ValidResultsFrom(results: seq<Try<seq<Hit>>>, l: seq<Hit>)
    requires l in ValidResults(results)
    ensures Returned(l) in results
  {
    var rest := results[..|results| - 1];
    if l in ValidResults(rest) {
      ValidResultsFrom(rest, l);
    }
  }

  lemma MultiQuerySound(results: seq<Try<seq<Hit>>>, candidates: seq<Doc>, finalTopN: int, k: nat)
    requires forall r :: r in results && r.Returned? ==> Sound(r.value, candidates)
    ensures Sound(MultiQuery(results, candidates, finalTopN, k), candidates)
    ensures finalTopN >= 0 ==> |MultiQuery(results, candidates, finalTopN, k)| <= finalTopN
  {
    var valid := ValidResults(results);
    forall l | l in valid ensures Sound(l, candidates) {
      ValidResultsFrom(results, l);
    }
    var lists := DocLists(valid);
    forall l, d | l in lists && d in l ensures d in candidates {
      var i :| 0 <= i < |lists| && lists[i] == l;
      assert valid[i] in valid;
      var j :| 0 <= j < |l| && l[j] == d;
      assert valid[i][j] in valid[i];
    }
    FusedSound(lists, k, AddrOf, candidates);
    TakeSound(MultiFused(valid, k), candidates, finalTopN);
  }

  // ---------- reranking candidates ----------

  /** One entry of the rerank service's answer. */
  datatype RerankHit = NotDict | Dict(index: Option<int>, globalIndex: Option<int>, score: real)

  function EffectiveIndex(h: RerankHit): int
    requires h.Dict?
  {
    match h.index
    case Some(i) => i
    case None => if h.globalIndex.Some? then h.globalIndex.value else 0
  }

  predicate Usable(h: RerankHit, n: nat) {
    h.Dict? && 0 <= EffectiveIndex(h) < n
  }

  /** The usable entries, in order, as indices into the candidates. */
  function UsableIndices(hits: seq<RerankHit>, n: nat): (r: seq<nat>)
    ensures forall i :: i in r ==> i < n
    ensures |r| <= |hits|
  {
    if hits == [] then []
    else
      var last := hits[|hits| - 1];
      UsableIndices(hits[..|hits| - 1], n) + (if Usable(last, n) then [EffectiveIndex(last)] else [])
  }

  function UsableScores(hits: seq<RerankHit>, n: nat): (r: seq<real>)
    ensures |r| == |UsableIndices(hits, n)|
  {
    if hits == [] then []
    else
      var last := hits[|hits| - 1];
      UsableScores(hits[..|hits| - 1], n) + (if Usable(last, n) then [last.score] else [])
  }

  function Rescored(candidates: seq<Hit>, indices: seq<nat>, scores: seq<real>): (r: seq<Hit>)
    requires |indices| == |scores|
    requires forall i :: i in indices ==> i < |candidates|
    ensures |r| == |indices|
    ensures forall j :: 0 <= j < |r| ==> indices[j] in indices && r[j] == Hit(candidates[indices[j]].doc, scores[j])
  {
    seq(|indices|, j requires 0 <= j < |indices| =>
      assert indices[j] in indices; Hit(candidates[indices[j]].doc, scores[j]))
  }

  function Reranked(candidates: seq<Hit>, topN: int, reply: Try<seq<RerankHit>>): seq<Hit> {
    if candidates == [] then []
    else if reply.Raised? || reply.value == [] then Take(candidates, topN)
    else
      var hits := Take(reply.value, topN);
      var r := Rescored(candidates, UsableIndices(hits, |candidates|), UsableScores(hits, |candidates|));
      if r == [] then Take(candidates, topN) else r
  }

  method RerankCandidates(candidates: seq<Hit>, topN: int, reply: Try<seq<RerankHit>>) returns (r: seq<Hit>)
    ensures r == Reranked(candidates, topN, reply)
  {
    if candidates == [] {
      return [];
    }
    if reply.Raised? || reply.value == [] {
      return Take(candidates, topN);
    }
    var hits := Take(reply.value, topN);
    r := [];
    for i := 0 to |hits|
      invariant r == Rescored(candidates, UsableIndices(hits[..i], |candidates|), UsableScores(hits[..i], |candidates|))
    {
      assert hits[..i + 1][..i] == hits[..i];
      if hits[i].Dict? {
        var idx := EffectiveIndex(hits[i]);
        if 0 <= idx < |candidates| {
          r := r + [Hit(candidates[idx].doc, hits[i].score)];
        }
      }
    }
    assert hits[..|hits|] == hits;
    if r == [] {
      r := Take(candidates, topN);
    }
  }

  /** What must hold of a reply for the reranked list to repeat no document. */
  ghost predicate NoRepeats(reply: Try<seq<RerankHit>>, n: nat, topN: int) {
    reply.Returned? ==> Distinct(UsableIndices(Take(reply.value, topN), n))
  }

  lemma RescoredSoundExact(candidates: seq<Hit>, indices: seq<nat>, scores: seq<real>, all: seq<Doc>)
    requires Sound(candidates, all)
    requires |indices| == |scores| && forall i :: i in indices ==> i < |candidates|
    ensures Sound(Rescored(candidates, indices, scores), all) <==> Distinct(indices)
  {
    var r := Rescored(candidates, indices, scores);
    forall h | h in r ensures h.doc in all {
      var j :| 0 <= j < |r| && r[j] == h;
      assert candidates[indices[j]] in candidates;
    }
    forall i, j | 0 <= i < j < |r| ensures Docs(r)[i] == Docs(r)[j] <==> indices[i] == indices[j] {
      assert indices[i] in indices && indices[j] in indices;
      assert Docs(r)[i] == Docs(candidates)[indices[i]] && Docs(r)[j] == Docs(candidates)[indices[j]];
    }
  }

  /** Reranking a sound list gives a sound list exactly when the service repeats no usable index. */
  lemma RerankSoundExact(candidates: seq<Hit>, topN: int, reply: Try<seq<RerankHit>>, all: seq<Doc>)
    requires Sound(candidates, all)
    ensures Sound(Reranked(candidates, topN, reply), all) <==> NoRepeats(reply, |candidates|, topN)
    ensures topN >= 0 ==> |Reranked(candidates, topN, reply)| <= topN
  {
    TakeSound(candidates, all, topN);
    if candidates == [] {
      NoUsableIndex(reply, topN);
    } else if reply.Returned? && reply.value != [] {
      var hits := Take(reply.value, topN);
      RescoredSoundExact(candidates, UsableIndices(hits, |candidates|), UsableScores(hits, |candidates|), all);
    }
  }

  lemma NoUsableIndex(reply: Try<seq<RerankHit>>, topN: int)
    ensures NoRepeats(reply, 0, topN)
  {
    if reply.Returned? {
      var indices := UsableIndices(Take(reply.value, topN), 0);
      assert forall i :: 0 <= i < |indices| ==> indices[i] in indices;
    }
  }

  // ---------- merging the rounds ----------

  function NewDocs(round1: seq<Hit>, round2: seq<Hit>): seq<Hit> {
    var seen := set h | h in round1 :: h.doc.addr;
    Filter((h: Hit) => h.doc.addr !in seen, round2)
  }

  /** `round1 + round2_unique[: combined_total - len(round1)]` */
  function Merge(round1: seq<Hit>, round2: seq<Hit>, combinedTotal: int): seq<Hit> {
    round1 + Take(NewDocs(round1, round2), combinedTotal - |round1|)
  }

  lemma MergeSound(round1: seq<Hit>, round2: seq<Hit>, combinedTotal: int, candidates: seq<Doc>)
    requires Sound(round1, candidates) && Sound(round2, candidates)
    ensures Sound(Merge(round1, round2, combinedTotal), candidates)
    ensures round1 <= Merge(round1, round2, combinedTotal)
  {
    var unseen := NewDocs(round1, round2);
    FilterSound(round1, round2, candidates);
    TakeSound(unseen, candidates, combinedTotal - |round1|);
    var t := Take(unseen, combinedTotal - |round1|);
    var m := Merge(round1, round2, combinedTotal);
    assert Docs(m) == Docs(round1) + Docs(t);
    forall i, j | 0 <= i < |round1| && 0 <= j < |t| ensures Docs(round1)[i] != Docs(t)[j] {
      assert round1[i] in round1 && t[j] in unseen;
    }
  }

  lemma FilterSound(round1: seq<Hit>, round2: seq<Hit>, candidates: seq<Doc>)
    requires Sound(round2, candidates)
    ensures Sound(NewDocs(round1, round2), candidates)
  {
    var seen := set h | h in round1 :: h.doc.addr;
    var p := (h: Hit) => h.doc.addr !in seen;
    FilterDocs(p, round2);
    var q := (d: Doc) => d.addr !in seen;
    FilterRelabel(p, q, round2);
    FilterDistinct(q, Docs(round2));
  }

  lemma FilterDocs(p: Hit -> bool, s: seq<Hit>)
    ensures forall h :: h in Filter(p, s) ==> h in s
  {
  }

  lemma {:induction false} FilterRelabel(p: Hit -> bool, q: Doc -> bool, s: seq<Hit>)
    requires forall h :: p(h) <==> q(h.doc)
    ensures Docs(Filter(p, s)) == Filter(q, Docs(s))
  {
    if s != [] {
      FilterRelabel(p, q, s[..|s| - 1]);
      RelabelNext(p, q, s[..|s| - 1], s[|s| - 1]);
      assert s == s[..|s| - 1] + [s[|s| - 1]];
    }
  }

  lemma RelabelNext(p: Hit -> bool, q: Doc -> bool, rest: seq<Hit>, last: Hit)
    requires (p(last) <==> q(last.doc)) && Docs(Filter(p, rest)) == Filter(q, Docs(rest))
    ensures Docs(Filter(p, rest + [last])) == Filter(q, Docs(rest + [last]))
  {
    FilterLast(p, rest, last);
    DocsNext(rest, last);
    FilterLast(q, Docs(rest), last.doc);
    DocsNext(Filter(p, rest), last);
    NoMore(Filter(p, rest), Filter(q, Docs(rest)));
  }

  lemma NoMore(hits: seq<Hit>, docs: seq<Doc>)
    ensures hits + [] == hits && docs + [] == docs
  {
  }

  lemma DocsNext(s: seq<Hit>, h: Hit)
    ensures Docs(s + [h]) == Docs(s) + [h.doc]
  {
  }

  /** The merged list respects the budget exactly when round 1 already does: a larger round 1 turns
      the slice bound negative, and the slice then keeps all but the last few of round 2. */
  lemma MergeBudgetExact(round1: seq<Hit>, round2: seq<Hit>, combinedTotal: int)
    ensures |Merge(round1, round2, combinedTotal)| <= combinedTotal <==> |round1| <= combinedTotal
    ensures |round1| > combinedTotal ==>
      |Merge(round1, round2, combinedTotal)|
      == (var news := |NewDocs(round1, round2)|;
          if news + combinedTotal > |round1| then news + combinedTotal else |round1|)
  {
  }

  // ---------- agentic retrieval ----------

  /** The outside world as one agentic call meets it. */
  datatype World = World(
    round1: Try<Retrievers>,
    rerank1: Try<seq<RerankHit>>,
    sufficient: Try<bool>,
    refined: Try<seq<string>>,
    perQuery: string -> Try<Retrievers>,
    round2Raises: bool,
    rerank2: Try<seq<RerankHit>>)

  datatype Exit = NoRound1 | NoTop | CheckFailed | Sufficient | Round2Failed | Finished

  datatype Metadata = Metadata(isMultiRound: bool, round1Count: nat, isSufficient: Option<bool>, round2Count: nat,
      finalCount: nat)

  function Round1(candidates: seq<Doc>, w: World, c: Config): seq<Hit> {
    match w.round1
    case Raised => []
    case Returned(env) => Lightweight(candidates, env, c.embTopN, c.bm25TopN, c.round1TopN)
  }

  function TopForCheck(round1: seq<Hit>, w: World, c: Config): seq<Hit> {
    if c.useReranker then Reranked(round1, c.rerankTopN, w.rerank1) else Take(round1, c.rerankTopN)
  }

  function Queries(query: string, w: World, c: Config): seq<string> {
    if c.enableMultiQuery && w.refined.Returned? then w.refined.value else [query]
  }

  function QueryResult(candidates: seq<Doc>, w: World, c: Config): string -> Try<seq<Hit>> {
    q => match w.perQuery(q)
         case Raised => Raised
         case Returned(env) => Returned(Lightweight(candidates, env, c.embTopN, c.bm25TopN, c.perQueryTopN))
  }

  function QueryResults(queries: seq<string>, candidates: seq<Doc>, w: World, c: Config): (r: seq<Try<seq<Hit>>>)
    ensures |r| == |queries|
    ensures forall i :: 0 <= i < |r| ==> r[i] == QueryResult(candidates, w, c)(queries[i])
  {
    Map(QueryResult(candidates, w, c), queries)
  }

  function Round2(query: string, candidates: seq<Doc>, w: World, c: Config): seq<Hit> {
    MultiQuery(QueryResults(Queries(query, w, c), candidates, w, c), candidates, c.perQueryTopN, 60)
  }

  function Combined(query: string, candidates: seq<Doc>, w: World, c: Config): seq<Hit> {
    Merge(Round1(candidates, w, c), Round2(query, candidates, w, c), c.combinedTotal)
  }

  /** Which exit is taken depends on the world alone. */
  function ExitOf(candidates: seq<Doc>, w: World, c: Config): Exit {
    var round1 := Round1(candidates, w, c);
    if round1 == [] then NoRound1
    else if TopForCheck(round1, w, c) == [] then NoTop
    else if w.sufficient.Raised? then CheckFailed
    else if w.sufficient.value then Sufficient
    else if w.round2Raises then Round2Failed
    else Finished
  }

  function FinalResults(query: string, candidates: seq<Doc>, w: World, c: Config): seq<Hit> {
    if ExitOf(candidates, w, c) != Finished then Round1(candidates, w, c)
    else if c.useReranker then Reranked(Combined(query, candidates, w, c), c.finalTopN, w.rerank2)
    else Take(Combined(query, candidates, w, c), c.finalTopN)
  }

  method RunQueries(queries: seq<string>, candidates: seq<Doc>, w: World, c: Config)
    returns (perQuery: seq<Try<seq<Hit>>>)
    ensures perQuery == QueryResults(queries, candidates, w, c)
  {
    perQuery := [];
    for i := 0 to |queries|
      invariant perQuery == QueryResults(queries[..i], candidates, w, c)
    {
      MapNext(QueryResult(candidates, w, c), queries, i);
      var env := w.perQuery(queries[i]);
      if env.Returned? {
        var r := LightweightRetrieval(candidates, env.value, c.embTopN, c.bm25TopN, c.perQueryTopN);
        perQuery := perQuery + [Returned(r)];
      } else {
        perQuery := perQuery + [Raised];
      }
    }
    assert queries[..|queries|] == queries;
  }

  method AgenticRetrieval(query: string, candidates: seq<Doc>, w: World, c: Config)
    returns (results: seq<Hit>, meta: Metadata)
    ensures results == FinalResults(query, candidates, w, c)
    ensures meta.isMultiRound <==>
      && Round1(candidates, w, c) != [] && TopForCheck(Round1(candidates, w, c), w, c) != []
      && w.sufficient == Returned(false)
    ensures meta.isMultiRound ==> meta.isSufficient == Some(false)
    ensures w.sufficient != Returned(false) || w.round2Raises ==> results == Round1(candidates, w, c)
    ensures meta.isMultiRound <==> ExitOf(candidates, w, c) in {Round2Failed, Finished}
    ensures meta.round1Count == |Round1(candidates, w, c)|
    ensures meta.round2Count == (if ExitOf(candidates, w, c) == Finished then |Round2(query, candidates, w, c)| else 0)
    // final_count is only filled in by the two regular exits
    ensures meta.finalCount == (if ExitOf(candidates, w, c) in {Sufficient, Finished} then |results| else 0)
    ensures meta.isSufficient == (if ExitOf(candidates, w, c) in {Sufficient, Round2Failed, Finished}
                                  then Some(w.sufficient.value) else None)
  {
    meta := Metadata(false, 0, None, 0, 0);
    if w.round1.Raised? {
      return [], meta;
    }
    var round1 := LightweightRetrieval(candidates, w.round1.value, c.embTopN, c.bm25TopN, c.round1TopN);
    meta := meta.(round1Count := |round1|);
    if round1 == [] {
      return [], meta;
    }
    var top: seq<Hit>;
    if c.useReranker {
      top := RerankCandidates(round1, c.rerankTopN, w.rerank1);
    } else {
      top := Take(round1, c.rerankTopN);
    }
    if top == [] {
      return round1, meta;
    }
    if w.sufficient.Raised? {
      return round1, meta;
    }
    meta := meta.(isSufficient := Some(w.sufficient.value));
    if w.sufficient.value {
      meta := meta.(finalCount := |round1|);
      return round1, meta;
    }
    meta := meta.(isMultiRound := true);
    var queries := Queries(query, w, c);
    if w.round2Raises {
      return round1, meta;
    }
    var perQuery := RunQueries(queries, candidates, w, c);
    var round2 := MultiQueryRetrieval(perQuery, candidates, c.perQueryTopN, 60);
    meta := meta.(round2Count := |round2|);
    var combined := Merge(round1, round2, c.combinedTotal);
    if c.useReranker && |combined| > 0 {
      results := RerankCandidates(combined, c.finalTopN, w.rerank2);
    } else {
      results := Take(combined, c.finalTopN);
    }
    meta := meta.(finalCount := |results|);
  }

  lemma RoundsSound(query: string, candidates: seq<Doc>, w: World, c: Config)
    requires Distinct(candidates)
    ensures Sound(Round1(candidates, w, c), candidates)
    ensures Sound(Round2(query, candidates, w, c), candidates)
    ensures Sound(Combined(query, candidates, w, c), candidates)
    ensures Round1(candidates, w, c) <= Combined(query, candidates, w, c)
    ensures c.round1TopN >= 0 ==> |Round1(candidates, w, c)| <= c.round1TopN
  {
    if w.round1.Returned? {
      LightweightSound(candidates, w.round1.value, c.embTopN, c.bm25TopN, c.round1TopN);
    }
    var rs := QueryResults(Queries(query, w, c), candidates, w, c);
    forall r | r in rs && r.Returned? ensures Sound(r.value, candidates) {
      var i :| 0 <= i < |rs| && rs[i] == r;
      LightweightSound(candidates, w.perQuery(Queries(query, w, c)[i]).value, c.embTopN, c.bm25TopN, c.perQueryTopN);
    }
    MultiQuerySound(rs, candidates, c.perQueryTopN, 60);
    MergeSound(Round1(candidates, w, c), Round2(query, candidates, w, c), c.combinedTotal, candidates);
  }

  /** Every exit returns distinct candidates, and at most max(round1_top_n, final_top_n) of them; the
      only way to repeat a document is a rerank service that repeats an index in the final round. */
  lemma EveryExitSound(query: string, candidates: seq<Doc>, w: World, c: Config)
    requires Distinct(candidates)
    ensures Sound(FinalResults(query, candidates, w, c), candidates)
            <==> (ExitOf(candidates, w, c) == Finished && c.useReranker ==>
                    NoRepeats(w.rerank2, |Combined(query, candidates, w, c)|, c.finalTopN))
    ensures c.round1TopN >= 0 && c.finalTopN >= 0 ==>
      |FinalResults(query, candidates, w, c)| <= c.round1TopN || |FinalResults(query, candidates, w, c)| <= c.finalTopN
    ensures 0 <= c.round1TopN <= c.combinedTotal ==> |Combined(query, candidates, w, c)| <= c.combinedTotal
  {
    RoundsSound(query, candidates, w, c);
    var combined := Combined(query, candidates, w, c);
    RerankSoundExact(combined, c.finalTopN, w.rerank2, candidates);
    TakeSound(combined, candidates, c.finalTopN);
    MergeBudgetExact(Round1(candidates, w, c), Round2(query, candidates, w, c), c.combinedTotal);
  }
}
