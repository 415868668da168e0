/** `rerank_memories` of the three providers, vLLM's by a score map, all tied to one unbatched
    reference. */
module RerankMemories {
  import opened Outcomes
  import opened Sequences
  import opened StableSort
  import opened Rerank

  datatype Memory<B> = Memory(body: B, score: real)

  function MemoryScore<B>(m: Memory<B>): real { m.score }

  function Cut<T>(s: seq<T>, topK: Option<int>): (r: seq<T>)
    ensures r <= s
  {
    if topK.Some? && topK.value > 0 then Take(s, topK.value) else s
  }

  /** The reference: rescore every hit, sort, cut. */
  function Rescore<B>(hits: seq<Memory<B>>, scores: seq<real>): (r: seq<Memory<B>>)
    requires |scores| == |hits|
    ensures |r| == |hits|
    ensures forall i :: 0 <= i < |r| ==> r[i] == Memory(hits[i].body, scores[i])
  {
    seq(|hits|, i requires 0 <= i < |hits| && i < |scores| => Memory(hits[i].body, scores[i]))
  }

  function Reference<B>(hits: seq<Memory<B>>, scores: seq<real>, topK: Option<int>): seq<Memory<B>>
    requires |scores| == |hits|
  {
    Cut(SortDesc(Rescore(hits, scores), MemoryScore), topK)
  }

  /** The hits that a ranking names, with their new scores. */
  function HitsOf<B>(hits: seq<Memory<B>>, results: seq<Ranked>): seq<Memory<B>> {
    if results == [] then []
    else
      var last := results[|results| - 1];
      HitsOf(hits, results[..|results| - 1])
      + (if last.index < |hits| then [Memory(hits[last.index].body, last.score)] else [])
  }

  /** The tail shared by DeepInfra and SiliconFlow: rebuild hits in ranked order, cut. */
  method HitsFromRanking<B>(hits: seq<Memory<B>>, results: seq<Ranked>, topK: Option<int>)
    returns (reranked: seq<Memory<B>>)
    ensures reranked == Cut(HitsOf(hits, results), topK)
  {
    reranked := [];
    for i := 0 to |results|
      invariant reranked == HitsOf(hits, results[..i])
    {
      assert results[..i + 1][..i] == results[..i];
      if 0 <= results[i].index < |hits| {
        reranked := reranked + [Memory(hits[results[i].index].body, results[i].score)];
      }
    }
    assert results[..|results|] == results;
    if topK.Some? && topK.value > 0 {
      reranked := Take(reranked, topK.value);
    }
  }

  /** The i-th hit of the sorted reference is the one the ranking names i-th. */
  lemma RankedHits<B>(hits: seq<Memory<B>>, scores: seq<real>)
    requires |scores| == |hits|
    ensures forall i :: 0 <= i < |hits| ==> RankScores(scores)[i].index < |hits|
    ensures forall i :: 0 <= i < |hits| ==>
      SortDesc(Rescore(hits, scores), MemoryScore)[i]
      == Memory(hits[RankScores(scores)[i].index].body, RankScores(scores)[i].score)
  {
    RankScoresIsRanking(scores);
    if hits != [] {
      var relabel := (p: (nat, real)) => Memory(hits[if p.0 < |hits| then p.0 else 0].body, p.1);
      SortMap(Indexed(scores), relabel, PairScore, MemoryScore);
      assert Map(relabel, Indexed(scores)) == Rescore(hits, scores);
    }
  }

  lemma {:induction false} HitsOfAt<B>(hits: seq<Memory<B>>, results: seq<Ranked>, sorted: seq<Memory<B>>, n: nat)
    requires n <= |results| == |sorted|
    requires forall i :: 0 <= i < n ==>
        results[i].index < |hits| && sorted[i] == Memory(hits[results[i].index].body, results[i].score)
    ensures HitsOf(hits, results[..n]) == sorted[..n]
  {
    if n > 0 {
      HitsOfAt(hits, results, sorted, n - 1);
      assert results[..n][..n - 1] == results[..n - 1];
    }
  }

  lemma HitsOfAll<B>(hits: seq<Memory<B>>, results: seq<Ranked>, sorted: seq<Memory<B>>)
    requires |results| == |sorted|
    requires forall i :: 0 <= i < |results| ==>
        results[i].index < |hits| && sorted[i] == Memory(hits[results[i].index].body, results[i].score)
    ensures HitsOf(hits, results) == sorted
  {
    HitsOfAt(hits, results, sorted, |results|);
    assert results[..|results|] == results && sorted[..|results|] == sorted;
  }

  /** Rebuilding the hits from a ranking of the scores gives the reference. */
  lemma RankingIsReference<B>(hits: seq<Memory<B>>, scores: seq<real>, topK: Option<int>)
    requires |scores| == |hits|
    ensures Cut(HitsOf(hits, RankScores(scores)), topK) == Reference(hits, scores, topK)
  {
    var results, sorted := RankScores(scores), SortDesc(Rescore(hits, scores), MemoryScore);
    RankedHits(hits, scores);
    HitsOfAll(hits, results, sorted);
  }

  /** vLLM's `score_map`: the last item of each index. */
  function ScoreMap(items: seq<Item>): map<int, real> {
    if items == [] then map[]
    else
      var last := items[|items| - 1];
      var m := ScoreMap(items[..|items| - 1]);
      if last.index.Some? then m[last.index.value := ScoreOf(last)] else m
  }

  function Scored<B>(hits: seq<Memory<B>>, scoreMap: map<int, real>): seq<Memory<B>> {
    if hits == [] then []
    else
      var i := |hits| - 1;
      Scored(hits[..i], scoreMap) + (if i in scoreMap then [Memory(hits[i].body, scoreMap[i])] else [])
  }

  /** vLLM `rerank_memories`: one request, no batches; on failure the original scores decide. */
  method VllmRerankMemories<B>(hits: seq<Memory<B>>, answer: Answer, topK: Option<int>)
    returns (reranked: seq<Memory<B>>)
    ensures answer.Results? ==> reranked == Cut(SortDesc(Scored(hits, ScoreMap(answer.items)), MemoryScore), topK)
    ensures !answer.Results? ==> reranked == Cut(SortDesc(hits, MemoryScore), topK)
  {
    if hits == [] {
      return [];
    }
    if !answer.Results? {
      return Cut(SortDesc(hits, MemoryScore), topK);
    }
    var items := answer.items;
    var scoreMap: map<int, real> := map[];
    for j := 0 to |items|
      invariant scoreMap == ScoreMap(items[..j])
    {
      assert items[..j + 1][..j] == items[..j];
      if items[j].index.Some? {
        scoreMap := scoreMap[items[j].index.value := ScoreOf(items[j])];
      }
    }
    assert items[..|items|] == items;
    reranked := [];
    for i := 0 to |hits|
      invariant reranked == Scored(hits[..i], scoreMap)
    {
      assert hits[..i + 1][..i] == hits[..i];
      if i in scoreMap {
        reranked := reranked + [Memory(hits[i].body, scoreMap[i])];
      }
    }
    assert hits[..|hits|] == hits;
    reranked := Cut(SortDesc(reranked, MemoryScore), topK);
  }

  lemma {:induction false} ScoreMapOf(items: seq<Item>, scores: seq<real>)
    requires forall j :: 0 <= j < |items| ==>
      items[j].index.Some? && 0 <= items[j].index.value < |scores| && ScoreOf(items[j]) == scores[items[j].index.value]
    ensures forall i :: i in ScoreMap(items) <==> exists j :: 0 <= j < |items| && items[j].index == Some(i)
    ensures forall i :: i in ScoreMap(items) ==> 0 <= i < |scores| && ScoreMap(items)[i] == scores[i]
  {
    if items != [] {
      var m := |items| - 1;
      ScoreMapOf(items[..m], scores);
      forall i ensures i in ScoreMap(items) <==> exists j :: 0 <= j < |items| && items[j].index == Some(i) {
        if i in ScoreMap(items[..m]) {
          var j :| 0 <= j < |items[..m]| && items[..m][j].index == Some(i);
          assert items[j].index == Some(i);
        } else if items[m].index != Some(i) {
          forall j | 0 <= j < |items| ensures items[j].index != Some(i) {
            if j < m {
              assert items[..m][j] == items[j];
            }
          }
        }
      }
    }
  }

  lemma {:induction false} ScoredAll<B>(hits: seq<Memory<B>>, scoreMap: map<int, real>, scores: seq<real>)
    requires |scores| == |hits|
    requires forall i :: 0 <= i < |hits| ==> i in scoreMap && scoreMap[i] == scores[i]
    ensures Scored(hits, scoreMap) == Rescore(hits, scores)
  {
    if hits != [] {
      var n := |hits| - 1;
      ScoredAll(hits[..n], scoreMap, scores[..n]);
    }
  }

  lemma EveryPositionAnswered<D>(docs: seq<D>, f: D -> real, items: seq<Item>, i: nat)
    requires multiset(items) == multiset(CompleteItems(docs, f)) && i < |docs|
    ensures exists j :: 0 <= j < |items| && items[j].index == Some(i)
  {
    var canonical := CompleteItems(docs, f);
    assert canonical[i] in canonical;
    SameMultisetSameMember(items, canonical, canonical[i]);
    var j :| 0 <= j < |items| && items[j] == canonical[i];
    assert items[j].index == Some(i);
  }

  lemma CompleteItemOf<D>(docs: seq<D>, f: D -> real, items: seq<Item>, j: nat)
    requires multiset(items) == multiset(CompleteItems(docs, f)) && j < |items|
    ensures items[j].index.Some? && 0 <= items[j].index.value < |docs|
        && ScoreOf(items[j]) == f(docs[items[j].index.value])
  {
    assert items[j] in items;
    SameMultisetSameMember(items, CompleteItems(docs, f), items[j]);
  }

  /** A complete vLLM answer gives the reference list too, so the three providers agree. */
  lemma VllmCompleteIsReference<B, D>(hits: seq<Memory<B>>, docs: seq<D>, answer: Answer, f: D -> real,
      topK: Option<int>)
    requires |docs| == |hits| && Complete(docs, answer, f)
    ensures Cut(SortDesc(Scored(hits, ScoreMap(answer.items)), MemoryScore), topK)
        == Reference(hits, Map(f, docs), topK)
  {
    var items := answer.items;
    forall j | 0 <= j < |items|
      ensures items[j].index.Some? && 0 <= items[j].index.value < |docs|
          && ScoreOf(items[j]) == Map(f, docs)[items[j].index.value]
    {
      CompleteItemOf(docs, f, items, j);
    }
    ScoreMapOf(items, Map(f, docs));
    forall i | 0 <= i < |hits| ensures i in ScoreMap(items) {
      EveryPositionAnswered(docs, f, items, i);
    }
    ScoredAll(hits, ScoreMap(items), Map(f, docs));
  }

  /** DeepInfra `rerank_memories`: never raises, because failed batches become fill scores. */
  method DeepInfraRerankMemories<B, D>(hits: seq<Memory<B>>, texts: seq<D>, batchSize: int, answers: seq<Answer>,
      topK: Option<int>)
    returns (reranked: seq<Memory<B>>)
    requires |texts| == |hits|
    requires |answers| == |Batches(texts, PositiveSize(batchSize))|
    ensures reranked == Reference(hits,
        Fit(PositionalScores(Batches(texts, PositiveSize(batchSize)), answers, true), |hits|), topK)
  {
    var results := PositionalRerank(texts, batchSize, answers, true);
    reranked := HitsFromRanking(hits, results, topK);
    RankingIsReference(hits, Fit(PositionalScores(Batches(texts, PositiveSize(batchSize)), answers, true), |hits|),
        topK);
  }

  method SiliconFlowRerankMemories<B, D>(hits: seq<Memory<B>>, texts: seq<D>, batchSize: int, answers: seq<Answer>,
      topK: Option<int>)
    returns (reranked: seq<Memory<B>>)
    requires |texts| == |hits|
    requires |answers| == |Batches(texts, NonzeroSize(batchSize))|
    ensures reranked == Reference(hits, GlobalScores(|hits|, NonzeroSize(batchSize), answers), topK)
  {
    var results := SiliconFlowRerank(texts, batchSize, answers);
    reranked := HitsFromRanking(hits, results, topK);
    RankingIsReference(hits, GlobalScores(|hits|, NonzeroSize(batchSize), answers), topK);
  }

  /** Complete answers and positive batch sizes: DeepInfra, SiliconFlow and vLLM return one list. */
  lemma ProvidersAgree<B, D(!new)>(
      hits: seq<Memory<B>>, texts: seq<D>, f: D -> real, topK: Option<int>,
      size: int, answers: seq<Answer>, size': int, answers': seq<Answer>, whole: Answer)
    requires |texts| == |hits| && size > 0 && size' > 0
    requires AllComplete(Batches(texts, size), answers, f)
    requires AllComplete(Batches(texts, size'), answers', f)
    requires Complete(texts, whole, f)
    ensures Reference(hits, Fit(PositionalScores(Batches(texts, size), answers, true), |hits|), topK)
            == Reference(hits, GlobalScores(|hits|, size', answers'), topK)
            == Cut(SortDesc(Scored(hits, ScoreMap(whole.items)), MemoryScore), topK)
            == Reference(hits, Map(f, texts), topK)
  {
    BatchesConcat(texts, size);
    var batches := Batches(texts, size);
    assert batches[..|answers|] == batches && answers[..|answers|] == answers;
    PositionalComplete(batches, answers, f, true, |answers|);
    assert Fit(Map(f, texts), |hits|) == Map(f, texts);
    GlobalIsPointwise(texts, size', answers', f);
    VllmCompleteIsReference(hits, texts, whole, f, topK);
  }

  // ---------- what every provider's answer is made of ----------

  /** out consists of the bodies at pairwise different positions of hits. */
  ghost predicate Selects<B>(out: seq<Memory<B>>, hits: seq<Memory<B>>, chosen: seq<nat>) {
    && |chosen| == |out|
    && Distinct(chosen)
    && forall j :: 0 <= j < |out| ==> chosen[j] < |hits| && out[j].body == hits[chosen[j]].body
  }

  /** DeepInfra and SiliconFlow return each hit at most once, whatever the batches answer. */
  lemma ReferenceSelects<B>(hits: seq<Memory<B>>, scores: seq<real>, topK: Option<int>) returns (chosen: seq<nat>)
    requires |scores| == |hits|
    ensures Selects(Reference(hits, scores, topK), hits, chosen)
  {
    RankScoresIsRanking(scores);
    RankedHits(hits, scores);
    var r := RankScores(scores);
    var out := Reference(hits, scores, topK);
    chosen := seq(|out|, i requires 0 <= i < |out| => r[i].index);
  }

  lemma {:induction false} ScoredSelects<B>(hits: seq<Memory<B>>, scoreMap: map<int, real>) returns (chosen: seq<nat>)
    ensures Selects(Scored(hits, scoreMap), hits, chosen)
    ensures forall j :: 0 <= j < |chosen| ==> chosen[j] < |hits|
  {
    chosen := [];
    if hits != [] {
      var n := |hits| - 1;
      chosen := ScoredSelects(hits[..n], scoreMap);
      if n in scoreMap {
        chosen := chosen + [n];
      }
    }
  }

  /** Sorting and cutting a selection leaves a selection. */
  lemma SortedSelects<B>(s: seq<Memory<B>>, hits: seq<Memory<B>>, chosen: seq<nat>, topK: Option<int>)
    returns (chosen': seq<nat>)
    requires Selects(s, hits, chosen)
    ensures Selects(Cut(SortDesc(s, MemoryScore), topK), hits, chosen')
  {
    var scores := seq(|s|, i requires 0 <= i < |s| => s[i].score);
    assert Rescore(s, scores) == s;
    var p := ReferenceSelects(s, scores, topK);
    var out := Cut(SortDesc(s, MemoryScore), topK);
    chosen' := seq(|out|, i requires 0 <= i < |out| => chosen[p[i]]);
  }

  /** vLLM too, on success and on fallback. */
  lemma VllmSelects<B>(hits: seq<Memory<B>>, answer: Answer, topK: Option<int>) returns (chosen: seq<nat>)
    ensures answer.Results? ==>
      Selects(Cut(SortDesc(Scored(hits, ScoreMap(answer.items)), MemoryScore), topK), hits, chosen)
    ensures !answer.Results? ==> Selects(Cut(SortDesc(hits, MemoryScore), topK), hits, chosen)
  {
    if answer.Results? {
      var c := ScoredSelects(hits, ScoreMap(answer.items));
      chosen := SortedSelects(Scored(hits, ScoreMap(answer.items)), hits, c, topK);
    } else {
      chosen := SortedSelects(hits, hits, seq(|hits|, i => i), topK);
    }
  }
}
