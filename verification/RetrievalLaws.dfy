/** What retrieval returns, in terms of ranks, scores and the answers of the services. */
module RetrievalLaws {
  import opened Outcomes
  import opened Sequences
  import opened StableSort
  import opened RankFusion
  import opened FusionLaws
  import opened Retrieval

  // ---------- the fused score ----------

  /** The sum of 1 / (k + rank) over the lists in which a document stands at the given 0-based places. */
  function RankSum(places: seq<Option<nat>>, k: nat): real {
    if places == [] then 0.0
    else
      RankSum(places[..|places| - 1], k)
      + match places[|places| - 1]
        case None => 0.0
        case Some(p) => 1.0 / ((k + p + 1) as real)
  }

  /** Where x stands in each of the duplicate-free lists. */
  ghost predicate StandsAt<K>(lists: seq<seq<K>>, x: K, places: seq<Option<nat>>) {
    && |places| == |lists|
    && forall m :: 0 <= m < |lists| ==> StandsIn(lists[m], x, places[m])
  }

  ghost predicate StandsIn<K>(list: seq<K>, x: K, place: Option<nat>) {
    && Distinct(list)
    && (place.None? ==> x !in list)
    && (place.Some? ==> place.value < |list| && list[place.value] == x)
  }

  lemma {:induction false} TotalIsRankSum<K>(lists: seq<seq<K>>, x: K, k: nat, places: seq<Option<nat>>)
    requires StandsAt(lists, x, places)
    ensures TotalScore(lists, x, k) == RankSum(places, k)
  {
    if lists != [] {
      var n := |lists| - 1;
      TotalIsRankSum(lists[..n], x, k, places[..n]);
      assert StandsIn(lists[n], x, places[n]);
      DistinctListScore(lists[n], x, k);
    }
  }

  /** The score of every fused hit is the sum of 1 / (k + rank) over the lists that hold its document. */
  lemma FusedScoreExact<K>(lists: seq<seq<Doc>>, k: nat, key: Doc -> K, h: Hit, places: seq<Option<nat>>)
    requires h in FusedBy(lists, k, key) && StandsAt(KeyLists(lists, key), key(h.doc), places)
    ensures h.score == RankSum(places, k)
  {
    SortMember(Scored(lists, k, key), ScoreOf, h);
    TotalIsRankSum(KeyLists(lists, key), key(h.doc), k, places);
  }

  // ---------- the best of one retriever ----------

  /** Nothing that was left out scores more than anything that was kept. */
  ghost predicate KeepsBest(kept: seq<Hit>, all: seq<Hit>) {
    && (forall h :: h in kept ==> h in all)
    && forall h, g :: h in kept && g in all && g !in kept ==> g.score <= h.score
  }

  lemma TakeKeepsBest(all: seq<Hit>, n: int)
    ensures KeepsBest(Take(SortDesc(all, ScoreOf), n), all)
  {
    var sorted, kept := SortDesc(all, ScoreOf), Take(SortDesc(all, ScoreOf), n);
    SortPermutes(all, ScoreOf);
    SortDescending(all, ScoreOf);
    forall h, g | h in kept && g in all && g !in kept ensures g.score <= h.score {
      var i :| 0 <= i < |kept| && kept[i] == h;
      var j :| 0 <= j < |sorted| && sorted[j] == g;
      assert sorted[i] == h;
      assert forall k :: 0 <= k < |kept| ==> kept[k] != g && kept[k] == sorted[k];
      assert ScoreOf(sorted[i]) >= ScoreOf(sorted[j]);
    }
  }

  /** The hits of the embedding search are the candidates that have a similarity, with it as their score. */
  lemma {:induction false} SimilarityMember(candidates: seq<Doc>, similarity: Doc -> Option<real>, h: Hit)
    ensures h in SimilarityHits(candidates, similarity)
      <==> h.doc in candidates && similarity(h.doc) == Some(h.score)
  {
    if candidates != [] {
      var rest, d := candidates[..|candidates| - 1], candidates[|candidates| - 1];
      assert candidates == rest + [d];
      SimilarityMember(rest, similarity, h);
      var more := match similarity(d) case Some(v) => [Hit(d, v)] case None => [];
      assert SimilarityHits(candidates, similarity) == SimilarityHits(rest, similarity) + more;
      if h.doc == d && similarity(d) == Some(h.score) {
        assert more == [h];
      }
    }
  }

  /** A hit of a list of candidates and scores, side by side. */
  lemma ZipMember(candidates: seq<Doc>, scores: seq<real>, h: Hit)
    ensures h in Zip(candidates, scores)
      <==> exists i :: 0 <= i < |candidates| && i < |scores| && h == Hit(candidates[i], scores[i])
  {
    var r := Zip(candidates, scores);
    if h in r {
      var i :| 0 <= i < |r| && r[i] == h;
    }
    if exists i :: 0 <= i < |candidates| && i < |scores| && h == Hit(candidates[i], scores[i]) {
      var i :| 0 <= i < |candidates| && i < |scores| && h == Hit(candidates[i], scores[i]);
      assert r[i] == h;
    }
  }

  /** The first `n` of the first `m` are the best of all. */
  lemma TwiceCut(all: seq<Hit>, m: int, n: int)
    ensures KeepsBest(Take(Take(SortDesc(all, ScoreOf), m), n), all)
  {
    var sorted := SortDesc(all, ScoreOf);
    var kept := Take(Take(sorted, m), n);
    TakeKeepsBest(all, |kept|);
    assert kept == Take(sorted, |kept|);
  }

  /** Without any similarity, retrieval returns the best BM25 hits, each with its own BM25 score. */
  lemma OnlyBm25(candidates: seq<Doc>, env: Retrievers, embTopN: int, bm25TopN: int, finalTopN: int)
    requires env.similarity.None? && env.bm25.Some?
    ensures var r := Lightweight(candidates, env, embTopN, bm25TopN, finalTopN);
      && KeepsBest(r, Zip(candidates, env.bm25.value))
      && (bm25TopN >= |candidates| && finalTopN >= |candidates| ==> |r| == |Zip(candidates, env.bm25.value)|)
  {
    TwiceCut(Zip(candidates, env.bm25.value), bm25TopN, finalTopN);
  }

  /** Without BM25, the hits with the best similarity. */
  lemma OnlyEmbedding(candidates: seq<Doc>, env: Retrievers, embTopN: int, bm25TopN: int, finalTopN: int)
    requires env.bm25.None? && env.similarity.Some?
    ensures var r := Lightweight(candidates, env, embTopN, bm25TopN, finalTopN);
      && KeepsBest(r, SimilarityHits(candidates, env.similarity.value))
      && (embTopN >= |candidates| && finalTopN >= |candidates| ==>
            |r| == |SimilarityHits(candidates, env.similarity.value)|)
  {
    if env.similarity.Some? {
      TwiceCut(SimilarityHits(candidates, env.similarity.value), embTopN, finalTopN);
      SimilarityLength(candidates, env.similarity.value);
    }
  }

  lemma {:induction false} SimilarityLength(candidates: seq<Doc>, similarity: Doc -> Option<real>)
    ensures |SimilarityHits(candidates, similarity)| <= |candidates|
  {
    if candidates != [] {
      SimilarityLength(candidates[..|candidates| - 1], similarity);
    }
  }

  /** With hits of both, every result scores 1 / (60 + rank) for each retriever that found its id. */
  lemma BothScored(candidates: seq<Doc>, env: Retrievers, embTopN: int, bm25TopN: int, finalTopN: int, h: Hit,
      inEmb: Option<nat>, inBm25: Option<nat>)
    requires h in Lightweight(candidates, env, embTopN, bm25TopN, finalTopN)
    requires var emb, bm25 := EmbeddingResults(candidates, env, embTopN), Bm25Results(candidates, env, bm25TopN);
      && emb != [] && bm25 != []
      && StandsIn(Keys(Docs(emb), IdOf), h.doc.id, inEmb) && StandsIn(Keys(Docs(bm25), IdOf), h.doc.id, inBm25)
    ensures h.score == RankSum([inEmb, inBm25], 60)
    ensures h.doc in Docs(EmbeddingResults(candidates, env, embTopN)) + Docs(Bm25Results(candidates, env, bm25TopN))
  {
    var emb, bm25 := EmbeddingResults(candidates, env, embTopN), Bm25Results(candidates, env, bm25TopN);
    var lists := [Docs(emb), Docs(bm25)];
    assert KeyLists(lists, IdOf) == [Keys(Docs(emb), IdOf), Keys(Docs(bm25), IdOf)];
    FusedScoreExact(lists, 60, IdOf, h, [inEmb, inBm25]);
    FusedMembers(lists, 60, IdOf);
    FlattenTwo(Docs(emb), Docs(bm25));
    FirstByKeyFacts(Docs(emb) + Docs(bm25), IdOf);
  }

  // ---------- several queries ----------

  lemma {:induction false} ValidConcat(a: seq<Try<seq<Hit>>>, b: seq<Try<seq<Hit>>>)
    ensures ValidResults(a + b) == ValidResults(a) + ValidResults(b)
  {
    if b == [] {
      assert a + b == a;
    } else {
      assert (a + b)[..|a + b| - 1] == a + b[..|b| - 1];
      ValidConcat(a, b[..|b| - 1]);
    }
  }

  lemma FailedNotValid(before: seq<Try<seq<Hit>>>, failed: Try<seq<Hit>>, later: seq<Try<seq<Hit>>>)
    requires failed.Raised? || failed.value == []
    ensures ValidResults(before + [failed] + later) == ValidResults(before + later)
  {
    ValidConcat(before + [failed], later);
    ValidConcat(before, [failed]);
    ValidConcat(before, later);
    assert [failed][..0] == [];
  }

  /** A query that fails or finds nothing makes no difference, wherever it stands among the others. */
  lemma FailedQueryIgnored(before: seq<Try<seq<Hit>>>, failed: Try<seq<Hit>>, later: seq<Try<seq<Hit>>>,
      candidates: seq<Doc>, finalTopN: int, k: nat)
    requires failed.Raised? || failed.value == []
    ensures MultiQuery(before + [failed] + later, candidates, finalTopN, k)
            == MultiQuery(before + later, candidates, finalTopN, k)
  {
    var a, b := before + [failed] + later, before + later;
    FailedNotValid(before, failed, later);
    SameValid(a, b, candidates, finalTopN, k);
  }

  lemma SameValid(a: seq<Try<seq<Hit>>>, b: seq<Try<seq<Hit>>>, candidates: seq<Doc>, finalTopN: int, k: nat)
    requires ValidResults(a) == ValidResults(b)
    ensures MultiQuery(a, candidates, finalTopN, k) == MultiQuery(b, candidates, finalTopN, k)
  {
  }

  /** Queries that all find something are fused as they are. */
  lemma {:induction false} AllQueriesCount(lists: seq<seq<Hit>>)
    requires forall l :: l in lists ==> l != []
    ensures ValidResults(Map(AsReturned, lists)) == lists
  {
    if lists != [] {
      var n := |lists| - 1;
      assert lists[n] in lists && forall l :: l in lists[..n] ==> l in lists;
      AllQueriesCount(lists[..n]);
      assert Map(AsReturned, lists)[..n] == Map(AsReturned, lists[..n]);
      assert lists == lists[..n] + [lists[n]];
    }
  }

  function AsReturned(l: seq<Hit>): Try<seq<Hit>> { Returned(l) }

  // ---------- reranking ----------

  /** The candidate that an entry of the service's answer names: by its index, without one by its global index, and
      without either the first. */
  function Named(h: RerankHit): int
    requires h.Dict?
  {
    if h.index.None? && h.globalIndex.None? then 0
    else if h.index.None? then h.globalIndex.value
    else h.index.value
  }

  /** The entry is a dict and names one of n candidates. */
  function UsableIn(n: nat): RerankHit -> bool {
    (h: RerankHit) => h.Dict? && 0 <= Named(h) < n
  }

  /** The candidate that an entry names, with the entry's score. */
  function NamedHit(candidates: seq<Hit>): RerankHit -> Hit {
    (h: RerankHit) =>
      if h.Dict? && 0 <= Named(h) < |candidates| then Hit(candidates[Named(h)].doc, h.score)
      else Hit(Doc(0, ""), 0.0)
  }

  lemma {:induction false} UsableAreFiltered(candidates: seq<Hit>, hits: seq<RerankHit>)
    ensures Rescored(candidates, UsableIndices(hits, |candidates|), UsableScores(hits, |candidates|))
            == Map(NamedHit(candidates), Filter(UsableIn(|candidates|), hits))
  {
    if hits != [] {
      var rest, last := hits[..|hits| - 1], hits[|hits| - 1];
      UsableAreFiltered(candidates, rest);
      var kept := Filter(UsableIn(|candidates|), rest);
      if Usable(last, |candidates|) {
        assert Filter(UsableIn(|candidates|), hits) == kept + [last];
        MapConcat(NamedHit(candidates), kept, [last]);
      }
    }
  }

  /** The reranked list is the named candidates, in the order and with the scores of the service's answer; a
      service that fails, or names none, leaves the candidates as they were. */
  lemma RerankedExact(candidates: seq<Hit>, topN: int, reply: Try<seq<RerankHit>>)
    requires candidates != []
    ensures var named := if reply.Raised? then []
                         else Map(NamedHit(candidates), Filter(UsableIn(|candidates|), Take(reply.value, topN)));
      Reranked(candidates, topN, reply) == if named == [] then Take(candidates, topN) else named
  {
    if reply.Returned? {
      UsableAreFiltered(candidates, Take(reply.value, topN));
    }
  }

  // ---------- merging ----------

  /** Some hit holds the same object, whatever the ids say. */
  ghost predicate Holds(hits: seq<Hit>, addr: nat) {
    exists g :: g in hits && g.doc.addr == addr
  }

  lemma NewDocsNext(round1: seq<Hit>, rest: seq<Hit>, last: Hit)
    ensures NewDocs(round1, rest + [last])
            == if Holds(round1, last.doc.addr) then NewDocs(round1, rest) else NewDocs(round1, rest) + [last]
  {
    var seen := set h | h in round1 :: h.doc.addr;
    FilterLast((h: Hit) => h.doc.addr !in seen, rest, last);
  }

  /** A hit of the second round is dropped exactly if the first holds its object; the others stay, as often as they
      came. */
  lemma {:induction false} NewDocsExact(round1: seq<Hit>, round2: seq<Hit>, h: Hit)
    ensures multiset(NewDocs(round1, round2))[h] == if Holds(round1, h.doc.addr) then 0 else multiset(round2)[h]
  {
    if round2 != [] {
      var rest, last := round2[..|round2| - 1], round2[|round2| - 1];
      NewDocsExact(round1, rest, h);
      NewDocsNext(round1, rest, last);
      assert round2 == rest + [last];
      assert multiset(round2) == multiset(rest) + multiset{last};
    }
  }

  // ---------- the second round ----------

  /** Round 1 and the check list both found something, and the model answered that it is not enough. */
  predicate AsksForMore(candidates: seq<Doc>, w: World, c: Config) {
    && Round1(candidates, w, c) != [] && TopForCheck(Round1(candidates, w, c), w, c) != []
    && w.sufficient == Returned(false)
  }

  lemma ExitExact(candidates: seq<Doc>, w: World, c: Config)
    ensures ExitOf(candidates, w, c) == Finished <==> AsksForMore(candidates, w, c) && !w.round2Raises
  {
  }

  /** What a finished second round returns. */
  ghost predicate FinishedFits(one: seq<Hit>, two: seq<Hit>, results: seq<Hit>, c: Config) {
    var combined := one + Take(NewDocs(one, two), c.combinedTotal - |one|);
    && (!c.useReranker ==> results == Take(combined, c.finalTopN))
    && (forall h :: h in results ==> h.doc in Docs(combined))
  }

  lemma Finishes(query: string, candidates: seq<Doc>, w: World, c: Config)
    requires ExitOf(candidates, w, c) == Finished
    ensures FinishedFits(Round1(candidates, w, c), Round2(query, candidates, w, c),
                         FinalResults(query, candidates, w, c), c)
  {
    var combined := Combined(query, candidates, w, c);
    RerankedFrom(combined, c.finalTopN, w.rerank2);
    TakeFrom(combined, c.finalTopN);
  }

  /** Only the answer "not sufficient" starts the second round, and only a second round without an exception
      changes what round 1 returned: to round 1 followed by new documents of round 2, cut, or reranked. */
  lemma SecondRoundExact(query: string, candidates: seq<Doc>, w: World, c: Config)
    ensures var results, one := FinalResults(query, candidates, w, c), Round1(candidates, w, c);
      if AsksForMore(candidates, w, c) && !w.round2Raises
      then FinishedFits(one, Round2(query, candidates, w, c), results, c)
      else results == one
  {
    ExitExact(candidates, w, c);
    if ExitOf(candidates, w, c) == Finished {
      Finishes(query, candidates, w, c);
    }
  }

  lemma TakeFrom(hits: seq<Hit>, n: int)
    ensures forall h :: h in Take(hits, n) ==> h.doc in Docs(hits)
  {
    forall h | h in Take(hits, n) ensures h.doc in Docs(hits) {
      var i :| 0 <= i < |Take(hits, n)| && Take(hits, n)[i] == h;
      assert Docs(hits)[i] == h.doc;
    }
  }

  lemma RerankedFrom(hits: seq<Hit>, n: int, reply: Try<seq<RerankHit>>)
    ensures forall h :: h in Reranked(hits, n, reply) ==> h.doc in Docs(hits)
  {
    TakeFrom(hits, n);
    forall h | h in Reranked(hits, n, reply) ensures h.doc in Docs(hits) {
      if hits != [] && reply.Returned? && h !in Take(hits, n) {
        var taken := Take(reply.value, n);
        var r := Rescored(hits, UsableIndices(taken, |hits|), UsableScores(taken, |hits|));
        var j :| 0 <= j < |r| && r[j] == h;
        assert Docs(hits)[UsableIndices(taken, |hits|)[j]] == h.doc;
      }
    }
  }

  /** Which limit cuts what in round 1: what the retrievers found by their own limits, the result by the round's. */
  lemma FirstRoundCuts(candidates: seq<Doc>, w: World, c: Config)
    requires w.round1.Returned? && candidates != []
    ensures var env, one := w.round1.value, Round1(candidates, w, c);
      && (env.bm25.None? && env.similarity.Some? ==>
            one == Take(Take(SortDesc(SimilarityHits(candidates, env.similarity.value), ScoreOf), c.embTopN),
                        c.round1TopN))
      && (env.similarity.None? && env.bm25.Some? ==>
            one == Take(Take(SortDesc(Zip(candidates, env.bm25.value), ScoreOf), c.bm25TopN), c.round1TopN))
  {
    EmptyTake(c.round1TopN);
  }

  lemma EmptyTake(n: int)
    ensures Take<Hit>([], n) == []
  {
  }

  lemma OneValid(list: seq<Hit>)
    ensures ValidResults([Returned(list)]) == if list == [] then [] else [list]
  {
    assert [Returned(list)][..0] == [];
  }

  lemma TakeAgain(hits: seq<Hit>, n: int)
    requires n >= 0
    ensures Take(Take(hits, n), n) == Take(hits, n)
  {
  }

  lemma LightweightCut(candidates: seq<Doc>, env: Retrievers, embTopN: int, bm25TopN: int, n: int)
    requires n >= 0
    ensures var r := Lightweight(candidates, env, embTopN, bm25TopN, n); Take(r, n) == r
  {
    EmptyTake(n);
    TakeAgain(Bm25Results(candidates, env, bm25TopN), n);
    TakeAgain(EmbeddingResults(candidates, env, embTopN), n);
    var lists := [Docs(EmbeddingResults(candidates, env, embTopN)), Docs(Bm25Results(candidates, env, bm25TopN))];
    TakeAgain(FusedBy(lists, 60, IdOf), n);
  }

  /** Round 2 is cut at the limit of one query, and a single query is retrieved as by itself under that limit. */
  lemma SecondRoundCuts(query: string, candidates: seq<Doc>, w: World, c: Config)
    requires c.perQueryTopN >= 0 && candidates != []
    ensures |Round2(query, candidates, w, c)| <= c.perQueryTopN
    ensures !c.enableMultiQuery && w.perQuery(query).Returned? ==>
      Round2(query, candidates, w, c)
      == Lightweight(candidates, w.perQuery(query).value, c.embTopN, c.bm25TopN, c.perQueryTopN)
  {
    if !c.enableMultiQuery && w.perQuery(query).Returned? {
      var r := Lightweight(candidates, w.perQuery(query).value, c.embTopN, c.bm25TopN, c.perQueryTopN);
      assert QueryResults([query], candidates, w, c) == [Returned(r)];
      OneValid(r);
      EmptyTake(c.perQueryTopN);
      LightweightCut(candidates, w.perQuery(query).value, c.embTopN, c.bm25TopN, c.perQueryTopN);
    }
  }

  /** Worlds that differ in the rerank answers only. */
  ghost predicate SameButReranks(w: World, v: World) {
    v == w.(rerank1 := v.rerank1, rerank2 := v.rerank2)
  }

  lemma SameRounds(query: string, candidates: seq<Doc>, w: World, v: World, c: Config)
    requires SameButReranks(w, v)
    ensures Round1(candidates, w, c) == Round1(candidates, v, c)
    ensures Round2(query, candidates, w, c) == Round2(query, candidates, v, c)
  {
    SameQueries(Queries(query, w, c), candidates, w, v, c);
  }

  lemma SameExit(candidates: seq<Doc>, w: World, v: World, c: Config)
    requires !c.useReranker && SameButReranks(w, v) && Round1(candidates, w, c) == Round1(candidates, v, c)
    ensures ExitOf(candidates, w, c) == ExitOf(candidates, v, c)
  {
    var one := Round1(candidates, w, c);
    assert TopForCheck(one, w, c) == TopForCheck(one, v, c);
  }

  lemma SameCombined(query: string, candidates: seq<Doc>, w: World, v: World, c: Config)
    requires SameButReranks(w, v)
    ensures Combined(query, candidates, w, c) == Combined(query, candidates, v, c)
  {
    SameRounds(query, candidates, w, v, c);
  }

  /** With the reranker switched off, what the rerank service would answer makes no difference. */
  lemma RerankerOff(query: string, candidates: seq<Doc>, w: World, v: World, c: Config)
    requires !c.useReranker && SameButReranks(w, v)
    ensures ExitOf(candidates, w, c) == ExitOf(candidates, v, c)
    ensures FinalResults(query, candidates, w, c) == FinalResults(query, candidates, v, c)
  {
    SameRounds(query, candidates, w, v, c);
    SameExit(candidates, w, v, c);
    SameCombined(query, candidates, w, v, c);
  }

  /** A rerank service that fails both times is like none. */
  lemma RerankerFails(query: string, candidates: seq<Doc>, w: World, c: Config)
    requires c.useReranker && w.rerank1.Raised? && w.rerank2.Raised?
    ensures ExitOf(candidates, w, c) == ExitOf(candidates, w, c.(useReranker := false))
    ensures FinalResults(query, candidates, w, c) == FinalResults(query, candidates, w, c.(useReranker := false))
  {
    var off := c.(useReranker := false);
    assert Round1(candidates, w, c) == Round1(candidates, w, off);
    var r := QueryResults(Queries(query, w, c), candidates, w, c);
    var r' := QueryResults(Queries(query, w, off), candidates, w, off);
    assert forall i :: 0 <= i < |r| ==> r[i] == r'[i];
    assert r == r';
  }

  lemma SameQueries(queries: seq<string>, candidates: seq<Doc>, w: World, v: World, c: Config)
    requires forall q :: q in queries ==> w.perQuery(q) == v.perQuery(q)
    ensures QueryResults(queries, candidates, w, c) == QueryResults(queries, candidates, v, c)
  {
    forall i | 0 <= i < |queries|
      ensures QueryResults(queries, candidates, w, c)[i] == QueryResults(queries, candidates, v, c)[i]
    {
      assert queries[i] in queries;
    }
  }

  /** Round 2 asks the refined queries if several are enabled and could be made, and otherwise the original
      one: what other queries would find makes no difference. */
  lemma QueriesAsked(query: string, candidates: seq<Doc>, w: World, v: World, c: Config)
    requires v.refined == w.refined
    requires if c.enableMultiQuery && w.refined.Returned?
             then forall q :: q in w.refined.value ==> v.perQuery(q) == w.perQuery(q)
             else v.perQuery(query) == w.perQuery(query)
    ensures Round2(query, candidates, w, c) == Round2(query, candidates, v, c)
  {
    SameQueries(Queries(query, w, c), candidates, w, v, c);
  }
}
