/** What the rerank providers make of the less usual answers, and which hits a cut keeps. */
module RerankLaws {
  import opened Outcomes
  import opened Sequences
  import opened StableSort
  import opened Rerank
  import opened RerankPlaces
  import opened RerankMemories

  // ---------- bare score lists ----------

  /** An answer that scores the whole batch: as items in any order, or as a bare list in document order. */
  ghost predicate Scores<D>(batch: seq<D>, answer: Answer, f: D -> real) {
    Complete(batch, answer, f) || answer == Answer.Scores(Map(f, batch))
  }

  lemma ScoredPiece<D>(batch: seq<D>, answer: Answer, f: D -> real)
    requires Scores(batch, answer, f)
    ensures PositionalPiece(batch, answer, true) == Map(f, batch)
  {
    if Complete(batch, answer, f) {
      CompletePiece(batch, answer, f, true);
    }
  }

  lemma {:induction false} PositionalScored<D>(batches: seq<seq<D>>, answers: seq<Answer>, f: D -> real, m: nat)
    requires m <= |batches| == |answers| && forall i :: 0 <= i < |batches| ==> Scores(batches[i], answers[i], f)
    ensures PositionalScores(batches[..m], answers[..m], true) == Map(f, Flatten(batches[..m]))
  {
    if m > 0 {
      PositionalScored(batches, answers, f, m - 1);
      PositionalNext(batches, answers, true, m - 1);
      FlattenNext(batches, m - 1);
      ScoredPiece(batches[m - 1], answers[m - 1], f);
      MapConcat(f, Flatten(batches[..m - 1]), batches[m - 1]);
    }
  }

  /** DeepInfra reads bare score lists as they are, in document order: mixed with complete items they still give
      the unbatched ranking, for every positive batch size. */
  lemma BareScoresRank<D(!new)>(docs: seq<D>, size: int, answers: seq<Answer>, f: D -> real)
    requires size > 0 && |answers| == |Batches(docs, size)|
    requires forall i :: 0 <= i < |answers| ==> Scores(Batches(docs, size)[i], answers[i], f)
    ensures RankScores(Fit(PositionalScores(Batches(docs, size), answers, true), |docs|)) == Unbatched(docs, f)
  {
    var batches := Batches(docs, size);
    BatchesConcat(docs, size);
    assert batches[..|answers|] == batches && answers[..|answers|] == answers;
    PositionalScored(batches, answers, f, |answers|);
    assert Fit(Map(f, docs), |docs|) == Map(f, docs);
  }

  /** Answers without a list of results. */
  predicate Unread(answer: Answer) { answer.Scores? || answer.Neither? }

  lemma {:induction false} NothingRead<D>(batches: seq<seq<D>>, answers: seq<Answer>)
    requires |answers| == |batches| && forall i :: 0 <= i < |answers| ==> Unread(answers[i])
    ensures PositionalScores(batches, answers, false) == []
  {
    if batches != [] {
      NothingRead(batches[..|batches| - 1], answers[..|batches| - 1]);
    }
  }

  lemma {:induction false} NothingWritten(n: nat, size: int, answers: seq<Answer>)
    requires forall i :: 0 <= i < |answers| ==> Unread(answers[i])
    ensures GlobalScores(n, size, answers) == seq(n, _ => 0.0)
  {
    if answers != [] {
      NothingWritten(n, size, answers[..|answers| - 1]);
    }
  }

  /** vLLM and SiliconFlow do not read them: every document is ranked in its order with score zero. */
  lemma UnreadAnswersRankNothing<D>(docs: seq<D>, size: int, answers: seq<Answer>, i: nat)
    requires size > 0 && |answers| == |Batches(docs, size)| && i < |docs|
    requires forall k :: 0 <= k < |answers| ==> Unread(answers[k])
    ensures RankScores(Fit(PositionalScores(Batches(docs, size), answers, false), |docs|))[i] == Ranked(i, 0.0, i)
    ensures RankScores(GlobalScores(|docs|, size, answers))[i] == Ranked(i, 0.0, i)
  {
    NothingRead(Batches(docs, size), answers);
    NothingWritten(|docs|, size, answers);
    var zeros := seq(|docs|, _ => 0.0);
    assert Fit([], |docs|) == zeros;
    SortedIsFixed(Indexed(zeros), PairScore);
  }

  // ---------- items with missing fields ----------

  /** The number and the score that an item stands for; a missing one counts as zero. */
  predicate Reads(item: Item, number: int, score: real) {
    && (item.index == Some(number) || (item.index.None? && number == 0))
    && (item.score == Some(score) || (item.score.None? && score == 0.0))
  }

  ghost predicate AllRead(items: seq<Item>, pairs: seq<(int, real)>) {
    |pairs| == |items| && forall k :: 0 <= k < |items| ==> Reads(items[k], pairs[k].0, pairs[k].1)
  }

  function PairOf(item: Item): (int, real) { (IndexOf(item), ScoreOf(item)) }

  function ByNumber(p: (int, real)): real { -(p.0 as real) }

  function SecondOf(p: (int, real)): real { p.1 }

  lemma ReadsAre(items: seq<Item>, pairs: seq<(int, real)>)
    requires AllRead(items, pairs)
    ensures Map(PairOf, items) == pairs
  {
    assert forall k :: 0 <= k < |items| ==> Reads(items[k], pairs[k].0, pairs[k].1);
  }

  /** By position: the scores of an answer in the order of its numbers, equal ones as they came. */
  lemma ByPositionExact(items: seq<Item>, pairs: seq<(int, real)>)
    requires AllRead(items, pairs)
    ensures ByPosition(items) == Map(SecondOf, SortDesc(pairs, ByNumber))
  {
    ReadsAre(items, pairs);
    SortMap(items, PairOf, ByIndex, ByNumber);
    var sorted := SortDesc(items, ByIndex);
    assert Map(SecondOf, Map(PairOf, sorted)) == Map(ScoreOf, sorted);
  }

  /** Item j is the last one with the number k; -1 says that there is none. */
  ghost predicate LastWith(pairs: seq<(int, real)>, j: int, k: int) {
    -1 <= j < |pairs| && (j >= 0 ==> pairs[j].0 == k) && forall m :: j < m < |pairs| ==> pairs[m].0 != k
  }

  lemma WriteNext(scores: seq<real>, start: int, items: seq<Item>, number: int, score: real, d: nat)
    requires items != [] && Reads(items[|items| - 1], number, score) && d < |scores|
    ensures WriteItems(scores, start, items)[d]
            == if number == d - start then score else WriteItems(scores, start, items[..|items| - 1])[d]
  {
  }

  /** By global index: place d gets the score of the last item whose number leads there, and keeps what it had
      without one. */
  lemma {:induction false} WrittenExact(scores: seq<real>, start: int, items: seq<Item>, pairs: seq<(int, real)>,
      d: nat, j: int)
    requires AllRead(items, pairs) && d < |scores| && LastWith(pairs, j, d - start)
    ensures WriteItems(scores, start, items)[d] == if j < 0 then scores[d] else pairs[j].1
  {
    if items != [] {
      var n := |items| - 1;
      WriteNext(scores, start, items, pairs[n].0, pairs[n].1, d);
      if pairs[n].0 != d - start {
        WrittenExact(scores, start, items[..n], pairs[..n], d, j);
      }
    }
  }

  // ---------- the default batch size ----------

  /** Without a usable batch size every batch but the last holds ten documents. */
  lemma TenByDefault<D>(docs: seq<D>, i: nat)
    ensures forall size: int :: size <= 0 && i + 1 < |Batches(docs, PositiveSize(size))| ==>
      |Batches(docs, PositiveSize(size))[i]| == 10
    ensures i + 1 < |Batches(docs, NonzeroSize(0))| ==> |Batches(docs, NonzeroSize(0))[i]| == 10
    ensures forall size: int :: size > 0 ==> PositiveSize(size) == size && NonzeroSize(size) == size
  {
    if i + 1 < |Batches(docs, 10)| {
      FullBatch(docs, 10, i);
    }
  }

  // ---------- the hits that are kept ----------

  /** The hits with the best scores, best first: each with its own new score, as many as a positive limit allows
      and all of them without one, and none left out that scores more than one kept. */
  lemma ReferenceBest<B>(hits: seq<Memory<B>>, scores: seq<real>, topK: Option<int>)
    requires |scores| == |hits|
    ensures var r := Reference(hits, scores, topK);
      && |r| == (if topK.Some? && 0 < topK.value < |hits| then topK.value else |hits|)
      && Descending(r, MemoryScore)
      && (forall m :: m in r ==> exists i :: 0 <= i < |hits| && m == Memory(hits[i].body, scores[i]))
      && (forall m, i :: m in r && 0 <= i < |hits| && Memory(hits[i].body, scores[i]) !in r ==> scores[i] <= m.score)
  {
    var all := Rescore(hits, scores);
    var sorted, r := SortDesc(all, MemoryScore), Reference(hits, scores, topK);
    SortPermutes(all, MemoryScore);
    SortDescending(all, MemoryScore);
    forall m | m in r ensures exists i :: 0 <= i < |hits| && m == Memory(hits[i].body, scores[i]) {
      assert m in sorted;
      SameMultisetSameMember(sorted, all, m);
      var i :| 0 <= i < |all| && all[i] == m;
    }
    forall m, i | m in r && 0 <= i < |hits| && Memory(hits[i].body, scores[i]) !in r ensures scores[i] <= m.score {
      assert all[i] in sorted;
      LeftOutIsLess(sorted, r, m, all[i]);
    }
  }

  lemma LeftOutIsLess<B>(sorted: seq<Memory<B>>, kept: seq<Memory<B>>, m: Memory<B>, other: Memory<B>)
    requires Descending(sorted, MemoryScore) && kept <= sorted && m in kept && other in sorted && other !in kept
    ensures other.score <= m.score
  {
    var i :| 0 <= i < |kept| && kept[i] == m;
    var j :| 0 <= j < |sorted| && sorted[j] == other;
    assert forall k :: 0 <= k < |kept| ==> kept[k] != other && kept[k] == sorted[k];
    assert MemoryScore(sorted[i]) >= MemoryScore(sorted[j]);
  }

  // ---------- vLLM's score map ----------

  /** Item j is the last one that names document i. */
  ghost predicate LastNaming(items: seq<Item>, i: int, j: nat) {
    j < |items| && items[j].index == Some(i) && forall k :: j < k < |items| ==> items[k].index != Some(i)
  }

  lemma {:induction false} MapHoldsLast(items: seq<Item>, i: int)
    ensures forall j: nat :: LastNaming(items, i, j) ==> i in ScoreMap(items) && ScoreMap(items)[i] == ScoreOf(items[j])
    ensures (forall j :: 0 <= j < |items| ==> items[j].index != Some(i)) ==> i !in ScoreMap(items)
  {
    if items != [] {
      var n := |items| - 1;
      MapHoldsLast(items[..n], i);
      forall j: nat | LastNaming(items, i, j) ensures i in ScoreMap(items) && ScoreMap(items)[i] == ScoreOf(items[j]) {
        if j < n {
          assert items[n].index != Some(i);
          assert LastNaming(items[..n], i, j);
        }
      }
    }
  }

  lemma {:induction false} ScoredMember<B>(hits: seq<Memory<B>>, scoreMap: map<int, real>, m: Memory<B>)
    ensures m in Scored(hits, scoreMap)
      <==> exists i :: 0 <= i < |hits| && i in scoreMap && m == Memory(hits[i].body, scoreMap[i])
  {
    if hits != [] {
      var n := |hits| - 1;
      ScoredMember(hits[..n], scoreMap, m);
      if exists i :: 0 <= i < |hits| && i in scoreMap && m == Memory(hits[i].body, scoreMap[i]) {
        var i :| 0 <= i < |hits| && i in scoreMap && m == Memory(hits[i].body, scoreMap[i]);
        assert i < n ==> hits[..n][i] == hits[i];
      }
    }
  }

  /** vLLM, uncut: a hit is returned exactly if some item names it, with the score of the last one that does. */
  lemma VllmExact<B>(hits: seq<Memory<B>>, items: seq<Item>, m: Memory<B>)
    ensures m in SortDesc(Scored(hits, ScoreMap(items)), MemoryScore)
      <==> exists i: nat, j: nat ::
          i < |hits| && LastNaming(items, i, j) && m == Memory(hits[i].body, ScoreOf(items[j]))
  {
    SortMember(Scored(hits, ScoreMap(items)), MemoryScore, m);
    ScoredMember(hits, ScoreMap(items), m);
    if m in Scored(hits, ScoreMap(items)) {
      var i :| 0 <= i < |hits| && i in ScoreMap(items) && m == Memory(hits[i].body, ScoreMap(items)[i]);
      MapHoldsLast(items, i);
      var j := LastNamed(items, i);
    }
    if exists i: nat, j: nat :: i < |hits| && LastNaming(items, i, j) && m == Memory(hits[i].body, ScoreOf(items[j])) {
      var i: nat, j: nat :| i < |hits| && LastNaming(items, i, j) && m == Memory(hits[i].body, ScoreOf(items[j]));
      MapHoldsLast(items, i);
    }
  }

  lemma {:induction false} LastNamed(items: seq<Item>, i: int) returns (j: nat)
    requires i in ScoreMap(items)
    ensures LastNaming(items, i, j)
  {
    var n := |items| - 1;
    if items[n].index == Some(i) {
      j := n;
    } else {
      j := LastNamed(items[..n], i);
    }
  }
}
