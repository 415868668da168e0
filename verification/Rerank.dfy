/** `rerank_documents` of the three providers: DeepInfra and vLLM reassemble the batch scores by
    position, SiliconFlow by global index. */
module Rerank {
  import opened Outcomes
  import opened Sequences
  import opened StableSort

  /** One item of a provider's `results` list; both fields may be missing. */
  datatype Item = Item(index: Option<int>, score: Option<real>)

  /** The outcome of one batch request: an exception, a `results` list, a bare `scores` list, or
      a body with neither key. */
  datatype Answer = Failed | Results(items: seq<Item>) | Scores(scores: seq<real>) | Neither

  /** One entry of the `results` list returned by `rerank_documents`. */
  datatype Ranked = Ranked(index: nat, score: real, rank: nat)

  function IndexOf(item: Item): int { if item.index.Some? then item.index.value else 0 }
  function ScoreOf(item: Item): real { if item.score.Some? then item.score.value else 0.0 }
  function ByIndex(item: Item): real { -(IndexOf(item) as real) }
  function PairScore(p: (nat, real)): real { p.1 }

  const FAILED_SCORE := -100.0

  // ---------- batches ----------

  /** `[documents[i:i+size] for i in range(0, len(documents), size)]`, empty for a negative step */
  function Batches<D>(docs: seq<D>, size: int): (r: seq<seq<D>>)
    requires size != 0
    decreases |docs|
  {
    if size < 0 || docs == [] then []
    else if |docs| <= size then [docs]
    else [docs[..size]] + Batches(docs[size..], size)
  }

  /** `batch_size = 10 if batch_size <= 0` (DeepInfra, vLLM) */
  function PositiveSize(size: int): (r: int)
    ensures r > 0
  {
    if size <= 0 then 10 else size
  }

  /** `batch_size or 10` (SiliconFlow): a negative size is kept. */
  function NonzeroSize(size: int): (r: int)
    ensures r != 0
  {
    if size == 0 then 10 else size
  }

  // ---------- ranking ----------

  function Indexed(scores: seq<real>): (r: seq<(nat, real)>)
    ensures |r| == |scores|
    ensures forall i :: 0 <= i < |r| ==> r[i] == (i, scores[i])
  {
    seq(|scores|, i requires 0 <= i < |scores| => (i, scores[i]))
  }

  /** Enumerate, sort by score descending, number the ranks. */
  function RankScores(scores: seq<real>): (r: seq<Ranked>)
    ensures |r| == |scores|
  {
    var sorted := SortDesc(Indexed(scores), PairScore);
    seq(|sorted|, i requires 0 <= i < |sorted| => Ranked(sorted[i].0, sorted[i].1, i))
  }

  ghost predicate Ranks(r: seq<Ranked>, d: nat) {
    exists i :: 0 <= i < |r| && r[i].index == d
  }

  /** A well-formed ranking of a score vector: ranks count up, every document appears exactly once
      with its own score, larger scores come first and ties keep document order. */
  ghost predicate IsRanking(r: seq<Ranked>, scores: seq<real>) {
    && |r| == |scores|
    && (forall i :: 0 <= i < |r| ==> r[i].rank == i && r[i].index < |scores| && r[i].score == scores[r[i].index])
    && (forall d: nat :: d < |scores| ==> Ranks(r, d))
    && (forall i, j :: 0 <= i < j < |r| ==>
          r[i].score > r[j].score || (r[i].score == r[j].score && r[i].index < r[j].index))
  }

  function SortedPairs(scores: seq<real>): seq<(nat, real)> {
    SortDesc(Indexed(scores), PairScore)
  }

  lemma SortedPairIsPair(scores: seq<real>, i: nat)
    requires i < |scores|
    ensures |SortedPairs(scores)| == |scores|
    ensures SortedPairs(scores)[i].0 < |scores| && SortedPairs(scores)[i] == Indexed(scores)[SortedPairs(scores)[i].0]
  {
    var pairs, sorted := Indexed(scores), SortedPairs(scores);
    SortPermutes(pairs, PairScore);
    assert sorted[i] in sorted;
    SameMultisetSameMember(pairs, sorted, sorted[i]);
    var d :| 0 <= d < |pairs| && pairs[d] == sorted[i];
  }

  lemma EveryDocumentRanked(scores: seq<real>, d: nat)
    requires d < |scores|
    ensures Ranks(RankScores(scores), d)
  {
    var pairs, sorted := Indexed(scores), SortedPairs(scores);
    SortPermutes(pairs, PairScore);
    assert pairs[d] in pairs;
    SameMultisetSameMember(pairs, sorted, pairs[d]);
    var i :| 0 <= i < |sorted| && sorted[i] == pairs[d];
    assert RankScores(scores)[i].index == d;
  }

  lemma SortedPairOrder(scores: seq<real>, i: nat, j: nat)
    requires i < j < |scores| && |SortedPairs(scores)| == |scores|
    ensures var x, y := SortedPairs(scores)[i], SortedPairs(scores)[j];
      x.1 > y.1 || (x.1 == y.1 && x.0 < y.0)
  {
    var pairs, sorted := Indexed(scores), SortedPairs(scores);
    SortPermutes(pairs, PairScore);
    PermutationDistinct(pairs, sorted);
    SortedPairIsPair(scores, i);
    SortedPairIsPair(scores, j);
    assert Precedes(sorted, sorted[i], sorted[j]);
    assert sorted[i] != sorted[j];
    SortOrderExact(pairs, PairScore, sorted[i].0, sorted[j].0);
  }

  lemma RankScoresIsRanking(scores: seq<real>)
    ensures IsRanking(RankScores(scores), scores)
  {
    var r, sorted := RankScores(scores), SortedPairs(scores);
    forall i | 0 <= i < |r| ensures r[i].rank == i && r[i].index < |scores| && r[i].score == scores[r[i].index] {
      SortedPairIsPair(scores, i);
    }
    forall d: nat | d < |scores| ensures Ranks(r, d) {
      EveryDocumentRanked(scores, d);
    }
    forall i, j | 0 <= i < j < |r|
      ensures r[i].score > r[j].score || (r[i].score == r[j].score && r[i].index < r[j].index)
    {
      SortedPairOrder(scores, i, j);
    }
  }

  ghost predicate Before(r: seq<Ranked>, a: nat, b: nat) {
    exists i, j :: 0 <= i < j < |r| && r[i].index == a && r[j].index == b
  }

  /** In a ranking, a stands before b exactly when its score is larger, or equal with a < b. */
  lemma RankingOrder(r: seq<Ranked>, scores: seq<real>, a: nat, b: nat)
    requires IsRanking(r, scores)
    requires a < |scores| && b < |scores| && a != b
    ensures Before(r, a, b) <==> scores[a] > scores[b] || (scores[a] == scores[b] && a < b)
  {
    assert Ranks(r, a) && Ranks(r, b);
    var i :| 0 <= i < |r| && r[i].index == a;
    var j :| 0 <= j < |r| && r[j].index == b;
    if i < j {
      assert Before(r, a, b);
    }
  }

  // ---------- reassembly by position ----------

  /** `_parse_response` (DeepInfra) and the vLLM loop: items by index, then their scores. */
  function ByPosition(items: seq<Item>): seq<real> {
    Map(ScoreOf, SortDesc(items, ByIndex))
  }

  /** The scores one batch contributes; vLLM does not know the bare `scores` form. */
  function PositionalPiece<D>(batch: seq<D>, answer: Answer, acceptsScores: bool): seq<real> {
    match answer
    case Failed => seq(|batch|, _ => FAILED_SCORE)
    case Results(items) => ByPosition(items)
    case Scores(scores) => if acceptsScores then scores else []
    case Neither => []
  }

  function PositionalScores<D>(batches: seq<seq<D>>, answers: seq<Answer>, acceptsScores: bool): seq<real>
    requires |answers| == |batches|
  {
    if batches == [] then []
    else
      var n := |batches| - 1;
      PositionalScores(batches[..n], answers[..n], acceptsScores)
          + PositionalPiece(batches[n], answers[n], acceptsScores)
  }

  /** Pad with zeros, cut at the number of documents. */
  function Fit(scores: seq<real>, n: nat): (r: seq<real>)
    ensures |r| == n
    ensures forall i :: 0 <= i < n ==> r[i] == if i < |scores| then scores[i] else 0.0
  {
    if |scores| < n then scores + seq(n - |scores|, _ => 0.0) else scores[..n]
  }

  method ConvertResponseFormat(scores: seq<real>, numDocuments: nat) returns (results: seq<Ranked>)
    ensures results == RankScores(Fit(scores, numDocuments))
    ensures IsRanking(results, Fit(scores, numDocuments))
  {
    var fitted := scores;
    if |fitted| < numDocuments {
      fitted := fitted + seq(numDocuments - |fitted|, _ => 0.0);
    }
    fitted := fitted[..numDocuments];
    assert fitted == Fit(scores, numDocuments);
    var sorted := SortDesc(Indexed(fitted), PairScore);
    results := [];
    for rank := 0 to |sorted|
      invariant results == RankScores(fitted)[..rank]
    {
      results := results + [Ranked(sorted[rank].0, sorted[rank].1, rank)];
    }
    RankScoresIsRanking(fitted);
  }

  /** The scores of the first m + 1 batches. */
  lemma PositionalNext<D>(batches: seq<seq<D>>, answers: seq<Answer>, acceptsScores: bool, m: nat)
    requires m < |answers| && m < |batches|
    ensures PositionalScores(batches[..m + 1], answers[..m + 1], acceptsScores)
            == PositionalScores(batches[..m], answers[..m], acceptsScores)
                + PositionalPiece(batches[m], answers[m], acceptsScores)
  {
    assert batches[..m + 1][..m] == batches[..m] && answers[..m + 1][..m] == answers[..m];
  }

  method BatchScores<D>(batch: seq<D>, answer: Answer, acceptsScores: bool) returns (piece: seq<real>)
    ensures piece == PositionalPiece(batch, answer, acceptsScores)
  {
    piece := [];
    match answer {
      case Failed => piece := seq(|batch|, _ => FAILED_SCORE);
      case Results(items) => piece := Map(ScoreOf, SortDesc(items, ByIndex));
      case Scores(scores) => if acceptsScores { piece := scores; }
      case Neither =>
    }
  }

  /** `rerank_documents` of DeepInfra (acceptsScores) and vLLM, for any pattern of failed batches. */
  method PositionalRerank<D>(documents: seq<D>, batchSize: int, answers: seq<Answer>, acceptsScores: bool)
    returns (results: seq<Ranked>)
    requires |answers| == |Batches(documents, PositiveSize(batchSize))|
    ensures var batches := Batches(documents, PositiveSize(batchSize));
      var scores := Fit(PositionalScores(batches, answers, acceptsScores), |documents|);
      results == RankScores(scores) && IsRanking(results, scores)
  {
    var batches := Batches(documents, PositiveSize(batchSize));
    if documents == [] {
      return [];
    }
    var allScores: seq<real> := [];
    for i := 0 to |answers|
      invariant allScores == PositionalScores(batches[..i], answers[..i], acceptsScores)
    {
      PositionalNext(batches, answers, acceptsScores, i);
      var piece := BatchScores(batches[i], answers[i], acceptsScores);
      allScores := allScores + piece;
    }
    assert batches[..|answers|] == batches && answers[..|answers|] == answers;
    results := ConvertResponseFormat(allScores, |documents|);
  }

  // ---------- reassembly by global index ----------

  /** The assignments of one batch's items to `all_scores`. */
  function WriteItems(scores: seq<real>, start: int, items: seq<Item>): (r: seq<real>)
    ensures |r| == |scores|
  {
    if items == [] then scores
    else
      var last := items[|items| - 1];
      var before := WriteItems(scores, start, items[..|items| - 1]);
      var index := start + IndexOf(last);
      if 0 <= index < |before| then before[index := ScoreOf(last)] else before
  }

  function WriteAnswer(scores: seq<real>, start: int, answer: Answer): (r: seq<real>)
    ensures |r| == |scores|
  {
    if answer.Results? then WriteItems(scores, start, answer.items) else scores
  }

  function GlobalScores(n: nat, size: int, answers: seq<Answer>): (r: seq<real>)
    ensures |r| == n
  {
    if answers == [] then seq(n, _ => 0.0)
    else
      var m := |answers| - 1;
      WriteAnswer(GlobalScores(n, size, answers[..m]), m * size, answers[m])
  }

  method SiliconFlowRerank<D>(documents: seq<D>, batchSize: int, answers: seq<Answer>) returns (results: seq<Ranked>)
    requires |answers| == |Batches(documents, NonzeroSize(batchSize))|
    ensures var scores := GlobalScores(|documents|, NonzeroSize(batchSize), answers);
      results == RankScores(scores) && IsRanking(results, scores)
  {
    var size := NonzeroSize(batchSize);
    if documents == [] {
      assert answers == [];
      RankScoresIsRanking([]);
      return [];
    }
    var allScores := new real[|documents|](_ => 0.0);
    assert allScores[..] == GlobalScores(|documents|, size, []);
    for i := 0 to |answers|
      invariant allScores[..] == GlobalScores(|documents|, size, answers[..i])
    {
      assert answers[..i + 1][..i] == answers[..i];
      if answers[i].Results? {
        var items := answers[i].items;
        ghost var base := allScores[..];
        for j := 0 to |items|
          invariant allScores[..] == WriteItems(base, i * size, items[..j])
        {
          assert items[..j + 1][..j] == items[..j];
          var index := i * size + IndexOf(items[j]);
          if 0 <= index < |documents| {
            allScores[index] := ScoreOf(items[j]);
          }
        }
        assert items[..|items|] == items;
      }
    }
    assert answers[..|answers|] == answers;
    ghost var scores := GlobalScores(|documents|, size, answers);
    var sorted := SortDesc(Indexed(allScores[..]), PairScore);
    results := [];
    for rank := 0 to |sorted|
      invariant results == RankScores(scores)[..rank]
    {
      results := results + [Ranked(sorted[rank].0, sorted[rank].1, rank)];
    }
    RankScoresIsRanking(scores);
  }

  // ---------- complete answers of a pointwise scorer ----------

  /** The items of a complete answer, in document order. */
  function CompleteItems<D>(batch: seq<D>, f: D -> real): (r: seq<Item>)
    ensures |r| == |batch|
    ensures forall i :: 0 <= i < |r| ==> r[i] == Item(Some(i), Some(f(batch[i])))
  {
    seq(|batch|, i requires 0 <= i < |batch| => Item(Some(i), Some(f(batch[i]))))
  }

  /** A complete answer: every document of the batch scored once by f, items in any order. */
  ghost predicate Complete<D>(batch: seq<D>, answer: Answer, f: D -> real) {
    && answer.Results?
    && multiset(answer.items) == multiset(CompleteItems(batch, f))
  }

  ghost predicate AllComplete<D>(batches: seq<seq<D>>, answers: seq<Answer>, f: D -> real) {
    && |answers| == |batches|
    && forall i :: 0 <= i < |batches| ==> Complete(batches[i], answers[i], f)
  }

  lemma CompleteByPosition<D>(batch: seq<D>, items: seq<Item>, f: D -> real)
    requires multiset(items) == multiset(CompleteItems(batch, f))
    ensures ByPosition(items) == Map(f, batch)
  {
    var canonical := CompleteItems(batch, f);
    SortPermutes(items, ByIndex);
    SortDescending(items, ByIndex);
    DistinctKeysUnique(canonical, SortDesc(items, ByIndex), ByIndex);
  }

  lemma {:induction false} BatchesConcat<D(!new)>(docs: seq<D>, size: int)
    requires size > 0
    ensures Flatten(Batches(docs, size)) == docs
    decreases |docs|
  {
    if docs == [] {
    } else if |docs| <= size {
      var bs := Batches(docs, size);
      assert bs[..0] == [];
    } else {
      BatchesConcat(docs[size..], size);
      FlattenCons(docs[..size], Batches(docs[size..], size));
      assert docs == docs[..size] + docs[size..];
    }
  }

  function BatchEnd(i: nat, size: nat, n: nat): nat {
    if (i + 1) * size < n then (i + 1) * size else n
  }

  lemma BatchShift(i: nat, size: nat)
    ensures i >= 1 ==> i * size == (i - 1) * size + size
    ensures (i + 1) * size == i * size + size
    ensures 0 <= i * size
  {
  }

  lemma {:induction false} BatchAt<D>(docs: seq<D>, size: int, i: nat)
    requires size > 0 && i < |Batches(docs, size)|
    ensures 0 <= i * size < |docs| && i * size <= BatchEnd(i, size, |docs|) <= |docs|
    ensures Batches(docs, size)[i] == docs[i * size .. BatchEnd(i, size, |docs|)]
    decreases |docs|
  {
    BatchShift(i, size);
    if |docs| > size && i > 0 {
      BatchAt(docs[size..], size, i - 1);
      BatchShift(i - 1, size);
    }
  }

  lemma {:induction false} BatchesCover<D>(docs: seq<D>, size: int)
    requires size > 0
    ensures |Batches(docs, size)| * size >= |docs|
    decreases |docs|
  {
    if |docs| > size {
      BatchesCover(docs[size..], size);
      BatchShift(|Batches(docs, size)|, size);
    }
  }

  lemma {:induction false} FlattenCons<D(!new)>(head: seq<D>, tail: seq<seq<D>>)
    ensures Flatten([head] + tail) == head + Flatten(tail)
  {
    var all := [head] + tail;
    if tail == [] {
      assert all[..0] == [];
    } else {
      var m := |tail| - 1;
      FlattenCons(head, tail[..m]);
      assert all[..m + 1] == [head] + tail[..m];
    }
  }

  lemma FlattenNext<D>(ss: seq<seq<D>>, m: nat)
    requires m < |ss|
    ensures Flatten(ss[..m + 1]) == Flatten(ss[..m]) + ss[m]
  {
    assert ss[..m + 1][..m] == ss[..m];
  }

  lemma {:induction false} PositionalComplete<D>(batches: seq<seq<D>>, answers: seq<Answer>, f: D -> real,
      acceptsScores: bool, m: nat)
    requires AllComplete(batches, answers, f) && m <= |answers|
    ensures PositionalScores(batches[..m], answers[..m], acceptsScores) == Map(f, Flatten(batches[..m]))
  {
    if m > 0 {
      PositionalComplete(batches, answers, f, acceptsScores, m - 1);
      PositionalNext(batches, answers, acceptsScores, m - 1);
      FlattenNext(batches, m - 1);
      CompletePiece(batches[m - 1], answers[m - 1], f, acceptsScores);
      MapConcat(f, Flatten(batches[..m - 1]), batches[m - 1]);
    }
  }

  lemma CompletePiece<D>(batch: seq<D>, answer: Answer, f: D -> real, acceptsScores: bool)
    requires Complete(batch, answer, f)
    ensures PositionalPiece(batch, answer, acceptsScores) == Map(f, batch)
  {
    CompleteByPosition(batch, answer.items, f);
  }

  ghost predicate Touches(items: seq<Item>, start: int, d: int) {
    exists j :: 0 <= j < |items| && start + IndexOf(items[j]) == d
  }

  lemma TouchesLast(items: seq<Item>, start: int, d: int)
    requires items != []
    ensures Touches(items, start, d) <==>
            Touches(items[..|items| - 1], start, d) || start + IndexOf(items[|items| - 1]) == d
  {
    var m := |items| - 1;
    if Touches(items[..m], start, d) {
      var j :| 0 <= j < m && start + IndexOf(items[..m][j]) == d;
      assert items[j] == items[..m][j];
    }
    if Touches(items, start, d) {
      var j :| 0 <= j < |items| && start + IndexOf(items[j]) == d;
      if j < m {
        assert items[..m][j] == items[j];
      }
    }
  }

  /** Writing items that agree with a target vector sets the touched scores and nothing else. */
  lemma {:induction false} WriteItemsAgree(scores: seq<real>, start: nat, items: seq<Item>, target: seq<real>, d: nat)
    requires |target| == |scores| && d < |scores|
    requires forall j :: 0 <= j < |items| ==>
      0 <= start + IndexOf(items[j]) < |scores| && ScoreOf(items[j]) == target[start + IndexOf(items[j])]
    ensures WriteItems(scores, start, items)[d] == if Touches(items, start, d) then target[d] else scores[d]
  {
    if items != [] {
      WriteItemsAgree(scores, start, items[..|items| - 1], target, d);
      TouchesLast(items, start, d);
    }
  }

  lemma CompleteItemsAgree<D>(docs: seq<D>, f: D -> real, start: nat, stop: nat, items: seq<Item>)
    requires start <= stop <= |docs|
    requires multiset(items) == multiset(CompleteItems(docs[start..stop], f))
    ensures forall j :: 0 <= j < |items| ==>
      0 <= IndexOf(items[j]) < stop - start && ScoreOf(items[j]) == f(docs[start + IndexOf(items[j])])
    ensures forall d :: start <= d < stop ==> Touches(items, start, d)
  {
    var canonical := CompleteItems(docs[start..stop], f);
    SameMultisetSameMembers(items, canonical);
    forall j | 0 <= j < |items|
      ensures 0 <= IndexOf(items[j]) < stop - start && ScoreOf(items[j]) == f(docs[start + IndexOf(items[j])])
    {
      assert items[j] in canonical;
    }
    forall d | start <= d < stop ensures Touches(items, start, d) {
      assert canonical[d - start] in items;
      var j :| 0 <= j < |items| && items[j] == canonical[d - start];
      assert start + IndexOf(items[j]) == d;
    }
  }

  /** A complete answer writes exactly its own stretch of the scores. */
  lemma WriteCompleteBatch<D>(docs: seq<D>, f: D -> real, scores: seq<real>, start: nat, stop: nat, answer: Answer,
      d: nat)
    requires start <= stop <= |docs| == |scores| && d < |docs|
    requires Complete(docs[start..stop], answer, f)
    ensures WriteAnswer(scores, start, answer)[d] == if start <= d < stop then f(docs[d]) else scores[d]
  {
    CompleteItemsAgree(docs, f, start, stop, answer.items);
    WriteItemsAgree(scores, start, answer.items, Map(f, docs), d);
    if Touches(answer.items, start, d) {
      var j :| 0 <= j < |answer.items| && start + IndexOf(answer.items[j]) == d;
      assert start <= d < stop;
    }
  }

  lemma {:induction false} GlobalComplete<D>(docs: seq<D>, size: int, answers: seq<Answer>, f: D -> real, d: nat)
    requires size > 0 && |answers| <= |Batches(docs, size)| && d < |docs|
    requires forall i :: 0 <= i < |answers| ==> Complete(Batches(docs, size)[i], answers[i], f)
    ensures GlobalScores(|docs|, size, answers)[d] == if d < |answers| * size then f(docs[d]) else 0.0
  {
    if answers != [] {
      var m := |answers| - 1;
      GlobalComplete(docs, size, answers[..m], f, d);
      BatchAt(docs, size, m);
      BatchShift(m, size);
      WriteCompleteBatch(docs, f, GlobalScores(|docs|, size, answers[..m]), m * size, BatchEnd(m, size, |docs|),
          answers[m], d);
    }
  }

  lemma GlobalIsPointwise<D>(docs: seq<D>, size: int, answers: seq<Answer>, f: D -> real)
    requires size > 0 && AllComplete(Batches(docs, size), answers, f)
    ensures GlobalScores(|docs|, size, answers) == Map(f, docs)
  {
    BatchesCover(docs, size);
    forall d | 0 <= d < |docs| ensures GlobalScores(|docs|, size, answers)[d] == f(docs[d]) {
      GlobalComplete(docs, size, answers, f, d);
    }
  }

  /** One unbatched request: score every document, rank. */
  function Unbatched<D>(docs: seq<D>, f: D -> real): seq<Ranked> {
    RankScores(Map(f, docs))
  }

  /** For every positive batch size, complete answers of a pointwise scorer make both reassembly
      strategies return the unbatched ranking. */
  lemma BatchSizeIndependence<D(!new)>(docs: seq<D>, size: int, answers: seq<Answer>, f: D -> real, acceptsScores: bool)
    requires size > 0
    requires AllComplete(Batches(docs, size), answers, f)
    ensures RankScores(Fit(PositionalScores(Batches(docs, size), answers, acceptsScores), |docs|)) == Unbatched(docs, f)
    ensures RankScores(GlobalScores(|docs|, size, answers)) == Unbatched(docs, f)
  {
    BatchesConcat(docs, size);
    var batches := Batches(docs, size);
    assert batches[..|answers|] == batches && answers[..|answers|] == answers;
    PositionalComplete(batches, answers, f, acceptsScores, |answers|);
    assert Fit(Map(f, docs), |docs|) == Map(f, docs);
    GlobalIsPointwise(docs, size, answers, f);
  }

  // ---------- failed batches ----------

  /** Every batch either failed or answered completely. */
  ghost predicate FailedOrComplete<D>(batches: seq<seq<D>>, answers: seq<Answer>, f: D -> real) {
    && |answers| <= |batches|
    && forall i :: 0 <= i < |answers| ==> answers[i].Failed? || Complete(batches[i], answers[i], f)
  }

  /** The score document d ends up with when failed batches are filled with one value. */
  function FilledScore<D>(docs: seq<D>, size: int, answers: seq<Answer>, f: D -> real, fill: real, d: nat): real
    requires size > 0 && d < |docs|
  {
    if d / size < |answers| && answers[d / size].Failed? then fill else f(docs[d])
  }

  lemma TimesMonotone(a: int, b: int, size: int)
    requires a <= b && size >= 0
    ensures a * size <= b * size
  {
    assert 0 <= (b - a) * size;
  }

  lemma BatchOf(size: int, d: nat, i: nat)
    requires size > 0
    ensures 0 <= d / size && (d / size) * size <= d < (d / size + 1) * size
    ensures i * size <= d < (i + 1) * size ==> d / size == i
  {
    var q := d / size;
    assert d == q * size + d % size;
    if q < i {
      TimesMonotone(q + 1, i, size);
    } else if q > i {
      TimesMonotone(i + 1, q, size);
    }
  }

  lemma PieceFilled<D>(batch: seq<D>, answer: Answer, f: D -> real, acceptsScores: bool)
    requires answer.Failed? || Complete(batch, answer, f)
    ensures |PositionalPiece(batch, answer, acceptsScores)| == |batch|
    ensures forall j :: 0 <= j < |batch| ==>
      PositionalPiece(batch, answer, acceptsScores)[j] == if answer.Failed? then FAILED_SCORE else f(batch[j])
  {
    if answer.Results? {
      CompleteByPosition(batch, answer.items, f);
    }
  }

  /** The whole score vector when failed batches are filled with one value. */
  function Filled<D>(docs: seq<D>, size: int, answers: seq<Answer>, f: D -> real, fill: real, n: nat): (r: seq<real>)
    requires size > 0 && n <= |docs|
    ensures |r| == n
  {
    if n == 0 then []
    else Filled(docs, size, answers, f, fill, n - 1) + [FilledScore(docs, size, answers, f, fill, n - 1)]
  }

  lemma {:induction false} FilledIndex<D>(docs: seq<D>, size: int, answers: seq<Answer>, f: D -> real, fill: real,
      n: nat, d: nat)
    requires size > 0 && d < n <= |docs|
    ensures Filled(docs, size, answers, f, fill, n)[d] == FilledScore(docs, size, answers, f, fill, d)
  {
    if d < n - 1 {
      FilledIndex(docs, size, answers, f, fill, n - 1, d);
    }
  }

  lemma FilledAt<D>(docs: seq<D>, size: int, answers: seq<Answer>, f: D -> real, fill: real, m: nat, d: nat)
    requires size > 0 && m < |answers| && m * size <= d < BatchEnd(m, size, |docs|) <= |docs|
    ensures Filled(docs, size, answers, f, fill, |docs|)[d] == if answers[m].Failed? then fill else f(docs[d])
  {
    BatchOf(size, d, m);
    FilledIndex(docs, size, answers, f, fill, |docs|, d);
  }

  lemma StretchAgrees<D>(docs: seq<D>, start: nat, stop: nat, piece: seq<real>, filled: seq<real>, value: D -> real)
    requires start <= stop <= |docs| == |filled| && |piece| == stop - start
    requires forall j :: 0 <= j < stop - start ==> piece[j] == value(docs[start + j])
    requires forall d :: start <= d < stop ==> filled[d] == value(docs[d])
    ensures piece == filled[start..stop]
  {
  }

  /** The piece of batch m is its stretch of the filled vector. */
  lemma PieceIsSlice<D>(docs: seq<D>, size: int, answers: seq<Answer>, f: D -> real, acceptsScores: bool, m: nat,
      start: nat, stop: nat)
    requires size > 0 && m < |answers| && FailedOrComplete(Batches(docs, size), answers, f)
    requires start == m * size && stop == BatchEnd(m, size, |docs|)
    ensures start <= stop <= |docs|
    ensures PositionalPiece(Batches(docs, size)[m], answers[m], acceptsScores)
            == Filled(docs, size, answers, f, FAILED_SCORE, |docs|)[start..stop]
  {
    BatchAt(docs, size, m);
    var value: D -> real := if answers[m].Failed? then _ => FAILED_SCORE else f;
    var filled := Filled(docs, size, answers, f, FAILED_SCORE, |docs|);
    forall d | start <= d < stop ensures filled[d] == value(docs[d]) {
      FilledAt(docs, size, answers, f, FAILED_SCORE, m, d);
    }
    PieceFilled(docs[start..stop], answers[m], f, acceptsScores);
    StretchAgrees(docs, start, stop, PositionalPiece(docs[start..stop], answers[m], acceptsScores), filled, value);
  }

  /** How many documents the first m batches hold. */
  function Covered(m: nat, size: nat, n: nat): (r: nat)
    ensures r <= n
  {
    if m == 0 then 0 else BatchEnd(m - 1, size, n)
  }

  lemma CoveredIsStart<D>(docs: seq<D>, size: int, m: nat)
    requires size > 0 && m < |Batches(docs, size)|
    ensures Covered(m, size, |docs|) == m * size
  {
    BatchAt(docs, size, m);
    BatchShift(m, size);
  }

  lemma SliceJoin(s: seq<real>, a: nat, b: nat)
    requires a <= b <= |s|
    ensures s[..a] + s[a..b] == s[..b]
  {
  }

  lemma FilledStep<D>(docs: seq<D>, size: int, answers: seq<Answer>, f: D -> real, acceptsScores: bool, m: nat,
      filled: seq<real>)
    requires size > 0 && m < |answers| && FailedOrComplete(Batches(docs, size), answers, f)
    requires filled == Filled(docs, size, answers, f, FAILED_SCORE, |docs|)
    ensures filled[..Covered(m, size, |docs|)] + PositionalPiece(Batches(docs, size)[m], answers[m], acceptsScores)
            == filled[..Covered(m + 1, size, |docs|)]
  {
    var start, stop := Covered(m, size, |docs|), Covered(m + 1, size, |docs|);
    CoveredIsStart(docs, size, m);
    PieceIsSlice(docs, size, answers, f, acceptsScores, m, start, stop);
    SliceJoin(filled, start, stop);
  }

  lemma {:induction false} PositionalFilled<D>(docs: seq<D>, size: int, answers: seq<Answer>, f: D -> real,
      acceptsScores: bool, m: nat, filled: seq<real>)
    requires size > 0 && m <= |answers| && FailedOrComplete(Batches(docs, size), answers, f)
    requires filled == Filled(docs, size, answers, f, FAILED_SCORE, |docs|)
    ensures PositionalScores(Batches(docs, size)[..m], answers[..m], acceptsScores)
        == filled[..Covered(m, size, |docs|)]
  {
    if m > 0 {
      PositionalFilled(docs, size, answers, f, acceptsScores, m - 1, filled);
      PositionalNext(Batches(docs, size), answers, acceptsScores, m - 1);
      FilledStep(docs, size, answers, f, acceptsScores, m - 1, filled);
    }
  }

  lemma {:induction false} GlobalFilled<D>(docs: seq<D>, size: int, answers: seq<Answer>, f: D -> real, d: nat)
    requires size > 0 && d < |docs| && FailedOrComplete(Batches(docs, size), answers, f)
    ensures GlobalScores(|docs|, size, answers)[d]
            == if d < |answers| * size then FilledScore(docs, size, answers, f, 0.0, d) else 0.0
  {
    if answers != [] {
      var m := |answers| - 1;
      GlobalFilled(docs, size, answers[..m], f, d);
      BatchAt(docs, size, m);
      BatchShift(m, size);
      BatchOf(size, d, m);
      if answers[m].Results? {
        WriteCompleteBatch(docs, f, GlobalScores(|docs|, size, answers[..m]), m * size, BatchEnd(m, size, |docs|),
            answers[m], d);
      }
    }
  }

  /** The documents of failed batches. */
  function FailedDocs(n: nat, size: int, answers: seq<Answer>): (r: set<nat>)
    requires size > 0
    ensures forall d :: d in r ==> d < n
  {
    set d: nat | d < n && d / size < |answers| && answers[d / size].Failed?
  }

  /** Every document of a failed batch stands after every document of a successful one. */
  ghost predicate FailedLast(r: seq<Ranked>, n: nat, failed: set<nat>) {
    forall a: nat, b: nat :: a < n && a !in failed && b in failed ==> Before(r, a, b)
  }

  /** Every successful score exceeds the fill score, or ties with it from an earlier place. */
  ghost predicate Exceeds<D>(docs: seq<D>, failed: set<nat>, f: D -> real, fill: real) {
    forall a: nat, b: nat :: a < |docs| && a !in failed && b in failed ==>
        f(docs[a]) > fill || (f(docs[a]) == fill && a < b)
  }

  lemma FilledWhole<D>(docs: seq<D>, size: int, answers: seq<Answer>, f: D -> real, acceptsScores: bool)
    requires size > 0 && |answers| == |Batches(docs, size)| && FailedOrComplete(Batches(docs, size), answers, f)
    ensures PositionalScores(Batches(docs, size), answers, acceptsScores)
        == Filled(docs, size, answers, f, FAILED_SCORE, |docs|)
  {
    BatchesCover(docs, size);
    PositionalFilled(docs, size, answers, f, acceptsScores, |answers|,
        Filled(docs, size, answers, f, FAILED_SCORE, |docs|));
    assert Batches(docs, size)[..|answers|] == Batches(docs, size) && answers[..|answers|] == answers;
    assert Covered(|answers|, size, |docs|) == |docs| by {
      if answers != [] {
        BatchShift(|answers|, size);
      }
    }
  }

  /** DeepInfra and vLLM: the documents of failed batches come last exactly when the successful
      scores exceed -100. */
  lemma PositionalFailedLast<D>(docs: seq<D>, size: int, answers: seq<Answer>, f: D -> real, acceptsScores: bool)
    requires size > 0 && |answers| == |Batches(docs, size)| && FailedOrComplete(Batches(docs, size), answers, f)
    ensures var r := RankScores(Fit(PositionalScores(Batches(docs, size), answers, acceptsScores), |docs|));
      FailedLast(r, |docs|, FailedDocs(|docs|, size, answers))
      <==> Exceeds(docs, FailedDocs(|docs|, size, answers), f, -100.0)
  {
    FilledWhole(docs, size, answers, f, acceptsScores);
    var scores := Fit(PositionalScores(Batches(docs, size), answers, acceptsScores), |docs|);
    forall d | 0 <= d < |docs| ensures scores[d] == FilledScore(docs, size, answers, f, FAILED_SCORE, d) {
      FilledIndex(docs, size, answers, f, FAILED_SCORE, |docs|, d);
    }
    FilledRanking(docs, size, answers, f, FAILED_SCORE, scores);
  }

  /** SiliconFlow leaves failed documents at 0: they come last exactly when the successful scores
      exceed 0. */
  lemma GlobalFailedLast<D>(docs: seq<D>, size: int, answers: seq<Answer>, f: D -> real)
    requires size > 0 && |answers| == |Batches(docs, size)| && FailedOrComplete(Batches(docs, size), answers, f)
    ensures FailedLast(RankScores(GlobalScores(|docs|, size, answers)), |docs|, FailedDocs(|docs|, size, answers))
      <==> Exceeds(docs, FailedDocs(|docs|, size, answers), f, 0.0)
  {
    BatchesCover(docs, size);
    var scores := GlobalScores(|docs|, size, answers);
    forall d | 0 <= d < |docs| ensures scores[d] == FilledScore(docs, size, answers, f, 0.0, d) {
      GlobalFilled(docs, size, answers, f, d);
    }
    FilledRanking(docs, size, answers, f, 0.0, scores);
  }

  lemma FilledRanking<D>(docs: seq<D>, size: int, answers: seq<Answer>, f: D -> real, fill: real, scores: seq<real>)
    requires size > 0 && |scores| == |docs|
    requires forall d :: 0 <= d < |docs| ==> scores[d] == FilledScore(docs, size, answers, f, fill, d)
    ensures FailedLast(RankScores(scores), |docs|, FailedDocs(|docs|, size, answers))
      <==> Exceeds(docs, FailedDocs(|docs|, size, answers), f, fill)
  {
    var failed := FailedDocs(|docs|, size, answers);
    RankScoresIsRanking(scores);
    forall a: nat, b: nat | a < |docs| && a !in failed && b in failed
      ensures Before(RankScores(scores), a, b) <==> f(docs[a]) > fill || (f(docs[a]) == fill && a < b)
    {
      RankingOrder(RankScores(scores), scores, a, b);
    }
  }

  /** SiliconFlow keeps a negative batch size: no request is sent and the documents come back
      unranked, all with score zero. */
  lemma NegativeSizeRanksNothing<D>(docs: seq<D>, size: int)
    requires size < 0
    ensures Batches(docs, NonzeroSize(size)) == []
    ensures forall i :: 0 <= i < |docs| ==> RankScores(GlobalScores(|docs|, size, []))[i] == Ranked(i, 0.0, i)
  {
    var zeros := GlobalScores(|docs|, size, []);
    SortedIsFixed(Indexed(zeros), PairScore);
  }
}
