/** What a rerank service may answer to `rerank_candidates` so that no document is repeated. */
module RerankReplies {
  import opened Outcomes
  import opened Sequences
  import opened RankFusion
  import opened Retrieval
  import RerankMemories

  /** `hit = {"index": idx, ...}; hit.update(doc)`: a dict document with its own `index` field
      overwrites the position. */
  function SentIndex(own: seq<Option<int>>, i: nat): int
    requires i < |own|
  {
    if own[i].Some? then own[i].value else i
  }

  /** A service that answers with some of the hits it was sent, each at most once, is well behaved. */
  ghost predicate WellBehaved(hits: seq<RerankHit>, own: seq<Option<int>>, chosen: seq<nat>) {
    && |chosen| == |hits|
    && Distinct(chosen)
    && forall j :: 0 <= j < |hits| ==>
         chosen[j] < |own| && hits[j].Dict? && hits[j].index == Some(SentIndex(own, chosen[j]))
  }

  /** The positions that a document's own `index` field can make collide do not. */
  ghost predicate SentIndicesDiffer(own: seq<Option<int>>) {
    forall i, j :: 0 <= i < j < |own| && 0 <= SentIndex(own, i) < |own| ==> SentIndex(own, i) != SentIndex(own, j)
  }

  lemma {:induction false} WellBehavedNoRepeats(hits: seq<RerankHit>, own: seq<Option<int>>, chosen: seq<nat>)
    requires SentIndicesDiffer(own) && WellBehaved(hits, own, chosen)
    ensures Distinct(UsableIndices(hits, |own|))
    ensures forall x :: x in UsableIndices(hits, |own|) ==>
        exists j :: 0 <= j < |chosen| && SentIndex(own, chosen[j]) == x
  {
    if hits != [] {
      var n := |hits|;
      var hits', chosen' := hits[..n - 1], chosen[..n - 1];
      WellBehavedNoRepeats(hits', own, chosen');
      forall x | x in UsableIndices(hits, |own|)
        ensures exists j :: 0 <= j < |chosen| && SentIndex(own, chosen[j]) == x
      {
        if x in UsableIndices(hits', |own|) {
          var j :| 0 <= j < |chosen'| && SentIndex(own, chosen'[j]) == x;
          assert SentIndex(own, chosen[j]) == x;
        } else {
          assert SentIndex(own, chosen[n - 1]) == x;
        }
      }
      if Usable(hits[n - 1], |own|) {
        var x := EffectiveIndex(hits[n - 1]);
        assert x !in UsableIndices(hits', |own|) by {
          forall j | 0 <= j < n - 1 ensures SentIndex(own, chosen'[j]) != x {
            assert chosen[j] != chosen[n - 1];
          }
        }
      }
    }
  }

  /** Every well-behaved service keeps the documents distinct if and only if no document's own
      `index` field collides with a position in range. */
  lemma OwnIndexExact(own: seq<Option<int>>)
    ensures SentIndicesDiffer(own)
            <==> forall hits, chosen :: WellBehaved(hits, own, chosen) ==> Distinct(UsableIndices(hits, |own|))
  {
    if SentIndicesDiffer(own) {
      forall hits, chosen | WellBehaved(hits, own, chosen) ensures Distinct(UsableIndices(hits, |own|)) {
        WellBehavedNoRepeats(hits, own, chosen);
      }
    }
    if !SentIndicesDiffer(own) {
      var i, j :| 0 <= i < j < |own| && 0 <= SentIndex(own, i) < |own| && SentIndex(own, i) == SentIndex(own, j);
      var h := Dict(Some(SentIndex(own, i)), None, 0.0);
      var hits, chosen := [h, h], [i, j];
      assert WellBehaved(hits, own, chosen);
      assert hits[..1] == [h] && hits[..1][..0] == [];
      assert UsableIndices(hits[..1], |own|) == [SentIndex(own, i)];
      assert UsableIndices(hits, |own|) == [SentIndex(own, i), SentIndex(own, i)];
      assert UsableIndices(hits, |own|)[0] == UsableIndices(hits, |own|)[1];
    }
  }

  /** The hits sent to the service, as the providers see them: what matters is their index. */
  function Sent(candidates: seq<Hit>, own: seq<Option<int>>): (r: seq<RerankMemories.Memory<int>>)
    requires |own| == |candidates|
    ensures |r| == |candidates|
  {
    seq(|candidates|, i requires 0 <= i < |candidates| => RerankMemories.Memory(SentIndex(own, i), candidates[i].score))
  }

  function Received(out: seq<RerankMemories.Memory<int>>): (r: seq<RerankHit>)
    ensures |r| == |out|
  {
    seq(|out|, j requires 0 <= j < |out| => Dict(Some(out[j].body), None, out[j].score))
  }

  /** Any provider whose answer selects from the hits it was sent, as all three are proved to do, is
      well behaved, and so is every prefix of its answer. */
  lemma ProvidersWellBehaved(candidates: seq<Hit>, own: seq<Option<int>>, out: seq<RerankMemories.Memory<int>>,
      chosen: seq<nat>, topN: int)
    requires |own| == |candidates|
    requires RerankMemories.Selects(out, Sent(candidates, own), chosen)
    ensures WellBehaved(Take(Received(out), topN), own, Take(chosen, topN))
    ensures SentIndicesDiffer(own) ==> NoRepeats(Returned(Received(out)), |candidates|, topN)
  {
    var hits, c := Take(Received(out), topN), Take(chosen, topN);
    assert |hits| == |c|;
    assert forall j :: 0 <= j < |hits| ==> hits[j] == Received(out)[j] && c[j] == chosen[j];
    if SentIndicesDiffer(own) {
      WellBehavedNoRepeats(hits, own, c);
    }
  }
}
