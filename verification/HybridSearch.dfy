/** The searches of the memory manager that merge a keyword and a vector result, and the two-round
    merge of its agentic retrieval. */
module HybridSearch {
  import opened Sequences
  import opened StableSort
  import opened RankFusion
  import opened FusionLaws

  /** The hits whose id no hit of `first` has. */
  function Unseen<H(!new), I(==, !new)>(first: seq<H>, hits: seq<H>, id: H -> I): seq<H> {
    var seen := Map(id, first);
    Filter((h: H) => id(h) !in seen, hits)
  }

  /** The merge of `_search_hybrid`: keyword hits, then the vector hits they do not contain. */
  function HybridMerge<H(!new), I(==, !new)>(kw: seq<H>, vec: seq<H>, id: H -> I): seq<H> {
    kw + Unseen(kw, vec, id)
  }

  lemma {:induction false} FilterIds<H(!new), I(!new)>(p: H -> bool, q: I -> bool, id: H -> I, s: seq<H>)
    requires forall h :: p(h) <==> q(id(h))
    ensures Map(id, Filter(p, s)) == Filter(q, Map(id, s))
  {
    if s != [] {
      var rest, last := s[..|s| - 1], s[|s| - 1];
      FilterIds(p, q, id, rest);
      assert Map(id, s)[..|s| - 1] == Map(id, rest);
      if p(last) {
        MapConcat(id, Filter(p, rest), [last]);
        assert Map(id, [last]) == [id(last)];
      }
    }
  }

  lemma DistinctConcat<I>(a: seq<I>, b: seq<I>)
    ensures Distinct(a + b) <==> Distinct(a) && Distinct(b) && forall x :: x in a ==> x !in b
  {
    var c := a + b;
    if Distinct(c) {
      forall i, j | 0 <= i < j < |a| ensures a[i] != a[j] {
        assert c[i] == a[i] && c[j] == a[j];
      }
      forall i, j | 0 <= i < j < |b| ensures b[i] != b[j] {
        assert c[|a| + i] == b[i] && c[|a| + j] == b[j];
      }
      forall i, j | 0 <= i < |a| && 0 <= j < |b| ensures a[i] != b[j] {
        assert c[i] == a[i] && c[|a| + j] == b[j];
      }
    }
    if Distinct(a) && Distinct(b) && forall x :: x in a ==> x !in b {
      forall i, j | 0 <= i < j < |c| ensures c[i] != c[j] {
        if i < |a| && j >= |a| {
          assert a[i] in a && b[j - |a|] in b;
        }
      }
    }
  }

  lemma UnseenIds<H(!new), I(!new)>(first: seq<H>, hits: seq<H>, id: H -> I, x: I)
    ensures x in Map(id, Unseen(first, hits, id)) <==> x in Map(id, hits) && x !in Map(id, first)
    ensures Distinct(Map(id, hits)) ==> Distinct(Map(id, Unseen(first, hits, id)))
  {
    var seen := Map(id, first);
    var q := (i: I) => i !in seen;
    FilterIds((h: H) => id(h) !in seen, q, id, hits);
    if Distinct(Map(id, hits)) {
      FilterDistinct(q, Map(id, hits));
    }
  }

  /** For duplicate-free results the merge holds each id of the union exactly once, keyword hits first. */
  lemma HybridMergeIsUnion<H(!new), I(!new)>(kw: seq<H>, vec: seq<H>, id: H -> I, x: I)
    requires Distinct(Map(id, kw)) && Distinct(Map(id, vec))
    ensures kw <= HybridMerge(kw, vec, id)
    ensures multiset(Map(id, HybridMerge(kw, vec, id)))[x] == if x in Map(id, kw) || x in Map(id, vec) then 1 else 0
    ensures Distinct(Map(id, HybridMerge(kw, vec, id)))
  {
    var unseen := Unseen(kw, vec, id);
    MapConcat(id, kw, unseen);
    forall y | y in Map(id, kw) ensures y !in Map(id, unseen) {
      UnseenIds(kw, vec, id, y);
    }
    UnseenIds(kw, vec, id, x);
    DistinctConcat(Map(id, kw), Map(id, unseen));
    MultisetOfDistinct(Map(id, kw) + Map(id, unseen), x);
  }

  // ---------- the two-round merge of retrieve_mem_agentic ----------

  /** `round1 + round2_unique[: combined_total - len(round1)]` over the results of all queries. */
  function CombineRounds<H(!new), I(==, !new)>(round1: seq<H>, perQuery: seq<seq<H>>, total: int, id: H -> I): seq<H> {
    round1 + Take(Unseen(round1, Flatten(perQuery), id), total - |round1|)
  }

  /** What a cut after n elements leaves of each list. */
  function Kept<I>(lists: seq<seq<I>>, n: nat): (r: seq<seq<I>>)
    ensures |r| == |lists|
  {
    if lists == [] then []
    else
      var rest, last := lists[..|lists| - 1], lists[|lists| - 1];
      var before := |Flatten(rest)|;
      Kept(rest, n) + [Take(last, if n <= before then 0 else n - before)]
  }

  lemma {:induction false} KeptFlattens<I>(lists: seq<seq<I>>, n: nat)
    requires n <= |Flatten(lists)|
    ensures Flatten(Kept(lists, n)) == Flatten(lists)[..n]
  {
    if lists != [] {
      var rest, last := lists[..|lists| - 1], lists[|lists| - 1];
      var before := |Flatten(rest)|;
      assert Kept(lists, n)[..|lists| - 1] == Kept(rest, n);
      if n <= before {
        KeptFlattens(rest, n);
      } else {
        KeptPast(rest, n);
      }
    }
  }

  lemma {:induction false} KeptPast<I>(lists: seq<seq<I>>, n: nat)
    requires n >= |Flatten(lists)|
    ensures Kept(lists, n) == lists
  {
    if lists != [] {
      KeptPast(lists[..|lists| - 1], n);
    }
  }

  /** No list repeats an element and no two lists share one. */
  ghost predicate NothingShared<I(!new)>(lists: seq<seq<I>>) {
    && (forall i :: 0 <= i < |lists| ==> Distinct(lists[i]))
    && (forall i, j, x :: 0 <= i < j < |lists| && x in lists[i] ==> x !in lists[j])
  }

  lemma NothingSharedLast<I(!new)>(rest: seq<seq<I>>, last: seq<I>)
    ensures NothingShared(rest + [last])
      <==> NothingShared(rest) && Distinct(last) && forall i, x :: 0 <= i < |rest| && x in rest[i] ==> x !in last
  {
    var lists := rest + [last];
    assert lists[|rest|] == last && forall i :: 0 <= i < |rest| ==> lists[i] == rest[i];
    if NothingShared(lists) {
      forall i, x | 0 <= i < |rest| && x in rest[i] ensures x !in last {
        assert x in lists[i];
      }
      forall i, j, x | 0 <= i < j < |rest| && x in rest[i] ensures x !in rest[j] {
        assert x in lists[i];
      }
    }
  }

  lemma {:induction false} FlattenDistinctExact<I(!new)>(lists: seq<seq<I>>)
    ensures Distinct(Flatten(lists)) <==> NothingShared(lists)
  {
    if lists != [] {
      var rest, last := lists[..|lists| - 1], lists[|lists| - 1];
      assert lists == rest + [last];
      FlattenDistinctExact(rest);
      DistinctConcat(Flatten(rest), last);
      NothingSharedLast(rest, last);
      InSomeList(rest);
    }
  }

  lemma InSomeList<I(!new)>(lists: seq<seq<I>>)
    ensures forall x :: x in Flatten(lists) <==> exists i :: 0 <= i < |lists| && x in lists[i]
  {
    FlattenMembers(lists);
  }

  /** The new ids each query brings. */
  function NewIds<H(!new), I(==, !new)>(round1: seq<H>, perQuery: seq<seq<H>>, id: H -> I): (r: seq<seq<I>>)
    ensures |r| == |perQuery|
  {
    if perQuery == [] then []
    else
      var n := |perQuery| - 1;
      NewIds(round1, perQuery[..n], id) + [Map(id, Unseen(round1, perQuery[n], id))]
  }

  lemma {:induction false} NewIdsAt<H(!new), I(!new)>(round1: seq<H>, perQuery: seq<seq<H>>, id: H -> I, i: nat)
    requires i < |perQuery|
    ensures NewIds(round1, perQuery, id)[i] == Map(id, Unseen(round1, perQuery[i], id))
  {
    if i < |perQuery| - 1 {
      NewIdsAt(round1, perQuery[..|perQuery| - 1], id, i);
    }
  }

  lemma {:induction false} UnseenIsNewIds<H(!new), I(!new)>(round1: seq<H>, perQuery: seq<seq<H>>, id: H -> I)
    ensures Map(id, Unseen(round1, Flatten(perQuery), id)) == Flatten(NewIds(round1, perQuery, id))
  {
    if perQuery != [] {
      var rest, last := perQuery[..|perQuery| - 1], perQuery[|perQuery| - 1];
      var seen := Map(id, round1);
      UnseenIsNewIds(round1, rest, id);
      FilterConcat((h: H) => id(h) !in seen, Flatten(rest), last);
      MapConcat(id, Unseen(round1, Flatten(rest), id), Unseen(round1, last, id));
      assert NewIds(round1, perQuery, id)[..|perQuery| - 1] == NewIds(round1, rest, id);
    }
  }

  lemma {:induction false} KeptPrefix<I>(lists: seq<seq<I>>, n: nat, i: nat)
    requires i < |lists|
    ensures Kept(lists, n)[i] <= lists[i]
  {
    if i < |lists| - 1 {
      KeptPrefix(lists[..|lists| - 1], n, i);
    }
  }

  /** How many of `length` elements Python's `s[:n]` keeps. */
  function TakeCount(n: int, length: nat): nat {
    if n >= 0 then (if n <= length then n else length)
    else if length + n >= 0 then length + n
    else 0
  }

  /** How many of the new ids fit under the total. */
  function Room<H(!new), I(==, !new)>(round1: seq<H>, perQuery: seq<seq<H>>, total: int, id: H -> I): nat {
    TakeCount(total - |round1|, |Flatten(NewIds(round1, perQuery, id))|)
  }

  /** The new ids that survive the cut, query by query. */
  function KeptIds<H(!new), I(==, !new)>(round1: seq<H>, perQuery: seq<seq<H>>, total: int,
      id: H -> I): (r: seq<seq<I>>)
    ensures |r| == |perQuery|
  {
    Kept(NewIds(round1, perQuery, id), Room(round1, perQuery, total, id))
  }

  lemma KeptIdsFlatten<H(!new), I(!new)>(round1: seq<H>, perQuery: seq<seq<H>>, total: int, id: H -> I)
    ensures Map(id, CombineRounds(round1, perQuery, total, id))
        == Map(id, round1) + Flatten(KeptIds(round1, perQuery, total, id))
  {
    var unseen := Unseen(round1, Flatten(perQuery), id);
    var cut := Take(unseen, total - |round1|);
    UnseenIsNewIds(round1, perQuery, id);
    assert |unseen| == |Map(id, unseen)|;
    assert |cut| == Room(round1, perQuery, total, id);
    KeptFlattens(NewIds(round1, perQuery, id), |cut|);
    MapConcat(id, round1, cut);
    assert cut == unseen[..|cut|];
    assert Map(id, cut) == Map(id, unseen)[..|cut|];
  }

  lemma KeptAreNew<H(!new), I(!new)>(round1: seq<H>, perQuery: seq<seq<H>>, total: int, id: H -> I, i: nat, x: I)
    requires i < |perQuery| && x in KeptIds(round1, perQuery, total, id)[i]
    ensures x !in Map(id, round1)
  {
    KeptPrefix(NewIds(round1, perQuery, id), Room(round1, perQuery, total, id), i);
    NewIdsAt(round1, perQuery, id, i);
    UnseenIds(round1, perQuery[i], id, x);
  }

  lemma KeptDistinct<H(!new), I(!new)>(round1: seq<H>, perQuery: seq<seq<H>>, total: int, id: H -> I, i: nat)
    requires i < |perQuery| && Distinct(Map(id, perQuery[i]))
    ensures Distinct(KeptIds(round1, perQuery, total, id)[i])
  {
    var kept := KeptIds(round1, perQuery, total, id)[i];
    KeptPrefix(NewIds(round1, perQuery, id), Room(round1, perQuery, total, id), i);
    NewIdsAt(round1, perQuery, id, i);
    if perQuery[i] != [] {
      UnseenIds(round1, perQuery[i], id, id(perQuery[i][0]));
    }
  }

  /** Hits of round 1 are dropped from round 2, repeats between round-2 queries are not: for
      duplicate-free searches, the combined list repeats no id exactly when no two queries bring the
      same new id within the cut. */
  lemma CombineRoundsExact<H(!new), I(!new)>(round1: seq<H>, perQuery: seq<seq<H>>, total: int, id: H -> I)
    requires Distinct(Map(id, round1)) && forall i :: 0 <= i < |perQuery| ==> Distinct(Map(id, perQuery[i]))
    ensures var kept := KeptIds(round1, perQuery, total, id);
      Distinct(Map(id, CombineRounds(round1, perQuery, total, id)))
      <==> forall i, j, x :: 0 <= i < j < |kept| && x in kept[i] ==> x !in kept[j]
    ensures round1 <= CombineRounds(round1, perQuery, total, id)
    ensures |round1| <= total ==> |CombineRounds(round1, perQuery, total, id)| <= total
  {
    var kept := KeptIds(round1, perQuery, total, id);
    KeptIdsFlatten(round1, perQuery, total, id);
    DistinctConcat(Map(id, round1), Flatten(kept));
    FlattenDistinctExact(kept);
    InSomeList(kept);
    forall i | 0 <= i < |kept| ensures Distinct(kept[i]) {
      KeptDistinct(round1, perQuery, total, id, i);
    }
    forall x | x in Flatten(kept) ensures x !in Map(id, round1) {
      var i :| 0 <= i < |kept| && x in kept[i];
      KeptAreNew(round1, perQuery, total, id, i, x);
    }
  }

  lemma UnseenAll<H(!new), I(!new)>(first: seq<H>, hits: seq<H>, id: H -> I)
    requires forall h :: h in hits ==> id(h) !in Map(id, first)
    ensures Unseen(first, hits, id) == hits
  {
    var seen := Map(id, first);
    FilterAll((h: H) => id(h) !in seen, hits);
  }

  /** Two queries that both find id 1 put it into the combined list twice. */
  lemma QueriesRepeat(id: int -> int)
    requires forall h :: id(h) == h
    ensures CombineRounds([0], [[1], [1]], 40, id) == [0, 1, 1]
  {
    var perQuery := [[1], [1]];
    assert perQuery[..1] == [[1]];
    assert Flatten(perQuery) == [1, 1];
    assert Map(id, [0]) == [0];
    UnseenAll([0], [1, 1], id);
  }

  // ---------- RRF search ----------

  function RrfResults(kw: seq<Hit>, vec: seq<Hit>, topK: int): seq<Hit> {
    Take(FusedBy([Docs(kw), Docs(vec)], 60, IdOf), topK)
  }

  method SearchRrf(kw: seq<Hit>, vec: seq<Hit>, topK: int) returns (results: seq<Hit>)
    ensures results == RrfResults(kw, vec, topK)
  {
    results := ReciprocalRankFusion(kw, vec, 60);
    results := Take(results, topK);
  }

  /** RRF search returns each document at most once, best fused score first. */
  lemma RrfResultsOrdered(kw: seq<Hit>, vec: seq<Hit>, topK: int)
    ensures Distinct(Docs(RrfResults(kw, vec, topK)))
    ensures Descending(RrfResults(kw, vec, topK), ScoreOf)
  {
    var lists := [Docs(kw), Docs(vec)];
    FusedMembers(lists, 60, IdOf);
    SortDescending(Scored(lists, 60, IdOf), ScoreOf);
    var fused, results := FusedBy(lists, 60, IdOf), RrfResults(kw, vec, topK);
    forall i, j | 0 <= i < j < |results| ensures Docs(results)[i] != Docs(results)[j] {
      assert Docs(fused)[i] == Docs(results)[i] && Docs(fused)[j] == Docs(results)[j];
    }
  }

  /** Its hits are the documents of the two searches, each with its fused score in place of its own. */
  lemma RrfResultsScored(kw: seq<Hit>, vec: seq<Hit>, topK: int, h: Hit)
    requires h in RrfResults(kw, vec, topK)
    ensures h.score == FusedScore([Docs(kw), Docs(vec)], 60, IdOf, h.doc) && h.doc in Docs(kw) + Docs(vec)
  {
    FusedMembers([Docs(kw), Docs(vec)], 60, IdOf);
    FlattenTwo(Docs(kw), Docs(vec));
    FirstByKeyFacts(Docs(kw) + Docs(vec), IdOf);
  }

  /** Nothing is lost unless the list is cut: each id of either search has a hit. */
  lemma RrfResultsComplete(kw: seq<Hit>, vec: seq<Hit>, topK: int, d: Doc)
    requires topK >= |kw| + |vec| && d in Docs(kw) + Docs(vec)
    ensures HasKey(Docs(RrfResults(kw, vec, topK)), IdOf, d.id)
  {
    var lists, docs := [Docs(kw), Docs(vec)], Docs(kw) + Docs(vec);
    FlattenTwo(Docs(kw), Docs(vec));
    FirstByKeyFacts(docs, IdOf);
    FirstByKeyLength(docs, IdOf);
    var i :| 0 <= i < |FirstByKey(docs, IdOf)| && IdOf(FirstByKey(docs, IdOf)[i]) == d.id;
    ScoredInFused(lists, i);
  }

  lemma ScoredInFused(lists: seq<seq<Doc>>, i: nat)
    requires i < |FirstByKey(Flatten(lists), IdOf)|
    ensures HasKey(Docs(FusedBy(lists, 60, IdOf)), IdOf, FirstByKey(Flatten(lists), IdOf)[i].id)
  {
    var scored, fused := Scored(lists, 60, IdOf), FusedBy(lists, 60, IdOf);
    assert scored[i] in scored;
    SortMember(scored, ScoreOf, scored[i]);
    var j :| 0 <= j < |fused| && fused[j] == scored[i];
    assert Docs(fused)[j] == scored[i].doc;
  }

  lemma {:induction false} FirstByKeyLength<K>(docs: seq<Doc>, key: Doc -> K)
    ensures |FirstByKey(docs, key)| <= |docs|
  {
    if docs != [] {
      FirstByKeyLength(docs[..|docs| - 1], key);
    }
  }
}
