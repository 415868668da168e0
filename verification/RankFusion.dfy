/** Reciprocal Rank Fusion: the two-list form keyed by document id and the n-list form keyed by
    object identity, both proved to compute one specification function, `FusedBy`. */
module RankFusion {
  import opened Sequences
  import opened StableSort
  import opened OrderedDict

  /** A retrieved object: `addr` is what Python's `id(doc)` returns, `id` is `doc.get('id')`. */
  datatype Doc = Doc(addr: nat, id: string)

  /** One `(doc, score)` tuple of a result list. */
  datatype Hit = Hit(doc: Doc, score: real)

  function ScoreOf(h: Hit): real { h.score }
  function DocOf(h: Hit): Doc { h.doc }
  function AddrOf(d: Doc): nat { d.addr }
  function IdOf(d: Doc): string { d.id }
  function ItemScore<K>(item: (K, real)): real { item.1 }

  /** What the document at 1-based `rank` of a list contributes. */
  function Weight(k: nat, rank: nat): (w: real)
    requires rank >= 1
  {
    1.0 / ((k + rank) as real)
  }

  function ListScore<K(==)>(list: seq<K>, x: K, k: nat): real {
    if list == [] then 0.0
    else ListScore(list[..|list| - 1], x, k)
         + (if list[|list| - 1] == x then Weight(k, |list|) else 0.0)
  }

  /** The fused score of key x: the sum of its contributions over all lists. */
  function TotalScore<K(==)>(lists: seq<seq<K>>, x: K, k: nat): real {
    if lists == [] then 0.0
    else TotalScore(lists[..|lists| - 1], x, k) + ListScore(lists[|lists| - 1], x, k)
  }

  predicate HasKey<K(==)>(docs: seq<Doc>, key: Doc -> K, x: K) {
    exists i :: 0 <= i < |docs| && key(docs[i]) == x
  }

  /** The first document of each key, in order of first appearance. */
  function FirstByKey<K(==)>(docs: seq<Doc>, key: Doc -> K): (r: seq<Doc>) {
    if docs == [] then []
    else
      var r := FirstByKey(docs[..|docs| - 1], key);
      var d := docs[|docs| - 1];
      if HasKey(r, key, key(d)) then r else r + [d]
  }

  function Docs(hits: seq<Hit>): seq<Doc> { Map(DocOf, hits) }

  function DocLists(lists: seq<seq<Hit>>): (r: seq<seq<Doc>>)
    ensures |r| == |lists|
    ensures forall i :: 0 <= i < |r| ==> r[i] == Docs(lists[i])
  {
    seq(|lists|, i requires 0 <= i < |lists| => Docs(lists[i]))
  }

  function Keys<K>(docs: seq<Doc>, key: Doc -> K): seq<K> { Map(key, docs) }

  function KeyLists<K>(lists: seq<seq<Doc>>, key: Doc -> K): (r: seq<seq<K>>)
    ensures |r| == |lists|
    ensures forall i :: 0 <= i < |r| ==> r[i] == Keys(lists[i], key)
  {
    seq(|lists|, i requires 0 <= i < |lists| => Keys(lists[i], key))
  }

  function FusedScore<K(==)>(lists: seq<seq<Doc>>, k: nat, key: Doc -> K, d: Doc): real {
    TotalScore(KeyLists(lists, key), key(d), k)
  }

  function Scored<K(==)>(lists: seq<seq<Doc>>, k: nat, key: Doc -> K): (r: seq<Hit>)
    ensures |r| == |FirstByKey(Flatten(lists), key)|
    ensures forall i :: 0 <= i < |r| ==>
      r[i] == Hit(FirstByKey(Flatten(lists), key)[i], FusedScore(lists, k, key, FirstByKey(Flatten(lists), key)[i]))
  {
    var ds := FirstByKey(Flatten(lists), key);
    seq(|ds|, i requires 0 <= i < |ds| => Hit(ds[i], FusedScore(lists, k, key, ds[i])))
  }

  /** The specification of both fusions: every document once, best total score first, ties in
      order of first appearance. */
  function FusedBy<K(==)>(lists: seq<seq<Doc>>, k: nat, key: Doc -> K): seq<Hit> {
    SortDesc(Scored(lists, k, key), ScoreOf)
  }

  lemma {:induction false} FirstByKeyFacts<K>(docs: seq<Doc>, key: Doc -> K)
    ensures forall d :: d in FirstByKey(docs, key) ==> d in docs
    ensures forall i, j :: 0 <= i < j < |FirstByKey(docs, key)| ==>
      key(FirstByKey(docs, key)[i]) != key(FirstByKey(docs, key)[j])
    ensures Distinct(FirstByKey(docs, key))
    ensures forall d :: d in docs ==> HasKey(FirstByKey(docs, key), key, key(d))
  {
    if docs != [] {
      var docs' := docs[..|docs| - 1];
      var last := docs[|docs| - 1];
      FirstByKeyFacts(docs', key);
      var r', r := FirstByKey(docs', key), FirstByKey(docs, key);
      assert docs == docs' + [last];
      forall d | d in docs ensures HasKey(r, key, key(d)) {
        if d in docs' {
          var i :| 0 <= i < |r'| && key(r'[i]) == key(d);
          assert r[i] == r'[i];
        } else if !HasKey(r', key, key(last)) {
          assert r[|r'|] == last;
        }
      }
    }
  }

  lemma FirstByKeyAppend<K>(docs: seq<Doc>, d: Doc, key: Doc -> K)
    ensures FirstByKey(docs + [d], key) ==
            if HasKey(FirstByKey(docs, key), key, key(d)) then FirstByKey(docs, key)
            else FirstByKey(docs, key) + [d]
  {
    assert (docs + [d])[..|docs|] == docs;
  }

  /** The accumulation state shared by both loops: `doc_rrf_scores` and `doc_map`. */
  datatype Accumulator<K(==)> = Accumulator(scores: Dict<K, real>, docMap: map<K, Doc>)

  /** Both dicts hold exactly the keys of ds, each with its first document. */
  ghost predicate Remembers<K>(acc: Accumulator<K>, ds: seq<Doc>, key: Doc -> K) {
    && acc.scores.Valid()
    && acc.scores.keys == Keys(ds, key)
    && acc.docMap.Keys == acc.scores.vals.Keys
    && (forall i :: 0 <= i < |ds| ==> key(ds[i]) in acc.docMap && acc.docMap[key(ds[i])] == ds[i])
  }

  function PartialScore<K(==)>(done: seq<seq<Doc>>, part: seq<Doc>, x: K, k: nat, key: Doc -> K): real {
    TotalScore(KeyLists(done, key), x, k) + ListScore(Keys(part, key), x, k)
  }

  /** The documents met in all of `done` lists and the part of the next one. */
  function Seen(done: seq<seq<Doc>>, part: seq<Doc>): seq<Doc> {
    Flatten(done) + part
  }

  lemma SeenNext(done: seq<seq<Doc>>, part: seq<Doc>, d: Doc)
    ensures Seen(done, part + [d]) == Seen(done, part) + [d]
  {
  }

  /** The state after all of `done` lists and the first `|part|` entries of the next one. */
  ghost predicate Accumulated<K(!new)>(acc: Accumulator<K>, done: seq<seq<Doc>>, part: seq<Doc>, k: nat,
      key: Doc -> K) {
    && Remembers(acc, FirstByKey(Seen(done, part), key), key)
    && ScoresMatch(acc.scores, done, part, k, key)
  }

  ghost predicate ScoresMatch<K(!new)>(scores: Dict<K, real>, done: seq<seq<Doc>>, part: seq<Doc>, k: nat,
      key: Doc -> K) {
    forall x :: scores.Get(x, 0.0) == PartialScore(done, part, x, k, key)
  }

  /** One loop body: remember the first document of the key, add 1/(k+rank) to its score. */
  function Accumulate<K(==)>(acc: Accumulator<K>, d: Doc, rank: nat, k: nat, key: Doc -> K): Accumulator<K>
    requires rank >= 1
  {
    Accumulator(
      acc.scores.Put(key(d), acc.scores.Get(key(d), 0.0) + Weight(k, rank)),
      if key(d) in acc.docMap then acc.docMap else acc.docMap[key(d) := d])
  }

  lemma RememberAgain<K>(acc: Accumulator<K>, ds: seq<Doc>, d: Doc, rank: nat, k: nat, key: Doc -> K)
    requires rank >= 1
    requires Remembers(acc, ds, key) && HasKey(ds, key, key(d))
    ensures Remembers(Accumulate(acc, d, rank, k, key), ds, key)
  {
    var i :| 0 <= i < |ds| && key(ds[i]) == key(d);
    assert key(d) in acc.docMap;
  }

  lemma RememberNew<K>(acc: Accumulator<K>, ds: seq<Doc>, d: Doc, rank: nat, k: nat, key: Doc -> K)
    requires rank >= 1
    requires Remembers(acc, ds, key) && !HasKey(ds, key, key(d))
    ensures Remembers(Accumulate(acc, d, rank, k, key), ds + [d], key)
  {
    assert key(d) !in acc.scores.keys;
    var acc', ds' := Accumulate(acc, d, rank, k, key), ds + [d];
    assert acc'.scores.keys == Keys(ds', key);
    forall i | 0 <= i < |ds'| ensures key(ds'[i]) in acc'.docMap && acc'.docMap[key(ds'[i])] == ds'[i] {
      if i < |ds| {
        assert ds'[i] == ds[i];
        assert key(ds[i]) in acc.docMap;
      }
    }
  }

  lemma PartialScoreAppend<K>(done: seq<seq<Doc>>, part: seq<Doc>, d: Doc, x: K, k: nat, key: Doc -> K)
    ensures PartialScore(done, part + [d], x, k, key)
            == PartialScore(done, part, x, k, key) + (if key(d) == x then Weight(k, |part| + 1) else 0.0)
  {
    assert Keys(part + [d], key)[..|part|] == Keys(part, key);
    assert Keys(part + [d], key)[|part|] == key(d);
  }

  lemma ScoresStep<K(!new)>(scores: Dict<K, real>, done: seq<seq<Doc>>, part: seq<Doc>, d: Doc, k: nat, key: Doc -> K)
    requires ScoresMatch(scores, done, part, k, key)
    ensures ScoresMatch(scores.Put(key(d), scores.Get(key(d), 0.0) + Weight(k, |part| + 1)), done, part + [d], k, key)
  {
    forall x { PartialScoreAppend(done, part, d, x, k, key); }
  }

  lemma RememberStep<K>(acc: Accumulator<K>, docs: seq<Doc>, d: Doc, rank: nat, k: nat, key: Doc -> K)
    requires rank >= 1
    requires Remembers(acc, FirstByKey(docs, key), key)
    ensures Remembers(Accumulate(acc, d, rank, k, key), FirstByKey(docs + [d], key), key)
  {
    FirstByKeyAppend(docs, d, key);
    var ds := FirstByKey(docs, key);
    if HasKey(ds, key, key(d)) {
      RememberAgain(acc, ds, d, rank, k, key);
      assert FirstByKey(docs + [d], key) == ds;
    } else {
      RememberNew(acc, ds, d, rank, k, key);
      assert FirstByKey(docs + [d], key) == ds + [d];
    }
  }

  lemma RememberNext<K>(acc: Accumulator<K>, done: seq<seq<Doc>>, part: seq<Doc>, d: Doc, k: nat, key: Doc -> K)
    requires Remembers(acc, FirstByKey(Seen(done, part), key), key)
    ensures Remembers(Accumulate(acc, d, |part| + 1, k, key), FirstByKey(Seen(done, part + [d]), key), key)
  {
    SeenNext(done, part, d);
    RememberStep(acc, Seen(done, part), d, |part| + 1, k, key);
  }

  lemma AccumulateStep<K(!new)>(acc: Accumulator<K>, done: seq<seq<Doc>>, part: seq<Doc>, d: Doc, k: nat, key: Doc -> K)
    requires Accumulated(acc, done, part, k, key)
    ensures Accumulated(Accumulate(acc, d, |part| + 1, k, key), done, part + [d], k, key)
  {
    RememberNext(acc, done, part, d, k, key);
    ScoresStep(acc.scores, done, part, d, k, key);
  }

  lemma NextList<K(!new)>(acc: Accumulator<K>, done: seq<seq<Doc>>, list: seq<Doc>, k: nat, key: Doc -> K)
    requires Accumulated(acc, done, list, k, key)
    ensures Accumulated(acc, done + [list], [], k, key)
  {
    assert (done + [list])[..|done|] == done;
    assert Flatten(done + [list]) + [] == Flatten(done) + list;
    assert KeyLists(done + [list], key)[..|done|] == KeyLists(done, key);
  }

  /** The state after one list, started from acc. */
  function AccumulateDocs<K(==)>(acc: Accumulator<K>, docs: seq<Doc>, k: nat, key: Doc -> K): Accumulator<K> {
    if docs == [] then acc
    else Accumulate(AccumulateDocs(acc, docs[..|docs| - 1], k, key), docs[|docs| - 1], |docs|, k, key)
  }

  lemma {:induction false} AccumulatedDocs<K(!new)>(acc: Accumulator<K>, done: seq<seq<Doc>>, docs: seq<Doc>,
      k: nat, key: Doc -> K)
    requires Accumulated(acc, done, [], k, key)
    ensures Accumulated(AccumulateDocs(acc, docs, k, key), done, docs, k, key)
  {
    if docs != [] {
      var rest, last := docs[..|docs| - 1], docs[|docs| - 1];
      assert docs == rest + [last];
      AccumulatedDocs(acc, done, rest, k, key);
      AccumulateStep(AccumulateDocs(acc, rest, k, key), done, rest, last, k, key);
    }
  }

  method AccumulateList<K(==,!new)>(list: seq<Hit>, k: nat, key: Doc -> K, acc0: Accumulator<K>,
      ghost done: seq<seq<Doc>>)
    returns (acc: Accumulator<K>)
    requires Accumulated(acc0, done, [], k, key)
    ensures Accumulated(acc, done + [Docs(list)], [], k, key)
  {
    acc := acc0;
    for i := 0 to |list|
      invariant acc == AccumulateDocs(acc0, Docs(list)[..i], k, key)
    {
      assert Docs(list)[..i + 1][..i] == Docs(list)[..i];
      acc := Accumulate(acc, list[i].doc, i + 1, k, key);
    }
    assert Docs(list)[..|list|] == Docs(list);
    AccumulatedDocs(acc0, done, Docs(list), k, key);
    NextList(acc, done, Docs(list), k, key);
  }

  /** `[(doc_map[id], score) for id, score in doc_rrf_scores.items()]` */
  function Resolve<K(==)>(docMap: map<K, Doc>, items: seq<(K, real)>): (r: seq<Hit>)
    requires forall i :: 0 <= i < |items| ==> items[i].0 in docMap
    ensures |r| == |items|
    ensures forall i :: 0 <= i < |r| ==> r[i] == Hit(docMap[items[i].0], items[i].1)
  {
    seq(|items|, i requires 0 <= i < |items| => Hit(docMap[items[i].0], items[i].1))
  }

  lemma ResolvedIsScored<K(!new)>(acc: Accumulator<K>, lists: seq<seq<Doc>>, k: nat, key: Doc -> K)
    requires Accumulated(acc, lists, [], k, key)
    ensures forall i :: 0 <= i < |acc.scores.Items()| ==> acc.scores.Items()[i].0 in acc.docMap
    ensures Resolve(acc.docMap, acc.scores.Items()) == Scored(lists, k, key)
  {
    assert Flatten(lists) + [] == Flatten(lists);
    var ds := FirstByKey(Flatten(lists), key);
    var items := acc.scores.Items();
    forall i | 0 <= i < |items|
      ensures items[i].0 in acc.docMap && Hit(acc.docMap[items[i].0], items[i].1) == Scored(lists, k, key)[i]
    {
      var x := key(ds[i]);
      assert acc.scores.keys[i] == x && x in acc.scores.keys;
      assert acc.scores.Get(x, 0.0) == PartialScore(lists, [], x, k, key);
      assert ListScore(Keys([], key), x, k) == 0.0;
    }
  }

  /** Looks the document of an item up. */
  function LookUp<K(==)>(docMap: map<K, Doc>): ((K, real)) -> Hit {
    (item: (K, real)) => Hit(if item.0 in docMap then docMap[item.0] else Doc(0, ""), item.1)
  }

  lemma ResolveIsMap<K>(docMap: map<K, Doc>, items: seq<(K, real)>)
    requires forall i :: 0 <= i < |items| ==> items[i].0 in docMap
    ensures Map(LookUp(docMap), items) == Resolve(docMap, items)
  {
  }

  lemma SortedItemsKnown<K>(docMap: map<K, Doc>, items: seq<(K, real)>)
    requires forall i :: 0 <= i < |items| ==> items[i].0 in docMap
    ensures forall x :: x in SortDesc(items, ItemScore) ==> x.0 in docMap
  {
    forall x | x in SortDesc(items, ItemScore) ensures x.0 in docMap {
      SortMember(items, ItemScore, x);
      var i :| 0 <= i < |items| && items[i] == x;
    }
  }

  lemma LookUpKeepsScore<K>(docMap: map<K, Doc>, items: seq<(K, real)>)
    ensures SortDesc(Map(LookUp(docMap), items), ScoreOf) == Map(LookUp(docMap), SortDesc(items, ItemScore))
  {
    SortMap(items, LookUp(docMap), ItemScore, ScoreOf);
  }

  /** Sorting the (key, score) items and then looking the documents up, as the n-list form does,
      gives what sorting the resolved list gives. */
  lemma ResolveSorted<K>(docMap: map<K, Doc>, items: seq<(K, real)>)
    requires forall i :: 0 <= i < |items| ==> items[i].0 in docMap
    ensures forall x :: x in SortDesc(items, ItemScore) ==> x.0 in docMap
    ensures Resolve(docMap, SortDesc(items, ItemScore)) == SortDesc(Resolve(docMap, items), ScoreOf)
  {
    SortedItemsKnown(docMap, items);
    LookUpKeepsScore(docMap, items);
    ResolveIsMap(docMap, items);
    ResolveIsMap(docMap, SortDesc(items, ItemScore));
  }

  method ReciprocalRankFusion(results1: seq<Hit>, results2: seq<Hit>, k: nat) returns (fused: seq<Hit>)
    ensures fused == FusedBy([Docs(results1), Docs(results2)], k, IdOf)
  {
    var acc: Accumulator<string> := Accumulator(Empty(), map[]);
    assert Accumulated(acc, [], [], k, IdOf);
    acc := AccumulateList(results1, k, IdOf, acc, []);
    acc := AccumulateList(results2, k, IdOf, acc, [] + [Docs(results1)]);
    assert [] + [Docs(results1)] + [Docs(results2)] == [Docs(results1), Docs(results2)];
    ResolvedIsScored(acc, [Docs(results1), Docs(results2)], k, IdOf);
    fused := Resolve(acc.docMap, acc.scores.Items());
    fused := SortDesc(fused, ScoreOf);
  }

  /** The n-list form: nothing for no list, the list itself for one list, fusion otherwise. */
  function MultiFused(lists: seq<seq<Hit>>, k: nat): seq<Hit> {
    if lists == [] then []
    else if |lists| == 1 then lists[0]
    else FusedBy(DocLists(lists), k, AddrOf)
  }

  method MultiRrfFusion(resultsList: seq<seq<Hit>>, k: nat) returns (fused: seq<Hit>)
    ensures fused == MultiFused(resultsList, k)
  {
    if resultsList == [] {
      return [];
    }
    if |resultsList| == 1 {
      return resultsList[0];
    }
    var acc: Accumulator<nat> := Accumulator(Empty(), map[]);
    assert DocLists(resultsList[..0]) == [];
    for i := 0 to |resultsList|
      invariant Accumulated(acc, DocLists(resultsList[..i]), [], k, AddrOf)
    {
      acc := AccumulateList(resultsList[i], k, AddrOf, acc, DocLists(resultsList[..i]));
      assert DocLists(resultsList[..i + 1]) == DocLists(resultsList[..i]) + [Docs(resultsList[i])];
    }
    assert resultsList[..|resultsList|] == resultsList;
    ResolvedIsScored(acc, DocLists(resultsList), k, AddrOf);
    ResolveSorted(acc.docMap, acc.scores.Items());
    var sortedDocs := SortDesc(acc.scores.Items(), ItemScore);
    assert forall i :: 0 <= i < |sortedDocs| ==> sortedDocs[i] in sortedDocs;
    fused := Resolve(acc.docMap, sortedDocs);
  }
}
