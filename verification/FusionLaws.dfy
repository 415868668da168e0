/** What fusion promises: a voting bound with its exact limit, a Pareto law, independence of the
    order of the result lists, and agreement of the two implementations. */
module FusionLaws {
  import opened Sequences
  import opened StableSort
  import opened RankFusion

  // ---------- weights ----------

  lemma WeightDecreases(k: nat, r: nat, r': nat)
    requires 1 <= r <= r'
    ensures 0.0 < Weight(k, r') <= Weight(k, r)
    ensures r < r' ==> Weight(k, r') < Weight(k, r)
  {
    var a, b := (k + r) as real, (k + r') as real;
    assert Weight(k, r) - Weight(k, r') == (b - a) / (a * b);
  }

  /** n contributions of weight w. */
  function Times(n: nat, w: real): real {
    if n == 0 then 0.0 else Times(n - 1, w) + w
  }

  lemma {:induction false} TimesMono(n: nat, u: real, v: real)
    requires u <= v
    ensures Times(n, u) <= Times(n, v)
    ensures n >= 1 && u < v ==> Times(n, u) < Times(n, v)
  {
    if n > 0 { TimesMono(n - 1, u, v); }
  }

  lemma {:induction false} TimesNonNegative(n: nat, u: real)
    requires u >= 0.0
    ensures Times(n, u) >= 0.0
  {
    if n > 0 { TimesNonNegative(n - 1, u); }
  }

  lemma {:induction false} TimesIsProduct(n: nat, w: real)
    ensures Times(n, w) == n as real * w
  {
    if n > 0 {
      TimesIsProduct(n - 1, w);
      assert n as real == (n - 1) as real + 1.0;
      assert ((n - 1) as real + 1.0) * w == (n - 1) as real * w + w;
    }
  }

  // ---------- membership of the fused list ----------

  function FusedHit<K(==)>(lists: seq<seq<Doc>>, k: nat, key: Doc -> K, d: Doc): Hit {
    Hit(d, FusedScore(lists, k, key, d))
  }

  /** The fused list holds exactly one hit for each first-seen document. */
  lemma FusedMembers<K>(lists: seq<seq<Doc>>, k: nat, key: Doc -> K)
    ensures Distinct(Docs(FusedBy(lists, k, key)))
    ensures Distinct(Scored(lists, k, key)) && Distinct(FusedBy(lists, k, key))
    ensures forall h :: h in FusedBy(lists, k, key) <==>
              h.doc in FirstByKey(Flatten(lists), key) && h == FusedHit(lists, k, key, h.doc)
    ensures forall h :: h in FusedBy(lists, k, key) <==> h in Scored(lists, k, key)
  {
    var scored, ds := Scored(lists, k, key), FirstByKey(Flatten(lists), key);
    FirstByKeyFacts(Flatten(lists), key);
    assert forall i :: 0 <= i < |ds| ==> scored[i] == FusedHit(lists, k, key, ds[i]);
    SortPermutes(scored, ScoreOf);
    PermutationDistinct(scored, FusedBy(lists, k, key));
    forall h: Hit | h.doc in ds && h == FusedHit(lists, k, key, h.doc) ensures h in scored {
      var i :| 0 <= i < |ds| && ds[i] == h.doc;
      assert scored[i] == h;
    }
    var fused := FusedBy(lists, k, key);
    forall i, j | 0 <= i < j < |fused| ensures Docs(fused)[i] != Docs(fused)[j] {
      assert fused[i] in scored && fused[j] in scored;
    }
  }

  /** A strictly larger fused score means an earlier place. */
  lemma LargerScoreFirst<K>(lists: seq<seq<Doc>>, k: nat, key: Doc -> K, d: Doc, e: Doc)
    requires d in FirstByKey(Flatten(lists), key) && e in FirstByKey(Flatten(lists), key)
    requires FusedScore(lists, k, key, d) > FusedScore(lists, k, key, e)
    ensures Precedes(FusedBy(lists, k, key), FusedHit(lists, k, key, d), FusedHit(lists, k, key, e))
  {
    FusedMembers(lists, k, key);
    assert FusedHit(lists, k, key, d) in FusedBy(lists, k, key);
    assert FusedHit(lists, k, key, e) in FusedBy(lists, k, key);
    LargerKeyFirst(Scored(lists, k, key), ScoreOf, FusedHit(lists, k, key, d), FusedHit(lists, k, key, e));
  }

  // ---------- order independence ----------

  /** What one list contributes to the score of x. */
  function Contribution<K(==)>(x: K, k: nat, key: Doc -> K): seq<Doc> -> real {
    l => ListScore(Keys(l, key), x, k)
  }

  lemma {:induction false} TotalIsSum<K>(lists: seq<seq<Doc>>, x: K, k: nat, key: Doc -> K)
    ensures TotalScore(KeyLists(lists, key), x, k) == Sum(Contribution(x, k, key), lists)
  {
    if lists != [] {
      TotalIsSum(lists[..|lists| - 1], x, k, key);
      assert KeyLists(lists, key)[..|lists| - 1] == KeyLists(lists[..|lists| - 1], key);
    }
  }

  /** The score of a key does not depend on the order of the lists. */
  lemma ScoreOrderIndependent<K>(a: seq<seq<Doc>>, b: seq<seq<Doc>>, x: K, k: nat, key: Doc -> K)
    requires multiset(a) == multiset(b)
    ensures TotalScore(KeyLists(a, key), x, k) == TotalScore(KeyLists(b, key), x, k)
  {
    TotalIsSum(a, x, k, key);
    TotalIsSum(b, x, k, key);
    SumPermuted(Contribution(x, k, key), a, b);
  }

  /** One heap: documents with the same key are the same object. */
  ghost predicate OneDocPerKey<K>(docs: seq<Doc>, key: Doc -> K) {
    forall d, e :: d in docs && e in docs && key(d) == key(e) ==> d == e
  }

  lemma FirstByKeyIsAll<K>(docs: seq<Doc>, key: Doc -> K, d: Doc)
    requires OneDocPerKey(docs, key)
    ensures d in FirstByKey(docs, key) <==> d in docs
  {
    FirstByKeyFacts(docs, key);
    if d in docs {
      var i :| 0 <= i < |FirstByKey(docs, key)| && key(FirstByKey(docs, key)[i]) == key(d);
      assert FirstByKey(docs, key)[i] in docs;
    }
  }

  lemma SameDocuments(a: seq<seq<Doc>>, b: seq<seq<Doc>>)
    requires multiset(a) == multiset(b)
    ensures forall d :: d in Flatten(a) <==> d in Flatten(b)
  {
    SameMultisetSameMembers(a, b);
    FlattenMembers(a);
    FlattenMembers(b);
  }

  /** Permuting `results_list` changes neither the fused documents nor their scores: the two
      outputs are permutations of each other (they may differ in the order of ties only). */
  lemma FusionOrderIndependent<K>(a: seq<seq<Doc>>, b: seq<seq<Doc>>, k: nat, key: Doc -> K)
    requires multiset(a) == multiset(b)
    requires OneDocPerKey(Flatten(a), key)
    ensures multiset(FusedBy(a, k, key)) == multiset(FusedBy(b, k, key))
    ensures OneDocPerKey(Flatten(b), key)
  {
    SameDocuments(a, b);
    FusedMembers(a, k, key);
    FusedMembers(b, k, key);
    forall h ensures h in FusedBy(a, k, key) <==> h in FusedBy(b, k, key) {
      FirstByKeyIsAll(Flatten(a), key, h.doc);
      FirstByKeyIsAll(Flatten(b), key, h.doc);
      ScoreOrderIndependent(a, b, key(h.doc), k, key);
    }
    SameMembersSameMultiset(FusedBy(a, k, key), FusedBy(b, k, key));
  }

  // ---------- Pareto ----------

  function Count<K(==)>(list: seq<K>, x: K): nat {
    if list == [] then 0
    else Count(list[..|list| - 1], x) + (if list[|list| - 1] == x then 1 else 0)
  }

  /** Every prefix of the list holds at least as many x as y: in a duplicate-free list this says
      that y is absent or x stands above it. */
  ghost predicate Leads<K>(list: seq<K>, x: K, y: K) {
    forall p :: 0 <= p <= |list| ==> Count(list[..p], x) >= Count(list[..p], y)
  }

  /** One list entry: s is the score lead and c the count lead so far, v the last weight used,
      u the next one; the entry adds dc to the count lead. */
  lemma LeadStep(s: real, c: nat, dc: int, u: real, v: real)
    requires 0.0 < u < v && -1 <= dc <= 1 && c + dc >= 0
    requires s >= Times(c, v)
    ensures s + dc as real * u >= Times(c + dc, u)
    ensures dc == -1 || s > Times(c, v) ==> s + dc as real * u > Times(c + dc, u)
  {
    TimesMono(c, u, v);
    if dc == 1 {
      assert dc as real * u == u;
    } else if dc == -1 {
      assert dc as real * u == -u;
    }
  }

  lemma LeadsPrefix<K>(list: seq<K>, x: K, y: K)
    requires list != [] && Leads(list, x, y)
    ensures Leads(list[..|list| - 1], x, y)
    ensures Count(list, x) >= Count(list, y)
  {
    var rest := list[..|list| - 1];
    assert list[..|list|] == list;
    forall p | 0 <= p <= |rest| ensures Count(rest[..p], x) >= Count(rest[..p], y) {
      assert rest[..p] == list[..p];
    }
  }

  lemma {:induction false} LeaderScore<K>(list: seq<K>, x: K, y: K, k: nat)
    requires x != y && list != [] && Leads(list, x, y)
    ensures Count(list, x) >= Count(list, y)
    ensures ListScore(list, x, k) - ListScore(list, y, k)
            >= Times(Count(list, x) - Count(list, y), Weight(k, |list|))
    ensures y in list ==>
      ListScore(list, x, k) - ListScore(list, y, k)
        > Times(Count(list, x) - Count(list, y), Weight(k, |list|))
  {
    LeadsPrefix(list, x, y);
    var n := |list|;
    var rest, last := list[..n - 1], list[n - 1];
    assert list == rest + [last];
    var dc := if last == x then 1 else if last == y then -1 else 0;
    if n == 1 {
      assert rest == [] && dc >= 0;
      WeightDecreases(k, 1, 1);
    } else {
      LeaderScore(rest, x, y, k);
      WeightDecreases(k, n - 1, n);
      LeadStep(ListScore(rest, x, k) - ListScore(rest, y, k), Count(rest, x) - Count(rest, y), dc, Weight(k, n),
          Weight(k, n - 1));
    }
  }

  lemma {:induction false} LeaderTotal<K>(lists: seq<seq<K>>, x: K, y: K, k: nat)
    requires x != y
    requires forall l :: l in lists ==> Leads(l, x, y)
    ensures TotalScore(lists, x, k) >= TotalScore(lists, y, k)
    ensures (exists l :: l in lists && y in l) ==> TotalScore(lists, x, k) > TotalScore(lists, y, k)
  {
    if lists != [] {
      var rest, last := lists[..|lists| - 1], lists[|lists| - 1];
      assert lists == rest + [last];
      LeaderTotal(rest, x, y, k);
      if last != [] {
        LeaderScore(last, x, y, k);
        WeightDecreases(k, |last|, |last|);
        TimesNonNegative(Count(last, x) - Count(last, y), Weight(k, |last|));
      }
    }
  }

  lemma KeyInSomeList<K>(lists: seq<seq<Doc>>, key: Doc -> K, d: Doc) returns (l: seq<K>)
    requires d in Flatten(lists)
    ensures l in KeyLists(lists, key) && key(d) in l
  {
    FlattenMembers(lists);
    var docs :| docs in lists && d in docs;
    var i :| 0 <= i < |lists| && lists[i] == docs;
    var j :| 0 <= j < |docs| && docs[j] == d;
    l := KeyLists(lists, key)[i];
    assert l[j] == key(d);
  }

  /** Pareto: if d leads e in every list, then d precedes e in the fused output. */
  lemma ParetoOrder<K>(lists: seq<seq<Doc>>, k: nat, key: Doc -> K, d: Doc, e: Doc)
    requires d in FirstByKey(Flatten(lists), key) && e in FirstByKey(Flatten(lists), key) && key(d) != key(e)
    requires forall l :: l in KeyLists(lists, key) ==> Leads(l, key(d), key(e))
    ensures Precedes(FusedBy(lists, k, key), FusedHit(lists, k, key, d), FusedHit(lists, k, key, e))
  {
    assert e in Flatten(lists) by { FirstByKeyFacts(Flatten(lists), key); }
    var l := KeyInSomeList(lists, key, e);
    LeaderTotal(KeyLists(lists, key), key(d), key(e), k);
    LargerScoreFirst(lists, k, key, d, e);
  }

  lemma {:induction false} CountInDistinct<K>(list: seq<K>, x: K)
    requires Distinct(list)
    ensures Count(list, x) == if x in list then 1 else 0
  {
    if list != [] {
      CountInDistinct(list[..|list| - 1], x);
      assert list == list[..|list| - 1] + [list[|list| - 1]];
    }
  }

  /** For duplicate-free lists, leading is exactly "ranked above in the list, if y is in it". */
  lemma LeadsIffAbove<K>(list: seq<K>, x: K, y: K)
    requires Distinct(list) && x != y
    ensures Leads(list, x, y) <==> (y in list ==> Precedes(list, x, y))
  {
    forall p | 0 <= p <= |list|
      ensures Count(list[..p], x) == if x in list[..p] then 1 else 0
      ensures Count(list[..p], y) == if y in list[..p] then 1 else 0
    {
      CountInDistinct(list[..p], x);
      CountInDistinct(list[..p], y);
    }
    if Leads(list, x, y) && y in list {
      var j :| 0 <= j < |list| && list[j] == y;
      assert list[..j + 1][j] == y;
      assert Count(list[..j + 1], x) >= 1;
      var i :| 0 <= i < |list[..j + 1]| && list[..j + 1][i] == x;
      assert list[i] == x && i < j;
    }
    if y in list ==> Precedes(list, x, y) {
      forall p | 0 <= p <= |list| ensures Count(list[..p], x) >= Count(list[..p], y) {
        if y in list[..p] {
          var i, j :| 0 <= i < j < |list| && list[i] == x && list[j] == y;
          assert list[..p][i] == x;
        }
      }
    }
  }

  // ---------- votes ----------

  /** How many of the lists hold x. */
  function Votes<K(==)>(lists: seq<seq<K>>, x: K): nat {
    if lists == [] then 0
    else Votes(lists[..|lists| - 1], x) + (if x in lists[|lists| - 1] then 1 else 0)
  }

  lemma {:induction false} DistinctListScore<K>(list: seq<K>, x: K, k: nat)
    requires Distinct(list)
    ensures x !in list ==> ListScore(list, x, k) == 0.0
    ensures forall i :: 0 <= i < |list| && list[i] == x ==> ListScore(list, x, k) == Weight(k, i + 1)
  {
    if list != [] {
      var rest := list[..|list| - 1];
      assert list == rest + [list[|list| - 1]];
      DistinctListScore(rest, x, k);
      forall i | 0 <= i < |list| && list[i] == x ensures ListScore(list, x, k) == Weight(k, i + 1) {
        if i < |rest| {
          assert rest[i] == x;
        }
      }
    }
  }

  ghost predicate DistinctWithin<K>(lists: seq<seq<K>>, maxLen: nat) {
    forall l :: l in lists ==> Distinct(l) && |l| <= maxLen
  }

  lemma OneVote<K>(list: seq<K>, x: K, k: nat, maxLen: nat)
    requires maxLen >= 1 && Distinct(list) && |list| <= maxLen
    ensures x in list ==> Weight(k, maxLen) <= ListScore(list, x, k) <= Weight(k, 1)
    ensures x !in list ==> ListScore(list, x, k) == 0.0
  {
    DistinctListScore(list, x, k);
    if x in list {
      var i :| 0 <= i < |list| && list[i] == x;
      WeightDecreases(k, 1, i + 1);
      WeightDecreases(k, i + 1, maxLen);
    }
  }

  lemma {:induction false} VoteScoreBounds<K>(lists: seq<seq<K>>, x: K, k: nat, maxLen: nat)
    requires maxLen >= 1 && DistinctWithin(lists, maxLen)
    ensures Times(Votes(lists, x), Weight(k, maxLen)) <= TotalScore(lists, x, k) <= Times(Votes(lists, x), Weight(k, 1))
  {
    if lists != [] {
      var rest, last := lists[..|lists| - 1], lists[|lists| - 1];
      assert lists == rest + [last];
      VoteScoreBounds(rest, x, k, maxLen);
      OneVote(last, x, k, maxLen);
    }
  }

  /** With a >= j and b < j the worst a-vote score beats the best b-vote score. */
  lemma VoteArithmetic(a: nat, b: nat, j: nat, k: nat, maxLen: nat)
    requires b < j <= a && maxLen >= 1
    requires maxLen * (j - 1) < k + j
    ensures Times(a, Weight(k, maxLen)) > Times(b, Weight(k, 1))
  {
    assert j * (k + 1) > (j - 1) * (k + maxLen) by {
      assert j * (k + 1) - (j - 1) * (k + maxLen) == k + j - maxLen * (j - 1);
    }
    assert a * (k + 1) >= j * (k + 1);
    assert b * (k + maxLen) <= (j - 1) * (k + maxLen);
    ProductAsReal(a, k + 1);
    ProductAsReal(b, k + maxLen);
    CrossMultiply(a, b, (k + 1) as real, (k + maxLen) as real);
  }

  lemma CrossMultiplyReal(a: real, b: real, p: real, q: real)
    requires p > 0.0 && q > 0.0
    ensures a * (1.0 / q) - b * (1.0 / p) == (a * p - b * q) / (p * q)
    ensures p * q > 0.0
  {
  }

  lemma QuotientSign(n: real, d: real)
    requires d > 0.0
    ensures n > 0.0 ==> n / d > 0.0
    ensures n <= 0.0 ==> n / d <= 0.0
  {
  }

  lemma ReciprocalOrder(a: real, b: real, p: real, q: real)
    requires p > 0.0 && q > 0.0
    ensures a * p > b * q ==> a * (1.0 / q) > b * (1.0 / p)
    ensures a * p <= b * q ==> a * (1.0 / q) <= b * (1.0 / p)
  {
    CrossMultiplyReal(a, b, p, q);
    QuotientSign(a * p - b * q, p * q);
  }

  lemma ProductAsReal(a: nat, p: nat)
    ensures (a * p) as real == a as real * p as real
  {
  }

  lemma CrossMultiply(a: nat, b: nat, p: real, q: real)
    requires p > 0.0 && q > 0.0
    ensures a as real * p > b as real * q ==> Times(a, 1.0 / q) > Times(b, 1.0 / p)
    ensures a as real * p <= b as real * q ==> Times(a, 1.0 / q) <= Times(b, 1.0 / p)
  {
    TimesIsProduct(a, 1.0 / q);
    TimesIsProduct(b, 1.0 / p);
    ReciprocalOrder(a as real, b as real, p, q);
  }

  /** At or beyond the bound the best (j-1)-vote score reaches the worst j-vote score. */
  lemma VoteArithmeticFails(j: nat, k: nat, maxLen: nat)
    requires j >= 1 && maxLen >= 1
    requires maxLen * (j - 1) >= k + j
    ensures Times(j, Weight(k, maxLen)) <= Times(j - 1, Weight(k, 1))
  {
    assert j * (k + 1) <= (j - 1) * (k + maxLen) by {
      assert j * (k + 1) - (j - 1) * (k + maxLen) == k + j - maxLen * (j - 1);
    }
    ProductAsReal(j, k + 1);
    ProductAsReal(j - 1, k + maxLen);
    CrossMultiply(j, j - 1, (k + 1) as real, (k + maxLen) as real);
  }

  /** The vote bound: over duplicate-free lists of at most maxLen entries with
      maxLen * (j-1) < k + j, a document found by j lists precedes one found by fewer. */
  lemma VoteBound<K>(lists: seq<seq<Doc>>, k: nat, key: Doc -> K, maxLen: nat, j: nat, d: Doc, e: Doc)
    requires DistinctWithin(KeyLists(lists, key), maxLen)
    requires maxLen * (j - 1) < k + j
    requires d in FirstByKey(Flatten(lists), key) && e in FirstByKey(Flatten(lists), key)
    requires Votes(KeyLists(lists, key), key(e)) < j <= Votes(KeyLists(lists, key), key(d))
    ensures Precedes(FusedBy(lists, k, key), FusedHit(lists, k, key, d), FusedHit(lists, k, key, e))
  {
    assert d in Flatten(lists) by { FirstByKeyFacts(Flatten(lists), key); }
    var l := KeyInSomeList(lists, key, d);
    assert 1 <= |l| <= maxLen;
    VoteScoreBounds(KeyLists(lists, key), key(d), k, maxLen);
    VoteScoreBounds(KeyLists(lists, key), key(e), k, maxLen);
    VoteArithmetic(Votes(KeyLists(lists, key), key(d)), Votes(KeyLists(lists, key), key(e)), j, k, maxLen);
    LargerScoreFirst(lists, k, key, d, e);
  }

  lemma FlattenTwo(a: seq<Doc>, b: seq<Doc>)
    ensures Flatten([a, b]) == a + b
  {
    var lists, one := [a, b], [a];
    assert lists[..1] == one && one[..0] == [];
    assert Flatten(one) == Flatten(one[..0]) + a == a;
  }

  lemma VotesTwo<K>(a: seq<K>, b: seq<K>, x: K)
    ensures Votes([a, b], x) == (if x in a then 1 else 0) + (if x in b then 1 else 0)
  {
    var lists, one := [a, b], [a];
    assert lists[..1] == one && one[..0] == [];
    assert Votes(one, x) == Votes(one[..0], x) + (if x in a then 1 else 0);
  }

  /** Two retrievers with at most 61 hits each (the default is 50) and k = 60: what both found
      precedes what only one found. */
  lemma BothRetrieversFirst(emb: seq<Hit>, bm25: seq<Hit>, d: Doc, e: Doc)
    requires |emb| <= 61 && |bm25| <= 61
    requires Distinct(Keys(Docs(emb), IdOf)) && Distinct(Keys(Docs(bm25), IdOf))
    requires d in FirstByKey(Docs(emb) + Docs(bm25), IdOf) && e in FirstByKey(Docs(emb) + Docs(bm25), IdOf)
    requires d.id in Keys(Docs(emb), IdOf) && d.id in Keys(Docs(bm25), IdOf)
    requires e.id !in Keys(Docs(emb), IdOf) || e.id !in Keys(Docs(bm25), IdOf)
    ensures var lists := [Docs(emb), Docs(bm25)];
      Precedes(FusedBy(lists, 60, IdOf), FusedHit(lists, 60, IdOf, d), FusedHit(lists, 60, IdOf, e))
  {
    var lists := [Docs(emb), Docs(bm25)];
    FlattenTwo(Docs(emb), Docs(bm25));
    var keys := KeyLists(lists, IdOf);
    assert keys == [Keys(Docs(emb), IdOf), Keys(Docs(bm25), IdOf)];
    VotesTwo(keys[0], keys[1], d.id);
    VotesTwo(keys[0], keys[1], e.id);
    VoteBound(lists, 60, IdOf, 61, 2, d, e);
  }

  // The bound is exact: outside it there are result lists that break it.

  function Loser(): Doc { Doc(0, "") }
  function Winner(): Doc { Doc(1, "") }

  /** maxLen - 1 other documents and then Loser. */
  function LongList(maxLen: nat): (r: seq<Doc>)
    requires maxLen >= 1
    ensures |r| == maxLen
    ensures forall i :: 0 <= i < maxLen - 1 ==> r[i] == Doc(i + 2, "")
    ensures r[maxLen - 1] == Loser()
  {
    seq(maxLen - 1, (i: nat) => Doc(i + 2, "")) + [Loser()]
  }

  /** `short` lists holding Winner alone, followed by `long` copies of LongList. */
  function Adversary(short: nat, long: nat, maxLen: nat): (r: seq<seq<Doc>>)
    requires maxLen >= 1
    ensures |r| == short + long
    ensures forall i :: 0 <= i < short ==> r[i] == [Winner()]
    ensures forall i :: short <= i < short + long ==> r[i] == LongList(maxLen)
  {
    seq(short + long, i => if i < short then [Winner()] else LongList(maxLen))
  }

  lemma AdversaryListScores(maxLen: nat, k: nat)
    requires maxLen >= 1
    ensures var long := Keys(LongList(maxLen), AddrOf);
      Distinct(long) && 0 in long && 1 !in long
      && ListScore(long, 0, k) == Weight(k, maxLen) && ListScore(long, 1, k) == 0.0
    ensures var short := Keys([Winner()], AddrOf);
      Distinct(short) && 1 in short && 0 !in short
      && ListScore(short, 1, k) == Weight(k, 1) && ListScore(short, 0, k) == 0.0
  {
    var long := Keys(LongList(maxLen), AddrOf);
    assert forall i :: 0 <= i < maxLen - 1 ==> long[i] == i + 2;
    assert long[maxLen - 1] == 0;
    DistinctListScore(long, 0, k);
    DistinctListScore(long, 1, k);
    var short := Keys([Winner()], AddrOf);
    assert short == [1];
    DistinctListScore(short, 0, k);
    DistinctListScore(short, 1, k);
    assert short[0] == 1;
  }

  lemma {:induction false} TimesZero(n: nat)
    ensures Times(n, 0.0) == 0.0
  {
    if n > 0 {
      TimesZero(n - 1);
    }
  }

  lemma TotalNext<K>(lists: seq<seq<K>>, l: seq<K>, x: K, k: nat)
    ensures TotalScore(lists + [l], x, k) == TotalScore(lists, x, k) + ListScore(l, x, k)
    ensures Votes(lists + [l], x) == Votes(lists, x) + if x in l then 1 else 0
  {
    assert (lists + [l])[..|lists|] == lists;
  }

  function Copies<K>(l: seq<K>, n: nat): (r: seq<seq<K>>)
    ensures |r| == n && forall i :: 0 <= i < n ==> r[i] == l
  {
    if n == 0 then [] else Copies(l, n - 1) + [l]
  }

  lemma {:induction false} CopiesScore<K>(l: seq<K>, n: nat, x: K, k: nat)
    ensures TotalScore(Copies(l, n), x, k) == Times(n, ListScore(l, x, k))
    ensures Votes(Copies(l, n), x) == if x in l then n else 0
  {
    if n > 0 {
      CopiesScore(l, n - 1, x, k);
      TotalNext(Copies(l, n - 1), l, x, k);
    }
  }

  lemma {:induction false} TotalConcat<K>(a: seq<seq<K>>, b: seq<seq<K>>, x: K, k: nat)
    ensures TotalScore(a + b, x, k) == TotalScore(a, x, k) + TotalScore(b, x, k)
    ensures Votes(a + b, x) == Votes(a, x) + Votes(b, x)
  {
    if b == [] {
      assert a + b == a;
    } else {
      var rest, last := b[..|b| - 1], b[|b| - 1];
      TotalConcat(a, rest, x, k);
      TotalNext(a + rest, last, x, k);
      TotalNext(rest, last, x, k);
      assert b == rest + [last] && a + b == a + rest + [last];
    }
  }

  lemma AdversaryKeys(short: nat, long: nat, maxLen: nat)
    requires maxLen >= 1
    ensures KeyLists(Adversary(short, long, maxLen), AddrOf)
            == Copies(Keys([Winner()], AddrOf), short) + Copies(Keys(LongList(maxLen), AddrOf), long)
  {
  }

  lemma AdversaryKeyScore(one: seq<nat>, short: nat, many: seq<nat>, long: nat, x: nat, k: nat)
    ensures TotalScore(Copies(one, short) + Copies(many, long), x, k)
            == Times(short, ListScore(one, x, k)) + Times(long, ListScore(many, x, k))
    ensures Votes(Copies(one, short) + Copies(many, long), x)
        == (if x in one then short else 0) + (if x in many then long else 0)
  {
    TotalConcat(Copies(one, short), Copies(many, long), x, k);
    CopiesScore(one, short, x, k);
    CopiesScore(many, long, x, k);
  }

  lemma AdversaryScores(short: nat, long: nat, maxLen: nat, k: nat)
    requires maxLen >= 1
    ensures var lists := KeyLists(Adversary(short, long, maxLen), AddrOf);
      && TotalScore(lists, 0, k) == Times(long, Weight(k, maxLen))
      && TotalScore(lists, 1, k) == Times(short, Weight(k, 1))
      && Votes(lists, 0) == long
      && Votes(lists, 1) == short
  {
    AdversaryListScores(maxLen, k);
    AdversaryKeys(short, long, maxLen);
    AdversaryKeyScore(Keys([Winner()], AddrOf), short, Keys(LongList(maxLen), AddrOf), long, 0, k);
    AdversaryKeyScore(Keys([Winner()], AddrOf), short, Keys(LongList(maxLen), AddrOf), long, 1, k);
    TimesZero(short);
    TimesZero(long);
  }

  lemma AdversaryDistinct(short: nat, long: nat, maxLen: nat)
    requires maxLen >= 1
    ensures DistinctWithin(KeyLists(Adversary(short, long, maxLen), AddrOf), maxLen)
  {
    AdversaryListScores(maxLen, 0);
    var lists := KeyLists(Adversary(short, long, maxLen), AddrOf);
    forall l | l in lists ensures Distinct(l) && |l| <= maxLen {
      var i :| 0 <= i < |lists| && lists[i] == l;
      assert l == if i < short then Keys([Winner()], AddrOf) else Keys(LongList(maxLen), AddrOf);
    }
  }

  /** Whenever maxLen * (j-1) >= k + j there are duplicate-free lists of at most maxLen entries in
      which a document found by j lists does not precede one found by j-1. */
  lemma VoteBoundExact(k: nat, maxLen: nat, j: nat) returns (lists: seq<seq<Doc>>)
    requires j >= 2 && maxLen >= 1
    requires maxLen * (j - 1) >= k + j
    ensures |lists| >= 2 && DistinctWithin(KeyLists(lists, AddrOf), maxLen)
    ensures Votes(KeyLists(lists, AddrOf), AddrOf(Loser())) == j
    ensures Votes(KeyLists(lists, AddrOf), AddrOf(Winner())) == j - 1
    ensures Precedes(FusedBy(lists, k, AddrOf), FusedHit(lists, k, AddrOf, Winner()),
        FusedHit(lists, k, AddrOf, Loser()))
  {
    lists := Adversary(j - 1, j, maxLen);
    AdversaryScores(j - 1, j, maxLen, k);
    AdversaryDistinct(j - 1, j, maxLen);
    VoteArithmeticFails(j, k, maxLen);
    assert FusedScore(lists, k, AddrOf, Winner()) >= FusedScore(lists, k, AddrOf, Loser());
    WinnerSeenFirst(j - 1, j, maxLen);
    EarlierSeenWins(lists, k, Winner(), Loser());
  }

  lemma EarlierSeenWins(lists: seq<seq<Doc>>, k: nat, d: Doc, e: Doc)
    requires Precedes(FirstByKey(Flatten(lists), AddrOf), d, e)
    requires FusedScore(lists, k, AddrOf, d) >= FusedScore(lists, k, AddrOf, e)
    ensures Precedes(FusedBy(lists, k, AddrOf), FusedHit(lists, k, AddrOf, d), FusedHit(lists, k, AddrOf, e))
  {
    var ds := FirstByKey(Flatten(lists), AddrOf);
    var i, j :| 0 <= i < j < |ds| && ds[i] == d && ds[j] == e;
    EarlierAndNoSmaller(Scored(lists, k, AddrOf), ScoreOf, i, j);
  }

  lemma {:induction false} WinnerSeenFirst(short: nat, long: nat, maxLen: nat)
    requires short >= 1 && maxLen >= 1
    ensures FirstByKey(Flatten(Adversary(short, long, maxLen)), AddrOf) != []
    ensures FirstByKey(Flatten(Adversary(short, long, maxLen)), AddrOf)[0] == Winner()
    ensures long >= 1 ==> Precedes(FirstByKey(Flatten(Adversary(short, long, maxLen)), AddrOf), Winner(), Loser())
  {
    var lists := Adversary(short, long, maxLen);
    FlattenHead(lists);
    FirstByKeyHead(Flatten(lists), AddrOf);
    var ds := FirstByKey(Flatten(lists), AddrOf);
    if long >= 1 {
      FlattenMembers(lists);
      assert lists[short] in lists && LongList(maxLen)[maxLen - 1] in lists[short];
      FirstByKeyFacts(Flatten(lists), AddrOf);
      assert Loser() in Flatten(lists);
      var i :| 0 <= i < |ds| && AddrOf(ds[i]) == AddrOf(Loser());
      assert ds[i] in Flatten(lists);
      assert ds[i] == Loser();
    }
  }

  lemma {:induction false} FlattenHead(lists: seq<seq<Doc>>)
    requires lists != [] && lists[0] != []
    ensures Flatten(lists) != [] && Flatten(lists)[0] == lists[0][0]
  {
    if |lists| > 1 {
      FlattenHead(lists[..|lists| - 1]);
    }
  }

  lemma {:induction false} FirstByKeyHead<K>(docs: seq<Doc>, key: Doc -> K)
    requires docs != []
    ensures FirstByKey(docs, key) != [] && FirstByKey(docs, key)[0] == docs[0]
  {
    if |docs| > 1 {
      FirstByKeyHead(docs[..|docs| - 1], key);
    } else {
      assert docs[..0] == [];
    }
  }

  // ---------- the two implementations agree ----------

  lemma {:induction false} FirstByKeyAgree<K, L>(docs: seq<Doc>, key: Doc -> K, key': Doc -> L)
    requires forall d, e :: d in docs && e in docs ==> (key(d) == key(e) <==> key'(d) == key'(e))
    ensures FirstByKey(docs, key) == FirstByKey(docs, key')
  {
    if docs != [] {
      var rest, last := docs[..|docs| - 1], docs[|docs| - 1];
      assert docs == rest + [last];
      assert last in docs && forall d :: d in rest ==> d in docs;
      FirstByKeyAgree(rest, key, key');
      FirstByKeyFacts(rest, key);
      var r := FirstByKey(rest, key);
      assert forall i :: 0 <= i < |r| ==> r[i] in docs;
      assert HasKey(r, key, key(last)) <==> HasKey(r, key', key'(last));
    }
  }

  lemma {:induction false} ListScoreAgree<K, L>(list: seq<Doc>, key: Doc -> K, key': Doc -> L, d: Doc, k: nat)
    requires forall e :: e in list ==> (key(e) == key(d) <==> key'(e) == key'(d))
    ensures ListScore(Keys(list, key), key(d), k) == ListScore(Keys(list, key'), key'(d), k)
  {
    if list != [] {
      var n := |list|;
      assert list[n - 1] in list && forall e :: e in list[..n - 1] ==> e in list;
      ListScoreAgree(list[..n - 1], key, key', d, k);
      assert Keys(list, key)[..n - 1] == Keys(list[..n - 1], key);
      assert Keys(list, key')[..n - 1] == Keys(list[..n - 1], key');
    }
  }

  lemma {:induction false} TotalScoreAgree<K, L>(lists: seq<seq<Doc>>, key: Doc -> K, key': Doc -> L, d: Doc, k: nat)
    requires forall e :: e in Flatten(lists) ==> (key(e) == key(d) <==> key'(e) == key'(d))
    ensures TotalScore(KeyLists(lists, key), key(d), k) == TotalScore(KeyLists(lists, key'), key'(d), k)
  {
    if lists != [] {
      var n := |lists| - 1;
      assert Flatten(lists) == Flatten(lists[..n]) + lists[n];
      TotalScoreAgree(lists[..n], key, key', d, k);
      ListScoreAgree(lists[n], key, key', d, k);
      assert KeyLists(lists, key)[..n] == KeyLists(lists[..n], key);
      assert KeyLists(lists, key')[..n] == KeyLists(lists[..n], key');
    }
  }

  lemma ScoredAgree<K, L>(lists: seq<seq<Doc>>, k: nat, key: Doc -> K, key': Doc -> L)
    requires FirstByKey(Flatten(lists), key) == FirstByKey(Flatten(lists), key')
    requires forall d :: d in FirstByKey(Flatten(lists), key) ==>
        FusedScore(lists, k, key, d) == FusedScore(lists, k, key', d)
    ensures Scored(lists, k, key) == Scored(lists, k, key')
  {
  }

  /** When two keys identify the same documents, fusing by either gives the same list, ties
      included: the id-keyed and the identity-keyed form agree. */
  lemma KeysAgree<K, L>(lists: seq<seq<Doc>>, k: nat, key: Doc -> K, key': Doc -> L)
    requires forall d, e :: d in Flatten(lists) && e in Flatten(lists) ==> (key(d) == key(e) <==> key'(d) == key'(e))
    ensures FusedBy(lists, k, key) == FusedBy(lists, k, key')
  {
    FirstByKeyAgree(Flatten(lists), key, key');
    FirstByKeyFacts(Flatten(lists), key);
    forall d | d in FirstByKey(Flatten(lists), key)
      ensures FusedScore(lists, k, key, d) == FusedScore(lists, k, key', d)
    {
      TotalScoreAgree(lists, key, key', d, k);
    }
    ScoredAgree(lists, k, key, key');
  }

  /** On two lists the n-list fusion returns what the two-list fusion returns. */
  lemma TwoListRefinement(results1: seq<Hit>, results2: seq<Hit>, k: nat)
    requires var lists := [Docs(results1), Docs(results2)];
             forall d, e :: d in Flatten(lists) && e in Flatten(lists) ==> (d.id == e.id <==> d.addr == e.addr)
    ensures MultiFused([results1, results2], k) == FusedBy([Docs(results1), Docs(results2)], k, IdOf)
  {
    assert DocLists([results1, results2]) == [Docs(results1), Docs(results2)];
    KeysAgree([Docs(results1), Docs(results2)], k, AddrOf, IdOf);
  }

  lemma NewKeyAt<K>(docs: seq<Doc>, key: Doc -> K, n: nat)
    requires Distinct(Keys(docs, key)) && n < |docs|
    ensures !HasKey(docs[..n], key, key(docs[n]))
  {
    forall i | 0 <= i < n ensures key(docs[..n][i]) != key(docs[n]) {
      assert Keys(docs, key)[i] != Keys(docs, key)[n];
    }
  }

  lemma {:induction false} FirstByKeyOfDistinct<K>(docs: seq<Doc>, key: Doc -> K, n: nat)
    requires Distinct(Keys(docs, key)) && n <= |docs|
    ensures FirstByKey(docs[..n], key) == docs[..n]
  {
    if n > 0 {
      FirstByKeyOfDistinct(docs, key, n - 1);
      NewKeyAt(docs, key, n - 1);
      FirstByKeyAppend(docs[..n - 1], docs[n - 1], key);
      assert docs[..n] == docs[..n - 1] + [docs[n - 1]];
    }
  }

  lemma DistinctAddresses(docs: seq<Doc>)
    requires OneDocPerKey(docs, AddrOf) && Distinct(docs)
    ensures forall i, j :: 0 <= i < j < |docs| ==> docs[i].addr != docs[j].addr
    ensures Distinct(Keys(docs, AddrOf))
  {
    forall i, j | 0 <= i < j < |docs| ensures docs[i].addr != docs[j].addr {
      assert docs[i] in docs && docs[j] in docs;
    }
  }

  lemma SingleListScore(docs: seq<Doc>, k: nat, i: nat)
    requires Distinct(Keys(docs, AddrOf)) && i < |docs|
    ensures FusedScore([docs], k, AddrOf, docs[i]) == Weight(k, i + 1)
  {
    var lists := KeyLists([docs], AddrOf);
    assert lists[..0] == [] && lists[0] == Keys(docs, AddrOf);
    assert TotalScore(lists, docs[i].addr, k)
        == TotalScore(lists[..0], docs[i].addr, k) + ListScore(lists[0], docs[i].addr, k);
    DistinctListScore(Keys(docs, AddrOf), docs[i].addr, k);
    assert Keys(docs, AddrOf)[i] == docs[i].addr;
  }

  lemma SingleListScored(docs: seq<Doc>, k: nat)
    requires forall i, j :: 0 <= i < j < |docs| ==> docs[i].addr != docs[j].addr
    ensures |Scored([docs], k, AddrOf)| == |docs|
    ensures forall i :: 0 <= i < |docs| ==> Scored([docs], k, AddrOf)[i] == Hit(docs[i], Weight(k, i + 1))
  {
    var single: seq<seq<Doc>> := [docs];
    assert single[..0] == [];
    assert Flatten(single) == docs;
    assert Distinct(Keys(docs, AddrOf));
    FirstByKeyOfDistinct(docs, AddrOf, |docs|);
    assert docs[..|docs|] == docs;
    forall i | 0 <= i < |docs| { SingleListScore(docs, k, i); }
  }

  /** Fusing one duplicate-free list keeps its order: the weights fall with the rank. */
  lemma FusedSingleList(docs: seq<Doc>, k: nat)
    requires forall i, j :: 0 <= i < j < |docs| ==> docs[i].addr != docs[j].addr
    ensures Docs(FusedBy([docs], k, AddrOf)) == docs
  {
    SingleListScored(docs, k);
    var scored := Scored([docs], k, AddrOf);
    forall i, j | 0 <= i < j < |scored| ensures ScoreOf(scored[i]) >= ScoreOf(scored[j]) {
      WeightDecreases(k, i + 1, j + 1);
    }
    SortedIsFixed(scored, ScoreOf);
  }

  /** The one-list shortcut is justified exactly for duplicate-free lists: only then does it return
      the documents the general loop would return, in the same order. */
  lemma OneListShortcutExact(list: seq<Hit>, k: nat)
    requires OneDocPerKey(Docs(list), AddrOf)
    ensures Docs(MultiFused([list], k)) == Docs(FusedBy([Docs(list)], k, AddrOf))
            <==> Distinct(Docs(list))
  {
    FusedMembers([Docs(list)], k, AddrOf);
    if Distinct(Docs(list)) {
      DistinctAddresses(Docs(list));
      FusedSingleList(Docs(list), k);
    }
  }
}
