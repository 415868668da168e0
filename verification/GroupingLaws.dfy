/** What a group's importance and raw messages are made of. */
module GroupingLaws {
  import opened Outcomes
  import opened Sequences
  import opened StableSort
  import opened Grouping

  // ---------- importance ----------

  /** How many conversations, and how many mentions in them, evidence counts. */
  function Conversations(entries: seq<Option<Counts>>): int {
    if entries == [] then 0
    else
      Conversations(entries[..|entries| - 1])
      + (match entries[|entries| - 1] case None => 0 case Some(e) => e.conversation)
  }

  function Mentions(entries: seq<Option<Counts>>): int {
    if entries == [] then 0
    else
      Mentions(entries[..|entries| - 1])
      + (match entries[|entries| - 1] case None => 0 case Some(e) => e.speak + e.refer)
  }

  lemma {:induction false} SumCounts(entries: seq<Option<Counts>>)
    ensures Grouping.Sum(entries).conversation == Conversations(entries)
    ensures Grouping.Sum(entries).speak + Grouping.Sum(entries).refer == Mentions(entries)
  {
    if entries != [] {
      SumCounts(entries[..|entries| - 1]);
    }
  }

  lemma {:induction false} CountsConcat(a: seq<Option<Counts>>, b: seq<Option<Counts>>)
    ensures Conversations(a + b) == Conversations(a) + Conversations(b) && Mentions(a + b) == Mentions(a) + Mentions(b)
  {
    if b == [] {
      assert a + b == a;
    } else {
      assert (a + b)[..|a + b| - 1] == a + b[..|b| - 1];
      CountsConcat(a, b[..|b| - 1]);
    }
  }

  lemma QuotientTimes(a: int, b: int)
    requires b != 0
    ensures (a as real / b as real) * b as real == a as real
  {
  }

  /** A rate: as many mentions as it says per conversation, and none without conversations. */
  predicate IsRate(i: real, conversations: int, mentions: int) {
    if conversations == 0 then i == 0.0 else i * conversations as real == mentions as real
  }

  lemma ImportanceIsRate(entries: seq<Option<Counts>>)
    ensures IsRate(Importance(Some(Evidence(entries))), Conversations(entries), Mentions(entries))
  {
    SumCounts(entries);
    if Conversations(entries) != 0 {
      QuotientTimes(Mentions(entries), Conversations(entries));
    }
  }

  /** k is the mean of i and j, weighted by a and b. */
  predicate IsMean(k: real, i: real, j: real, a: int, b: int) {
    k * (a as real + b as real) == i * a as real + j * b as real
  }

  lemma Weighted(i: real, j: real, k: real, a: int, b: int, x: int, y: int)
    requires a != 0 && b != 0 && a + b != 0
    requires IsRate(i, a, x) && IsRate(j, b, y) && IsRate(k, a + b, x + y)
    ensures IsMean(k, i, j, a, b)
  {
    assert (a + b) as real == a as real + b as real;
  }

  lemma RateAt(entries: seq<Option<Counts>>, i: real, c: int, m: int)
    requires i == Importance(Some(Evidence(entries))) && Conversations(entries) == c && Mentions(entries) == m
    ensures IsRate(i, c, m)
  {
    ImportanceIsRate(entries);
  }

  /** Evidence from two sources: the mean of their importances, weighted by their conversations. */
  lemma ImportanceIsMean(a: seq<Option<Counts>>, b: seq<Option<Counts>>, all: seq<Option<Counts>>,
      i: real, j: real, k: real)
    requires all == a + b && Conversations(a) != 0 && Conversations(b) != 0 && Conversations(all) != 0
    requires i == Importance(Some(Evidence(a))) && j == Importance(Some(Evidence(b)))
    requires k == Importance(Some(Evidence(all)))
    ensures IsMean(k, i, j, Conversations(a), Conversations(b))
  {
    CountsConcat(a, b);
    RateAt(a, i, Conversations(a), Mentions(a));
    RateAt(b, j, Conversations(b), Mentions(b));
    RateAt(all, k, Conversations(a) + Conversations(b), Mentions(a) + Mentions(b));
    Weighted(i, j, k, Conversations(a), Conversations(b), Mentions(a), Mentions(b));
  }

  lemma NoEvidence()
    ensures Importance(None) == 0.0 && Importance(Some(Evidence([]))) == 0.0
  {
  }

  // ---------- what a group is built from ----------

  /** Hit i is the last one with evidence. */
  ghost predicate LastWithEvidence(hits: seq<Hit>, c: World, i: nat) {
    i < |hits| && c.evidence(hits[i]).Some? && forall j :: i < j < |hits| ==> c.evidence(hits[j]).None?
  }

  lemma {:induction false} LatestExact(hits: seq<Hit>, c: World, i: nat)
    requires LastWithEvidence(hits, c, i)
    ensures LatestEvidence(hits, c) == c.evidence(hits[i])
  {
    if i < |hits| - 1 {
      LatestExact(hits[..|hits| - 1], c, i);
    }
  }

  lemma {:induction false} NoneLatest(hits: seq<Hit>, c: World)
    requires forall h :: h in hits ==> c.evidence(h).None?
    ensures LatestEvidence(hits, c).None?
  {
    if hits != [] {
      assert hits[|hits| - 1] in hits;
      NoneLatest(hits[..|hits| - 1], c);
    }
  }

  /** The raw messages of a hit's memcells, in order. */
  function RawOf(c: World): Hit -> seq<Message> {
    (h: Hit) => Flatten(Map(c.messages, c.memcells(h)))
  }

  lemma {:induction false} MessagesAreFlat(ids: seq<Key>, c: World)
    ensures MessagesOf(ids, c) == Flatten(Map(c.messages, ids))
  {
    if ids != [] {
      var n := |ids| - 1;
      MessagesAreFlat(ids[..n], c);
      MapNext(c.messages, ids, n);
      assert ids[..n + 1] == ids;
    }
  }

  lemma {:induction false} OriginalIsFlat(hits: seq<Hit>, c: World)
    ensures OriginalData(hits, c) == Flatten(Map(RawOf(c), hits))
  {
    if hits != [] {
      var n := |hits| - 1;
      OriginalIsFlat(hits[..n], c);
      MessagesAreFlat(c.memcells(hits[n]), c);
      MapNext(RawOf(c), hits, n);
      assert hits[..n + 1] == hits;
    }
  }

  /** The importance of the latest evidence among the hits, of none without any, and the raw messages of their
      memcells, hit by hit. */
  ghost predicate DataFits(r: GroupResult, own: seq<Hit>, c: World) {
    && r.originalData == Flatten(Map(RawOf(c), own))
    && (forall i: nat :: LastWithEvidence(own, c, i) ==> r.importance == c.importance(c.evidence(own[i])))
    && ((forall h :: h in own ==> c.evidence(h).None?) ==> r.importance == c.importance(None))
  }

  lemma BuiltFits(r: GroupResult, own: seq<Hit>, c: World)
    requires r.originalData == OriginalData(own, c) && r.importance == c.importance(LatestEvidence(own, c))
    ensures DataFits(r, own, c)
  {
    OriginalIsFlat(own, c);
    forall i: nat | LastWithEvidence(own, c, i) ensures r.importance == c.importance(c.evidence(own[i])) {
      LatestExact(own, c, i);
    }
    if forall h :: h in own ==> c.evidence(h).None? {
      NoneLatest(own, c);
    }
  }

  lemma GroupedIsResult(hits: seq<Hit>, c: World, r: GroupResult)
    requires r in Grouped(hits, c)
    ensures r == Entry(hits, c)(r.group)
  {
    SortMember(Unsorted(hits, c), ImportanceOf, r);
    var k :| 0 <= k < |Unsorted(hits, c)| && Unsorted(hits, c)[k] == r;
  }

  /** Each group of the answer is built from its own hits. */
  lemma GroupDataExact(hits: seq<Hit>, c: World, r: GroupResult)
    requires r in Grouped(hits, c)
    ensures DataFits(r, HitsOf(hits, r.group, c), c)
  {
    GroupedIsResult(hits, c, r);
    BuiltFits(r, HitsOf(hits, r.group, c), c);
  }
}
