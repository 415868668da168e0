/** Grouping of search hits by group id: memories sorted by time inside a group, groups sorted by
    importance. */
module Grouping {
  import opened Outcomes
  import opened Sequences
  import opened StableSort
  import opened OrderedDict

  /** A non-empty user, group or event id; an empty one is `None`. */
  type Key(==, !new)

  /** One raw message of a memcell. */
  type Message(==, !new)

  /** A search hit. Its fields are read through World. */
  type Hit(==, !new)

  /** Counts of one evidence entry; entries that are not dicts are `None`. */
  datatype Counts = Counts(speak: int, refer: int, conversation: int)
  datatype Evidence = Evidence(entries: seq<Option<Counts>>)

  /** How the fields of a hit read (whether its source and memory type are known, group, time, score,
      memcell ids), and what the two batch lookups answer: the raw messages of a memcell, none if it
      is unknown, and the evidence found for a hit's user and group, with the importance it stands
      for. */
  datatype World = World(
    accepted: Hit -> bool,
    group: Hit -> Option<Key>,
    timestamp: Hit -> int,
    score: Hit -> real,
    memcells: Hit -> seq<Key>,
    messages: Key -> seq<Message>,
    evidence: Hit -> Option<Evidence>,
    importance: Option<Evidence> -> real)

  /** The memory object built from a hit. */
  datatype Memory = Memory(hit: Hit, time: int)

  datatype GroupData = GroupData(memories: seq<Memory>, scores: seq<real>, evidence: Option<Evidence>)

  datatype GroupResult = GroupResult(group: Option<Key>, memories: seq<Memory>, scores: seq<real>,
                                     importance: real, originalData: seq<Message>)

  function ByTime(m: Memory): real { -(m.time as real) }
  function ImportanceOf(r: GroupResult): real { r.importance }

  // ---------- importance ----------

  function Sum(entries: seq<Option<Counts>>): (c: Counts) {
    if entries == [] then Counts(0, 0, 0)
    else
      var t := Sum(entries[..|entries| - 1]);
      match entries[|entries| - 1]
      case None => t
      case Some(e) => Counts(t.speak + e.speak, t.refer + e.refer, t.conversation + e.conversation)
  }

  /** (spoken + mentioned) / conversations, and 0 without evidence or conversations. */
  function Importance(evidence: Option<Evidence>): real {
    if evidence.None? then 0.0
    else
      var t := Sum(evidence.value.entries);
      if t.conversation == 0 then 0.0 else (t.speak + t.refer) as real / t.conversation as real
  }

  method CalculateImportanceScore(evidence: Option<Evidence>) returns (score: real)
    ensures score == Importance(evidence)
  {
    if evidence.None? || evidence.value.entries == [] {
      return 0.0;
    }
    var entries := evidence.value.entries;
    var speak, refer, conversation := 0, 0, 0;
    for i := 0 to |entries|
      invariant Counts(speak, refer, conversation) == Sum(entries[..i])
    {
      assert entries[..i + 1][..i] == entries[..i];
      if entries[i].Some? {
        var e := entries[i].value;
        speak, refer, conversation := speak + e.speak, refer + e.refer, conversation + e.conversation;
      }
    }
    assert entries[..|entries|] == entries;
    if conversation == 0 {
      return 0.0;
    }
    score := (speak + refer) as real / conversation as real;
  }

  // ---------- the specification ----------

  function MemoryOf(h: Hit, c: World): Memory { Memory(h, c.timestamp(h)) }

  function Memories(hits: seq<Hit>, c: World): (r: seq<Memory>)
    ensures |r| == |hits|
    ensures forall i :: 0 <= i < |r| ==> r[i] == MemoryOf(hits[i], c)
  {
    seq(|hits|, i requires 0 <= i < |hits| => MemoryOf(hits[i], c))
  }

  /** The hits of one group, in hit order. */
  function HitsOf(hits: seq<Hit>, g: Option<Key>, c: World): seq<Hit> {
    if hits == [] then []
    else
      var last := hits[|hits| - 1];
      HitsOf(hits[..|hits| - 1], g, c) + (if c.group(last) == g then [last] else [])
  }

  /** The groups in first-seen order. */
  function Groups(hits: seq<Hit>, c: World): (r: seq<Option<Key>>)
    ensures Distinct(r)
  {
    if hits == [] then []
    else
      var rest, last := Groups(hits[..|hits| - 1], c), hits[|hits| - 1];
      if c.group(last) in rest then rest else rest + [c.group(last)]
  }

  /** The evidence of the latest hit of the group that has any. */
  function LatestEvidence(hits: seq<Hit>, c: World): Option<Evidence> {
    if hits == [] then None
    else
      var e := c.evidence(hits[|hits| - 1]);
      if e.Some? then e else LatestEvidence(hits[..|hits| - 1], c)
  }

  function MessagesOf(ids: seq<Key>, c: World): seq<Message> {
    if ids == [] then []
    else
      var last := ids[|ids| - 1];
      MessagesOf(ids[..|ids| - 1], c) + c.messages(last)
  }

  function OriginalData(hits: seq<Hit>, c: World): seq<Message> {
    if hits == [] then []
    else OriginalData(hits[..|hits| - 1], c) + MessagesOf(c.memcells(hits[|hits| - 1]), c)
  }

  function DataOf(hits: seq<Hit>, c: World): GroupData {
    GroupData(Memories(hits, c), Map(c.score, hits), LatestEvidence(hits, c))
  }

  /** A group's entry in the response: memories by time, scores as they came. */
  function ResultOf(hits: seq<Hit>, c: World, g: Option<Key>): GroupResult {
    var own := HitsOf(hits, g, c);
    GroupResult(g, SortDesc(Memories(own, c), ByTime), Map(c.score, own),
                c.importance(LatestEvidence(own, c)), OriginalData(own, c))
  }

  /** The entry of each group. */
  function Entry(hits: seq<Hit>, c: World): Option<Key> -> GroupResult {
    g => ResultOf(hits, c, g)
  }

  function Unsorted(hits: seq<Hit>, c: World): seq<GroupResult> {
    Map(Entry(hits, c), Groups(hits, c))
  }

  function Grouped(hits: seq<Hit>, c: World): seq<GroupResult> {
    SortDesc(Unsorted(hits, c), ImportanceOf)
  }

  // ---------- the code ----------

  lemma HitsOfAppend(hits: seq<Hit>, h: Hit, g: Option<Key>, c: World)
    ensures HitsOf(hits + [h], g, c) == HitsOf(hits, g, c) + (if c.group(h) == g then [h] else [])
  {
    assert (hits + [h])[..|hits|] == hits;
  }

  lemma DataOfAppend(hits: seq<Hit>, h: Hit, c: World)
    ensures DataOf(hits + [h], c).memories == DataOf(hits, c).memories + [MemoryOf(h, c)]
    ensures DataOf(hits + [h], c).scores == DataOf(hits, c).scores + [c.score(h)]
    ensures DataOf(hits + [h], c).evidence
            == if c.evidence(h).Some? then c.evidence(h) else DataOf(hits, c).evidence
    ensures OriginalData(hits + [h], c) == OriginalData(hits, c) + MessagesOf(c.memcells(h), c)
  {
    assert (hits + [h])[..|hits|] == hits;
  }

  /** `memories_by_group` after the given hits. */
  ghost predicate Collected(byGroup: Dict<Option<Key>, GroupData>, hits: seq<Hit>, c: World) {
    && byGroup.Valid()
    && byGroup.keys == Groups(hits, c)
    && forall g :: g in byGroup.vals ==> byGroup.vals[g] == DataOf(HitsOf(hits, g, c), c)
  }

  /** `original_data_by_group` after the given hits. */
  ghost predicate MessagesCollected(original: map<Option<Key>, seq<Message>>, hits: seq<Hit>, c: World) {
    forall g :: MessagesFor(original, g) == OriginalData(HitsOf(hits, g, c), c)
  }

  function MessagesFor(original: map<Option<Key>, seq<Message>>, g: Option<Key>): seq<Message> {
    if g in original then original[g] else []
  }

  method RawMessages(ids: seq<Key>, c: World) returns (messages: seq<Message>)
    ensures messages == MessagesOf(ids, c)
  {
    messages := [];
    for i := 0 to |ids|
      invariant messages == MessagesOf(ids[..i], c)
    {
      assert ids[..i + 1][..i] == ids[..i];
      messages := messages + c.messages(ids[i]);
    }
    assert ids[..|ids|] == ids;
  }

  /** `original_data_by_group` after one more hit. */
  function WithMessages(original: map<Option<Key>, seq<Message>>, h: Hit, c: World): map<Option<Key>, seq<Message>> {
    var messages := MessagesOf(c.memcells(h), c);
    if messages == [] then original else original[c.group(h) := MessagesFor(original, c.group(h)) + messages]
  }

  method AddMessages(original: map<Option<Key>, seq<Message>>, h: Hit, c: World)
    returns (after: map<Option<Key>, seq<Message>>)
    ensures after == WithMessages(original, h, c)
  {
    after := original;
    var messages := RawMessages(c.memcells(h), c);
    if messages != [] {
      after := original[c.group(h) := MessagesFor(original, c.group(h)) + messages];
    }
  }

  lemma WithMessagesCollected(original: map<Option<Key>, seq<Message>>, h: Hit, c: World, before: seq<Hit>)
    requires MessagesCollected(original, before, c)
    ensures MessagesCollected(WithMessages(original, h, c), before + [h], c)
  {
    var after := WithMessages(original, h, c);
    forall g ensures MessagesFor(after, g) == OriginalData(HitsOf(before + [h], g, c), c) {
      assert MessagesFor(original, g) == OriginalData(HitsOf(before, g, c), c);
      OriginalDataAppend(before, h, g, c);
    }
  }

  lemma OriginalDataAppend(hits: seq<Hit>, h: Hit, g: Option<Key>, c: World)
    ensures OriginalData(HitsOf(hits + [h], g, c), c)
            == OriginalData(HitsOf(hits, g, c), c) + (if c.group(h) == g then MessagesOf(c.memcells(h), c) else [])
  {
    HitsOfAppend(hits, h, g, c);
    if c.group(h) == g {
      assert HitsOf(hits + [h], g, c) == HitsOf(hits, g, c) + [h];
      DataOfAppend(HitsOf(hits, g, c), h, c);
    } else {
      assert HitsOf(hits + [h], g, c) == HitsOf(hits, g, c);
    }
  }

  /** `memories_by_group`, with scores and evidence, after one more hit. */
  function WithMemory(byGroup: Dict<Option<Key>, GroupData>, h: Hit, c: World): Dict<Option<Key>, GroupData> {
    var evidence := c.evidence(h);
    var data := byGroup.Get(c.group(h), GroupData([], [], evidence));
    byGroup.Put(c.group(h), GroupData(data.memories + [MemoryOf(h, c)], data.scores + [c.score(h)],
                                      if evidence.Some? then evidence else data.evidence))
  }

  lemma WithMemoryCollected(byGroup: Dict<Option<Key>, GroupData>, h: Hit, c: World, before: seq<Hit>)
    requires Collected(byGroup, before, c)
    ensures Collected(WithMemory(byGroup, h, c), before + [h], c)
  {
    var evidence := c.evidence(h);
    var data := byGroup.Get(c.group(h), GroupData([], [], evidence));
    data := GroupData(data.memories + [MemoryOf(h, c)], data.scores + [c.score(h)],
                      if evidence.Some? then evidence else data.evidence);
    AddedData(byGroup, h, c, before, data);
    PutCollected(byGroup, h, c, before, data);
  }

  lemma PutKeys(byGroup: Dict<Option<Key>, GroupData>, h: Hit, c: World, before: seq<Hit>, data: GroupData)
    requires byGroup.Valid() && byGroup.keys == Groups(before, c)
    ensures byGroup.Put(c.group(h), data).Valid() && byGroup.Put(c.group(h), data).keys == Groups(before + [h], c)
  {
    GroupsAppend(before, h, c);
  }

  lemma PutEntry(byGroup: Dict<Option<Key>, GroupData>, h: Hit, c: World, before: seq<Hit>, data: GroupData,
      g: Option<Key>)
    requires Collected(byGroup, before, c) && data == DataOf(HitsOf(before + [h], c.group(h), c), c)
    requires g in byGroup.Put(c.group(h), data).vals
    ensures byGroup.Put(c.group(h), data).vals[g] == DataOf(HitsOf(before + [h], g, c), c)
  {
    if g != c.group(h) {
      HitsOfAppend(before, h, g, c);
      assert HitsOf(before + [h], g, c) == HitsOf(before, g, c);
    }
  }

  lemma PutCollected(byGroup: Dict<Option<Key>, GroupData>, h: Hit, c: World, before: seq<Hit>, data: GroupData)
    requires Collected(byGroup, before, c)
    requires data == DataOf(HitsOf(before + [h], c.group(h), c), c)
    ensures Collected(byGroup.Put(c.group(h), data), before + [h], c)
  {
    PutKeys(byGroup, h, c, before, data);
    forall g | g in byGroup.Put(c.group(h), data).vals
      ensures byGroup.Put(c.group(h), data).vals[g] == DataOf(HitsOf(before + [h], g, c), c)
    {
      PutEntry(byGroup, h, c, before, data, g);
    }
  }

  lemma GroupsAppend(hits: seq<Hit>, h: Hit, c: World)
    ensures Groups(hits + [h], c)
            == if c.group(h) in Groups(hits, c) then Groups(hits, c) else Groups(hits, c) + [c.group(h)]
  {
    assert (hits + [h])[..|hits|] == hits;
  }

  lemma AddedData(byGroup: Dict<Option<Key>, GroupData>, h: Hit, c: World, before: seq<Hit>, data: GroupData)
    requires Collected(byGroup, before, c)
    requires var old_ := byGroup.Get(c.group(h), GroupData([], [], c.evidence(h)));
      data == GroupData(old_.memories + [MemoryOf(h, c)], old_.scores + [c.score(h)],
                        if c.evidence(h).Some? then c.evidence(h) else old_.evidence)
    ensures data == DataOf(HitsOf(before + [h], c.group(h), c), c)
  {
    HitsOfAppend(before, h, c.group(h), c);
    DataOfAppend(HitsOf(before, c.group(h), c), h, c);
    if c.group(h) !in byGroup.vals {
      NoHits(before, c.group(h), c);
      assert DataOf([], c).memories == [] && DataOf([], c).scores == [];
    }
  }

  lemma {:induction false} NoHits(hits: seq<Hit>, g: Option<Key>, c: World)
    requires g !in Groups(hits, c)
    ensures HitsOf(hits, g, c) == []
  {
    if hits != [] {
      NoHits(hits[..|hits| - 1], g, c);
    }
  }

  method BuildEntry(g: Option<Key>, data: GroupData, messages: seq<Message>, ghost hits: seq<Hit>, ghost c: World)
    returns (r: GroupResult)
    requires data == DataOf(HitsOf(hits, g, c), c) && messages == OriginalData(HitsOf(hits, g, c), c)
    requires c.importance == Importance
    ensures r == Entry(hits, c)(g)
  {
    var importance := CalculateImportanceScore(data.evidence);
    r := GroupResult(g, SortDesc(data.memories, ByTime), data.scores, importance, messages);
  }

  method BuildResults(byGroup: Dict<Option<Key>, GroupData>, original: map<Option<Key>, seq<Message>>,
      ghost hits: seq<Hit>, ghost c: World)
    returns (results: seq<GroupResult>)
    requires Collected(byGroup, hits, c) && MessagesCollected(original, hits, c)
    requires c.importance == Importance
    ensures results == Unsorted(hits, c)
  {
    results := [];
    ghost var f := Entry(hits, c);
    for i := 0 to |byGroup.keys|
      invariant results == Map(f, byGroup.keys[..i])
    {
      var g := byGroup.keys[i];
      assert g in byGroup.keys;
      var entry := BuildEntry(g, byGroup.vals[g], MessagesFor(original, g), hits, c);
      MapNext(f, byGroup.keys, i);
      results := results + [entry];
    }
    assert byGroup.keys[..|byGroup.keys|] == byGroup.keys;
  }

  method CountMemories(results: seq<GroupResult>) returns (totalCount: nat)
    ensures totalCount == MemoryCount(results)
  {
    totalCount := 0;
    for i := 0 to |results|
      invariant totalCount == MemoryCount(results[..i])
    {
      assert results[..i + 1][..i] == results[..i];
      totalCount := totalCount + |results[i].memories|;
    }
    assert results[..|results|] == results;
  }

  /** Both dicts after the given hits. */
  function AfterHits(hits: seq<Hit>, c: World): (Dict<Option<Key>, GroupData>, map<Option<Key>, seq<Message>>) {
    if hits == [] then (Empty(), map[])
    else
      var n := |hits| - 1;
      var before := AfterHits(hits[..n], c);
      (WithMemory(before.0, hits[n], c), WithMessages(before.1, hits[n], c))
  }

  lemma {:induction false} MemoriesAfterHits(hits: seq<Hit>, c: World)
    ensures Collected(AfterHits(hits, c).0, hits, c)
  {
    if hits != [] {
      var before, last := hits[..|hits| - 1], hits[|hits| - 1];
      assert hits == before + [last];
      MemoriesAfterHits(before, c);
      WithMemoryCollected(AfterHits(before, c).0, last, c, before);
    }
  }

  lemma {:induction false} MessagesAfterHits(hits: seq<Hit>, c: World)
    ensures MessagesCollected(AfterHits(hits, c).1, hits, c)
  {
    if hits != [] {
      var before, last := hits[..|hits| - 1], hits[|hits| - 1];
      assert hits == before + [last];
      MessagesAfterHits(before, c);
      WithMessagesCollected(AfterHits(before, c).1, last, c, before);
    }
  }

  /** The pass over the hits; a hit of unknown source or type makes it raise. */
  method CollectHits(hits: seq<Hit>, c: World)
    returns (ok: bool, byGroup: Dict<Option<Key>, GroupData>, original: map<Option<Key>, seq<Message>>)
    ensures ok <==> forall i :: 0 <= i < |hits| ==> c.accepted(hits[i])
    ensures ok ==> byGroup == AfterHits(hits, c).0 && original == AfterHits(hits, c).1
  {
    byGroup, original := Empty(), map[];
    for i := 0 to |hits|
      invariant byGroup == AfterHits(hits[..i], c).0
      invariant original == AfterHits(hits[..i], c).1
      invariant forall j :: 0 <= j < i ==> c.accepted(hits[j])
    {
      var h := hits[i];
      if !c.accepted(h) {
        return false, byGroup, original;
      }
      assert hits[..i + 1][..i] == hits[..i];
      original := AddMessages(original, h, c);
      byGroup := WithMemory(byGroup, h, c);
    }
    assert hits[..|hits|] == hits;
    ok := true;
  }

  method GroupByGroupId(hits: seq<Hit>, c: World) returns (r: Try<(seq<GroupResult>, nat)>)
    requires c.importance == Importance
    ensures r.Returned? <==> forall i :: 0 <= i < |hits| ==> c.accepted(hits[i])
    ensures r.Returned? ==> r.value.0 == Grouped(hits, c) && r.value.1 == MemoryCount(Grouped(hits, c))
  {
    var ok, byGroup, original := CollectHits(hits, c);
    if !ok {
      return Raised;
    }
    MemoriesAfterHits(hits, c);
    MessagesAfterHits(hits, c);
    var results := BuildResults(byGroup, original, hits, c);
    results := SortDesc(results, ImportanceOf);
    var totalCount := CountMemories(results);
    r := Returned((results, totalCount));
  }

  // ---------- grouping loses nothing ----------

  function MemoryCount(results: seq<GroupResult>): nat {
    if results == [] then 0
    else MemoryCount(results[..|results| - 1]) + |results[|results| - 1].memories|
  }

  ghost function MemoriesIn(r: GroupResult): multiset<Memory> { multiset(r.memories) }

  /** All memories of all groups. */
  ghost function AllMemories(results: seq<GroupResult>): multiset<Memory> {
    Gather(MemoriesIn, results)
  }

  lemma {:induction false} CountIsCardinality(results: seq<GroupResult>)
    ensures MemoryCount(results) == |AllMemories(results)|
  {
    if results != [] {
      CountIsCardinality(results[..|results| - 1]);
    }
  }

  /** The memories of the first n groups, taken from `hits`. */
  ghost function MemoriesOfGroups(hits: seq<Hit>, c: World, groups: seq<Option<Key>>): multiset<Memory> {
    if groups == [] then multiset{}
    else
      var own := HitsOf(hits, groups[|groups| - 1], c);
      MemoriesOfGroups(hits, c, groups[..|groups| - 1]) + multiset(Memories(own, c))
  }

  lemma {:induction false} AddedHitCounts(hits: seq<Hit>, h: Hit, c: World, groups: seq<Option<Key>>)
    requires Distinct(groups)
    ensures MemoriesOfGroups(hits + [h], c, groups)
            == MemoriesOfGroups(hits, c, groups)
               + (if c.group(h) in groups then multiset{MemoryOf(h, c)} else multiset{})
  {
    if groups != [] {
      var rest, g := groups[..|groups| - 1], groups[|groups| - 1];
      assert groups == rest + [g];
      AddedHitCounts(hits, h, c, rest);
      OneGroupCounts(hits, h, c, g);
    }
  }

  lemma MemoriesAppend(hits: seq<Hit>, h: Hit, c: World)
    ensures Memories(hits + [h], c) == Memories(hits, c) + [MemoryOf(h, c)]
  {
  }

  lemma OneGroupCounts(hits: seq<Hit>, h: Hit, c: World, g: Option<Key>)
    ensures multiset(Memories(HitsOf(hits + [h], g, c), c))
            == multiset(Memories(HitsOf(hits, g, c), c))
               + (if c.group(h) == g then multiset{MemoryOf(h, c)} else multiset{})
  {
    HitsOfAppend(hits, h, g, c);
    if c.group(h) == g {
      MemoriesAppend(HitsOf(hits, g, c), h, c);
    } else {
      assert HitsOf(hits + [h], g, c) == HitsOf(hits, g, c);
    }
  }

  lemma NewGroupEmpty(hits: seq<Hit>, c: World, groups: seq<Option<Key>>, g: Option<Key>)
    requires g !in Groups(hits, c)
    ensures MemoriesOfGroups(hits, c, groups + [g]) == MemoriesOfGroups(hits, c, groups)
  {
    NoHits(hits, g, c);
    assert (groups + [g])[..|groups|] == groups;
    assert Memories([], c) == [];
  }

  ghost predicate GroupsHold(hits: seq<Hit>, c: World) {
    MemoriesOfGroups(hits, c, Groups(hits, c)) == multiset(Memories(hits, c))
  }

  lemma GroupsHoldNextHit(hits: seq<Hit>, h: Hit, c: World)
    requires GroupsHold(hits, c)
    ensures GroupsHold(hits + [h], c)
  {
    GroupsAppend(hits, h, c);
    if c.group(h) !in Groups(hits, c) {
      NewGroupEmpty(hits, c, Groups(hits, c), c.group(h));
    }
    AddedHitCounts(hits, h, c, Groups(hits + [h], c));
    MemoriesAppend(hits, h, c);
  }

  lemma GroupsHoldNone(c: World)
    ensures GroupsHold([], c)
  {
  }

  lemma {:induction false} GroupsHoldAllHits(hits: seq<Hit>, c: World)
    ensures GroupsHold(hits, c)
  {
    if hits == [] {
      GroupsHoldNone(c);
    } else {
      var rest, last := hits[..|hits| - 1], hits[|hits| - 1];
      assert hits == rest + [last];
      GroupsHoldAllHits(rest, c);
      GroupsHoldNextHit(rest, last, c);
    }
  }

  lemma EntryHoldsItsHits(hits: seq<Hit>, c: World, g: Option<Key>)
    ensures multiset(Entry(hits, c)(g).memories) == multiset(Memories(HitsOf(hits, g, c), c))
  {
    SortPermutes(Memories(HitsOf(hits, g, c), c), ByTime);
  }

  lemma AllMemoriesAppend(results: seq<GroupResult>, r: GroupResult)
    ensures AllMemories(results + [r]) == AllMemories(results) + multiset(r.memories)
  {
    assert (results + [r])[..|results|] == results;
  }

  lemma {:induction false} EntriesHoldHits(hits: seq<Hit>, c: World, groups: seq<Option<Key>>)
    ensures AllMemories(Map(Entry(hits, c), groups)) == MemoriesOfGroups(hits, c, groups)
  {
    if groups != [] {
      var n, f := |groups| - 1, Entry(hits, c);
      EntriesHoldHits(hits, c, groups[..n]);
      MapNext(f, groups, n);
      assert groups[..n + 1] == groups;
      AllMemoriesAppend(Map(f, groups[..n]), f(groups[n]));
      EntryHoldsItsHits(hits, c, groups[n]);
    }
  }

  lemma UnsortedHoldsAllHits(hits: seq<Hit>, c: World)
    ensures AllMemories(Unsorted(hits, c)) == multiset(Memories(hits, c))
  {
    EntriesHoldHits(hits, c, Groups(hits, c));
    GroupsHoldAllHits(hits, c);
  }

  /** Grouping loses and invents nothing: the groups together hold exactly one memory per hit, and
      total_count is the number of hits. */
  lemma NothingLost(hits: seq<Hit>, c: World)
    ensures AllMemories(Grouped(hits, c)) == multiset(Memories(hits, c))
    ensures MemoryCount(Grouped(hits, c)) == |hits|
  {
    SortPermutes(Unsorted(hits, c), ImportanceOf);
    GatherPermuted(MemoriesIn, Grouped(hits, c), Unsorted(hits, c));
    UnsortedHoldsAllHits(hits, c);
    CountIsCardinality(Grouped(hits, c));
    assert |multiset(Memories(hits, c))| == |Memories(hits, c)|;
  }

  lemma {:induction false} HitsOfGroup(hits: seq<Hit>, g: Option<Key>, c: World)
    ensures forall h :: h in HitsOf(hits, g, c) ==> h in hits && c.group(h) == g
  {
    if hits != [] {
      HitsOfGroup(hits[..|hits| - 1], g, c);
    }
  }

  /** Each group appears once, holds only its own memories, ordered by time, and its scores are its
      hits' scores in hit order. */
  lemma GroupsWellFormed(hits: seq<Hit>, c: World)
    ensures forall i, j :: 0 <= i < j < |Grouped(hits, c)| ==> Grouped(hits, c)[i].group != Grouped(hits, c)[j].group
    ensures forall r :: r in Grouped(hits, c) ==>
      && (forall m :: m in r.memories ==> c.group(m.hit) == r.group)
      && (forall a, b :: 0 <= a < b < |r.memories| ==> r.memories[a].time <= r.memories[b].time)
      && r.scores == Map(c.score, HitsOf(hits, r.group, c))
      && |r.memories| == |r.scores|
  {
    EachGroupOnce(hits, c);
    forall r | r in Grouped(hits, c)
      ensures && (forall m :: m in r.memories ==> c.group(m.hit) == r.group)
              && (forall a, b :: 0 <= a < b < |r.memories| ==> r.memories[a].time <= r.memories[b].time)
              && r.scores == Map(c.score, HitsOf(hits, r.group, c))
              && |r.memories| == |r.scores|
    {
      SortMember(Unsorted(hits, c), ImportanceOf, r);
      GroupWellFormed(hits, c, r.group);
    }
  }

  /** Entries of distinct groups stay entries of distinct groups in any order. */
  lemma PermutedGroupsDiffer(entries: seq<GroupResult>, groups: seq<Option<Key>>, permuted: seq<GroupResult>)
    requires |entries| == |groups| && forall i :: 0 <= i < |entries| ==> entries[i].group == groups[i]
    requires Distinct(groups) && multiset(entries) == multiset(permuted)
    ensures forall i, j :: 0 <= i < j < |permuted| ==> permuted[i].group != permuted[j].group
  {
    PermutationDistinct(entries, permuted);
    forall i, j | 0 <= i < j < |permuted| ensures permuted[i].group != permuted[j].group {
      SameMultisetSameMember(entries, permuted, permuted[i]);
      SameMultisetSameMember(entries, permuted, permuted[j]);
      var a :| 0 <= a < |entries| && entries[a] == permuted[i];
      var b :| 0 <= b < |entries| && entries[b] == permuted[j];
    }
  }

  lemma EachGroupOnce(hits: seq<Hit>, c: World)
    ensures forall i, j :: 0 <= i < j < |Grouped(hits, c)| ==> Grouped(hits, c)[i].group != Grouped(hits, c)[j].group
  {
    SortPermutes(Unsorted(hits, c), ImportanceOf);
    PermutedGroupsDiffer(Unsorted(hits, c), Groups(hits, c), Grouped(hits, c));
  }

  lemma GroupWellFormed(hits: seq<Hit>, c: World, g: Option<Key>)
    ensures var r := ResultOf(hits, c, g);
      && (forall m :: m in r.memories ==> c.group(m.hit) == g)
      && (forall a, b :: 0 <= a < b < |r.memories| ==> r.memories[a].time <= r.memories[b].time)
  {
    var own := Memories(HitsOf(hits, g, c), c);
    HitsOfGroup(hits, g, c);
    SortPermutes(own, ByTime);
    SortDescending(own, ByTime);
    var sorted := SortDesc(own, ByTime);
    forall m | m in sorted ensures c.group(m.hit) == g {
      assert m in own;
      var i :| 0 <= i < |own| && own[i] == m;
      assert HitsOf(hits, g, c)[i] in HitsOf(hits, g, c);
    }
    forall a, b | 0 <= a < b < |sorted| ensures sorted[a].time <= sorted[b].time {
      assert ByTime(sorted[a]) >= ByTime(sorted[b]);
    }
  }

  /** Groups come in non-increasing importance; equal importance keeps the order in which the groups
      were first seen. */
  lemma GroupOrder(hits: seq<Hit>, c: World, i: nat, j: nat)
    requires i < |Groups(hits, c)| && j < |Groups(hits, c)| && i != j
    ensures var a, b := ResultOf(hits, c, Groups(hits, c)[i]), ResultOf(hits, c, Groups(hits, c)[j]);
      Precedes(Grouped(hits, c), a, b) <==> a.importance > b.importance || (a.importance == b.importance && i < j)
  {
    var unsorted := Unsorted(hits, c);
    forall x, y | 0 <= x < y < |unsorted| ensures unsorted[x] != unsorted[y] {
      assert unsorted[x].group == Groups(hits, c)[x] && unsorted[y].group == Groups(hits, c)[y];
    }
    SortOrderExact(unsorted, ImportanceOf, i, j);
  }

  /** Every score of the entry belongs to the memory beside it. */
  ghost predicate Aligned(r: GroupResult, c: World) {
    InLine(r.memories, r.scores, c)
  }

  ghost predicate InLine(memories: seq<Memory>, scores: seq<real>, c: World) {
    && |memories| == |scores|
    && forall p :: 0 <= p < |memories| ==> scores[p] == c.score(memories[p].hit)
  }

  /** The place of hit i by time: behind all earlier times and the equal ones that came first. */
  function TimePlace(own: seq<Hit>, c: World, i: nat): (p: nat)
    requires i < |own|
  {
    Place(Memories(own, c), ByTime, i)
  }

  /** Every hit has the score of the hit that came in at its place by time. */
  ghost predicate ScoresFollow(own: seq<Hit>, c: World) {
    forall i :: 0 <= i < |own| ==> ScoreFollows(own, c, i)
  }

  ghost predicate ScoreFollows(own: seq<Hit>, c: World, i: nat)
    requires i < |own|
  {
    var p := TimePlace(own, c, i);
    p < |own| && c.score(own[p]) == c.score(own[i])
  }

  lemma MemoryAtTimePlace(own: seq<Hit>, c: World, i: nat)
    requires i < |own|
    ensures TimePlace(own, c, i) < |own|
    ensures SortDesc(Memories(own, c), ByTime)[TimePlace(own, c, i)] == MemoryOf(own[i], c)
  {
    SortedAtPlace(Memories(own, c), ByTime, i);
  }

  lemma InLineFollows(own: seq<Hit>, c: World, sorted: seq<Memory>, i: nat)
    requires i < |own| && sorted == SortDesc(Memories(own, c), ByTime) && InLine(sorted, Map(c.score, own), c)
    ensures ScoreFollows(own, c, i)
  {
    MemoryAtTimePlace(own, c, i);
    var p := TimePlace(own, c, i);
    assert Map(c.score, own)[p] == c.score(sorted[p].hit);
  }

  lemma FollowsInLine(own: seq<Hit>, c: World, sorted: seq<Memory>, p: nat)
    requires p < |own| && sorted == SortDesc(Memories(own, c), ByTime) && ScoresFollow(own, c)
    ensures Map(c.score, own)[p] == c.score(sorted[p].hit)
  {
    var i := PlacesCover(Memories(own, c), ByTime, p);
    MemoryAtTimePlace(own, c, i);
    assert ScoreFollows(own, c, i);
  }

  /** Sorting the memories leaves the scores where they were: they stay aligned exactly when every
      hit has the score of the hit that came in at its place by time. */
  lemma ScoresAlignedExact(hits: seq<Hit>, c: World, g: Option<Key>)
    ensures Aligned(ResultOf(hits, c, g), c) <==> ScoresFollow(HitsOf(hits, g, c), c)
  {
    AlignedExact(HitsOf(hits, g, c), c, SortDesc(Memories(HitsOf(hits, g, c), c), ByTime));
  }

  lemma AlignedExact(own: seq<Hit>, c: World, sorted: seq<Memory>)
    requires sorted == SortDesc(Memories(own, c), ByTime)
    ensures InLine(sorted, Map(c.score, own), c) <==> ScoresFollow(own, c)
  {
    if InLine(sorted, Map(c.score, own), c) {
      forall i | 0 <= i < |own| ensures ScoreFollows(own, c, i) {
        InLineFollows(own, c, sorted, i);
      }
    }
    if ScoresFollow(own, c) {
      forall p | 0 <= p < |own| ensures Map(c.score, own)[p] == c.score(sorted[p].hit) {
        FollowsInLine(own, c, sorted, p);
      }
    }
  }

  ghost predicate InTimeOrder(own: seq<Hit>, c: World) {
    forall a, b :: 0 <= a < b < |own| ==> c.timestamp(own[a]) <= c.timestamp(own[b])
  }

  /** Hits that come in time order keep their own scores. */
  lemma TimeOrderAligns(hits: seq<Hit>, c: World, g: Option<Key>)
    requires InTimeOrder(HitsOf(hits, g, c), c)
    ensures Aligned(ResultOf(hits, c, g), c)
  {
    TimeOrderInLine(HitsOf(hits, g, c), c);
  }

  lemma TimeOrderInLine(own: seq<Hit>, c: World)
    requires InTimeOrder(own, c)
    ensures InLine(SortDesc(Memories(own, c), ByTime), Map(c.score, own), c)
  {
    SortedIsFixed(Memories(own, c), ByTime);
  }

  /** Two hits of one group out of time order get each other's scores. */
  lemma ScoresSwapped(h: Hit, k: Hit, c: World)
    requires c.group(h) == c.group(k) && c.timestamp(h) > c.timestamp(k) && c.score(h) != c.score(k)
    ensures var r := ResultOf([h, k], c, c.group(h));
      r.memories == [MemoryOf(k, c), MemoryOf(h, c)] && r.scores == [c.score(h), c.score(k)] && !Aligned(r, c)
  {
    HitsOfAppend([], h, c.group(h), c);
    HitsOfAppend([h], k, c.group(h), c);
    assert [] + [h] == [h] && [h] + [k] == [h, k];
    var own := [h, k];
    assert Memories(own, c)[..0] == [] && Memories(own, c)[2..] == [];
    MemoryAtTimePlace(own, c, 0);
    MemoryAtTimePlace(own, c, 1);
    var m := Memories(own, c);
    assert m[1..] == [m[1]] && m[1..][..0] == [] && m[..1] == [m[0]] && m[..1][..0] == [];
    assert TimePlace(own, c, 0) == 1 && TimePlace(own, c, 1) == 0;
  }

  // ---------- the batched lookup ----------

  /** One repository query: the events it knows among those asked for. */
  function Fetch<V>(repo: map<Key, V>, ids: seq<Key>): map<Key, V> {
    map id | id in ids && id in repo :: repo[id]
  }

  /** `_batch_get_memcells`; `unique` is `list(set(event_ids))`, in whatever order that comes. */
  method BatchGet<V>(repo: map<Key, V>, eventIds: seq<Key>, unique: seq<Key>, batchSize: int)
    returns (all: Try<map<Key, V>>)
    requires Distinct(unique) && forall id :: id in unique <==> id in eventIds
    ensures batchSize > 0 || eventIds == [] ==> all == Returned(Fetch(repo, eventIds))
    ensures batchSize < 0 ==> all == Returned(map[])
    ensures batchSize == 0 && eventIds != [] ==> all == Raised
  {
    if eventIds == [] {
      return Returned(map[]);
    }
    if batchSize == 0 {
      return Raised;
    }
    var cells: map<Key, V> := map[];
    if batchSize > 0 {
      var i := 0;
      while i < |unique|
        invariant 0 <= i
        invariant cells == Fetch(repo, unique[.. if i < |unique| then i else |unique|])
        decreases |unique| - i
      {
        var stop := if i + batchSize < |unique| then i + batchSize else |unique|;
        var batch := Fetch(repo, unique[i..stop]);
        assert unique[..stop] == unique[..i] + unique[i..stop];
        cells := cells + batch;
        i := i + batchSize;
      }
      assert unique[..|unique|] == unique;
      assert Fetch(repo, unique) == Fetch(repo, eventIds);
    }
    all := Returned(cells);
  }
}
