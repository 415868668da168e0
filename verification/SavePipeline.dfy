/** The save pipeline of one memcell: episodes first, then foresights and event logs under the group
    episode's document, copied for the users of an assistant conversation. */
module SavePipeline {
  import opened Outcomes
  import opened Sequences
  import opened EpisodeSaving

  type Vector(==, !new)

  /** A foresight may lack the user name attribute altogether. */
  datatype Foresight = Foresight(user: Option<Text>, userName: Option<Option<Text>>, content: Content, parentId: Text)

  datatype EventLog = EventLog(
    user: Option<Text>,
    userName: Option<Text>,
    facts: seq<Text>,
    embeddings: seq<Vector>,
    parentId: Text,
    group: Option<Text>,
    groupName: Option<Text>)

  /** A stored foresight or atomic fact: whose it is, and what it says. */
  datatype Record<B> = Record(user: Option<Text>, userName: Option<Text>, body: B)

  /** A foresight's group and participants are those of the episode document it is saved after. */
  datatype ForesightBody = ForesightBody(
    content: Content,
    parentId: Text,
    group: Option<Text>,
    groupName: Option<Text>,
    participants: People)

  /** A fact's group is its event log's; its participants and time are the episode document's. */
  datatype FactBody = FactBody(
    fact: Text,
    vector: Vector,
    parentId: Text,
    group: Option<Text>,
    groupName: Option<Text>,
    participants: People,
    time: Option<Time>)

  // ---------- extraction ----------

  /** `_extract_foresights`: every foresight gets the memcell as its parent. */
  function ExtractedForesights(result: Try<seq<Foresight>>, memcell: Text): seq<Foresight> {
    if result.Raised? then [] else Map((f: Foresight) => f.(parentId := memcell), result.value)
  }

  /** `_extract_event_logs`: at most one event log, with the memcell as its parent and the request's
      group. */
  function ExtractedLogs(result: Try<Option<EventLog>>, memcell: Text, group: Option<Text>, groupName: Option<Text>)
    : (r: seq<EventLog>)
    ensures |r| <= 1
  {
    if result.Raised? || result.value.None? then []
    else [result.value.value.(parentId := memcell, group := group, groupName := groupName)]
  }

  // ---------- conversion to documents ----------

  /** How many facts of an event log have an embedding. */
  function FactCount(log: EventLog): nat {
    if |log.facts| <= |log.embeddings| then |log.facts| else |log.embeddings|
  }

  function FactAt(log: EventLog, parent: Saved, i: nat): Record<FactBody>
    requires i < FactCount(log)
  {
    var origin := parent.doc.origin;
    Record(log.user, log.userName, FactBody(log.facts[i], log.embeddings[i], log.parentId, log.group, log.groupName,
                                            origin.participants, origin.time))
  }

  /** One record per fact that has an embedding; nothing when either list is empty. */
  function FactsOf(log: EventLog, parent: Saved): (r: seq<Record<FactBody>>)
    ensures |r| == FactCount(log)
    ensures forall i :: 0 <= i < |r| ==> r[i] == FactAt(log, parent, i)
  {
    seq(FactCount(log), i requires 0 <= i < FactCount(log) => FactAt(log, parent, i))
  }

  /** `_convert_foresight_to_doc` */
  function ForesightRecord(parent: Saved): Foresight -> Record<ForesightBody> {
    (f: Foresight) =>
      var d := parent.doc;
      Record(f.user, if f.userName.Some? then f.userName.value else d.userName,
             ForesightBody(f.content, f.parentId, d.origin.group, d.groupName, d.origin.participants))
  }

  /** `_convert_event_log_to_docs` */
  method ConvertEventLog(log: EventLog, parent: Saved) returns (docs: seq<Record<FactBody>>)
    ensures docs == FactsOf(log, parent)
  {
    docs := [];
    if log.facts == [] || log.embeddings == [] {
      return;
    }
    var origin := parent.doc.origin;
    var i := 0;
    while i < |log.facts|
      invariant 0 <= i <= FactCount(log)
      invariant docs == FactsOf(log, parent)[..i]
    {
      if i >= |log.embeddings| {
        break;
      }
      var body := FactBody(log.facts[i], log.embeddings[i], log.parentId, log.group, log.groupName,
                           origin.participants, origin.time);
      docs := docs + [Record(log.user, log.userName, body)];
      i := i + 1;
    }
  }

  function Readdress<B>(d: Record<B>, u: Text): Record<B> {
    d.(user := Some(u), userName := Some(u))
  }

  function ReaddressTo<B>(d: Record<B>): Text -> Record<B> {
    (u: Text) => Readdress(d, u)
  }

  /** `for doc in docs for uid in user_ids` */
  function CopiesOf<B>(docs: seq<Record<B>>, users: seq<Text>): seq<Record<B>> {
    if docs == [] then []
    else CopiesOf(docs[..|docs| - 1], users) + Map(ReaddressTo(docs[|docs| - 1]), users)
  }

  /** The documents followed by the copies for every user. */
  function WithCopies<B>(docs: seq<Record<B>>, users: seq<Text>): seq<Record<B>> {
    docs + CopiesOf(docs, users)
  }

  /** What a record says, whoever it is addressed to. */
  function BodyOf<B>(d: Record<B>): B { d.body }

  lemma {:induction false} ReaddressedBodies<B>(d: Record<B>, users: seq<Text>, b: B)
    ensures multiset(Map(BodyOf, Map(ReaddressTo(d), users)))[b] == if BodyOf(d) == b then |users| else 0
  {
    if users != [] {
      var n := |users| - 1;
      ReaddressedBodies(d, users[..n], b);
      assert Map(BodyOf, Map(ReaddressTo(d), users)) == Map(BodyOf, Map(ReaddressTo(d), users[..n])) + [BodyOf(d)];
    }
  }

  /** h added up m times. */
  function Times(m: nat, h: nat): nat {
    if m == 0 then 0 else Times(m - 1, h) + h
  }

  lemma {:induction false} TimesIsProduct(m: nat, h: nat)
    ensures Times(m, h) == m * h
  {
    if m > 0 {
      TimesIsProduct(m - 1, h);
    }
  }

  lemma AppendedBody<B>(docs: seq<Record<B>>, b: B)
    requires docs != []
    ensures var n := |docs| - 1;
      multiset(Map(BodyOf, docs))[b] == multiset(Map(BodyOf, docs[..n]))[b] + if BodyOf(docs[n]) == b then 1 else 0
  {
    var n := |docs| - 1;
    assert Map(BodyOf, docs) == Map(BodyOf, docs[..n]) + [BodyOf(docs[n])];
  }

  lemma {:induction false} CopiedBodies<B>(docs: seq<Record<B>>, users: seq<Text>, b: B)
    ensures multiset(Map(BodyOf, CopiesOf(docs, users)))[b] == Times(multiset(Map(BodyOf, docs))[b], |users|)
  {
    if docs != [] {
      var rest, last := docs[..|docs| - 1], docs[|docs| - 1];
      CopiedBodies(rest, users, b);
      ReaddressedBodies(last, users, b);
      MapConcat(BodyOf, CopiesOf(rest, users), Map(ReaddressTo(last), users));
      AppendedBody(docs, b);
    }
  }

  /** With h users every foresight and every fact is saved 1 + h times: once as extracted, once for
      each user, with the same body. */
  lemma SavedForEveryUser<B>(docs: seq<Record<B>>, users: seq<Text>, b: B)
    ensures multiset(Map(BodyOf, WithCopies(docs, users)))[b] == multiset(Map(BodyOf, docs))[b] * (1 + |users|)
    ensures docs <= WithCopies(docs, users)
  {
    var m := multiset(Map(BodyOf, docs))[b];
    CopiedBodies(docs, users, b);
    MapConcat(BodyOf, docs, CopiesOf(docs, users));
    TimesIsProduct(m, |users|);
    assert m * (1 + |users|) == m + m * |users|;
  }

  // ---------- whom the records belong to ----------

  /** A record that belongs to user u under u's own id as the name. */
  predicate BelongsTo<B(==)>(r: Record<B>, u: Text, b: B) {
    r.user == Some(u) && r.userName == Some(u) && r.body == b
  }

  /** How many of the records belong to u and say b. */
  function Owned<B(==)>(records: seq<Record<B>>, u: Text, b: B): nat {
    if records == [] then 0
    else Owned(records[..|records| - 1], u, b) + if BelongsTo(records[|records| - 1], u, b) then 1 else 0
  }

  /** How many of the records say b, whoever they belong to. */
  function Saying<B(==)>(records: seq<Record<B>>, b: B): nat {
    if records == [] then 0
    else Saying(records[..|records| - 1], b) + if records[|records| - 1].body == b then 1 else 0
  }

  lemma {:induction false} OwnedConcat<B>(a: seq<Record<B>>, more: seq<Record<B>>, u: Text, b: B)
    ensures Owned(a + more, u, b) == Owned(a, u, b) + Owned(more, u, b)
  {
    if more == [] {
      assert a + more == a;
    } else {
      assert (a + more)[..|a + more| - 1] == a + more[..|more| - 1];
      OwnedConcat(a, more[..|more| - 1], u, b);
    }
  }

  lemma {:induction false} OneRecordCopied<B>(d: Record<B>, users: seq<Text>, u: Text, b: B)
    ensures Owned(Map(ReaddressTo(d), users), u, b) == if d.body == b then multiset(users)[u] else 0
  {
    if users != [] {
      var n := |users| - 1;
      OneRecordCopied(d, users[..n], u, b);
      assert users == users[..n] + [users[n]];
      assert Map(ReaddressTo(d), users)[..n] == Map(ReaddressTo(d), users[..n]);
    }
  }

  lemma {:induction false} CopiesOwned<B>(docs: seq<Record<B>>, users: seq<Text>, u: Text, b: B)
    ensures Owned(CopiesOf(docs, users), u, b) == Times(Saying(docs, b), multiset(users)[u])
  {
    if docs != [] {
      var rest, last := docs[..|docs| - 1], docs[|docs| - 1];
      CopiesOwned(rest, users, u, b);
      OneRecordCopied(last, users, u, b);
      OwnedConcat(CopiesOf(rest, users), Map(ReaddressTo(last), users), u, b);
    }
  }

  lemma {:induction false} CopiesBelong<B>(docs: seq<Record<B>>, users: seq<Text>, r: Record<B>)
    requires r in CopiesOf(docs, users)
    ensures exists d, u :: d in docs && u in users && BelongsTo(r, u, d.body)
  {
    var rest, last := docs[..|docs| - 1], docs[|docs| - 1];
    if r in CopiesOf(rest, users) {
      CopiesBelong(rest, users, r);
      var d, u :| d in rest && u in users && BelongsTo(r, u, d.body);
      assert d in docs;
    } else {
      var j :| 0 <= j < |users| && Map(ReaddressTo(last), users)[j] == r;
      assert last in docs && users[j] in users && BelongsTo(r, users[j], last.body);
    }
  }

  /** What is stored are the extracted records, followed by copies: for each extracted record that says b and
      each occurrence of u among the users one that belongs to u, and nothing else. */
  lemma StoredBelong<B>(docs: seq<Record<B>>, users: seq<Text>, u: Text, b: B)
    ensures var stored := WithCopies(docs, users);
      && docs <= stored
      && Owned(stored[|docs|..], u, b) == Saying(docs, b) * multiset(users)[u]
      && forall r :: r in stored[|docs|..] ==> exists d, v :: d in docs && v in users && BelongsTo(r, v, d.body)
  {
    var stored := WithCopies(docs, users);
    assert stored[|docs|..] == CopiesOf(docs, users);
    CopiesOwned(docs, users, u, b);
    TimesIsProduct(Saying(docs, b), multiset(users)[u]);
    forall r | r in CopiesOf(docs, users) ensures exists d, v :: d in docs && v in users && BelongsTo(r, v, d.body) {
      CopiesBelong(docs, users, r);
    }
  }

  // ---------- the whole save ----------

  class RecordStore {
    var foresights: seq<Record<ForesightBody>>
    var facts: seq<Record<FactBody>>

    constructor ()
      ensures foresights == [] && facts == []
    {
      foresights, facts := [], [];
    }

    method SaveAll(foresights: seq<Record<ForesightBody>>, facts: seq<Record<FactBody>>)
      modifies this
      ensures this.foresights == old(this.foresights) + foresights && this.facts == old(this.facts) + facts
    {
      this.foresights, this.facts := this.foresights + foresights, this.facts + facts;
    }
  }

  function FactRecords(logs: seq<EventLog>, parent: Saved): seq<Record<FactBody>> {
    if logs == [] then []
    else
      var last := logs[|logs| - 1];
      FactRecords(logs[..|logs| - 1], parent) + FactsOf(last, parent)
  }

  method CopyRecords<B>(docs: seq<Record<B>>, users: seq<Text>) returns (all: seq<Record<B>>)
    ensures all == WithCopies(docs, users)
  {
    var copies: seq<Record<B>> := [];
    for i := 0 to |docs|
      invariant copies == CopiesOf(docs[..i], users)
    {
      assert docs[..i + 1][..i] == docs[..i];
      ghost var start := copies;
      for j := 0 to |users|
        invariant copies == start + Map(ReaddressTo(docs[i]), users[..j])
      {
        MapNext(ReaddressTo(docs[i]), users, j);
        copies := copies + [Readdress(docs[i], users[j])];
      }
      assert users[..|users|] == users;
    }
    assert docs[..|docs|] == docs;
    all := docs + copies;
  }

  /** What the call adds to the foresights: nothing without a parent document. */
  function NewForesights(
      parent: Option<Saved>, foresights: seq<Foresight>, users: seq<Text>): seq<Record<ForesightBody>>
  {
    if parent.None? then [] else WithCopies(Map(ForesightRecord(parent.value), foresights), users)
  }

  function NewFacts(parent: Option<Saved>, logs: seq<EventLog>, users: seq<Text>): seq<Record<FactBody>> {
    if parent.None? then [] else WithCopies(FactRecords(logs, parent.value), users)
  }

  method ConvertAll(logs: seq<EventLog>, parent: Saved) returns (docs: seq<Record<FactBody>>)
    ensures docs == FactRecords(logs, parent)
  {
    docs := [];
    for i := 0 to |logs|
      invariant docs == FactRecords(logs[..i], parent)
    {
      assert logs[..i + 1][..i] == logs[..i];
      var more := ConvertEventLog(logs[i], parent);
      docs := docs + more;
    }
    assert logs[..|logs|] == logs;
  }

  /** `_save_foresight_and_eventlog` */
  method SaveForesightsAndLogs(
      records: RecordStore, group: Option<Episode>, parents: map<Text, Saved>, users: seq<Text>,
      foresights: seq<Foresight>, logs: seq<EventLog>)
    modifies records
    ensures var parent := ParentOf(group, parents);
      && records.foresights == old(records.foresights) + NewForesights(parent, foresights, users)
      && records.facts == old(records.facts) + NewFacts(parent, logs, users)
  {
    if group.None? || group.value.id.None? || group.value.id.value !in parents {
      return;
    }
    var parent := parents[group.value.id.value];
    var factDocs := ConvertAll(logs, parent);
    factDocs := CopyRecords(factDocs, users);
    var foresightDocs := CopyRecords(Map(ForesightRecord(parent), foresights), users);
    records.SaveAll(foresightDocs, factDocs);
  }

  function OneOrNone(group: Option<Episode>): seq<Episode> {
    if group.Some? then [group.value] else []
  }

  // ---------- how many records are stored ----------

  /** All facts with an embedding. */
  function FactTotal(logs: seq<EventLog>): nat {
    if logs == [] then 0 else FactTotal(logs[..|logs| - 1]) + FactCount(logs[|logs| - 1])
  }

  lemma {:induction false} FactRecordCount(logs: seq<EventLog>, parent: Saved)
    ensures |FactRecords(logs, parent)| == FactTotal(logs)
  {
    if logs != [] {
      FactRecordCount(logs[..|logs| - 1], parent);
    }
  }

  lemma {:induction false} CopyCount<B>(docs: seq<Record<B>>, users: seq<Text>)
    ensures |CopiesOf(docs, users)| == Times(|docs|, |users|)
  {
    if docs != [] {
      CopyCount(docs[..|docs| - 1], users);
    }
  }

  lemma WithCopiesCount<B>(docs: seq<Record<B>>, users: seq<Text>)
    ensures |WithCopies(docs, users)| == |docs| + |docs| * |users|
  {
    CopyCount(docs, users);
    TimesIsProduct(|docs|, |users|);
  }

  /** The records that the call stores. */
  function StoredCount(parent: Option<Saved>, foresights: seq<Foresight>, logs: seq<EventLog>, users: seq<Text>): nat {
    |NewForesights(parent, foresights, users)| + |NewFacts(parent, logs, users)|
  }

  /** With a parent document every foresight and every fact is stored once and once more for each user;
      without one nothing is. */
  lemma StoredCounts(parent: Option<Saved>, foresights: seq<Foresight>, logs: seq<EventLog>, users: seq<Text>)
    ensures var h, facts := |users|, FactTotal(logs);
      StoredCount(parent, foresights, logs, users)
      == if parent.None? then 0 else |foresights| + |foresights| * h + facts + facts * h
  {
    if parent.Some? {
      WithCopiesCount(Map(ForesightRecord(parent.value), foresights), users);
      WithCopiesCount(FactRecords(logs, parent.value), users);
      FactRecordCount(logs, parent.value);
    }
  }

  /** Whether the count of foresights and event logs that the call returns is the number of records it
      stores: outside assistant conversations always; without a group episode only if there are none;
      otherwise only if the event logs make up for all facts and for the copies of the foresights. */
  predicate CountAgrees(assistant: bool, hasGroup: bool, foresights: nat, logs: seq<EventLog>, users: nat) {
    || !assistant
    || (!hasGroup && foresights == 0 && logs == [])
    || (hasGroup && |logs| == foresights * users + FactTotal(logs) + FactTotal(logs) * users)
  }

  lemma CountExact(
      assistant: bool, parent: Option<Saved>, foresights: seq<Foresight>, logs: seq<EventLog>, users: seq<Text>)
    ensures (if assistant then |foresights| + |logs| else 0)
            == (if assistant then StoredCount(parent, foresights, logs, users) else 0)
      <==> CountAgrees(assistant, parent.Some?, |foresights|, logs, |users|)
  {
    StoredCounts(parent, foresights, logs, users);
  }

  /** With a group episode and at most one event log, which is all that extraction yields, the counts
      agree exactly in three cases: no event log and nothing to copy; one event log of one fact and no
      user; one event log without facts, one foresight and one user. */
  lemma CountAgreesCases(foresights: nat, logs: seq<EventLog>, users: nat)
    requires |logs| <= 1
    ensures CountAgrees(true, true, foresights, logs, users)
      <==> || (logs == [] && (foresights == 0 || users == 0))
           || (logs != [] && FactCount(logs[0]) == 1 && users == 0)
           || (logs != [] && FactCount(logs[0]) == 0 && foresights == 1 && users == 1)
  {
    if logs == [] {
      ProductIsZero(foresights, users);
    } else {
      assert logs[..0] == [];
      var facts := FactCount(logs[0]);
      assert FactTotal(logs) == facts;
      ProductIsZero(foresights, users);
      ProductIsZero(facts, users);
      ProductIsOne(foresights, users);
    }
  }

  lemma ProductIsZero(a: nat, b: nat)
    ensures 0 <= a * b
    ensures a * b == 0 <==> a == 0 || b == 0
  {
    if a > 0 && b > 0 {
      assert (a - 1) * b >= 0;
    }
  }

  lemma ProductIsOne(a: nat, b: nat)
    ensures a * b == 1 <==> a == 1 && b == 1
  {
    if a >= 2 && b >= 1 {
      assert (a - 2) * b >= 0;
    } else if a == 1 {
      assert a * b == b;
    }
  }

  /** The group episode could not be extracted, the rest was: a foresight and an event log are counted
      although nothing is stored. */
  lemma CountsWithoutSaving(f: Foresight, log: EventLog, users: seq<Text>)
    ensures StoredCount(None, [f], [log], users) == 0 && !CountAgrees(true, false, 1, [log], |users|)
  {
  }

  /** A foresight and its copy for one user are two records and count once. */
  lemma CopiesNotCounted(parent: Saved, f: Foresight, u: Text)
    ensures StoredCount(Some(parent), [f], [], [u]) == 2 && !CountAgrees(true, true, 1, [], 1)
  {
    StoredCounts(Some(parent), [f], [], [u]);
  }

  // ---------- what the records belong to ----------

  lemma CopiedFrom<B>(docs: seq<Record<B>>, users: seq<Text>, r: Record<B>)
    requires r in WithCopies(docs, users)
    ensures exists d :: d in docs && d.body == r.body
  {
    var all := WithCopies(docs, users);
    SavedForEveryUser(docs, users, r.body);
    var i :| 0 <= i < |all| && all[i] == r;
    assert Map(BodyOf, all)[i] == r.body;
    assert r.body in multiset(Map(BodyOf, all));
    ProductIsZero(multiset(Map(BodyOf, docs))[r.body], 1 + |users|);
    assert r.body in Map(BodyOf, docs);
    var j :| 0 <= j < |docs| && Map(BodyOf, docs)[j] == r.body;
    assert docs[j].body == r.body;
  }

  /** Every stored foresight names the memcell as its parent, and has the group, group name and
      participants of the document it is saved after. */
  lemma ForesightsBelong(
      parent: Saved, result: Try<seq<Foresight>>, memcell: Text, users: seq<Text>, r: Record<ForesightBody>)
    requires r in NewForesights(Some(parent), ExtractedForesights(result, memcell), users)
    ensures var b, d := r.body, parent.doc;
      && b.parentId == memcell
      && b.group == d.origin.group && b.groupName == d.groupName && b.participants == d.origin.participants
      && result.Returned? && exists f :: f in result.value && f.content == b.content
  {
    var foresights := ExtractedForesights(result, memcell);
    CopiedFrom(Map(ForesightRecord(parent), foresights), users, r);
    var x :| x in Map(ForesightRecord(parent), foresights) && x.body == r.body;
    var i :| 0 <= i < |foresights| && ForesightRecord(parent)(foresights[i]) == x;
    assert result.value[i] in result.value;
  }

  /** Every stored fact names the memcell as its parent, has the request's group, and the participants
      and time of that document. */
  lemma FactsBelong(
      parent: Saved, result: Try<Option<EventLog>>, memcell: Text, group: Option<Text>, groupName: Option<Text>,
      users: seq<Text>, r: Record<FactBody>)
    requires r in NewFacts(Some(parent), ExtractedLogs(result, memcell, group, groupName), users)
    ensures var b, origin := r.body, parent.doc.origin;
      && b.parentId == memcell
      && b.group == group && b.groupName == groupName
      && b.participants == origin.participants && b.time == origin.time
      && result.Returned? && result.value.Some?
      && var log := result.value.value;
         exists i :: 0 <= i < |log.facts| && i < |log.embeddings|
                     && b.fact == log.facts[i] && b.vector == log.embeddings[i]
  {
    var logs := ExtractedLogs(result, memcell, group, groupName);
    CopiedFrom(FactRecords(logs, parent), users, r);
    var x :| x in FactRecords(logs, parent) && x.body == r.body;
    assert logs != [] && logs[..0] == [];
    assert FactRecords(logs, parent) == [] + FactsOf(logs[0], parent);
    var i :| 0 <= i < |FactsOf(logs[0], parent)| && FactsOf(logs[0], parent)[i] == x;
    assert r.body.fact == result.value.value.facts[i] && r.body.vector == result.value.value.embeddings[i];
  }

  /** The first |foresights| stored foresights are the extracted ones, in order: each has its own user, its own
      user name if it carries one, even an empty one, and otherwise that of the document. */
  lemma ExtractedForesightOwner(parent: Saved, foresights: seq<Foresight>, users: seq<Text>, i: nat)
    requires i < |foresights|
    ensures var stored, f := NewForesights(Some(parent), foresights, users), foresights[i];
      && i < |stored| && stored[i].user == f.user && stored[i].body.content == f.content
      && (f.userName.Some? ==> Some(stored[i].userName) == f.userName)
      && (f.userName.None? ==> stored[i].userName == parent.doc.userName)
  {
    assert Map(ForesightRecord(parent), foresights)[i] == ForesightRecord(parent)(foresights[i]);
  }

  /** The first stored facts are the log's, in order, each with its own embedding and the log's user. */
  lemma ExtractedFactOwner(parent: Saved, log: EventLog, users: seq<Text>, i: nat)
    requires i < |log.facts| && i < |log.embeddings|
    ensures var stored := NewFacts(Some(parent), [log], users);
      && i < |stored| && stored[i].user == log.user && stored[i].userName == log.userName
      && stored[i].body.fact == log.facts[i] && stored[i].body.vector == log.embeddings[i]
  {
    assert [log][..0] == [];
    assert FactRecords([log], parent) == [] + FactsOf(log, parent);
    assert FactsOf(log, parent)[i] == FactAt(log, parent, i);
  }

  /** The document that the group episode was saved as, if it is known. */
  function ParentOf(group: Option<Episode>, parents: map<Text, Saved>): Option<Saved>
    reads if group.Some? then {group.value} else {}
  {
    if group.Some? && group.value.id.Some? && group.value.id.value in parents then Some(parents[group.value.id.value])
    else None
  }

  /** The second half: foresights and event logs are saved, and counted, in assistant conversations only. */
  method SaveCounted(
      records: RecordStore, group: Option<Episode>, parents: map<Text, Saved>, users: seq<Text>, assistant: bool,
      foresights: seq<Foresight>, logs: seq<EventLog>, ghost parent: Option<Saved>)
    returns (counted: nat)
    requires parent == if assistant then ParentOf(group, parents) else None
    modifies records
    ensures records.foresights == old(records.foresights) + NewForesights(parent, foresights, users)
    ensures records.facts == old(records.facts) + NewFacts(parent, logs, users)
    ensures counted == if assistant then |foresights| + |logs| else 0
    ensures var added := |records.foresights| + |records.facts| - old(|records.foresights| + |records.facts|);
      counted == added <==> CountAgrees(assistant, parent.Some?, |foresights|, logs, |users|)
  {
    counted := 0;
    if assistant && (foresights != [] || logs != []) {
      SaveForesightsAndLogs(records, group, parents, users, foresights, logs);
      counted := |foresights| + |logs|;
    }
    CountExact(assistant, parent, foresights, logs, users);
  }

  /** The first half: the extracted episodes and the copies for the users. */
  method SaveExtracted(
      store: EpisodeStore, group: Option<Episode>, personal: seq<Episode>, assistant: bool, users: seq<Text>,
      groupName: Option<Text>)
    returns (saved: seq<Saved>, parents: map<Text, Saved>)
    requires Distinct(OneOrNone(group) + personal) && GivesFreshIds(store.nextId)
    modifies store, OneOrNone(group) + personal
    ensures |saved| == |OneOrNone(group)| + |personal| + (if assistant && group.Some? then |users| else 0)
    ensures store.docs == old(store.docs) + saved
    ensures var source := OneOrNone(group) + personal;
      forall i :: 0 <= i < |source| ==>
        source[i].id == Some(saved[i].id) && saved[i].doc == Filled(old(source[i].Doc()), groupName)
    ensures assistant && group.Some? ==>
      var n := |OneOrNone(group)| + |personal|;
      forall j :: 0 <= j < |users| ==> CopiedTo(old(group.value.Doc()), saved[n + j].doc, users[j], groupName)
    ensures assistant ==> ParentOf(group, parents) == if group.Some? then Some(saved[0]) else None
  {
    var source := OneOrNone(group) + personal;
    saved, parents := SaveWithCopies(store, source, if assistant then group else None, users, groupName);
    if group.Some? {
      assert source[0] == group.value && source[0].id == Some(saved[0].id);
      assert saved[0].id in parents && parents[saved[0].id] == saved[0];
    }
  }

  /** `_process_memories`: whatever copies are saved along, each extracted episode gets the id of the
      document built from it, and the foresights and facts are converted with the group episode's own
      document and saved once as extracted and once for every user. */
  method ProcessMemories(
      store: EpisodeStore, records: RecordStore, group: Option<Episode>, personal: seq<Episode>,
      assistant: bool, participants: seq<Text>, robot: Text -> bool, groupName: Option<Text>,
      foresights: seq<Foresight>, logs: seq<EventLog>)
    returns (count: nat, saved: seq<Saved>)
    requires Distinct(OneOrNone(group) + personal) && GivesFreshIds(store.nextId)
    modifies store, records, OneOrNone(group) + personal
    ensures |saved|
            == |OneOrNone(group)| + |personal| + (if assistant && group.Some? then |Users(participants, robot)| else 0)
    ensures store.docs == old(store.docs) + saved
    ensures var source := OneOrNone(group) + personal;
      forall i :: 0 <= i < |source| ==>
        source[i].id == Some(saved[i].id) && saved[i].doc == Filled(old(source[i].Doc()), groupName)
    ensures assistant && group.Some? ==>
      var users, n := Users(participants, robot), |OneOrNone(group)| + |personal|;
      forall j :: 0 <= j < |users| ==> CopiedTo(old(group.value.Doc()), saved[n + j].doc, users[j], groupName)
    ensures var parent := if assistant && group.Some? then Some(saved[0]) else None;
      && records.foresights == old(records.foresights) + NewForesights(parent, foresights, Users(participants, robot))
      && records.facts == old(records.facts) + NewFacts(parent, logs, Users(participants, robot))
    ensures count == |saved| + if assistant then |foresights| + |logs| else 0
    ensures var added := |records.foresights| + |records.facts| - old(|records.foresights| + |records.facts|);
      count == |saved| + added
      <==> CountAgrees(assistant, group.Some?, |foresights|, logs, |Users(participants, robot)|)
  {
    var users := Users(participants, robot);
    var parents: map<Text, Saved>;
    saved, parents := SaveExtracted(store, group, personal, assistant, users, groupName);
    ghost var parent := if assistant && group.Some? then Some(saved[0]) else None;
    var counted := SaveCounted(records, group, parents, users, assistant, foresights, logs, parent);
    count := |saved| + counted;
  }
}
