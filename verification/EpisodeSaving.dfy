/** Saving the episodes extracted from one memcell, with copies for the users of an assistant
    conversation. */
module EpisodeSaving {
  import opened Outcomes
  import opened Sequences

  /** Ids, names and everything else the pipeline carries along without looking into it. */
  type Text(==, !new)
  type Content(==, !new)
  type People(==, !new)
  type Time(==, !new)

  /** Where an episode comes from: its group, its participants and its time; a missing time is that of
      the call. */
  datatype Origin = Origin(group: Option<Text>, participants: People, time: Option<Time>)

  /** The document built from an episode. */
  datatype EpisodeDoc = EpisodeDoc(
    user: Option<Text>,
    userName: Option<Text>,
    groupName: Option<Text>,
    origin: Origin,
    content: Content)

  datatype Saved = Saved(id: Text, doc: EpisodeDoc)

  class Episode {
    var id: Option<Text>
    var user: Option<Text>
    var userName: Option<Text>
    var groupName: Option<Text>
    const origin: Origin
    const content: Content

    constructor (id: Option<Text>, doc: EpisodeDoc)
      ensures this.id == id && Doc() == doc
    {
      this.id, this.user, this.userName, this.groupName := id, doc.user, doc.userName, doc.groupName;
      this.origin, this.content := doc.origin, doc.content;
    }

    /** `_convert_episode_memory_to_doc` */
    function Doc(): EpisodeDoc
      reads this
    {
      EpisodeDoc(user, userName, groupName, origin, content)
    }

    method FillNames(fallback: Option<Text>)
      modifies this
      ensures id == old(id) && Doc() == Filled(old(Doc()), fallback)
      ensures user == old(user)
      ensures groupName == if old(groupName).Some? then old(groupName) else fallback
      ensures userName == if old(userName).Some? then old(userName) else user
    {
      if groupName.None? {
        groupName := fallback;
      }
      if userName.None? {
        userName := user;
      }
    }
  }

  /** A document whose missing group name is the request's and whose missing user name is the user id. */
  function Filled(d: EpisodeDoc, groupName: Option<Text>): EpisodeDoc {
    d.(groupName := if d.groupName.None? then groupName else d.groupName,
       userName := if d.userName.None? then d.user else d.userName)
  }

  // ---------- the episode repository ----------

  /** How the database picks the id of the next document. */
  ghost predicate GivesFreshIds(nextId: seq<Saved> -> Text) {
    forall docs: seq<Saved>, s: Saved :: s in docs ==> nextId(docs) != s.id
  }

  /** The documents with their ids after appending docs one by one to what is stored. */
  function SavedAs(nextId: seq<Saved> -> Text, stored: seq<Saved>, docs: seq<EpisodeDoc>): (r: seq<Saved>)
    ensures |r| == |docs|
  {
    if docs == [] then []
    else
      var n := |docs| - 1;
      var before := SavedAs(nextId, stored, docs[..n]);
      before + [Saved(nextId(stored + before), docs[n])]
  }

  lemma {:induction false} SavedDocs(nextId: seq<Saved> -> Text, stored: seq<Saved>, docs: seq<EpisodeDoc>, i: nat)
    requires i < |docs|
    ensures SavedAs(nextId, stored, docs)[i].doc == docs[i]
  {
    if i < |docs| - 1 {
      SavedDocs(nextId, stored, docs[..|docs| - 1], i);
    }
  }

  lemma {:induction false} SavedIdsDiffer(nextId: seq<Saved> -> Text, stored: seq<Saved>, docs: seq<EpisodeDoc>,
      i: nat, j: nat)
    requires GivesFreshIds(nextId) && i < j < |docs|
    ensures SavedAs(nextId, stored, docs)[i].id != SavedAs(nextId, stored, docs)[j].id
  {
    var n := |docs| - 1;
    if j < n {
      SavedIdsDiffer(nextId, stored, docs[..n], i, j);
    } else {
      var before := SavedAs(nextId, stored, docs[..n]);
      assert before[i] in stored + before;
    }
  }

  class EpisodeStore {
    var docs: seq<Saved>
    const nextId: seq<Saved> -> Text

    constructor (nextId: seq<Saved> -> Text)
      ensures docs == [] && this.nextId == nextId
    {
      docs := [];
      this.nextId := nextId;
    }

    method Append(doc: EpisodeDoc) returns (saved: Saved)
      modifies this
      ensures saved == Saved(nextId(old(docs)), doc) && docs == old(docs) + [saved]
    {
      saved := Saved(nextId(docs), doc);
      docs := docs + [saved];
    }

    /** The episode part of `save_memory_docs`. */
    method SaveAll(batch: seq<EpisodeDoc>) returns (saved: seq<Saved>)
      modifies this
      ensures saved == SavedAs(nextId, old(docs), batch) && docs == old(docs) + saved
    {
      saved := [];
      for i := 0 to |batch|
        invariant saved == SavedAs(nextId, old(docs), batch[..i]) && docs == old(docs) + saved
      {
        assert batch[..i + 1][..i] == batch[..i];
        var s := Append(batch[i]);
        saved := saved + [s];
      }
      assert batch[..|batch|] == batch;
    }
  }

  // ---------- saving episodes ----------

  function DocsOf(episodes: seq<Episode>): (r: seq<EpisodeDoc>)
    reads episodes
    ensures |r| == |episodes|
    ensures forall i :: 0 <= i < |r| ==> r[i] == episodes[i].Doc()
  {
    seq(|episodes|, i requires 0 <= i < |episodes| reads episodes => episodes[i].Doc())
  }

  function FilledAll(docs: seq<EpisodeDoc>, groupName: Option<Text>): (r: seq<EpisodeDoc>)
    ensures |r| == |docs|
    ensures forall i :: 0 <= i < |r| ==> r[i] == Filled(docs[i], groupName)
  {
    seq(|docs|, i requires 0 <= i < |docs| => Filled(docs[i], groupName))
  }

  function WithParents(parents: map<Text, Saved>, saved: seq<Saved>): map<Text, Saved> {
    if saved == [] then parents
    else WithParents(parents, saved[..|saved| - 1])[saved[|saved| - 1].id := saved[|saved| - 1]]
  }

  method FillAllNames(episodes: seq<Episode>, groupName: Option<Text>)
    requires Distinct(episodes)
    modifies episodes
    ensures DocsOf(episodes) == FilledAll(old(DocsOf(episodes)), groupName)
    ensures forall e :: e in episodes ==> e.id == old(e.id)
  {
    for i := 0 to |episodes|
      invariant forall j :: 0 <= j < i ==> episodes[j].Doc() == Filled(old(episodes[j].Doc()), groupName)
      invariant forall j :: i <= j < |episodes| ==> episodes[j].Doc() == old(episodes[j].Doc())
      invariant forall j :: 0 <= j < |episodes| ==> episodes[j].id == old(episodes[j].id)
    {
      episodes[i].FillNames(groupName);
    }
  }

  /** `for ep, saved_doc in zip(episodic_source, saved_docs)` */
  method AssignIds(source: seq<Episode>, saved: seq<Saved>, parents: map<Text, Saved>)
    returns (parents': map<Text, Saved>)
    requires Distinct(source) && |source| <= |saved|
    modifies source
    ensures forall i :: 0 <= i < |source| ==> source[i].id == Some(saved[i].id)
    ensures DocsOf(source) == old(DocsOf(source))
    ensures parents' == WithParents(parents, saved[..|source|])
  {
    parents' := parents;
    for i := 0 to |source|
      invariant forall j :: 0 <= j < i ==> source[j].id == Some(saved[j].id)
      invariant forall j :: 0 <= j < |source| ==> source[j].Doc() == old(source[j].Doc())
      invariant parents' == WithParents(parents, saved[..i])
    {
      assert saved[..i + 1][..i] == saved[..i];
      source[i].id := Some(saved[i].id);
      parents' := parents'[saved[i].id := saved[i]];
    }
  }

  lemma {:induction false} ParentsHold(parents: map<Text, Saved>, saved: seq<Saved>, i: nat)
    requires i < |saved|
    requires forall a, b :: 0 <= a < b < |saved| ==> saved[a].id != saved[b].id
    ensures saved[i].id in WithParents(parents, saved) && WithParents(parents, saved)[saved[i].id] == saved[i]
  {
    if i < |saved| - 1 {
      ParentsHold(parents, saved[..|saved| - 1], i);
    }
  }

  lemma DistinctPart<T>(a: seq<T>, b: seq<T>)
    requires Distinct(a + b)
    ensures Distinct(a)
  {
    forall i, j | 0 <= i < j < |a| ensures a[i] != a[j] {
      assert (a + b)[i] == a[i] && (a + b)[j] == a[j];
    }
  }

  /** What is saved and assigned for source i. */
  lemma SavedAndAssigned(nextId: seq<Saved> -> Text, stored: seq<Saved>, docs: seq<EpisodeDoc>,
      parents: map<Text, Saved>, n: nat, i: nat)
    requires GivesFreshIds(nextId) && i < n <= |docs|
    ensures var saved := SavedAs(nextId, stored, docs);
      && |saved| == |docs| && saved[i].doc == docs[i]
      && saved[i].id in WithParents(parents, saved[..n]) && WithParents(parents, saved[..n])[saved[i].id] == saved[i]
  {
    var saved := SavedAs(nextId, stored, docs);
    SavedDocs(nextId, stored, docs, i);
    forall a, b | 0 <= a < b < n ensures saved[a].id != saved[b].id {
      SavedIdsDiffer(nextId, stored, docs, a, b);
    }
    ParentsHold(parents, saved[..n], i);
  }

  /** `_save_episodes`; the sources are the first episodes to save, the copies for users follow. */
  method SaveEpisodes(store: EpisodeStore, source: seq<Episode>, copies: seq<Episode>, groupName: Option<Text>,
      parents: map<Text, Saved>)
    returns (saved: seq<Saved>, parents': map<Text, Saved>)
    requires Distinct(source + copies) && GivesFreshIds(store.nextId)
    modifies store, source, copies
    ensures saved == SavedAs(store.nextId, old(store.docs), FilledAll(old(DocsOf(source + copies)), groupName))
    ensures store.docs == old(store.docs) + saved
    ensures forall i :: 0 <= i < |source| ==>
      && source[i].id == Some(saved[i].id)
      && saved[i].doc == Filled(old(source[i].Doc()), groupName)
      && saved[i].id in parents' && parents'[saved[i].id] == saved[i]
  {
    var episodes := source + copies;
    ghost var before := DocsOf(episodes);
    assert forall e :: e in episodes ==> e in source || e in copies;
    FillAllNames(episodes, groupName);
    saved := store.SaveAll(DocsOf(episodes));
    DistinctPart(source, copies);
    parents' := AssignIds(source, saved, parents);
    ghost var docs := FilledAll(before, groupName);
    forall i | 0 <= i < |source|
      ensures saved[i].doc == Filled(before[i], groupName) && saved[i].id in parents'
          && parents'[saved[i].id] == saved[i]
    {
      SavedAndAssigned(store.nextId, old(store.docs), docs, parents, |source|, i);
    }
  }

  // ---------- copies for the users of an assistant conversation ----------

  /** The participants that are no robots. */
  function Users(participants: seq<Text>, robot: Text -> bool): seq<Text> {
    Filter((u: Text) => !robot(u), participants)
  }

  /** Each participant that is no robot is a user as often as it takes part. */
  lemma {:induction false} UsersExact(participants: seq<Text>, robot: Text -> bool, u: Text)
    ensures multiset(Users(participants, robot))[u] == if robot(u) then 0 else multiset(participants)[u]
  {
    if participants != [] {
      var n := |participants| - 1;
      UsersExact(participants[..n], robot, u);
      assert participants == participants[..n] + [participants[n]];
    }
  }

  /** A document that says what d says and belongs to user u, under u's id as the name. */
  predicate CopiedTo(d: EpisodeDoc, copy: EpisodeDoc, u: Text, groupName: Option<Text>) {
    && copy.user == Some(u) && copy.userName == Some(u)
    && copy.origin == d.origin && copy.content == d.content
    && copy.groupName == if d.groupName.Some? then d.groupName else groupName
  }

  function CopyFor(d: EpisodeDoc, u: Text): EpisodeDoc {
    d.(user := Some(u), userName := Some(u))
  }

  function CopyTo(d: EpisodeDoc): Text -> EpisodeDoc {
    (u: Text) => CopyFor(d, u)
  }

  /** `_clone_episodes_for_users`: new episodes, the group episode itself untouched. */
  method CloneForUsers(group: Episode, users: seq<Text>) returns (copies: seq<Episode>)
    ensures Distinct(copies) && fresh(copies)
    ensures DocsOf(copies) == Map(CopyTo(group.Doc()), users)
    ensures forall j :: 0 <= j < |users| ==> CopiedTo(group.Doc(), copies[j].Doc(), users[j], None)
  {
    copies := [];
    ghost var doc := group.Doc();
    for i := 0 to |users|
      invariant Distinct(copies) && fresh(copies)
      invariant DocsOf(copies) == Map(CopyTo(doc), users[..i])
    {
      var u := users[i];
      var copy := new Episode(group.id, CopyFor(group.Doc(), u));
      copies := copies + [copy];
    }
    assert users[..|users|] == users;
    forall j | 0 <= j < |users| ensures CopiedTo(group.Doc(), copies[j].Doc(), users[j], None) {
      assert DocsOf(copies)[j] == CopyTo(doc)(users[j]);
    }
  }

  lemma OldAndNewDiffer(source: seq<Episode>, copies: seq<Episode>)
    requires Distinct(source) && Distinct(copies) && forall e :: e in copies ==> e !in source
    ensures Distinct(source + copies)
  {
    var all := source + copies;
    forall i, j | 0 <= i < j < |all| ensures all[i] != all[j] {
      if i < |source| && j >= |source| {
        assert all[i] == source[i] && all[j] in copies;
      }
    }
  }

  /** The episode part: the copies for users are made before anything is saved. */
  method SaveWithCopies(store: EpisodeStore, source: seq<Episode>, group: Option<Episode>, users: seq<Text>,
      groupName: Option<Text>)
    returns (saved: seq<Saved>, parents: map<Text, Saved>)
    requires Distinct(source) && GivesFreshIds(store.nextId)
    modifies store, source
    ensures |saved| == |source| + (if group.Some? then |users| else 0)
    ensures store.docs == old(store.docs) + saved
    ensures forall i :: 0 <= i < |source| ==>
      && source[i].id == Some(saved[i].id)
      && saved[i].doc == Filled(old(source[i].Doc()), groupName)
      && saved[i].id in parents && parents[saved[i].id] == saved[i]
    ensures group.Some? ==> forall j :: 0 <= j < |users| ==>
      CopiedTo(old(group.value.Doc()), saved[|source| + j].doc, users[j], groupName)
  {
    var copies: seq<Episode> := [];
    if group.Some? {
      copies := CloneForUsers(group.value, users);
    }
    OldAndNewDiffer(source, copies);
    ghost var docs := FilledAll(DocsOf(source + copies), groupName);
    saved, parents := SaveEpisodes(store, source, copies, groupName, map[]);
    if group.Some? {
      forall j | 0 <= j < |users|
        ensures CopiedTo(old(group.value.Doc()), saved[|source| + j].doc, users[j], groupName)
      {
        SavedDocs(store.nextId, old(store.docs), docs, |source| + j);
        assert saved[|source| + j].doc == Filled(CopyFor(old(group.value.Doc()), users[j]), groupName);
      }
    }
  }
}
