/** Which references and which label a hydration run leaves on a node, read off the texts. */
module HydrationLaws {
  import opened Outcomes
  import opened Sequences
  import opened Labels
  import opened LabelLaws
  import opened Hydration

  /** The candidate's text has words and is, up to white space around it, the node's description or its label,
      or it is what the label was made from. */
  predicate Corresponds(n: Node, c: Candidate) {
    && Words(c.text) != []
    && (|| Trim(n.fullDescription) == Trim(c.text)
        || Trim(n.shortLabel) == Trim(c.text)
        || Trim(n.shortLabel) == Summarize(c.text, 56))
  }

  lemma MatchExact(n: Node, c: Candidate)
    ensures Matches(n, c) <==> Corresponds(n, c)
  {
    TrimKeepsLabel(c.text, 56);
    SummaryIsNormal(c.text, 56);
  }

  predicate IsSource(n: Node, c: Candidate) { c.usable && Corresponds(n, c) }

  /** A usable candidate of the list that corresponds to the node. */
  predicate Source(n: Node, candidates: seq<Candidate>, c: Candidate) {
    c in candidates && IsSource(n, c)
  }

  lemma SourceIsMatched(n: Node, candidates: seq<Candidate>, c: Candidate)
    ensures Source(n, candidates, c) <==> c in Matched(n, Usable(candidates))
  {
    MatchExact(n, c);
  }

  /** A usable corresponding candidate with the given id. */
  ghost predicate HasSource(n: Node, candidates: seq<Candidate>, id: Id) {
    exists c :: Source(n, candidates, c) && c.id == id
  }

  ghost predicate HasMatch(matched: seq<Candidate>, id: Id) {
    exists c :: c in matched && c.id == id
  }

  lemma SourcesAreMatched(n: Node, candidates: seq<Candidate>, id: Id)
    ensures HasSource(n, candidates, id) <==> HasMatch(Matched(n, Usable(candidates)), id)
  {
    var matched := Matched(n, Usable(candidates));
    if HasSource(n, candidates, id) {
      var c :| Source(n, candidates, c) && c.id == id;
      SourceIsMatched(n, candidates, c);
    }
    if HasMatch(matched, id) {
      var c :| c in matched && c.id == id;
      SourceIsMatched(n, candidates, c);
    }
  }

  /** After a run a node has exactly the references it had and those of its usable corresponding candidates. */
  lemma ReferencedExact(n: Node, candidates: seq<Candidate>, id: Id)
    ensures HasRef(Hydrated(n, Usable(candidates)).refs, id)
      <==> HasRef(n.refs, id) || HasSource(n, candidates, id)
  {
    WithRefsFacts(n.refs, Matched(n, Usable(candidates)), id);
    SourcesAreMatched(n, candidates, id);
  }

  // ---------- the label ----------

  /** The first usable corresponding candidate in the order of the list. */
  ghost predicate FirstSource(n: Node, candidates: seq<Candidate>, i: nat) {
    i < |candidates| && IsSource(n, candidates[i]) && forall j :: 0 <= j < i ==> !IsSource(n, candidates[j])
  }

  lemma {:induction false} FilterFirst(p: Candidate -> bool, s: seq<Candidate>, i: nat)
    requires i < |s| && p(s[i]) && forall j :: 0 <= j < i ==> !p(s[j])
    ensures Filter(p, s) != [] && Filter(p, s)[0] == s[i]
  {
    var n := |s| - 1;
    if i < n {
      FilterFirst(p, s[..n], i);
    } else {
      NoneYet(p, s[..n]);
    }
  }

  lemma {:induction false} NoneYet(p: Candidate -> bool, s: seq<Candidate>)
    requires forall j :: 0 <= j < |s| ==> !p(s[j])
    ensures Filter(p, s) == []
  {
    if s != [] {
      NoneYet(p, s[..|s| - 1]);
    }
  }

  lemma FirstMatched(n: Node, candidates: seq<Candidate>, i: nat)
    requires FirstSource(n, candidates, i)
    ensures var matched := Matched(n, Usable(candidates)); matched != [] && matched[0] == candidates[i]
  {
    var usable, matches := (c: Candidate) => c.usable, (c: Candidate) => Matches(n, c);
    var both := (c: Candidate) => c.usable && Matches(n, c);
    forall j | 0 <= j <= i ensures both(candidates[j]) <==> j == i {
      MatchExact(n, candidates[j]);
    }
    FilterTwice(usable, matches, both, candidates);
    FilterFirst(both, candidates, i);
  }

  lemma {:induction false} SomeFirst(n: Node, candidates: seq<Candidate>)
    ensures (exists i: nat :: FirstSource(n, candidates, i)) <==> exists c :: Source(n, candidates, c)
  {
    if exists i: nat :: FirstSource(n, candidates, i) {
      var i: nat :| FirstSource(n, candidates, i);
      assert Source(n, candidates, candidates[i]);
    }
    if exists c :: Source(n, candidates, c) {
      var c :| Source(n, candidates, c);
      var k :| 0 <= k < |candidates| && candidates[k] == c;
      var i := FirstUpTo(n, candidates, k);
      assert FirstSource(n, candidates, i);
    }
  }

  lemma {:induction false} FirstUpTo(n: Node, candidates: seq<Candidate>, k: nat) returns (i: nat)
    requires k < |candidates| && IsSource(n, candidates[k])
    ensures FirstSource(n, candidates, i)
  {
    if exists j :: 0 <= j < k && IsSource(n, candidates[j]) {
      var j :| 0 <= j < k && IsSource(n, candidates[j]);
      i := FirstUpTo(n, candidates, j);
    } else {
      i := k;
    }
  }

  /** The text the label is made from: the label the node has if it has words, and otherwise the text of the
      first corresponding candidate. */
  ghost predicate LabelledFrom(n: Node, c: Candidate, shown: Text) {
    shown == Summarize(if Words(n.shortLabel) != [] then n.shortLabel else c.text, 56)
  }

  lemma LabelOf(n: Node, candidates: seq<Candidate>, i: nat)
    requires FirstSource(n, candidates, i)
    ensures Matched(n, Usable(candidates)) != []
    ensures LabelledFrom(n, candidates[i], PreferredLabel(n, Matched(n, Usable(candidates))))
  {
    FirstMatched(n, candidates, i);
    TrimKeepsLabel(n.shortLabel, 56);
    NoWords(candidates[i].text);
  }

  /** Nothing in the label or the references is left to change. */
  ghost predicate UpToDate(n: Node, candidates: seq<Candidate>) {
    && (forall c :: Source(n, candidates, c) ==> HasRef(n.refs, c.id))
    && var t := Trim(n.shortLabel);
       && t != [] && Collapsed(t)
       && (|t| <= 56 || LooksCut(t, 56))
  }

  /** A run patches a node exactly if some usable candidate corresponds to it and one of those is not referenced
      yet or the node's label is not a label yet; then the label is made from the node's own label or, if that
      is blank, from the first corresponding candidate, and the description and the id stay. */
  lemma PatchExact(n: Node, candidates: seq<Candidate>)
    ensures Patched(n, Usable(candidates))
      <==> (exists i: nat :: FirstSource(n, candidates, i)) && !UpToDate(n, candidates)
    ensures var h := Hydrated(n, Usable(candidates));
      && h.id == n.id && h.fullDescription == n.fullDescription
      && (Patched(n, Usable(candidates)) ==>
            exists i: nat :: FirstSource(n, candidates, i) && LabelledFrom(n, candidates[i], h.shortLabel))
  {
    if exists i: nat :: FirstSource(n, candidates, i) {
      var i: nat :| FirstSource(n, candidates, i);
      LabelOf(n, candidates, i);
      PatchedIfFirst(n, candidates, i);
    } else {
      SomeFirst(n, candidates);
      NothingMatched(n, candidates);
    }
  }

  lemma NothingMatched(n: Node, candidates: seq<Candidate>)
    requires forall c :: !Source(n, candidates, c)
    ensures Matched(n, Usable(candidates)) == []
  {
    var matched := Matched(n, Usable(candidates));
    if matched != [] {
      SourceIsMatched(n, candidates, matched[0]);
    }
  }

  lemma PatchedIfFirst(n: Node, candidates: seq<Candidate>, i: nat)
    requires FirstSource(n, candidates, i)
    ensures Patched(n, Usable(candidates)) <==> !UpToDate(n, candidates)
  {
    LabelOf(n, candidates, i);
    RefsChangeExact(n, Usable(candidates));
    UnreferencedExact(n, candidates);
    LabelKeptExact(n, candidates[i], PreferredLabel(n, Matched(n, Usable(candidates))));
  }

  lemma UnreferencedExact(n: Node, candidates: seq<Candidate>)
    ensures Unreferenced(n, Usable(candidates)) <==> exists c :: Source(n, candidates, c) && !HasRef(n.refs, c.id)
  {
    forall c ensures Source(n, candidates, c) <==> c in Usable(candidates) && Matches(n, c) {
      MatchExact(n, c);
    }
    if exists c :: Source(n, candidates, c) && !HasRef(n.refs, c.id) {
      var c :| Source(n, candidates, c) && !HasRef(n.refs, c.id);
      assert c in Usable(candidates) && Matches(n, c);
    }
  }

  lemma LabelKeptExact(n: Node, c: Candidate, shown: Text)
    requires LabelledFrom(n, c, shown)
    ensures var t := Trim(n.shortLabel);
      shown == t
      <==> && t != [] && Collapsed(t)
           && (|t| <= 56 || LooksCut(t, 56))
  {
    TrimKeepsLabel(n.shortLabel, 56);
    SummaryIsNormal(c.text, 56);
    TrimTrims(n.shortLabel);
    if Trim(n.shortLabel) != [] {
      IsLabelExact(Trim(n.shortLabel), 56);
    }
  }

  /** A run reports the ids of the nodes it patches, in the order of the graph. */
  lemma {:induction false} PatchedIdsExact(nodes: seq<Node>, confirmed: seq<Candidate>)
    ensures PatchedIds(nodes, confirmed) == Map(IdOf, Filter((n: Node) => Patched(n, confirmed), nodes))
  {
    if nodes != [] {
      var rest, last := nodes[..|nodes| - 1], nodes[|nodes| - 1];
      var patched := (n: Node) => Patched(n, confirmed);
      PatchedIdsExact(rest, confirmed);
      if Patched(last, confirmed) {
        var f := Filter(patched, rest);
        MapNext(IdOf, f + [last], |f|);
        assert (f + [last])[..|f|] == f && (f + [last])[..|f| + 1] == f + [last];
      }
    }
  }
}
