/** Hydration of confirmed candidates into the graph: matched nodes get source references and a short
    label, until a run patches nothing. */
module Hydration {
  import opened Outcomes
  import opened Sequences
  import opened Labels

  type Id(==, !new)

  const MAX_LABEL := 56

  /** A candidate; `usable` says that it is confirmed and has a candidate id and a source id. */
  datatype Candidate = Candidate(id: Id, text: Text, usable: bool)

  /** A source reference and the candidate id it carries, if any. */
  datatype Ref = Ref(candidate: Option<Id>)

  datatype Node = Node(id: Id, shortLabel: Text, fullDescription: Text, refs: seq<Ref>)

  function Usable(candidates: seq<Candidate>): seq<Candidate> {
    Filter((c: Candidate) => c.usable, candidates)
  }

  /** `isNodeMatchedByCandidate` */
  predicate Matches(n: Node, c: Candidate) {
    var text, short, full := Trim(c.text), Trim(n.shortLabel), Trim(n.fullDescription);
    && text != []
    && (short != [] || full != [])
    && (full == text || short == text || short == Summarize(text, MAX_LABEL))
  }

  function Matched(n: Node, confirmed: seq<Candidate>): seq<Candidate> {
    Filter((c: Candidate) => Matches(n, c), confirmed)
  }

  predicate HasRef(refs: seq<Ref>, id: Id) {
    Ref(Some(id)) in refs
  }

  /** The references after the loop over the matched candidates. */
  function WithRefs(refs: seq<Ref>, matched: seq<Candidate>): seq<Ref> {
    if matched == [] then refs
    else
      var before, c := WithRefs(refs, matched[..|matched| - 1]), matched[|matched| - 1];
      if HasRef(before, c.id) then before else before + [Ref(Some(c.id))]
  }

  /** `currentLabel || matched[0].text || node.full_description` */
  function LabelText(n: Node, matched: seq<Candidate>): Text
    requires matched != []
  {
    if Trim(n.shortLabel) != [] then Trim(n.shortLabel)
    else if matched[0].text != [] then matched[0].text
    else n.fullDescription
  }

  function PreferredLabel(n: Node, matched: seq<Candidate>): Text
    requires matched != []
  {
    Summarize(LabelText(n, matched), MAX_LABEL)
  }

  /** Whether the run sends a patch for a node. */
  predicate Patched(n: Node, confirmed: seq<Candidate>) {
    var matched := Matched(n, confirmed);
    matched != [] && (WithRefs(n.refs, matched) != n.refs || PreferredLabel(n, matched) != Trim(n.shortLabel))
  }

  /** The node a run leaves on a server that stores patches. */
  function Hydrated(n: Node, confirmed: seq<Candidate>): Node {
    var matched := Matched(n, confirmed);
    if Patched(n, confirmed) then n.(shortLabel := PreferredLabel(n, matched), refs := WithRefs(n.refs, matched)) else n
  }

  function HydrateWith(confirmed: seq<Candidate>): Node -> Node {
    (n: Node) => Hydrated(n, confirmed)
  }

  function IdOf(n: Node): Id { n.id }

  // ---------- the code ----------

  class GraphServer {
    var nodes: seq<Node>

    constructor (nodes: seq<Node>)
      ensures this.nodes == nodes
    {
      this.nodes := nodes;
    }

    method PatchNode(id: Id, shortLabel: Text, refs: seq<Ref>)
      modifies this
      ensures nodes == Map(PatchOne(id, shortLabel, refs), old(nodes))
    {
      nodes := Map(PatchOne(id, shortLabel, refs), nodes);
    }
  }

  function PatchOne(id: Id, shortLabel: Text, refs: seq<Ref>): Node -> Node {
    (n: Node) => if n.id == id then n.(shortLabel := shortLabel, refs := refs) else n
  }

  method AppendRefs(refs: seq<Ref>, matched: seq<Candidate>) returns (existing: seq<Ref>, changed: bool)
    ensures existing == WithRefs(refs, matched)
    ensures changed <==> existing != refs
  {
    existing, changed := refs, false;
    for i := 0 to |matched|
      invariant existing == WithRefs(refs, matched[..i])
      invariant refs <= existing && (changed <==> |existing| > |refs|)
    {
      assert matched[..i + 1][..i] == matched[..i];
      if !HasRef(existing, matched[i].id) {
        existing, changed := existing + [Ref(Some(matched[i].id))], true;
      }
    }
    assert matched[..|matched|] == matched;
  }

  /** The server during a run: the first i nodes of the graph that was read are done. */
  function Underway(graph: seq<Node>, confirmed: seq<Candidate>, i: nat): seq<Node>
    requires i <= |graph|
  {
    Map(HydrateWith(confirmed), graph[..i]) + graph[i..]
  }

  /** The server after the loop body for one node. */
  function AfterNode(now: seq<Node>, n: Node, confirmed: seq<Candidate>): seq<Node> {
    var h := Hydrated(n, confirmed);
    if Patched(n, confirmed) then Map(PatchOne(n.id, h.shortLabel, h.refs), now) else now
  }

  lemma NodeIsStep(graph: seq<Node>, confirmed: seq<Candidate>, i: nat)
    requires i < |graph| && Distinct(Map(IdOf, graph))
    ensures AfterNode(Underway(graph, confirmed, i), graph[i], confirmed) == Underway(graph, confirmed, i + 1)
  {
    MapNext(HydrateWith(confirmed), graph, i);
    var n, now, next := graph[i], Underway(graph, confirmed, i), Underway(graph, confirmed, i + 1);
    var patch := PatchOne(n.id, Hydrated(n, confirmed).shortLabel, Hydrated(n, confirmed).refs);
    assert now[i] == n && next[i] == Hydrated(n, confirmed);
    forall j | 0 <= j < |graph| && j != i ensures now[j].id != n.id && now[j] == next[j] {
      assert Map(IdOf, graph)[j] != Map(IdOf, graph)[i];
    }
    forall j | 0 <= j < |graph| ensures AfterNode(now, n, confirmed)[j] == next[j] {
    }
  }

  lemma PatchedIdsNext(graph: seq<Node>, confirmed: seq<Candidate>, i: nat)
    requires i < |graph|
    ensures PatchedIds(graph[..i + 1], confirmed)
            == if Patched(graph[i], confirmed) then PatchedIds(graph[..i], confirmed) + [graph[i].id]
                else PatchedIds(graph[..i], confirmed)
  {
    assert graph[..i + 1][..i] == graph[..i];
  }

  /** The loop body: patch the node unless neither its references nor its label change. */
  method HydrateNode(server: GraphServer, node: Node, confirmed: seq<Candidate>) returns (done: bool)
    modifies server
    ensures done <==> Patched(node, confirmed)
    ensures server.nodes == AfterNode(old(server.nodes), node, confirmed)
  {
    var matched := Matched(node, confirmed);
    if matched == [] {
      return false;
    }
    var refs, changed := AppendRefs(node.refs, matched);
    var preferred := PreferredLabel(node, matched);
    done := changed || preferred != Trim(node.shortLabel);
    if done {
      server.PatchNode(node.id, preferred, refs);
    }
  }

  /** `hydrateConfirmedCandidatesToGraph` against a server that stores patches. */
  method Hydrate(server: GraphServer, candidates: seq<Candidate>) returns (patchedIds: seq<Id>)
    requires Distinct(Map(IdOf, server.nodes))
    modifies server
    ensures server.nodes == Map(HydrateWith(Usable(candidates)), old(server.nodes))
    ensures patchedIds == PatchedIds(old(server.nodes), Usable(candidates))
  {
    patchedIds := [];
    var confirmed := Usable(candidates);
    var graph := server.nodes;
    if confirmed == [] {
      NothingConfirmed(graph);
      return;
    }
    for i := 0 to |graph|
      invariant server.nodes == Underway(graph, confirmed, i)
      invariant patchedIds == PatchedIds(graph[..i], confirmed)
    {
      NodeIsStep(graph, confirmed, i);
      PatchedIdsNext(graph, confirmed, i);
      var done := HydrateNode(server, graph[i], confirmed);
      if done {
        patchedIds := patchedIds + [graph[i].id];
      }
    }
    assert graph[..|graph|] == graph;
  }

  function PatchedIds(nodes: seq<Node>, confirmed: seq<Candidate>): seq<Id> {
    if nodes == [] then []
    else
      var last := nodes[|nodes| - 1];
      PatchedIds(nodes[..|nodes| - 1], confirmed) + (if Patched(last, confirmed) then [last.id] else [])
  }

  lemma {:induction false} NothingConfirmed(nodes: seq<Node>)
    ensures Map(HydrateWith([]), nodes) == nodes && PatchedIds(nodes, []) == []
  {
    if nodes != [] {
      NothingConfirmed(nodes[..|nodes| - 1]);
    }
  }

  // ---------- references only grow ----------

  function CountRef(refs: seq<Ref>, id: Id): nat { multiset(refs)[Ref(Some(id))] }

  /** The loop appends: a candidate id already there is not appended, a new one once. */
  lemma {:induction false} WithRefsFacts(refs: seq<Ref>, matched: seq<Candidate>, id: Id)
    ensures refs <= WithRefs(refs, matched)
    ensures HasRef(WithRefs(refs, matched), id) <==> HasRef(refs, id) || exists c :: c in matched && c.id == id
    ensures CountRef(WithRefs(refs, matched), id)
            == if HasRef(refs, id) || !HasRef(WithRefs(refs, matched), id) then CountRef(refs, id) else 1
  {
    if matched != [] {
      var rest, last := matched[..|matched| - 1], matched[|matched| - 1];
      assert matched == rest + [last];
      WithRefsFacts(refs, rest, id);
      NotThere(WithRefs(refs, rest), id);
    } else {
      NotThere(refs, id);
    }
  }

  lemma NotThere(refs: seq<Ref>, id: Id)
    ensures HasRef(refs, id) <==> CountRef(refs, id) > 0
  {
  }

  /** The graph after one run for each list of confirmed candidates. */
  function AfterRuns(n: Node, runs: seq<seq<Candidate>>): Node {
    if runs == [] then n else Hydrated(AfterRuns(n, runs[..|runs| - 1]), runs[|runs| - 1])
  }

  /** Over any runs with any candidates: references are only appended, and none of them appends a
      candidate id that the node already has, so each id is appended at most once. */
  lemma {:induction false} RefsOnlyGrow(n: Node, runs: seq<seq<Candidate>>, id: Id)
    ensures n.refs <= AfterRuns(n, runs).refs
    ensures CountRef(AfterRuns(n, runs).refs, id) >= CountRef(n.refs, id)
    ensures CountRef(AfterRuns(n, runs).refs, id) <= if HasRef(n.refs, id) then CountRef(n.refs, id) else 1
  {
    NotThere(n.refs, id);
    if runs != [] {
      var before, confirmed := AfterRuns(n, runs[..|runs| - 1]), runs[|runs| - 1];
      RefsOnlyGrow(n, runs[..|runs| - 1], id);
      WithRefsFacts(before.refs, Matched(before, confirmed), id);
      NotThere(before.refs, id);
    }
  }

  // ---------- convergence ----------

  /** A patched label is its own preferred label from then on. */
  lemma LabelSettles(n: Node, confirmed: seq<Candidate>, matched: seq<Candidate>)
    requires Patched(n, confirmed) && matched != []
    ensures var h := Hydrated(n, confirmed);
      PreferredLabel(h, matched) == h.shortLabel == Trim(h.shortLabel)
  {
    var text := LabelText(n, Matched(n, confirmed));
    SummaryIsNormal(text, MAX_LABEL);
    SummarizeIdempotent(text, MAX_LABEL);
  }

  /** What matched before the patch still matches after it. */
  lemma MatchedStays(n: Node, confirmed: seq<Candidate>, c: Candidate)
    requires Patched(n, confirmed) && Matches(n, c)
    ensures Matches(Hydrated(n, confirmed), c)
  {
    var text, short := Trim(c.text), Trim(n.shortLabel);
    var h := Hydrated(n, confirmed);
    SummaryIsNormal(LabelText(n, Matched(n, confirmed)), MAX_LABEL);
    SummarizeIdempotent(text, MAX_LABEL);
    if short == text || short == Summarize(text, MAX_LABEL) {
      SummaryIsNormal(text, MAX_LABEL);
      assert h.shortLabel == Summarize(short, MAX_LABEL) == Summarize(text, MAX_LABEL);
    }
  }

  /** The candidates that match n and are not yet among its references. */
  ghost predicate Unreferenced(n: Node, confirmed: seq<Candidate>) {
    exists c :: c in confirmed && Matches(n, c) && !HasRef(n.refs, c.id)
  }

  lemma RefsChangeExact(n: Node, confirmed: seq<Candidate>)
    ensures WithRefs(n.refs, Matched(n, confirmed)) != n.refs <==> Unreferenced(n, confirmed)
  {
    var matched := Matched(n, confirmed);
    if Unreferenced(n, confirmed) {
      var c :| c in confirmed && Matches(n, c) && !HasRef(n.refs, c.id);
      assert c in matched;
      WithRefsFacts(n.refs, matched, c.id);
    } else {
      AllReferenced(n.refs, matched);
    }
  }

  lemma {:induction false} AllReferenced(refs: seq<Ref>, matched: seq<Candidate>)
    requires forall c :: c in matched ==> HasRef(refs, c.id)
    ensures WithRefs(refs, matched) == refs
  {
    if matched != [] {
      assert matched[|matched| - 1] in matched && forall c :: c in matched[..|matched| - 1] ==> c in matched;
      AllReferenced(refs, matched[..|matched| - 1]);
    }
  }

  /** The short label matches the candidate's text, or the label made from it. */
  predicate LeadsTo(short: Text, c: Candidate) {
    var text := Trim(c.text);
    text != [] && (short == text || short == Summarize(text, MAX_LABEL))
  }

  /** The label that n gets matches a candidate that is not among n's references and shares its id
      with none of the candidates that matched n. */
  ghost predicate LeadsFurther(n: Node, confirmed: seq<Candidate>)
    requires Matched(n, confirmed) != []
  {
    var matched := Matched(n, confirmed);
    exists c :: c in confirmed && LeadsTo(PreferredLabel(n, matched), c) && IsNew(n, matched, c)
  }

  ghost predicate IsNew(n: Node, matched: seq<Candidate>, c: Candidate) {
    !HasRef(n.refs, c.id) && forall m :: m in matched ==> m.id != c.id
  }

  /** A new candidate matches the patched node exactly when the new label leads to it. */
  lemma NewMatchExact(n: Node, confirmed: seq<Candidate>, c: Candidate)
    requires Patched(n, confirmed) && c in confirmed
    ensures var h, matched := Hydrated(n, confirmed), Matched(n, confirmed);
      Matches(h, c) && !HasRef(h.refs, c.id) <==> LeadsTo(PreferredLabel(n, matched), c) && IsNew(n, matched, c)
  {
    var matched := Matched(n, confirmed);
    SummaryIsNormal(LabelText(n, matched), MAX_LABEL);
    LabelSettles(n, confirmed, matched);
    WithRefsFacts(n.refs, matched, c.id);
    if Matches(n, c) {
      assert c in matched;
    }
  }

  /** The second run patches a node again exactly when the first one patched it and the label it got
      leads to a new candidate. */
  lemma SecondRunExact(n: Node, confirmed: seq<Candidate>)
    ensures Patched(Hydrated(n, confirmed), confirmed) <==> Patched(n, confirmed) && LeadsFurther(n, confirmed)
  {
    PatchedTwice(n, confirmed);
    if Patched(n, confirmed) {
      forall c | c in confirmed
        ensures Matches(Hydrated(n, confirmed), c) && !HasRef(Hydrated(n, confirmed).refs, c.id)
            <==> LeadsTo(PreferredLabel(n, Matched(n, confirmed)), c) && IsNew(n, Matched(n, confirmed), c)
      {
        NewMatchExact(n, confirmed, c);
      }
    }
  }

  lemma PatchedTwice(n: Node, confirmed: seq<Candidate>)
    ensures Patched(Hydrated(n, confirmed), confirmed)
      <==> Patched(n, confirmed) && Unreferenced(Hydrated(n, confirmed), confirmed)
  {
    var h := Hydrated(n, confirmed);
    RefsChangeExact(h, confirmed);
    if Patched(n, confirmed) && Matched(h, confirmed) != [] {
      LabelSettles(n, confirmed, Matched(h, confirmed));
    }
  }

  /** After a patch every candidate that matched is referenced. */
  lemma MatchedGetReferenced(n: Node, confirmed: seq<Candidate>, c: Candidate)
    requires Patched(n, confirmed) && c in confirmed && Matches(n, c)
    ensures HasRef(Hydrated(n, confirmed).refs, c.id)
  {
    assert c in Matched(n, confirmed);
    WithRefsFacts(n.refs, Matched(n, confirmed), c.id);
  }

  /** A tab between two letters, and the label it is normalized to. */
  const WIDE: Text := [0x61, 0x9, 0x62]
  const NARROW: Text := [0x61, SPACE, 0x62]

  lemma WideCollapses()
    ensures Collapse(WIDE) == NARROW && Collapse(NARROW) == NARROW
  {
    CollapseNext([], 0x61);
    CollapseNext([0x61], 0x9);
    CollapseNext([0x61], SPACE);
    CollapseNext([0x61, 0x9], 0x62);
    CollapseNext([0x61, SPACE], 0x62);
    assert [] + [0x61] == [0x61] && [0x61] + [0x9] == [0x61, 0x9] && [0x61, 0x9] + [0x62] == WIDE;
    assert [0x61] + [SPACE] == [0x61, SPACE] && [0x61, SPACE] + [0x62] == NARROW;
  }

  lemma WideTrims()
    ensures Trim(WIDE) == WIDE && Trim(NARROW) == NARROW
  {
    TrimmedIsFixed(WIDE);
    TrimmedIsFixed(NARROW);
  }

  lemma WideSummary()
    ensures Trim(WIDE) == WIDE && Trim(NARROW) == NARROW
    ensures Summarize(WIDE, MAX_LABEL) == NARROW && Summarize(NARROW, MAX_LABEL) == NARROW
  {
    WideTrims();
    WideCollapses();
  }

  lemma CollapseNext(s: Text, u: Unit)
    ensures var c := Collapse(s);
      Collapse(s + [u]) == if !IsSpace(u) then c + [u] else if c != [] && c[|c| - 1] == SPACE then c else c + [SPACE]
  {
    assert (s + [u])[..|s|] == s;
  }

  /** The second run may still add a reference: normalizing the label of a node that one candidate
      matched makes it match another. */
  lemma SecondRunMayAdd(node: Id, a: Id, b: Id)
    requires a != b
    ensures var n, confirmed := Node(node, WIDE, [], []), [Candidate(a, WIDE, true), Candidate(b, NARROW, true)];
      Patched(n, confirmed) && Patched(Hydrated(n, confirmed), confirmed)
  {
    var n := Node(node, WIDE, [], []);
    var wide, narrow := Candidate(a, WIDE, true), Candidate(b, NARROW, true);
    var confirmed := [wide, narrow];
    WideSummary();
    assert Trim([]) == [];
    assert confirmed[0] == wide && confirmed[1] == narrow;
    assert Matches(n, wide) && !Matches(n, narrow);
    assert wide in Matched(n, confirmed) && forall c :: c in Matched(n, confirmed) ==> c == wide;
    RefsChangeExact(n, confirmed);
    var h := Hydrated(n, confirmed);
    assert h.shortLabel == NARROW;
    WithRefsFacts([], Matched(n, confirmed), b);
    assert Matches(h, narrow) && !HasRef(h.refs, b);
    PatchedTwice(n, confirmed);
  }

  /** The third run patches nothing. */
  lemma ThirdRunIdle(n: Node, confirmed: seq<Candidate>)
    ensures var h := Hydrated(Hydrated(n, confirmed), confirmed);
      !Patched(h, confirmed) && Hydrated(h, confirmed) == h
  {
    var one := Hydrated(n, confirmed);
    var two := Hydrated(one, confirmed);
    if Patched(n, confirmed) && Patched(one, confirmed) {
      PatchedTwice(one, confirmed);
      LabelSettles(n, confirmed, Matched(one, confirmed));
      forall c | c in confirmed && Matches(two, c) ensures HasRef(two.refs, c.id) {
        assert Matches(one, c);
        MatchedGetReferenced(one, confirmed, c);
      }
    }
  }

  /** Whatever the graph and the candidates, two runs are enough. */
  lemma HydrationConverges(nodes: seq<Node>, confirmed: seq<Candidate>)
    ensures var h := HydrateWith(confirmed);
      var twice := Map(h, Map(h, nodes));
      Map(h, twice) == twice && PatchedIds(twice, confirmed) == []
  {
    var h := HydrateWith(confirmed);
    var twice := Map(h, Map(h, nodes));
    forall i | 0 <= i < |nodes| ensures h(twice[i]) == twice[i] && !Patched(twice[i], confirmed) {
      ThirdRunIdle(nodes[i], confirmed);
    }
    NonePatched(twice, confirmed);
  }

  lemma {:induction false} NonePatched(nodes: seq<Node>, confirmed: seq<Candidate>)
    requires forall i :: 0 <= i < |nodes| ==> !Patched(nodes[i], confirmed)
    ensures PatchedIds(nodes, confirmed) == []
  {
    if nodes != [] {
      NonePatched(nodes[..|nodes| - 1], confirmed);
    }
  }
}
