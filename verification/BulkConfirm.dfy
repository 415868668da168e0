/** The conflict-tolerant bulk confirm of the candidate page, against the confirmation service it
    talks to. */
module BulkConfirm {
  import opened Outcomes
  import opened Sequences

  type Id(==, !new)
  type Workspace(==, !new)
  type Kind(==, !new)

  /** A candidate text after the service's normalization. */
  type Key(==, !new)

  datatype Status = Pending | Confirmed | Rejected
  datatype Candidate = Candidate(workspace: Workspace, kind: Kind, key: Key, status: Status)

  /** The stored candidates, the confirmed object of each text, how many transactions ran, and how many
      reject requests were sent. */
  datatype Server = Server(
    candidates: map<Id, Candidate>,
    objects: map<(Workspace, Key), Kind>,
    transactions: nat,
    rejections: nat)

  /** Which transactions commit, and which reject requests reach the service. */
  datatype Faults = Faults(commits: nat -> bool, rejects: nat -> bool)

  datatype Answer = Done | NotFound | WrongWorkspace | InvalidState | Duplicate | CrossType | Unavailable

  datatype Reply = Reply(server: Server, answer: Answer)

  // ---------- the service ----------

  function SetStatus(s: Server, id: Id, status: Status): Server
    requires id in s.candidates
  {
    s.(candidates := s.candidates[id := s.candidates[id].(status := status)])
  }

  /** `confirm` of the service. */
  function Confirm(s: Server, ws: Workspace, id: Id, f: Faults): Reply {
    if id !in s.candidates then Reply(s, NotFound)
    else
      var c := s.candidates[id];
      if c.workspace != ws then Reply(s, WrongWorkspace)
      else if !c.status.Pending? then Reply(s, InvalidState)
      else if (ws, c.key) in s.objects then
        Reply(s, if s.objects[(ws, c.key)] == c.kind then Duplicate else CrossType)
      else if !f.commits(s.transactions) then Reply(s.(transactions := s.transactions + 1), Unavailable)
      else
        var t := SetStatus(s, id, Confirmed);
        Reply(t.(objects := s.objects[(ws, c.key) := c.kind], transactions := s.transactions + 1), Done)
  }

  function Reject(s: Server, ws: Workspace, id: Id): Reply {
    if id !in s.candidates then Reply(s, NotFound)
    else if s.candidates[id].workspace != ws then Reply(s, WrongWorkspace)
    else if !s.candidates[id].status.Pending? then Reply(s, InvalidState)
    else Reply(SetStatus(s, id, Rejected), Done)
  }

  /** The confirm endpoint: one candidate after the other, each committed on its own, up to the first
      error. */
  function ConfirmAll(s: Server, ws: Workspace, ids: seq<Id>, f: Faults): Reply {
    if ids == [] then Reply(s, Done)
    else
      var before := ConfirmAll(s, ws, ids[..|ids| - 1], f);
      if before.answer.Done? then Confirm(before.server, ws, ids[|ids| - 1], f) else before
  }

  // ---------- the client ----------

  datatype Outcome = NowConfirmed | SkippedConflict | AlreadyHandled

  predicate Tolerated(a: Answer) { a.Duplicate? || a.InvalidState? }

  /** The client's reject request, which may fail without the service seeing it. */
  function TryReject(s: Server, ws: Workspace, id: Id, f: Faults): Server {
    var sent := s.(rejections := s.rejections + 1);
    if f.rejects(s.rejections) then Reject(sent, ws, id).server else sent
  }

  /** One pass of the fallback loop; None when it throws. Whether the rejection of a duplicate succeeds
      makes no difference to the outcome. */
  function Handle(s: Server, ws: Workspace, id: Id, f: Faults): (Server, Option<Outcome>) {
    var r := Confirm(s, ws, id, f);
    match r.answer
    case Done => (r.server, Some(NowConfirmed))
    case Duplicate => (TryReject(r.server, ws, id, f), Some(SkippedConflict))
    case InvalidState => (r.server, Some(AlreadyHandled))
    case _ => (r.server, None)
  }

  /** The state of the fallback loop: the server, the outcomes so far, and whether it threw. */
  datatype Loop = Loop(server: Server, outcomes: seq<Outcome>, threw: bool)

  function OneByOne(s: Server, ws: Workspace, ids: seq<Id>, f: Faults): Loop {
    if ids == [] then Loop(s, [], false)
    else
      var before := OneByOne(s, ws, ids[..|ids| - 1], f);
      if before.threw then before
      else
        var (s', o) := Handle(before.server, ws, ids[|ids| - 1], f);
        Loop(s', if o.Some? then before.outcomes + [o.value] else before.outcomes, o.None?)
  }

  function AllConfirmed(ids: seq<Id>): seq<Outcome> {
    seq(|ids|, _ => NowConfirmed)
  }

  /** The whole call: the bulk request, and the loop if it fails for a tolerated reason. */
  function Bulk(s: Server, ws: Workspace, ids: seq<Id>, f: Faults): Loop {
    var r := ConfirmAll(s, ws, ids, f);
    if r.answer.Done? then Loop(r.server, AllConfirmed(ids), false)
    else if Tolerated(r.answer) then OneByOne(r.server, ws, ids, f)
    else Loop(r.server, [], true)
  }

  /** The ids with a given outcome, in input order. */
  function With(ids: seq<Id>, outcomes: seq<Outcome>, o: Outcome): seq<Id>
    requires |outcomes| == |ids|
  {
    if ids == [] then []
    else
      var n := |ids| - 1;
      With(ids[..n], outcomes[..n], o) + (if outcomes[n] == o then [ids[n]] else [])
  }

  class ResearchServer {
    var candidates: map<Id, Candidate>
    var objects: map<(Workspace, Key), Kind>
    var transactions: nat
    var rejections: nat

    function State(): Server
      reads this
    {
      Server(candidates, objects, transactions, rejections)
    }

    constructor (s: Server)
      ensures State() == s
    {
      candidates, objects := s.candidates, s.objects;
      transactions, rejections := s.transactions, s.rejections;
    }

    method ConfirmOne(ws: Workspace, id: Id, f: Faults) returns (answer: Answer)
      modifies this
      ensures Reply(State(), answer) == old(Confirm(State(), ws, id, f))
    {
      if id !in candidates {
        return NotFound;
      }
      var c := candidates[id];
      if c.workspace != ws {
        return WrongWorkspace;
      }
      if !c.status.Pending? {
        return InvalidState;
      }
      if (ws, c.key) in objects {
        return if objects[(ws, c.key)] == c.kind then Duplicate else CrossType;
      }
      transactions := transactions + 1;
      if !f.commits(transactions - 1) {
        return Unavailable;
      }
      objects := objects[(ws, c.key) := c.kind];
      candidates := candidates[id := c.(status := Confirmed)];
      answer := Done;
    }

    method RejectOne(ws: Workspace, id: Id) returns (answer: Answer)
      modifies this
      ensures Reply(State(), answer) == old(Reject(State(), ws, id))
    {
      if id !in candidates {
        return NotFound;
      }
      if candidates[id].workspace != ws {
        return WrongWorkspace;
      }
      if !candidates[id].status.Pending? {
        return InvalidState;
      }
      candidates := candidates[id := candidates[id].(status := Rejected)];
      answer := Done;
    }

    /** The client's reject request: an exception, `Raised`, says that the service did not see it. */
    method RejectCandidate(ws: Workspace, id: Id, f: Faults) returns (answer: Try<Answer>)
      modifies this
      ensures State() == old(TryReject(State(), ws, id, f))
      ensures answer.Raised? <==> !f.rejects(old(rejections))
      ensures answer.Returned? ==> answer.value == old(Reject(State(), ws, id).answer)
    {
      rejections := rejections + 1;
      if !f.rejects(rejections - 1) {
        return Raised;
      }
      var a := RejectOne(ws, id);
      answer := Returned(a);
    }

    method ConfirmCandidates(ws: Workspace, ids: seq<Id>, f: Faults) returns (answer: Answer)
      modifies this
      ensures Reply(State(), answer) == old(ConfirmAll(State(), ws, ids, f))
    {
      answer := Done;
      for i := 0 to |ids|
        invariant Reply(State(), Done) == old(ConfirmAll(State(), ws, ids[..i], f))
      {
        assert ids[..i + 1][..i] == ids[..i];
        answer := ConfirmOne(ws, ids[i], f);
        if !answer.Done? {
          FirstErrorStops(old(State()), ws, ids, i + 1, f);
          return;
        }
      }
      answer := Done;
      assert ids[..|ids|] == ids;
    }
  }

  lemma {:induction false} FirstErrorStops(s: Server, ws: Workspace, ids: seq<Id>, n: nat, f: Faults)
    requires n <= |ids| && !ConfirmAll(s, ws, ids[..n], f).answer.Done?
    ensures ConfirmAll(s, ws, ids, f) == ConfirmAll(s, ws, ids[..n], f)
  {
    if n < |ids| {
      assert ids[..|ids| - 1][..n] == ids[..n];
      FirstErrorStops(s, ws, ids[..|ids| - 1], n, f);
    } else {
      assert ids[..n] == ids;
    }
  }

  // ---------- the client method ----------

  lemma OneIsAll(s: Server, ws: Workspace, id: Id, f: Faults)
    ensures ConfirmAll(s, ws, [id], f) == Confirm(s, ws, id, f)
  {
    assert [id][..0] == [];
    assert ConfirmAll(s, ws, [], f) == Reply(s, Done);
  }

  /** The loop body: confirm one candidate, reject it if it is a duplicate. */
  method HandleOne(server: ResearchServer, ws: Workspace, id: Id, f: Faults) returns (o: Option<Outcome>)
    modifies server
    ensures (server.State(), o) == old(Handle(server.State(), ws, id, f))
  {
    OneIsAll(server.State(), ws, id, f);
    var answer := server.ConfirmCandidates(ws, [id], f);
    match answer {
      case Done => return Some(NowConfirmed);
      case Duplicate =>
        var _ := server.RejectCandidate(ws, id, f);
        return Some(SkippedConflict);
      case InvalidState => return Some(AlreadyHandled);
      case _ => return None;
    }
  }

  /** The three lists the caller gets. */
  function Lists(ids: seq<Id>, outcomes: seq<Outcome>): (seq<Id>, seq<Id>, seq<Id>)
    requires |outcomes| == |ids|
  {
    (With(ids, outcomes, NowConfirmed), With(ids, outcomes, SkippedConflict), With(ids, outcomes, AlreadyHandled))
  }

  lemma WithNext(ids: seq<Id>, i: nat, outcomes: seq<Outcome>, o: Outcome, x: Outcome)
    requires i < |ids| && |outcomes| == i
    ensures With(ids[..i + 1], outcomes + [o], x)
            == if o == x then With(ids[..i], outcomes, x) + [ids[i]] else With(ids[..i], outcomes, x)
  {
    assert ids[..i + 1][..i] == ids[..i] && (outcomes + [o])[..i] == outcomes;
  }

  method PushOutcome(lists: (seq<Id>, seq<Id>, seq<Id>), o: Outcome, ghost outcomes: seq<Outcome>, ids: seq<Id>, i: nat)
    returns (lists': (seq<Id>, seq<Id>, seq<Id>))
    requires i < |ids| && |outcomes| == i && lists == Lists(ids[..i], outcomes)
    ensures lists' == Lists(ids[..i + 1], outcomes + [o])
  {
    WithNext(ids, i, outcomes, o, NowConfirmed);
    WithNext(ids, i, outcomes, o, SkippedConflict);
    WithNext(ids, i, outcomes, o, AlreadyHandled);
    match o {
      case NowConfirmed => lists' := (lists.0 + [ids[i]], lists.1, lists.2);
      case SkippedConflict => lists' := (lists.0, lists.1 + [ids[i]], lists.2);
      case AlreadyHandled => lists' := (lists.0, lists.1, lists.2 + [ids[i]]);
    }
  }

  lemma OneByOneNext(s: Server, ws: Workspace, ids: seq<Id>, i: nat, f: Faults)
    requires i < |ids| && !OneByOne(s, ws, ids[..i], f).threw
    ensures var before := OneByOne(s, ws, ids[..i], f);
      var r := Handle(before.server, ws, ids[i], f);
      OneByOne(s, ws, ids[..i + 1], f)
      == Loop(r.0, if r.1.Some? then before.outcomes + [r.1.value] else before.outcomes, r.1.None?)
  {
    assert ids[..i + 1][..i] == ids[..i];
  }

  method ConfirmEach(server: ResearchServer, ws: Workspace, ids: seq<Id>, f: Faults)
    returns (result: Try<(seq<Id>, seq<Id>, seq<Id>)>)
    modifies server
    ensures var loop := old(OneByOne(server.State(), ws, ids, f));
      && server.State() == loop.server
      && (result.Raised? <==> loop.threw)
      && (result.Returned? ==> |loop.outcomes| == |ids| && result.value == Lists(ids, loop.outcomes))
  {
    ghost var s := server.State();
    var lists: (seq<Id>, seq<Id>, seq<Id>) := ([], [], []);
    ghost var outcomes: seq<Outcome> := [];
    for i := 0 to |ids|
      invariant OneByOne(s, ws, ids[..i], f) == Loop(server.State(), outcomes, false)
      invariant |outcomes| == i && lists == Lists(ids[..i], outcomes)
    {
      OneByOneNext(s, ws, ids, i, f);
      var o := HandleOne(server, ws, ids[i], f);
      if o.None? {
        FirstThrowStops(s, ws, ids, i + 1, f);
        return Raised;
      }
      lists := PushOutcome(lists, o.value, outcomes, ids, i);
      outcomes := outcomes + [o.value];
    }
    assert ids[..|ids|] == ids;
    result := Returned(lists);
  }

  /** `confirmCandidatesWithConflictTolerance`: an exception leaves the server as the requests made so
      far left it. */
  method ConfirmWithTolerance(server: ResearchServer, ws: Workspace, ids: seq<Id>, f: Faults)
    returns (result: Try<(seq<Id>, seq<Id>, seq<Id>)>)
    modifies server
    ensures var b := old(Bulk(server.State(), ws, ids, f));
      && server.State() == b.server
      && (result.Raised? <==> b.threw)
      && (result.Returned? ==> |b.outcomes| == |ids| && result.value == Lists(ids, b.outcomes))
  {
    AllHaveOutcome(ids);
    if ids == [] {
      return Returned(([], [], []));
    }
    var answer := server.ConfirmCandidates(ws, ids, f);
    if answer.Done? {
      return Returned((ids, [], []));
    }
    if !Tolerated(answer) {
      return Raised;
    }
    result := ConfirmEach(server, ws, ids, f);
  }

  lemma {:induction false} AllHaveOutcome(ids: seq<Id>)
    ensures With(ids, AllConfirmed(ids), NowConfirmed) == ids
    ensures With(ids, AllConfirmed(ids), SkippedConflict) == [] && With(ids, AllConfirmed(ids), AlreadyHandled) == []
  {
    if ids != [] {
      var n := |ids| - 1;
      AllHaveOutcome(ids[..n]);
      assert AllConfirmed(ids)[..n] == AllConfirmed(ids[..n]);
    }
  }

  lemma {:induction false} FirstThrowStops(s: Server, ws: Workspace, ids: seq<Id>, n: nat, f: Faults)
    requires n <= |ids| && OneByOne(s, ws, ids[..n], f).threw
    ensures OneByOne(s, ws, ids, f) == OneByOne(s, ws, ids[..n], f)
  {
    if n < |ids| {
      assert ids[..|ids| - 1][..n] == ids[..n];
      FirstThrowStops(s, ws, ids[..|ids| - 1], n, f);
    } else {
      assert ids[..n] == ids;
    }
  }

  // ---------- the three lists ----------

  ghost predicate Subsequence(a: seq<Id>, b: seq<Id>) {
    a == [] || (b != [] &&
      (Subsequence(a, b[..|b| - 1]) || (a[|a| - 1] == b[|b| - 1] && Subsequence(a[..|a| - 1], b[..|b| - 1]))))
  }

  lemma WithLast(ids: seq<Id>, outcomes: seq<Outcome>, o: Outcome, x: Id)
    requires |outcomes| == |ids| && ids != []
    ensures var n := |ids| - 1;
      multiset(With(ids, outcomes, o))[x]
      == multiset(With(ids[..n], outcomes[..n], o))[x] + if outcomes[n] == o && ids[n] == x then 1 else 0
  {
  }

  lemma {:induction false} ListsDivide(ids: seq<Id>, outcomes: seq<Outcome>, x: Id)
    requires |outcomes| == |ids|
    ensures multiset(With(ids, outcomes, NowConfirmed))[x] + multiset(With(ids, outcomes, SkippedConflict))[x]
              + multiset(With(ids, outcomes, AlreadyHandled))[x]
            == multiset(ids)[x]
  {
    if ids != [] {
      var n := |ids| - 1;
      ListsDivide(ids[..n], outcomes[..n], x);
      DropLastMultiset(ids);
      WithLast(ids, outcomes, NowConfirmed, x);
      WithLast(ids, outcomes, SkippedConflict, x);
      WithLast(ids, outcomes, AlreadyHandled, x);
    }
  }

  /** The lists divide the input ids among them, and each keeps the input order. */
  lemma ListsPartition(ids: seq<Id>, outcomes: seq<Outcome>)
    requires |outcomes| == |ids|
    ensures var l := Lists(ids, outcomes);
      && multiset(l.0) + multiset(l.1) + multiset(l.2) == multiset(ids)
      && Subsequence(l.0, ids) && Subsequence(l.1, ids) && Subsequence(l.2, ids)
  {
    forall x {
      ListsDivide(ids, outcomes, x);
    }
    WithSubsequence(ids, outcomes, NowConfirmed);
    WithSubsequence(ids, outcomes, SkippedConflict);
    WithSubsequence(ids, outcomes, AlreadyHandled);
  }

  lemma {:induction false} WithSubsequence(ids: seq<Id>, outcomes: seq<Outcome>, o: Outcome)
    requires |outcomes| == |ids|
    ensures Subsequence(With(ids, outcomes, o), ids)
  {
    if ids != [] {
      var n := |ids| - 1;
      WithSubsequence(ids[..n], outcomes[..n], o);
      var before := With(ids[..n], outcomes[..n], o);
      assert (before + [ids[n]])[..|before|] == before;
      assert before + [] == before;
    }
  }

  lemma {:induction false} WithAt(ids: seq<Id>, outcomes: seq<Outcome>, o: Outcome, id: Id)
    requires |outcomes| == |ids|
    ensures id in With(ids, outcomes, o) <==> exists i :: 0 <= i < |ids| && ids[i] == id && outcomes[i] == o
  {
    if ids != [] {
      var n := |ids| - 1;
      WithAt(ids[..n], outcomes[..n], o, id);
      if exists i :: 0 <= i < |ids| && ids[i] == id && outcomes[i] == o {
        var i :| 0 <= i < |ids| && ids[i] == id && outcomes[i] == o;
        if i < n {
          assert ids[..n][i] == id && outcomes[..n][i] == o;
        }
      }
    }
  }

  // ---------- decided candidates stay decided ----------

  /** The candidate's other fields are kept, and its status too once it is decided. */
  ghost predicate Keeps(s: Server, t: Server, id: Id) {
    id in s.candidates ==>
      && id in t.candidates
      && t.candidates[id].(status := Pending) == s.candidates[id].(status := Pending)
      && (!s.candidates[id].status.Pending? ==> t.candidates[id].status == s.candidates[id].status)
  }

  predicate Decided(s: Server, id: Id, status: Status) {
    id in s.candidates && s.candidates[id].status == status
  }

  lemma HandleKeeps(s: Server, ws: Workspace, id: Id, f: Faults, x: Id)
    ensures Keeps(s, Confirm(s, ws, id, f).server, x)
    ensures Keeps(s, Handle(s, ws, id, f).0, x)
  {
  }

  lemma {:induction false} ConfirmAllKeeps(s: Server, ws: Workspace, ids: seq<Id>, f: Faults, x: Id)
    ensures Keeps(s, ConfirmAll(s, ws, ids, f).server, x)
  {
    if ids != [] {
      ConfirmAllKeeps(s, ws, ids[..|ids| - 1], f, x);
      HandleKeeps(ConfirmAll(s, ws, ids[..|ids| - 1], f).server, ws, ids[|ids| - 1], f, x);
    }
  }

  lemma {:induction false} OneByOneKeeps(s: Server, ws: Workspace, ids: seq<Id>, f: Faults, x: Id)
    ensures Keeps(s, OneByOne(s, ws, ids, f).server, x)
  {
    if ids != [] {
      OneByOneKeeps(s, ws, ids[..|ids| - 1], f, x);
      HandleKeeps(OneByOne(s, ws, ids[..|ids| - 1], f).server, ws, ids[|ids| - 1], f, x);
    }
  }

  /** A pending candidate whose text is taken by a confirmed object of its kind. */
  predicate Blocked(s: Server, id: Id) {
    && Decided(s, id, Pending)
    && (s.candidates[id].workspace, s.candidates[id].key) in s.objects
  }

  /** What a reported outcome says about the server. */
  ghost predicate Truthful(s: Server, id: Id, o: Outcome) {
    match o
    case NowConfirmed => Decided(s, id, Confirmed)
    case SkippedConflict => Decided(s, id, Rejected) || Blocked(s, id)
    case AlreadyHandled => Decided(s, id, Confirmed) || Decided(s, id, Rejected)
  }

  lemma HandleTruthful(s: Server, ws: Workspace, id: Id, f: Faults)
    ensures var r := Handle(s, ws, id, f); r.1.Some? ==> Truthful(r.0, id, r.1.value)
  {
  }

  /** What an outcome says stays true while the loop goes on: a taken text is never given up. */
  lemma TruthfulStays(s: Server, ws: Workspace, id: Id, f: Faults, x: Id, o: Outcome)
    requires Truthful(s, x, o)
    ensures Truthful(Handle(s, ws, id, f).0, x, o)
  {
  }

  lemma {:induction false} OneByOneTruthful(s: Server, ws: Workspace, ids: seq<Id>, f: Faults, i: nat)
    requires i < |ids| && !OneByOne(s, ws, ids, f).threw
    ensures var loop := OneByOne(s, ws, ids, f);
      |loop.outcomes| == |ids| && Truthful(loop.server, ids[i], loop.outcomes[i])
  {
    var n := |ids| - 1;
    var before := OneByOne(s, ws, ids[..n], f);
    LastPass(s, ws, ids, f);
    if i < n {
      OneByOneTruthful(s, ws, ids[..n], f, i);
      TruthfulStays(before.server, ws, ids[n], f, ids[i], before.outcomes[i]);
    } else {
      HandleTruthful(before.server, ws, ids[n], f);
    }
  }

  lemma {:induction false} OutcomeCount(s: Server, ws: Workspace, ids: seq<Id>, f: Faults)
    ensures var loop := OneByOne(s, ws, ids, f); !loop.threw ==> |loop.outcomes| == |ids|
  {
    if ids != [] {
      OutcomeCount(s, ws, ids[..|ids| - 1], f);
    }
  }

  lemma {:induction false} ConfirmAllConfirms(s: Server, ws: Workspace, ids: seq<Id>, f: Faults, i: nat)
    requires i < |ids| && ConfirmAll(s, ws, ids, f).answer.Done?
    ensures Decided(ConfirmAll(s, ws, ids, f).server, ids[i], Confirmed)
  {
    var n := |ids| - 1;
    if i < n {
      ConfirmAllConfirms(s, ws, ids[..n], f, i);
      HandleKeeps(ConfirmAll(s, ws, ids[..n], f).server, ws, ids[n], f, ids[i]);
    }
  }

  lemma OutcomeTruthful(s: Server, ws: Workspace, ids: seq<Id>, f: Faults, i: nat)
    requires i < |ids| && !Bulk(s, ws, ids, f).threw
    ensures var b := Bulk(s, ws, ids, f);
      |b.outcomes| == |ids| && Truthful(b.server, ids[i], b.outcomes[i])
  {
    var r := ConfirmAll(s, ws, ids, f);
    if r.answer.Done? {
      ConfirmAllConfirms(s, ws, ids, f, i);
    } else {
      OneByOneTruthful(r.server, ws, ids, f, i);
    }
  }

  lemma BulkCount(s: Server, ws: Workspace, ids: seq<Id>, f: Faults)
    ensures !Bulk(s, ws, ids, f).threw ==> |Bulk(s, ws, ids, f).outcomes| == |ids|
  {
    OutcomeCount(ConfirmAll(s, ws, ids, f).server, ws, ids, f);
  }

  /** When the call returns normally, every id it reports as confirmed is confirmed on the server,
      every one already handled is decided one way or the other, and every skipped one is rejected or
      still pending behind a confirmed object with its text. */
  lemma ReportTruthful(s: Server, ws: Workspace, ids: seq<Id>, f: Faults, o: Outcome, id: Id)
    requires !Bulk(s, ws, ids, f).threw
    ensures var b := Bulk(s, ws, ids, f);
      |b.outcomes| == |ids| && (id in With(ids, b.outcomes, o) ==> Truthful(b.server, id, o))
  {
    var b := Bulk(s, ws, ids, f);
    BulkCount(s, ws, ids, f);
    WithAt(ids, b.outcomes, o, id);
    if id in With(ids, b.outcomes, o) {
      var i :| 0 <= i < |ids| && ids[i] == id && b.outcomes[i] == o;
      OutcomeTruthful(s, ws, ids, f, i);
    }
  }

  // ---------- whether a skipped candidate is rejected ----------

  /** How many reject requests the outcomes stand for. */
  function Skips(outcomes: seq<Outcome>): nat {
    if outcomes == [] then 0
    else Skips(outcomes[..|outcomes| - 1]) + if outcomes[|outcomes| - 1].SkippedConflict? then 1 else 0
  }

  /** Position j skipped id, and the reject request sent for it went through. */
  predicate RejectedAt(ids: seq<Id>, outcomes: seq<Outcome>, sent: nat, f: Faults, id: Id, j: nat)
    requires |outcomes| == |ids|
  {
    j < |ids| && ids[j] == id && outcomes[j].SkippedConflict? && f.rejects(sent + Skips(outcomes[..j]))
  }

  ghost predicate SomeRejection(ids: seq<Id>, outcomes: seq<Outcome>, sent: nat, f: Faults, id: Id)
    requires |outcomes| == |ids|
  {
    exists j: nat :: RejectedAt(ids, outcomes, sent, f, id, j)
  }

  lemma SomeRejectionNext(ids: seq<Id>, outcomes: seq<Outcome>, sent: nat, f: Faults, id: Id)
    requires |outcomes| == |ids| && ids != []
    ensures var n := |ids| - 1;
      SomeRejection(ids, outcomes, sent, f, id)
      <==> SomeRejection(ids[..n], outcomes[..n], sent, f, id) || RejectedAt(ids, outcomes, sent, f, id, n)
  {
    var n := |ids| - 1;
    forall j | 0 <= j < n
      ensures RejectedAt(ids, outcomes, sent, f, id, j) <==> RejectedAt(ids[..n], outcomes[..n], sent, f, id, j)
    {
      assert outcomes[..n][..j] == outcomes[..j];
    }
    if SomeRejection(ids, outcomes, sent, f, id) {
      var j: nat :| RejectedAt(ids, outcomes, sent, f, id, j);
      assert j < n ==> RejectedAt(ids[..n], outcomes[..n], sent, f, id, j);
    }
    if SomeRejection(ids[..n], outcomes[..n], sent, f, id) {
      var j: nat :| RejectedAt(ids[..n], outcomes[..n], sent, f, id, j);
      assert RejectedAt(ids, outcomes, sent, f, id, j);
    }
  }

  lemma {:induction false} RejectionsCounted(s: Server, ws: Workspace, ids: seq<Id>, f: Faults)
    ensures var loop := OneByOne(s, ws, ids, f);
      !loop.threw ==> loop.server.rejections == s.rejections + Skips(loop.outcomes)
  {
    if ids != [] {
      var before := OneByOne(s, ws, ids[..|ids| - 1], f);
      RejectionsCounted(s, ws, ids[..|ids| - 1], f);
      var o := Handle(before.server, ws, ids[|ids| - 1], f).1;
      assert o.Some? ==> (before.outcomes + [o.value])[..|before.outcomes|] == before.outcomes;
    }
  }

  lemma {:induction false} ConfirmAllSendsNoRejection(s: Server, ws: Workspace, ids: seq<Id>, f: Faults)
    ensures ConfirmAll(s, ws, ids, f).server.rejections == s.rejections
  {
    if ids != [] {
      ConfirmAllSendsNoRejection(s, ws, ids[..|ids| - 1], f);
    }
  }

  /** One pass of the loop rejects id exactly if it skips id and the request goes through. */
  lemma HandleRejects(s: Server, ws: Workspace, x: Id, f: Faults, id: Id)
    ensures var r := Handle(s, ws, x, f);
      Decided(r.0, id, Rejected)
      <==> Decided(s, id, Rejected) || (x == id && r.1 == Some(SkippedConflict) && f.rejects(s.rejections))
  {
  }

  /** What the last pass of a loop that returns normally adds. */
  lemma LastPass(s: Server, ws: Workspace, ids: seq<Id>, f: Faults)
    requires ids != [] && !OneByOne(s, ws, ids, f).threw
    ensures var n := |ids| - 1;
      var before, loop := OneByOne(s, ws, ids[..n], f), OneByOne(s, ws, ids, f);
      var r := Handle(before.server, ws, ids[n], f);
      && !before.threw && |before.outcomes| == n
      && r.1.Some? && loop.server == r.0 && loop.outcomes == before.outcomes + [r.1.value]
      && before.server.rejections == s.rejections + Skips(before.outcomes)
  {
    OutcomeCount(s, ws, ids[..|ids| - 1], f);
    RejectionsCounted(s, ws, ids[..|ids| - 1], f);
  }

  lemma {:induction false} LoopRejects(s: Server, ws: Workspace, ids: seq<Id>, f: Faults, id: Id)
    requires !OneByOne(s, ws, ids, f).threw
    ensures var loop := OneByOne(s, ws, ids, f);
      && |loop.outcomes| == |ids|
      && (Decided(loop.server, id, Rejected)
          <==> Decided(s, id, Rejected) || SomeRejection(ids, loop.outcomes, s.rejections, f, id))
  {
    if ids != [] {
      var n := |ids| - 1;
      var before, outcomes := OneByOne(s, ws, ids[..n], f), OneByOne(s, ws, ids, f).outcomes;
      LastPass(s, ws, ids, f);
      LoopRejects(s, ws, ids[..n], f, id);
      HandleRejects(before.server, ws, ids[n], f, id);
      SomeRejectionNext(ids, outcomes, s.rejections, f, id);
      assert outcomes[..n] == before.outcomes;
    }
  }

  lemma {:induction false} ConfirmAllRejectsNone(s: Server, ws: Workspace, ids: seq<Id>, f: Faults, id: Id)
    ensures Decided(ConfirmAll(s, ws, ids, f).server, id, Rejected) <==> Decided(s, id, Rejected)
  {
    if ids != [] {
      ConfirmAllRejectsNone(s, ws, ids[..|ids| - 1], f, id);
    }
  }

  lemma SkippedWasPending(s: Server, ws: Workspace, ids: seq<Id>, f: Faults, i: nat)
    requires i < |ids| && !Bulk(s, ws, ids, f).threw
    requires |Bulk(s, ws, ids, f).outcomes| == |ids| && Bulk(s, ws, ids, f).outcomes[i].SkippedConflict?
    ensures !Decided(s, ids[i], Rejected)
  {
    var r := ConfirmAll(s, ws, ids, f);
    ConfirmAllKeeps(s, ws, ids, f, ids[i]);
    OneByOneSkipsPending(r.server, ws, ids, f, i);
  }

  lemma HandleSkipsPending(s: Server, ws: Workspace, id: Id, f: Faults)
    ensures Handle(s, ws, id, f).1 == Some(SkippedConflict) ==> Decided(s, id, Pending)
  {
  }

  lemma {:induction false} OneByOneSkipsPending(s: Server, ws: Workspace, ids: seq<Id>, f: Faults, i: nat)
    requires i < |ids| && !OneByOne(s, ws, ids, f).threw
    ensures var loop := OneByOne(s, ws, ids, f);
      |loop.outcomes| == |ids| && (loop.outcomes[i].SkippedConflict? ==> !Decided(s, ids[i], Rejected))
  {
    var n := |ids| - 1;
    var before := OneByOne(s, ws, ids[..n], f);
    OutcomeCount(s, ws, ids[..n], f);
    var o := Handle(before.server, ws, ids[n], f).1;
    assert OneByOne(s, ws, ids, f).outcomes == before.outcomes + [o.value];
    if i < n {
      OneByOneSkipsPending(s, ws, ids[..n], f, i);
    } else {
      OneByOneKeeps(s, ws, ids[..n], f, ids[n]);
      HandleSkipsPending(before.server, ws, ids[n], f);
    }
  }

  /** The loop swallows the failure of a reject request. A skipped candidate ends up rejected exactly if
      some reject request sent for it went through, and is still pending otherwise. */
  lemma SkippedExact(s: Server, ws: Workspace, ids: seq<Id>, f: Faults, id: Id)
    requires !Bulk(s, ws, ids, f).threw
    ensures var b := Bulk(s, ws, ids, f);
      && |b.outcomes| == |ids|
      && (id in With(ids, b.outcomes, SkippedConflict) ==>
            && (Decided(b.server, id, Rejected) <==> SomeRejection(ids, b.outcomes, s.rejections, f, id))
            && (Decided(b.server, id, Rejected) || Decided(b.server, id, Pending)))
  {
    var r, b := ConfirmAll(s, ws, ids, f), Bulk(s, ws, ids, f);
    ReportTruthful(s, ws, ids, f, SkippedConflict, id);
    WithAt(ids, b.outcomes, SkippedConflict, id);
    if id in With(ids, b.outcomes, SkippedConflict) {
      var i :| 0 <= i < |ids| && ids[i] == id && b.outcomes[i] == SkippedConflict;
      SkippedWasPending(s, ws, ids, f, i);
      ConfirmAllSendsNoRejection(s, ws, ids, f);
      ConfirmAllRejectsNone(s, ws, ids, f, id);
      LoopRejects(r.server, ws, ids, f, id);
    }
  }

  /** A duplicate whose reject request fails is reported as skipped and stays pending. */
  lemma SkippedStaysPending(s: Server, ws: Workspace, id: Id, f: Faults)
    requires Confirm(s, ws, id, f).answer.Duplicate? && !f.rejects(s.rejections)
    ensures var b := Bulk(s, ws, [id], f);
      !b.threw && b.outcomes == [SkippedConflict] && Decided(b.server, id, Pending)
  {
    OneIsAll(s, ws, id, f);
    OneByOneNext(s, ws, [id], 0, f);
    assert [id][..0] == [] && [id][..1] == [id];
  }

  // ---------- the report leaves out what a failed bulk request committed ----------

  ghost predicate NewlyConfirmed(s: Server, t: Server, id: Id) {
    Decided(s, id, Pending) && Decided(t, id, Confirmed)
  }

  lemma {:induction false} ConfirmedByBulk(s: Server, ws: Workspace, ids: seq<Id>, f: Faults, x: Id)
    requires NewlyConfirmed(s, ConfirmAll(s, ws, ids, f).server, x)
    ensures x in ids
  {
    if ids != [] {
      var before := ConfirmAll(s, ws, ids[..|ids| - 1], f);
      if NewlyConfirmed(s, before.server, x) {
        ConfirmedByBulk(s, ws, ids[..|ids| - 1], f, x);
      }
    }
  }

  lemma HandleConfirms(s: Server, ws: Workspace, id: Id, f: Faults, x: Id)
    requires NewlyConfirmed(s, Handle(s, ws, id, f).0, x)
    ensures x == id && Handle(s, ws, id, f).1 == Some(NowConfirmed)
  {
  }

  lemma WithGrows(ids: seq<Id>, outcomes: seq<Outcome>, o: Outcome, next: Outcome, x: Id)
    requires ids != [] && |outcomes| == |ids| - 1
    ensures var all := With(ids, outcomes + [next], o);
      && (x in With(ids[..|ids| - 1], outcomes, o) ==> x in all)
      && (next == o ==> ids[|ids| - 1] in all)
  {
    assert (outcomes + [next])[..|outcomes|] == outcomes;
  }

  lemma {:induction false} ConfirmedByLoop(s: Server, ws: Workspace, ids: seq<Id>, f: Faults, x: Id)
    requires !OneByOne(s, ws, ids, f).threw
    requires NewlyConfirmed(s, OneByOne(s, ws, ids, f).server, x)
    ensures |OneByOne(s, ws, ids, f).outcomes| == |ids|
        && x in With(ids, OneByOne(s, ws, ids, f).outcomes, NowConfirmed)
  {
    OutcomeCount(s, ws, ids, f);
    var n := |ids| - 1;
    var before := OneByOne(s, ws, ids[..n], f);
    OutcomeCount(s, ws, ids[..n], f);
    OneByOneKeeps(s, ws, ids[..n], f, x);
    var o := Handle(before.server, ws, ids[n], f).1.value;
    WithGrows(ids, before.outcomes, NowConfirmed, o, x);
    if NewlyConfirmed(s, before.server, x) {
      ConfirmedByLoop(s, ws, ids[..n], f, x);
    } else {
      HandleConfirms(before.server, ws, ids[n], f, x);
    }
  }

  /** What the bulk request confirms first stays confirmed, and the loop then finds it handled. */
  lemma {:induction false} FirstConfirmed(s: Server, ws: Workspace, ids: seq<Id>, f: Faults)
    requires ids != [] && Confirm(s, ws, ids[0], f).answer.Done?
    ensures var t := ConfirmAll(s, ws, ids, f).server;
      Decided(t, ids[0], Confirmed) && t.candidates[ids[0]].workspace == ws
  {
    var n := |ids| - 1;
    if n > 0 {
      FirstConfirmed(s, ws, ids[..n], f);
      HandleKeeps(ConfirmAll(s, ws, ids[..n], f).server, ws, ids[n], f, ids[0]);
    } else {
      assert ids == [ids[0]];
      OneIsAll(s, ws, ids[0], f);
    }
  }

  lemma {:induction false} DecidedIsHandled(s: Server, ws: Workspace, ids: seq<Id>, f: Faults, x: Id)
    requires Decided(s, x, Confirmed) && s.candidates[x].workspace == ws && !OneByOne(s, ws, ids, f).threw
    ensures |OneByOne(s, ws, ids, f).outcomes| == |ids|
        && x !in With(ids, OneByOne(s, ws, ids, f).outcomes, NowConfirmed)
  {
    OutcomeCount(s, ws, ids, f);
    if ids != [] {
      var n := |ids| - 1;
      DecidedIsHandled(s, ws, ids[..n], f, x);
      OneByOneKeeps(s, ws, ids[..n], f, x);
    }
  }

  ghost predicate ReportsAll(s: Server, ws: Workspace, ids: seq<Id>, f: Faults)
    requires |Bulk(s, ws, ids, f).outcomes| == |ids|
  {
    var b := Bulk(s, ws, ids, f);
    forall x :: NewlyConfirmed(s, b.server, x) ==> x in With(ids, b.outcomes, NowConfirmed)
  }

  /** The endpoint is not all or nothing: a bulk request that fails keeps the candidates it confirmed
      before the error, and the loop reports those as already handled. The confirmed list names
      everything the call confirmed exactly when the bulk request succeeds or fails on its first id. */
  lemma ReportCompleteExact(s: Server, ws: Workspace, ids: seq<Id>, f: Faults)
    requires ids != [] && !Bulk(s, ws, ids, f).threw
    ensures |Bulk(s, ws, ids, f).outcomes| == |ids|
    ensures ReportsAll(s, ws, ids, f)
      <==> ConfirmAll(s, ws, ids, f).answer.Done? || !Confirm(s, ws, ids[0], f).answer.Done?
  {
    var r, b := ConfirmAll(s, ws, ids, f), Bulk(s, ws, ids, f);
    BulkCount(s, ws, ids, f);
    if r.answer.Done? {
      AllHaveOutcome(ids);
      forall x | NewlyConfirmed(s, b.server, x) ensures x in With(ids, b.outcomes, NowConfirmed) {
        ConfirmedByBulk(s, ws, ids, f, x);
      }
    } else if Confirm(s, ws, ids[0], f).answer.Done? {
      FirstConfirmed(s, ws, ids, f);
      DecidedIsHandled(r.server, ws, ids, f, ids[0]);
      OneByOneKeeps(r.server, ws, ids, f, ids[0]);
      assert NewlyConfirmed(s, b.server, ids[0]);
    } else {
      OneIsAll(s, ws, ids[0], f);
      assert ids[..1] == [ids[0]];
      FirstErrorStops(s, ws, ids, 1, f);
      forall x | NewlyConfirmed(s, b.server, x) ensures x in With(ids, b.outcomes, NowConfirmed) {
        ConfirmedByLoop(r.server, ws, ids, f, x);
      }
    }
  }

  // ---------- no two confirmed candidates say the same ----------

  ghost predicate HasObject(s: Server, id: Id) {
    Decided(s, id, Confirmed) ==> (s.candidates[id].workspace, s.candidates[id].key) in s.objects
  }

  ghost predicate Differ(s: Server, a: Id, b: Id) {
    a != b && Decided(s, a, Confirmed) && Decided(s, b, Confirmed) ==>
      (s.candidates[a].workspace, s.candidates[a].key) != (s.candidates[b].workspace, s.candidates[b].key)
  }

  /** Every confirmed candidate has its object, and no two in a workspace share a normalized text. */
  ghost predicate Consistent(s: Server) {
    && (forall id :: HasObject(s, id))
    && (forall a, b :: Differ(s, a, b))
  }

  lemma HandleConsistent(s: Server, ws: Workspace, id: Id, f: Faults)
    requires Consistent(s)
    ensures Consistent(Confirm(s, ws, id, f).server)
    ensures Consistent(Handle(s, ws, id, f).0)
  {
    var t, u := Confirm(s, ws, id, f).server, Handle(s, ws, id, f).0;
    forall x ensures HasObject(t, x) && HasObject(u, x) {
      assert HasObject(s, x);
    }
    forall a, b ensures Differ(t, a, b) && Differ(u, a, b) {
      assert Differ(s, a, b) && HasObject(s, a) && HasObject(s, b);
    }
  }

  lemma {:induction false} ConfirmAllConsistent(s: Server, ws: Workspace, ids: seq<Id>, f: Faults)
    requires Consistent(s)
    ensures Consistent(ConfirmAll(s, ws, ids, f).server)
  {
    if ids != [] {
      ConfirmAllConsistent(s, ws, ids[..|ids| - 1], f);
      HandleConsistent(ConfirmAll(s, ws, ids[..|ids| - 1], f).server, ws, ids[|ids| - 1], f);
    }
  }

  lemma {:induction false} OneByOneConsistent(s: Server, ws: Workspace, ids: seq<Id>, f: Faults)
    requires Consistent(s)
    ensures Consistent(OneByOne(s, ws, ids, f).server)
  {
    if ids != [] {
      OneByOneConsistent(s, ws, ids[..|ids| - 1], f);
      HandleConsistent(OneByOne(s, ws, ids[..|ids| - 1], f).server, ws, ids[|ids| - 1], f);
    }
  }

  /** Neither a successful, a partly failed nor a throwing call confirms the same text twice. */
  lemma BulkConsistent(s: Server, ws: Workspace, ids: seq<Id>, f: Faults)
    requires Consistent(s)
    ensures Consistent(Bulk(s, ws, ids, f).server)
  {
    ConfirmAllConsistent(s, ws, ids, f);
    OneByOneConsistent(ConfirmAll(s, ws, ids, f).server, ws, ids, f);
  }

  // ---------- whatever requests follow ----------

  /** A request that any client may send later. */
  datatype Request = ConfirmRequest(ws: Workspace, ids: seq<Id>) | RejectRequest(ws: Workspace, id: Id)

  function Served(s: Server, r: Request, f: Faults): Server {
    match r
    case ConfirmRequest(ws, ids) => ConfirmAll(s, ws, ids, f).server
    case RejectRequest(ws, id) => TryReject(s, ws, id, f)
  }

  function ServedAll(s: Server, requests: seq<Request>, f: Faults): Server {
    if requests == [] then s
    else Served(ServedAll(s, requests[..|requests| - 1], f), requests[|requests| - 1], f)
  }

  lemma {:induction false} ServedKeeps(s: Server, requests: seq<Request>, f: Faults, x: Id)
    ensures Keeps(s, ServedAll(s, requests, f), x)
  {
    if requests != [] {
      var before, r := ServedAll(s, requests[..|requests| - 1], f), requests[|requests| - 1];
      ServedKeeps(s, requests[..|requests| - 1], f, x);
      if r.ConfirmRequest? {
        ConfirmAllKeeps(before, r.ws, r.ids, f, x);
      }
    }
  }

  /** The object that holds a text is never replaced. */
  ghost predicate KeepsObject(s: Server, t: Server, ws: Workspace, key: Key) {
    (ws, key) in s.objects ==> (ws, key) in t.objects && t.objects[(ws, key)] == s.objects[(ws, key)]
  }

  lemma {:induction false} ConfirmAllKeepsObject(s: Server, ws: Workspace, ids: seq<Id>, f: Faults, ws': Workspace,
      key: Key)
    ensures KeepsObject(s, ConfirmAll(s, ws, ids, f).server, ws', key)
  {
    if ids != [] {
      ConfirmAllKeepsObject(s, ws, ids[..|ids| - 1], f, ws', key);
    }
  }

  lemma {:induction false} ServedKeepsObject(s: Server, requests: seq<Request>, f: Faults, ws: Workspace, key: Key)
    ensures KeepsObject(s, ServedAll(s, requests, f), ws, key)
  {
    if requests != [] {
      var before, r := ServedAll(s, requests[..|requests| - 1], f), requests[|requests| - 1];
      ServedKeepsObject(s, requests[..|requests| - 1], f, ws, key);
      if r.ConfirmRequest? {
        ConfirmAllKeepsObject(before, r.ws, r.ids, f, ws, key);
      }
    }
  }

  /** Whatever requests follow a successful confirm: the candidate stays confirmed and can be neither
      confirmed nor rejected again, and no other candidate of the workspace with its text is ever
      confirmed; the service calls it a duplicate exactly if it is of the same kind. */
  lemma ConfirmedForGood(s: Server, ws: Workspace, id: Id, f: Faults, later: seq<Request>, other: Id)
    requires Confirm(s, ws, id, f).answer.Done?
    ensures var t := ServedAll(Confirm(s, ws, id, f).server, later, f);
      && Decided(t, id, Confirmed)
      && Confirm(t, ws, id, f) == Reply(t, InvalidState) && Reject(t, ws, id) == Reply(t, InvalidState)
      && (Decided(t, other, Pending) && t.candidates[other].workspace == ws
            && t.candidates[other].key == s.candidates[id].key ==>
          Confirm(t, ws, other, f)
          == Reply(t, if t.candidates[other].kind == s.candidates[id].kind then Duplicate else CrossType))
  {
    var done := Confirm(s, ws, id, f).server;
    ServedKeeps(done, later, f, id);
    ServedKeepsObject(done, later, f, ws, s.candidates[id].key);
  }

  /** Whatever requests follow a successful reject: the candidate stays rejected and is never confirmed,
      and its text stays free for another candidate unless it was taken before. */
  lemma RejectedForGood(s: Server, ws: Workspace, id: Id, f: Faults, later: seq<Request>)
    requires Reject(s, ws, id).answer.Done?
    ensures var t := ServedAll(Reject(s, ws, id).server, later, f);
      && Decided(t, id, Rejected)
      && Confirm(t, ws, id, f) == Reply(t, InvalidState) && Reject(t, ws, id) == Reply(t, InvalidState)
    ensures Reject(s, ws, id).server.objects == s.objects
  {
    ServedKeeps(Reject(s, ws, id).server, later, f, id);
  }
}
