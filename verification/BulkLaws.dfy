/** When the bulk confirm throws, and what each of its requests decides, read off the stored candidates. */
module BulkLaws {
  import opened Outcomes
  import opened Sequences
  import opened BulkConfirm

  // ---------- one request ----------

  /** A pending candidate of the workspace. */
  predicate Offered(s: Server, ws: Workspace, id: Id) {
    id in s.candidates && s.candidates[id].workspace == ws && s.candidates[id].status == Pending
  }

  predicate TakenText(s: Server, ws: Workspace, id: Id)
    requires id in s.candidates
  {
    (ws, s.candidates[id].key) in s.objects
  }

  /** Its text is that of an object of its own kind. */
  predicate HasTwin(s: Server, ws: Workspace, id: Id) {
    Offered(s, ws, id) && TakenText(s, ws, id) && s.objects[(ws, s.candidates[id].key)] == s.candidates[id].kind
  }

  /** Decided earlier, one way or the other. */
  predicate Settled(s: Server, ws: Workspace, id: Id) {
    id in s.candidates && s.candidates[id].workspace == ws && s.candidates[id].status != Pending
  }

  /** Its text is free and the transaction goes through. */
  predicate Confirmable(s: Server, ws: Workspace, id: Id, f: Faults) {
    Offered(s, ws, id) && !TakenText(s, ws, id) && f.commits(s.transactions)
  }

  /** A candidate that is not there or belongs elsewhere, whose text an object of another kind has, or whose
      transaction fails. */
  predicate Fatal(s: Server, ws: Workspace, id: Id, f: Faults) {
    || id !in s.candidates
    || s.candidates[id].workspace != ws
    || (Offered(s, ws, id) && TakenText(s, ws, id)
        && s.objects[(ws, s.candidates[id].key)] != s.candidates[id].kind)
    || (Offered(s, ws, id) && !TakenText(s, ws, id) && !f.commits(s.transactions))
  }

  /** What a request for id makes of the server, apart from its counters. */
  ghost predicate Changes(s: Server, t: Server, id: Id, status: Status, objects: map<(Workspace, Key), Kind>) {
    && t.objects == objects
    && t.candidates.Keys == s.candidates.Keys
    && (forall x :: x in s.candidates && x != id ==> t.candidates[x] == s.candidates[x])
    && (id in s.candidates ==> t.candidates[id] == s.candidates[id].(status := status))
  }

  /** What a pass of the loop does, case by case. */
  ghost predicate PassFits(s: Server, ws: Workspace, id: Id, f: Faults, t: Server, o: Option<Outcome>) {
    && (o.None? <==> Fatal(s, ws, id, f))
    && (o == Some(NowConfirmed) <==> Confirmable(s, ws, id, f))
    && (o == Some(SkippedConflict) <==> HasTwin(s, ws, id))
    && (o == Some(AlreadyHandled) <==> Settled(s, ws, id))
    && (Confirmable(s, ws, id, f) ==>
          var c := s.candidates[id]; Changes(s, t, id, Confirmed, s.objects[(ws, c.key) := c.kind]))
    && (HasTwin(s, ws, id) ==> Changes(s, t, id, if f.rejects(s.rejections) then Rejected else Pending, s.objects))
    && (Fatal(s, ws, id, f) || Settled(s, ws, id) ==> t.candidates == s.candidates && t.objects == s.objects)
  }

  lemma PassExact(s: Server, ws: Workspace, id: Id, f: Faults)
    ensures var r := Handle(s, ws, id, f); PassFits(s, ws, id, f, r.0, r.1)
  {
  }

  // ---------- the loop ----------

  /** The loop reaches position i without an exception. */
  ghost predicate Reaches(s: Server, ws: Workspace, ids: seq<Id>, f: Faults, i: nat) {
    i < |ids| && !OneByOne(s, ws, ids[..i], f).threw
  }

  ghost predicate ThrowsAt(s: Server, ws: Workspace, ids: seq<Id>, f: Faults, i: nat) {
    Reaches(s, ws, ids, f, i) && Fatal(OneByOne(s, ws, ids[..i], f).server, ws, ids[i], f)
  }

  /** The loop throws exactly if it comes to a candidate that is missing, foreign or taken by another kind, or
      to a transaction that fails. */
  lemma {:induction false} LoopThrowsExact(s: Server, ws: Workspace, ids: seq<Id>, f: Faults)
    ensures OneByOne(s, ws, ids, f).threw <==> exists i: nat :: ThrowsAt(s, ws, ids, f, i)
  {
    if ids != [] {
      var n := |ids| - 1;
      LoopThrowsExact(s, ws, ids[..n], f);
      forall i: nat | i < n ensures ThrowsAt(s, ws, ids[..n], f, i) <==> ThrowsAt(s, ws, ids, f, i) {
        assert ids[..n][..i] == ids[..i];
      }
      if OneByOne(s, ws, ids[..n], f).threw {
        var i: nat :| ThrowsAt(s, ws, ids[..n], f, i);
        assert ThrowsAt(s, ws, ids, f, i);
      } else {
        PassExact(OneByOne(s, ws, ids[..n], f).server, ws, ids[n], f);
        assert OneByOne(s, ws, ids, f).threw <==> ThrowsAt(s, ws, ids, f, n);
        NoEarlierThrow(s, ws, ids, f);
      }
    }
  }

  lemma NoEarlierThrow(s: Server, ws: Workspace, ids: seq<Id>, f: Faults)
    requires ids != []
    requires forall i: nat :: i < |ids| - 1 ==> !ThrowsAt(s, ws, ids, f, i)
    ensures (exists i: nat :: ThrowsAt(s, ws, ids, f, i)) <==> ThrowsAt(s, ws, ids, f, |ids| - 1)
  {
  }

  /** Position i of the loop and what it decides, on the server as the earlier positions left it. */
  lemma OutcomeExact(s: Server, ws: Workspace, ids: seq<Id>, f: Faults, i: nat)
    requires i < |ids| && !OneByOne(s, ws, ids, f).threw
    ensures var loop, before, after := OneByOne(s, ws, ids, f), OneByOne(s, ws, ids[..i], f),
                OneByOne(s, ws, ids[..i + 1], f);
      |loop.outcomes| == |ids| && PassFits(before.server, ws, ids[i], f, after.server, Some(loop.outcomes[i]))
  {
    OutcomeAt(s, ws, ids, f, i);
    PassExact(OneByOne(s, ws, ids[..i], f).server, ws, ids[i], f);
  }

  lemma {:induction false} OutcomeAt(s: Server, ws: Workspace, ids: seq<Id>, f: Faults, i: nat)
    requires i < |ids| && !OneByOne(s, ws, ids, f).threw
    ensures var loop, before, after := OneByOne(s, ws, ids, f), OneByOne(s, ws, ids[..i], f),
                OneByOne(s, ws, ids[..i + 1], f);
      && |loop.outcomes| == |ids|
      && Handle(before.server, ws, ids[i], f) == (after.server, Some(loop.outcomes[i]))
  {
    var n := |ids| - 1;
    LastPass(s, ws, ids, f);
    if i < n {
      OutcomeAt(s, ws, ids[..n], f, i);
      assert ids[..n][..i] == ids[..i] && ids[..n][..i + 1] == ids[..i + 1];
    } else {
      assert ids[..i + 1] == ids;
    }
  }

  ghost predicate HasOutcome(ids: seq<Id>, outcomes: seq<Outcome>, id: Id, o: Outcome) {
    exists i :: 0 <= i < |ids| && i < |outcomes| && ids[i] == id && outcomes[i] == o
  }

  /** The first list holds the ids that were confirmed, the second those that were skipped, the third those that
      had been decided before. */
  lemma ListsExact(ids: seq<Id>, outcomes: seq<Outcome>, id: Id)
    requires |outcomes| == |ids|
    ensures var l := Lists(ids, outcomes);
      && (id in l.0 <==> HasOutcome(ids, outcomes, id, NowConfirmed))
      && (id in l.1 <==> HasOutcome(ids, outcomes, id, SkippedConflict))
      && (id in l.2 <==> HasOutcome(ids, outcomes, id, AlreadyHandled))
  {
    WithAt(ids, outcomes, NowConfirmed, id);
    WithAt(ids, outcomes, SkippedConflict, id);
    WithAt(ids, outcomes, AlreadyHandled, id);
  }

  // ---------- the whole call ----------

  /** The bulk request comes to position i. */
  ghost predicate BulkReaches(s: Server, ws: Workspace, ids: seq<Id>, f: Faults, i: nat) {
    i < |ids| && ConfirmAll(s, ws, ids[..i], f).answer == Done
  }

  /** It stops there: nothing it comes to afterwards matters. */
  ghost predicate StopsAt(s: Server, ws: Workspace, ids: seq<Id>, f: Faults, i: nat) {
    BulkReaches(s, ws, ids, f, i) && !Confirmable(ConfirmAll(s, ws, ids[..i], f).server, ws, ids[i], f)
  }

  ghost predicate StopsFatally(s: Server, ws: Workspace, ids: seq<Id>, f: Faults, i: nat) {
    BulkReaches(s, ws, ids, f, i) && Fatal(ConfirmAll(s, ws, ids[..i], f).server, ws, ids[i], f)
  }

  ghost predicate SomeStop(s: Server, ws: Workspace, ids: seq<Id>, f: Faults) {
    exists i: nat :: StopsAt(s, ws, ids, f, i)
  }

  ghost predicate SomeFatalStop(s: Server, ws: Workspace, ids: seq<Id>, f: Faults) {
    exists i: nat :: StopsFatally(s, ws, ids, f, i)
  }

  lemma AnswerExact(s: Server, ws: Workspace, id: Id, f: Faults)
    ensures Confirm(s, ws, id, f).answer == Done <==> Confirmable(s, ws, id, f)
    ensures !Tolerated(Confirm(s, ws, id, f).answer) && Confirm(s, ws, id, f).answer != Done <==> Fatal(s, ws, id, f)
    ensures Confirm(s, ws, id, f).answer == Duplicate <==> HasTwin(s, ws, id)
    ensures Confirm(s, ws, id, f).answer == InvalidState <==> Settled(s, ws, id)
  {
  }

  /** The bulk request fails at one position, the first one that is not confirmable, and the client goes on to the
      loop exactly if that one is no fatal one. */
  lemma {:induction false} BulkStops(s: Server, ws: Workspace, ids: seq<Id>, f: Faults)
    ensures ConfirmAll(s, ws, ids, f).answer != Done <==> SomeStop(s, ws, ids, f)
    ensures ConfirmAll(s, ws, ids, f).answer != Done && !Tolerated(ConfirmAll(s, ws, ids, f).answer)
      <==> SomeFatalStop(s, ws, ids, f)
  {
    if ids != [] {
      var n := |ids| - 1;
      BulkStops(s, ws, ids[..n], f);
      forall i: nat | i < n
        ensures StopsAt(s, ws, ids[..n], f, i) <==> StopsAt(s, ws, ids, f, i)
        ensures StopsFatally(s, ws, ids[..n], f, i) <==> StopsFatally(s, ws, ids, f, i)
      {
        assert ids[..n][..i] == ids[..i];
      }
      var before := ConfirmAll(s, ws, ids[..n], f);
      AnswerExact(before.server, ws, ids[n], f);
      StopsLast(s, ws, ids, f);
    }
  }

  lemma StopsLast(s: Server, ws: Workspace, ids: seq<Id>, f: Faults)
    requires ids != []
    requires forall i: nat :: i < |ids| - 1 ==>
      && (StopsAt(s, ws, ids[..|ids| - 1], f, i) <==> StopsAt(s, ws, ids, f, i))
      && (StopsFatally(s, ws, ids[..|ids| - 1], f, i) <==> StopsFatally(s, ws, ids, f, i))
    ensures SomeStop(s, ws, ids, f)
      <==> SomeStop(s, ws, ids[..|ids| - 1], f) || StopsAt(s, ws, ids, f, |ids| - 1)
    ensures SomeFatalStop(s, ws, ids, f)
      <==> SomeFatalStop(s, ws, ids[..|ids| - 1], f) || StopsFatally(s, ws, ids, f, |ids| - 1)
  {
    var rest, n := ids[..|ids| - 1], |ids| - 1;
    if SomeStop(s, ws, rest, f) {
      var i: nat :| StopsAt(s, ws, rest, f, i);
      assert StopsAt(s, ws, ids, f, i);
    }
    if SomeFatalStop(s, ws, rest, f) {
      var i: nat :| StopsFatally(s, ws, rest, f, i);
      assert StopsFatally(s, ws, ids, f, i);
    }
  }

  /** The whole call throws exactly if the bulk request comes to a fatal candidate, or it stops at another one
      that is not confirmable and the loop comes to a fatal one. Otherwise everything is confirmed at once, or
      the loop decides. */
  lemma ThrowsExact(s: Server, ws: Workspace, ids: seq<Id>, f: Faults)
    ensures Bulk(s, ws, ids, f).threw
      <==> || SomeFatalStop(s, ws, ids, f)
           || (SomeStop(s, ws, ids, f)
               && exists i: nat :: ThrowsAt(ConfirmAll(s, ws, ids, f).server, ws, ids, f, i))
    ensures !Bulk(s, ws, ids, f).threw ==>
      Bulk(s, ws, ids, f)
      == if SomeStop(s, ws, ids, f) then OneByOne(ConfirmAll(s, ws, ids, f).server, ws, ids, f)
         else Loop(ConfirmAll(s, ws, ids, f).server, AllConfirmed(ids), false)
  {
    BulkStops(s, ws, ids, f);
    LoopThrowsExact(ConfirmAll(s, ws, ids, f).server, ws, ids, f);
  }
}
