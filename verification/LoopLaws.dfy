/** What ends an autonomous loop, and when it finalizes its pool, over every run of the page. */
module LoopLaws {
  import opened Outcomes
  import opened AutonomousLoop

  // ---------- finalizing ----------

  /** A pool that is neither over nor paused, and is closing or has used up its rounds. */
  predicate AsksFinalize(r: Reply) {
    && r.PoolState?
    && r.status !in {"finalized", "failed", "cancelled", "stopped"} && r.status != "paused"
    && (r.status in {"stopping", "finalizing"} || AtLeast(r.round, r.maxRounds))
  }

  /** The event answers loop i's refresh with such a pool. */
  predicate AsksToFinalize(s: State, e: Event, i: nat) {
    e.Step? && e.loop == i && i < |s.loops| && s.loops[i].point.Refreshing? && AsksFinalize(e.reply)
  }

  function FinalizesAsked(events: seq<Event>, i: nat): nat {
    if events == [] then 0
    else
      var before, e := events[..|events| - 1], events[|events| - 1];
      FinalizesAsked(before, i) + (if AsksToFinalize(Run(before), e, i) then 1 else 0)
  }

  lemma FinalizeStepExact(s: State, e: Event, i: nat)
    requires i < |s.loops|
    ensures i < |Next(s, e).loops|
    ensures Next(s, e).loops[i].finalizes == s.loops[i].finalizes + if AsksToFinalize(s, e, i) then 1 else 0
  {
  }

  /** Over every run: a loop has sent exactly as many finalize requests as refreshes of it were answered with a
      pool that is neither over nor paused, and is closing or has used up its rounds. */
  lemma {:induction false} FinalizesCounted(events: seq<Event>, i: nat)
    ensures i < |Run(events).loops| ==> Run(events).loops[i].finalizes == FinalizesAsked(events, i)
    ensures i >= |Run(events).loops| ==> FinalizesAsked(events, i) == 0
  {
    if events != [] {
      var before, e := events[..|events| - 1], events[|events| - 1];
      FinalizesCounted(before, i);
      if i < |Run(before).loops| {
        FinalizeStepExact(Run(before), e, i);
      }
    }
  }

  /** A pool that has used up its rounds is finalized: the normal end. */
  lemma UsedUpFinalizes(s: State, i: nat, n: int, limit: int)
    requires i < |s.loops| && s.loops[i].point.Refreshing? && n >= limit
    ensures var t := Next(s, Step(i, PoolState("running", Whole(n), Whole(limit))));
      t.loops[i].point.RequestingFinalize? && t.loops[i].finalizes == s.loops[i].finalizes + 1
  {
  }

  // ---------- leaving ----------

  /** A reply without a pool, or with one that is over or paused. */
  predicate EndsLoop(r: Reply) {
    r.NoPool? || r.Accepted? || (r.PoolState? && r.status in {"finalized", "failed", "cancelled", "stopped", "paused"})
  }

  /** From a refresh a loop leaves exactly on such a reply, whatever else the page does. */
  lemma LeavesExact(s: State, i: nat, r: Reply)
    requires i < |s.loops| && s.loops[i].point.Refreshing?
    ensures i < |Next(s, Step(i, r)).loops|
    ensures Next(s, Step(i, r)).loops[i].point.Closed? <==> EndsLoop(r)
    ensures Next(s, Step(i, r)).loops[i].point.CheckingError? <==> r.Failed?
  {
  }

  // ---------- polling and failing ----------

  /** An accepted round or finalization is polled exactly if it comes with a job; without one the loop goes on. */
  lemma JobsArePolled(s: State, i: nat, r: Reply)
    requires i < |s.loops| && !r.Failed?
    ensures i < |Next(s, Step(i, r)).loops|
    ensures s.loops[i].point.RequestingRound? ==>
      (Next(s, Step(i, r)).loops[i].point.PollingRound? <==> r == Accepted(true))
    ensures s.loops[i].point.RequestingFinalize? ==>
      (Next(s, Step(i, r)).loops[i].point.PollingFinalize? <==> r == Accepted(true))
  {
  }

  /** Why a round was interrupted: the page was halted, or the pool says so. */
  predicate Interrupted(s: State, r: Reply) {
    && !r.Failed?
    && (!s.active || (r.PoolState? && r.status in {"paused", "stopping", "stopped", "finalizing", "finalized"}))
  }

  predicate Continues(p: Point, r: Reply) {
    || (p.RequestingRound? && !r.Failed? && r != Accepted(true))
    || (p.PollingRound? && !r.Failed?)
    || p.Sleeping?
  }

  /** The only ways for a live loop to close: from a refresh without a running pool, after a round or a sleep when
      the page has moved on or been halted, after an interrupted round, after the last refresh of a finalized
      pool, and from the `catch` block. */
  lemma ClosesExact(s: State, i: nat, r: Reply)
    requires i < |s.loops| && Live(s.loops[i])
    ensures i < |Next(s, Step(i, r)).loops|
    ensures var p, l := s.loops[i].point, s.loops[i];
      Next(s, Step(i, r)).loops[i].point.Closed?
      <==> || (p.Refreshing? && EndsLoop(r))
           || (Continues(p, r) && (!s.active || s.current != Some(l.pool)))
           || (p.CheckingInterrupt? && Interrupted(s, r))
           || (p.RefreshingFinal? && !r.Failed?)
           || p.CheckingError?
  {
  }

  /** A failed poll of a round, and nothing else, is looked into within the pass; any other failure, and a round
      that was not interrupted, reaches the `catch` block. A finalization that goes through is followed by one last
      refresh. */
  lemma FailsExact(s: State, i: nat, r: Reply)
    requires i < |s.loops| && Live(s.loops[i])
    ensures i < |Next(s, Step(i, r)).loops|
    ensures var p, q := s.loops[i].point, Next(s, Step(i, r)).loops[i].point;
      && (q.CheckingInterrupt? <==> p.PollingRound? && r.Failed?)
      && (q.CheckingError?
          <==> || (r.Failed? && (p.Refreshing? || p.RequestingRound? || p.RequestingFinalize? || p.PollingFinalize?
                                 || p.RefreshingFinal?))
               || (p.CheckingInterrupt? && !Interrupted(s, r)))
      && (q.RefreshingFinal?
          <==> !r.Failed? && (p.PollingFinalize? || (p.RequestingFinalize? && r != Accepted(true))))
  {
  }

  predicate Ending(p: Point) { p.CheckingInterrupt? || p.CheckingError? || p.Closed? }

  lemma EndingStays(s: State, e: Event, i: nat)
    requires i < |s.loops| && Ending(s.loops[i].point)
    ensures i < |Next(s, e).loops|
    ensures var l, l' := s.loops[i], Next(s, e).loops[i];
      Ending(l'.point) && l'.rounds == l.rounds && l'.finalizes == l.finalizes
  {
  }

  lemma {:induction false} EndingForGood(s: State, events: seq<Event>, i: nat)
    requires i < |s.loops| && Ending(s.loops[i].point)
    ensures i < |RunFrom(s, events).loops|
    ensures var l, l' := s.loops[i], RunFrom(s, events).loops[i];
      Ending(l'.point) && l'.rounds == l.rounds && l'.finalizes == l.finalizes
  {
    if events != [] {
      EndingForGood(s, events[..|events| - 1], i);
      EndingStays(RunFrom(s, events[..|events| - 1]), events[|events| - 1], i);
    }
  }

  /** After a failed request a loop sends no round and no finalize request any more, whatever follows. */
  lemma FailureEnds(s: State, i: nat, events: seq<Event>)
    requires i < |s.loops| && Live(s.loops[i]) && !s.loops[i].point.Sleeping?
    ensures var t := RunFrom(Next(s, Step(i, Failed)), events);
      i < |t.loops| && t.loops[i].rounds == s.loops[i].rounds && t.loops[i].finalizes == s.loops[i].finalizes
  {
    EndingForGood(Next(s, Step(i, Failed)), events, i);
  }

  // ---------- resuming ----------

  /** A resume gives a pool a live loop exactly if it has one, or none is running and it is the current pool. */
  lemma ResumeExact(s: State, pool: Pool)
    requires SingleLoop(s)
    ensures HasLiveLoop(Next(s, Resume(pool)), pool)
        <==> HasLiveLoop(s, pool) || (!s.running && s.current == Some(pool))
  {
    var active := s.(active := true);
    assert SingleLoop(active);
    LaunchExact(active, pool);
    assert HasLiveLoop(active, pool) <==> HasLiveLoop(s, pool) by {
      if HasLiveLoop(s, pool) {
        var k :| 0 <= k < |s.loops| && Live(s.loops[k]) && s.loops[k].pool == pool;
        assert Live(active.loops[k]);
      }
      if HasLiveLoop(active, pool) {
        var k :| 0 <= k < |active.loops| && Live(active.loops[k]) && active.loops[k].pool == pool;
        assert Live(s.loops[k]);
      }
    }
  }
}
