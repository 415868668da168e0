/** The autonomous loop of the frontier page as a state machine: code between two awaits runs in one
    step, and steps of loops, starts, pauses, resumes and stops interleave freely. */
module AutonomousLoop {
  import opened Outcomes

  type Pool(==, !new)

  const TERMINAL := {"finalized", "failed", "cancelled", "stopped"}
  const NON_RUNNABLE := {"paused", "stopping", "stopped", "finalizing", "finalized", "failed", "cancelled"}
  const CLOSING := {"stopping", "stopped", "finalizing"}
  const INTERRUPT_SAFE := {"paused", "stopping", "stopped", "finalizing", "finalized"}

  /** A JavaScript number as the server's fields yield it; every comparison with NaN is false. */
  datatype Number = NaN | Whole(value: int)

  predicate Below(a: Number, b: Number) { a.Whole? && b.Whole? && a.value < b.value }

  predicate AtLeast(a: Number, b: Number) { a.Whole? && b.Whole? && a.value >= b.value }

  /** What an awaited request yields: a pool, nothing, or an exception. `job` tells whether an accepted
      round or finalization comes with a job to poll. */
  datatype Reply =
    | PoolState(status: string, round: Number, maxRounds: Number)
    | NoPool
    | Accepted(job: bool)
    | Failed

  datatype Decision = StartRound | Finalize | Wait | Leave

  /** The branches of one pass, given the refreshed pool. */
  function Decide(r: Reply): Decision {
    if !r.PoolState? then Leave
    else if r.status in TERMINAL then Leave
    else if r.status == "paused" then Leave
    else if r.status !in NON_RUNNABLE && Below(r.round, r.maxRounds) then StartRound
    else if r.status in CLOSING || AtLeast(r.round, r.maxRounds) then Finalize
    else Wait
  }

  /** Where a loop is suspended; Closed once its `finally` has cleared the running flag. */
  datatype Point =
    | Refreshing | RequestingRound | PollingRound | CheckingInterrupt
    | RequestingFinalize | PollingFinalize | RefreshingFinal | Sleeping | CheckingError | Closed

  /** One call of `runAutonomousLoop`; `rounds` and `finalizes` count its requests, `lastRound` is the
      round number it saw when it last started a round. */
  datatype Loop = Loop(pool: Pool, point: Point, rounds: nat, finalizes: nat, lastRound: Option<int>)

  datatype State = State(active: bool, running: bool, current: Option<Pool>, loops: seq<Loop>)

  predicate Live(l: Loop) { !l.point.Closed? }

  /** The `while` condition. */
  predicate Guard(s: State, pool: Pool) {
    s.active && s.current == Some(pool)
  }

  /** Where a loop goes when a reply arrives. */
  function Resumed(s: State, l: Loop, r: Reply): Loop {
    var again := l.(point := if Guard(s, l.pool) then Refreshing else Closed);
    match l.point
    case Refreshing =>
      if r.Failed? then l.(point := CheckingError)
      else
        (match Decide(r)
         case StartRound => l.(point := RequestingRound, rounds := l.rounds + 1, lastRound := Some(r.round.value))
         case Finalize => l.(point := RequestingFinalize, finalizes := l.finalizes + 1)
         case Wait => l.(point := Sleeping)
         case Leave => l.(point := Closed))
    case RequestingRound =>
      if r.Failed? then l.(point := CheckingError)
      else if r.Accepted? && r.job then l.(point := PollingRound)
      else again
    case PollingRound => if r.Failed? then l.(point := CheckingInterrupt) else again
    case CheckingInterrupt =>
      if !r.Failed? && (!s.active || (r.PoolState? && r.status in INTERRUPT_SAFE)) then l.(point := Closed)
      else l.(point := CheckingError)
    case RequestingFinalize =>
      if r.Failed? then l.(point := CheckingError)
      else if r.Accepted? && r.job then l.(point := PollingFinalize)
      else l.(point := RefreshingFinal)
    case PollingFinalize => l.(point := if r.Failed? then CheckingError else RefreshingFinal)
    case RefreshingFinal => l.(point := if r.Failed? then CheckingError else Closed)
    case Sleeping => again
    case CheckingError => l.(point := Closed)
    case Closed => l
  }

  /** Start sets the new pool and, after a refresh, launches; a resume launches at once; pause, stop and
      force-finalize only clear the active flag. */
  datatype Event =
    | Start(pool: Pool)
    | Launch(pool: Pool)
    | Resume(pool: Pool)
    | Halt
    | Step(loop: nat, reply: Reply)

  /** The synchronous part of `runAutonomousLoop`. */
  function Launched(s: State, pool: Pool): State {
    if s.running then s
    else if Guard(s, pool) then s.(running := true, loops := s.loops + [Loop(pool, Refreshing, 0, 0, None)])
    else s.(loops := s.loops + [Loop(pool, Closed, 0, 0, None)])
  }

  function Next(s: State, e: Event): State {
    match e
    case Start(pool) => s.(active := true, current := Some(pool))
    case Launch(pool) => Launched(s, pool)
    case Resume(pool) => Launched(s.(active := true), pool)
    case Halt => s.(active := false)
    case Step(i, reply) =>
      if i < |s.loops| && Live(s.loops[i]) then
        var l := Resumed(s, s.loops[i], reply);
        s.(loops := s.loops[i := l], running := s.running && Live(l))
      else s
  }

  function Run(events: seq<Event>): State {
    if events == [] then State(false, false, None, [])
    else Next(Run(events[..|events| - 1]), events[|events| - 1])
  }

  /** The refs of the page; each method is the code that runs between two awaits. */
  class FrontierPage {
    var active: bool
    var running: bool
    var current: Option<Pool>
    var loops: seq<Loop>

    function Snapshot(): State
      reads this
    {
      State(active, running, current, loops)
    }

    constructor ()
      ensures Snapshot() == Run([])
    {
      active, running, current, loops := false, false, None, [];
    }

    method StartPool(pool: Pool)
      modifies this
      ensures Snapshot() == old(Next(Snapshot(), Start(pool)))
    {
      current := Some(pool);
      active := true;
    }

    /** `runAutonomousLoop` up to its first await. */
    method RunAutonomousLoop(pool: Pool)
      modifies this
      ensures Snapshot() == old(Next(Snapshot(), Launch(pool)))
    {
      if running {
        return;
      }
      running := true;
      if active && current == Some(pool) {
        loops := loops + [Loop(pool, Refreshing, 0, 0, None)];
      } else {
        loops := loops + [Loop(pool, Closed, 0, 0, None)];
        running := false;
      }
    }

    method ResumePool(pool: Pool)
      modifies this
      ensures Snapshot() == old(Next(Snapshot(), Resume(pool)))
    {
      active := true;
      RunAutonomousLoop(pool);
    }

    method HaltPool()
      modifies this
      ensures Snapshot() == old(Next(Snapshot(), Halt))
    {
      active := false;
    }

    /** Loop i suspends at p. */
    method SuspendAt(i: nat, p: Point)
      requires i < |loops|
      modifies `loops
      ensures loops == old(loops)[i := old(loops)[i].(point := p)]
    {
      loops := loops[i := loops[i].(point := p)];
    }

    /** Loop i leaves and runs its `finally`. */
    method Leave(i: nat)
      requires i < |loops|
      modifies `loops, `running
      ensures loops == old(loops)[i := old(loops)[i].(point := Closed)] && !running
    {
      loops := loops[i := loops[i].(point := Closed)];
      running := false;
    }

    /** Back to the `while` condition: refresh for another pass, or leave. */
    method GoRound(i: nat)
      requires i < |loops|
      modifies `loops, `running
      ensures loops == old(loops)[i := old(loops)[i].(
                point := if Guard(old(Snapshot()), old(loops)[i].pool) then Refreshing else Closed)]
      ensures running == (old(running) && Guard(old(Snapshot()), old(loops)[i].pool))
    {
      if active && current == Some(loops[i].pool) {
        SuspendAt(i, Refreshing);
      } else {
        Leave(i);
      }
    }

    /** The pass from the refreshed pool to its request, its sleep or its `break`. */
    method Pass(i: nat, reply: Reply)
      requires i < |loops| && loops[i].point == Refreshing && !reply.Failed?
      modifies `loops, `running
      ensures loops == old(loops)[i := Resumed(old(Snapshot()), old(loops)[i], reply)]
      ensures running == (old(running) && Live(loops[i]))
    {
      if !reply.PoolState? || reply.status in TERMINAL || reply.status == "paused" {
        Leave(i);
      } else if reply.status !in NON_RUNNABLE && Below(reply.round, reply.maxRounds) {
        var l := loops[i];
        loops := loops[i := l.(point := RequestingRound, rounds := l.rounds + 1, lastRound := Some(reply.round.value))];
      } else if reply.status in CLOSING || AtLeast(reply.round, reply.maxRounds) {
        var l := loops[i];
        loops := loops[i := l.(point := RequestingFinalize, finalizes := l.finalizes + 1)];
      } else {
        SuspendAt(i, Sleeping);
      }
    }

    /** A loop goes on with the reply it awaited, up to its next await or its end. */
    method Deliver(i: nat, reply: Reply)
      modifies `loops, `running
      ensures Snapshot() == old(Next(Snapshot(), Step(i, reply)))
    {
      if i >= |loops| || !Live(loops[i]) {
        return;
      }
      match loops[i].point {
        case Refreshing =>
          if reply.Failed? { SuspendAt(i, CheckingError); } else { Pass(i, reply); }
        case RequestingRound =>
          if reply.Failed? {
            SuspendAt(i, CheckingError);
          } else if reply.Accepted? && reply.job {
            SuspendAt(i, PollingRound);
          } else {
            GoRound(i);
          }
        case PollingRound =>
          if reply.Failed? { SuspendAt(i, CheckingInterrupt); } else { GoRound(i); }
        case CheckingInterrupt =>
          if !reply.Failed? && (!active || (reply.PoolState? && reply.status in INTERRUPT_SAFE)) {
            Leave(i);
          } else {
            SuspendAt(i, CheckingError);
          }
        case RequestingFinalize =>
          if reply.Failed? {
            SuspendAt(i, CheckingError);
          } else if reply.Accepted? && reply.job {
            SuspendAt(i, PollingFinalize);
          } else {
            SuspendAt(i, RefreshingFinal);
          }
        case PollingFinalize =>
          SuspendAt(i, if reply.Failed? then CheckingError else RefreshingFinal);
        case RefreshingFinal =>
          if reply.Failed? { SuspendAt(i, CheckingError); } else { Leave(i); }
        case Sleeping => GoRound(i);
        case CheckingError => Leave(i);
        case Closed =>
      }
    }
  }

  // ---------- at most one live loop ----------

  ghost predicate SingleLoop(s: State) {
    && (forall i, j :: 0 <= i < |s.loops| && 0 <= j < |s.loops| && Live(s.loops[i]) && Live(s.loops[j]) ==> i == j)
    && (s.running <==> exists i :: 0 <= i < |s.loops| && Live(s.loops[i]))
  }

  lemma NextKeepsSingleLoop(s: State, e: Event)
    requires SingleLoop(s)
    ensures SingleLoop(Next(s, e))
  {
    var t := Next(s, e);
    if e.Step? && e.loop < |s.loops| && Live(s.loops[e.loop]) {
      forall i | 0 <= i < |t.loops| && i != e.loop ensures !Live(t.loops[i]) {
        assert t.loops[i] == s.loops[i];
      }
      if t.running {
        assert Live(t.loops[e.loop]);
      }
    } else if e.Launch? || e.Resume? {
      LaunchKeepsSingleLoop(if e.Resume? then s.(active := true) else s, e.pool);
    }
  }

  lemma LaunchKeepsSingleLoop(s: State, pool: Pool)
    requires SingleLoop(s)
    ensures SingleLoop(Launched(s, pool))
  {
    var t := Launched(s, pool);
    if !s.running {
      forall i | 0 <= i < |s.loops| ensures !Live(t.loops[i]) {
        assert t.loops[i] == s.loops[i];
      }
      if t.running {
        assert Live(t.loops[|s.loops|]);
      }
    }
  }

  /** Under every interleaving at most one loop is live, and the running flag says whether one is. */
  lemma {:induction false} AtMostOneLoop(events: seq<Event>)
    ensures SingleLoop(Run(events))
  {
    if events != [] {
      AtMostOneLoop(events[..|events| - 1]);
      NextKeepsSingleLoop(Run(events[..|events| - 1]), events[|events| - 1]);
    }
  }

  // ---------- the branches ----------

  /** A pass starts a round exactly for a runnable status below the round limit. */
  lemma StartRoundExact(status: string, round: Number, maxRounds: Number)
    ensures Decide(PoolState(status, round, maxRounds)).StartRound?
      <==> status !in NON_RUNNABLE && Below(round, maxRounds)
    ensures TERMINAL <= NON_RUNNABLE && INTERRUPT_SAFE <= NON_RUNNABLE
  {
  }

  predicate StartsRound(r: Reply) {
    r.PoolState? && r.status !in NON_RUNNABLE && Below(r.round, r.maxRounds)
  }

  lemma RoundStepExact(s: State, e: Event, i: nat)
    requires i < |s.loops|
    ensures i < |Next(s, e).loops|
    ensures Next(s, e).loops[i].rounds
            == s.loops[i].rounds
               + if e.Step? && e.loop == i && s.loops[i].point.Refreshing? && StartsRound(e.reply) then 1 else 0
  {
    if e.Step? && e.reply.PoolState? {
      StartRoundExact(e.reply.status, e.reply.round, e.reply.maxRounds);
    }
  }

  /** Over every run: an event makes a loop start a round, one at most, if and only if it answers that
      loop's refresh with a runnable status and a round number below the limit; a loop is launched with
      no rounds. */
  lemma {:induction false} RoundsOverRuns(events: seq<Event>, i: nat)
    requires events != [] && i < |Run(events).loops|
    ensures var before, e := Run(events[..|events| - 1]), events[|events| - 1];
      Run(events).loops[i].rounds
      == if i >= |before.loops| then 0
         else if e.Step? && e.loop == i && before.loops[i].point.Refreshing? && StartsRound(e.reply)
           then before.loops[i].rounds + 1
         else before.loops[i].rounds
  {
    var before, e := Run(events[..|events| - 1]), events[|events| - 1];
    if i < |before.loops| {
      RoundStepExact(before, e, i);
    }
  }

  /** The event answers loop i's refresh and asks for a round. */
  predicate AsksRound(s: State, e: Event, i: nat) {
    e.Step? && e.loop == i && i < |s.loops| && s.loops[i].point.Refreshing? && StartsRound(e.reply)
  }

  /** How many events of the run did so. */
  function RoundsAsked(events: seq<Event>, i: nat): nat {
    if events == [] then 0
    else
      var before, e := events[..|events| - 1], events[|events| - 1];
      RoundsAsked(before, i) + (if AsksRound(Run(before), e, i) then 1 else 0)
  }

  /** Over every run: a loop has started exactly as many rounds as refreshes of it were answered with a
      runnable status and a round number below the limit. */
  lemma {:induction false} RoundsCounted(events: seq<Event>, i: nat)
    ensures i < |Run(events).loops| ==> Run(events).loops[i].rounds == RoundsAsked(events, i)
    ensures i >= |Run(events).loops| ==> RoundsAsked(events, i) == 0
  {
    if events != [] {
      var before, e := events[..|events| - 1], events[|events| - 1];
      RoundsCounted(before, i);
      if i < |Run(before).loops| {
        RoundStepExact(Run(before), e, i);
      }
    }
  }

  // ---------- rounds after a pause ----------

  function RunFrom(s: State, events: seq<Event>): State {
    if events == [] then s else Next(RunFrom(s, events[..|events| - 1]), events[|events| - 1])
  }

  /** The loop condition of the pool is false before and after every event. */
  ghost predicate Lapsed(s: State, events: seq<Event>, pool: Pool) {
    forall k :: 0 <= k <= |events| ==> !Guard(RunFrom(s, events[..k]), pool)
  }

  /** The first reply that loop i gets. */
  function FirstReply(events: seq<Event>, i: nat): Option<Reply> {
    if events == [] then None
    else
      var before, e := FirstReply(events[..|events| - 1], i), events[|events| - 1];
      if before.Some? then before
      else if e.Step? && e.loop == i then Some(e.reply)
      else None
  }

  /** The condition is not read again after a refresh, so a pause or a new pool does not stop the pass
      under way. Once the condition of a loop's pool has lapsed, the loop starts exactly one more round
      if it was awaiting a refresh and the reply asks for one, and none otherwise. */
  lemma {:induction false} RoundsAfterLapse(s: State, events: seq<Event>, i: nat)
    requires i < |s.loops| && Lapsed(s, events, s.loops[i].pool)
    ensures var l, t := s.loops[i], RunFrom(s, events);
      var first := FirstReply(events, i);
      && i < |t.loops| && t.loops[i].pool == l.pool
      && (t.loops[i].rounds
          == l.rounds + if l.point.Refreshing? && first.Some? && StartsRound(first.value) then 1 else 0)
      && (t.loops[i].point.Refreshing? <==> l.point.Refreshing? && first.None?)
  {
    if events != [] {
      var n := |events| - 1;
      var before := RunFrom(s, events[..n]);
      assert Lapsed(s, events[..n], s.loops[i].pool) by {
        forall k | 0 <= k <= n ensures !Guard(RunFrom(s, events[..n][..k]), s.loops[i].pool) {
          assert events[..n][..k] == events[..k];
        }
      }
      RoundsAfterLapse(s, events[..n], i);
      RoundStepExact(before, events[n], i);
      assert events[..n] == events[..n][..n];
      assert !Guard(before, s.loops[i].pool);
    }
  }

  /** Nothing but a start or a resume reactivates the page. */
  predicate Reactivates(e: Event) { e.Start? || e.Resume? }

  lemma {:induction false} StaysInactive(s: State, events: seq<Event>)
    requires !s.active && forall e :: e in events ==> !Reactivates(e)
    ensures !RunFrom(s, events).active
  {
    if events != [] {
      var n := |events| - 1;
      assert events[n] in events && forall e :: e in events[..n] ==> e in events;
      StaysInactive(s, events[..n]);
    }
  }

  /** A loop launched while the page is inactive closes at once. */
  lemma {:induction false} LaunchedInVain(s: State, events: seq<Event>, k: nat)
    requires !s.active && forall e :: e in events ==> !Reactivates(e)
    requires |s.loops| <= k < |RunFrom(s, events).loops|
    ensures RunFrom(s, events).loops[k].rounds == 0 && !Live(RunFrom(s, events).loops[k])
  {
    var n := |events| - 1;
    assert events[n] in events && forall e :: e in events[..n] ==> e in events;
    StaysInactive(s, events[..n]);
    if k < |RunFrom(s, events[..n]).loops| {
      LaunchedInVain(s, events[..n], k);
    }
  }

  /** After a pause or stop, until the next start or resume: a loop that was awaiting a refresh may start
      one more round, no other loop starts any, and so at most one round is started in all. */
  lemma RoundsAfterHalt(s: State, events: seq<Event>, i: nat, j: nat)
    requires SingleLoop(s) && i < |s.loops| && j < |s.loops|
    requires forall e :: e in events ==> !Reactivates(e)
    ensures var h := Next(s, Halt);
      var t := RunFrom(h, events);
      && i < |t.loops| && j < |t.loops|
      && s.loops[i].rounds <= t.loops[i].rounds <= s.loops[i].rounds + 1
      && (t.loops[i].rounds == s.loops[i].rounds + 1
          <==> s.loops[i].point.Refreshing? && FirstReply(events, i).Some? && StartsRound(FirstReply(events, i).value))
      && (t.loops[i].rounds > s.loops[i].rounds && t.loops[j].rounds > s.loops[j].rounds ==> i == j)
      && forall k :: |s.loops| <= k < |t.loops| ==> t.loops[k].rounds == 0
  {
    var h := Next(s, Halt);
    HaltLapses(s, events, s.loops[i].pool);
    HaltLapses(s, events, s.loops[j].pool);
    RoundsAfterLapse(h, events, i);
    RoundsAfterLapse(h, events, j);
    forall k | |s.loops| <= k < |RunFrom(h, events).loops| ensures RunFrom(h, events).loops[k].rounds == 0 {
      LaunchedInVain(h, events, k);
    }
    assert s.loops[i].point.Refreshing? && s.loops[j].point.Refreshing? ==> Live(s.loops[i]) && Live(s.loops[j]);
  }

  lemma HaltLapses(s: State, events: seq<Event>, pool: Pool)
    requires forall e :: e in events ==> !Reactivates(e)
    ensures Lapsed(Next(s, Halt), events, pool)
  {
    forall k | 0 <= k <= |events| ensures !Guard(RunFrom(Next(s, Halt), events[..k]), pool) {
      assert forall e :: e in events[..k] ==> e in events;
      StaysInactive(Next(s, Halt), events[..k]);
    }
  }

  /** A round is started although the page was paused meanwhile, or works on another pool by now. */
  lemma RoundStartsAnyway(s: State, i: nat, r: Reply, pool: Pool)
    requires i < |s.loops| && s.loops[i].point.Refreshing? && StartsRound(r) && pool != s.loops[i].pool
    ensures var t := Next(Next(s, Halt), Step(i, r));
      t.loops[i].point.RequestingRound? && !t.active
    ensures var t := Next(Next(s, Start(pool)), Step(i, r));
      t.loops[i].point.RequestingRound? && t.current != Some(s.loops[i].pool)
  {
    StartRoundExact(r.status, r.round, r.maxRounds);
  }

  /** The waiting arm is reached exactly for a runnable status with a round number or limit that is
      not a number. */
  lemma WaitExact(status: string, round: Number, maxRounds: Number)
    ensures Decide(PoolState(status, round, maxRounds)).Wait?
      <==> status !in NON_RUNNABLE && (round.NaN? || maxRounds.NaN?)
  {
  }

  predicate Numeric(r: Reply) {
    r.PoolState? ==> r.round.Whole? && r.maxRounds.Whole?
  }

  /** Every pool that a pass begins with has numbers for round and limit. */
  ghost predicate AllNumeric(events: seq<Event>) {
    events == [] ||
    var before, e := Run(events[..|events| - 1]), events[|events| - 1];
    && AllNumeric(events[..|events| - 1])
    && (e.Step? && e.loop < |before.loops| && before.loops[e.loop].point.Refreshing? ==> Numeric(e.reply))
  }

  /** While the server's round numbers are numbers, no loop ever waits. */
  lemma {:induction false} NeverWaits(events: seq<Event>, i: nat)
    requires AllNumeric(events) && i < |Run(events).loops|
    ensures !Run(events).loops[i].point.Sleeping?
  {
    if events != [] {
      var before, e := Run(events[..|events| - 1]), events[|events| - 1];
      if i < |before.loops| {
        NeverWaits(events[..|events| - 1], i);
      }
      if e.Step? && e.reply.PoolState? {
        WaitExact(e.reply.status, e.reply.round, e.reply.maxRounds);
      }
    }
  }

  // ---------- each loop finalizes at most once ----------

  predicate Finalizing(p: Point) {
    p.RequestingFinalize? || p.PollingFinalize? || p.RefreshingFinal? || p.CheckingError? || p.Closed?
  }

  ghost predicate FinalizesOnce(l: Loop) {
    l.finalizes <= 1 && (l.finalizes == 1 ==> Finalizing(l.point))
  }

  /** Every loop sends at most one finalize request, and none of its rounds comes after it. */
  lemma {:induction false} FinalizeOnce(events: seq<Event>, i: nat)
    requires i < |Run(events).loops|
    ensures FinalizesOnce(Run(events).loops[i])
    ensures events != [] && i < |Run(events[..|events| - 1]).loops| ==>
      var before, after := Run(events[..|events| - 1]).loops[i], Run(events).loops[i];
      before.finalizes == 1 ==> after.rounds == before.rounds
  {
    if events != [] && i < |Run(events[..|events| - 1]).loops| {
      FinalizeOnce(events[..|events| - 1], i);
    }
  }

  // ---------- termination ----------

  function NextRound(l: Loop): int {
    if l.lastRound.Some? then l.lastRound.value + 1 else 0
  }

  /** What the server answers a loop that begins a pass: numbers, a limit of at most m, and a round
      number that is not negative and, after a completed round, higher than before it. */
  predicate Progresses(l: Loop, r: Reply, m: nat) {
    Numeric(r) && (r.PoolState? ==> r.maxRounds.value <= m && r.round.value >= NextRound(l))
  }

  predicate GoodEvent(s: State, e: Event, m: nat) {
    e.Step? && e.loop < |s.loops| && s.loops[e.loop].point.Refreshing? ==> Progresses(s.loops[e.loop], e.reply, m)
  }

  ghost predicate GoodRun(events: seq<Event>, m: nat) {
    events == [] ||
    var before := events[..|events| - 1];
    GoodRun(before, m) && GoodEvent(Run(before), events[|events| - 1], m)
  }

  /** An upper bound for the steps a loop has left. */
  function StepsLeft(l: Loop, m: nat): int {
    var rounds := 4 * (m - NextRound(l));
    match l.point
    case Refreshing => rounds + 10
    case RequestingRound => rounds + 12
    case PollingRound => rounds + 11
    case CheckingInterrupt => 2
    case RequestingFinalize => 4
    case PollingFinalize => 3
    case RefreshingFinal => 2
    case Sleeping => rounds + 11
    case CheckingError => 1
    case Closed => 0
  }

  lemma StepUsesOne(s: State, l: Loop, r: Reply, m: nat)
    requires Live(l) && (l.point.Refreshing? ==> Progresses(l, r, m)) && 0 <= NextRound(l) <= m && !l.point.Sleeping?
    ensures var l' := Resumed(s, l, r);
      && StepsLeft(l', m) < StepsLeft(l, m)
      && 0 <= NextRound(l') <= m && !l'.point.Sleeping?
      && (l.rounds <= NextRound(l) ==> l'.rounds <= NextRound(l'))
  {
    if r.PoolState? {
      WaitExact(r.status, r.round, r.maxRounds);
      StartRoundExact(r.status, r.round, r.maxRounds);
    }
  }

  /** How many steps the run made with loop i while it was live. */
  function StepsOf(events: seq<Event>, i: nat): nat {
    if events == [] then 0
    else
      var before, e := Run(events[..|events| - 1]), events[|events| - 1];
      StepsOf(events[..|events| - 1], i)
      + (if Steps(before, e, i) then 1 else 0)
  }

  lemma {:induction false} NoStepsBeforeLaunch(events: seq<Event>, i: nat)
    requires i >= |Run(events).loops|
    ensures StepsOf(events, i) == 0
  {
    if events != [] {
      NoStepsBeforeLaunch(events[..|events| - 1], i);
    }
  }

  ghost predicate OnCourse(l: Loop, steps: nat, m: nat) {
    && 0 <= NextRound(l) <= m && !l.point.Sleeping? && l.rounds <= NextRound(l)
    && 0 <= StepsLeft(l, m) && steps + StepsLeft(l, m) <= 4 * m + 10
  }

  predicate Steps(s: State, e: Event, i: nat) {
    e.Step? && e.loop == i && i < |s.loops| && Live(s.loops[i])
  }

  lemma NextOnCourse(s: State, e: Event, i: nat, m: nat, steps: nat)
    requires GoodEvent(s, e, m) && i < |s.loops| && OnCourse(s.loops[i], steps, m)
    ensures i < |Next(s, e).loops| && OnCourse(Next(s, e).loops[i], if Steps(s, e, i) then steps + 1 else steps, m)
  {
    if Steps(s, e, i) {
      StepUsesOne(s, s.loops[i], e.reply, m);
    }
  }

  /** Termination: whatever else happens in between, a loop starts at most m rounds and is closed after
      at most 4 * m + 10 steps, if the round limit is at most m and every completed round raises the
      round number. Rounds may fail, and nothing is asked of replies other than those that begin a pass. */
  lemma {:induction false} LoopTerminates(events: seq<Event>, i: nat, m: nat)
    requires GoodRun(events, m) && i < |Run(events).loops|
    ensures OnCourse(Run(events).loops[i], StepsOf(events, i), m)
    ensures Run(events).loops[i].rounds <= m && StepsOf(events, i) <= 4 * m + 10
    ensures StepsOf(events, i) == 4 * m + 10 ==> !Live(Run(events).loops[i])
  {
    if events != [] {
      var before, e := Run(events[..|events| - 1]), events[|events| - 1];
      if i < |before.loops| {
        LoopTerminates(events[..|events| - 1], i, m);
        NextOnCourse(before, e, i, m, StepsOf(events[..|events| - 1], i));
      } else {
        NoStepsBeforeLaunch(events[..|events| - 1], i);
      }
    }
  }

  // ---------- when a start takes effect ----------

  ghost predicate HasLiveLoop(s: State, pool: Pool) {
    exists i :: 0 <= i < |s.loops| && Live(s.loops[i]) && s.loops[i].pool == pool
  }

  /** Launching gets a pool its loop exactly when no loop is running and the pool is the current active
      one, or when its loop is already live. */
  lemma LaunchExact(s: State, pool: Pool)
    requires SingleLoop(s)
    ensures HasLiveLoop(Launched(s, pool), pool) <==> HasLiveLoop(s, pool) || (!s.running && Guard(s, pool))
  {
    var t := Launched(s, pool);
    if HasLiveLoop(s, pool) {
      var i :| 0 <= i < |s.loops| && Live(s.loops[i]) && s.loops[i].pool == pool;
      assert Live(t.loops[i]) && t.loops[i].pool == pool;
    }
    if !s.running && Guard(s, pool) {
      assert Live(t.loops[|s.loops|]) && t.loops[|s.loops|].pool == pool;
    }
    if HasLiveLoop(t, pool) {
      var i :| 0 <= i < |t.loops| && Live(t.loops[i]) && t.loops[i].pool == pool;
      if i < |s.loops| {
        assert Live(s.loops[i]) && s.loops[i].pool == pool;
      }
    }
  }

  /** A start while the loop of another pool is still busy with a round is lost: the launch is ignored,
      the old loop then leaves because the pool has changed, and the new pool is active without a loop. */
  lemma LostStart(s: State, i: nat, pool: Pool, reply: Reply)
    requires SingleLoop(s) && i < |s.loops| && s.loops[i].pool != pool
    requires s.loops[i].point.RequestingRound? || s.loops[i].point.PollingRound?
    requires !reply.Failed? && !(reply.Accepted? && reply.job)
    ensures var t := Next(Next(Next(s, Start(pool)), Launch(pool)), Step(i, reply));
      Guard(t, pool) && !t.running && forall j :: 0 <= j < |t.loops| ==> !Live(t.loops[j])
  {
    assert Live(s.loops[i]);
    var started := Next(s, Start(pool));
    assert Next(started, Launch(pool)) == started;
    var t := Next(started, Step(i, reply));
    forall j | 0 <= j < |t.loops| ensures !Live(t.loops[j]) {
      if j != i {
        assert t.loops[j] == s.loops[j];
      }
    }
  }
}
