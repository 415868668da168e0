/** `memorize` as the worker runs it: the controller logs messages, jobs start later, up to ten at once,
    and every job gives way at each of its awaits. One move takes one job from one database access to the
    next, in any order and with any interleaving. */
module Jobs {
  import opened Outcomes
  import opened Sequences
  import opened StableSort
  import opened MessageLog
  import opened GroupQueue
  import opened Accumulation
  import opened StatusRow
  import opened Memorize
  import opened BatchLaws

  /** What a job does next: read its history, close the group's messages, confirm its own, load the status
      row, write it back, or write it after the extraction. */
  datatype Stage = Reading | Closing | Accepting | LoadingRow | WritingRow | Saving | Done

  /** A job, with the start time it took from the status row, the history it has read, the detector's
      verdict on it, and the status row it has loaded. */
  datatype Job = Job(request: Request, start: Option<int>, history: seq<Message>, verdict: Verdict,
                     loaded: Option<Row>, stage: Stage)

  datatype State = State(log: seq<Record>, rows: map<Group, Row>, jobs: seq<Job>)

  /** The controller logs messages, a job takes its start time from the row, or goes on. */
  datatype Move = Arrive(messages: seq<Message>) | Begin(request: Request) | Resume(job: nat)

  function OwnIds(w: World, j: Job): seq<Id> { Ids(w.fields, j.request.messages) }

  function TimesFor(w: World, j: Job): Times { TimesOf(w, j.history, j.request) }

  function Begun(s: State, r: Request): Job {
    Job(r, StartTime(s.rows, r.group), [], Skip, None, Reading)
  }

  /** The job after it has read its history and got a verdict. */
  function WithHistory(w: World, log: seq<Record>, j: Job): Job {
    var history := History(w.fields, log, j.request.group, j.start, HISTORY_LIMIT, OwnIds(w, j));
    var verdict := w.detect(history, j.request.messages);
    j.(history := history, verdict := verdict,
       stage := if verdict.Skip? then Done else if verdict.Boundary? then Closing else Accepting)
  }

  function AfterAccept(j: Job): Stage {
    match j.verdict
    case Skip => Done
    case Wait => Done
    case Continue => LoadingRow
    case Boundary => if j.request.saves then Saving else Done
  }

  /** The log event of a job's next move. */
  function LogEvent(w: World, j: Job): Option<Event> {
    match j.stage
    case Reading => Some(Read(j.request.group, OwnIds(w, j)))
    case Closing => Some(Close(j.request.group, OwnIds(w, j)))
    case Accepting => Some(Accept(j.request.group, OwnIds(w, j)))
    case LoadingRow => None
    case WritingRow => None
    case Saving => None
    case Done => None
  }

  /** What a job becomes by its next move, given the log and the rows it finds. */
  function JobAfter(w: World, s: State, j: Job): Job {
    match j.stage
    case Reading => WithHistory(w, s.log, j)
    case Closing => j.(stage := Accepting)
    case Accepting => j.(stage := AfterAccept(j))
    case LoadingRow => j.(loaded := RowOf(s.rows, j.request.group), stage := WritingRow)
    case WritingRow => j.(stage := Done)
    case Saving => j.(stage := Done)
    case Done => j
  }

  /** The update a job's next move writes to the status row of its group. */
  function Writing(w: World, j: Job): Update {
    match j.stage
    case WritingRow => Continues(TimesFor(w, j))
    case Saving => Memcell(TimesFor(w, j), w.memcellTime(j.history))
    case Reading => Keep
    case Closing => Keep
    case Accepting => Keep
    case LoadingRow => Keep
    case Done => Keep
  }

  /** A row is written whole: a continuing conversation writes what it loaded, whatever is there now. */
  function RowsAfter(w: World, rows: map<Group, Row>, j: Job): map<Group, Row> {
    match Writing(w, j)
    case Keep => rows
    case Continues(t) => rows[j.request.group := ContinueRow(j.loaded, t)]
    case Memcell(t, time) => rows[j.request.group := MemcellRow(t, time)]
  }

  function LogAfterEvent(f: Fields, log: seq<Record>, e: Option<Event>): seq<Record> {
    if e.Some? then MessageLog.Next(f, log, e.value) else log
  }

  function Moved(w: World, s: State, m: Move): State {
    match m
    case Arrive(messages) => s.(log := s.log + Map(NewRecord, messages))
    case Begin(r) => if r.messages == [] then s else s.(jobs := s.jobs + [Begun(s, r)])
    case Resume(i) =>
      if i >= |s.jobs| then s
      else
        var j := s.jobs[i];
        State(LogAfterEvent(w.fields, s.log, LogEvent(w, j)), RowsAfter(w, s.rows, j), s.jobs[i := JobAfter(w, s, j)])
  }

  function After(w: World, s: State, moves: seq<Move>): State {
    if moves == [] then s else Moved(w, After(w, s, moves[..|moves| - 1]), moves[|moves| - 1])
  }

  const EMPTY := State([], map[], [])

  // ---------- the code ----------

  class Worker {
    var log: seq<Record>
    var rows: map<Group, Row>
    var jobs: seq<Job>

    constructor ()
      ensures Snapshot() == EMPTY
    {
      log, rows, jobs := [], map[], [];
    }

    function Snapshot(): State
      reads this
    {
      State(log, rows, jobs)
    }

    method SaveRequestLogs(w: World, messages: seq<Message>)
      modifies `log
      ensures Snapshot() == old(Moved(w, Snapshot(), Arrive(messages)))
    {
      log := log + Map(NewRecord, messages);
    }

    /** `memorize` up to its first await: without messages there is nothing to do. */
    method Start(w: World, r: Request)
      modifies `jobs
      ensures Snapshot() == old(Moved(w, Snapshot(), Begin(r)))
    {
      if r.messages == [] {
        return;
      }
      var start := if r.group in rows then rows[r.group].lastMemcell else None;
      jobs := jobs + [Job(r, start, [], Skip, None, Reading)];
    }

    /** A job from one await to the next. */
    method GoOn(w: World, i: nat)
      modifies this
      ensures Snapshot() == old(Moved(w, Snapshot(), Resume(i)))
    {
      if i >= |jobs| {
        return;
      }
      var j := jobs[i];
      var f, g, ids := w.fields, j.request.group, Ids(w.fields, j.request.messages);
      match j.stage {
        case Reading =>
          var history := History(f, log, g, j.start, HISTORY_LIMIT, ids);
          var verdict := w.detect(history, j.request.messages);
          var next := Accepting;
          if verdict.Skip? {
            next := Done;
          } else if verdict.Boundary? {
            next := Closing;
          }
          jobs := jobs[i := j.(history := history, verdict := verdict, stage := next)];
        case Closing =>
          log := Map((r: Record) => Use(f, g, ids, r), log);
          jobs := jobs[i := j.(stage := Accepting)];
        case Accepting =>
          log := Map((r: Record) => Confirm(f, g, ids, r), log);
          var next := Done;
          if j.verdict.Continue? {
            next := LoadingRow;
          } else if j.verdict.Boundary? && j.request.saves {
            next := Saving;
          }
          jobs := jobs[i := j.(stage := next)];
        case LoadingRow =>
          jobs := jobs[i := j.(loaded := if g in rows then Some(rows[g]) else None, stage := WritingRow)];
        case WritingRow =>
          rows := rows[g := ContinueRow(j.loaded, TimesOf(w, j.history, j.request))];
          jobs := jobs[i := j.(stage := Done)];
        case Saving =>
          rows := rows[g := MemcellRow(TimesOf(w, j.history, j.request), w.memcellTime(j.history))];
          jobs := jobs[i := j.(stage := Done)];
        case Done =>
          assert jobs[i := j] == jobs;
      }
    }
  }

  // ---------- the log of a run ----------

  function MoveEvents(w: World, s: State, m: Move): seq<Event> {
    match m
    case Arrive(messages) => [Log(messages)]
    case Begin(_) => []
    case Resume(i) =>
      if i < |s.jobs| && LogEvent(w, s.jobs[i]).Some? then [LogEvent(w, s.jobs[i]).value] else []
  }

  /** The log events of a run. */
  function LogEvents(w: World, s: State, moves: seq<Move>): seq<Event> {
    if moves == [] then []
    else
      var before, m := moves[..|moves| - 1], moves[|moves| - 1];
      LogEvents(w, s, before) + MoveEvents(w, After(w, s, before), m)
  }

  lemma RunFromOne(f: Fields, log: seq<Record>, events: seq<Event>, e: Event)
    ensures GroupQueue.RunFrom(f, log, events + [e]) == MessageLog.Next(f, GroupQueue.RunFrom(f, log, events), e)
  {
    assert (events + [e])[..|events|] == events;
  }

  lemma MoveOnLog(w: World, log: seq<Record>, events: seq<Event>, s: State, m: Move)
    requires s.log == GroupQueue.RunFrom(w.fields, log, events)
    ensures Moved(w, s, m).log == GroupQueue.RunFrom(w.fields, log, events + MoveEvents(w, s, m))
  {
    var more := MoveEvents(w, s, m);
    if more == [] {
      assert events + more == events;
    } else {
      assert more == [more[0]];
      RunFromOne(w.fields, log, events, more[0]);
    }
  }

  /** Whatever the jobs do, their log is a run of the log's events, so what holds of every interleaving of
      those holds of every run of the worker. */
  lemma {:induction false} LogOfRun(w: World, s: State, moves: seq<Move>)
    ensures After(w, s, moves).log == GroupQueue.RunFrom(w.fields, s.log, LogEvents(w, s, moves))
  {
    if moves != [] {
      var before, m := moves[..|moves| - 1], moves[|moves| - 1];
      LogOfRun(w, s, before);
      MoveOnLog(w, s.log, LogEvents(w, s, before), After(w, s, before), m);
    }
  }

  // ---------- a job closes what it has read ----------

  /** Once it has read its history, a job keeps it, with its request, its start time and its verdict. */
  ghost predicate SameJob(j: Job, k: Job) {
    && k.request == j.request && k.start == j.start
    && (!j.stage.Reading? ==> k.history == j.history && k.verdict == j.verdict && !k.stage.Reading?)
    && (!j.stage.Reading? && !j.stage.Closing? ==> !k.stage.Closing?)
  }

  lemma MoveKeepsJob(w: World, s: State, m: Move, i: nat)
    requires i < |s.jobs|
    ensures i < |Moved(w, s, m).jobs| && SameJob(s.jobs[i], Moved(w, s, m).jobs[i])
  {
  }

  lemma {:induction false} RunKeepsJob(w: World, s: State, moves: seq<Move>, i: nat)
    requires i < |s.jobs|
    ensures i < |After(w, s, moves).jobs| && SameJob(s.jobs[i], After(w, s, moves).jobs[i])
  {
    if moves != [] {
      RunKeepsJob(w, s, moves[..|moves| - 1], i);
      MoveKeepsJob(w, After(w, s, moves[..|moves| - 1]), moves[|moves| - 1], i);
    }
  }

  /** The batch that job i closes next. */
  function NextBatch(w: World, s: State, i: nat): seq<Message>
    requires i < |s.jobs|
  {
    ClosedBy(w.fields, s.log, Close(s.jobs[i].request.group, OwnIds(w, s.jobs[i])))
  }

  lemma ReadGives(w: World, s: State, i: nat)
    requires i < |s.jobs| && s.jobs[i].stage.Reading?
    ensures var t, j := Moved(w, s, Resume(i)), s.jobs[i];
      && t.log == s.log && i < |t.jobs| && t.jobs[i].request == j.request && !t.jobs[i].stage.Reading?
      && t.jobs[i].history == History(w.fields, s.log, j.request.group, j.start, HISTORY_LIMIT, OwnIds(w, j))
  {
  }

  lemma NextBatchIs(w: World, t: State, i: nat, log: seq<Record>, between: seq<Event>)
    requires i < |t.jobs| && t.log == GroupQueue.RunFrom(w.fields, log, between)
    ensures NextBatch(w, t, i) == BatchAfter(w.fields, log, between, t.jobs[i].request.group, OwnIds(w, t.jobs[i]))
  {
  }

  lemma ReadThenRun(w: World, s: State, i: nat, moves: seq<Move>)
    requires i < |s.jobs| && s.jobs[i].stage.Reading?
    ensures var read := Moved(w, s, Resume(i));
      var t, g, ids := After(w, read, moves), s.jobs[i].request.group, OwnIds(w, s.jobs[i]);
      && i < |t.jobs| && t.jobs[i].request == s.jobs[i].request
      && t.jobs[i].history == History(w.fields, s.log, g, s.jobs[i].start, HISTORY_LIMIT, ids)
      && NextBatch(w, t, i) == BatchAfter(w.fields, s.log, LogEvents(w, read, moves), g, ids)
  {
    var read := Moved(w, s, Resume(i));
    ReadGives(w, s, i);
    RunKeepsJob(w, read, moves, i);
    LogOfRun(w, read, moves);
    NextBatchIs(w, After(w, read, moves), i, s.log, LogEvents(w, read, moves));
  }

  lemma SeenByJob(w: World, log: seq<Record>, between: seq<Event>, t: State, i: nat, start: Option<int>)
    requires i < |t.jobs| && Distinct(Messages(log) + Logged(between))
    requires var j, g, ids := t.jobs[i], t.jobs[i].request.group, OwnIds(w, t.jobs[i]);
      && NextBatch(w, t, i) == BatchAfter(w.fields, log, between, g, ids)
      && j.history == History(w.fields, log, g, start, HISTORY_LIMIT, ids)
    ensures var j, g, ids := t.jobs[i], t.jobs[i].request.group, OwnIds(w, t.jobs[i]);
      multiset(NextBatch(w, t, i)) == multiset(j.history)
      <==> && SeenUntaken(w.fields, OpenOf(w.fields, log, g), j.history, between, ids)
           && NothingNew(w.fields, between, g, ids)
  {
    SeenExact(w.fields, log, between, t.jobs[i].request.group, start, HISTORY_LIMIT, OwnIds(w, t.jobs[i]));
  }

  /** For every run of the worker: a job is about to close exactly the history it has read if and only if
      every message unclosed when it read was seen and is untaken, or unseen and taken by another job, and
      nothing logged since is left but the job's own messages. */
  lemma JobClosesSeenExact(w: World, s: State, i: nat, moves: seq<Move>)
    requires i < |s.jobs| && s.jobs[i].stage.Reading?
    requires Distinct(Messages(After(w, Moved(w, s, Resume(i)), moves).log))
    ensures var read := Moved(w, s, Resume(i));
      var t, between := After(w, read, moves), LogEvents(w, read, moves);
      var g, ids := s.jobs[i].request.group, OwnIds(w, s.jobs[i]);
      && i < |t.jobs|
      && (multiset(NextBatch(w, t, i)) == multiset(t.jobs[i].history)
          <==> && SeenUntaken(w.fields, OpenOf(w.fields, s.log, g), t.jobs[i].history, between, ids)
               && NothingNew(w.fields, between, g, ids))
  {
    var read := Moved(w, s, Resume(i));
    var between := LogEvents(w, read, moves);
    ReadThenRun(w, s, i, moves);
    LogOfRun(w, read, moves);
    RunFromMessages(w.fields, s.log, between);
    SeenByJob(w, s.log, between, After(w, read, moves), i, s.jobs[i].start);
  }

  /** While no other job closes the group, whatever else is logged and read in between. */
  lemma JobUndisturbedExact(w: World, s: State, i: nat, moves: seq<Move>)
    requires i < |s.jobs| && s.jobs[i].stage.Reading?
    requires NoClose(LogEvents(w, Moved(w, s, Resume(i)), moves), s.jobs[i].request.group)
    ensures var read := Moved(w, s, Resume(i));
      var t, between := After(w, read, moves), LogEvents(w, read, moves);
      var g, ids := s.jobs[i].request.group, OwnIds(w, s.jobs[i]);
      && i < |t.jobs|
      && (multiset(NextBatch(w, t, i)) == multiset(t.jobs[i].history)
          <==> && Complete(w.fields, s.log, g, s.jobs[i].start, HISTORY_LIMIT, ids)
               && OnlyOwnLogged(w.fields, between, g, ids))
  {
    var read := Moved(w, s, Resume(i));
    ReadThenRun(w, s, i, moves);
    UndisturbedExact(w.fields, s.log, LogEvents(w, read, moves), s.jobs[i].request.group, s.jobs[i].start,
                     HISTORY_LIMIT, OwnIds(w, s.jobs[i]));
  }

  // ---------- one request at a time ----------

  /** The moves of a request that is served alone, as job n. */
  function Alone(r: Request, n: nat): seq<Move> {
    [Arrive(r.messages), Begin(r), Resume(n), Resume(n), Resume(n), Resume(n)]
  }

  /** The state after the four moves of job n. */
  function FourMoves(w: World, s: State, n: nat): State {
    Moved(w, Moved(w, Moved(w, Moved(w, s, Resume(n)), Resume(n)), Resume(n)), Resume(n))
  }

  lemma AfterNext(w: World, s: State, moves: seq<Move>, m: Move)
    ensures After(w, s, moves + [m]) == Moved(w, After(w, s, moves), m)
  {
    assert (moves + [m])[..|moves|] == moves;
  }

  lemma {:induction false} AfterConcat(w: World, s: State, a: seq<Move>, b: seq<Move>)
    ensures After(w, s, a + b) == After(w, After(w, s, a), b)
  {
    if b == [] {
      assert a + b == a;
    } else {
      assert (a + b)[..|a + b| - 1] == a + b[..|b| - 1];
      AfterConcat(w, s, a, b[..|b| - 1]);
    }
  }

  function Four(n: nat): seq<Move> { [Resume(n), Resume(n), Resume(n), Resume(n)] }

  lemma FourAreMoved(w: World, s: State, n: nat)
    ensures After(w, s, Four(n)) == FourMoves(w, s, n)
  {
    var none: seq<Move> := [];
    var two := none + [Resume(n)] + [Resume(n)];
    AfterNext(w, s, none, Resume(n));
    AfterNext(w, s, none + [Resume(n)], Resume(n));
    AfterNext(w, s, two, Resume(n));
    AfterNext(w, s, two + [Resume(n)], Resume(n));
    assert two + [Resume(n)] + [Resume(n)] == Four(n);
  }

  lemma BeginsAlone(w: World, s: State, r: Request)
    ensures After(w, s, [Arrive(r.messages), Begin(r)]) == Moved(w, Moved(w, s, Arrive(r.messages)), Begin(r))
  {
    var none: seq<Move> := [];
    AfterNext(w, s, none, Arrive(r.messages));
    AfterNext(w, s, none + [Arrive(r.messages)], Begin(r));
    assert none + [Arrive(r.messages)] + [Begin(r)] == [Arrive(r.messages), Begin(r)];
  }

  lemma AloneIsFour(w: World, s: State, r: Request, n: nat)
    ensures After(w, s, Alone(r, n)) == FourMoves(w, Moved(w, Moved(w, s, Arrive(r.messages)), Begin(r)), n)
  {
    var first := [Arrive(r.messages), Begin(r)];
    BeginsAlone(w, s, r);
    AfterConcat(w, s, first, Four(n));
    FourAreMoved(w, After(w, s, first), n);
    assert first + Four(n) == Alone(r, n);
  }

  ghost predicate SameStore(s: State, t: Store) { s.log == t.log && s.rows == t.rows }

  /** A state in which job n is about to read, alone. */
  ghost predicate Fresh(s: State, n: nat, r: Request) {
    n < |s.jobs| && s.jobs[n] == Job(r, StartTime(s.rows, r.group), [], Skip, None, Reading)
  }

  lemma FourMovesBoundary(w: World, s: State, n: nat, r: Request)
    requires Fresh(s, n, r)
    requires w.detect(Seen(w, s.log, s.rows, r), r.messages).Boundary?
    ensures var t := FourMoves(w, s, n);
      && t.log == Map(MessageLog.Step(w.fields, r.group, Ids(w.fields, r.messages), Boundary), s.log)
      && t.rows == (if r.saves
                    then s.rows[r.group := MemcellRow(TimesOf(w, Seen(w, s.log, s.rows, r), r),
                                                      w.memcellTime(Seen(w, s.log, s.rows, r)))]
                    else s.rows)
      && |t.jobs| == |s.jobs|
  {
    var a := Moved(w, s, Resume(n));
    var b := Moved(w, a, Resume(n));
    TwoSteps(w.fields, r.group, Ids(w.fields, r.messages), s.log);
    assert a.jobs[n].stage.Closing? && b.jobs[n].stage.Accepting?;
  }

  lemma FourMovesOther(w: World, s: State, n: nat, r: Request)
    requires Fresh(s, n, r)
    requires var v := w.detect(Seen(w, s.log, s.rows, r), r.messages); v.Wait? || v.Continue?
    ensures var t, v := FourMoves(w, s, n), w.detect(Seen(w, s.log, s.rows, r), r.messages);
      && t.log == Map(MessageLog.Step(w.fields, r.group, Ids(w.fields, r.messages), v), s.log)
      && t.rows == (if v.Continue?
                    then s.rows[r.group := ContinueRow(RowOf(s.rows, r.group),
                        TimesOf(w, Seen(w, s.log, s.rows, r), r))]
                    else s.rows)
      && |t.jobs| == |s.jobs|
  {
    var a := Moved(w, s, Resume(n));
    var b := Moved(w, a, Resume(n));
    assert a.jobs[n].stage.Accepting?;
    assert b.log == Map(StepOf(w.fields, Accept(r.group, Ids(w.fields, r.messages))), s.log);
  }

  lemma FourMovesSkip(w: World, s: State, n: nat, r: Request)
    requires Fresh(s, n, r)
    requires w.detect(Seen(w, s.log, s.rows, r), r.messages).Skip?
    ensures var t := FourMoves(w, s, n); t.log == s.log && t.rows == s.rows && |t.jobs| == |s.jobs|
  {
  }

  /** A request that no other one disturbs is served as Memorize does it. */
  lemma ServedAlone(w: World, s: State, r: Request)
    ensures SameStore(After(w, s, Alone(r, |s.jobs|)), Handled(w, Store(s.log, s.rows), r))
  {
    var n := |s.jobs|;
    AloneIsFour(w, s, r, n);
    var begun := Moved(w, Moved(w, s, Arrive(r.messages)), Begin(r));
    if r.messages == [] {
      SkipIsIdle(w.fields, r.group, Ids(w.fields, r.messages), begun.log);
      assert FourMoves(w, begun, n) == begun;
    } else {
      assert Fresh(begun, n, r);
      var v := w.detect(Seen(w, begun.log, begun.rows, r), r.messages);
      if v.Boundary? {
        FourMovesBoundary(w, begun, n, r);
      } else if v.Skip? {
        FourMovesSkip(w, begun, n, r);
        SkipIsIdle(w.fields, r.group, Ids(w.fields, r.messages), begun.log);
      } else {
        FourMovesOther(w, begun, n, r);
      }
    }
  }

  /** The moves of requests served one after the other. */
  function InTurn(w: World, requests: seq<Request>): seq<Move> {
    if requests == [] then []
    else
      var before := InTurn(w, requests[..|requests| - 1]);
      before + Alone(requests[|requests| - 1], |After(w, EMPTY, before).jobs|)
  }

  /** Requests served one at a time are runs of the worker. */
  lemma {:induction false} StoreIsRun(w: World, requests: seq<Request>)
    ensures SameStore(After(w, EMPTY, InTurn(w, requests)), StoreAfter(w, requests))
  {
    if requests != [] {
      var before, r := requests[..|requests| - 1], requests[|requests| - 1];
      var s := After(w, EMPTY, InTurn(w, before));
      StoreIsRun(w, before);
      AfterConcat(w, EMPTY, InTurn(w, before), Alone(r, |s.jobs|));
      ServedAlone(w, s, r);
    }
  }
}
