/** What one job does to the log and to its group's status row, from its first database access to its last,
    whatever the other jobs do in between. */
module JobTraces {
  import opened Outcomes
  import opened Sequences
  import opened MessageLog
  import opened GroupQueue
  import opened Accumulation
  import opened StatusRow
  import opened Memorize
  import opened Jobs

  /** The log events that job i makes during a run. */
  function EventsBy(w: World, s: State, moves: seq<Move>, i: nat): seq<Event> {
    if moves == [] then []
    else
      var before, m := moves[..|moves| - 1], moves[|moves| - 1];
      EventsBy(w, s, before, i) + (if m == Resume(i) then MoveEvents(w, After(w, s, before), m) else [])
  }

  /** The groups and the rows that job i writes during a run. */
  function WritesBy(w: World, s: State, moves: seq<Move>, i: nat): seq<(Group, Option<Row>)> {
    if moves == [] then []
    else
      var before, m := moves[..|moves| - 1], moves[|moves| - 1];
      var t := After(w, s, before);
      WritesBy(w, s, before, i)
      + (if m == Resume(i) && i < |t.jobs| && !Writing(w, t.jobs[i]).Keep?
         then [(t.jobs[i].request.group, RowOf(Moved(w, t, m).rows, t.jobs[i].request.group))] else [])
  }

  // ---------- the events of a job ----------

  /** Everything a job does to the log: it reads; with a boundary it closes; and unless there is no verdict it
      confirms its own messages, last. */
  function Script(g: Group, ids: seq<Id>, verdict: Verdict): seq<Event> {
    match verdict
    case Skip => [Read(g, ids)]
    case Wait => [Read(g, ids), Accept(g, ids)]
    case Continue => [Read(g, ids), Accept(g, ids)]
    case Boundary => [Read(g, ids), Close(g, ids), Accept(g, ids)]
  }

  /** How much of it a job has done. */
  ghost predicate OnScript(w: World, j: Job, events: seq<Event>) {
    var g, ids := j.request.group, OwnIds(w, j);
    match j.stage
    case Reading => events == []
    case Closing => j.verdict.Boundary? && events == [Read(g, ids)]
    case Accepting => !j.verdict.Skip? && events + [Accept(g, ids)] == Script(g, ids, j.verdict)
    case LoadingRow => j.verdict.Continue? && events == Script(g, ids, j.verdict)
    case WritingRow => j.verdict.Continue? && events == Script(g, ids, j.verdict)
    case Saving => j.verdict.Boundary? && j.request.saves && events == Script(g, ids, j.verdict)
    case Done => events == Script(g, ids, j.verdict)
  }

  /** Once it has read, a job's verdict is the detector's on what it read. */
  ghost predicate Judged(w: World, j: Job) {
    !j.stage.Reading? ==> j.verdict == w.detect(j.history, j.request.messages)
  }

  lemma OnScriptNext(w: World, s: State, i: nat, events: seq<Event>)
    requires i < |s.jobs| && OnScript(w, s.jobs[i], events) && Judged(w, s.jobs[i])
    ensures var k := JobAfter(w, s, s.jobs[i]);
      OnScript(w, k, events + MoveEvents(w, s, Resume(i))) && Judged(w, k)
  {
    assert events + [] == events;
  }

  lemma JobAt(w: World, s: State, m: Move, i: nat)
    requires i < |s.jobs|
    ensures i < |Moved(w, s, m).jobs|
    ensures Moved(w, s, m).jobs[i] == if m == Resume(i) then JobAfter(w, s, s.jobs[i]) else s.jobs[i]
  {
  }

  lemma EventsNext(w: World, s: State, moves: seq<Move>, i: nat)
    requires moves != []
    ensures var before, m := moves[..|moves| - 1], moves[|moves| - 1];
      EventsBy(w, s, moves, i)
      == if m == Resume(i) then EventsBy(w, s, before, i) + MoveEvents(w, After(w, s, before), m)
         else EventsBy(w, s, before, i)
  {
  }

  /** Over every run: a job follows the script of its verdict step by step, and has done all of it, each part
      once, when it is done. */
  lemma {:induction false} JobTrace(w: World, s: State, moves: seq<Move>, i: nat)
    requires i < |s.jobs| && s.jobs[i].stage.Reading?
    ensures i < |After(w, s, moves).jobs|
    ensures var j := After(w, s, moves).jobs[i]; OnScript(w, j, EventsBy(w, s, moves, i)) && Judged(w, j)
  {
    if moves != [] {
      var before, m := moves[..|moves| - 1], moves[|moves| - 1];
      JobTrace(w, s, before, i);
      JobAt(w, After(w, s, before), m, i);
      EventsNext(w, s, moves, i);
      if m == Resume(i) {
        OnScriptNext(w, After(w, s, before), i, EventsBy(w, s, before, i));
      }
    }
  }

  // ---------- the row a job writes ----------

  function LastTime(w: World, messages: seq<Message>): Option<int> {
    if messages == [] then None else w.time(messages[|messages| - 1])
  }

  function FirstTime(w: World, messages: seq<Message>): Option<int> {
    if messages == [] then None else w.time(messages[0])
  }

  function Or(t: Option<int>, other: int): int { if t.Some? then t.value else other }

  /** The row of a conversation that goes on: the new messages start after the last one, or after now. */
  predicate ContinuedRow(w: World, r: Request, was: Option<Row>, row: Row) {
    && row.newStart == Or(LastTime(w, r.messages), r.current) + 1
    && (was.None? ==> row.oldStart.None? && row.lastMemcell.None?)
    && (was.Some? ==> row.oldStart == was.value.oldStart && row.lastMemcell == was.value.lastMemcell)
  }

  /** The row after a memcell: the old messages start with the first of the request, or after the history, or
      now; the new ones after the last of the request, or now. */
  predicate MemcellRowFits(w: World, history: seq<Message>, r: Request, row: Row) {
    && (LastTime(w, r.messages).Some? ==> row.newStart == LastTime(w, r.messages).value + 1)
    && (LastTime(w, r.messages).None? ==> row.newStart == r.current)
    && row.lastMemcell == Some(w.memcellTime(history))
    && row.oldStart.Some?
    && (FirstTime(w, r.messages).Some? ==> row.oldStart == FirstTime(w, r.messages))
    && (FirstTime(w, r.messages).None? && LastTime(w, history).Some? ==>
          row.oldStart.value == LastTime(w, history).value + 1)
    && (FirstTime(w, r.messages).None? && LastTime(w, history).None? ==> row.oldStart.value == r.current)
  }

  /** What a finished job has written: a continuing conversation and a saved memcell one row each, anything else
      none. */
  ghost predicate WritesFit(w: World, j: Job, writes: seq<(Group, Option<Row>)>) {
    if j.verdict.Continue? then
      && |writes| == 1 && writes[0].0 == j.request.group && writes[0].1.Some?
      && ContinuedRow(w, j.request, j.loaded, writes[0].1.value)
    else if j.verdict.Boundary? && j.request.saves then
      && |writes| == 1 && writes[0].0 == j.request.group && writes[0].1.Some?
      && MemcellRowFits(w, j.history, j.request, writes[0].1.value)
    else writes == []
  }

  ghost predicate WritesSoFar(w: World, j: Job, writes: seq<(Group, Option<Row>)>) {
    && (j.stage.Done? ==> WritesFit(w, j, writes))
    && (!j.stage.Done? ==> writes == [])
    && (j.stage.Closing? ==> j.verdict.Boundary?)
    && (j.stage.LoadingRow? || j.stage.WritingRow? ==> j.verdict.Continue?)
    && (j.stage.Saving? ==> j.verdict.Boundary? && j.request.saves)
  }

  lemma RowWritten(w: World, s: State, i: nat)
    requires i < |s.jobs|
    ensures var j, row := s.jobs[i], RowOf(Moved(w, s, Resume(i)).rows, s.jobs[i].request.group);
      && (Writing(w, j).Keep? <==> !j.stage.WritingRow? && !j.stage.Saving?)
      && (j.stage.WritingRow? ==> row.Some? && ContinuedRow(w, j.request, j.loaded, row.value))
      && (j.stage.Saving? ==> row.Some? && MemcellRowFits(w, j.history, j.request, row.value))
  {
  }

  lemma WritesNext(w: World, s: State, i: nat, writes: seq<(Group, Option<Row>)>)
    requires i < |s.jobs| && WritesSoFar(w, s.jobs[i], writes)
    ensures var j, k := s.jobs[i], JobAfter(w, s, s.jobs[i]);
      && (Writing(w, j).Keep? ==> WritesSoFar(w, k, writes))
      && (!Writing(w, j).Keep? ==>
            WritesSoFar(w, k, writes + [(j.request.group, RowOf(Moved(w, s, Resume(i)).rows, j.request.group))]))
  {
    RowWritten(w, s, i);
  }

  lemma WritesByNext(w: World, s: State, moves: seq<Move>, i: nat)
    requires moves != [] && i < |After(w, s, moves[..|moves| - 1]).jobs|
    ensures var before, m := moves[..|moves| - 1], moves[|moves| - 1];
      var t := After(w, s, before);
      WritesBy(w, s, moves, i)
      == if m == Resume(i) && !Writing(w, t.jobs[i]).Keep?
         then WritesBy(w, s, before, i)
             + [(t.jobs[i].request.group, RowOf(Moved(w, t, m).rows, t.jobs[i].request.group))]
         else WritesBy(w, s, before, i)
  {
  }

  /** Over every run: when a job is done it has written the row of its group exactly as its verdict asks, with the
      fallbacks for messages without times. */
  lemma {:induction false} JobWrites(w: World, s: State, moves: seq<Move>, i: nat)
    requires i < |s.jobs| && s.jobs[i].stage.Reading?
    ensures i < |After(w, s, moves).jobs|
    ensures WritesSoFar(w, After(w, s, moves).jobs[i], WritesBy(w, s, moves, i))
  {
    if moves != [] {
      var before, m := moves[..|moves| - 1], moves[|moves| - 1];
      JobWrites(w, s, before, i);
      JobAt(w, After(w, s, before), m, i);
      WritesByNext(w, s, moves, i);
      if m == Resume(i) {
        WritesNext(w, After(w, s, before), i, WritesBy(w, s, before, i));
      }
    }
  }

  /** The rows of the other groups stay as they are. */
  lemma OtherRowsStay(w: World, s: State, i: nat, g: Group)
    requires i < |s.jobs| && g != s.jobs[i].request.group
    ensures RowOf(Moved(w, s, Resume(i)).rows, g) == RowOf(s.rows, g)
  {
  }

  // ---------- a request served alone ----------

  /** The row of a group and a request served alone. */
  lemma ServedRow(w: World, s: Store, r: Request)
    requires r.messages != []
    ensures var history := Seen(w, Arrived(s, r), s.rows, r);
      var verdict := w.detect(history, r.messages);
      var was, row := RowOf(s.rows, r.group), RowOf(Handled(w, s, r).rows, r.group);
      && (verdict.Skip? || verdict.Wait? || (verdict.Boundary? && !r.saves) ==> row == was)
      && (verdict.Continue? ==> row.Some? && ContinuedRow(w, r, was, row.value))
      && (verdict.Boundary? && r.saves ==> row.Some? && MemcellRowFits(w, history, r, row.value))
    ensures forall g :: g != r.group ==> RowOf(Handled(w, s, r).rows, g) == RowOf(s.rows, g)
  {
  }

  /** A request without messages changes nothing. */
  lemma EmptyRequest(w: World, s: Store, r: Request)
    requires r.messages == []
    ensures Handled(w, s, r) == s
  {
    var log := Arrived(s, r);
    assert log == s.log;
    assert Map(TurnStep(w.fields, TurnOf(w, log, s.rows, r)), log) == log;
  }
}
