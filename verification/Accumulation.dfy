/** What `memorize` promises about the conversation log: an open accumulation per group, closed batch
    by batch. */
module Accumulation {
  import opened Outcomes
  import opened Sequences
  import opened StableSort
  import opened MessageLog
  import opened GroupQueue

  /** One request: its messages are logged, then `memorize` runs on them. Without messages the call
      returns before it touches the log. */
  datatype Turn = Turn(group: Group, messages: seq<Message>, verdict: Verdict)

  /** The non-empty message ids of a request. */
  function Ids(f: Fields, messages: seq<Message>): seq<Id> {
    if messages == [] then []
    else
      var last := messages[|messages| - 1];
      Ids(f, messages[..|messages| - 1]) + (if f.id(last).Some? then [f.id(last).value] else [])
  }

  lemma {:induction false} IdsHave(f: Fields, messages: seq<Message>, m: Message)
    requires m in messages
    ensures f.id(m).Some? <==> HasIdIn(f, m, Ids(f, messages))
  {
    if m != messages[|messages| - 1] {
      IdsHave(f, messages[..|messages| - 1], m);
    }
  }

  function TurnStep(f: Fields, t: Turn): Record -> Record {
    Step(f, t.group, Ids(f, t.messages), if t.messages == [] then Skip else t.verdict)
  }

  function WithNew(log: seq<Record>, t: Turn): seq<Record> {
    log + Map(NewRecord, t.messages)
  }

  /** The log after a sequence of requests, one after the other. */
  function LogAfter(f: Fields, turns: seq<Turn>): seq<Record> {
    if turns == [] then []
    else
      var n := |turns| - 1;
      Map(TurnStep(f, turns[n]), WithNew(LogAfter(f, turns[..n]), turns[n]))
  }

  /** The batches closed for group g, in order. */
  function ClosedBatches(f: Fields, turns: seq<Turn>, g: Group): seq<seq<Message>> {
    if turns == [] then []
    else
      var n := |turns| - 1;
      var t := turns[n];
      ClosedBatches(f, turns[..n], g)
      + (if t.group == g && t.verdict.Boundary? && t.messages != []
         then [Those(Closes(TurnStep(f, t)), WithNew(LogAfter(f, turns[..n]), t))] else [])
  }

  // ---------- requests one after the other are runs ----------

  function AfterVerdict(g: Group, ids: seq<Id>, verdict: Verdict): seq<Event> {
    match verdict
    case Skip => []
    case Wait => [Accept(g, ids)]
    case Continue => [Accept(g, ids)]
    case Boundary => [Close(g, ids), Accept(g, ids)]
  }

  /** The events of one request, in the order of the code. */
  function EventsOfTurn(f: Fields, t: Turn): seq<Event> {
    var ids := Ids(f, t.messages);
    if t.messages == [] then [Log(t.messages)]
    else [Log(t.messages), Read(t.group, ids)] + AfterVerdict(t.group, ids, t.verdict)
  }

  function EventsOf(f: Fields, turns: seq<Turn>): seq<Event> {
    if turns == [] then [] else EventsOf(f, turns[..|turns| - 1]) + EventsOfTurn(f, turns[|turns| - 1])
  }

  lemma RunAppend(f: Fields, events: seq<Event>, e: Event)
    ensures Run(f, events + [e]) == Next(f, Run(f, events), e)
  {
    assert (events + [e])[..|events|] == events;
  }

  lemma TwoSteps(f: Fields, g: Group, ids: seq<Id>, log: seq<Record>)
    ensures Map(StepOf(f, Accept(g, ids)), Map(StepOf(f, Close(g, ids)), log)) == Map(Step(f, g, ids, Boundary), log)
  {
  }

  lemma BoundaryIsRun(f: Fields, events: seq<Event>, g: Group, ids: seq<Id>)
    ensures Run(f, events + [Close(g, ids), Accept(g, ids)]) == Map(Step(f, g, ids, Boundary), Run(f, events))
  {
    var closed := events + [Close(g, ids)];
    RunAppend(f, events, Close(g, ids));
    RunAppend(f, closed, Accept(g, ids));
    TwoSteps(f, g, ids, Run(f, events));
    assert events + [Close(g, ids), Accept(g, ids)] == closed + [Accept(g, ids)];
  }

  lemma NoBoundaryIsRun(f: Fields, events: seq<Event>, g: Group, ids: seq<Id>, verdict: Verdict)
    requires verdict.Wait? || verdict.Continue?
    ensures Run(f, events + [Accept(g, ids)]) == Map(Step(f, g, ids, verdict), Run(f, events))
  {
    RunAppend(f, events, Accept(g, ids));
  }

  lemma SkipIsIdle(f: Fields, g: Group, ids: seq<Id>, log: seq<Record>)
    ensures Map(Step(f, g, ids, Skip), log) == log
  {
  }

  lemma VerdictIsRun(f: Fields, events: seq<Event>, g: Group, ids: seq<Id>, verdict: Verdict)
    ensures Run(f, events + AfterVerdict(g, ids, verdict)) == Map(Step(f, g, ids, verdict), Run(f, events))
  {
    match verdict
    case Skip =>
      SkipIsIdle(f, g, ids, Run(f, events));
      assert events + AfterVerdict(g, ids, Skip) == events;
    case Wait => NoBoundaryIsRun(f, events, g, ids, Wait);
    case Continue => NoBoundaryIsRun(f, events, g, ids, Continue);
    case Boundary => BoundaryIsRun(f, events, g, ids);
  }

  lemma TurnIsRun(f: Fields, events: seq<Event>, t: Turn)
    ensures Run(f, events + EventsOfTurn(f, t)) == Map(TurnStep(f, t), WithNew(Run(f, events), t))
  {
    var ids, logged := Ids(f, t.messages), events + [Log(t.messages)];
    RunAppend(f, events, Log(t.messages));
    if t.messages == [] {
      SkipIsIdle(f, t.group, ids, WithNew(Run(f, events), t));
    } else {
      var seen := logged + [Read(t.group, ids)];
      RunAppend(f, logged, Read(t.group, ids));
      VerdictIsRun(f, seen, t.group, ids, t.verdict);
      assert events + EventsOfTurn(f, t) == seen + AfterVerdict(t.group, ids, t.verdict);
    }
  }

  /** Requests one after the other are runs of the log's events. */
  lemma {:induction false} TurnsAreRuns(f: Fields, turns: seq<Turn>)
    ensures Run(f, EventsOf(f, turns)) == LogAfter(f, turns)
  {
    if turns != [] {
      var n := |turns| - 1;
      TurnsAreRuns(f, turns[..n]);
      TurnIsRun(f, EventsOf(f, turns[..n]), turns[n]);
    }
  }

  // ---------- the abstract machine ----------

  /** What the protocol is meant to be: batches already closed and the one being accumulated. */
  datatype Window = Window(closed: seq<seq<Message>>, open: seq<Message>)

  function WindowAfter(turns: seq<Turn>, g: Group): Window {
    if turns == [] then Window([], [])
    else
      var t, w := turns[|turns| - 1], WindowAfter(turns[..|turns| - 1], g);
      if t.group != g || t.messages == [] then w
      else if t.verdict.Boundary? then Window(w.closed + [w.open], t.messages)
      else Window(w.closed, w.open + t.messages)
  }

  /** All messages of a group, in arrival order. */
  function Arrivals(turns: seq<Turn>, g: Group): seq<Message> {
    if turns == [] then []
    else Arrivals(turns[..|turns| - 1], g) + (if turns[|turns| - 1].group == g then turns[|turns| - 1].messages else [])
  }

  /** All messages of all groups, in arrival order. */
  function Everyone(turns: seq<Turn>): seq<Message> {
    if turns == [] then [] else Everyone(turns[..|turns| - 1]) + turns[|turns| - 1].messages
  }

  /** Every message carries an id that no earlier request used, and its request's group. */
  ghost predicate FreshIds(f: Fields, turns: seq<Turn>) {
    turns == [] ||
    var t, before := turns[|turns| - 1], turns[..|turns| - 1];
    && FreshIds(f, before)
    && FreshTurn(f, Everyone(before), t)
  }

  ghost predicate FreshTurn(f: Fields, before: seq<Message>, t: Turn) {
    && (forall m :: m in t.messages ==> f.group(m) == t.group && f.id(m).Some?)
    && (forall m :: m in before ==> !HasIdIn(f, m, Ids(f, t.messages)))
  }

  lemma {:induction false} LogHoldsEveryone(f: Fields, turns: seq<Turn>)
    ensures Map(MessageOf, LogAfter(f, turns)) == Everyone(turns)
  {
    if turns != [] {
      var t, before := turns[|turns| - 1], turns[..|turns| - 1];
      var log := LogAfter(f, before);
      LogHoldsEveryone(f, before);
      MapConcat(MessageOf, log, Map(NewRecord, t.messages));
      assert Map(MessageOf, Map(NewRecord, t.messages)) == t.messages;
      assert Map(MessageOf, Map(TurnStep(f, t), WithNew(log, t))) == Map(MessageOf, WithNew(log, t));
    }
  }

  lemma RecordsOf(log: seq<Record>, r: Record)
    requires r in log
    ensures r.message in Map(MessageOf, log)
  {
    var i :| 0 <= i < |log| && log[i] == r;
    assert Map(MessageOf, log)[i] == r.message;
  }

  lemma {:induction false} WindowHoldsArrivals(turns: seq<Turn>, g: Group)
    ensures Flatten(WindowAfter(turns, g).closed) + WindowAfter(turns, g).open == Arrivals(turns, g)
  {
    if turns != [] {
      var t, w := turns[|turns| - 1], WindowAfter(turns[..|turns| - 1], g);
      WindowHoldsArrivals(turns[..|turns| - 1], g);
      if t.group == g && t.messages != [] && t.verdict.Boundary? {
        assert (w.closed + [w.open])[..|w.closed|] == w.closed;
      }
    }
  }

  // ---------- one request against the log ----------

  lemma NewOnes(p: Record -> bool, messages: seq<Message>)
    requires forall m :: m in messages ==> p(NewRecord(m))
    ensures Those(p, Map(NewRecord, messages)) == messages
  {
    forall r | r in Map(NewRecord, messages) ensures p(r) {
      assert r.message in messages;
    }
    ThoseAll(p, Map(NewRecord, messages));
    assert Map(MessageOf, Map(NewRecord, messages)) == messages;
  }

  lemma NoNewOnes(p: Record -> bool, messages: seq<Message>)
    requires forall m :: m in messages ==> !p(NewRecord(m))
    ensures Those(p, Map(NewRecord, messages)) == []
  {
    forall r | r in Map(NewRecord, messages) ensures !p(r) {
      assert r.message in messages;
    }
    ThoseNone(p, Map(NewRecord, messages));
  }

  function AfterTurn(f: Fields, log: seq<Record>, t: Turn): seq<Record> {
    Map(TurnStep(f, t), WithNew(log, t))
  }

  /** A turn acts on the queue of a group as its events do. */
  lemma TurnOnOpen(f: Fields, log: seq<Record>, t: Turn, g: Group)
    ensures var all := OpenOf(f, log, g) + Filter(InGroup(f, g), t.messages);
      OpenOf(f, AfterTurn(f, log, t), g)
      == if t.messages != [] && t.verdict.Boundary? && t.group == g
         then Filter(Own(f, Ids(f, t.messages)), all)
         else all
  {
    var ids, logged := Ids(f, t.messages), WithNew(log, t);
    EventOnOpen(f, log, Log(t.messages), g);
    if t.messages == [] || t.verdict.Skip? {
      SkipIsIdle(f, t.group, ids, logged);
    } else if t.verdict.Boundary? {
      TwoSteps(f, t.group, ids, logged);
      CloseOnOpen(f, logged, t.group, ids, g);
      AcceptOnOpen(f, Map(StepOf(f, Close(t.group, ids)), logged), t.group, ids, g);
    } else {
      AcceptOnOpen(f, logged, t.group, ids, g);
      assert AfterTurn(f, log, t) == Map(StepOf(f, Accept(t.group, ids)), logged);
    }
  }

  lemma TurnCloses(f: Fields, log: seq<Record>, t: Turn)
    requires t.messages != [] && t.verdict.Boundary?
    ensures Those(Closes(TurnStep(f, t)), log)
            == Filter(Foreign(f, Ids(f, t.messages)), OpenOf(f, log, t.group))
  {
    var ids := Ids(f, t.messages);
    ThoseFilter(Unclosed(f, t.group), Foreign(f, ids), Closes(TurnStep(f, t)), log);
  }

  /** Requests of one group leave the accumulations of the others alone. */
  lemma OtherGroupsUntouched(f: Fields, log: seq<Record>, t: Turn, g: Group)
    requires t.group != g && forall m :: m in t.messages ==> f.group(m) == t.group
    ensures OpenOf(f, AfterTurn(f, log, t), g) == OpenOf(f, log, g)
  {
    TurnOnOpen(f, log, t, g);
    FilterNone(InGroup(f, g), t.messages);
  }

  /** Without a boundary the new messages join the accumulation. */
  lemma NoBoundaryAppends(f: Fields, log: seq<Record>, t: Turn)
    requires !t.verdict.Boundary? && forall m :: m in t.messages ==> f.group(m) == t.group
    ensures OpenOf(f, AfterTurn(f, log, t), t.group) == OpenOf(f, log, t.group) + t.messages
  {
    TurnOnOpen(f, log, t, t.group);
    FilterAll(InGroup(f, t.group), t.messages);
  }

  lemma NewIdsOwn(f: Fields, t: Turn)
    requires forall m :: m in t.messages ==> f.group(m) == t.group && f.id(m).Some?
    ensures Filter(Own(f, Ids(f, t.messages)), t.messages) == t.messages
    ensures Filter(Foreign(f, Ids(f, t.messages)), t.messages) == []
  {
    forall m | m in t.messages ensures HasIdIn(f, m, Ids(f, t.messages)) {
      IdsHave(f, t.messages, m);
    }
    FilterAll(Own(f, Ids(f, t.messages)), t.messages);
    FilterNone(Foreign(f, Ids(f, t.messages)), t.messages);
  }

  /** A boundary on fresh ids closes the old accumulation and opens one with the new messages. */
  lemma BoundaryTurnsOver(f: Fields, log: seq<Record>, t: Turn)
    requires t.verdict.Boundary? && t.messages != []
    requires forall m :: m in t.messages ==> f.group(m) == t.group && f.id(m).Some?
    requires forall r :: r in log && Unclosed(f, t.group)(r) ==> !HasIdIn(f, r.message, Ids(f, t.messages))
    ensures Those(Closes(TurnStep(f, t)), WithNew(log, t)) == OpenOf(f, log, t.group)
    ensures OpenOf(f, AfterTurn(f, log, t), t.group) == t.messages
  {
    var ids, open := Ids(f, t.messages), OpenOf(f, log, t.group);
    TurnOnOpen(f, log, t, t.group);
    TurnCloses(f, WithNew(log, t), t);
    EventOnOpen(f, log, Log(t.messages), t.group);
    FilterAll(InGroup(f, t.group), t.messages);
    NewIdsOwn(f, t);
    forall m | m in open ensures !HasIdIn(f, m, ids) {
      ThoseHave(Unclosed(f, t.group), log, m);
    }
    FilterConcat(Own(f, ids), open, t.messages);
    FilterConcat(Foreign(f, ids), open, t.messages);
    FilterNone(Own(f, ids), open);
    FilterAll(Foreign(f, ids), open);
  }

  /** Whole runs: the log and the batches closed from it are those of the abstract machine, group by
      group, so closed batches followed by the open one give the arrival order. */
  lemma {:induction false} LogRefinesWindow(f: Fields, turns: seq<Turn>, g: Group)
    requires FreshIds(f, turns)
    ensures Those(Unclosed(f, g), LogAfter(f, turns)) == WindowAfter(turns, g).open
    ensures ClosedBatches(f, turns, g) == WindowAfter(turns, g).closed
    ensures Flatten(ClosedBatches(f, turns, g)) + Those(Unclosed(f, g), LogAfter(f, turns)) == Arrivals(turns, g)
  {
    WindowHoldsArrivals(turns, g);
    if turns != [] {
      var t, before := turns[|turns| - 1], turns[..|turns| - 1];
      LogRefinesWindow(f, before, g);
      LogHoldsEveryone(f, before);
      TurnOnLog(f, LogAfter(f, before), t, g);
    }
  }

  /** One request on a log: what becomes of each group's accumulation. */
  lemma TurnOnLog(f: Fields, log: seq<Record>, t: Turn, g: Group)
    requires FreshTurn(f, Map(MessageOf, log), t)
    ensures var open := Those(Unclosed(f, g), log);
      OpenOf(f, AfterTurn(f, log, t), g)
      == if t.group != g || t.messages == [] then open
         else if t.verdict.Boundary? then t.messages
         else open + t.messages
    ensures t.group == g && t.messages != [] && t.verdict.Boundary? ==>
      Those(Closes(TurnStep(f, t)), WithNew(log, t)) == Those(Unclosed(f, g), log)
  {
    if t.group != g {
      OtherGroupsUntouched(f, log, t, g);
    } else if t.messages == [] {
      NoBoundaryAppends(f, log, t.(verdict := Skip));
    } else if t.verdict.Boundary? {
      forall r | r in log ensures !HasIdIn(f, r.message, Ids(f, t.messages)) {
        RecordsOf(log, r);
      }
      BoundaryTurnsOver(f, log, t);
    } else {
      NoBoundaryAppends(f, log, t);
    }
  }

  // ---------- exactly when a boundary turns the accumulation over ----------

  /** p selects a part of what q selects: all of it exactly when the counts agree. */
  lemma {:induction false} CountPart(p: Record -> bool, q: Record -> bool, log: seq<Record>)
    requires forall r :: p(r) ==> q(r)
    ensures |Those(p, log)| <= |Those(q, log)|
    ensures |Those(p, log)| == |Those(q, log)| <==> forall r :: r in log && q(r) ==> p(r)
  {
    if log != [] {
      var rest, last := log[..|log| - 1], log[|log| - 1];
      assert log == rest + [last];
      CountPart(p, q, rest);
    }
  }

  /** No message of the group is pending, the new ids are not among its unclosed messages, and every
      new message carries an id. */
  ghost predicate CleanTurn(f: Fields, log: seq<Record>, t: Turn) {
    && (forall r :: r in log && Unclosed(f, t.group)(r) ==> r.status.Open?)
    && (forall r :: r in log && Unclosed(f, t.group)(r) ==> !HasIdIn(f, r.message, Ids(f, t.messages)))
    && (forall m :: m in t.messages ==> f.id(m).Some?)
  }

  ghost predicate TurnsOver(f: Fields, log: seq<Record>, t: Turn) {
    && Those(Closes(TurnStep(f, t)), WithNew(log, t)) == Those(Accumulating(f, t.group), log)
    && OpenOf(f, AfterTurn(f, log, t), t.group) == t.messages
  }

  /** From any log: a boundary closes exactly the confirmed accumulation and opens exactly the new
      messages if and only if the turn is clean. */
  lemma BoundaryExact(f: Fields, log: seq<Record>, t: Turn)
    requires t.verdict.Boundary? && t.messages != [] && forall m :: m in t.messages ==> f.group(m) == t.group
    ensures TurnsOver(f, log, t) <==> CleanTurn(f, log, t)
  {
    if TurnsOver(f, log, t) {
      TurnedOverWasClean(f, log, t);
    }
    if CleanTurn(f, log, t) {
      BoundaryTurnsOver(f, log, t);
      ThoseAgree(Accumulating(f, t.group), Unclosed(f, t.group), log);
    }
  }

  lemma {:induction false} BoundaryDivides(f: Fields, t: Turn, log: seq<Record>)
    ensures |Those(Closes(TurnStep(f, t)), log)| + |Those(AfterStep(Unclosed(f, t.group), TurnStep(f, t)), log)|
            == |Those(Unclosed(f, t.group), log)|
  {
    if log != [] {
      BoundaryDivides(f, t, log[..|log| - 1]);
    }
  }

  lemma NothingPending(f: Fields, log: seq<Record>, t: Turn)
    requires forall m :: m in t.messages ==> f.group(m) == t.group
    requires TurnsOver(f, log, t)
    ensures forall r :: r in log && Unclosed(f, t.group)(r) ==> r.status.Open?
  {
    var open := Unclosed(f, t.group);
    BoundaryDivides(f, t, WithNew(log, t));
    ThoseAfter(open, TurnStep(f, t), WithNew(log, t));
    ThoseConcat(open, log, Map(NewRecord, t.messages));
    NewOnes(open, t.messages);
    CountPart(Accumulating(f, t.group), open, log);
  }

  lemma ClosedWasNotResent(f: Fields, log: seq<Record>, t: Turn, m: Message)
    requires t.verdict.Boundary? && t.messages != [] && m in Those(Closes(TurnStep(f, t)), log)
    ensures !HasIdIn(f, m, Ids(f, t.messages))
  {
    ThoseHave(Closes(TurnStep(f, t)), log, m);
  }

  lemma LeftHasId(f: Fields, log: seq<Record>, t: Turn, m: Message)
    requires t.verdict.Boundary? && t.messages != [] && m in Those(AfterStep(Unclosed(f, t.group), TurnStep(f, t)), log)
    ensures HasIdIn(f, m, Ids(f, t.messages))
  {
    ThoseHave(AfterStep(Unclosed(f, t.group), TurnStep(f, t)), log, m);
  }

  lemma TurnedOverWasClean(f: Fields, log: seq<Record>, t: Turn)
    requires t.verdict.Boundary? && t.messages != [] && forall m :: m in t.messages ==> f.group(m) == t.group
    requires TurnsOver(f, log, t)
    ensures CleanTurn(f, log, t)
  {
    NothingPending(f, log, t);
    forall r | r in log && Unclosed(f, t.group)(r) ensures !HasIdIn(f, r.message, Ids(f, t.messages)) {
      ThoseHold(Accumulating(f, t.group), log, r);
      ClosedWasNotResent(f, WithNew(log, t), t, r.message);
    }
    ThoseAfter(Unclosed(f, t.group), TurnStep(f, t), WithNew(log, t));
    forall m | m in t.messages ensures f.id(m).Some? {
      LeftHasId(f, WithNew(log, t), t, m);
    }
  }

  // ---------- what the boundary detector sees ----------

  function ByAge(f: Fields): Message -> real {
    (m: Message) => -(f.created(m) as real)
  }

  function Messages(log: seq<Record>): seq<Message> { Map(MessageOf, log) }

  /** Messages are logged in the order of their creation times. */
  ghost predicate Aged(f: Fields, messages: seq<Message>) {
    forall i, j :: 0 <= i < j < |messages| ==> f.created(messages[i]) <= f.created(messages[j])
  }

  lemma AgedSplit(f: Fields, a: seq<Message>, b: seq<Message>, x: Message, y: Message)
    requires Aged(f, a + b) && x in a && y in b
    ensures f.created(x) <= f.created(y)
  {
    var i :| 0 <= i < |a| && a[i] == x;
    var j :| 0 <= j < |b| && b[j] == y;
    assert (a + b)[i] == x && (a + b)[|a| + j] == y;
  }

  lemma AgedPrefix(f: Fields, a: seq<Message>, b: seq<Message>)
    requires Aged(f, a + b)
    ensures Aged(f, a)
  {
    forall i, j | 0 <= i < j < |a| ensures f.created(a[i]) <= f.created(a[j]) {
      assert (a + b)[i] == a[i] && (a + b)[j] == a[j];
    }
  }

  /** Messages selected from a log in creation order are in creation order. */
  lemma {:induction false} ThoseAged(f: Fields, p: Record -> bool, log: seq<Record>)
    requires Aged(f, Messages(log))
    ensures Descending(Those(p, log), ByAge(f))
  {
    if log != [] {
      var rest, last := log[..|log| - 1], log[|log| - 1];
      assert Messages(log) == Messages(rest) + [last.message];
      AgedPrefix(f, Messages(rest), [last.message]);
      ThoseAged(f, p, rest);
      forall m | m in Those(p, rest) ensures ByAge(f)(m) >= ByAge(f)(last.message) {
        ThoseHave(p, rest, m);
        var rec :| rec in rest && rec.message == m;
        RecordsOf(rest, rec);
        AgedSplit(f, Messages(rest), [last.message], m, last.message);
      }
    }
  }

  /** The records a history query matches. */
  function Matches(f: Fields, g: Group, start: Option<int>, exclude: seq<Id>): Record -> bool {
    (r: Record) => Unclosed(f, g)(r) && !HasIdIn(f, r.message, exclude)
        && (start.None? || f.created(r.message) >= start.value)
  }

  /** `find_by_group_id_with_statuses`: unclosed messages of the group, oldest first, cut at limit. */
  function History(f: Fields, log: seq<Record>, g: Group, start: Option<int>, limit: nat,
      exclude: seq<Id>): seq<Message> {
    Take(SortDesc(Those(Matches(f, g, start, exclude), log), ByAge(f)), limit)
  }

  function NotExcluded(f: Fields, g: Group, exclude: seq<Id>): Record -> bool {
    Matches(f, g, None, exclude)
  }

  /** The detector is given the whole accumulation exactly when it fits the limit and none of it is
      older than the start time taken from the status row. */
  lemma HistoryExact(f: Fields, log: seq<Record>, g: Group, start: Option<int>, limit: nat, exclude: seq<Id>)
    ensures var all := Those(NotExcluded(f, g, exclude), log);
      multiset(History(f, log, g, start, limit, exclude)) == multiset(all)
      <==> |all| <= limit && (start.Some? ==> forall m :: m in all ==> f.created(m) >= start.value)
  {
    var p, q := Matches(f, g, start, exclude), NotExcluded(f, g, exclude);
    var all, found := Those(q, log), Those(p, log);
    var history := History(f, log, g, start, limit, exclude);
    SortPermutes(found, ByAge(f));
    CountPart(p, q, log);
    if multiset(history) == multiset(all) {
      SameMultisetSameLength(history, all);
      forall m | m in all ensures start.Some? ==> f.created(m) >= start.value {
        SameMultisetSameMember(history, all, m);
        FoundAreYoung(f, log, g, start, limit, exclude, m);
      }
    }
    if |all| <= limit && (start.Some? ==> forall m :: m in all ==> f.created(m) >= start.value) {
      forall r | r in log && q(r) ensures p(r) {
        ThoseHold(q, log, r);
      }
      forall r | r in log ensures p(r) == q(r) {
      }
      ThoseAgree(p, q, log);
    }
  }

  lemma FoundAreYoung(f: Fields, log: seq<Record>, g: Group, start: Option<int>, limit: nat, exclude: seq<Id>,
      m: Message)
    requires m in History(f, log, g, start, limit, exclude)
    ensures start.Some? ==> f.created(m) >= start.value
  {
    var found := Those(Matches(f, g, start, exclude), log);
    SortMember(found, ByAge(f), m);
    ThoseHave(Matches(f, g, start, exclude), log, m);
  }

  /** A history query selects unclosed messages of its group. */
  function InHistory(f: Fields, start: Option<int>, exclude: seq<Id>): Message -> bool {
    (m: Message) => !HasIdIn(f, m, exclude) && (start.None? || f.created(m) >= start.value)
  }

  lemma MatchedAreOpen(f: Fields, log: seq<Record>, g: Group, start: Option<int>, exclude: seq<Id>)
    ensures Those(Matches(f, g, start, exclude), log) == Filter(InHistory(f, start, exclude), OpenOf(f, log, g))
  {
    ThoseFilter(Unclosed(f, g), InHistory(f, start, exclude), Matches(f, g, start, exclude), log);
  }

  /** Without a start time it is all but the excluded ones. */
  lemma NotExcludedAreForeign(f: Fields, log: seq<Record>, g: Group, exclude: seq<Id>)
    ensures Those(NotExcluded(f, g, exclude), log) == Filter(Foreign(f, exclude), OpenOf(f, log, g))
  {
    ThoseFilter(Unclosed(f, g), Foreign(f, exclude), NotExcluded(f, g, exclude), log);
  }

  /** The history misses none of the group's unclosed messages but the excluded ones. */
  ghost predicate Complete(f: Fields, log: seq<Record>, g: Group, start: Option<int>, limit: nat, exclude: seq<Id>) {
    var all := Filter(Foreign(f, exclude), OpenOf(f, log, g));
    |all| <= limit && (start.Some? ==> forall m :: m in all ==> f.created(m) >= start.value)
  }

  /** HistoryExact on the queue; and for messages logged in creation order, a complete history is the
      queue itself. */
  lemma CompleteExact(f: Fields, log: seq<Record>, g: Group, start: Option<int>, limit: nat, exclude: seq<Id>)
    ensures var all, history := Filter(Foreign(f, exclude), OpenOf(f, log, g)),
        History(f, log, g, start, limit, exclude);
      && (multiset(history) == multiset(all) <==> Complete(f, log, g, start, limit, exclude))
      && |history| <= |all|
      && (Aged(f, Messages(log)) && Complete(f, log, g, start, limit, exclude) ==> history == all)
  {
    HistoryExact(f, log, g, start, limit, exclude);
    NotExcludedAreForeign(f, log, g, exclude);
    HistoryNoLonger(f, log, g, start, limit, exclude);
    if Aged(f, Messages(log)) && Complete(f, log, g, start, limit, exclude) {
      CompleteInOrder(f, log, g, start, limit, exclude);
    }
  }

  lemma HistoryNoLonger(f: Fields, log: seq<Record>, g: Group, start: Option<int>, limit: nat, exclude: seq<Id>)
    ensures |History(f, log, g, start, limit, exclude)| <= |Those(NotExcluded(f, g, exclude), log)|
  {
    CountPart(Matches(f, g, start, exclude), NotExcluded(f, g, exclude), log);
  }

  lemma CompleteInOrder(f: Fields, log: seq<Record>, g: Group, start: Option<int>, limit: nat, exclude: seq<Id>)
    requires Aged(f, Messages(log)) && Complete(f, log, g, start, limit, exclude)
    ensures History(f, log, g, start, limit, exclude) == Filter(Foreign(f, exclude), OpenOf(f, log, g))
  {
    var open := OpenOf(f, log, g);
    MatchedAreOpen(f, log, g, start, exclude);
    forall m | m in open ensures InHistory(f, start, exclude)(m) == Foreign(f, exclude)(m) {
      if !HasIdIn(f, m, exclude) {
        assert m in Filter(Foreign(f, exclude), open);
      }
    }
    FilterSame(InHistory(f, start, exclude), Foreign(f, exclude), open);
    ThoseAged(f, Matches(f, g, start, exclude), log);
    SortedIsFixed(Those(Matches(f, g, start, exclude), log), ByAge(f));
  }
}
