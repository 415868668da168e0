/** `memorize`: log, history, boundary verdict, accumulation and status row, for requests served one at a
    time. */
module Memorize {
  import opened Outcomes
  import opened Sequences
  import opened StableSort
  import opened MessageLog
  import opened GroupQueue
  import opened Accumulation
  import opened StatusRow

  const HISTORY_LIMIT := 1000

  /** The stored fields, the timestamps, the boundary detector, and the time it stamps on a memcell
      made from a history. */
  datatype World = World(
    fields: Fields,
    time: Message -> Option<int>,
    detect: (seq<Message>, seq<Message>) -> Verdict,
    memcellTime: seq<Message> -> int)

  /** One request; `saves` tells whether the extraction that follows a boundary reaches the status row. */
  datatype Request = Request(group: Group, messages: seq<Message>, current: int, saves: bool)

  function RowOf(rows: map<Group, Row>, g: Group): Option<Row> {
    if g in rows then Some(rows[g]) else None
  }

  function StartTime(rows: map<Group, Row>, g: Group): Option<int> {
    if g in rows then rows[g].lastMemcell else None
  }

  /** The history `preprocess_conv_request` reads for a request. */
  function Seen(w: World, log: seq<Record>, rows: map<Group, Row>, r: Request): seq<Message> {
    History(w.fields, log, r.group, StartTime(rows, r.group), HISTORY_LIMIT, Ids(w.fields, r.messages))
  }

  function TurnOf(w: World, log: seq<Record>, rows: map<Group, Row>, r: Request): Turn {
    Turn(r.group, r.messages, if r.messages == [] then Skip else w.detect(Seen(w, log, rows, r), r.messages))
  }

  function TimesOf(w: World, history: seq<Message>, r: Request): Times {
    Times(Map(w.time, r.messages), if history == [] then None else w.time(history[|history| - 1]), r.current)
  }

  /** What the request does to its group's status row. */
  function UpdateOf(w: World, history: seq<Message>, r: Request, verdict: Verdict): Update {
    match verdict
    case Skip => Keep
    case Wait => Keep
    case Continue => Continues(TimesOf(w, history, r))
    case Boundary => if r.saves then Memcell(TimesOf(w, history, r), w.memcellTime(history)) else Keep
  }

  function WithRow(rows: map<Group, Row>, g: Group, row: Option<Row>): map<Group, Row> {
    if row.Some? then rows[g := row.value] else rows
  }

  class Memorizer {
    var log: seq<Record>
    var rows: map<Group, Row>

    constructor ()
      ensures log == [] && rows == map[]
    {
      log, rows := [], map[];
    }

    /** The controller logs the messages of a request before it calls `memorize`. */
    method LogRequest(r: Request)
      modifies `log
      ensures log == old(log) + Map(NewRecord, r.messages)
    {
      log := log + Map(NewRecord, r.messages);
    }

    method SaveConversationData(f: Fields, g: Group, messages: seq<Message>)
      modifies `log
      ensures log == Map((r: Record) => Confirm(f, g, Ids(f, messages), r), old(log))
    {
      var ids := Ids(f, messages);
      if ids != [] {
        log := Map((r: Record) => Confirm(f, g, ids, r), log);
      }
    }

    method DeleteConversationData(f: Fields, g: Group, exclude: seq<Id>)
      modifies `log
      ensures log == Map((r: Record) => Use(f, g, exclude, r), old(log))
    {
      log := Map((r: Record) => Use(f, g, exclude, r), log);
    }

    method UpdateStatus(g: Group, u: Update)
      modifies `rows
      ensures rows == if u.Keep? then old(rows) else WithRow(old(rows), g, Apply(RowOf(old(rows), g), u))
    {
      match u {
        case Keep =>
        case Continues(t) => rows := rows[g := ContinueRow(RowOf(rows, g), t)];
        case Memcell(t, memcellTime) => rows := rows[g := MemcellRow(t, memcellTime)];
      }
    }

    /** Reads the history, asks the detector, then confirms the new messages, after closing the old
        accumulation if there is a boundary, and updates the status row. */
    method Memorize(w: World, r: Request) returns (turn: Turn)
      modifies this
      ensures turn == TurnOf(w, old(log), old(rows), r)
      ensures log == Map(TurnStep(w.fields, turn), old(log))
      ensures var u := UpdateOf(w, Seen(w, old(log), old(rows), r), r, turn.verdict);
        rows == if u.Keep? then old(rows) else WithRow(old(rows), r.group, Apply(RowOf(old(rows), r.group), u))
    {
      if r.messages == [] {
        turn := Turn(r.group, r.messages, Skip);
        return;
      }
      var f, ids := w.fields, Ids(w.fields, r.messages);
      var history := History(f, log, r.group, StartTime(rows, r.group), HISTORY_LIMIT, ids);
      var verdict := w.detect(history, r.messages);
      if verdict.Boundary? {
        DeleteConversationData(f, r.group, ids);
      }
      if !verdict.Skip? {
        SaveConversationData(f, r.group, r.messages);
      }
      UpdateStatus(r.group, UpdateOf(w, history, r, verdict));
      turn := Turn(r.group, r.messages, verdict);
    }
  }

  // ---------- whole runs ----------

  datatype Store = Store(log: seq<Record>, rows: map<Group, Row>)

  function Arrived(s: Store, r: Request): seq<Record> {
    s.log + Map(NewRecord, r.messages)
  }

  /** What LogRequest and Memorize make of the store. */
  function Handled(w: World, s: Store, r: Request): Store {
    var log := Arrived(s, r);
    var turn := TurnOf(w, log, s.rows, r);
    var u := UpdateOf(w, Seen(w, log, s.rows, r), r, turn.verdict);
    Store(Map(TurnStep(w.fields, turn), log),
          if u.Keep? then s.rows else WithRow(s.rows, r.group, Apply(RowOf(s.rows, r.group), u)))
  }

  function StoreAfter(w: World, requests: seq<Request>): Store {
    if requests == [] then Store([], map[])
    else Handled(w, StoreAfter(w, requests[..|requests| - 1]), requests[|requests| - 1])
  }

  method Serve(m: Memorizer, w: World, r: Request) returns (turn: Turn)
    modifies m
    ensures Store(m.log, m.rows) == Handled(w, Store(old(m.log), old(m.rows)), r)
    ensures turn == TurnOf(w, Arrived(Store(old(m.log), old(m.rows)), r), old(m.rows), r)
  {
    m.LogRequest(r);
    turn := m.Memorize(w, r);
  }

  function TurnsOf(w: World, requests: seq<Request>): seq<Turn> {
    if requests == [] then []
    else
      var before, r := requests[..|requests| - 1], requests[|requests| - 1];
      var s := StoreAfter(w, before);
      TurnsOf(w, before) + [TurnOf(w, Arrived(s, r), s.rows, r)]
  }

  function UpdatesOf(w: World, requests: seq<Request>, g: Group): seq<Update> {
    if requests == [] then []
    else
      var before, r := requests[..|requests| - 1], requests[|requests| - 1];
      var s := StoreAfter(w, before);
      var verdict := TurnOf(w, Arrived(s, r), s.rows, r).verdict;
      UpdatesOf(w, before, g)
      + (if r.group == g then [UpdateOf(w, Seen(w, Arrived(s, r), s.rows, r), r, verdict)] else [])
  }

  lemma {:induction false} StoreLog(w: World, requests: seq<Request>)
    ensures StoreAfter(w, requests).log == LogAfter(w.fields, TurnsOf(w, requests))
  {
    if requests != [] {
      StoreLog(w, requests[..|requests| - 1]);
      var turns := TurnsOf(w, requests);
      assert turns[..|turns| - 1] == TurnsOf(w, requests[..|requests| - 1]);
    }
  }

  lemma HandledRow(w: World, s: Store, r: Request, g: Group)
    ensures var verdict := TurnOf(w, Arrived(s, r), s.rows, r).verdict;
      RowOf(Handled(w, s, r).rows, g)
      == if r.group == g then Apply(RowOf(s.rows, g), UpdateOf(w, Seen(w, Arrived(s, r), s.rows, r), r, verdict))
          else RowOf(s.rows, g)
  {
  }

  /** The status row of a group is the one its updates make, so the laws of StatusRow hold of it. */
  lemma {:induction false} StoreRow(w: World, requests: seq<Request>, g: Group)
    ensures RowOf(StoreAfter(w, requests).rows, g) == RowAfter(UpdatesOf(w, requests, g))
  {
    if requests != [] {
      var before, r := requests[..|requests| - 1], requests[|requests| - 1];
      StoreRow(w, before, g);
      HandledRow(w, StoreAfter(w, before), r, g);
      var updates := UpdatesOf(w, requests, g);
      if r.group == g {
        assert updates[..|updates| - 1] == UpdatesOf(w, before, g);
      } else {
        assert updates == UpdatesOf(w, before, g);
      }
    }
  }

  // ---------- the detector sees the whole accumulation ----------

  function AllMessages(requests: seq<Request>): seq<Message> {
    if requests == [] then [] else AllMessages(requests[..|requests| - 1]) + requests[|requests| - 1].messages
  }

  ghost predicate StampedBy(w: World, h: seq<Message>) {
    exists m :: m in h && w.memcellTime(h) <= w.fields.created(m)
  }

  /** A memcell is made only from a history, and its time is not after all of that history's logging. */
  ghost predicate StampsHistory(w: World) {
    && (forall messages :: !w.detect([], messages).Boundary?)
    && (forall h :: h != [] ==> StampedBy(w, h))
  }

  /** A memcell made from h carries the timestamp of one of h's messages. */
  ghost predicate TimedBy(w: World, h: seq<Message>) {
    exists m :: m in h && w.time(m) == Some(w.memcellTime(h))
  }

  /** The extractor stamps a memcell with the time of a history message, and a message is logged no
      earlier than its timestamp; so it stamps as StampsHistory asks. */
  lemma ExtractorStamps(w: World)
    requires forall messages :: !w.detect([], messages).Boundary?
    requires forall h :: h != [] ==> TimedBy(w, h)
    requires forall m :: w.time(m).Some? ==> w.time(m).value <= w.fields.created(m)
    ensures StampsHistory(w)
  {
    forall h | h != [] ensures StampedBy(w, h) {
      assert TimedBy(w, h);
      var m :| m in h && w.time(m) == Some(w.memcellTime(h));
      assert w.time(m).value <= w.fields.created(m);
    }
  }

  ghost predicate ReachedBy(f: Fields, log: seq<Record>, time: int) {
    exists m :: m in Messages(log) && time <= f.created(m)
  }

  /** The start time is not after all logged messages, nor after any unclosed message of its group. */
  ghost predicate StartFits(f: Fields, s: Store, g: Group) {
    StartTime(s.rows, g).Some? ==>
      && ReachedBy(f, s.log, StartTime(s.rows, g).value)
      && forall m :: m in Those(Unclosed(f, g), s.log) ==> StartTime(s.rows, g).value <= f.created(m)
  }

  lemma {:induction false} StoreMessages(w: World, requests: seq<Request>)
    ensures Messages(StoreAfter(w, requests).log) == AllMessages(requests)
  {
    if requests != [] {
      var before, r := requests[..|requests| - 1], requests[|requests| - 1];
      StoreMessages(w, before);
      HandledMessages(w, StoreAfter(w, before), r);
    }
  }

  lemma HandledMessages(w: World, s: Store, r: Request)
    ensures Messages(Handled(w, s, r).log) == Messages(s.log) + r.messages
  {
    var log := Arrived(s, r);
    MapConcat(MessageOf, s.log, Map(NewRecord, r.messages));
    assert Messages(Map(NewRecord, r.messages)) == r.messages;
    assert Messages(Map(TurnStep(w.fields, TurnOf(w, log, s.rows, r)), log)) == Messages(log);
  }

  /** The new messages are not older than a start time that the log has reached. */
  lemma NewNotOlder(f: Fields, log: seq<Record>, messages: seq<Message>, time: int, m: Message)
    requires Aged(f, Messages(log) + messages) && ReachedBy(f, log, time) && m in messages
    ensures time <= f.created(m)
  {
    var x :| x in Messages(log) && time <= f.created(x);
    AgedSplit(f, Messages(log), messages, x, m);
  }

  ghost predicate FreshRequest(f: Fields, log: seq<Record>, r: Request) {
    FreshTurn(f, Messages(log), Turn(r.group, r.messages, Skip))
  }

  /** What the detector sees was logged before the request. */
  lemma SeenBefore(w: World, s: Store, r: Request, m: Message)
    requires FreshRequest(w.fields, s.log, r)
    requires m in Seen(w, Arrived(s, r), s.rows, r)
    ensures m in Messages(s.log)
  {
    var f, ids := w.fields, Ids(w.fields, r.messages);
    var p := Matches(f, r.group, StartTime(s.rows, r.group), ids);
    SortMember(Those(p, Arrived(s, r)), ByAge(f), m);
    ThoseHave(p, Arrived(s, r), m);
    var rec :| rec in Arrived(s, r) && p(rec) && rec.message == m;
    if rec in s.log {
      RecordsOf(s.log, rec);
    } else {
      assert rec in Map(NewRecord, r.messages);
      IdsHave(f, r.messages, m);
    }
  }

  /** Where the start time comes from after a request. */
  lemma StartAfter(w: World, s: Store, r: Request, g: Group)
    ensures var turn := TurnOf(w, Arrived(s, r), s.rows, r);
      StartTime(Handled(w, s, r).rows, g)
      == if r.group == g && turn.verdict.Boundary? && r.saves
         then Some(w.memcellTime(Seen(w, Arrived(s, r), s.rows, r)))
         else StartTime(s.rows, g)
  {
    HandledRow(w, s, r, g);
  }

  /** A memcell's time is one that the log had reached before the request. */
  lemma MemcellTimeReached(w: World, s: Store, r: Request)
    requires StampsHistory(w) && FreshRequest(w.fields, s.log, r)
    requires TurnOf(w, Arrived(s, r), s.rows, r).verdict.Boundary?
    ensures ReachedBy(w.fields, s.log, w.memcellTime(Seen(w, Arrived(s, r), s.rows, r)))
  {
    var seen := Seen(w, Arrived(s, r), s.rows, r);
    assert StampedBy(w, seen);
    var m :| m in seen && w.memcellTime(seen) <= w.fields.created(m);
    SeenBefore(w, s, r, m);
  }

  lemma StillReached(w: World, s: Store, r: Request, time: int)
    requires ReachedBy(w.fields, s.log, time)
    ensures ReachedBy(w.fields, Handled(w, s, r).log, time)
  {
    HandledMessages(w, s, r);
    var m :| m in Messages(s.log) && time <= w.fields.created(m);
    assert m in Messages(Handled(w, s, r).log);
  }

  lemma StartFitsStep(w: World, s: Store, r: Request, g: Group)
    requires StampsHistory(w) && FreshRequest(w.fields, s.log, r) && Aged(w.fields, Messages(s.log) + r.messages)
    requires StartFits(w.fields, s, g)
    ensures StartFits(w.fields, Handled(w, s, r), g)
  {
    var f, turn := w.fields, TurnOf(w, Arrived(s, r), s.rows, r);
    var before, after := StartTime(s.rows, g), StartTime(Handled(w, s, r).rows, g);
    StartAfter(w, s, r, g);
    TurnOnLog(f, s.log, turn, g);
    if after.Some? {
      if after != before {
        MemcellTimeReached(w, s, r);
      }
      StillReached(w, s, r, after.value);
      forall m | m in Those(Unclosed(f, g), Handled(w, s, r).log) ensures after.value <= f.created(m) {
        if m in r.messages {
          NewNotOlder(f, s.log, r.messages, after.value, m);
        }
      }
    }
  }

  /** Every message carries a fresh id and belongs to its request's group. */
  ghost predicate FreshRequests(f: Fields, requests: seq<Request>) {
    requests == [] ||
    var r, before := requests[|requests| - 1], requests[..|requests| - 1];
    FreshRequests(f, before) && FreshTurn(f, AllMessages(before), Turn(r.group, r.messages, Skip))
  }

  lemma {:induction false} StartAlwaysFits(w: World, requests: seq<Request>, g: Group)
    requires StampsHistory(w) && FreshRequests(w.fields, requests) && Aged(w.fields, AllMessages(requests))
    ensures StartFits(w.fields, StoreAfter(w, requests), g)
  {
    if requests != [] {
      var before, r := requests[..|requests| - 1], requests[|requests| - 1];
      AgedPrefix(w.fields, AllMessages(before), r.messages);
      StartAlwaysFits(w, before, g);
      StoreMessages(w, before);
      StartFitsStep(w, StoreAfter(w, before), r, g);
    }
  }

  /** For requests served one at a time, with fresh ids, messages logged in creation order and a detector that
      stamps memcells from the history: the detector is given exactly the messages accumulated since the last
      boundary, in arrival order, as long as there are at most 1000 of them. */
  lemma SeesAccumulation(w: World, requests: seq<Request>, r: Request)
    requires StampsHistory(w)
    requires FreshRequests(w.fields, requests + [r]) && Aged(w.fields, AllMessages(requests + [r]))
    requires var s := StoreAfter(w, requests); |Those(Unclosed(w.fields, r.group), s.log)| <= 1000
    ensures var s := StoreAfter(w, requests);
      Seen(w, Arrived(s, r), s.rows, r) == Those(Unclosed(w.fields, r.group), s.log)
  {
    var f, s, all, ids := w.fields, StoreAfter(w, requests), requests + [r], Ids(w.fields, r.messages);
    assert all[..|all| - 1] == requests;
    AgedPrefix(f, AllMessages(requests), r.messages);
    StoreMessages(w, requests);
    StartAlwaysFits(w, requests, r.group);
    OthersAreOpen(w, s, r);
    ArrivedMessages(s, r);
    CompleteInOrder(f, Arrived(s, r), r.group, StartTime(s.rows, r.group), HISTORY_LIMIT, ids);
  }

  lemma ArrivedMessages(s: Store, r: Request)
    ensures Messages(Arrived(s, r)) == Messages(s.log) + r.messages
  {
    MapConcat(MessageOf, s.log, Map(NewRecord, r.messages));
    assert Messages(Map(NewRecord, r.messages)) == r.messages;
  }

  /** What is unclosed besides the new messages is what was unclosed before. */
  lemma OthersAreOpen(w: World, s: Store, r: Request)
    requires FreshRequest(w.fields, s.log, r)
    ensures Filter(Foreign(w.fields, Ids(w.fields, r.messages)), OpenOf(w.fields, Arrived(s, r), r.group))
            == OpenOf(w.fields, s.log, r.group)
  {
    var f, ids, open := w.fields, Ids(w.fields, r.messages), OpenOf(w.fields, s.log, r.group);
    EventOnOpen(f, s.log, Log(r.messages), r.group);
    forall m | m in open ensures !HasIdIn(f, m, ids) {
      ThoseHave(Unclosed(f, r.group), s.log, m);
      var rec :| rec in s.log && rec.message == m;
      RecordsOf(s.log, rec);
    }
    FilterAll(Foreign(f, ids), open);
    FilterAll(InGroup(f, r.group), r.messages);
    NewIdsOwn(f, Turn(r.group, r.messages, Skip));
    FilterConcat(Foreign(f, ids), open, r.messages);
  }

  lemma {:induction false} TurnsHold(w: World, requests: seq<Request>)
    ensures Everyone(TurnsOf(w, requests)) == AllMessages(requests)
  {
    if requests != [] {
      var before, turns := requests[..|requests| - 1], TurnsOf(w, requests);
      TurnsHold(w, before);
      assert turns[..|turns| - 1] == TurnsOf(w, before);
    }
  }

  lemma {:induction false} FreshTurns(w: World, requests: seq<Request>)
    requires FreshRequests(w.fields, requests)
    ensures FreshIds(w.fields, TurnsOf(w, requests))
  {
    if requests != [] {
      var before, turns := requests[..|requests| - 1], TurnsOf(w, requests);
      FreshTurns(w, before);
      TurnsHold(w, before);
      assert turns[..|turns| - 1] == TurnsOf(w, before);
    }
  }

  function MessagesFor(requests: seq<Request>, g: Group): seq<Message> {
    if requests == [] then []
    else
      var r := requests[|requests| - 1];
      MessagesFor(requests[..|requests| - 1], g) + (if r.group == g then r.messages else [])
  }

  lemma {:induction false} ArrivalsOf(w: World, requests: seq<Request>, g: Group)
    ensures Arrivals(TurnsOf(w, requests), g) == MessagesFor(requests, g)
  {
    if requests != [] {
      var before, turns := requests[..|requests| - 1], TurnsOf(w, requests);
      ArrivalsOf(w, before, g);
      assert turns[..|turns| - 1] == TurnsOf(w, before);
    }
  }

  /** Whatever the detector answers, the batches closed for a group followed by its open accumulation
      are the messages sent for it, in order. */
  lemma BatchesThenOpen(w: World, requests: seq<Request>, g: Group)
    requires FreshRequests(w.fields, requests)
    ensures Flatten(ClosedBatches(w.fields, TurnsOf(w, requests), g))
        + Those(Unclosed(w.fields, g), StoreAfter(w, requests).log)
            == MessagesFor(requests, g)
  {
    FreshTurns(w, requests);
    StoreLog(w, requests);
    LogRefinesWindow(w.fields, TurnsOf(w, requests), g);
    ArrivalsOf(w, requests, g);
  }

  /** A boundary closes exactly the history its memcell was made from. */
  lemma ClosedBatchWasSeen(w: World, requests: seq<Request>, r: Request)
    requires StampsHistory(w)
    requires FreshRequests(w.fields, requests + [r]) && Aged(w.fields, AllMessages(requests + [r]))
    requires var s := StoreAfter(w, requests); |Those(Unclosed(w.fields, r.group), s.log)| <= 1000
    ensures var s := StoreAfter(w, requests);
      var turn := TurnOf(w, Arrived(s, r), s.rows, r);
      turn.verdict.Boundary? ==>
        Those(Closes(TurnStep(w.fields, turn)), Arrived(s, r)) == Seen(w, Arrived(s, r), s.rows, r)
  {
    var s, all := StoreAfter(w, requests), requests + [r];
    assert all[..|all| - 1] == requests;
    StoreMessages(w, requests);
    SeesAccumulation(w, requests, r);
    OthersAreOpen(w, s, r);
    var turn := TurnOf(w, Arrived(s, r), s.rows, r);
    if turn.verdict.Boundary? {
      TurnCloses(w.fields, Arrived(s, r), turn);
    }
  }
}
