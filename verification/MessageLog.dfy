/** The conversation log behind `memorize`: every raw message is logged once and then moves from
    pending to the open accumulation to a closed batch. */
module MessageLog {
  import opened Outcomes
  import opened Sequences
  import opened StableSort

  type Message(==, !new)
  type Group(==, !new)
  type Id(==, !new)

  /** `sync_status`: -1 logged only, 0 in the open accumulation, 1 used by a closed batch. */
  datatype Status = Pending | Open | Used

  datatype Record = Record(message: Message, status: Status)

  /** The stored fields of a message; an empty message id is `None`. */
  datatype Fields = Fields(id: Message -> Option<Id>, group: Message -> Group, created: Message -> int)

  /** The boundary verdict: no result, undecided, no boundary, boundary. */
  datatype Verdict = Skip | Wait | Continue | Boundary

  function MessageOf(r: Record): Message { r.message }

  predicate HasIdIn(f: Fields, m: Message, ids: seq<Id>) {
    f.id(m).Some? && f.id(m).value in ids
  }

  // ---------- the three repository operations ----------

  /** `confirm_accumulation_by_message_ids` on one record. */
  function Confirm(f: Fields, g: Group, ids: seq<Id>, r: Record): Record {
    if r.status.Pending? && f.group(r.message) == g && HasIdIn(f, r.message, ids) then r.(status := Open) else r
  }

  /** `mark_as_used_by_group_id` on one record. */
  function Use(f: Fields, g: Group, exclude: seq<Id>, r: Record): Record {
    if !r.status.Used? && f.group(r.message) == g && !HasIdIn(f, r.message, exclude) then r.(status := Used) else r
  }

  /** What one `memorize` call does to one record. */
  function StepRecord(f: Fields, g: Group, ids: seq<Id>, verdict: Verdict, r: Record): Record {
    if verdict.Skip? then r
    else if verdict.Boundary? then Confirm(f, g, ids, Use(f, g, ids, r))
    else Confirm(f, g, ids, r)
  }

  function Step(f: Fields, g: Group, ids: seq<Id>, verdict: Verdict): Record -> Record {
    (r: Record) => StepRecord(f, g, ids, verdict, r)
  }

  // ---------- selections from the log ----------

  /** The messages of the records that satisfy p, in arrival order. */
  function Those(p: Record -> bool, log: seq<Record>): seq<Message> {
    if log == [] then []
    else Those(p, log[..|log| - 1]) + (if p(log[|log| - 1]) then [log[|log| - 1].message] else [])
  }

  function Unclosed(f: Fields, g: Group): Record -> bool {
    (r: Record) => !r.status.Used? && f.group(r.message) == g
  }

  function Accumulating(f: Fields, g: Group): Record -> bool {
    (r: Record) => r.status.Open? && f.group(r.message) == g
  }

  /** The records that a step moves into a closed batch. */
  function Closes(step: Record -> Record): Record -> bool {
    (r: Record) => !r.status.Used? && step(r).status.Used?
  }

  function AfterStep(p: Record -> bool, step: Record -> Record): Record -> bool {
    (r: Record) => p(step(r))
  }

  lemma {:induction false} ThoseConcat(p: Record -> bool, a: seq<Record>, b: seq<Record>)
    ensures Those(p, a + b) == Those(p, a) + Those(p, b)
  {
    if b == [] {
      assert a + b == a;
    } else {
      var n := |b| - 1;
      assert (a + b)[..|a + b| - 1] == a + b[..n];
      ThoseConcat(p, a, b[..n]);
    }
  }

  lemma InPrefix(log: seq<Record>)
    requires log != []
    ensures log[|log| - 1] in log && forall r :: r in log[..|log| - 1] ==> r in log
  {
  }

  lemma {:induction false} ThoseAgree(p: Record -> bool, q: Record -> bool, log: seq<Record>)
    requires forall r :: r in log ==> p(r) == q(r)
    ensures Those(p, log) == Those(q, log)
  {
    if log != [] {
      InPrefix(log);
      ThoseAgree(p, q, log[..|log| - 1]);
    }
  }

  lemma {:induction false} ThoseNone(p: Record -> bool, log: seq<Record>)
    requires forall r :: r in log ==> !p(r)
    ensures Those(p, log) == []
  {
    if log != [] {
      InPrefix(log);
      ThoseNone(p, log[..|log| - 1]);
    }
  }

  lemma {:induction false} ThoseAll(p: Record -> bool, log: seq<Record>)
    requires forall r :: r in log ==> p(r)
    ensures Those(p, log) == Map(MessageOf, log)
  {
    if log != [] {
      var rest, last := log[..|log| - 1], log[|log| - 1];
      InPrefix(log);
      ThoseAll(p, rest);
      assert log == rest + [last];
      MapConcat(MessageOf, rest, [last]);
      assert Map(MessageOf, [last]) == [last.message];
    }
  }

  lemma {:induction false} ThoseHave(p: Record -> bool, log: seq<Record>, m: Message)
    requires m in Those(p, log)
    ensures exists r :: r in log && p(r) && r.message == m
  {
    var last := log[|log| - 1];
    if p(last) && m == last.message {
      assert last in log;
    } else {
      ThoseHave(p, log[..|log| - 1], m);
      var r :| r in log[..|log| - 1] && p(r) && r.message == m;
      assert r in log;
    }
  }

  lemma {:induction false} ThoseHold(p: Record -> bool, log: seq<Record>, r: Record)
    requires r in log && p(r)
    ensures r.message in Those(p, log)
  {
    if r != log[|log| - 1] {
      ThoseHold(p, log[..|log| - 1], r);
    }
  }

  /** Selecting after a step is selecting by where the step takes each record. */
  lemma {:induction false} ThoseAfter(p: Record -> bool, step: Record -> Record, log: seq<Record>)
    requires forall r :: step(r).message == r.message
    ensures Those(p, Map(step, log)) == Those(AfterStep(p, step), log)
  {
    if log != [] {
      var n := |log| - 1;
      assert Map(step, log)[..n] == Map(step, log[..n]);
      ThoseAfter(p, step, log[..n]);
    }
  }

  // ---------- runs ----------

  /** What happens to the log. The controller logs the messages of a request, of any group. Later its
      `memorize` call reads the history; if it then sees a boundary, it closes what the group has by then,
      its own ids excepted; last, as every call that got a verdict, it confirms its own ids. Nothing keeps
      other requests out in between. */
  datatype Event =
    | Log(messages: seq<Message>)
    | Read(group: Group, ids: seq<Id>)
    | Close(group: Group, ids: seq<Id>)
    | Accept(group: Group, ids: seq<Id>)

  predicate Steps(e: Event) { e.Close? || e.Accept? }

  function NewRecord(m: Message): Record { Record(m, Pending) }

  function StepOf(f: Fields, e: Event): Record -> Record
    requires Steps(e)
  {
    if e.Close? then (r: Record) => Use(f, e.group, e.ids, r) else (r: Record) => Confirm(f, e.group, e.ids, r)
  }

  function Next(f: Fields, log: seq<Record>, e: Event): seq<Record> {
    match e
    case Log(messages) => log + Map(NewRecord, messages)
    case Read(_, _) => log
    case Close(_, _) => Map(StepOf(f, e), log)
    case Accept(_, _) => Map(StepOf(f, e), log)
  }

  /** The batch an event closes. */
  function ClosedBy(f: Fields, log: seq<Record>, e: Event): seq<Message> {
    if e.Close? then Those(Closes(StepOf(f, e)), log) else []
  }

  function Brought(e: Event): seq<Message> {
    if e.Log? then e.messages else []
  }

  /** The log after a run. */
  function Run(f: Fields, events: seq<Event>): seq<Record> {
    if events == [] then [] else Next(f, Run(f, events[..|events| - 1]), events[|events| - 1])
  }

  /** The batch each event of the run closes. */
  function Batches(f: Fields, events: seq<Event>): seq<seq<Message>> {
    if events == [] then []
    else
      var n := |events| - 1;
      Batches(f, events[..n]) + [ClosedBy(f, Run(f, events[..n]), events[n])]
  }

  function Logged(events: seq<Event>): seq<Message> {
    if events == [] then []
    else
      var n := |events| - 1;
      Logged(events[..n]) + Brought(events[n])
  }

  function StillUnclosed(): Record -> bool { (r: Record) => !r.status.Used? }

  function Progress(s: Status): nat {
    match s case Pending => 0 case Open => 1 case Used => 2
  }

  /** A record moves forward or stays, no event touches the records of other groups, and only Close
      closes. */
  lemma StepMovesForward(f: Fields, e: Event, r: Record)
    requires Steps(e)
    ensures Progress(StepOf(f, e)(r).status) >= Progress(r.status)
    ensures f.group(r.message) != e.group ==> StepOf(f, e)(r) == r
    ensures e.Accept? ==> (StepOf(f, e)(r).status.Used? <==> r.status.Used?)
  {
  }

  /** A step divides the unclosed messages into those it closes and those it leaves. */
  lemma {:induction false} StepDivides(step: Record -> Record, log: seq<Record>)
    requires forall r :: step(r).message == r.message && (r.status.Used? ==> step(r).status.Used?)
    ensures multiset(Those(Closes(step), log)) + multiset(Those(AfterStep(StillUnclosed(), step), log))
            == multiset(Those(StillUnclosed(), log))
  {
    if log != [] {
      StepDivides(step, log[..|log| - 1]);
    }
  }

  lemma NewRecordsUnclosed(messages: seq<Message>)
    ensures Those(StillUnclosed(), Map(NewRecord, messages)) == messages
  {
    ThoseAll(StillUnclosed(), Map(NewRecord, messages));
    assert Map(MessageOf, Map(NewRecord, messages)) == messages;
  }

  lemma {:induction false} RunKeepsArrivals(f: Fields, events: seq<Event>)
    ensures Map(MessageOf, Run(f, events)) == Logged(events)
  {
    if events != [] {
      var n, e := |events| - 1, events[|events| - 1];
      var log := Run(f, events[..n]);
      RunKeepsArrivals(f, events[..n]);
      if e.Log? {
        MapConcat(MessageOf, log, Map(NewRecord, e.messages));
        assert Map(MessageOf, Map(NewRecord, e.messages)) == e.messages;
      } else if Steps(e) {
        assert Map(MessageOf, Map(StepOf(f, e), log)) == Map(MessageOf, log);
      }
    }
  }

  lemma StepConserves(step: Record -> Record, log: seq<Record>)
    requires forall r :: step(r).message == r.message && (r.status.Used? ==> step(r).status.Used?)
    ensures multiset(Those(Closes(step), log)) + multiset(Those(StillUnclosed(), Map(step, log)))
            == multiset(Those(StillUnclosed(), log))
  {
    StepDivides(step, log);
    ThoseAfter(StillUnclosed(), step, log);
  }

  /** Confirming closes nothing. */
  lemma {:induction false} AcceptClosesNothing(f: Fields, g: Group, ids: seq<Id>, log: seq<Record>)
    ensures Those(Closes(StepOf(f, Accept(g, ids))), log) == []
  {
    if log != [] {
      AcceptClosesNothing(f, g, ids, log[..|log| - 1]);
    }
  }

  lemma EventConserves(f: Fields, log: seq<Record>, e: Event)
    ensures multiset(ClosedBy(f, log, e)) + multiset(Those(StillUnclosed(), Next(f, log, e)))
            == multiset(Those(StillUnclosed(), log)) + multiset(Brought(e))
  {
    if e.Log? {
      ThoseConcat(StillUnclosed(), log, Map(NewRecord, e.messages));
      NewRecordsUnclosed(e.messages);
    } else if Steps(e) {
      StepConserves(StepOf(f, e), log);
      if e.Accept? {
        AcceptClosesNothing(f, e.group, e.ids, log);
      }
    }
  }

  /** What is closed and what is left, before and after one event. */
  lemma Balance(closed: seq<Message>, batch: seq<Message>, left: seq<Message>, left': seq<Message>,
      logged: seq<Message>, brought: seq<Message>)
    requires multiset(closed) + multiset(left) == multiset(logged)
    requires multiset(batch) + multiset(left') == multiset(left) + multiset(brought)
    ensures multiset(closed + batch) + multiset(left') == multiset(logged + brought)
  {
    var c, b, l, l' := multiset(closed), multiset(batch), multiset(left), multiset(left');
    var a, n := multiset(logged), multiset(brought);
    assert multiset(closed + batch) == c + b && multiset(logged + brought) == a + n;
    forall m ensures (c + b + l')[m] == (a + n)[m] {
      assert (c + l)[m] == a[m] && (b + l')[m] == (l + n)[m];
    }
  }

  lemma {:induction false} RunBalances(f: Fields, events: seq<Event>)
    ensures multiset(Flatten(Batches(f, events))) + multiset(Those(StillUnclosed(), Run(f, events)))
            == multiset(Logged(events))
  {
    if events != [] {
      var n := |events| - 1;
      var before, e := events[..n], events[n];
      var log := Run(f, before);
      RunBalances(f, before);
      EventConserves(f, log, e);
      FlattenLast(f, events);
      Balance(Flatten(Batches(f, before)), ClosedBy(f, log, e), Those(StillUnclosed(), log),
              Those(StillUnclosed(), Next(f, log, e)), Logged(before), Brought(e));
    }
  }

  /** Conservation under every interleaving of logging, reading, closing and confirming: the log keeps every
      message once, in arrival order, and each is in exactly one closed batch or still unclosed. */
  lemma Conservation(f: Fields, events: seq<Event>)
    ensures Map(MessageOf, Run(f, events)) == Logged(events)
    ensures multiset(Flatten(Batches(f, events))) + multiset(Those(StillUnclosed(), Run(f, events)))
            == multiset(Logged(events))
  {
    RunKeepsArrivals(f, events);
    RunBalances(f, events);
  }

  lemma FlattenLast(f: Fields, events: seq<Event>)
    requires events != []
    ensures var n := |events| - 1;
      Flatten(Batches(f, events)) == Flatten(Batches(f, events[..n]))
        + ClosedBy(f, Run(f, events[..n]), events[n])
  {
    var n := |events| - 1;
    assert Batches(f, events)[..n] == Batches(f, events[..n]) by {
      BatchCount(f, events[..n]);
    }
    BatchCount(f, events[..n]);
  }

  lemma {:induction false} BatchCount(f: Fields, events: seq<Event>)
    ensures |Batches(f, events)| == |events|
  {
    if events != [] {
      BatchCount(f, events[..|events| - 1]);
    }
  }
}
