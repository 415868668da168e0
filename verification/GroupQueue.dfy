/** The unclosed messages of one group as a queue, under every interleaving of the log's events: logging
    appends, closing takes everything but the caller's own ids, and nothing else matters. */
module GroupQueue {
  import opened Outcomes
  import opened Sequences
  import opened MessageLog

  function InGroup(f: Fields, g: Group): Message -> bool {
    (m: Message) => f.group(m) == g
  }

  /** The messages that carry one of the ids, and the others. */
  function Own(f: Fields, ids: seq<Id>): Message -> bool {
    (m: Message) => HasIdIn(f, m, ids)
  }

  function Foreign(f: Fields, ids: seq<Id>): Message -> bool {
    (m: Message) => !HasIdIn(f, m, ids)
  }

  /** The unclosed messages of group g. */
  function OpenOf(f: Fields, log: seq<Record>, g: Group): seq<Message> {
    Those(Unclosed(f, g), log)
  }

  /** What an event makes of the unclosed messages of group g. */
  function AfterEvent(f: Fields, open: seq<Message>, e: Event, g: Group): seq<Message> {
    if e.Log? then open + Filter(InGroup(f, g), e.messages)
    else if e.Close? && e.group == g then Filter(Own(f, e.ids), open)
    else open
  }

  /** Selecting records by p and their messages by q. */
  lemma {:induction false} ThoseFilter(p: Record -> bool, q: Message -> bool, both: Record -> bool, log: seq<Record>)
    requires forall r :: r in log ==> both(r) == (p(r) && q(r.message))
    ensures Those(both, log) == Filter(q, Those(p, log))
  {
    if log != [] {
      var rest, last := log[..|log| - 1], log[|log| - 1];
      InPrefix(log);
      ThoseFilter(p, q, both, rest);
      MaybeFiltered(q, Those(p, rest), last.message, p(last));
    }
  }

  lemma {:induction false} NewRecordsOf(f: Fields, messages: seq<Message>, g: Group)
    ensures Those(Unclosed(f, g), Map(NewRecord, messages)) == Filter(InGroup(f, g), messages)
  {
    if messages != [] {
      var n := |messages| - 1;
      NewRecordsOf(f, messages[..n], g);
      assert Map(NewRecord, messages)[..n] == Map(NewRecord, messages[..n]);
    }
  }

  /** Closing keeps a group's own ids and takes the rest; other groups are not touched. */
  lemma CloseOnOpen(f: Fields, log: seq<Record>, h: Group, ids: seq<Id>, g: Group)
    ensures OpenOf(f, Map(StepOf(f, Close(h, ids)), log), g)
            == if h == g then Filter(Own(f, ids), OpenOf(f, log, g)) else OpenOf(f, log, g)
  {
    var step := StepOf(f, Close(h, ids));
    ThoseAfter(Unclosed(f, g), step, log);
    if h == g {
      ThoseFilter(Unclosed(f, g), Own(f, ids), AfterStep(Unclosed(f, g), step), log);
    } else {
      ThoseAgree(AfterStep(Unclosed(f, g), step), Unclosed(f, g), log);
    }
  }

  lemma AcceptOnOpen(f: Fields, log: seq<Record>, h: Group, ids: seq<Id>, g: Group)
    ensures OpenOf(f, Map(StepOf(f, Accept(h, ids)), log), g) == OpenOf(f, log, g)
  {
    var step := StepOf(f, Accept(h, ids));
    ThoseAfter(Unclosed(f, g), step, log);
    ThoseAgree(AfterStep(Unclosed(f, g), step), Unclosed(f, g), log);
  }

  /** From any log: one event acts on the queue. */
  lemma EventOnOpen(f: Fields, log: seq<Record>, e: Event, g: Group)
    ensures OpenOf(f, Next(f, log, e), g) == AfterEvent(f, OpenOf(f, log, g), e, g)
  {
    match e
    case Log(messages) =>
      ThoseConcat(Unclosed(f, g), log, Map(NewRecord, messages));
      NewRecordsOf(f, messages, g);
    case Read(_, _) =>
    case Close(h, ids) => CloseOnOpen(f, log, h, ids, g);
    case Accept(h, ids) => AcceptOnOpen(f, log, h, ids, g);
  }

  /** A boundary's batch: all unclosed messages of the group but the caller's own. */
  lemma BatchOfClose(f: Fields, log: seq<Record>, g: Group, ids: seq<Id>)
    ensures ClosedBy(f, log, Close(g, ids)) == Filter(Foreign(f, ids), OpenOf(f, log, g))
  {
    ThoseFilter(Unclosed(f, g), Foreign(f, ids), Closes(StepOf(f, Close(g, ids))), log);
  }

  // ---------- whole runs ----------

  /** The unclosed messages of a group after a run that started with the given ones. */
  function Queue(f: Fields, open: seq<Message>, events: seq<Event>, g: Group): seq<Message> {
    if events == [] then open
    else AfterEvent(f, Queue(f, open, events[..|events| - 1], g), events[|events| - 1], g)
  }

  function RunFrom(f: Fields, log: seq<Record>, events: seq<Event>): seq<Record> {
    if events == [] then log else Next(f, RunFrom(f, log, events[..|events| - 1]), events[|events| - 1])
  }

  lemma {:induction false} RunIsFromEmpty(f: Fields, events: seq<Event>)
    ensures RunFrom(f, [], events) == Run(f, events)
  {
    if events != [] {
      RunIsFromEmpty(f, events[..|events| - 1]);
    }
  }

  /** Under every interleaving and from any log, the records keep exactly the queue of each group. */
  lemma {:induction false} LogIsQueue(f: Fields, log: seq<Record>, events: seq<Event>, g: Group)
    ensures OpenOf(f, RunFrom(f, log, events), g) == Queue(f, OpenOf(f, log, g), events, g)
  {
    if events != [] {
      var before, e := events[..|events| - 1], events[|events| - 1];
      LogIsQueue(f, log, before, g);
      EventOnOpen(f, RunFrom(f, log, before), e, g);
    }
  }

  /** An event that closes message m if it is unclosed. */
  predicate Takes(f: Fields, e: Event, m: Message) {
    e.Close? && e.group == f.group(m) && !HasIdIn(f, m, e.ids)
  }

  predicate TakenBy(f: Fields, events: seq<Event>, m: Message) {
    events != [] && (TakenBy(f, events[..|events| - 1], m) || Takes(f, events[|events| - 1], m))
  }

  function Survives(f: Fields, events: seq<Event>): Message -> bool {
    (m: Message) => !TakenBy(f, events, m)
  }

  ghost predicate AllOf(f: Fields, open: seq<Message>, g: Group) {
    forall m :: m in open ==> f.group(m) == g
  }

  lemma {:induction false} OpenIsOf(f: Fields, log: seq<Record>, g: Group)
    ensures AllOf(f, OpenOf(f, log, g), g)
  {
    if log != [] {
      OpenIsOf(f, log[..|log| - 1], g);
    }
  }

  /** What one more event leaves of the survivors. */
  lemma SurvivorsNext(f: Fields, open: seq<Message>, events: seq<Event>, g: Group)
    requires events != [] && AllOf(f, open, g)
    ensures var before, e := events[..|events| - 1], events[|events| - 1];
      Filter(Survives(f, events), open)
      == if e.Close? && e.group == g then Filter(Own(f, e.ids), Filter(Survives(f, before), open))
         else Filter(Survives(f, before), open)
  {
    var before, e := events[..|events| - 1], events[|events| - 1];
    if e.Close? && e.group == g {
      FilterTwice(Survives(f, before), Own(f, e.ids), Survives(f, events), open);
    } else {
      FilterSame(Survives(f, before), Survives(f, events), open);
    }
  }

  /** The queue after a run: the survivors of what was there, then what the run itself leaves. */
  lemma {:induction false} QueueSplits(f: Fields, open: seq<Message>, events: seq<Event>, g: Group)
    requires AllOf(f, open, g)
    ensures Queue(f, open, events, g) == Filter(Survives(f, events), open) + Queue(f, [], events, g)
  {
    if events == [] {
      FilterAll(Survives(f, []), open);
    } else {
      var before, e := events[..|events| - 1], events[|events| - 1];
      QueueSplits(f, open, before, g);
      SurvivorsNext(f, open, events, g);
      if e.Close? && e.group == g {
        FilterConcat(Own(f, e.ids), Filter(Survives(f, before), open), Queue(f, [], before, g));
      }
    }
  }

  /** Event k logs message m of group g. */
  predicate Logs(f: Fields, events: seq<Event>, k: nat, m: Message, g: Group) {
    k < |events| && events[k].Log? && m in events[k].messages && f.group(m) == g
  }

  /** Some event logs m and no later one takes it. */
  ghost predicate Remains(f: Fields, events: seq<Event>, m: Message, g: Group) {
    exists k: nat :: Logs(f, events, k, m, g) && !TakenBy(f, events[k + 1..], m)
  }

  lemma RemainsNext(f: Fields, events: seq<Event>, m: Message, g: Group)
    requires events != []
    ensures var n := |events| - 1;
      Remains(f, events, m, g)
      <==> (Remains(f, events[..n], m, g) && !Takes(f, events[n], m)) || Logs(f, events, n, m, g)
  {
    var n := |events| - 1;
    forall k: nat | k < n
      ensures Logs(f, events, k, m, g) <==> Logs(f, events[..n], k, m, g)
      ensures TakenBy(f, events[k + 1..], m) <==> TakenBy(f, events[..n][k + 1..], m) || Takes(f, events[n], m)
    {
      var later := events[k + 1..];
      assert later[..|later| - 1] == events[..n][k + 1..] && later[|later| - 1] == events[n];
    }
    if Logs(f, events, n, m, g) {
      assert events[n + 1..] == [];
    }
    if Remains(f, events, m, g) {
      var k: nat :| Logs(f, events, k, m, g) && !TakenBy(f, events[k + 1..], m);
      assert k < n ==> Logs(f, events[..n], k, m, g);
    }
    if Remains(f, events[..n], m, g) && !Takes(f, events[n], m) {
      var k: nat :| Logs(f, events[..n], k, m, g) && !TakenBy(f, events[..n][k + 1..], m);
      assert Logs(f, events, k, m, g);
    }
  }

  /** Which messages a run leaves in the queue. */
  lemma {:induction false} QueueMember(f: Fields, events: seq<Event>, m: Message, g: Group)
    ensures m in Queue(f, [], events, g) <==> Remains(f, events, m, g)
  {
    if events != [] {
      QueueMember(f, events[..|events| - 1], m, g);
      RemainsNext(f, events, m, g);
      QueueIsOf(f, events[..|events| - 1], g);
    }
  }

  lemma {:induction false} QueueIsOf(f: Fields, events: seq<Event>, g: Group)
    ensures AllOf(f, Queue(f, [], events, g), g)
  {
    if events != [] {
      QueueIsOf(f, events[..|events| - 1], g);
    }
  }
}
