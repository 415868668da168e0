/** What a boundary closes, under every interleaving of logging, reading, closing and confirming: exactly
    when a batch is the history its memcell was made from, and exactly when the batches of a group keep
    the order of arrival. */
module BatchLaws {
  import opened Outcomes
  import opened Sequences
  import opened StableSort
  import opened MessageLog
  import opened GroupQueue
  import opened Accumulation

  // ---------- the order of arrival ----------

  /** All messages of group g that a run logs, in order. */
  function ArrivalsOf(f: Fields, events: seq<Event>, g: Group): seq<Message> {
    Filter(InGroup(f, g), Logged(events))
  }

  /** All messages that a run closes for group g, batch after batch. */
  function ClosedOf(f: Fields, events: seq<Event>, g: Group): seq<Message> {
    if events == [] then []
    else
      var before, e := events[..|events| - 1], events[|events| - 1];
      ClosedOf(f, before, g) + (if e.Close? && e.group == g then ClosedBy(f, Run(f, before), e) else [])
  }

  /** Of the open messages, those with one of the ids stand last. */
  ghost predicate OwnLast(f: Fields, open: seq<Message>, ids: seq<Id>) {
    forall i, j :: 0 <= i < j < |open| && HasIdIn(f, open[i], ids) ==> HasIdIn(f, open[j], ids)
  }

  /** Every boundary of group g leaves only the last of its unclosed messages. */
  ghost predicate LeavesLast(f: Fields, events: seq<Event>, g: Group) {
    forall k :: 0 <= k < |events| && events[k].Close? && events[k].group == g ==>
      OwnLast(f, OpenOf(f, Run(f, events[..k]), g), events[k].ids)
  }

  lemma {:induction false} FilterParts<T(!new)>(p: T -> bool, q: T -> bool, s: seq<T>)
    requires forall x :: q(x) == !p(x)
    ensures |Filter(p, s)| + |Filter(q, s)| == |s|
  {
    if s != [] {
      FilterParts(p, q, s[..|s| - 1]);
    }
  }

  lemma {:induction false} FilterFull<T(!new)>(p: T -> bool, s: seq<T>)
    requires |Filter(p, s)| == |s|
    ensures forall i :: 0 <= i < |s| ==> p(s[i])
  {
    if s != [] {
      FilterFull(p, s[..|s| - 1]);
    }
  }

  lemma OwnLastPrefix(f: Fields, open: seq<Message>, ids: seq<Id>)
    requires open != [] && OwnLast(f, open, ids)
    ensures OwnLast(f, open[..|open| - 1], ids)
    ensures HasIdIn(f, open[|open| - 1], ids) || Filter(Own(f, ids), open[..|open| - 1]) == []
  {
    var n := |open| - 1;
    if !HasIdIn(f, open[n], ids) {
      forall x | x in open[..n] ensures !HasIdIn(f, x, ids) {
        var i :| 0 <= i < n && open[i] == x;
      }
      FilterNone(Own(f, ids), open[..n]);
    }
  }

  lemma {:induction false} OwnLastSplits(f: Fields, open: seq<Message>, ids: seq<Id>)
    requires OwnLast(f, open, ids)
    ensures Filter(Foreign(f, ids), open) + Filter(Own(f, ids), open) == open
  {
    if open != [] {
      var n := |open| - 1;
      OwnLastPrefix(f, open, ids);
      OwnLastSplits(f, open[..n], ids);
      assert open == open[..n] + [open[n]];
    }
  }

  lemma RestIsOwn(f: Fields, taken: seq<Message>, rest: seq<Message>, ids: seq<Id>)
    requires forall x :: x in taken ==> !HasIdIn(f, x, ids)
    requires |Filter(Foreign(f, ids), taken + rest)| == |taken|
    ensures forall j :: 0 <= j < |rest| ==> HasIdIn(f, rest[j], ids)
  {
    FilterAll(Foreign(f, ids), taken);
    FilterConcat(Foreign(f, ids), taken, rest);
    FilterParts(Own(f, ids), Foreign(f, ids), rest);
    FilterFull(Own(f, ids), rest);
  }

  lemma OwnBehind(f: Fields, taken: seq<Message>, rest: seq<Message>, ids: seq<Id>)
    requires forall x :: x in taken ==> !HasIdIn(f, x, ids)
    requires forall j :: 0 <= j < |rest| ==> HasIdIn(f, rest[j], ids)
    ensures OwnLast(f, taken + rest, ids)
  {
    forall i | 0 <= i < |taken| ensures !HasIdIn(f, (taken + rest)[i], ids) {
      assert taken[i] in taken;
    }
  }

  /** A filter that starts the list takes a whole prefix. */
  lemma PrefixSplits(f: Fields, open: seq<Message>, ids: seq<Id>)
    requires Filter(Foreign(f, ids), open) <= open
    ensures OwnLast(f, open, ids)
  {
    var taken := Filter(Foreign(f, ids), open);
    var rest := open[|taken|..];
    assert open == taken + rest;
    RestIsOwn(f, taken, rest, ids);
    OwnBehind(f, taken, rest, ids);
  }

  /** The batches of a group followed by its open messages. */
  function ClosedThenOpen(f: Fields, events: seq<Event>, g: Group): seq<Message> {
    ClosedOf(f, events, g) + OpenOf(f, Run(f, events), g)
  }

  /** The messages of a group that are closed and open, and those that came. */
  datatype Account = Account(closed: seq<Message>, open: seq<Message>, arrivals: seq<Message>)

  function AccountOf(f: Fields, events: seq<Event>, g: Group): Account {
    Account(ClosedOf(f, events, g), OpenOf(f, Run(f, events), g), ArrivalsOf(f, events, g))
  }

  function Booked(f: Fields, a: Account, e: Event, g: Group): Account {
    if e.Log? then
      var more := Filter(InGroup(f, g), e.messages);
      Account(a.closed, a.open + more, a.arrivals + more)
    else if e.Close? && e.group == g then
      Account(a.closed + Filter(Foreign(f, e.ids), a.open), Filter(Own(f, e.ids), a.open), a.arrivals)
    else a
  }

  lemma AccountNext(f: Fields, events: seq<Event>, g: Group)
    requires events != []
    ensures AccountOf(f, events, g) == Booked(f, AccountOf(f, events[..|events| - 1], g), events[|events| - 1], g)
  {
    var before, e := events[..|events| - 1], events[|events| - 1];
    FilterConcat(InGroup(f, g), Logged(before), Brought(e));
    EventOnOpen(f, Run(f, before), e, g);
    if e.Close? {
      BatchOfClose(f, Run(f, before), e.group, e.ids);
    }
  }

  ghost predicate InLine(a: Account) { a.closed + a.open == a.arrivals }

  /** Nothing is missing, and if the batches start the arrivals, the open messages are the rest. */
  ghost predicate Balanced(a: Account) {
    |a.closed| + |a.open| == |a.arrivals| && (a.closed <= a.arrivals ==> InLine(a))
  }

  lemma SameTail<T>(a: seq<T>, b: seq<T>, tail: seq<T>)
    ensures a + tail == b + tail <==> a == b
  {
    if a + tail == b + tail {
      assert |a| == |b|;
      assert a == (a + tail)[..|a|] && b == (b + tail)[..|b|];
    }
  }

  lemma LogBooked(a: Account, more: seq<Message>)
    requires Balanced(a)
    ensures var b := Account(a.closed, a.open + more, a.arrivals + more);
      Balanced(b) && (InLine(b) <==> InLine(a))
  {
    SameTail(a.closed + a.open, a.arrivals, more);
    assert a.closed + (a.open + more) == a.closed + a.open + more;
    if a.closed <= a.arrivals + more {
      assert a.closed == (a.arrivals + more)[..|a.closed|] == a.arrivals[..|a.closed|];
    }
  }

  lemma TakenStarts(a: Account, taken: seq<Message>)
    requires Balanced(a) && |taken| <= |a.open| && a.closed + taken <= a.arrivals
    ensures InLine(a) && taken <= a.open
  {
    assert a.closed == (a.closed + taken)[..|a.closed|];
    assert (a.closed + a.open)[|a.closed|..] == a.open;
    assert (a.closed + taken)[|a.closed|..] == taken;
  }

  lemma Rejoin(a: Account, taken: seq<Message>, left: seq<Message>)
    ensures taken + left == a.open ==> (a.closed + taken + left == a.arrivals <==> InLine(a))
  {
    assert a.closed + taken + left == a.closed + (taken + left);
  }

  lemma CloseBooked(f: Fields, a: Account, ids: seq<Id>)
    requires Balanced(a)
    ensures var b := Account(a.closed + Filter(Foreign(f, ids), a.open), Filter(Own(f, ids), a.open), a.arrivals);
      Balanced(b) && (InLine(b) <==> InLine(a) && OwnLast(f, a.open, ids))
  {
    var taken, left := Filter(Foreign(f, ids), a.open), Filter(Own(f, ids), a.open);
    FilterParts(Own(f, ids), Foreign(f, ids), a.open);
    Rejoin(a, taken, left);
    if a.closed + taken <= a.arrivals {
      TakenStarts(a, taken);
      PrefixSplits(f, a.open, ids);
    }
    if OwnLast(f, a.open, ids) {
      OwnLastSplits(f, a.open, ids);
    }
    assert a.closed + taken + left == a.arrivals ==> a.closed + taken <= a.arrivals;
  }

  lemma NextBooked(f: Fields, a: Account, e: Event, g: Group)
    requires Balanced(a)
    ensures var b := Booked(f, a, e, g);
      && Balanced(b)
      && (InLine(b) <==> InLine(a) && (e.Close? && e.group == g ==> OwnLast(f, a.open, e.ids)))
  {
    if e.Log? {
      LogBooked(a, Filter(InGroup(f, g), e.messages));
    } else if e.Close? && e.group == g {
      CloseBooked(f, a, e.ids);
    }
  }

  lemma LeavesLastNext(f: Fields, events: seq<Event>, g: Group)
    requires events != []
    ensures var n := |events| - 1;
      LeavesLast(f, events, g)
      <==> && LeavesLast(f, events[..n], g)
           && (events[n].Close? && events[n].group == g ==>
                 OwnLast(f, OpenOf(f, Run(f, events[..n]), g), events[n].ids))
  {
    var n := |events| - 1;
    assert forall k :: 0 <= k < n ==> events[..n][k] == events[k] && events[..n][..k] == events[..k];
  }

  lemma {:induction false} AccountExact(f: Fields, events: seq<Event>, g: Group)
    ensures Balanced(AccountOf(f, events, g))
    ensures InLine(AccountOf(f, events, g)) <==> LeavesLast(f, events, g)
  {
    if events == [] {
      assert AccountOf(f, [], g) == Account([], [], []);
    } else {
      var before, e := events[..|events| - 1], events[|events| - 1];
      AccountExact(f, before, g);
      AccountNext(f, events, g);
      NextBooked(f, AccountOf(f, before, g), e, g);
      LeavesLastNext(f, events, g);
    }
  }

  /** Under every interleaving: the batches of a group followed by its open messages are its messages in
      the order of arrival if and only if every boundary of the group leaves only the last of its
      unclosed messages. */
  lemma OrderExact(f: Fields, events: seq<Event>, g: Group)
    ensures ClosedThenOpen(f, events, g) == ArrivalsOf(f, events, g) <==> LeavesLast(f, events, g)
  {
    AccountExact(f, events, g);
  }

  // ---------- a batch against the history of its own request ----------

  /** The batch that a request with these ids closes in group g, when it read the history in `log` and
      `between` happened since. */
  function BatchAfter(f: Fields, log: seq<Record>, between: seq<Event>, g: Group, ids: seq<Id>): seq<Message> {
    ClosedBy(f, RunFrom(f, log, between), Close(g, ids))
  }

  /** The batch: what survives of the unclosed messages of then, and what has come since; the request's
      own messages excepted. */
  lemma BatchParts(f: Fields, log: seq<Record>, between: seq<Event>, g: Group, ids: seq<Id>)
    ensures BatchAfter(f, log, between, g, ids)
            == Filter(Foreign(f, ids), Filter(Survives(f, between), OpenOf(f, log, g)))
               + Filter(Foreign(f, ids), Queue(f, [], between, g))
  {
    var open := OpenOf(f, log, g);
    BatchOfClose(f, RunFrom(f, log, between), g, ids);
    LogIsQueue(f, log, between, g);
    OpenIsOf(f, log, g);
    QueueSplits(f, open, between, g);
    FilterConcat(Foreign(f, ids), Filter(Survives(f, between), open), Queue(f, [], between, g));
  }

  lemma BatchMember(f: Fields, log: seq<Record>, between: seq<Event>, g: Group, ids: seq<Id>, m: Message)
    ensures m in BatchAfter(f, log, between, g, ids)
      <==> && !HasIdIn(f, m, ids)
           && ((m in OpenOf(f, log, g) && !TakenBy(f, between, m)) || Remains(f, between, m, g))
  {
    BatchParts(f, log, between, g, ids);
    QueueMember(f, between, m, g);
  }

  lemma HistoryMember(f: Fields, log: seq<Record>, g: Group, start: Option<int>, limit: nat, ids: seq<Id>, m: Message)
    requires m in History(f, log, g, start, limit, ids)
    ensures m in OpenOf(f, log, g) && !HasIdIn(f, m, ids)
  {
    MatchedAreOpen(f, log, g, start, ids);
    SortMember(Those(Matches(f, g, start, ids), log), ByAge(f), m);
  }

  /** Every message that was unclosed at the read, the request's own excepted, was either seen and is
      still unclosed, or not seen and has been closed by another request. */
  ghost predicate SeenUntaken(f: Fields, open: seq<Message>, history: seq<Message>, between: seq<Event>, ids: seq<Id>) {
    forall m :: m in open && !HasIdIn(f, m, ids) ==> (m in history <==> !TakenBy(f, between, m))
  }

  /** What was logged since the read and is still unclosed is the request's own. */
  ghost predicate NothingNew(f: Fields, between: seq<Event>, g: Group, ids: seq<Id>) {
    forall m :: Remains(f, between, m, g) ==> HasIdIn(f, m, ids)
  }

  lemma {:induction false} ThoseDistinct(p: Record -> bool, log: seq<Record>)
    requires Distinct(Messages(log))
    ensures Distinct(Those(p, log)) && forall m :: m in Those(p, log) ==> m in Messages(log)
  {
    if log != [] {
      var rest, last := log[..|log| - 1], log[|log| - 1];
      assert Messages(log) == Messages(rest) + [last.message];
      DistinctParts(Messages(rest), [last.message]);
      ThoseDistinct(p, rest);
      assert last.message in [last.message];
      assert last.message !in Those(p, rest);
    }
  }

  lemma DistinctParts<T(!new)>(a: seq<T>, b: seq<T>)
    requires Distinct(a + b)
    ensures Distinct(a) && Distinct(b) && forall x :: x in a ==> x !in b
  {
    forall i, j | 0 <= i < j < |a| ensures a[i] != a[j] {
      assert (a + b)[i] == a[i] && (a + b)[j] == a[j];
    }
    forall i, j | 0 <= i < j < |b| ensures b[i] != b[j] {
      assert (a + b)[|a| + i] == b[i] && (a + b)[|a| + j] == b[j];
    }
    forall x | x in a ensures x !in b {
      var i :| 0 <= i < |a| && a[i] == x;
      forall j | 0 <= j < |b| ensures b[j] != x {
        assert (a + b)[i] == x && (a + b)[|a| + j] == b[j];
      }
    }
  }

  lemma {:induction false} RemainsWasLogged(f: Fields, events: seq<Event>, m: Message, g: Group)
    requires Remains(f, events, m, g)
    ensures m in Logged(events)
  {
    var n := |events| - 1;
    RemainsNext(f, events, m, g);
    if Remains(f, events[..n], m, g) {
      RemainsWasLogged(f, events[..n], m, g);
    }
  }

  lemma {:induction false} RunFromMessages(f: Fields, log: seq<Record>, events: seq<Event>)
    ensures Messages(RunFrom(f, log, events)) == Messages(log) + Logged(events)
  {
    if events != [] {
      var before, e := events[..|events| - 1], events[|events| - 1];
      RunFromMessages(f, log, before);
      if e.Log? {
        MapConcat(MessageOf, RunFrom(f, log, before), Map(NewRecord, e.messages));
        assert Map(MessageOf, Map(NewRecord, e.messages)) == e.messages;
      } else if Steps(e) {
        assert Map(MessageOf, Map(StepOf(f, e), RunFrom(f, log, before))) == Map(MessageOf, RunFrom(f, log, before));
      }
    }
  }

  lemma BatchDistinct(f: Fields, log: seq<Record>, between: seq<Event>, g: Group, ids: seq<Id>)
    requires Distinct(Messages(log) + Logged(between))
    ensures Distinct(BatchAfter(f, log, between, g, ids))
  {
    RunFromMessages(f, log, between);
    ThoseDistinct(Closes(StepOf(f, Close(g, ids))), RunFrom(f, log, between));
  }

  lemma HistoryDistinct(f: Fields, log: seq<Record>, g: Group, start: Option<int>, limit: nat, ids: seq<Id>)
    requires Distinct(Messages(log))
    ensures Distinct(History(f, log, g, start, limit, ids))
  {
    var found := Those(Matches(f, g, start, ids), log);
    ThoseDistinct(Matches(f, g, start, ids), log);
    SortPermutes(found, ByAge(f));
    PermutationDistinct(found, SortDesc(found, ByAge(f)));
  }

  /** An unclosed message of then is none of those logged since. */
  lemma OpenIsNotNew(f: Fields, log: seq<Record>, between: seq<Event>, g: Group, m: Message)
    requires Distinct(Messages(log) + Logged(between)) && m in OpenOf(f, log, g)
    ensures !Remains(f, between, m, g)
  {
    DistinctParts(Messages(log), Logged(between));
    ThoseDistinct(Unclosed(f, g), log);
    if Remains(f, between, m, g) {
      RemainsWasLogged(f, between, m, g);
    }
  }

  ghost predicate SameMembers(a: seq<Message>, b: seq<Message>) {
    forall m :: m in a <==> m in b
  }

  lemma BatchMembersExact(f: Fields, log: seq<Record>, between: seq<Event>, g: Group, ids: seq<Id>,
      history: seq<Message>)
    requires Distinct(Messages(log) + Logged(between))
    requires forall m :: m in history ==> m in OpenOf(f, log, g) && !HasIdIn(f, m, ids)
    ensures SameMembers(BatchAfter(f, log, between, g, ids), history)
      <==> SeenUntaken(f, OpenOf(f, log, g), history, between, ids) && NothingNew(f, between, g, ids)
  {
    var open, batch := OpenOf(f, log, g), BatchAfter(f, log, between, g, ids);
    forall m
      ensures m in batch
        <==> !HasIdIn(f, m, ids) && ((m in open && !TakenBy(f, between, m)) || Remains(f, between, m, g))
      ensures m in open ==> !Remains(f, between, m, g)
    {
      BatchMember(f, log, between, g, ids, m);
      if m in open {
        OpenIsNotNew(f, log, between, g, m);
      }
    }
    if SameMembers(batch, history) {
      forall m | Remains(f, between, m, g) ensures HasIdIn(f, m, ids) {
        assert m in batch <==> m in history;
      }
      forall m | m in open && !HasIdIn(f, m, ids) ensures m in history <==> !TakenBy(f, between, m) {
        assert m in batch <==> m in history;
      }
    }
  }

  /** Under every interleaving, for messages that are each logged once: a request closes exactly what it
      read if and only if every message unclosed at the read was seen and is untaken, or unseen and taken
      by another boundary, and nothing logged since is left but the request's own messages. */
  lemma SeenExact(f: Fields, log: seq<Record>, between: seq<Event>, g: Group, start: Option<int>, limit: nat,
      ids: seq<Id>)
    requires Distinct(Messages(log) + Logged(between))
    ensures var history := History(f, log, g, start, limit, ids);
      multiset(BatchAfter(f, log, between, g, ids)) == multiset(history)
      <==> SeenUntaken(f, OpenOf(f, log, g), history, between, ids) && NothingNew(f, between, g, ids)
  {
    var history, batch := History(f, log, g, start, limit, ids), BatchAfter(f, log, between, g, ids);
    DistinctParts(Messages(log), Logged(between));
    BatchDistinct(f, log, between, g, ids);
    HistoryDistinct(f, log, g, start, limit, ids);
    forall m | m in history ensures m in OpenOf(f, log, g) && !HasIdIn(f, m, ids) {
      HistoryMember(f, log, g, start, limit, ids, m);
    }
    BatchMembersExact(f, log, between, g, ids, history);
    if multiset(batch) == multiset(history) {
      SameMultisetSameMembers(batch, history);
    }
    if SameMembers(batch, history) {
      SameMembersSameMultiset(batch, history);
    }
  }

  // ---------- while no other request closes ----------

  /** No other boundary of the group. */
  ghost predicate NoClose(between: seq<Event>, g: Group) {
    forall k :: 0 <= k < |between| ==> !(between[k].Close? && between[k].group == g)
  }

  /** Every message of the group logged in between is one of the request's own. */
  ghost predicate OnlyOwnLogged(f: Fields, between: seq<Event>, g: Group, ids: seq<Id>) {
    forall m :: m in Logged(between) && f.group(m) == g ==> HasIdIn(f, m, ids)
  }

  lemma CameNext(f: Fields, between: seq<Event>, g: Group)
    requires between != []
    ensures var n := |between| - 1;
      Filter(InGroup(f, g), Logged(between))
      == Filter(InGroup(f, g), Logged(between[..n])) + Filter(InGroup(f, g), Brought(between[n]))
  {
    FilterConcat(InGroup(f, g), Logged(between[..|between| - 1]), Brought(between[|between| - 1]));
  }

  lemma NoCloseStep(f: Fields, open: seq<Message>, e: Event, g: Group)
    requires !(e.Close? && e.group == g)
    ensures AfterEvent(f, open, e, g) == open + Filter(InGroup(f, g), Brought(e))
  {
  }

  lemma NoClosePrefix(between: seq<Event>, g: Group)
    requires NoClose(between, g) && between != []
    ensures var n := |between| - 1;
      NoClose(between[..n], g) && !(between[n].Close? && between[n].group == g)
  {
  }

  lemma {:induction false} NoCloseAppends(f: Fields, open: seq<Message>, between: seq<Event>, g: Group)
    requires NoClose(between, g)
    ensures Queue(f, open, between, g) == open + Filter(InGroup(f, g), Logged(between))
  {
    if between == [] {
      assert open + [] == open;
    } else {
      var before, e := between[..|between| - 1], between[|between| - 1];
      NoClosePrefix(between, g);
      NoCloseAppends(f, open, before, g);
      NoCloseStep(f, Queue(f, open, before, g), e, g);
      CameNext(f, between, g);
      Regroup(open, Filter(InGroup(f, g), Logged(before)), Filter(InGroup(f, g), Brought(e)));
    }
  }

  lemma Regroup<T>(a: seq<T>, b: seq<T>, c: seq<T>)
    ensures a + b + c == a + (b + c)
  {
  }

  /** Without another boundary the batch is all of then and all that came since. */
  lemma UndisturbedBatch(f: Fields, log: seq<Record>, between: seq<Event>, g: Group, ids: seq<Id>)
    requires NoClose(between, g)
    ensures BatchAfter(f, log, between, g, ids)
            == Filter(Foreign(f, ids), OpenOf(f, log, g))
                + Filter(Foreign(f, ids), Filter(InGroup(f, g), Logged(between)))
  {
    BatchOfClose(f, RunFrom(f, log, between), g, ids);
    LogIsQueue(f, log, between, g);
    NoCloseAppends(f, OpenOf(f, log, g), between, g);
    FilterConcat(Foreign(f, ids), OpenOf(f, log, g), Filter(InGroup(f, g), Logged(between)));
  }

  lemma OnlyOwnExact(f: Fields, between: seq<Event>, g: Group, ids: seq<Id>)
    ensures Filter(Foreign(f, ids), Filter(InGroup(f, g), Logged(between))) == [] <==> OnlyOwnLogged(f, between, g, ids)
  {
    var came := Filter(InGroup(f, g), Logged(between));
    if OnlyOwnLogged(f, between, g, ids) {
      FilterNone(Foreign(f, ids), came);
    } else {
      var m :| m in Logged(between) && f.group(m) == g && !HasIdIn(f, m, ids);
      assert m in came;
      assert m in Filter(Foreign(f, ids), came);
    }
  }

  /** While no other request closes the group: a request closes exactly what it read if and only if the
      history was complete and no message of the group but its own was logged since. */
  lemma UndisturbedExact(f: Fields, log: seq<Record>, between: seq<Event>, g: Group, start: Option<int>, limit: nat,
      ids: seq<Id>)
    requires NoClose(between, g)
    ensures multiset(BatchAfter(f, log, between, g, ids)) == multiset(History(f, log, g, start, limit, ids))
      <==> Complete(f, log, g, start, limit, ids) && OnlyOwnLogged(f, between, g, ids)
  {
    var all, history := Filter(Foreign(f, ids), OpenOf(f, log, g)), History(f, log, g, start, limit, ids);
    var came := Filter(Foreign(f, ids), Filter(InGroup(f, g), Logged(between)));
    UndisturbedBatch(f, log, between, g, ids);
    CompleteExact(f, log, g, start, limit, ids);
    OnlyOwnExact(f, between, g, ids);
    if multiset(all + came) == multiset(history) {
      SameMultisetSameLength(all + came, history);
      assert came == [] && all + came == all;
    } else if came == [] {
      assert all + came == all;
    }
  }

  /** And then, for messages logged in creation order, in the same order. */
  lemma UndisturbedInOrder(f: Fields, log: seq<Record>, between: seq<Event>, g: Group, start: Option<int>, limit: nat,
      ids: seq<Id>)
    requires NoClose(between, g) && Aged(f, Messages(log))
    requires Complete(f, log, g, start, limit, ids) && OnlyOwnLogged(f, between, g, ids)
    ensures BatchAfter(f, log, between, g, ids) == History(f, log, g, start, limit, ids)
  {
    UndisturbedBatch(f, log, between, g, ids);
    CompleteExact(f, log, g, start, limit, ids);
    OnlyOwnExact(f, between, g, ids);
  }

  // ---------- inputs on which the claims fail ----------

  lemma QueueNext(f: Fields, events: seq<Event>, e: Event, g: Group)
    ensures OpenOf(f, Run(f, events + [e]), g) == AfterEvent(f, OpenOf(f, Run(f, events), g), e, g)
  {
    RunAppend(f, events, e);
    EventOnOpen(f, Run(f, events), e, g);
  }

  lemma FilterOne<T(!new)>(p: T -> bool, x: T)
    ensures Filter(p, [x]) == if p(x) then [x] else []
  {
    assert [x][..0] == [];
  }

  lemma FilterTwo<T(!new)>(p: T -> bool, x: T, y: T)
    ensures Filter(p, [x, y]) == (if p(x) then [x] else []) + (if p(y) then [y] else [])
  {
    assert [x, y] == [x] + [y];
    FilterConcat(p, [x], [y]);
    FilterOne(p, x);
    FilterOne(p, y);
  }

  /** Three messages of one group; a and b have ids of their own. */
  ghost predicate OneGroup(f: Fields, g: Group, h: Message, a: Message, b: Message, ia: Id) {
    && f.group(h) == g && f.group(a) == g && f.group(b) == g
    && f.id(a) == Some(ia) && f.id(h) != Some(ia) && f.id(b) != Some(ia)
  }

  lemma LogOneMore(f: Fields, events: seq<Event>, x: Message, g: Group)
    requires f.group(x) == g
    ensures OpenOf(f, Run(f, events + [Log([x])]), g) == OpenOf(f, Run(f, events), g) + [x]
  {
    QueueNext(f, events, Log([x]), g);
    FilterOne(InGroup(f, g), x);
  }

  lemma TwoLogged(f: Fields, g: Group, x: Message, y: Message)
    requires f.group(x) == g && f.group(y) == g
    ensures OpenOf(f, Run(f, [Log([x]), Log([y])]), g) == [x, y]
  {
    var none: seq<Event> := [];
    LogOneMore(f, none, x, g);
    LogOneMore(f, none + [Log([x])], y, g);
    assert none + [Log([x])] + [Log([y])] == [Log([x]), Log([y])];
    assert OpenOf(f, Run(f, none), g) + [x] + [y] == [x, y];
  }

  lemma ReadsOne(f: Fields, log: seq<Record>, g: Group, h: Message, a: Message, ia: Id)
    requires OpenOf(f, log, g) == [h, a] && f.id(a) == Some(ia) && f.id(h) != Some(ia)
    ensures History(f, log, g, None, 1000, [ia]) == [h] && Filter(Foreign(f, [ia]), OpenOf(f, log, g)) == [h]
  {
    FilterTwo(Foreign(f, [ia]), h, a);
    FilterTwo(InHistory(f, None, [ia]), h, a);
    MatchedAreOpen(f, log, g, None, [ia]);
    var one := [h];
    assert one[..0] == [] && one + [] == one;
    assert SortDesc(one, ByAge(f)) == one;
  }

  lemma NewOne(f: Fields, g: Group, b: Message, ia: Id)
    requires f.group(b) == g && f.id(b) != Some(ia)
    ensures Filter(Foreign(f, [ia]), Filter(InGroup(f, g), Logged([Log([b])]))) == [b]
  {
    var e := [Log([b])];
    assert e[..0] == [] && Logged(e[..0]) == [] && Logged(e) == [] + [b];
    FilterOne(InGroup(f, g), b);
    FilterOne(Foreign(f, [ia]), b);
  }

  /** The batch when one message comes in between. */
  lemma OneComes(f: Fields, log: seq<Record>, between: seq<Event>, g: Group, ids: seq<Id>, h: Message, b: Message)
    requires NoClose(between, g)
    requires Filter(Foreign(f, ids), OpenOf(f, log, g)) == [h]
    requires Filter(Foreign(f, ids), Filter(InGroup(f, g), Logged(between))) == [b]
    ensures BatchAfter(f, log, between, g, ids) == [h, b]
  {
    UndisturbedBatch(f, log, between, g, ids);
    assert [h] + [b] == [h, b];
  }

  lemma NewOneOf(f: Fields, between: seq<Event>, g: Group, b: Message, ia: Id)
    requires f.group(b) == g && f.id(b) != Some(ia) && between == [Log([b])]
    ensures Filter(Foreign(f, [ia]), Filter(InGroup(f, g), Logged(between))) == [b] && NoClose(between, g)
  {
    NewOne(f, g, b, ia);
  }

  lemma UnseenFrom(f: Fields, log: seq<Record>, between: seq<Event>, g: Group, h: Message, a: Message, b: Message,
      ia: Id)
    requires OneGroup(f, g, h, a, b, ia) && OpenOf(f, log, g) == [h, a] && between == [Log([b])]
    ensures History(f, log, g, None, 1000, [ia]) == [h] && BatchAfter(f, log, between, g, [ia]) == [h, b]
  {
    ReadsOne(f, log, g, h, a, ia);
    NewOneOf(f, between, g, b, ia);
    OneComes(f, log, between, g, [ia], h, b);
  }

  /** The request of a reads [h]; b is logged before the request closes, and is closed unseen. */
  lemma ClosedUnseen(f: Fields, events: seq<Event>, log: seq<Record>, between: seq<Event>, g: Group, h: Message,
      a: Message, b: Message, ia: Id)
    requires OneGroup(f, g, h, a, b, ia)
    requires events == [Log([h]), Log([a])] && log == Run(f, events) && between == [Log([b])]
    ensures History(f, log, g, None, 1000, [ia]) == [h]
    ensures BatchAfter(f, log, between, g, [ia]) == [h, b]
  {
    TwoLogged(f, g, h, a);
    UnseenFrom(f, log, between, g, h, a, b, ia);
  }

  lemma ClosedNext(f: Fields, events: seq<Event>, e: Event, g: Group)
    ensures ClosedOf(f, events + [e], g)
            == ClosedOf(f, events, g) + (if e.Close? && e.group == g then ClosedBy(f, Run(f, events), e) else [])
    ensures Logged(events + [e]) == Logged(events) + Brought(e)
  {
    assert (events + [e])[..|events|] == events;
  }

  lemma LogBooks(f: Fields, events: seq<Event>, x: Message, g: Group)
    ensures ClosedOf(f, events + [Log([x])], g) == ClosedOf(f, events, g)
    ensures Logged(events + [Log([x])]) == Logged(events) + [x]
  {
    ClosedNext(f, events, Log([x]), g);
  }

  lemma TwoBooked(f: Fields, g: Group, x: Message, y: Message)
    ensures ClosedOf(f, [Log([x]), Log([y])], g) == [] && Logged([Log([x]), Log([y])]) == [x, y]
  {
    var none: seq<Event> := [];
    LogBooks(f, none, x, g);
    LogBooks(f, none + [Log([x])], y, g);
    assert none + [Log([x])] + [Log([y])] == [Log([x]), Log([y])];
    assert Logged(none) + [x] + [y] == [x, y];
  }

  lemma ReadBooks(f: Fields, events: seq<Event>, g: Group, ids: seq<Id>)
    ensures OpenOf(f, Run(f, events + [Read(g, ids)]), g) == OpenOf(f, Run(f, events), g)
    ensures ClosedOf(f, events + [Read(g, ids)], g) == ClosedOf(f, events, g)
    ensures Logged(events + [Read(g, ids)]) == Logged(events)
  {
    QueueNext(f, events, Read(g, ids), g);
    ClosedNext(f, events, Read(g, ids), g);
  }

  lemma CloseBooks(f: Fields, events: seq<Event>, g: Group, ids: seq<Id>)
    ensures var open := OpenOf(f, Run(f, events), g);
      && OpenOf(f, Run(f, events + [Close(g, ids)]), g) == Filter(Own(f, ids), open)
      && ClosedOf(f, events + [Close(g, ids)], g) == ClosedOf(f, events, g) + Filter(Foreign(f, ids), open)
    ensures Logged(events + [Close(g, ids)]) == Logged(events)
  {
    QueueNext(f, events, Close(g, ids), g);
    ClosedNext(f, events, Close(g, ids), g);
    BatchOfClose(f, Run(f, events), g, ids);
  }

  /** A boundary on two open messages, the first of them its own. */
  lemma SecondCloses(f: Fields, a: Message, b: Message, ids: seq<Id>)
    requires HasIdIn(f, a, ids) && !HasIdIn(f, b, ids)
    ensures Filter(Own(f, ids), [a, b]) == [a] && Filter(Foreign(f, ids), [a, b]) == [b]
  {
    FilterTwo(Own(f, ids), a, b);
    FilterTwo(Foreign(f, ids), a, b);
  }

  lemma BothInGroup(f: Fields, g: Group, a: Message, b: Message)
    requires f.group(a) == g && f.group(b) == g
    ensures Filter(InGroup(f, g), [a, b]) == [a, b]
  {
    FilterTwo(InGroup(f, g), a, b);
  }

  lemma ClosesLater(f: Fields, two: seq<Event>, events: seq<Event>, g: Group, a: Message, b: Message, ids: seq<Id>)
    requires HasIdIn(f, a, ids) && !HasIdIn(f, b, ids) && f.group(a) == g && f.group(b) == g
    requires OpenOf(f, Run(f, two), g) == [a, b] && ClosedOf(f, two, g) == [] && Logged(two) == [a, b]
    requires events == two + [Read(g, ids)] + [Close(g, ids)]
    ensures ClosedOf(f, events, g) == [b] && OpenOf(f, Run(f, events), g) == [a] && ArrivalsOf(f, events, g) == [a, b]
  {
    ReadBooks(f, two, g, ids);
    CloseBooks(f, two + [Read(g, ids)], g, ids);
    SecondCloses(f, a, b, ids);
    BothInGroup(f, g, a, b);
  }

  /** Two messages are logged before the request of the first one runs: its boundary closes the second
      and leaves the first. */
  lemma LaterClosedFirst(f: Fields, two: seq<Event>, events: seq<Event>, g: Group, a: Message, b: Message, ia: Id)
    requires OneGroup(f, g, b, a, b, ia)
    requires two == [Log([a]), Log([b])] && events == two + [Read(g, [ia])] + [Close(g, [ia])]
    ensures ClosedOf(f, events, g) == [b] && OpenOf(f, Run(f, events), g) == [a]
    ensures ArrivalsOf(f, events, g) == [a, b]
  {
    TwoLogged(f, g, a, b);
    TwoBooked(f, g, a, b);
    ClosesLater(f, two, events, g, a, b, [ia]);
  }
}
