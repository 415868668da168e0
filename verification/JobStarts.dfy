/** The start time that a job takes from the status row, over every run of the worker: which unclosed
    messages it can leave out. */
module JobStarts {
  import opened Outcomes
  import opened Sequences
  import opened StableSort
  import opened MessageLog
  import opened GroupQueue
  import opened Accumulation
  import opened StatusRow
  import opened Memorize
  import opened BatchLaws
  import opened Jobs

  /** The job has seen a boundary and closed its group. */
  predicate HasClosed(j: Job) {
    j.verdict.Boundary? && !j.stage.Reading? && !j.stage.Closing?
  }

  /** The time of the memcell made from what the job has read. */
  function Stamp(w: World, j: Job): int { w.memcellTime(j.history) }

  /** Job i has closed group g, and its memcell is stamped t. */
  predicate Stamped(w: World, s: State, g: Group, t: int, i: nat) {
    i < |s.jobs| && HasClosed(s.jobs[i]) && s.jobs[i].request.group == g && Stamp(w, s.jobs[i]) == t
  }

  /** A start time is the stamp of some job that has closed the group. */
  ghost predicate Sourced(w: World, s: State, g: Group, start: Option<int>) {
    start.Some? ==> exists i: nat :: Stamped(w, s, g, start.value, i)
  }

  ghost predicate OlderAreOwn(f: Fields, open: seq<Message>, t: int, ids: seq<Id>) {
    forall m :: m in open && f.created(m) < t ==> HasIdIn(f, m, ids)
  }

  /** The log has reached the job's stamp, and what it left open of older messages is its own. */
  ghost predicate StampFits(w: World, log: seq<Record>, j: Job) {
    && (j.verdict.Boundary? ==> ReachedBy(w.fields, log, Stamp(w, j)))
    && (HasClosed(j) ==> OlderAreOwn(w.fields, OpenOf(w.fields, log, j.request.group), Stamp(w, j), OwnIds(w, j)))
  }

  predicate WellStaged(j: Job) {
    && (j.stage.Reading? ==> !j.verdict.Boundary?)
    && (j.stage.Closing? || j.stage.Saving? ==> j.verdict.Boundary?)
  }

  ghost predicate JobSound(w: World, s: State, j: Job) {
    && WellStaged(j) && StampFits(w, s.log, j)
    && Sourced(w, s, j.request.group, j.start)
    && (j.loaded.Some? ==> Sourced(w, s, j.request.group, j.loaded.value.lastMemcell))
  }

  ghost predicate RowsSourced(w: World, s: State) {
    forall g :: Sourced(w, s, g, StartTime(s.rows, g))
  }

  ghost predicate Sound(w: World, s: State) {
    RowsSourced(w, s) && forall i :: 0 <= i < |s.jobs| ==> JobSound(w, s, s.jobs[i])
  }

  // ---------- what a move keeps ----------

  lemma SourcedStays(w: World, s: State, m: Move, g: Group, start: Option<int>)
    requires Sourced(w, s, g, start)
    ensures Sourced(w, Moved(w, s, m), g, start)
  {
    if start.Some? {
      var i: nat :| Stamped(w, s, g, start.value, i);
      MoveKeepsJob(w, s, m, i);
      assert Stamped(w, Moved(w, s, m), g, start.value, i);
    }
  }

  lemma NextMessages(f: Fields, log: seq<Record>, e: Event)
    ensures Messages(MessageLog.Next(f, log, e)) == Messages(log) + Brought(e)
  {
    if e.Log? {
      MapConcat(MessageOf, log, Map(NewRecord, e.messages));
      assert Map(MessageOf, Map(NewRecord, e.messages)) == e.messages;
    } else if Steps(e) {
      assert Map(MessageOf, Map(StepOf(f, e), log)) == Map(MessageOf, log);
    }
  }

  lemma StillReachedBy(f: Fields, log: seq<Record>, e: Event, t: int)
    requires ReachedBy(f, log, t)
    ensures ReachedBy(f, MessageLog.Next(f, log, e), t)
  {
    NextMessages(f, log, e);
    var m :| m in Messages(log) && t <= f.created(m);
    assert m in Messages(MessageLog.Next(f, log, e));
  }

  /** Messages logged later are no older than a time the log has reached. */
  lemma OlderStayOwn(f: Fields, log: seq<Record>, e: Event, g: Group, t: int, ids: seq<Id>)
    requires OlderAreOwn(f, OpenOf(f, log, g), t, ids) && ReachedBy(f, log, t)
    requires Aged(f, Messages(MessageLog.Next(f, log, e)))
    ensures OlderAreOwn(f, OpenOf(f, MessageLog.Next(f, log, e), g), t, ids)
  {
    EventOnOpen(f, log, e, g);
    NextMessages(f, log, e);
    if e.Log? {
      forall m | m in Filter(InGroup(f, g), e.messages) ensures t <= f.created(m) {
        NewNotOlder(f, log, e.messages, t, m);
      }
    }
  }

  lemma StampStillFits(w: World, log: seq<Record>, e: Event, j: Job)
    requires StampFits(w, log, j) && Aged(w.fields, Messages(MessageLog.Next(w.fields, log, e)))
    requires HasClosed(j) ==> j.verdict.Boundary?
    ensures StampFits(w, MessageLog.Next(w.fields, log, e), j)
  {
    if j.verdict.Boundary? {
      StillReachedBy(w.fields, log, e, Stamp(w, j));
      if HasClosed(j) {
        OlderStayOwn(w.fields, log, e, j.request.group, Stamp(w, j), OwnIds(w, j));
      }
    }
  }

  /** A job that closes leaves nothing but its own messages. */
  lemma CloseLeavesOwn(f: Fields, log: seq<Record>, g: Group, t: int, ids: seq<Id>)
    ensures OlderAreOwn(f, OpenOf(f, MessageLog.Next(f, log, Close(g, ids)), g), t, ids)
  {
    EventOnOpen(f, log, Close(g, ids), g);
  }

  lemma ReadReaches(w: World, log: seq<Record>, j: Job)
    requires StampsHistory(w) && WithHistory(w, log, j).verdict.Boundary?
    ensures ReachedBy(w.fields, log, Stamp(w, WithHistory(w, log, j)))
  {
    var history := WithHistory(w, log, j).history;
    assert history != [];
    assert StampedBy(w, history);
    var m :| m in history && w.memcellTime(history) <= w.fields.created(m);
    HistoryMember(w.fields, log, j.request.group, j.start, HISTORY_LIMIT, OwnIds(w, j), m);
    OpenWasLogged(w.fields, log, j.request.group, m);
  }

  lemma OpenWasLogged(f: Fields, log: seq<Record>, g: Group, m: Message)
    requires m in OpenOf(f, log, g)
    ensures m in Messages(log)
  {
    ThoseHave(Unclosed(f, g), log, m);
    var r :| r in log && r.message == m;
    RecordsOf(log, r);
  }

  /** The job that moves: its stage, and its stamp against the log it leaves. */
  lemma MoverFits(w: World, s: State, j: Job)
    requires StampsHistory(w) && WellStaged(j) && StampFits(w, s.log, j)
    requires Aged(w.fields, Messages(LogAfterEvent(w.fields, s.log, LogEvent(w, j))))
    ensures WellStaged(JobAfter(w, s, j))
    ensures StampFits(w, LogAfterEvent(w.fields, s.log, LogEvent(w, j)), JobAfter(w, s, j))
  {
    var k := JobAfter(w, s, j);
    match j.stage
    case Reading =>
      if k.verdict.Boundary? {
        ReadReaches(w, s.log, j);
      }
    case Closing =>
      StillReachedBy(w.fields, s.log, LogEvent(w, j).value, Stamp(w, j));
      CloseLeavesOwn(w.fields, s.log, j.request.group, Stamp(w, j), OwnIds(w, j));
    case Accepting => StampStillFits(w, s.log, LogEvent(w, j).value, j);
    case LoadingRow =>
    case WritingRow =>
    case Saving =>
    case Done =>
  }

  lemma OtherFits(w: World, log: seq<Record>, e: Option<Event>, j: Job)
    requires StampFits(w, log, j) && Aged(w.fields, Messages(LogAfterEvent(w.fields, log, e)))
    ensures StampFits(w, LogAfterEvent(w.fields, log, e), j)
  {
    if e.Some? {
      StampStillFits(w, log, e.value, j);
    }
  }

  lemma MoverSound(w: World, s: State, i: nat)
    requires StampsHistory(w) && Sound(w, s) && i < |s.jobs|
    requires Aged(w.fields, Messages(Moved(w, s, Resume(i)).log))
    ensures JobSound(w, Moved(w, s, Resume(i)), Moved(w, s, Resume(i)).jobs[i])
  {
    var j := s.jobs[i];
    assert JobSound(w, s, j);
    MoverFits(w, s, j);
    SourcedStays(w, s, Resume(i), j.request.group, j.start);
    if j.loaded.Some? {
      SourcedStays(w, s, Resume(i), j.request.group, j.loaded.value.lastMemcell);
    }
    SourcedStays(w, s, Resume(i), j.request.group, StartTime(s.rows, j.request.group));
  }

  lemma OtherSound(w: World, s: State, m: Move, k: nat)
    requires Sound(w, s) && k < |s.jobs| && !(m.Resume? && m.job == k)
    requires Aged(w.fields, Messages(Moved(w, s, m).log))
    ensures k < |Moved(w, s, m).jobs| && JobSound(w, Moved(w, s, m), Moved(w, s, m).jobs[k])
  {
    var j := s.jobs[k];
    assert JobSound(w, s, j);
    SourcedStays(w, s, m, j.request.group, j.start);
    if j.loaded.Some? {
      SourcedStays(w, s, m, j.request.group, j.loaded.value.lastMemcell);
    }
    match m
    case Arrive(messages) => OtherFits(w, s.log, Some(Log(messages)), j);
    case Begin(_) =>
    case Resume(i) =>
      if i < |s.jobs| {
        OtherFits(w, s.log, LogEvent(w, s.jobs[i]), j);
      }
  }

  lemma WrittenRowSourced(w: World, s: State, i: nat)
    requires Sound(w, s) && i < |s.jobs|
    ensures var g := s.jobs[i].request.group;
      Sourced(w, Moved(w, s, Resume(i)), g, StartTime(Moved(w, s, Resume(i)).rows, g))
  {
    var j, t := s.jobs[i], Moved(w, s, Resume(i));
    assert JobSound(w, s, j);
    SourcedStays(w, s, Resume(i), j.request.group, StartTime(s.rows, j.request.group));
    if j.loaded.Some? {
      SourcedStays(w, s, Resume(i), j.request.group, j.loaded.value.lastMemcell);
    }
    if j.stage.Saving? {
      assert Stamped(w, t, j.request.group, Stamp(w, j), i);
    }
  }

  lemma RowsStaySourced(w: World, s: State, m: Move)
    requires Sound(w, s)
    ensures RowsSourced(w, Moved(w, s, m))
  {
    forall g ensures Sourced(w, Moved(w, s, m), g, StartTime(Moved(w, s, m).rows, g)) {
      if m.Resume? && m.job < |s.jobs| && s.jobs[m.job].request.group == g {
        WrittenRowSourced(w, s, m.job);
      } else {
        SourcedStays(w, s, m, g, StartTime(s.rows, g));
      }
    }
  }

  lemma BegunSound(w: World, s: State, r: Request)
    requires Sound(w, s) && r.messages != []
    ensures JobSound(w, Moved(w, s, Begin(r)), Begun(s, r))
  {
    SourcedStays(w, s, Begin(r), r.group, StartTime(s.rows, r.group));
  }

  lemma MoveKeepsSound(w: World, s: State, m: Move)
    requires StampsHistory(w) && Sound(w, s) && Aged(w.fields, Messages(Moved(w, s, m).log))
    ensures Sound(w, Moved(w, s, m))
  {
    var t := Moved(w, s, m);
    RowsStaySourced(w, s, m);
    forall k | 0 <= k < |t.jobs| ensures JobSound(w, t, t.jobs[k]) {
      if k >= |s.jobs| {
        BegunSound(w, s, m.request);
      } else if m.Resume? && m.job == k {
        MoverSound(w, s, k);
      } else {
        OtherSound(w, s, m, k);
      }
    }
  }

  lemma MoveExtends(w: World, s: State, m: Move)
    ensures exists more: seq<Message> :: Messages(Moved(w, s, m).log) == Messages(s.log) + more
  {
    var more: seq<Message> := if m.Arrive? then m.messages else [];
    if m.Arrive? {
      NextMessages(w.fields, s.log, Log(m.messages));
    } else if m.Resume? && m.job < |s.jobs| && LogEvent(w, s.jobs[m.job]).Some? {
      NextMessages(w.fields, s.log, LogEvent(w, s.jobs[m.job]).value);
    }
    assert Messages(Moved(w, s, m).log) == Messages(s.log) + more;
  }

  /** Over every run whose messages are logged in creation order. */
  lemma {:induction false} RunIsSound(w: World, moves: seq<Move>)
    requires StampsHistory(w) && Aged(w.fields, Messages(After(w, EMPTY, moves).log))
    ensures Sound(w, After(w, EMPTY, moves))
  {
    if moves != [] {
      var before, m := moves[..|moves| - 1], moves[|moves| - 1];
      var s := After(w, EMPTY, before);
      MoveExtends(w, s, m);
      var more :| Messages(Moved(w, s, m).log) == Messages(s.log) + more;
      AgedPrefix(w.fields, Messages(s.log), more);
      RunIsSound(w, before);
      MoveKeepsSound(w, s, m);
    }
  }

  // ---------- what a start time leaves out ----------

  /** Whatever the interleaving: an unclosed message older than the start time is one of the new messages
      of the very request whose boundary set that time. */
  lemma OlderIsOwn(w: World, moves: seq<Move>, g: Group, start: int, m: Message)
    requires StampsHistory(w) && Aged(w.fields, Messages(After(w, EMPTY, moves).log))
    requires var s := After(w, EMPTY, moves);
      Sourced(w, s, g, Some(start)) && m in OpenOf(w.fields, s.log, g) && w.fields.created(m) < start
    ensures var s := After(w, EMPTY, moves);
      && (exists i: nat :: Stamped(w, s, g, start, i))
      && (forall i: nat :: Stamped(w, s, g, start, i) ==> HasIdIn(w.fields, m, OwnIds(w, s.jobs[i])))
  {
    var s := After(w, EMPTY, moves);
    RunIsSound(w, moves);
    forall i: nat | Stamped(w, s, g, start, i) ensures HasIdIn(w.fields, m, OwnIds(w, s.jobs[i])) {
      assert JobSound(w, s, s.jobs[i]);
    }
  }

  ghost predicate OwnStartsFrom(f: Fields, open: seq<Message>, start: int, ids: seq<Id>) {
    forall m :: m in open && HasIdIn(f, m, ids) ==> start <= f.created(m)
  }

  /** The requests that set the start time have left no message of their own that is older. */
  ghost predicate OwnNotOlder(w: World, s: State, g: Group, start: int) {
    forall i: nat :: Stamped(w, s, g, start, i) ==>
      OwnStartsFrom(w.fields, OpenOf(w.fields, s.log, g), start, OwnIds(w, s.jobs[i]))
  }

  /** Over every run: the start time in the status row leaves out no unclosed message of the group if and
      only if the requests that set it have left no older message of their own. */
  lemma StartFitsExact(w: World, moves: seq<Move>, g: Group)
    requires StampsHistory(w) && Aged(w.fields, Messages(After(w, EMPTY, moves).log))
    ensures var s := After(w, EMPTY, moves);
      var start := StartTime(s.rows, g);
      (start.Some? ==> forall m :: m in OpenOf(w.fields, s.log, g) ==> start.value <= w.fields.created(m))
      <==> (start.Some? ==> OwnNotOlder(w, s, g, start.value))
  {
    var s := After(w, EMPTY, moves);
    var start := StartTime(s.rows, g);
    RunIsSound(w, moves);
    if start.Some? && OwnNotOlder(w, s, g, start.value) {
      assert Sourced(w, s, g, start);
      var i: nat :| Stamped(w, s, g, start.value, i);
      assert JobSound(w, s, s.jobs[i]);
      forall m | m in OpenOf(w.fields, s.log, g) ensures start.value <= w.fields.created(m) {
      }
    }
  }

  /** Over every run, a job that is about to read: its history will hold every unclosed message of its
      group but its own if and only if there are at most 1000 of them and none is an older message that
      belongs to a request that set the job's start time. */
  lemma ReadsAllExact(w: World, moves: seq<Move>, i: nat)
    requires StampsHistory(w) && Aged(w.fields, Messages(After(w, EMPTY, moves).log))
    requires var s := After(w, EMPTY, moves); i < |s.jobs| && s.jobs[i].stage.Reading?
    ensures var f, s := w.fields, After(w, EMPTY, moves);
      var j, ids := s.jobs[i], OwnIds(w, s.jobs[i]);
      var all := Filter(Foreign(f, ids), OpenOf(f, s.log, j.request.group));
      WithHistory(w, s.log, j).history == all
      <==> |all| <= 1000
           && (j.start.Some? ==> forall k: nat, m ::
                 Stamped(w, s, j.request.group, j.start.value, k) && m in all && HasIdIn(f, m, OwnIds(w, s.jobs[k]))
                 ==> j.start.value <= f.created(m))
  {
    var f, s := w.fields, After(w, EMPTY, moves);
    var j, ids := s.jobs[i], OwnIds(w, s.jobs[i]);
    var all := Filter(Foreign(f, ids), OpenOf(f, s.log, j.request.group));
    RunIsSound(w, moves);
    assert JobSound(w, s, j);
    CompleteExact(f, s.log, j.request.group, j.start, HISTORY_LIMIT, ids);
    if j.start.Some? {
      forall m | m in all && f.created(m) < j.start.value
        ensures exists k: nat :: Stamped(w, s, j.request.group, j.start.value, k) && HasIdIn(f, m, OwnIds(w, s.jobs[k]))
      {
        OlderIsOwn(w, moves, j.request.group, j.start.value, m);
        var k: nat :| Stamped(w, s, j.request.group, j.start.value, k);
      }
    }
  }

  // ---------- a message that is left out ----------

  /** A job that reads a history with a later stamp than its own message, closes, confirms and saves. */
  lemma ServesBoundary(w: World, s: State, r: Request, n: nat, history: seq<Message>)
    requires Fresh(s, n, r) && history == Seen(w, s.log, s.rows, r)
    requires w.detect(history, r.messages).Boundary? && r.saves
    ensures var t := FourMoves(w, s, n);
      && StartTime(t.rows, r.group) == Some(w.memcellTime(history))
      && OpenOf(w.fields, t.log, r.group)
          == Filter(Own(w.fields, Ids(w.fields, r.messages)), OpenOf(w.fields, s.log, r.group))
  {
    var ids := Ids(w.fields, r.messages);
    FourMovesBoundary(w, s, n, r);
    TwoSteps(w.fields, r.group, ids, s.log);
    CloseOnOpen(w.fields, s.log, r.group, ids, r.group);
    AcceptOnOpen(w.fields, Map(StepOf(w.fields, Close(r.group, ids)), s.log), r.group, ids, r.group);
  }

  /** What a start time later than its only message leaves of a history. */
  lemma TooOldToSee(f: Fields, log: seq<Record>, g: Group, start: int, ids: seq<Id>, a: Message)
    requires OpenOf(f, log, g) == [a] && f.created(a) < start
    ensures History(f, log, g, Some(start), HISTORY_LIMIT, ids) == []
  {
    MatchedAreOpen(f, log, g, Some(start), ids);
    FilterOne(InHistory(f, Some(start), ids), a);
  }

  lemma SeesOther(f: Fields, log: seq<Record>, g: Group, a: Message, h: Message, ids: seq<Id>)
    requires OpenOf(f, log, g) == [a, h] && HasIdIn(f, a, ids) && !HasIdIn(f, h, ids)
    ensures History(f, log, g, None, HISTORY_LIMIT, ids) == [h]
  {
    MatchedAreOpen(f, log, g, None, ids);
    FilterTwo(InHistory(f, None, ids), a, h);
    var one := [h];
    assert one[..0] == [];
    assert SortDesc(one, ByAge(f)) == one;
  }

  lemma SkipsOwnFrom(w: World, s: State, r: Request, n: nat, a: Message, h: Message, ia: Id, ids: seq<Id>)
    requires Fresh(s, n, r) && StartTime(s.rows, r.group).None? && r.messages == [a] && r.saves
    requires OneGroup(w.fields, r.group, h, a, h, ia) && OpenOf(w.fields, s.log, r.group) == [a, h]
    requires w.detect([h], [a]).Boundary? && w.fields.created(a) < w.memcellTime([h])
    ensures var t := FourMoves(w, s, n);
      && StartTime(t.rows, r.group) == Some(w.memcellTime([h]))
      && OpenOf(w.fields, t.log, r.group) == [a]
      && History(w.fields, t.log, r.group, StartTime(t.rows, r.group), HISTORY_LIMIT, ids) == []
  {
    assert r.messages[..0] == [];
    assert Ids(w.fields, r.messages) == [ia];
    SeesOther(w.fields, s.log, r.group, a, h, [ia]);
    ServesBoundary(w, s, r, n, [h]);
    SecondCloses(w.fields, a, h, [ia]);
    TooOldToSee(w.fields, FourMoves(w, s, n).log, r.group, w.memcellTime([h]), ids, a);
  }

  /** The state when the messages a and h have been logged and the job of a has begun. */
  function TwoThenBegin(w: World, r: Request, a: Message, h: Message): State {
    Moved(w, Moved(w, Moved(w, EMPTY, Arrive([a])), Arrive([h])), Begin(r))
  }

  lemma OneArrives(w: World, s: State, g: Group, x: Message)
    requires w.fields.group(x) == g
    ensures OpenOf(w.fields, Moved(w, s, Arrive([x])).log, g) == OpenOf(w.fields, s.log, g) + [x]
  {
    EventOnOpen(w.fields, s.log, Log([x]), g);
    FilterOne(InGroup(w.fields, g), x);
  }

  lemma TwoArrived(w: World, r: Request, a: Message, h: Message)
    requires r.messages != [] && w.fields.group(a) == r.group && w.fields.group(h) == r.group
    ensures var s := TwoThenBegin(w, r, a, h);
      Fresh(s, 0, r) && s.rows == map[] && OpenOf(w.fields, s.log, r.group) == [a, h]
  {
    var one := Moved(w, EMPTY, Arrive([a]));
    OneArrives(w, EMPTY, r.group, a);
    OneArrives(w, one, r.group, h);
    assert OpenOf(w.fields, EMPTY.log, r.group) == [];
    assert [] + [a] + [h] == [a, h];
  }

  /** Two messages a and h are logged, in this order, before the job of a runs. It reads h, sees a
      boundary, and saves a memcell stamped with a time after a: from then on no request sees a. */
  lemma StartSkipsOwn(w: World, r: Request, a: Message, h: Message, ia: Id, ids: seq<Id>)
    requires r.messages == [a] && r.saves && OneGroup(w.fields, r.group, h, a, h, ia)
    requires w.detect([h], [a]).Boundary? && w.fields.created(a) < w.memcellTime([h])
    ensures var t := FourMoves(w, TwoThenBegin(w, r, a, h), 0);
      && StartTime(t.rows, r.group) == Some(w.memcellTime([h]))
      && OpenOf(w.fields, t.log, r.group) == [a]
      && History(w.fields, t.log, r.group, StartTime(t.rows, r.group), HISTORY_LIMIT, ids) == []
  {
    TwoArrived(w, r, a, h);
    SkipsOwnFrom(w, TwoThenBegin(w, r, a, h), r, 0, a, h, ia, ids);
  }
}
