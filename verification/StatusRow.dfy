/** The conversation status row that `memorize` keeps for each group: where the messages of the
    current batch start and when the last memcell was made. Times are in milliseconds. */
module StatusRow {
  import opened Outcomes

  /** `old_msg_start_time`, `new_msg_start_time` and `last_memcell_time`. */
  datatype Row = Row(oldStart: Option<int>, newStart: int, lastMemcell: Option<int>)

  /** What one `memorize` call knows of time: the timestamps of its new messages, that of the last
      history message, and the current time. */
  datatype Times = Times(messages: seq<Option<int>>, lastHistory: Option<int>, current: int)

  function First(t: Times): Option<int> {
    if t.messages == [] then None else t.messages[0]
  }

  function Last(t: Times): Option<int> {
    if t.messages == [] then None else t.messages[|t.messages| - 1]
  }

  /** `_update_status_for_continuing_conversation` */
  function ContinueRow(row: Option<Row>, t: Times): Row {
    var latest := if Last(t).Some? then Last(t).value else t.current;
    match row
    case None => Row(None, latest + 1, None)
    case Some(r) => Row(r.oldStart, latest + 1, r.lastMemcell)
  }

  /** `_update_status_after_memcell_extraction` */
  function MemcellRow(t: Times, memcellTime: int): Row {
    Row(Some(if First(t).Some? then First(t).value
             else if t.lastHistory.Some? then t.lastHistory.value + 1
             else t.current),
        if Last(t).Some? then Last(t).value + 1 else t.current,
        Some(memcellTime))
  }

  /** What a call does to the row: nothing, the conversation continues, or a memcell was saved. */
  datatype Update = Keep | Continues(times: Times) | Memcell(times: Times, memcellTime: int)

  function Apply(row: Option<Row>, u: Update): Option<Row> {
    match u
    case Keep => row
    case Continues(t) => Some(ContinueRow(row, t))
    case Memcell(t, memcellTime) => Some(MemcellRow(t, memcellTime))
  }

  function RowAfter(updates: seq<Update>): Option<Row> {
    if updates == [] then None else Apply(RowAfter(updates[..|updates| - 1]), updates[|updates| - 1])
  }

  /** Where the processed messages start stays below where the new ones start. */
  predicate InOrder(row: Option<Row>) {
    row.Some? && row.value.oldStart.Some? ==> row.value.oldStart.value < row.value.newStart
  }

  // ---------- the row in closed form ----------

  /** The position of the last update that is not Keep, and of the last memcell; -1 if none. */
  function LastUpdate(updates: seq<Update>): (i: int)
    ensures -1 <= i < |updates| && (i >= 0 ==> !updates[i].Keep?)
  {
    var n := |updates| - 1;
    if n < 0 then -1 else if updates[n].Keep? then LastUpdate(updates[..n]) else n
  }

  function LastMemcell(updates: seq<Update>): (i: int)
    ensures -1 <= i < |updates| && (i >= 0 ==> updates[i].Memcell?)
  {
    var n := |updates| - 1;
    if n < 0 then -1 else if updates[n].Memcell? then n else LastMemcell(updates[..n])
  }

  /** Every call that updates the row has messages, all with timestamps. */
  ghost predicate Timed(updates: seq<Update>) {
    forall i :: 0 <= i < |updates| && !updates[i].Keep? ==>
      updates[i].times.messages != [] && forall m :: m in updates[i].times.messages ==> m.Some?
  }

  function FirstOf(u: Update): int
    requires !u.Keep? && First(u.times).Some?
  {
    First(u.times).value
  }

  function LastOf(u: Update): int
    requires !u.Keep? && Last(u.times).Some?
  {
    Last(u.times).value
  }

  lemma TimedEnds(updates: seq<Update>, i: nat)
    requires Timed(updates) && i < |updates| && !updates[i].Keep?
    ensures First(updates[i].times).Some? && Last(updates[i].times).Some?
  {
    var messages := updates[i].times.messages;
    assert messages[0] in messages && messages[|messages| - 1] in messages;
  }

  /** With timestamped messages the row is read off two calls, whatever their times: the last one
      that updated it gives the new start, the last one that saved a memcell gives the rest. */
  lemma {:induction false} RowClosedForm(updates: seq<Update>)
    requires Timed(updates)
    ensures LastUpdate(updates) < 0 <==> RowAfter(updates).None?
    ensures LastUpdate(updates) >= 0 ==>
      var row, u := RowAfter(updates).value, updates[LastUpdate(updates)];
      Last(u.times).Some? && row.newStart == LastOf(u) + 1
    ensures LastUpdate(updates) >= 0 && LastMemcell(updates) < 0 ==>
      RowAfter(updates).value.oldStart.None? && RowAfter(updates).value.lastMemcell.None?
    ensures LastUpdate(updates) >= LastMemcell(updates)
    ensures LastMemcell(updates) >= 0 ==>
      var row, b := RowAfter(updates).value, updates[LastMemcell(updates)];
      First(b.times).Some? && row.oldStart == Some(FirstOf(b)) && row.lastMemcell == Some(b.memcellTime)
  {
    if updates != [] {
      var n := |updates| - 1;
      RowClosedForm(updates[..n]);
      if !updates[n].Keep? {
        TimedEnds(updates, n);
      }
    }
  }

  /** Exactly when the two starts are in order: the last memcell call's first message is not later
      than the last updating call's last message. */
  lemma InOrderExact(updates: seq<Update>)
    requires Timed(updates)
    ensures LastMemcell(updates) >= 0 ==> First(updates[LastMemcell(updates)].times).Some?
    ensures LastUpdate(updates) >= 0 ==> Last(updates[LastUpdate(updates)].times).Some?
    ensures LastMemcell(updates) >= 0 ==> LastUpdate(updates) >= 0
    ensures InOrder(RowAfter(updates))
      <==> LastMemcell(updates) >= 0 ==> FirstOf(updates[LastMemcell(updates)]) <= LastOf(updates[LastUpdate(updates)])
  {
    RowClosedForm(updates);
  }

  // ---------- time-ordered runs ----------

  ghost predicate Sorted(times: seq<Option<int>>) {
    forall a, b :: 0 <= a < b < |times| && times[a].Some? && times[b].Some? ==> times[a].value <= times[b].value
  }

  predicate NotLater(u: Update, v: Update) {
    !u.Keep? && !v.Keep? && Last(u.times).Some? && First(v.times).Some? ==> LastOf(u) <= FirstOf(v)
  }

  /** Messages come in time order, within a call and from call to call. */
  ghost predicate TimeOrdered(updates: seq<Update>) {
    && (forall i :: 0 <= i < |updates| && !updates[i].Keep? ==> Sorted(updates[i].times.messages))
    && (forall i, j :: 0 <= i < j < |updates| ==> NotLater(updates[i], updates[j]))
  }

  lemma FirstNotAfterLast(updates: seq<Update>, i: nat)
    requires Timed(updates) && TimeOrdered(updates) && i < |updates| && !updates[i].Keep?
    ensures First(updates[i].times).Some? && Last(updates[i].times).Some?
    ensures FirstOf(updates[i]) <= LastOf(updates[i])
    ensures forall m :: m in updates[i].times.messages ==> m.Some? && m.value <= LastOf(updates[i])
  {
    TimedEnds(updates, i);
    var messages := updates[i].times.messages;
    forall m | m in messages ensures m.Some? && m.value <= LastOf(updates[i]) {
      var a :| 0 <= a < |messages| && messages[a] == m;
    }
  }

  /** The window over every time-ordered run: the old start is below the new start, and the new start
      is above every message of every call that updated the row. */
  lemma StatusWindow(updates: seq<Update>, i: nat)
    requires Timed(updates) && TimeOrdered(updates)
    requires i < |updates| && !updates[i].Keep?
    ensures InOrder(RowAfter(updates))
    ensures RowAfter(updates).Some?
    ensures forall m :: m in updates[i].times.messages ==> m.Some? && m.value < RowAfter(updates).value.newStart
  {
    RowClosedForm(updates);
    LastUpdateIsLast(updates, i);
    var u := LastUpdate(updates);
    FirstNotAfterLast(updates, i);
    FirstNotAfterLast(updates, u);
    if LastMemcell(updates) >= 0 {
      FirstNotAfterLast(updates, LastMemcell(updates));
    }
  }

  lemma {:induction false} LastUpdateIsLast(updates: seq<Update>, i: nat)
    requires i < |updates| && !updates[i].Keep?
    ensures LastUpdate(updates) >= i
  {
    if updates[|updates| - 1].Keep? {
      LastUpdateIsLast(updates[..|updates| - 1], i);
    }
  }

  /** The new start never moves back during a time-ordered run. */
  lemma NewStartNeverMovesBack(updates: seq<Update>, n: nat)
    requires Timed(updates) && TimeOrdered(updates) && n <= |updates|
    requires RowAfter(updates[..n]).Some?
    ensures RowAfter(updates).Some? && RowAfter(updates[..n]).value.newStart <= RowAfter(updates).value.newStart
  {
    RowClosedForm(updates[..n]);
    var i := LastUpdate(updates[..n]);
    assert updates[..n][i] == updates[i];
    StatusWindow(updates, i);
    TimedEnds(updates, i);
    var messages := updates[i].times.messages;
    assert messages[|messages| - 1] in messages;
  }
}
