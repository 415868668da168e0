/** The laws of the status row for requests served one at a time, and groups whose messages come with
    timestamps in time order. */
module StatusRuns {
  import opened Outcomes
  import opened Sequences
  import opened MessageLog
  import opened Accumulation
  import opened StatusRow
  import opened Memorize

  /** What request r does to its group's row after `before`. */
  function UpdateBy(w: World, before: seq<Request>, r: Request): Update {
    var s := StoreAfter(w, before);
    UpdateOf(w, Seen(w, Arrived(s, r), s.rows, r), r, TurnOf(w, Arrived(s, r), s.rows, r).verdict)
  }

  lemma UpdatesNext(w: World, requests: seq<Request>, g: Group)
    requires requests != []
    ensures var n := |requests| - 1;
      UpdatesOf(w, requests, g)
      == UpdatesOf(w, requests[..n], g)
         + (if requests[n].group == g then [UpdateBy(w, requests[..n], requests[n])] else [])
  {
  }

  /** An update that is not Keep carries the timestamps of its request, which has messages. */
  lemma UpdateTimes(w: World, before: seq<Request>, r: Request)
    requires !UpdateBy(w, before, r).Keep?
    ensures r.messages != [] && UpdateBy(w, before, r).times.messages == Map(w.time, r.messages)
  {
  }

  /** The timestamps of the messages sent for a group, in the order sent. */
  function TimesFor(w: World, requests: seq<Request>, g: Group): seq<Option<int>> {
    Map(w.time, MessagesFor(requests, g))
  }

  /** Every message has a timestamp, and none is earlier than one before it. */
  ghost predicate InTime(times: seq<Option<int>>) {
    && (forall i :: 0 <= i < |times| ==> times[i].Some?)
    && Sorted(times)
  }

  lemma TimesNext(w: World, requests: seq<Request>, g: Group)
    requires requests != []
    ensures var n := |requests| - 1;
      TimesFor(w, requests, g)
      == TimesFor(w, requests[..n], g) + (if requests[n].group == g then Map(w.time, requests[n].messages) else [])
  {
    var n := |requests| - 1;
    if requests[n].group == g {
      MapConcat(w.time, MessagesFor(requests[..n], g), requests[n].messages);
    }
  }

  lemma InTimeParts(a: seq<Option<int>>, b: seq<Option<int>>)
    requires InTime(a + b)
    ensures InTime(a) && InTime(b)
    ensures forall x, y :: x in a && y in b && x.Some? && y.Some? ==> x.value <= y.value
  {
    forall i | 0 <= i < |a| ensures a[i].Some? {
      assert (a + b)[i] == a[i];
    }
    forall i | 0 <= i < |b| ensures b[i].Some? {
      assert (a + b)[|a| + i] == b[i];
    }
    forall i, j | 0 <= i < j < |a| ensures a[i].value <= a[j].value {
      assert (a + b)[i] == a[i] && (a + b)[j] == a[j];
    }
    forall i, j | 0 <= i < j < |b| ensures b[i].value <= b[j].value {
      assert (a + b)[|a| + i] == b[i] && (a + b)[|a| + j] == b[j];
    }
    forall x, y | x in a && y in b && x.Some? && y.Some? ensures x.value <= y.value {
      var i :| 0 <= i < |a| && a[i] == x;
      var j :| 0 <= j < |b| && b[j] == y;
      assert (a + b)[i] == x && (a + b)[|a| + j] == y;
    }
  }

  /** The timestamps an update carries are among the given ones. */
  ghost predicate From(u: Update, times: seq<Option<int>>) {
    !u.Keep? ==> u.times.messages != [] && forall m :: m in u.times.messages ==> m in times
  }

  ghost predicate AllFrom(updates: seq<Update>, times: seq<Option<int>>) {
    forall i :: 0 <= i < |updates| ==> From(updates[i], times)
  }

  lemma FromMore(updates: seq<Update>, times: seq<Option<int>>, more: seq<Option<int>>)
    requires AllFrom(updates, times)
    ensures AllFrom(updates, times + more)
  {
    forall i | 0 <= i < |updates| ensures From(updates[i], times + more) {
      assert From(updates[i], times);
    }
  }

  lemma {:induction false} UpdatesFromMessages(w: World, requests: seq<Request>, g: Group)
    ensures AllFrom(UpdatesOf(w, requests, g), TimesFor(w, requests, g))
  {
    if requests != [] {
      var n := |requests| - 1;
      var before, r := requests[..n], requests[n];
      UpdatesFromMessages(w, before, g);
      UpdatesNext(w, requests, g);
      TimesNext(w, requests, g);
      if r.group == g {
        var u, more := UpdateBy(w, before, r), Map(w.time, r.messages);
        FromMore(UpdatesOf(w, before, g), TimesFor(w, before, g), more);
        if !u.Keep? {
          UpdateTimes(w, before, r);
        }
        assert From(u, TimesFor(w, before, g) + more);
      }
    }
  }

  lemma NextIsLater(updates: seq<Update>, u: Update, times: seq<Option<int>>, own: seq<Option<int>>, i: nat)
    requires AllFrom(updates, times) && InTime(times + own) && i < |updates|
    requires !u.Keep? ==> u.times.messages == own
    ensures NotLater(updates[i], u)
  {
    var v := updates[i];
    if !v.Keep? && !u.Keep? && Last(v.times).Some? && First(u.times).Some? {
      InTimeParts(times, own);
      assert From(v, times);
      assert v.times.messages[|v.times.messages| - 1] in times && own[0] in own;
    }
  }

  /** One more update in time. */
  lemma OrderedNext(updates: seq<Update>, u: Update, times: seq<Option<int>>, own: seq<Option<int>>)
    requires Timed(updates) && TimeOrdered(updates) && AllFrom(updates, times) && InTime(times + own)
    requires !u.Keep? ==> u.times.messages == own && own != []
    ensures Timed(updates + [u]) && TimeOrdered(updates + [u])
  {
    var all, n := updates + [u], |updates|;
    InTimeParts(times, own);
    forall i, j | 0 <= i < j < |all| ensures NotLater(all[i], all[j]) {
      if j == n {
        NextIsLater(updates, u, times, own, i);
      } else {
        assert NotLater(updates[i], updates[j]);
      }
    }
    forall i | 0 <= i < |all| && !all[i].Keep?
      ensures all[i].times.messages != [] && Sorted(all[i].times.messages)
      ensures forall m :: m in all[i].times.messages ==> m.Some?
    {
      if i < n {
        assert all[i] == updates[i];
      }
    }
  }

  /** A run whose messages for a group come in time makes time-ordered updates of the group's row. */
  lemma {:induction false} UpdatesOrdered(w: World, requests: seq<Request>, g: Group)
    requires InTime(TimesFor(w, requests, g))
    ensures Timed(UpdatesOf(w, requests, g)) && TimeOrdered(UpdatesOf(w, requests, g))
  {
    if requests != [] {
      var n := |requests| - 1;
      var before, r := requests[..n], requests[n];
      var own := if r.group == g then Map(w.time, r.messages) else [];
      TimesNext(w, requests, g);
      UpdatesNext(w, requests, g);
      InTimeParts(TimesFor(w, before, g), own);
      UpdatesOrdered(w, before, g);
      if r.group == g {
        UpdatesFromMessages(w, before, g);
        if !UpdateBy(w, before, r).Keep? {
          UpdateTimes(w, before, r);
        }
        OrderedNext(UpdatesOf(w, before, g), UpdateBy(w, before, r), TimesFor(w, before, g), own);
      }
    }
  }

  lemma {:induction false} UpdatesPrefix(w: World, requests: seq<Request>, g: Group, n: nat)
    requires n <= |requests|
    ensures UpdatesOf(w, requests[..n], g) <= UpdatesOf(w, requests, g)
  {
    if n == |requests| {
      assert requests[..n] == requests;
    } else {
      var m := |requests| - 1;
      UpdatesPrefix(w, requests[..m], g, n);
      assert requests[..m][..n] == requests[..n];
      UpdatesNext(w, requests, g);
    }
  }

  /** The update of request k among its group's updates. */
  lemma UpdatePlace(w: World, requests: seq<Request>, k: nat) returns (i: nat)
    requires k < |requests|
    ensures var updates := UpdatesOf(w, requests, requests[k].group);
      i < |updates| && updates[i] == UpdateBy(w, requests[..k], requests[k])
  {
    var g := requests[k].group;
    UpdatesNext(w, requests[..k + 1], g);
    assert requests[..k + 1][..k] == requests[..k];
    UpdatesPrefix(w, requests, g, k + 1);
    i := |UpdatesOf(w, requests[..k], g)|;
  }

  /** The window over whole runs: when a group's messages come in time, and request k updated its row,
      the stored row has its old start below its new start and the new start above every message of
      request k. */
  lemma StoreWindow(w: World, requests: seq<Request>, k: nat)
    requires k < |requests| && InTime(TimesFor(w, requests, requests[k].group))
    requires !UpdateBy(w, requests[..k], requests[k]).Keep?
    ensures var row := RowOf(StoreAfter(w, requests).rows, requests[k].group);
      && row.Some? && InOrder(row)
      && forall m :: m in requests[k].messages ==> w.time(m).Some? && w.time(m).value < row.value.newStart
  {
    var g, messages := requests[k].group, requests[k].messages;
    UpdatesOrdered(w, requests, g);
    var i := UpdatePlace(w, requests, k);
    StoreRow(w, requests, g);
    StatusWindow(UpdatesOf(w, requests, g), i);
    UpdateTimes(w, requests[..k], requests[k]);
    forall m | m in messages ensures w.time(m) in Map(w.time, messages) {
      var j :| 0 <= j < |messages| && messages[j] == m;
      assert Map(w.time, messages)[j] == w.time(m);
    }
  }

  /** The stored new start of a group never moves back while its messages come in time. */
  lemma StoreStartNeverMovesBack(w: World, requests: seq<Request>, g: Group, n: nat)
    requires n <= |requests| && InTime(TimesFor(w, requests, g))
    requires g in StoreAfter(w, requests[..n]).rows
    ensures g in StoreAfter(w, requests).rows
    ensures StoreAfter(w, requests[..n]).rows[g].newStart <= StoreAfter(w, requests).rows[g].newStart
  {
    var updates := UpdatesOf(w, requests, g);
    var m := |UpdatesOf(w, requests[..n], g)|;
    UpdatesPrefix(w, requests, g, n);
    assert updates[..m] == UpdatesOf(w, requests[..n], g);
    StoreRow(w, requests, g);
    StoreRow(w, requests[..n], g);
    UpdatesOrdered(w, requests, g);
    NewStartNeverMovesBack(updates, m);
  }
}
