/** The status of every stored message, read off the events that followed its logging. */
module RecordStatus {
  import opened Outcomes
  import opened Sequences
  import opened MessageLog
  import opened GroupQueue
  import opened Accumulation
  import opened Memorize

  /** An event that confirms message m if it is pending. */
  predicate Confirms(f: Fields, e: Event, m: Message) {
    e.Accept? && e.group == f.group(m) && HasIdIn(f, m, e.ids)
  }

  predicate ConfirmedBy(f: Fields, events: seq<Event>, m: Message) {
    events != [] && (ConfirmedBy(f, events[..|events| - 1], m) || Confirms(f, events[|events| - 1], m))
  }

  /** What the later events say of a message: used if one of them took it, otherwise open if one of them
      confirmed it, otherwise pending. */
  ghost predicate StatusFits(f: Fields, r: Record, later: seq<Event>) {
    && (r.status.Used? <==> TakenBy(f, later, r.message))
    && (r.status.Open? <==> ConfirmedBy(f, later, r.message) && !TakenBy(f, later, r.message))
    && (r.status.Pending? <==> !ConfirmedBy(f, later, r.message) && !TakenBy(f, later, r.message))
  }

  /** One more event and one record. */
  lemma StepFits(f: Fields, r: Record, later: seq<Event>, e: Event)
    requires StatusFits(f, r, later)
    ensures Steps(e) ==> StatusFits(f, StepOf(f, e)(r), later + [e])
    ensures !Steps(e) ==> StatusFits(f, r, later + [e])
  {
    assert (later + [e])[..|later|] == later;
  }

  lemma NewFits(f: Fields, m: Message)
    ensures StatusFits(f, NewRecord(m), [])
  {
  }

  /** Where the p-th message of event k is stored. */
  function PlaceOf(events: seq<Event>, k: nat, p: nat): nat
    requires k < |events|
  {
    |Logged(events[..k])| + p
  }

  lemma RunLength(f: Fields, events: seq<Event>)
    ensures |Run(f, events)| == |Logged(events)|
  {
    RunKeepsArrivals(f, events);
  }

  /** A stored record under one more event. */
  lemma StoredNext(f: Fields, events: seq<Event>, i: nat)
    requires events != [] && i < |Run(f, events[..|events| - 1])|
    ensures var e, r := events[|events| - 1], Run(f, events[..|events| - 1])[i];
      i < |Run(f, events)| && Run(f, events)[i] == if Steps(e) then StepOf(f, e)(r) else r
  {
  }

  lemma JustStored(f: Fields, events: seq<Event>, p: nat)
    requires events != [] && events[|events| - 1].Log? && p < |events[|events| - 1].messages|
    ensures var i, m := PlaceOf(events, |events| - 1, p), events[|events| - 1].messages[p];
      i < |Run(f, events)| && Run(f, events)[i] == NewRecord(m)
  {
    RunLength(f, events[..|events| - 1]);
  }

  /** The record at index i holds m, with the status that the later events give it. */
  ghost predicate Stored(f: Fields, log: seq<Record>, i: nat, m: Message, later: seq<Event>) {
    i < |log| && log[i].message == m && StatusFits(f, log[i], later)
  }

  lemma StoredOn(f: Fields, events: seq<Event>, i: nat, m: Message, later: seq<Event>)
    requires events != [] && Stored(f, Run(f, events[..|events| - 1]), i, m, later)
    ensures Stored(f, Run(f, events), i, m, later + [events[|events| - 1]])
  {
    StoredNext(f, events, i);
    StepFits(f, Run(f, events[..|events| - 1])[i], later, events[|events| - 1]);
  }

  /** Under every interleaving: the p-th message that event k logs is stored at its place, it is used exactly
      if a later close of its group without its id took it, and otherwise open exactly if a later confirmation
      of its group carried its id. */
  lemma {:induction false} StatusExact(f: Fields, events: seq<Event>, k: nat, p: nat)
    requires k < |events| && events[k].Log? && p < |events[k].messages|
    ensures Stored(f, Run(f, events), PlaceOf(events, k, p), events[k].messages[p], events[k + 1..])
  {
    var n := |events| - 1;
    if k == n {
      JustStored(f, events, p);
      NewFits(f, events[k].messages[p]);
      assert events[n + 1..] == [];
    } else {
      StatusExact(f, events[..n], k, p);
      PlaceStays(events, k, p);
      StoredOn(f, events, PlaceOf(events, k, p), events[k].messages[p], events[..n][k + 1..]);
    }
  }

  lemma PlaceStays(events: seq<Event>, k: nat, p: nat)
    requires k < |events| - 1
    ensures var n := |events| - 1;
      PlaceOf(events[..n], k, p) == PlaceOf(events, k, p) && events[..n][k + 1..] + [events[n]] == events[k + 1..]
  {
    assert events[..|events| - 1][..k] == events[..k];
  }

  // ---------- requests served one at a time ----------

  /** A request with a verdict whose messages all carry ids and belong to its group. */
  ghost predicate Settles(f: Fields, t: Turn) {
    !t.verdict.Skip? && forall m :: m in t.messages ==> f.group(m) == t.group && f.id(m).Some?
  }

  ghost predicate NonePending(log: seq<Record>) {
    forall r :: r in log ==> !r.status.Pending?
  }

  lemma NewSettle(f: Fields, t: Turn, m: Message)
    requires Settles(f, t) && m in t.messages
    ensures TurnStep(f, t)(NewRecord(m)) == Record(m, Open)
  {
    IdsHave(f, t.messages, m);
  }

  lemma TurnSettles(f: Fields, log: seq<Record>, t: Turn)
    requires Settles(f, t) && NonePending(log)
    ensures NonePending(AfterTurn(f, log, t))
  {
    forall i | 0 <= i < |AfterTurn(f, log, t)| ensures !AfterTurn(f, log, t)[i].status.Pending? {
      if i < |log| {
        assert log[i] in log;
      } else {
        NewSettle(f, t, t.messages[i - |log|]);
      }
    }
  }

  /** When every request gets a verdict and all its messages carry ids, none is left pending: the first
      condition of a clean turn holds of every later one. */
  lemma {:induction false} NoneLeftPending(f: Fields, turns: seq<Turn>)
    requires forall t :: t in turns ==> Settles(f, t)
    ensures NonePending(LogAfter(f, turns))
  {
    if turns != [] {
      var n := |turns| - 1;
      assert turns[n] in turns && forall t :: t in turns[..n] ==> t in turns;
      NoneLeftPending(f, turns[..n]);
      TurnSettles(f, LogAfter(f, turns[..n]), turns[n]);
    }
  }

  lemma {:induction false} TurnsSettle(w: World, requests: seq<Request>)
    requires FreshRequests(w.fields, requests) && forall h, messages :: !w.detect(h, messages).Skip?
    requires forall r :: r in requests ==> r.messages != []
    ensures forall t :: t in TurnsOf(w, requests) ==> Settles(w.fields, t)
  {
    if requests != [] {
      var n := |requests| - 1;
      assert requests[n] in requests && forall r :: r in requests[..n] ==> r in requests;
      TurnsSettle(w, requests[..n]);
    }
  }

  /** The same of the store: with fresh ids and a detector that always answers, every boundary finds a group
      without pending messages and so, by BoundaryExact, closes exactly its accumulation. */
  lemma StoreSettled(w: World, requests: seq<Request>, r: Request)
    requires FreshRequests(w.fields, requests + [r]) && forall h, messages :: !w.detect(h, messages).Skip?
    requires forall q :: q in requests + [r] ==> q.messages != []
    ensures var s := StoreAfter(w, requests);
      NonePending(s.log) && CleanTurn(w.fields, s.log, TurnOf(w, Arrived(s, r), s.rows, r))
  {
    var s, all := StoreAfter(w, requests), requests + [r];
    assert all[..|all| - 1] == requests && forall q :: q in requests ==> q in all;
    TurnsSettle(w, requests);
    NoneLeftPending(w.fields, TurnsOf(w, requests));
    StoreLog(w, requests);
    StoreMessages(w, requests);
    forall rec | rec in s.log
      ensures !rec.status.Pending? && !HasIdIn(w.fields, rec.message, Ids(w.fields, r.messages))
    {
      RecordsOf(s.log, rec);
    }
  }
}
