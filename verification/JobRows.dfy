/** The status row over every run of the worker: it is written whole, in the order of the writes, which
    need not be the order of the requests. */
module JobRows {
  import opened Outcomes
  import opened Sequences
  import opened MessageLog
  import opened StatusRow
  import opened Memorize
  import opened Jobs

  /** An update that writes the row. */
  type Write = u: Update | !u.Keep? witness Continues(Times([], None, 0))

  /** The new start that an update writes. */
  function NewStart(u: Write): int {
    match u
    case Continues(t) => ContinueRow(None, t).newStart
    case Memcell(t, time) => MemcellRow(t, time).newStart
  }

  /** What a move writes to the row of group g. */
  function WriteOf(w: World, s: State, m: Move, g: Group): seq<Write> {
    if m.Resume? && m.job < |s.jobs| && s.jobs[m.job].request.group == g && !Writing(w, s.jobs[m.job]).Keep?
    then [Writing(w, s.jobs[m.job])]
    else []
  }

  /** The updates of group g's row, in the order in which they are written. */
  function Writes(w: World, moves: seq<Move>, g: Group): seq<Write> {
    if moves == [] then []
    else
      var before, m := moves[..|moves| - 1], moves[|moves| - 1];
      Writes(w, before, g) + WriteOf(w, After(w, EMPTY, before), m, g)
  }

  /** One move changes the row of a group only by writing it. */
  lemma MoveWrites(w: World, s: State, m: Move, g: Group)
    ensures var u := WriteOf(w, s, m, g);
      && (u == [] ==> RowOf(Moved(w, s, m).rows, g) == RowOf(s.rows, g))
      && (u != [] ==> g in Moved(w, s, m).rows && Moved(w, s, m).rows[g].newStart == NewStart(u[0]))
  {
  }

  /** Over every run: the new start is what the last write made it. */
  lemma {:induction false} RowNewStart(w: World, moves: seq<Move>, g: Group)
    ensures var rows, writes := After(w, EMPTY, moves).rows, Writes(w, moves, g);
      && (g in rows <==> writes != [])
      && (g in rows ==> rows[g].newStart == NewStart(writes[|writes| - 1]))
  {
    if moves != [] {
      var before, m := moves[..|moves| - 1], moves[|moves| - 1];
      RowNewStart(w, before, g);
      MoveWrites(w, After(w, EMPTY, before), m, g);
    }
  }

  lemma {:induction false} WritesPrefix(w: World, moves: seq<Move>, g: Group, n: nat)
    requires n <= |moves|
    ensures Writes(w, moves[..n], g) <= Writes(w, moves, g)
  {
    if n == |moves| {
      assert moves[..n] == moves;
    } else {
      var m := |moves| - 1;
      WritesPrefix(w, moves[..m], g, n);
      assert moves[..m][..n] == moves[..n];
    }
  }

  /** After which move write k is the last one. */
  lemma {:induction false} WriteMoment(w: World, moves: seq<Move>, g: Group, k: nat) returns (n: nat)
    requires k < |Writes(w, moves, g)|
    ensures n <= |moves| && Writes(w, moves[..n], g) == Writes(w, moves, g)[..k + 1]
  {
    var m := |moves| - 1;
    if k < |Writes(w, moves[..m], g)| {
      n := WriteMoment(w, moves[..m], g, k);
      assert moves[..m][..n] == moves[..n];
    } else {
      n := |moves|;
      assert moves[..n] == moves;
    }
  }

  /** At no moment of the run was the new start of group g later than it is at the end. */
  ghost predicate NeverLater(w: World, moves: seq<Move>, g: Group) {
    forall n :: 0 <= n <= |moves| && g in After(w, EMPTY, moves[..n]).rows ==>
      g in After(w, EMPTY, moves).rows
      && After(w, EMPTY, moves[..n]).rows[g].newStart <= After(w, EMPTY, moves).rows[g].newStart
  }

  /** No update of the row carries a later new start than the last one written. */
  ghost predicate LastWriteLatest(writes: seq<Write>) {
    forall k :: 0 <= k < |writes| ==> NewStart(writes[k]) <= NewStart(writes[|writes| - 1])
  }

  lemma MomentOfWrite(w: World, moves: seq<Move>, g: Group, k: nat)
    requires NeverLater(w, moves, g) && k < |Writes(w, moves, g)|
    ensures var writes := Writes(w, moves, g); NewStart(writes[k]) <= NewStart(writes[|writes| - 1])
  {
    var n := WriteMoment(w, moves, g, k);
    RowNewStart(w, moves, g);
    RowNewStart(w, moves[..n], g);
    assert g in After(w, EMPTY, moves[..n]).rows;
  }

  lemma RowAtMoment(w: World, moves: seq<Move>, g: Group, n: nat)
    requires LastWriteLatest(Writes(w, moves, g)) && n <= |moves| && g in After(w, EMPTY, moves[..n]).rows
    ensures g in After(w, EMPTY, moves).rows
    ensures After(w, EMPTY, moves[..n]).rows[g].newStart <= After(w, EMPTY, moves).rows[g].newStart
  {
    RowNewStart(w, moves, g);
    RowNewStart(w, moves[..n], g);
    WritesPrefix(w, moves, g, n);
    var k := |Writes(w, moves[..n], g)| - 1;
    assert Writes(w, moves[..n], g)[k] == Writes(w, moves, g)[k];
  }

  /** Over every run: the new start has not moved back if and only if the update written last is the one
      with the latest new start. */
  lemma NewStartExact(w: World, moves: seq<Move>, g: Group)
    ensures NeverLater(w, moves, g) <==> LastWriteLatest(Writes(w, moves, g))
  {
    var writes := Writes(w, moves, g);
    if NeverLater(w, moves, g) {
      forall k | 0 <= k < |writes| ensures NewStart(writes[k]) <= NewStart(writes[|writes| - 1]) {
        MomentOfWrite(w, moves, g, k);
      }
    }
    if LastWriteLatest(writes) {
      forall n | 0 <= n <= |moves| && g in After(w, EMPTY, moves[..n]).rows
        ensures g in After(w, EMPTY, moves).rows
        ensures After(w, EMPTY, moves[..n]).rows[g].newStart <= After(w, EMPTY, moves).rows[g].newStart
      {
        RowAtMoment(w, moves, g, n);
      }
    }
  }

  // ---------- where the old start comes from ----------

  /** An old start is that of a memcell that was written. */
  ghost predicate OldFrom(writes: seq<Write>, was: Option<int>) {
    was.Some? ==> exists k: nat :: WritesOld(writes, k, was.value)
  }

  predicate WritesOld(writes: seq<Write>, k: nat, was: int) {
    k < |writes| && writes[k].Memcell? && MemcellRow(writes[k].times, writes[k].memcellTime).oldStart == Some(was)
  }

  function OldStart(rows: map<Group, Row>, g: Group): Option<int> {
    if g in rows then rows[g].oldStart else None
  }

  ghost predicate LoadedFrom(s: State, writes: seq<Write>, g: Group) {
    forall i :: 0 <= i < |s.jobs| && s.jobs[i].request.group == g && s.jobs[i].loaded.Some? ==>
      OldFrom(writes, s.jobs[i].loaded.value.oldStart)
  }

  lemma OldStaysFrom(writes: seq<Write>, more: seq<Write>, was: Option<int>)
    requires OldFrom(writes, was)
    ensures OldFrom(writes + more, was)
  {
    if was.Some? {
      var k: nat :| WritesOld(writes, k, was.value);
      assert WritesOld(writes + more, k, was.value);
    }
  }

  lemma WrittenOld(w: World, s: State, m: Move, g: Group, writes: seq<Write>)
    requires OldFrom(writes, OldStart(s.rows, g)) && LoadedFrom(s, writes, g)
    ensures OldFrom(writes + WriteOf(w, s, m, g), OldStart(Moved(w, s, m).rows, g))
  {
    var more := WriteOf(w, s, m, g);
    MoveWrites(w, s, m, g);
    OldStaysFrom(writes, more, OldStart(s.rows, g));
    if more != [] {
      var j := s.jobs[m.job];
      if more[0].Continues? {
        OldStaysFrom(writes, more, if j.loaded.Some? then j.loaded.value.oldStart else None);
      } else {
        var was := MemcellRow(more[0].times, more[0].memcellTime).oldStart;
        assert WritesOld(writes + more, |writes|, was.value);
      }
    }
  }

  lemma LoadedStays(w: World, s: State, m: Move, g: Group, writes: seq<Write>)
    requires OldFrom(writes, OldStart(s.rows, g)) && LoadedFrom(s, writes, g)
    ensures LoadedFrom(Moved(w, s, m), writes + WriteOf(w, s, m, g), g)
  {
    var t, more := Moved(w, s, m), WriteOf(w, s, m, g);
    forall i | 0 <= i < |t.jobs| && t.jobs[i].request.group == g && t.jobs[i].loaded.Some?
      ensures OldFrom(writes + more, t.jobs[i].loaded.value.oldStart)
    {
      if i < |s.jobs| && t.jobs[i].loaded == s.jobs[i].loaded {
        OldStaysFrom(writes, more, s.jobs[i].loaded.value.oldStart);
      } else {
        OldStaysFrom(writes, more, OldStart(s.rows, g));
      }
    }
  }

  lemma {:induction false} RowOldStart(w: World, moves: seq<Move>, g: Group)
    ensures var s, writes := After(w, EMPTY, moves), Writes(w, moves, g);
      OldFrom(writes, OldStart(s.rows, g)) && LoadedFrom(s, writes, g)
  {
    if moves != [] {
      var before, m := moves[..|moves| - 1], moves[|moves| - 1];
      RowOldStart(w, before, g);
      WrittenOld(w, After(w, EMPTY, before), m, g, Writes(w, before, g));
      LoadedStays(w, After(w, EMPTY, before), m, g, Writes(w, before, g));
    }
  }

  // ---------- the window ----------

  /** Updates with timestamps whose messages come in time order, in the order of the writes: no message is
      later than the last message of the update written last. */
  lemma LastIsLatest(writes: seq<Write>, k: nat)
    requires Timed(writes) && TimeOrdered(writes) && k < |writes|
    ensures First(writes[k].times).Some? && Last(writes[|writes| - 1].times).Some?
    ensures FirstOf(writes[k]) <= LastOf(writes[|writes| - 1])
    ensures forall m :: m in writes[k].times.messages ==> m.Some? && m.value <= LastOf(writes[|writes| - 1])
    ensures NewStart(writes[|writes| - 1]) == LastOf(writes[|writes| - 1]) + 1
  {
    var n := |writes| - 1;
    FirstNotAfterLast(writes, k);
    FirstNotAfterLast(writes, n);
    if k < n {
      assert NotLater(writes[k], writes[n]);
    }
  }

  /** Over every run whose row updates of the group are written in time order, whatever the jobs have loaded in
      between: the old start is below the new start, and the new start exceeds every message of every
      update. */
  lemma RowWindow(w: World, moves: seq<Move>, g: Group, k: nat)
    requires Timed(Writes(w, moves, g)) && TimeOrdered(Writes(w, moves, g)) && k < |Writes(w, moves, g)|
    ensures var rows, u := After(w, EMPTY, moves).rows, Writes(w, moves, g)[k];
      && g in rows && InOrder(Some(rows[g]))
      && forall m :: m in u.times.messages ==> m.Some? && m.value < rows[g].newStart
  {
    var writes, rows := Writes(w, moves, g), After(w, EMPTY, moves).rows;
    RowNewStart(w, moves, g);
    RowOldStart(w, moves, g);
    LastIsLatest(writes, k);
    if rows[g].oldStart.Some? {
      var i: nat :| WritesOld(writes, i, rows[g].oldStart.value);
      LastIsLatest(writes, i);
    }
  }

  // ---------- lost updates ----------

  /** A continuing job writes the row that the sequential update would make if and only if what it loaded
      still agrees with the row. */
  lemma ContinueWriteExact(w: World, s: State, i: nat)
    requires i < |s.jobs| && s.jobs[i].stage.WritingRow?
    ensures var j, g := s.jobs[i], s.jobs[i].request.group;
      var kept := (row: Option<Row>) => if row.Some? then (row.value.oldStart, row.value.lastMemcell) else (None, None);
      RowOf(Moved(w, s, Resume(i)).rows, g) == Apply(RowOf(s.rows, g), Writing(w, j))
      <==> kept(j.loaded) == kept(RowOf(s.rows, g))
  {
  }

  /** A memcell saved between a continuing job's load and its write is lost from the row: the start time
      goes back to what it was. */
  lemma MemcellLost(w: World, s: State, i: nat, k: nat)
    requires i < |s.jobs| && k < |s.jobs| && i != k && s.jobs[i].request.group == s.jobs[k].request.group
    requires s.jobs[i].stage.LoadingRow? && s.jobs[k].stage.Saving?
    ensures var g := s.jobs[i].request.group;
      var saved := Moved(w, Moved(w, s, Resume(i)), Resume(k));
      && StartTime(saved.rows, g) == Some(w.memcellTime(s.jobs[k].history))
      && StartTime(Moved(w, saved, Resume(i)).rows, g) == StartTime(s.rows, g)
  {
    var loaded := Moved(w, s, Resume(i));
    assert loaded.jobs[i].stage.WritingRow? && loaded.jobs[i].loaded == RowOf(s.rows, s.jobs[i].request.group);
    assert loaded.jobs[k] == s.jobs[k];
    var saved := Moved(w, loaded, Resume(k));
    assert saved.jobs[i] == loaded.jobs[i];
  }

  /** Two requests whose rows are written in the other order move the new start back. */
  lemma WrittenBack(w: World, s: State, i: nat, k: nat)
    requires i < |s.jobs| && k < |s.jobs| && i != k && s.jobs[i].request.group == s.jobs[k].request.group
    requires !Writing(w, s.jobs[i]).Keep? && !Writing(w, s.jobs[k]).Keep?
    ensures var g := s.jobs[i].request.group;
      var first := Moved(w, s, Resume(i));
      var second := Moved(w, first, Resume(k));
      && g in first.rows && g in second.rows
      && (second.rows[g].newStart < first.rows[g].newStart
          <==> NewStart(Writing(w, s.jobs[k])) < NewStart(Writing(w, s.jobs[i])))
  {
    assert Moved(w, s, Resume(i)).jobs[k] == s.jobs[k];
  }
}
