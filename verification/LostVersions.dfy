/** When edits of one task overlap: which versions the history keeps, and how one is lost. */
module LostVersions {
  import opened Model
  import opened Tables
  import opened Operations
  import opened Interleaving
  import opened EditTrail
  import opened VersionHistory
  import opened SmallRun
  import CallsAlone
  import Freshness
  import Serial

  /** The i-th event of the run is an UPDATE of the task that takes effect. */
  ghost predicate UpdatesTask(past: seq<State>, events: seq<Event>, i: nat, taskId: int) {
    && i < |events| < |past| && events[i].Advance? && events[i].flight in past[i].flights
    && var op := past[i].flights[events[i].flight].op;
       op.EditUpdate? && !events[i].reply.fault.LostBefore? && op.edit.taskId == taskId
  }

  /** No UPDATE of the task lands between the SELECT of that edit and its own UPDATE. */
  ghost predicate Undisturbed(past: seq<State>, events: seq<Event>, i: nat, taskId: int)
    requires UpdatesTask(past, events, i, taskId)
  {
    var readAt := past[i].flights[events[i].flight].op.readAt;
    forall j :: readAt <= j < i ==> !UpdatesTask(past, events, j, taskId)
  }

  // ---------------------------------------------------------------------------
  // A row changes only by an UPDATE of its own

  lemma {:induction false} FindInLonger(rows: seq<Task>, t: Task, id: int)
    requires FindTask(rows, id).Some?
    ensures FindTask(rows + [t], id) == FindTask(rows, id)
  {
    if rows != [] && rows[0].id != id {
      assert (rows + [t])[1..] == rows[1..] + [t];
      FindInLonger(rows[1..], t, id);
    }
  }

  lemma WriteFinds(st: State, op: Op, newId: int, taskId: int)
    requires WellKeyed(st.db) && FindTask(st.db.tasks, taskId).Some?
    requires op.EditUpdate? ==> op.edit.taskId != taskId
    ensures FindTask(WriteTables(st, op, newId).tasks, taskId) == FindTask(st.db.tasks, taskId)
  {
    hide UpdateRows, IsMember, FindTask;
    if op.EditUpdate? {
      FindUpdated(st.db, op.edit.taskId, op.edit.change, taskId);
    } else if op.CreateInsert? {
      FindInLonger(st.db.tasks, NewTask(op.create, newId, op.createdAt), taskId);
    }
  }

  lemma FindStays(s: Settings, st: State, e: Event, taskId: int)
    requires WellKeyed(st.db) && Enabled(st, e) && FindTask(st.db.tasks, taskId).Some?
    requires e.Advance? && st.flights[e.flight].op.EditUpdate? && !e.reply.fault.LostBefore? ==>
               st.flights[e.flight].op.edit.taskId != taskId
    ensures FindTask(Step(s, st, e).db.tasks, taskId) == FindTask(st.db.tasks, taskId)
  {
    hide FindTask, WriteTables, CacheAfter, SpansAfter, NextOp, WellKeyed, IsMember;
    if e.Advance? && Writes(st.flights[e.flight].op) && Lands(st.flights[e.flight].op, e.reply) {
      WriteFinds(st, st.flights[e.flight].op, e.reply.newId, taskId);
    }
  }

  /** A run in order, with its keys. */
  ghost predicate Orderly(s: Settings, past: seq<State>, events: seq<Event>) {
    Steps(s, past, events) && forall i :: 0 <= i < |past| ==> WellKeyed(past[i].db)
  }

  lemma RunIsOrderly(s: Settings, events: seq<Event>)
    requires Legal(s, events)
    ensures Orderly(s, Past(s, events), events)
  {
    hide Legal, Replay, Past, WellKeyed;
    PastSteps(s, events);
    forall i | 0 <= i < |Past(s, events)|
      ensures WellKeyed(Past(s, events)[i].db)
    {
      AtIsReplay(s, events, i);
      RunKeepsKeys(s, events[..i]);
      assert At(s, events, i) == Past(s, events)[i];
    }
  }

  lemma OneEvent(s: Settings, past: seq<State>, events: seq<Event>, i: nat, taskId: int)
    requires Orderly(s, past, events) && i < |events| && FindTask(past[i].db.tasks, taskId).Some?
    requires !UpdatesTask(past, events, i, taskId)
    ensures FindTask(past[i + 1].db.tasks, taskId) == FindTask(past[i].db.tasks, taskId)
  {
    hide Step, FindTask, WellKeyed;
    FindStays(s, past[i], events[i], taskId);
  }

  lemma {:induction false} RowStays(s: Settings, past: seq<State>, events: seq<Event>, i: nat, j: nat, taskId: int)
    requires Orderly(s, past, events) && i <= j < |past| && FindTask(past[i].db.tasks, taskId).Some?
    requires forall m :: i <= m < j ==> !UpdatesTask(past, events, m, taskId)
    ensures FindTask(past[j].db.tasks, taskId) == FindTask(past[i].db.tasks, taskId)
    decreases j
  {
    hide FindTask, UpdatesTask, Orderly;
    if i < j {
      RowStays(s, past, events, i, j - 1, taskId);
      OrderlyLength(s, past, events);
      OneEvent(s, past, events, j - 1, taskId);
    }
  }

  lemma OrderlyLength(s: Settings, past: seq<State>, events: seq<Event>)
    requires Orderly(s, past, events)
    ensures |past| == |events| + 1
  {}

  // ---------------------------------------------------------------------------
  // What an undisturbed edit replaces is in the history

  lemma SnapshotRecorded(db: Db, h: Snapshot)
    requires h in db.history
    ensures SnapshotVersion(h) in Recorded(db, h.taskId)
  {
    OfTaskIn(db.history, SNAPSHOT_TASK, h.taskId, h);
    var rows := HistoryOf(db, h.taskId);
    var i :| 0 <= i < |rows| && rows[i] == h;
    assert Recorded(db, h.taskId)[i] == SnapshotVersion(h);
  }

  /** What an edit about to update its task has read, and has recorded. */
  lemma ReadAndRecorded(s: Settings, events: seq<Event>, k: nat)
    requires s.ttl > 0 && Legal(s, events) && k in Replay(s, events).flights
             && Replay(s, events).flights[k].op.EditUpdate?
    ensures var st := Replay(s, events);
            var op := st.flights[k].op;
            && op.readAt < |events| && FindTask(At(s, events, op.readAt).db.tasks, op.edit.taskId) == Some(op.row)
            && exists h :: h in st.db.history && h.id == op.historyId && Shows(h, op.row) && h.taskId == op.edit.taskId
  {
    Freshness.EverythingHeld(s, events);
    TrailHolds(s, events);
    var st := Replay(s, events);
    hide Legal, Replay, Freshness.ValuesHeld, FindTask;
    assert Freshness.Carries(Past(s, events), events, k, st.flights[k]);
    assert Unused(st, k, st.flights[k].op);
  }

  /** An UPDATE that no other UPDATE of the task disturbed replaces a version that is in the history. */
  lemma ReplacedIsRecorded(s: Settings, events: seq<Event>, i: nat, taskId: int)
    requires s.ttl > 0 && Legal(s, events) && i < |events|
    requires UpdatesTask(Past(s, events), events, i, taskId) && Undisturbed(Past(s, events), events, i, taskId)
    ensures var before := At(s, events, i).db;
            CurrentVersion(before, taskId).Some? && CurrentVersion(before, taskId).value in Recorded(before, taskId)
  {
    hide Legal, Replay, Past, FindTask, Orderly, Recorded, VersionOf, SnapshotVersion;
    var past := Past(s, events);
    var k := events[i].flight;
    var op := past[i].flights[k].op;
    AtIsReplay(s, events, i);
    PastOfPrefix(s, events, i);
    ReadAndRecorded(s, events[..i], k);
    assert past[..i + 1][op.readAt] == past[op.readAt];
    RunIsOrderly(s, events);
    RowStays(s, past, events, op.readAt, i, taskId);
    var h :| h in past[i].db.history && h.id == op.historyId && Shows(h, op.row) && h.taskId == taskId;
    SnapshotRecorded(past[i].db, h);
  }

  // ---------------------------------------------------------------------------
  // Over whole runs

  lemma HistoryStays(s: Settings, st: State, e: Event, taskId: int)
    requires Enabled(st, e)
    ensures forall v :: v in Recorded(st.db, taskId) ==> v in Recorded(Step(s, st, e).db, taskId)
    ensures !Records(st, e) ==> Recorded(Step(s, st, e).db, taskId) == Recorded(st.db, taskId)
  {
    hide Step, Enabled;
    HistoryAfter(s, st, e);
    if Records(st, e) {
      var fl := st.flights[e.flight];
      RecordedAppend(st.db, SnapshotOf(fl.op.row, e.reply.newId, fl.op.edit.userId, fl.op.changedAt), taskId);
    }
  }

  lemma CurrentIsTold(db: Db, taskId: int)
    ensures CurrentVersion(db, taskId).Some? ==> CurrentVersion(db, taskId).value in Told(db, taskId)
  {
    if CurrentVersion(db, taskId).Some? {
      assert Told(db, taskId)[|Told(db, taskId)| - 1] == CurrentVersion(db, taskId).value;
    }
  }

  /** The task's row and its history after an UPDATE. */
  lemma AfterUpdate(s: Settings, st: State, k: nat, r: Reply)
    requires WellKeyed(st.db) && Enabled(st, Advance(k, r)) && st.flights[k].op.EditUpdate? && !r.fault.LostBefore?
    requires FindTask(st.db.tasks, st.flights[k].op.edit.taskId).Some?
    ensures var inp := st.flights[k].op.edit;
            var after := Step(s, st, Advance(k, r));
            && FindTask(after.db.tasks, inp.taskId) == Some(Apply(FindTask(st.db.tasks, inp.taskId).value, inp.change))
            && Recorded(after.db, inp.taskId) == Recorded(st.db, inp.taskId)
            && Told(after.db, inp.taskId) == Recorded(st.db, inp.taskId) + [CurrentVersion(after.db, inp.taskId).value]
            && WellKeyed(after.db)
  {
    hide Step, Enabled, FindTask, Recorded, WellKeyed, NextOp;
    FlightMoves(st, k, r);
    var inp := st.flights[k].op.edit;
    StepLeaves(s, st, k, r);
    StepKeepsKeys(s, st, Advance(k, r));
    FindUpdated(st.db, inp.taskId, inp.change, inp.taskId);
    HistoryStays(s, st, Advance(k, r), inp.taskId);
  }

  /** The UPDATE this edit is about to make loses no version: what it replaces has been recorded, or does not
      change. */
  ghost predicate LosesNothing(db: Db, inp: EditInput) {
    FindTask(db.tasks, inp.taskId).Some? ==>
      var row := FindTask(db.tasks, inp.taskId).value;
      VersionOf(row) in Recorded(db, inp.taskId) || VersionOf(Apply(row, inp.change)) == VersionOf(row)
  }

  /** The edit whose UPDATE the i-th event is. */
  ghost function EditAt(past: seq<State>, events: seq<Event>, i: nat, taskId: int): (inp: EditInput)
    requires UpdatesTask(past, events, i, taskId)
    ensures inp.taskId == taskId
  {
    past[i].flights[events[i].flight].op.edit
  }

  ghost predicate KeepsReplaced(past: seq<State>, events: seq<Event>, i: nat, taskId: int)
    requires UpdatesTask(past, events, i, taskId)
  {
    LosesNothing(past[i].db, EditAt(past, events, i, taskId))
  }

  /** Whatever version the task has at a point of the run is told of at that and every later point. */
  ghost predicate AlwaysTold(past: seq<State>, taskId: int) {
    forall i, j :: 0 <= i <= j < |past| ==> TellsOf(past[j], past[i], taskId)
  }

  ghost predicate TellsOf(later: State, st: State, taskId: int) {
    var had := CurrentVersion(st.db, taskId);
    had.Some? ==> had.value in Told(later.db, taskId)
  }

  /** The UPDATEs of the task in a run lose nothing. */
  ghost predicate UpdatesLoseNothing(past: seq<State>, events: seq<Event>, taskId: int) {
    forall i: nat :: UpdatesTask(past, events, i, taskId) ==> KeepsReplaced(past, events, i, taskId)
  }

  /** Right after an UPDATE the version it replaced is told of if and only if it had been recorded or stays. */
  lemma UpdateTellsIff(s: Settings, past: seq<State>, events: seq<Event>, i: nat, taskId: int)
    requires Orderly(s, past, events) && UpdatesTask(past, events, i, taskId) && |past| == |events| + 1
    ensures TellsOf(past[i + 1], past[i], taskId) <==> KeepsReplaced(past, events, i, taskId)
  {
    hide Step, Enabled, FindTask, Recorded, Told, VersionOf, WellKeyed;
    assert Enabled(past[i], events[i]) && past[i + 1] == Step(s, past[i], events[i]) && WellKeyed(past[i].db);
    if FindTask(past[i].db.tasks, taskId).Some? {
      AfterUpdate(s, past[i], events[i].flight, events[i].reply);
    }
  }

  lemma NextTells(s: Settings, past: seq<State>, events: seq<Event>, i: nat, taskId: int, v: Version)
    requires Orderly(s, past, events) && i < |events| && |past| == |events| + 1
    requires UpdatesTask(past, events, i, taskId) ==> KeepsReplaced(past, events, i, taskId)
    requires v in Told(past[i].db, taskId)
    ensures v in Told(past[i + 1].db, taskId)
  {
    hide Step, Enabled, FindTask, Recorded, VersionOf, WellKeyed, KeepsReplaced, UpdatesTask;
    assert Enabled(past[i], events[i]) && past[i + 1] == Step(s, past[i], events[i]) && WellKeyed(past[i].db);
    HistoryStays(s, past[i], events[i], taskId);
    if v !in Recorded(past[i].db, taskId) {
      assert CurrentVersion(past[i].db, taskId) == Some(v);
      if UpdatesTask(past, events, i, taskId) {
        UpdateTellsIff(s, past, events, i, taskId);
        assert TellsOf(past[i + 1], past[i], taskId);
      } else {
        OneEvent(s, past, events, i, taskId);
        assert CurrentVersion(past[i + 1].db, taskId) == Some(v);
        CurrentIsTold(past[i + 1].db, taskId);
      }
    }
  }

  lemma {:induction false} StaysTold(s: Settings, past: seq<State>, events: seq<Event>, i: nat, j: nat, taskId: int)
    requires Orderly(s, past, events) && UpdatesLoseNothing(past, events, taskId) && i <= j < |past|
    ensures TellsOf(past[j], past[i], taskId)
    decreases j
  {
    hide Orderly, Told, UpdatesTask, KeepsReplaced;
    OrderlyLength(s, past, events);
    if i == j {
      CurrentIsTold(past[i].db, taskId);
    } else {
      StaysTold(s, past, events, i, j - 1, taskId);
      var had := CurrentVersion(past[i].db, taskId);
      if had.Some? {
        NextTells(s, past, events, j - 1, taskId, had.value);
      }
    }
  }

  /** Exactly when no version is lost: over any run, whatever overlaps and whatever fails, every version the task
      had is at every later point in its history or current, if and only if each UPDATE of the task replaces
      a version that is already in the history, or leaves the version as it is. */
  lemma NothingLostIff(s: Settings, events: seq<Event>, taskId: int)
    requires Legal(s, events)
    ensures AlwaysTold(Past(s, events), taskId) <==> UpdatesLoseNothing(Past(s, events), events, taskId)
  {
    hide Legal, Replay, Past, Orderly, TellsOf, KeepsReplaced, UpdatesTask;
    var past := Past(s, events);
    RunIsOrderly(s, events);
    OrderlyLength(s, past, events);
    if UpdatesLoseNothing(past, events, taskId) {
      forall i, j | 0 <= i <= j < |past|
        ensures TellsOf(past[j], past[i], taskId)
      {
        StaysTold(s, past, events, i, j, taskId);
      }
    }
    if AlwaysTold(past, taskId) {
      forall i: nat | UpdatesTask(past, events, i, taskId)
        ensures KeepsReplaced(past, events, i, taskId)
      {
        UpdateInRun(past, events, i, taskId);
        assert TellsOf(past[i + 1], past[i], taskId);
        UpdateTellsIff(s, past, events, i, taskId);
      }
    }
  }

  lemma UpdateInRun(past: seq<State>, events: seq<Event>, i: nat, taskId: int)
    requires UpdatesTask(past, events, i, taskId)
    ensures i < |events|
  {}

  /** Every UPDATE of the task in the run is undisturbed. */
  ghost predicate NoneDisturbed(s: Settings, events: seq<Event>, taskId: int)
    requires Legal(s, events)
  {
    forall i: nat :: UpdatesTask(Past(s, events), events, i, taskId) ==> Undisturbed(Past(s, events), events, i, taskId)
  }

  lemma RecordedIsKept(past: seq<State>, events: seq<Event>, i: nat, taskId: int)
    requires UpdatesTask(past, events, i, taskId)
    requires var had := CurrentVersion(past[i].db, taskId); had.Some? && had.value in Recorded(past[i].db, taskId)
    ensures KeepsReplaced(past, events, i, taskId)
  {}

  /** It is enough that edits of the task do not overlap in the harmful way: if no UPDATE of it lands between
      another edit's SELECT and UPDATE, then every version the task had at any point of the run is in its
      history or is the current one. */
  lemma UndisturbedLoseNothing(s: Settings, events: seq<Event>, taskId: int, i: nat)
    requires s.ttl > 0 && Legal(s, events) && NoneDisturbed(s, events, taskId) && i <= |events|
    ensures var had := CurrentVersion(At(s, events, i).db, taskId);
            had.Some? ==> had.value in Told(Replay(s, events).db, taskId)
  {
    hide Legal, Replay, Past, Orderly, UpdatesTask, Undisturbed;
    var past := Past(s, events);
    forall m: nat | UpdatesTask(past, events, m, taskId)
      ensures KeepsReplaced(past, events, m, taskId)
    {
      UpdateInRun(past, events, m, taskId);
      ReplacedIsRecorded(s, events, m, taskId);
      RecordedIsKept(past, events, m, taskId);
    }
    RunIsOrderly(s, events);
    StaysTold(s, past, events, i, |events|, taskId);
  }

  // ---------------------------------------------------------------------------
  // How a lost version can come back

  /** No edit of the task in flight has read that version and has yet to record it. */
  ghost predicate NobodyHolds(st: State, taskId: int, v: Version) {
    forall k :: k in st.flights ==> !StillRecords(st.flights[k].op, taskId, v)
  }

  predicate StillRecords(op: Op, taskId: int, v: Version) {
    (op.EditCheck? || op.EditStamp? || op.EditRecord?) && op.edit.taskId == taskId && VersionOf(op.row) == v
  }

  /** The version is not told of, and nobody is about to record it. */
  ghost predicate Gone(st: State, taskId: int, v: Version) {
    && v !in Recorded(st.db, taskId) && CurrentVersion(st.db, taskId) != Some(v)
    && NobodyHolds(st, taskId, v)
  }

  lemma MovedHolds(s: Settings, st: State, op: Op, r: Reply, taskId: int, v: Version)
    requires !Final(op) && !StillRecords(op, taskId, v) && CurrentVersion(st.db, taskId) != Some(v)
    ensures !StillRecords(NextOp(s, st, op, r), taskId, v)
  {
    hide FindTask, IsMember, IsPartOfTeamByTask, CanInvite, CountsAsAffected, VersionOf, WriteTables;
  }

  lemma NobodyComesToHold(s: Settings, st: State, e: Event, taskId: int, v: Version)
    requires Enabled(st, e) && NobodyHolds(st, taskId, v) && CurrentVersion(st.db, taskId) != Some(v)
    ensures NobodyHolds(Step(s, st, e), taskId, v)
  {
    if e.Advance? {
      hide Step, NextOp, StillRecords, FindTask;
      assert e.flight in st.flights && !Final(st.flights[e.flight].op);
      OnlyMoves(s, st, e.flight, e.reply);
      MovedHolds(s, st, st.flights[e.flight].op, e.reply, taskId, v);
    }
  }

  lemma StaysUnrecorded(s: Settings, st: State, e: Event, taskId: int, v: Version)
    requires Enabled(st, e) && NobodyHolds(st, taskId, v) && v !in Recorded(st.db, taskId)
    requires Freshness.AllCarryKnown(st)
    ensures v !in Recorded(Step(s, st, e).db, taskId)
  {
    hide Step, Enabled, Recorded;
    HistoryStays(s, st, e, taskId);
    HistoryAfter(s, st, e);
    if Records(st, e) {
      var op := st.flights[e.flight].op;
      assert Freshness.CarriesKnown(st.db, op) && !StillRecords(op, taskId, v);
      RecordedAppend(st.db, SnapshotOf(op.row, e.reply.newId, op.edit.userId, op.changedAt), taskId);
    }
  }

  /** A version that is gone comes back only as the current one: as long as the task does not have it again, it
      is not told of at any later point. */
  lemma {:induction false} GoneForGood(s: Settings, events: seq<Event>, taskId: int, v: Version, i: nat, j: nat)
    requires s.ttl > 0 && Legal(s, events) && i <= j <= |events| && Gone(At(s, events, i), taskId, v)
    requires forall m :: i <= m <= j ==> CurrentVersion(At(s, events, m).db, taskId) != Some(v)
    ensures Gone(At(s, events, j), taskId, v) && v !in Told(At(s, events, j).db, taskId)
    decreases j
  {
    hide Legal, Replay, Past, At, NobodyHolds, FindTask, Recorded, Step, Enabled;
    if i < j {
      GoneForGood(s, events, taskId, v, i, j - 1);
      var st := At(s, events, j - 1);
      NextState(s, events, j - 1);
      NobodyComesToHold(s, st, events[j - 1], taskId, v);
      StaysUnrecorded(s, st, events[j - 1], taskId, v);
    }
  }

  lemma NextState(s: Settings, events: seq<Event>, i: nat)
    requires s.ttl > 0 && Legal(s, events) && i < |events|
    ensures Enabled(At(s, events, i), events[i]) && At(s, events, i + 1) == Step(s, At(s, events, i), events[i])
    ensures Freshness.AllCarryKnown(At(s, events, i))
  {
    hide Legal, Replay, Past, Step, Enabled, Freshness.AllCarryKnown, WellKeyed;
    PastSteps(s, events);
    AtIsReplay(s, events, i);
    Freshness.CacheStaysKnown(s, events[..i]);
  }

  // ---------------------------------------------------------------------------
  // Two edits that have both recorded the same version

  /** When two edits of a task have both read it and one UPDATE follows the other, the version in between is
      told of afterwards if and only if it had been recorded before or is the final version. */
  lemma OverlappingUpdatesLose(s: Settings, st: State, j: nat, k: nat, rj: Reply, rk: Reply, taskId: int)
    requires WellKeyed(st.db) && FindTask(st.db.tasks, taskId).Some? && j != k
    requires Enabled(st, Advance(j, rj)) && Enabled(st, Advance(k, rk))
    requires st.flights[j].op.EditUpdate? && st.flights[k].op.EditUpdate?
    requires st.flights[j].op.edit.taskId == taskId == st.flights[k].op.edit.taskId
    requires !rj.fault.LostBefore? && !rk.fault.LostBefore?
    ensures Enabled(Step(s, st, Advance(j, rj)), Advance(k, rk))
    ensures var row := FindTask(st.db.tasks, taskId).value;
            var mid := Step(s, st, Advance(j, rj));
            var end := Step(s, mid, Advance(k, rk));
            && CurrentVersion(mid.db, taskId) == Some(VersionOf(Apply(row, st.flights[j].op.edit.change)))
            && CurrentVersion(end.db, taskId) == Some(VersionOf(Apply(row, st.flights[k].op.edit.change)))
            && (CurrentVersion(mid.db, taskId).value in Told(end.db, taskId) <==>
                  || CurrentVersion(mid.db, taskId).value in Recorded(st.db, taskId)
                  || CurrentVersion(mid.db, taskId) == CurrentVersion(end.db, taskId))
  {
    OthersStayEnabled(s, st, j, k, rj, rk);
    hide Step, Enabled, FindTask, Recorded, WellKeyed, VersionOf;
    var mid := Step(s, st, Advance(j, rj));
    AfterUpdate(s, st, j, rj);
    AfterUpdate(s, mid, k, rk);
    var end := Step(s, mid, Advance(k, rk));
    assert Told(end.db, taskId) == Recorded(st.db, taskId) + [CurrentVersion(end.db, taskId).value];
  }

  lemma OthersStayEnabled(s: Settings, st: State, j: nat, k: nat, rj: Reply, rk: Reply)
    requires j != k && Enabled(st, Advance(j, rj)) && Enabled(st, Advance(k, rk)) && st.flights[k].op.EditUpdate?
    ensures Enabled(Step(s, st, Advance(j, rj)), Advance(k, rk))
    ensures Step(s, st, Advance(j, rj)).flights[k] == st.flights[k]
  {
    hide Step;
    OnlyMoves(s, st, j, rj);
  }

  // ---------------------------------------------------------------------------
  // A run in which a version is lost

  const BOB := EditInput(MEMBER, TASK, Change("done", "title", "", 0))

  lemma Extend(s: Settings, events: seq<Event>, e: Event)
    requires Legal(s, events) && Enabled(Replay(s, events), e)
    ensures Legal(s, events + [e]) && Replay(s, events + [e]) == Step(s, Replay(s, events), e)
  {
    hide Step, Enabled;
    assert (events + [e])[..|events|] == events;
  }

  /** A step of a call, in a run: where the call is then, and the tables. */
  lemma ExtendCall(s: Settings, events: seq<Event>, k: nat, r: Reply) returns (longer: seq<Event>)
    requires Legal(s, events) && Enabled(Replay(s, events), Advance(k, r))
    ensures Legal(s, longer) && longer == events + [Advance(k, r)]
    ensures var st, after := Replay(s, events), Replay(s, longer);
            && after == Step(s, st, Advance(k, r))
            && k in after.flights && after.flights[k].op == NextOp(s, st, st.flights[k].op, r)
            && after.flights.Keys == st.flights.Keys
            && (forall j :: j in st.flights && j != k ==> after.flights[j] == st.flights[j])
            && after.now == st.now && after.step == st.step + 1
            && after.db == if Writes(st.flights[k].op) && Lands(st.flights[k].op, r)
                           then WriteTables(st, st.flights[k].op, r.newId) else st.db
  {
    hide Step, Enabled, NextOp, WriteTables, Legal, Replay, CacheAfter, SpansAfter;
    longer := events + [Advance(k, r)];
    FlightMoves(Replay(s, events), k, r);
    Extend(s, events, Advance(k, r));
    OnlyMoves(s, Replay(s, events), k, r);
    StepLeaves(s, Replay(s, events), k, r);
  }

  /** The state after a call has begun. */
  lemma ExtendBegin(s: Settings, events: seq<Event>, op: Op) returns (longer: seq<Event>)
    requires Legal(s, events) && CallsAlone.NumbersTaken(Replay(s, events)) && Initial(op)
    ensures Legal(s, longer)
    ensures var st, after := Replay(s, events), Replay(s, longer);
            && st.step !in st.flights && after.flights == st.flights[st.step := Flight(op, st.step)]
            && after.db == st.db && after.now == st.now && after.step == st.step + 1
  {
    var st := Replay(s, events);
    assert Enabled(st, Begin(st.step, op));
    Extend(s, events, Begin(st.step, op));
    longer := events + [Begin(st.step, op)];
  }

  /** One more call than before, at that step; everything else as it was. */
  ghost predicate OneMore(st: State, after: State, k: nat, op: Op) {
    && k !in st.flights && k in after.flights && after.flights[k].op == op
    && (forall j :: j in st.flights ==> j in after.flights && after.flights[j] == st.flights[j])
    && CallsAlone.NumbersTaken(after) && after.now == st.now
  }

  /** A reading step of the call that has been added. */
  lemma ReadStep(s: Settings, st: State, events: seq<Event>, k: nat, op: Op) returns (longer: seq<Event>)
    requires Legal(s, events) && OneMore(st, Replay(s, events), k, op)
    requires op.EditGet? || op.EditCheck? || op.EditStamp?
    ensures Legal(s, longer) && OneMore(st, Replay(s, longer), k, Read(Replay(s, events), op, Fine))
    ensures Replay(s, longer).db == Replay(s, events).db
  {
    hide Legal, Replay, Step, Read, WriteTables;
    longer := ExtendCall(s, events, k, Reply(Fine, 0, 0));
  }

  lemma GetAndCheck(st: State, inp: EditInput)
    requires FindTask(st.db.tasks, inp.taskId).Some? && IsPartOfTeamByTask(st.db, inp.userId, inp.taskId)
    ensures var row := FindTask(st.db.tasks, inp.taskId).value;
            && Read(st, EditGet(inp), Fine) == EditCheck(inp, row, st.step)
            && forall readAt, other: State :: other.db == st.db ==>
                 && Read(other, EditCheck(inp, row, readAt), Fine) == EditStamp(inp, row, readAt)
                 && Read(other, EditStamp(inp, row, readAt), Fine) == EditRecord(inp, row, readAt, other.now)
  {
    hide FindTask, IsPartOfTeamByTask;
  }

  /** An edit, begun and brought as far as its INSERT into the history, with nothing failing. */
  lemma ReadyToRecord(s: Settings, events: seq<Event>, inp: EditInput) returns (longer: seq<Event>, k: nat, readAt: nat)
    requires Legal(s, events) && CallsAlone.NumbersTaken(Replay(s, events))
    requires var st := Replay(s, events);
             FindTask(st.db.tasks, inp.taskId).Some? && IsPartOfTeamByTask(st.db, inp.userId, inp.taskId)
    ensures Legal(s, longer)
    ensures var st, after := Replay(s, events), Replay(s, longer);
            && OneMore(st, after, k, EditRecord(inp, FindTask(st.db.tasks, inp.taskId).value, readAt, st.now))
            && after.db == st.db
  {
    hide Legal, Replay, Step, FindTask, IsPartOfTeamByTask, Read;
    var st := Replay(s, events);
    var row := FindTask(st.db.tasks, inp.taskId).value;
    k := st.step;
    var begun := ExtendBegin(s, events, EditGet(inp));
    readAt := Replay(s, begun).step;
    GetAndCheck(Replay(s, begun), inp);
    var read := ReadStep(s, st, begun, k, EditGet(inp));
    var checked := ReadStep(s, st, read, k, EditCheck(inp, row, readAt));
    longer := ReadStep(s, st, checked, k, EditStamp(inp, row, readAt));
  }

  /** And to its UPDATE. */
  lemma ReadyToUpdate(s: Settings, events: seq<Event>, inp: EditInput, historyId: int)
    returns (longer: seq<Event>, k: nat)
    requires Legal(s, events) && CallsAlone.NumbersTaken(Replay(s, events))
    requires var st := Replay(s, events);
             && FindTask(st.db.tasks, inp.taskId).Some? && IsPartOfTeamByTask(st.db, inp.userId, inp.taskId)
             && NextId(st.db.history, SNAPSHOT_ID, historyId)
    ensures Legal(s, longer)
    ensures var st, after := Replay(s, events), Replay(s, longer);
            && k in after.flights && after.flights[k].op.EditUpdate? && after.flights[k].op.edit == inp
            && OneMore(st, after, k, after.flights[k].op)
            && after.db == InsertHistory(st.db,
                 SnapshotOf(FindTask(st.db.tasks, inp.taskId).value, historyId, inp.userId, st.now))
  {
    hide Legal, Replay, Step, FindTask, IsPartOfTeamByTask, NextId, InsertHistory;
    var recording, j, readAt := ReadyToRecord(s, events, inp);
    k := j;
    longer := ExtendCall(s, recording, k, Reply(Fine, historyId, 0));
  }

  /** A tracker with one team, one member and one task. */
  lemma FromOneTask(s: Settings) returns (events: seq<Event>)
    ensures Legal(s, events) && CallsAlone.NumbersTaken(Replay(s, events))
    ensures var st := Replay(s, events);
            && FindTask(st.db.tasks, TASK) == Some(FIRST) && IsPartOfTeamByTask(st.db, MEMBER, TASK)
            && st.db.history == []
  {
    OneTask(s);
    hide Legal, Replay, Serial.Run, Serial.Legal;
    events := CallsAlone.SerialRunIsOverlapping(s, 0, [FOUND, ADD]);
  }

  /** The harm is real: two edits of a task read it, both record what they read, and their UPDATEs follow one
      another; the version of the first is then neither in the history nor current. */
  lemma AVersionIsLost(s: Settings) returns (events: seq<Event>, i: nat)
    ensures Legal(s, events) && i <= |events|
    ensures var had := CurrentVersion(At(s, events, i).db, TASK);
            had.Some? && had.value !in Told(Replay(s, events).db, TASK)
  {
    hide Legal, Replay, Step, Enabled, FindTask, IsPartOfTeamByTask, Past, Recorded, Told;
    var start := FromOneTask(s);
    var st := Replay(s, start);
    var row := FIRST;
    var one, ada := ReadyToUpdate(s, start, ADA, 1);
    StillPart(st.db, SnapshotOf(row, 1, MEMBER, st.now));
    var two, bob := ReadyToUpdate(s, one, BOB, 2);
    var ready := Replay(s, two);
    RunKeepsKeys(s, two);
    var fine := Reply(Fine, 0, 0);
    MayUpdate(ready, ada, fine);
    MayUpdate(ready, bob, fine);
    OverlappingUpdatesLose(s, ready, ada, bob, fine, fine, TASK);
    var first := ExtendCall(s, two, ada, fine);
    events := ExtendCall(s, first, bob, fine);
    i := |first|;
    AtIsReplay(s, events, i);
    assert events[..i] == first;
    BothRecorded(st.db, row, st.now, Replay(s, one).now);
    OtherVersions(row);
  }

  lemma MayUpdate(st: State, k: nat, r: Reply)
    requires k in st.flights && st.flights[k].op.EditUpdate?
    ensures Enabled(st, Advance(k, r))
  {}

  lemma BothRecorded(db: Db, row: Task, one: int, two: int)
    requires db.history == [] && row.id == TASK
    ensures var after := InsertHistory(InsertHistory(db, SnapshotOf(row, 1, MEMBER, one)),
            SnapshotOf(row, 2, MEMBER, two));
            forall v :: v in Recorded(after, TASK) ==> v == VersionOf(row)
  {
    var first := InsertHistory(db, SnapshotOf(row, 1, MEMBER, one));
    RecordedAppend(db, SnapshotOf(row, 1, MEMBER, one), TASK);
    RecordedAppend(first, SnapshotOf(row, 2, MEMBER, two), TASK);
    assert Recorded(db, TASK) == [];
  }

  lemma OtherVersions(row: Task)
    requires row == FIRST
    ensures VersionOf(Apply(row, ADA.change)) != VersionOf(row)
    ensures VersionOf(Apply(row, ADA.change)) != VersionOf(Apply(row, BOB.change))
  {
    assert Apply(row, ADA.change).status == "doing" && row.status == "todo" && Apply(row, BOB.change).status == "done";
    assert "doing"[1] == 'o' && |"doing"| == 5 && |"todo"| == 4 && |"done"| == 4;
  }

  lemma StillPart(db: Db, h: Snapshot)
    ensures IsPartOfTeamByTask(db, MEMBER, TASK) <==> IsPartOfTeamByTask(InsertHistory(db, h), MEMBER, TASK)
    ensures db.history == [] && h.id == 1 ==> NextId(InsertHistory(db, h).history, SNAPSHOT_ID, 2)
  {}
}
