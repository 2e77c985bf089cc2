/** What the history table is worth while edits of the same task overlap. */
module EditTrail {
  import opened Model
  import opened Tables
  import opened Interleaving
  import opened Freshness
  import Agreement

  // ---------------------------------------------------------------------------
  // Snapshots are genuine

  predicate Shows(h: Snapshot, t: Task) {
    t.id == h.taskId && VersionOf(t) == SnapshotVersion(h)
  }

  /** The snapshot was written by an edit of its task and its changer, and shows the task as that edit's SELECT
      found it; the instant it bears lies between the two. */
  ghost predicate GenuineIn(past: seq<State>, events: seq<Event>, span: Span, h: Snapshot) {
    && span.began < span.held < span.wrote < |events| < |past|
    && BeganBy(events, span.call, span.began) && events[span.began].op.EditGet?
    && events[span.began].op.edit.taskId == h.taskId && events[span.began].op.edit.userId == h.changedBy
    && StepOf(events, span.call, span.held)
    && span.call in past[span.held].flights && past[span.held].flights[span.call].op.EditGet?
    && FindTask(past[span.held].db.tasks, h.taskId).Some?
    && Shows(h, FindTask(past[span.held].db.tasks, h.taskId).value)
    && past[span.held].now <= h.changedAt <= past[span.wrote].now
    && StepOf(events, span.call, span.wrote) && h in past[span.wrote + 1].db.history
  }

  ghost predicate SnapshotsHeld(past: seq<State>, events: seq<Event>, st: State) {
    forall h :: h in st.db.history ==> h.id in st.readings && GenuineIn(past, events, st.readings[h.id], h)
  }

  lemma GenuineLater(past: seq<State>, events: seq<Event>, st: State, e: Event, span: Span, h: Snapshot)
    requires GenuineIn(past, events, span, h) && |past| == |events| + 1
    ensures GenuineIn(past + [st], events + [e], span, h)
  {
    hide Shows, FindTask;
  }

  ghost predicate RecordedAs(db: Db, taskId: int, historyId: int) {
    exists h :: h in db.history && h.id == historyId && h.taskId == taskId
  }

  lemma RecordedIsOld(db: Db, h: Snapshot, newId: int)
    requires WellKeyed(db) && NextId(db.history, SNAPSHOT_ID, newId) && h in db.history
    ensures h.id < newId
  {
    var i :| 0 <= i < |db.history| && db.history[i] == h;
    assert i < |db.history| - 1 ==> SNAPSHOT_ID(db.history[i]) < SNAPSHOT_ID(db.history[|db.history| - 1]);
    assert SNAPSHOT_ID(h) == h.id;
  }

  /** A step that inserts a history row. */
  predicate Records(st: State, e: Event) {
    && e.Advance? && e.flight in st.flights && st.flights[e.flight].op.EditRecord? && !e.reply.fault.LostBefore?
  }

  /** History and readings change only together, by one row and the reading it came from. */
  lemma HistoryAfter(s: Settings, st: State, e: Event)
    requires Enabled(st, e)
    ensures var after := Step(s, st, e);
            if Records(st, e) then
              var fl := st.flights[e.flight];
              var h := SnapshotOf(fl.op.row, e.reply.newId, fl.op.edit.userId, fl.op.changedAt);
              && after.db == InsertHistory(st.db, h)
              && after.readings == st.readings[h.id := Span(e.flight, fl.began, fl.op.readAt, st.step)]
              && NextId(st.db.history, SNAPSHOT_ID, h.id)
            else
              after.db.history == st.db.history && after.readings == st.readings
  {
    hide CacheAfter, SpansAfter, NextOp, IsMember, UpdateRows;
  }

  lemma RecordedIsGenuine(s: Settings, past: seq<State>, events: seq<Event>, e: Event, after: State)
    requires |past| == |events| + 1 && past[|events|].step == |events| && Records(past[|events|], e)
    requires Carries(past, events, e.flight, past[|events|].flights[e.flight])
    requires var fl := past[|events|].flights[e.flight];
             after.db == InsertHistory(past[|events|].db,
                 SnapshotOf(fl.op.row, e.reply.newId, fl.op.edit.userId, fl.op.changedAt))
    ensures var fl := past[|events|].flights[e.flight];
            GenuineIn(past + [after], events + [e], Span(e.flight, fl.began, fl.op.readAt, |events|),
                      SnapshotOf(fl.op.row, e.reply.newId, fl.op.edit.userId, fl.op.changedAt))
  {
    var fl := past[|events|].flights[e.flight];
    assert (past + [after])[|events| + 1] == after && (past + [after])[|events|] == past[|events|];
    assert (events + [e])[|events|] == e;
    assert ReadFor(past, events, e.flight, fl.began, fl.op.edit, fl.op.row, fl.op.readAt);
  }

  lemma StepSnapshotsHeld(s: Settings, past: seq<State>, events: seq<Event>, e: Event)
    requires AllHeld(s, past, events) && SnapshotsHeld(past, events, past[|events|]) && WellKeyed(past[|events|].db)
    requires Enabled(past[|events|], e)
    ensures var after := Step(s, past[|events|], e); SnapshotsHeld(past + [after], events + [e], after)
  {
    hide Step, Enabled, GenuineIn, Carries, ValuesHeld, WellKeyed, NextId;
    var st := past[|events|];
    var after := Step(s, st, e);
    HistoryAfter(s, st, e);
    if Records(st, e) {
      assert Carries(past, events, e.flight, st.flights[e.flight]);
      RecordedIsGenuine(s, past, events, e, after);
    }
    forall h | h in st.db.history
      ensures h.id in after.readings && GenuineIn(past + [after], events + [e], after.readings[h.id], h)
    {
      if Records(st, e) {
        RecordedIsOld(st.db, h, e.reply.newId);
      }
      GenuineLater(past, events, after, e, st.readings[h.id], h);
    }
  }

  lemma {:induction false} SnapshotsHold(s: Settings, events: seq<Event>)
    requires s.ttl > 0 && Legal(s, events)
    ensures SnapshotsHeld(Past(s, events), events, Replay(s, events))
  {
    if events != [] {
      var init, e := events[..|events| - 1], events[|events| - 1];
      assert events == init + [e];
      SnapshotsHold(s, init);
      EverythingHeld(s, init);
      RunKeepsKeys(s, init);
      hide SnapshotsHeld, AllHeld, Step, Enabled, WellKeyed;
      StepSnapshotsHeld(s, Past(s, init), init, e);
    }
  }

  lemma SnapshotHeld(past: seq<State>, events: seq<Event>, st: State, h: Snapshot)
    requires SnapshotsHeld(past, events, st) && h in st.db.history
    ensures h.id in st.readings && GenuineIn(past, events, st.readings[h.id], h)
  {}

  /** However edits overlap, every history row shows the version its task had at the SELECT of the edit that
      wrote it: by that edit's user, inside that edit, before the row was written, and bearing an instant
      in between. */
  lemma SnapshotsAreGenuine(s: Settings, events: seq<Event>, h: Snapshot)
    requires s.ttl > 0 && Legal(s, events) && h in Replay(s, events).db.history
    ensures h.id in Replay(s, events).readings
    ensures var span := Replay(s, events).readings[h.id];
            && span.began < span.held < span.wrote < |events|
            && events[span.began].Begin? && events[span.began].flight == span.call && events[span.began].op.EditGet?
            && events[span.began].op.edit.taskId == h.taskId && events[span.began].op.edit.userId == h.changedBy
            && var read := At(s, events, span.held);
               && StepOf(events, span.call, span.held)
               && span.call in read.flights && read.flights[span.call].op.EditGet?
               && (exists t :: && t in read.db.tasks && t.id == h.taskId
                               && h.status == t.status && h.title == t.title && h.description == t.description
                               && h.creatorId == t.creatorId && h.assigneeId == t.assigneeId && h.teamId == t.teamId)
               && read.now <= h.changedAt <= At(s, events, span.wrote).now
    ensures var span := Replay(s, events).readings[h.id];
            StepOf(events, span.call, span.wrote) && h in At(s, events, span.wrote + 1).db.history
  {
    hide Legal, Replay, Past, FindTask, StepOf, SnapshotsHeld;
    SnapshotsHold(s, events);
    SnapshotHeld(Past(s, events), events, Replay(s, events), h);
    var span := Replay(s, events).readings[h.id];
    assert At(s, events, span.held) == Past(s, events)[span.held];
    assert At(s, events, span.wrote) == Past(s, events)[span.wrote];
    assert At(s, events, span.wrote + 1) == Past(s, events)[span.wrote + 1];
  }

  // ---------------------------------------------------------------------------
  // Every update has a history row of its own

  ghost predicate UpdatesDistinct(updates: seq<Applied>) {
    forall i, j :: 0 <= i < j < |updates| ==> updates[i].historyId != updates[j].historyId
  }

  /** The history row an edit has inserted and is about to use: what it shows, where it comes from. */
  ghost predicate OwnRow(st: State, k: nat, op: Op)
    requires op.EditUpdate?
  {
    && (exists h :: h in st.db.history && h.id == op.historyId && Shows(h, op.row) && h.taskId == op.edit.taskId)
    && op.historyId in st.readings && st.readings[op.historyId].call == k
    && st.readings[op.historyId].wrote < st.step && st.readings[op.historyId].held == op.readAt
  }

  /** The row is there, and nobody else uses it. */
  ghost predicate Unused(st: State, k: nat, op: Op) {
    op.EditUpdate? ==> OwnRow(st, k, op) && forall u :: u in st.updates ==> u.historyId != op.historyId
  }

  ghost predicate OwnRows(a: Op, b: Op) {
    a.EditUpdate? && b.EditUpdate? ==> a.historyId != b.historyId
  }

  /** The update came from the call that inserted its history row, at a later step. */
  ghost predicate Preceded(events: seq<Event>, st: State, u: Applied) {
    && RecordedAs(st.db, u.taskId, u.historyId) && u.historyId in st.readings
    && st.readings[u.historyId].wrote < u.at < |events|
    && StepOf(events, st.readings[u.historyId].call, u.at)
  }

  ghost predicate Trail(events: seq<Event>, st: State) {
    && st.step == |events|
    && UpdatesDistinct(st.updates)
    && (forall u :: u in st.updates ==> Preceded(events, st, u))
    && (forall k :: k in st.flights ==> Unused(st, k, st.flights[k].op))
    && (forall j, k :: j in st.flights && k in st.flights && j != k ==> OwnRows(st.flights[j].op, st.flights[k].op))
  }

  /** History and readings only grow. */
  ghost predicate Extends(st: State, after: State) {
    && (forall h :: h in st.db.history ==> h in after.db.history)
    && (forall id :: id in st.readings && (exists h :: h in st.db.history && h.id == id) ==>
          id in after.readings && after.readings[id] == st.readings[id])
    && st.step <= after.step
  }

  lemma StepExtends(s: Settings, st: State, e: Event)
    requires Enabled(st, e) && WellKeyed(st.db)
    ensures Extends(st, Step(s, st, e))
  {
    hide Step, Enabled, WellKeyed, NextId;
    HistoryAfter(s, st, e);
    StepCounts(s, st, e);
    if Records(st, e) {
      forall h | h in st.db.history
        ensures h.id != e.reply.newId
      {
        RecordedIsOld(st.db, h, e.reply.newId);
      }
    }
  }

  lemma PrecededLater(events: seq<Event>, e: Event, st: State, after: State, u: Applied)
    requires Preceded(events, st, u) && Extends(st, after)
    ensures Preceded(events + [e], after, u)
  {
    var h :| h in st.db.history && h.id == u.historyId && h.taskId == u.taskId;
    assert h in after.db.history;
  }

  lemma OwnRowLater(st: State, after: State, k: nat, op: Op)
    requires op.EditUpdate? && OwnRow(st, k, op) && Extends(st, after)
    ensures OwnRow(after, k, op)
  {
    var h :| h in st.db.history && h.id == op.historyId && Shows(h, op.row) && h.taskId == op.edit.taskId;
    assert h in after.db.history;
  }

  /** The updates after a step, and the row a call has just inserted. */
  lemma UpdatesAfter(s: Settings, st: State, k: nat, r: Reply)
    requires Enabled(st, Advance(k, r))
    ensures var after := Step(s, st, Advance(k, r));
            var op := st.flights[k].op;
            && (if op.EditUpdate? && !r.fault.LostBefore?
                then after.updates == st.updates + [Applied(op.edit.taskId, op.historyId, st.step)]
                else after.updates == st.updates)
            && (after.flights[k].op.EditUpdate? ==>
                  && Records(st, Advance(k, r)) && !op.EditUpdate?
                  && after.flights[k].op == EditUpdate(op.edit, op.row, op.readAt, r.newId))
  {
    hide CacheAfter, SpansAfter, WriteTables, IsMember, CountsAsAffected, IsPartOfTeamByTask, CanInvite;
  }

  lemma UpdatesStayPreceded(events: seq<Event>, e: Event, st: State, after: State, k: nat, op: Op)
    requires Trail(events, st) && Extends(st, after) && Unused(st, k, op) && after.step == |events| + 1
    requires e.Advance? && e.flight == k
    requires after.updates == st.updates ||
             (op.EditUpdate? && after.updates == st.updates + [Applied(op.edit.taskId, op.historyId, st.step)])
    ensures UpdatesDistinct(after.updates)
    ensures forall u :: u in after.updates ==> Preceded(events + [e], after, u)
  {
    forall u | u in st.updates
      ensures Preceded(events + [e], after, u)
    {
      PrecededLater(events, e, st, after, u);
    }
    if op.EditUpdate? {
      NewUpdatePreceded(events, e, st, after, k, op);
    }
  }

  lemma NewUpdatePreceded(events: seq<Event>, e: Event, st: State, after: State, k: nat, op: Op)
    requires op.EditUpdate? && OwnRow(st, k, op) && Extends(st, after) && st.step == |events|
    requires e.Advance? && e.flight == k
    ensures Preceded(events + [e], after, Applied(op.edit.taskId, op.historyId, st.step))
  {
    assert (events + [e])[|events|] == e;
    var h :| h in st.db.history && h.id == op.historyId && Shows(h, op.row) && h.taskId == op.edit.taskId;
    assert h in after.db.history;
  }

  lemma InsertedIsUnused(events: seq<Event>, st: State, after: State, e: Event)
    requires Trail(events, st) && WellKeyed(st.db) && Records(st, e) && after.updates == st.updates
    requires st.flights[e.flight].op.row.id == st.flights[e.flight].op.edit.taskId
    requires after.step == st.step + 1
    requires var fl := st.flights[e.flight];
             var h := SnapshotOf(fl.op.row, e.reply.newId, fl.op.edit.userId, fl.op.changedAt);
             && after.db == InsertHistory(st.db, h) && NextId(st.db.history, SNAPSHOT_ID, h.id)
             && after.readings == st.readings[h.id := Span(e.flight, fl.began, fl.op.readAt, st.step)]
    ensures var op := st.flights[e.flight].op;
            Unused(after, e.flight, EditUpdate(op.edit, op.row, op.readAt, e.reply.newId))
  {
    var op := st.flights[e.flight].op;
    var h := SnapshotOf(op.row, e.reply.newId, op.edit.userId, op.changedAt);
    assert h in after.db.history && Shows(h, op.row);
    hide WellKeyed, NextId;
    forall u | u in st.updates
      ensures u.historyId != e.reply.newId
    {
      assert Preceded(events, st, u);
      var g :| g in st.db.history && g.id == u.historyId && g.taskId == u.taskId;
      RecordedIsOld(st.db, g, e.reply.newId);
    }
  }

  /** What a step of call k leaves to another call. */
  lemma OthersUnused(events: seq<Event>, st: State, after: State, k: nat, r: Reply, j: nat)
    requires Trail(events, st) && WellKeyed(st.db) && Extends(st, after)
    requires j in st.flights && k in st.flights && j != k && k in after.flights
    requires after.updates == st.updates ||
             (st.flights[k].op.EditUpdate?
              && after.updates
                   == st.updates + [Applied(st.flights[k].op.edit.taskId, st.flights[k].op.historyId, st.step)])
    requires after.flights[k].op.EditUpdate? ==>
               after.flights[k].op.historyId == r.newId && NextId(st.db.history, SNAPSHOT_ID, r.newId)
    ensures Unused(after, j, st.flights[j].op)
    ensures OwnRows(after.flights[k].op, st.flights[j].op)
  {
    var op := st.flights[j].op;
    if op.EditUpdate? {
      assert Unused(st, j, op) && OwnRows(op, st.flights[k].op);
      hide Trail, WellKeyed, NextId, Shows;
      OwnRowLater(st, after, j, op);
      if after.flights[k].op.EditUpdate? {
        var h :| h in st.db.history && h.id == op.historyId && Shows(h, op.row) && h.taskId == op.edit.taskId;
        RecordedIsOld(st.db, h, r.newId);
      }
    }
  }

  lemma OwnRowsElsewhere(events: seq<Event>, st: State, after: State, k: nat)
    requires Trail(events, st) && k in st.flights && after.flights.Keys == st.flights.Keys
    requires forall j :: j in st.flights && j != k ==> after.flights[j] == st.flights[j]
    requires forall j :: j in after.flights && j != k ==> OwnRows(after.flights[k].op, after.flights[j].op)
    ensures forall i, j :: i in after.flights && j in after.flights && i != j ==>
              OwnRows(after.flights[i].op, after.flights[j].op)
  {
    forall i, j | i in after.flights && j in after.flights && i != j
      ensures OwnRows(after.flights[i].op, after.flights[j].op)
    {
      if j == k {
        assert OwnRows(after.flights[k].op, after.flights[i].op);
      }
    }
  }

  lemma AdvanceTrail(s: Settings, events: seq<Event>, st: State, k: nat, r: Reply)
    requires Trail(events, st) && WellKeyed(st.db) && AllCarryKnown(st) && Enabled(st, Advance(k, r))
    ensures Trail(events + [Advance(k, r)], Step(s, st, Advance(k, r)))
  {
    hide Step, Enabled, WellKeyed, NextId, Extends, Agreement.Known, Unused, OwnRows, Preceded, UpdatesDistinct, NextOp,
        FindTask;
    FlightMoves(st, k, r);
    var e := Advance(k, r);
    var op := st.flights[k].op;
    var after := Step(s, st, e);
    assert CarriesKnown(st.db, op) && Unused(st, k, op);
    StepExtends(s, st, e);
    HistoryAfter(s, st, e);
    UpdatesAfter(s, st, k, r);
    OnlyMoves(s, st, k, r);
    UpdatesStayPreceded(events, e, st, after, k, op);
    if after.flights[k].op.EditUpdate? {
      InsertedIsUnused(events, st, after, e);
    } else {
      NothingUnused(after, k, after.flights[k].op);
    }
    forall j | j in after.flights && j != k
      ensures Unused(after, j, after.flights[j].op)
      ensures OwnRows(after.flights[k].op, after.flights[j].op)
    {
      OthersUnused(events, st, after, k, r, j);
    }
    OwnRowsElsewhere(events, st, after, k);
  }

  lemma NothingUnused(st: State, k: nat, op: Op)
    requires !op.EditUpdate?
    ensures Unused(st, k, op)
  {}

  lemma OtherTrail(s: Settings, events: seq<Event>, st: State, e: Event)
    requires Trail(events, st) && !e.Advance? && Enabled(st, e)
    ensures Trail(events + [e], Step(s, st, e))
  {
    var after := Step(s, st, e);
    assert Extends(st, after);
    forall u | u in after.updates
      ensures Preceded(events + [e], after, u)
    {
      PrecededLater(events, e, st, after, u);
    }
    forall k | k in after.flights
      ensures Unused(after, k, after.flights[k].op)
    {
      if k in st.flights {
        assert Unused(st, k, st.flights[k].op);
        if st.flights[k].op.EditUpdate? {
          OwnRowLater(st, after, k, st.flights[k].op);
        }
      }
    }
  }

  lemma {:induction false} TrailHolds(s: Settings, events: seq<Event>)
    requires s.ttl > 0 && Legal(s, events)
    ensures Trail(events, Replay(s, events))
  {
    if events != [] {
      var init, e := events[..|events| - 1], events[|events| - 1];
      assert events == init + [e];
      TrailHolds(s, init);
      CacheStaysKnown(s, init);
      hide Trail, Step, Enabled, WellKeyed, AllCarryKnown;
      match e {
        case Advance(k, r) => AdvanceTrail(s, init, Replay(s, init), k, r);
        case _ => OtherTrail(s, init, Replay(s, init), e);
      }
    }
  }

  function UpdatesOf(updates: seq<Applied>, taskId: int): seq<Applied> {
    if updates == [] then []
    else
      var last := updates[|updates| - 1];
      UpdatesOf(updates[..|updates| - 1], taskId) + if last.taskId == taskId then [last] else []
  }

  lemma {:induction false} UpdatesOfIn(updates: seq<Applied>, taskId: int, u: Applied)
    ensures u in UpdatesOf(updates, taskId) <==> u in updates && u.taskId == taskId
  {
    if updates != [] {
      var init, last := updates[..|updates| - 1], updates[|updates| - 1];
      assert updates == init + [last];
      UpdatesOfIn(init, taskId, u);
    }
  }

  lemma {:induction false} UpdatesOfDistinct(updates: seq<Applied>, taskId: int)
    requires UpdatesDistinct(updates)
    ensures UpdatesDistinct(UpdatesOf(updates, taskId))
  {
    if updates != [] {
      var init, last := updates[..|updates| - 1], updates[|updates| - 1];
      UpdatesOfDistinct(init, taskId);
      var kept := UpdatesOf(init, taskId);
      forall i | 0 <= i < |kept|
        ensures kept[i].historyId != last.historyId
      {
        UpdatesOfIn(init, taskId, kept[i]);
        var j :| 0 <= j < |init| && init[j] == kept[i];
        assert updates[j].historyId != updates[|updates| - 1].historyId;
      }
    }
  }

  /** Distinct ids that all occur among the rows are no more than the rows. */
  lemma {:induction false} DistinctFit(updates: seq<Applied>, rows: seq<Snapshot>)
    requires UpdatesDistinct(updates)
    requires forall u :: u in updates ==> exists h :: h in rows && h.id == u.historyId
    ensures |updates| <= |rows|
    decreases |updates|
  {
    if updates != [] {
      var init, last := updates[..|updates| - 1], updates[|updates| - 1];
      var h :| h in rows && h.id == last.historyId;
      var i :| 0 <= i < |rows| && rows[i] == h;
      var rest := rows[..i] + rows[i + 1..];
      forall u | u in init
        ensures exists g :: g in rest && g.id == u.historyId
      {
        RowElsewhere(updates, rows, u, i, last);
      }
      DistinctFit(init, rest);
    }
  }

  lemma RowElsewhere(updates: seq<Applied>, rows: seq<Snapshot>, u: Applied, i: nat, last: Applied)
    requires updates != [] && UpdatesDistinct(updates) && last == updates[|updates| - 1]
             && u in updates[..|updates| - 1]
    requires i < |rows| && rows[i].id == last.historyId
    requires exists h :: h in rows && h.id == u.historyId
    ensures exists g :: g in rows[..i] + rows[i + 1..] && g.id == u.historyId
  {
    var g :| g in rows && g.id == u.historyId;
    var j :| 0 <= j < |rows| && rows[j] == g;
    var a :| 0 <= a < |updates| - 1 && updates[a] == u;
    assert updates[a].historyId != updates[|updates| - 1].historyId;
    var rest := rows[..i] + rows[i + 1..];
    assert rest[if j < i then j else j - 1] == g;
  }

  /** Every update that took effect has its own history row, which the same call inserted at an earlier
      position of the run; so a task never has fewer history rows than updates. */
  lemma HistoryCoversUpdates(s: Settings, events: seq<Event>, taskId: int)
    requires s.ttl > 0 && Legal(s, events)
    ensures var st := Replay(s, events);
            && UpdatesDistinct(st.updates)
            && (forall u :: u in st.updates ==>
                  && RecordedAs(st.db, u.taskId, u.historyId) && u.historyId in st.readings
                  && st.readings[u.historyId].wrote < u.at < |events|
                  && StepOf(events, st.readings[u.historyId].call, u.at))
            && |UpdatesOf(st.updates, taskId)| <= |HistoryOf(st.db, taskId)|
  {
    TrailHolds(s, events);
    var st := Replay(s, events);
    var mine := UpdatesOf(st.updates, taskId);
    hide Legal, Replay;
    assert forall u :: u in st.updates ==> Preceded(events, st, u);
    UpdatesOfDistinct(st.updates, taskId);
    forall u | u in mine
      ensures exists h :: h in HistoryOf(st.db, taskId) && h.id == u.historyId
    {
      UpdatesOfIn(st.updates, taskId, u);
      assert Preceded(events, st, u);
      var h :| h in st.db.history && h.id == u.historyId && h.taskId == u.taskId;
      OfTaskIn(st.db.history, SNAPSHOT_TASK, taskId, h);
    }
    DistinctFit(mine, HistoryOf(st.db, taskId));
  }
}
