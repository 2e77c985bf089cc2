/** The history table together with the current row tells every version a task ever had. */
module VersionHistory {
  import opened Model
  import opened Tables
  import opened Operations
  import opened Serial
  import Agreement
  import Coherence
  import TaskCache

  /** A sequence with runs of equal neighbours reduced to one. */
  function Collapse<T(==)>(s: seq<T>): seq<T> {
    if |s| <= 1 then s
    else
      var front := Collapse(s[..|s| - 1]);
      if s[|s| - 1] == s[|s| - 2] then front else front + [s[|s| - 1]]
  }

  /** Collapsing removes neighbours only: nothing but equal neighbours goes, and none are left. */
  lemma {:induction false} CollapseExtend<T>(s: seq<T>, x: T)
    ensures Collapse(s + [x]) == if s != [] && s[|s| - 1] == x then Collapse(s) else Collapse(s) + [x]
    ensures s != [] ==> Collapse(s) != [] && Collapse(s)[|Collapse(s)| - 1] == s[|s| - 1]
    decreases |s|
  {
    assert (s + [x])[..|s|] == s;
    if |s| > 1 {
      CollapseExtend(s[..|s| - 1], s[|s| - 1]);
    }
  }

  /** The versions recorded for a task, oldest first. */
  function Recorded(db: Db, taskId: int): seq<Version> {
    SnapshotVersions(HistoryOf(db, taskId))
  }

  function SnapshotVersions(rows: seq<Snapshot>): (vs: seq<Version>)
    ensures |vs| == |rows| && forall i :: 0 <= i < |rows| ==> vs[i] == SnapshotVersion(rows[i])
  {
    seq(|rows|, i requires 0 <= i < |rows| => SnapshotVersion(rows[i]))
  }

  function CurrentVersion(db: Db, taskId: int): Option<Version> {
    match FindTask(db.tasks, taskId)
    case None => None
    case Some(t) => Some(VersionOf(t))
  }

  /** The version of the task at the start of the run and after each call, for as long as it exists. */
  function Lifetime(s: Settings, w: World, calls: seq<Call>, taskId: int): seq<Version> {
    var now := CurrentVersion(Run(s, w, calls).db, taskId);
    var held := if now.Some? then [now.value] else [];
    if calls == [] then held else Lifetime(s, w, calls[..|calls| - 1], taskId) + held
  }

  /** History in id order, then the current row. */
  function Told(db: Db, taskId: int): seq<Version> {
    var now := CurrentVersion(db, taskId);
    Recorded(db, taskId) + if now.Some? then [now.value] else []
  }

  lemma {:induction false} FindInAppended(rows: seq<Task>, t: Task, id: int)
    requires forall x :: x in rows ==> x.id != t.id
    ensures FindTask(rows + [t], id) == if id == t.id then Some(t) else FindTask(rows, id)
  {
    if rows != [] {
      assert (rows + [t])[1..] == rows[1..] + [t];
      FindInAppended(rows[1..], t, id);
    } else {
      assert (rows + [t])[1..] == [];
    }
  }

  lemma FindUpdated(db: Db, id: int, c: Change, taskId: int)
    requires WellKeyed(db)
    ensures FindTask(UpdateTask(db, id, c).tasks, taskId) ==
            match FindTask(db.tasks, taskId)
            case None => None
            case Some(t) => Some(if t.id == id then Apply(t, c) else t)
  {
    UpdateKeepsKeys(db, id, c);
    var found := FindTask(db.tasks, taskId);
    var after := UpdateTask(db, id, c);
    if found.Some? {
      var t' := if taskId == id then Apply(found.value, c) else found.value;
      UpdatedRow(db, id, c, t');
      TaskIsUnique(after, FindTask(after.tasks, taskId).value, t');
    } else if FindTask(after.tasks, taskId).Some? {
      UpdatedRow(db, id, c, FindTask(after.tasks, taskId).value);
    }
  }

  lemma RecordedAppend(db: Db, h: Snapshot, taskId: int)
    ensures Recorded(InsertHistory(db, h), taskId) ==
            Recorded(db, taskId) + if h.taskId == taskId then [SnapshotVersion(h)] else []
  {
    OfTaskAppend(db.history, SNAPSHOT_TASK, taskId, h);
  }

  /** What one call does to a task's recorded and current versions: nothing; or it creates the task; or
      it records the version that is current; or it records it and then replaces it. */
  ghost predicate Moves(before: Db, after: Db, taskId: int) {
    var was, next := CurrentVersion(before, taskId), CurrentVersion(after, taskId);
    || (Recorded(after, taskId) == Recorded(before, taskId) && next == was)
    || (Recorded(after, taskId) == Recorded(before, taskId) && was.None? && next.Some?)
    || (was.Some? && next.Some? && Recorded(after, taskId) == Recorded(before, taskId) + [was.value])
  }

  lemma EditMoves(s: Settings, w: World, inp: EditInput, f: EditFaults, historyId: int, taskId: int)
    requires Sound(s, w)
    ensures Moves(w.db, EditCall(w.db, w.cache, w.now, s, inp, f, historyId).db, taskId)
  {
    var found := FindTask(w.db.tasks, inp.taskId);
    if found.Some? {
      var h := SnapshotOf(found.value, historyId, inp.userId, w.now);
      RecordedAppend(w.db, h, taskId);
      FindUpdated(w.db, inp.taskId, inp.change, taskId);
      EditReach(w.db, w.cache, w.now, s, inp, f, historyId);
      assert UpdateTask(InsertHistory(w.db, h), inp.taskId, inp.change).tasks
          == UpdateTask(w.db, inp.taskId, inp.change).tasks;
    }
  }

  lemma CreateMoves(s: Settings, w: World, inp: CreateInput, f: WriteFaults, newId: int, taskId: int)
    requires Sound(s, w) && NextId(w.db.tasks, TASK_ID, newId)
    ensures Moves(w.db, CreateCall(w.db, w.now, inp, f, newId).db, taskId)
  {
    var t := NewTask(inp, newId, w.now);
    forall x | x in w.db.tasks
      ensures x.id != t.id
    {
      var i :| 0 <= i < |w.db.tasks| && w.db.tasks[i] == x;
      assert i < |w.db.tasks| - 1 ==> TASK_ID(w.db.tasks[i]) < TASK_ID(w.db.tasks[|w.db.tasks| - 1]);
      assert TASK_ID(w.db.tasks[|w.db.tasks| - 1]) < newId;
    }
    FindInAppended(w.db.tasks, t, taskId);
  }

  lemma StepMoves(s: Settings, w: World, call: Call, taskId: int)
    requires Sound(s, w) && Possible(w, call)
    ensures Moves(w.db, Step(s, w, call).db, taskId)
  {
    hide Sound, EditCall, ListCall, IsMember, IsPartOfTeamByTask;
    match call {
      case Edit(inp, f, historyId) => EditMoves(s, w, inp, f, historyId, taskId);
      case Create(inp, f, newId) => CreateMoves(s, w, inp, f, newId, taskId);
      case _ =>
    }
  }

  /** A recorded version belongs to a task that exists. */
  ghost predicate NoOrphans(db: Db, taskId: int) {
    CurrentVersion(db, taskId).None? ==> Recorded(db, taskId) == []
  }

  lemma MoveIsTold(before: Db, after: Db, taskId: int, lived: seq<Version>)
    requires Moves(before, after, taskId) && NoOrphans(before, taskId)
    requires Collapse(Told(before, taskId)) == Collapse(lived)
    requires CurrentVersion(before, taskId).None? ==> lived == []
    requires CurrentVersion(before, taskId).Some? ==>
               lived != [] && lived[|lived| - 1] == CurrentVersion(before, taskId).value
    ensures var next := CurrentVersion(after, taskId);
            var lives := lived + if next.Some? then [next.value] else [];
            Collapse(Told(after, taskId)) == Collapse(lives) && NoOrphans(after, taskId)
  {
    var was, next := CurrentVersion(before, taskId), CurrentVersion(after, taskId);
    if next.Some? {
      CollapseExtend(lived, next.value);
      CollapseExtend(Recorded(before, taskId), next.value);
      if was.Some? {
        assert Told(before, taskId) == Recorded(before, taskId) + [was.value];
        CollapseExtend(Told(before, taskId), next.value);
        assert Told(after, taskId) == Recorded(after, taskId) + [next.value];
      } else {
        assert Told(before, taskId) == [];
        assert Told(after, taskId) == [next.value] && lived + [next.value] == [next.value];
      }
    } else {
      assert lived + [] == lived;
    }
  }

  lemma {:induction false} LifetimeEnds(s: Settings, w: World, calls: seq<Call>, taskId: int)
    requires s.ttl > 0 && Sound(s, w) && Legal(s, w, calls) && CurrentVersion(w.db, taskId).None?
    ensures var next := CurrentVersion(Run(s, w, calls).db, taskId);
            var lived := Lifetime(s, w, calls, taskId);
            if next.None? then lived == [] else lived != [] && lived[|lived| - 1] == next.value
  {
    if calls != [] {
      var init := calls[..|calls| - 1];
      LifetimeEnds(s, w, init, taskId);
      RunIsSound(s, w, init);
      StepMoves(s, Run(s, w, init), calls[|calls| - 1], taskId);
    }
  }

  /** No version is lost: over any serial run, with failures anywhere, a task's history in id order followed
      by its current row is, up to repeated neighbours, the sequence of all versions it ever had. */
  lemma {:induction false} NoVersionLost(s: Settings, start: int, calls: seq<Call>, taskId: int)
    requires s.ttl > 0 && Legal(s, Start(start), calls)
    ensures Collapse(Told(Run(s, Start(start), calls).db, taskId)) == Collapse(Lifetime(s, Start(start), calls, taskId))
    ensures NoOrphans(Run(s, Start(start), calls).db, taskId)
  {
    var w := Start(start);
    assert Recorded(EMPTY, taskId) == [];
    if calls != [] {
      var init := calls[..|calls| - 1];
      NoVersionLost(s, start, init, taskId);
      StartIsSound(s, start);
      RunIsSound(s, w, init);
      StepMoves(s, Run(s, w, init), calls[|calls| - 1], taskId);
      LifetimeEnds(s, w, init, taskId);
      MoveIsTold(Run(s, w, init).db, Run(s, w, calls).db, taskId, Lifetime(s, w, init, taskId));
    }
  }

  /** When an edit is reported a success: nothing on its way failed, the task is there, the editor is in its
      team, and, unless MySQL counts matched rows, the change changes something.  An edit that changes
      nothing is refused by the default count, with its history row already written. */
  lemma EditSucceedsIff(s: Settings, w: World, inp: EditInput, f: EditFaults, historyId: int)
    requires Sound(s, w)
    ensures EditCall(w.db, w.cache, w.now, s, inp, f, historyId).result.Ok? <==>
              && f.get.Fine? && f.check.Fine? && f.history.Fine? && f.update.Fine?
              && FindTask(w.db.tasks, inp.taskId).Some? && IsPartOfTeamByTask(w.db, inp.userId, inp.taskId)
              && var row := FindTask(w.db.tasks, inp.taskId).value;
                 s.clientFoundRows || Apply(row, inp.change) != row
    ensures var o := EditCall(w.db, w.cache, w.now, s, inp, f, historyId);
            !o.result.Ok? && Coherence.Updates(w, inp, f) ==> |o.db.history| == |w.db.history| + 1
  {
    hide Agreement.CacheKnown, TaskCache.Fill, IsPartOfTeamByTask;
    var found := FindTask(w.db.tasks, inp.taskId);
    if found.Some? {
      EditedRow(w.db, inp.taskId, inp.change, historyId, inp.userId, w.now);
      var recorded := InsertHistory(w.db, SnapshotOf(found.value, historyId, inp.userId, w.now));
      assert found.value in recorded.tasks;
    }
  }
}
