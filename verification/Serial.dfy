/** Serial runs: one executor call at a time, any inner call may fail, time passes in between. */
module Serial {
  import opened Model
  import opened Tables
  import opened TaskCache
  import opened Operations
  import opened Agreement
  import Paging
  import SqlQuery

  datatype World = World(db: Db, cache: Cache, now: int)

  datatype Call =
    | Create(create: CreateInput, writeFaults: WriteFaults, newId: int)
    | List(list: ListInput, listFaults: ListFaults)
    | Edit(edit: EditInput, editFaults: EditFaults, historyId: int)
    | Comments(comment: CommentInput, writeFaults: WriteFaults, newId: int)
    | Invite(invite: InviteInput, writeFaults: WriteFaults, newId: int)
    | NewTeam(name: string, userId: int, teamId: int, memberId: int, teamFaults: TeamFaults)
    | Tick(duration: nat)

  /** The ids handed out are the engine's to choose, but always new ones. */
  predicate Possible(w: World, call: Call) {
    match call
    case Create(_, _, newId) => NextId(w.db.tasks, TASK_ID, newId)
    case Edit(_, _, historyId) => NextId(w.db.history, SNAPSHOT_ID, historyId)
    case Comments(_, _, newId) => NextId(w.db.comments, COMMENT_ID, newId)
    case Invite(_, _, newId) => newId > w.db.memberSeq
    case NewTeam(_, _, teamId, memberId, _) => teamId > w.db.teamSeq && memberId > w.db.memberSeq
    case List(_, _) => true
    case Tick(_) => true
  }

  function Step(s: Settings, w: World, call: Call): World {
    match call
    case Create(inp, f, newId) => w.(db := CreateCall(w.db, w.now, inp, f, newId).db)
    case List(inp, f) => w.(cache := ListCall(w.db, w.cache, w.now, s.ttl, inp, f).cache)
    case Edit(inp, f, historyId) =>
      var o := EditCall(w.db, w.cache, w.now, s, inp, f, historyId);
      w.(db := o.db, cache := o.cache)
    case Comments(inp, f, newId) => w.(db := CommentCall(w.db, w.now, inp, f, newId).db)
    case Invite(inp, f, newId) => w.(db := InviteCall(w.db, inp, f, newId).db)
    case NewTeam(name, userId, teamId, memberId, f) =>
      w.(db := CreateTeamTables(w.db, name, userId, teamId, memberId, f))
    case Tick(d) => w.(now := w.now + d)
  }

  function Start(now: int): World {
    World(EMPTY, EMPTY_CACHE, now)
  }

  function Run(s: Settings, w: World, calls: seq<Call>): World {
    if calls == [] then w else Step(s, Run(s, w, calls[..|calls| - 1]), calls[|calls| - 1])
  }

  ghost predicate Legal(s: Settings, w: World, calls: seq<Call>) {
    calls != [] ==>
      Legal(s, w, calls[..|calls| - 1]) && Possible(Run(s, w, calls[..|calls| - 1]), calls[|calls| - 1])
  }

  // ---------------------------------------------------------------------------
  // What every call keeps

  ghost predicate Sound(s: Settings, w: World) {
    WellKeyed(w.db) && CacheKnown(w.db, w.cache, w.now, s.ttl)
  }

  lemma {:induction false} MatchingKnown(db: Db, inp: ListInput, t: Task)
    requires t in Paging.Take(FetchForList(db, inp), Paging.DEFAULT_LIMIT)
    ensures t in db.tasks && t.teamId == inp.teamId && Known(db, t)
  {
    SqlQuery.MatchingIn(db.tasks, inp.teamId, inp.status, inp.assigneeId, inp.startFromId, t);
    assert SameIdentity(t, t);
  }

  lemma ListKeepsSound(s: Settings, w: World, inp: ListInput, f: ListFaults)
    requires s.ttl > 0 && Sound(s, w)
    ensures Sound(s, w.(cache := ListCall(w.db, w.cache, w.now, s.ttl, inp, f).cache))
  {
    hide Fill, CacheKnown, FetchForList, CachedPage;
    var tasks := Paging.Take(FetchForList(w.db, inp), Paging.DEFAULT_LIMIT);
    forall t | t in tasks
      ensures Known(w.db, t) && t.teamId == inp.teamId
    {
      MatchingKnown(w.db, inp, t);
    }
    FillKnown(w.db, w.cache, w.now, s.ttl, inp.teamId, tasks, f.ran);
  }

  /** The row an edit leaves behind, and that the cache is given, is the read row with the change. */
  lemma EditedRow(db: Db, id: int, c: Change, historyId: int, userId: int, now: int)
    requires WellKeyed(db) && FindTask(db.tasks, id).Some?
    ensures var row := FindTask(db.tasks, id).value;
            var recorded := InsertHistory(db, SnapshotOf(row, historyId, userId, now));
            && Apply(row, c) in UpdateTask(recorded, id, c).tasks
            && forall found :: CountsAsAffected(recorded, id, c, found) <==> found || Apply(row, c) != row
  {
    var row := FindTask(db.tasks, id).value;
    var recorded := InsertHistory(db, SnapshotOf(row, historyId, userId, now));
    UpdatedRow(recorded, id, c, Apply(row, c));
    assert row in recorded.tasks;
    forall t | t in recorded.tasks && t.id == id
      ensures t == row
    {
      TaskIsUnique(db, t, row);
    }
  }

  /** The tables an edit can leave: as they were, with a history row more, or with that and the update. */
  lemma EditReach(db: Db, c: Cache, now: int, s: Settings, inp: EditInput, f: EditFaults, historyId: int)
    ensures var o := EditCall(db, c, now, s, inp, f, historyId).db;
            if FindTask(db.tasks, inp.taskId).None? then o == db
            else
              var recorded := InsertHistory(db,
                  SnapshotOf(FindTask(db.tasks, inp.taskId).value, historyId, inp.userId, now));
              o == db || o == recorded || o == UpdateTask(recorded, inp.taskId, inp.change)
  {
    hide IsPartOfTeamByTask, CountsAsAffected, Put, UpdateTask, InsertHistory;
  }

  lemma EditTables(db: Db, c: Cache, now: int, s: Settings, inp: EditInput, f: EditFaults, historyId: int)
    requires WellKeyed(db) && NextId(db.history, SNAPSHOT_ID, historyId)
    ensures var o := EditCall(db, c, now, s, inp, f, historyId);
            WellKeyed(o.db) && KeepsRows(db, o.db)
  {
    hide EditCall, WellKeyed, KeepsRows, UpdateTask, InsertHistory;
    SameTasksKeepsRows(db, db);
    EditReach(db, c, now, s, inp, f, historyId);
    if FindTask(db.tasks, inp.taskId).Some? {
      RecordedAndUpdated(db, SnapshotOf(FindTask(db.tasks, inp.taskId).value, historyId, inp.userId, now), inp.taskId,
          inp.change);
    }
  }

  lemma RecordedAndUpdated(db: Db, h: Snapshot, id: int, c: Change)
    requires WellKeyed(db) && NextId(db.history, SNAPSHOT_ID, h.id)
    ensures var recorded := InsertHistory(db, h);
            && WellKeyed(recorded) && KeepsRows(db, recorded)
            && WellKeyed(UpdateTask(recorded, id, c)) && KeepsRows(db, UpdateTask(recorded, id, c))
  {
    var recorded := InsertHistory(db, h);
    AppendKeepsKeys(db.history, SNAPSHOT_ID, h);
    SameTasksKeepsRows(db, recorded);
    UpdateKeepsKeys(recorded, id, c);
    UpdateKeepsRows(recorded, id, c);
  }

  lemma EditKeepsSound(s: Settings, w: World, inp: EditInput, f: EditFaults, historyId: int)
    requires s.ttl > 0 && Sound(s, w) && NextId(w.db.history, SNAPSHOT_ID, historyId)
    ensures var o := EditCall(w.db, w.cache, w.now, s, inp, f, historyId);
            Sound(s, w.(db := o.db, cache := o.cache))
  {
    var o := EditCall(w.db, w.cache, w.now, s, inp, f, historyId);
    EditTables(w.db, w.cache, w.now, s, inp, f, historyId);
    hide CacheKnown, KeepsRows, Fill, UpdateTask, IsPartOfTeamByTask, CountsAsAffected, WellKeyed;
    TablesMoveOn(w.db, o.db, w.cache, w.now, s.ttl);
    if o.cache != w.cache {
      var row := FindTask(w.db.tasks, inp.taskId).value;
      EditedRow(w.db, inp.taskId, inp.change, historyId, inp.userId, w.now);
      assert SameIdentity(Apply(row, inp.change), Apply(row, inp.change));
      FillKnown(o.db, w.cache, w.now, s.ttl, row.teamId, [Apply(row, inp.change)], 3);
    }
  }

  lemma CreateKeepsSound(s: Settings, w: World, inp: CreateInput, f: WriteFaults, newId: int)
    requires Sound(s, w) && NextId(w.db.tasks, TASK_ID, newId)
    ensures Sound(s, w.(db := CreateCall(w.db, w.now, inp, f, newId).db))
  {
    hide CacheKnown, IsMember;
    var t := NewTask(inp, newId, w.now);
    AppendKeepsKeys(w.db.tasks, TASK_ID, t);
    InsertKeepsRows(w.db, t);
    TablesMoveOn(w.db, InsertTask(w.db, t), w.cache, w.now, s.ttl);
  }

  lemma CommentKeepsSound(s: Settings, w: World, inp: CommentInput, f: WriteFaults, newId: int)
    requires Sound(s, w) && NextId(w.db.comments, COMMENT_ID, newId)
    ensures Sound(s, w.(db := CommentCall(w.db, w.now, inp, f, newId).db))
  {
    hide CacheKnown, IsPartOfTeamByTask;
    var c := Comment(newId, w.now, inp.commenterId, inp.taskId, inp.text);
    AppendKeepsKeys(w.db.comments, COMMENT_ID, c);
    SameTasksKeepsRows(w.db, InsertComment(w.db, c));
    TablesMoveOn(w.db, InsertComment(w.db, c), w.cache, w.now, s.ttl);
  }

  lemma StepKeepsSound(s: Settings, w: World, call: Call)
    requires s.ttl > 0 && Sound(s, w) && Possible(w, call)
    ensures Sound(s, Step(s, w, call))
  {
    hide CacheKnown, WellKeyed, ListCall, EditCall;
    match call {
      case Create(inp, f, newId) => CreateKeepsSound(s, w, inp, f, newId);
      case List(inp, f) => ListKeepsSound(s, w, inp, f);
      case Edit(inp, f, historyId) => EditKeepsSound(s, w, inp, f, historyId);
      case Comments(inp, f, newId) => CommentKeepsSound(s, w, inp, f, newId);
      case Invite(inp, f, newId) => MembersOnly(s, w, InviteCall(w.db, inp, f, newId).db);
      case NewTeam(name, userId, teamId, memberId, f) =>
        MembersOnly(s, w, CreateTeamTables(w.db, name, userId, teamId, memberId, f));
      case Tick(d) => ClockMovesOn(w.db, w.cache, w.now, w.now + d, s.ttl);
    }
  }

  lemma MembersOnly(s: Settings, w: World, after: Db)
    requires Sound(s, w)
    requires after.tasks == w.db.tasks && after.history == w.db.history && after.comments == w.db.comments
    ensures Sound(s, w.(db := after))
  {
    SameTasksKeepsRows(w.db, after);
    TablesMoveOn(w.db, after, w.cache, w.now, s.ttl);
  }

  lemma {:induction false} RunIsSound(s: Settings, w: World, calls: seq<Call>)
    requires s.ttl > 0 && Sound(s, w) && Legal(s, w, calls)
    ensures Sound(s, Run(s, w, calls))
  {
    if calls != [] {
      var init := calls[..|calls| - 1];
      RunIsSound(s, w, init);
      StepKeepsSound(s, Run(s, w, init), calls[|calls| - 1]);
    }
  }

  lemma StartIsSound(s: Settings, now: int)
    ensures Sound(s, Start(now))
  {}

  lemma {:induction false} RunSplit(s: Settings, w: World, calls: seq<Call>, more: seq<Call>)
    ensures Run(s, w, calls + more) == Run(s, Run(s, w, calls), more)
    ensures Legal(s, w, calls + more) <==> Legal(s, w, calls) && Legal(s, Run(s, w, calls), more)
    decreases |more|
  {
    if more == [] {
      assert calls + more == calls;
    } else {
      assert (calls + more)[..|calls + more| - 1] == calls + more[..|more| - 1];
      RunSplit(s, w, calls, more[..|more| - 1]);
    }
  }
}
