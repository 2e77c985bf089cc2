/** What each call does, told in rows, columns and literals only: who is let through, which rows are written with
    what in them, what is answered, and what is left alone. */
module CallOutcomes {
  import opened Model
  import opened Paging
  import opened Tables
  import opened TaskCache
  import opened Operations
  import SqlQuery

  // ---------------------------------------------------------------------------
  // Rows of the members table

  /** The members table has a row of the user in the team. */
  ghost predicate OnRoster(db: Db, userId: int, teamId: int) {
    exists m :: m in db.members && m.userId == userId && m.teamId == teamId
  }

  /** And in the team of the task, if there is such a task. */
  ghost predicate OnTaskRoster(db: Db, userId: int, taskId: int) {
    exists t, m :: t in db.tasks && t.id == taskId && m in db.members && m.userId == userId && m.teamId == t.teamId
  }

  lemma PartOfTeamMeans(db: Db, userId: int, taskId: int)
    ensures IsPartOfTeamByTask(db, userId, taskId) <==> OnTaskRoster(db, userId, taskId)
  {
    if t, m :| t in db.tasks && t.id == taskId && m in db.members && m.userId == userId && m.teamId == t.teamId {
      assert IsMember(db, userId, t.teamId);
    }
  }

  // ---------------------------------------------------------------------------
  // Pages

  /** A page served from rows in id order: the first hundred above the cursor.  There is more exactly if some row
      above the cursor is left out, and the next cursor is then the least id left out. */
  lemma ServedFirst<T(!new)>(rows: seq<T>, id: T -> int, cursor: int)
    requires Ascending(rows, id)
    ensures var page := Serve(rows, id, cursor, DEFAULT_LIMIT);
            && |page.items| <= 100 && Ascending(page.items, id)
            && (forall row :: row in page.items ==> row in rows && id(row) > cursor)
            && (page.hasMore <==> exists row :: row in rows && id(row) > cursor && row !in page.items)
            && (page.hasMore ==>
                  && |page.items| == 100
                  && exists row :: row in rows && row !in page.items && id(row) == page.nextStartFromId > cursor)
            && (forall row :: row in rows && id(row) > cursor && row !in page.items ==>
                  id(row) >= page.nextStartFromId && forall given :: given in page.items ==> id(given) < id(row))
            && (!page.hasMore ==> page.nextStartFromId == 0)
  {
    var above := After(rows, id, cursor);
    var page := Serve(rows, id, cursor, DEFAULT_LIMIT);
    AfterAscending(rows, id, cursor);
    TakeAscending(above, id, DEFAULT_LIMIT);
    forall row: T
      ensures row in above <==> row in rows && id(row) > cursor
    {
      AfterIn(rows, id, cursor, row);
    }
    if page.hasMore {
      assert page.items == above[..DEFAULT_LIMIT];
      LeftOut(above, id, DEFAULT_LIMIT);
    } else {
      assert page.items == above;
    }
  }

  /** What lies beyond the first `n` of ascending rows. */
  lemma LeftOut<T(!new)>(rows: seq<T>, id: T -> int, n: nat)
    requires Ascending(rows, id) && n < |rows|
    ensures rows[n] in rows && rows[n] !in rows[..n]
    ensures forall row :: row in rows && row !in rows[..n] ==>
              id(row) >= id(rows[n]) && forall given :: given in rows[..n] ==> id(given) < id(row)
  {
    forall row | row in rows && row !in rows[..n]
      ensures id(row) >= id(rows[n]) && forall given :: given in rows[..n] ==> id(given) < id(row)
    {
      assert row in rows[..n] + rows[n..] by {
        assert rows[..n] + rows[n..] == rows;
      }
      var j :| 0 <= j < |rows[n..]| && rows[n..][j] == row;
      assert rows[n + j] == row;
    }
  }

  // ---------------------------------------------------------------------------
  // internal/task/comment/list, internal/task/history/list

  /** The first hundred comments of the task above the cursor. */
  ghost predicate ShowsComments(db: Db, taskId: int, startFromId: int, page: Page<Comment>) {
    && |page.items| <= 100
    && (forall i, j :: 0 <= i < j < |page.items| ==> page.items[i].id < page.items[j].id)
    && (forall c :: c in page.items ==> c in db.comments && c.taskId == taskId && c.id > startFromId)
    && (page.hasMore <==>
          exists c :: c in db.comments && c.taskId == taskId && c.id > startFromId && c !in page.items)
    && (page.hasMore ==>
          && |page.items| == 100
          && exists c :: c in db.comments && c.taskId == taskId && c !in page.items
                         && c.id == page.nextStartFromId > startFromId)
    && (forall c :: c in db.comments && c.taskId == taskId && c.id > startFromId && c !in page.items ==>
          c.id >= page.nextStartFromId && forall given :: given in page.items ==> given.id < c.id)
    && (!page.hasMore ==> page.nextStartFromId == 0)
  }

  /** Anyone may ask, whatever rows there are in the members table. */
  lemma CommentsOutcome(db: Db, taskId: int, startFromId: int, query: Fault)
    requires WellKeyed(db)
    ensures var r := CommentsCall(db, taskId, startFromId, query);
            (r.Ok? <==> query.Fine?) && (r.Ok? ==> ShowsComments(db, taskId, startFromId, r.value))
  {
    hide OfTask, Serve, WellKeyed;
    if query.Fine? {
      var page := Serve(CommentsOf(db, taskId), COMMENT_ID, startFromId, DEFAULT_LIMIT);
      CommentRows(db, taskId);
      ServedFirst(CommentsOf(db, taskId), COMMENT_ID, startFromId);
      forall i, j | 0 <= i < j < |page.items|
        ensures page.items[i].id < page.items[j].id
      {
        assert COMMENT_ID(page.items[i]) < COMMENT_ID(page.items[j]);
      }
    }
  }

  lemma CommentRows(db: Db, taskId: int)
    requires WellKeyed(db)
    ensures Ascending(CommentsOf(db, taskId), COMMENT_ID)
    ensures forall c: Comment :: c in CommentsOf(db, taskId) <==> c in db.comments && c.taskId == taskId
  {
    OfTaskKeepsKeys(db.comments, COMMENT_TASK, taskId, COMMENT_ID);
    forall c: Comment
      ensures c in CommentsOf(db, taskId) <==> c in db.comments && c.taskId == taskId
    {
      OfTaskIn(db.comments, COMMENT_TASK, taskId, c);
    }
  }

  /** The first hundred history rows of the task above the cursor, column by column. */
  ghost predicate ShowsHistory(db: Db, taskId: int, startFromId: int, page: Page<HistoryItem>, rows: seq<Snapshot>) {
    && |page.items| == |rows| <= 100
    && (forall i :: 0 <= i < |rows| ==>
          page.items[i] ==
          HistoryItem(id := rows[i].id, taskId := taskId, status := rows[i].status, title := rows[i].title,
                      description := rows[i].description, creatorId := rows[i].creatorId,
                      assigneeId := rows[i].assigneeId, teamId := rows[i].teamId,
                      changedBy := rows[i].changedBy, changedAt := rows[i].changedAt))
    && (forall i, j :: 0 <= i < j < |rows| ==> rows[i].id < rows[j].id)
    && (forall h :: h in rows ==> h in db.history && h.taskId == taskId && h.id > startFromId)
    && (page.hasMore <==> exists h :: h in db.history && h.taskId == taskId && h.id > startFromId && h !in rows)
    && (page.hasMore ==>
          && |rows| == 100
          && exists h :: h in db.history && h.taskId == taskId && h !in rows
                         && h.id == page.nextStartFromId > startFromId)
    && (forall h :: h in db.history && h.taskId == taskId && h.id > startFromId && h !in rows ==>
          h.id >= page.nextStartFromId && forall given :: given in rows ==> given.id < h.id)
    && (!page.hasMore ==> page.nextStartFromId == 0)
  }

  lemma HistoryOutcome(db: Db, userId: int, taskId: int, startFromId: int, check: Fault, query: Fault)
    returns (rows: seq<Snapshot>)
    requires WellKeyed(db)
    ensures var r := HistoryCall(db, userId, taskId, startFromId, check, query);
            && (r.Ok? <==> check.Fine? && query.Fine? && OnTaskRoster(db, userId, taskId))
            && (check.Fine? && !OnTaskRoster(db, userId, taskId) ==> r == Err("forbidden"))
            && (r.Ok? ==> ShowsHistory(db, taskId, startFromId, r.value, rows))
  {
    hide OfTask, Serve, IsPartOfTeamByTask, WellKeyed, OnTaskRoster;
    rows := Serve(HistoryOf(db, taskId), SNAPSHOT_ID, startFromId, DEFAULT_LIMIT).items;
    PartOfTeamMeans(db, userId, taskId);
    HistoryRows(db, taskId);
    ServedFirst(HistoryOf(db, taskId), SNAPSHOT_ID, startFromId);
    forall i, j | 0 <= i < j < |rows|
      ensures rows[i].id < rows[j].id
    {
      assert SNAPSHOT_ID(rows[i]) < SNAPSHOT_ID(rows[j]);
    }
  }

  lemma HistoryRows(db: Db, taskId: int)
    requires WellKeyed(db)
    ensures Ascending(HistoryOf(db, taskId), SNAPSHOT_ID)
    ensures forall h: Snapshot :: h in HistoryOf(db, taskId) <==> h in db.history && h.taskId == taskId
  {
    OfTaskKeepsKeys(db.history, SNAPSHOT_TASK, taskId, SNAPSHOT_ID);
    forall h: Snapshot
      ensures h in HistoryOf(db, taskId) <==> h in db.history && h.taskId == taskId
    {
      OfTaskIn(db.history, SNAPSHOT_TASK, taskId, h);
    }
  }

  lemma HistoryAnswered(db: Db, userId: int, taskId: int, startFromId: int, check: Fault, query: Fault)
    ensures var r := HistoryCall(db, userId, taskId, startFromId, check, query);
            && (r.Ok? <==> check.Fine? && query.Fine? && OnTaskRoster(db, userId, taskId))
            && (r.Ok? && WellKeyed(db) ==> exists rows :: ShowsHistory(db, taskId, startFromId, r.value, rows))
  {
    hide ShowsHistory, WellKeyed, IsPartOfTeamByTask, Serve;
    PartOfTeamMeans(db, userId, taskId);
    if WellKeyed(db) {
      var _ := HistoryOutcome(db, userId, taskId, startFromId, check, query);
    }
  }

  // ---------------------------------------------------------------------------
  // internal/task/create, internal/task/comment/create, internal/team/member/invite

  /** A task is created, with each column as given, exactly if the check gets through, the creator has a row in the
      team, and the INSERT is not lost on its way. */
  lemma CreateOutcomes(db: Db, now: int, inp: CreateInput, f: WriteFaults, newId: int)
    ensures var o := CreateCall(db, now, inp, f, newId);
            var member := OnRoster(db, inp.creatorId, inp.teamId);
            var t := Task(id := newId, status := inp.status, title := inp.title, description := inp.description,
                          creatorId := inp.creatorId, assigneeId := inp.assigneeId, teamId := inp.teamId,
                          createdAt := now);
            && o.db.tasks == db.tasks + (if f.check.Fine? && member && !f.insert.LostBefore? then [t] else [])
            && o.db == db.(tasks := o.db.tasks)
            && (o.result.Ok? <==> f.check.Fine? && member && f.insert.Fine?)
            && (o.result.Ok? ==> o.result.value == t)
            && (f.check.Fine? && !member ==> o.result == Err("forbidden"))
  {}

  lemma CommentOutcomes(db: Db, now: int, inp: CommentInput, f: WriteFaults, newId: int)
    ensures var o := CommentCall(db, now, inp, f, newId);
            var member := OnTaskRoster(db, inp.commenterId, inp.taskId);
            var c := Comment(id := newId, createdAt := now, commenterId := inp.commenterId, taskId := inp.taskId,
                             text := inp.text);
            && o.db.comments == db.comments + (if f.check.Fine? && member && !f.insert.LostBefore? then [c] else [])
            && o.db == db.(comments := o.db.comments)
            && (o.result.Ok? <==> f.check.Fine? && member && f.insert.Fine?)
            && (o.result.Ok? ==> o.result.value == newId)
            && (f.check.Fine? && !member ==> o.result == Err("forbidden"))
  {
    PartOfTeamMeans(db, inp.commenterId, inp.taskId);
    hide IsPartOfTeamByTask;
  }

  /** Owners and admins of a team, and nobody else, add whoever has no row in it yet, in the role they name. */
  lemma InviteOutcomes(db: Db, inp: InviteInput, f: WriteFaults, newId: int)
    ensures var o := InviteCall(db, inp, f, newId);
            var mayInvite := exists m :: m in db.members && m.teamId == inp.teamId && m.userId == inp.inviterUserId
                                         && (m.role == "owner" || m.role == "admin");
            var taken := OnRoster(db, inp.userId, inp.teamId);
            var m := Member(id := newId, teamId := inp.teamId, userId := inp.userId, role := inp.role);
            && o.db.members ==
                 db.members + (if f.check.Fine? && mayInvite && !f.insert.LostBefore? && !taken then [m] else [])
            && o.db == db.(members := o.db.members, memberSeq := o.db.memberSeq)
            && (o.result.Ok? <==> f.check.Fine? && mayInvite && f.insert.Fine? && !taken)
            && (o.result.Ok? ==> o.result.value == m)
            && (f.check.Fine? && !mayInvite ==> o.result == Err("forbidden"))
  {}

  // ---------------------------------------------------------------------------
  // A whole cache write

  /** The tasks are stored under their ids and their ids are in the set of the team, all for the time to live from
      now; nothing else has changed but that a set that had expired starts anew. */
  ghost predicate CacheGains(before: Cache, after: Cache, now: int, ttl: int, teamId: int, tasks: seq<Task>) {
    && (forall t :: t in tasks ==> t.id in after.values && after.values[t.id] == Entry(t, now + ttl))
    && (forall id :: (forall t :: t in tasks ==> t.id != id) ==>
          && (id in after.values <==> id in before.values)
          && (id in after.values ==> after.values[id] == before.values[id]))
    && teamId in after.sets && after.sets[teamId].exp == Some(now + ttl)
    && (forall id :: id in after.sets[teamId].ids <==>
          || (exists t :: t in tasks && t.id == id)
          || (teamId in before.sets && id in before.sets[teamId].ids
              && (before.sets[teamId].exp.Some? ==> now <= before.sets[teamId].exp.value)))
    && (forall team :: team != teamId ==> (team in after.sets <==> team in before.sets))
    && (forall team :: team != teamId && team in after.sets ==> after.sets[team] == before.sets[team])
  }

  lemma CacheGainsPut(c: Cache, now: int, ttl: int, teamId: int, tasks: seq<Task>)
    requires WellFormed(c) && tasks != []
    requires forall i, j :: 0 <= i < j < |tasks| ==> tasks[i].id != tasks[j].id
    ensures CacheGains(c, Put(c, now, ttl, teamId, tasks), now, ttl, teamId, tasks)
  {
    hide Put, InsertAll;
    var after := Put(c, now, ttl, teamId, tasks);
    PutSet(c, now, ttl, teamId, tasks);
    InsertAllIn(LiveIds(c, now, teamId), tasks);
    forall id | forall t :: t in tasks ==> t.id != id
      ensures id in after.values <==> id in c.values
      ensures id in after.values ==> after.values[id] == c.values[id]
    {
      PutGet(c, now, ttl, teamId, tasks, id);
    }
    forall t | t in tasks
      ensures t.id in after.values && after.values[t.id] == Entry(t, now + ttl)
    {
      PutGet(c, now, ttl, teamId, tasks, t.id);
    }
  }

  // ---------------------------------------------------------------------------
  // internal/task/edit

  /** An edit of a task that is there, column by column: the history row shows the task as it was, the UPDATE sets
      four columns of that row alone, and the cache is given the updated row for the time to live. */
  lemma EditOutcomes(db: Db, c: Cache, now: int, s: Settings, inp: EditInput, f: EditFaults, historyId: int, t: Task,
                     edited: Task)
    requires WellKeyed(db) && WellFormed(c) && t in db.tasks && t.id == inp.taskId
    requires edited == Task(id := t.id, status := inp.change.status, title := inp.change.title,
                            description := inp.change.description, creatorId := t.creatorId,
                            assigneeId := inp.change.assigneeId, teamId := t.teamId, createdAt := t.createdAt)
    ensures var o := EditCall(db, c, now, s, inp, f, historyId);
            var member := OnRoster(db, inp.userId, t.teamId);
            var recorded := f.get.Fine? && f.check.Fine? && member && !f.history.LostBefore?;
            var updated := recorded && f.history.Fine? && !f.update.LostBefore?;
            var h := Snapshot(id := historyId, taskId := t.id, status := t.status, title := t.title,
                              description := t.description, creatorId := t.creatorId, assigneeId := t.assigneeId,
                              teamId := t.teamId, changedBy := inp.userId, changedAt := now);
            && o.db.history == db.history + (if recorded then [h] else [])
            && |o.db.tasks| == |db.tasks|
            && (forall i :: 0 <= i < |db.tasks| ==>
                  o.db.tasks[i] == if updated && db.tasks[i].id == t.id then edited else db.tasks[i])
            && o.db == db.(history := o.db.history, tasks := o.db.tasks)
            && (o.result.Ok? <==> updated && f.update.Fine? && (s.clientFoundRows || edited != t))
            && (f.get.Fine? && f.check.Fine? && !member ==> o.result == Err("forbidden"))
            && (if o.result.Ok? && !f.cache.LostBefore?
                then CacheGains(c, o.cache, now, s.ttl, t.teamId, [edited])
                else o.cache == c)
  {
    hide FindTask, WellFormed, WellKeyed, IsPartOfTeamByTask, CountsAsAffected, Put, CacheGains, Apply;
    TheRow(db, inp.taskId, t);
    TheTeam(db, inp.userId, t);
    TheAffected(db, t, inp.change, SnapshotOf(t, historyId, inp.userId, now), s.clientFoundRows);
    assert Apply(t, inp.change) == edited by {
      AppliedColumns(t, inp.change);
    }
    CacheGainsPut(c, now, s.ttl, t.teamId, [edited]);
  }

  lemma AppliedColumns(t: Task, c: Change)
    ensures Apply(t, c) ==
            Task(id := t.id, status := c.status, title := c.title, description := c.description,
                 creatorId := t.creatorId, assigneeId := c.assigneeId, teamId := t.teamId, createdAt := t.createdAt)
  {}

  lemma TheRow(db: Db, id: int, t: Task)
    requires WellKeyed(db) && t in db.tasks && t.id == id
    ensures FindTask(db.tasks, id) == Some(t)
  {
    TaskIsUnique(db, t, FindTask(db.tasks, id).value);
  }

  lemma TheTeam(db: Db, userId: int, t: Task)
    requires WellKeyed(db) && t in db.tasks
    ensures IsPartOfTeamByTask(db, userId, t.id) <==> OnRoster(db, userId, t.teamId)
  {
    forall o | o in db.tasks && o.id == t.id
      ensures o == t
    {
      TaskIsUnique(db, t, o);
    }
    if m :| m in db.members && m.userId == userId && m.teamId == t.teamId {
      assert IsMember(db, userId, t.teamId);
    }
  }

  lemma TheAffected(db: Db, t: Task, c: Change, h: Snapshot, found: bool)
    requires WellKeyed(db) && t in db.tasks
    ensures CountsAsAffected(InsertHistory(db, h), t.id, c, found) <==> found || Apply(t, c) != t
    ensures forall i :: 0 <= i < |db.tasks| && db.tasks[i].id == t.id ==> db.tasks[i] == t
  {
    forall o | o in db.tasks && o.id == t.id
      ensures o == t
    {
      TaskIsUnique(db, t, o);
    }
  }

  lemma NothingToEdit(db: Db, c: Cache, now: int, s: Settings, inp: EditInput, f: EditFaults, historyId: int)
    requires forall t :: t in db.tasks ==> t.id != inp.taskId
    ensures var o := EditCall(db, c, now, s, inp, f, historyId);
            o.db == db && o.cache == c && o.result.Err? && (f.get.Fine? ==> o.result == Err("task not found"))
  {}

  // ---------------------------------------------------------------------------
  // internal/task/list

  /** Who is let through, and what can fail. */
  lemma ListAccess(db: Db, c: Cache, now: int, ttl: int, inp: ListInput, f: ListFaults)
    ensures var o := ListCall(db, c, now, ttl, inp, f);
            && (f.check.Fine? && !OnRoster(db, inp.userId, inp.teamId) ==> o.result == Err("forbidden"))
            && (o.result.Ok? ==> f.check.Fine? && OnRoster(db, inp.userId, inp.teamId))
            && (f.check.Fine? && OnRoster(db, inp.userId, inp.teamId) ==>
                  f.read == ReadFaults(Fine, Fine, Fine) && f.query.Fine? ==> o.result.Ok?)
            && (o.result.Err? ==> o.cache == c)
            && (inp.status != "" || inp.assigneeId != 0 ==> o.cache == c)
            && ((inp.status != "" || inp.assigneeId != 0) && o.result.Ok? ==> f.query.Fine?)
  {
    hide FetchForList, ListAnswer, Fill;
  }

  /** Without filters a failing cache command fails the listing, though the tables could answer it: ZRANK, which is
      sent if there is a cursor; ZRANGE, which is sent if there is none or the set has it; and MGET, which is sent
      if the set then has an id beyond. */
  lemma CacheFailuresFail(db: Db, c: Cache, now: int, ttl: int, inp: ListInput, f: ListFaults)
    requires WellFormed(c) && inp.status == "" && inp.assigneeId == 0
    requires var ids := LiveIds(c, now, inp.teamId);
             || (inp.startFromId > 0 && !f.read.rank.Fine?)
             || ((inp.startFromId > 0 ==> inp.startFromId in ids)
                 && (!f.read.range.Fine? || (!f.read.mget.Fine? && exists id :: MemberAbove(c, now, inp, id))))
    ensures var o := ListCall(db, c, now, ttl, inp, f);
            o.result.Err? && o.cache == c
  {
    hide FetchForList, ListAnswer, Fill, IsMember, WellFormed, LiveTasks, Ascending;
    var ids := LiveIds(c, now, inp.teamId);
    if (inp.startFromId > 0 ==> inp.startFromId in ids && f.read.rank.Fine?) && f.read.range.Fine? {
      var id :| MemberAbove(c, now, inp, id);
      BeyondCursor(c, now, inp, id);
    }
  }

  /** If the set has an id beyond, the ZRANGE finds one. */
  lemma BeyondCursor(c: Cache, now: int, inp: ListInput, id: int)
    requires WellFormed(c) && (inp.startFromId > 0 ==> inp.startFromId in LiveIds(c, now, inp.teamId))
    ensures MemberAbove(c, now, inp, id) ==>
              var ids := LiveIds(c, now, inp.teamId);
              var start := if inp.startFromId > 0 then IndexOf(ids, inp.startFromId).value + 1 else 0;
              Range(ids, start, start + 100) != []
  {
    var ids := LiveIds(c, now, inp.teamId);
    if inp.startFromId > 0 && MemberAbove(c, now, inp, id) {
      var rank := IndexOf(ids, inp.startFromId).value;
      var j :| 0 <= j < |ids| && ids[j] == id;
      assert SELF(ids[rank]) < SELF(ids[j]);
    }
  }

  /** An item for each of these tasks, column by column. */
  ghost predicate ShowsTasks(page: Page<TaskItem>, tasks: seq<Task>) {
    && |page.items| == |tasks| <= 100
    && (forall i :: 0 <= i < |tasks| ==>
          page.items[i] ==
          TaskItem(id := tasks[i].id, status := tasks[i].status, title := tasks[i].title,
                   description := tasks[i].description, creatorId := tasks[i].creatorId,
                   assigneeId := tasks[i].assigneeId, teamId := tasks[i].teamId))
  }

  ghost predicate Answers(db: Db, c: Cache, now: int, inp: ListInput, page: Page<TaskItem>, tasks: seq<Task>) {
    && ShowsTasks(page, tasks)
    && (GivenByTables(db, inp, page, tasks)
        || (inp.status == "" && inp.assigneeId == 0 && GivenBySet(c, now, inp, page, tasks)))
  }

  /** What a listing answers: an item for each of these tasks, column by column, and these tasks are the first
      hundred of the team's rows that were asked for, or of what its live set holds; the latter only without
      filters, and it leaves the cache as it was. */
  lemma ListOutcomes(db: Db, c: Cache, now: int, ttl: int, inp: ListInput, f: ListFaults)
    returns (tasks: seq<Task>, hit: bool)
    requires WellKeyed(db) && WellFormed(c)
    ensures var o := ListCall(db, c, now, ttl, inp, f);
            o.result.Ok? ==>
              var page := o.result.value;
              && ShowsTasks(page, tasks)
              && (hit ==> inp.status == "" && inp.assigneeId == 0 && o.cache == c
                          && GivenBySet(c, now, inp, page, tasks))
              && (!hit ==> f.query.Fine? && GivenByTables(db, inp, page, tasks))
              && (!hit && inp.status == "" && inp.assigneeId == 0 && tasks != [] && f.ran >= |tasks| + 2 ==>
                    CacheGains(c, o.cache, now, ttl, inp.teamId, tasks))
              && (inp.status != "" || inp.assigneeId != 0 || tasks == [] ==> o.cache == c)
  {
    hide CachedPage, FetchForList, ListAnswer, Fill, GivenBySet, GivenByTables, IsMember, WellKeyed, WellFormed,
        CacheGains;
    var cached := ReadForList(c, now, inp, f.read);
    hit := cached.Ok? && cached.value.Some?;
    if hit {
      tasks := SetPage(c, now, inp, f.read, cached.value.value);
    } else {
      tasks := TablePage(db, inp);
      FillGains(db, c, now, ttl, inp, f.ran, tasks);
    }
  }

  lemma ListAnswered(db: Db, c: Cache, now: int, ttl: int, inp: ListInput, f: ListFaults)
    requires WellFormed(c)
    ensures var o := ListCall(db, c, now, ttl, inp, f);
            o.result.Ok? ==>
              && OnRoster(db, inp.userId, inp.teamId)
              && (WellKeyed(db) ==> exists tasks :: Answers(db, c, now, inp, o.result.value, tasks))
  {
    hide ListCall, WellKeyed, WellFormed, ShowsTasks, GivenByTables, GivenBySet, CacheGains;
    ListAccess(db, c, now, ttl, inp, f);
    if WellKeyed(db) {
      var tasks, _ := ListOutcomes(db, c, now, ttl, inp, f);
      var r := ListCall(db, c, now, ttl, inp, f).result;
      assert r.Ok? ==> Answers(db, c, now, inp, r.value, tasks);
    }
  }

  lemma FillGains(db: Db, c: Cache, now: int, ttl: int, inp: ListInput, ran: nat, tasks: seq<Task>)
    requires WellFormed(c) && forall i, j :: 0 <= i < j < |tasks| ==> tasks[i].id < tasks[j].id
    requires tasks == Take(FetchForList(db, inp), DEFAULT_LIMIT)
    ensures var after := FillAfterList(c, now, ttl, inp, FetchForList(db, inp), ran);
            && (inp.status != "" || inp.assigneeId != 0 || tasks == [] ==> after == c)
            && (inp.status == "" && inp.assigneeId == 0 && tasks != [] && ran >= |tasks| + 2 ==>
                  CacheGains(c, after, now, ttl, inp.teamId, tasks))
  {
    hide CacheGains, Commands, FetchForList;
    if tasks != [] && ran >= |tasks| + 2 {
      FillIsPut(c, now, ttl, inp.teamId, tasks, ran);
      CacheGainsPut(c, now, ttl, inp.teamId, tasks);
    }
  }

  lemma ItemsShow(read: seq<Task>) returns (tasks: seq<Task>)
    ensures tasks == Cut(read, TASK_ID, DEFAULT_LIMIT).items == Take(read, DEFAULT_LIMIT)
    ensures var page := ListAnswer(read);
            && ShowsTasks(page, tasks)
            && page.hasMore == Cut(read, TASK_ID, DEFAULT_LIMIT).hasMore
            && page.nextStartFromId == Cut(read, TASK_ID, DEFAULT_LIMIT).nextStartFromId
  {
    tasks := Cut(read, TASK_ID, DEFAULT_LIMIT).items;
  }

  lemma TablePage(db: Db, inp: ListInput) returns (tasks: seq<Task>)
    requires WellKeyed(db)
    ensures var page := ListAnswer(FetchForList(db, inp));
            && ShowsTasks(page, tasks)
            && GivenByTables(db, inp, page, tasks)
            && tasks == Take(FetchForList(db, inp), DEFAULT_LIMIT)
            && forall i, j :: 0 <= i < j < |tasks| ==> tasks[i].id < tasks[j].id
  {
    hide SqlQuery.Matching, Serve, Cut, ListAnswer, FetchForList, Asked, WellKeyed;
    var all := SqlQuery.Matching(db.tasks, inp.teamId, inp.status, inp.assigneeId, 0);
    tasks := ItemsShow(FetchForList(db, inp));
    FetchIsServed(db, inp);
    ServedFirst(all, TASK_ID, inp.startFromId);
    AskedRows(db, inp);
    forall i, j | 0 <= i < j < |tasks|
      ensures tasks[i].id < tasks[j].id
    {
      assert TASK_ID(tasks[i]) < TASK_ID(tasks[j]);
    }
  }

  lemma FetchIsServed(db: Db, inp: ListInput)
    requires WellKeyed(db)
    ensures var all := SqlQuery.Matching(db.tasks, inp.teamId, inp.status, inp.assigneeId, 0);
            && Ascending(all, TASK_ID)
            && Cut(FetchForList(db, inp), TASK_ID, DEFAULT_LIMIT) == Serve(all, TASK_ID, inp.startFromId, DEFAULT_LIMIT)
  {
    SqlQuery.MatchingAfterCursor(db.tasks, inp.teamId, inp.status, inp.assigneeId, inp.startFromId);
    SqlQuery.MatchingAscending(db.tasks, inp.teamId, inp.status, inp.assigneeId, 0);
  }

  lemma AskedRows(db: Db, inp: ListInput)
    ensures forall t: Task :: Asked(db, inp, t) <==>
              t in SqlQuery.Matching(db.tasks, inp.teamId, inp.status, inp.assigneeId, 0)
                  && TASK_ID(t) > inp.startFromId
  {
    forall t: Task
      ensures Asked(db, inp, t) <==>
              t in SqlQuery.Matching(db.tasks, inp.teamId, inp.status, inp.assigneeId, 0)
                  && TASK_ID(t) > inp.startFromId
    {
      SqlQuery.MatchingIn(db.tasks, inp.teamId, inp.status, inp.assigneeId, 0, t);
    }
  }

  lemma SetPage(c: Cache, now: int, inp: ListInput, f: ReadFaults, read: seq<Task>) returns (tasks: seq<Task>)
    requires WellFormed(c) && ReadForList(c, now, inp, f) == Ok(Some(read))
    ensures var page := ListAnswer(read);
            && ShowsTasks(page, tasks)
            && inp.status == "" && inp.assigneeId == 0 && GivenBySet(c, now, inp, page, tasks)
  {
    hide ListAnswer, Cut, MemberAbove, Take, CachedPage, ReadPage, LiveIds, WellFormed;
    var above := LiveAbove(c, now, inp);
    tasks := ItemsShow(read);
    ReadIsLive(c, now, inp, f, read);
    AboveIsMembers(c, now, inp);
    FirstOfWindow(above, read);
  }

  /** The live ids of the set above the cursor. */
  function LiveAbove(c: Cache, now: int, inp: ListInput): seq<int> {
    var ids := LiveIds(c, now, inp.teamId);
    if inp.startFromId > 0 then After(ids, SELF, inp.startFromId) else ids
  }

  lemma AboveIsMembers(c: Cache, now: int, inp: ListInput)
    requires WellFormed(c)
    ensures Ascending(LiveAbove(c, now, inp), SELF)
    ensures forall id :: MemberAbove(c, now, inp, id) <==> id in LiveAbove(c, now, inp)
  {
    var ids := LiveIds(c, now, inp.teamId);
    if inp.startFromId > 0 {
      AfterAscending(ids, SELF, inp.startFromId);
    }
    forall id
      ensures MemberAbove(c, now, inp, id) <==> id in LiveAbove(c, now, inp)
    {
      AfterIn(ids, SELF, inp.startFromId, id);
    }
  }

  lemma ReadIsLive(c: Cache, now: int, inp: ListInput, f: ReadFaults, read: seq<Task>)
    requires WellFormed(c) && ReadForList(c, now, inp, f) == Ok(Some(read))
    ensures inp.status == "" && inp.assigneeId == 0 && |read| == |Take(LiveAbove(c, now, inp), 101)|
    ensures forall i :: 0 <= i < |read| ==> read[i].id == LiveAbove(c, now, inp)[i]
    ensures forall t :: t in read ==> t.id in c.values && c.values[t.id].task == t && now <= c.values[t.id].exp
  {
    hide CachedPage, ReadPage, LiveIds, WellFormed, After;
    CachedPageAnswer(c, now, inp.teamId, 101, CacheCursor(inp), f);
    PageIsWindow(c, now, inp.teamId, 101, CacheCursor(inp));
    var window := Window(LiveIds(c, now, inp.teamId), 101, CacheCursor(inp));
    forall i | 0 <= i < |read|
      ensures LiveTask(c, now, read[i].id) == Some(read[i])
    {
      assert LiveTask(c, now, window[i]) == Some(read[i]);
    }
  }

  /** A page cut from tasks that show the first 101 of ascending ids. */
  lemma FirstOfWindow(above: seq<int>, read: seq<Task>)
    requires Ascending(above, SELF) && |read| == |Take(above, 101)|
    requires forall i :: 0 <= i < |read| ==> read[i].id == above[i]
    ensures var page := Cut(read, TASK_ID, DEFAULT_LIMIT);
            var tasks := page.items;
            && (forall i, j :: 0 <= i < j < |tasks| ==> tasks[i].id < tasks[j].id)
            && (forall t :: t in tasks ==> t in read && t.id in above)
            && (page.hasMore <==> exists id :: id in above && forall t :: t in tasks ==> t.id != id)
            && (page.hasMore ==>
                  && |tasks| == 100
                  && page.nextStartFromId in above && forall t :: t in tasks ==> t.id < page.nextStartFromId)
            && (forall id :: id in above && (forall t :: t in tasks ==> t.id != id) ==>
                  id >= page.nextStartFromId && forall given :: given in tasks ==> given.id < id)
            && (!page.hasMore ==> page.nextStartFromId == 0)
  {
    var tasks := Cut(read, TASK_ID, DEFAULT_LIMIT).items;
    forall i, j | 0 <= i < j < |above|
      ensures above[i] < above[j]
    {
      assert SELF(above[i]) < SELF(above[j]);
    }
    assert forall i :: 0 <= i < |tasks| ==> tasks[i] in tasks;
    forall id | id in above && forall t :: t in tasks ==> t.id != id
      ensures |above| > 100 && id >= above[100] && forall given :: given in tasks ==> given.id < id
    {
      var j :| 0 <= j < |above| && above[j] == id;
    }
    if |above| > 100 {
      assert above[100] in above;
    }
  }

  /** The page is the first hundred rows of the team above the cursor that pass the filters. */
  ghost predicate GivenByTables(db: Db, inp: ListInput, page: Page<TaskItem>, rows: seq<Task>) {
    && (forall i, j :: 0 <= i < j < |rows| ==> rows[i].id < rows[j].id)
    && (forall t :: t in rows ==> Asked(db, inp, t))
    && (page.hasMore <==> exists t :: Asked(db, inp, t) && t !in rows)
    && (page.hasMore ==>
          |rows| == 100 && exists t :: Asked(db, inp, t) && t !in rows && t.id == page.nextStartFromId)
    && (forall t :: Asked(db, inp, t) && t !in rows ==>
          t.id >= page.nextStartFromId && forall given :: given in rows ==> given.id < t.id)
    && (!page.hasMore ==> page.nextStartFromId == 0)
  }

  ghost predicate Asked(db: Db, inp: ListInput, t: Task) {
    && t in db.tasks && t.teamId == inp.teamId && t.id > inp.startFromId
    && (inp.status != "" ==> t.status == inp.status)
    && (inp.assigneeId != 0 ==> t.assigneeId == inp.assigneeId)
  }

  /** The page shows the live values of the first hundred members of the team's live set above the cursor. */
  ghost predicate GivenBySet(c: Cache, now: int, inp: ListInput, page: Page<TaskItem>, rows: seq<Task>) {
    && (forall i, j :: 0 <= i < j < |rows| ==> rows[i].id < rows[j].id)
    && (forall t :: t in rows ==>
          && MemberAbove(c, now, inp, t.id)
          && t.id in c.values && c.values[t.id].task == t && now <= c.values[t.id].exp)
    && (page.hasMore <==> exists id :: MemberAbove(c, now, inp, id) && forall t :: t in rows ==> t.id != id)
    && (page.hasMore ==>
          && |rows| == 100
          && MemberAbove(c, now, inp, page.nextStartFromId) && forall t :: t in rows ==> t.id < page.nextStartFromId)
    && (forall id :: MemberAbove(c, now, inp, id) && (forall t :: t in rows ==> t.id != id) ==>
          id >= page.nextStartFromId && forall given :: given in rows ==> given.id < id)
    && (!page.hasMore ==> page.nextStartFromId == 0)
  }

  ghost predicate MemberAbove(c: Cache, now: int, inp: ListInput, id: int) {
    && inp.teamId in c.sets && (c.sets[inp.teamId].exp.Some? ==> now <= c.sets[inp.teamId].exp.value)
    && id in c.sets[inp.teamId].ids && (inp.startFromId > 0 ==> id > inp.startFromId)
  }

  // ---------------------------------------------------------------------------
  // Outsiders

  /** Whoever has no row in a team can neither see nor change its tasks: listing and creating in the team, and
      editing, commenting and reading the history of a task of it, are refused and leave everything as it is. */
  lemma OutsidersAreRefused(db: Db, c: Cache, now: int, s: Settings, user: int, t: Task, list: ListInput,
                            lf: ListFaults,
                            create: CreateInput, wf: WriteFaults, edit: EditInput, ef: EditFaults,
                            comment: CommentInput, startFromId: int, query: Fault, newId: int)
    requires WellKeyed(db) && t in db.tasks
    requires !OnRoster(db, user, t.teamId)
    requires list.userId == user == create.creatorId && list.teamId == t.teamId == create.teamId
    requires edit.userId == user == comment.commenterId && edit.taskId == t.id == comment.taskId
    ensures var o := ListCall(db, c, now, s.ttl, list, lf);
            o.cache == c && o.result.Err? && (lf.check.Fine? ==> o.result == Err("forbidden"))
    ensures var o := CreateCall(db, now, create, wf, newId);
            o.db == db && o.result.Err? && (wf.check.Fine? ==> o.result == Err("forbidden"))
    ensures var o := EditCall(db, c, now, s, edit, ef, newId);
            && o.db == db && o.cache == c && o.result.Err?
            && (ef.get.Fine? && ef.check.Fine? ==> o.result == Err("forbidden"))
    ensures var o := CommentCall(db, now, comment, wf, newId);
            o.db == db && o.result.Err? && (wf.check.Fine? ==> o.result == Err("forbidden"))
    ensures HistoryCall(db, user, t.id, startFromId, Fine, query) == Err("forbidden")
  {
    hide FetchForList, ListAnswer, Fill, CachedPage, Serve;
    TheRow(db, t.id, t);
    TheTeam(db, user, t);
  }
}
