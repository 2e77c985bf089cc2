/** `internal/repository/mysql.go`: the repository over the tables.

    Every method takes what the engine decides for it: whether the call gets through (`fault`) and,
    for inserts, the id AUTO_INCREMENT hands out (`newId`). */
module MysqlRepository {
  import opened Model
  import opened Tables
  import SqlQuery

  const INVALID_LIMIT := "invalid limit"
  const NO_ROWS := "sql: no rows in result set"
  const FAILED := "driver: call failed"

  class Mysql {
    var db: Db
    const clientFoundRows: bool

    constructor (clientFoundRows: bool)
      ensures db == EMPTY && this.clientFoundRows == clientFoundRows
    {
      db := EMPTY;
      this.clientFoundRows := clientFoundRows;
    }

    method CreateTaskComment(commenterId: int, taskId: int, text: string, createdAt: int, newId: int, fault: Fault)
      returns (r: Result<Comment>)
      requires NextId(db.comments, COMMENT_ID, newId)
      modifies this
      ensures var c := Comment(newId, createdAt, commenterId, taskId, text);
              && db == (if fault.LostBefore? then old(db) else InsertComment(old(db), c))
              && r == if fault.Fine? then Ok(c) else Err(FAILED)
    {
      if fault.LostBefore? {
        return Err(FAILED);
      }
      db := InsertComment(db, Comment(newId, createdAt, commenterId, taskId, text));
      if fault.LostAfter? {
        return Err(FAILED);
      }
      return Ok(Comment(newId, createdAt, commenterId, taskId, text));
    }

    method ListTaskComments(taskId: int, startFromId: int, limit: int, fault: Fault) returns (r: Result<seq<Comment>>)
      ensures r == if limit <= 0 then Err(INVALID_LIMIT)
                   else if !fault.Fine? then Err(FAILED)
                   else Ok(SelectComments(db, taskId, startFromId, limit))
      ensures r.Ok? && WellKeyed(db) ==>
                FirstAbove(r.value, db.comments, COMMENT_ID, COMMENT_TASK, taskId, startFromId, limit)
    {
      if limit <= 0 {
        return Err(INVALID_LIMIT);
      }
      if fault.LostBefore? {
        return Err(FAILED);
      }
      var rows := SelectComments(db, taskId, startFromId, limit);
      var comments := [];
      for i := 0 to |rows|
        invariant comments == rows[..i]
      {
        comments := comments + [rows[i]];
      }
      if fault.LostAfter? {
        return Err(FAILED);
      }
      assert rows[..|rows|] == rows;
      if WellKeyed(db) {
        SelectedAreFirst(db.comments, COMMENT_ID, COMMENT_TASK, taskId, startFromId, limit);
      }
      return Ok(comments);
    }

    method CreateHistory(t: Task, changedBy: int, changedAt: int, newId: int, fault: Fault)
      returns (r: Result<Snapshot>)
      requires NextId(db.history, SNAPSHOT_ID, newId)
      modifies this
      ensures var h := SnapshotOf(t, newId, changedBy, changedAt);
              && db == (if fault.LostBefore? then old(db) else InsertHistory(old(db), h))
              && r == if fault.Fine? then Ok(h) else Err(FAILED)
      ensures db.(history := old(db).history) == old(db)
      ensures fault.LostBefore? ==> db.history == old(db).history
      ensures !fault.LostBefore? ==>
                && |db.history| == |old(db).history| + 1 && old(db).history <= db.history
                && var h := db.history[|old(db).history|];
                   && h.status == t.status && h.title == t.title && h.description == t.description
                   && h.creatorId == t.creatorId && h.assigneeId == t.assigneeId && h.teamId == t.teamId
                   && h.taskId == t.id
                   && h.id == newId && h.changedBy == changedBy && h.changedAt == changedAt
      ensures WellKeyed(old(db)) ==> WellKeyed(db)
    {
      if fault.LostBefore? {
        return Err(FAILED);
      }
      var h := Snapshot(newId, t.id, t.status, t.title, t.description, t.creatorId, t.assigneeId, t.teamId, changedBy,
          changedAt);
      db := InsertHistory(db, h);
      if fault.LostAfter? {
        return Err(FAILED);
      }
      return Ok(h);
    }

    method ListHistory(taskId: int, startFromId: int, limit: int, fault: Fault) returns (r: Result<seq<Snapshot>>)
      ensures r == if limit <= 0 then Err(INVALID_LIMIT)
                   else if !fault.Fine? then Err(FAILED)
                   else Ok(SelectHistory(db, taskId, startFromId, limit))
      ensures r.Ok? && WellKeyed(db) ==>
                FirstAbove(r.value, db.history, SNAPSHOT_ID, SNAPSHOT_TASK, taskId, startFromId, limit)
    {
      if limit <= 0 {
        return Err(INVALID_LIMIT);
      }
      if fault.LostBefore? {
        return Err(FAILED);
      }
      var rows := SelectHistory(db, taskId, startFromId, limit);
      var histories := [];
      for i := 0 to |rows|
        invariant histories == rows[..i]
      {
        histories := histories + [rows[i]];
      }
      if fault.LostAfter? {
        return Err(FAILED);
      }
      assert rows[..|rows|] == rows;
      if WellKeyed(db) {
        SelectedAreFirst(db.history, SNAPSHOT_ID, SNAPSHOT_TASK, taskId, startFromId, limit);
      }
      return Ok(histories);
    }

    method CreateTask(status: string, title: string, description: string, creatorId: int, assigneeId: int, teamId: int,
                      createdAt: int, newId: int, fault: Fault)
      returns (r: Result<Task>)
      requires NextId(db.tasks, TASK_ID, newId)
      modifies this
      ensures var t := Task(newId, status, title, description, creatorId, assigneeId, teamId, createdAt);
              && db == (if fault.LostBefore? then old(db) else InsertTask(old(db), t))
              && r == if fault.Fine? then Ok(t) else Err(FAILED)
    {
      if fault.LostBefore? {
        return Err(FAILED);
      }
      db := InsertTask(db, Task(newId, status, title, description, creatorId, assigneeId, teamId, createdAt));
      if fault.LostAfter? {
        return Err(FAILED);
      }
      return Ok(Task(newId, status, title, description, creatorId, assigneeId, teamId, createdAt));
    }

    method GetTaskById(id: int, fault: Fault) returns (r: Result<Task>)
      ensures r == if !fault.Fine? then Err(FAILED)
                   else match FindTask(db.tasks, id) case None => Err(NO_ROWS) case Some(t) => Ok(t)
    {
      if !fault.Fine? {
        return Err(FAILED);
      }
      var t := FindTask(db.tasks, id);
      if t.None? {
        return Err(NO_ROWS);
      }
      return Ok(t.value);
    }

    method ListTasks(teamId: int, status: string, assigneeId: int, startFromId: int, limit: int, fault: Fault)
      returns (r: Result<seq<Task>>)
      ensures r == if limit <= 0 then Err(INVALID_LIMIT)
                   else if !fault.Fine? then Err(FAILED)
                   else Ok(SelectTasks(db, teamId, status, assigneeId, startFromId, limit))
    {
      hide SqlQuery.Matching, SqlQuery.Execute, SqlQuery.Marks;
      if limit <= 0 {
        return Err(INVALID_LIMIT);
      }
      var sb, args := SqlQuery.BuildListTasks(teamId, status, assigneeId, startFromId, limit);
      var answer := SqlQuery.Execute(sb, args, db.tasks);
      if fault.LostBefore? {
        return Err(FAILED);
      }
      ghost var selected := SelectTasks(db, teamId, status, assigneeId, startFromId, limit);
      assert SqlQuery.Answers(sb, args, db.tasks, teamId, status, assigneeId, startFromId, limit);
      var rows := answer.value;
      var tasks := [];
      for i := 0 to |rows|
        invariant tasks == selected[..i]
      {
        var values := rows[i];
        tasks := tasks + [Task(values[0].n, values[1].s, values[2].s, values[3].s, values[4].n, values[5].n,
                               values[6].n, values[7].n)];
      }
      if fault.LostAfter? {
        return Err(FAILED);
      }
      assert selected[..|selected|] == selected;
      return Ok(tasks);
    }

    method EditTask(id: int, status: string, title: string, description: string, assigneeId: int, fault: Fault)
      returns (r: Result<()>)
      modifies this
      ensures var c := Change(status, title, description, assigneeId);
              && db == (if fault.LostBefore? then old(db) else UpdateTask(old(db), id, c))
              && r == (if !fault.Fine? then Err(FAILED)
                       else if CountsAsAffected(old(db), id, c, clientFoundRows) then Ok(())
                       else Err(NO_ROWS))
      ensures db.(tasks := old(db).tasks) == old(db) && |db.tasks| == |old(db).tasks|
      ensures forall i :: 0 <= i < |db.tasks| ==>
                var before, after := old(db).tasks[i], db.tasks[i];
                && after.id == before.id && after.creatorId == before.creatorId && after.teamId == before.teamId
                && after.createdAt == before.createdAt
                && (if before.id == id && !fault.LostBefore?
                    then after.status == status && after.title == title
                         && after.description == description && after.assigneeId == assigneeId
                    else after == before)
      ensures r.Ok? <==>
                && fault.Fine?
                && exists t :: && t in old(db).tasks && t.id == id
                               && (clientFoundRows || t.status != status || t.title != title
                                   || t.description != description || t.assigneeId != assigneeId)
    {
      if fault.LostBefore? {
        return Err(FAILED);
      }
      var c := Change(status, title, description, assigneeId);
      var affected := CountsAsAffected(db, id, c, clientFoundRows);
      db := UpdateTask(db, id, c);
      if fault.LostAfter? {
        return Err(FAILED);
      }
      if !affected {
        return Err(NO_ROWS);
      }
      return Ok(());
    }

    method InviteMember(userId: int, teamId: int, role: string, newId: int, fault: Fault) returns (r: Result<Member>)
      requires newId > db.memberSeq
      modifies this
      ensures var m := Member(newId, teamId, userId, role);
              && db == (if fault.LostBefore? then old(db) else InviteTables(old(db), m))
              && r == if fault.Fine? && !IsMember(old(db), userId, teamId) then Ok(m) else Err(FAILED)
      ensures db.(members := old(db).members, memberSeq := old(db).memberSeq) == old(db)
      ensures db.members == old(db).members || db.members == old(db).members + [Member(newId, teamId, userId, role)]
      ensures db.members != old(db).members <==>
                !fault.LostBefore?
                && forall m :: m in old(db).members ==> !(m.userId == userId && m.teamId == teamId)
      ensures OneRowPerPair(old(db)) ==> OneRowPerPair(db)
      ensures r.Ok? ==> r.value in db.members && r.value !in old(db).members
    {
      if OneRowPerPair(db) {
        InviteKeepsPairs(db, Member(newId, teamId, userId, role));
      }
      if fault.LostBefore? {
        return Err(FAILED);
      }
      var taken := IsMember(db, userId, teamId);
      db := TakeMemberId(db, newId);
      if taken {
        return Err(FAILED);
      }
      db := AddMember(db, Member(newId, teamId, userId, role));
      if fault.LostAfter? {
        return Err(FAILED);
      }
      return Ok(Member(newId, teamId, userId, role));
    }

    method CanUserInvite(teamId: int, userId: int, fault: Fault) returns (r: Result<bool>)
      ensures r == if fault.Fine? then Ok(CanInvite(db, teamId, userId)) else Err(FAILED)
      ensures r.Ok? ==>
                (r.value <==> exists m :: && m in db.members && m.teamId == teamId && m.userId == userId
                                          && (m.role == "owner" || m.role == "admin"))
    {
      if !fault.Fine? {
        return Err(FAILED);
      }
      return Ok(CanInvite(db, teamId, userId));
    }

    /** Rows inserted inside the transaction are pending until the commit; every error rolls back. */
    method CreateTeamAndMakeUserItsOwner(name: string, userId: int, newTeamId: int, newMemberId: int, f: TeamFaults)
      returns (r: Result<Team>)
      requires newTeamId > db.teamSeq && newMemberId > db.memberSeq
      modifies this
      ensures db == CreateTeamTables(old(db), name, userId, newTeamId, newMemberId, f)
      ensures r == if f == TeamFaults(Fine, Fine, Fine, Fine) then Ok(Team(newTeamId, name)) else Err(FAILED)
      ensures var team, owner := Team(newTeamId, name), Member(newMemberId, newTeamId, userId, OWNER);
              var committed := f.begin.Fine? && f.insertTeam.Fine? && f.insertOwner.Fine? && !f.commit.LostBefore?;
              && db.teams == old(db).teams + (if committed then [team] else [])
              && db.members == old(db).members + (if committed then [owner] else [])
      ensures r.Ok? ==>
                && r.value in db.teams
                && exists m :: m in db.members && m.teamId == r.value.id && m.userId == userId && m.role == "owner"
      ensures db.tasks == old(db).tasks && db.history == old(db).history && db.comments == old(db).comments
      ensures EveryTeamOwned(old(db)) ==> EveryTeamOwned(db)
    {
      if !f.begin.Fine? || f.insertTeam.LostBefore? {
        return Err(FAILED);
      }
      db := TakeTeamId(db, newTeamId);
      var pendingTeam := Team(newTeamId, name);
      if f.insertTeam.LostAfter? || f.insertOwner.LostBefore? {
        return Err(FAILED);
      }
      db := TakeMemberId(db, newMemberId);
      var pendingOwner := Member(newMemberId, newTeamId, userId, OWNER);
      if f.insertOwner.LostAfter? || f.commit.LostBefore? {
        return Err(FAILED);
      }
      if EveryTeamOwned(db) {
        CommitKeepsOwned(db, pendingTeam, pendingOwner);
      }
      db := CommitTeam(db, pendingTeam, pendingOwner);
      assert pendingOwner in db.members;
      if f.commit.LostAfter? {
        return Err(FAILED);
      }
      return Ok(pendingTeam);
    }

    method IsPartOfTeamByTaskId(userId: int, taskId: int, fault: Fault) returns (r: Result<bool>)
      ensures r == if fault.Fine? then Ok(IsPartOfTeamByTask(db, userId, taskId)) else Err(FAILED)
      ensures r.Ok? ==>
                (r.value <==> exists t, m :: && t in db.tasks && t.id == taskId
                                             && m in db.members && m.userId == userId && m.teamId == t.teamId)
    {
      if !fault.Fine? {
        return Err(FAILED);
      }
      return Ok(IsPartOfTeamByTask(db, userId, taskId));
    }

    method CheckUserIsInTeam(userId: int, teamId: int, fault: Fault) returns (r: Result<bool>)
      ensures r == if fault.Fine? then Ok(IsMember(db, userId, teamId)) else Err(FAILED)
      ensures r.Ok? ==> (r.value <==> exists m :: m in db.members && m.userId == userId && m.teamId == teamId)
    {
      if !fault.Fine? {
        return Err(FAILED);
      }
      return Ok(IsMember(db, userId, teamId));
    }
  }
}
