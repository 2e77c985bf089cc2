/** The executors of `internal/task/...` and `internal/team/member/invite`, over the repositories. */
module Executors {
  import opened Model
  import opened Paging
  import opened Tables
  import opened MysqlRepository
  import opened Operations
  import RedisRepository
  import TaskCache
  import CallOutcomes

  /** `internal/task/list/executor.go` */
  class ListExecutor {
    const mysql: Mysql
    const redis: RedisRepository.Redis

    constructor (mysql: Mysql, redis: RedisRepository.Redis)
      ensures this.mysql == mysql && this.redis == redis
    {
      this.mysql := mysql;
      this.redis := redis;
    }

    method Execute(inp: ListInput, now: int, f: ListFaults) returns (r: Result<Page<TaskItem>>)
      requires redis.Valid()
      modifies redis
      ensures redis.Valid()
      ensures var o := ListCall(mysql.db, old(redis.cache), now, redis.ttl, inp, f);
              redis.cache == o.cache && r.Ok? == o.result.Ok? && (r.Ok? ==> r == o.result)
              && (o.result == Err(FORBIDDEN) ==> r == Err(FORBIDDEN))
      ensures r.Ok? ==>
                && CallOutcomes.OnRoster(mysql.db, inp.userId, inp.teamId)
                && (WellKeyed(mysql.db) ==>
                      exists tasks :: CallOutcomes.Answers(mysql.db, old(redis.cache), now, inp, r.value, tasks))
    {
      hide ListAnswer, TaskCache.CachedPage, SelectTasks, TaskCache.Fill, IsMember, RedisRepository.Represents,
          TaskCache.WellFormed, CallOutcomes.Answers, WellKeyed;
      CallOutcomes.ListAnswered(mysql.db, redis.cache, now, redis.ttl, inp, f);
      var isMember := mysql.CheckUserIsInTeam(inp.userId, inp.teamId, f.check);
      if isMember.Err? {
        return Err(isMember.message);
      }
      if !isMember.value {
        return Err(FORBIDDEN);
      }
      var listFromCache := inp.status == "" && inp.assigneeId == 0;
      if listFromCache {
        var startFromId := None;
        if inp.startFromId > 0 {
          startFromId := Some(inp.startFromId);
        }
        var cached := redis.ListTasksFromCache(now, inp.teamId, DEFAULT_LIMIT + 1, startFromId, f.read);
        if cached.Err? {
          return Err(cached.message);
        }
        if cached.value.Some? {
          var page := CutAndProject(cached.value.value);
          return Ok(page);
        }
      }
      var dbTasks := mysql.ListTasks(inp.teamId, inp.status, inp.assigneeId, inp.startFromId, DEFAULT_LIMIT + 1,
          f.query);
      if dbTasks.Err? {
        return Err(dbTasks.message);
      }
      var tasks := dbTasks.value;
      if listFromCache {
        var loopLen := |tasks|;
        if loopLen > DEFAULT_LIMIT {
          loopLen := DEFAULT_LIMIT;
        }
        var modelTasks := [];
        for i := 0 to loopLen
          invariant modelTasks == tasks[..i]
        {
          modelTasks := modelTasks + [tasks[i]];
        }
        assert modelTasks == Take(tasks, DEFAULT_LIMIT);
        var _ := redis.CacheTasks(now, inp.teamId, modelTasks, f.ran, true);
      }
      var page := CutAndProject(tasks);
      return Ok(page);
    }

    /** The tail both branches share: cut off the probe row, copy the rest into items. */
    method CutAndProject(tasks: seq<Task>) returns (page: Page<TaskItem>)
      ensures page == ListAnswer(tasks)
    {
      var hasMore := false;
      var nextStartFromId := 0;
      var results := tasks;
      if |tasks| > DEFAULT_LIMIT {
        hasMore := true;
        nextStartFromId := tasks[DEFAULT_LIMIT].id;
        results := tasks[..DEFAULT_LIMIT];
      }
      var items := [];
      for i := 0 to |results|
        invariant items == ItemsOf(results[..i])
      {
        var t := results[i];
        items := items + [TaskItem(t.id, t.status, t.title, t.description, t.creatorId, t.assigneeId, t.teamId)];
      }
      assert results[..|results|] == results;
      return Page(items, nextStartFromId, hasMore);
    }
  }

  /** `internal/task/edit/executor.go` */
  class EditExecutor {
    const mysql: Mysql
    const redis: RedisRepository.Redis

    constructor (mysql: Mysql, redis: RedisRepository.Redis)
      ensures this.mysql == mysql && this.redis == redis
    {
      this.mysql := mysql;
      this.redis := redis;
    }

    method Execute(inp: EditInput, now: int, f: EditFaults, historyId: int) returns (r: Result<bool>)
      requires redis.Valid() && NextId(mysql.db.history, SNAPSHOT_ID, historyId)
      modifies mysql, redis
      ensures redis.Valid()
      ensures var o := EditCall(old(mysql.db), old(redis.cache), now, Settings(redis.ttl, mysql.clientFoundRows), inp,
              f, historyId);
              && mysql.db == o.db && redis.cache == o.cache
              && r.Ok? == o.result.Ok? && (r.Ok? ==> r == o.result)
              && (o.result == Err(NOT_FOUND) || o.result == Err(FORBIDDEN) ==> r == o.result)
      ensures mysql.db != old(mysql.db) || redis.cache != old(redis.cache) || r.Ok? ==>
                CallOutcomes.OnTaskRoster(old(mysql.db), inp.userId, inp.taskId)
    {
      hide TaskCache.Fill, IsPartOfTeamByTask, RedisRepository.Represents, TaskCache.WellFormed, SameIdentity,
          WellKeyed, UpdateRows, SnapshotVersion, VersionOf, CallOutcomes.OnTaskRoster;
      CallOutcomes.PartOfTeamMeans(mysql.db, inp.userId, inp.taskId);
      var oldTask := mysql.GetTaskById(inp.taskId, f.get);
      if oldTask.Err? {
        if oldTask.message == NO_ROWS {
          return Err(NOT_FOUND);
        }
        return Err(oldTask.message);
      }
      var isMember := mysql.IsPartOfTeamByTaskId(inp.userId, inp.taskId, f.check);
      if isMember.Err? {
        return Err("failed to check team membership: " + isMember.message);
      }
      if !isMember.value {
        return Err(FORBIDDEN);
      }
      var recorded := mysql.CreateHistory(oldTask.value, inp.userId, now, historyId, f.history);
      if recorded.Err? {
        return Err("failed to save task history: " + recorded.message);
      }
      var c := inp.change;
      var edited := mysql.EditTask(inp.taskId, c.status, c.title, c.description, c.assigneeId, f.update);
      if edited.Err? {
        return Err(edited.message);
      }
      var updatedTask := oldTask.value;
      updatedTask := updatedTask.(status := c.status);
      updatedTask := updatedTask.(title := c.title);
      updatedTask := updatedTask.(description := c.description);
      updatedTask := updatedTask.(assigneeId := c.assigneeId);
      var _ := redis.UpdateTaskInCache(now, updatedTask, f.cache);
      return Ok(true);
    }
  }

  /** `internal/task/create/executor.go` */
  class CreateExecutor {
    const mysql: Mysql

    constructor (mysql: Mysql)
      ensures this.mysql == mysql
    {
      this.mysql := mysql;
    }

    method Execute(inp: CreateInput, now: int, f: WriteFaults, newId: int) returns (r: Result<Task>)
      requires NextId(mysql.db.tasks, TASK_ID, newId)
      modifies mysql
      ensures var o := CreateCall(old(mysql.db), now, inp, f, newId);
              mysql.db == o.db && r.Ok? == o.result.Ok? && (r.Ok? ==> r == o.result)
              && (o.result == Err(FORBIDDEN) ==> r == Err(FORBIDDEN))
      ensures var member := CallOutcomes.OnRoster(old(mysql.db), inp.creatorId, inp.teamId);
              var t := Task(id := newId, status := inp.status, title := inp.title, description := inp.description,
                            creatorId := inp.creatorId, assigneeId := inp.assigneeId, teamId := inp.teamId,
                            createdAt := now);
              && mysql.db.tasks ==
                   old(mysql.db).tasks + (if f.check.Fine? && member && !f.insert.LostBefore? then [t] else [])
              && mysql.db == old(mysql.db).(tasks := mysql.db.tasks)
              && (r.Ok? <==> f.check.Fine? && member && f.insert.Fine?) && (r.Ok? ==> r.value == t)
    {
      CallOutcomes.CreateOutcomes(mysql.db, now, inp, f, newId);
      var isMember := mysql.CheckUserIsInTeam(inp.creatorId, inp.teamId, f.check);
      if isMember.Err? {
        return Err(isMember.message);
      }
      if !isMember.value {
        return Err(FORBIDDEN);
      }
      r := mysql.CreateTask(inp.status, inp.title, inp.description, inp.creatorId, inp.assigneeId, inp.teamId, now,
          newId, f.insert);
    }
  }

  /** `internal/task/comment/create/executor.go` */
  class CommentCreateExecutor {
    const mysql: Mysql

    constructor (mysql: Mysql)
      ensures this.mysql == mysql
    {
      this.mysql := mysql;
    }

    method Execute(inp: CommentInput, now: int, f: WriteFaults, newId: int) returns (r: Result<int>)
      requires NextId(mysql.db.comments, COMMENT_ID, newId)
      modifies mysql
      ensures var o := CommentCall(old(mysql.db), now, inp, f, newId);
              mysql.db == o.db && r.Ok? == o.result.Ok? && (r.Ok? ==> r == o.result)
              && (o.result == Err(FORBIDDEN) ==> r == Err(FORBIDDEN))
      ensures var member := CallOutcomes.OnTaskRoster(old(mysql.db), inp.commenterId, inp.taskId);
              var c := Comment(id := newId, createdAt := now, commenterId := inp.commenterId, taskId := inp.taskId,
                               text := inp.text);
              && mysql.db.comments ==
                   old(mysql.db).comments + (if f.check.Fine? && member && !f.insert.LostBefore? then [c] else [])
              && mysql.db == old(mysql.db).(comments := mysql.db.comments)
              && (r.Ok? <==> f.check.Fine? && member && f.insert.Fine?) && (r.Ok? ==> r.value == newId)
    {
      CallOutcomes.CommentOutcomes(mysql.db, now, inp, f, newId);
      hide IsPartOfTeamByTask;
      var isMember := mysql.IsPartOfTeamByTaskId(inp.commenterId, inp.taskId, f.check);
      if isMember.Err? {
        return Err(isMember.message);
      }
      if !isMember.value {
        return Err(FORBIDDEN);
      }
      var model := mysql.CreateTaskComment(inp.commenterId, inp.taskId, inp.text, now, newId, f.insert);
      if model.Err? {
        return Err(model.message);
      }
      return Ok(model.value.id);
    }
  }

  /** `internal/team/member/invite/executor.go`; what becomes of the e-mail never reaches the caller. */
  class InviteExecutor {
    const mysql: Mysql

    constructor (mysql: Mysql)
      ensures this.mysql == mysql
    {
      this.mysql := mysql;
    }

    method Execute(inp: InviteInput, f: WriteFaults, newId: int) returns (r: Result<Member>, mailed: bool)
      requires newId > mysql.db.memberSeq
      modifies mysql
      ensures var o := InviteCall(old(mysql.db), inp, f, newId);
              mysql.db == o.db && r.Ok? == o.result.Ok? && (r.Ok? ==> r == o.result)
              && (o.result == Err(FORBIDDEN) ==> r == Err(FORBIDDEN))
      ensures var mayInvite := exists m :: && m in old(mysql.db).members && m.teamId == inp.teamId
                                           && m.userId == inp.inviterUserId && (m.role == "owner" || m.role == "admin");
              var taken := CallOutcomes.OnRoster(old(mysql.db), inp.userId, inp.teamId);
              var m := Member(id := newId, teamId := inp.teamId, userId := inp.userId, role := inp.role);
              && mysql.db.members ==
                   old(mysql.db).members
                   + (if f.check.Fine? && mayInvite && !f.insert.LostBefore? && !taken then [m] else [])
              && mysql.db == old(mysql.db).(members := mysql.db.members, memberSeq := mysql.db.memberSeq)
              && (r.Ok? <==> f.check.Fine? && mayInvite && f.insert.Fine? && !taken) && (r.Ok? ==> r.value == m)
              && (f.check.Fine? && !mayInvite ==> r == Err("forbidden"))
      ensures mailed <==> r.Ok? && inp.email != ""
    {
      CallOutcomes.InviteOutcomes(mysql.db, inp, f, newId);
      mailed := false;
      var canInvite := mysql.CanUserInvite(inp.teamId, inp.inviterUserId, f.check);
      if canInvite.Err? {
        r := Err(canInvite.message);
        return;
      }
      if !canInvite.value {
        r := Err(FORBIDDEN);
        return;
      }
      r := mysql.InviteMember(inp.userId, inp.teamId, inp.role, newId, f.insert);
      if r.Err? {
        return;
      }
      if inp.email != "" {
        mailed := true;
      }
    }
  }

  /** `internal/task/history/list/executor.go` */
  class HistoryListExecutor {
    const mysql: Mysql

    constructor (mysql: Mysql)
      ensures this.mysql == mysql
    {
      this.mysql := mysql;
    }

    method Execute(userId: int, taskId: int, startFromId: int, check: Fault, query: Fault)
      returns (r: Result<Page<HistoryItem>>)
      ensures var o := HistoryCall(mysql.db, userId, taskId, startFromId, check, query);
              r.Ok? == o.Ok? && (r.Ok? ==> r == o) && (o == Err(FORBIDDEN) ==> r == Err(FORBIDDEN))
      ensures r.Ok? <==> check.Fine? && query.Fine? && CallOutcomes.OnTaskRoster(mysql.db, userId, taskId)
      ensures r.Ok? && WellKeyed(mysql.db) ==>
                exists rows :: CallOutcomes.ShowsHistory(mysql.db, taskId, startFromId, r.value, rows)
    {
      hide IsPartOfTeamByTask, FirstAbove, WellKeyed, OfTask, After, CallOutcomes.ShowsHistory,
          CallOutcomes.OnTaskRoster;
      CallOutcomes.HistoryAnswered(mysql.db, userId, taskId, startFromId, check, query);
      var isMember := mysql.IsPartOfTeamByTaskId(userId, taskId, check);
      if isMember.Err? {
        return Err("failed to check team membership: " + isMember.message);
      }
      if !isMember.value {
        return Err(FORBIDDEN);
      }
      var histories := mysql.ListHistory(taskId, startFromId, DEFAULT_LIMIT + 1, query);
      if histories.Err? {
        return Err(histories.message);
      }
      var hasMore := false;
      var nextStartFromId := 0;
      var results := histories.value;
      if |histories.value| > DEFAULT_LIMIT {
        hasMore := true;
        nextStartFromId := histories.value[DEFAULT_LIMIT].id;
        results := histories.value[..DEFAULT_LIMIT];
      }
      var items := [];
      for i := 0 to |results|
        invariant items == HistoryItems(results[..i])
      {
        items := items + [HistoryItemOf(results[i])];
      }
      assert results[..|results|] == results;
      return Ok(Page(items, nextStartFromId, hasMore));
    }
  }

  /** `internal/task/comment/list/executor.go` */
  class CommentListExecutor {
    const mysql: Mysql

    constructor (mysql: Mysql)
      ensures this.mysql == mysql
    {
      this.mysql := mysql;
    }

    method Execute(taskId: int, startFromId: int, query: Fault) returns (r: Result<Page<Comment>>)
      ensures var o := CommentsCall(mysql.db, taskId, startFromId, query);
              r.Ok? == o.Ok? && (r.Ok? ==> r == o)
      ensures r.Ok? <==> query.Fine?
      ensures r.Ok? && WellKeyed(mysql.db) ==>
                CallOutcomes.ShowsComments(mysql.db, taskId, startFromId, r.value)
    {
      hide FirstAbove, WellKeyed, OfTask, After, CallOutcomes.ShowsComments;
      if WellKeyed(mysql.db) {
        CallOutcomes.CommentsOutcome(mysql.db, taskId, startFromId, query);
      }
      var comments := mysql.ListTaskComments(taskId, startFromId, DEFAULT_LIMIT + 1, query);
      if comments.Err? {
        return Err(comments.message);
      }
      var hasMore := false;
      var nextStartFromId := 0;
      var results := comments.value;
      if |comments.value| > DEFAULT_LIMIT {
        hasMore := true;
        nextStartFromId := comments.value[DEFAULT_LIMIT].id;
        results := comments.value[..DEFAULT_LIMIT];
      }
      var items := [];
      for i := 0 to |results|
        invariant items == results[..i]
      {
        items := items + [results[i]];
      }
      assert results[..|results|] == results;
      return Ok(Page(items, nextStartFromId, hasMore));
    }
  }
}
