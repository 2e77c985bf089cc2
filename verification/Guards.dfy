/** Checks and the writes they guard are separate statements, yet no write ever lands without its guard:
    memberships are never removed and no task changes team. */
module Guards {
  import opened Model
  import opened Tables
  import opened TaskCache
  import opened Interleaving
  import Operations

  ghost predicate Guarded(db: Db) {
    && (forall t :: t in db.tasks ==> IsMember(db, t.creatorId, t.teamId))
    && (forall h :: h in db.history ==> IsPartOfTeamByTask(db, h.changedBy, h.taskId))
    && (forall c :: c in db.comments ==> IsPartOfTeamByTask(db, c.commenterId, c.taskId))
  }

  /** A listing that has got past its check. */
  predicate ListsOn(op: Op) {
    op.ListRank? || op.ListRange? || op.ListGet? || op.ListQuery? || op.ListFill? || op.Served?
  }

  /** What a call that has passed its check may rely on until it writes. */
  ghost predicate Checked(db: Db, op: Op) {
    && (op.CreateStamp? || op.CreateInsert? ==> IsMember(db, op.create.creatorId, op.create.teamId))
    && (op.CommentStamp? || op.CommentInsert? ==> IsPartOfTeamByTask(db, op.comment.commenterId, op.comment.taskId))
    && (HasRow(op) ==> op.row.id == op.edit.taskId)
    && (op.EditStamp? || op.EditRecord? ==> IsPartOfTeamByTask(db, op.edit.userId, op.edit.taskId))
    && (op.InviteInsert? ==> CanInvite(db, op.invite.teamId, op.invite.inviterUserId))
    && (ListsOn(op) ==> IsMember(db, op.list.userId, op.list.teamId))
  }

  ghost predicate AllGuarded(st: State) {
    Guarded(st.db) && forall k :: k in st.flights ==> Checked(st.db, st.flights[k].op)
  }

  lemma CheckedLater(before: Db, after: Db, op: Op)
    requires Grows(before, after) && Checked(before, op)
    ensures Checked(after, op)
  {
    hide Grows, IsMember, IsPartOfTeamByTask, CanInvite;
    if op.CreateStamp? || op.CreateInsert? {
      MemberLater(before, after, op.create.creatorId, op.create.teamId);
    } else if op.CommentStamp? || op.CommentInsert? {
      PartOfTeamLater(before, after, op.comment.commenterId, op.comment.taskId);
    } else if op.EditStamp? || op.EditRecord? {
      PartOfTeamLater(before, after, op.edit.userId, op.edit.taskId);
    } else if op.InviteInsert? {
      CanInviteLater(before, after, op.invite.teamId, op.invite.inviterUserId);
    } else if ListsOn(op) {
      MemberLater(before, after, op.list.userId, op.list.teamId);
    }
  }

  lemma ReadChecks(st: State, op: Op, fault: Fault)
    requires !Writes(op) && !Final(op) && Checked(st.db, op)
    ensures Checked(st.db, Read(st, op, fault))
  {
    hide IsMember, IsPartOfTeamByTask, CanInvite, IndexOf, LiveIds, LiveTasks, Range;
  }

  lemma AfterWriteChecks(s: Settings, st: State, op: Op, r: Reply, db: Db)
    requires Writes(op) && Checked(st.db, op) && (op.ListFill? ==> db == st.db)
    ensures Checked(db, AfterWrite(s, st, op, r))
  {
    hide IsMember, IsPartOfTeamByTask, CanInvite, CountsAsAffected;
  }

  /** A row new to a table, or the row of the old table it comes from. */
  lemma NewRowsGuarded(st: State, op: Op, newId: int)
    requires Guarded(st.db) && Checked(st.db, op) && IdIsNew(st.db, op, newId)
    ensures Guarded(WriteTables(st, op, newId))
  {
    TasksGuarded(st, op, newId);
    HistoryGuarded(st, op, newId);
    CommentsGuarded(st, op, newId);
  }

  lemma HistoryGuarded(st: State, op: Op, newId: int)
    requires Guarded(st.db) && Checked(st.db, op) && IdIsNew(st.db, op, newId)
    ensures var after := WriteTables(st, op, newId);
            forall h :: h in after.history ==> IsPartOfTeamByTask(after, h.changedBy, h.taskId)
  {
    hide Grows, IsMember, IsPartOfTeamByTask, CanInvite, UpdateRows, IdIsNew;
    var after := WriteTables(st, op, newId);
    WriteGrows(st, op, newId);
    forall h | h in after.history
      ensures IsPartOfTeamByTask(after, h.changedBy, h.taskId)
    {
      if h in st.db.history {
        PartOfTeamLater(st.db, after, h.changedBy, h.taskId);
      } else {
        PartOfTeamLater(st.db, after, op.edit.userId, op.edit.taskId);
      }
    }
  }

  lemma CommentsGuarded(st: State, op: Op, newId: int)
    requires Guarded(st.db) && Checked(st.db, op) && IdIsNew(st.db, op, newId)
    ensures var after := WriteTables(st, op, newId);
            forall c :: c in after.comments ==> IsPartOfTeamByTask(after, c.commenterId, c.taskId)
  {
    hide Grows, IsMember, IsPartOfTeamByTask, CanInvite, UpdateRows, IdIsNew;
    var after := WriteTables(st, op, newId);
    WriteGrows(st, op, newId);
    forall c | c in after.comments
      ensures IsPartOfTeamByTask(after, c.commenterId, c.taskId)
    {
      if c in st.db.comments {
        PartOfTeamLater(st.db, after, c.commenterId, c.taskId);
      } else {
        PartOfTeamLater(st.db, after, op.comment.commenterId, op.comment.taskId);
      }
    }
  }

  lemma TasksGuarded(st: State, op: Op, newId: int)
    requires Guarded(st.db) && Checked(st.db, op) && IdIsNew(st.db, op, newId)
    ensures var after := WriteTables(st, op, newId);
            forall t :: t in after.tasks ==> IsMember(after, t.creatorId, t.teamId)
  {
    hide Grows, IsMember, IsPartOfTeamByTask, CanInvite, IdIsNew, UpdateTask;
    var after := WriteTables(st, op, newId);
    WriteGrows(st, op, newId);
    forall t | t in after.tasks
      ensures IsMember(after, t.creatorId, t.teamId)
    {
      var o := TaskCameFrom(st, op, newId, t);
      MemberLater(st.db, after, o.creatorId, o.teamId);
    }
  }

  /** A task of the new table is a created one, or has the creator and the team of one of the old table. */
  lemma TaskCameFrom(st: State, op: Op, newId: int, t: Task) returns (o: Task)
    requires t in WriteTables(st, op, newId).tasks
    ensures o.creatorId == t.creatorId && o.teamId == t.teamId
    ensures o in st.db.tasks || (op.CreateInsert? && o == Operations.NewTask(op.create, newId, op.createdAt))
  {
    hide UpdateRows, IsMember;
    o := t;
    if op.EditUpdate? {
      UpdatedRow(st.db, op.edit.taskId, op.edit.change, t);
      o :| o in st.db.tasks && t == if o.id == op.edit.taskId then Apply(o, op.edit.change) else o;
    }
  }

  lemma AdvanceGuarded(s: Settings, st: State, k: nat, r: Reply)
    requires AllGuarded(st) && Enabled(st, Advance(k, r))
    ensures AllGuarded(Step(s, st, Advance(k, r)))
  {
    hide Guarded, Grows, WriteTables, Checked, Read, AfterWrite, IdIsNew, Step, CacheAfter, SpansAfter, Writes, Lands;
    var op := st.flights[k].op;
    var after := Step(s, st, Advance(k, r));
    StepGrows(s, st, Advance(k, r));
    StepLeaves(s, st, k, r);
    OnlyMoves(s, st, k, r);
    NewIdOfStep(st, k, r);
    if Writes(op) {
      NewRowsGuarded(st, op, r.newId);
      FillsWriteNoTables(st, op, r.newId);
      AfterWriteChecks(s, st, op, r, after.db);
    } else {
      ReadChecks(st, op, r.fault);
    }
    forall j | j in after.flights
      ensures Checked(after.db, after.flights[j].op)
    {
      if j != k {
        CheckedLater(st.db, after.db, st.flights[j].op);
      }
    }
  }

  lemma FillsWriteNoTables(st: State, op: Op, newId: int)
    ensures op.ListFill? ==> WriteTables(st, op, newId) == st.db
  {}

  lemma {:induction false} GuardsHold(s: Settings, events: seq<Event>)
    requires Legal(s, events)
    ensures AllGuarded(Replay(s, events))
  {
    if events != [] {
      var st, e := Replay(s, events[..|events| - 1]), events[|events| - 1];
      GuardsHold(s, events[..|events| - 1]);
      if e.Advance? {
        AdvanceGuarded(s, st, e.flight, e.reply);
      }
    }
  }

  /** In every reachable state, whatever calls overlap, the members table has a row for every task's creator in the
      task's team, for every history row's changer and every comment's author in the team of their task, and
      for everyone who has been served a listing of a team's tasks in that team. */
  lemma EveryWriteIsGuarded(s: Settings, events: seq<Event>)
    requires Legal(s, events)
    ensures var db := Replay(s, events).db;
            && (forall t :: t in db.tasks ==>
                  exists m :: m in db.members && m.userId == t.creatorId && m.teamId == t.teamId)
            && (forall h :: h in db.history ==>
                  exists t, m :: t in db.tasks && t.id == h.taskId
                                 && m in db.members && m.userId == h.changedBy && m.teamId == t.teamId)
            && (forall c :: c in db.comments ==>
                  exists t, m :: t in db.tasks && t.id == c.taskId
                                 && m in db.members && m.userId == c.commenterId && m.teamId == t.teamId)
    ensures var st := Replay(s, events);
            forall k :: k in st.flights && st.flights[k].op.Served? ==>
              exists m :: m in st.db.members && m.userId == st.flights[k].op.list.userId
                          && m.teamId == st.flights[k].op.list.teamId
  {
    hide Legal, Replay;
    GuardsHold(s, events);
    var st := Replay(s, events);
    forall h | h in st.db.history
      ensures exists t, m :: t in st.db.tasks && t.id == h.taskId
                             && m in st.db.members && m.userId == h.changedBy && m.teamId == t.teamId
    {
      TaskAndMember(st.db, h.changedBy, h.taskId);
    }
    forall c | c in st.db.comments
      ensures exists t, m :: t in st.db.tasks && t.id == c.taskId
                             && m in st.db.members && m.userId == c.commenterId && m.teamId == t.teamId
    {
      TaskAndMember(st.db, c.commenterId, c.taskId);
    }
    forall k | k in st.flights && st.flights[k].op.Served?
      ensures exists m :: m in st.db.members && m.userId == st.flights[k].op.list.userId
                          && m.teamId == st.flights[k].op.list.teamId
    {
      assert Checked(st.db, st.flights[k].op);
    }
  }

  lemma TaskAndMember(db: Db, userId: int, taskId: int)
    requires IsPartOfTeamByTask(db, userId, taskId)
    ensures exists t, m :: t in db.tasks && t.id == taskId
                           && m in db.members && m.userId == userId && m.teamId == t.teamId
  {
    var t :| t in db.tasks && t.id == taskId && IsMember(db, userId, t.teamId);
  }
}
