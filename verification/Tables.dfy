/** The tables and the statements sent to them, one function per statement. */
module Tables {
  import opened Model
  import opened Paging
  import SqlQuery

  /** Rows are kept in primary-key order.  `memberSeq` and `teamSeq` are the largest ids MySQL has
      handed out for those tables, which a transaction takes before its rows can be seen. */
  datatype Db = Db(
    tasks: seq<Task>,
    history: seq<Snapshot>,
    comments: seq<Comment>,
    members: seq<Member>,
    teams: seq<Team>,
    memberSeq: int,
    teamSeq: int
  )

  const EMPTY := Db([], [], [], [], [], 0, 0)

  const OWNER := "owner"
  const ADMIN := "admin"

  // ---------------------------------------------------------------------------
  // AUTO_INCREMENT: ids are positive and strictly increasing, possibly with gaps

  predicate NextId<T>(rows: seq<T>, id: T -> int, newId: int) {
    newId > 0 && (rows != [] ==> newId > id(rows[|rows| - 1]))
  }

  ghost predicate WellKeyed(db: Db) {
    && Ascending(db.tasks, TASK_ID) && Positive(db.tasks, TASK_ID)
    && Ascending(db.history, SNAPSHOT_ID) && Positive(db.history, SNAPSHOT_ID)
    && Ascending(db.comments, COMMENT_ID) && Positive(db.comments, COMMENT_ID)
  }

  lemma AppendKeepsKeys<T>(rows: seq<T>, id: T -> int, row: T)
    requires Ascending(rows, id) && Positive(rows, id) && NextId(rows, id, id(row))
    ensures Ascending(rows + [row], id) && Positive(rows + [row], id)
  {}

  // ---------------------------------------------------------------------------
  // Reads

  predicate IsMember(db: Db, userId: int, teamId: int) {
    exists m :: m in db.members && m.userId == userId && m.teamId == teamId
  }

  /** `role IN ('owner', 'admin')` */
  predicate Privileged(m: Member) {
    m.role == OWNER || m.role == ADMIN
  }

  predicate CanInvite(db: Db, teamId: int, userId: int) {
    exists m :: m in db.members && m.teamId == teamId && m.userId == userId && Privileged(m)
  }

  function FindTask(rows: seq<Task>, id: int): (r: Option<Task>)
    ensures r.Some? ==> r.value in rows && r.value.id == id
    ensures r.None? ==> forall t :: t in rows ==> t.id != id
  {
    if rows == [] then None
    else if rows[0].id == id then Some(rows[0])
    else FindTask(rows[1..], id)
  }

  /** Members joined with tasks on the team. */
  predicate IsPartOfTeamByTask(db: Db, userId: int, taskId: int) {
    exists t :: t in db.tasks && t.id == taskId && IsMember(db, userId, t.teamId)
  }

  function SelectTasks(db: Db, teamId: int, status: string, assigneeId: int, startFromId: int, limit: nat): seq<Task> {
    Take(SqlQuery.Matching(db.tasks, teamId, status, assigneeId, startFromId), limit)
  }

  /** The rows that belong to one task (`WHERE task_id = ?`), in order. */
  function OfTask<T>(rows: seq<T>, task: T -> int, taskId: int): seq<T> {
    if rows == [] then []
    else
      var last := rows[|rows| - 1];
      OfTask(rows[..|rows| - 1], task, taskId) + (if task(last) == taskId then [last] else [])
  }

  const SNAPSHOT_TASK: Snapshot -> int := (h: Snapshot) => h.taskId
  const COMMENT_TASK: Comment -> int := (c: Comment) => c.taskId

  function HistoryOf(db: Db, taskId: int): seq<Snapshot> {
    OfTask(db.history, SNAPSHOT_TASK, taskId)
  }

  function CommentsOf(db: Db, taskId: int): seq<Comment> {
    OfTask(db.comments, COMMENT_TASK, taskId)
  }

  function SelectHistory(db: Db, taskId: int, startFromId: int, limit: nat): seq<Snapshot> {
    Take(After(HistoryOf(db, taskId), SNAPSHOT_ID, startFromId), limit)
  }

  function SelectComments(db: Db, taskId: int, startFromId: int, limit: nat): seq<Comment> {
    Take(After(CommentsOf(db, taskId), COMMENT_ID, startFromId), limit)
  }

  // ---------------------------------------------------------------------------
  // Writes

  function InsertTask(db: Db, t: Task): Db {
    db.(tasks := db.tasks + [t])
  }

  /** The row an INSERT into task_history makes of a task. */
  function SnapshotOf(t: Task, id: int, changedBy: int, changedAt: int): Snapshot {
    Snapshot(id, t.id, t.status, t.title, t.description, t.creatorId, t.assigneeId, t.teamId, changedBy, changedAt)
  }

  function InsertHistory(db: Db, h: Snapshot): Db {
    db.(history := db.history + [h])
  }

  function InsertComment(db: Db, c: Comment): Db {
    db.(comments := db.comments + [c])
  }

  /** The four columns `EditTask` sets. */
  datatype Change = Change(status: string, title: string, description: string, assigneeId: int)

  function Apply(t: Task, c: Change): Task {
    t.(status := c.status, title := c.title, description := c.description, assigneeId := c.assigneeId)
  }

  function UpdateRows(rows: seq<Task>, id: int, c: Change): (r: seq<Task>)
    ensures |r| == |rows|
    ensures forall i :: 0 <= i < |rows| ==> r[i] == if rows[i].id == id then Apply(rows[i], c) else rows[i]
  {
    seq(|rows|, i requires 0 <= i < |rows| => if rows[i].id == id then Apply(rows[i], c) else rows[i])
  }

  function UpdateTask(db: Db, id: int, c: Change): Db {
    db.(tasks := UpdateRows(db.tasks, id, c))
  }

  /** The affected-row count of that UPDATE is not zero. */
  predicate CountsAsAffected(db: Db, id: int, c: Change, foundRows: bool) {
    exists t :: t in db.tasks && t.id == id && (foundRows || Apply(t, c) != t)
  }

  function TakeMemberId(db: Db, id: int): Db {
    db.(memberSeq := id)
  }

  function TakeTeamId(db: Db, id: int): Db {
    db.(teamSeq := id)
  }

  function AddMember(db: Db, m: Member): Db {
    db.(members := db.members + [m])
  }

  /** COMMIT of the transaction that made a team and its owner. */
  function CommitTeam(db: Db, team: Team, owner: Member): Db {
    db.(teams := db.teams + [team], members := db.members + [owner])
  }

  datatype TeamFaults = TeamFaults(begin: Fault, insertTeam: Fault, insertOwner: Fault, commit: Fault)

  /** The whole transaction: both rows appear at the commit, or neither does.  Ids taken by statements
      that are rolled back are not handed out again. */
  function CreateTeamTables(db: Db, name: string, userId: int, teamId: int, memberId: int, f: TeamFaults): Db {
    if !f.begin.Fine? || f.insertTeam.LostBefore? then db
    else
      var named := TakeTeamId(db, teamId);
      if f.insertTeam.LostAfter? || f.insertOwner.LostBefore? then named
      else
        var owned := TakeMemberId(named, memberId);
        if f.insertOwner.LostAfter? || f.commit.LostBefore? then owned
        else CommitTeam(owned, Team(teamId, name), Member(memberId, teamId, userId, OWNER))
  }

  /** INSERT of a member row; UNIQUE (team_id, user_id) refuses a second row for the pair. */
  function InviteTables(db: Db, m: Member): Db {
    if IsMember(db, m.userId, m.teamId) then TakeMemberId(db, m.id) else AddMember(TakeMemberId(db, m.id), m)
  }

  // ---------------------------------------------------------------------------
  // What the statements keep

  lemma UpdateKeepsKeys(db: Db, id: int, c: Change)
    requires WellKeyed(db)
    ensures WellKeyed(UpdateTask(db, id, c))
  {
    assert forall i :: 0 <= i < |db.tasks| ==> TASK_ID(UpdateTask(db, id, c).tasks[i]) == TASK_ID(db.tasks[i]);
  }

  lemma TaskIsUnique(db: Db, a: Task, b: Task)
    requires WellKeyed(db) && a in db.tasks && b in db.tasks && a.id == b.id
    ensures a == b
  {
    var i :| 0 <= i < |db.tasks| && db.tasks[i] == a;
    var j :| 0 <= j < |db.tasks| && db.tasks[j] == b;
    assert TASK_ID(db.tasks[i]) == TASK_ID(db.tasks[j]);
  }

  lemma UpdatedRow(db: Db, id: int, c: Change, t: Task)
    ensures t in UpdateTask(db, id, c).tasks <==>
              exists o :: o in db.tasks && t == if o.id == id then Apply(o, c) else o
  {
    var after := UpdateRows(db.tasks, id, c);
    if t in after {
      var i :| 0 <= i < |after| && after[i] == t;
      assert db.tasks[i] in db.tasks;
    }
    if o :| o in db.tasks && t == if o.id == id then Apply(o, c) else o {
      var i :| 0 <= i < |db.tasks| && db.tasks[i] == o;
      assert after[i] == t;
    }
  }

  lemma {:induction false} OfTaskIn<T>(rows: seq<T>, task: T -> int, taskId: int, row: T)
    ensures row in OfTask(rows, task, taskId) <==> row in rows && task(row) == taskId
  {
    if rows != [] {
      OfTaskIn(rows[..|rows| - 1], task, taskId, row);
      assert rows == rows[..|rows| - 1] + [rows[|rows| - 1]];
    }
  }

  lemma OfTaskAppend<T>(rows: seq<T>, task: T -> int, taskId: int, row: T)
    ensures OfTask(rows + [row], task, taskId) == OfTask(rows, task, taskId) + if task(row) == taskId then [row] else []
  {
    assert (rows + [row])[..|rows|] == rows;
  }

  lemma {:induction false} OfTaskPrefix<T>(rows: seq<T>, more: seq<T>, task: T -> int, taskId: int)
    requires rows <= more
    ensures OfTask(rows, task, taskId) <= OfTask(more, task, taskId)
    decreases |more|
  {
    if rows != more {
      OfTaskPrefix(rows, more[..|more| - 1], task, taskId);
    }
  }

  lemma {:induction false} OfTaskKeepsKeys<T>(rows: seq<T>, task: T -> int, taskId: int, id: T -> int)
    requires Ascending(rows, id) && Positive(rows, id)
    ensures Ascending(OfTask(rows, task, taskId), id) && Positive(OfTask(rows, task, taskId), id)
  {
    if rows != [] {
      var init, last := rows[..|rows| - 1], rows[|rows| - 1];
      var kept := OfTask(init, task, taskId);
      OfTaskKeepsKeys(init, task, taskId, id);
      forall i | 0 <= i < |kept|
        ensures id(kept[i]) < id(last)
      {
        OfTaskIn(init, task, taskId, kept[i]);
      }
    }
  }

  // ---------------------------------------------------------------------------
  // What a page of one task's rows is

  /** Among the rows of the task above the cursor, the page has the first: in ascending order, no more than the
      limit, and none missing but beyond a full page. */
  ghost predicate FirstAbove<T(!new)>(page: seq<T>, rows: seq<T>, id: T -> int, task: T -> int, taskId: int,
                                      cursor: int, limit: nat)
  {
    && |page| <= limit && Ascending(page, id)
    && (forall row :: row in page ==> row in rows && task(row) == taskId && id(row) > cursor)
    && (forall row :: row in rows && task(row) == taskId && id(row) > cursor && row !in page ==>
          |page| == limit && forall given :: given in page ==> id(given) < id(row))
  }

  lemma TakenFirst<T(!new)>(all: seq<T>, id: T -> int, limit: nat, row: T)
    requires Ascending(all, id) && row in all && row !in Take(all, limit)
    ensures |Take(all, limit)| == limit
    ensures forall given :: given in Take(all, limit) ==> id(given) < id(row)
  {
    var taken := Take(all, limit);
    assert forall i :: 0 <= i < |taken| ==> all[i] in taken;
    var j :| 0 <= j < |all| && all[j] == row;
    forall given | given in Take(all, limit)
      ensures id(given) < id(row)
    {
      var i :| 0 <= i < |Take(all, limit)| && Take(all, limit)[i] == given;
      assert all[i] == given;
    }
  }

  lemma SelectedAreFirst<T(!new)>(rows: seq<T>, id: T -> int, task: T -> int, taskId: int, cursor: int, limit: nat)
    requires Ascending(rows, id) && Positive(rows, id)
    ensures FirstAbove(Take(After(OfTask(rows, task, taskId), id, cursor), limit), rows, id, task, taskId, cursor,
            limit)
  {
    var own := OfTask(rows, task, taskId);
    var all := After(own, id, cursor);
    OfTaskKeepsKeys(rows, task, taskId, id);
    AfterAscending(own, id, cursor);
    TakeAscending(all, id, limit);
    forall row: T
      ensures row in all <==> row in rows && task(row) == taskId && id(row) > cursor
    {
      OfTaskIn(rows, task, taskId, row);
      AfterIn(own, id, cursor, row);
    }
    forall row | row in all && row !in Take(all, limit)
      ensures |Take(all, limit)| == limit && forall given :: given in Take(all, limit) ==> id(given) < id(row)
    {
      TakenFirst(all, id, limit, row);
    }
  }

  /** No user has two rows in a team. */
  ghost predicate OneRowPerPair(db: Db) {
    forall i, j :: 0 <= i < j < |db.members| ==>
      !(db.members[i].teamId == db.members[j].teamId && db.members[i].userId == db.members[j].userId)
  }

  ghost predicate EveryTeamOwned(db: Db) {
    forall t :: t in db.teams ==> exists m :: m in db.members && m.teamId == t.id && m.role == OWNER
  }

  lemma InviteKeepsPairs(db: Db, m: Member)
    requires OneRowPerPair(db)
    ensures OneRowPerPair(InviteTables(db, m))
  {
    if !IsMember(db, m.userId, m.teamId) {
      assert forall i :: 0 <= i < |db.members| ==> db.members[i] in db.members;
    }
  }

  lemma CommitKeepsOwned(db: Db, team: Team, owner: Member)
    requires EveryTeamOwned(db) && owner.teamId == team.id && owner.role == OWNER
    ensures EveryTeamOwned(CommitTeam(db, team, owner))
  {
    var after := CommitTeam(db, team, owner);
    forall t | t in after.teams
      ensures exists m :: m in after.members && m.teamId == t.id && m.role == OWNER
    {
      if t in db.teams {
        var m :| m in db.members && m.teamId == t.id && m.role == OWNER;
        assert m in after.members;
      } else {
        assert owner in after.members;
      }
    }
  }
}
