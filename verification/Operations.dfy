/** What each executor does to the tables and the cache in one uninterrupted call, with any of its
    inner calls allowed to fail. */
module Operations {
  import opened Model
  import opened Paging
  import opened Tables
  import opened TaskCache

  const FORBIDDEN := "forbidden"
  const NOT_FOUND := "task not found"
  const CALL_FAILED := "call failed"

  // ---------------------------------------------------------------------------
  // internal/task/list

  datatype ListInput = ListInput(userId: int, teamId: int, status: string, assigneeId: int, startFromId: int)

  datatype TaskItem = TaskItem(
    id: int,
    status: string,
    title: string,
    description: string,
    creatorId: int,
    assigneeId: int,
    teamId: int
  )

  function ItemOf(t: Task): TaskItem {
    TaskItem(t.id, t.status, t.title, t.description, t.creatorId, t.assigneeId, t.teamId)
  }

  function ItemsOf(tasks: seq<Task>): (items: seq<TaskItem>)
    ensures |items| == |tasks|
    ensures forall i :: 0 <= i < |tasks| ==> items[i] == ItemOf(tasks[i])
  {
    seq(|tasks|, i requires 0 <= i < |tasks| => ItemOf(tasks[i]))
  }

  /** The answer made of up to 101 tasks: a hundred of them, and the id of the 101st as the cursor. */
  function ListAnswer(tasks: seq<Task>): Page<TaskItem> {
    var page := Cut(tasks, TASK_ID, DEFAULT_LIMIT);
    Page(ItemsOf(page.items), page.nextStartFromId, page.hasMore)
  }

  /** What may go wrong in a listing; `ran` is how many commands of the pipeline that fills the cache Redis
      runs before the connection breaks. */
  datatype ListFaults = ListFaults(check: Fault, read: ReadFaults, query: Fault, ran: nat)

  /** Only an unfiltered listing goes through the cache. */
  predicate Unfiltered(inp: ListInput) {
    inp.status == "" && inp.assigneeId == 0
  }

  function CacheCursor(inp: ListInput): Option<int> {
    if inp.startFromId > 0 then Some(inp.startFromId) else None
  }

  function ReadForList(c: Cache, now: int, inp: ListInput, f: ReadFaults): Result<Option<seq<Task>>> {
    if Unfiltered(inp) then CachedPage(c, now, inp.teamId, DEFAULT_LIMIT + 1, CacheCursor(inp), f) else Ok(None)
  }

  function FetchForList(db: Db, inp: ListInput): seq<Task> {
    SelectTasks(db, inp.teamId, inp.status, inp.assigneeId, inp.startFromId, DEFAULT_LIMIT + 1)
  }

  /** Of the rows fetched, the probe row is not cached. */
  function FillAfterList(c: Cache, now: int, ttl: int, inp: ListInput, fetched: seq<Task>, ran: nat): Cache {
    if Unfiltered(inp) then Fill(c, now, ttl, inp.teamId, Take(fetched, DEFAULT_LIMIT), ran) else c
  }

  datatype ListOutcome = ListOutcome(cache: Cache, result: Result<Page<TaskItem>>)

  function ListCall(db: Db, c: Cache, now: int, ttl: int, inp: ListInput, f: ListFaults): ListOutcome {
    if !f.check.Fine? then ListOutcome(c, Err(CALL_FAILED))
    else if !IsMember(db, inp.userId, inp.teamId) then ListOutcome(c, Err(FORBIDDEN))
    else
      match ReadForList(c, now, inp, f.read)
      case Err(_) => ListOutcome(c, Err(CALL_FAILED))
      case Ok(Some(tasks)) => ListOutcome(c, Ok(ListAnswer(tasks)))
      case Ok(None) =>
        if !f.query.Fine? then ListOutcome(c, Err(CALL_FAILED))
        else
          var fetched := FetchForList(db, inp);
          ListOutcome(FillAfterList(c, now, ttl, inp, fetched, f.ran), Ok(ListAnswer(fetched)))
  }

  // ---------------------------------------------------------------------------
  // internal/task/edit

  datatype EditInput = EditInput(userId: int, taskId: int, change: Change)

  datatype EditFaults = EditFaults(get: Fault, check: Fault, history: Fault, update: Fault, cache: Fault)

  datatype EditOutcome = EditOutcome(db: Db, cache: Cache, result: Result<bool>)

  function EditCall(db: Db, c: Cache, now: int, s: Settings, inp: EditInput, f: EditFaults,
                    historyId: int): EditOutcome
  {
    if !f.get.Fine? then EditOutcome(db, c, Err(CALL_FAILED))
    else
      match FindTask(db.tasks, inp.taskId)
      case None => EditOutcome(db, c, Err(NOT_FOUND))
      case Some(row) =>
        if !f.check.Fine? then EditOutcome(db, c, Err(CALL_FAILED))
        else if !IsPartOfTeamByTask(db, inp.userId, inp.taskId) then EditOutcome(db, c, Err(FORBIDDEN))
        else if f.history.LostBefore? then EditOutcome(db, c, Err(CALL_FAILED))
        else
          var recorded := InsertHistory(db, SnapshotOf(row, historyId, inp.userId, now));
          if f.history.LostAfter? || f.update.LostBefore? then EditOutcome(recorded, c, Err(CALL_FAILED))
          else
            var updated := UpdateTask(recorded, inp.taskId, inp.change);
            if f.update.LostAfter? || !CountsAsAffected(recorded, inp.taskId, inp.change, s.clientFoundRows) then
              EditOutcome(updated, c, Err(CALL_FAILED))
            else
              EditOutcome(updated,
                          if f.cache.LostBefore? then c else Put(c, now, s.ttl, row.teamId, [Apply(row, inp.change)]),
                          Ok(true))
  }

  // ---------------------------------------------------------------------------
  // internal/task/create, internal/task/comment/create

  datatype CreateInput = CreateInput(creatorId: int, status: string, title: string, description: string,
                                     assigneeId: int, teamId: int)

  datatype WriteFaults = WriteFaults(check: Fault, insert: Fault)

  datatype CreateOutcome = CreateOutcome(db: Db, result: Result<Task>)

  function NewTask(inp: CreateInput, id: int, now: int): Task {
    Task(id, inp.status, inp.title, inp.description, inp.creatorId, inp.assigneeId, inp.teamId, now)
  }

  function CreateCall(db: Db, now: int, inp: CreateInput, f: WriteFaults, newId: int): CreateOutcome {
    if !f.check.Fine? then CreateOutcome(db, Err(CALL_FAILED))
    else if !IsMember(db, inp.creatorId, inp.teamId) then CreateOutcome(db, Err(FORBIDDEN))
    else if f.insert.LostBefore? then CreateOutcome(db, Err(CALL_FAILED))
    else
      var t := NewTask(inp, newId, now);
      CreateOutcome(InsertTask(db, t), if f.insert.Fine? then Ok(t) else Err(CALL_FAILED))
  }

  datatype CommentInput = CommentInput(commenterId: int, taskId: int, text: string)

  datatype CommentOutcome = CommentOutcome(db: Db, result: Result<int>)

  function CommentCall(db: Db, now: int, inp: CommentInput, f: WriteFaults, newId: int): CommentOutcome {
    if !f.check.Fine? then CommentOutcome(db, Err(CALL_FAILED))
    else if !IsPartOfTeamByTask(db, inp.commenterId, inp.taskId) then CommentOutcome(db, Err(FORBIDDEN))
    else if f.insert.LostBefore? then CommentOutcome(db, Err(CALL_FAILED))
    else
      CommentOutcome(InsertComment(db, Comment(newId, now, inp.commenterId, inp.taskId, inp.text)),
                     if f.insert.Fine? then Ok(newId) else Err(CALL_FAILED))
  }

  // ---------------------------------------------------------------------------
  // internal/team/member/invite

  datatype InviteInput = InviteInput(inviterUserId: int, teamId: int, userId: int, role: string, email: string)

  datatype InviteOutcome = InviteOutcome(db: Db, result: Result<Member>)

  function InviteCall(db: Db, inp: InviteInput, f: WriteFaults, newId: int): InviteOutcome {
    if !f.check.Fine? then InviteOutcome(db, Err(CALL_FAILED))
    else if !CanInvite(db, inp.teamId, inp.inviterUserId) then InviteOutcome(db, Err(FORBIDDEN))
    else
      var m := Member(newId, inp.teamId, inp.userId, inp.role);
      InviteOutcome(if f.insert.LostBefore? then db else InviteTables(db, m),
                    if f.insert.Fine? && !IsMember(db, inp.userId, inp.teamId) then Ok(m) else Err(CALL_FAILED))
  }

  // ---------------------------------------------------------------------------
  // internal/task/history/list, internal/task/comment/list

  datatype HistoryItem = HistoryItem(
    id: int,
    taskId: int,
    status: string,
    title: string,
    description: string,
    creatorId: int,
    assigneeId: int,
    teamId: int,
    changedBy: int,
    changedAt: int
  )

  function HistoryItemOf(h: Snapshot): HistoryItem {
    HistoryItem(h.id, h.taskId, h.status, h.title, h.description, h.creatorId, h.assigneeId, h.teamId, h.changedBy,
        h.changedAt)
  }

  function HistoryItems(rows: seq<Snapshot>): (items: seq<HistoryItem>)
    ensures |items| == |rows| && forall i :: 0 <= i < |rows| ==> items[i] == HistoryItemOf(rows[i])
  {
    seq(|rows|, i requires 0 <= i < |rows| => HistoryItemOf(rows[i]))
  }

  /** The rows a listing delivers are those of the page served at the cursor. */
  function HistoryCall(db: Db, userId: int, taskId: int, startFromId: int, check: Fault,
                       query: Fault): Result<Page<HistoryItem>>
  {
    if !check.Fine? then Err(CALL_FAILED)
    else if !IsPartOfTeamByTask(db, userId, taskId) then Err(FORBIDDEN)
    else if !query.Fine? then Err(CALL_FAILED)
    else
      var page := Serve(HistoryOf(db, taskId), SNAPSHOT_ID, startFromId, DEFAULT_LIMIT);
      Ok(Page(HistoryItems(page.items), page.nextStartFromId, page.hasMore))
  }

  /** No membership check guards the listing of comments. */
  function CommentsCall(db: Db, taskId: int, startFromId: int, query: Fault): Result<Page<Comment>> {
    if !query.Fine? then Err(CALL_FAILED)
    else Ok(Serve(CommentsOf(db, taskId), COMMENT_ID, startFromId, DEFAULT_LIMIT))
  }
}
