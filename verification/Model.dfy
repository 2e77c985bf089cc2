/** The entities of the tracker and what a statement sent to MySQL or Redis can do. */
module Model {

  datatype Option<+T> = None | Some(value: T)

  datatype Result<+T> = Ok(value: T) | Err(message: string)

  /** `internal/task/model.go` */
  datatype Task = Task(
    id: int,
    status: string,
    title: string,
    description: string,
    creatorId: int,
    assigneeId: int,
    teamId: int,
    createdAt: int
  )

  /** A row of `task_history`: the fields of a task before a change, who made it and when. */
  datatype Snapshot = Snapshot(
    id: int,
    taskId: int,
    status: string,
    title: string,
    description: string,
    creatorId: int,
    assigneeId: int,
    teamId: int,
    changedBy: int,
    changedAt: int
  )

  datatype Comment = Comment(id: int, createdAt: int, commenterId: int, taskId: int, text: string)

  datatype Member = Member(id: int, teamId: int, userId: int, role: string)

  datatype Team = Team(id: int, name: string)

  /** What happens to one call to the database or to Redis: it works; it fails and nothing has
      happened; or it takes effect and the caller is told it failed (the connection breaks, or the
      insert id or the affected-row count cannot be read). */
  datatype Fault = Fine | LostBefore | LostAfter

  /** Fixed for the life of the process.  `clientFoundRows` says what MySQL's affected-row count of
      an UPDATE means: rows matched (true) or rows actually changed (false, the driver's default). */
  datatype Settings = Settings(ttl: int, clientFoundRows: bool)

  const TASK_ID: Task -> int := (t: Task) => t.id
  const SNAPSHOT_ID: Snapshot -> int := (h: Snapshot) => h.id
  const COMMENT_ID: Comment -> int := (c: Comment) => c.id

  /** Everything about a task except when it was created, which history does not store. */
  datatype Version = Version(
    status: string,
    title: string,
    description: string,
    creatorId: int,
    assigneeId: int,
    teamId: int
  )

  function VersionOf(t: Task): Version {
    Version(t.status, t.title, t.description, t.creatorId, t.assigneeId, t.teamId)
  }

  function SnapshotVersion(h: Snapshot): Version {
    Version(h.status, h.title, h.description, h.creatorId, h.assigneeId, h.teamId)
  }

  /** The fields an edit never changes. */
  predicate SameIdentity(a: Task, b: Task) {
    a.id == b.id && a.creatorId == b.creatorId && a.teamId == b.teamId && a.createdAt == b.createdAt
  }
}
