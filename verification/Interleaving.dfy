/** Any number of executor calls in flight at once: every statement sent to MySQL and every command or
    transaction sent to Redis is one step, and so is any stretch of a pipeline that is no transaction;
    steps of different calls come in any order, and every step may fail. */
module Interleaving {
  import opened Model
  import opened Tables
  import opened TaskCache
  import opened Operations
  import opened Agreement
  import Paging

  /** Where the tasks of an answered listing come from, with the position in the run of each step that
      produced them: the SELECT; or the ZRANK (if there was a cursor), the ZRANGE and the MGET. */
  datatype Source = FromTables(at: nat) | FromCache(ranked: Option<nat>, ranged: nat, got: nat)

  /** Where a call is, with the local variables it still needs.  `readAt`, `ranked` and `ranged` are the
      positions in the run of the steps that produced those locals, `updatedAt` the one just after the
      UPDATE; a step at position i is the i-th event and sees the state before it.  `sent` counts the
      commands of a listing's pipeline that Redis has run. */
  datatype Op =
    | ListCheck(list: ListInput)
    | ListRank(list: ListInput)
    | ListRange(list: ListInput, start: nat, ranked: Option<nat>)
    | ListGet(list: ListInput, start: nat, ranked: Option<nat>, ids: seq<int>, ranged: nat)
    | ListQuery(list: ListInput)
    | ListFill(list: ListInput, fetched: seq<Task>, readAt: nat, sent: nat)
    | EditGet(edit: EditInput)
    | EditCheck(edit: EditInput, row: Task, readAt: nat)
    | EditStamp(edit: EditInput, row: Task, readAt: nat)
    | EditRecord(edit: EditInput, row: Task, readAt: nat, changedAt: int)
    | EditUpdate(edit: EditInput, row: Task, readAt: nat, historyId: int)
    | EditCache(edit: EditInput, updated: Task, updatedAt: nat)
    | CreateCheck(create: CreateInput)
    | CreateStamp(create: CreateInput)
    | CreateInsert(create: CreateInput, createdAt: int)
    | CommentCheck(comment: CommentInput)
    | CommentStamp(comment: CommentInput)
    | CommentInsert(comment: CommentInput, createdAt: int)
    | InviteCheck(invite: InviteInput)
    | InviteInsert(invite: InviteInput)
    | TeamInsert(name: string, userId: int)
    | OwnerInsert(name: string, userId: int, teamId: int)
    | TeamCommit(name: string, userId: int, teamId: int, memberId: int)
    | Served(list: ListInput, tasks: seq<Task>, source: Source)
    | Done
    | Failed

  predicate Initial(op: Op) {
    op.ListCheck? || op.EditGet? || op.CreateCheck? || op.CommentCheck? || op.InviteCheck? || op.TeamInsert?
  }

  predicate Final(op: Op) {
    op.Served? || op.Done? || op.Failed?
  }

  /** The call holds the row it read. */
  predicate HasRow(op: Op) {
    op.EditCheck? || op.EditStamp? || op.EditRecord? || op.EditUpdate?
  }

  /** A call in flight, and the position of the event that began it. */
  datatype Flight = Flight(op: Op, began: nat)

  /** How a value read from the tables got somewhere else: which call carried it, and the positions at which
      that call began, the tables held the value, and the call wrote it. */
  datatype Span = Span(call: nat, began: nat, held: nat, wrote: nat)

  /** An UPDATE of a task that took effect, at which position, and the history row its call had inserted. */
  datatype Applied = Applied(taskId: int, historyId: int, at: nat)

  /** The tables, the cache, the clock and the calls in flight; and beside them a record of the run: how many
      events it has had, how each cached value was written (`spans`) and each history row (`readings`, by
      its id), who invited each invited member, and the updates that took effect. */
  datatype State = State(
    db: Db,
    cache: Cache,
    now: int,
    flights: map<nat, Flight>,
    step: nat,
    spans: map<int, Span>,
    readings: map<int, Span>,
    inviters: map<int, int>,
    updates: seq<Applied>
  )

  /** What the other side decides about a step: whether it works; the id it hands out, where the step inserts
      a row; and, where the step is part of a pipeline that is no transaction, how many of its commands
      Redis runs in a row, after which the pipeline goes on, if all is fine, or is cut. */
  datatype Reply = Reply(fault: Fault, newId: int, ran: nat)

  datatype Event =
    | Begin(flight: nat, op: Op)
    | Advance(flight: nat, reply: Reply)
    | Tick(duration: nat)

  const START := State(EMPTY, EMPTY_CACHE, 0, map[], 0, map[], map[], map[], [])

  /** The engine hands out a new id where the step inserts a row. */
  predicate IdIsNew(db: Db, op: Op, newId: int) {
    && (op.EditRecord? ==> NextId(db.history, SNAPSHOT_ID, newId))
    && (op.CreateInsert? ==> NextId(db.tasks, TASK_ID, newId))
    && (op.CommentInsert? ==> NextId(db.comments, COMMENT_ID, newId))
    && (op.InviteInsert? || op.OwnerInsert? ==> newId > db.memberSeq)
    && (op.TeamInsert? ==> newId > db.teamSeq)
  }

  predicate Enabled(st: State, e: Event) {
    match e
    case Begin(k, op) => k !in st.flights && Initial(op)
    case Advance(k, r) => k in st.flights && !Final(st.flights[k].op) && IdIsNew(st.db, st.flights[k].op, r.newId)
    case Tick(_) => true
  }

  /** The next step of a call, where the step only reads: the clock, which cannot fail, or the tables or the
      cache. */
  function Read(st: State, op: Op, fault: Fault): Op {
    match op
    case EditStamp(inp, row, readAt) => EditRecord(inp, row, readAt, st.now)
    case CreateStamp(inp) => CreateInsert(inp, st.now)
    case CommentStamp(inp) => CommentInsert(inp, st.now)
    case _ => if fault.Fine? then ReadStores(st, op) else Failed
  }

  function ReadStores(st: State, op: Op): Op {
    match op
    case ListCheck(inp) =>
      if !IsMember(st.db, inp.userId, inp.teamId) then Failed
      else if !Unfiltered(inp) then ListQuery(inp)
      else if inp.startFromId > 0 then ListRank(inp)
      else ListRange(inp, 0, None)
    case ListRank(inp) =>
      (match IndexOf(LiveIds(st.cache, st.now, inp.teamId), inp.startFromId)
       case None => ListQuery(inp)
       case Some(rank) => ListRange(inp, rank + 1, Some(st.step)))
    case ListRange(inp, start, ranked) =>
      var window := Range(LiveIds(st.cache, st.now, inp.teamId), start, start + Paging.DEFAULT_LIMIT);
      if window == [] then ListQuery(inp) else ListGet(inp, start, ranked, window, st.step)
    case ListGet(inp, _, ranked, ids, ranged) =>
      (match LiveTasks(st.cache, st.now, ids)
       case None => ListQuery(inp)
       case Some(tasks) => Served(inp, tasks, FromCache(ranked, ranged, st.step)))
    case ListQuery(inp) =>
      var fetched := FetchForList(st.db, inp);
      if Unfiltered(inp) then ListFill(inp, fetched, st.step, 0) else Served(inp, fetched, FromTables(st.step))
    case EditGet(inp) =>
      (match FindTask(st.db.tasks, inp.taskId)
       case None => Failed
       case Some(row) => EditCheck(inp, row, st.step))
    case EditCheck(inp, row, readAt) =>
      if IsPartOfTeamByTask(st.db, inp.userId, inp.taskId) then EditStamp(inp, row, readAt) else Failed
    case CreateCheck(inp) => if IsMember(st.db, inp.creatorId, inp.teamId) then CreateStamp(inp) else Failed
    case CommentCheck(inp) =>
      if IsPartOfTeamByTask(st.db, inp.commenterId, inp.taskId) then CommentStamp(inp) else Failed
    case InviteCheck(inp) => if CanInvite(st.db, inp.teamId, inp.inviterUserId) then InviteInsert(inp) else Failed
    case _ => op
  }

  predicate Writes(op: Op) {
    || op.ListFill? || op.EditRecord? || op.EditUpdate? || op.EditCache? || op.CreateInsert? || op.CommentInsert?
    || op.InviteInsert? || op.TeamInsert? || op.OwnerInsert? || op.TeamCommit?
  }

  /** A write step takes effect; how much of a listing's pipeline does is in `ran`. */
  predicate Lands(op: Op, r: Reply) {
    op.ListFill? || !r.fault.LostBefore?
  }

  /** What a write step does to the tables when it takes effect. */
  function WriteTables(st: State, op: Op, newId: int): Db {
    match op
    case EditRecord(inp, row, _, changedAt) => InsertHistory(st.db, SnapshotOf(row, newId, inp.userId, changedAt))
    case EditUpdate(inp, _, _, _) => UpdateTask(st.db, inp.taskId, inp.change)
    case CreateInsert(inp, createdAt) => InsertTask(st.db, NewTask(inp, newId, createdAt))
    case CommentInsert(inp, createdAt) =>
      InsertComment(st.db, Comment(newId, createdAt, inp.commenterId, inp.taskId, inp.text))
    case InviteInsert(inp) =>
      InviteTables(st.db, Member(newId, inp.teamId, inp.userId, inp.role))
    case TeamInsert(_, _) => TakeTeamId(st.db, newId)
    case OwnerInsert(_, _, _) => TakeMemberId(st.db, newId)
    case TeamCommit(name, userId, teamId, memberId) =>
      CommitTeam(st.db, Team(teamId, name), Member(memberId, teamId, userId, OWNER))
    case _ => st.db
  }

  /** What a write step sends to the cache. */
  function CacheBatch(op: Op): (int, seq<Task>) {
    match op
    case ListFill(inp, fetched, _, _) => (inp.teamId, Paging.Take(fetched, Paging.DEFAULT_LIMIT))
    case EditCache(_, updated, _) => (updated.teamId, [updated])
    case _ => (0, [])
  }

  /** Which of those commands run: the edit's three are a transaction. */
  function Sent(op: Op): nat {
    if op.ListFill? then op.sent else 0
  }

  function Ran(op: Op, r: Reply): nat {
    if op.ListFill? then r.ran else 3
  }

  function CacheAfter(s: Settings, st: State, op: Op, r: Reply): Cache {
    var batch := CacheBatch(op);
    if batch.1 == [] then st.cache
    else Commands(st.cache, st.now, s.ttl, batch.0, batch.1, Sent(op), Ran(op, r))
  }

  function HeldPosition(op: Op): nat {
    match op
    case ListFill(_, _, readAt, _) => readAt
    case EditCache(_, _, updatedAt) => updatedAt
    case _ => 0
  }

  function StampAll(spans: map<int, Span>, tasks: seq<Task>, span: Span): map<int, Span> {
    if tasks == [] then spans else StampAll(spans, tasks[..|tasks| - 1], span)[tasks[|tasks| - 1].id := span]
  }

  function SpansAfter(st: State, k: nat, fl: Flight, r: Reply): map<int, Span> {
    StampAll(st.spans, Stored(CacheBatch(fl.op).1, Sent(fl.op), Ran(fl.op, r)),
             Span(k, fl.began, HeldPosition(fl.op), st.step))
  }

  /** The pipeline has commands left, and the connection to send them. */
  predicate GoesOn(op: Op, r: Reply)
    requires op.ListFill?
  {
    r.fault.Fine? && CacheBatch(op).1 != [] && op.sent + r.ran < |CacheBatch(op).1| + 2
  }

  /** Where the call goes after a write step. */
  function AfterWrite(s: Settings, st: State, op: Op, r: Reply): Op {
    match op
    case ListFill(inp, fetched, readAt, sent) =>
      if GoesOn(op, r) then ListFill(inp, fetched, readAt, sent + r.ran) else Served(inp, fetched, FromTables(readAt))
    case EditCache(_, _, _) => Done
    case EditRecord(inp, row, readAt, _) => if r.fault.Fine? then EditUpdate(inp, row, readAt, r.newId) else Failed
    case EditUpdate(inp, row, _, _) =>
      if r.fault.Fine? && CountsAsAffected(st.db, inp.taskId, inp.change, s.clientFoundRows)
      then EditCache(inp, Apply(row, inp.change), st.step + 1)
      else Failed
    case TeamInsert(name, userId) => if r.fault.Fine? then OwnerInsert(name, userId, r.newId) else Failed
    case OwnerInsert(name, userId, teamId) =>
      if r.fault.Fine? then TeamCommit(name, userId, teamId, r.newId) else Failed
    case InviteInsert(inp) => if r.fault.Fine? && !IsMember(st.db, inp.userId, inp.teamId) then Done else Failed
    case _ => if r.fault.Fine? then Done else Failed
  }

  /** A write that takes effect, whether or not its caller learns of it. */
  function Write(s: Settings, st: State, k: nat, r: Reply): State
    requires k in st.flights
  {
    var fl := st.flights[k];
    var op := fl.op;
    st.(db := WriteTables(st, op, r.newId),
        cache := CacheAfter(s, st, op, r),
        spans := SpansAfter(st, k, fl, r),
        readings := if op.EditRecord? then st.readings[r.newId := Span(k, fl.began, op.readAt, st.step)]
                    else st.readings,
        inviters := if op.InviteInsert? && !IsMember(st.db, op.invite.userId, op.invite.teamId)
                    then st.inviters[r.newId := op.invite.inviterUserId] else st.inviters,
        updates := if op.EditUpdate? then st.updates + [Applied(op.edit.taskId, op.historyId, st.step)] else st.updates)
  }

  /** Where a call goes when it moves. */
  function NextOp(s: Settings, st: State, op: Op, r: Reply): Op {
    if Writes(op) then AfterWrite(s, st, op, r) else Read(st, op, r.fault)
  }

  function Step(s: Settings, st: State, e: Event): State
    requires Enabled(st, e)
  {
    match e
    case Begin(k, op) => st.(flights := st.flights[k := Flight(op, st.step)], step := st.step + 1)
    case Tick(d) => st.(now := st.now + d, step := st.step + 1)
    case Advance(k, r) =>
      var fl := st.flights[k];
      var after := if Writes(fl.op) && Lands(fl.op, r) then Write(s, st, k, r) else st;
      after.(flights := st.flights[k := fl.(op := NextOp(s, st, fl.op, r))], step := st.step + 1)
  }

  // ---------------------------------------------------------------------------
  // Runs

  ghost predicate Legal(s: Settings, events: seq<Event>)
    decreases |events|, 0
  {
    events != [] ==>
      Legal(s, events[..|events| - 1]) && Enabled(Replay(s, events[..|events| - 1]), events[|events| - 1])
  }

  ghost function Replay(s: Settings, events: seq<Event>): State
    requires Legal(s, events)
    decreases |events|, 1
  {
    if events == [] then START else Step(s, Replay(s, events[..|events| - 1]), events[|events| - 1])
  }

  /** The states of a run, from the start to the end. */
  ghost function Past(s: Settings, events: seq<Event>): (past: seq<State>)
    requires Legal(s, events)
    ensures |past| == |events| + 1 && past[|events|] == Replay(s, events)
  {
    (if events == [] then [] else Past(s, events[..|events| - 1])) + [Replay(s, events)]
  }

  /** The state the i-th event of the run finds. */
  ghost function At(s: Settings, events: seq<Event>, i: nat): State
    requires Legal(s, events) && i <= |events|
  {
    Past(s, events)[i]
  }

  /** A position means the same in every longer run: it is the state its first i events lead to. */
  lemma {:induction false} AtIsReplay(s: Settings, events: seq<Event>, i: nat)
    requires Legal(s, events) && i <= |events|
    ensures Legal(s, events[..i]) && At(s, events, i) == Replay(s, events[..i])
    decreases |events|
  {
    if i == |events| {
      assert events[..i] == events;
    } else {
      var init := events[..|events| - 1];
      assert init[..i] == events[..i];
      AtIsReplay(s, init, i);
    }
  }

  lemma {:induction false} PastOfPrefix(s: Settings, events: seq<Event>, i: nat)
    requires Legal(s, events) && i <= |events|
    ensures Legal(s, events[..i]) && Past(s, events[..i]) == Past(s, events)[..i + 1]
    decreases |events|
  {
    if i == |events| {
      assert events[..i] == events;
      assert Past(s, events)[..i + 1] == Past(s, events);
    } else {
      var init := events[..|events| - 1];
      assert init[..i] == events[..i];
      PastOfPrefix(s, init, i);
      assert Past(s, events)[..i + 1] == Past(s, init)[..i + 1];
    }
  }

  /** Each state follows from the one before. */
  ghost predicate Steps(s: Settings, past: seq<State>, events: seq<Event>) {
    && |past| == |events| + 1
    && (forall i :: 0 <= i < |events| ==> Enabled(past[i], events[i]) && past[i + 1] == Step(s, past[i], events[i]))
    && (forall i :: 0 <= i < |past| ==> past[i].step == i)
  }

  lemma {:induction false} PastSteps(s: Settings, events: seq<Event>)
    requires Legal(s, events)
    ensures Steps(s, Past(s, events), events)
  {
    if events != [] {
      var init, e := events[..|events| - 1], events[|events| - 1];
      PastSteps(s, init);
      hide Step, Enabled, Legal;
      assert Past(s, events) == Past(s, init) + [Replay(s, events)];
      StepCounts(s, Replay(s, init), e);
      assert Replay(s, events) == Step(s, Replay(s, init), e);
    }
  }

  lemma StepCounts(s: Settings, st: State, e: Event)
    requires Enabled(st, e)
    ensures Step(s, st, e).step == st.step + 1
  {
    hide WriteTables, CacheAfter, SpansAfter, NextOp, IsMember;
  }

  // ---------------------------------------------------------------------------
  // The rely condition: what every step of every call leaves standing

  ghost predicate Grows(before: Db, after: Db) {
    && KeepsRows(before, after)
    && (forall h :: h in before.history ==> h in after.history)
    && (forall c :: c in before.comments ==> c in after.comments)
    && (forall m :: m in before.members ==> m in after.members)
    && (forall t :: t in before.teams ==> t in after.teams)
    && before.memberSeq <= after.memberSeq
    && before.teamSeq <= after.teamSeq
  }

  lemma GrowsRefl(db: Db)
    ensures Grows(db, db)
  {
    SameTasksKeepsRows(db, db);
  }

  lemma GrowsTrans(a: Db, b: Db, c: Db)
    requires Grows(a, b) && Grows(b, c)
    ensures Grows(a, c)
  {
    forall row | row in a.tasks
      ensures Known(c, row)
    {
      KnownLater(b, c, row);
    }
  }

  lemma WriteGrows(st: State, op: Op, newId: int)
    requires IdIsNew(st.db, op, newId)
    ensures Grows(st.db, WriteTables(st, op, newId))
  {
    var after := WriteTables(st, op, newId);
    match op {
      case EditUpdate(inp, _, _, _) => UpdateKeepsRows(st.db, inp.taskId, inp.change);
      case CreateInsert(inp, createdAt) => InsertKeepsRows(st.db, NewTask(inp, newId, createdAt));
      case _ => SameTasksKeepsRows(st.db, after);
    }
  }

  lemma StepGrows(s: Settings, st: State, e: Event)
    requires Enabled(st, e)
    ensures Grows(st.db, Step(s, st, e).db)
    ensures st.now <= Step(s, st, e).now
  {
    hide WriteTables, CacheAfter, SpansAfter, NextOp, IsMember, Grows, IdIsNew;
    GrowsRefl(st.db);
    if e.Advance? {
      NewIdOfStep(st, e.flight, e.reply);
      WriteGrows(st, st.flights[e.flight].op, e.reply.newId);
    }
  }

  lemma NewIdOfStep(st: State, k: nat, r: Reply)
    requires Enabled(st, Advance(k, r))
    ensures IdIsNew(st.db, st.flights[k].op, r.newId)
  {}

  /** From one position of a run to a later one the tables have only grown and the clock has not gone back. */
  lemma {:induction false} PastGrows(s: Settings, past: seq<State>, events: seq<Event>, i: nat, j: nat)
    requires Steps(s, past, events) && i <= j < |past|
    ensures Grows(past[i].db, past[j].db) && past[i].now <= past[j].now
    decreases j
  {
    hide Grows, Step, Enabled;
    if i == j {
      GrowsRefl(past[i].db);
    } else {
      PastGrows(s, past, events, i, j - 1);
      assert past[j - 1 + 1] == Step(s, past[j - 1], events[j - 1]);
      StepGrows(s, past[j - 1], events[j - 1]);
      GrowsTrans(past[i].db, past[j - 1].db, past[j].db);
    }
  }

  /** Memberships last. */
  lemma MemberLater(before: Db, after: Db, userId: int, teamId: int)
    requires Grows(before, after) && IsMember(before, userId, teamId)
    ensures IsMember(after, userId, teamId)
  {
    var m :| m in before.members && m.userId == userId && m.teamId == teamId;
    assert m in after.members;
  }

  lemma PartOfTeamLater(before: Db, after: Db, userId: int, taskId: int)
    requires Grows(before, after) && IsPartOfTeamByTask(before, userId, taskId)
    ensures IsPartOfTeamByTask(after, userId, taskId)
  {
    var t :| t in before.tasks && t.id == taskId && IsMember(before, userId, t.teamId);
    MemberLater(before, after, userId, t.teamId);
    assert Known(after, t);
    var later :| later in after.tasks && SameIdentity(t, later);
  }

  lemma CanInviteLater(before: Db, after: Db, teamId: int, userId: int)
    requires Grows(before, after) && CanInvite(before, teamId, userId)
    ensures CanInvite(after, teamId, userId)
  {
    var m :| m in before.members && m.teamId == teamId && m.userId == userId && Privileged(m);
    assert m in after.members;
  }

  lemma WriteKeepsKeys(st: State, op: Op, newId: int)
    requires WellKeyed(st.db) && IdIsNew(st.db, op, newId)
    ensures WellKeyed(WriteTables(st, op, newId))
  {
    match op {
      case EditUpdate(inp, _, _, _) => UpdateKeepsKeys(st.db, inp.taskId, inp.change);
      case CreateInsert(inp, createdAt) => AppendKeepsKeys(st.db.tasks, TASK_ID, NewTask(inp, newId, createdAt));
      case EditRecord(inp, row, _, changedAt) =>
        AppendKeepsKeys(st.db.history, SNAPSHOT_ID, SnapshotOf(row, newId, inp.userId, changedAt));
      case CommentInsert(inp, createdAt) =>
        AppendKeepsKeys(st.db.comments, COMMENT_ID, Comment(newId, createdAt, inp.commenterId, inp.taskId, inp.text));
      case _ =>
    }
  }

  lemma StepKeepsKeys(s: Settings, st: State, e: Event)
    requires WellKeyed(st.db) && Enabled(st, e)
    ensures WellKeyed(Step(s, st, e).db)
  {
    hide WriteTables, CacheAfter, SpansAfter, NextOp, IsMember, WellKeyed, IdIsNew;
    if e.Advance? {
      NewIdOfStep(st, e.flight, e.reply);
      WriteKeepsKeys(st, st.flights[e.flight].op, e.reply.newId);
    }
  }

  lemma {:induction false} RunKeepsKeys(s: Settings, events: seq<Event>)
    requires Legal(s, events)
    ensures WellKeyed(Replay(s, events).db)
  {
    if events != [] {
      RunKeepsKeys(s, events[..|events| - 1]);
      StepKeepsKeys(s, Replay(s, events[..|events| - 1]), events[|events| - 1]);
    }
  }

  /** What moving one call changes about the calls in flight. */
  lemma OnlyMoves(s: Settings, st: State, k: nat, r: Reply)
    requires Enabled(st, Advance(k, r))
    ensures var after := Step(s, st, Advance(k, r));
            && after.flights.Keys == st.flights.Keys
            && (forall j :: j in st.flights && j != k ==> after.flights[j] == st.flights[j])
            && after.flights[k] == st.flights[k].(op := NextOp(s, st, st.flights[k].op, r))
            && after.now == st.now && after.step == st.step + 1
  {
    hide WriteTables, CacheAfter, SpansAfter, NextOp, IsMember;
  }

  /** The tables and the cache after one call has moved. */
  lemma StepLeaves(s: Settings, st: State, k: nat, r: Reply)
    requires Enabled(st, Advance(k, r))
    ensures var op := st.flights[k].op;
            var after := Step(s, st, Advance(k, r));
            if Writes(op) && Lands(op, r) then
              && after.db == WriteTables(st, op, r.newId) && after.cache == CacheAfter(s, st, op, r)
              && after.spans == SpansAfter(st, k, st.flights[k], r)
            else
              after.db == st.db && after.cache == st.cache && after.spans == st.spans
  {
    hide WriteTables, CacheAfter, SpansAfter, NextOp, IsMember;
  }

  lemma FlightMoves(st: State, k: nat, r: Reply)
    requires Enabled(st, Advance(k, r))
    ensures k in st.flights
  {}
}
