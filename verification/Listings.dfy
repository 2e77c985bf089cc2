/** What clients paging through history, comments and tasks are given while others write. */
module Listings {
  import opened Model
  import opened Paging
  import opened SqlQuery
  import opened Tables
  import opened Interleaving
  import CallOutcomes
  import Operations

  lemma StepAppends(s: Settings, st: State, e: Event)
    requires Enabled(st, e)
    ensures st.db.history <= Step(s, st, e).db.history
    ensures st.db.comments <= Step(s, st, e).db.comments
  {
    hide CacheAfter, SpansAfter, NextOp, UpdateRows, IsMember;
  }

  lemma {:induction false} TablesAppend(s: Settings, past: seq<State>, events: seq<Event>, i: nat, j: nat)
    requires Steps(s, past, events) && i <= j < |past|
    ensures past[i].db.history <= past[j].db.history
    ensures past[i].db.comments <= past[j].db.comments
    decreases j
  {
    hide Step, Enabled;
    if i < j {
      TablesAppend(s, past, events, i, j - 1);
      assert past[j - 1 + 1] == Step(s, past[j - 1], events[j - 1]);
      StepAppends(s, past[j - 1], events[j - 1]);
    }
  }

  /** The points of a run at which a client's requests are served, one after the other. */
  ghost predicate InOrder(points: seq<nat>, n: nat) {
    && (forall i :: 0 <= i < |points| ==> points[i] <= n)
    && (forall i, j :: 0 <= i <= j < |points| ==> points[i] <= points[j])
  }

  /** The database a request served at the given point sees. */
  ghost function DbAt(s: Settings, events: seq<Event>, point: nat): Db
    requires Legal(s, events)
  {
    if point <= |events| then At(s, events, point).db else EMPTY
  }

  lemma DbLater(s: Settings, events: seq<Event>, i: nat, j: nat)
    requires Legal(s, events) && i <= j <= |events|
    ensures DbAt(s, events, i).history <= DbAt(s, events, j).history
    ensures DbAt(s, events, i).comments <= DbAt(s, events, j).comments
    ensures WellKeyed(DbAt(s, events, i))
  {
    hide Legal, Replay, Past, WellKeyed;
    PastSteps(s, events);
    TablesAppend(s, Past(s, events), events, i, j);
    AtIsReplay(s, events, i);
    RunKeepsKeys(s, events[..i]);
  }

  /** The databases the requests of a client see. */
  ghost function DbsAt(s: Settings, events: seq<Event>, points: seq<nat>): (dbs: seq<Db>)
    requires Legal(s, events)
    ensures |dbs| == |points| && forall i :: 0 <= i < |points| ==> dbs[i] == DbAt(s, events, points[i])
  {
    seq(|points|, i requires 0 <= i < |points| => DbAt(s, events, points[i]))
  }

  function HistoryTables(dbs: seq<Db>, taskId: int): (tables: seq<seq<Snapshot>>)
    ensures |tables| == |dbs| && forall i :: 0 <= i < |dbs| ==> tables[i] == HistoryOf(dbs[i], taskId)
  {
    seq(|dbs|, i requires 0 <= i < |dbs| => HistoryOf(dbs[i], taskId))
  }

  function CommentTables(dbs: seq<Db>, taskId: int): (tables: seq<seq<Comment>>)
    ensures |tables| == |dbs| && forall i :: 0 <= i < |dbs| ==> tables[i] == CommentsOf(dbs[i], taskId)
  {
    seq(|dbs|, i requires 0 <= i < |dbs| => CommentsOf(dbs[i], taskId))
  }

  lemma HistoryTablesGrow(s: Settings, events: seq<Event>, points: seq<nat>, taskId: int)
    requires Legal(s, events) && InOrder(points, |events|)
    ensures var tables := HistoryTables(DbsAt(s, events, points), taskId);
            Growing(tables, SNAPSHOT_ID) && forall i :: 0 <= i < |points| ==> Positive(tables[i], SNAPSHOT_ID)
  {
    hide DbAt, OfTask;
    var tables := HistoryTables(DbsAt(s, events, points), taskId);
    forall i, j | 0 <= i <= j < |points|
      ensures tables[i] <= tables[j]
    {
      DbLater(s, events, points[i], points[j]);
      OfTaskPrefix(DbAt(s, events, points[i]).history, DbAt(s, events, points[j]).history, SNAPSHOT_TASK, taskId);
    }
    forall i | 0 <= i < |points|
      ensures Ascending(tables[i], SNAPSHOT_ID) && Positive(tables[i], SNAPSHOT_ID)
    {
      DbLater(s, events, points[i], points[i]);
      OfTaskKeepsKeys(DbAt(s, events, points[i]).history, SNAPSHOT_TASK, taskId, SNAPSHOT_ID);
    }
  }

  lemma CommentTablesGrow(s: Settings, events: seq<Event>, points: seq<nat>, taskId: int)
    requires Legal(s, events) && InOrder(points, |events|)
    ensures var tables := CommentTables(DbsAt(s, events, points), taskId);
            Growing(tables, COMMENT_ID) && forall i :: 0 <= i < |points| ==> Positive(tables[i], COMMENT_ID)
  {
    hide DbAt, OfTask;
    var tables := CommentTables(DbsAt(s, events, points), taskId);
    forall i, j | 0 <= i <= j < |points|
      ensures tables[i] <= tables[j]
    {
      DbLater(s, events, points[i], points[j]);
      OfTaskPrefix(DbAt(s, events, points[i]).comments, DbAt(s, events, points[j]).comments, COMMENT_TASK, taskId);
    }
    forall i | 0 <= i < |points|
      ensures Ascending(tables[i], COMMENT_ID) && Positive(tables[i], COMMENT_ID)
    {
      DbLater(s, events, points[i], points[i]);
      OfTaskKeepsKeys(DbAt(s, events, points[i]).comments, COMMENT_TASK, taskId, COMMENT_ID);
    }
  }

  // ---------------------------------------------------------------------------
  // Clients that feed each answer's cursor to the next call

  /** The answers a client gets that pages through a task's comments until it is told that there is no more; its
      i-th request finds the i-th database. */
  function CommentPages(dbs: seq<Db>, taskId: int, startFromId: int): seq<Page<Comment>> {
    if dbs == [] then []
    else
      match Operations.CommentsCall(dbs[0], taskId, startFromId, Fine)
      case Err(_) => []
      case Ok(page) => [page] + if page.hasMore then CommentPages(dbs[1..], taskId, page.nextStartFromId) else []
  }

  function HistoryPages(dbs: seq<Db>, userId: int, taskId: int, startFromId: int): seq<Page<Operations.HistoryItem>> {
    if dbs == [] then []
    else
      match Operations.HistoryCall(dbs[0], userId, taskId, startFromId, Fine, Fine)
      case Err(_) => []
      case Ok(page) =>
        [page] + if page.hasMore then HistoryPages(dbs[1..], userId, taskId, page.nextStartFromId) else []
  }

  lemma {:induction false} CommentPagesAreSession(dbs: seq<Db>, taskId: int, startFromId: int)
    ensures CommentPages(dbs, taskId, startFromId) ==
            Session(CommentTables(dbs, taskId), COMMENT_ID, startFromId, DEFAULT_LIMIT)
  {
    if dbs != [] {
      hide Serve, OfTask;
      var page := Serve(CommentsOf(dbs[0], taskId), COMMENT_ID, startFromId, DEFAULT_LIMIT);
      CommentPagesAreSession(dbs[1..], taskId, page.nextStartFromId);
      assert CommentTables(dbs, taskId)[1..] == CommentTables(dbs[1..], taskId);
    }
  }

  /** As many pages, each with the same flag and cursor, and with an item for every row. */
  ghost predicate Itemized(pages: seq<Page<Operations.HistoryItem>>, session: seq<Page<Snapshot>>) {
    && |pages| == |session|
    && forall i :: 0 <= i < |pages| ==>
         && pages[i].hasMore == session[i].hasMore && pages[i].nextStartFromId == session[i].nextStartFromId
         && pages[i].items == Operations.HistoryItems(session[i].items)
  }

  lemma {:induction false} HistoryPagesAreSession(dbs: seq<Db>, userId: int, taskId: int, startFromId: int)
    requires forall i :: 0 <= i < |dbs| ==> IsPartOfTeamByTask(dbs[i], userId, taskId)
    ensures Itemized(HistoryPages(dbs, userId, taskId, startFromId),
                     Session(HistoryTables(dbs, taskId), SNAPSHOT_ID, startFromId, DEFAULT_LIMIT))
  {
    hide Serve, OfTask, IsPartOfTeamByTask, Operations.HistoryItems, Itemized;
    if dbs != [] {
      var page := Serve(HistoryOf(dbs[0], taskId), SNAPSHOT_ID, startFromId, DEFAULT_LIMIT);
      var next := Session(HistoryTables(dbs[1..], taskId), SNAPSHOT_ID, page.nextStartFromId, DEFAULT_LIMIT);
      HistoryPagesAreSession(dbs[1..], userId, taskId, page.nextStartFromId);
      assert HistoryTables(dbs, taskId)[1..] == HistoryTables(dbs[1..], taskId);
      assert IsPartOfTeamByTask(dbs[0], userId, taskId);
      ItemizedCons(page, HistoryPages(dbs[1..], userId, taskId, page.nextStartFromId), next);
    } else {
      NothingItemized();
    }
  }

  lemma NothingItemized()
    ensures Itemized([], [])
  {}

  lemma ItemizedCons(page: Page<Snapshot>, pages: seq<Page<Operations.HistoryItem>>, session: seq<Page<Snapshot>>)
    requires Itemized(pages, session)
    ensures var first := Page(Operations.HistoryItems(page.items), page.nextStartFromId, page.hasMore);
            && Itemized([first] + pages, [page] + session) && Itemized([first], [page])
            && [first] + [] == [first]
  {}

  lemma {:induction false} ItemizedDelivered(pages: seq<Page<Operations.HistoryItem>>, session: seq<Page<Snapshot>>)
    requires Itemized(pages, session)
    ensures Delivered(pages) == Operations.HistoryItems(Delivered(session))
  {
    if pages != [] {
      ItemizedDelivered(pages[1..], session[1..]);
    }
  }

  // ---------------------------------------------------------------------------
  // What they have in the end

  /** A member paging through a task's history while edits go on: once told that there is no more, the client has, in
      order and column by column, the rows whose rank among the rows at that moment is not 100 modulo 101, that
      is n - n/101 of n; until then it is never told that there is no more. */
  lemma HistoryWhileEditing(s: Settings, events: seq<Event>, points: seq<nat>, userId: int, taskId: int)
    requires Legal(s, events) && points != [] && InOrder(points, |events|)
    requires CallOutcomes.OnTaskRoster(DbAt(s, events, points[0]), userId, taskId)
    ensures var dbs := DbsAt(s, events, points);
            var pages := HistoryPages(dbs, userId, taskId, 0);
            && 0 < |pages| <= |points|
            && (pages[|pages| - 1].hasMore ==> |pages| == |points|)
            && var rows := HistoryOf(dbs[|pages| - 1], taskId);
               var given := Delivered(pages);
               !pages[|pages| - 1].hasMore ==>
                 && |given| == |rows| - |rows| / 101
                 && (forall j :: 0 <= j < |given| ==>
                       && j + j / 100 < |rows|
                       && var h := rows[j + j / 100];
                          given[j] ==
                          Operations.HistoryItem(
                            id := h.id, taskId := h.taskId, status := h.status, title := h.title,
                            description := h.description, creatorId := h.creatorId, assigneeId := h.assigneeId,
                            teamId := h.teamId, changedBy := h.changedBy, changedAt := h.changedAt))
  {
    hide *;
    var dbs := DbsAt(s, events, points);
    HistoryTablesGrow(s, events, points, taskId);
    StillMember(s, events, points, userId, taskId);
    HistoryPagesGive(dbs, userId, taskId);
    KeptColumns(HistoryOf(dbs[|HistoryPages(dbs, userId, taskId, 0)| - 1], taskId));
  }

  lemma HistoryPagesGive(dbs: seq<Db>, userId: int, taskId: int)
    requires dbs != [] && forall i :: 0 <= i < |dbs| ==> IsPartOfTeamByTask(dbs[i], userId, taskId)
    requires var tables := HistoryTables(dbs, taskId);
             Growing(tables, SNAPSHOT_ID) && forall i :: 0 <= i < |dbs| ==> Positive(tables[i], SNAPSHOT_ID)
    ensures var pages := HistoryPages(dbs, userId, taskId, 0);
            && 0 < |pages| <= |dbs|
            && (pages[|pages| - 1].hasMore ==> |pages| == |dbs|)
            && var rows := HistoryOf(dbs[|pages| - 1], taskId);
               && (!pages[|pages| - 1].hasMore ==> Delivered(pages) == Operations.HistoryItems(Kept(rows, 0, 101)))
               && Ascending(rows, SNAPSHOT_ID)
  {
    hide OfTask, Session, HistoryPages, Kept, IsPartOfTeamByTask, Delivered, Positive, Ascending;
    var tables := HistoryTables(dbs, taskId);
    GrowingSession(tables, SNAPSHOT_ID, DEFAULT_LIMIT);
    HistoryPagesAreSession(dbs, userId, taskId, 0);
    ItemizedDelivered(HistoryPages(dbs, userId, taskId, 0), Session(tables, SNAPSHOT_ID, 0, DEFAULT_LIMIT));
  }

  /** The items of the kept rows, column by column. */
  lemma KeptColumns(rows: seq<Snapshot>)
    requires Ascending(rows, SNAPSHOT_ID)
    ensures var given := Operations.HistoryItems(Kept(rows, 0, 101));
            && |given| == |rows| - |rows| / 101
            && (forall j :: 0 <= j < |given| ==>
                  && j + j / 100 < |rows|
                  && var h := rows[j + j / 100];
                     given[j] ==
                     Operations.HistoryItem(
                       id := h.id, taskId := h.taskId, status := h.status, title := h.title,
                       description := h.description, creatorId := h.creatorId, assigneeId := h.assigneeId,
                       teamId := h.teamId, changedBy := h.changedBy, changedAt := h.changedAt))
  {
    hide Kept;
    KeptExactly(rows, SNAPSHOT_ID);
  }

  /** Whoever was a member at the first request is at every later one. */
  lemma StillMember(s: Settings, events: seq<Event>, points: seq<nat>, userId: int, taskId: int)
    requires Legal(s, events) && points != [] && InOrder(points, |events|)
    requires CallOutcomes.OnTaskRoster(DbAt(s, events, points[0]), userId, taskId)
    ensures forall i :: 0 <= i < |points| ==> IsPartOfTeamByTask(DbAt(s, events, points[i]), userId, taskId)
  {
    hide Legal, Replay, Past, Grows, IsPartOfTeamByTask, CallOutcomes.OnTaskRoster;
    PastSteps(s, events);
    CallOutcomes.PartOfTeamMeans(DbAt(s, events, points[0]), userId, taskId);
    forall i | 0 <= i < |points|
      ensures IsPartOfTeamByTask(DbAt(s, events, points[i]), userId, taskId)
    {
      PastGrows(s, Past(s, events), events, points[0], points[i]);
      PartOfTeamLater(DbAt(s, events, points[0]), DbAt(s, events, points[i]), userId, taskId);
    }
  }

  /** Anyone paging through a task's comments while others write: the same. */
  lemma CommentsWhileWriting(s: Settings, events: seq<Event>, points: seq<nat>, taskId: int)
    requires Legal(s, events) && points != [] && InOrder(points, |events|)
    ensures var dbs := DbsAt(s, events, points);
            var pages := CommentPages(dbs, taskId, 0);
            && 0 < |pages| <= |points|
            && (pages[|pages| - 1].hasMore ==> |pages| == |points|)
            && var rows := CommentsOf(dbs[|pages| - 1], taskId);
               var given := Delivered(pages);
               !pages[|pages| - 1].hasMore ==>
                 && |given| == |rows| - |rows| / 101
                 && Ascending(given, COMMENT_ID)
                 && (forall r :: 0 <= r < |rows| ==> (rows[r] in given <==> r % 101 != 100))
  {
    hide DbAt, OfTask, Session, Kept;
    var dbs := DbsAt(s, events, points);
    var tables := CommentTables(dbs, taskId);
    CommentTablesGrow(s, events, points, taskId);
    GrowingSession(tables, COMMENT_ID, DEFAULT_LIMIT);
    KeptExactly(tables[|Session(tables, COMMENT_ID, 0, DEFAULT_LIMIT)| - 1], COMMENT_ID);
    CommentPagesAreSession(dbs, taskId, 0);
  }

  /** A task listing answered by the database, with any filters, is the page of the matching rows at its
      cursor. */
  lemma TaskPageIsServed(db: Db, inp: Operations.ListInput)
    requires WellKeyed(db)
    ensures Operations.ListAnswer(Operations.FetchForList(db, inp)) ==
            var page := Serve(Matching(db.tasks, inp.teamId, inp.status, inp.assigneeId, 0), TASK_ID, inp.startFromId,
                DEFAULT_LIMIT);
            Page(Operations.ItemsOf(page.items), page.nextStartFromId, page.hasMore)
  {
    MatchingAfterCursor(db.tasks, inp.teamId, inp.status, inp.assigneeId, inp.startFromId);
  }

  /** Paging through the tasks matching any filters of an unchanging table of n matching rows: n/101 + 1
      requests, and the same rows kept. */
  lemma TaskPagesCoverage(db: Db, inp: Operations.ListInput, requests: nat)
    requires WellKeyed(db)
    requires requests > |Matching(db.tasks, inp.teamId, inp.status, inp.assigneeId, 0)| / 101
    ensures var rows := Matching(db.tasks, inp.teamId, inp.status, inp.assigneeId, 0);
            var pages := Session(Repeat(rows, requests), TASK_ID, 0, DEFAULT_LIMIT);
            && |pages| == |rows| / 101 + 1 && !pages[|pages| - 1].hasMore
            && (forall r :: 0 <= r < |rows| ==> (rows[r] in Delivered(pages) <==> r % 101 != 100))
            && (Delivered(pages) == rows <==> |rows| <= DEFAULT_LIMIT)
  {
    var rows := Matching(db.tasks, inp.teamId, inp.status, inp.assigneeId, 0);
    MatchingAscending(db.tasks, inp.teamId, inp.status, inp.assigneeId, 0);
    forall i | 0 <= i < |rows|
      ensures TASK_ID(rows[i]) > 0
    {
      MatchingIn(db.tasks, inp.teamId, inp.status, inp.assigneeId, 0, rows[i]);
      var j :| 0 <= j < |db.tasks| && db.tasks[j] == rows[i];
      assert TASK_ID(db.tasks[j]) > 0;
    }
    SessionCoverage(rows, TASK_ID, requests);
    EveryRowDeliveredIff(rows, TASK_ID, requests);
  }
}
