/** How far the cache falls short when nothing fails and every live value is current: a lone id in an
    empty set, and teams of more than a hundred tasks. */
module Shortfalls {
  import opened Model
  import opened Paging
  import opened Tables
  import opened TaskCache
  import opened Operations
  import opened Serial
  import opened Coherence
  import opened Refinement
  import Agreement
  import SqlQuery

  /** Nothing fails; a fill has at most a hundred tasks, so at most this many commands. */
  const ALL_FINE := ListFaults(Fine, ReadFaults(Fine, Fine, Fine), Fine, DEFAULT_LIMIT + 2)

  /** The team's set has exactly the ids of these tasks, and their values are alive. */
  ghost predicate Holds(c: Cache, now: int, teamId: int, members: seq<Task>) {
    && LiveIds(c, now, teamId) == IdsOf(members)
    && forall i :: 0 <= i < |members| ==> LiveTask(c, now, members[i].id) == Some(members[i])
  }

  lemma AscendingSame(a: seq<int>, b: seq<int>)
    requires Ascending(a, SELF) && Ascending(b, SELF) && forall x :: x in a <==> x in b
    ensures a == b
  {
    PrefixByMembers(a, b);
    PrefixWithAllMembers(a, b);
  }

  lemma OneRowPerId(rows: seq<Task>, i: nat, t: Task)
    requires Ascending(rows, TASK_ID) && i < |rows| && t in rows && t.id == rows[i].id
    ensures t == rows[i]
  {
    var j :| 0 <= j < |rows| && rows[j] == t;
    assert TASK_ID(rows[j]) == TASK_ID(rows[i]);
  }

  lemma FrontAscending(rows: seq<Task>, more: seq<Task>)
    requires Ascending(rows + more, TASK_ID)
    ensures Ascending(rows, TASK_ID) && Ascending(more, TASK_ID)
    ensures forall i, j :: 0 <= i < |rows| && 0 <= j < |more| ==> rows[i].id < more[j].id
  {
    var all := rows + more;
    assert forall i :: 0 <= i < |rows| ==> all[i] == rows[i];
    assert forall j :: 0 <= j < |more| ==> all[|rows| + j] == more[j];
    forall i, j | 0 <= i < |rows| && 0 <= j < |more|
      ensures rows[i].id < more[j].id
    {
      assert TASK_ID(all[i]) < TASK_ID(all[|rows| + j]);
    }
    forall i, j | 0 <= i < j < |more|
      ensures TASK_ID(more[i]) < TASK_ID(more[j])
    {
      assert TASK_ID(all[|rows| + i]) < TASK_ID(all[|rows| + j]);
    }
  }

  lemma IdsExtended(members: seq<Task>, chunk: seq<Task>)
    requires Ascending(members + chunk, TASK_ID)
    ensures InsertAll(IdsOf(members), chunk) == IdsOf(members + chunk)
  {
    FrontAscending(members, chunk);
    IdsAscending(members);
    IdsAscending(members + chunk);
    InsertAllIn(IdsOf(members), chunk);
    forall x
      ensures x in InsertAll(IdsOf(members), chunk) <==> x in IdsOf(members + chunk)
    {
      IdsIn(members, x);
      IdsIn(members + chunk, x);
      assert (exists t :: t in members + chunk && t.id == x) <==>
             (exists t :: t in members && t.id == x) || exists t :: t in chunk && t.id == x;
    }
    AscendingSame(InsertAll(IdsOf(members), chunk), IdsOf(members + chunk));
  }

  /** What a whole pipeline with tasks beyond those held adds: just those. */
  lemma FillExtends(c: Cache, now: int, ttl: int, teamId: int, members: seq<Task>, chunk: seq<Task>)
    requires WellFormed(c) && ttl > 0 && chunk != [] && Holds(c, now, teamId, members)
    requires Ascending(members + chunk, TASK_ID)
    ensures Holds(Put(c, now, ttl, teamId, chunk), now, teamId, members + chunk)
  {
    var after := Put(c, now, ttl, teamId, chunk);
    var all := members + chunk;
    PutSet(c, now, ttl, teamId, chunk);
    IdsExtended(members, chunk);
    FrontAscending(members, chunk);
    forall i | 0 <= i < |all|
      ensures LiveTask(after, now, all[i].id) == Some(all[i])
    {
      PutGet(c, now, ttl, teamId, chunk, all[i].id);
      if i >= |members| {
        assert chunk[i - |members|] == all[i] && all[i] in chunk;
        OneRowPerId(chunk, i - |members|, after.values[all[i].id].task);
      } else {
        assert LiveTask(c, now, members[i].id) == Some(members[i]);
      }
    }
  }

  // ---------------------------------------------------------------------------
  // A lone id

  lemma {:induction false} AsManyAfterUpdate(rows: seq<Task>, id: int, c: Change, teamId: int)
    ensures |SqlQuery.Matching(UpdateRows(rows, id, c), teamId, "", 0, 0)|
            == |SqlQuery.Matching(rows, teamId, "", 0, 0)|
  {
    if rows != [] {
      assert UpdateRows(rows, id, c)[1..] == UpdateRows(rows[1..], id, c);
      AsManyAfterUpdate(rows[1..], id, c, teamId);
    }
  }

  /** A first-page read of a set with few enough members, all alive, is a hit with just those. */
  lemma ReadsWhatIsHeld(c: Cache, now: int, teamId: int, members: seq<Task>)
    requires Holds(c, now, teamId, members) && 0 < |members| <= PROBED
    ensures CachedPage(c, now, teamId, PROBED, None, ReadFaults(Fine, Fine, Fine)) == Ok(Some(members))
  {
    hide LiveIds;
    assert Range(IdsOf(members), 0, 0 + PROBED - 1) == IdsOf(members);
    ValuesHeld(c, now, teamId, members);
  }

  lemma ValuesHeld(c: Cache, now: int, teamId: int, members: seq<Task>)
    requires Holds(c, now, teamId, members)
    ensures LiveTasks(c, now, IdsOf(members)) == Some(members)
  {
    LiveTasksAre(c, now, IdsOf(members));
    assert forall i :: 0 <= i < |members| ==> LiveTask(c, now, IdsOf(members)[i]) == Some(members[i]);
    assert LiveTasks(c, now, IdsOf(members)).value == members;
  }

  lemma EditLeavesLoneId(s: Settings, w: World, edit: EditInput, f: EditFaults, historyId: int)
    requires s.ttl > 0 && Sound(s, w) && Updates(w, edit, f) && f.update.Fine? && !f.cache.LostBefore?
    requires var row := FindTask(w.db.tasks, edit.taskId).value;
             && (s.clientFoundRows || Apply(row, edit.change) != row)
             && !SetIsLive(w.cache, w.now, row.teamId)
    ensures var row := FindTask(w.db.tasks, edit.taskId).value;
            var o := EditCall(w.db, w.cache, w.now, s, edit, f, historyId);
            Holds(o.cache, w.now, row.teamId, [Apply(row, edit.change)])
  {
    var row := FindTask(w.db.tasks, edit.taskId).value;
    var updated := Apply(row, edit.change);
    EditEffect(s, w, edit, f, historyId);
    hide EditCall, Put;
    assert Holds(w.cache, w.now, row.teamId, []);
    assert [] + [updated] == [updated];
    FillExtends(w.cache, w.now, s.ttl, row.teamId, [], [updated]);
  }

  lemma ManyRowsFetched(db: Db, inp: ListInput)
    requires WellKeyed(db) && Unfiltered(inp) && inp.startFromId <= 0
    ensures |ListAnswer(FetchForList(db, inp)).items| == |Take(TeamRows(db, inp.teamId), DEFAULT_LIMIT)|
  {
    var rows := TeamRows(db, inp.teamId);
    FetchIsAfter(db, inp);
    MatchingPositive(db, inp.teamId);
    AfterNothing(rows, TASK_ID, inp.startFromId);
  }

  /** A cause of gaps: whenever a team's set is not alive, an edit of one of the team's tasks that succeeds and
      reaches the cache makes the team's next first-page listing a hit with that one task, however many
      the team has, and although every live value is current. */
  lemma EditIntoEmptySetHidesRows(s: Settings, w: World, edit: EditInput, f: EditFaults, historyId: int, inp: ListInput)
    requires s.ttl > 0 && Sound(s, w) && Coherent(w.db, w.cache, w.now)
    requires Updates(w, edit, f) && f.update.Fine? && !f.cache.LostBefore?
             && NextId(w.db.history, SNAPSHOT_ID, historyId)
    requires var row := FindTask(w.db.tasks, edit.taskId).value;
             && (s.clientFoundRows || Apply(row, edit.change) != row)
             && row.teamId == inp.teamId && !SetIsLive(w.cache, w.now, row.teamId)
    requires Unfiltered(inp) && inp.startFromId <= 0 && IsMember(w.db, inp.userId, inp.teamId)
    ensures var o := EditCall(w.db, w.cache, w.now, s, edit, f, historyId);
            && Coherent(o.db, o.cache, w.now)
            && ListCall(o.db, o.cache, w.now, s.ttl, inp, ALL_FINE).result ==
               Ok(Page([ItemOf(Apply(FindTask(w.db.tasks, edit.taskId).value, edit.change))], 0, false))
            && |ListAnswer(FetchForList(o.db, inp)).items| == |Take(TeamRows(w.db, inp.teamId), DEFAULT_LIMIT)|
  {
    hide EditCall, Coherent, Sound, CachedPage, FetchForList, IsMember, Agreement.KeepsRows, Put, SetIsLive, UpdateRows;
    var updated := Apply(FindTask(w.db.tasks, edit.taskId).value, edit.change);
    var o := EditCall(w.db, w.cache, w.now, s, edit, f, historyId);
    EditEffect(s, w, edit, f, historyId);
    SoundKeys(s, w);
    EditTables(w.db, w.cache, w.now, s, edit, f, historyId);
    EditKeepsMembers(w.db, w.cache, w.now, s, edit, f, historyId);
    EditCoherentIff(s, w, edit, f, historyId);
    EditLeavesLoneId(s, w, edit, f, historyId);
    ReadsWhatIsHeld(o.cache, w.now, inp.teamId, [updated]);
    LoneAnswer(updated);
    AsManyAfterUpdate(w.db.tasks, edit.taskId, edit.change, inp.teamId);
    ManyRowsFetched(o.db, inp);
    SameMember(w.db, o.db, inp.userId, inp.teamId);
    hide ListAnswer, Updates, WellKeyed, TeamRows, Holds;
  }

  lemma EditKeepsMembers(db: Db, c: Cache, now: int, s: Settings, inp: EditInput, f: EditFaults, historyId: int)
    ensures EditCall(db, c, now, s, inp, f, historyId).db.members == db.members
  {
    hide IsPartOfTeamByTask, CountsAsAffected, Put;
  }

  lemma SameMember(before: Db, after: Db, userId: int, teamId: int)
    requires before.members == after.members
    ensures IsMember(before, userId, teamId) <==> IsMember(after, userId, teamId)
  {}

  lemma LoneAnswer(t: Task)
    ensures ListAnswer([t]) == Page([ItemOf(t)], 0, false)
  {}

  // ---------------------------------------------------------------------------
  // More than a hundred tasks

  lemma FirstPageOfLargeTeam(db: Db, inp: ListInput)
    requires WellKeyed(db) && Unfiltered(inp) && inp.startFromId <= 0 && |TeamRows(db, inp.teamId)| > DEFAULT_LIMIT
    ensures var rows := TeamRows(db, inp.teamId);
            && Take(FetchForList(db, inp), DEFAULT_LIMIT) == rows[..DEFAULT_LIMIT]
            && ListAnswer(FetchForList(db, inp)) == Page(ItemsOf(rows[..DEFAULT_LIMIT]), rows[DEFAULT_LIMIT].id, true)
  {
    var rows := TeamRows(db, inp.teamId);
    FetchIsAfter(db, inp);
    MatchingPositive(db, inp.teamId);
    AfterNothing(rows, TASK_ID, inp.startFromId);
    assert FetchForList(db, inp)[..DEFAULT_LIMIT] == rows[..DEFAULT_LIMIT];
  }

  lemma AbsentSetMisses(c: Cache, now: int, teamId: int)
    requires !SetIsLive(c, now, teamId)
    ensures CachedPage(c, now, teamId, PROBED, None, ReadFaults(Fine, Fine, Fine)) == Ok(None)
    ensures Holds(c, now, teamId, [])
  {}

  lemma HundredFilled(c: Cache, now: int, ttl: int, teamId: int, hundred: seq<Task>)
    requires WellFormed(c) && ttl > 0 && !SetIsLive(c, now, teamId)
    requires |hundred| == DEFAULT_LIMIT && Ascending(hundred, TASK_ID)
    ensures var filled := Fill(c, now, ttl, teamId, hundred, DEFAULT_LIMIT + 2);
            CachedPage(filled, now, teamId, PROBED, None, ReadFaults(Fine, Fine, Fine)) == Ok(Some(hundred))
    ensures ListAnswer(hundred) == Page(ItemsOf(hundred), 0, false)
  {
    hide CachedPage, Fill, Holds;
    AbsentSetMisses(c, now, teamId);
    assert [] + hundred == hundred;
    FillExtends(c, now, ttl, teamId, [], hundred);
    FillIsPut(c, now, ttl, teamId, hundred, DEFAULT_LIMIT + 2);
    ReadsWhatIsHeld(Put(c, now, ttl, teamId, hundred), now, teamId, hundred);
  }

  /** A hundred tasks is the most the cache can serve faithfully: for every larger team, a first-page miss
      on an expired set answers that there is more, caches the hundred tasks it delivers, and the very
      next first-page listing is a hit that says there is no more. */
  lemma LargeTeamLosesItsTail(s: Settings, w: World, inp: ListInput)
    requires s.ttl > 0 && Sound(s, w) && Unfiltered(inp) && inp.startFromId <= 0
    requires IsMember(w.db, inp.userId, inp.teamId) && !SetIsLive(w.cache, w.now, inp.teamId)
    requires |TeamRows(w.db, inp.teamId)| > DEFAULT_LIMIT
    ensures var first := ListCall(w.db, w.cache, w.now, s.ttl, inp, ALL_FINE);
            var second := ListCall(w.db, first.cache, w.now, s.ttl, inp, ALL_FINE);
            var hundred := ItemsOf(TeamRows(w.db, inp.teamId)[..DEFAULT_LIMIT]);
            && first.result == Ok(Page(hundred, TeamRows(w.db, inp.teamId)[DEFAULT_LIMIT].id, true))
            && second.result == Ok(Page(hundred, 0, false))
  {
    hide FetchForList, ListAnswer, Fill, TeamRows, IsMember, CachedPage;
    var hundred := TeamRows(w.db, inp.teamId)[..DEFAULT_LIMIT];
    FirstPageOfLargeTeam(w.db, inp);
    AbsentSetMisses(w.cache, w.now, inp.teamId);
    HundredOfTeam(w.db, inp.teamId);
    HundredFilled(w.cache, w.now, s.ttl, inp.teamId, hundred);
  }

  lemma HundredOfTeam(db: Db, teamId: int)
    requires WellKeyed(db) && |TeamRows(db, teamId)| > DEFAULT_LIMIT
    ensures Ascending(TeamRows(db, teamId)[..DEFAULT_LIMIT], TASK_ID)
  {
    SqlQuery.MatchingAscending(db.tasks, teamId, "", 0, 0);
  }
}
