/** How cache and tables agree: cached values are versions of existing rows, and sets hold only ids of that
    team's rows, whoever writes and wherever a pipeline is cut; that a live value is in the live set of its
    team holds exactly as long as the commands that make it so run together, or the set will do. */
module Agreement {
  import opened Model
  import opened Tables
  import opened TaskCache

  /** `t` is what some row is or once was: every field an edit cannot change is that row's. */
  ghost predicate Known(db: Db, t: Task) {
    exists row :: row in db.tasks && SameIdentity(t, row)
  }

  ghost predicate TeamHasTask(db: Db, teamId: int, id: int) {
    exists row :: row in db.tasks && row.id == id && row.teamId == teamId
  }

  /** The team has a set that holds the id and does not expire before that instant. */
  predicate Covered(c: Cache, teamId: int, id: int, exp: int) {
    teamId in c.sets && id in c.sets[teamId].ids && (c.sets[teamId].exp.Some? ==> c.sets[teamId].exp.value >= exp)
  }

  /** The value is in the set of its team, which does not expire sooner. */
  predicate Indexed(c: Cache, id: int)
    requires id in c.values
  {
    Covered(c, c.values[id].task.teamId, id, c.values[id].exp)
  }

  /** Every live value is indexed. */
  ghost predicate AllIndexed(c: Cache, now: int) {
    forall id :: id in c.values && Live(now, c.values[id].exp) ==> Indexed(c, id)
  }

  /** Cached values are versions of rows, sets hold ids of their team's rows, and nothing outlives the time
      to live it was last given. */
  ghost predicate CacheKnown(db: Db, c: Cache, now: int, ttl: int) {
    && WellFormed(c)
    && (forall id :: id in c.values ==> Known(db, c.values[id].task) && c.values[id].exp <= now + ttl)
    && (forall team, id :: team in c.sets && id in c.sets[team].ids ==> TeamHasTask(db, team, id))
    && (forall team :: team in c.sets && c.sets[team].exp.Some? ==> c.sets[team].exp.value <= now + ttl)
  }

  /** Every row stays, as itself or edited. */
  ghost predicate KeepsRows(before: Db, after: Db) {
    forall row :: row in before.tasks ==> Known(after, row)
  }

  lemma KnownLater(before: Db, after: Db, t: Task)
    requires KeepsRows(before, after) && Known(before, t)
    ensures Known(after, t)
  {
    var row :| row in before.tasks && SameIdentity(t, row);
    var later :| later in after.tasks && SameIdentity(row, later);
    assert SameIdentity(t, later);
  }

  lemma TablesMoveOn(before: Db, after: Db, c: Cache, now: int, ttl: int)
    requires CacheKnown(before, c, now, ttl) && KeepsRows(before, after)
    ensures CacheKnown(after, c, now, ttl)
  {
    forall id | id in c.values
      ensures Known(after, c.values[id].task)
    {
      KnownLater(before, after, c.values[id].task);
    }
    forall team, id | team in c.sets && id in c.sets[team].ids
      ensures TeamHasTask(after, team, id)
    {
      var row :| row in before.tasks && row.id == id && row.teamId == team;
      var later :| later in after.tasks && SameIdentity(row, later);
    }
  }

  lemma ClockMovesOn(db: Db, c: Cache, now: int, later: int, ttl: int)
    requires CacheKnown(db, c, now, ttl) && now <= later
    ensures CacheKnown(db, c, later, ttl)
  {}

  lemma InsertKeepsRows(db: Db, t: Task)
    ensures KeepsRows(db, InsertTask(db, t))
  {
    forall row | row in db.tasks
      ensures Known(InsertTask(db, t), row)
    {
      assert row in InsertTask(db, t).tasks && SameIdentity(row, row);
    }
  }

  lemma UpdateKeepsRows(db: Db, id: int, c: Change)
    ensures KeepsRows(db, UpdateTask(db, id, c))
  {
    forall row | row in db.tasks
      ensures Known(UpdateTask(db, id, c), row)
    {
      var after := if row.id == id then Apply(row, c) else row;
      UpdatedRow(db, id, c, after);
      assert SameIdentity(row, after);
    }
  }

  lemma SameTasksKeepsRows(before: Db, after: Db)
    requires before.tasks == after.tasks
    ensures KeepsRows(before, after)
  {
    forall row | row in before.tasks
      ensures Known(after, row)
    {
      assert SameIdentity(row, row);
    }
  }

  lemma KnownTeam(db: Db, t: Task)
    requires Known(db, t)
    ensures TeamHasTask(db, t.teamId, t.id)
  {}

  lemma VersionOfTeamRow(db: Db, t: Task, teamId: int)
    requires WellKeyed(db) && Known(db, t) && TeamHasTask(db, teamId, t.id)
    ensures t.teamId == teamId && t.id > 0
  {
    var row :| row in db.tasks && SameIdentity(t, row);
    var member :| member in db.tasks && member.id == t.id && member.teamId == teamId;
    TaskIsUnique(db, row, member);
    var i :| 0 <= i < |db.tasks| && db.tasks[i] == row;
    assert TASK_ID(db.tasks[i]) > 0;
  }

  lemma AddedIdsKnown(db: Db, c: Cache, now: int, ttl: int, teamId: int, tasks: seq<Task>)
    requires CacheKnown(db, c, now, ttl)
    requires forall t :: t in tasks ==> Known(db, t) && t.teamId == teamId
    ensures forall id :: id in InsertAll(LiveIds(c, now, teamId), tasks) ==> TeamHasTask(db, teamId, id)
  {
    InsertAllIn(LiveIds(c, now, teamId), tasks);
    forall id | id in InsertAll(LiveIds(c, now, teamId), tasks)
      ensures TeamHasTask(db, teamId, id)
    {
      if t :| t in tasks && t.id == id {
        KnownTeam(db, t);
      }
    }
  }

  /** Every command of either cache writer keeps the cache known, given tasks of one team that the tables
      know. */
  lemma CommandKnown(db: Db, c: Cache, now: int, ttl: int, teamId: int, tasks: seq<Task>, i: nat)
    requires CacheKnown(db, c, now, ttl) && ttl >= 0
    requires forall t :: t in tasks ==> Known(db, t) && t.teamId == teamId
    ensures CacheKnown(db, Command(c, now, ttl, teamId, tasks, i), now, ttl)
  {
    hide InsertAll, Known, TeamHasTask;
    CommandKeepsShape(c, now, ttl, teamId, tasks, i);
    AddedIdsKnown(db, c, now, ttl, teamId, tasks);
  }

  lemma {:induction false} CommandsKnown(db: Db, c: Cache, now: int, ttl: int, teamId: int, tasks: seq<Task>,
                                         first: nat,
                                         ran: nat)
    requires CacheKnown(db, c, now, ttl) && ttl >= 0
    requires forall t :: t in tasks ==> Known(db, t) && t.teamId == teamId
    ensures CacheKnown(db, Commands(c, now, ttl, teamId, tasks, first, ran), now, ttl)
  {
    hide CacheKnown, Command, Known;
    if ran > 0 {
      CommandsKnown(db, c, now, ttl, teamId, tasks, first, ran - 1);
      CommandKnown(db, Commands(c, now, ttl, teamId, tasks, first, ran - 1), now, ttl, teamId, tasks, first + ran - 1);
    }
  }

  lemma FillKnown(db: Db, c: Cache, now: int, ttl: int, teamId: int, tasks: seq<Task>, ran: nat)
    requires CacheKnown(db, c, now, ttl) && ttl >= 0
    requires forall t :: t in tasks ==> Known(db, t) && t.teamId == teamId
    ensures CacheKnown(db, Fill(c, now, ttl, teamId, tasks, ran), now, ttl)
  {
    CommandsKnown(db, c, now, ttl, teamId, tasks, 0, ran);
  }

  // ---------------------------------------------------------------------------
  // Which commands leave every live value indexed

  /** What some commands of a pipeline have to find: if they end with a SET, a set that already holds what they
      store, for as long; if they store something and end with the ZADD, a set that does not expire too soon,
      or none at all. */
  predicate SetWillDo(c: Cache, now: int, ttl: int, teamId: int, tasks: seq<Task>, first: nat, ran: nat) {
    if first + ran <= |tasks| then
      forall i :: first <= i < first + ran ==> Covered(c, teamId, tasks[i].id, now + ttl)
    else if first + ran == |tasks| + 1 && first < |tasks| then
      SetIsLive(c, now, teamId) && c.sets[teamId].exp.Some? ==> c.sets[teamId].exp.value >= now + ttl
    else true
  }

  lemma StoredIn(tasks: seq<Task>, first: nat, ran: nat)
    ensures forall t :: t in Stored(tasks, first, ran) ==> t in tasks
    ensures forall i :: first <= i < first + ran && i < |tasks| ==> tasks[i] in Stored(tasks, first, ran)
  {
    forall i | first <= i < first + ran && i < |tasks|
      ensures tasks[i] in Stored(tasks, first, ran)
    {
      assert Stored(tasks, first, ran)[i - first] == tasks[i];
    }
  }

  lemma StoredAt(tasks: seq<Task>, first: nat, ran: nat, t: Task) returns (i: nat)
    requires t in Stored(tasks, first, ran)
    ensures first <= i < first + ran && i < |tasks| && tasks[i] == t
  {
    var j :| 0 <= j < |Stored(tasks, first, ran)| && Stored(tasks, first, ran)[j] == t;
    i := first + j;
  }

  /** Commands that only store. */
  lemma OnlySets(c: Cache, now: int, ttl: int, teamId: int, tasks: seq<Task>, first: nat, ran: nat)
    requires ttl >= 0 && AllIndexed(c, now) && first + ran <= |tasks| && forall t :: t in tasks ==> t.teamId == teamId
    ensures AllIndexed(Commands(c, now, ttl, teamId, tasks, first, ran), now)
       <==> SetWillDo(c, now, ttl, teamId, tasks, first, ran)
  {
    hide Commands, Stored;
    var after := Commands(c, now, ttl, teamId, tasks, first, ran);
    CommandsSets(c, now, ttl, teamId, tasks, first, ran);
    StoredIn(tasks, first, ran);
    forall i | first <= i < first + ran && AllIndexed(after, now)
      ensures Covered(c, teamId, tasks[i].id, now + ttl)
    {
      CommandsGet(c, now, ttl, teamId, tasks, first, ran, tasks[i].id);
      assert Indexed(after, tasks[i].id);
    }
    if SetWillDo(c, now, ttl, teamId, tasks, first, ran) {
      forall id | id in after.values && Live(now, after.values[id].exp)
        ensures Indexed(after, id)
      {
        CommandsGet(c, now, ttl, teamId, tasks, first, ran, id);
        if t :| t in Stored(tasks, first, ran) && t.id == id {
          var i := StoredAt(tasks, first, ran, t);
          assert Covered(c, teamId, tasks[i].id, now + ttl);
        } else {
          assert Indexed(c, id);
        }
      }
    }
  }

  /** Commands that store something and end with the ZADD. */
  lemma SetsAndAdd(c: Cache, now: int, ttl: int, teamId: int, tasks: seq<Task>, first: nat, ran: nat)
    requires WellFormed(c) && ttl >= 0 && AllIndexed(c, now) && first < |tasks| && first + ran == |tasks| + 1
    requires forall t :: t in tasks ==> t.teamId == teamId
    ensures AllIndexed(Commands(c, now, ttl, teamId, tasks, first, ran), now)
       <==> SetWillDo(c, now, ttl, teamId, tasks, first, ran)
  {
    hide Commands, InsertAll, Stored, WellFormed;
    var after := Commands(c, now, ttl, teamId, tasks, first, ran);
    CommandsSets(c, now, ttl, teamId, tasks, first, ran);
    StoredIn(tasks, first, ran);
    AddedIds(c, now, teamId, tasks);
    CommandsGet(c, now, ttl, teamId, tasks, first, ran, tasks[first].id);
    if AllIndexed(after, now) {
      assert Indexed(after, tasks[first].id);
    }
    if SetWillDo(c, now, ttl, teamId, tasks, first, ran) {
      forall id | id in after.values && Live(now, after.values[id].exp)
        ensures Indexed(after, id)
      {
        CommandsGet(c, now, ttl, teamId, tasks, first, ran, id);
        if !(exists t :: t in Stored(tasks, first, ran) && t.id == id) {
          assert Indexed(c, id);
        }
      }
    }
  }

  lemma AddedIds(c: Cache, now: int, teamId: int, tasks: seq<Task>)
    requires WellFormed(c)
    ensures var ids := InsertAll(LiveIds(c, now, teamId), tasks);
            && (forall id :: id in LiveIds(c, now, teamId) ==> id in ids)
            && (forall t :: t in tasks ==> t.id in ids)
  {
    InsertAllIn(LiveIds(c, now, teamId), tasks);
  }

  /** The ZADD by itself, commands through the EXPIRE, and the EXPIRE by itself. */
  lemma ThroughExpire(db: Db, c: Cache, now: int, ttl: int, teamId: int, tasks: seq<Task>, first: nat, ran: nat)
    requires CacheKnown(db, c, now, ttl) && ttl >= 0 && AllIndexed(c, now)
    requires forall t :: t in tasks ==> t.teamId == teamId
    requires first + ran > |tasks| && (first + ran == |tasks| + 1 ==> first >= |tasks|)
    ensures AllIndexed(Commands(c, now, ttl, teamId, tasks, first, ran), now)
  {
    var after := Commands(c, now, ttl, teamId, tasks, first, ran);
    CommandsSets(c, now, ttl, teamId, tasks, first, ran);
    StoredIn(tasks, first, ran);
    AddedIds(c, now, teamId, tasks);
    hide Commands, InsertAll, Known, TeamHasTask, WellFormed;
    forall id | id in after.values && Live(now, after.values[id].exp)
      ensures Indexed(after, id)
    {
      CommandsGet(c, now, ttl, teamId, tasks, first, ran, id);
      if !(exists t :: t in Stored(tasks, first, ran) && t.id == id) {
        assert Indexed(c, id);
      }
    }
  }

  /** A listing's pipeline is no transaction: Redis may run some commands now and the rest later, or never.  From
      a state in which every live value is indexed, any number of its commands, from any of them on, leads
      to such a state if and only if the set will do. */
  lemma CommandsIndexIff(db: Db, c: Cache, now: int, ttl: int, teamId: int, tasks: seq<Task>, first: nat, ran: nat)
    requires CacheKnown(db, c, now, ttl) && ttl >= 0 && AllIndexed(c, now)
    requires forall t :: t in tasks ==> Known(db, t) && t.teamId == teamId
    ensures AllIndexed(Commands(c, now, ttl, teamId, tasks, first, ran), now)
       <==> SetWillDo(c, now, ttl, teamId, tasks, first, ran)
  {
    hide Commands, Known, TeamHasTask;
    if first + ran <= |tasks| {
      OnlySets(c, now, ttl, teamId, tasks, first, ran);
    } else if first + ran == |tasks| + 1 && first < |tasks| {
      SetsAndAdd(c, now, ttl, teamId, tasks, first, ran);
    } else {
      ThroughExpire(db, c, now, ttl, teamId, tasks, first, ran);
    }
  }
}
