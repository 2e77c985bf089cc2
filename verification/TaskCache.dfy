/** What the Redis cache holds, seen as two maps: task id to task, and team id to the ascending ids
    of its sorted set.  Module `RedisRepository` shows that the one string-keyed store behaves so. */
module TaskCache {
  import opened Model
  import opened Paging

  datatype Entry = Entry(task: Task, exp: int)

  /** A sorted set has no expiry from its first ZADD until it is given one. */
  datatype TeamSet = TeamSet(ids: seq<int>, exp: Option<int>)

  datatype Cache = Cache(values: map<int, Entry>, sets: map<int, TeamSet>)

  const EMPTY_CACHE := Cache(map[], map[])

  const SELF: int -> int := (i: int) => i

  /** A key lives through the instant it is set to expire at. */
  predicate Live(now: int, exp: int) {
    now <= exp
  }

  function LiveTask(c: Cache, now: int, id: int): Option<Task> {
    if id in c.values && Live(now, c.values[id].exp) then Some(c.values[id].task) else None
  }

  predicate SetIsLive(c: Cache, now: int, teamId: int) {
    teamId in c.sets && (c.sets[teamId].exp.Some? ==> Live(now, c.sets[teamId].exp.value))
  }

  /** Members of the team's sorted set; a set that is absent or expired has none. */
  function LiveIds(c: Cache, now: int, teamId: int): seq<int> {
    if SetIsLive(c, now, teamId) then c.sets[teamId].ids else []
  }

  // ---------------------------------------------------------------------------
  // Writing

  /** ZADD of one id. */
  function InsertId(ids: seq<int>, id: int): seq<int> {
    if ids == [] then [id]
    else if ids[0] < id then [ids[0]] + InsertId(ids[1..], id)
    else if ids[0] == id then ids
    else [id] + ids
  }

  function InsertAll(ids: seq<int>, tasks: seq<Task>): seq<int> {
    if tasks == [] then ids else InsertId(InsertAll(ids, tasks[..|tasks| - 1]), tasks[|tasks| - 1].id)
  }

  function SetTask(c: Cache, t: Task, exp: int): Cache {
    c.(values := c.values[t.id := Entry(t, exp)])
  }

  /** ZADD of the tasks' ids to the team's set. */
  function AddIds(c: Cache, now: int, teamId: int, tasks: seq<Task>): Cache {
    c.(sets := c.sets[teamId := TeamSet(InsertAll(LiveIds(c, now, teamId), tasks),
                                        if SetIsLive(c, now, teamId) then c.sets[teamId].exp else None)])
  }

  function ExpireSet(c: Cache, now: int, teamId: int, exp: int): Cache {
    if SetIsLive(c, now, teamId) then c.(sets := c.sets[teamId := c.sets[teamId].(exp := Some(exp))]) else c
  }

  /** The commands of a cache write in the order they are sent: one SET per task, one ZADD, one EXPIRE. */
  function Command(c: Cache, now: int, ttl: int, teamId: int, tasks: seq<Task>, i: nat): Cache {
    if i < |tasks| then SetTask(c, tasks[i], now + ttl)
    else if i == |tasks| then AddIds(c, now, teamId, tasks)
    else if i == |tasks| + 1 then ExpireSet(c, now, teamId, now + ttl)
    else c
  }

  /** Some of them: as many as `ran`, beginning with the one of that number. */
  function Commands(c: Cache, now: int, ttl: int, teamId: int, tasks: seq<Task>, first: nat, ran: nat): Cache {
    if ran == 0 then c
    else Command(Commands(c, now, ttl, teamId, tasks, first, ran - 1), now, ttl, teamId, tasks, first + ran - 1)
  }

  /** The tasks whose SET is among them. */
  function Stored(tasks: seq<Task>, first: nat, ran: nat): seq<Task> {
    if first >= |tasks| then [] else Take(tasks[first..], ran)
  }

  /** A pipeline of which Redis runs the first `ran` commands; nothing is sent for no tasks. */
  function Fill(c: Cache, now: int, ttl: int, teamId: int, tasks: seq<Task>, ran: nat): Cache {
    if tasks == [] then c else Commands(c, now, ttl, teamId, tasks, 0, ran)
  }

  /** The whole pipeline. */
  function Put(c: Cache, now: int, ttl: int, teamId: int, tasks: seq<Task>): Cache {
    Fill(c, now, ttl, teamId, tasks, |tasks| + 2)
  }

  // ---------------------------------------------------------------------------
  // Reading

  /** ZRANK */
  function IndexOf(ids: seq<int>, id: int): (r: Option<nat>)
    ensures r.Some? ==> r.value < |ids| && ids[r.value] == id
    ensures r.None? ==> id !in ids
  {
    if ids == [] then None
    else if ids[0] == id then Some(0)
    else match IndexOf(ids[1..], id)
      case None => None
      case Some(r) => Some(r + 1)
  }

  /** ZRANGE start stop, both ends included and clipped to the set. */
  function Range<T>(elems: seq<T>, start: nat, stop: int): seq<T> {
    if start >= |elems| || stop < start then []
    else if stop >= |elems| then elems[start..]
    else elems[start..stop + 1]
  }

  /** MGET, None as soon as one value is missing. */
  function LiveTasks(c: Cache, now: int, ids: seq<int>): Option<seq<Task>> {
    if ids == [] then Some([])
    else
      match (LiveTasks(c, now, ids[..|ids| - 1]), LiveTask(c, now, ids[|ids| - 1]))
      case (Some(ts), Some(t)) => Some(ts + [t])
      case _ => None
  }

  /** `ListTasksFromCache`: the tasks of a hit, or None for a miss. */
  function ReadPage(c: Cache, now: int, teamId: int, limit: int, startFromId: Option<int>): Option<seq<Task>> {
    ReadMembers(c, now, LiveIds(c, now, teamId), limit, startFromId)
  }

  function ReadMembers(c: Cache, now: int, ids: seq<int>, limit: int, startFromId: Option<int>): Option<seq<Task>> {
    match startFromId
    case None => ReadRange(c, now, ids, 0, limit)
    case Some(cursor) =>
      match IndexOf(ids, cursor)
      case None => None
      case Some(rank) => ReadRange(c, now, ids, rank + 1, limit)
  }

  function ReadRange(c: Cache, now: int, ids: seq<int>, start: nat, limit: int): Option<seq<Task>> {
    var window := Range(ids, start, start + limit - 1);
    if window == [] then None else LiveTasks(c, now, window)
  }

  /** What may go wrong with the three commands of a cache read. */
  datatype ReadFaults = ReadFaults(rank: Fault, range: Fault, mget: Fault)

  const INVALID_CACHE_LIMIT := "invalid limit"
  const REDIS_FAILED := "redis: call failed"

  /** `ListTasksFromCache` with its failures: a failing command is an error only if it is sent. */
  function CachedPage(c: Cache, now: int, teamId: int, limit: int, startFromId: Option<int>,
                      f: ReadFaults): Result<Option<seq<Task>>>
  {
    var ids := LiveIds(c, now, teamId);
    if limit <= 0 then Err(INVALID_CACHE_LIMIT)
    else
      match startFromId
      case None => CachedRange(c, now, ids, 0, limit, f)
      case Some(cursor) =>
        if !f.rank.Fine? then Err(REDIS_FAILED)
        else
          match IndexOf(ids, cursor)
          case None => Ok(None)
          case Some(rank) => CachedRange(c, now, ids, rank + 1, limit, f)
  }

  function CachedRange(c: Cache, now: int, ids: seq<int>, start: nat, limit: int,
                       f: ReadFaults): Result<Option<seq<Task>>>
  {
    var window := Range(ids, start, start + limit - 1);
    if !f.range.Fine? then Err(REDIS_FAILED)
    else if window == [] then Ok(None)
    else if !f.mget.Fine? then Err(REDIS_FAILED)
    else Ok(LiveTasks(c, now, window))
  }

  lemma CachedPageAnswer(c: Cache, now: int, teamId: int, limit: int, startFromId: Option<int>, f: ReadFaults)
    ensures var r := CachedPage(c, now, teamId, limit, startFromId, f);
            && (r.Ok? ==> r.value == ReadPage(c, now, teamId, limit, startFromId))
            && (limit > 0 && f == ReadFaults(Fine, Fine, Fine) ==> r.Ok?)
  {}

  function IdsOf(tasks: seq<Task>): (ids: seq<int>)
    ensures |ids| == |tasks| && forall i :: 0 <= i < |tasks| ==> ids[i] == tasks[i].id
  {
    seq(|tasks|, i requires 0 <= i < |tasks| => tasks[i].id)
  }

  // ---------------------------------------------------------------------------
  // Shape

  ghost predicate WellFormed(c: Cache) {
    && (forall id :: id in c.values ==> c.values[id].task.id == id)
    && (forall team :: team in c.sets ==> Ascending(c.sets[team].ids, SELF))
  }

  lemma {:induction false} InsertIdIn(ids: seq<int>, id: int)
    requires Ascending(ids, SELF)
    ensures Ascending(InsertId(ids, id), SELF)
    ensures forall x :: x in InsertId(ids, id) <==> x == id || x in ids
  {
    if ids != [] {
      AscendingTail(ids, SELF);
      if ids[0] < id {
        var rest := InsertId(ids[1..], id);
        InsertIdIn(ids[1..], id);
        forall i | 0 <= i < |rest|
          ensures SELF(ids[0]) < SELF(rest[i])
        {
          assert rest[i] in rest;
        }
        AscendingCons(ids[0], rest, SELF);
      } else if ids[0] > id {
        forall i | 0 <= i < |ids|
          ensures SELF(id) < SELF(ids[i])
        {
          assert i > 0 ==> SELF(ids[0]) < SELF(ids[i]);
        }
        AscendingCons(id, ids, SELF);
      }
    }
  }

  lemma {:induction false} InsertAllIn(ids: seq<int>, tasks: seq<Task>)
    requires Ascending(ids, SELF)
    ensures Ascending(InsertAll(ids, tasks), SELF)
    ensures forall x :: x in InsertAll(ids, tasks) <==> x in ids || exists t :: t in tasks && t.id == x
  {
    if tasks != [] {
      var init, last := tasks[..|tasks| - 1], tasks[|tasks| - 1];
      InsertAllIn(ids, init);
      InsertIdIn(InsertAll(ids, init), last.id);
      assert tasks == init + [last];
    }
  }

  lemma StoredOneMore(tasks: seq<Task>, first: nat, ran: nat)
    requires ran > 0
    ensures Stored(tasks, first, ran) ==
            Stored(tasks, first, ran - 1) + if first + ran <= |tasks| then [tasks[first + ran - 1]] else []
  {}

  /** What a key holds after some of the commands: a task whose SET has run, or what it held before. */
  lemma {:induction false} CommandsGet(c: Cache, now: int, ttl: int, teamId: int, tasks: seq<Task>, first: nat,
                                       ran: nat,
                                       id: int)
    ensures var after := Commands(c, now, ttl, teamId, tasks, first, ran);
            var stored := Stored(tasks, first, ran);
            var written := exists t :: t in stored && t.id == id;
            && (id in after.values <==> id in c.values || written)
            && (written ==> after.values[id].exp == now + ttl
                            && after.values[id].task in stored && after.values[id].task.id == id)
            && (!written && id in c.values ==> after.values[id] == c.values[id])
  {
    hide Stored, AddIds, ExpireSet;
    if ran > 0 {
      CommandsGet(c, now, ttl, teamId, tasks, first, ran - 1, id);
      StoredOneMore(tasks, first, ran);
      if first + ran > |tasks| {
        SetsLeaveValues(Commands(c, now, ttl, teamId, tasks, first, ran - 1), now, ttl, teamId, tasks, first + ran - 1);
      }
    } else {
      NothingStored(tasks, first);
    }
  }

  lemma NothingStored(tasks: seq<Task>, first: nat)
    ensures Stored(tasks, first, 0) == []
  {}

  lemma SetsLeaveValues(c: Cache, now: int, ttl: int, teamId: int, tasks: seq<Task>, i: nat)
    requires i >= |tasks|
    ensures Command(c, now, ttl, teamId, tasks, i).values == c.values
  {}

  lemma FillGet(c: Cache, now: int, ttl: int, teamId: int, tasks: seq<Task>, ran: nat, id: int)
    ensures var after := Fill(c, now, ttl, teamId, tasks, ran);
            var written := exists t :: t in Take(tasks, ran) && t.id == id;
            && (id in after.values <==> id in c.values || written)
            && (written ==> after.values[id].exp == now + ttl
                            && after.values[id].task in Take(tasks, ran) && after.values[id].task.id == id)
            && (!written && id in c.values ==> after.values[id] == c.values[id])
  {
    CommandsGet(c, now, ttl, teamId, tasks, 0, ran, id);
    assert tasks[0..] == tasks;
  }

  lemma PutGet(c: Cache, now: int, ttl: int, teamId: int, tasks: seq<Task>, id: int)
    ensures var after := Put(c, now, ttl, teamId, tasks);
            && (id in after.values <==> id in c.values || exists t :: t in tasks && t.id == id)
            && ((exists t :: t in tasks && t.id == id) ==>
                  after.values[id].exp == now + ttl && after.values[id].task in tasks && after.values[id].task.id == id)
            && (!(exists t :: t in tasks && t.id == id) && id in c.values ==> after.values[id] == c.values[id])
  {
    FillGet(c, now, ttl, teamId, tasks, |tasks| + 2, id);
    assert Take(tasks, |tasks| + 2) == tasks;
  }

  /** The sets after some of the commands, by whether the ZADD and the EXPIRE are among them. */
  lemma {:induction false} CommandsSets(c: Cache, now: int, ttl: int, teamId: int, tasks: seq<Task>, first: nat,
                                        ran: nat)
    ensures var after := Commands(c, now, ttl, teamId, tasks, first, ran);
            var ids := InsertAll(LiveIds(c, now, teamId), tasks);
            var was := if SetIsLive(c, now, teamId) then c.sets[teamId].exp else None;
            var added, expired := first <= |tasks| < first + ran, first <= |tasks| + 1 < first + ran;
            after.sets == if added then c.sets[teamId := TeamSet(ids, if expired then Some(now + ttl) else was)]
                          else if expired then ExpireSet(c, now, teamId, now + ttl).sets
                          else c.sets
  {
    if ran > 0 {
      CommandsSets(c, now, ttl, teamId, tasks, first, ran - 1);
      SetsAfterCommand(c, Commands(c, now, ttl, teamId, tasks, first, ran - 1), now, ttl, teamId, tasks,
          first + ran - 1);
    }
  }

  /** A command does to the sets what it would do to any cache with these sets. */
  lemma SetsAfterCommand(a: Cache, b: Cache, now: int, ttl: int, teamId: int, tasks: seq<Task>, i: nat)
    ensures a.sets == b.sets ==>
              Command(a, now, ttl, teamId, tasks, i).sets == Command(b, now, ttl, teamId, tasks, i).sets
  {}

  /** Sets only gain members, and stay alive at least as long. */
  lemma FillKeepsLiveSet(c: Cache, now: int, ttl: int, teamId: int, tasks: seq<Task>, ran: nat, team: int)
    requires WellFormed(c) && ttl > 0 && SetIsLive(c, now, team)
    ensures SetIsLive(Fill(c, now, ttl, teamId, tasks, ran), now, team)
    ensures forall id :: id in LiveIds(c, now, team) ==> id in LiveIds(Fill(c, now, ttl, teamId, tasks, ran), now, team)
  {
    CommandsSets(c, now, ttl, teamId, tasks, 0, ran);
    InsertAllIn(LiveIds(c, now, teamId), tasks);
  }

  /** A pipeline is over after its EXPIRE. */
  lemma {:induction false} FillIsPut(c: Cache, now: int, ttl: int, teamId: int, tasks: seq<Task>, ran: nat)
    requires ran >= |tasks| + 2
    ensures Fill(c, now, ttl, teamId, tasks, ran) == Put(c, now, ttl, teamId, tasks)
  {
    if ran > |tasks| + 2 {
      FillIsPut(c, now, ttl, teamId, tasks, ran - 1);
    }
  }

  lemma PutSet(c: Cache, now: int, ttl: int, teamId: int, tasks: seq<Task>)
    requires tasks != []
    ensures Put(c, now, ttl, teamId, tasks).sets ==
            c.sets[teamId := TeamSet(InsertAll(LiveIds(c, now, teamId), tasks), Some(now + ttl))]
  {
    CommandsSets(c, now, ttl, teamId, tasks, 0, |tasks| + 2);
  }

  lemma CommandKeepsShape(c: Cache, now: int, ttl: int, teamId: int, tasks: seq<Task>, i: nat)
    requires WellFormed(c)
    ensures WellFormed(Command(c, now, ttl, teamId, tasks, i))
  {
    InsertAllIn(LiveIds(c, now, teamId), tasks);
  }

  // ---------------------------------------------------------------------------
  // A cache page is a window of the set

  /** The ids a page is made of, by their values instead of their ranks. */
  function Window(ids: seq<int>, limit: nat, startFromId: Option<int>): seq<int> {
    Take(if startFromId.Some? then After(ids, SELF, startFromId.value) else ids, limit)
  }

  lemma RangeFromStart(ids: seq<int>, limit: nat)
    requires limit > 0
    ensures Range(ids, 0, 0 + limit - 1) == Window(ids, limit, None)
  {}

  lemma RangeIsWindow(ids: seq<int>, limit: nat, rank: nat)
    requires Ascending(ids, SELF) && limit > 0 && rank < |ids|
    ensures Range(ids, rank + 1, rank + 1 + limit - 1) == Window(ids, limit, Some(ids[rank]))
  {
    AfterRow(ids, SELF, rank);
  }

  lemma {:induction false} LiveTasksAre(c: Cache, now: int, ids: seq<int>)
    ensures LiveTasks(c, now, ids).Some? <==> forall i :: 0 <= i < |ids| ==> LiveTask(c, now, ids[i]).Some?
    ensures LiveTasks(c, now, ids).Some? ==>
              && |LiveTasks(c, now, ids).value| == |ids|
              && forall i :: 0 <= i < |ids| ==> LiveTask(c, now, ids[i]) == Some(LiveTasks(c, now, ids).value[i])
  {
    if ids != [] {
      LiveTasksAre(c, now, ids[..|ids| - 1]);
    }
  }

  lemma MembersAfterCursor(c: Cache, now: int, ids: seq<int>, limit: nat, cursor: int)
    requires Ascending(ids, SELF) && limit > 0
    ensures ReadMembers(c, now, ids, limit, Some(cursor)) ==
            var window := Window(ids, limit, Some(cursor));
            if cursor !in ids || window == [] then None else LiveTasks(c, now, window)
  {
    hide Window, ReadRange, IndexOf, LiveTasks;
    var rank := IndexOf(ids, cursor);
    if rank.Some? {
      RangeAfterRank(c, now, ids, limit, rank.value);
    }
  }

  lemma RangeAfterRank(c: Cache, now: int, ids: seq<int>, limit: nat, rank: nat)
    requires Ascending(ids, SELF) && limit > 0 && rank < |ids|
    ensures var window := Window(ids, limit, Some(ids[rank]));
            ReadRange(c, now, ids, rank + 1, limit) == if window == [] then None else LiveTasks(c, now, window)
  {
    RangeIsWindow(ids, limit, rank);
  }

  lemma ReadIsWindow(c: Cache, now: int, teamId: int, limit: nat, startFromId: Option<int>)
    requires WellFormed(c) && limit > 0
    ensures var ids := LiveIds(c, now, teamId);
            var window := Window(ids, limit, startFromId);
            ReadPage(c, now, teamId, limit, startFromId) ==
            if (startFromId.Some? && startFromId.value !in ids) || window == [] then None else LiveTasks(c, now, window)
  {
    if startFromId.Some? {
      MembersAfterCursor(c, now, LiveIds(c, now, teamId), limit, startFromId.value);
    } else {
      RangeFromStart(LiveIds(c, now, teamId), limit);
    }
  }

  /** A request hits exactly when its cursor, if it has one, is a member of the team's set, some
      member lies beyond it, and every value of the window is alive.  The hit is then the first
      `limit` members above the cursor, in ascending id order: the arithmetic on ranks is the filter
      `id > cursor`. */
  lemma PageIsWindow(c: Cache, now: int, teamId: int, limit: nat, startFromId: Option<int>)
    requires WellFormed(c) && limit > 0
    ensures var ids := LiveIds(c, now, teamId);
            var window := Window(ids, limit, startFromId);
            var page := ReadPage(c, now, teamId, limit, startFromId);
            && (page.Some? <==>
                  && (startFromId.Some? ==> startFromId.value in ids)
                  && window != []
                  && forall i :: 0 <= i < |window| ==> LiveTask(c, now, window[i]).Some?)
            && (page.Some? ==>
                  && |page.value| == |window|
                  && (forall i :: 0 <= i < |window| ==>
                        LiveTask(c, now, window[i]) == Some(page.value[i]) && page.value[i].id == window[i])
                  && Ascending(page.value, TASK_ID))
  {
    var window := Window(LiveIds(c, now, teamId), limit, startFromId);
    ReadIsWindow(c, now, teamId, limit, startFromId);
    LiveTasksAre(c, now, window);
    WindowAscending(LiveIds(c, now, teamId), limit, startFromId);
    var page := ReadPage(c, now, teamId, limit, startFromId);
    if page.Some? {
      forall i | 0 <= i < |window|
        ensures page.value[i].id == window[i]
      {
        assert LiveTask(c, now, window[i]) == Some(page.value[i]);
      }
      AscendingByIds(page.value, window);
    }
  }

  lemma WindowAscending(ids: seq<int>, limit: nat, startFromId: Option<int>)
    requires Ascending(ids, SELF)
    ensures Ascending(Window(ids, limit, startFromId), SELF)
  {
    if startFromId.Some? {
      AfterAscending(ids, SELF, startFromId.value);
      TakeAscending(After(ids, SELF, startFromId.value), SELF, limit);
    } else {
      TakeAscending(ids, SELF, limit);
    }
  }

  lemma AscendingByIds(tasks: seq<Task>, ids: seq<int>)
    requires Ascending(ids, SELF) && |tasks| == |ids| && forall i :: 0 <= i < |ids| ==> tasks[i].id == ids[i]
    ensures Ascending(tasks, TASK_ID)
  {
    forall i, j | 0 <= i < j < |tasks|
      ensures TASK_ID(tasks[i]) < TASK_ID(tasks[j])
    {
      assert SELF(ids[i]) < SELF(ids[j]);
    }
  }
}
