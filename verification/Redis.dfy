/** `internal/repository/redis.go` over a string-keyed store with expiry, and the proof that the
    store behaves like the two maps of `TaskCache`. */
module RedisRepository {
  import opened Model
  import opened RedisKeys
  import opened TaskCache
  import Paging

  // ---------------------------------------------------------------------------
  // The Redis engine

  datatype Scored = Scored(score: int, member: string)

  /** A key holds a string, here the JSON of a task, or a sorted set; `exp` is None until the key is
      given a time to live. */
  datatype Item =
    | StringItem(task: Task, exp: Option<int>)
    | SortedSet(elems: seq<Scored>, exp: Option<int>)

  type Store = map<string, Item>

  predicate Alive(s: Store, now: int, key: string) {
    key in s && (s[key].exp.Some? ==> Live(now, s[key].exp.value))
  }

  const WRONG_TYPE := "WRONGTYPE Operation against a key holding the wrong kind of value"

  predicate LexLess(a: string, b: string) {
    if b == "" then false
    else if a == "" then true
    else a[0] < b[0] || (a[0] == b[0] && LexLess(a[1..], b[1..]))
  }

  /** Elements are ordered by score, and by member where scores are equal. */
  predicate Before(a: Scored, b: Scored) {
    a.score < b.score || (a.score == b.score && LexLess(a.member, b.member))
  }

  function Remove(elems: seq<Scored>, member: string): seq<Scored> {
    if elems == [] then []
    else (if elems[0].member == member then [] else [elems[0]]) + Remove(elems[1..], member)
  }

  function Insert(elems: seq<Scored>, x: Scored): seq<Scored> {
    if elems == [] then [x]
    else if Before(elems[0], x) then [elems[0]] + Insert(elems[1..], x)
    else [x] + elems
  }

  function ZAddAll(elems: seq<Scored>, zs: seq<Scored>): seq<Scored> {
    if zs == [] then elems
    else
      var z := zs[|zs| - 1];
      Insert(Remove(ZAddAll(elems, zs[..|zs| - 1]), z.member), z)
  }

  function SetEx(s: Store, key: string, task: Task, exp: int): Store {
    s[key := StringItem(task, Some(exp))]
  }

  /** A set that is gone or expired starts empty and without a time to live. */
  function ZAdd(s: Store, now: int, key: string, zs: seq<Scored>): Result<Store> {
    if !Alive(s, now, key) then Ok(s[key := SortedSet(ZAddAll([], zs), None)])
    else match s[key]
      case StringItem(_, _) => Err(WRONG_TYPE)
      case SortedSet(elems, exp) => Ok(s[key := SortedSet(ZAddAll(elems, zs), exp)])
  }

  function Expire(s: Store, now: int, key: string, exp: int): Store {
    if !Alive(s, now, key) then s
    else s[key := match s[key]
                  case StringItem(task, _) => StringItem(task, Some(exp))
                  case SortedSet(elems, _) => SortedSet(elems, Some(exp))]
  }

  function Elements(s: Store, now: int, key: string): Result<seq<Scored>> {
    if !Alive(s, now, key) then Ok([])
    else match s[key]
      case StringItem(_, _) => Err(WRONG_TYPE)
      case SortedSet(elems, _) => Ok(elems)
  }

  function MemberIndex(elems: seq<Scored>, member: string): Option<nat> {
    if elems == [] then None
    else if elems[0].member == member then Some(0)
    else match MemberIndex(elems[1..], member)
      case None => None
      case Some(r) => Some(r + 1)
  }

  /** The string at a key, None (nil) when the key is missing or holds something else. */
  function Get(s: Store, now: int, key: string): Option<Task> {
    if Alive(s, now, key) && s[key].StringItem? then Some(s[key].task) else None
  }

  // ---------------------------------------------------------------------------
  // The store as two maps

  function Encode(ids: seq<int>): (elems: seq<Scored>)
    ensures |elems| == |ids|
    ensures forall i :: 0 <= i < |ids| ==> elems[i] == Scored(ids[i], Itoa(ids[i]))
  {
    seq(|ids|, i requires 0 <= i < |ids| => Scored(ids[i], Itoa(ids[i])))
  }

  ghost predicate Represents(s: Store, c: Cache) {
    && (forall id :: TaskKey(id) in s <==> id in c.values)
    && (forall id :: id in c.values ==> s[TaskKey(id)] == StringItem(c.values[id].task, Some(c.values[id].exp)))
    && (forall team :: TeamTasksKey(team) in s <==> team in c.sets)
    && (forall team :: team in c.sets ==>
           s[TeamTasksKey(team)] == SortedSet(Encode(c.sets[team].ids), c.sets[team].exp))
    && (forall key :: key in s ==> (exists id :: key == TaskKey(id)) || (exists team :: key == TeamTasksKey(team)))
  }

  lemma EncodeCons(ids: seq<int>)
    requires ids != []
    ensures Encode(ids) == [Scored(ids[0], Itoa(ids[0]))] + Encode(ids[1..])
  {}

  lemma {:induction false} RemoveAbsent(ids: seq<int>, id: int)
    requires forall i :: 0 <= i < |ids| ==> ids[i] != id
    ensures Remove(Encode(ids), Itoa(id)) == Encode(ids)
  {
    if ids != [] {
      EncodeCons(ids);
      ItoaInjective(ids[0], id);
      RemoveAbsent(ids[1..], id);
    }
  }

  lemma {:induction false} AddOne(ids: seq<int>, id: int)
    requires Paging.Ascending(ids, SELF)
    ensures Insert(Remove(Encode(ids), Itoa(id)), Scored(id, Itoa(id))) == Encode(InsertId(ids, id))
  {
    var x := Scored(id, Itoa(id));
    if ids == [] {
      assert Encode([id]) == [x];
    } else {
      EncodeCons(ids);
      Paging.AscendingTail(ids, SELF);
      ItoaInjective(ids[0], id);
      assert forall i :: 0 <= i < |ids[1..]| ==> SELF(ids[0]) < SELF(ids[1..][i]);
      if ids[0] < id {
        AddOne(ids[1..], id);
        EncodeCons([ids[0]] + InsertId(ids[1..], id));
        assert ([ids[0]] + InsertId(ids[1..], id))[1..] == InsertId(ids[1..], id);
      } else {
        RemoveAbsent(ids[1..], id);
        if ids[0] > id {
          EncodeCons([id] + ids);
          assert ([id] + ids)[1..] == ids;
        } else {
          assert [] + Encode(ids[1..]) == Encode(ids[1..]);
          assert ids[1..] != [] ==> SELF(ids[0]) < SELF(ids[1..][0]);
        }
      }
    }
  }

  function Scores(tasks: seq<Task>): (zs: seq<Scored>)
    ensures |zs| == |tasks|
    ensures forall i :: 0 <= i < |tasks| ==> zs[i] == Scored(tasks[i].id, Itoa(tasks[i].id))
  {
    seq(|tasks|, i requires 0 <= i < |tasks| => Scored(tasks[i].id, Itoa(tasks[i].id)))
  }

  lemma {:induction false} AddAll(ids: seq<int>, tasks: seq<Task>)
    requires Paging.Ascending(ids, SELF)
    ensures ZAddAll(Encode(ids), Scores(tasks)) == Encode(InsertAll(ids, tasks))
  {
    if tasks != [] {
      var init := tasks[..|tasks| - 1];
      assert Scores(tasks)[..|tasks| - 1] == Scores(init);
      AddAll(ids, init);
      InsertAllIn(ids, init);
      AddOne(InsertAll(ids, init), tasks[|tasks| - 1].id);
    }
  }

  lemma {:induction false} IndexOfMember(ids: seq<int>, id: int)
    ensures MemberIndex(Encode(ids), Itoa(id)) == IndexOf(ids, id)
  {
    if ids != [] {
      EncodeCons(ids);
      ItoaInjective(ids[0], id);
      IndexOfMember(ids[1..], id);
    }
  }

  lemma RangeOfEncode(ids: seq<int>, start: nat, stop: int)
    ensures Range(Encode(ids), start, stop) == Encode(Range(ids, start, stop))
  {}

  lemma SetValue(s: Store, c: Cache, t: Task, exp: int)
    requires Represents(s, c)
    ensures Represents(SetEx(s, TaskKey(t.id), t, exp), c.(values := c.values[t.id := Entry(t, exp)]))
  {
    hide TaskKey, TeamTasksKey;
    forall id
      ensures TaskKey(id) == TaskKey(t.id) <==> id == t.id
      ensures TeamTasksKey(id) != TaskKey(t.id)
    {
      KeysApart(id, t.id);
      KeysApart(t.id, id);
    }
  }

  lemma SetTeam(s: Store, c: Cache, teamId: int, ids: seq<int>, exp: Option<int>)
    requires Represents(s, c)
    ensures Represents(s[TeamTasksKey(teamId) := SortedSet(Encode(ids), exp)],
                       c.(sets := c.sets[teamId := TeamSet(ids, exp)]))
  {
    hide TaskKey, TeamTasksKey;
    forall id
      ensures TaskKey(id) != TeamTasksKey(teamId)
      ensures TeamTasksKey(id) == TeamTasksKey(teamId) <==> id == teamId
    {
      KeysApart(id, teamId);
    }
  }

  lemma EncodeInjective(a: seq<int>, b: seq<int>)
    requires Encode(a) == Encode(b)
    ensures a == b
  {
    assert |a| == |Encode(a)| == |b|;
    forall i | 0 <= i < |a|
      ensures a[i] == b[i]
    {
      assert Encode(a)[i] == Encode(b)[i];
    }
  }

  /** The two maps can be read back from the one store: it represents no other pair of maps. */
  lemma OneStoreOneCache(s: Store, a: Cache, b: Cache)
    requires Represents(s, a) && Represents(s, b)
    ensures a == b
  {
    hide TaskKey, TeamTasksKey, Encode;
    forall id
      ensures id in a.values <==> id in b.values
      ensures id in a.values ==> a.values[id] == b.values[id]
    {
      assert TaskKey(id) in s <==> id in a.values;
    }
    forall team
      ensures team in a.sets <==> team in b.sets
      ensures team in a.sets ==> a.sets[team] == b.sets[team]
    {
      assert TeamTasksKey(team) in s <==> team in a.sets;
      if team in a.sets {
        EncodeInjective(a.sets[team].ids, b.sets[team].ids);
      }
    }
    assert a.values == b.values && a.sets == b.sets;
  }

  lemma TeamElements(s: Store, c: Cache, now: int, teamId: int)
    requires Represents(s, c)
    ensures Alive(s, now, TeamTasksKey(teamId)) <==> SetIsLive(c, now, teamId)
    ensures SetIsLive(c, now, teamId) ==>
              s[TeamTasksKey(teamId)] == SortedSet(Encode(LiveIds(c, now, teamId)), c.sets[teamId].exp)
    ensures Elements(s, now, TeamTasksKey(teamId)) == Ok(Encode(LiveIds(c, now, teamId)))
  {
    hide TaskKey, TeamTasksKey;
    assert Encode([]) == [];
  }

  lemma TaskValue(s: Store, c: Cache, now: int, id: int)
    requires Represents(s, c)
    ensures Get(s, now, TaskKey(id)) == LiveTask(c, now, id)
  {
    hide TaskKey, TeamTasksKey;
  }

  /** ZADD on the team's key. */
  lemma AddTeamMembers(s: Store, c: Cache, now: int, teamId: int, tasks: seq<Task>)
    requires Represents(s, c) && WellFormed(c)
    ensures var added := ZAdd(s, now, TeamTasksKey(teamId), Scores(tasks));
            added.Ok? && Represents(added.value, AddIds(c, now, teamId, tasks))
  {
    hide TaskKey, TeamTasksKey, Represents, Itoa;
    var ids := LiveIds(c, now, teamId);
    TeamElements(s, c, now, teamId);
    AddAll(ids, tasks);
    assert Encode([]) == [];
    SetTeam(s, c, teamId, InsertAll(ids, tasks), if SetIsLive(c, now, teamId) then c.sets[teamId].exp else None);
  }

  /** EXPIRE on the team's key. */
  lemma ExpireTeam(s: Store, c: Cache, now: int, teamId: int, exp: int)
    requires Represents(s, c)
    ensures Represents(Expire(s, now, TeamTasksKey(teamId), exp), ExpireSet(c, now, teamId, exp))
  {
    hide TaskKey, TeamTasksKey, Represents, Itoa;
    TeamElements(s, c, now, teamId);
    SetTeam(s, c, teamId, LiveIds(c, now, teamId), Some(exp));
  }

  /** One command of a cache write, as it is sent to Redis. */
  function Send(s: Store, now: int, ttl: int, zKey: string, kvs: seq<(string, Task)>, zs: seq<Scored>, i: nat): Store {
    if i < |kvs| then SetEx(s, kvs[i].0, kvs[i].1, now + ttl)
    else if i == |kvs| then
      match ZAdd(s, now, zKey, zs)
      case Ok(after) => after
      case Err(_) => s
    else if i == |kvs| + 1 then Expire(s, now, zKey, now + ttl)
    else s
  }

  lemma SendIsCommand(s: Store, c: Cache, now: int, ttl: int, teamId: int, tasks: seq<Task>, kvs: seq<(string, Task)>,
                      i: nat)
    requires Represents(s, c) && WellFormed(c)
    requires |kvs| == |tasks| && forall j :: 0 <= j < |tasks| ==> kvs[j] == (TaskKey(tasks[j].id), tasks[j])
    ensures Represents(Send(s, now, ttl, TeamTasksKey(teamId), kvs, Scores(tasks), i),
            Command(c, now, ttl, teamId, tasks, i))
  {
    hide TaskKey, TeamTasksKey, Represents, Itoa;
    if i < |tasks| {
      SetValue(s, c, tasks[i], now + ttl);
    } else if i == |tasks| {
      AddTeamMembers(s, c, now, teamId, tasks);
    } else if i == |tasks| + 1 {
      ExpireTeam(s, c, now, teamId, now + ttl);
    }
  }

  // ---------------------------------------------------------------------------
  // The repository

  class Redis {
    var store: Store
    const ttl: int
    ghost var cache: Cache

    ghost predicate Valid()
      reads this
    {
      Represents(store, cache) && WellFormed(cache)
    }

    constructor (ttl: int)
      ensures Valid() && cache == EMPTY_CACHE && this.ttl == ttl
    {
      store := map[];
      this.ttl := ttl;
      cache := EMPTY_CACHE;
    }

    /** The pipeline is not a transaction: when the connection breaks Redis has run only the first `ran` of
        its commands, and even when it has run them all the replies may not arrive. */
    method CacheTasks(now: int, teamId: int, tasks: seq<Task>, ran: nat, replied: bool) returns (r: Result<()>)
      requires Valid()
      modifies this
      ensures Valid()
      ensures cache == Fill(old(cache), now, ttl, teamId, tasks, ran)
      ensures r.Ok? <==> tasks == [] || (ran >= |tasks| + 2 && replied)
    {
      hide TaskKey, TeamTasksKey, Represents, Itoa;
      if tasks == [] {
        return Ok(());
      }
      var zKey := TeamTasksKey(teamId);
      var kvs: seq<(string, Task)> := [];
      var zs := [];
      for i := 0 to |tasks|
        invariant |kvs| == i && forall j :: 0 <= j < i ==> kvs[j] == (TaskKey(tasks[j].id), tasks[j])
        invariant zs == Scores(tasks[..i])
      {
        kvs := kvs + [(TaskKey(tasks[i].id), tasks[i])];
        zs := zs + [Scored(tasks[i].id, Itoa(tasks[i].id))];
      }
      assert tasks[..|tasks|] == tasks;
      SendAll(now, teamId, tasks, kvs, zs, ran);
      if ran < |tasks| + 2 || !replied {
        return Err(REDIS_FAILED);
      }
      return Ok(());
    }

    /** Redis running the first `ran` commands of a pipeline. */
    method SendAll(now: int, teamId: int, tasks: seq<Task>, kvs: seq<(string, Task)>, zs: seq<Scored>, ran: nat)
      requires Valid()
      requires |kvs| == |tasks| && forall j :: 0 <= j < |tasks| ==> kvs[j] == (TaskKey(tasks[j].id), tasks[j])
      requires zs == Scores(tasks)
      modifies this
      ensures Valid()
      ensures cache == Commands(old(cache), now, ttl, teamId, tasks, 0, ran)
    {
      hide TaskKey, TeamTasksKey, Represents, Itoa, WellFormed, Command, Send;
      ghost var before := cache;
      for i := 0 to ran
        invariant Represents(store, cache) && WellFormed(cache)
        invariant cache == Commands(before, now, ttl, teamId, tasks, 0, i)
      {
        SendIsCommand(store, cache, now, ttl, teamId, tasks, kvs, i);
        CommandKeepsShape(cache, now, ttl, teamId, tasks, i);
        store := Send(store, now, ttl, TeamTasksKey(teamId), kvs, zs, i);
        cache := Command(cache, now, ttl, teamId, tasks, i);
      }
    }

    /** A transaction: all three commands run, or none does. */
    method UpdateTaskInCache(now: int, t: Task, fault: Fault) returns (r: Result<()>)
      requires Valid()
      modifies this
      ensures Valid()
      ensures cache == if fault.LostBefore? then old(cache) else Put(old(cache), now, ttl, t.teamId, [t])
      ensures r.Ok? <==> fault.Fine?
    {
      hide TaskKey, TeamTasksKey, Represents, Itoa;
      if fault.LostBefore? {
        return Err(REDIS_FAILED);
      }
      assert Scores([t]) == [Scored(t.id, Itoa(t.id))];
      SendAll(now, t.teamId, [t], [(TaskKey(t.id), t)], [Scored(t.id, Itoa(t.id))], 3);
      if fault.LostAfter? {
        return Err(REDIS_FAILED);
      }
      return Ok(());
    }

    method ListTasksFromCache(now: int, teamId: int, limit: int, startFromId: Option<int>, faults: ReadFaults)
      returns (r: Result<Option<seq<Task>>>)
      requires Valid()
      ensures r == CachedPage(cache, now, teamId, limit, startFromId, faults)
    {
      hide TaskKey, TaskKeyFromStr, TeamTasksKey, Represents, Itoa, Range, LiveTasks;
      if limit <= 0 {
        return Err(INVALID_CACHE_LIMIT);
      }
      var zKey := TeamTasksKey(teamId);
      ghost var ids := LiveIds(cache, now, teamId);
      TeamElements(store, cache, now, teamId);
      var elems := Elements(store, now, zKey);
      var start := 0;
      if startFromId.Some? {
        if !faults.rank.Fine? {
          return Err(REDIS_FAILED);
        }
        IndexOfMember(ids, startFromId.value);
        var rank := MemberIndex(elems.value, Itoa(startFromId.value));
        if rank.None? {
          return Ok(None);
        }
        start := rank.value + 1;
      }
      var end := start + limit - 1;
      if !faults.range.Fine? {
        return Err(REDIS_FAILED);
      }
      var idStrs := Range(elems.value, start, end);
      ghost var window := Range(ids, start, end);
      RangeOfEncode(ids, start, end);
      if |idStrs| == 0 {
        return Ok(None);
      }
      var keys := TaskKeys(idStrs);
      if !faults.mget.Fine? {
        return Err(REDIS_FAILED);
      }
      var results := DecodeAll(now, keys, window);
      return Ok(results);
    }

    /** The loop that names the values to fetch. */
    method TaskKeys(idStrs: seq<Scored>) returns (keys: seq<string>)
      ensures |keys| == |idStrs|
      ensures forall j :: 0 <= j < |idStrs| ==> keys[j] == TaskKeyFromStr(idStrs[j].member)
    {
      keys := [];
      for i := 0 to |idStrs|
        invariant |keys| == i && forall j :: 0 <= j < i ==> keys[j] == TaskKeyFromStr(idStrs[j].member)
      {
        keys := keys + [TaskKeyFromStr(idStrs[i].member)];
      }
    }

    /** MGET and the loop over its replies: the first missing value makes the read a miss. */
    method DecodeAll(now: int, keys: seq<string>, ghost ids: seq<int>) returns (r: Option<seq<Task>>)
      requires Valid()
      requires |keys| == |ids| && forall j :: 0 <= j < |ids| ==> keys[j] == TaskKeyFromStr(Itoa(ids[j]))
      ensures r == LiveTasks(cache, now, ids)
    {
      hide TaskKey, TaskKeyFromStr, TeamTasksKey, Represents, Itoa;
      var results := [];
      for i := 0 to |keys|
        invariant LiveTasks(cache, now, ids[..i]) == Some(results)
      {
        KeysApart(ids[i], ids[i]);
        TaskValue(store, cache, now, ids[i]);
        assert ids[..i + 1][..i] == ids[..i];
        var v := Get(store, now, keys[i]);
        if v.None? {
          MissingValue(cache, now, ids, i);
          return None;
        }
        results := results + [v.value];
      }
      assert ids[..|keys|] == ids;
      return Some(results);
    }
  }

  lemma MissingValue(c: Cache, now: int, ids: seq<int>, i: nat)
    requires i < |ids| && LiveTask(c, now, ids[i]).None?
    ensures LiveTasks(c, now, ids).None?
  {
    LiveTasksAre(c, now, ids);
  }
}
