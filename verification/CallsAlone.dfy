/** A call whose steps nobody interrupts does what the executor does in one go; so whatever a serial run can
    reach, an overlapping run can reach too. */
module CallsAlone {
  import opened Model
  import opened Paging
  import opened Tables
  import opened TaskCache
  import opened Operations
  import opened Interleaving
  import Serial

  /** The events can happen one after the other from this state. */
  ghost predicate CanRun(s: Settings, st: State, events: seq<Event>)
    decreases |events|
  {
    events != [] ==> Enabled(st, events[0]) && CanRun(s, Step(s, st, events[0]), events[1..])
  }

  ghost function RunFrom(s: Settings, st: State, events: seq<Event>): State
    requires CanRun(s, st, events)
    decreases |events|
  {
    if events == [] then st else RunFrom(s, Step(s, st, events[0]), events[1..])
  }

  /** The events take the call from where it is to an end that leaves these tables and this cache; no time
      passes, and no call comes or goes. */
  ghost predicate EndsIn(s: Settings, st: State, k: nat, events: seq<Event>, db: Db, c: Cache, ends: Op) {
    && CanRun(s, st, events)
    && (forall i :: 0 <= i < |events| ==> events[i].Advance? && events[i].flight == k)
    && var after := RunFrom(s, st, events);
       && after.db == db && after.cache == c && k in after.flights && after.flights[k].op == ends
       && after.now == st.now && after.flights.Keys == st.flights.Keys && after.step >= st.step
  }

  lemma OneStep(s: Settings, st: State, k: nat, r: Reply, rest: seq<Event>, db: Db, c: Cache, ends: Op)
    requires Enabled(st, Advance(k, r))
    requires EndsIn(s, Step(s, st, Advance(k, r)), k, rest, db, c, ends)
    ensures EndsIn(s, st, k, [Advance(k, r)] + rest, db, c, ends)
  {
    hide Step, Enabled;
    var e := Advance(k, r);
    FlightMoves(st, k, r);
    OnlyMoves(s, st, k, r);
    assert ([e] + rest)[1..] == rest;
  }

  lemma NoStep(s: Settings, st: State, k: nat)
    requires k in st.flights
    ensures EndsIn(s, st, k, [], st.db, st.cache, st.flights[k].op)
  {}

  /** Everything a step changes that a call by itself can notice. */
  lemma Moves(s: Settings, st: State, k: nat, r: Reply)
    requires Enabled(st, Advance(k, r))
    ensures var op := st.flights[k].op;
            var next := Step(s, st, Advance(k, r));
            && k in next.flights && next.flights[k].op == NextOp(s, st, op, r) && next.now == st.now
            && next.db == (if Writes(op) && Lands(op, r) then WriteTables(st, op, r.newId) else st.db)
            && next.cache
                 == (if (op.ListFill? || op.EditCache?) && Lands(op, r) then CacheAfter(s, st, op, r) else st.cache)
  {
    hide Step, NextOp, WriteTables, SpansAfter, Commands;
    OnlyMoves(s, st, k, r);
    StepLeaves(s, st, k, r);
  }

  /** How the serial call ends, as a final step of the interleaved one. */
  predicate Succeeds(ends: Op) {
    ends.Done? || ends.Served?
  }

  lemma EditAloneFromCache(s: Settings, st: State, k: nat, f: EditFaults) returns (events: seq<Event>)
    requires k in st.flights && st.flights[k].op.EditCache?
    ensures var op := st.flights[k].op;
            EndsIn(s, st, k, events, st.db,
                   if f.cache.LostBefore? then st.cache
                   else Put(st.cache, st.now, s.ttl, op.updated.teamId, [op.updated]),
                   Done)
  {
    hide Step, EndsIn, Commands;
    var r := Reply(f.cache, 0, 0);
    var next := Step(s, st, Advance(k, r));
    Moves(s, st, k, r);
    NoStep(s, next, k);
    OneStep(s, st, k, r, [], next.db, next.cache, Done);
    events := [Advance(k, r)] + [];
  }

  /** The rest of a serial edit from its UPDATE on. */
  function EditFromUpdate(db: Db, c: Cache, now: int, s: Settings, inp: EditInput, row: Task,
                          f: EditFaults): EditOutcome
  {
    if f.update.LostBefore? then EditOutcome(db, c, Err(CALL_FAILED))
    else
      var updated := UpdateTask(db, inp.taskId, inp.change);
      if f.update.LostAfter? || !CountsAsAffected(db, inp.taskId, inp.change, s.clientFoundRows) then
        EditOutcome(updated, c, Err(CALL_FAILED))
      else
        EditOutcome(updated,
                    if f.cache.LostBefore? then c else Put(c, now, s.ttl, row.teamId, [Apply(row, inp.change)]),
                    Ok(true))
  }

  lemma EditAloneFromUpdate(s: Settings, st: State, k: nat, f: EditFaults) returns (events: seq<Event>, ends: Op)
    requires k in st.flights && st.flights[k].op.EditUpdate?
    ensures var op := st.flights[k].op;
            var o := EditFromUpdate(st.db, st.cache, st.now, s, op.edit, op.row, f);
            EndsIn(s, st, k, events, o.db, o.cache, ends) && (o.result.Ok? <==> Succeeds(ends)) && Final(ends)
  {
    hide Step, EndsIn, Put, CountsAsAffected, UpdateTask;
    var r := Reply(f.update, 0, 0);
    var next := Step(s, st, Advance(k, r));
    Moves(s, st, k, r);
    var rest := [];
    if next.flights[k].op.EditCache? {
      rest := EditAloneFromCache(s, next, k, f);
      ends := Done;
    } else {
      NoStep(s, next, k);
      ends := Failed;
    }
    var op := st.flights[k].op;
    var o := EditFromUpdate(st.db, st.cache, st.now, s, op.edit, op.row, f);
    OneStep(s, st, k, r, rest, o.db, o.cache, ends);
    events := [Advance(k, r)] + rest;
  }

  /** The rest of a serial edit from its INSERT into the history on. */
  function EditFromRecord(db: Db, c: Cache, now: int, s: Settings, inp: EditInput, row: Task, changedAt: int,
                          f: EditFaults, historyId: int): EditOutcome
  {
    if f.history.LostBefore? then EditOutcome(db, c, Err(CALL_FAILED))
    else
      var recorded := InsertHistory(db, SnapshotOf(row, historyId, inp.userId, changedAt));
      if f.history.LostAfter? then EditOutcome(recorded, c, Err(CALL_FAILED))
      else EditFromUpdate(recorded, c, now, s, inp, row, f)
  }

  lemma EditAloneFromRecord(s: Settings, st: State, k: nat, f: EditFaults, historyId: int)
    returns (events: seq<Event>, ends: Op)
    requires k in st.flights && st.flights[k].op.EditRecord? && NextId(st.db.history, SNAPSHOT_ID, historyId)
    ensures var op := st.flights[k].op;
            var o := EditFromRecord(st.db, st.cache, st.now, s, op.edit, op.row, op.changedAt, f, historyId);
            EndsIn(s, st, k, events, o.db, o.cache, ends) && (o.result.Ok? <==> Succeeds(ends)) && Final(ends)
  {
    hide Step, EndsIn, EditFromUpdate;
    var r := Reply(f.history, historyId, 0);
    var next := Step(s, st, Advance(k, r));
    Moves(s, st, k, r);
    var rest := [];
    if next.flights[k].op.EditUpdate? {
      rest, ends := EditAloneFromUpdate(s, next, k, f);
    } else {
      NoStep(s, next, k);
      ends := Failed;
    }
    var op := st.flights[k].op;
    var o := EditFromRecord(st.db, st.cache, st.now, s, op.edit, op.row, op.changedAt, f, historyId);
    OneStep(s, st, k, r, rest, o.db, o.cache, ends);
    events := [Advance(k, r)] + rest;
  }

  lemma EditAloneFromStamp(s: Settings, st: State, k: nat, f: EditFaults, historyId: int)
    returns (events: seq<Event>, ends: Op)
    requires k in st.flights && st.flights[k].op.EditStamp? && NextId(st.db.history, SNAPSHOT_ID, historyId)
    ensures var op := st.flights[k].op;
            var o := EditFromRecord(st.db, st.cache, st.now, s, op.edit, op.row, st.now, f, historyId);
            EndsIn(s, st, k, events, o.db, o.cache, ends) && (o.result.Ok? <==> Succeeds(ends)) && Final(ends)
  {
    hide Step, EndsIn, EditFromRecord;
    var r := Reply(Fine, 0, 0);
    var next := Step(s, st, Advance(k, r));
    Moves(s, st, k, r);
    events, ends := EditAloneFromRecord(s, next, k, f, historyId);
    var op := st.flights[k].op;
    var o := EditFromRecord(st.db, st.cache, st.now, s, op.edit, op.row, st.now, f, historyId);
    OneStep(s, st, k, r, events, o.db, o.cache, ends);
    events := [Advance(k, r)] + events;
  }

  lemma EditAloneFromCheck(s: Settings, st: State, k: nat, f: EditFaults, historyId: int)
    returns (events: seq<Event>, ends: Op)
    requires k in st.flights && st.flights[k].op.EditCheck? && NextId(st.db.history, SNAPSHOT_ID, historyId)
    ensures var op := st.flights[k].op;
            var o := if !f.check.Fine? || !IsPartOfTeamByTask(st.db, op.edit.userId, op.edit.taskId)
                     then EditOutcome(st.db, st.cache, Err(FORBIDDEN))
                     else EditFromRecord(st.db, st.cache, st.now, s, op.edit, op.row, st.now, f, historyId);
            EndsIn(s, st, k, events, o.db, o.cache, ends) && (o.result.Ok? <==> Succeeds(ends)) && Final(ends)
  {
    hide Step, EndsIn, EditFromRecord, IsPartOfTeamByTask;
    var r := Reply(f.check, 0, 0);
    var next := Step(s, st, Advance(k, r));
    Moves(s, st, k, r);
    var rest := [];
    var db, c := st.db, st.cache;
    var op := st.flights[k].op;
    if next.flights[k].op.EditStamp? {
      var o := EditFromRecord(st.db, st.cache, st.now, s, op.edit, op.row, st.now, f, historyId);
      db, c := o.db, o.cache;
      rest, ends := EditAloneFromStamp(s, next, k, f, historyId);
    } else {
      NoStep(s, next, k);
      ends := Failed;
    }
    OneStep(s, st, k, r, rest, db, c, ends);
    events := [Advance(k, r)] + rest;
  }

  /** An edit that runs alone leaves the tables and the cache as `EditCall` says, and succeeds exactly when
      it does. */
  lemma EditAlone(s: Settings, st: State, k: nat, f: EditFaults, historyId: int) returns (events: seq<Event>, ends: Op)
    requires k in st.flights && st.flights[k].op.EditGet? && NextId(st.db.history, SNAPSHOT_ID, historyId)
    ensures var o := EditCall(st.db, st.cache, st.now, s, st.flights[k].op.edit, f, historyId);
            EndsIn(s, st, k, events, o.db, o.cache, ends) && (o.result.Ok? <==> Succeeds(ends)) && Final(ends)
  {
    hide Step, EndsIn, Put, IsPartOfTeamByTask, CountsAsAffected, UpdateTask;
    var r := Reply(f.get, 0, 0);
    var next := Step(s, st, Advance(k, r));
    Moves(s, st, k, r);
    var rest := [];
    var inp := st.flights[k].op.edit;
    var o := EditCall(st.db, st.cache, st.now, s, inp, f, historyId);
    if next.flights[k].op.EditCheck? {
      rest, ends := EditAloneFromCheck(s, next, k, f, historyId);
    } else {
      NoStep(s, next, k);
      ends := Failed;
    }
    OneStep(s, st, k, r, rest, o.db, o.cache, ends);
    events := [Advance(k, r)] + rest;
  }

  // ---------------------------------------------------------------------------
  // Listing

  function ListFromQuery(db: Db, c: Cache, now: int, ttl: int, inp: ListInput, f: ListFaults): ListOutcome {
    if !f.query.Fine? then ListOutcome(c, Err(CALL_FAILED))
    else
      var fetched := FetchForList(db, inp);
      ListOutcome(FillAfterList(c, now, ttl, inp, fetched, f.ran), Ok(ListAnswer(fetched)))
  }

  /** The answer a served call gives. */
  ghost predicate Answers(o: ListOutcome, ends: Op) {
    && Final(ends) && !ends.Done?
    && (ends.Served? <==> o.result.Ok?)
    && (ends.Served? ==> o.result == Ok(ListAnswer(ends.tasks)))
  }

  lemma ListAloneFromFill(s: Settings, st: State, k: nat, ran: nat) returns (events: seq<Event>, ends: Op)
    requires k in st.flights && st.flights[k].op.ListFill? && st.flights[k].op.sent == 0
    ensures var op := st.flights[k].op;
            && EndsIn(s, st, k, events, st.db,
                      Fill(st.cache, st.now, s.ttl, op.list.teamId, Take(op.fetched, DEFAULT_LIMIT), ran), ends)
            && ends.Served? && ends.tasks == op.fetched
  {
    hide Step, EndsIn, Commands, Take;
    var r := Reply(LostAfter, 0, ran);
    var next := Step(s, st, Advance(k, r));
    Moves(s, st, k, r);
    ends := next.flights[k].op;
    NoStep(s, next, k);
    OneStep(s, st, k, r, [], next.db, next.cache, ends);
    events := [Advance(k, r)] + [];
  }

  lemma ListAloneFromQuery(s: Settings, st: State, k: nat, f: ListFaults) returns (events: seq<Event>, ends: Op)
    requires k in st.flights && st.flights[k].op.ListQuery?
    ensures var o := ListFromQuery(st.db, st.cache, st.now, s.ttl, st.flights[k].op.list, f);
            EndsIn(s, st, k, events, st.db, o.cache, ends) && Answers(o, ends)
  {
    hide Step, EndsIn, Fill, FetchForList, ListAnswer;
    var inp := st.flights[k].op.list;
    var o := ListFromQuery(st.db, st.cache, st.now, s.ttl, inp, f);
    var r := Reply(f.query, 0, 0);
    var next := Step(s, st, Advance(k, r));
    Moves(s, st, k, r);
    var rest := [];
    ends := next.flights[k].op;
    if ends.ListFill? {
      rest, ends := ListAloneFromFill(s, next, k, f.ran);
    } else {
      NoStep(s, next, k);
    }
    OneStep(s, st, k, r, rest, st.db, o.cache, ends);
    events := [Advance(k, r)] + rest;
  }

  /** A serial listing once its cache read has said what it says. */
  function ListFromRead(db: Db, c: Cache, now: int, ttl: int, inp: ListInput, f: ListFaults,
                        r: Result<Option<seq<Task>>>): ListOutcome
  {
    match r
    case Err(_) => ListOutcome(c, Err(CALL_FAILED))
    case Ok(Some(tasks)) => ListOutcome(c, Ok(ListAnswer(tasks)))
    case Ok(None) => ListFromQuery(db, c, now, ttl, inp, f)
  }

  lemma ListAloneFromGet(s: Settings, st: State, k: nat, f: ListFaults) returns (events: seq<Event>, ends: Op)
    requires k in st.flights && st.flights[k].op.ListGet?
    ensures var op := st.flights[k].op;
            var r := if f.read.mget.Fine? then Ok(LiveTasks(st.cache, st.now, op.ids)) else Err(REDIS_FAILED);
            var o := ListFromRead(st.db, st.cache, st.now, s.ttl, op.list, f, r);
            EndsIn(s, st, k, events, st.db, o.cache, ends) && Answers(o, ends)
  {
    hide Step, EndsIn, ListFromQuery, ListAnswer, LiveTasks;
    var op := st.flights[k].op;
    var found := if f.read.mget.Fine? then Ok(LiveTasks(st.cache, st.now, op.ids)) else Err(REDIS_FAILED);
    var o := ListFromRead(st.db, st.cache, st.now, s.ttl, op.list, f, found);
    var r := Reply(f.read.mget, 0, 0);
    var next := Step(s, st, Advance(k, r));
    Moves(s, st, k, r);
    var rest := [];
    if next.flights[k].op.ListQuery? {
      rest, ends := ListAloneFromQuery(s, next, k, f);
    } else {
      NoStep(s, next, k);
      ends := next.flights[k].op;
    }
    OneStep(s, st, k, r, rest, st.db, o.cache, ends);
    events := [Advance(k, r)] + rest;
  }

  lemma ListAloneFromRange(s: Settings, st: State, k: nat, f: ListFaults) returns (events: seq<Event>, ends: Op)
    requires k in st.flights && st.flights[k].op.ListRange?
    ensures var op := st.flights[k].op;
            var r := CachedRange(st.cache, st.now, LiveIds(st.cache, st.now, op.list.teamId), op.start,
                DEFAULT_LIMIT + 1, f.read);
            var o := ListFromRead(st.db, st.cache, st.now, s.ttl, op.list, f, r);
            EndsIn(s, st, k, events, st.db, o.cache, ends) && Answers(o, ends)
  {
    hide Step, EndsIn, ListFromQuery, ListAnswer, LiveTasks, LiveIds, Range, Answers;
    var op := st.flights[k].op;
    var found := CachedRange(st.cache, st.now, LiveIds(st.cache, st.now, op.list.teamId), op.start, DEFAULT_LIMIT + 1,
        f.read);
    var o := ListFromRead(st.db, st.cache, st.now, s.ttl, op.list, f, found);
    var r := Reply(f.read.range, 0, 0);
    var next := Step(s, st, Advance(k, r));
    Moves(s, st, k, r);
    var rest := [];
    if next.flights[k].op.ListQuery? {
      rest, ends := ListAloneFromQuery(s, next, k, f);
    } else if next.flights[k].op.ListGet? {
      rest, ends := ListAloneFromGet(s, next, k, f);
    } else {
      NoStep(s, next, k);
      ends := Failed;
      FailureAnswers(st.cache);
    }
    OneStep(s, st, k, r, rest, st.db, o.cache, ends);
    events := [Advance(k, r)] + rest;
  }

  lemma FailureAnswers(c: Cache)
    ensures forall message :: Answers(ListOutcome(c, Err(message)), Failed)
  {}

  lemma ListAloneFromRank(s: Settings, st: State, k: nat, f: ListFaults) returns (events: seq<Event>, ends: Op)
    requires k in st.flights && st.flights[k].op.ListRank?
    ensures var op := st.flights[k].op;
            var r := CachedPage(st.cache, st.now, op.list.teamId, DEFAULT_LIMIT + 1, Some(op.list.startFromId), f.read);
            var o := ListFromRead(st.db, st.cache, st.now, s.ttl, op.list, f, r);
            EndsIn(s, st, k, events, st.db, o.cache, ends) && Answers(o, ends)
  {
    hide Step, EndsIn, ListFromQuery, ListAnswer, LiveTasks, LiveIds, CachedRange, Answers, IndexOf;
    var op := st.flights[k].op;
    var found := CachedPage(st.cache, st.now, op.list.teamId, DEFAULT_LIMIT + 1, Some(op.list.startFromId), f.read);
    var o := ListFromRead(st.db, st.cache, st.now, s.ttl, op.list, f, found);
    var r := Reply(f.read.rank, 0, 0);
    var next := Step(s, st, Advance(k, r));
    Moves(s, st, k, r);
    var rest := [];
    if next.flights[k].op.ListQuery? {
      rest, ends := ListAloneFromQuery(s, next, k, f);
    } else if next.flights[k].op.ListRange? {
      rest, ends := ListAloneFromRange(s, next, k, f);
    } else {
      NoStep(s, next, k);
      ends := Failed;
      FailureAnswers(st.cache);
    }
    OneStep(s, st, k, r, rest, st.db, o.cache, ends);
    events := [Advance(k, r)] + rest;
  }

  /** A listing that runs alone answers as `ListCall` says and leaves the cache as it says. */
  lemma ListAlone(s: Settings, st: State, k: nat, f: ListFaults) returns (events: seq<Event>, ends: Op)
    requires k in st.flights && st.flights[k].op.ListCheck?
    ensures var o := ListCall(st.db, st.cache, st.now, s.ttl, st.flights[k].op.list, f);
            EndsIn(s, st, k, events, st.db, o.cache, ends) && Answers(o, ends)
  {
    hide Step, EndsIn, FetchForList, FillAfterList, ListAnswer, LiveTasks, LiveIds, CachedRange, Answers, IndexOf,
        IsMember;
    var inp := st.flights[k].op.list;
    var o := ListCall(st.db, st.cache, st.now, s.ttl, inp, f);
    var r := Reply(f.check, 0, 0);
    var next := Step(s, st, Advance(k, r));
    Moves(s, st, k, r);
    var rest := [];
    var op := next.flights[k].op;
    if op.ListQuery? {
      rest, ends := ListAloneFromQuery(s, next, k, f);
    } else if op.ListRank? {
      rest, ends := ListAloneFromRank(s, next, k, f);
    } else if op.ListRange? {
      rest, ends := ListAloneFromRange(s, next, k, f);
    } else {
      NoStep(s, next, k);
      ends := Failed;
      FailureAnswers(st.cache);
    }
    OneStep(s, st, k, r, rest, st.db, o.cache, ends);
    events := [Advance(k, r)] + rest;
  }

  // ---------------------------------------------------------------------------
  // Guarded writes and team creation

  /** A last step. */
  lemma EndStep(s: Settings, st: State, k: nat, r: Reply)
    requires Enabled(st, Advance(k, r)) && Final(NextOp(s, st, st.flights[k].op, r))
    ensures var next := Step(s, st, Advance(k, r));
            EndsIn(s, st, k, [Advance(k, r)], next.db, next.cache, NextOp(s, st, st.flights[k].op, r))
  {
    hide Step, EndsIn, NextOp;
    var next := Step(s, st, Advance(k, r));
    Moves(s, st, k, r);
    NoStep(s, next, k);
    OneStep(s, st, k, r, [], next.db, next.cache, NextOp(s, st, st.flights[k].op, r));
    assert [Advance(k, r)] + [] == [Advance(k, r)];
  }

  lemma CreateAloneFromInsert(s: Settings, st: State, k: nat, insert: Fault, newId: int)
    returns (events: seq<Event>, ends: Op)
    requires k in st.flights && st.flights[k].op.CreateInsert? && NextId(st.db.tasks, TASK_ID, newId)
    ensures var t := NewTask(st.flights[k].op.create, newId, st.flights[k].op.createdAt);
            && EndsIn(s, st, k, events, if insert.LostBefore? then st.db else InsertTask(st.db, t), st.cache, ends)
            && ends == if insert.Fine? then Done else Failed
  {
    hide Step, EndsIn, NextId, CacheAfter;
    var r := Reply(insert, newId, 0);
    Moves(s, st, k, r);
    EndStep(s, st, k, r);
    ends := if insert.Fine? then Done else Failed;
    events := [Advance(k, r)];
  }

  lemma CreateAloneFromStamp(s: Settings, st: State, k: nat, insert: Fault, newId: int)
    returns (events: seq<Event>, ends: Op)
    requires k in st.flights && st.flights[k].op.CreateStamp? && NextId(st.db.tasks, TASK_ID, newId)
    ensures var t := NewTask(st.flights[k].op.create, newId, st.now);
            && EndsIn(s, st, k, events, if insert.LostBefore? then st.db else InsertTask(st.db, t), st.cache, ends)
            && ends == if insert.Fine? then Done else Failed
  {
    hide Step, EndsIn, NextId, CacheAfter, InsertTask, NewTask;
    var clock := Reply(Fine, 0, 0);
    var next := Step(s, st, Advance(k, clock));
    Moves(s, st, k, clock);
    events, ends := CreateAloneFromInsert(s, next, k, insert, newId);
    var t := NewTask(st.flights[k].op.create, newId, st.now);
    OneStep(s, st, k, clock, events, if insert.LostBefore? then st.db else InsertTask(st.db, t), st.cache, ends);
    events := [Advance(k, clock)] + events;
  }

  /** Creating a task alone does what `CreateCall` says. */
  lemma CreateAlone(s: Settings, st: State, k: nat, f: WriteFaults, newId: int) returns (events: seq<Event>, ends: Op)
    requires k in st.flights && st.flights[k].op.CreateCheck? && NextId(st.db.tasks, TASK_ID, newId)
    ensures var o := CreateCall(st.db, st.now, st.flights[k].op.create, f, newId);
            EndsIn(s, st, k, events, o.db, st.cache, ends) && (o.result.Ok? <==> ends.Done?) && Final(ends)
  {
    hide Step, EndsIn, IsMember;
    var o := CreateCall(st.db, st.now, st.flights[k].op.create, f, newId);
    var r := Reply(f.check, 0, 0);
    var next := Step(s, st, Advance(k, r));
    Moves(s, st, k, r);
    var rest := [];
    if next.flights[k].op.CreateStamp? {
      rest, ends := CreateAloneFromStamp(s, next, k, f.insert, newId);
    } else {
      NoStep(s, next, k);
      ends := Failed;
    }
    OneStep(s, st, k, r, rest, o.db, st.cache, ends);
    events := [Advance(k, r)] + rest;
  }

  lemma CommentAloneFromInsert(s: Settings, st: State, k: nat, insert: Fault, newId: int)
    returns (events: seq<Event>, ends: Op)
    requires k in st.flights && st.flights[k].op.CommentInsert? && NextId(st.db.comments, COMMENT_ID, newId)
    ensures var inp := st.flights[k].op.comment;
            var c := Comment(newId, st.flights[k].op.createdAt, inp.commenterId, inp.taskId, inp.text);
            && EndsIn(s, st, k, events, if insert.LostBefore? then st.db else InsertComment(st.db, c), st.cache, ends)
            && ends == if insert.Fine? then Done else Failed
  {
    hide Step, EndsIn, NextId, CacheAfter;
    var r := Reply(insert, newId, 0);
    Moves(s, st, k, r);
    EndStep(s, st, k, r);
    ends := if insert.Fine? then Done else Failed;
    events := [Advance(k, r)];
  }

  lemma CommentAloneFromStamp(s: Settings, st: State, k: nat, insert: Fault, newId: int)
    returns (events: seq<Event>, ends: Op)
    requires k in st.flights && st.flights[k].op.CommentStamp? && NextId(st.db.comments, COMMENT_ID, newId)
    ensures var inp := st.flights[k].op.comment;
            var c := Comment(newId, st.now, inp.commenterId, inp.taskId, inp.text);
            && EndsIn(s, st, k, events, if insert.LostBefore? then st.db else InsertComment(st.db, c), st.cache, ends)
            && ends == if insert.Fine? then Done else Failed
  {
    hide Step, EndsIn, NextId, CacheAfter, InsertComment;
    var clock := Reply(Fine, 0, 0);
    var next := Step(s, st, Advance(k, clock));
    Moves(s, st, k, clock);
    events, ends := CommentAloneFromInsert(s, next, k, insert, newId);
    var inp := st.flights[k].op.comment;
    var c := Comment(newId, st.now, inp.commenterId, inp.taskId, inp.text);
    OneStep(s, st, k, clock, events, if insert.LostBefore? then st.db else InsertComment(st.db, c), st.cache, ends);
    events := [Advance(k, clock)] + events;
  }

  /** Commenting alone does what `CommentCall` says. */
  lemma CommentAlone(s: Settings, st: State, k: nat, f: WriteFaults, newId: int) returns (events: seq<Event>, ends: Op)
    requires k in st.flights && st.flights[k].op.CommentCheck? && NextId(st.db.comments, COMMENT_ID, newId)
    ensures var o := CommentCall(st.db, st.now, st.flights[k].op.comment, f, newId);
            EndsIn(s, st, k, events, o.db, st.cache, ends) && (o.result.Ok? <==> ends.Done?) && Final(ends)
  {
    hide Step, EndsIn, IsPartOfTeamByTask;
    var o := CommentCall(st.db, st.now, st.flights[k].op.comment, f, newId);
    var r := Reply(f.check, 0, 0);
    var next := Step(s, st, Advance(k, r));
    Moves(s, st, k, r);
    var rest := [];
    if next.flights[k].op.CommentStamp? {
      rest, ends := CommentAloneFromStamp(s, next, k, f.insert, newId);
    } else {
      NoStep(s, next, k);
      ends := Failed;
    }
    OneStep(s, st, k, r, rest, o.db, st.cache, ends);
    events := [Advance(k, r)] + rest;
  }

  /** Inviting alone does what `InviteCall` says. */
  lemma InviteAlone(s: Settings, st: State, k: nat, f: WriteFaults, newId: int) returns (events: seq<Event>, ends: Op)
    requires k in st.flights && st.flights[k].op.InviteCheck? && newId > st.db.memberSeq
    ensures var o := InviteCall(st.db, st.flights[k].op.invite, f, newId);
            EndsIn(s, st, k, events, o.db, st.cache, ends) && (o.result.Ok? <==> ends.Done?) && Final(ends)
  {
    hide Step, EndsIn, CanInvite, IsMember, InviteTables;
    var o := InviteCall(st.db, st.flights[k].op.invite, f, newId);
    var check, r := Reply(f.check, 0, 0), Reply(f.insert, newId, 0);
    var next := Step(s, st, Advance(k, check));
    Moves(s, st, k, check);
    ends := if o.result.Ok? then Done else Failed;
    var rest := [];
    if next.flights[k].op.InviteInsert? {
      Moves(s, next, k, r);
      EndStep(s, next, k, r);
      rest := [Advance(k, r)];
    } else {
      NoStep(s, next, k);
    }
    OneStep(s, st, k, check, rest, o.db, st.cache, ends);
    events := [Advance(k, check)] + rest;
  }

  /** Creating a team alone is the transaction, once begun. */
  lemma TeamAlone(s: Settings, st: State, k: nat, f: TeamFaults, teamId: int, memberId: int)
    returns (events: seq<Event>, ends: Op)
    requires k in st.flights && st.flights[k].op.TeamInsert? && f.begin.Fine?
    requires teamId > st.db.teamSeq && memberId > st.db.memberSeq
    ensures var op := st.flights[k].op;
            EndsIn(s, st, k, events, CreateTeamTables(st.db, op.name, op.userId, teamId, memberId, f), st.cache, ends)
            && (f == TeamFaults(Fine, Fine, Fine, Fine) <==> ends.Done?) && Final(ends)
  {
    hide Step, EndsIn;
    var op := st.flights[k].op;
    var db := CreateTeamTables(st.db, op.name, op.userId, teamId, memberId, f);
    var r := Reply(f.insertTeam, teamId, 0);
    var named := Step(s, st, Advance(k, r));
    Moves(s, st, k, r);
    ends := named.flights[k].op;
    events := [];
    if ends.OwnerInsert? {
      events, ends := TeamAloneFromOwner(s, named, k, f, memberId);
    } else {
      NoStep(s, named, k);
    }
    OneStep(s, st, k, r, events, db, st.cache, ends);
    events := [Advance(k, r)] + events;
  }

  function OwnerTables(db: Db, name: string, userId: int, teamId: int, memberId: int, f: TeamFaults): Db {
    if f.insertOwner.LostBefore? then db
    else
      var owned := TakeMemberId(db, memberId);
      if f.insertOwner.LostAfter? || f.commit.LostBefore? then owned
      else CommitTeam(owned, Team(teamId, name), Member(memberId, teamId, userId, OWNER))
  }

  lemma TeamAloneFromOwner(s: Settings, st: State, k: nat, f: TeamFaults, memberId: int)
    returns (events: seq<Event>, ends: Op)
    requires k in st.flights && st.flights[k].op.OwnerInsert? && memberId > st.db.memberSeq
    ensures var op := st.flights[k].op;
            EndsIn(s, st, k, events, OwnerTables(st.db, op.name, op.userId, op.teamId, memberId, f), st.cache, ends)
            && (f.insertOwner.Fine? && f.commit.Fine? <==> ends.Done?) && Final(ends)
  {
    hide Step, EndsIn;
    var op := st.flights[k].op;
    var db := OwnerTables(st.db, op.name, op.userId, op.teamId, memberId, f);
    var r, commit := Reply(f.insertOwner, memberId, 0), Reply(f.commit, 0, 0);
    var owned := Step(s, st, Advance(k, r));
    Moves(s, st, k, r);
    ends := owned.flights[k].op;
    events := [];
    if ends.TeamCommit? {
      Moves(s, owned, k, commit);
      EndStep(s, owned, k, commit);
      ends := NextOp(s, owned, ends, commit);
      events := [Advance(k, commit)];
    } else {
      NoStep(s, owned, k);
    }
    OneStep(s, st, k, r, events, db, st.cache, ends);
    events := [Advance(k, r)] + events;
  }

  // ---------------------------------------------------------------------------
  // Serial runs as overlapping runs

  /** The call as the step that begins it. */
  function FirstOp(call: Serial.Call): Op
    requires !call.Tick?
  {
    match call
    case Create(inp, _, _) => CreateCheck(inp)
    case List(inp, _) => ListCheck(inp)
    case Edit(inp, _, _) => EditGet(inp)
    case Comments(inp, _, _) => CommentCheck(inp)
    case Invite(inp, _, _) => InviteCheck(inp)
    case NewTeam(name, userId, _, _, _) => TeamInsert(name, userId)
  }

  /** Tables, cache and clock of a state. */
  function WorldOf(st: State): Serial.World {
    Serial.World(st.db, st.cache, st.now)
  }

  /** Nobody in flight has a number that is still to come. */
  predicate NumbersTaken(st: State) {
    forall k :: k in st.flights ==> k < st.step
  }

  /** A begun call, run to its end by itself. */
  lemma CallAlone(s: Settings, st: State, k: nat, call: Serial.Call) returns (events: seq<Event>, ends: Op)
    requires k in st.flights && !call.Tick? && st.flights[k].op == FirstOp(call) && Serial.Possible(WorldOf(st), call)
    requires call.NewTeam? ==> call.teamFaults.begin.Fine?
    ensures var w := Serial.Step(s, WorldOf(st), call); EndsIn(s, st, k, events, w.db, w.cache, ends) && Final(ends)
  {
    hide EndsIn, EditCall, ListCall, CreateCall, CommentCall, InviteCall, CreateTeamTables, Answers;
    match call {
      case Create(_, f, newId) => events, ends := CreateAlone(s, st, k, f, newId);
      case List(_, f) =>
        events, ends := ListAlone(s, st, k, f);
        AnswersAreFinal(ListCall(st.db, st.cache, st.now, s.ttl, call.list, f), ends);
      case Edit(_, f, historyId) => events, ends := EditAlone(s, st, k, f, historyId);
      case Comments(_, f, newId) => events, ends := CommentAlone(s, st, k, f, newId);
      case Invite(_, f, newId) => events, ends := InviteAlone(s, st, k, f, newId);
      case NewTeam(_, _, teamId, memberId, f) => events, ends := TeamAlone(s, st, k, f, teamId, memberId);
    }
  }

  lemma AnswersAreFinal(o: ListOutcome, ends: Op)
    requires Answers(o, ends)
    ensures Final(ends)
  {}

  /** The events lead from the one state to the other. */
  ghost predicate Leads(s: Settings, st: State, events: seq<Event>, after: State) {
    CanRun(s, st, events) && RunFrom(s, st, events) == after
  }

  lemma LeadsOn(s: Settings, st: State, e: Event, events: seq<Event>, after: State)
    requires Enabled(st, e) && Leads(s, Step(s, st, e), events, after)
    ensures Leads(s, st, [e] + events, after)
  {
    hide Step, Enabled;
    assert ([e] + events)[1..] == events;
  }

  lemma WhereItEnds(s: Settings, st: State, k: nat, events: seq<Event>, db: Db, c: Cache, ends: Op)
    returns (after: State)
    requires EndsIn(s, st, k, events, db, c, ends) && NumbersTaken(st)
    ensures Leads(s, st, events, after) && WorldOf(after) == Serial.World(db, c, st.now) && NumbersTaken(after)
  {
    after := RunFrom(s, st, events);
  }

  /** A call's own steps leave the clock alone. */
  lemma NoTimePasses(s: Settings, w: Serial.World, call: Serial.Call)
    requires !call.Tick?
    ensures Serial.Step(s, w, call).now == w.now
  {
    hide EditCall, ListCall, CreateCall, CommentCall, InviteCall, CreateTeamTables;
  }

  lemma TimePasses(s: Settings, st: State, call: Serial.Call) returns (after: State)
    requires call.Tick? && NumbersTaken(st)
    ensures Leads(s, st, [Tick(call.duration)], after) && NumbersTaken(after)
    ensures WorldOf(after) == Serial.Step(s, WorldOf(st), call)
  {
    after := Step(s, st, Tick(call.duration));
    assert [Tick(call.duration)][1..] == [];
  }

  lemma NeverBegun(s: Settings, st: State, call: Serial.Call)
    requires call.NewTeam? && !call.teamFaults.begin.Fine?
    ensures Leads(s, st, [], st) && Serial.Step(s, WorldOf(st), call) == WorldOf(st)
  {}

  /** One serial call as events: its beginning, and its steps; or nothing, if its transaction cannot begin. */
  lemma CallAsEvents(s: Settings, st: State, call: Serial.Call) returns (events: seq<Event>, after: State)
    requires NumbersTaken(st) && Serial.Possible(WorldOf(st), call)
    ensures Leads(s, st, events, after) && WorldOf(after) == Serial.Step(s, WorldOf(st), call) && NumbersTaken(after)
  {
    hide Serial.Step, Serial.Possible, EndsIn, Leads, Step, Enabled, FirstOp;
    if call.Tick? {
      after := TimePasses(s, st, call);
      events := [Tick(call.duration)];
    } else if call.NewTeam? && !call.teamFaults.begin.Fine? {
      NeverBegun(s, st, call);
      events, after := [], st;
    } else {
      var first := FirstOp(call);
      FirstIsInitial(call);
      var begun := BegunCall(s, st, st.step, first);
      var steps, ends := CallAlone(s, begun, st.step, call);
      var w := Serial.Step(s, WorldOf(st), call);
      after := WhereItEnds(s, begun, st.step, steps, w.db, w.cache, ends);
      NoTimePasses(s, WorldOf(st), call);
      LeadsOn(s, st, Begin(st.step, first), steps, after);
      events := [Begin(st.step, first)] + steps;
    }
  }

  lemma FirstIsInitial(call: Serial.Call)
    requires !call.Tick?
    ensures Initial(FirstOp(call))
  {}

  lemma BegunCall(s: Settings, st: State, k: nat, op: Op) returns (begun: State)
    requires NumbersTaken(st) && k == st.step && Initial(op)
    ensures Enabled(st, Begin(k, op)) && begun == Step(s, st, Begin(k, op))
    ensures k in begun.flights && begun.flights[k].op == op && WorldOf(begun) == WorldOf(st) && NumbersTaken(begun)
  {
    begun := Step(s, st, Begin(k, op));
  }

  /** A run can be gone on with. */
  lemma {:induction false} GoOn(s: Settings, events: seq<Event>, more: seq<Event>)
    requires Legal(s, events) && CanRun(s, Replay(s, events), more)
    ensures Legal(s, events + more) && Replay(s, events + more) == RunFrom(s, Replay(s, events), more)
    decreases |more|
  {
    if more == [] {
      assert events + more == events;
    } else {
      hide Step, Enabled;
      var next := events + [more[0]];
      assert next[..|next| - 1] == events;
      GoOn(s, next, more[1..]);
      assert events + more == next + more[1..];
    }
  }

  /** The overlapping runs contain the serial runs: for every serial run from the empty tracker there is an
      overlapping run that ends with the same tables, the same cache and the same clock. */
  lemma {:induction false} SerialRunIsOverlapping(s: Settings, start: nat, calls: seq<Serial.Call>)
    returns (events: seq<Event>)
    requires Serial.Legal(s, Serial.Start(start), calls)
    ensures Legal(s, events) && WorldOf(Replay(s, events)) == Serial.Run(s, Serial.Start(start), calls)
    ensures NumbersTaken(Replay(s, events))
  {
    if calls == [] {
      events := [Tick(start)];
      assert events[..0] == [];
      assert Replay(s, []) == START;
    } else {
      hide Serial.Step, Serial.Possible, NumbersTaken, Step, Enabled, RunFrom, CanRun, WorldOf;
      var init := SerialRunIsOverlapping(s, start, calls[..|calls| - 1]);
      var more, after := CallAsEvents(s, Replay(s, init), calls[|calls| - 1]);
      GoOn(s, init, more);
      events := init + more;
    }
  }
}
