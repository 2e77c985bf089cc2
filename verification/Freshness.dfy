/** What the cache is worth while listings and edits overlap in any order: what it agrees with, how old a
    value can be, and what a listing answered from it serves. */
module Freshness {
  import opened Model
  import opened Tables
  import opened TaskCache
  import opened Operations
  import opened Agreement
  import opened Interleaving
  import Paging
  import SqlQuery

  // ---------------------------------------------------------------------------
  // Agreement of cache and tables

  /** The tasks a call carries are versions of rows, of the team it will file them under. */
  ghost predicate CarriesKnown(db: Db, op: Op) {
    && (op.ListFill? ==> forall t :: t in op.fetched ==> Known(db, t) && t.teamId == op.list.teamId)
    && (HasRow(op) ==> Known(db, op.row) && op.row.id == op.edit.taskId)
    && (op.EditCache? ==> Known(db, op.updated))
  }

  ghost predicate AllCarryKnown(st: State) {
    forall k :: k in st.flights ==> CarriesKnown(st.db, st.flights[k].op)
  }

  ghost predicate Agrees(s: Settings, st: State) {
    WellKeyed(st.db) && CacheKnown(st.db, st.cache, st.now, s.ttl) && AllCarryKnown(st)
  }

  lemma CarriesKnownLater(before: Db, after: Db, op: Op)
    requires KeepsRows(before, after) && CarriesKnown(before, op)
    ensures CarriesKnown(after, op)
  {
    hide Known, KeepsRows;
    if op.ListFill? {
      forall t | t in op.fetched
        ensures Known(after, t)
      {
        KnownLater(before, after, t);
      }
    } else if HasRow(op) {
      KnownLater(before, after, op.row);
    } else if op.EditCache? {
      KnownLater(before, after, op.updated);
    }
  }

  lemma FetchedIsRow(db: Db, inp: ListInput, t: Task)
    requires t in FetchForList(db, inp)
    ensures t in db.tasks && t.teamId == inp.teamId
  {
    SqlQuery.MatchingIn(db.tasks, inp.teamId, inp.status, inp.assigneeId, inp.startFromId, t);
  }

  lemma RowIsKnown(db: Db, t: Task)
    requires t in db.tasks
    ensures Known(db, t)
  {
    assert SameIdentity(t, t);
  }

  lemma ReadCarriesKnown(st: State, op: Op, fault: Fault)
    requires CarriesKnown(st.db, op) && !Writes(op) && !Final(op)
    ensures CarriesKnown(st.db, Read(st, op, fault))
  {
    hide Known, IsMember, IsPartOfTeamByTask, CanInvite, Range, LiveTasks, LiveIds, IndexOf;
    if op.ListQuery? {
      forall t | t in FetchForList(st.db, op.list)
        ensures Known(st.db, t) && t.teamId == op.list.teamId
      {
        FetchedIsRow(st.db, op.list, t);
        RowIsKnown(st.db, t);
      }
    } else if op.EditGet? && FindTask(st.db.tasks, op.edit.taskId).Some? {
      RowIsKnown(st.db, FindTask(st.db.tasks, op.edit.taskId).value);
    }
  }

  /** Setting the four columns makes any version of a row into the updated row: the edit's cached task is
      what the UPDATE left behind, even if others edited the task in between. */
  lemma UpdatedIsRow(db: Db, row: Task, id: int, c: Change)
    requires Known(db, row) && row.id == id
    ensures Apply(row, c) in UpdateTask(db, id, c).tasks
  {
    var current :| current in db.tasks && SameIdentity(row, current);
    UpdatedRow(db, id, c, Apply(current, c));
    assert Apply(current, c) == Apply(row, c);
  }

  lemma UpdatedIsKnown(db: Db, row: Task, id: int, c: Change)
    requires Known(db, row) && row.id == id
    ensures Known(UpdateTask(db, id, c), Apply(row, c))
  {
    UpdatedIsRow(db, row, id, c);
    RowIsKnown(UpdateTask(db, id, c), Apply(row, c));
  }

  lemma WriteCarriesKnown(s: Settings, st: State, op: Op, r: Reply)
    requires CarriesKnown(st.db, op) && Writes(op) && IdIsNew(st.db, op, r.newId)
    ensures CarriesKnown(if Lands(op, r) then WriteTables(st, op, r.newId) else st.db, AfterWrite(s, st, op, r))
  {
    hide Known, IdIsNew, CountsAsAffected, IsMember, UpdateTask, KeepsRows;
    WriteGrows(st, op, r.newId);
    if op.EditUpdate? {
      UpdatedIsKnown(st.db, op.row, op.edit.taskId, op.edit.change);
    } else if op.EditRecord? {
      KnownLater(st.db, WriteTables(st, op, r.newId), op.row);
    }
  }

  lemma BatchIsKnown(db: Db, op: Op)
    requires CarriesKnown(db, op)
    ensures forall t :: t in CacheBatch(op).1 ==> Known(db, t) && t.teamId == CacheBatch(op).0
  {}

  lemma WriteAgrees(s: Settings, st: State, op: Op, r: Reply)
    requires s.ttl > 0 && CacheKnown(st.db, st.cache, st.now, s.ttl) && CarriesKnown(st.db, op)
             && IdIsNew(st.db, op, r.newId)
    ensures CacheKnown(WriteTables(st, op, r.newId), CacheAfter(s, st, op, r), st.now, s.ttl)
  {
    hide CacheKnown, Commands, CarriesKnown, Known, CacheBatch, WriteTables, KeepsRows;
    BatchIsKnown(st.db, op);
    CommandsKnown(st.db, st.cache, st.now, s.ttl, CacheBatch(op).0, CacheBatch(op).1, Sent(op), Ran(op, r));
    WriteGrows(st, op, r.newId);
    TablesMoveOn(st.db, WriteTables(st, op, r.newId), CacheAfter(s, st, op, r), st.now, s.ttl);
  }

  lemma AdvanceAgrees(s: Settings, st: State, k: nat, r: Reply)
    requires s.ttl > 0 && Agrees(s, st) && Enabled(st, Advance(k, r))
    ensures Agrees(s, Step(s, st, Advance(k, r)))
  {
    hide CacheKnown, CarriesKnown, WellKeyed, Read, AfterWrite, WriteTables, IdIsNew, CacheAfter, SpansAfter, Step,
        KeepsRows, Lands;
    var op := st.flights[k].op;
    var after := Step(s, st, Advance(k, r));
    assert CarriesKnown(st.db, op);
    StepKeepsKeys(s, st, Advance(k, r));
    StepGrows(s, st, Advance(k, r));
    StepLeaves(s, st, k, r);
    OnlyMoves(s, st, k, r);
    NewIdOfStep(st, k, r);
    if Writes(op) {
      WriteAgrees(s, st, op, r);
      WriteCarriesKnown(s, st, op, r);
    } else {
      ReadCarriesKnown(st, op, r.fault);
    }
    forall j | j in after.flights
      ensures CarriesKnown(after.db, after.flights[j].op)
    {
      if j != k {
        CarriesKnownLater(st.db, after.db, st.flights[j].op);
      }
    }
  }

  /** In every reachable state, wherever pipelines were cut: cached values are versions of rows, sets hold only
      ids of their team's rows, and nothing lives longer than the time to live from now. */
  lemma {:induction false} CacheStaysKnown(s: Settings, events: seq<Event>)
    requires s.ttl > 0 && Legal(s, events)
    ensures Agrees(s, Replay(s, events))
  {
    if events != [] {
      hide CacheKnown, CarriesKnown, WellKeyed;
      var st, e := Replay(s, events[..|events| - 1]), events[|events| - 1];
      CacheStaysKnown(s, events[..|events| - 1]);
      match e {
        case Advance(k, r) => AdvanceAgrees(s, st, k, r);
        case Tick(d) => ClockMovesOn(st.db, st.cache, st.now, st.now + d, s.ttl);
        case Begin(_, _) =>
      }
    }
  }

  // ---------------------------------------------------------------------------
  // Agreement of values and sets

  /** Whatever Redis runs of a listing's pipeline in this step, the team's set will do. */
  predicate PipelineWillDo(s: Settings, st: State, op: Op, r: Reply) {
    op.ListFill? ==>
      || CacheBatch(op).1 == []
      || SetWillDo(st.cache, st.now, s.ttl, CacheBatch(op).0, CacheBatch(op).1, op.sent, r.ran)
  }

  /** That is so for every step of every pipeline of the run. */
  ghost predicate PipelinesWillDo(s: Settings, events: seq<Event>)
    requires Legal(s, events)
  {
    events != [] ==>
      var st, e := Replay(s, events[..|events| - 1]), events[|events| - 1];
      && PipelinesWillDo(s, events[..|events| - 1])
      && (e.Advance? ==> PipelineWillDo(s, st, st.flights[e.flight].op, e.reply))
  }

  /** At every point of the run every live value is in the set of its team, which does not expire sooner. */
  ghost predicate IndexedThroughout(s: Settings, events: seq<Event>)
    requires Legal(s, events)
  {
    && AllIndexed(Replay(s, events).cache, Replay(s, events).now)
    && (events != [] ==> IndexedThroughout(s, events[..|events| - 1]))
  }

  lemma AdvanceIndexesIff(s: Settings, st: State, k: nat, r: Reply)
    requires s.ttl > 0 && Agrees(s, st) && AllIndexed(st.cache, st.now) && Enabled(st, Advance(k, r))
    ensures var after := Step(s, st, Advance(k, r));
            AllIndexed(after.cache, after.now) <==> PipelineWillDo(s, st, st.flights[k].op, r)
  {
    hide AllIndexed, WriteTables, SpansAfter, CarriesKnown, CacheKnown, WellKeyed, Step, Enabled, Commands, Known;
    FlightMoves(st, k, r);
    var op := st.flights[k].op;
    assert CarriesKnown(st.db, op);
    StepLeaves(s, st, k, r);
    OnlyMoves(s, st, k, r);
    BatchIsKnown(st.db, op);
    CommandsIndexIff(st.db, st.cache, st.now, s.ttl, CacheBatch(op).0, CacheBatch(op).1, Sent(op), Ran(op, r));
  }

  /** Index agreement, exactly: whatever calls overlap, live values are indexed at every point of a run if and
      only if at every step of a listing's pipeline that stores values without going on to the EXPIRE, the
      set will do. */
  lemma {:induction false} IndexAgreementIff(s: Settings, events: seq<Event>)
    requires s.ttl > 0 && Legal(s, events)
    ensures IndexedThroughout(s, events) <==> PipelinesWillDo(s, events)
  {
    if events != [] {
      hide AllIndexed, PipelineWillDo, Step, Agrees;
      var st, e := Replay(s, events[..|events| - 1]), events[|events| - 1];
      IndexAgreementIff(s, events[..|events| - 1]);
      CacheStaysKnown(s, events[..|events| - 1]);
      if AllIndexed(st.cache, st.now) {
        match e {
          case Advance(k, r) => AdvanceIndexesIff(s, st, k, r);
          case _ => OtherIndexes(s, st, e);
        }
      } else {
        assert !IndexedThroughout(s, events[..|events| - 1]);
      }
    } else {
      NothingToIndex();
    }
  }

  lemma NothingToIndex()
    ensures AllIndexed(START.cache, START.now)
  {}

  lemma OtherIndexes(s: Settings, st: State, e: Event)
    requires AllIndexed(st.cache, st.now) && !e.Advance? && Enabled(st, e)
    ensures AllIndexed(Step(s, st, e).cache, Step(s, st, e).now)
  {
    LaterIndexed(st.cache, st.now, Step(s, st, e).now);
  }

  /** Redis runs the pipeline of a listing whole and in one go, or nothing of it. */
  predicate RunsWhole(op: Op, r: Reply) {
    op.ListFill? ==> r.ran == 0 || op.sent + r.ran >= |CacheBatch(op).1| + 2
  }

  ghost predicate PipelinesRunWhole(s: Settings, events: seq<Event>)
    requires Legal(s, events)
  {
    events != [] ==>
      var st, e := Replay(s, events[..|events| - 1]), events[|events| - 1];
      && PipelinesRunWhole(s, events[..|events| - 1])
      && (e.Advance? ==> RunsWhole(st.flights[e.flight].op, e.reply))
  }

  /** Index agreement with pipelines in one piece: whatever calls overlap, live values are indexed at every
      point of the run. */
  lemma WholePipelinesIndex(s: Settings, events: seq<Event>)
    requires s.ttl > 0 && Legal(s, events) && PipelinesRunWhole(s, events)
    ensures IndexedThroughout(s, events)
  {
    WholePipelinesWillDo(s, events);
    IndexAgreementIff(s, events);
  }

  lemma {:induction false} WholePipelinesWillDo(s: Settings, events: seq<Event>)
    requires Legal(s, events) && PipelinesRunWhole(s, events)
    ensures PipelinesWillDo(s, events)
  {
    if events != [] {
      hide PipelineWillDo, RunsWhole, Step;
      var st, e := Replay(s, events[..|events| - 1]), events[|events| - 1];
      WholePipelinesWillDo(s, events[..|events| - 1]);
      if e.Advance? {
        WholeWillDo(s, st, st.flights[e.flight].op, e.reply);
      }
    }
  }

  lemma WholeWillDo(s: Settings, st: State, op: Op, r: Reply)
    requires RunsWhole(op, r)
    ensures PipelineWillDo(s, st, op, r)
  {}

  lemma LaterIndexed(c: Cache, now: int, later: int)
    requires AllIndexed(c, now) && now <= later
    ensures AllIndexed(c, later)
  {
    forall id | id in c.values && Live(later, c.values[id].exp)
      ensures Indexed(c, id)
    {
      assert Live(now, c.values[id].exp);
    }
  }

  /** The same in terms of one value and one set. */
  lemma LiveValuesAreIndexed(s: Settings, events: seq<Event>, id: int, teamId: int)
    requires s.ttl > 0 && Legal(s, events) && PipelinesWillDo(s, events)
    ensures var st := Replay(s, events);
            && (LiveTask(st.cache, st.now, id).Some? ==>
                  var t := LiveTask(st.cache, st.now, id).value;
                  && t.id == id && SetIsLive(st.cache, st.now, t.teamId) && id in LiveIds(st.cache, st.now, t.teamId)
                  && (st.cache.sets[t.teamId].exp.Some? ==>
                         st.cache.sets[t.teamId].exp.value >= st.cache.values[id].exp))
            && (teamId in st.cache.sets && id in st.cache.sets[teamId].ids ==>
                  exists row :: row in st.db.tasks && row.id == id && row.teamId == teamId)
  {
    IndexAgreementIff(s, events);
    CacheStaysKnown(s, events);
    hide Legal, Replay, PipelinesWillDo;
    var st := Replay(s, events);
    if LiveTask(st.cache, st.now, id).Some? {
      assert Indexed(st.cache, id);
    }
    if teamId in st.cache.sets && id in st.cache.sets[teamId].ids {
      assert TeamHasTask(st.db, teamId, id);
    }
  }

  // ---------------------------------------------------------------------------
  // What calls carry, by the positions of the steps that read it

  predicate Listing(op: Op) {
    op.ListCheck? || op.ListRank? || op.ListRange? || op.ListGet? || op.ListQuery? || op.ListFill? || op.Served?
  }

  predicate Editing(op: Op) {
    op.EditGet? || HasRow(op) || op.EditCache?
  }

  predicate StepOf(events: seq<Event>, k: nat, i: nat) {
    i < |events| && events[i].Advance? && events[i].flight == k
  }

  predicate BeganBy(events: seq<Event>, k: nat, i: nat) {
    i < |events| && events[i].Begin? && events[i].flight == k
  }

  predicate BeganAs(events: seq<Event>, k: nat, fl: Flight) {
    && BeganBy(events, k, fl.began)
    && (Listing(fl.op) ==> events[fl.began].op == ListCheck(fl.op.list))
    && (Editing(fl.op) ==> events[fl.began].op == EditGet(fl.op.edit))
  }

  /** The row is what the call's SELECT found, at that position. */
  ghost predicate ReadFor(past: seq<State>, events: seq<Event>, k: nat, began: nat, edit: EditInput, row: Task,
                          readAt: nat)
  {
    && began < readAt < |past| && StepOf(events, k, readAt)
    && k in past[readAt].flights && past[readAt].flights[k].op == EditGet(edit)
    && FindTask(past[readAt].db.tasks, edit.taskId) == Some(row)
  }

  ghost predicate FetchedFor(past: seq<State>, events: seq<Event>, k: nat, began: nat, list: ListInput,
                             tasks: seq<Task>, at: nat)
  {
    began < at < |past| && StepOf(events, k, at) && tasks == FetchForList(past[at].db, list)
  }

  /** The team's ids as a listing's step at that position finds them. */
  ghost function IdsAt(past: seq<State>, at: nat, teamId: int): seq<int>
    requires at < |past|
  {
    LiveIds(past[at].cache, past[at].now, teamId)
  }

  /** Where the range of a listing from the cache starts: at the front, or after the rank its ZRANK found. */
  ghost predicate RankedFor(past: seq<State>, events: seq<Event>, k: nat, began: nat, list: ListInput, start: nat,
                            ranked: Option<nat>)
  {
    && Unfiltered(list)
    && match ranked
       case None => start == 0 && list.startFromId <= 0
       case Some(at) =>
         && began < at < |past| && StepOf(events, k, at)
         && list.startFromId > 0 && start > 0
         && IndexOf(IdsAt(past, at, list.teamId), list.startFromId) == Some(start - 1)
  }

  ghost predicate RangedFor(past: seq<State>, events: seq<Event>, k: nat, began: nat, list: ListInput, start: nat,
                            ranked: Option<nat>, ids: seq<int>, ranged: nat)
  {
    && began < ranged < |past| && StepOf(events, k, ranged) && (ranked.Some? ==> ranked.value < ranged)
    && ids == Range(IdsAt(past, ranged, list.teamId), start, start + Paging.DEFAULT_LIMIT) && ids != []
  }

  /** The tasks are what the listing's MGET found under the ids of its window. */
  ghost predicate GotFor(past: seq<State>, events: seq<Event>, k: nat, ids: seq<int>, ranged: nat, tasks: seq<Task>,
                         got: nat)
  {
    && ranged < got < |past| && StepOf(events, k, got)
    && LiveTasks(past[got].cache, past[got].now, ids) == Some(tasks)
  }

  ghost predicate ServedFrom(past: seq<State>, events: seq<Event>, k: nat, began: nat, list: ListInput, start: nat,
                             ids: seq<int>, tasks: seq<Task>, source: Source)
  {
    && source.FromCache?
    && RankedFor(past, events, k, began, list, start, source.ranked)
    && RangedFor(past, events, k, began, list, start, source.ranked, ids, source.ranged)
    && GotFor(past, events, k, ids, source.ranged, tasks, source.got)
  }

  ghost predicate ServedFor(past: seq<State>, events: seq<Event>, k: nat, began: nat, list: ListInput, tasks: seq<Task>,
                            source: Source)
  {
    match source
    case FromTables(at) => FetchedFor(past, events, k, began, list, tasks, at)
    case FromCache(_, _, _) => exists start, ids :: ServedFrom(past, events, k, began, list, start, ids, tasks, source)
  }

  ghost predicate UpdatedFor(past: seq<State>, events: seq<Event>, k: nat, began: nat, updated: Task, updatedAt: nat) {
    && began < updatedAt < |past| && StepOf(events, k, updatedAt - 1)
    && updated in past[updatedAt].db.tasks
  }

  ghost predicate Carries(past: seq<State>, events: seq<Event>, k: nat, fl: Flight) {
    var op := fl.op;
    && BeganAs(events, k, fl)
    && (op.ListRank? ==> Unfiltered(op.list) && op.list.startFromId > 0)
    && (op.ListRange? ==> RankedFor(past, events, k, fl.began, op.list, op.start, op.ranked))
    && (op.ListGet? ==>
          && RankedFor(past, events, k, fl.began, op.list, op.start, op.ranked)
          && RangedFor(past, events, k, fl.began, op.list, op.start, op.ranked, op.ids, op.ranged))
    && (op.ListFill? ==> FetchedFor(past, events, k, fl.began, op.list, op.fetched, op.readAt))
    && (HasRow(op) ==> ReadFor(past, events, k, fl.began, op.edit, op.row, op.readAt))
    && (op.EditRecord? ==> past != [] && past[op.readAt].now <= op.changedAt <= past[|past| - 1].now)
    && (op.EditCache? ==> UpdatedFor(past, events, k, fl.began, op.updated, op.updatedAt))
    && (op.Served? ==> ServedFor(past, events, k, fl.began, op.list, op.tasks, op.source))
  }

  /** A cached value: which call wrote it at which position, and where inside that call it was the row. */
  ghost predicate WrittenAs(s: Settings, past: seq<State>, events: seq<Event>, span: Span, t: Task, exp: int) {
    && span.began < span.held <= span.wrote < |past|
    && BeganBy(events, span.call, span.began) && StepOf(events, span.call, span.wrote)
    && t in past[span.held].db.tasks
    && exp == past[span.wrote].now + s.ttl
    && span.wrote + 1 < |past| && EntryIs(past[span.wrote + 1].cache, t, exp)
    && PutsTask(past[span.wrote], events[span.wrote], t)
  }

  /** The event is a step that takes effect, and a SET of this task is among the commands it runs. */
  predicate PutsTask(st: State, e: Event, t: Task) {
    && e.Advance? && e.flight in st.flights
    && var op := st.flights[e.flight].op;
       Writes(op) && Lands(op, e.reply) && t in Stored(CacheBatch(op).1, Sent(op), Ran(op, e.reply))
  }

  /** The cache holds this task under its id, until that instant. */
  predicate EntryIs(c: Cache, t: Task, exp: int) {
    t.id in c.values && c.values[t.id] == Entry(t, exp)
  }

  ghost predicate ValuesHeld(s: Settings, past: seq<State>, events: seq<Event>, st: State) {
    forall id :: id in st.cache.values ==>
      id in st.spans && WrittenAs(s, past, events, st.spans[id], st.cache.values[id].task, st.cache.values[id].exp)
  }

  ghost predicate FlightsHeld(past: seq<State>, events: seq<Event>, st: State) {
    forall k :: k in st.flights ==> Carries(past, events, k, st.flights[k])
  }

  /** Everything is as its positions say, in a run that has had these events. */
  ghost predicate AllHeld(s: Settings, past: seq<State>, events: seq<Event>) {
    && |past| == |events| + 1 && past[|events|].step == |events|
    && ValuesHeld(s, past, events, past[|events|]) && FlightsHeld(past, events, past[|events|])
  }

  lemma RankedLater(past: seq<State>, events: seq<Event>, st: State, e: Event, k: nat, began: nat, list: ListInput,
                    start: nat, ranked: Option<nat>)
    requires RankedFor(past, events, k, began, list, start, ranked)
    ensures RankedFor(past + [st], events + [e], k, began, list, start, ranked)
  {
    hide IndexOf, LiveIds;
  }

  lemma RangedLater(past: seq<State>, events: seq<Event>, st: State, e: Event, k: nat, began: nat, list: ListInput,
                    start: nat, ranked: Option<nat>, ids: seq<int>, ranged: nat)
    requires RangedFor(past, events, k, began, list, start, ranked, ids, ranged)
    ensures RangedFor(past + [st], events + [e], k, began, list, start, ranked, ids, ranged)
  {
    hide Range, LiveIds;
  }

  lemma GotLater(past: seq<State>, events: seq<Event>, st: State, e: Event, k: nat, ids: seq<int>, ranged: nat,
                 tasks: seq<Task>, got: nat)
    requires GotFor(past, events, k, ids, ranged, tasks, got)
    ensures GotFor(past + [st], events + [e], k, ids, ranged, tasks, got)
  {
    hide LiveTasks;
  }

  lemma ServedLater(past: seq<State>, events: seq<Event>, st: State, e: Event, k: nat, began: nat, list: ListInput,
                    tasks: seq<Task>, source: Source)
    requires ServedFor(past, events, k, began, list, tasks, source)
    ensures ServedFor(past + [st], events + [e], k, began, list, tasks, source)
  {
    if source.FromCache? {
      var start, ids :| ServedFrom(past, events, k, began, list, start, ids, tasks, source);
      hide RankedFor, RangedFor, GotFor;
      RankedLater(past, events, st, e, k, began, list, start, source.ranked);
      RangedLater(past, events, st, e, k, began, list, start, source.ranked, ids, source.ranged);
      GotLater(past, events, st, e, k, ids, source.ranged, tasks, source.got);
      assert ServedFrom(past + [st], events + [e], k, began, list, start, ids, tasks, source);
    }
  }

  lemma CarriesLater(past: seq<State>, events: seq<Event>, st: State, e: Event, k: nat, fl: Flight)
    requires |past| == |events| + 1 && Carries(past, events, k, fl) && past[|events|].now <= st.now
    ensures Carries(past + [st], events + [e], k, fl)
  {
    hide RankedFor, RangedFor, ServedFor, FetchForList, FindTask;
    var op := fl.op;
    if op.Served? {
      ServedLater(past, events, st, e, k, fl.began, op.list, op.tasks, op.source);
    } else if op.ListRange? {
      RankedLater(past, events, st, e, k, fl.began, op.list, op.start, op.ranked);
    } else if op.ListGet? {
      RankedLater(past, events, st, e, k, fl.began, op.list, op.start, op.ranked);
      RangedLater(past, events, st, e, k, fl.began, op.list, op.start, op.ranked, op.ids, op.ranged);
    }
  }

  lemma WrittenLater(s: Settings, past: seq<State>, events: seq<Event>, st: State, e: Event, span: Span, t: Task,
                     exp: int)
    requires WrittenAs(s, past, events, span, t, exp)
    ensures WrittenAs(s, past + [st], events + [e], span, t, exp)
  {}

  lemma {:induction false} StampedAs(spans: map<int, Span>, tasks: seq<Task>, span: Span, id: int)
    ensures (exists t :: t in tasks && t.id == id) ==>
              id in StampAll(spans, tasks, span) && StampAll(spans, tasks, span)[id] == span
    ensures !(exists t :: t in tasks && t.id == id) ==>
              (id in StampAll(spans, tasks, span) <==> id in spans)
                  && (id in spans ==> StampAll(spans, tasks, span)[id] == spans[id])
  {
    if tasks != [] {
      var init, last := tasks[..|tasks| - 1], tasks[|tasks| - 1];
      assert tasks == init + [last];
      StampedAs(spans, init, span, id);
    }
  }

  /** A step of call k at the end of a run in order. */
  ghost predicate Moving(s: Settings, past: seq<State>, events: seq<Event>, k: nat, r: Reply) {
    && AllHeld(s, past, events) && Agrees(s, past[|events|]) && Enabled(past[|events|], Advance(k, r))
  }

  lemma MovedListCarries(s: Settings, past: seq<State>, events: seq<Event>, k: nat, r: Reply, after: State)
    requires |past| == |events| + 1 && past[|events|].step == |events|
    requires k in past[|events|].flights && Carries(past, events, k, past[|events|].flights[k])
    requires var op := past[|events|].flights[k].op; Listing(op) && !Final(op) && !op.ListGet? && !op.ListFill?
    ensures var st := past[|events|];
            Carries(past + [after], events + [Advance(k, r)], k,
                st.flights[k].(op := Read(st, st.flights[k].op, r.fault)))
  {
    hide IsMember, LiveTasks, FindTask, FetchForList;
    var st := past[|events|];
    assert (past + [after])[|events|] == st;
    assert (events + [Advance(k, r)])[|events|] == Advance(k, r);
  }

  lemma MovedGetCarries(s: Settings, past: seq<State>, events: seq<Event>, k: nat, r: Reply, after: State)
    requires |past| == |events| + 1 && past[|events|].step == |events|
    requires k in past[|events|].flights && Carries(past, events, k, past[|events|].flights[k])
    requires past[|events|].flights[k].op.ListGet?
    ensures var st := past[|events|];
            Carries(past + [after], events + [Advance(k, r)], k,
                st.flights[k].(op := Read(st, st.flights[k].op, r.fault)))
  {
    hide IsMember, LiveIds, IndexOf, Range, LiveTasks, FindTask, FetchForList;
    var st := past[|events|];
    var fl := st.flights[k];
    var op := fl.op;
    var past', events' := past + [after], events + [Advance(k, r)];
    assert past'[|events|] == st && events'[|events|] == Advance(k, r);
    var next := Read(st, op, r.fault);
    if next.Served? {
      assert ServedFrom(past', events', k, fl.began, op.list, op.start, op.ids, next.tasks, next.source);
    }
  }

  lemma MovedEditCarries(s: Settings, past: seq<State>, events: seq<Event>, k: nat, r: Reply, after: State)
    requires |past| == |events| + 1 && past[|events|].step == |events| && past[|events|].now == after.now
    requires k in past[|events|].flights && Carries(past, events, k, past[|events|].flights[k])
    requires var op := past[|events|].flights[k].op; op.EditGet? || op.EditCheck? || op.EditStamp? || op.EditRecord?
    requires forall i :: 0 <= i < |past| ==> past[i].now <= after.now
    ensures var st := past[|events|];
            Carries(past + [after], events + [Advance(k, r)], k,
                st.flights[k].(op := NextOp(s, st, st.flights[k].op, r)))
  {
    hide IsPartOfTeamByTask, FindTask, RankedFor, RangedFor, FetchedFor, ServedFor, UpdatedFor;
    var st := past[|events|];
    assert (past + [after])[|events|] == st;
    assert (events + [Advance(k, r)])[|events|] == Advance(k, r);
  }

  lemma MovedUpdateCarries(s: Settings, past: seq<State>, events: seq<Event>, k: nat, r: Reply, after: State)
    requires |past| == |events| + 1 && past[|events|].step == |events|
    requires k in past[|events|].flights && Carries(past, events, k, past[|events|].flights[k])
    requires past[|events|].flights[k].op.EditUpdate? && CarriesKnown(past[|events|].db, past[|events|].flights[k].op)
    requires r.fault.Fine? ==> after.db == WriteTables(past[|events|], past[|events|].flights[k].op, r.newId)
    ensures var st := past[|events|];
            Carries(past + [after], events + [Advance(k, r)], k,
                st.flights[k].(op := NextOp(s, st, st.flights[k].op, r)))
  {
    hide CountsAsAffected, UpdateTask, FindTask, Known;
    var st := past[|events|];
    var op := st.flights[k].op;
    assert (past + [after])[|events| + 1] == after;
    assert (events + [Advance(k, r)])[|events|] == Advance(k, r);
    UpdatedIsRow(st.db, op.row, op.edit.taskId, op.edit.change);
  }

  lemma MovedFillCarries(s: Settings, past: seq<State>, events: seq<Event>, k: nat, r: Reply, after: State)
    requires |past| == |events| + 1
    requires k in past[|events|].flights && Carries(past, events, k, past[|events|].flights[k])
    requires var op := past[|events|].flights[k].op; op.ListFill? || op.EditCache?
    ensures var st := past[|events|];
            Carries(past + [after], events + [Advance(k, r)], k,
                st.flights[k].(op := NextOp(s, st, st.flights[k].op, r)))
  {
    hide FetchForList;
  }

  /** Calls of other kinds carry nothing that has a position. */
  lemma MovedOtherCarries(s: Settings, past: seq<State>, events: seq<Event>, k: nat, r: Reply, after: State)
    requires |past| == |events| + 1
    requires k in past[|events|].flights && Carries(past, events, k, past[|events|].flights[k])
    requires var op := past[|events|].flights[k].op; !Listing(op) && !Editing(op) && !Final(op)
    ensures var st := past[|events|];
            Carries(past + [after], events + [Advance(k, r)], k,
                st.flights[k].(op := NextOp(s, st, st.flights[k].op, r)))
  {
    hide IsMember, IsPartOfTeamByTask, CanInvite;
  }

  lemma MovedCarries(s: Settings, past: seq<State>, events: seq<Event>, k: nat, r: Reply)
    requires Moving(s, past, events, k, r) && forall i :: 0 <= i < |past| ==> past[i].now <= past[|events|].now
    ensures var after := Step(s, past[|events|], Advance(k, r));
            Carries(past + [after], events + [Advance(k, r)], k, after.flights[k])
  {
    hide Step, Carries, Read, AfterWrite, CarriesKnown, WriteTables, CacheAfter, SpansAfter, Agrees, ValuesHeld;
    var st := past[|events|];
    var op := st.flights[k].op;
    var after := Step(s, st, Advance(k, r));
    OnlyMoves(s, st, k, r);
    StepLeaves(s, st, k, r);
    assert Carries(past, events, k, st.flights[k]);
    if op.ListGet? {
      MovedGetCarries(s, past, events, k, r, after);
    } else if op.ListFill? || op.EditCache? {
      MovedFillCarries(s, past, events, k, r, after);
    } else if op.EditUpdate? {
      CarriedByCall(s, st, k);
      MovedUpdateCarries(s, past, events, k, r, after);
    } else if Listing(op) {
      MovedListCarries(s, past, events, k, r, after);
    } else if Editing(op) {
      MovedEditCarries(s, past, events, k, r, after);
    } else {
      MovedOtherCarries(s, past, events, k, r, after);
    }
  }

  lemma CarriedByCall(s: Settings, st: State, k: nat)
    requires Agrees(s, st) && k in st.flights
    ensures CarriesKnown(st.db, st.flights[k].op)
  {}

  lemma BatchIsHeld(past: seq<State>, events: seq<Event>, k: nat, fl: Flight)
    requires |past| == |events| + 1 && Carries(past, events, k, fl)
    ensures BeganBy(events, k, fl.began)
    ensures CacheBatch(fl.op).1 != [] ==> fl.began < HeldPosition(fl.op) < |past|
    ensures forall t :: t in CacheBatch(fl.op).1 ==> t in past[HeldPosition(fl.op)].db.tasks
  {
    if fl.op.ListFill? {
      forall t | t in CacheBatch(fl.op).1
        ensures t in past[fl.op.readAt].db.tasks
      {
        FetchedIsRow(past[fl.op.readAt].db, fl.op.list, t);
      }
    }
  }

  lemma ValuesHeldAfterWrite(s: Settings, past: seq<State>, events: seq<Event>, k: nat, r: Reply)
    requires Moving(s, past, events, k, r)
    requires Writes(past[|events|].flights[k].op) && Lands(past[|events|].flights[k].op, r)
    ensures var after := Step(s, past[|events|], Advance(k, r));
            ValuesHeld(s, past + [after], events + [Advance(k, r)], after)
  {
    hide Step, Carries, Agrees, StampAll, CacheBatch, WriteTables, Commands, WrittenAs, Writes, Lands, Stored, Sent,
        Ran;
    var st := past[|events|];
    var fl := st.flights[k];
    var batch := CacheBatch(fl.op);
    var stored := Stored(batch.1, Sent(fl.op), Ran(fl.op, r));
    var span := Span(k, fl.began, HeldPosition(fl.op), |events|);
    var e := Advance(k, r);
    var after := Step(s, st, e);
    assert Carries(past, events, k, fl);
    OnlyMoves(s, st, k, r);
    StepLeaves(s, st, k, r);
    BatchIsHeld(past, events, k, fl);
    forall id | id in after.cache.values
      ensures id in after.spans
      ensures WrittenAs(s, past + [after], events + [e], after.spans[id], after.cache.values[id].task,
              after.cache.values[id].exp)
    {
      CommandsGet(st.cache, st.now, s.ttl, batch.0, batch.1, Sent(fl.op), Ran(fl.op, r), id);
      StoredIn(batch.1, Sent(fl.op), Ran(fl.op, r));
      StampedAs(st.spans, stored, span, id);
      if exists t :: t in stored && t.id == id {
        WrittenNow(s, past, events, k, r, after, span, after.cache.values[id].task);
      } else {
        WrittenLater(s, past, events, after, e, st.spans[id], st.cache.values[id].task, st.cache.values[id].exp);
      }
    }
  }

  lemma WrittenNow(s: Settings, past: seq<State>, events: seq<Event>, k: nat, r: Reply, after: State, span: Span,
                   t: Task)
    requires |past| == |events| + 1 && span.call == k && span.wrote == |events| && span.began < span.held < |past|
    requires BeganBy(events, k, span.began) && t in past[span.held].db.tasks
    requires EntryIs(after.cache, t, past[|events|].now + s.ttl) && PutsTask(past[|events|], Advance(k, r), t)
    ensures WrittenAs(s, past + [after], events + [Advance(k, r)], span, t, past[|events|].now + s.ttl)
  {}

  lemma ValuesHeldLater(s: Settings, past: seq<State>, events: seq<Event>, st: State, after: State, e: Event)
    requires ValuesHeld(s, past, events, st) && after.cache == st.cache && after.spans == st.spans
    ensures ValuesHeld(s, past + [after], events + [e], after)
  {
    hide WrittenAs;
    forall id | id in st.cache.values
      ensures WrittenAs(s, past + [after], events + [e], st.spans[id], st.cache.values[id].task,
              st.cache.values[id].exp)
    {
      WrittenLater(s, past, events, after, e, st.spans[id], st.cache.values[id].task, st.cache.values[id].exp);
    }
  }

  lemma MovingHeld(s: Settings, past: seq<State>, events: seq<Event>, k: nat, r: Reply)
    requires Moving(s, past, events, k, r) && forall i :: 0 <= i < |past| ==> past[i].now <= past[|events|].now
    ensures AllHeld(s, past + [Step(s, past[|events|], Advance(k, r))], events + [Advance(k, r)])
  {
    hide Step, Carries, Agrees, ValuesHeld, WriteTables, CacheAfter, SpansAfter, Writes, Lands, NextOp, Enabled;
    var st := past[|events|];
    var e := Advance(k, r);
    var after := Step(s, st, e);
    FlightMoves(st, k, r);
    OnlyMoves(s, st, k, r);
    StepLeaves(s, st, k, r);
    if Writes(st.flights[k].op) && Lands(st.flights[k].op, r) {
      ValuesHeldAfterWrite(s, past, events, k, r);
    } else {
      ValuesHeldLater(s, past, events, st, after, e);
    }
    MovedCarries(s, past, events, k, r);
    forall j | j in after.flights
      ensures Carries(past + [after], events + [e], j, after.flights[j])
    {
      if j != k {
        CarriesLater(past, events, after, e, j, st.flights[j]);
      }
    }
  }

  lemma BeginHeld(s: Settings, past: seq<State>, events: seq<Event>, k: nat, op: Op)
    requires AllHeld(s, past, events) && Enabled(past[|events|], Begin(k, op))
    ensures AllHeld(s, past + [Step(s, past[|events|], Begin(k, op))], events + [Begin(k, op)])
  {
    hide Carries, ValuesHeld;
    var st := past[|events|];
    var e := Begin(k, op);
    var after := Step(s, st, e);
    ValuesHeldLater(s, past, events, st, after, e);
    FreshCarries(past, events, after, k, op);
    forall j | j in after.flights
      ensures Carries(past + [after], events + [e], j, after.flights[j])
    {
      if j != k {
        CarriesLater(past, events, after, e, j, st.flights[j]);
      }
    }
  }

  lemma FreshCarries(past: seq<State>, events: seq<Event>, after: State, k: nat, op: Op)
    requires Initial(op)
    ensures Carries(past + [after], events + [Begin(k, op)], k, Flight(op, |events|))
  {}

  lemma TickHeld(s: Settings, past: seq<State>, events: seq<Event>, d: nat)
    requires AllHeld(s, past, events)
    ensures AllHeld(s, past + [Step(s, past[|events|], Tick(d))], events + [Tick(d)])
  {
    hide Carries, ValuesHeld;
    var st := past[|events|];
    var after := Step(s, st, Tick(d));
    ValuesHeldLater(s, past, events, st, after, Tick(d));
    forall j | j in after.flights
      ensures Carries(past + [after], events + [Tick(d)], j, after.flights[j])
    {
      CarriesLater(past, events, after, Tick(d), j, st.flights[j]);
    }
  }

  lemma {:induction false} EverythingHeld(s: Settings, events: seq<Event>)
    requires s.ttl > 0 && Legal(s, events)
    ensures AllHeld(s, Past(s, events), events)
  {
    hide AllHeld, Agrees, Step, Enabled;
    if events == [] {
      assert Past(s, events) == [START];
      NothingHeld(s);
    } else {
      var init, e := events[..|events| - 1], events[|events| - 1];
      var past := Past(s, init);
      EverythingHeld(s, init);
      CacheStaysKnown(s, init);
      ClockOrder(s, init);
      assert events == init + [e] && Past(s, events) == past + [Step(s, past[|init|], e)];
      match e {
        case Advance(k, r) => MovingHeld(s, past, init, k, r);
        case Begin(k, op) => BeginHeld(s, past, init, k, op);
        case Tick(d) => TickHeld(s, past, init, d);
      }
    }
  }

  lemma NothingHeld(s: Settings)
    ensures AllHeld(s, [START], [])
  {}

  lemma ClockOrder(s: Settings, events: seq<Event>)
    requires Legal(s, events)
    ensures forall i, j :: 0 <= i <= j <= |events| ==> Past(s, events)[i].now <= Past(s, events)[j].now
  {
    hide Past, Replay, Legal;
    PastSteps(s, events);
    forall i, j | 0 <= i <= j <= |events|
      ensures Past(s, events)[i].now <= Past(s, events)[j].now
    {
      PastGrows(s, Past(s, events), events, i, j);
    }
  }

  // ---------------------------------------------------------------------------
  // Bounded staleness

  /** The task was the row at the held position of the span, inside the call whose step at the write position
      put it into the cache; and read at the last position given, that was no longer ago than the time to
      live and the part of the call up to its write. */
  ghost predicate RecentRow(s: Settings, events: seq<Event>, t: Task, span: Span, read: nat)
    requires Legal(s, events) && read <= |events|
  {
    && span.began < span.held <= span.wrote < read
    && BeganBy(events, span.call, span.began) && StepOf(events, span.call, span.wrote)
    && t in At(s, events, span.held).db.tasks
    && PutsTask(At(s, events, span.wrote), events[span.wrote], t)
    && EntryIs(At(s, events, span.wrote + 1).cache, t, At(s, events, span.wrote).now + s.ttl)
    && At(s, events, span.held).now >=
       At(s, events, read).now - s.ttl - (At(s, events, span.wrote).now - At(s, events, span.began).now)
  }

  /** Bounded staleness: whatever calls overlap and whatever fails, a live cached value was the row at a
      position inside the call that wrote it, no longer ago than the time to live plus that call's
      duration up to the write; and its id, creator, team and creation time are the current row's. */
  lemma BoundedStaleness(s: Settings, events: seq<Event>, id: int)
    requires s.ttl > 0 && Legal(s, events)
    requires LiveTask(Replay(s, events).cache, Replay(s, events).now, id).Some?
    ensures var st := Replay(s, events);
            var t := LiveTask(st.cache, st.now, id).value;
            && t.id == id
            && (exists row :: && row in st.db.tasks && row.id == t.id && row.creatorId == t.creatorId
                              && row.teamId == t.teamId && row.createdAt == t.createdAt)
            && id in st.spans && RecentRow(s, events, t, st.spans[id], |events|)
  {
    EverythingHeld(s, events);
    CacheStaysKnown(s, events);
    ClockOrder(s, events);
    hide Legal, Replay, Carries;
    var st := Replay(s, events);
    var span := st.spans[id];
    assert WrittenAs(s, Past(s, events), events, span, st.cache.values[id].task, st.cache.values[id].exp);
  }
}
