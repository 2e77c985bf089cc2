/** What a listing serves while other calls overlap with it, by the positions of its own steps. */
module CachedListings {
  import opened Model
  import opened Paging
  import opened TaskCache
  import opened Operations
  import opened Agreement
  import opened Interleaving
  import opened Freshness
  import Tables

  /** The team's ids in the cache, as the i-th event of the run finds them. */
  ghost function TeamIds(s: Settings, events: seq<Event>, i: nat, teamId: int): seq<int>
    requires Legal(s, events) && i <= |events|
  {
    LiveIds(At(s, events, i).cache, At(s, events, i).now, teamId)
  }

  /** How many of these ids do not lie above the cursor. */
  function UpTo(ids: seq<int>, cursor: int): (n: nat)
    ensures n <= |ids|
  {
    if ids == [] || ids[0] > cursor then 0 else 1 + UpTo(ids[1..], cursor)
  }

  lemma {:induction false} UpToSplits(ids: seq<int>, cursor: int)
    requires Ascending(ids, SELF)
    ensures forall i :: 0 <= i < UpTo(ids, cursor) ==> ids[i] <= cursor
    ensures forall i :: UpTo(ids, cursor) <= i < |ids| ==> ids[i] > cursor
    ensures After(ids, SELF, cursor) == ids[UpTo(ids, cursor)..]
  {
    if ids != [] {
      if ids[0] > cursor {
        forall i | 0 <= i < |ids|
          ensures ids[i] > cursor
        {
          assert i > 0 ==> SELF(ids[0]) < SELF(ids[i]);
        }
      } else {
        AscendingTail(ids, SELF);
        UpToSplits(ids[1..], cursor);
        assert forall i :: 0 < i < |ids| ==> ids[i] == ids[1..][i - 1];
      }
    }
    AfterIsSuffix(ids, SELF, cursor, UpTo(ids, cursor));
  }

  lemma RankIsUpTo(ids: seq<int>, cursor: int)
    requires Ascending(ids, SELF) && IndexOf(ids, cursor).Some?
    ensures UpTo(ids, cursor) == IndexOf(ids, cursor).value + 1
  {
    var r := IndexOf(ids, cursor).value;
    UpToSplits(ids, cursor);
    assert r + 1 < |ids| ==> SELF(ids[r]) < SELF(ids[r + 1]);
  }

  /** Where a window that begins after the first `start` ids stands towards the cursor. */
  lemma WindowAgainstCursor(ids: seq<int>, start: nat, cursor: int)
    requires Ascending(ids, SELF) && start < |ids|
    ensures var window := Take(ids[start..], DEFAULT_LIMIT + 1);
            && ((forall x :: x in window ==> x > cursor) <==> UpTo(ids, cursor) <= start)
            && (window == Window(ids, DEFAULT_LIMIT + 1, Some(cursor)) <==> UpTo(ids, cursor) == start)
  {
    var window := Take(ids[start..], DEFAULT_LIMIT + 1);
    var n := UpTo(ids, cursor);
    UpToSplits(ids, cursor);
    assert window[0] == ids[start] && window[0] in window;
    if n <= start {
      forall x | x in window
        ensures x > cursor
      {
        var i :| 0 <= i < |window| && window[i] == x;
        assert ids[start + i] == x;
      }
    }
    if n != start && n < |ids| {
      assert Take(ids[n..], DEFAULT_LIMIT + 1)[0] == ids[n];
      OtherPlace(ids, n, start);
    }
  }

  lemma OtherPlace(ids: seq<int>, i: nat, j: nat)
    requires Ascending(ids, SELF) && i < |ids| && j < |ids| && i != j
    ensures ids[i] != ids[j]
  {
    assert SELF(ids[i]) < SELF(ids[j]) || SELF(ids[j]) < SELF(ids[i]);
  }

  lemma AgreesAt(s: Settings, events: seq<Event>, i: nat)
    requires s.ttl > 0 && Legal(s, events) && i <= |events|
    ensures var st := At(s, events, i); Tables.WellKeyed(st.db) && CacheKnown(st.db, st.cache, st.now, s.ttl)
  {
    hide Legal, Replay, At, Tables.WellKeyed, CacheKnown;
    AtIsReplay(s, events, i);
    CacheStaysKnown(s, events[..i]);
  }

  lemma TeamIdsAscend(s: Settings, events: seq<Event>, i: nat, teamId: int)
    requires s.ttl > 0 && Legal(s, events) && i <= |events|
    ensures Ascending(TeamIds(s, events, i, teamId), SELF)
    ensures forall id :: id in TeamIds(s, events, i, teamId) ==> TeamHasTask(At(s, events, i).db, teamId, id)
  {
    hide Legal, At;
    AgreesAt(s, events, i);
  }

  lemma TeamTaskLater(s: Settings, events: seq<Event>, i: nat, j: nat, teamId: int, id: int)
    requires Legal(s, events) && i <= j <= |events| && TeamHasTask(At(s, events, i).db, teamId, id)
    ensures TeamHasTask(At(s, events, j).db, teamId, id)
  {
    hide Legal, Past;
    PastSteps(s, events);
    PastGrows(s, Past(s, events), events, i, j);
    var row :| row in At(s, events, i).db.tasks && row.id == id && row.teamId == teamId;
    RowIsKnown(At(s, events, i).db, row);
    KnownLater(At(s, events, i).db, At(s, events, j).db, row);
    var later :| later in At(s, events, j).db.tasks && SameIdentity(row, later);
  }

  /** Values found under ids of a team's set are versions of the team's rows. */
  lemma GotTeamTasks(s: Settings, events: seq<Event>, teamId: int, ids: seq<int>, ranged: nat, tasks: seq<Task>,
                     got: nat)
    requires s.ttl > 0 && Legal(s, events) && ranged <= got <= |events|
    requires forall id :: id in ids ==> id in TeamIds(s, events, ranged, teamId)
    requires LiveTasks(At(s, events, got).cache, At(s, events, got).now, ids) == Some(tasks)
    ensures IdsOf(tasks) == ids
    ensures forall t :: t in tasks ==> t.teamId == teamId && Known(At(s, events, got).db, t)
  {
    hide Legal, At;
    var st := At(s, events, got);
    AgreesAt(s, events, got);
    LiveTasksAre(st.cache, st.now, ids);
    forall i | 0 <= i < |tasks|
      ensures tasks[i].id == ids[i] && tasks[i].teamId == teamId && Known(st.db, tasks[i])
    {
      assert LiveTask(st.cache, st.now, ids[i]) == Some(tasks[i]) && ids[i] in ids;
      TeamIdsAscend(s, events, ranged, teamId);
      TeamTaskLater(s, events, ranged, got, teamId, ids[i]);
      VersionOfTeamRow(st.db, tasks[i], teamId);
    }
  }

  /** What a listing that came out of the cache served: the window of the set that begins after the ids its
      ZRANK counted, as the ZRANGE found it. */
  ghost predicate ServedWindow(s: Settings, events: seq<Event>, list: ListInput, tasks: seq<Task>, source: Source)
    requires Legal(s, events) && source.FromCache?
    requires source.ranged <= |events| && (source.ranked.Some? ==> source.ranked.value <= |events|)
  {
    var ids := TeamIds(s, events, source.ranged, list.teamId);
    var start := if source.ranked.None? then 0
                 else UpTo(TeamIds(s, events, source.ranked.value, list.teamId), list.startFromId);
    && start < |ids| && IdsOf(tasks) == Take(ids[start..], DEFAULT_LIMIT + 1)
  }

  lemma WindowServed(s: Settings, events: seq<Event>, k: nat, began: nat, list: ListInput, start: nat, ids: seq<int>,
                     tasks: seq<Task>, source: Source)
    requires s.ttl > 0 && Legal(s, events)
             && ServedFrom(Past(s, events), events, k, began, list, start, ids, tasks, source)
    ensures ServedWindow(s, events, list, tasks, source) && Ascending(tasks, TASK_ID)
    ensures forall t :: t in tasks ==> t.teamId == list.teamId && Known(At(s, events, source.got).db, t)
  {
    hide Legal, Past, LiveIds, LiveTasks, IndexOf;
    var all := TeamIds(s, events, source.ranged, list.teamId);
    assert all == IdsAt(Past(s, events), source.ranged, list.teamId);
    TeamIdsAscend(s, events, source.ranged, list.teamId);
    assert ids == Take(all[start..], DEFAULT_LIMIT + 1);
    GotTeamTasks(s, events, list.teamId, ids, source.ranged, tasks, source.got);
    if source.ranked.Some? {
      TeamIdsAscend(s, events, source.ranked.value, list.teamId);
      RankIsUpTo(TeamIds(s, events, source.ranked.value, list.teamId), list.startFromId);
    }
    WindowAscends(all, start, tasks);
  }

  lemma WindowAscends(ids: seq<int>, start: nat, tasks: seq<Task>)
    requires Ascending(ids, SELF) && start < |ids| && IdsOf(tasks) == Take(ids[start..], DEFAULT_LIMIT + 1)
    ensures Ascending(tasks, TASK_ID)
  {
    var window := IdsOf(tasks);
    forall i, j | 0 <= i < j < |tasks|
      ensures TASK_ID(tasks[i]) < TASK_ID(tasks[j])
    {
      assert window[i] == ids[start + i] && window[j] == ids[start + j];
      assert SELF(ids[start + i]) < SELF(ids[start + j]);
    }
  }

  lemma CarriesAtEnd(s: Settings, events: seq<Event>, k: nat)
    requires s.ttl > 0 && Legal(s, events) && k in Replay(s, events).flights
    ensures Carries(Past(s, events), events, k, Replay(s, events).flights[k])
  {
    hide Carries, Legal, Replay, ValuesHeld;
    EverythingHeld(s, events);
  }

  lemma IdsAbove(tasks: seq<Task>, cursor: int)
    ensures (forall t :: t in tasks ==> t.id > cursor) <==> (forall x :: x in IdsOf(tasks) ==> x > cursor)
  {
    if forall t :: t in tasks ==> t.id > cursor {
      forall x | x in IdsOf(tasks)
        ensures x > cursor
      {
        var i :| 0 <= i < |tasks| && IdsOf(tasks)[i] == x;
        assert tasks[i] in tasks;
      }
    }
    if forall x :: x in IdsOf(tasks) ==> x > cursor {
      forall t | t in tasks
        ensures t.id > cursor
      {
        var i :| 0 <= i < |tasks| && tasks[i] == t;
        assert IdsOf(tasks)[i] in IdsOf(tasks);
      }
    }
  }

  /** What an overlapping listing serves.  From the tables: exactly what they held at the position of its
      SELECT.  From the cache: versions of rows of the requested team, in ascending id order, that are the
      window of the set, as its ZRANGE found it, after the rank its ZRANK found; with a cursor they all
      lie above it if and only if no more ids up to the cursor were in the set at the ZRANGE than at the
      ZRANK, and are the window after the cursor if and only if there were as many. */
  lemma ListingServes(s: Settings, events: seq<Event>, k: nat)
    requires s.ttl > 0 && Legal(s, events) && k in Replay(s, events).flights && Replay(s, events).flights[k].op.Served?
    ensures var fl := Replay(s, events).flights[k];
            && fl.began < |events| && events[fl.began] == Begin(k, ListCheck(fl.op.list))
            && (fl.op.source.FromTables? ==>
                  && fl.began < fl.op.source.at <= |events| && StepOf(events, k, fl.op.source.at)
                  && fl.op.tasks == FetchForList(At(s, events, fl.op.source.at).db, fl.op.list))
            && (fl.op.source.FromCache? ==>
                  && InOrder(events, k, fl.began, fl.op.source)
                  && Unfiltered(fl.op.list) && (fl.op.source.ranked.Some? <==> fl.op.list.startFromId > 0)
                  && ServedWindow(s, events, fl.op.list, fl.op.tasks, fl.op.source) && Ascending(fl.op.tasks, TASK_ID)
                  && (forall t :: t in fl.op.tasks ==>
                        t.teamId == fl.op.list.teamId && Known(At(s, events, fl.op.source.got).db, t)))
    ensures var op := Replay(s, events).flights[k].op;
            op.source.FromCache? && op.source.ranked.Some? ==>
              var cursor := op.list.startFromId;
              var early := TeamIds(s, events, op.source.ranked.value, op.list.teamId);
              var later := TeamIds(s, events, op.source.ranged, op.list.teamId);
              && ((forall t :: t in op.tasks ==> t.id > cursor) <==> UpTo(later, cursor) <= UpTo(early, cursor))
              && (IdsOf(op.tasks) == Window(later, DEFAULT_LIMIT + 1, CacheCursor(op.list))
                  <==> UpTo(later, cursor) == UpTo(early, cursor))
  {
    hide Legal, Replay, Past, At, TeamIds, FetchForList, Window, UpTo, LiveTasks, IndexOf, Range;
    var fl := Replay(s, events).flights[k];
    var list, tasks, source := fl.op.list, fl.op.tasks, fl.op.source;
    CarriesAtEnd(s, events, k);
    TablesAt(s, events, fl, k);
    if source.FromCache? {
      var start, ids :| ServedFrom(Past(s, events), events, k, fl.began, list, start, ids, tasks, source);
      WindowServed(s, events, k, fl.began, list, start, ids, tasks, source);
      hide RankedFor, RangedFor, GotFor, ServedFor, Carries;
      ServedInOrder(Past(s, events), events, k, fl.began, list, start, ids, tasks, source);
      if source.ranked.Some? {
        var early := UpTo(TeamIds(s, events, source.ranked.value, list.teamId), list.startFromId);
        TeamIdsAscend(s, events, source.ranged, list.teamId);
        WindowAgainstCursor(TeamIds(s, events, source.ranged, list.teamId), early, list.startFromId);
        IdsAbove(tasks, list.startFromId);
      }
    }
  }

  lemma TablesAt(s: Settings, events: seq<Event>, fl: Flight, k: nat)
    requires Legal(s, events) && fl.op.Served? && Carries(Past(s, events), events, k, fl)
    ensures fl.began < |events| && events[fl.began] == Begin(k, ListCheck(fl.op.list))
    ensures fl.op.source.FromTables? ==>
              var at := fl.op.source.at;
              fl.began < at <= |events| && StepOf(events, k, at)
                  && fl.op.tasks == FetchForList(At(s, events, at).db, fl.op.list)
  {
    hide Legal, Past, FetchForList;
  }

  /** The steps of a listing from the cache, in the order they were taken. */
  predicate InOrder(events: seq<Event>, k: nat, began: nat, source: Source)
    requires source.FromCache?
  {
    && began < source.ranged < source.got <= |events|
    && StepOf(events, k, source.ranged) && StepOf(events, k, source.got)
    && (source.ranked.Some? ==>
          began < source.ranked.value < source.ranged && StepOf(events, k, source.ranked.value))
  }

  lemma ServedInOrder(past: seq<State>, events: seq<Event>, k: nat, began: nat, list: ListInput, start: nat,
                      ids: seq<int>, tasks: seq<Task>, source: Source)
    requires |past| == |events| + 1 && ServedFrom(past, events, k, began, list, start, ids, tasks, source)
    ensures Unfiltered(list) && (source.ranked.Some? <==> list.startFromId > 0)
    ensures InOrder(events, k, began, source)
  {
    hide LiveTasks, LiveIds, IndexOf, Range;
  }

  /** How old what it serves can be: rows of the tables as they were at its SELECT; from the cache, values
      that were rows at a position inside the call that wrote them, no longer before the MGET than the
      time to live and the part of that call up to its write. */
  lemma ListingIsFresh(s: Settings, events: seq<Event>, k: nat, t: Task)
    requires s.ttl > 0 && Legal(s, events) && k in Replay(s, events).flights
    requires var op := Replay(s, events).flights[k].op; op.Served? && t in op.tasks
    ensures var source := Replay(s, events).flights[k].op.source;
            && (source.FromTables? ==> source.at <= |events| && t in At(s, events, source.at).db.tasks)
            && (source.FromCache? ==>
                   source.got <= |events| && exists span :: RecentRow(s, events, t, span, source.got))
  {
    hide Legal, Replay, Past, At, LiveTasks, IndexOf, Range, ServedWindow, RecentRow;
    var fl := Replay(s, events).flights[k];
    var source := fl.op.source;
    CarriesAtEnd(s, events, k);
    TablesAt(s, events, fl, k);
    if source.FromTables? {
      FetchedIsRow(At(s, events, source.at).db, fl.op.list, t);
    } else {
      var start, ids :| ServedFrom(Past(s, events), events, k, fl.began, fl.op.list, start, ids, fl.op.tasks, source);
      GotAt(s, events, k, ids, source.ranged, fl.op.tasks, source.got);
      var i :| 0 <= i < |fl.op.tasks| && fl.op.tasks[i] == t;
      ValueIsRecent(s, events, ids, fl.op.tasks, source.got, i);
    }
  }

  lemma GotAt(s: Settings, events: seq<Event>, k: nat, ids: seq<int>, ranged: nat, tasks: seq<Task>, got: nat)
    requires Legal(s, events) && GotFor(Past(s, events), events, k, ids, ranged, tasks, got)
    ensures got <= |events| && LiveTasks(At(s, events, got).cache, At(s, events, got).now, ids) == Some(tasks)
  {
    hide Legal, Past, LiveTasks;
  }

  lemma ValueIsRecent(s: Settings, events: seq<Event>, ids: seq<int>, tasks: seq<Task>, got: nat, i: nat)
    requires s.ttl > 0 && Legal(s, events) && got <= |events| && i < |tasks|
    requires LiveTasks(At(s, events, got).cache, At(s, events, got).now, ids) == Some(tasks)
    ensures exists span :: RecentRow(s, events, tasks[i], span, got)
  {
    hide Legal, Replay, Past, At, RecentRow;
    var st := At(s, events, got);
    LiveTasksAre(st.cache, st.now, ids);
    assert LiveTask(st.cache, st.now, ids[i]) == Some(tasks[i]);
    AtIsReplay(s, events, got);
    BoundedStaleness(s, events[..got], ids[i]);
    RecentInLongerRun(s, events, got, tasks[i], st.spans[ids[i]]);
  }

  lemma RecentInLongerRun(s: Settings, events: seq<Event>, i: nat, t: Task, span: Span)
    requires Legal(s, events) && i <= |events|
    requires Legal(s, events[..i]) && RecentRow(s, events[..i], t, span, i)
    ensures RecentRow(s, events, t, span, i)
  {
    hide Legal, Replay, Past;
    PastOfPrefix(s, events, i);
    assert forall j :: 0 <= j <= i ==> Past(s, events[..i])[j] == Past(s, events)[j];
  }
}
