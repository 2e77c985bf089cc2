/** When a listing answered from the cache is the listing the database would have given. */
module Refinement {
  import opened Model
  import opened Paging
  import opened Tables
  import opened TaskCache
  import opened Operations
  import opened Agreement
  import opened Serial
  import opened Coherence
  import SqlQuery

  const PROBED: nat := DEFAULT_LIMIT + 1

  function TeamRows(db: Db, teamId: int): seq<Task> {
    SqlQuery.Matching(db.tasks, teamId, "", 0, 0)
  }

  lemma TeamRowsIn(db: Db, teamId: int, t: Task)
    ensures t in TeamRows(db, teamId) <==> t in db.tasks && t.teamId == teamId
  {
    SqlQuery.MatchingIn(db.tasks, teamId, "", 0, 0, t);
  }

  // ---------------------------------------------------------------------------
  // Ids of pages

  lemma IdsAscending(tasks: seq<Task>)
    requires Ascending(tasks, TASK_ID)
    ensures Ascending(IdsOf(tasks), SELF)
  {
    forall i, j | 0 <= i < j < |tasks|
      ensures SELF(IdsOf(tasks)[i]) < SELF(IdsOf(tasks)[j])
    {
      assert TASK_ID(tasks[i]) < TASK_ID(tasks[j]);
    }
  }

  lemma IdsIn(tasks: seq<Task>, id: int)
    ensures id in IdsOf(tasks) <==> exists t :: t in tasks && t.id == id
  {
    if id in IdsOf(tasks) {
      var i :| 0 <= i < |tasks| && IdsOf(tasks)[i] == id;
      assert tasks[i] in tasks;
    }
    if t :| t in tasks && t.id == id {
      var i :| 0 <= i < |tasks| && tasks[i] == t;
      assert IdsOf(tasks)[i] == id;
    }
  }

  /** The rows a database listing fetches: those of the team above the cursor, at most 101. */
  lemma FetchIsAfter(db: Db, inp: ListInput)
    requires WellKeyed(db) && Unfiltered(inp)
    ensures FetchForList(db, inp) == Take(After(TeamRows(db, inp.teamId), TASK_ID, inp.startFromId), PROBED)
  {
    SqlQuery.MatchingAfterCursor(db.tasks, inp.teamId, inp.status, inp.assigneeId, inp.startFromId);
  }

  lemma FetchedRows(db: Db, inp: ListInput)
    requires WellKeyed(db) && Unfiltered(inp)
    ensures var all := After(TeamRows(db, inp.teamId), TASK_ID, inp.startFromId);
            && FetchForList(db, inp) == Take(all, PROBED)
            && Ascending(all, TASK_ID)
            && forall t :: t in all <==> t in db.tasks && t.teamId == inp.teamId && t.id > inp.startFromId
  {
    var rows := TeamRows(db, inp.teamId);
    FetchIsAfter(db, inp);
    SqlQuery.MatchingAscending(db.tasks, inp.teamId, "", 0, 0);
    AfterAscending(rows, TASK_ID, inp.startFromId);
    forall t
      ensures t in After(rows, TASK_ID, inp.startFromId)
              <==> t in db.tasks && t.teamId == inp.teamId && t.id > inp.startFromId
    {
      AfterIn(rows, TASK_ID, inp.startFromId, t);
      TeamRowsIn(db, inp.teamId, t);
    }
  }

  lemma HeadAndTail(ids: seq<int>)
    requires Ascending(ids, SELF) && ids != []
    ensures Ascending(ids[1..], SELF)
    ensures forall x :: x in ids <==> x == ids[0] || x in ids[1..]
    ensures forall x :: x in ids[1..] ==> ids[0] < x
  {
    AscendingTail(ids, SELF);
    assert ids == [ids[0]] + ids[1..];
    forall x | x in ids[1..]
      ensures ids[0] < x
    {
      var i :| 0 <= i < |ids[1..]| && ids[1..][i] == x;
      assert SELF(ids[0]) < SELF(ids[1..][i]);
    }
  }

  /** An ascending sequence is the front of another as soon as the members it misses all lie beyond it. */
  lemma {:induction false} PrefixByMembers(w: seq<int>, r: seq<int>)
    requires Ascending(w, SELF) && Ascending(r, SELF)
    requires forall x :: x in w ==> x in r
    requires forall x, y :: x in r && x !in w && y in w ==> x > y
    ensures w <= r
  {
    if w != [] {
      SameHead(w, r);
      hide Ascending;
      PrefixByMembers(w[1..], r[1..]);
      assert w == [w[0]] + w[1..] && r == [r[0]] + r[1..];
    }
  }

  lemma SameHead(w: seq<int>, r: seq<int>)
    requires Ascending(w, SELF) && Ascending(r, SELF) && w != []
    requires forall x :: x in w ==> x in r
    requires forall x, y :: x in r && x !in w && y in w ==> x > y
    ensures r != [] && w[0] == r[0]
    ensures Ascending(w[1..], SELF) && Ascending(r[1..], SELF)
    ensures forall x :: x in w[1..] ==> x in r[1..]
    ensures forall x, y :: x in r[1..] && x !in w[1..] && y in w[1..] ==> x > y
  {
    assert w[0] in w && w[0] in r;
    hide Ascending;
    HeadAndTail(w);
    HeadAndTail(r);
    assert r[0] in r;
  }

  lemma PrefixWithAllMembers(w: seq<int>, r: seq<int>)
    requires Ascending(r, SELF) && w <= r && forall x :: x in r ==> x in w
    ensures w == r
  {
    if |w| < |r| {
      MemberBeyond(w, r);
    }
  }

  lemma BeyondPrefix(w: seq<int>, r: seq<int>, x: int, y: int)
    requires Ascending(r, SELF) && w <= r && x in r && x !in w && y in w
    ensures x > y
  {
    var i :| 0 <= i < |r| && r[i] == x;
    var j :| 0 <= j < |w| && w[j] == y;
    assert r[j] == y && i >= |w|;
    assert SELF(r[j]) < SELF(r[i]);
  }

  /** Coherent or not, a hit is made of versions of the team's rows above the cursor, in ascending id
      order and at most 101 of them: a subsequence of what the table holds there. */
  lemma HitIsSubsequence(s: Settings, w: World, inp: ListInput, hit: seq<Task>)
    requires Sound(s, w)
    requires ReadPage(w.cache, w.now, inp.teamId, PROBED, CacheCursor(inp)) == Some(hit)
    ensures 0 < |hit| <= PROBED && Ascending(hit, TASK_ID)
    ensures forall t :: t in hit ==> t.id > inp.startFromId && t.teamId == inp.teamId && Known(w.db, t)
  {
    var ids := LiveIds(w.cache, w.now, inp.teamId);
    var window := Window(ids, PROBED, CacheCursor(inp));
    PageIsWindow(w.cache, w.now, inp.teamId, PROBED, CacheCursor(inp));
    forall i | 0 <= i < |hit|
      ensures hit[i].id > inp.startFromId && hit[i].teamId == inp.teamId && Known(w.db, hit[i])
    {
      assert LiveTask(w.cache, w.now, window[i]) == Some(hit[i]) && window[i] in window;
      WindowIsAbove(ids, CacheCursor(inp), window[i]);
      VersionOfTeamRow(w.db, hit[i], inp.teamId);
    }
  }

  lemma WindowIsAbove(ids: seq<int>, cursor: Option<int>, x: int)
    requires x in Window(ids, PROBED, cursor)
    ensures x in ids && (cursor.Some? ==> x > cursor.value)
  {
    if cursor.Some? {
      AfterIn(ids, SELF, cursor.value, x);
    }
  }

  // ---------------------------------------------------------------------------
  // Exactly when a hit is exact

  /** No row of the team above the cursor is missing from the set, except beyond a full window. */
  ghost predicate NoGap(w: World, inp: ListInput) {
    var ids := LiveIds(w.cache, w.now, inp.teamId);
    var window := Window(ids, PROBED, CacheCursor(inp));
    forall t :: t in w.db.tasks && t.teamId == inp.teamId && t.id > inp.startFromId && t.id !in ids ==>
      |window| == PROBED && t.id > window[PROBED - 1]
  }

  ghost predicate SameAbove(ids: seq<int>, above: seq<int>, cursor: Option<int>, from: int) {
    && Ascending(ids, SELF) && Ascending(above, SELF)
    && (forall x :: x in ids && x > from ==> x in above)
    && (forall x :: x in above ==> x > from)
    && (if cursor.Some? then cursor.value == from else forall x :: x in ids ==> x > from)
  }

  /** The ids from which a window is taken. */
  function FromCursor(ids: seq<int>, cursor: Option<int>): seq<int> {
    if cursor.Some? then After(ids, SELF, cursor.value) else ids
  }

  lemma WindowMembers(ids: seq<int>, above: seq<int>, cursor: Option<int>, from: int)
    requires SameAbove(ids, above, cursor, from)
    ensures var all := FromCursor(ids, cursor);
            && Window(ids, PROBED, cursor) == Take(all, PROBED)
            && Ascending(all, SELF)
            && forall x :: x in all <==> x in ids && x > from
  {
    if cursor.Some? {
      AfterAscending(ids, SELF, from);
      forall x
        ensures x in After(ids, SELF, from) <==> x in ids && x > from
      {
        AfterIn(ids, SELF, from, x);
      }
    }
  }

  lemma TakeIn<T>(rows: seq<T>, n: nat, x: T)
    requires x in rows && x !in Take(rows, n)
    ensures |Take(rows, n)| == n && Take(rows, n) <= rows
  {}

  lemma TakeAscendingIn(rows: seq<int>, n: nat)
    requires Ascending(rows, SELF)
    ensures Ascending(Take(rows, n), SELF)
    ensures Take(rows, n) <= rows && |Take(rows, n)| <= n
    ensures forall x :: x in Take(rows, n) ==> x in rows
  {}

  lemma GapFreeWindow(ids: seq<int>, above: seq<int>, cursor: Option<int>, from: int)
    requires SameAbove(ids, above, cursor, from)
    requires var w := Window(ids, PROBED, cursor);
             forall x :: x in above && x !in ids ==> |w| == PROBED && x > w[PROBED - 1]
    ensures Window(ids, PROBED, cursor) == Take(above, PROBED)
  {
    hide Take, Window, FromCursor, Ascending;
    var all := FromCursor(ids, cursor);
    WindowMembers(ids, above, cursor, from);
    var w := Take(all, PROBED);
    TakeAscendingIn(all, PROBED);
    assert Ascending(above, SELF);
    assert forall x :: x in above ==> x > from;
    WithinAbove(ids, above, all, w, from);
    hide SameAbove;
    forall x | x in above && x !in w
      ensures |w| == PROBED
      ensures forall y :: y in w ==> x > y
    {
      MissingIsBeyond(ids, all, w, from, x);
    }
    FrontOf(w, above);
  }

  lemma WithinAbove(ids: seq<int>, above: seq<int>, all: seq<int>, w: seq<int>, from: int)
    requires forall x :: x in w ==> x in all
    requires forall x :: x in all <==> x in ids && x > from
    requires forall x :: x in ids && x > from ==> x in above
    ensures forall x :: x in w ==> x in above
  {}

  lemma MissingIsBeyond(ids: seq<int>, all: seq<int>, w: seq<int>, from: int, x: int)
    requires Ascending(all, SELF) && Ascending(w, SELF) && w == Take(all, PROBED)
    requires x in ids && x > from ==> x in all
    requires x > from && x !in w
    requires x !in ids ==> |w| == PROBED && x > w[PROBED - 1]
    ensures |w| == PROBED
    ensures forall y :: y in w ==> x > y
  {
    hide Ascending;
    if x in ids {
      TakeIn(all, PROBED, x);
      BeyondWhole(w, all, x);
    } else {
      BelowLast(w, x);
    }
  }

  lemma FrontOf(w: seq<int>, r: seq<int>)
    requires Ascending(w, SELF) && Ascending(r, SELF) && |w| <= PROBED
    requires forall x :: x in w ==> x in r
    requires forall x :: x in r && x !in w ==> |w| == PROBED && forall y :: y in w ==> x > y
    ensures Take(r, PROBED) == w
  {
    hide Ascending;
    PrefixByMembers(w, r);
    if |w| < PROBED {
      PrefixWithAllMembers(w, r);
    }
    TakePrefix(w, r);
  }

  lemma BeyondWhole(w: seq<int>, r: seq<int>, x: int)
    requires Ascending(r, SELF) && w <= r && x in r && x !in w
    ensures forall y :: y in w ==> x > y
  {
    forall y | y in w
      ensures x > y
    {
      BeyondPrefix(w, r, x, y);
    }
  }

  lemma BelowLast(w: seq<int>, x: int)
    requires Ascending(w, SELF) && |w| == PROBED && x > w[PROBED - 1]
    ensures forall y :: y in w ==> x > y
  {
    forall y | y in w
      ensures x > y
    {
      var j :| 0 <= j < |w| && w[j] == y;
      assert j < PROBED - 1 ==> SELF(w[j]) < SELF(w[PROBED - 1]);
    }
  }

  lemma TakePrefix(w: seq<int>, r: seq<int>)
    requires w <= r && |w| <= PROBED && (|w| < PROBED ==> w == r)
    ensures Take(r, PROBED) == w
  {}

  lemma MemberBeyond(w: seq<int>, r: seq<int>)
    requires Ascending(r, SELF) && w <= r && |w| < |r|
    ensures r[|w|] in r && r[|w|] !in w
  {
    forall j | 0 <= j < |w|
      ensures w[j] != r[|w|]
    {
      assert SELF(r[j]) < SELF(r[|w|]);
    }
  }

  lemma WindowGapFree(ids: seq<int>, above: seq<int>, cursor: Option<int>, from: int, x: int)
    requires SameAbove(ids, above, cursor, from)
    requires Window(ids, PROBED, cursor) == Take(above, PROBED)
    requires x in above && x !in ids
    ensures |Window(ids, PROBED, cursor)| == PROBED && x > Window(ids, PROBED, cursor)[PROBED - 1]
  {
    var all := FromCursor(ids, cursor);
    WindowMembers(ids, above, cursor, from);
    var w := Take(above, PROBED);
    assert x !in w;
    TakeIn(above, PROBED, x);
    BeyondPrefix(w, above, x, w[PROBED - 1]);
  }

  /** Two answers with the same ids are about the same hundred rows and go on from the same place. */
  lemma AnswerIds(a: seq<Task>, b: seq<Task>)
    requires |a| <= PROBED && |b| <= PROBED
    requires ListAnswer(a) == ListAnswer(b)
    ensures IdsOf(a) == IdsOf(b)
  {
    var pa, pb := ListAnswer(a), ListAnswer(b);
    assert |pa.items| == |pb.items|;
    assert |a| == |b|;
    forall i | 0 <= i < |a|
      ensures a[i].id == b[i].id
    {
      if i < DEFAULT_LIMIT {
        assert pa.items[i] == ItemOf(a[i]) && pb.items[i] == ItemOf(b[i]);
      } else {
        assert TASK_ID(a[DEFAULT_LIMIT]) == TASK_ID(b[DEFAULT_LIMIT]);
      }
    }
  }

  /** A hit has the ids of the window. */
  lemma HitIds(s: Settings, w: World, inp: ListInput, hit: seq<Task>)
    requires Sound(s, w)
    requires ReadPage(w.cache, w.now, inp.teamId, PROBED, CacheCursor(inp)) == Some(hit)
    ensures IdsOf(hit) == Window(LiveIds(w.cache, w.now, inp.teamId), PROBED, CacheCursor(inp))
    ensures |hit| <= PROBED
  {
    PageIsWindow(w.cache, w.now, inp.teamId, PROBED, CacheCursor(inp));
  }

  ghost predicate ShownAsNow(db: Db, t: Task) {
    exists row :: row in db.tasks && ItemOf(row) == ItemOf(t)
  }

  /** The rows a hit delivers, without the probe row, are shown as the database would show them now. */
  ghost predicate ShowsCurrentRows(db: Db, hit: seq<Task>) {
    forall i :: 0 <= i < |hit| && i < DEFAULT_LIMIT ==> ShownAsNow(db, hit[i])
  }

  lemma SameAnswer(db: Db, hit: seq<Task>, fetched: seq<Task>)
    requires WellKeyed(db) && IdsOf(hit) == IdsOf(fetched) && ShowsCurrentRows(db, hit)
    requires forall t :: t in fetched ==> t in db.tasks
    ensures ListAnswer(hit) == ListAnswer(fetched)
  {
    assert |hit| == |IdsOf(hit)| == |fetched|;
    forall i | 0 <= i < |hit|
      ensures hit[i].id == fetched[i].id
      ensures i < DEFAULT_LIMIT ==> ItemOf(hit[i]) == ItemOf(fetched[i])
    {
      assert IdsOf(hit)[i] == IdsOf(fetched)[i];
      if i < DEFAULT_LIMIT {
        assert ShownAsNow(db, hit[i]);
        var row :| row in db.tasks && ItemOf(row) == ItemOf(hit[i]);
        TaskIsUnique(db, row, fetched[i]);
      }
    }
  }

  lemma AnswerShowsRows(db: Db, hit: seq<Task>, fetched: seq<Task>)
    requires ListAnswer(hit) == ListAnswer(fetched) && IdsOf(hit) == IdsOf(fetched)
    requires forall t :: t in fetched ==> t in db.tasks
    ensures ShowsCurrentRows(db, hit)
  {
    assert |hit| == |IdsOf(hit)| == |fetched|;
    forall i | 0 <= i < |hit| && i < DEFAULT_LIMIT
      ensures ShownAsNow(db, hit[i])
    {
      assert ListAnswer(hit).items[i] == ItemOf(hit[i]) && ListAnswer(fetched).items[i] == ItemOf(fetched[i]);
      assert fetched[i] in db.tasks;
    }
  }

  lemma SetAgainstRows(s: Settings, w: World, inp: ListInput)
    requires Sound(s, w) && Unfiltered(inp)
    ensures var all := After(TeamRows(w.db, inp.teamId), TASK_ID, inp.startFromId);
            SameAbove(LiveIds(w.cache, w.now, inp.teamId), IdsOf(all), CacheCursor(inp), inp.startFromId)
  {
    var all := After(TeamRows(w.db, inp.teamId), TASK_ID, inp.startFromId);
    var ids := LiveIds(w.cache, w.now, inp.teamId);
    FetchedRows(w.db, inp);
    IdsAscending(all);
    forall x
      ensures x in IdsOf(all) ==> x > inp.startFromId
      ensures x in ids && x > inp.startFromId ==> x in IdsOf(all)
      ensures x in ids ==> x > 0
    {
      IdsIn(all, x);
      if x in ids {
        assert TeamHasTask(w.db, inp.teamId, x);
        var row :| row in w.db.tasks && row.id == x && row.teamId == inp.teamId;
        var i :| 0 <= i < |w.db.tasks| && w.db.tasks[i] == row;
        assert TASK_ID(w.db.tasks[i]) > 0;
      }
    }
  }

  lemma NoGapInIds(s: Settings, w: World, inp: ListInput)
    requires Sound(s, w) && Unfiltered(inp)
    ensures var all := After(TeamRows(w.db, inp.teamId), TASK_ID, inp.startFromId);
            var ids := LiveIds(w.cache, w.now, inp.teamId);
            var window := Window(ids, PROBED, CacheCursor(inp));
            NoGap(w, inp) <==>
              forall x :: x in IdsOf(all) && x !in ids ==> |window| == PROBED && x > window[PROBED - 1]
  {
    var all := After(TeamRows(w.db, inp.teamId), TASK_ID, inp.startFromId);
    FetchedRows(w.db, inp);
    forall x
      ensures x in IdsOf(all) <==> exists t :: t in all && t.id == x
    {
      IdsIn(all, x);
    }
  }

  /** Exactly when a hit is exact, in any state a serial run can reach: the set has no gap, and each row the
      hit delivers is still as it was cached. */
  lemma HitIsExactIff(s: Settings, w: World, inp: ListInput, hit: seq<Task>)
    requires Sound(s, w) && Unfiltered(inp)
    requires ReadPage(w.cache, w.now, inp.teamId, PROBED, CacheCursor(inp)) == Some(hit)
    ensures ListAnswer(hit) == ListAnswer(FetchForList(w.db, inp)) <==> NoGap(w, inp) && ShowsCurrentRows(w.db, hit)
  {
    hide ListAnswer, NoGap, Window, SameAbove, Sound, ShowsCurrentRows, LiveIds, ReadPage;
    var all := After(TeamRows(w.db, inp.teamId), TASK_ID, inp.startFromId);
    var ids := LiveIds(w.cache, w.now, inp.teamId);
    var fetched := FetchForList(w.db, inp);
    HitIds(s, w, inp, hit);
    SetAgainstRows(s, w, inp);
    NoGapInIds(s, w, inp);
    FetchedIds(s, w, inp);
    if NoGap(w, inp) && ShowsCurrentRows(w.db, hit) {
      GapFreeWindow(ids, IdsOf(all), CacheCursor(inp), inp.startFromId);
      SoundKeys(s, w);
      SameAnswer(w.db, hit, fetched);
    }
    if ListAnswer(hit) == ListAnswer(fetched) {
      AnswerIds(hit, fetched);
      AnswerShowsRows(w.db, hit, fetched);
      NoGapBelow(ids, IdsOf(all), CacheCursor(inp), inp.startFromId);
    }
  }

  lemma NoGapBelow(ids: seq<int>, above: seq<int>, cursor: Option<int>, from: int)
    requires SameAbove(ids, above, cursor, from)
    requires Window(ids, PROBED, cursor) == Take(above, PROBED)
    ensures var w := Window(ids, PROBED, cursor);
            forall x :: x in above && x !in ids ==> |w| == PROBED && x > w[PROBED - 1]
  {
    hide Window, SameAbove;
    var w := Window(ids, PROBED, cursor);
    forall x | x in above && x !in ids
      ensures |w| == PROBED && x > w[PROBED - 1]
    {
      WindowGapFree(ids, above, cursor, from, x);
    }
  }

  /** Where live values are current, the gap is all that matters. */
  lemma CoherentHitIsExactIff(s: Settings, w: World, inp: ListInput, hit: seq<Task>)
    requires Sound(s, w) && Unfiltered(inp) && Coherent(w.db, w.cache, w.now)
    requires ReadPage(w.cache, w.now, inp.teamId, PROBED, CacheCursor(inp)) == Some(hit)
    ensures ListAnswer(hit) == ListAnswer(FetchForList(w.db, inp)) <==> NoGap(w, inp)
  {
    hide ListAnswer, NoGap, FetchForList;
    HitIsExactIff(s, w, inp, hit);
    PageIsWindow(w.cache, w.now, inp.teamId, PROBED, CacheCursor(inp));
    var window := Window(LiveIds(w.cache, w.now, inp.teamId), PROBED, CacheCursor(inp));
    forall i | 0 <= i < |hit|
      ensures ShownAsNow(w.db, hit[i])
    {
      assert LiveTask(w.cache, w.now, window[i]) == Some(hit[i]);
    }
  }

  lemma SoundKeys(s: Settings, w: World)
    requires Sound(s, w)
    ensures WellKeyed(w.db)
  {}

  lemma FetchedIds(s: Settings, w: World, inp: ListInput)
    requires Sound(s, w) && Unfiltered(inp)
    ensures var all := After(TeamRows(w.db, inp.teamId), TASK_ID, inp.startFromId);
            && IdsOf(FetchForList(w.db, inp)) == Take(IdsOf(all), PROBED)
            && |FetchForList(w.db, inp)| <= PROBED
            && forall t :: t in FetchForList(w.db, inp) ==> t in w.db.tasks
  {
    FetchedRows(w.db, inp);
    var all := After(TeamRows(w.db, inp.teamId), TASK_ID, inp.startFromId);
    assert forall t :: t in Take(all, PROBED) ==> t in all;
  }

  // ---------------------------------------------------------------------------
  // The state in which every listing is exact

  /** The team's set is live and holds exactly the team's ids. */
  ghost predicate ExactSet(w: World, teamId: int) {
    && SetIsLive(w.cache, w.now, teamId)
    && forall id :: id in LiveIds(w.cache, w.now, teamId) <==> TeamHasTask(w.db, teamId, id)
  }

  lemma ExactHasNoGap(w: World, inp: ListInput)
    requires ExactSet(w, inp.teamId)
    ensures NoGap(w, inp)
  {
    forall t | t in w.db.tasks && t.teamId == inp.teamId
      ensures t.id in LiveIds(w.cache, w.now, inp.teamId)
    {
      assert TeamHasTask(w.db, inp.teamId, t.id);
    }
  }

  /** Conditional refinement: with an exact set, any unfiltered listing that succeeds, from any cursor and
      with any of its calls allowed to fail, gives the answer of the database; and a listing for a
      member succeeds when nothing fails. */
  lemma ListingRefinesDatabase(s: Settings, w: World, inp: ListInput, f: ListFaults)
    requires s.ttl > 0 && Sound(s, w) && Coherent(w.db, w.cache, w.now) && Unfiltered(inp)
    requires ExactSet(w, inp.teamId)
    ensures var r := ListCall(w.db, w.cache, w.now, s.ttl, inp, f).result;
            && (r.Ok? ==> r.value == ListAnswer(FetchForList(w.db, inp)))
            && (IsMember(w.db, inp.userId, inp.teamId)
                && f == ListFaults(Fine, ReadFaults(Fine, Fine, Fine), Fine, f.ran) ==>
                  r.Ok?)
  {
    hide ListAnswer, ReadPage, CachedPage, Sound, Coherent, ExactSet, NoGap, FetchForList, IsMember, Put;
    CachedPageAnswer(w.cache, w.now, inp.teamId, PROBED, CacheCursor(inp), f.read);
    var page := ReadPage(w.cache, w.now, inp.teamId, PROBED, CacheCursor(inp));
    if page.Some? {
      ExactHasNoGap(w, inp);
      CoherentHitIsExactIff(s, w, inp, page.value);
    }
  }

  /** A first-page miss of a team with at most a hundred tasks makes its set exact. */
  lemma MissMakesExact(s: Settings, w: World, inp: ListInput, f: ListFaults)
    requires s.ttl > 0 && Sound(s, w) && Unfiltered(inp) && inp.startFromId <= 0
    requires 0 < |TeamRows(w.db, inp.teamId)| <= DEFAULT_LIMIT
    requires ReadForList(w.cache, w.now, inp, f.read) == Ok(None)
    requires IsMember(w.db, inp.userId, inp.teamId) && f.check.Fine? && f.query.Fine?
             && f.ran >= |TeamRows(w.db, inp.teamId)| + 2
    ensures ExactSet(Step(s, w, List(inp, f)), inp.teamId)
  {
    var rows := TeamRows(w.db, inp.teamId);
    var fetched := FetchForList(w.db, inp);
    FetchIsAfter(w.db, inp);
    MatchingPositive(w.db, inp.teamId);
    AfterNothing(rows, TASK_ID, inp.startFromId);
    assert fetched == rows && Take(fetched, DEFAULT_LIMIT) == rows;
    var w' := Step(s, w, List(inp, f));
    FillIsPut(w.cache, w.now, s.ttl, inp.teamId, rows, f.ran);
    assert w'.cache == Put(w.cache, w.now, s.ttl, inp.teamId, rows);
    PutSet(w.cache, w.now, s.ttl, inp.teamId, rows);
    InsertAllIn(LiveIds(w.cache, w.now, inp.teamId), rows);
    ListKeepsSound(s, w, inp, f);
    forall id
      ensures id in LiveIds(w'.cache, w'.now, inp.teamId) <==> TeamHasTask(w'.db, inp.teamId, id)
    {
      if TeamHasTask(w'.db, inp.teamId, id) {
        var row :| row in w.db.tasks && row.id == id && row.teamId == inp.teamId;
        TeamRowsIn(w.db, inp.teamId, row);
      }
    }
  }

  lemma MatchingPositive(db: Db, teamId: int)
    requires WellKeyed(db)
    ensures Positive(TeamRows(db, teamId), TASK_ID)
  {
    var rows := TeamRows(db, teamId);
    forall i | 0 <= i < |rows|
      ensures TASK_ID(rows[i]) > 0
    {
      TeamRowsIn(db, teamId, rows[i]);
      var j :| 0 <= j < |db.tasks| && db.tasks[j] == rows[i];
      assert TASK_ID(db.tasks[j]) > 0;
    }
  }

  /** The call does not put a new task into the team. */
  predicate LeavesTeamAlone(call: Call, teamId: int) {
    call.Create? ==> call.create.teamId != teamId
  }

  lemma ListKeepsLiveSet(s: Settings, w: World, inp: ListInput, f: ListFaults, teamId: int)
    requires s.ttl > 0 && WellFormed(w.cache) && SetIsLive(w.cache, w.now, teamId)
    ensures var c := ListCall(w.db, w.cache, w.now, s.ttl, inp, f).cache;
            && SetIsLive(c, w.now, teamId)
            && forall id :: id in LiveIds(w.cache, w.now, teamId) ==> id in LiveIds(c, w.now, teamId)
  {
    hide Fill, LiveIds, SetIsLive, CachedPage, FetchForList;
    FillKeepsLiveSet(w.cache, w.now, s.ttl, inp.teamId, Take(FetchForList(w.db, inp), DEFAULT_LIMIT), f.ran, teamId);
  }

  lemma EditKeepsLiveSet(s: Settings, w: World, inp: EditInput, f: EditFaults, historyId: int, teamId: int)
    requires s.ttl > 0 && Sound(s, w) && SetIsLive(w.cache, w.now, teamId)
    ensures var c := EditCall(w.db, w.cache, w.now, s, inp, f, historyId).cache;
            && SetIsLive(c, w.now, teamId)
            && forall id :: id in LiveIds(w.cache, w.now, teamId) ==> id in LiveIds(c, w.now, teamId)
  {
    EditEffect(s, w, inp, f, historyId);
    hide Fill, LiveIds, SetIsLive, EditCall;
    if Updates(w, inp, f) {
      var row := FindTask(w.db.tasks, inp.taskId).value;
      FillKeepsLiveSet(w.cache, w.now, s.ttl, row.teamId, [Apply(row, inp.change)], 3, teamId);
    }
  }

  /** Which ids a team has changes only by a creation in that team. */
  lemma TeamIdsStay(s: Settings, w: World, call: Call, teamId: int, id: int)
    requires Sound(s, w) && LeavesTeamAlone(call, teamId)
    ensures TeamHasTask(Step(s, w, call).db, teamId, id) ==> TeamHasTask(w.db, teamId, id)
  {
    if TeamHasTask(Step(s, w, call).db, teamId, id) {
      var t :| t in Step(s, w, call).db.tasks && t.id == id && t.teamId == teamId;
      if call.Edit? {
        EditEffect(s, w, call.edit, call.editFaults, call.historyId);
        if Updates(w, call.edit, call.editFaults) {
          UpdatedRow(w.db, call.edit.taskId, call.edit.change, t);
          var o :| o in w.db.tasks && t == if o.id == call.edit.taskId then Apply(o, call.edit.change) else o;
          assert o.id == id && o.teamId == teamId;
        }
      }
    }
  }

  lemma StepKeepsExact(s: Settings, w: World, call: Call, teamId: int)
    requires s.ttl > 0 && Sound(s, w) && Possible(w, call) && ExactSet(w, teamId)
    requires LeavesTeamAlone(call, teamId) && SetIsLive(w.cache, Step(s, w, call).now, teamId)
    ensures ExactSet(Step(s, w, call), teamId)
  {
    var w' := Step(s, w, call);
    StepKeepsSound(s, w, call);
    match call {
      case List(inp, f) => ListKeepsLiveSet(s, w, inp, f, teamId);
      case Edit(inp, f, historyId) => EditKeepsLiveSet(s, w, inp, f, historyId, teamId);
      case _ =>
    }
    StillExact(s, w, call, teamId);
  }

  lemma StillExact(s: Settings, w: World, call: Call, teamId: int)
    requires Sound(s, w) && ExactSet(w, teamId) && LeavesTeamAlone(call, teamId)
    requires var w' := Step(s, w, call);
             && Sound(s, w') && SetIsLive(w'.cache, w'.now, teamId)
             && forall id :: id in LiveIds(w.cache, w.now, teamId) ==> id in LiveIds(w'.cache, w'.now, teamId)
    ensures ExactSet(Step(s, w, call), teamId)
  {
    hide Step;
    var w' := Step(s, w, call);
    forall id
      ensures id in LiveIds(w'.cache, w'.now, teamId) <==> TeamHasTask(w'.db, teamId, id)
    {
      TeamIdsStay(s, w, call, teamId, id);
    }
  }

  /** The set is live at the end of every part of the run: no tick lasts past its expiry. */
  ghost predicate LiveThroughout(s: Settings, w: World, calls: seq<Call>, teamId: int) {
    calls != [] ==>
      var before, call := Run(s, w, calls[..|calls| - 1]), calls[|calls| - 1];
      LiveThroughout(s, w, calls[..|calls| - 1], teamId) && SetIsLive(before.cache, Step(s, before, call).now, teamId)
  }

  /** Exactness lasts through any calls until the next creation in the team or the set's expiry. */
  lemma {:induction false} RunKeepsExact(s: Settings, w: World, calls: seq<Call>, teamId: int)
    requires s.ttl > 0 && Sound(s, w) && Legal(s, w, calls) && ExactSet(w, teamId)
    requires forall i :: 0 <= i < |calls| ==> LeavesTeamAlone(calls[i], teamId)
    requires LiveThroughout(s, w, calls, teamId)
    ensures ExactSet(Run(s, w, calls), teamId)
  {
    if calls != [] {
      var init := calls[..|calls| - 1];
      RunKeepsExact(s, w, init, teamId);
      RunIsSound(s, w, init);
      StepKeepsExact(s, Run(s, w, init), calls[|calls| - 1], teamId);
    }
  }

  /** From a first-page miss of a team of at most a hundred tasks, reached by any run in which the cache
      writes of edits land, through any further such run with no creation in the team and no expiry
      of its set: every unfiltered listing of the team that succeeds answers as the database would. */
  lemma CacheStandsForDatabase(s: Settings, start: int, before: seq<Call>, miss: ListInput, missFaults: ListFaults,
                               after: seq<Call>, inp: ListInput, f: ListFaults)
    requires s.ttl > 0 && CacheWritesLand(before) && CacheWritesLand(after)
    requires var calls := before + [List(miss, missFaults)]; Legal(s, Start(start), calls + after)
    requires var w := Run(s, Start(start), before);
             && Unfiltered(miss) && miss.startFromId <= 0
             && 0 < |TeamRows(w.db, miss.teamId)| <= DEFAULT_LIMIT
             && ReadForList(w.cache, w.now, miss, missFaults.read) == Ok(None)
             && IsMember(w.db, miss.userId, miss.teamId)
             && missFaults.check.Fine? && missFaults.query.Fine? && missFaults.ran >= |TeamRows(w.db, miss.teamId)| + 2
    requires forall i :: 0 <= i < |after| ==> LeavesTeamAlone(after[i], miss.teamId)
    requires LiveThroughout(s, Run(s, Start(start), before + [List(miss, missFaults)]), after, miss.teamId)
    requires Unfiltered(inp) && inp.teamId == miss.teamId
    ensures var w := Run(s, Start(start), before + [List(miss, missFaults)] + after);
            var r := ListCall(w.db, w.cache, w.now, s.ttl, inp, f).result;
            r.Ok? ==> r.value == ListAnswer(FetchForList(w.db, inp))
  {
    var calls := before + [List(miss, missFaults)];
    var w0, w1 := Run(s, Start(start), before), Run(s, Start(start), calls);
    assert calls[..|calls| - 1] == before;
    hide ExactSet, Sound, Coherent, ListCall, Step, CacheWritesLand, TeamRows, FetchForList;
    RunSplit(s, Start(start), calls, after);
    StartIsSound(s, start);
    RunIsSound(s, Start(start), before);
    MissMakesExact(s, w0, miss, missFaults);
    RunIsSound(s, Start(start), calls);
    RunKeepsExact(s, w1, after, miss.teamId);
    RunIsSound(s, Start(start), calls + after);
    LandTogether(before, List(miss, missFaults), after);
    SerialCoherence(s, start, calls + after);
    ListingRefinesDatabase(s, Run(s, Start(start), calls + after), inp, f);
  }

  lemma LandTogether(before: seq<Call>, call: Call, after: seq<Call>)
    requires CacheWritesLand(before) && CacheWritesLand(after) && !call.Edit?
    ensures CacheWritesLand(before + [call] + after)
  {
    var calls := before + [call] + after;
    forall i | 0 <= i < |calls| && calls[i].Edit?
      ensures !calls[i].editFaults.update.LostAfter? && !calls[i].editFaults.cache.LostBefore?
    {
      if i < |before| {
        assert calls[i] == before[i];
      } else if i > |before| {
        assert calls[i] == after[i - |before| - 1];
      }
    }
  }
}
