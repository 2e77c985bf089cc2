/** What a client paging through a team's tasks is given when the cache takes part: nothing fails, no time
    passes and nobody writes, so all that differs from paging through the table is the cache. */
module CachedPaging {
  import opened Model
  import opened Paging
  import opened Tables
  import opened TaskCache
  import opened Operations
  import opened Serial
  import opened Refinement
  import opened Shortfalls
  import Agreement
  import SqlQuery

  /** The pages a client has been given, and the cache its requests leave behind. */
  datatype Traversal = Traversal(pages: seq<Page<TaskItem>>, cache: Cache)

  /** A client following `NextStartFromId` for up to that many requests. */
  function Traverse(s: Settings, w: World, inp: ListInput, requests: nat): Traversal
    decreases requests
  {
    if requests == 0 then Traversal([], w.cache)
    else
      var o := ListCall(w.db, w.cache, w.now, s.ttl, inp, ALL_FINE);
      match o.result
      case Err(_) => Traversal([], o.cache)
      case Ok(page) =>
        if !page.hasMore then Traversal([page], o.cache)
        else
          var rest := Traverse(s, w.(cache := o.cache), inp.(startFromId := page.nextStartFromId), requests - 1);
          Traversal([page] + rest.pages, rest.cache)
  }

  /** The traversal begins with this page and goes on from this cache, if there is more. */
  ghost predicate Goes(s: Settings, w: World, inp: ListInput, requests: nat, page: Page<TaskItem>, c: Cache) {
    requests > 0
    && var t := Traverse(s, w, inp, requests);
       var rest := Traverse(s, w.(cache := c), inp.(startFromId := page.nextStartFromId), requests - 1);
       && t.pages != []
       && Delivered(t.pages) == page.items + (if page.hasMore then Delivered(rest.pages) else [])
       && t.cache == (if page.hasMore then rest.cache else c)
       && |t.pages| == 1 + (if page.hasMore then |rest.pages| else 0)
       && t.pages[|t.pages| - 1] == if page.hasMore && rest.pages != [] then rest.pages[|rest.pages| - 1] else page
  }

  lemma TraverseStep(s: Settings, w: World, inp: ListInput, requests: nat, page: Page<TaskItem>, c: Cache)
    requires requests > 0 && ListCall(w.db, w.cache, w.now, s.ttl, inp, ALL_FINE) == ListOutcome(c, Ok(page))
    ensures Goes(s, w, inp, requests, page, c)
  {
    hide ListCall;
    var rest := Traverse(s, w.(cache := c), inp.(startFromId := page.nextStartFromId), requests - 1);
    assert ([page] + rest.pages)[1..] == rest.pages;
    assert Delivered([page]) == page.items + [];
  }

  /** The page of these rows that begins after the first `k`. */
  function PageFrom(rows: seq<Task>, k: nat): Page<TaskItem>
    requires k <= |rows|
  {
    ListAnswer(Take(rows[k..], PROBED))
  }

  /** The cursor of a request that comes after the first `k` rows. */
  ghost predicate At(rows: seq<Task>, k: nat, cursor: int) {
    k <= |rows| && k % 101 == 0 && if k == 0 then cursor <= 0 else cursor == rows[k - 1].id
  }

  lemma PageAt(rows: seq<Task>, k: nat)
    requires k <= |rows| && k % 101 == 0
    ensures var page := PageFrom(rows, k);
            && page.items == ItemsOf(Take(rows[k..], DEFAULT_LIMIT))
            && (page.hasMore <==> |rows| - k > DEFAULT_LIMIT)
            && (page.hasMore ==> At(rows, k + 101, page.nextStartFromId))
  {
    if |rows| - k > DEFAULT_LIMIT {
      assert Take(rows[k..], PROBED)[..DEFAULT_LIMIT] == rows[k..][..DEFAULT_LIMIT];
    }
  }

  /** How many pages n rows take. */
  function PageCount(n: nat): nat {
    n / 101 + 1
  }

  lemma PagesLeft(n: nat)
    ensures PageCount(n) == if n > DEFAULT_LIMIT then 1 + PageCount(n - 101) else 1
    ensures PageCount(n) > 0
  {}

  lemma ItemsTogether(a: seq<Task>, b: seq<Task>)
    ensures ItemsOf(a) + ItemsOf(b) == ItemsOf(a + b)
  {}

  /** A page, and the kept rows from there on. */
  lemma KeptFromPage(rows: seq<Task>, k: nat)
    requires k <= |rows|
    ensures Kept(rows[k..], 0, 101) ==
            Take(rows[k..], DEFAULT_LIMIT) + if |rows| - k > DEFAULT_LIMIT then Kept(rows[k + 101..], 0, 101) else []
  {
    if |rows| - k > DEFAULT_LIMIT {
      KeptChunk(rows[k..], 0, 101);
      assert rows[k..][101..] == rows[k + 101..];
    } else {
      KeptShort(rows[k..], 0, 101);
    }
  }

  /** Kept ranks of a front of whole strides and of the rest. */
  lemma {:induction false} KeptSplit(rows: seq<Task>, k: nat)
    requires k <= |rows| && k % 101 == 0
    ensures Kept(rows, 0, 101) == Kept(rows[..k], 0, 101) + Kept(rows[k..], 0, 101)
    decreases k
  {
    if k == 0 {
      assert rows[0..] == rows && rows[..0] == [];
    } else {
      hide Kept;
      KeptSplit(rows, k - 101);
      KeptSplit(rows[..k], k - 101);
      KeptStride(rows, k - 101);
      assert rows[..k][..k - 101] == rows[..k - 101];
    }
  }

  lemma KeptStride(rows: seq<Task>, k: nat)
    requires k + 101 <= |rows|
    ensures Kept(rows[k..], 0, 101) == Kept(rows[..k + 101][k..], 0, 101) + Kept(rows[k + 101..], 0, 101)
  {
    var front := rows[..k + 101];
    KeptFromPage(rows, k);
    KeptFromPage(front, k);
    assert front[k + 101..] == [];
    assert Take(front[k..], DEFAULT_LIMIT) == Take(rows[k..], DEFAULT_LIMIT);
  }

  // ---------------------------------------------------------------------------
  // Kept rows

  lemma KeptInRows(rows: seq<Task>, k: nat)
    requires Ascending(rows, TASK_ID) && 0 < k <= |rows| && k % 101 == 0
    ensures rows[k - 1].id !in IdsOf(Kept(rows[..k], 0, 101))
  {
    var front := rows[..k];
    assert Ascending(front, TASK_ID) by {
      assert front + rows[k..] == rows;
      FrontAscending(front, rows[k..]);
    }
    KeptExactly(front, TASK_ID);
    assert front[k - 1] !in Kept(front, 0, 101);
    var kept := Kept(front, 0, 101);
    forall i | 0 <= i < |kept|
      ensures kept[i].id != rows[k - 1].id
    {
      var r := i + i / 100;
      assert kept[i] == front[r];
      if r != k - 1 {
        assert TASK_ID(rows[r]) < TASK_ID(rows[k - 1]);
      }
    }
  }

  lemma KeptAscending(rows: seq<Task>)
    requires Ascending(rows, TASK_ID)
    ensures Ascending(Kept(rows, 0, 101), TASK_ID)
  {
    KeptExactly(rows, TASK_ID);
  }

  lemma SamePage(rows: seq<Task>, front: seq<Task>, k: nat)
    requires k <= |rows| && front == rows[..if |rows| - k > DEFAULT_LIMIT then k + 101 else |rows|]
    ensures Take(front[k..], DEFAULT_LIMIT) == Take(rows[k..], DEFAULT_LIMIT)
  {}

  /** The kept ranks up to the end of the page that begins after the first `k`. */
  lemma KeptThroughPage(rows: seq<Task>, k: nat)
    requires Ascending(rows, TASK_ID) && k <= |rows| && k % 101 == 0
    ensures var next := if |rows| - k > DEFAULT_LIMIT then k + 101 else |rows|;
            var kept := Kept(rows[..k], 0, 101) + Take(rows[k..], DEFAULT_LIMIT);
            Kept(rows[..next], 0, 101) == kept && Ascending(kept, TASK_ID)
  {
    hide Kept, Take, Ascending;
    var next := if |rows| - k > DEFAULT_LIMIT then k + 101 else |rows|;
    var front := rows[..next];
    KeptSplit(front, k);
    assert front[..k] == rows[..k];
    KeptFromPage(front, k);
    SamePage(rows, front, k);
    if |rows| - k > DEFAULT_LIMIT {
      assert front[k + 101..] == [];
      NothingKept();
    }
    assert front + rows[next..] == rows;
    FrontAscending(front, rows[next..]);
    KeptAscending(front);
  }

  // ---------------------------------------------------------------------------
  // Beyond what the set holds: every request misses

  /** What lies in the table beyond the last member. */
  function Beyond(rows: seq<Task>, members: seq<Task>): seq<Task> {
    if members == [] then rows else After(rows, TASK_ID, members[|members| - 1].id)
  }

  /** The cursor of a request that comes after those members and the first `k` rows beyond them. */
  ghost predicate AtRest(members: seq<Task>, rest: seq<Task>, k: nat, cursor: int) {
    && k <= |rest| && k % 101 == 0
    && if k > 0 then cursor == rest[k - 1].id
       else if members == [] then cursor <= 0
       else cursor == members[|members| - 1].id
  }

  lemma {:induction false} SuffixAfter(rows: seq<Task>, cursor: int) returns (r: nat)
    requires Ascending(rows, TASK_ID)
    ensures r <= |rows| && After(rows, TASK_ID, cursor) == rows[r..]
  {
    if rows == [] {
      r := 0;
    } else if rows[0].id > cursor {
      forall i | 0 <= i < |rows|
        ensures TASK_ID(rows[i]) > cursor
      {
        assert i > 0 ==> TASK_ID(rows[0]) < TASK_ID(rows[i]);
      }
      AfterIsSuffix(rows, TASK_ID, cursor, 0);
      r := 0;
    } else {
      AscendingTail(rows, TASK_ID);
      var q := SuffixAfter(rows[1..], cursor);
      r := q + 1;
    }
  }

  lemma BeyondIsSuffix(rows: seq<Task>, members: seq<Task>) returns (r: nat)
    requires Ascending(rows, TASK_ID)
    ensures r <= |rows| && Beyond(rows, members) == rows[r..]
  {
    if members == [] {
      r := 0;
    } else {
      r := SuffixAfter(rows, members[|members| - 1].id);
    }
  }

  /** What the table has after the cursor of such a request. */
  lemma AfterRest(rows: seq<Task>, members: seq<Task>, k: nat, cursor: int)
    requires Ascending(rows, TASK_ID) && Positive(rows, TASK_ID) && AtRest(members, Beyond(rows, members), k, cursor)
    ensures After(rows, TASK_ID, cursor) == Beyond(rows, members)[k..]
  {
    var rest := Beyond(rows, members);
    if k > 0 {
      var r := BeyondIsSuffix(rows, members);
      assert rest[k - 1] == rows[r + k - 1];
      AfterRow(rows, TASK_ID, r + k - 1);
    } else if members == [] {
      AfterNothing(rows, TASK_ID, cursor);
    }
  }

  lemma RestAbove(rows: seq<Task>, members: seq<Task>)
    requires Ascending(rows, TASK_ID) && Ascending(members, TASK_ID)
    ensures Ascending(members + Beyond(rows, members), TASK_ID)
  {
    var rest := Beyond(rows, members);
    if members != [] {
      AfterAscending(rows, TASK_ID, members[|members| - 1].id);
      forall i, j | 0 <= i < |members| && 0 <= j < |rest|
        ensures TASK_ID(members[i]) < TASK_ID(rest[j])
      {
        AfterIn(rows, TASK_ID, members[|members| - 1].id, rest[j]);
        assert i < |members| - 1 ==> TASK_ID(members[i]) < TASK_ID(members[|members| - 1]);
      }
      Joined(members, rest);
    } else {
      assert members + rest == rest;
    }
  }

  lemma Joined(a: seq<Task>, b: seq<Task>)
    requires Ascending(a, TASK_ID) && Ascending(b, TASK_ID)
    requires forall i, j :: 0 <= i < |a| && 0 <= j < |b| ==> TASK_ID(a[i]) < TASK_ID(b[j])
    ensures Ascending(a + b, TASK_ID)
  {}

  /** The kept ranks of the rest come after the members too. */
  lemma KeptAbove(members: seq<Task>, rest: seq<Task>, kept: seq<Task>)
    requires Ascending(members + rest, TASK_ID) && kept == Kept(rest, 0, 101)
    ensures Ascending(members + kept, TASK_ID)
  {
    FrontAscending(members, rest);
    KeptExactly(rest, TASK_ID);
    forall i, j | 0 <= i < |members| && 0 <= j < |kept|
      ensures TASK_ID(members[i]) < TASK_ID(kept[j])
    {
      assert kept[j] == rest[j + j / 100];
    }
    Joined(members, kept);
  }

  lemma KeptFrontAbove(members: seq<Task>, rest: seq<Task>, k: nat)
    requires Ascending(members + rest, TASK_ID) && k <= |rest|
    ensures Ascending(members + Kept(rest[..k], 0, 101), TASK_ID)
  {
    assert (members + rest)[..|members| + k] == members + rest[..k];
    assert members + rest == (members + rest[..k]) + rest[k..];
    FrontAscending(members + rest[..k], rest[k..]);
    KeptAbove(members, rest[..k], Kept(rest[..k], 0, 101));
  }

  /** A request whose cursor is the last member misses, as nothing of the set lies beyond. */
  lemma MissesAtEnd(c: Cache, now: int, teamId: int, members: seq<Task>)
    requires Ascending(members, TASK_ID) && members != [] && Holds(c, now, teamId, members)
    ensures var cursor := members[|members| - 1].id;
            CachedPage(c, now, teamId, PROBED, Some(cursor), ReadFaults(Fine, Fine, Fine)) == Ok(None)
  {
    hide LiveIds, LiveTasks;
    RankOfMember(members, |members| - 1);
  }

  lemma MissesUnknown(c: Cache, now: int, teamId: int, members: seq<Task>, cursor: int)
    requires Holds(c, now, teamId, members) && cursor !in IdsOf(members)
    ensures CachedPage(c, now, teamId, PROBED, Some(cursor), ReadFaults(Fine, Fine, Fine)) == Ok(None)
  {
    hide LiveIds, LiveTasks;
  }

  lemma MissesEmpty(c: Cache, now: int, teamId: int)
    requires Holds(c, now, teamId, [])
    ensures CachedPage(c, now, teamId, PROBED, None, ReadFaults(Fine, Fine, Fine)) == Ok(None)
  {
    hide LiveIds, LiveTasks;
  }

  lemma DroppedIsUnknown(members: seq<Task>, rest: seq<Task>, k: nat)
    requires Ascending(members + rest, TASK_ID) && 0 < k <= |rest| && k % 101 == 0
    ensures rest[k - 1].id !in IdsOf(members + Kept(rest[..k], 0, 101))
  {
    FrontAscending(members, rest);
    KeptInRows(rest, k);
    var kept := Kept(rest[..k], 0, 101);
    var held := members + kept;
    forall i | 0 <= i < |held|
      ensures held[i].id != rest[k - 1].id
    {
      if i >= |members| {
        assert IdsOf(kept)[i - |members|] == held[i].id;
      }
    }
  }

  /** No request in the rest hits: its cursor is the last member, or the id of a row that is never cached. */
  lemma MissesInRest(c: Cache, now: int, teamId: int, members: seq<Task>, rest: seq<Task>, k: nat, cursor: int)
    requires Ascending(members + rest, TASK_ID) && Positive(members, TASK_ID) && Positive(rest, TASK_ID)
    requires AtRest(members, rest, k, cursor) && Holds(c, now, teamId, members + Kept(rest[..k], 0, 101))
    ensures CachedPage(c, now, teamId, PROBED, if cursor > 0 then Some(cursor) else None, ReadFaults(Fine, Fine, Fine))
            == Ok(None)
  {
    hide Holds, CachedPage;
    if k > 0 {
      DroppedIsUnknown(members, rest, k);
      assert TASK_ID(rest[k - 1]) > 0;
      MissesUnknown(c, now, teamId, members + Kept(rest[..k], 0, 101), cursor);
    } else {
      assert rest[..0] == [] && members + [] == members;
      FrontAscending(members, rest);
      if members == [] {
        MissesEmpty(c, now, teamId);
      } else {
        assert TASK_ID(members[|members| - 1]) > 0;
        MissesAtEnd(c, now, teamId, members);
      }
    }
  }

  /** What a world holds for a listing: the members, all of them tasks the table knows, and the rest. */
  ghost predicate Standing(s: Settings, w: World, inp: ListInput, members: seq<Task>) {
    && s.ttl > 0 && Sound(s, w) && Unfiltered(inp) && IsMember(w.db, inp.userId, inp.teamId)
    && Ascending(members, TASK_ID) && Positive(members, TASK_ID)
  }

  function RestOf(w: World, inp: ListInput, members: seq<Task>): seq<Task> {
    Beyond(TeamRows(w.db, inp.teamId), members)
  }

  /** The rest of a listed team, as a table to page through. */
  lemma RestTable(s: Settings, w: World, inp: ListInput, members: seq<Task>, k: nat)
    requires Standing(s, w, inp, members) && AtRest(members, RestOf(w, inp, members), k, inp.startFromId)
    ensures var rest := RestOf(w, inp, members);
            && Ascending(members + rest, TASK_ID) && Positive(rest, TASK_ID)
            && FetchForList(w.db, inp) == Take(rest[k..], PROBED)
  {
    hide AtRest;
    var rows := TeamRows(w.db, inp.teamId);
    FetchIsAfter(w.db, inp);
    MatchingPositive(w.db, inp.teamId);
    SqlQuery.MatchingAscending(w.db.tasks, inp.teamId, "", 0, 0);
    AfterRest(rows, members, k, inp.startFromId);
    RestAbove(rows, members);
    var r := BeyondIsSuffix(rows, members);
    assert forall i :: 0 <= i < |rows| - r ==> rows[r..][i] == rows[r + i];
  }

  /** The page of the rest that is cached next. */
  lemma RestFilled(c: Cache, now: int, ttl: int, teamId: int, members: seq<Task>, rest: seq<Task>, k: nat)
    requires WellFormed(c) && ttl > 0 && Ascending(members + rest, TASK_ID) && k <= |rest| && k % 101 == 0
    requires Holds(c, now, teamId, members + Kept(rest[..k], 0, 101))
    ensures var next := if |rest| - k > DEFAULT_LIMIT then k + 101 else |rest|;
            Holds(Fill(c, now, ttl, teamId, Take(rest[k..], DEFAULT_LIMIT), DEFAULT_LIMIT + 2), now, teamId,
                  members + Kept(rest[..next], 0, 101))
  {
    hide Holds, Kept;
    var next := if |rest| - k > DEFAULT_LIMIT then k + 101 else |rest|;
    var chunk := Take(rest[k..], DEFAULT_LIMIT);
    var held := members + Kept(rest[..k], 0, 101);
    FrontAscending(members, rest);
    KeptThroughPage(rest, k);
    KeptFrontAbove(members, rest, next);
    assert held + chunk == members + Kept(rest[..next], 0, 101);
    if chunk != [] {
      FillIsPut(c, now, ttl, teamId, chunk, DEFAULT_LIMIT + 2);
      FillExtends(c, now, ttl, teamId, held, chunk);
    } else {
      assert held + [] == held;
    }
  }

  lemma Shape(s: Settings, w: World, inp: ListInput, members: seq<Task>)
    requires Standing(s, w, inp, members)
    ensures s.ttl > 0 && Sound(s, w) && Unfiltered(inp) && IsMember(w.db, inp.userId, inp.teamId)
    ensures Positive(members, TASK_ID) && WellFormed(w.cache)
  {}

  /** One request in the rest. */
  lemma RestStep(s: Settings, w: World, inp: ListInput, members: seq<Task>, k: nat)
    requires Standing(s, w, inp, members) && AtRest(members, RestOf(w, inp, members), k, inp.startFromId)
    requires k <= |RestOf(w, inp, members)|
    requires Holds(w.cache, w.now, inp.teamId, members + Kept(RestOf(w, inp, members)[..k], 0, 101))
    ensures var rest := RestOf(w, inp, members);
            var o := ListCall(w.db, w.cache, w.now, s.ttl, inp, ALL_FINE);
            var next := if |rest| - k > DEFAULT_LIMIT then k + 101 else |rest|;
            && o.result == Ok(PageFrom(rest, k))
            && Holds(o.cache, w.now, inp.teamId, members + Kept(rest[..next], 0, 101))
            && Sound(s, w.(cache := o.cache))
  {
    hide Holds, Sound, CachedPage, RestOf, Kept, IsMember, Fill, ListAnswer, FetchForList, Standing, AtRest;
    var rest := RestOf(w, inp, members);
    RestTable(s, w, inp, members, k);
    Shape(s, w, inp, members);
    InRest(members, rest, k, inp.startFromId);
    MissesInRest(w.cache, w.now, inp.teamId, members, rest, k, inp.startFromId);
    RestFilled(w.cache, w.now, s.ttl, inp.teamId, members, rest, k);
    ListKeepsSound(s, w, inp, ALL_FINE);
    assert Take(Take(rest[k..], PROBED), DEFAULT_LIMIT) == Take(rest[k..], DEFAULT_LIMIT);
  }

  lemma InRest(members: seq<Task>, rest: seq<Task>, k: nat, cursor: int)
    requires AtRest(members, rest, k, cursor)
    ensures k <= |rest| && k % 101 == 0
  {}

  /** A request in the rest, and the rest of the traversal. */
  lemma RestRequest(s: Settings, w: World, inp: ListInput, members: seq<Task>, k: nat, requests: nat)
    returns (page: Page<TaskItem>, c: Cache)
    requires Standing(s, w, inp, members) && AtRest(members, RestOf(w, inp, members), k, inp.startFromId)
    requires k <= |RestOf(w, inp, members)| && requests > 0
    requires Holds(w.cache, w.now, inp.teamId, members + Kept(RestOf(w, inp, members)[..k], 0, 101))
    ensures var rest := RestOf(w, inp, members);
            var next := if page.hasMore then k + 101 else |rest|;
            && (page.hasMore <==> |rest| - k > DEFAULT_LIMIT)
            && (page.hasMore ==> AtRest(members, rest, next, page.nextStartFromId))
            && Holds(c, w.now, inp.teamId, members + Kept(rest[..next], 0, 101))
            && Standing(s, w.(cache := c), inp.(startFromId := page.nextStartFromId), members)
            && page.items + (if page.hasMore then ItemsOf(Kept(rest[next..], 0, 101)) else [])
               == ItemsOf(Kept(rest[k..], 0, 101))
    ensures Goes(s, w, inp, requests, page, c)
  {
    hide ListCall, Traverse, Sound, Holds, Kept, IsMember, RestOf, Take, PageFrom, PageCount, Delivered;
    var rest := RestOf(w, inp, members);
    page := PageFrom(rest, k);
    c := ListCall(w.db, w.cache, w.now, s.ttl, inp, ALL_FINE).cache;
    RestStep(s, w, inp, members, k);
    PageAt(rest, k);
    KeptFromPage(rest, k);
    ItemsTogether(Take(rest[k..], DEFAULT_LIMIT), if page.hasMore then Kept(rest[k + 101..], 0, 101) else []);
    TraverseStep(s, w, inp, requests, page, c);
  }

  lemma {:induction false} RestFrom(s: Settings, w: World, inp: ListInput, members: seq<Task>, k: nat, requests: nat)
    requires Standing(s, w, inp, members) && AtRest(members, RestOf(w, inp, members), k, inp.startFromId)
    requires k <= |RestOf(w, inp, members)| && requests >= PageCount(|RestOf(w, inp, members)| - k)
    requires Holds(w.cache, w.now, inp.teamId, members + Kept(RestOf(w, inp, members)[..k], 0, 101))
    ensures var rest := RestOf(w, inp, members);
            var t := Traverse(s, w, inp, requests);
            && |t.pages| == PageCount(|rest| - k) && !t.pages[|t.pages| - 1].hasMore
            && Delivered(t.pages) == ItemsOf(Kept(rest[k..], 0, 101))
            && Holds(t.cache, w.now, inp.teamId, members + Kept(rest, 0, 101))
            && Standing(s, w.(cache := t.cache), inp, members)
    decreases requests
  {
    hide Traverse, Holds, Kept, AtRest, PageCount, Delivered, Standing, ItemsOf, TeamRows, Beyond;
    var rest := RestOf(w, inp, members);
    PagesLeft(|rest| - k);
    var page, c := RestRequest(s, w, inp, members, k, requests);
    var next := inp.(startFromId := page.nextStartFromId);
    if page.hasMore {
      InRest(members, rest, k + 101, page.nextStartFromId);
      PagesLeft(|rest| - k - 101);
      RestFrom(s, w.(cache := c), next, members, k + 101, requests - 1);
      StandsWithCursor(s, w.(cache := Traverse(s, w, inp, requests).cache), next, inp.startFromId, members);
    } else {
      assert rest[..|rest|] == rest;
      StandsWithCursor(s, w.(cache := c), next, inp.startFromId, members);
    }
  }

  lemma StandsWithCursor(s: Settings, w: World, inp: ListInput, cursor: int, members: seq<Task>)
    requires Standing(s, w, inp, members)
    ensures Standing(s, w, inp.(startFromId := cursor), members)
  {}

  /** Paging through a team whose set is not alive: every request misses, because no cursor is ever the id
      of a cached row; the client is given what the table would give it, and leaves just that behind. */
  lemma FirstTraversal(s: Settings, w: World, inp: ListInput, requests: nat)
    requires s.ttl > 0 && Sound(s, w) && Unfiltered(inp) && inp.startFromId <= 0
    requires IsMember(w.db, inp.userId, inp.teamId) && !SetIsLive(w.cache, w.now, inp.teamId)
    requires requests >= PageCount(|TeamRows(w.db, inp.teamId)|)
    ensures var rows := TeamRows(w.db, inp.teamId);
            var t := Traverse(s, w, inp, requests);
            && |t.pages| == PageCount(|rows|) && !t.pages[|t.pages| - 1].hasMore
            && Delivered(t.pages) == ItemsOf(Kept(rows, 0, 101))
            && Holds(t.cache, w.now, inp.teamId, Kept(rows, 0, 101))
            && Sound(s, w.(cache := t.cache))
  {
    var rows := TeamRows(w.db, inp.teamId);
    assert rows[..0] == [] && rows[0..] == rows && [] + Kept(rows, 0, 101) == Kept(rows, 0, 101);
    assert Holds(w.cache, w.now, inp.teamId, []) by {
      AbsentSetMisses(w.cache, w.now, inp.teamId);
    }
    NothingKept();
    RestFrom(s, w, inp, [], 0, requests);
  }

  // ---------------------------------------------------------------------------
  // Within what the set holds: its members stand for the table

  /** What a later traversal goes on with after the members: nothing, unless a page ends at the last of them. */
  function Tail(w: World, inp: ListInput, members: seq<Task>): seq<Task> {
    if |members| % 101 == 0 then RestOf(w, inp, members) else []
  }

  /** A request within the members hits, and is served from them. */
  lemma HitsAt(c: Cache, now: int, teamId: int, members: seq<Task>, k: nat, cursor: int)
    requires Ascending(members, TASK_ID) && Positive(members, TASK_ID) && At(members, k, cursor) && k < |members|
    requires Holds(c, now, teamId, members)
    ensures CachedPage(c, now, teamId, PROBED, if cursor > 0 then Some(cursor) else None, ReadFaults(Fine, Fine, Fine))
            == Ok(Some(Take(members[k..], PROBED)))
  {
    hide LiveIds, LiveTasks;
    var ids := IdsOf(members);
    var page := Take(members[k..], PROBED);
    assert Range(ids, k, k + PROBED - 1) == IdsOf(page);
    PageHeld(c, now, members, k);
    if k > 0 {
      assert TASK_ID(members[k - 1]) > 0;
      RankOfMember(members, k - 1);
    }
  }

  lemma PageHeld(c: Cache, now: int, members: seq<Task>, k: nat)
    requires k <= |members| && forall i :: 0 <= i < |members| ==> LiveTask(c, now, members[i].id) == Some(members[i])
    ensures LiveTasks(c, now, IdsOf(Take(members[k..], PROBED))) == Some(Take(members[k..], PROBED))
  {
    var page := Take(members[k..], PROBED);
    LiveTasksAre(c, now, IdsOf(page));
    forall i | 0 <= i < |page|
      ensures LiveTask(c, now, IdsOf(page)[i]) == Some(page[i])
    {
      assert page[i] == members[k + i];
    }
    assert LiveTasks(c, now, IdsOf(page)).value == page;
  }

  lemma RankOfMember(members: seq<Task>, k: nat)
    requires Ascending(members, TASK_ID) && k < |members|
    ensures IndexOf(IdsOf(members), members[k].id) == Some(k)
  {
    assert IdsOf(members)[k] == members[k].id;
    forall i | 0 <= i < |members| && i != k
      ensures IdsOf(members)[i] != members[k].id
    {
      assert TASK_ID(members[i]) < TASK_ID(members[k]) || TASK_ID(members[k]) < TASK_ID(members[i]);
    }
  }

  /** How many pages more than the members' own those rows take. */
  function MorePages(n: nat): nat {
    n / 101
  }

  /** Pages, rows and cache of a traversal that begins after the first `k` members. */
  ghost predicate Traversed(s: Settings, w: World, inp: ListInput, members: seq<Task>, k: nat, t: Traversal)
    requires k <= |members|
  {
    var tail := Tail(w, inp, members);
    && |t.pages| == PageCount(|members| - k) + MorePages(|tail|) && !t.pages[|t.pages| - 1].hasMore
    && Delivered(t.pages) == ItemsOf(Kept(members[k..], 0, 101) + Kept(tail, 0, 101))
    && Holds(t.cache, w.now, inp.teamId, members + Kept(tail, 0, 101))
    && Sound(s, w.(cache := t.cache))
  }

  lemma {:induction false} LaterTimeFrom(s: Settings, w: World, inp: ListInput, members: seq<Task>, k: nat,
                                         requests: nat)
    requires Standing(s, w, inp, members) && Holds(w.cache, w.now, inp.teamId, members)
    requires members != [] && At(members, k, inp.startFromId) && k <= |members|
    requires requests >= PageCount(|members| - k) + MorePages(|Tail(w, inp, members)|)
    ensures Traversed(s, w, inp, members, k, Traverse(s, w, inp, requests))
    decreases requests
  {
    hide Traverse, At, Holds, Kept, PageCount, MorePages, Delivered, Tail, Standing, ItemsOf, Traversed;
    PagesLeft(|members| - k);
    if k == |members| {
      TheTablesTail(s, w, inp, members, requests);
    } else {
      var page := LaterTimeRequest(s, w, inp, members, k, requests);
      if page.hasMore {
        var next := inp.(startFromId := page.nextStartFromId);
        AtWithin(members, k + 101, page.nextStartFromId);
        StandsWithCursor(s, w, inp, page.nextStartFromId, members);
        SameTail(w, inp, page.nextStartFromId, members);
        LaterTimeFrom(s, w, next, members, k + 101, requests - 1);
      }
      PageThenRest(s, w, inp, members, k, requests, page);
    }
  }

  lemma SameTail(w: World, inp: ListInput, cursor: int, members: seq<Task>)
    ensures Tail(w, inp.(startFromId := cursor), members) == Tail(w, inp, members)
  {}

  lemma NoTail(w: World, inp: ListInput, members: seq<Task>, k: nat, cursor: int)
    requires At(members, k, cursor) && k < |members| <= k + DEFAULT_LIMIT
    ensures Tail(w, inp, members) == []
  {}

  lemma AtWithin(rows: seq<Task>, k: nat, cursor: int)
    requires At(rows, k, cursor)
    ensures k <= |rows| && k % 101 == 0
  {}

  /** One request within the members, and the rest of the traversal. */
  lemma LaterTimeRequest(s: Settings, w: World, inp: ListInput, members: seq<Task>, k: nat, requests: nat)
    returns (page: Page<TaskItem>)
    requires Standing(s, w, inp, members) && requests > 0
    requires At(members, k, inp.startFromId) && k < |members|
    requires Holds(w.cache, w.now, inp.teamId, members)
    ensures page.hasMore <==> |members| - k > DEFAULT_LIMIT
    ensures page.hasMore ==> At(members, k + 101, page.nextStartFromId)
    ensures page.items == ItemsOf(Take(members[k..], DEFAULT_LIMIT))
    ensures Goes(s, w, inp, requests, page, w.cache)
    ensures !page.hasMore ==> Tail(w, inp, members) == []
  {
    page := PageFrom(members, k);
    HitsAt(w.cache, w.now, inp.teamId, members, k, inp.startFromId);
    AtWithin(members, k, inp.startFromId);
    PageAt(members, k);
    hide CachedPage, Holds, Kept, IsMember, Take, FetchForList, ListAnswer, Traverse, Delivered, At, Tail, Sound;
    TraverseStep(s, w, inp, requests, page, w.cache);
    if !page.hasMore {
      NoTail(w, inp, members, k, inp.startFromId);
    }
  }

  lemma PageThenRest(s: Settings, w: World, inp: ListInput, members: seq<Task>, k: nat, requests: nat,
                     page: Page<TaskItem>)
    requires Standing(s, w, inp, members) && k < |members| && Holds(w.cache, w.now, inp.teamId, members)
    requires Goes(s, w, inp, requests, page, w.cache) && (page.hasMore <==> |members| - k > DEFAULT_LIMIT)
    requires page.items == ItemsOf(Take(members[k..], DEFAULT_LIMIT))
    requires !page.hasMore ==> Tail(w, inp, members) == []
    requires page.hasMore ==>
               var next := inp.(startFromId := page.nextStartFromId);
               Traversed(s, w, next, members, k + 101, Traverse(s, w, next, requests - 1))
    ensures Traversed(s, w, inp, members, k, Traverse(s, w, inp, requests))
  {
    hide Traverse, Holds, Kept, Delivered, Sound, Take, ItemsOf, PageCount, MorePages, Tail;
    var tail := Tail(w, inp, members);
    LaterItems(members, k, Kept(tail, 0, 101));
    PagesLeft(|members| - k);
    if page.hasMore {
      SameTail(w, inp, page.nextStartFromId, members);
      PagesLeft(|members| - k - 101);
    } else {
      NothingKept();
      assert members + [] == members;
      NoMorePages();
      Shape(s, w, inp, members);
    }
  }

  lemma NothingKept()
    ensures Kept<Task>([], 0, 101) == []
  {}

  lemma NoMorePages()
    ensures MorePages(0) == 0
  {}

  lemma LaterItems(members: seq<Task>, k: nat, tail: seq<Task>)
    requires k < |members|
    ensures var front := Take(members[k..], DEFAULT_LIMIT);
            if |members| - k > DEFAULT_LIMIT
            then ItemsOf(front) + ItemsOf(Kept(members[k + 101..], 0, 101) + tail)
                == ItemsOf(Kept(members[k..], 0, 101) + tail)
            else tail == [] ==> ItemsOf(front) == ItemsOf(Kept(members[k..], 0, 101) + tail)
  {
    KeptFromPage(members, k);
    hide Kept, Take;
    var front := Take(members[k..], DEFAULT_LIMIT);
    if |members| - k > DEFAULT_LIMIT {
      var rest := Kept(members[k + 101..], 0, 101) + tail;
      ItemsTogether(front, rest);
      assert front + rest == Kept(members[k..], 0, 101) + tail;
    } else {
      assert Kept(members[k..], 0, 101) + [] == front;
    }
  }

  /** Past the last member the pages come from the table. */
  lemma TheTablesTail(s: Settings, w: World, inp: ListInput, members: seq<Task>, requests: nat)
    requires Standing(s, w, inp, members) && Holds(w.cache, w.now, inp.teamId, members)
    requires members != [] && At(members, |members|, inp.startFromId)
    requires requests >= PageCount(0) + MorePages(|Tail(w, inp, members)|)
    ensures Traversed(s, w, inp, members, |members|, Traverse(s, w, inp, requests))
  {
    hide *;
    var rest := RestOf(w, inp, members);
    TailIsRest(w, inp, members);
    PagesOfRest(|rest|);
    WholeOfRest(members, rest);
    RestFrom(s, w, inp, members, 0, requests);
    StandingIsSound(s, w.(cache := Traverse(s, w, inp, requests).cache), inp, members);
    ThatIsTraversed(s, w, inp, members, Traverse(s, w, inp, requests));
  }

  lemma TailIsRest(w: World, inp: ListInput, members: seq<Task>)
    requires members != [] && At(members, |members|, inp.startFromId)
    ensures Tail(w, inp, members) == RestOf(w, inp, members)
    ensures AtRest(members, RestOf(w, inp, members), 0, inp.startFromId)
  {}

  lemma WholeOfRest(members: seq<Task>, rest: seq<Task>)
    ensures rest[..0] == [] && rest[0..] == rest && members[|members|..] == [] && members + [] == members
    ensures Kept<Task>([], 0, 101) == [] && [] + Kept(rest, 0, 101) == Kept(rest, 0, 101)
  {}

  lemma StandingIsSound(s: Settings, w: World, inp: ListInput, members: seq<Task>)
    requires Standing(s, w, inp, members)
    ensures Sound(s, w)
  {}

  lemma ThatIsTraversed(s: Settings, w: World, inp: ListInput, members: seq<Task>, t: Traversal)
    requires var rest := RestOf(w, inp, members);
             && |t.pages| == PageCount(|rest|) && !t.pages[|t.pages| - 1].hasMore
             && Delivered(t.pages) == ItemsOf(Kept(rest, 0, 101))
             && Holds(t.cache, w.now, inp.teamId, members + Kept(rest, 0, 101))
             && Sound(s, w.(cache := t.cache)) && Tail(w, inp, members) == rest
    ensures Traversed(s, w, inp, members, |members|, t)
  {
    hide Holds, Kept, Delivered, Sound, ItemsOf, PageCount, MorePages, Tail, RestOf;
    PagesOfRest(|RestOf(w, inp, members)|);
    WholeOfRest(members, RestOf(w, inp, members));
  }

  lemma PagesOfRest(n: nat)
    ensures PageCount(n) == PageCount(0) + MorePages(n)
  {}

  lemma MembersAreRows(s: Settings, w: World, teamId: int, members: seq<Task>)
    requires Sound(s, w) && Holds(w.cache, w.now, teamId, members)
    ensures Ascending(members, TASK_ID) && Positive(members, TASK_ID)
  {
    var ids := LiveIds(w.cache, w.now, teamId);
    forall i, j | 0 <= i < j < |members|
      ensures TASK_ID(members[i]) < TASK_ID(members[j])
    {
      assert SELF(ids[i]) < SELF(ids[j]);
    }
    forall i | 0 <= i < |members|
      ensures TASK_ID(members[i]) > 0
    {
      assert ids[i] == members[i].id && ids[i] in ids;
      PositiveId(s, w, teamId, ids[i]);
    }
  }

  lemma PositiveId(s: Settings, w: World, teamId: int, id: int)
    requires Sound(s, w) && id in LiveIds(w.cache, w.now, teamId)
    ensures id > 0
  {
    assert Agreement.TeamHasTask(w.db, teamId, id);
    var row :| row in w.db.tasks && row.id == id && row.teamId == teamId;
    var i :| 0 <= i < |w.db.tasks| && w.db.tasks[i] == row;
    assert TASK_ID(w.db.tasks[i]) > 0;
  }

  /** Paging through a team while its live set has some ids, all with live values: the members of the set are
      paged through as if they were the table, so of these too every hundred-and-first is skipped.  If their
      number is a multiple of 101 the client goes on to what the table has beyond the last of them, as if
      it began there, and caches what it is given of that too; otherwise it is told that there is no more. */
  lemma LaterTraversal(s: Settings, w: World, inp: ListInput, members: seq<Task>, requests: nat)
    requires s.ttl > 0 && Sound(s, w) && Unfiltered(inp) && inp.startFromId <= 0
    requires IsMember(w.db, inp.userId, inp.teamId)
    requires members != [] && Holds(w.cache, w.now, inp.teamId, members)
    requires requests >= PageCount(|members|) + MorePages(|Tail(w, inp, members)|)
    ensures var t := Traverse(s, w, inp, requests);
            var tail := if |members| % 101 == 0 then Beyond(TeamRows(w.db, inp.teamId), members) else [];
            && |t.pages| == |members| / 101 + |tail| / 101 + 1 && !t.pages[|t.pages| - 1].hasMore
            && Delivered(t.pages) == ItemsOf(Kept(members, 0, 101) + Kept(tail, 0, 101))
            && Holds(t.cache, w.now, inp.teamId, members + Kept(tail, 0, 101))
            && Sound(s, w.(cache := t.cache))
  {
    hide Sound, Holds, Kept, Traverse, Delivered, IsMember, Beyond, TeamRows;
    assert members[0..] == members;
    MembersAreRows(s, w, inp.teamId, members);
    LaterTimeFrom(s, w, inp, members, 0, requests);
  }

  /** The rows a first traversal leaves out at the end: the last one, if its rank is 100 modulo 101. */
  lemma BeyondKept(rows: seq<Task>)
    requires Ascending(rows, TASK_ID) && rows != []
    ensures Kept(rows, 0, 101) != []
    ensures |Kept(rows, 0, 101)| == |rows| - |rows| / 101
    ensures Beyond(rows, Kept(rows, 0, 101)) == if |rows| % 101 == 0 then [rows[|rows| - 1]] else []
  {
    var kept := Kept(rows, 0, 101);
    KeptExactly(rows, TASK_ID);
    RankOfLast(|rows|);
    LastKept(rows, kept, if |rows| % 101 == 0 then |rows| - 2 else |rows| - 1);
  }

  lemma LastKept(rows: seq<Task>, kept: seq<Task>, r: nat)
    requires Ascending(rows, TASK_ID) && r < |rows| && kept != []
    requires (|kept| - 1) + (|kept| - 1) / 100 == r && kept[|kept| - 1] == rows[(|kept| - 1) + (|kept| - 1) / 100]
    ensures Beyond(rows, kept) == rows[r + 1..]
  {
    hide After;
    AfterRow(rows, TASK_ID, r);
  }

  lemma RankOfLast(n: nat)
    requires n > 0
    ensures var m := n - n / 101 - 1; m >= 0 && m + m / 100 == if n % 101 == 0 then n - 2 else n - 1
  {}

  /** The same client twice, with nothing happening in between: the second time it is given the kept rows of
      the kept rows, and the last row of the table if there are a multiple of 101 * 101. */
  lemma SecondTraversal(s: Settings, w: World, inp: ListInput, requests: nat)
    requires s.ttl > 0 && Sound(s, w) && Unfiltered(inp) && inp.startFromId <= 0
    requires IsMember(w.db, inp.userId, inp.teamId) && !SetIsLive(w.cache, w.now, inp.teamId)
    requires TeamRows(w.db, inp.teamId) != [] && requests >= PageCount(|TeamRows(w.db, inp.teamId)|)
    ensures var rows := TeamRows(w.db, inp.teamId);
            var first := Traverse(s, w, inp, requests);
            var second := Traverse(s, w.(cache := first.cache), inp, requests);
            Delivered(second.pages) ==
            ItemsOf(Kept(Kept(rows, 0, 101), 0, 101) + if |rows| % 10201 == 0 then [rows[|rows| - 1]] else [])
  {
    hide *;
    var rows := TeamRows(w.db, inp.teamId);
    var first := Traverse(s, w, inp, requests);
    SoundRowsAscending(s, w, inp.teamId);
    FirstTraversal(s, w, inp, requests);
    SecondTail(w.(cache := first.cache), inp, rows);
    LaterTraversal(s, w.(cache := first.cache), inp, Kept(rows, 0, 101), requests);
  }

  lemma SoundRowsAscending(s: Settings, w: World, teamId: int)
    requires Sound(s, w)
    ensures Ascending(TeamRows(w.db, teamId), TASK_ID)
  {
    SqlQuery.MatchingAscending(w.db.tasks, teamId, "", 0, 0);
  }

  /** What the second traversal goes on with, and how many requests that takes. */
  lemma SecondTail(w: World, inp: ListInput, rows: seq<Task>)
    requires rows == TeamRows(w.db, inp.teamId) && Ascending(rows, TASK_ID) && rows != []
    ensures var members := Kept(rows, 0, 101);
            var tail := if |members| % 101 == 0 then Beyond(rows, members) else [];
            && members != [] && tail == Tail(w, inp, members) && Kept(tail, 0, 101) == tail
            && tail == (if |rows| % 10201 == 0 then [rows[|rows| - 1]] else [])
            && PageCount(|members|) + MorePages(|tail|) <= PageCount(|rows|)
  {
    BeyondKept(rows);
    LoneRowKept(rows);
    var members := Kept(rows, 0, 101);
    hide Kept, PageCount, MorePages, Beyond, TeamRows;
    FewPages(|rows|, |members|);
    Multiples(|rows|, |members|);
  }

  lemma LoneRowKept(rows: seq<Task>)
    requires rows != []
    ensures Kept([rows[|rows| - 1]], 0, 101) == [rows[|rows| - 1]] && Kept<Task>([], 0, 101) == []
  {
    KeptShort([rows[|rows| - 1]], 0, 101);
  }

  lemma FewPages(n: nat, m: nat)
    requires m == n - n / 101
    ensures PageCount(m) + MorePages(0) <= PageCount(n) && PageCount(m) + MorePages(1) <= PageCount(n)
  {}

  lemma Multiples(n: nat, m: nat)
    requires m == n - n / 101
    ensures n % 101 == 0 && m % 101 == 0 <==> n % 10201 == 0
  {
    var q, p := n / 101, n / 10201;
    assert n == 101 * q + n % 101;
    assert n == 10201 * p + n % 10201;
    if n % 101 == 0 && m % 101 == 0 {
      assert q == 101 * (q - m / 101);
      assert n == 10201 * (q - m / 101);
    }
    if n % 10201 == 0 {
      assert n == 101 * (101 * p);
      assert m == 101 * (100 * p);
    }
  }

  // ---------------------------------------------------------------------------
  // With filters

  /** As many pages, each with the same flag and cursor, and with an item for every task. */
  ghost predicate Itemized(pages: seq<Page<TaskItem>>, session: seq<Page<Task>>) {
    && |pages| == |session|
    && forall i :: 0 <= i < |pages| ==>
         && pages[i].hasMore == session[i].hasMore && pages[i].nextStartFromId == session[i].nextStartFromId
         && pages[i].items == ItemsOf(session[i].items)
  }

  function Filtered(db: Db, inp: ListInput): seq<Task> {
    SqlQuery.Matching(db.tasks, inp.teamId, inp.status, inp.assigneeId, 0)
  }

  lemma FilteredCall(s: Settings, w: World, inp: ListInput)
    requires WellKeyed(w.db) && !Unfiltered(inp) && IsMember(w.db, inp.userId, inp.teamId)
    ensures var page := Serve(Filtered(w.db, inp), TASK_ID, inp.startFromId, DEFAULT_LIMIT);
            ListCall(w.db, w.cache, w.now, s.ttl, inp, ALL_FINE)
            == ListOutcome(w.cache, Ok(Page(ItemsOf(page.items), page.nextStartFromId, page.hasMore)))
  {
    SqlQuery.MatchingAfterCursor(w.db.tasks, inp.teamId, inp.status, inp.assigneeId, inp.startFromId);
  }

  /** The first page of a client with a filter, and the rest. */
  lemma FilteredStep(s: Settings, w: World, inp: ListInput, requests: nat, page: Page<TaskItem>)
    requires requests > 0 && ListCall(w.db, w.cache, w.now, s.ttl, inp, ALL_FINE) == ListOutcome(w.cache, Ok(page))
    ensures var t := Traverse(s, w, inp, requests);
            var rest := Traverse(s, w, inp.(startFromId := page.nextStartFromId), requests - 1);
            && t.pages == [page] + (if page.hasMore then rest.pages else [])
            && t.cache == if page.hasMore then rest.cache else w.cache
  {
    hide ListCall;
    assert w.(cache := w.cache) == w;
  }

  lemma {:induction false} FilteredFrom(s: Settings, w: World, inp: ListInput, requests: nat)
    requires WellKeyed(w.db) && !Unfiltered(inp) && IsMember(w.db, inp.userId, inp.teamId)
    ensures var t := Traverse(s, w, inp, requests);
            && t.cache == w.cache
            && Itemized(t.pages,
                 Session(Repeat(Filtered(w.db, inp), requests), TASK_ID, inp.startFromId, DEFAULT_LIMIT))
    decreases requests
  {
    hide ListCall, Serve, WellKeyed, IsMember, ItemsOf, SqlQuery.Matching, Unfiltered, Itemized;
    var rows := Filtered(w.db, inp);
    if requests > 0 {
      hide Traverse;
      var page := Serve(rows, TASK_ID, inp.startFromId, DEFAULT_LIMIT);
      FilteredCall(s, w, inp);
      FilteredStep(s, w, inp, requests, Page(ItemsOf(page.items), page.nextStartFromId, page.hasMore));
      FilterStays(inp, page.nextStartFromId);
      FilteredFrom(s, w, inp.(startFromId := page.nextStartFromId), requests - 1);
      assert Repeat(rows, requests)[1..] == Repeat(rows, requests - 1);
      var next := Session(Repeat(rows, requests - 1), TASK_ID, page.nextStartFromId, DEFAULT_LIMIT);
      ItemizedCons(page, Traverse(s, w, inp.(startFromId := page.nextStartFromId), requests - 1).pages, next);
    } else {
      NothingItemized();
    }
  }

  lemma FilterStays(inp: ListInput, cursor: int)
    ensures Unfiltered(inp.(startFromId := cursor)) <==> Unfiltered(inp)
  {}

  lemma NothingItemized()
    ensures Itemized([], [])
  {}

  lemma ItemizedCons(page: Page<Task>, pages: seq<Page<TaskItem>>, session: seq<Page<Task>>)
    requires Itemized(pages, session)
    ensures var first := Page(ItemsOf(page.items), page.nextStartFromId, page.hasMore);
            && Itemized([first] + pages, [page] + session) && Itemized([first], [page])
            && [first] + [] == [first]
  {}

  lemma {:induction false} ItemizedDelivered(pages: seq<Page<TaskItem>>, session: seq<Page<Task>>)
    requires Itemized(pages, session)
    ensures Delivered(pages) == ItemsOf(Delivered(session))
  {
    if pages != [] {
      ItemizedDelivered(pages[1..], session[1..]);
    }
  }

  /** Paging through a team's tasks with a filter, while nothing changes: the cache has no part in it, and of the n
      tasks that pass, the client is given those whose rank is not 100 modulo 101, column by column, in n/101 + 1
      pages. */
  lemma FilteredTraversal(s: Settings, w: World, inp: ListInput, requests: nat)
    requires WellKeyed(w.db) && !Unfiltered(inp) && inp.startFromId == 0 && IsMember(w.db, inp.userId, inp.teamId)
    requires requests > |Filtered(w.db, inp)| / 101
    ensures var t := Traverse(s, w, inp, requests);
            var rows := Filtered(w.db, inp);
            var given := Delivered(t.pages);
            && t.cache == w.cache
            && |t.pages| == |rows| / 101 + 1 && !t.pages[|t.pages| - 1].hasMore
            && |given| == |rows| - |rows| / 101
            && (forall j :: 0 <= j < |given| ==>
                  && j + j / 100 < |rows|
                  && var row := rows[j + j / 100];
                     given[j] ==
                     TaskItem(id := row.id, status := row.status, title := row.title, description := row.description,
                              creatorId := row.creatorId, assigneeId := row.assigneeId, teamId := row.teamId))
    ensures forall row :: row in Filtered(w.db, inp) <==>
              && row in w.db.tasks && row.teamId == inp.teamId && (inp.status != "" ==> row.status == inp.status)
              && (inp.assigneeId != 0 ==> row.assigneeId == inp.assigneeId)
  {
    hide Traverse, Session, Delivered, Kept, IsMember;
    var rows := Filtered(w.db, inp);
    FilteredRows(w.db, inp);
    FilteredFrom(s, w, inp, requests);
    SessionCoverage(rows, TASK_ID, requests);
    GrowingSession(Repeat(rows, requests), TASK_ID, DEFAULT_LIMIT);
    KeptExactly(rows, TASK_ID);
    ItemizedDelivered(Traverse(s, w, inp, requests).pages,
                      Session(Repeat(rows, requests), TASK_ID, 0, DEFAULT_LIMIT));
  }

  lemma FilteredRows(db: Db, inp: ListInput)
    requires WellKeyed(db)
    ensures Ascending(Filtered(db, inp), TASK_ID) && Positive(Filtered(db, inp), TASK_ID)
    ensures forall row :: row in Filtered(db, inp) <==>
              && row in db.tasks && row.teamId == inp.teamId && (inp.status != "" ==> row.status == inp.status)
              && (inp.assigneeId != 0 ==> row.assigneeId == inp.assigneeId)
  {
    var rows := Filtered(db, inp);
    SqlQuery.MatchingAscending(db.tasks, inp.teamId, inp.status, inp.assigneeId, 0);
    forall row
      ensures row in rows <==> row in db.tasks && SqlQuery.Matches(row, inp.teamId, inp.status, inp.assigneeId, 0)
    {
      SqlQuery.MatchingIn(db.tasks, inp.teamId, inp.status, inp.assigneeId, 0, row);
    }
    forall i | 0 <= i < |rows|
      ensures TASK_ID(rows[i]) > 0
    {
      assert rows[i] in db.tasks;
      var j :| 0 <= j < |db.tasks| && db.tasks[j] == rows[i];
      assert TASK_ID(db.tasks[j]) > 0;
    }
  }
}
