/** Keyset pages, as the three list executors cut them.

    Each executor asks for `defaultLimit + 1` rows with an id above the cursor.  If that many
    come back there is more: the page is the first `defaultLimit` rows and the next cursor is the
    id of one of the fetched rows.  Which one is the parameter `probe` of this module.  The code
    takes row `defaultLimit`, the last one fetched; row `defaultLimit - 1` would be the last one
    delivered. */
module Paging {

  const DEFAULT_LIMIT: nat := 100

  datatype Page<+T> = Page(items: seq<T>, nextStartFromId: int, hasMore: bool)

  ghost predicate Ascending<T>(rows: seq<T>, id: T -> int) {
    forall i, j :: 0 <= i < j < |rows| ==> id(rows[i]) < id(rows[j])
  }

  ghost predicate Positive<T>(rows: seq<T>, id: T -> int) {
    forall i :: 0 <= i < |rows| ==> id(rows[i]) > 0
  }

  function Take<T>(rows: seq<T>, n: nat): seq<T> {
    if |rows| <= n then rows else rows[..n]
  }

  /** The rows whose id lies above the cursor, in order. */
  function After<T>(rows: seq<T>, id: T -> int, cursor: int): seq<T> {
    if rows == [] then []
    else (if id(rows[0]) > cursor then [rows[0]] else []) + After(rows[1..], id, cursor)
  }

  /** How an executor turns the fetched rows into a page. */
  function Cut<T>(fetched: seq<T>, id: T -> int, probe: nat): Page<T>
    requires probe <= DEFAULT_LIMIT
  {
    if |fetched| > DEFAULT_LIMIT then Page(fetched[..DEFAULT_LIMIT], id(fetched[probe]), true)
    else Page(fetched, 0, false)
  }

  /** One list request against a table. */
  function Serve<T>(rows: seq<T>, id: T -> int, cursor: int, probe: nat): Page<T>
    requires probe <= DEFAULT_LIMIT
  {
    Cut(Take(After(rows, id, cursor), DEFAULT_LIMIT + 1), id, probe)
  }

  /** A client following `NextStartFromId`: its i-th request is served from `tables[i]`, and it
      stops when a page says there is no more (or when it runs out of requests). */
  function Session<T>(tables: seq<seq<T>>, id: T -> int, cursor: int, probe: nat): (pages: seq<Page<T>>)
    requires probe <= DEFAULT_LIMIT
    ensures |pages| <= |tables|
    ensures tables != [] ==> pages != []
  {
    if tables == [] then []
    else
      var page := Serve(tables[0], id, cursor, probe);
      if page.hasMore then [page] + Session(tables[1..], id, page.nextStartFromId, probe) else [page]
  }

  function Delivered<T>(pages: seq<Page<T>>): seq<T> {
    if pages == [] then [] else pages[0].items + Delivered(pages[1..])
  }

  /** The table only grows by rows with larger ids while the client is paging. */
  ghost predicate Growing<T>(tables: seq<seq<T>>, id: T -> int) {
    && (forall i :: 0 <= i < |tables| ==> Ascending(tables[i], id))
    && (forall i, j :: 0 <= i <= j < |tables| ==> tables[i] <= tables[j])
  }

  /** Every `stride` rows, the first hundred: `phase` is the position of `rows[0]` in its stride. */
  function Kept<T>(rows: seq<T>, phase: nat, stride: nat): seq<T> {
    if rows == [] then []
    else (if phase < DEFAULT_LIMIT then [rows[0]] else [])
         + Kept(rows[1..], if phase + 1 >= stride then 0 else phase + 1, stride)
  }

  // ---------------------------------------------------------------------------
  // Ascending tables

  lemma AscendingCons<T>(row: T, rest: seq<T>, id: T -> int)
    requires Ascending(rest, id)
    requires forall i :: 0 <= i < |rest| ==> id(row) < id(rest[i])
    ensures Ascending([row] + rest, id)
  {}

  lemma AscendingTail<T>(rows: seq<T>, id: T -> int)
    requires Ascending(rows, id) && rows != []
    ensures Ascending(rows[1..], id)
    ensures forall i :: 0 <= i < |rows[1..]| ==> id(rows[0]) < id(rows[1..][i])
  {}

  lemma {:induction false} AfterIn<T>(rows: seq<T>, id: T -> int, cursor: int, row: T)
    ensures row in After(rows, id, cursor) <==> row in rows && id(row) > cursor
  {
    if rows != [] {
      AfterIn(rows[1..], id, cursor, row);
      assert rows == [rows[0]] + rows[1..];
    }
  }

  lemma {:induction false} AfterAscending<T>(rows: seq<T>, id: T -> int, cursor: int)
    requires Ascending(rows, id)
    ensures Ascending(After(rows, id, cursor), id)
  {
    if rows != [] {
      var rest := After(rows[1..], id, cursor);
      AscendingTail(rows, id);
      AfterAscending(rows[1..], id, cursor);
      forall i | 0 <= i < |rest|
        ensures id(rows[0]) < id(rest[i])
      {
        AfterIn(rows[1..], id, cursor, rest[i]);
      }
      AscendingCons(rows[0], rest, id);
      assert [] + rest == rest;
    }
  }

  lemma TakeAscending<T>(rows: seq<T>, id: T -> int, n: nat)
    requires Ascending(rows, id)
    ensures Ascending(Take(rows, n), id)
  {}

  // ---------------------------------------------------------------------------
  // Cursors are ranks

  lemma {:induction false} AfterIsSuffix<T>(rows: seq<T>, id: T -> int, cursor: int, k: nat)
    requires k <= |rows|
    requires forall i :: 0 <= i < k ==> id(rows[i]) <= cursor
    requires forall i :: k <= i < |rows| ==> id(rows[i]) > cursor
    ensures After(rows, id, cursor) == rows[k..]
  {
    if rows != [] {
      AfterIsSuffix(rows[1..], id, cursor, if k == 0 then 0 else k - 1);
      if k > 0 {
        assert rows[1..][k - 1..] == rows[k..];
      }
    }
  }

  lemma AfterRow<T>(rows: seq<T>, id: T -> int, k: nat)
    requires Ascending(rows, id) && k < |rows|
    ensures After(rows, id, id(rows[k])) == rows[k + 1..]
  {
    AfterIsSuffix(rows, id, id(rows[k]), k + 1);
  }

  lemma AfterNothing<T>(rows: seq<T>, id: T -> int, cursor: int)
    requires Positive(rows, id) && cursor <= 0
    ensures After(rows, id, cursor) == rows
  {
    AfterIsSuffix(rows, id, cursor, 0);
  }

  // ---------------------------------------------------------------------------
  // What a session delivers

  lemma {:induction false} KeptChunk<T>(rows: seq<T>, phase: nat, stride: nat)
    requires phase <= DEFAULT_LIMIT <= stride <= DEFAULT_LIMIT + 1
    requires phase + |rows| >= stride && phase < stride
    ensures Kept(rows, phase, stride) == rows[..DEFAULT_LIMIT - phase] + Kept(rows[stride - phase..], 0, stride)
    decreases |rows|
  {
    var head := if phase < DEFAULT_LIMIT then [rows[0]] else [];
    if phase + 1 == stride {
      assert rows[..DEFAULT_LIMIT - phase] == head;
    } else {
      var tail := rows[1..];
      KeptChunk(tail, phase + 1, stride);
      calc {
        Kept(rows, phase, stride);
        head + Kept(tail, phase + 1, stride);
        head + (tail[..DEFAULT_LIMIT - phase - 1] + Kept(tail[stride - phase - 1..], 0, stride));
        { assert tail[stride - phase - 1..] == rows[stride - phase..]; }
        head + (tail[..DEFAULT_LIMIT - phase - 1] + Kept(rows[stride - phase..], 0, stride));
        { assert rows[..DEFAULT_LIMIT - phase] == head + tail[..DEFAULT_LIMIT - phase - 1]; }
        rows[..DEFAULT_LIMIT - phase] + Kept(rows[stride - phase..], 0, stride);
      }
    }
  }

  lemma {:induction false} KeptShort<T>(rows: seq<T>, phase: nat, stride: nat)
    requires phase + |rows| <= DEFAULT_LIMIT <= stride
    ensures Kept(rows, phase, stride) == rows
  {
    if rows != [] {
      if phase + 1 < stride {
        KeptShort(rows[1..], phase + 1, stride);
      } else {
        assert rows[1..] == [];
      }
    }
  }

  /** One page of a session that has used up the first `k` ranks. */
  lemma ServeAtRank<T>(rows: seq<T>, id: T -> int, cursor: int, k: nat, probe: nat)
    requires probe <= DEFAULT_LIMIT <= probe + 1
    requires Ascending(rows, id) && k <= |rows| && After(rows, id, cursor) == rows[k..]
    ensures var page := Serve(rows, id, cursor, probe);
            && (page.hasMore <==> |rows| - k > DEFAULT_LIMIT)
            && page.items == Take(rows[k..], DEFAULT_LIMIT)
            && (page.hasMore ==> page.nextStartFromId == id(rows[k + probe]))
            && (page.hasMore ==> After(rows, id, page.nextStartFromId) == rows[k + probe + 1..])
  {
    if |rows| - k > DEFAULT_LIMIT {
      AfterRow(rows, id, k + probe);
      assert Take(rows[k..], DEFAULT_LIMIT + 1)[..DEFAULT_LIMIT] == rows[k..][..DEFAULT_LIMIT];
    }
  }

  /** The cursor stands at the same rank in every table. */
  ghost predicate AtRank<T>(tables: seq<seq<T>>, id: T -> int, cursor: int, k: nat) {
    forall i :: 0 <= i < |tables| ==> k <= |tables[i]| && After(tables[i], id, cursor) == tables[i][k..]
  }

  /** A cursor taken from the first table stands at the same rank in every later one. */
  lemma CursorInLaterTables<T>(tables: seq<seq<T>>, id: T -> int, r: nat)
    requires tables != [] && Growing(tables, id) && r < |tables[0]|
    ensures Growing(tables[1..], id)
    ensures AtRank(tables[1..], id, id(tables[0][r]), r + 1)
  {
    forall i | 1 <= i < |tables|
      ensures r < |tables[i]| && After(tables[i], id, id(tables[0][r])) == tables[i][r + 1..]
    {
      assert tables[0] <= tables[i];
      assert tables[i][r] == tables[0][r];
      AfterRow(tables[i], id, r);
    }
  }

  /** What `m` pages amount to when the last of them, with or without more to come, was served from
      `last` and the first `k` ranks had been used up before: all the kept ranks that follow, or as
      many of them as fill `m` pages. */
  function Account<T>(last: seq<T>, k: nat, m: nat, more: bool, stride: nat): seq<T>
    requires k <= |last|
  {
    var kept := Kept(last[k..], 0, stride);
    if more then Take(kept, DEFAULT_LIMIT * m) else kept
  }

  lemma AccountOnePage<T>(page: Page<T>, rows: seq<T>, k: nat, stride: nat)
    requires DEFAULT_LIMIT <= stride <= DEFAULT_LIMIT + 1
    requires k <= |rows| && page.items == Take(rows[k..], DEFAULT_LIMIT)
    requires page.hasMore <==> |rows| - k > DEFAULT_LIMIT
    ensures Delivered([page]) == Account(rows, k, 1, page.hasMore, stride)
  {
    assert Delivered([page]) == page.items + [];
    if page.hasMore {
      KeptChunk(rows[k..], 0, stride);
    } else {
      KeptShort(rows[k..], 0, stride);
    }
  }

  ghost predicate Accounted<T>(pages: seq<Page<T>>, last: seq<T>, k: nat, stride: nat)
    requires pages != []
  {
    k <= |last| && Delivered(pages) == Account(last, k, |pages|, pages[|pages| - 1].hasMore, stride)
  }

  lemma AccountedAfterPage<T>(page: Page<T>, rest: seq<Page<T>>, first: seq<T>, last: seq<T>, k: nat, next: nat,
                              stride: nat)
    requires DEFAULT_LIMIT <= stride <= DEFAULT_LIMIT + 1
    requires rest != [] && first <= last
    requires next == k + stride <= |first|
    requires page.items == Take(first[k..], DEFAULT_LIMIT)
    requires Accounted(rest, last, next, stride)
    ensures Accounted([page] + rest, last, k, stride)
  {
    hide Kept;
    KeptChunk(last[k..], 0, stride);
    assert last[k..][stride..] == last[next..];
    assert page.items == last[k..][..DEFAULT_LIMIT];
    assert ([page] + rest)[1..] == rest;
  }

  lemma SessionFirstPage<T>(tables: seq<seq<T>>, id: T -> int, cursor: int, k: nat, probe: nat) returns (page: Page<T>)
    requires probe <= DEFAULT_LIMIT <= probe + 1
    requires tables != [] && Ascending(tables[0], id)
    requires k <= |tables[0]| && After(tables[0], id, cursor) == tables[0][k..]
    ensures page.items == Take(tables[0][k..], DEFAULT_LIMIT)
    ensures page.hasMore <==> |tables[0]| - k > DEFAULT_LIMIT
    ensures page.hasMore ==> page.nextStartFromId == id(tables[0][k + probe])
    ensures Session(tables, id, cursor, probe) ==
            [page] + if page.hasMore then Session(tables[1..], id, page.nextStartFromId, probe) else []
  {
    page := Serve(tables[0], id, cursor, probe);
    ServeAtRank(tables[0], id, cursor, k, probe);
  }

  lemma {:induction false} SessionFromRank<T>(tables: seq<seq<T>>, id: T -> int, cursor: int, k: nat, probe: nat)
    requires probe <= DEFAULT_LIMIT <= probe + 1
    requires tables != [] && Growing(tables, id) && AtRank(tables, id, cursor, k)
    ensures var pages := Session(tables, id, cursor, probe); Accounted(pages, tables[|pages| - 1], k, probe + 1)
    decreases |tables|, 1
  {
    var page := SessionFirstPage(tables, id, cursor, k, probe);
    if !page.hasMore || |tables| == 1 {
      AccountOnePage(page, tables[0], k, probe + 1);
      assert Session(tables, id, cursor, probe) == [page];
    } else {
      SessionFromNextRank(tables, id, page, k, probe);
    }
  }

  lemma SessionFromNextRank<T>(tables: seq<seq<T>>, id: T -> int, page: Page<T>, k: nat, probe: nat)
    requires probe <= DEFAULT_LIMIT <= probe + 1
    requires |tables| > 1 && Growing(tables, id) && k + probe < |tables[0]|
    requires page.items == Take(tables[0][k..], DEFAULT_LIMIT) && page.nextStartFromId == id(tables[0][k + probe])
    ensures var rest := Session(tables[1..], id, page.nextStartFromId, probe);
            Accounted([page] + rest, tables[|rest|], k, probe + 1)
    decreases |tables|, 0
  {
    hide Growing, AtRank, Accounted, Session, Take;
    var rest := Session(tables[1..], id, page.nextStartFromId, probe);
    var next := k + probe + 1;
    CursorInLaterTables(tables, id, k + probe);
    SessionFromRank(tables[1..], id, page.nextStartFromId, next, probe);
    GrowingFront(tables, id, |rest|);
    AccountedAfterPage(page, rest, tables[0], tables[|rest|], k, next, probe + 1);
  }

  lemma GrowingFront<T>(tables: seq<seq<T>>, id: T -> int, i: nat)
    requires Growing(tables, id) && 0 < i < |tables|
    ensures tables[0] <= tables[i] && tables[1..][i - 1] == tables[i]
  {}

  /** Every page but the last says there is more, and so does the last only when the client ran out
      of requests. */
  lemma {:induction false} OnlyTheLastPageEnds<T>(tables: seq<seq<T>>, id: T -> int, cursor: int, probe: nat)
    requires probe <= DEFAULT_LIMIT && tables != []
    ensures var pages := Session(tables, id, cursor, probe);
            && (forall i :: 0 <= i < |pages| - 1 ==> pages[i].hasMore)
            && (pages[|pages| - 1].hasMore ==> |pages| == |tables|)
    decreases |tables|
  {
    var page := Serve(tables[0], id, cursor, probe);
    if page.hasMore && |tables| > 1 {
      OnlyTheLastPageEnds(tables[1..], id, page.nextStartFromId, probe);
    }
  }

  lemma AtRankZero<T>(tables: seq<seq<T>>, id: T -> int)
    requires forall i :: 0 <= i < |tables| ==> Positive(tables[i], id)
    ensures AtRank(tables, id, 0, 0)
  {
    forall i | 0 <= i < |tables|
      ensures After(tables[i], id, 0) == tables[i][0..]
    {
      AfterNothing(tables[i], id, 0);
    }
  }

  lemma AccountFromZero<T>(last: seq<T>, m: nat, more: bool, stride: nat)
    ensures Account(last, 0, m, more, stride) ==
            var kept := Kept(last, 0, stride);
            if more then Take(kept, DEFAULT_LIMIT * m) else kept
  {
    assert last[0..] == last;
  }

  /** What a client that starts from cursor 0 has been given, for either choice of cursor row, while
      the table grows under it: once a page says there is no more, the pages together are the kept
      ranks of the table that page was served from; until then they are the first hundred kept
      ranks per request made.  Only the last page can say there is no more, and it says there is only if
      the client has run out of requests. */
  lemma GrowingSession<T>(tables: seq<seq<T>>, id: T -> int, probe: nat)
    requires probe <= DEFAULT_LIMIT <= probe + 1
    requires tables != [] && Growing(tables, id)
    requires forall i :: 0 <= i < |tables| ==> Positive(tables[i], id)
    ensures var pages := Session(tables, id, 0, probe);
            var kept := Kept(tables[|pages| - 1], 0, probe + 1);
            && Delivered(pages) == (if pages[|pages| - 1].hasMore then Take(kept, DEFAULT_LIMIT * |pages|) else kept)
            && (forall i :: 0 <= i < |pages| - 1 ==> pages[i].hasMore)
            && (pages[|pages| - 1].hasMore ==> |pages| == |tables|)
  {
    hide Kept, Session, AtRank, Delivered;
    OnlyTheLastPageEnds(tables, id, 0, probe);
    AtRankZero(tables, id);
    SessionFromRank(tables, id, 0, 0, probe);
    var pages := Session(tables, id, 0, probe);
    AccountFromZero(tables[|pages| - 1], |pages|, pages[|pages| - 1].hasMore, probe + 1);
  }

  // ---------------------------------------------------------------------------
  // Ranks kept by the code's cursor

  /** With a page of 100 and a stride of 101, the j-th row kept is the row of rank j + j/100. */
  lemma {:induction false} KeptRankFrom<T>(rows: seq<T>, phase: nat, j: nat)
    requires phase <= 100
    ensures |Kept(rows, phase, 101)| == |rows| - (|rows| + phase) / 101
    ensures j < |Kept(rows, phase, 101)| ==>
              (j + (j + phase) / 100 < |rows| && Kept(rows, phase, 101)[j] == rows[j + (j + phase) / 100])
    decreases |rows|
  {
    if rows != [] {
      if phase < 100 {
        KeptRankFrom(rows[1..], phase + 1, if j == 0 then 0 else j - 1);
      } else {
        KeptRankFrom(rows[1..], 0, j);
      }
    }
  }

  lemma RankOfKept(r: nat)
    ensures r % 101 != 100 <==> exists j: nat :: r == j + j / 100
  {
    if r % 101 != 100 {
      var j := r - r / 101;
      assert r == j + j / 100;
    } else {
      forall j: nat
        ensures r != j + j / 100
      {
        assert (j + j / 100) % 101 == j % 100;
      }
    }
  }

  /** The rows of 100-row pages whose cursor is the 101st row: as many as n - n/101, the row of
      rank r among them exactly when r mod 101 is not 100, in strictly ascending id order. */
  lemma KeptExactly<T>(rows: seq<T>, id: T -> int)
    requires Ascending(rows, id)
    ensures var kept := Kept(rows, 0, 101);
            && |kept| == |rows| - |rows| / 101
            && (forall j :: 0 <= j < |kept| ==> j + j / 100 < |rows| && kept[j] == rows[j + j / 100])
            && Ascending(kept, id)
    ensures forall r :: 0 <= r < |rows| ==> (rows[r] in Kept(rows, 0, 101) <==> r % 101 != 100)
  {
    var kept := Kept(rows, 0, 101);
    forall j | 0 <= j < |kept|
      ensures j + j / 100 < |rows| && kept[j] == rows[j + j / 100]
    {
      KeptRankFrom(rows, 0, j);
    }
    KeptRankFrom(rows, 0, 0);
    forall r | 0 <= r < |rows|
      ensures rows[r] in kept <==> r % 101 != 100
    {
      RankOfKept(r);
      if r % 101 != 100 {
        var j: nat :| r == j + j / 100;
        assert j < |kept|;
        assert kept[j] == rows[r];
      } else {
        forall j | 0 <= j < |kept|
          ensures kept[j] != rows[r]
        {
          assert j + j / 100 != r;
          assert id(rows[j + j / 100]) != id(rows[r]);
        }
      }
    }
  }

  function Repeat<T>(x: T, n: nat): (s: seq<T>)
    ensures |s| == n && forall i :: 0 <= i < n ==> s[i] == x
  {
    seq(n, _ => x)
  }

  lemma {:induction false} SessionLength<T>(rows: seq<T>, id: T -> int, cursor: int, k: nat, n: nat)
    requires Ascending(rows, id) && k <= |rows| && After(rows, id, cursor) == rows[k..]
    requires n > (|rows| - k) / 101
    ensures var pages := Session(Repeat(rows, n), id, cursor, 100);
            |pages| == (|rows| - k) / 101 + 1 && !pages[|pages| - 1].hasMore
    decreases n
  {
    var tables := Repeat(rows, n);
    ServeAtRank(rows, id, cursor, k, 100);
    var page := Serve(rows, id, cursor, 100);
    if page.hasMore {
      assert tables[1..] == Repeat(rows, n - 1);
      SessionLength(rows, id, page.nextStartFromId, k + 101, n - 1);
    }
  }

  /** A client following the cursor from 0 over a fixed table of n rows gets its last page after
      n/101 + 1 requests, and by then has been given the kept ranks, no more and no less. */
  lemma SessionCoverage<T>(rows: seq<T>, id: T -> int, requests: nat)
    requires Ascending(rows, id) && Positive(rows, id)
    requires requests > |rows| / 101
    ensures var pages := Session(Repeat(rows, requests), id, 0, DEFAULT_LIMIT);
            && |pages| == |rows| / 101 + 1
            && !pages[|pages| - 1].hasMore
            && |Delivered(pages)| == |rows| - |rows| / 101
            && Ascending(Delivered(pages), id)
            && (forall r :: 0 <= r < |rows| ==> (rows[r] in Delivered(pages) <==> r % 101 != 100))
  {
    hide Kept, Session, Delivered;
    AfterNothing(rows, id, 0);
    assert rows[0..] == rows;
    SessionLength(rows, id, 0, 0, requests);
    GrowingSession(Repeat(rows, requests), id, 100);
    KeptExactly(rows, id);
  }

  /** The whole table comes back exactly when it fits one page. */
  lemma EveryRowDeliveredIff<T>(rows: seq<T>, id: T -> int, requests: nat)
    requires Ascending(rows, id) && Positive(rows, id)
    requires requests > |rows| / 101
    ensures Delivered(Session(Repeat(rows, requests), id, 0, DEFAULT_LIMIT)) == rows <==> |rows| <= DEFAULT_LIMIT
  {
    SessionCoverage(rows, id, requests);
    if |rows| <= 100 {
      GrowingSession(Repeat(rows, requests), id, 100);
      KeptShort(rows, 0, 101);
    }
  }

  lemma {:induction false} KeptEverything<T>(rows: seq<T>, phase: nat)
    requires phase < DEFAULT_LIMIT
    ensures Kept(rows, phase, DEFAULT_LIMIT) == rows
  {
    if rows != [] {
      KeptEverything(rows[1..], if phase + 1 >= DEFAULT_LIMIT then 0 else phase + 1);
    }
  }

  /** With the last delivered row as the cursor instead, a finished session is the whole table. */
  lemma LastDeliveredCursorCoversAll<T>(tables: seq<seq<T>>, id: T -> int)
    requires tables != [] && Growing(tables, id)
    requires forall i :: 0 <= i < |tables| ==> Positive(tables[i], id)
    ensures var pages := Session(tables, id, 0, DEFAULT_LIMIT - 1);
            !pages[|pages| - 1].hasMore ==> Delivered(pages) == tables[|pages| - 1]
  {
    GrowingSession(tables, id, DEFAULT_LIMIT - 1);
    KeptEverything(tables[|Session(tables, id, 0, DEFAULT_LIMIT - 1)| - 1], 0);
  }
}
