# Task tracker: a model of its hard parts, with proofs

The tracker stores tasks, their edit history, comments, teams and members in MySQL, keeps a read-through
cache of tasks in Redis, and sends e-mail through an HTTP client guarded by a circuit breaker. This project
models the parts where that is subtle and proves what they guarantee, and exactly when.

## How it is built

Two layers meet at specification functions.

* The repositories and executors are classes with the source's loops, branches and error returns:
  `Mysql` (`Mysql.dfy`), `Redis` over one string-keyed store (`Redis.dfy`), the executors (`Executors.dfy`)
  and the breaker (`CircuitBreaker.dfy`). Their methods are proved to compute the functions of
  `Tables`, `TaskCache` and `Operations`, which know nothing of keys, loops or query text.
* `CallOutcomes` ties those functions down call by call, in rows, columns and literals only: who is let
  through, what each row written holds, what is answered, what stays as it was. The executors' contracts say
  the same.
* About those functions the main theorems are proved, over whole runs:
  * *serial runs* (`Serial`, `Coherence`, `Refinement`, `Shortfalls`, `CachedPaging`, `VersionHistory`): one
    executor call at a time, any inner call may fail, time passes in between;
  * *overlapping runs* (`Interleaving`, `Freshness`, `CachedListings`, `Guards`, `Memberships`, `EditTrail`,
    `LostVersions`, `Listings`): any number of calls in flight, with each call's position and local variables
    carried along. A step is one SQL statement, one Redis command or transaction, one reading of the clock,
    or any stretch of a pipeline that is no transaction. `At(s, events, i)` is the state the i-th event of
    a run finds; where a value was read and written is told by such positions.
  * `CallsAlone` shows that a call nobody interrupts does exactly what the serial call does, and from it that
    every serial run has an overlapping run with the same tables, cache and clock. `SmallRun` and `Witnesses`
    use that to give runs in which the conditions of the index and coherence theorems fail.
* `Paging` holds the keyset-page arithmetic, with the choice of cursor row as a parameter, and `SqlQuery`
  the one statement that is assembled at run time, together with a small parser for its words.

A failing call is one of two things: it had no effect, or it had its effect and the caller was told it
failed (a lost reply, an unreadable insert id or row count). Both are allowed at every call. A pipeline that
is no transaction may also be cut after any of its commands.

## What comes out

* **Staleness.** Whatever overlaps and whatever fails, a live cached value was the row at a position inside
  the call that wrote it, at most the time to live plus that call's duration ago, and its identity fields
  are the current row's. The reason is small: an edit's cached copy overwrites every column the UPDATE sets.
  What a listing serves is pinned to its own steps in the same way. With a cursor, a listing from the cache
  can serve tasks not above it, or skip some: it serves exactly the window after the cursor if and only if
  as many ids up to the cursor are in the set at the ZRANGE as were at the ZRANK before it.
* **Index.** Live values are in the live set of their team at every point of a run if and only if no part of a
  listing's pipeline stores values, without going on to the EXPIRE, that the set will not do for. So they are
  in every run whose listings' pipelines run whole or not at all; transactions, as the edit uses, cannot break
  it. The listing's pipeline is no transaction, and a run is given in which it is cut after its first SET and
  leaves a live value that no set holds.
* **Coherence.** In serial runs live values are current at every point if and only if no edit of the run changed
  a row whose old version was alive and then lost its cache write or was told that its UPDATE had failed; a
  run with such an edit is given.
* **Cache hits.** In any state a serial run can reach, a hit equals the database answer if and only if the
  team's sorted set has no gap below the end of the window and every row it delivers is still shown as it
  was cached; where live values are current, the gap alone decides. Two ways to get a gap are built into
  the code: an edit into a set that is not alive makes the next first page a hit with that one task, and a
  fill caches only the 100 rows it delivers, so for every team of more than 100 tasks the page after a miss
  is a hit that says there is no more. For teams of up to 100, a first-page miss closes all gaps, and they
  stay closed until the next creation in the team or the set's expiry.
* **Pages.** The next cursor is the id of the 101st row fetched, while the query asks for larger ids, so that
  row is skipped: of n rows, exactly those whose rank is not 100 modulo 101 arrive, n - n/101 of them.
  Everything arrives if and only if n is at most 100. (With the last delivered row as the cursor nothing
  would be skipped: `Paging.LastDeliveredCursorCoversAll`.) Paging through a team whose set is not alive
  gives the same and leaves just those rows in the cache; paging again while they live skips every 101st
  of them too. Whatever ids a live set has, as long as their values live, it is paged through as if it were
  the table; only if their number is a multiple of 101 does the client go on to the rows beyond the last of
  them, and of these again every 101st is skipped. The repository's README calls these listings paginated
  without saying this; the model follows the code.
* **History.** Serially, history followed by the current row is every version ever held, up to repeats. With
  overlapping edits every snapshot is still genuine and every update has its own, earlier history row. Each
  version a task had stays in its history or current, at every later point of a run, if and only if each
  UPDATE of the task replaces a version already in the history or leaves the version as it is. That holds as
  long as no UPDATE of the task lands between another edit's SELECT and UPDATE; a run in which it fails is
  given. A version that an UPDATE drops may still enter the history later, through an edit that had read it
  and had yet to record it; once no such edit is left it comes back only by becoming current again. An edit
  that changes nothing is reported as an error by MySQL's default row count, after its history row has been
  written.
* **Members and guards.** A user is a member of a team if and only if a transaction founding it for that user has
  committed or an invitation of that user has reached the table, and only owners and admins invite. Checks and
  the writes they guard are separate statements, yet no write lands and no listing is served without its
  guard, because members are never removed and a task never changes team. Whoever has no row in a team is
  refused by listing, creating, editing, commenting and history. Every member's chain of inviters ends at the
  one founder of the team. Comments are listed to anyone.
* **Breaker.** It is half-open exactly from the first request let through after the reset timeout until the next
  call comes back. A success then closes it, and it stays closed if and only if there are never as many
  failures in a row as the threshold. While everything fails and at most k requests are in flight, at most
  threshold + (k-1) + k * floor(D / resetTimeout) requests get through.

## Assumptions

* AUTO_INCREMENT ids are positive and strictly increasing, with gaps; rows are kept in primary-key order.
* Each SQL statement and each Redis command or transaction happens at one instant; MySQL, Redis and the
  executors read one clock, which never goes back; the time to live, the failure threshold (at least 1) and
  the reset timeout are positive.
* A Redis key lives through the instant it is set to expire at, and Redis neither evicts keys nor loses them.
  Sorted-set scores, doubles in Redis, are exact for the 32-bit ids of the tables. JSON encoding and decoding
  a task gives it back.
* The id MySQL hands out, the outcome of every call, the clock and the meaning of MySQL's affected-row count
  are parameters.

## Model

| member | source | states |
|---|---|---|
| CircuitBreaker.ClosedCountsTrailingFailures | internal/utils/circuit_breaker_http_client.go:56-70 | in every reachable state, closed is exactly "fewer failures counted than the threshold"; while closed the counter is the length of the trailing run of failed completions |
| CircuitBreaker.TripsAtTheThreshold | internal/utils/circuit_breaker_http_client.go:56-62 | a completion opens a closed breaker exactly when it makes the trailing run of failures as long as the threshold |
| CircuitBreaker.HalfOpenTestIsRedundant | internal/utils/circuit_breaker_http_client.go:60-62 | in every reachable state the half-open disjunct makes no difference |
| CircuitBreaker.RejectedExactlyWhileCooling | internal/utils/circuit_breaker_http_client.go:38-46 | a request is turned away if and only if the breaker is open and no more than the reset timeout has passed since the last failed completion of the run |
| CircuitBreaker.CoolDown | internal/utils/circuit_breaker_http_client.go:38-62 | after a failed completion at t that leaves the breaker open, every request up to and including t + resetTimeout is rejected, whatever completes meanwhile |
| CircuitBreaker.ClosesOnlyThroughHalfOpen | internal/utils/circuit_breaker_http_client.go:38-70 | between an open point and a later closed point of any run there is a success completed in half-open that closed the breaker |
| CircuitBreaker.HalfOpenWhileProbing | internal/utils/circuit_breaker_http_client.go:38-70 | the breaker is half-open if and only if some request was let through while it was open, more than the reset timeout after the last failure, and no call has come back since |
| CircuitBreaker.ProbeDecides | internal/utils/circuit_breaker_http_client.go:56-70 | in half-open the first call to come back decides: an error or a status from 400 on opens the breaker with the timeout starting anew, anything else closes it with nothing counted, however much had been counted |
| CircuitBreaker.Recovery | internal/utils/circuit_breaker_http_client.go:56-70 | after a success in half-open the breaker is closed, and closed at every point of whatever follows if and only if there are never as many failed completions in a row as the threshold |
| CircuitBreaker.LoadBound | internal/utils/circuit_breaker_http_client.go:35-73 | if every completion fails and at most k are in flight, at most threshold + (k-1) + k * floor(D / resetTimeout) requests are admitted, D being the time since the first trip |
| CircuitBreaker.CircuitBreakerRoundTripper.constructor | internal/utils/circuit_breaker_http_client.go:27-33 | a fresh breaker is closed with an empty run behind it |
| CircuitBreaker.CircuitBreakerRoundTripper.Begin | internal/utils/circuit_breaker_http_client.go:36-49 | the first lock section keeps the fields those of the replayed run, rejects exactly while cooling down, and moves to half-open exactly if it admits while open |
| CircuitBreaker.CircuitBreakerRoundTripper.Complete | internal/utils/circuit_breaker_http_client.go:53-72 | the second lock section keeps the fields those of the replayed run; an error or a status from 400 on counts one, marks the time, and leaves the breaker closed only below the threshold; anything else closes it with count 0, unless it is open, which stays as it is; while closed the counter is the trailing run of failures |
| Paging.GrowingSession | internal/task/history/list/executor.go:70-84 | for either choice of cursor row, while rows with larger ids are appended between requests: a finished session has the kept ranks of the table its last page was served from, an unfinished one the first hundred kept ranks per request; only the last page can say there is no more, and it says there is only when the client has no request left |
| Paging.SessionCoverage | internal/task/comment/list/executor.go:38-72 | following the cursor from 0 over n rows ends after n/101 + 1 pages with n - n/101 rows, in ascending id order, the row of rank r among them if and only if r mod 101 is not 100 |
| Paging.EveryRowDeliveredIff | internal/task/comment/list/executor.go:49-53 | following the cursor gives the whole table if and only if it has at most 100 rows |
| Listings.HistoryWhileEditing | internal/task/history/list/executor.go:59-109 | a member who feeds each answer's cursor to the next call during any overlapping run is never refused, and once told that there is no more has, column by column, the row of rank j + j/100 as the j-th item, n - n/101 of the n rows at the last page |
| Listings.CommentsWhileWriting | internal/task/comment/list/executor.go:38-72 | anyone who feeds each answer's cursor to the next call has in the end exactly the comments whose rank is not 100 modulo 101 at the last page, ascending |
| Listings.TaskPageIsServed | internal/task/list/executor.go:135-187 | a listing answered by the database, with any filters and cursor, is the page of the matching rows at that cursor |
| Listings.TaskPagesCoverage | internal/task/list/executor.go:163-167 | paging through the matching rows of an unchanging table keeps the ranks other than 100 modulo 101, and all of them if and only if there are at most 100 |
| SqlQuery.BuiltQueryMeansFilter | internal/repository/mysql.go:376-428 | for every combination of filters and every table the assembled text has as many placeholders as arguments, parses, and answers with the first `limit` matching rows, their columns in the order in which they are scanned into the fields of a task |
| SqlQuery.PlaceholdersParsed | internal/repository/mysql.go:376-404 | any text that parses, assembled or not, has one '?' for each of its conditions and one for the limit |
| SqlQuery.BuildListTasks | internal/repository/mysql.go:376-402 | the clause-by-clause assembly yields such a text and arguments, a '?' for each argument |
| MysqlRepository.Mysql.ListTasks | internal/repository/mysql.go:364-438 | the answer is the first `limit` matching rows, or an error for a bad limit or a failed call |
| MysqlRepository.Mysql.ListHistory | internal/repository/mysql.go:252-298 | the history rows of the task above the cursor, ascending, at most `limit`, none missing but beyond a full page; or an error for a bad limit or a failed call |
| MysqlRepository.Mysql.ListTaskComments | internal/repository/mysql.go:171-206 | the comments of the task above the cursor, ascending, at most `limit`, none missing but beyond a full page; or an error |
| MysqlRepository.Mysql.CreateHistory | internal/repository/mysql.go:208-250 | one row more, showing the version of the given task, its id, the changer and the instant, or no change at all; nothing else changes and ids stay ascending |
| MysqlRepository.Mysql.EditTask | internal/repository/mysql.go:440-471 | sets four columns of the rows with the given id and changes nothing else anywhere; succeeds if and only if nothing failed and there is such a row that the change changes, or matched rows are counted |
| MysqlRepository.Mysql.InviteMember | internal/repository/mysql.go:473-489 | adds the row if and only if the call gets through and the pair has none; no pair is ever doubled; nothing else changes; a success is reported only for a row added |
| MysqlRepository.Mysql.CreateTeamAndMakeUserItsOwner | internal/repository/mysql.go:507-550 | teams and members both gain their one row or both stay, the former exactly when every statement worked and the commit took effect; if every team had an owner, every team has one |
| RedisKeys.KeysApart | internal/repository/redis.go:25-35 | task keys and team keys are injective and never meet; a task key is `task:` and a team key `team_tasks:` followed by the id in decimals, and the key built from a printed id is that id's key |
| RedisRepository.OneStoreOneCache | internal/repository/redis.go:25-35 | the string-keyed store determines the two maps it represents |
| RedisRepository.Redis.CacheTasks | internal/repository/redis.go:37-76 | the loops and the pipeline on string keys and scored members amount to as many of the commands on the two maps as Redis ran, in order; success is reported only if all ran |
| RedisRepository.Redis.UpdateTaskInCache | internal/repository/redis.go:155-177 | the same for one task and its own team |
| RedisRepository.Redis.ListTasksFromCache | internal/repository/redis.go:78-153 | the read on string keys answers as the read on the two maps does, hit, miss and error alike |
| TaskCache.PageIsWindow | internal/repository/redis.go:78-153 | a read hits if and only if its cursor is a member, something lies beyond it and every value of the window is alive; the hit is the first `limit` members above the cursor, ascending |
| Agreement.CommandsIndexIff | internal/repository/redis.go:66-75 | from a state in which every live value is indexed, any stretch of the pipeline's commands leads to such a state if and only if the set will do without the commands after it |
| Freshness.CacheStaysKnown | internal/repository/redis.go:53-75 | in every reachable overlapping state, wherever pipelines were cut, cached values are versions of rows, sets hold only ids of their team's rows, and nothing expires later than the time to live from now |
| Freshness.IndexAgreementIff | internal/repository/redis.go:53-75 | every live value is in the set of its team, which does not expire sooner, at every point of an overlapping run if and only if at every step of a listing's pipeline the set will do |
| Freshness.WholePipelinesIndex | internal/repository/redis.go:53-75 | every live value is so indexed at every point of an overlapping run in which Redis runs each listing's pipeline whole or not at all |
| Witnesses.CutPipelineIsUnindexed | internal/repository/redis.go:53-75 | there is a run, from the empty tracker, in which a listing's pipeline cut after its first command leaves a live value that no set holds |
| Freshness.LiveValuesAreIndexed | internal/repository/redis.go:53-75 | under that condition every live value has its key's id, its team's set is live, holds the id and expires no sooner; every id in a team's set is a row of that team |
| Freshness.UpdatedIsRow | internal/task/edit/executor.go:94-104 | the read version with the change applied is the row the UPDATE left, even if others edited in between |
| Freshness.BoundedStaleness | internal/task/edit/executor.go:94-108 | in every reachable overlapping state a live value was put there, with its expiry, by the event at its write position, a step of the call it is ascribed to, and was the row at a position after the beginning of that call and no later than the write, no longer ago than the time to live plus that call's duration up to the write, with the current row's id, creator, team and creation time |
| CachedListings.ListingServes | internal/task/list/executor.go:91-159 | an overlapping listing serves exactly what the tables held at its SELECT, or ascending versions of the requested team's rows that are the window of the set at its ZRANGE after the rank found at its ZRANK: all above the cursor if and only if no more ids up to it are in the set by then, and the window after the cursor if and only if as many are |
| CachedListings.ListingIsFresh | internal/task/list/executor.go:91-159 | every task it serves was a row at the position of its SELECT, or, from the cache, at a position inside the call that cached it, within the staleness bound before its MGET |
| Coherence.EditCoherentIff | internal/task/edit/executor.go:94-110 | from a coherent state an edit leads to a coherent state if and only if it does not change a row whose old version is live and then lose its cache write or its UPDATE's reply |
| Coherence.SerialCoherenceIff | internal/task/edit/executor.go:94-110 | in a serial run every live value is the current row at every point if and only if no edit of the run, in the state it finds, changes a row whose old version is live and then loses its cache write or its UPDATE's reply |
| Witnesses.EditIsLeftStale | internal/task/edit/executor.go:94-110 | there is a serial run, from the empty tracker, with such an edit, which ends with a live value that is not the current row |
| Coherence.SerialCoherence | internal/repository/redis.go:155-177 | in serial runs whose edits' cache writes land, every live value is the current row |
| Refinement.HitIsSubsequence | internal/repository/redis.go:103-152 | any hit is made of versions of the team's rows above the cursor, ascending, at most 101 |
| Refinement.HitIsExactIff | internal/task/list/executor.go:91-133 | in any state a serial run can reach, a hit answers as the database would if and only if no row above the cursor is missing from the set, except beyond a full window, and every row it delivers is shown as it is now |
| Refinement.CoherentHitIsExactIff | internal/task/list/executor.go:91-133 | where live values are current, the gap alone decides |
| Refinement.MissMakesExact | internal/task/list/executor.go:143-159 | a first-page miss of a team of 1 to 100 tasks, its pipeline run whole, leaves a set of exactly its ids |
| Refinement.RunKeepsExact | internal/task/list/executor.go:143-159 | that lasts through any calls without a creation in the team or an expiry of the set |
| Refinement.ListingRefinesDatabase | internal/task/list/executor.go:91-187 | with such a set every unfiltered listing that succeeds, from any cursor, gives the database's tasks, cursor and flag |
| Refinement.CacheStandsForDatabase | internal/task/list/executor.go:91-187 | the four previous results put together over one run |
| Shortfalls.LargeTeamLosesItsTail | internal/task/list/executor.go:146-158 | for every team of more than 100 tasks whose set has expired, the first listing says there is more and the next one, a hit, says there is not |
| Shortfalls.EditIntoEmptySetHidesRows | internal/repository/redis.go:155-177 | from any coherent state in which a team's set is not alive, an edit of one of its tasks that succeeds and reaches the cache makes the next first-page listing a hit with that one task, however many the database has, in a state still coherent |
| CachedPaging.FirstTraversal | internal/task/list/executor.go:91-167 | paging through a team whose set is not alive misses at every request, gives the ranks other than 100 modulo 101, and leaves exactly those in the set, with live values |
| CachedPaging.LaterTraversal | internal/task/list/executor.go:91-167 | paging through a team whose live set has some ids, with live values, treats these as the table: of them too every hundred-and-first is skipped; only when their number is a multiple of 101 do the rows beyond the last of them follow, however many there are, these too without every hundred-and-first, and the rows given are then cached |
| CachedPaging.SecondTraversal | internal/task/list/executor.go:91-167 | paging twice in a row gives, the second time, the kept ranks of the kept ranks, and the table's last row as well if and only if its size is a multiple of 101 * 101 |
| CachedPaging.FilteredTraversal | internal/task/list/executor.go:135-187 | paging through a team's tasks with a filter, while nothing changes, leaves the cache alone and gives, column by column, the tasks that pass whose rank is not 100 modulo 101, in n/101 + 1 pages |
| VersionHistory.NoVersionLost | internal/task/edit/executor.go:88-98 | in serial runs with failures anywhere, history in id order followed by the current row is, up to repeated neighbours, every version the row ever held |
| VersionHistory.EditSucceedsIff | internal/repository/mysql.go:440-471 | an edit is reported a success if and only if nothing on its way failed, the row is there, the editor is in its team, and the change changes something or matched rows are counted |
| EditTrail.SnapshotsAreGenuine | internal/task/edit/executor.go:68-98 | with overlapping edits every history row shows the version its task had at the SELECT of the edit that wrote it, made by that edit's user, before the row was inserted, and bears an instant between the two |
| EditTrail.HistoryCoversUpdates | internal/task/edit/executor.go:88-98 | every update that took effect has its own history row, inserted by the same call at an earlier position, so history rows are never fewer than updates |
| LostVersions.ReplacedIsRecorded | internal/task/edit/executor.go:67-98 | an UPDATE with no other UPDATE of the task between its edit's SELECT and itself replaces a version that is in the history |
| LostVersions.NothingLostIff | internal/task/edit/executor.go:67-98 | over any overlapping run, every version a task had at some point is in its history or current at that and every later point if and only if each UPDATE of the task that takes effect replaces a version already in the history, or leaves the version as it is |
| LostVersions.UndisturbedLoseNothing | internal/task/edit/executor.go:67-98 | in overlapping runs whose UPDATEs of a task are all of that kind, every version it had at any point is in its history or current |
| LostVersions.GoneForGood | internal/task/edit/executor.go:67-98 | a version that is neither in the history nor current, and that no edit in flight has read and has yet to record, is at no later point in the history or current unless the task is given it again |
| LostVersions.AVersionIsLost | internal/task/edit/executor.go:67-98 | there is a run, from the empty tracker, in which two edits overlap and a version is lost |
| Guards.EveryWriteIsGuarded | internal/repository/mysql.go:55-64 | in every reachable overlapping state the members table has a row, in the team of the task, for each task's creator, each history row's changer and each comment's author, and in the listed team for whoever has been served a listing |
| Memberships.MembershipProvenance | internal/repository/mysql.go:507-550 | every team has an owner, a user has one row per team, and every other member was invited by an older row of the team with a role that may invite |
| Memberships.InvitationsEndAtTheFounder | internal/team/member/invite/executor.go:56-82 | every chain of inviters leads, by ever smaller ids, to the one founder of the team |
| Memberships.RolesAreForLife | internal/repository/mysql_migrations/004_team_members.up.sql:1-9 | the row a user has in a team at one point of a run is the row at every later point |
| Memberships.RowsByRun | internal/repository/mysql.go:473-550 | after any overlapping run the members table holds exactly the rows added by a founding transaction that committed, with role owner, or by an invitation that took effect while the user had no row there, with the role it gave |
| Memberships.MembersByRun | internal/repository/mysql.go:55-64 | after any overlapping run a user has a row in a team, and passes the membership check, if and only if a transaction founding the team for that user has committed or an invitation of that user to it has reached the table |
| CallsAlone.EditAlone | internal/task/edit/executor.go:67-111 | an edit whose steps nobody interrupts leaves tables and cache as the serial edit does and succeeds exactly when it does |
| CallsAlone.ListAlone | internal/task/list/executor.go:73-188 | an uninterrupted listing gives the serial listing's answer and cache |
| CallsAlone.CreateAlone | internal/task/create/executor.go:51-80 | the same for creating a task |
| CallsAlone.CommentAlone | internal/task/comment/create/executor.go:40-58 | the same for commenting |
| CallsAlone.InviteAlone | internal/team/member/invite/executor.go:56-82 | the same for inviting |
| CallsAlone.TeamAlone | internal/repository/mysql.go:507-550 | the same for the team transaction |
| CallsAlone.SerialRunIsOverlapping | internal/task/edit/executor.go:67-111 | for every serial run there is an overlapping run that ends with the same tables, cache and clock |
| CallOutcomes.ListAccess | internal/task/list/executor.go:73-147 | a listing is forbidden to whoever has no row in the team, succeeds if nothing fails, and leaves the cache alone if it fails or has filters |
| CallOutcomes.ListOutcomes | internal/task/list/executor.go:91-187 | each item shows its task column by column; the tasks are the first hundred of the team's rows above the cursor that pass the filters, or the live values of the first hundred ids of the live set above it; the flag and the cursor are those of what is left out; a whole fill caches just the tasks delivered |
| CallOutcomes.CacheFailuresFail | internal/task/list/executor.go:91-107 | without filters, a failure of a cache command that is sent fails the listing |
| CallOutcomes.EditOutcomes | internal/task/edit/executor.go:67-111 | an edit of an existing task, column by column: its history row, the one row updated, when it is a success, when it is forbidden, and what the cache is given and for how long |
| CallOutcomes.CreateOutcomes | internal/task/create/executor.go:51-80 | the task row added has each column as given, and is added if and only if the check gets through, the creator has a row in the team and the INSERT is not lost |
| CallOutcomes.CommentOutcomes | internal/task/comment/create/executor.go:40-58 | the same for a comment and its author |
| CallOutcomes.InviteOutcomes | internal/team/member/invite/executor.go:56-82 | if nothing fails, an invitation succeeds if and only if some row of the team has the inviter's id and role owner or admin and none has the invitee's; it adds exactly the row with the given role |
| CallOutcomes.CommentsOutcome | internal/task/comment/list/executor.go:38-72 | anyone is given the first hundred comments of the task above the cursor, ascending; there is more if and only if one is left out, and the cursor is then the least id left out |
| CallOutcomes.HistoryOutcome | internal/task/history/list/executor.go:59-109 | the same for history rows, shown column by column, if and only if the user has a row in the task's team |
| CallOutcomes.OutsidersAreRefused | internal/repository/mysql.go:55-64 | a user with no row in a team is refused by list, create, edit, comment and history, and tables and cache stay as they are |
| Executors.ListExecutor.Execute | internal/task/list/executor.go:73-188 | the executor over the repositories is the serial listing, including what it leaves in the cache; a success is for a user with a row in the team and shows, column by column, the tasks of the tables or of the live set that were asked for |
| Executors.EditExecutor.Execute | internal/task/edit/executor.go:67-111 | the executor is the serial edit: same tables, same cache, same outcome, at every failure; anything changes or succeeds only for a user with a row in the task's team |
| Executors.CreateExecutor.Execute | internal/task/create/executor.go:51-80 | the tables change by exactly the row with the given columns, if and only if the creator has a row in the team, the check got through and the INSERT is not lost; a success returns that row |
| Executors.CommentCreateExecutor.Execute | internal/task/comment/create/executor.go:40-58 | the same for a comment, whose id a success returns |
| Executors.InviteExecutor.Execute | internal/team/member/invite/executor.go:56-82 | exactly the given row is added, if and only if the inviter has a row with role owner or admin, the invitee has none, and nothing is lost on the way; mail goes out only after a success with an address |
| Executors.HistoryListExecutor.Execute | internal/task/history/list/executor.go:59-109 | a success is for exactly the users with a row in the task's team, and shows the first hundred history rows above the cursor, column by column |
| Executors.CommentListExecutor.Execute | internal/task/comment/list/executor.go:38-72 | anyone is given the first hundred comments of the task above the cursor, with flag and cursor of what is left out |

## Left out

- Serial.Step: in serial runs a pipeline may be cut after any command but is run at one instant; that other calls come between its commands is the matter of the overlapping runs.
- CircuitBreaker.LoadBound: counts with unbounded integers; the overflow of Go's int after 2^63 failures is not modelled.
- Refinement.ListingRefinesDatabase: the executor's `cacheLister != nil` test is not modelled, because the application always wires a cache.
- Text comparison in MySQL under a case-insensitive collation: the model compares text exactly.
- Foreign keys to `users`, the unique team name and column sizes: they are among the reasons for which an insert may fail.
- The rounding of DATETIME columns: the model keeps the instant it is given.
- The `CreatedAt` of history items, which no query fills and which is therefore always zero.
- HTTP handlers, JWT and bcrypt, rate limiting, metrics, migrations, environment and `main`: plumbing without a hard property.
- The team listing and the user registration and login queries: they would only add easy members.
- The upstream HTTP service and the e-mail body: any outcome at any later time.
