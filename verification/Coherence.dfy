/** When live cached values are the current rows. */
module Coherence {
  import opened Model
  import opened Tables
  import opened TaskCache
  import opened Operations
  import opened Serial
  import Agreement
  import Paging

  /** Every live cached value is the row the database holds now. */
  ghost predicate Coherent(db: Db, c: Cache, now: int) {
    forall id :: LiveTask(c, now, id).Some? ==> LiveTask(c, now, id).value in db.tasks
  }

  lemma LiveAfterFill(c: Cache, now: int, ttl: int, teamId: int, tasks: seq<Task>, ran: nat, id: int)
    requires LiveTask(Fill(c, now, ttl, teamId, tasks, ran), now, id).Some?
    ensures var v := LiveTask(Fill(c, now, ttl, teamId, tasks, ran), now, id).value;
            v in tasks || (LiveTask(c, now, id) == Some(v) && forall t :: t in Paging.Take(tasks, ran) ==> t.id != id)
  {
    FillGet(c, now, ttl, teamId, tasks, ran, id);
  }

  lemma FillKeepsCoherent(db: Db, c: Cache, now: int, ttl: int, teamId: int, tasks: seq<Task>, ran: nat)
    requires Coherent(db, c, now) && forall t :: t in tasks ==> t in db.tasks
    ensures Coherent(db, Fill(c, now, ttl, teamId, tasks, ran), now)
  {
    forall id | LiveTask(Fill(c, now, ttl, teamId, tasks, ran), now, id).Some?
      ensures LiveTask(Fill(c, now, ttl, teamId, tasks, ran), now, id).value in db.tasks
    {
      LiveAfterFill(c, now, ttl, teamId, tasks, ran, id);
    }
  }

  /** The edit gets as far as sending its UPDATE, and the UPDATE takes effect. */
  predicate Updates(w: World, inp: EditInput, f: EditFaults) {
    && f.get.Fine? && FindTask(w.db.tasks, inp.taskId).Some?
    && f.check.Fine? && IsPartOfTeamByTask(w.db, inp.userId, inp.taskId)
    && f.history.Fine? && !f.update.LostBefore?
  }

  /** The edit changes a row whose old version is live in the cache, and then does not get its new
      version there: it is told the UPDATE failed, or the cache write is lost. */
  predicate LeavesStale(w: World, inp: EditInput, f: EditFaults) {
    && Updates(w, inp, f)
    && Apply(FindTask(w.db.tasks, inp.taskId).value, inp.change) != FindTask(w.db.tasks, inp.taskId).value
    && LiveTask(w.cache, w.now, inp.taskId).Some?
    && (f.update.LostAfter? || f.cache.LostBefore?)
  }

  lemma OtherRowsStay(before: Db, id: int, c: Change, t: Task)
    requires t in before.tasks && t.id != id
    ensures t in UpdateTask(before, id, c).tasks
  {
    UpdatedRow(before, id, c, t);
  }

  lemma EditedRowOnly(before: Db, id: int, c: Change, row: Task)
    requires WellKeyed(before) && row in before.tasks && row.id == id
    ensures row in UpdateTask(before, id, c).tasks <==> Apply(row, c) == row
  {
    UpdatedRow(before, id, c, row);
    forall o | o in before.tasks && row == if o.id == id then Apply(o, c) else o
      ensures o == row
    {
      TaskIsUnique(before, o, row);
    }
  }

  /** The tables and the cache after an edit whose UPDATE took effect. */
  lemma EditEffect(s: Settings, w: World, inp: EditInput, f: EditFaults, historyId: int)
    requires Sound(s, w)
    ensures var o := EditCall(w.db, w.cache, w.now, s, inp, f, historyId);
            if Updates(w, inp, f) then
              var row := FindTask(w.db.tasks, inp.taskId).value;
              var updated := Apply(row, inp.change);
              && o.db.tasks == UpdateTask(w.db, inp.taskId, inp.change).tasks
              && updated in o.db.tasks
              && (o.cache == w.cache || o.cache == Put(w.cache, w.now, s.ttl, row.teamId, [updated]))
              && (!f.update.LostAfter? && !f.cache.LostBefore? && (s.clientFoundRows || updated != row) ==>
                    o.cache == Put(w.cache, w.now, s.ttl, row.teamId, [updated]))
              && (f.update.LostAfter? || f.cache.LostBefore? ==> o.cache == w.cache)
            else
              o.db.tasks == w.db.tasks && o.cache == w.cache
  {
    hide Agreement.CacheKnown, WellKeyed, Fill, IsPartOfTeamByTask, CountsAsAffected, UpdateRows;
    if FindTask(w.db.tasks, inp.taskId).Some? {
      EditedRow(w.db, inp.taskId, inp.change, historyId, inp.userId, w.now);
      SameUpdate(w.db, SnapshotOf(FindTask(w.db.tasks, inp.taskId).value, historyId, inp.userId, w.now), inp);
    }
  }

  /** The UPDATE after the INSERT into the history changes the rows as it would have before. */
  lemma SameUpdate(db: Db, h: Snapshot, inp: EditInput)
    ensures UpdateTask(InsertHistory(db, h), inp.taskId, inp.change).tasks
            == UpdateTask(db, inp.taskId, inp.change).tasks
  {}

  lemma UpdateCoherence(db: Db, after: Db, c: Cache, now: int, id: int, change: Change, row: Task)
    requires WellKeyed(db) && WellFormed(c) && Coherent(db, c, now) && row in db.tasks && row.id == id
    requires after.tasks == UpdateTask(db, id, change).tasks
    ensures Coherent(after, c, now) <==> LiveTask(c, now, id).None? || Apply(row, change) == row
  {
    EditedRowOnly(db, id, change, row);
    if LiveTask(c, now, id).Some? {
      TaskIsUnique(db, LiveTask(c, now, id).value, row);
    }
    forall other | other != id && LiveTask(c, now, other).Some?
      ensures LiveTask(c, now, other).value in after.tasks
    {
      OtherRowsStay(db, id, change, LiveTask(c, now, other).value);
    }
  }

  lemma WriteBackCoherence(db: Db, after: Db, c: Cache, now: int, ttl: int, id: int, change: Change, row: Task)
    requires WellKeyed(db) && WellFormed(c) && Coherent(db, c, now) && row in db.tasks && row.id == id
    requires after.tasks == UpdateTask(db, id, change).tasks && Apply(row, change) in after.tasks
    ensures Coherent(after, Put(c, now, ttl, row.teamId, [Apply(row, change)]), now)
  {
    var updated := Apply(row, change);
    var c' := Put(c, now, ttl, row.teamId, [updated]);
    forall other | LiveTask(c', now, other).Some?
      ensures LiveTask(c', now, other).value in after.tasks
    {
      LiveAfterFill(c, now, ttl, row.teamId, [updated], 3, other);
      assert Paging.Take([updated], 3) == [updated];
      if LiveTask(c', now, other).value != updated {
        assert updated in [updated];
        OtherRowsStay(db, id, change, LiveTask(c, now, other).value);
      }
    }
  }

  /** From a coherent state, an edit leads to a coherent state exactly when it does not leave a stale
      value behind. */
  lemma EditCoherentIff(s: Settings, w: World, inp: EditInput, f: EditFaults, historyId: int)
    requires Sound(s, w) && Coherent(w.db, w.cache, w.now)
    ensures var o := EditCall(w.db, w.cache, w.now, s, inp, f, historyId);
            Coherent(o.db, o.cache, w.now) <==> !LeavesStale(w, inp, f)
  {
    hide Coherent, EditCall, IsPartOfTeamByTask;
    var o := EditCall(w.db, w.cache, w.now, s, inp, f, historyId);
    EditEffect(s, w, inp, f, historyId);
    if Updates(w, inp, f) {
      var row := FindTask(w.db.tasks, inp.taskId).value;
      UpdateCoherence(w.db, o.db, w.cache, w.now, inp.taskId, inp.change, row);
      WriteBackCoherence(w.db, o.db, w.cache, w.now, s.ttl, inp.taskId, inp.change, row);
      CoherentTables(o.db, o.db, w.cache, w.now);
    } else {
      CoherentTables(w.db, o.db, w.cache, w.now);
    }
  }

  lemma CoherentTables(before: Db, after: Db, c: Cache, now: int)
    requires after.tasks == before.tasks
    ensures Coherent(before, c, now) <==> Coherent(after, c, now)
  {}

  /** No edit of the run is told its UPDATE failed when it did not, and no cache write of an edit is
      lost.  Reads, fills and every other call may fail as they like. */
  ghost predicate CacheWritesLand(calls: seq<Call>) {
    forall i :: 0 <= i < |calls| && calls[i].Edit? ==>
      !calls[i].editFaults.update.LostAfter? && !calls[i].editFaults.cache.LostBefore?
  }

  lemma ListKeepsCoherent(s: Settings, w: World, inp: ListInput, f: ListFaults)
    requires Sound(s, w) && Coherent(w.db, w.cache, w.now)
    ensures Coherent(w.db, ListCall(w.db, w.cache, w.now, s.ttl, inp, f).cache, w.now)
  {
    var tasks := Paging.Take(FetchForList(w.db, inp), Paging.DEFAULT_LIMIT);
    forall t | t in tasks
      ensures t in w.db.tasks
    {
      MatchingKnown(w.db, inp, t);
    }
    FillKeepsCoherent(w.db, w.cache, w.now, s.ttl, inp.teamId, tasks, f.ran);
  }

  lemma StepKeepsCoherent(s: Settings, w: World, call: Call)
    requires s.ttl > 0 && Sound(s, w) && Possible(w, call) && Coherent(w.db, w.cache, w.now)
    requires call.Edit? ==> !LeavesStale(w, call.edit, call.editFaults)
    ensures var w' := Step(s, w, call); Coherent(w'.db, w'.cache, w'.now)
  {
    hide EditCall, ListCall, LeavesStale, Sound;
    match call {
      case Edit(inp, f, historyId) => EditCoherentIff(s, w, inp, f, historyId);
      case List(inp, f) => ListKeepsCoherent(s, w, inp, f);
      case _ => CoherentLater(w.db, Step(s, w, call).db, w.cache, w.now, Step(s, w, call).now);
    }
  }

  lemma CoherentLater(before: Db, after: Db, c: Cache, now: int, later: int)
    requires Coherent(before, c, now) && now <= later
    requires forall t :: t in before.tasks ==> t in after.tasks
    ensures Coherent(after, c, later)
  {
    forall id | LiveTask(c, later, id).Some?
      ensures LiveTask(c, later, id).value in after.tasks
    {
      assert LiveTask(c, now, id) == LiveTask(c, later, id);
    }
  }

  /** No edit of the run leaves a stale value behind in the world it finds. */
  ghost predicate NoneLeavesStale(s: Settings, w: World, calls: seq<Call>) {
    calls != [] ==>
      var init, call := calls[..|calls| - 1], calls[|calls| - 1];
      NoneLeavesStale(s, w, init) && (call.Edit? ==> !LeavesStale(Run(s, w, init), call.edit, call.editFaults))
  }

  /** Live values are current at every point of the run. */
  ghost predicate CoherentThroughout(s: Settings, w: World, calls: seq<Call>) {
    && CoherentWorld(Run(s, w, calls))
    && (calls != [] ==> CoherentThroughout(s, w, calls[..|calls| - 1]))
  }

  ghost predicate CoherentWorld(w: World) {
    Coherent(w.db, w.cache, w.now)
  }

  lemma StepCoherentIff(s: Settings, w: World, call: Call)
    requires s.ttl > 0 && Sound(s, w) && Possible(w, call) && CoherentWorld(w)
    ensures CoherentWorld(Step(s, w, call)) <==> (call.Edit? ==> !LeavesStale(w, call.edit, call.editFaults))
  {
    hide EditCall, ListCall, LeavesStale, Sound, Coherent;
    if call.Edit? {
      EditCoherentIff(s, w, call.edit, call.editFaults, call.historyId);
    } else {
      StepKeepsCoherent(s, w, call);
    }
  }

  /** Serial coherence, exactly: live cached values are the current rows at every point of a serial run from an
      empty cache, through any calls, failures and passage of time, if and only if no edit of the run
      changes a row whose old version is alive and then fails to get the new one into the cache. */
  lemma {:induction false} SerialCoherenceIff(s: Settings, start: int, calls: seq<Call>)
    requires s.ttl > 0 && Legal(s, Start(start), calls)
    ensures CoherentThroughout(s, Start(start), calls) <==> NoneLeavesStale(s, Start(start), calls)
  {
    hide Step, LeavesStale, Sound, Coherent, Possible;
    if calls == [] {
      EmptyIsCoherent(start);
    } else {
      var init := calls[..|calls| - 1];
      SerialCoherenceIff(s, start, init);
      StartIsSound(s, start);
      RunIsSound(s, Start(start), init);
      if CoherentThroughout(s, Start(start), init) {
        StepCoherentIff(s, Run(s, Start(start), init), calls[|calls| - 1]);
      }
    }
  }

  lemma EmptyIsCoherent(start: int)
    ensures CoherentWorld(Start(start))
  {}

  lemma {:induction false} LandingLeavesNothingStale(s: Settings, w: World, calls: seq<Call>)
    requires CacheWritesLand(calls)
    ensures NoneLeavesStale(s, w, calls)
  {
    if calls != [] {
      hide Run;
      LandingLeavesNothingStale(s, w, calls[..|calls| - 1]);
    }
  }

  /** In particular if no cache write of an edit is lost, nor the reply to its UPDATE. */
  lemma SerialCoherence(s: Settings, start: int, calls: seq<Call>)
    requires s.ttl > 0 && Legal(s, Start(start), calls) && CacheWritesLand(calls)
    ensures var w := Run(s, Start(start), calls); Coherent(w.db, w.cache, w.now)
  {
    LandingLeavesNothingStale(s, Start(start), calls);
    SerialCoherenceIff(s, start, calls);
  }
}
