/** Runs that show what the conditions of the index and coherence theorems rule out. */
module Witnesses {
  import opened Model
  import opened Tables
  import opened TaskCache
  import opened Operations
  import opened SmallRun
  import opened Agreement
  import CallsAlone
  import Coherence
  import Freshness
  import Interleaving
  import Paging
  import Serial

  /** A pipeline cut after its first command: the value lives, and no set holds its id. */
  lemma CutPipelineIsUnindexed(s: Settings) returns (events: seq<Interleaving.Event>)
    requires s.ttl > 0
    ensures Interleaving.Legal(s, events)
    ensures var st := Interleaving.Replay(s, events); !AllIndexed(st.cache, st.now)
    ensures !Freshness.IndexedThroughout(s, events) && !Freshness.PipelinesWillDo(s, events)
  {
    hide Interleaving.Legal, Interleaving.Replay, Serial.Legal, Serial.Run, Fill, AllIndexed;
    hide Freshness.PipelinesWillDo;
    FirstListing(s, 1);
    OneTask(s);
    events := CallsAlone.SerialRunIsOverlapping(s, 0, [FOUND, ADD, Listed(1)]);
    OnlyTheValue(s.ttl);
    Freshness.IndexAgreementIff(s, events);
  }

  lemma OnlyTheValue(ttl: int)
    requires ttl > 0
    ensures !AllIndexed(Fill(EMPTY_CACHE, 0, ttl, TEAM, [FIRST], 1), 0)
  {
    var c := Fill(EMPTY_CACHE, 0, ttl, TEAM, [FIRST], 1);
    assert Commands(EMPTY_CACHE, 0, ttl, TEAM, [FIRST], 0, 0) == EMPTY_CACHE;
    assert c == SetTask(EMPTY_CACHE, FIRST, 0 + ttl);
    assert TASK in c.values && Live(0, c.values[TASK].exp) && !Indexed(c, TASK);
  }

  /** An edit whose cache write is lost, after a listing has cached the task: the old version is served on. */
  lemma EditIsLeftStale(s: Settings) returns (calls: seq<Serial.Call>)
    requires s.ttl > 0
    ensures Serial.Legal(s, Serial.Start(0), calls)
    ensures !Coherence.CoherentWorld(Serial.Run(s, Serial.Start(0), calls))
    ensures !Coherence.CoherentThroughout(s, Serial.Start(0), calls)
    ensures !Coherence.NoneLeavesStale(s, Serial.Start(0), calls)
  {
    hide Serial.Step, Fill, Coherence.LeavesStale, Coherence.Coherent, Serial.Run, Serial.Sound;
    var listed := [FOUND, ADD, Listed(3)];
    var edit := Serial.Edit(ADA, EditFaults(Fine, Fine, Fine, Fine, LostBefore), 1);
    calls := listed + [edit];
    OneTask(s);
    FirstListing(s, 3);
    var w := Serial.Run(s, Serial.Start(0), listed);
    OneMoreCall(s, listed, edit);
    assert calls[..|listed|] == listed;
    LosesItsWrite(s, w, edit);
    Coherence.SerialCoherence(s, 0, listed);
    Serial.StartIsSound(s, 0);
    Serial.RunIsSound(s, Serial.Start(0), listed);
    Coherence.StepCoherentIff(s, w, edit);
    Coherence.SerialCoherenceIff(s, 0, calls);
  }

  lemma LosesItsWrite(s: Settings, w: Serial.World, edit: Serial.Call)
    requires s.ttl > 0 && edit == Serial.Edit(ADA, EditFaults(Fine, Fine, Fine, Fine, LostBefore), 1)
    requires FindTask(w.db.tasks, TASK) == Some(FIRST) && IsPartOfTeamByTask(w.db, MEMBER, TASK) && w.now == 0
    requires w.cache == Fill(EMPTY_CACHE, 0, s.ttl, TEAM, [FIRST], 3)
    ensures Coherence.LeavesStale(w, edit.edit, edit.editFaults)
  {
    hide Fill, IsPartOfTeamByTask, FindTask;
    FillGet(EMPTY_CACHE, 0, s.ttl, TEAM, [FIRST], 3, TASK);
    assert FIRST in Paging.Take([FIRST], 3);
    assert Apply(FIRST, ADA.change).status == "doing" && FIRST.status == "todo";
    assert |"doing"| == 5 && |"todo"| == 4;
  }
}
