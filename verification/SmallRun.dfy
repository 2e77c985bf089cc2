/** A tracker with one team, one member and one task, brought about by two calls. */
module SmallRun {
  import opened Model
  import opened Tables
  import opened TaskCache
  import opened Operations
  import opened Serial
  import Paging
  import SqlQuery

  const MEMBER := 1
  const TEAM := 1
  const TASK := 1
  const NEW_TASK := CreateInput(MEMBER, "todo", "title", "", 0, TEAM)
  const FIRST := NewTask(NEW_TASK, TASK, 0)
  const OWNING := Member(1, TEAM, MEMBER, OWNER)
  const FOUND := NewTeam("team", MEMBER, TEAM, 1, TeamFaults(Fine, Fine, Fine, Fine))
  const ADD := Create(NEW_TASK, WriteFaults(Fine, Fine), TASK)
  const ADA := EditInput(MEMBER, TASK, Change("doing", "title", "", 0))
  const LISTING := ListInput(MEMBER, TEAM, "", 0, 0)

  lemma OneMoreCall(s: Settings, calls: seq<Call>, call: Call)
    requires Legal(s, Start(0), calls) && Possible(Run(s, Start(0), calls), call)
    ensures Legal(s, Start(0), calls + [call])
    ensures Run(s, Start(0), calls + [call]) == Step(s, Run(s, Start(0), calls), call)
  {
    hide Possible, Step;
    assert (calls + [call])[..|calls|] == calls;
  }

  lemma OneTask(s: Settings)
    ensures Legal(s, Start(0), [FOUND, ADD])
    ensures var w := Run(s, Start(0), [FOUND, ADD]);
            && w.db.tasks == [FIRST] && w.db.members == [OWNING] && w.db.history == []
            && w.cache == EMPTY_CACHE && w.now == 0
            && FindTask(w.db.tasks, TASK) == Some(FIRST) && IsMember(w.db, MEMBER, TEAM)
            && IsPartOfTeamByTask(w.db, MEMBER, TASK)
  {
    OneMoreCall(s, [], FOUND);
    assert [] + [FOUND] == [FOUND] && [FOUND] + [ADD] == [FOUND, ADD];
    var w := Run(s, Start(0), [FOUND]);
    assert w.db.members == [OWNING] && OWNING in w.db.members;
    OneMoreCall(s, [FOUND], ADD);
    var w' := Step(s, w, ADD);
    assert w'.db.tasks == [FIRST] && FIRST in w'.db.tasks && OWNING in w'.db.members;
  }

  function Listed(ran: nat): Call {
    List(LISTING, ListFaults(Fine, ReadFaults(Fine, Fine, Fine), Fine, ran))
  }

  /** Its first listing, of whose pipeline Redis runs the first commands. */
  lemma FirstListing(s: Settings, ran: nat)
    ensures Legal(s, Start(0), [FOUND, ADD, Listed(ran)])
    ensures var before, w := Run(s, Start(0), [FOUND, ADD]), Run(s, Start(0), [FOUND, ADD, Listed(ran)]);
            w == before.(cache := Fill(EMPTY_CACHE, 0, s.ttl, TEAM, [FIRST], ran))
  {
    OneTask(s);
    hide Fill, Legal, Run, IsMember, IsPartOfTeamByTask, FindTask;
    OneMoreCall(s, [FOUND, ADD], Listed(ran));
    assert [FOUND, ADD] + [Listed(ran)] == [FOUND, ADD, Listed(ran)];
    var w := Run(s, Start(0), [FOUND, ADD]);
    TheOneTask(w.db);
    assert CachedPage(EMPTY_CACHE, 0, TEAM, 101, None, ReadFaults(Fine, Fine, Fine)) == Ok(None);
    assert Paging.Take([FIRST], 100) == [FIRST];
  }

  lemma TheOneTask(db: Db)
    requires db.tasks == [FIRST]
    ensures FetchForList(db, LISTING) == [FIRST]
  {
    assert [FIRST][1..] == [];
    assert SqlQuery.Matches(FIRST, TEAM, "", 0, 0);
    assert SqlQuery.Matching([FIRST], TEAM, "", 0, 0) == [FIRST] + SqlQuery.Matching([], TEAM, "", 0, 0);
  }
}
