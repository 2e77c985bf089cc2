/** Where memberships come from, with team creations and invitations in flight in any number. */
module Memberships {
  import opened Model
  import opened Tables
  import opened Interleaving
  import opened Guards
  import CallOutcomes
  import Operations

  /** The inviter's row: same team, a role that may invite, and a smaller id. */
  ghost predicate InvitedBy(st: State, m: Member, p: Member) {
    && m.id in st.inviters && p in st.db.members
    && p.userId == st.inviters[m.id] && p.teamId == m.teamId && Privileged(p) && p.id < m.id
  }

  /** The row inserted with the team itself. */
  ghost predicate Founder(st: State, m: Member) {
    m in st.db.members && m.id !in st.inviters && m.role == OWNER
  }

  ghost predicate Originates(st: State, m: Member) {
    if m.id in st.inviters then exists p :: InvitedBy(st, m, p) else m.role == OWNER
  }

  ghost predicate HasFounder(st: State, teamId: int) {
    exists m :: Founder(st, m) && m.teamId == teamId
  }

  ghost predicate RowsDistinct(db: Db) {
    OneRowPerPair(db) && forall i, j :: 0 <= i < j < |db.members| ==> db.members[i].id != db.members[j].id
  }

  /** The ids a transaction has taken for rows nobody can see yet. */
  ghost predicate Reserved(st: State, op: Op) {
    && (op.OwnerInsert? || op.TeamCommit? ==>
          && op.teamId <= st.db.teamSeq
          && forall m :: m in st.db.members ==> m.teamId != op.teamId)
    && (op.TeamCommit? ==>
          && op.memberId <= st.db.memberSeq && op.memberId !in st.inviters
          && forall m :: m in st.db.members ==> m.id != op.memberId)
  }

  ghost predicate Pending(op: Op) {
    op.OwnerInsert? || op.TeamCommit?
  }

  /** Two transactions never hold the same ids. */
  ghost predicate Apart(a: Op, b: Op) {
    && (Pending(a) && Pending(b) ==> a.teamId != b.teamId)
    && (a.TeamCommit? && b.TeamCommit? ==> a.memberId != b.memberId)
  }

  ghost predicate TeamsSound(st: State) {
    && RowsDistinct(st.db)
    && (forall m :: m in st.db.members ==> m.id <= st.db.memberSeq && m.teamId <= st.db.teamSeq && Originates(st, m))
    && (forall m :: m in st.db.members ==> HasFounder(st, m.teamId))
    && (forall t :: t in st.db.teams ==> HasFounder(st, t.id))
    && (forall a, b :: Founder(st, a) && Founder(st, b) && a.teamId == b.teamId ==> a == b)
    && (forall id :: id in st.inviters ==> id <= st.db.memberSeq)
  }

  ghost predicate Provenance(st: State) {
    && TeamsSound(st)
    && (forall k :: k in st.flights ==> Reserved(st, st.flights[k].op))
    && (forall j, k :: j in st.flights && k in st.flights && j != k ==> Apart(st.flights[j].op, st.flights[k].op))
  }

  lemma MemberAppended(before: Db, after: Db, m: Member)
    requires RowsDistinct(before) && after.members == before.members + [m]
    requires forall o :: o in before.members ==> o.id != m.id && !(o.teamId == m.teamId && o.userId == m.userId)
    ensures RowsDistinct(after)
  {
    forall i, j | 0 <= i < j < |after.members|
      ensures after.members[i].id != after.members[j].id
      ensures !(after.members[i].teamId == after.members[j].teamId
              && after.members[i].userId == after.members[j].userId)
    {
      assert after.members[i] in before.members;
      if j < |before.members| {
        assert after.members[i] == before.members[i] && after.members[j] == before.members[j];
      }
    }
  }

  /** Rows and what is known of their origin stay; a new inviter entry is for a new row. */
  ghost predicate Extends(st: State, after: State) {
    && (forall m :: m in st.db.members ==> m in after.db.members)
    && (forall id :: id in st.inviters ==> id in after.inviters && after.inviters[id] == st.inviters[id])
    && (forall m :: m in st.db.members && m.id in after.inviters ==> m.id in st.inviters)
  }

  lemma OriginLater(st: State, after: State, m: Member)
    requires Extends(st, after) && m in st.db.members && Originates(st, m)
    ensures Originates(after, m)
  {
    if m.id in st.inviters {
      var p :| InvitedBy(st, m, p);
      assert InvitedBy(after, m, p);
    }
  }

  lemma FounderLater(st: State, after: State, teamId: int)
    requires Extends(st, after) && HasFounder(st, teamId)
    ensures HasFounder(after, teamId)
  {
    var m :| Founder(st, m) && m.teamId == teamId;
    assert Founder(after, m);
  }

  // ---------------------------------------------------------------------------
  // What a step does to teams and members

  ghost predicate OnlyCounters(st: State, after: State) {
    && after.db.members == st.db.members && after.db.teams == st.db.teams && after.inviters == st.inviters
    && after.db.memberSeq >= st.db.memberSeq && after.db.teamSeq >= st.db.teamSeq
  }

  ghost predicate Joins(st: State, after: State, inp: Operations.InviteInput, newId: int) {
    && after.db.members == st.db.members + [Member(newId, inp.teamId, inp.userId, inp.role)]
    && after.db.teams == st.db.teams && after.inviters == st.inviters[newId := inp.inviterUserId]
    && after.db.memberSeq == newId > st.db.memberSeq && after.db.teamSeq == st.db.teamSeq
  }

  ghost predicate Appears(st: State, after: State, name: string, userId: int, teamId: int, memberId: int) {
    && after.db.members == st.db.members + [Member(memberId, teamId, userId, OWNER)]
    && after.db.teams == st.db.teams + [Team(teamId, name)] && after.inviters == st.inviters
    && after.db.memberSeq == st.db.memberSeq && after.db.teamSeq == st.db.teamSeq
  }

  lemma RosterAfter(s: Settings, st: State, k: nat, r: Reply)
    requires Enabled(st, Advance(k, r))
    ensures var op := st.flights[k].op;
            var after := Step(s, st, Advance(k, r));
            if op.InviteInsert? && Lands(op, r) && !IsMember(st.db, op.invite.userId, op.invite.teamId) then
              Joins(st, after, op.invite, r.newId)
            else if op.TeamCommit? && Lands(op, r) then
              Appears(st, after, op.name, op.userId, op.teamId, op.memberId)
            else
              OnlyCounters(st, after)
    ensures var op := st.flights[k].op;
            var after := Step(s, st, Advance(k, r));
            && (after.flights[k].op.OwnerInsert? ==>
                  op.TeamInsert? && after.flights[k].op.teamId == r.newId == after.db.teamSeq
                      && r.newId > st.db.teamSeq)
            && (after.flights[k].op.TeamCommit? ==>
                  && op.OwnerInsert? && after.flights[k].op.teamId == op.teamId
                  && after.flights[k].op.memberId == r.newId == after.db.memberSeq && r.newId > st.db.memberSeq)
  {
    hide CacheAfter, SpansAfter, UpdateRows, Read, IsMember, CountsAsAffected, GoesOn;
    if !Writes(st.flights[k].op) {
      ReadIsNotPending(st, st.flights[k].op, r.fault);
    }
  }

  lemma ReadIsNotPending(st: State, op: Op, fault: Fault)
    requires !Writes(op)
    ensures !Pending(Read(st, op, fault))
  {}

  /** Nothing but counters changed: the teams are as sound as they were. */
  lemma CountersMoveOn(st: State, after: State)
    requires TeamsSound(st) && OnlyCounters(st, after)
    ensures TeamsSound(after)
  {
    assert Extends(st, after);
    forall m | m in after.db.members
      ensures Originates(after, m) && HasFounder(after, m.teamId)
    {
      OriginLater(st, after, m);
      FounderLater(st, after, m.teamId);
    }
    forall t | t in after.db.teams
      ensures HasFounder(after, t.id)
    {
      FounderLater(st, after, t.id);
    }
    forall a, b | Founder(after, a) && Founder(after, b) && a.teamId == b.teamId
      ensures a == b
    {
      assert Founder(st, a) && Founder(st, b);
    }
  }

  /** An invited member joins: the inviter's row was there when the check was made, and is still. */
  lemma InviteeJoins(st: State, after: State, inp: Operations.InviteInput, newId: int)
    requires TeamsSound(st) && CanInvite(st.db, inp.teamId, inp.inviterUserId)
    requires !IsMember(st.db, inp.userId, inp.teamId) && Joins(st, after, inp, newId)
    ensures TeamsSound(after)
  {
    hide IsMember, CanInvite, Originates, HasFounder, RowsDistinct, Extends, Founder, InvitedBy;
    var m := Member(newId, inp.teamId, inp.userId, inp.role);
    JoinExtends(st, after, inp, newId);
    InviteeOriginates(st, after, inp, newId);
    NotTaken(st.db, inp.userId, inp.teamId);
    MemberAppended(st.db, after.db, m);
    NewMemberSound(st, after, m);
    InvitedIsNoFounder(st, after, m);
    TeamsKeepFounders(st, after);
  }

  lemma JoinExtends(st: State, after: State, inp: Operations.InviteInput, newId: int)
    requires TeamsSound(st) && Joins(st, after, inp, newId)
    ensures Extends(st, after)
  {
    hide Originates, HasFounder, RowsDistinct, Founder;
  }

  lemma TeamsKeepFounders(st: State, after: State)
    requires Extends(st, after) && after.db.teams == st.db.teams
    requires forall t :: t in st.db.teams ==> HasFounder(st, t.id)
    ensures forall t :: t in after.db.teams ==> HasFounder(after, t.id)
  {
    hide Extends, HasFounder;
    forall t | t in after.db.teams
      ensures HasFounder(after, t.id)
    {
      FounderLater(st, after, t.id);
    }
  }

  lemma InvitedIsNoFounder(st: State, after: State, m: Member)
    requires Extends(st, after) && after.db.members == st.db.members + [m] && m.id in after.inviters
    ensures forall a :: Founder(after, a) ==> Founder(st, a)
  {}

  lemma NotTaken(db: Db, userId: int, teamId: int)
    requires !IsMember(db, userId, teamId)
    ensures forall o :: o in db.members ==> !(o.teamId == teamId && o.userId == userId)
  {}

  lemma InviteeOriginates(st: State, after: State, inp: Operations.InviteInput, newId: int)
    requires TeamsSound(st) && CanInvite(st.db, inp.teamId, inp.inviterUserId) && newId > st.db.memberSeq
    requires var m := Member(newId, inp.teamId, inp.userId, inp.role);
             after.db.members == st.db.members + [m] && after.inviters == st.inviters[newId := inp.inviterUserId]
    requires Extends(st, after)
    ensures Originates(after, Member(newId, inp.teamId, inp.userId, inp.role))
    ensures HasFounder(after, inp.teamId) && inp.teamId <= st.db.teamSeq
  {
    var m := Member(newId, inp.teamId, inp.userId, inp.role);
    var p :| p in st.db.members && p.teamId == inp.teamId && p.userId == inp.inviterUserId && Privileged(p);
    assert InvitedBy(after, m, p);
    assert HasFounder(st, p.teamId);
    FounderLater(st, after, p.teamId);
  }

  lemma NewMemberSound(st: State, after: State, m: Member)
    requires TeamsSound(st) && Extends(st, after) && after.db.members == st.db.members + [m]
    requires Originates(after, m)
    ensures forall o :: o in after.db.members ==> Originates(after, o)
    ensures forall o :: o in st.db.members ==> HasFounder(after, o.teamId)
  {
    forall o | o in st.db.members
      ensures Originates(after, o) && HasFounder(after, o.teamId)
    {
      OriginLater(st, after, o);
      FounderLater(st, after, o.teamId);
    }
  }

  /** A committed team appears with its founder, the only one it will ever have. */
  lemma TeamAppears(st: State, after: State, name: string, userId: int, teamId: int, memberId: int)
    requires TeamsSound(st) && Reserved(st, TeamCommit(name, userId, teamId, memberId))
    requires Appears(st, after, name, userId, teamId, memberId)
    ensures TeamsSound(after)
  {
    var m := Member(memberId, teamId, userId, OWNER);
    assert m in after.db.members;
    MemberAppended(st.db, after.db, m);
    assert Extends(st, after);
    NewMemberSound(st, after, m);
    assert Founder(after, m);
    forall t | t in after.db.teams
      ensures HasFounder(after, t.id)
    {
      if t in st.db.teams {
        FounderLater(st, after, t.id);
      }
    }
    forall a, b | Founder(after, a) && Founder(after, b) && a.teamId == b.teamId
      ensures a == b
    {
      assert a != m ==> Founder(st, a);
      assert b != m ==> Founder(st, b);
    }
  }

  lemma AdvanceKeepsTeams(s: Settings, st: State, k: nat, r: Reply)
    requires Provenance(st) && AllGuarded(st) && Enabled(st, Advance(k, r))
    ensures TeamsSound(Step(s, st, Advance(k, r)))
  {
    hide TeamsSound, Guarded, Reserved, Step, Enabled, Joins, Appears, OnlyCounters, IsMember, CanInvite, Lands;
    FlightMoves(st, k, r);
    var op := st.flights[k].op;
    var after := Step(s, st, Advance(k, r));
    assert Checked(st.db, op) && Reserved(st, op);
    RosterAfter(s, st, k, r);
    if op.InviteInsert? && Lands(op, r) && !IsMember(st.db, op.invite.userId, op.invite.teamId) {
      InviteeJoins(st, after, op.invite, r.newId);
    } else if op.TeamCommit? && Lands(op, r) {
      TeamAppears(st, after, op.name, op.userId, op.teamId, op.memberId);
    } else {
      CountersMoveOn(st, after);
    }
  }

  /** What another flight's step does to ids a flight has reserved. */
  lemma ReservedLater(s: Settings, st: State, k: nat, r: Reply, op: Op)
    requires Provenance(st) && AllGuarded(st) && Enabled(st, Advance(k, r))
    requires Reserved(st, op) && Apart(st.flights[k].op, op)
    ensures Reserved(Step(s, st, Advance(k, r)), op)
  {
    hide Step, Enabled, CanInvite, IsMember, TeamsSound, Guarded, Lands;
    FlightMoves(st, k, r);
    var mover := st.flights[k].op;
    assert Checked(st.db, mover);
    hide Provenance, AllGuarded;
    RosterAfter(s, st, k, r);
    if mover.InviteInsert? && Pending(op) {
      InvitesElsewhere(st, mover.invite, op);
    }
  }

  /** Nobody can be invited to a team that is not committed. */
  lemma InvitesElsewhere(st: State, inp: Operations.InviteInput, op: Op)
    requires CanInvite(st.db, inp.teamId, inp.inviterUserId) && Reserved(st, op) && Pending(op)
    ensures inp.teamId != op.teamId
  {}

  lemma MovedReserved(s: Settings, st: State, k: nat, r: Reply)
    requires Provenance(st) && Enabled(st, Advance(k, r))
    ensures var after := Step(s, st, Advance(k, r)); Reserved(after, after.flights[k].op)
  {
    hide Step, Enabled, IsMember, Lands, RowsDistinct, Originates, HasFounder, Founder;
    FlightMoves(st, k, r);
    assert Reserved(st, st.flights[k].op) && TeamsSound(st);
    hide Provenance;
    RosterAfter(s, st, k, r);
  }

  lemma MovedApart(s: Settings, st: State, k: nat, r: Reply, other: Op)
    requires Enabled(st, Advance(k, r)) && Reserved(st, other) && Apart(st.flights[k].op, other)
    ensures Apart(Step(s, st, Advance(k, r)).flights[k].op, other)
  {
    hide Step, Enabled, IsMember, Lands;
    FlightMoves(st, k, r);
    RosterAfter(s, st, k, r);
  }

  lemma AdvanceProvenance(s: Settings, st: State, k: nat, r: Reply)
    requires Provenance(st) && AllGuarded(st) && Enabled(st, Advance(k, r))
    ensures Provenance(Step(s, st, Advance(k, r)))
  {
    hide Step, Enabled, Reserved, Apart, TeamsSound, AllGuarded;
    FlightMoves(st, k, r);
    var op := st.flights[k].op;
    var after := Step(s, st, Advance(k, r));
    OnlyMoves(s, st, k, r);
    AdvanceKeepsTeams(s, st, k, r);
    MovedReserved(s, st, k, r);
    forall j | j in after.flights
      ensures Reserved(after, after.flights[j].op)
      ensures j != k ==> Apart(after.flights[k].op, after.flights[j].op)
    {
      if j != k {
        ReservedLater(s, st, k, r, st.flights[j].op);
        MovedApart(s, st, k, r, st.flights[j].op);
      }
    }
    forall i, j | i in after.flights && j in after.flights && i != j
      ensures Apart(after.flights[i].op, after.flights[j].op)
    {
      if j == k {
        ApartBothWays(after.flights[k].op, after.flights[i].op);
      }
    }
  }

  lemma ApartBothWays(a: Op, b: Op)
    requires Apart(a, b)
    ensures Apart(b, a)
  {}

  lemma SameTeams(st: State, after: State)
    requires Provenance(st) && after.db == st.db && after.inviters == st.inviters
    requires forall k :: k in after.flights ==>
               (k in st.flights && after.flights[k] == st.flights[k]) || !Pending(after.flights[k].op)
    ensures Provenance(after)
  {
    assert OnlyCounters(st, after);
    CountersMoveOn(st, after);
    hide TeamsSound;
  }

  lemma {:induction false} ProvenanceHolds(s: Settings, events: seq<Event>)
    requires Legal(s, events)
    ensures Provenance(Replay(s, events))
  {
    if events != [] {
      hide Provenance, AllGuarded, Enabled;
      var st, e := Replay(s, events[..|events| - 1]), events[|events| - 1];
      ProvenanceHolds(s, events[..|events| - 1]);
      GuardsHold(s, events[..|events| - 1]);
      match e {
        case Advance(k, r) => AdvanceProvenance(s, st, k, r);
        case _ => OtherProvenance(s, st, e);
      }
    } else {
      NobodyYet();
    }
  }

  lemma NobodyYet()
    ensures Provenance(START)
  {}

  lemma OtherProvenance(s: Settings, st: State, e: Event)
    requires Provenance(st) && !e.Advance? && Enabled(st, e)
    ensures Provenance(Step(s, st, e))
  {
    hide Provenance;
    SameTeams(st, Step(s, st, e));
  }

  /** In every reachable state: every team has a founding owner; a user has one row per team; and every
      other member was invited by someone whose row is older and whose role allows it. */
  lemma MembershipProvenance(s: Settings, events: seq<Event>)
    requires Legal(s, events)
    ensures var st := Replay(s, events);
            && EveryTeamOwned(st.db)
            && (forall a, b :: a in st.db.members && b in st.db.members && a.teamId == b.teamId && a.userId == b.userId
                  ==> a == b)
            && (forall m :: m in st.db.members && !Founder(st, m) ==>
                  exists p :: InvitedBy(st, m, p) && (p.role == "owner" || p.role == "admin"))
  {
    hide Legal, Replay, Founder, InvitedBy;
    ProvenanceHolds(s, events);
    var st := Replay(s, events);
    TeamsOwned(st);
    OneRowEach(st);
    InvitersPrivileged(st);
  }

  lemma TeamsOwned(st: State)
    requires TeamsSound(st)
    ensures EveryTeamOwned(st.db)
  {
    hide RowsDistinct, Originates, InvitedBy;
    forall t | t in st.db.teams
      ensures exists m :: m in st.db.members && m.teamId == t.id && m.role == OWNER
    {
      var m :| Founder(st, m) && m.teamId == t.id;
    }
  }

  lemma OneRowEach(st: State)
    requires TeamsSound(st)
    ensures forall a, b :: a in st.db.members && b in st.db.members && a.teamId == b.teamId && a.userId == b.userId ==>
              a == b
  {
    hide Originates, InvitedBy, Founder, HasFounder;
    forall a, b | a in st.db.members && b in st.db.members && a.teamId == b.teamId && a.userId == b.userId
      ensures a == b
    {
      var i :| 0 <= i < |st.db.members| && st.db.members[i] == a;
      var j :| 0 <= j < |st.db.members| && st.db.members[j] == b;
    }
  }

  lemma InvitersPrivileged(st: State)
    requires TeamsSound(st)
    ensures forall m :: m in st.db.members && !Founder(st, m) ==>
              exists p :: InvitedBy(st, m, p) && (p.role == "owner" || p.role == "admin")
  {
    hide RowsDistinct, HasFounder;
    forall m | m in st.db.members && !Founder(st, m)
      ensures exists p :: InvitedBy(st, m, p) && (p.role == "owner" || p.role == "admin")
    {
      assert Originates(st, m);
      var p :| InvitedBy(st, m, p);
    }
  }

  /** A chain of rows, each invited by the next. */
  ghost predicate InviteChain(st: State, chain: seq<Member>) {
    forall i :: 0 <= i < |chain| - 1 ==> InvitedBy(st, chain[i], chain[i + 1])
  }

  lemma {:induction false} ChainFrom(st: State, m: Member) returns (chain: seq<Member>)
    requires TeamsSound(st) && m in st.db.members
    requires forall o :: o in st.db.members ==> o.id > 0
    ensures chain != [] && chain[0] == m && InviteChain(st, chain)
    ensures Founder(st, chain[|chain| - 1]) && chain[|chain| - 1].teamId == m.teamId
    decreases m.id
  {
    assert Originates(st, m);
    if m.id !in st.inviters {
      return [m];
    }
    var p :| InvitedBy(st, m, p);
    hide InviteChain;
    var rest := ChainFrom(st, p);
    chain := [m] + rest;
    ChainCons(st, m, rest);
  }

  lemma ChainCons(st: State, m: Member, rest: seq<Member>)
    requires rest != [] && InvitedBy(st, m, rest[0]) && InviteChain(st, rest)
    ensures InviteChain(st, [m] + rest)
  {
    var chain := [m] + rest;
    forall i | 0 <= i < |chain| - 1
      ensures InvitedBy(st, chain[i], chain[i + 1])
    {
      if i > 0 {
        assert chain[i] == rest[i - 1] && chain[i + 1] == rest[i - 1 + 1];
      }
    }
  }

  ghost predicate IdsPositive(st: State) {
    && st.db.memberSeq >= 0
    && (forall m :: m in st.db.members ==> m.id > 0)
    && (forall k :: k in st.flights && st.flights[k].op.TeamCommit? ==> st.flights[k].op.memberId > 0)
  }

  lemma {:induction false} MemberIdsPositive(s: Settings, events: seq<Event>)
    requires Legal(s, events)
    ensures IdsPositive(Replay(s, events))
  {
    if events != [] {
      var st, e := Replay(s, events[..|events| - 1]), events[|events| - 1];
      MemberIdsPositive(s, events[..|events| - 1]);
      if e.Advance? {
        AdvancePositive(s, st, e.flight, e.reply);
      }
    }
  }

  lemma AdvancePositive(s: Settings, st: State, k: nat, r: Reply)
    requires Enabled(st, Advance(k, r)) && IdsPositive(st)
    ensures IdsPositive(Step(s, st, Advance(k, r)))
  {
    hide Step, Enabled, IsMember, Lands;
    FlightMoves(st, k, r);
    OnlyMoves(s, st, k, r);
    RosterAfter(s, st, k, r);
  }

  /** Every membership goes back, inviter by inviter, to the one founder of its team. */
  lemma InvitationsEndAtTheFounder(s: Settings, events: seq<Event>, m: Member) returns (chain: seq<Member>)
    requires Legal(s, events) && m in Replay(s, events).db.members
    ensures var st := Replay(s, events);
            && chain != [] && chain[0] == m && InviteChain(st, chain)
            && Founder(st, chain[|chain| - 1]) && chain[|chain| - 1].teamId == m.teamId
            && forall f :: Founder(st, f) && f.teamId == m.teamId ==> f == chain[|chain| - 1]
  {
    ProvenanceHolds(s, events);
    MemberIdsPositive(s, events);
    chain := ChainFrom(Replay(s, events), m);
  }

  lemma {:induction false} MembersStay(s: Settings, events: seq<Event>, i: nat, m: Member)
    requires Legal(s, events) && i <= |events|
    ensures Legal(s, events[..i])
    ensures m in Replay(s, events[..i]).db.members ==> m in Replay(s, events).db.members
    decreases |events|
  {
    if i == |events| {
      assert events[..i] == events;
    } else {
      var init := events[..|events| - 1];
      assert init[..i] == events[..i];
      MembersStay(s, init, i, m);
      StepGrows(s, Replay(s, init), events[|events| - 1]);
    }
  }

  /** A role, once given, never changes: whatever row a user has in a team at one point of a run is the
      row that user has in that team at every later point. */
  lemma RolesAreForLife(s: Settings, events: seq<Event>, i: nat, a: Member, b: Member)
    requires Legal(s, events) && i <= |events|
    requires Legal(s, events[..i]) && a in Replay(s, events[..i]).db.members
    requires b in Replay(s, events).db.members && a.teamId == b.teamId && a.userId == b.userId
    ensures a == b
  {
    MembersStay(s, events, i, a);
    MembershipProvenance(s, events);
  }

  // ---------------------------------------------------------------------------
  // Who is a member

  /** A transaction that founds the team for the user commits. */
  ghost predicate Founds(st: State, e: Event, userId: int, teamId: int) {
    && e.Advance? && e.flight in st.flights && !e.reply.fault.LostBefore?
    && var op := st.flights[e.flight].op;
       op.TeamCommit? && op.userId == userId && op.teamId == teamId
  }

  /** The INSERT of an invitation of the user to the team takes effect, or meets a row that is there already. */
  ghost predicate Invites(st: State, e: Event, userId: int, teamId: int) {
    && e.Advance? && e.flight in st.flights && !e.reply.fault.LostBefore?
    && var op := st.flights[e.flight].op;
       op.InviteInsert? && op.invite.userId == userId && op.invite.teamId == teamId
  }

  /** The row such a step adds, with each column. */
  ghost predicate Adds(st: State, e: Event, m: Member) {
    || (Founds(st, e, m.userId, m.teamId)
        && m.id == st.flights[e.flight].op.memberId && m.role == "owner")
    || (Invites(st, e, m.userId, m.teamId)
        && m.id == e.reply.newId && m.role == st.flights[e.flight].op.invite.role
        && forall o :: o in st.db.members ==> !(o.userId == m.userId && o.teamId == m.teamId))
  }

  lemma RowsAfter(s: Settings, st: State, e: Event)
    requires Enabled(st, e)
    ensures forall m :: m in Step(s, st, e).db.members <==> m in st.db.members || Adds(st, e, m)
  {
    if e.Advance? {
      hide Step, Enabled;
      FlightMoves(st, e.flight, e.reply);
      RosterAfter(s, st, e.flight, e.reply);
    }
  }

  lemma MembersAfter(s: Settings, st: State, e: Event, userId: int, teamId: int)
    requires Enabled(st, e)
    ensures CallOutcomes.OnRoster(Step(s, st, e).db, userId, teamId) <==>
              CallOutcomes.OnRoster(st.db, userId, teamId) || Founds(st, e, userId, teamId) || Invites(st, e, userId,
                  teamId)
  {
    hide Step, Enabled;
    RowsAfter(s, st, e);
    var after := Step(s, st, e);
    if Founds(st, e, userId, teamId) {
      assert Adds(st, e, Member(st.flights[e.flight].op.memberId, teamId, userId, "owner"));
    } else if Invites(st, e, userId, teamId) && !CallOutcomes.OnRoster(st.db, userId, teamId) {
      assert Adds(st, e, Member(e.reply.newId, teamId, userId, st.flights[e.flight].op.invite.role));
    }
    if CallOutcomes.OnRoster(st.db, userId, teamId) {
      var m :| m in st.db.members && m.userId == userId && m.teamId == teamId;
      assert m in after.db.members;
    }
  }

  /** The members table holds, at the end of any run, exactly the rows that founding transactions and invitations
      of the run have added. */
  lemma {:induction false} RowsByRun(s: Settings, events: seq<Event>, m: Member)
    requires Legal(s, events)
    ensures m in Replay(s, events).db.members <==>
              exists i :: 0 <= i < |events| && Adds(At(s, events, i), events[i], m)
    decreases |events|
  {
    if events != [] {
      hide Step, Enabled, Adds;
      var init, e := events[..|events| - 1], events[|events| - 1];
      var st := Replay(s, init);
      RowsByRun(s, init, m);
      RowsAfter(s, st, e);
      SameBefore(s, events);
      if i :| 0 <= i < |init| && Adds(At(s, init, i), init[i], m) {
        assert At(s, events, i) == At(s, init, i) && events[i] == init[i];
      }
    }
  }

  lemma SameBefore(s: Settings, events: seq<Event>)
    requires Legal(s, events) && events != []
    ensures var init := events[..|events| - 1];
            && At(s, events, |init|) == Replay(s, init)
            && forall i :: 0 <= i < |init| ==> At(s, events, i) == At(s, init, i) && events[i] == init[i]
  {}

  /** A user is a member of a team, at the end of any run, if and only if in the run a transaction that founds the
      team for that user has committed or an invitation of that user to the team has reached the table. */
  lemma {:induction false} MembersByRun(s: Settings, events: seq<Event>, userId: int, teamId: int)
    requires Legal(s, events)
    ensures (exists m :: m in Replay(s, events).db.members && m.userId == userId && m.teamId == teamId) <==>
              exists i :: 0 <= i < |events|
                && (Founds(At(s, events, i), events[i], userId, teamId)
                    || Invites(At(s, events, i), events[i], userId, teamId))
    ensures IsMember(Replay(s, events).db, userId, teamId)
            <==> CallOutcomes.OnRoster(Replay(s, events).db, userId, teamId)
    decreases |events|
  {
    if events != [] {
      hide Step, Enabled, Founds, Invites;
      var init, e := events[..|events| - 1], events[|events| - 1];
      var st := Replay(s, init);
      MembersByRun(s, init, userId, teamId);
      MembersAfter(s, st, e, userId, teamId);
      SameBefore(s, events);
      if i :| 0 <= i < |init| && (Founds(At(s, init, i), init[i], userId, teamId)
                                  || Invites(At(s, init, i), init[i], userId, teamId)) {
        assert At(s, events, i) == At(s, init, i) && events[i] == init[i];
      }
    }
  }
}
