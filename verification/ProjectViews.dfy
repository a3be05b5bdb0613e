/** The two views of a project, its workspace and its summary, and the role a session has in it. */
module ProjectViews {
  import opened Wrappers
  import opened OperatorLedger
  import opened LedgerSafety
  import opened LedgerTheorems

  /** Where a project's workspace shows one of its agents. */
  datatype Place = AsDirector | AsOperator | AsRetired | AsActive

  datatype Workspace = Workspace(director: Option<Agent>, operators: seq<(Grant, Agent)>,
                                 active: seq<Agent>, retired: seq<Agent>)

  datatype Summary = Summary(operatorCount: nat, activeCount: nat, retiredCount: nat)

  datatype AccessRole = PrimaryDirector | AgentOperator

  /** The keys of the agent table in table order. */
  ghost predicate Lists(order: seq<SessionId>, agents: map<SessionId, Agent>) {
    && (forall i, j :: 0 <= i < j < |order| ==> order[i] != order[j])
    && (forall k :: k in order <==> k in agents)
  }

  function PlaceOf(s: Snapshot, authority: Authority, a: Agent): Place {
    if a.session == authority.director then AsDirector
    else if a.session in Operators(s.ledger, authority.project) then AsOperator
    else if a.retiredAt.Some? then AsRetired
    else AsActive
  }

  /** The project's agents that belong in one place, in table order. */
  function Members(s: Snapshot, authority: Authority, order: seq<SessionId>, place: Place): seq<Agent>
    requires forall k :: k in order ==> k in s.agents
  {
    if order == [] then []
    else
      var a := s.agents[order[|order| - 1]];
      var before := Members(s, authority, order[..|order| - 1], place);
      if a.project == authority.project && PlaceOf(s, authority, a) == place then before + [a] else before
  }

  function Last<T>(xs: seq<T>): Option<T> {
    if xs == [] then None else Some(xs[|xs| - 1])
  }

  lemma {:induction false} MembersBelong(s: Snapshot, authority: Authority, order: seq<SessionId>, place: Place)
    requires forall k :: k in order ==> k in s.agents
    ensures forall a :: a in Members(s, authority, order, place) ==>
              a.project == authority.project && PlaceOf(s, authority, a) == place
  {
    if order != [] {
      MembersBelong(s, authority, order[..|order| - 1], place);
    }
  }

  /** The workspace of a project, filled in one pass over the agents. */
  method ProjectWorkspace(s: Snapshot, authority: Authority, order: seq<SessionId>) returns (w: Workspace)
    requires Lists(order, s.agents)
    ensures w.director == Last(Members(s, authority, order, AsDirector))
    ensures |w.operators| == |Members(s, authority, order, AsOperator)|
    ensures forall i :: 0 <= i < |w.operators| ==>
              var a := Members(s, authority, order, AsOperator)[i];
              && w.operators[i].1 == a && a.session in Operators(s.ledger, authority.project)
              && w.operators[i].0 == Operators(s.ledger, authority.project)[a.session]
    ensures w.active == Members(s, authority, order, AsActive)
    ensures w.retired == Members(s, authority, order, AsRetired)
  {
    var p := authority.project;
    var director: Option<Agent> := None;
    var operators: seq<(Grant, Agent)> := [];
    var active, retired := [], [];
    for i := 0 to |order|
      invariant director == Last(Members(s, authority, order[..i], AsDirector))
      invariant |operators| == |Members(s, authority, order[..i], AsOperator)|
      invariant forall j :: 0 <= j < |operators| ==>
                  var a := Members(s, authority, order[..i], AsOperator)[j];
                  && operators[j].1 == a && a.session in Operators(s.ledger, p)
                  && operators[j].0 == Operators(s.ledger, p)[a.session]
      invariant active == Members(s, authority, order[..i], AsActive)
      invariant retired == Members(s, authority, order[..i], AsRetired)
    {
      assert order[..i + 1][..i] == order[..i];
      var agent := s.agents[order[i]];
      if agent.project == p {
        if agent.session == authority.director {
          director := Some(agent);
        } else if agent.session in Operators(s.ledger, p) {
          operators := operators + [(Operators(s.ledger, p)[agent.session], agent)];
        } else if agent.retiredAt.Some? {
          retired := retired + [agent];
        } else {
          active := active + [agent];
        }
      }
    }
    assert order[..|order|] == order;
    return Workspace(director, operators, active, retired);
  }

  /** The summary of a project, counted in its own pass over the agents. */
  method ProjectSummary(s: Snapshot, authority: Authority, order: seq<SessionId>) returns (r: Summary)
    requires Lists(order, s.agents)
    ensures r.activeCount == |Members(s, authority, order, AsActive)|
    ensures r.retiredCount == |Members(s, authority, order, AsRetired)|
    ensures r.operatorCount == |Operators(s.ledger, authority.project)|
  {
    var active, retired := 0, 0;
    for i := 0 to |order|
      invariant active == |Members(s, authority, order[..i], AsActive)|
      invariant retired == |Members(s, authority, order[..i], AsRetired)|
    {
      assert order[..i + 1][..i] == order[..i];
      var agent := s.agents[order[i]];
      if agent.project != authority.project {
        continue;
      }
      if agent.session == authority.director {
        continue;
      }
      if agent.session in Operators(s.ledger, authority.project) {
        continue;
      }
      if agent.retiredAt.Some? {
        retired := retired + 1;
      } else {
        active := active + 1;
      }
    }
    assert order[..|order|] == order;
    return Summary(|Operators(s.ledger, authority.project)|, active, retired);
  }

  // ---------------------------------------------------------------- the partition

  lemma {:induction false} MembersAre(s: Snapshot, authority: Authority, order: seq<SessionId>, place: Place, a: Agent)
    requires AgentsKeyed(s.agents) && forall k :: k in order ==> k in s.agents
    ensures a in Members(s, authority, order, place) <==>
              && a.session in order && s.agents[a.session] == a
              && a.project == authority.project && PlaceOf(s, authority, a) == place
  {
    if order != [] {
      var n := |order| - 1;
      MembersAre(s, authority, order[..n], place, a);
      assert forall k :: k in order <==> k in order[..n] || k == order[n];
    }
  }

  predicate DistinctSessions(ms: seq<Agent>) {
    forall i, j :: 0 <= i < j < |ms| ==> ms[i].session != ms[j].session
  }

  lemma {:induction false} MembersAreDistinct(s: Snapshot, authority: Authority, order: seq<SessionId>, place: Place)
    requires AgentsKeyed(s.agents) && forall k :: k in order ==> k in s.agents
    requires forall i, j :: 0 <= i < j < |order| ==> order[i] != order[j]
    ensures DistinctSessions(Members(s, authority, order, place))
  {
    if order != [] {
      var n := |order| - 1;
      MembersAreDistinct(s, authority, order[..n], place);
      var before := Members(s, authority, order[..n], place);
      forall i | 0 <= i < |before| ensures before[i].session != order[n] {
        MembersAre(s, authority, order[..n], place, before[i]);
      }
    }
  }

  /** How many times an agent is in a place. */
  function Times(s: Snapshot, authority: Authority, order: seq<SessionId>, place: Place, a: Agent): nat
    requires forall k :: k in order ==> k in s.agents
  {
    multiset(Members(s, authority, order, place))[a]
  }

  lemma DistinctCountsOnce(ms: seq<Agent>, a: Agent)
    requires DistinctSessions(ms)
    ensures multiset(ms)[a] == if a in ms then 1 else 0
  {
    if a in ms {
      var i :| 0 <= i < |ms| && ms[i] == a;
      assert ms == ms[..i] + [a] + ms[i + 1..];
      assert a !in ms[..i] && a !in ms[i + 1..];
    }
  }

  /** Each agent of a project is in exactly one of the four places, exactly once; no other agent is in any. */
  lemma EachAgentInOnePlace(s: Snapshot, authority: Authority, order: seq<SessionId>, a: Agent)
    requires AgentsKeyed(s.agents) && Lists(order, s.agents)
    ensures var belongs := a.session in s.agents && s.agents[a.session] == a && a.project == authority.project;
            forall place :: Times(s, authority, order, place, a) ==
                            if belongs && PlaceOf(s, authority, a) == place then 1 else 0
    ensures |Members(s, authority, order, AsDirector)| <= 1
  {
    forall place ensures Times(s, authority, order, place, a) ==
                         if a.session in s.agents && s.agents[a.session] == a && a.project == authority.project
                            && PlaceOf(s, authority, a) == place then 1 else 0 {
      MembersAre(s, authority, order, place, a);
      MembersAreDistinct(s, authority, order, place);
      DistinctCountsOnce(Members(s, authority, order, place), a);
    }
    MembersAreDistinct(s, authority, order, AsDirector);
    MembersBelong(s, authority, order, AsDirector);
    var ds := Members(s, authority, order, AsDirector);
    DistinctSessionsCount(ds);
    SubsetCount(Sessions(ds), {authority.director});
  }

  // ---------------------------------------------------------------- the operator count

  function Sessions(ms: seq<Agent>): set<SessionId> {
    set a | a in ms :: a.session
  }

  lemma {:induction false} DistinctSessionsCount(ms: seq<Agent>)
    requires DistinctSessions(ms)
    ensures |Sessions(ms)| == |ms|
  {
    if ms != [] {
      var n := |ms| - 1;
      DistinctSessionsCount(ms[..n]);
      assert Sessions(ms) == Sessions(ms[..n]) + {ms[n].session};
      assert ms[n].session !in Sessions(ms[..n]);
    } else {
      assert Sessions(ms) == {};
    }
  }

  lemma SubsetCount<T>(a: set<T>, b: set<T>)
    requires a <= b
    ensures |a| <= |b| && (|a| == |b| <==> a == b)
  {
    assert b == a + (b - a);
  }

  /** A grantee the workspace can show: an agent of the project other than its Director. */
  predicate Showable(s: Snapshot, authority: Authority, o: SessionId) {
    o in s.agents && s.agents[o].project == authority.project && o != authority.director
  }

  /**
   The summary counts at least the operators the workspace lists, and exactly those when and only when
   every grantee is an agent of the project other than its Director.
   */
  lemma OperatorCountExceedsList(s: Snapshot, authority: Authority, order: seq<SessionId>)
    requires AgentsKeyed(s.agents) && Lists(order, s.agents)
    ensures var listed := |Members(s, authority, order, AsOperator)|;
            var operators := Operators(s.ledger, authority.project);
            && listed <= |operators|
            && (listed == |operators| <==> forall o :: o in operators ==> Showable(s, authority, o))
  {
    var ms := Members(s, authority, order, AsOperator);
    var operators := Operators(s.ledger, authority.project);
    MembersAreDistinct(s, authority, order, AsOperator);
    DistinctSessionsCount(ms);
    forall o ensures o in Sessions(ms) <==> o in operators.Keys && Showable(s, authority, o) {
      if o in s.agents {
        MembersAre(s, authority, order, AsOperator, s.agents[o]);
      }
      if o in Sessions(ms) {
        var a :| a in ms && a.session == o;
        MembersAre(s, authority, order, AsOperator, a);
      }
    }
    SubsetCount(Sessions(ms), operators.Keys);
    assert |operators| == |operators.Keys|;
  }

  /** In every run the Director is no grantee, so the counts differ only by grantees of other projects or of none. */
  lemma OperatorCountInRuns(events: seq<(Event, Fault)>, p: ProjectId, order: seq<SessionId>)
    requires p in Run(EMPTY_SNAPSHOT, events).projects && Lists(order, Run(EMPTY_SNAPSHOT, events).agents)
    ensures var s := Run(EMPTY_SNAPSHOT, events);
            && AgentsKeyed(s.agents)
            && (|Members(s, s.projects[p], order, AsOperator)| == |Operators(s.ledger, p)| <==>
                  forall o :: o in Operators(s.ledger, p) ==> o in s.agents && s.agents[o].project == p)
  {
    EmptyInv();
    RunKeepsInv(EMPTY_SNAPSHOT, events);
    var s := Run(EMPTY_SNAPSHOT, events);
    OperatorCountExceedsList(s, s.projects[p], order);
    assert s.projects[p].director !in Operators(s.ledger, p);
  }

  // ---------------------------------------------------------------- access

  function Access(s: Snapshot, caller: SessionId, p: ProjectId): Result<AccessRole, Error> {
    if p !in s.projects then Err(ProjectNotAuthorized)
    else if s.projects[p].director == caller then Ok(PrimaryDirector)
    else if caller in Operators(s.ledger, p) && ActiveIn(s, caller, p) then Ok(AgentOperator)
    else Err(ProjectNotAuthorized)
  }

  /** The role the provider gives the same caller; it also checks what the grant says. */
  function ManagementRole(s: Snapshot, caller: SessionId, p: ProjectId): Result<AccessRole, Error> {
    if p !in s.projects then Err(ProjectNotAuthorized)
    else if s.projects[p].director == caller then Ok(PrimaryDirector)
    else if caller !in Operators(s.ledger, p) then Err(ProjectNotAuthorized)
    else
      var grant := Operators(s.ledger, p)[caller];
      if grant.project != p || grant.operator != caller then Err(InvalidStore)
      else if !ActiveIn(s, caller, p) then Err(ProjectNotAuthorized)
      else Ok(AgentOperator)
  }

  /** The projects view and the provider give every caller the same role, in every run. */
  lemma RolesAgree(events: seq<(Event, Fault)>, caller: SessionId, p: ProjectId)
    ensures var s := Run(EMPTY_SNAPSHOT, events); Access(s, caller, p) == ManagementRole(s, caller, p)
  {
    EmptyInv();
    RunKeepsInv(EMPTY_SNAPSHOT, events);
    var s := Run(EMPTY_SNAPSHOT, events);
    if caller in Operators(s.ledger, p) {
      GrantsAreKeyed(s.ledger, p, caller);
    }
  }

  /** A session acts as operator exactly when the workspace lists it as an operator that is not retired. */
  lemma OperatorsAreListed(s: Snapshot, p: ProjectId, order: seq<SessionId>, caller: SessionId)
    requires Inv(s) && Lists(order, s.agents) && p in s.projects
    ensures Access(s, caller, p) == Ok(AgentOperator) <==>
              exists a :: a in Members(s, s.projects[p], order, AsOperator) && a.session == caller && a.retiredAt.None?
  {
    if caller in s.agents {
      MembersAre(s, s.projects[p], order, AsOperator, s.agents[caller]);
    }
    forall a | a in Members(s, s.projects[p], order, AsOperator) && a.session == caller
      ensures caller in s.agents && a == s.agents[caller]
    {
      MembersAre(s, s.projects[p], order, AsOperator, a);
    }
  }

  /** A committed grant gives its operator access at once; a committed revoke takes it away. */
  lemma CommitDecidesAccess(s: Snapshot, r: HumanRequest, now: Time)
    requires Inv(s) && r.action !in s.humanActions && HumanAction(s, r, now).Ok?
    ensures var t := HumanAction(s, r, now).value.state;
            Access(t, r.operator, r.project) ==
              if r.change.GrantOperator? then Ok(AgentOperator) else Err(ProjectNotAuthorized)
  {
    CommitsExactlyWhen(s, r, now);
    HumanEffect(s, r, now);
  }

  // ---------------------------------------------------------------- the places and roles, field by field

  /** Who is where: the Director in its place whatever else it is, a grantee among the operators even when retired,
      and everybody else by whether it is retired. */
  lemma PlacesMean(s: Snapshot, authority: Authority, order: seq<SessionId>, a: Agent)
    requires AgentsKeyed(s.agents) && Lists(order, s.agents)
    ensures var mine := a.session in s.agents && s.agents[a.session] == a && a.project == authority.project;
            var granted := authority.project in s.ledger.grants && a.session in s.ledger.grants[authority.project];
            var director := a.session == authority.director;
            && (a in Members(s, authority, order, AsDirector) <==> mine && director)
            && (a in Members(s, authority, order, AsOperator) <==> mine && !director && granted)
            && (a in Members(s, authority, order, AsRetired) <==> mine && !director && !granted && a.retiredAt != None)
            && (a in Members(s, authority, order, AsActive) <==> mine && !director && !granted && a.retiredAt == None)
  {
    MembersAre(s, authority, order, AsDirector, a);
    MembersAre(s, authority, order, AsOperator, a);
    MembersAre(s, authority, order, AsRetired, a);
    MembersAre(s, authority, order, AsActive, a);
  }

  /** Each list keeps the order of the table: what comes from its first part comes first. */
  lemma {:induction false} ListsKeepOrder(s: Snapshot, authority: Authority, first: seq<SessionId>,
                                          second: seq<SessionId>, place: Place)
    requires forall k :: k in first || k in second ==> k in s.agents
    ensures Members(s, authority, first + second, place)
            == Members(s, authority, first, place) + Members(s, authority, second, place)
    decreases |second|
  {
    if second == [] {
      assert first + second == first;
    } else {
      var n := |second| - 1;
      ListsKeepOrder(s, authority, first, second[..n], place);
      assert (first + second)[..|first + second| - 1] == first + second[..n];
    }
  }

  /** Who may do what: the project's Director; a grantee that is an agent of the project and not retired; nobody
      else. */
  lemma AccessExactlyWhen(s: Snapshot, caller: SessionId, p: ProjectId)
    ensures Access(s, caller, p) == Ok(PrimaryDirector) <==> p in s.projects && s.projects[p].director == caller
    ensures Access(s, caller, p) == Ok(AgentOperator) <==>
              && p in s.projects && s.projects[p].director != caller
              && p in s.ledger.grants && caller in s.ledger.grants[p]
              && caller in s.agents && s.agents[caller].project == p && s.agents[caller].retiredAt == None
    ensures Access(s, caller, p).Err? ==> Access(s, caller, p).error == ProjectNotAuthorized
  {
  }
}
