/**
 Agent Bus target resolution, and the projection of durable session ids that is sent to peer hosts.

 The roster lists the registered agents, one per runtime id; the order is whatever the table gives.
 Whether a text has the form of a full durable id is a parameter (`full`).
 */
module Routing {
  import opened Wrappers

  datatype Agent = Agent(id: string, name: string, baseName: Option<string>, threadName: Option<string>,
                         sessionId: Option<string>, durableId: Option<string>, groups: seq<string>)

  datatype Session = Session(durableId: string, codexId: Option<string>, runtime: Option<string>,
                             generation: nat, active: bool)

  datatype Code = NotFound | Ambiguous | TargetUnavailable

  // ---------------------------------------------------------------- selecting

  predicate GroupsOverlap(left: seq<string>, right: seq<string>) {
    exists g :: g in left && g in right
  }

  datatype Criterion =
    | Named(target: string)
    | Aliased(target: string)
    | Durable(target: string)
    | SharesGroup(self: Option<string>, groups: seq<string>)

  predicate Meets(a: Agent, c: Criterion) {
    match c
    case Named(t) => a.name == t
    case Aliased(t) => a.baseName == Some(t) || a.threadName == Some(t) || a.sessionId == Some(t)
    case Durable(t) => a.durableId == Some(t)
    case SharesGroup(self, groups) => (self.Some? && a.id == self.value) || GroupsOverlap(a.groups, groups)
  }

  function Select(agents: seq<Agent>, c: Criterion): seq<Agent> {
    if agents == [] then []
    else (if Meets(agents[0], c) then [agents[0]] else []) + Select(agents[1..], c)
  }

  function Lookup(roster: seq<Agent>, id: string): (r: Option<Agent>)
    ensures r.Some? ==> r.value in roster && r.value.id == id
    ensures r.None? ==> forall i :: 0 <= i < |roster| ==> roster[i].id != id
  {
    if roster == [] then None
    else if roster[0].id == id then Some(roster[0])
    else Lookup(roster[1..], id)
  }

  function Visible(roster: seq<Agent>, requester: Option<string>, allGroups: bool): seq<Agent> {
    if allGroups || requester.None? then roster
    else
      match Lookup(roster, requester.value)
      case None => []
      case Some(self) => Select(roster, SharesGroup(requester, self.groups))
  }

  /** One match is the answer; none and many are errors. */
  function TheOnly(matches: seq<Agent>): Result<Agent, Code> {
    if |matches| == 1 then Ok(matches[0]) else if matches == [] then Err(NotFound) else Err(Ambiguous)
  }

  function ResolveVisible(visible: seq<Agent>, target: string): Result<Agent, Code> {
    var byName := Select(visible, Named(target));
    if byName == [] then TheOnly(Select(visible, Aliased(target))) else TheOnly(byName)
  }

  // ---------------------------------------------------------------- durable sessions

  /** Two absent session ids count as equal. */
  predicate MatchesSession(a: Agent, r: Session) {
    a.sessionId == Some(r.durableId) || r.codexId == a.sessionId
  }

  function RecordsNamed(sessions: seq<Session>, durableId: string): seq<Session> {
    if sessions == [] then []
    else (if sessions[0].durableId == durableId then [sessions[0]] else []) + RecordsNamed(sessions[1..], durableId)
  }

  predicate LiveClaim(a: Agent, r: Session) {
    r.active && r.generation > 0 && r.runtime == Some(a.id) && MatchesSession(a, r)
  }

  /** The live records that claim an agent's runtime. */
  function Claims(sessions: seq<Session>, a: Agent): seq<Session> {
    if sessions == [] then []
    else (if LiveClaim(a, sessions[0]) then [sessions[0]] else []) + Claims(sessions[1..], a)
  }

  function ResolveRecord(roster: seq<Agent>, visible: seq<Agent>, r: Session): Result<Agent, Code> {
    if r.runtime.None? || !r.active || r.generation == 0 then Err(TargetUnavailable)
    else
      match Lookup(roster, r.runtime.value)
      case None => Err(TargetUnavailable)
      case Some(a) =>
        if !MatchesSession(a, r) then Err(TargetUnavailable)
        else if Lookup(visible, a.id).None? then Err(NotFound)
        else Ok(a)
  }

  function ResolveDurable(roster: seq<Agent>, visible: seq<Agent>, target: string, sessions: seq<Session>)
    : Result<Agent, Code>
  {
    var records := RecordsNamed(sessions, target);
    if |records| == 1 then ResolveRecord(roster, visible, records[0])
    else if records != [] then Err(Ambiguous)
    else TheOnly(Select(visible, Durable(target)))
  }

  /** Resolution on the host that owns the roster and the session store. */
  function ResolveTarget(roster: seq<Agent>, sessions: seq<Session>, full: string -> bool, target: string,
                         sender: Option<string>, allGroups: bool): Result<string, Code>
  {
    var visible := Visible(roster, sender, allGroups);
    var resolved :=
      if RecordsNamed(sessions, target) != [] || full(target) then ResolveDurable(roster, visible, target, sessions)
      else if Lookup(roster, target).Some? then Ok(Lookup(roster, target).value)
      else ResolveVisible(visible, target);
    match resolved
    case Ok(a) => Ok(a.id)
    case Err(code) => Err(code)
  }

  /** Resolution on a peer, over a list of agents it was sent. */
  function ResolveFromList(agents: seq<Agent>, full: string -> bool, target: string,
                           senderGroups: Option<seq<string>>, allGroups: bool): Result<Agent, Code>
  {
    var exact := Lookup(agents, target);
    if exact.Some? then Ok(exact.value)
    else
      var visible := if allGroups || senderGroups.None? then agents
                     else Select(agents, SharesGroup(None, senderGroups.value));
      if full(target) then ResolveDurable([], visible, target, []) else ResolveVisible(visible, target)
  }

  // ---------------------------------------------------------------- projection

  /** An agent shows a durable id when exactly one live record claims its runtime, and that record is
      the only one with its id. */
  function ProjectAgent(a: Agent, sessions: seq<Session>): Agent {
    var claims := Claims(sessions, a);
    if |claims| == 1 && |RecordsNamed(sessions, claims[0].durableId)| == 1
    then a.(durableId := Some(claims[0].durableId))
    else a.(durableId := None)
  }

  function Project(agents: seq<Agent>, sessions: seq<Session>): seq<Agent> {
    seq(|agents|, i requires 0 <= i < |agents| => ProjectAgent(agents[i], sessions))
  }

  method ProjectInPlace(agents: array<Agent>, sessions: seq<Session>)
    modifies agents
    ensures agents[..] == Project(old(agents[..]), sessions)
  {
    for i := 0 to agents.Length
      invariant forall k :: 0 <= k < i ==> agents[k] == ProjectAgent(old(agents[k]), sessions)
      invariant forall k :: i <= k < agents.Length ==> agents[k] == old(agents[k])
    {
      var agent := agents[i].(durableId := None);
      ClaimsIgnoreShownId(sessions, agents[i], None);
      var claims := Claims(sessions, agent);
      if |claims| == 1 {
        var named := RecordsNamed(sessions, claims[0].durableId);
        if |named| == 1 {
          agent := agent.(durableId := Some(claims[0].durableId));
        }
      }
      agents[i] := agent;
    }
  }

  lemma {:induction false} ClaimsIgnoreShownId(sessions: seq<Session>, a: Agent, shown: Option<string>)
    ensures Claims(sessions, a.(durableId := shown)) == Claims(sessions, a)
  {
    if sessions != [] {
      ClaimsIgnoreShownId(sessions[1..], a, shown);
    }
  }

  predicate DistinctRuntimes(roster: seq<Agent>) {
    forall i, j :: 0 <= i < j < |roster| ==> roster[i].id != roster[j].id
  }

  // ---------------------------------------------------------------- lemmas on selections

  lemma {:induction false} RecordsNamedAre(sessions: seq<Session>, d: string, r: Session)
    ensures r in RecordsNamed(sessions, d) <==> r in sessions && r.durableId == d
  {
    if sessions != [] {
      RecordsNamedAre(sessions[1..], d, r);
      assert r in sessions <==> r == sessions[0] || r in sessions[1..];
    }
  }

  lemma {:induction false} ClaimsAre(sessions: seq<Session>, a: Agent, r: Session)
    ensures r in Claims(sessions, a) <==> r in sessions && LiveClaim(a, r)
  {
    if sessions != [] {
      ClaimsAre(sessions[1..], a, r);
      assert r in sessions <==> r == sessions[0] || r in sessions[1..];
    }
  }

  lemma LookupFindsThe(roster: seq<Agent>, i: nat)
    requires DistinctRuntimes(roster) && i < |roster|
    ensures Lookup(roster, roster[i].id) == Some(roster[i])
  {
    var found := Lookup(roster, roster[i].id);
    assert found.Some?;
  }

  /** At most one agent of a list meets a criterion. */
  predicate AtMostOne(agents: seq<Agent>, c: Criterion) {
    forall i, j :: 0 <= i < j < |agents| ==> !(Meets(agents[i], c) && Meets(agents[j], c))
  }

  lemma {:induction false} SelectedMeet(agents: seq<Agent>, c: Criterion, a: Agent)
    ensures a in Select(agents, c) <==> a in agents && Meets(a, c)
  {
    if agents != [] {
      SelectedMeet(agents[1..], c, a);
      assert a in agents <==> a == agents[0] || a in agents[1..];
    }
  }

  lemma {:induction false} SelectNone(agents: seq<Agent>, c: Criterion)
    requires forall a :: a in agents ==> !Meets(a, c)
    ensures Select(agents, c) == []
  {
    if agents != [] {
      assert agents[0] in agents;
      SelectNone(agents[1..], c);
    }
  }

  lemma {:induction false} SelectUnique(agents: seq<Agent>, c: Criterion)
    requires AtMostOne(agents, c)
    ensures |Select(agents, c)| <= 1
  {
    if agents != [] {
      assert AtMostOne(agents[1..], c) by {
        forall i, j | 0 <= i < j < |agents[1..]|
          ensures !(Meets(agents[1..][i], c) && Meets(agents[1..][j], c))
        {
          assert agents[1..][i] == agents[i + 1] && agents[1..][j] == agents[j + 1];
        }
      }
      SelectUnique(agents[1..], c);
      if Meets(agents[0], c) {
        forall a | a in agents[1..] ensures !Meets(a, c) {
          var k :| 0 <= k < |agents[1..]| && agents[1..][k] == a;
          assert agents[k + 1] == a;
        }
        SelectNone(agents[1..], c);
      }
    }
  }

  /** Selecting from a selection keeps uniqueness. */
  lemma {:induction false} SelectKeepsAtMostOne(agents: seq<Agent>, c: Criterion, d: Criterion)
    requires AtMostOne(agents, d)
    ensures AtMostOne(Select(agents, c), d)
  {
    if agents != [] {
      var rest := Select(agents[1..], c);
      assert AtMostOne(agents[1..], d) by {
        forall i, j | 0 <= i < j < |agents[1..]|
          ensures !(Meets(agents[1..][i], d) && Meets(agents[1..][j], d))
        {
          assert agents[1..][i] == agents[i + 1] && agents[1..][j] == agents[j + 1];
        }
      }
      SelectKeepsAtMostOne(agents[1..], c, d);
      forall j | 0 <= j < |rest| ensures !(Meets(agents[0], d) && Meets(rest[j], d)) {
        SelectedMeet(agents[1..], c, rest[j]);
        var k :| 0 <= k < |agents[1..]| && agents[1..][k] == rest[j];
        assert agents[k + 1] == rest[j];
      }
    }
  }

  // ---------------------------------------------------------------- the projection is sound

  /** What it means for agent `i` to show a durable id. */
  lemma ShownMeans(roster: seq<Agent>, sessions: seq<Session>, i: nat, d: string)
    requires i < |roster|
    ensures Project(roster, sessions)[i].durableId == Some(d) <==>
              && |Claims(sessions, roster[i])| == 1
              && Claims(sessions, roster[i])[0].durableId == d
              && |RecordsNamed(sessions, d)| == 1
  {}

  /** A shown id comes from the one record that has it, and the record claims the agent. */
  lemma ShownRecord(roster: seq<Agent>, sessions: seq<Session>, i: nat, d: string)
    requires i < |roster| && Project(roster, sessions)[i].durableId == Some(d)
    ensures |RecordsNamed(sessions, d)| == 1
    ensures RecordsNamed(sessions, d)[0] == Claims(sessions, roster[i])[0]
    ensures LiveClaim(roster[i], RecordsNamed(sessions, d)[0])
  {
    ShownMeans(roster, sessions, i, d);
    var r := Claims(sessions, roster[i])[0];
    ClaimsAre(sessions, roster[i], r);
    RecordsNamedAre(sessions, d, r);
  }

  /** No two agents show the same durable id. */
  lemma ShownIdsAreDistinct(roster: seq<Agent>, sessions: seq<Session>, d: string)
    requires DistinctRuntimes(roster)
    ensures AtMostOne(Project(roster, sessions), Durable(d))
  {
    var shown := Project(roster, sessions);
    forall i, j | 0 <= i < j < |shown| && Meets(shown[i], Durable(d)) && Meets(shown[j], Durable(d))
      ensures false
    {
      ShownRecord(roster, sessions, i, d);
      ShownRecord(roster, sessions, j, d);
    }
  }

  /** A shown id resolves on its own host to the agent that shows it, from every sender that can see the
      agent; to other senders it is not found. */
  lemma ShownIdResolvesLocally(roster: seq<Agent>, sessions: seq<Session>, full: string -> bool, i: nat, d: string,
                               sender: Option<string>, allGroups: bool)
    requires DistinctRuntimes(roster) && i < |roster| && Project(roster, sessions)[i].durableId == Some(d)
    ensures ResolveTarget(roster, sessions, full, d, sender, allGroups)
            == if Lookup(Visible(roster, sender, allGroups), roster[i].id).Some? then Ok(roster[i].id)
               else Err(NotFound)
    ensures allGroups ==> ResolveTarget(roster, sessions, full, d, sender, allGroups) == Ok(roster[i].id)
  {
    ShownRecord(roster, sessions, i, d);
    LookupFindsThe(roster, i);
  }

  /** The converse, exactly: an id with a record resolves to an agent, and only one live record claims that
      agent, if and only if the agent shows the id. */
  lemma ResolvesAndClaimedOnceIffShown(roster: seq<Agent>, sessions: seq<Session>, full: string -> bool, i: nat,
                                       d: string)
    requires DistinctRuntimes(roster) && i < |roster| && RecordsNamed(sessions, d) != []
    ensures ResolveTarget(roster, sessions, full, d, None, true) == Ok(roster[i].id)
              && |Claims(sessions, roster[i])| == 1
            <==> Project(roster, sessions)[i].durableId == Some(d)
  {
    if Project(roster, sessions)[i].durableId == Some(d) {
      ShownIdResolvesLocally(roster, sessions, full, i, d, None, true);
    }
    if ResolveTarget(roster, sessions, full, d, None, true) == Ok(roster[i].id) && |Claims(sessions, roster[i])| == 1 {
      var r := RecordsNamed(sessions, d)[0];
      LookupFindsThe(roster, i);
      RecordsNamedAre(sessions, d, r);
      ClaimsAre(sessions, roster[i], r);
    }
  }

  /** Two live records that claim one runtime hide its id from peers, while it still resolves at home. */
  lemma DoubleClaimHidesId()
    ensures var a := Agent("r", "n", None, None, Some("s"), None, []);
            var x, y := Session("d", Some("s"), Some("r"), 1, true), Session("e", Some("s"), Some("r"), 1, true);
            && ResolveTarget([a], [x, y], t => false, "d", None, true) == Ok("r")
            && Project([a], [x, y])[0].durableId == None
  {
    var a := Agent("r", "n", None, None, Some("s"), None, []);
    var x, y := Session("d", Some("s"), Some("r"), 1, true), Session("e", Some("s"), Some("r"), 1, true);
    assert [x, y][1..] == [y] && [y][1..] == [];
    assert "d"[0] != "e"[0];
    assert RecordsNamed([y], "d") == [] + RecordsNamed([], "d") == [];
    assert RecordsNamed([x, y], "d") == [x] + RecordsNamed([y], "d") == [x];
    assert Claims([y], a) == [y] + Claims([], a) == [y];
    assert Claims([x, y], a) == [x] + Claims([y], a) == [x, y];
  }

  // ---------------------------------------------------------------- the projection on peers

  lemma {:induction false} ListedOnce(agents: seq<Agent>, c: Criterion, i: nat)
    requires AtMostOne(agents, c) && i < |agents| && Meets(agents[i], c)
    ensures Select(agents, c) == [agents[i]]
  {
    SelectUnique(agents, c);
    SelectedMeet(agents, c, agents[i]);
  }

  /** On a peer, a shown id that looks like a durable id and is nobody's runtime id reaches the agent that
      shows it, or nobody; without group limits it reaches that agent. */
  lemma ShownIdResolvesOnPeers(roster: seq<Agent>, sessions: seq<Session>, full: string -> bool, i: nat, d: string,
                               groups: Option<seq<string>>, allGroups: bool)
    requires DistinctRuntimes(roster) && i < |roster| && Project(roster, sessions)[i].durableId == Some(d)
    requires full(d) && forall k :: 0 <= k < |roster| ==> roster[k].id != d
    ensures var shown := Project(roster, sessions);
            var r := ResolveFromList(shown, full, d, groups, allGroups);
            && (r.Ok? ==> r.value == shown[i])
            && (allGroups || groups.None? || GroupsOverlap(shown[i].groups, groups.value) ==> r == Ok(shown[i]))
  {
    var shown := Project(roster, sessions);
    ShownIdsAreDistinct(roster, sessions, d);
    assert Lookup(shown, d).None?;
    if allGroups || groups.None? {
      ListedOnce(shown, Durable(d), i);
    } else {
      var c := SharesGroup(None, groups.value);
      var visible := Select(shown, c);
      SelectKeepsAtMostOne(shown, c, Durable(d));
      SelectUnique(visible, Durable(d));
      SelectedMeet(shown, c, shown[i]);
      SelectedMeet(visible, Durable(d), shown[i]);
      var matches := Select(visible, Durable(d));
      if |matches| == 1 {
        SelectedMeet(visible, Durable(d), matches[0]);
        SelectedMeet(shown, c, matches[0]);
        var k :| 0 <= k < |shown| && shown[k] == matches[0];
      }
    }
  }

  // ---------------------------------------------------------------- visibility

  /** Nothing but a runtime id reaches an agent the sender cannot see. */
  lemma ResolutionStaysInSight(roster: seq<Agent>, sessions: seq<Session>, full: string -> bool, target: string,
                               sender: Option<string>, allGroups: bool)
    ensures var r := ResolveTarget(roster, sessions, full, target, sender, allGroups);
            r.Ok? ==>
              || (r.value == target && RecordsNamed(sessions, target) == [] && !full(target))
              || exists a :: a in Visible(roster, sender, allGroups) && a.id == r.value
  {
    var visible := Visible(roster, sender, allGroups);
    var r := ResolveTarget(roster, sessions, full, target, sender, allGroups);
    if r.Ok? {
      if RecordsNamed(sessions, target) != [] || full(target) {
        var found := ResolveDurable(roster, visible, target, sessions).value;
        SelectedMeet(visible, Durable(target), found);
        if RecordsNamed(sessions, target) != [] {
          var seen := Lookup(visible, found.id).value;
          assert seen in visible && seen.id == r.value;
        }
      } else if Lookup(roster, target).None? {
        var found := ResolveVisible(visible, target).value;
        SelectedMeet(visible, Named(target), found);
        SelectedMeet(visible, Aliased(target), found);
        assert found in visible;
      }
    }
  }

  // ---------------------------------------------------------------- who sees whom, and who is meant

  /** `a` is registered, and the sender may look at everybody, or is registered itself and is `a` or shares a
      group with `a`. */
  ghost predicate Sees(roster: seq<Agent>, sender: Option<string>, allGroups: bool, a: Agent) {
    && a in roster
    && (allGroups || sender == None
        || exists self :: self in roster && self.id == sender.value
                          && (a.id == sender.value || exists g :: g in a.groups && g in self.groups))
  }

  /** The visible agents are exactly those the sender sees, each once. */
  lemma VisibleExactly(roster: seq<Agent>, sender: Option<string>, allGroups: bool, a: Agent)
    requires DistinctRuntimes(roster)
    ensures a in Visible(roster, sender, allGroups) <==> Sees(roster, sender, allGroups, a)
    ensures DistinctRuntimes(Visible(roster, sender, allGroups))
  {
    if !allGroups && sender.Some? {
      match Lookup(roster, sender.value)
      case None =>
      case Some(self) =>
        SelectedMeet(roster, SharesGroup(sender, self.groups), a);
        SelectKeepsRuntimes(roster, SharesGroup(sender, self.groups));
        forall other | other in roster && other.id == sender.value ensures other == self {
          SameRuntime(roster, other, self);
        }
    }
  }

  lemma SameRuntime(roster: seq<Agent>, a: Agent, b: Agent)
    requires DistinctRuntimes(roster) && a in roster && b in roster && a.id == b.id
    ensures a == b
  {
    var i :| 0 <= i < |roster| && roster[i] == a;
    var j :| 0 <= j < |roster| && roster[j] == b;
  }

  lemma {:induction false} SelectKeepsRuntimes(agents: seq<Agent>, c: Criterion)
    requires DistinctRuntimes(agents)
    ensures DistinctRuntimes(Select(agents, c))
  {
    if agents != [] {
      var rest := Select(agents[1..], c);
      SelectKeepsRuntimes(agents[1..], c);
      forall j | 0 <= j < |rest| ensures rest[j].id != agents[0].id {
        SelectedMeet(agents[1..], c, rest[j]);
        var k :| 0 <= k < |agents[1..]| && agents[1..][k] == rest[j];
        assert agents[k + 1] == rest[j];
      }
    }
  }

  /** How a search among agents ends: one agent, none, or several. */
  ghost predicate Finds(r: Result<Agent, Code>, agents: seq<Agent>, c: Criterion) {
    match r
    case Ok(a) => a in agents && Meets(a, c) && forall b :: b in agents && Meets(b, c) ==> b == a
    case Err(NotFound) => forall b :: b in agents ==> !Meets(b, c)
    case Err(Ambiguous) => exists a, b :: a in agents && b in agents && a != b && Meets(a, c) && Meets(b, c)
    case Err(TargetUnavailable) => false
  }

  lemma OneMatchIsTheAnswer(agents: seq<Agent>, c: Criterion)
    requires DistinctRuntimes(agents)
    ensures Finds(TheOnly(Select(agents, c)), agents, c)
  {
    var matches := Select(agents, c);
    SelectKeepsRuntimes(agents, c);
    forall a ensures a in matches <==> a in agents && Meets(a, c) {
      SelectedMeet(agents, c, a);
    }
    if |matches| >= 2 {
      assert matches[0] in matches && matches[1] in matches && matches[0].id != matches[1].id;
    }
  }

  /** What each search looks at. */
  lemma CriteriaMean(a: Agent, t: string, self: Option<string>, groups: seq<string>)
    ensures Meets(a, Named(t)) <==> a.name == t
    ensures Meets(a, Aliased(t)) <==> a.baseName == Some(t) || a.threadName == Some(t) || a.sessionId == Some(t)
    ensures Meets(a, Durable(t)) <==> a.durableId == Some(t)
    ensures Meets(a, SharesGroup(self, groups)) <==> Some(a.id) == self || exists g :: g in a.groups && g in groups
  {
  }

  /** A name beats an alias: a target is looked for among the names, and only if nobody has that name among the
      aliases; in either search one match is the answer, none is not found, and several are ambiguous. */
  lemma NamesBeatAliases(visible: seq<Agent>, target: string)
    requires DistinctRuntimes(visible)
    ensures if exists a :: a in visible && a.name == target
            then Finds(ResolveVisible(visible, target), visible, Named(target))
            else Finds(ResolveVisible(visible, target), visible, Aliased(target))
  {
    OneMatchIsTheAnswer(visible, Named(target));
    OneMatchIsTheAnswer(visible, Aliased(target));
    forall a ensures a in Select(visible, Named(target)) <==> a in visible && a.name == target {
      SelectedMeet(visible, Named(target), a);
    }
    if Select(visible, Named(target)) != [] {
      assert Select(visible, Named(target))[0] in Select(visible, Named(target));
    }
  }

  /** On its own host a target that is no durable id is a runtime id, of anybody, or else is looked for among the
      agents the sender sees. */
  lemma PlainTargetsResolve(roster: seq<Agent>, sessions: seq<Session>, full: string -> bool, target: string,
                            sender: Option<string>, allGroups: bool)
    requires DistinctRuntimes(roster)
    requires !full(target) && forall r :: r in sessions ==> r.durableId != target
    ensures var r := ResolveTarget(roster, sessions, full, target, sender, allGroups);
            if exists a :: a in roster && a.id == target then r == Ok(target)
            else
              var found := ResolveVisible(Visible(roster, sender, allGroups), target);
              r == if found.Ok? then Ok(found.value.id) else Err(found.error)
  {
    NoRecordsNamed(sessions, target);
    forall a | a in roster && a.id == target ensures Lookup(roster, target).Some? {
      var i :| 0 <= i < |roster| && roster[i] == a;
    }
  }

  lemma {:induction false} NoRecordsNamed(sessions: seq<Session>, d: string)
    requires forall r :: r in sessions ==> r.durableId != d
    ensures RecordsNamed(sessions, d) == []
  {
    if sessions != [] {
      assert sessions[0] in sessions;
      NoRecordsNamed(sessions[1..], d);
    }
  }

  /** A live endpoint of a record: it is active, has run, and its runtime is a registered agent with one of the
      record's session ids. */
  ghost predicate Endpoint(roster: seq<Agent>, r: Session, a: Agent) {
    && a in roster && r.active && r.generation > 0 && r.runtime == Some(a.id)
    && (a.sessionId == Some(r.durableId) || a.sessionId == r.codexId)
  }

  lemma EndpointIsTheRuntime(roster: seq<Agent>, r: Session, a: Agent)
    requires DistinctRuntimes(roster) && r.runtime.Some?
    ensures Endpoint(roster, r, a) <==>
              && r.active && r.generation > 0 && Lookup(roster, r.runtime.value) == Some(a) && MatchesSession(a, r)
  {
    if a in roster && r.runtime == Some(a.id) {
      var i :| 0 <= i < |roster| && roster[i] == a;
      LookupFindsThe(roster, i);
    }
  }

  /** How one record resolves: without a live endpoint it is unavailable, one that the sender does not see is not
      found, and otherwise the endpoint is the answer. */
  ghost predicate Reaches(result: Result<Agent, Code>, roster: seq<Agent>, r: Session, sender: Option<string>,
                          allGroups: bool)
  {
    match result
    case Ok(a) => Endpoint(roster, r, a) && Sees(roster, sender, allGroups, a)
    case Err(NotFound) => exists a :: Endpoint(roster, r, a) && !Sees(roster, sender, allGroups, a)
    case Err(TargetUnavailable) => forall a :: !Endpoint(roster, r, a)
    case Err(Ambiguous) => false
  }

  lemma RecordResolves(roster: seq<Agent>, sender: Option<string>, allGroups: bool, r: Session)
    requires DistinctRuntimes(roster)
    ensures Reaches(ResolveRecord(roster, Visible(roster, sender, allGroups), r), roster, r, sender, allGroups)
  {
    if r.runtime.Some? {
      forall a ensures Endpoint(roster, r, a) <==>
                         && r.active && r.generation > 0 && Lookup(roster, r.runtime.value) == Some(a)
                         && MatchesSession(a, r) {
        EndpointIsTheRuntime(roster, r, a);
      }
      var found := Lookup(roster, r.runtime.value);
      if found.Some? {
        VisibleExactly(roster, sender, allGroups, found.value);
        SeenById(roster, Visible(roster, sender, allGroups), found.value, sender, allGroups);
      }
    }
  }

  /** A durable id with records: two are ambiguous, and one resolves to its endpoint. */
  lemma DurableTargetsResolve(roster: seq<Agent>, sessions: seq<Session>, full: string -> bool, target: string,
                              sender: Option<string>, allGroups: bool)
    requires DistinctRuntimes(roster) && RecordsNamed(sessions, target) != []
    ensures var r := ResolveTarget(roster, sessions, full, target, sender, allGroups);
            var records := RecordsNamed(sessions, target);
            if |records| > 1 then r == Err(Ambiguous)
            else
              exists found :: Reaches(found, roster, records[0], sender, allGroups)
                              && r == if found.Ok? then Ok(found.value.id) else Err(found.error)
  {
    RecordResolves(roster, sender, allGroups, RecordsNamed(sessions, target)[0]);
  }

  lemma SeenById(roster: seq<Agent>, visible: seq<Agent>, a: Agent, sender: Option<string>, allGroups: bool)
    requires DistinctRuntimes(roster) && visible == Visible(roster, sender, allGroups) && a in roster
    ensures Lookup(visible, a.id).Some? <==> a in visible
  {
    if Lookup(visible, a.id).Some? {
      var b := Lookup(visible, a.id).value;
      VisibleExactly(roster, sender, allGroups, b);
      SameRuntime(roster, a, b);
    }
    if a in visible {
      var i :| 0 <= i < |visible| && visible[i] == a;
    }
  }

  /** A full durable id without a record is looked for among the ids that the agents in sight show. */
  lemma ForeignDurableTargetsResolve(roster: seq<Agent>, sessions: seq<Session>, full: string -> bool,
                                     target: string, sender: Option<string>, allGroups: bool)
    requires DistinctRuntimes(roster) && full(target) && RecordsNamed(sessions, target) == []
    ensures var visible := Visible(roster, sender, allGroups);
            exists found :: Finds(found, visible, Durable(target))
                            && ResolveTarget(roster, sessions, full, target, sender, allGroups)
                               == if found.Ok? then Ok(found.value.id) else Err(found.error)
  {
    var visible := Visible(roster, sender, allGroups);
    VisibleExactly(roster, sender, allGroups, Agent("", "", None, None, None, None, []));
    OneMatchIsTheAnswer(visible, Durable(target));
    var found := TheOnly(Select(visible, Durable(target)));
    assert Finds(found, visible, Durable(target));
  }

  /** The agents of a peer's list that a sender may look for. */
  ghost predicate PeerSight(visible: seq<Agent>, agents: seq<Agent>, senderGroups: Option<seq<string>>,
                            allGroups: bool)
  {
    && DistinctRuntimes(visible)
    && forall a :: a in visible <==>
         a in agents && (allGroups || senderGroups == None || exists g :: g in a.groups && g in senderGroups.value)
  }

  lemma PeerSightExactly(agents: seq<Agent>, groups: seq<string>)
    requires DistinctRuntimes(agents)
    ensures PeerSight(Select(agents, SharesGroup(None, groups)), agents, Some(groups), false)
  {
    SelectKeepsRuntimes(agents, SharesGroup(None, groups));
    forall a ensures a in Select(agents, SharesGroup(None, groups)) <==>
                       a in agents && exists g :: g in a.groups && g in groups {
      SelectedMeet(agents, SharesGroup(None, groups), a);
    }
  }

  /** A peer's list: a runtime id first, of anybody on it; then among the agents that share a group with the
      sender, or all of them, by durable id if the target has that form and by name or alias otherwise. */
  lemma PeerTargetsResolve(agents: seq<Agent>, full: string -> bool, target: string,
                           senderGroups: Option<seq<string>>, allGroups: bool)
    requires DistinctRuntimes(agents)
    ensures var r := ResolveFromList(agents, full, target, senderGroups, allGroups);
            if exists a :: a in agents && a.id == target then r.Ok? && r.value in agents && r.value.id == target
            else exists visible ::
                   && PeerSight(visible, agents, senderGroups, allGroups)
                   && if full(target) then Finds(r, visible, Durable(target)) else r == ResolveVisible(visible, target)
  {
    if a :| a in agents && a.id == target {
      var i :| 0 <= i < |agents| && agents[i] == a;
    } else {
      var visible := if allGroups || senderGroups.None? then agents
                     else Select(agents, SharesGroup(None, senderGroups.value));
      if !allGroups && senderGroups.Some? {
        PeerSightExactly(agents, senderGroups.value);
      }
      assert PeerSight(visible, agents, senderGroups, allGroups);
      OneMatchIsTheAnswer(visible, Durable(target));
    }
  }
}
