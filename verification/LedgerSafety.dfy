/** What every write keeps true of the operator ledger. */
module LedgerSafety {
  import opened Wrappers
  import opened AuditEventId
  import opened OperatorLedger

  /** A project's operators after one audit event. */
  function Apply(operators: map<SessionId, Grant>, e: AuditEvent): map<SessionId, Grant> {
    if e.kind.Granted? || e.kind.Retained? then
      operators[e.operator := Grant(e.project, e.operator, e.revision, e.committedAt, e.director,
                                    e.plane.HumanManagement?)]
    else operators - {e.operator}
  }

  /** The operators that a history of audit events leaves, starting from none. */
  function Rebuild(chain: seq<AuditEvent>): map<SessionId, Grant> {
    if chain == [] then map[] else Apply(Rebuild(chain[..|chain| - 1]), chain[|chain| - 1])
  }

  /**
   The audit events of a project are `chain`: one for each revision from 1 to the current one, each
   starting where the one before ended, and together they make the current grants.
   */
  ghost predicate IsChain(l: Ledger, p: ProjectId, chain: seq<AuditEvent>) {
    && |chain| == Revision(l, p)
    && Linked(l.audit, p, chain)
    && Covered(l.audit, p, chain)
    && Rebuild(chain) == Operators(l, p)
  }

  predicate Linked(audit: map<string, AuditEvent>, p: ProjectId, chain: seq<AuditEvent>) {
    forall i :: 0 <= i < |chain| ==>
      && chain[i].project == p && chain[i].previous == i && chain[i].revision == i + 1
      && chain[i].id in audit && audit[chain[i].id] == chain[i]
  }

  predicate Covered(audit: map<string, AuditEvent>, p: ProjectId, chain: seq<AuditEvent>) {
    forall id :: id in audit && audit[id].project == p ==> audit[id] in chain
  }

  ghost predicate Chained(l: Ledger, p: ProjectId) {
    exists chain :: IsChain(l, p, chain)
  }

  ghost predicate Chains(l: Ledger) {
    forall p :: Chained(l, p)
  }

  type HumanRecords = map<ActionId, HumanRecord>
  type AgentActions = map<ActionId, ProjectId>

  predicate Labelled(e: AuditEvent) {
    e.id == EventId(e.plane, e.action, e.revision)
  }

  /** An event is filed under its own id, and its action is on record in the right plane. */
  predicate Filed(e: AuditEvent, id: string, human: HumanRecords, actions: AgentActions) {
    && id == e.id && Labelled(e)
    && match e.plane {
         case HumanManagement => e.action in human && human[e.action].receipt.event == e
         case AgentManagement => e.action in actions && actions[e.action] == e.project
       }
  }

  predicate AllFiled(l: Ledger, human: HumanRecords, actions: AgentActions) {
    forall id :: id in l.audit ==> Filed(l.audit[id], id, human, actions)
  }

  /** A Human/Management record holds its own request and the event it filed. */
  predicate Recorded(l: Ledger, a: ActionId, record: HumanRecord) {
    var r := record.receipt;
    && r.request == record.request && r.request.action == a
    && r.event.id in l.audit && l.audit[r.event.id] == r.event
    && r.event.action == a && r.event.plane.HumanManagement?
    && r.event.project == r.request.project && r.event.operator == r.request.operator
    && r.event.previous == r.previous == r.request.expectedRevision && r.event.revision == r.revision
  }

  predicate AllRecorded(l: Ledger, human: HumanRecords) {
    forall a :: a in human ==> Recorded(l, a, human[a])
  }

  /** The ledger agrees with itself and with the records of the actions that changed it. */
  ghost predicate Accounted(l: Ledger, human: HumanRecords, actions: AgentActions) {
    Chains(l) && AllFiled(l, human, actions) && AllRecorded(l, human)
  }

  /** No action id is used in two domains. */
  predicate DomainsApart(s: Snapshot) {
    && s.humanActions.Keys !! s.actions.Keys
    && s.humanActions.Keys !! s.bindings.Keys
    && s.humanActions.Keys !! s.otherReceipts
    && s.actions.Keys !! s.bindings.Keys
    && s.actions.Keys !! s.otherReceipts
    && s.bindings.Keys !! s.otherReceipts
  }

  /** Grants exist only in bound projects, and never for the project's own Director. */
  predicate DirectorsApart(l: Ledger, projects: map<ProjectId, Authority>) {
    && (forall p :: p in l.grants ==> p in projects)
    && (forall p :: p in projects ==> projects[p].project == p && projects[p].director !in Operators(l, p))
  }

  predicate AgentsKeyed(agents: map<SessionId, Agent>) {
    forall k :: k in agents ==> agents[k].session == k
  }

  ghost predicate Inv(s: Snapshot) {
    && Accounted(s.ledger, s.humanActions, s.actions)
    && DomainsApart(s) && DirectorsApart(s.ledger, s.projects) && AgentsKeyed(s.agents)
  }

  lemma EmptyInv()
    ensures Inv(EMPTY_SNAPSHOT)
  {
    forall p ensures Chained(EMPTY_SNAPSHOT.ledger, p) {
      assert IsChain(EMPTY_SNAPSHOT.ledger, p, []);
    }
  }

  // ---------------------------------------------------------------- the chain grows by one

  /** `e` is the next event of its project and `operators` its effect. */
  predicate IsNext(l: Ledger, e: AuditEvent, operators: map<SessionId, Grant>) {
    && e.previous == Revision(l, e.project) && e.revision == e.previous + 1
    && operators == Apply(Operators(l, e.project), e)
  }

  lemma LongerLinks(audit: map<string, AuditEvent>, e: AuditEvent, chain: seq<AuditEvent>)
    requires Linked(audit, e.project, chain) && e.id !in audit
    requires e.previous == |chain| && e.revision == |chain| + 1
    ensures Linked(audit[e.id := e], e.project, chain + [e])
  {
  }

  lemma LongerCover(audit: map<string, AuditEvent>, e: AuditEvent, chain: seq<AuditEvent>)
    requires Covered(audit, e.project, chain) && e.id !in audit
    ensures Covered(audit[e.id := e], e.project, chain + [e])
  {
  }

  lemma LongerChain(l: Ledger, e: AuditEvent, operators: map<SessionId, Grant>, chain: seq<AuditEvent>)
    requires IsChain(l, e.project, chain) && IsNext(l, e, operators) && e.id !in l.audit
    ensures IsChain(Append(l, e, operators).value, e.project, chain + [e])
  {
    assert (chain + [e])[..|chain + [e]| - 1] == chain;
    LongerLinks(l.audit, e, chain);
    LongerCover(l.audit, e, chain);
  }

  lemma OtherChain(l: Ledger, e: AuditEvent, operators: map<SessionId, Grant>, p: ProjectId,
                   chain: seq<AuditEvent>)
    requires IsChain(l, p, chain) && p != e.project && e.id !in l.audit
    ensures IsChain(Append(l, e, operators).value, p, chain)
  {
    var audit := Append(l, e, operators).value.audit;
    assert Linked(audit, p, chain) && Covered(audit, p, chain);
  }

  lemma AppendKeepsChains(l: Ledger, e: AuditEvent, operators: map<SessionId, Grant>)
    requires Chains(l) && IsNext(l, e, operators) && e.id !in l.audit
    ensures Chains(Append(l, e, operators).value)
  {
    var t := Append(l, e, operators).value;
    forall p ensures Chained(t, p) {
      assert Chained(l, p);
      var chain :| IsChain(l, p, chain);
      if p == e.project {
        LongerChain(l, e, operators, chain);
      } else {
        OtherChain(l, e, operators, p, chain);
      }
    }
  }

  lemma RevisionIsLargest(l: Ledger, id: string)
    requires Chains(l) && id in l.audit
    ensures l.audit[id].revision <= Revision(l, l.audit[id].project)
  {
    var p := l.audit[id].project;
    assert Chained(l, p);
    var chain :| IsChain(l, p, chain);
    assert l.audit[id] in chain;
  }

  /** The id of the next event is new: the branch for a duplicate is never taken. */
  lemma NextIdIsNew(l: Ledger, e: AuditEvent, operators: map<SessionId, Grant>, human: HumanRecords,
                    actions: AgentActions)
    requires Chains(l) && AllFiled(l, human, actions) && IsNext(l, e, operators) && Labelled(e)
    requires e.plane.HumanManagement? ==> e.action !in human
    requires e.plane.AgentManagement? ==> e.action in actions && actions[e.action] == e.project
    ensures e.id !in l.audit
  {
    if e.id in l.audit {
      var f := l.audit[e.id];
      EventIdIsInjective(e.plane, e.action, e.revision, f.plane, f.action, f.revision);
      RevisionIsLargest(l, e.id);
      assert false;
    }
  }

  lemma {:induction false} RebuiltGrantsAreKeyed(chain: seq<AuditEvent>, p: ProjectId, o: SessionId)
    requires forall i :: 0 <= i < |chain| ==> chain[i].project == p
    requires o in Rebuild(chain)
    ensures Rebuild(chain)[o].project == p && Rebuild(chain)[o].operator == o
  {
    var before := chain[..|chain| - 1];
    if o in Rebuild(before) {
      RebuiltGrantsAreKeyed(before, p, o);
    }
  }

  /** Every grant carries its own project and operator. */
  lemma GrantsAreKeyed(l: Ledger, p: ProjectId, o: SessionId)
    requires Chains(l) && o in Operators(l, p)
    ensures Operators(l, p)[o].project == p && Operators(l, p)[o].operator == o
  {
    assert Chained(l, p);
    var chain :| IsChain(l, p, chain);
    RebuiltGrantsAreKeyed(chain, p, o);
  }

  // ---------------------------------------------------------------- each writer keeps the account

  /** The event of a new Human/Management action, filed together with its record. */
  lemma HumanAppend(l: Ledger, e: AuditEvent, operators: map<SessionId, Grant>, human: HumanRecords,
                    actions: AgentActions, record: HumanRecord)
    requires Accounted(l, human, actions) && IsNext(l, e, operators) && Labelled(e) && e.plane.HumanManagement?
    requires e.action !in human
    requires record.receipt.event == e
    requires Append(l, e, operators).Ok? ==> Recorded(Append(l, e, operators).value, e.action, record)
    ensures Append(l, e, operators).Ok?
    ensures Accounted(Append(l, e, operators).value, human[e.action := record], actions)
  {
    NextIdIsNew(l, e, operators, human, actions);
    AppendKeepsChains(l, e, operators);
    var t := Append(l, e, operators).value;
    forall id | id in t.audit ensures Filed(t.audit[id], id, human[e.action := record], actions) {
      assert id != e.id ==> Filed(l.audit[id], id, human, actions);
    }
  }

  lemma MoreActions(l: Ledger, human: HumanRecords, actions: AgentActions, a: ActionId, p: ProjectId)
    requires Accounted(l, human, actions) && a !in actions
    ensures Accounted(l, human, actions[a := p])
  {
    forall id | id in l.audit ensures Filed(l.audit[id], id, human, actions[a := p]) {
      assert Filed(l.audit[id], id, human, actions);
    }
  }

  lemma AppendKeepsDirectors(l: Ledger, e: AuditEvent, operators: map<SessionId, Grant>,
                             projects: map<ProjectId, Authority>)
    requires DirectorsApart(l, projects) && Append(l, e, operators).Ok?
    requires e.project in projects && projects[e.project].director !in operators
    ensures DirectorsApart(Append(l, e, operators).value, projects)
  {
  }

  /** The next event of a begun agent action, together with new authorities or agent records. */
  lemma AgentAppend(s: Snapshot, e: AuditEvent, operators: map<SessionId, Grant>,
                    projects: map<ProjectId, Authority>, agents: map<SessionId, Agent>)
    requires Inv(s) && IsNext(s.ledger, e, operators) && Labelled(e) && e.plane.AgentManagement?
    requires e.action in s.actions && s.actions[e.action] == e.project
    requires AgentsKeyed(agents) && DirectorsApart(s.ledger, projects)
    requires e.project in projects && projects[e.project].director !in operators
    ensures Append(s.ledger, e, operators).Ok?
    ensures Inv(s.(ledger := Append(s.ledger, e, operators).value, projects := projects, agents := agents))
  {
    NextIdIsNew(s.ledger, e, operators, s.humanActions, s.actions);
    AppendKeepsChains(s.ledger, e, operators);
    AppendKeepsDirectors(s.ledger, e, operators, projects);
  }

  // ---------------------------------------------------------------- each operation keeps the invariant

  /** The event and the record that a Human/Management action makes when it commits. */
  function HumanEvent(s: Snapshot, r: HumanRequest, now: Time): AuditEvent
    requires r.project in s.projects
  {
    var current := Revision(s.ledger, r.project);
    NewEvent(HumanManagement, r.action, r.project, r.operator,
             if r.change.GrantOperator? then Granted else Revoked, current, current + 1,
             s.projects[r.project].director, now)
  }

  /** A Human/Management action that is neither refused nor a replay appends the next event. */
  lemma HumanForm(s: Snapshot, r: HumanRequest, now: Time)
    requires r.action !in s.humanActions && HumanAction(s, r, now).Ok?
    ensures r.project in s.projects
    ensures var e := HumanEvent(s, r, now);
            Changed(s, r, e.director, e.revision, now).Ok?
    ensures var e := HumanEvent(s, r, now);
            var c := Changed(s, r, e.director, e.revision, now).value;
            var o := HumanAction(s, r, now).value;
            && Append(s.ledger, e, c.0).Ok?
            && o.write && e.director != r.operator && r.expectedRevision == e.previous
            && r.action !in s.actions && r.action !in s.bindings && r.action !in s.otherReceipts
            && IsNext(s.ledger, e, c.0)
            && o.state == s.(ledger := Append(s.ledger, e, c.0).value,
                             humanActions := s.humanActions[r.action := HumanRecord(r, o.value)])
            && o.value == HumanReceipt(r, s.projects[r.project].epoch, e.director, e.previous, e.revision, c.1,
                                       Roster(e.revision, c.0), e, now)
  {
  }

  /** A Human/Management action that passes its checks finds its operators and a new event id. */
  lemma HumanFindsStoreValid(s: Snapshot, r: HumanRequest, now: Time)
    requires Inv(s) && r.action !in s.humanActions && r.project in s.projects
    ensures var c := Changed(s, r, s.projects[r.project].director, Revision(s.ledger, r.project) + 1, now);
            && c != Err(InvalidStore)
            && (c.Ok? ==> Append(s.ledger, HumanEvent(s, r, now), c.value.0).Ok?)
  {
    if r.operator in Operators(s.ledger, r.project) {
      GrantsAreKeyed(s.ledger, r.project, r.operator);
    }
    var e := HumanEvent(s, r, now);
    var c := Changed(s, r, e.director, e.revision, now);
    if c.Ok? {
      NextIdIsNew(s.ledger, e, c.value.0, s.humanActions, s.actions);
    }
  }

  lemma HumanKeepsInv(s: Snapshot, r: HumanRequest, now: Time)
    requires Inv(s)
    ensures HumanAction(s, r, now) != Err(InvalidStore)
    ensures HumanAction(s, r, now).Ok? ==> Inv(HumanAction(s, r, now).value.state)
  {
    if r.action !in s.humanActions && r.project in s.projects {
      HumanFindsStoreValid(s, r, now);
      if HumanAction(s, r, now).Ok? {
        HumanCommitKeepsInv(s, r, now);
      }
    }
  }

  lemma HumanCommitKeepsInv(s: Snapshot, r: HumanRequest, now: Time)
    requires Inv(s) && r.action !in s.humanActions && HumanAction(s, r, now).Ok?
    ensures Inv(HumanAction(s, r, now).value.state)
  {
    HumanForm(s, r, now);
    var e := HumanEvent(s, r, now);
    var operators := Changed(s, r, e.director, e.revision, now).value.0;
    HumanAppend(s.ledger, e, operators, s.humanActions, s.actions,
                HumanRecord(r, HumanAction(s, r, now).value.value));
    AppendKeepsDirectors(s.ledger, e, operators, s.projects);
  }

  function DirectorsEvent(s: Snapshot, a: ActionId, p: ProjectId, director: SessionId, operator: SessionId,
                          kind: AuditKind, now: Time): AuditEvent
  {
    var current := Revision(s.ledger, p);
    NewEvent(AgentManagement, a, p, operator, kind, current, current + 1, director, now)
  }

  lemma GrantForm(s: Snapshot, a: ActionId, p: ProjectId, primary: bool, caller: SessionId,
                  operator: SessionId, expected: nat, now: Time)
    requires AgentsKeyed(s.agents) && a in s.actions
    requires var e := DirectorsEvent(s, a, p, caller, operator, Granted, now);
             Append(s.ledger, e, Apply(Operators(s.ledger, p), e)).Ok?
    ensures var g := DirectorGrant(s, a, p, primary, caller, operator, expected, now);
            var e := DirectorsEvent(s, a, p, caller, operator, Granted, now);
            && g != Err(InvalidStore)
            && (g.Ok? ==> g.value.state == s.(ledger := Append(s.ledger, e, Apply(Operators(s.ledger, p), e)).value))
  {
  }

  lemma GrantKeepsInv(s: Snapshot, a: ActionId, p: ProjectId, primary: bool, caller: SessionId,
                      operator: SessionId, expected: nat, now: Time)
    requires Inv(s) && a in s.actions && s.actions[a] == p
    ensures DirectorGrant(s, a, p, primary, caller, operator, expected, now) != Err(InvalidStore)
    ensures DirectorGrant(s, a, p, primary, caller, operator, expected, now).Ok? ==>
              Inv(DirectorGrant(s, a, p, primary, caller, operator, expected, now).value.state)
  {
    if p in s.projects && operator != s.projects[p].director {
      var e := DirectorsEvent(s, a, p, caller, operator, Granted, now);
      AgentAppend(s, e, Apply(Operators(s.ledger, p), e), s.projects, s.agents);
      GrantForm(s, a, p, primary, caller, operator, expected, now);
    }
  }

  lemma RevokeForm(s: Snapshot, a: ActionId, p: ProjectId, primary: bool, caller: SessionId,
                   operator: SessionId, expected: nat, now: Time)
    requires a in s.actions && operator in Operators(s.ledger, p)
    requires Operators(s.ledger, p)[operator].project == p && Operators(s.ledger, p)[operator].operator == operator
    requires var e := DirectorsEvent(s, a, p, caller, operator, Revoked, now);
             Append(s.ledger, e, Apply(Operators(s.ledger, p), e)).Ok?
    ensures var r := DirectorRevoke(s, a, p, primary, caller, operator, expected, now);
            var e := DirectorsEvent(s, a, p, caller, operator, Revoked, now);
            && r != Err(InvalidStore)
            && (r.Ok? ==> r.value.state == s.(ledger := Append(s.ledger, e, Apply(Operators(s.ledger, p), e)).value))
  {
  }

  lemma RevokeKeepsInv(s: Snapshot, a: ActionId, p: ProjectId, primary: bool, caller: SessionId,
                       operator: SessionId, expected: nat, now: Time)
    requires Inv(s) && a in s.actions && s.actions[a] == p
    ensures DirectorRevoke(s, a, p, primary, caller, operator, expected, now) != Err(InvalidStore)
    ensures DirectorRevoke(s, a, p, primary, caller, operator, expected, now).Ok? ==>
              Inv(DirectorRevoke(s, a, p, primary, caller, operator, expected, now).value.state)
  {
    if p in s.projects && operator in Operators(s.ledger, p) {
      GrantsAreKeyed(s.ledger, p, operator);
      var e := DirectorsEvent(s, a, p, caller, operator, Revoked, now);
      AgentAppend(s, e, Apply(Operators(s.ledger, p), e), s.projects, s.agents);
      RevokeForm(s, a, p, primary, caller, operator, expected, now);
    }
  }

  lemma CloseForm(s: Snapshot, a: ActionId, p: ProjectId, primary: bool, session: SessionId, now: Time)
    requires p in s.projects && session in s.agents && session in Operators(s.ledger, p)
    requires var e := DirectorsEvent(s, a, p, s.projects[p].director, session, RemovedForDirector, now);
             Append(s.ledger, e, Apply(Operators(s.ledger, p), e)).Ok?
    ensures var r := Close(s, a, p, primary, session, now);
            var e := DirectorsEvent(s, a, p, s.projects[p].director, session, RemovedForDirector, now);
            var t := s.(agents := s.agents[session := Closed(s.agents[session], now)]);
            && r != Err(InvalidStore)
            && (r.Ok? ==> r.value.state == if !primary then t
                                           else t.(ledger := Append(s.ledger, e,
                                                                    Apply(Operators(s.ledger, p), e)).value))
  {
  }

  lemma RetiringKeepsInv(s: Snapshot, session: SessionId, now: Time)
    requires Inv(s) && session in s.agents
    ensures Inv(s.(agents := s.agents[session := Closed(s.agents[session], now)]))
  {
  }

  lemma CloseKeepsInv(s: Snapshot, a: ActionId, p: ProjectId, primary: bool, session: SessionId, now: Time)
    requires Inv(s) && a in s.actions && s.actions[a] == p
    ensures Close(s, a, p, primary, session, now) != Err(InvalidStore)
    ensures Close(s, a, p, primary, session, now).Ok? ==> Inv(Close(s, a, p, primary, session, now).value.state)
  {
    if session in s.agents {
      RetiringKeepsInv(s, session, now);
      if session in Operators(s.ledger, p) {
        var e := DirectorsEvent(s, a, p, s.projects[p].director, session, RemovedForDirector, now);
        AgentAppend(s, e, Apply(Operators(s.ledger, p), e), s.projects,
                    s.agents[session := Closed(s.agents[session], now)]);
        CloseForm(s, a, p, primary, session, now);
      }
    }
  }

  /** A leaving Director holds no grant, so only a retained one changes the ledger. */
  lemma RotateForm(s: Snapshot, a: ActionId, p: ProjectId, predecessor: SessionId, expectedEpoch: nat,
                   successor: SessionId, retain: bool, now: Time)
    requires a in s.actions && predecessor !in Operators(s.ledger, p)
    requires var e := DirectorsEvent(s, a, p, successor, predecessor, Retained, now);
             Append(s.ledger, e, Apply(Operators(s.ledger, p), e)).Ok?
    ensures var r := Rotate(s, a, p, predecessor, expectedEpoch, successor, retain, now);
            var e := DirectorsEvent(s, a, p, successor, predecessor, Retained, now);
            && r != Err(InvalidStore)
            && (r.Ok? ==>
                  && predecessor != successor && p in s.projects && s.projects[p].director == predecessor
                  && successor !in Operators(s.ledger, p)
                  && r.value.state == s.(projects := s.projects[p := Authority(p, successor, expectedEpoch + 1)],
                                         ledger := if !retain then s.ledger
                                                   else Append(s.ledger, e, Apply(Operators(s.ledger, p), e)).value))
  {
  }

  lemma RotateKeepsInv(s: Snapshot, a: ActionId, p: ProjectId, predecessor: SessionId, expectedEpoch: nat,
                       successor: SessionId, retain: bool, now: Time)
    requires Inv(s) && a in s.actions && s.actions[a] == p
    ensures Rotate(s, a, p, predecessor, expectedEpoch, successor, retain, now) != Err(InvalidStore)
    ensures Rotate(s, a, p, predecessor, expectedEpoch, successor, retain, now).Ok? ==>
              Inv(Rotate(s, a, p, predecessor, expectedEpoch, successor, retain, now).value.state)
  {
    if predecessor != successor && p in s.projects && s.projects[p].director == predecessor
       && successor !in Operators(s.ledger, p) {
      var e := DirectorsEvent(s, a, p, successor, predecessor, Retained, now);
      var projects := s.projects[p := Authority(p, successor, expectedEpoch + 1)];
      AgentAppend(s, e, Apply(Operators(s.ledger, p), e), projects, s.agents);
      RotateForm(s, a, p, predecessor, expectedEpoch, successor, retain, now);
    }
  }

  lemma BindKeepsDomains(s: Snapshot, r: BindRequest)
    requires DomainsApart(s) && Bind(s, r).Ok?
    ensures DomainsApart(Bind(s, r).value.state)
  {
  }

  lemma BindKeepsInv(s: Snapshot, r: BindRequest)
    requires Inv(s)
    ensures Bind(s, r) != Err(InvalidStore)
    ensures Bind(s, r).Ok? ==> Inv(Bind(s, r).value.state)
  {
    if Bind(s, r).Ok? {
      BindKeepsDomains(s, r);
    }
  }

  lemma BeginKeepsInv(s: Snapshot, a: ActionId, p: ProjectId)
    requires Inv(s)
    ensures Begin(s, a, p) != Err(InvalidStore)
    ensures Begin(s, a, p).Ok? ==> Inv(Begin(s, a, p).value.state)
  {
    if a !in s.actions {
      MoreActions(s.ledger, s.humanActions, s.actions, a, p);
    }
  }

  lemma ReceiptKeepsInv(s: Snapshot, a: ActionId)
    requires Inv(s)
    ensures TakeReceipt(s, a) != Err(InvalidStore)
    ensures TakeReceipt(s, a).Ok? ==> Inv(TakeReceipt(s, a).value.state)
  {
  }

  /** Whatever an operation asks to write keeps the invariant, and none finds the store invalid. */
  lemma OperateKeepsInv(s: Snapshot, e: Event)
    requires Inv(s) && Begun(s, e)
    ensures Operate(s, e) != Err(InvalidStore)
    ensures Operate(s, e).Ok? ==> Inv(Operate(s, e).value.state)
  {
    match e
    case Human(r, now) => HumanKeepsInv(s, r, now);
    case Granting(a, p, primary, caller, o, expected, now) =>
      GrantKeepsInv(s, a, p, primary, caller, o, expected, now);
    case Revoking(a, p, primary, caller, o, expected, now) =>
      RevokeKeepsInv(s, a, p, primary, caller, o, expected, now);
    case Closing(a, p, primary, session, now) => CloseKeepsInv(s, a, p, primary, session, now);
    case Rotating(a, p, d, epoch, successor, retain, now) =>
      RotateKeepsInv(s, a, p, d, epoch, successor, retain, now);
    case Binding(r) => BindKeepsInv(s, r);
    case Beginning(a, p) => BeginKeepsInv(s, a, p);
    case OtherReceipt(a) => ReceiptKeepsInv(s, a);
    case AgentRecord(a) =>
  }

  lemma StepKeepsInv(s: Snapshot, e: Event, fault: Fault)
    requires Inv(s)
    ensures Inv(Step(s, e, fault))
  {
    if Begun(s, e) {
      OperateKeepsInv(s, e);
    }
  }

  lemma {:induction false} RunKeepsInv(s: Snapshot, events: seq<(Event, Fault)>)
    requires Inv(s)
    ensures Inv(Run(s, events))
    decreases |events|
  {
    if events != [] {
      StepKeepsInv(s, events[0].0, events[0].1);
      RunKeepsInv(Step(s, events[0].0, events[0].1), events[1..]);
    }
  }
}
