/**
 Operator grants: a compare-and-swap ledger kept in one snapshot. Every change of a project's grants
 raises that project's grant revision and files an audit event. The writers are the Human/Management
 action, the Director's grant and revoke, the close of an agent, and the rotation of a Director.
 */
module OperatorLedger {
  import opened Wrappers
  import opened AuditEventId

  /** Largest integer JSON readers represent exactly. */
  const MAX_JSON_SAFE_INTEGER: nat := 9_007_199_254_740_991

  type ProjectId = string
  type SessionId = string
  type ActionId = string
  type Time = nat

  datatype Reason =
    | OperatorGrantRevisionOverflow
    | OperatorMustBeActiveManagedAgent
    | OperatorAlreadyGranted
    | OperatorNotGranted
    | ActionIdPayloadConflict
    | ActionIdDomainConflict
    | StaleProjectAuthority
    | PrimaryDirectorCannotBeOperator
    | OperatorGrantRevisionConflict
    | AuthorityExpectationsMustBeComplete
    | ProjectAuthorityNotInitialized
    | AuthorityEpochOverflow
    | ActionIdentityConflict
    | OwnershipDisappeared
    | SeatTransferRefused
    | SuccessorPrimaryDirectorIsOperator
    | StoreRevisionOverflow

  datatype Error =
    | PersistenceUnavailable
    | InvalidStore
    | ProjectNotAuthorized
    | NotAuthorizedDirector
    | Unauthorized
    | InvalidRequest(reason: Reason)
    | OwnerActionRequired(reason: Reason)
    | Conflict(reason: Reason)

  datatype Authority = Authority(project: ProjectId, director: SessionId, epoch: nat)

  datatype Grant = Grant(project: ProjectId, operator: SessionId, revision: nat, grantedAt: Time,
                         director: SessionId, byHuman: bool)

  datatype AuditKind = Granted | Revoked | Retained | RemovedByRotation | RemovedForDirector

  datatype AuditEvent = AuditEvent(id: string, plane: Plane, action: ActionId, project: ProjectId,
                                   operator: SessionId, kind: AuditKind, previous: nat, revision: nat,
                                   director: SessionId, committedAt: Time)

  datatype Agent = Agent(session: SessionId, project: ProjectId, retiredAt: Option<Time>)

  datatype OperatorChange = GrantOperator | RevokeOperator

  datatype HumanRequest = HumanRequest(action: ActionId, project: ProjectId, expectedEpoch: nat,
                                       expectedRevision: nat, change: OperatorChange, operator: SessionId)

  datatype Roster = Roster(revision: nat, operators: map<SessionId, Grant>)

  datatype HumanReceipt = HumanReceipt(request: HumanRequest, epoch: nat, director: SessionId,
                                       previous: nat, revision: nat, grant: Option<Grant>,
                                       roster: Roster, event: AuditEvent, committedAt: Time)

  /** The digest of a request stands for the request. */
  datatype HumanRecord = HumanRecord(request: HumanRequest, receipt: HumanReceipt)

  datatype BindRequest = BindRequest(action: ActionId, project: ProjectId, director: SessionId,
                                     expectedDirector: Option<SessionId>, expectedEpoch: Option<nat>)

  datatype BindRecord = BindRecord(request: BindRequest, authority: Authority)

  /** Grants by project and session, the grant revision of each project, and audit events by id. */
  datatype Ledger = Ledger(grants: map<ProjectId, map<SessionId, Grant>>,
                           revisions: map<ProjectId, nat>,
                           audit: map<string, AuditEvent>)

  /** `otherReceipts` holds the ids of ownership imports and reservation reconciliations. */
  datatype Snapshot = Snapshot(storeRevision: nat,
                               projects: map<ProjectId, Authority>,
                               ledger: Ledger,
                               humanActions: map<ActionId, HumanRecord>,
                               agents: map<SessionId, Agent>,
                               actions: map<ActionId, ProjectId>,
                               bindings: map<ActionId, BindRecord>,
                               otherReceipts: set<ActionId>)

  const EMPTY_SNAPSHOT := Snapshot(0, map[], Ledger(map[], map[], map[]), map[], map[], map[], map[], {})

  /** What an operation hands back to the store: the new state, its answer, and whether to write. */
  datatype Outcome<T> = Outcome(state: Snapshot, value: T, write: bool)

  function Revision(l: Ledger, p: ProjectId): nat {
    if p in l.revisions then l.revisions[p] else 0
  }

  function Operators(l: Ledger, p: ProjectId): map<SessionId, Grant> {
    if p in l.grants then l.grants[p] else map[]
  }

  function NextRevision(current: nat): Result<nat, Error> {
    if current + 1 <= MAX_JSON_SAFE_INTEGER then Ok(current + 1)
    else Err(Conflict(OperatorGrantRevisionOverflow))
  }

  predicate ActiveIn(s: Snapshot, session: SessionId, p: ProjectId) {
    session in s.agents && s.agents[session].project == p && s.agents[session].retiredAt.None?
  }

  /** Install a project's new operators under an event's revision and file the event. */
  function Append(l: Ledger, e: AuditEvent, operators: map<SessionId, Grant>): Result<Ledger, Error> {
    if e.id in l.audit then Err(InvalidStore)
    else Ok(Ledger(l.grants[e.project := operators], l.revisions[e.project := e.revision], l.audit[e.id := e]))
  }

  function NewEvent(plane: Plane, action: ActionId, p: ProjectId, operator: SessionId, kind: AuditKind,
                    previous: nat, revision: nat, director: SessionId, now: Time): AuditEvent
  {
    AuditEvent(EventId(plane, action, revision), plane, action, p, operator, kind, previous, revision,
               director, now)
  }

  // ---------------------------------------------------------------- the Human/Management action

  /** The operators after the requested change, with the grant it makes. */
  function Changed(s: Snapshot, r: HumanRequest, director: SessionId, revision: nat, now: Time)
    : Result<(map<SessionId, Grant>, Option<Grant>), Error>
  {
    var operators := Operators(s.ledger, r.project);
    match r.change
    case GrantOperator =>
      if !ActiveIn(s, r.operator, r.project) then Err(Conflict(OperatorMustBeActiveManagedAgent))
      else if s.agents[r.operator].session != r.operator then Err(InvalidStore)
      else if r.operator in operators then Err(Conflict(OperatorAlreadyGranted))
      else
        var grant := Grant(r.project, r.operator, revision, now, director, true);
        Ok((operators[r.operator := grant], Some(grant)))
    case RevokeOperator =>
      if r.operator !in operators then Err(Conflict(OperatorNotGranted))
      else if operators[r.operator].project != r.project || operators[r.operator].operator != r.operator then
        Err(InvalidStore)
      else Ok((operators - {r.operator}, None))
  }

  function HumanAction(s: Snapshot, r: HumanRequest, now: Time): Result<Outcome<HumanReceipt>, Error> {
    if r.action in s.humanActions then
      var record := s.humanActions[r.action];
      if record.request == r then Ok(Outcome(s, record.receipt, false))
      else Err(Conflict(ActionIdPayloadConflict))
    else if r.action in s.actions || r.action in s.bindings || r.action in s.otherReceipts then
      Err(Conflict(ActionIdDomainConflict))
    else if r.project !in s.projects then Err(ProjectNotAuthorized)
    else
      var authority := s.projects[r.project];
      if authority.epoch != r.expectedEpoch then Err(Conflict(StaleProjectAuthority))
      else if r.operator == authority.director then Err(Conflict(PrimaryDirectorCannotBeOperator))
      else if Revision(s.ledger, r.project) != r.expectedRevision then
        Err(Conflict(OperatorGrantRevisionConflict))
      else
        var current := Revision(s.ledger, r.project);
        var revision :- NextRevision(current);
        var change :- Changed(s, r, authority.director, revision, now);
        var kind := if r.change.GrantOperator? then Granted else Revoked;
        var event := NewEvent(HumanManagement, r.action, r.project, r.operator, kind, current, revision,
                              authority.director, now);
        var ledger :- Append(s.ledger, event, change.0);
        var receipt := HumanReceipt(r, authority.epoch, authority.director, current, revision, change.1,
                                    Roster(revision, change.0), event, now);
        Ok(Outcome(s.(ledger := ledger, humanActions := s.humanActions[r.action := HumanRecord(r, receipt)]),
                   receipt, true))
  }

  // ---------------------------------------------------------------- the other writers

  /** Bind a project to a Director, or replace the Director named by the caller. */
  function Bind(s: Snapshot, r: BindRequest): Result<Outcome<Authority>, Error> {
    if r.expectedEpoch == Some(0) || r.expectedDirector.Some? != r.expectedEpoch.Some? then
      Err(InvalidRequest(AuthorityExpectationsMustBeComplete))
    else if r.action in s.actions || r.action in s.humanActions || r.action in s.otherReceipts then
      Err(Conflict(ActionIdDomainConflict))
    else if r.action in s.bindings then
      if s.bindings[r.action].request == r then Ok(Outcome(s, s.bindings[r.action].authority, false))
      else Err(Conflict(ActionIdPayloadConflict))
    else
      var epoch :- NextEpoch(s, r);
      if r.director in Operators(s.ledger, r.project) then Err(Conflict(PrimaryDirectorCannotBeOperator))
      else
        var authority := Authority(r.project, r.director, epoch);
        Ok(Outcome(s.(projects := s.projects[r.project := authority],
                      bindings := s.bindings[r.action := BindRecord(r, authority)]), authority, true))
  }

  function NextEpoch(s: Snapshot, r: BindRequest): Result<nat, Error> {
    if r.project !in s.projects then
      if r.expectedDirector.Some? then Err(Conflict(ProjectAuthorityNotInitialized)) else Ok(1)
    else
      var current := s.projects[r.project];
      if r.expectedDirector != Some(current.director) || r.expectedEpoch != Some(current.epoch) then
        Err(Conflict(StaleProjectAuthority))
      else if current.epoch + 1 > MAX_JSON_SAFE_INTEGER then Err(Conflict(AuthorityEpochOverflow))
      else Ok(current.epoch + 1)
  }

  /** Start an agent action in a project, or find it started. */
  function Begin(s: Snapshot, action: ActionId, p: ProjectId): Result<Outcome<ProjectId>, Error> {
    if action in s.bindings || action in s.humanActions || action in s.otherReceipts then
      Err(Conflict(ActionIdDomainConflict))
    else if action in s.actions then
      if s.actions[action] != p then Err(Conflict(ActionIdentityConflict)) else Ok(Outcome(s, p, false))
    else Ok(Outcome(s.(actions := s.actions[action := p]), p, true))
  }

  /** An ownership import or reservation reconciliation takes its action id. */
  function TakeReceipt(s: Snapshot, action: ActionId): Result<Outcome<ActionId>, Error> {
    if action in s.actions || action in s.humanActions || action in s.bindings then
      Err(Conflict(ActionIdDomainConflict))
    else if action in s.otherReceipts then Ok(Outcome(s, action, false))
    else Ok(Outcome(s.(otherReceipts := s.otherReceipts + {action}), action, true))
  }

  /** An agent record is created, retired, or reassigned. */
  function PutAgent(s: Snapshot, a: Agent): Result<Outcome<Agent>, Error> {
    Ok(Outcome(s.(agents := s.agents[a.session := a]), a, true))
  }

  /** The Director's own grant; `primary` says that the caller acts as the Director. */
  function DirectorGrant(s: Snapshot, action: ActionId, p: ProjectId, primary: bool, caller: SessionId,
                         operator: SessionId, expected: nat, now: Time): Result<Outcome<Grant>, Error>
  {
    if !primary then Err(NotAuthorizedDirector)
    else if p !in s.projects then Err(ProjectNotAuthorized)
    else if s.projects[p].director != caller then Err(NotAuthorizedDirector)
    else if operator == s.projects[p].director then Err(Conflict(PrimaryDirectorCannotBeOperator))
    else if !ActiveIn(s, operator, p) then Err(Conflict(OperatorMustBeActiveManagedAgent))
    else if s.agents[operator].session != operator then Err(InvalidStore)
    else if Revision(s.ledger, p) != expected then Err(Conflict(OperatorGrantRevisionConflict))
    else if operator in Operators(s.ledger, p) then Err(Conflict(OperatorAlreadyGranted))
    else
      var revision :- NextRevision(Revision(s.ledger, p));
      var grant := Grant(p, operator, revision, now, caller, false);
      var event := NewEvent(AgentManagement, action, p, operator, Granted, Revision(s.ledger, p), revision, caller,
                            now);
      var ledger :- Append(s.ledger, event, Operators(s.ledger, p)[operator := grant]);
      if action !in s.actions then Err(InvalidStore) else Ok(Outcome(s.(ledger := ledger), grant, true))
  }

  function DirectorRevoke(s: Snapshot, action: ActionId, p: ProjectId, primary: bool, caller: SessionId,
                          operator: SessionId, expected: nat, now: Time): Result<Outcome<SessionId>, Error>
  {
    var operators := Operators(s.ledger, p);
    if !primary then Err(NotAuthorizedDirector)
    else if p !in s.projects then Err(ProjectNotAuthorized)
    else if s.projects[p].director != caller then Err(NotAuthorizedDirector)
    else if Revision(s.ledger, p) != expected then Err(Conflict(OperatorGrantRevisionConflict))
    else if operator !in operators then Err(Conflict(OperatorNotGranted))
    else if operators[operator].project != p || operators[operator].operator != operator then Err(InvalidStore)
    else
      var revision :- NextRevision(Revision(s.ledger, p));
      var event := NewEvent(AgentManagement, action, p, operator, Revoked, Revision(s.ledger, p), revision, caller,
                            now);
      var ledger :- Append(s.ledger, event, operators - {operator});
      if action !in s.actions then Err(InvalidStore) else Ok(Outcome(s.(ledger := ledger), operator, true))
  }

  function Closed(record: Agent, now: Time): Agent {
    if record.retiredAt.None? then record.(retiredAt := Some(now)) else record
  }

  /** Retire an agent; when the Director closes an operator, its grant goes with it. */
  function Close(s: Snapshot, action: ActionId, p: ProjectId, primary: bool, session: SessionId, now: Time)
    : Result<Outcome<Agent>, Error>
  {
    if session !in s.agents then
      Err(OwnerActionRequired(OwnershipDisappeared))
    else
      var record := s.agents[session];
      var closed := Closed(record, now);
      var r := s.(agents := s.agents[session := closed]);
      if !primary || session !in Operators(s.ledger, p) then Ok(Outcome(r, closed, true))
      else
        var revision :- NextRevision(Revision(s.ledger, p));
        if p !in s.projects then Err(InvalidStore)
        else
          var event := NewEvent(AgentManagement, action, p, session, RemovedForDirector, Revision(s.ledger, p),
                                revision, s.projects[p].director, now);
          var ledger :- Append(r.ledger, event, Operators(s.ledger, p) - {session});
          Ok(Outcome(r.(ledger := ledger), closed, true))
  }

  /** Hand a project to a new Director; a retained predecessor becomes an operator. */
  function Rotate(s: Snapshot, action: ActionId, p: ProjectId, predecessor: SessionId, expectedEpoch: nat,
                  successor: SessionId, retain: bool, now: Time): Result<Outcome<Authority>, Error>
  {
    if predecessor == successor then Err(OwnerActionRequired(SeatTransferRefused))
    else if p !in s.projects then Err(Unauthorized)
    else if s.projects[p].director != predecessor || s.projects[p].epoch != expectedEpoch then
      Err(Conflict(StaleProjectAuthority))
    else if expectedEpoch + 1 > MAX_JSON_SAFE_INTEGER then Err(Conflict(AuthorityEpochOverflow))
    else if successor in Operators(s.ledger, p) then Err(Conflict(SuccessorPrimaryDirectorIsOperator))
    else
      var authority := Authority(p, successor, expectedEpoch + 1);
      var ledger :- Succession(s.ledger, action, p, predecessor, successor, retain, now);
      if action !in s.actions then Err(InvalidStore)
      else Ok(Outcome(s.(ledger := ledger, projects := s.projects[p := authority]), authority, true))
  }

  /** The predecessor's grant when a Director leaves. */
  function Succession(l: Ledger, action: ActionId, p: ProjectId, predecessor: SessionId,
                      successor: SessionId, retain: bool, now: Time): Result<Ledger, Error>
  {
    var operators := Operators(l, p);
    if retain == (predecessor in operators) then Ok(l)
    else
      var revision :- NextRevision(Revision(l, p));
      var kind := if retain then Retained else RemovedByRotation;
      var event := NewEvent(AgentManagement, action, p, predecessor, kind, Revision(l, p), revision, successor, now);
      var next := if retain then operators[predecessor := Grant(p, predecessor, revision, now, successor, false)]
                  else operators - {predecessor};
      Append(l, event, next)
  }

  // ---------------------------------------------------------------- the store

  /** How reading and writing the snapshot file may go. A `Garbled` file does not parse; after `SyncFails`
      the new file is in place. */
  datatype Fault = Works | ReadFails | Garbled | WriteFails | SyncFails

  /** Read, operate, raise the store revision, write back. */
  function Commit<T>(disk: Snapshot, operation: Snapshot -> Result<Outcome<T>, Error>, fault: Fault)
    : (Snapshot, Result<T, Error>)
  {
    if fault.ReadFails? then (disk, Err(PersistenceUnavailable))
    else if fault.Garbled? then (disk, Err(InvalidStore))
    else
      match operation(disk)
      case Err(e) => (disk, Err(e))
      case Ok(o) =>
        if !o.write then (disk, Ok(o.value))
        else if o.state.storeRevision + 1 > MAX_JSON_SAFE_INTEGER then
          (disk, Err(Conflict(StoreRevisionOverflow)))
        else if fault.WriteFails? then (disk, Err(PersistenceUnavailable))
        else
          var written := o.state.(storeRevision := o.state.storeRevision + 1);
          (written, if fault.SyncFails? then Err(PersistenceUnavailable) else Ok(o.value))
  }

  datatype Event =
    | Human(request: HumanRequest, now: Time)
    | Binding(bind: BindRequest)
    | Beginning(action: ActionId, project: ProjectId)
    | OtherReceipt(action: ActionId)
    | AgentRecord(agent: Agent)
    | Granting(action: ActionId, project: ProjectId, primary: bool, caller: SessionId, operator: SessionId,
               expected: nat, now: Time)
    | Revoking(action: ActionId, project: ProjectId, primary: bool, caller: SessionId, operator: SessionId,
               expected: nat, now: Time)
    | Closing(action: ActionId, project: ProjectId, primary: bool, session: SessionId, now: Time)
    | Rotating(action: ActionId, project: ProjectId, predecessor: SessionId, expectedEpoch: nat,
               successor: SessionId, retain: bool, now: Time)

  /** An agent action goes on only after it was begun in that project. */
  predicate Begun(s: Snapshot, e: Event) {
    e.Granting? || e.Revoking? || e.Closing? || e.Rotating? ==>
      e.action in s.actions && s.actions[e.action] == e.project
  }

  /** The state an event's operation asks the store to write, if any. */
  function Operate(s: Snapshot, e: Event): Result<Outcome<()>, Error> {
    match e
    case Human(r, now) => Plain(HumanAction(s, r, now))
    case Binding(r) => Plain(Bind(s, r))
    case Beginning(a, p) => Plain(Begin(s, a, p))
    case OtherReceipt(a) => Plain(TakeReceipt(s, a))
    case AgentRecord(a) => Plain(PutAgent(s, a))
    case Granting(a, p, primary, caller, o, expected, now) =>
      Plain(DirectorGrant(s, a, p, primary, caller, o, expected, now))
    case Revoking(a, p, primary, caller, o, expected, now) =>
      Plain(DirectorRevoke(s, a, p, primary, caller, o, expected, now))
    case Closing(a, p, primary, session, now) => Plain(Close(s, a, p, primary, session, now))
    case Rotating(a, p, d, epoch, successor, retain, now) =>
      Plain(Rotate(s, a, p, d, epoch, successor, retain, now))
  }

  function Plain<T>(r: Result<Outcome<T>, Error>): Result<Outcome<()>, Error> {
    match r case Ok(o) => Ok(Outcome(o.state, (), o.write)) case Err(e) => Err(e)
  }

  function Step(s: Snapshot, e: Event, fault: Fault): Snapshot {
    if Begun(s, e) then Commit(s, t => Operate(t, e), fault).0 else s
  }

  /** Any sequence of events, each with its own fault. */
  function Run(s: Snapshot, events: seq<(Event, Fault)>): Snapshot
    decreases |events|
  {
    if events == [] then s else Run(Step(s, events[0].0, events[0].1), events[1..])
  }
}
