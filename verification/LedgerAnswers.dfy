/**
 What each operation on the operator ledger answers and writes, case by case, in terms of the stored maps:
 which check refuses first, what a receipt says, and what changes.
 */
module LedgerAnswers {
  import opened Wrappers
  import opened AuditEventId
  import opened OperatorLedger
  import opened LedgerSafety
  import opened LedgerTheorems

  // ---------------------------------------------------------------- the stored maps

  predicate HasGrant(s: Snapshot, p: ProjectId, o: SessionId) {
    p in s.ledger.grants && o in s.ledger.grants[p]
  }

  function GrantsOf(s: Snapshot, p: ProjectId): map<SessionId, Grant> {
    if p in s.ledger.grants then s.ledger.grants[p] else map[]
  }

  function RevisionOf(s: Snapshot, p: ProjectId): nat {
    if p in s.ledger.revisions then s.ledger.revisions[p] else 0
  }

  predicate IsActive(s: Snapshot, o: SessionId, p: ProjectId) {
    o in s.agents && s.agents[o].project == p && s.agents[o].retiredAt == None
  }

  predicate RevisionFull(s: Snapshot, p: ProjectId) {
    RevisionOf(s, p) >= 9_007_199_254_740_991
  }

  /** The text of an event id: plane, action, and the revision in decimal. */
  lemma EventIdText(plane: Plane, action: ActionId, revision: nat)
    ensures plane == HumanManagement ==>
              EventId(plane, action, revision) == "human-management:" + action + ":operator-grant:" + Decimal(revision)
    ensures plane == AgentManagement ==>
              EventId(plane, action, revision) == "agent-management:" + action + ":operator-grant:" + Decimal(revision)
  {
  }

  /** What the checks of an operation find in a store that keeps the invariant: records and grants under their own
      keys, no grant for a Director, and the id of the next event unused. */
  ghost predicate Orderly(s: Snapshot, plane: Plane, a: ActionId, p: ProjectId) {
    && AgentsKeyed(s.agents)
    && DirectorsApart(s.ledger, s.projects)
    && (forall o :: HasGrant(s, p, o) ==> s.ledger.grants[p][o].project == p && s.ledger.grants[p][o].operator == o)
    && EventId(plane, a, RevisionOf(s, p) + 1) !in s.ledger.audit
  }

  lemma GrantsInOrder(s: Snapshot, p: ProjectId)
    requires Chains(s.ledger)
    ensures forall o :: HasGrant(s, p, o) ==>
              s.ledger.grants[p][o].project == p && s.ledger.grants[p][o].operator == o
  {
    forall o | HasGrant(s, p, o)
      ensures s.ledger.grants[p][o].project == p && s.ledger.grants[p][o].operator == o
    {
      GrantsAreKeyed(s.ledger, p, o);
    }
  }

  /** Every reachable store is orderly for a new human action and for a begun agent action. */
  lemma ReachableIsOrderly(s: Snapshot, plane: Plane, a: ActionId, p: ProjectId)
    requires Inv(s)
    requires plane.HumanManagement? ==> a !in s.humanActions
    requires plane.AgentManagement? ==> a in s.actions && s.actions[a] == p
    ensures Orderly(s, plane, a, p)
  {
    GrantsInOrder(s, p);
    var revision := RevisionOf(s, p) + 1;
    var e := AuditEvent(EventId(plane, a, revision), plane, a, p, "", Revoked, revision - 1, revision, "", 0);
    NextIdIsNew(s.ledger, e, Apply(Operators(s.ledger, p), e), s.humanActions, s.actions);
  }

  /** `t` has the operators of one project replaced and the next event of that project filed. */
  predicate Files(s: Snapshot, t: Snapshot, p: ProjectId, operators: map<SessionId, Grant>, plane: Plane,
                  action: ActionId, operator: SessionId, kind: AuditKind, director: SessionId, now: Time)
  {
    var revision := RevisionOf(s, p) + 1;
    var id := EventId(plane, action, revision);
    && t.ledger.grants == s.ledger.grants[p := operators]
    && t.ledger.revisions == s.ledger.revisions[p := revision]
    && t.ledger.audit == s.ledger.audit[id := AuditEvent(id, plane, action, p, operator, kind, revision - 1,
                                                         revision, director, now)]
  }

  // ---------------------------------------------------------------- the Human/Management action

  /** The first check that a new action fails, in the order they are made; None if it passes. */
  function Refusal(s: Snapshot, r: HumanRequest): Option<Error> {
    if r.action in s.actions || r.action in s.bindings || r.action in s.otherReceipts then
      Some(Conflict(ActionIdDomainConflict))
    else if r.project !in s.projects then Some(ProjectNotAuthorized)
    else if s.projects[r.project].epoch != r.expectedEpoch then Some(Conflict(StaleProjectAuthority))
    else if s.projects[r.project].director == r.operator then Some(Conflict(PrimaryDirectorCannotBeOperator))
    else if RevisionOf(s, r.project) != r.expectedRevision then Some(Conflict(OperatorGrantRevisionConflict))
    else if RevisionFull(s, r.project) then Some(Conflict(OperatorGrantRevisionOverflow))
    else if r.change == GrantOperator && !IsActive(s, r.operator, r.project) then
      Some(Conflict(OperatorMustBeActiveManagedAgent))
    else if r.change == GrantOperator && HasGrant(s, r.project, r.operator) then Some(Conflict(OperatorAlreadyGranted))
    else if r.change == RevokeOperator && !HasGrant(s, r.project, r.operator) then Some(Conflict(OperatorNotGranted))
    else None
  }

  /** A new action is refused with the code of the first check it fails, and committed if it fails none. */
  lemma HumanRefusedExactlyWhen(s: Snapshot, r: HumanRequest, now: Time)
    requires Orderly(s, HumanManagement, r.action, r.project) && r.action !in s.humanActions
    ensures match Refusal(s, r)
            case Some(e) => HumanAction(s, r, now) == Err(e)
            case None => HumanAction(s, r, now).Ok? && HumanAction(s, r, now).value.write
  {
  }

  /** The grant a committed request makes. */
  function MadeGrant(s: Snapshot, r: HumanRequest, now: Time): Grant
    requires r.project in s.projects
  {
    Grant(r.project, r.operator, RevisionOf(s, r.project) + 1, now, s.projects[r.project].director, true)
  }

  /**
   The receipt of a committed action tells what was written: the grant that now stands, or none after a
   revoke; the roster of the project as it now is; the event as it is filed; and who, when and against what.
   */
  lemma ReceiptTells(s: Snapshot, r: HumanRequest, now: Time)
    requires r.action !in s.humanActions && HumanAction(s, r, now).Ok?
    ensures r.project in s.projects
    ensures var t, receipt := HumanAction(s, r, now).value.state, HumanAction(s, r, now).value.value;
            var p, director := r.project, s.projects[r.project].director;
            && p in t.ledger.grants && p in t.ledger.revisions
            && (if r.change == GrantOperator
                then r.operator in t.ledger.grants[p] && receipt.grant == Some(t.ledger.grants[p][r.operator])
                     && receipt.grant == Some(MadeGrant(s, r, now))
                else receipt.grant == None && r.operator !in t.ledger.grants[p])
            && receipt.roster == Roster(t.ledger.revisions[p], t.ledger.grants[p])
            && receipt.event.id in t.ledger.audit && t.ledger.audit[receipt.event.id] == receipt.event
            && receipt.request == r && receipt.epoch == s.projects[p].epoch && receipt.director == director
            && receipt.previous == RevisionOf(s, p) && receipt.revision == RevisionOf(s, p) + 1
            && receipt.committedAt == now
            && r.action in t.humanActions && t.humanActions[r.action] == HumanRecord(r, receipt)
  {
    HumanForm(s, r, now);
  }

  /** What a committed action writes, and nothing else. */
  lemma CommitWrites(s: Snapshot, r: HumanRequest, now: Time)
    requires r.action !in s.humanActions && HumanAction(s, r, now).Ok?
    ensures r.project in s.projects
    ensures var t := HumanAction(s, r, now).value.state;
            var before := GrantsOf(s, r.project);
            && Files(s, t, r.project,
                     if r.change == GrantOperator then before[r.operator := MadeGrant(s, r, now)]
                     else before - {r.operator},
                     HumanManagement, r.action, r.operator, if r.change == GrantOperator then Granted else Revoked,
                     s.projects[r.project].director, now)
            && t == s.(ledger := t.ledger, humanActions := t.humanActions)
            && t.humanActions == s.humanActions[r.action := t.humanActions[r.action]]
  {
    HumanForm(s, r, now);
  }

  // ---------------------------------------------------------------- the store

  /** The reply of the store, by what the operation asks and what fails; the write comes last. */
  lemma CommitAnswers<T>(s: Snapshot, operation: Snapshot -> Result<Outcome<T>, Error>, fault: Fault)
    ensures var (t, reply) := Commit(s, operation, fault);
            if fault == ReadFails then t == s && reply == Err(PersistenceUnavailable)
            else if fault == Garbled then t == s && reply == Err(InvalidStore)
            else if operation(s).Err? then t == s && reply == Err(operation(s).error)
            else if !operation(s).value.write then t == s && reply == Ok(operation(s).value.value)
            else if operation(s).value.state.storeRevision >= 9_007_199_254_740_991 then
              t == s && reply == Err(Conflict(StoreRevisionOverflow))
            else if fault == WriteFails then t == s && reply == Err(PersistenceUnavailable)
            else
              && t == operation(s).value.state.(storeRevision := operation(s).value.state.storeRevision + 1)
              && reply == if fault == SyncFails then Err(PersistenceUnavailable) else Ok(operation(s).value.value)
  {
  }

  // ---------------------------------------------------------------- authority and action ids

  /** Binding a project: a first Director at epoch one, or the successor of the Director and epoch the caller
      names, one epoch later; never an operator of the project, and never under an id of another domain. */
  lemma BindAnswers(s: Snapshot, r: BindRequest)
    ensures var answer := Bind(s, r);
            if r.expectedEpoch == Some(0) || (r.expectedDirector == None) != (r.expectedEpoch == None) then
              answer == Err(InvalidRequest(AuthorityExpectationsMustBeComplete))
            else if r.action in s.actions || r.action in s.humanActions || r.action in s.otherReceipts then
              answer == Err(Conflict(ActionIdDomainConflict))
            else if r.action in s.bindings then
              if s.bindings[r.action].request == r
              then answer == Ok(Outcome(s, s.bindings[r.action].authority, false))
              else answer == Err(Conflict(ActionIdPayloadConflict))
            else if r.project !in s.projects && r.expectedDirector != None then
              answer == Err(Conflict(ProjectAuthorityNotInitialized))
            else if r.project in s.projects
                    && (r.expectedDirector != Some(s.projects[r.project].director)
                        || r.expectedEpoch != Some(s.projects[r.project].epoch)) then
              answer == Err(Conflict(StaleProjectAuthority))
            else if r.project in s.projects && s.projects[r.project].epoch >= 9_007_199_254_740_991 then
              answer == Err(Conflict(AuthorityEpochOverflow))
            else if HasGrant(s, r.project, r.director) then
              answer == Err(Conflict(PrimaryDirectorCannotBeOperator))
            else
              var epoch := if r.project in s.projects then s.projects[r.project].epoch + 1 else 1;
              var bound := Authority(r.project, r.director, epoch);
              && answer.Ok? && answer.value.write && answer.value.value == bound
              && answer.value.state == s.(projects := s.projects[r.project := bound],
                                          bindings := s.bindings[r.action := BindRecord(r, bound)])
  {
  }

  /** Beginning an action binds its id to one project for good. */
  lemma BeginAnswers(s: Snapshot, action: ActionId, p: ProjectId)
    ensures var answer := Begin(s, action, p);
            if action in s.bindings || action in s.humanActions || action in s.otherReceipts then
              answer == Err(Conflict(ActionIdDomainConflict))
            else if action in s.actions && s.actions[action] != p then
              answer == Err(Conflict(ActionIdentityConflict))
            else
              && answer.Ok? && (answer.value.write <==> action !in s.actions)
              && answer.value.state == s.(actions := s.actions[action := p])
  {
  }

  lemma ReceiptIdAnswers(s: Snapshot, action: ActionId)
    ensures var answer := TakeReceipt(s, action);
            if action in s.actions || action in s.humanActions || action in s.bindings then
              answer == Err(Conflict(ActionIdDomainConflict))
            else
              && answer.Ok? && (answer.value.write <==> action !in s.otherReceipts)
              && answer.value.state == s.(otherReceipts := s.otherReceipts + {action})
  {
  }

  // ---------------------------------------------------------------- the Director's own writes

  /** The Director's grant: only the Director itself, only at the expected revision, only an active agent of the
      project that is not the Director and holds no grant. */
  lemma DirectorGrantAnswers(s: Snapshot, a: ActionId, p: ProjectId, primary: bool, caller: SessionId,
                             o: SessionId, expected: nat, now: Time)
    requires Orderly(s, AgentManagement, a, p) && a in s.actions
    ensures var answer := DirectorGrant(s, a, p, primary, caller, o, expected, now);
            if primary && p !in s.projects then answer == Err(ProjectNotAuthorized)
            else if !primary || s.projects[p].director != caller then answer == Err(NotAuthorizedDirector)
            else if o == caller then answer == Err(Conflict(PrimaryDirectorCannotBeOperator))
            else if !IsActive(s, o, p) then answer == Err(Conflict(OperatorMustBeActiveManagedAgent))
            else if RevisionOf(s, p) != expected then answer == Err(Conflict(OperatorGrantRevisionConflict))
            else if HasGrant(s, p, o) then answer == Err(Conflict(OperatorAlreadyGranted))
            else if RevisionFull(s, p) then answer == Err(Conflict(OperatorGrantRevisionOverflow))
            else
              var grant := Grant(p, o, RevisionOf(s, p) + 1, now, caller, false);
              && answer.Ok? && answer.value.write && answer.value.value == grant
              && answer.value.state == s.(ledger := answer.value.state.ledger)
              && Files(s, answer.value.state, p, GrantsOf(s, p)[o := grant], AgentManagement, a, o, Granted, caller,
                       now)
  {
  }

  lemma DirectorRevokeAnswers(s: Snapshot, a: ActionId, p: ProjectId, primary: bool, caller: SessionId,
                              o: SessionId, expected: nat, now: Time)
    requires Orderly(s, AgentManagement, a, p) && a in s.actions
    ensures var answer := DirectorRevoke(s, a, p, primary, caller, o, expected, now);
            if primary && p !in s.projects then answer == Err(ProjectNotAuthorized)
            else if !primary || s.projects[p].director != caller then answer == Err(NotAuthorizedDirector)
            else if RevisionOf(s, p) != expected then answer == Err(Conflict(OperatorGrantRevisionConflict))
            else if !HasGrant(s, p, o) then answer == Err(Conflict(OperatorNotGranted))
            else if RevisionFull(s, p) then answer == Err(Conflict(OperatorGrantRevisionOverflow))
            else
              && answer.Ok? && answer.value.write && answer.value.value == o
              && answer.value.state == s.(ledger := answer.value.state.ledger)
              && Files(s, answer.value.state, p, GrantsOf(s, p) - {o}, AgentManagement, a, o, Revoked, caller, now)
  {
  }

  /** Closing retires the agent, once, and keeps the rest of its record; the Director's close of an operator takes
      its grant away as well, and is refused only when the revision cannot rise. */
  lemma CloseAnswers(s: Snapshot, a: ActionId, p: ProjectId, primary: bool, session: SessionId, now: Time)
    requires Orderly(s, AgentManagement, a, p) && a in s.actions
    ensures var answer := Close(s, a, p, primary, session, now);
            if session !in s.agents then answer == Err(OwnerActionRequired(OwnershipDisappeared))
            else if primary && HasGrant(s, p, session) && RevisionFull(s, p) then
              answer == Err(Conflict(OperatorGrantRevisionOverflow))
            else
              && answer.Ok? && answer.value.write
              && var record, t := s.agents[session], answer.value.state;
              var retired := Agent(session, record.project,
                                   if record.retiredAt == None then Some(now) else record.retiredAt);
              && answer.value.value == retired
              && t == s.(agents := s.agents[session := retired], ledger := t.ledger)
              && if primary && HasGrant(s, p, session)
                 then p in s.projects
                      && Files(s, t, p, GrantsOf(s, p) - {session}, AgentManagement, a, session, RemovedForDirector,
                               s.projects[p].director, now)
                 else t.ledger == s.ledger
  {
  }

  /** A rotation hands the project from the Director named to a successor that is no operator, one epoch later;
      a retained predecessor is granted by its successor, and a closed one had no grant to lose. */
  lemma RotateAnswers(s: Snapshot, a: ActionId, p: ProjectId, predecessor: SessionId, expectedEpoch: nat,
                      successor: SessionId, retain: bool, now: Time)
    requires Orderly(s, AgentManagement, a, p) && a in s.actions
    ensures var answer := Rotate(s, a, p, predecessor, expectedEpoch, successor, retain, now);
            if predecessor == successor then answer == Err(OwnerActionRequired(SeatTransferRefused))
            else if p !in s.projects then answer == Err(Unauthorized)
            else if s.projects[p].director != predecessor || s.projects[p].epoch != expectedEpoch then
              answer == Err(Conflict(StaleProjectAuthority))
            else if expectedEpoch >= 9_007_199_254_740_991 then answer == Err(Conflict(AuthorityEpochOverflow))
            else if HasGrant(s, p, successor) then answer == Err(Conflict(SuccessorPrimaryDirectorIsOperator))
            else if retain && RevisionFull(s, p) then answer == Err(Conflict(OperatorGrantRevisionOverflow))
            else
              && answer.Ok? && answer.value.write
              && var bound, t := Authority(p, successor, expectedEpoch + 1), answer.value.state;
              && answer.value.value == bound
              && t == s.(projects := s.projects[p := bound], ledger := t.ledger)
              && if retain
                 then Files(s, t, p, GrantsOf(s, p)[predecessor := Grant(p, predecessor, RevisionOf(s, p) + 1, now,
                                                                        successor, false)],
                            AgentManagement, a, predecessor, Retained, successor, now)
                 else t.ledger == s.ledger
  {
  }
}
