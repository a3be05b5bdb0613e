/** The store object that the operator actions run on. */
module AgentManagementStore {
  import opened Wrappers
  import opened AuditEventId
  import opened OperatorLedger
  import opened LedgerSafety
  import opened LedgerTheorems

  /** The changes an operator action makes to its copy of the snapshot, one after another. */
  method ChangeOperators(before: Snapshot, request: HumanRequest, now: Time)
    returns (result: Result<Outcome<HumanReceipt>, Error>)
    ensures result == HumanAction(before, request, now)
  {
    var state := before;
    var id, project, operator := request.action, request.project, request.operator;
    if id in state.humanActions {
      if state.humanActions[id].request == request {
        return Ok(Outcome(state, state.humanActions[id].receipt, false));
      }
      return Err(Conflict(ActionIdPayloadConflict));
    }
    if id in state.actions || id in state.bindings || id in state.otherReceipts {
      return Err(Conflict(ActionIdDomainConflict));
    }
    if project !in state.projects {
      return Err(ProjectNotAuthorized);
    }
    var authority := state.projects[project];
    if authority.epoch != request.expectedEpoch {
      return Err(Conflict(StaleProjectAuthority));
    }
    if operator == authority.director {
      return Err(Conflict(PrimaryDirectorCannotBeOperator));
    }
    var current := Revision(state.ledger, project);
    if current != request.expectedRevision {
      return Err(Conflict(OperatorGrantRevisionConflict));
    }
    var revision :- NextRevision(current);
    var grant: Option<Grant>;
    var grants := Operators(state.ledger, project);
    match request.change {
      case GrantOperator =>
        if !ActiveIn(state, operator, project) {
          return Err(Conflict(OperatorMustBeActiveManagedAgent));
        }
        if state.agents[operator].session != operator {
          return Err(InvalidStore);
        }
        if operator in grants {
          return Err(Conflict(OperatorAlreadyGranted));
        }
        grant := Some(Grant(project, operator, revision, now, authority.director, true));
        grants := grants[operator := grant.value];
      case RevokeOperator =>
        if operator !in grants {
          return Err(Conflict(OperatorNotGranted));
        }
        var removed := grants[operator];
        grants := grants - {operator};
        if removed.project != project || removed.operator != operator {
          return Err(InvalidStore);
        }
        grant := None;
    }
    var ledger := state.ledger;
    ledger := ledger.(grants := ledger.grants[project := grants]);
    ledger := ledger.(revisions := ledger.revisions[project := revision]);
    var kind := if request.change.GrantOperator? then Granted else Revoked;
    var event := NewEvent(HumanManagement, id, project, operator, kind, current, revision, authority.director, now);
    if event.id in ledger.audit {
      return Err(InvalidStore);
    }
    ledger := ledger.(audit := ledger.audit[event.id := event]);
    state := state.(ledger := ledger);
    var roster := Roster(Revision(state.ledger, project), Operators(state.ledger, project));
    var receipt := HumanReceipt(request, authority.epoch, authority.director, current, revision, grant,
                                roster, event, now);
    state := state.(humanActions := state.humanActions[id := HumanRecord(request, receipt)]);
    return Ok(Outcome(state, receipt, true));
  }

  class Store {
    /** The snapshot in the file. */
    var disk: Snapshot

    constructor ()
      ensures disk == EMPTY_SNAPSHOT && Inv(disk)
    {
      disk := EMPTY_SNAPSHOT;
      EmptyInv();
    }

    /** Run an operation on the stored snapshot and write what it asks for. */
    method WithState<T>(operation: Snapshot -> Result<Outcome<T>, Error>, fault: Fault)
      returns (reply: Result<T, Error>)
      modifies this
      ensures (disk, reply) == Commit(old(disk), operation, fault)
    {
      if fault.ReadFails? {
        return Err(PersistenceUnavailable);
      }
      if fault.Garbled? {
        return Err(InvalidStore);
      }
      var outcome :- operation(disk);
      var state := outcome.state;
      if outcome.write {
        state := state.(storeRevision := state.storeRevision + 1);
        if state.storeRevision > MAX_JSON_SAFE_INTEGER {
          return Err(Conflict(StoreRevisionOverflow));
        }
        if fault.WriteFails? {
          return Err(PersistenceUnavailable);
        }
        disk := state;
        if fault.SyncFails? {
          return Err(PersistenceUnavailable);
        }
      }
      return Ok(outcome.value);
    }

    /** Grant or revoke an operator for Human/Management. */
    method ExecuteOperatorAction(request: HumanRequest, now: Time, fault: Fault)
      returns (reply: Result<HumanReceipt, Error>)
      requires Inv(disk)
      modifies this
      ensures Inv(disk) && disk == Step(old(disk), Human(request, now), fault)
      ensures reply == Commit(old(disk), s => HumanAction(s, request, now), fault).1
      ensures reply.Ok? ==> request.action in disk.humanActions
                            && disk.humanActions[request.action] == HumanRecord(request, reply.value)
      ensures reply.Err? && !reply.error.PersistenceUnavailable? ==> disk == old(disk)
      ensures request.action in old(disk).humanActions ==> disk == old(disk)
      ensures reply == Err(InvalidStore) <==> fault.Garbled?
    {
      ghost var before := disk;
      var operation := s => HumanAction(s, request, now);
      HumanAnswers(before, request, now);
      RepliesAreOnRecord(before, request, operation, fault);
      HumanStep(before, request, now, operation, fault);
      reply := WithState(operation, fault);
    }
  }
}
