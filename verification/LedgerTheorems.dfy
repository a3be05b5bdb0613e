/** What holds of the operator ledger over every run, with every fault. */
module LedgerTheorems {
  import opened Wrappers
  import opened AuditEventId
  import opened OperatorLedger
  import opened LedgerSafety

  // ---------------------------------------------------------------- the audit chain

  /** In every run from the empty store, a project's audit events are one gapless chain that makes its grants. */
  lemma AuditIsGapless(events: seq<(Event, Fault)>, p: ProjectId)
    ensures exists chain :: IsChain(Run(EMPTY_SNAPSHOT, events).ledger, p, chain)
  {
    EmptyInv();
    RunKeepsInv(EMPTY_SNAPSHOT, events);
    assert Chained(Run(EMPTY_SNAPSHOT, events).ledger, p);
  }

  /** Two audit events that start from the same revision of a project are one event. */
  lemma OneEventPerRevision(l: Ledger, i: string, j: string)
    requires Chains(l) && i in l.audit && j in l.audit
    requires l.audit[i].project == l.audit[j].project && l.audit[i].previous == l.audit[j].previous
    ensures l.audit[i] == l.audit[j]
  {
    var p := l.audit[i].project;
    assert Chained(l, p);
    var chain :| IsChain(l, p, chain);
    assert l.audit[i] in chain && l.audit[j] in chain;
  }

  /** In every run, no two action ids commit against the same expected revision of a project. */
  lemma OneWinnerPerRevision(events: seq<(Event, Fault)>, a: ActionId, b: ActionId)
    requires var s := Run(EMPTY_SNAPSHOT, events);
             && a in s.humanActions && b in s.humanActions
             && s.humanActions[a].request.project == s.humanActions[b].request.project
             && s.humanActions[a].request.expectedRevision == s.humanActions[b].request.expectedRevision
    ensures a == b
  {
    EmptyInv();
    RunKeepsInv(EMPTY_SNAPSHOT, events);
    var s := Run(EMPTY_SNAPSHOT, events);
    assert Recorded(s.ledger, a, s.humanActions[a]) && Recorded(s.ledger, b, s.humanActions[b]);
    OneEventPerRevision(s.ledger, s.humanActions[a].receipt.event.id, s.humanActions[b].receipt.event.id);
  }

  /** In every run, an action of the human plane has filed exactly the event of its receipt. */
  lemma OneEventPerAction(events: seq<(Event, Fault)>, id: string)
    requires id in Run(EMPTY_SNAPSHOT, events).ledger.audit
    requires Run(EMPTY_SNAPSHOT, events).ledger.audit[id].plane.HumanManagement?
    ensures var s := Run(EMPTY_SNAPSHOT, events);
            var e := s.ledger.audit[id];
            e.action in s.humanActions && s.humanActions[e.action].receipt.event == e
  {
    EmptyInv();
    RunKeepsInv(EMPTY_SNAPSHOT, events);
    var s := Run(EMPTY_SNAPSHOT, events);
    assert Filed(s.ledger.audit[id], id, s.humanActions, s.actions);
  }

  /** In every run, no Director holds a grant in its own project and no action id serves two domains. */
  lemma RolesAndDomainsStayApart(events: seq<(Event, Fault)>)
    ensures var s := Run(EMPTY_SNAPSHOT, events);
            && DomainsApart(s)
            && forall p :: p in s.projects ==> s.projects[p].director !in Operators(s.ledger, p)
  {
    EmptyInv();
    RunKeepsInv(EMPTY_SNAPSHOT, events);
  }

  /** In every run, an operation answers that the store is invalid if and only if the file does not parse. */
  lemma StoreIsInvalidOnlyIfGarbled(events: seq<(Event, Fault)>, e: Event, fault: Fault)
    requires Begun(Run(EMPTY_SNAPSHOT, events), e)
    ensures Commit(Run(EMPTY_SNAPSHOT, events), t => Operate(t, e), fault).1 == Err(InvalidStore) <==> fault.Garbled?
  {
    EmptyInv();
    RunKeepsInv(EMPTY_SNAPSHOT, events);
    OperateKeepsInv(Run(EMPTY_SNAPSHOT, events), e);
  }

  // ---------------------------------------------------------------- history only grows

  /** Audit events and Human/Management records are never changed or dropped. */
  predicate Grows(s: Snapshot, t: Snapshot) {
    && (forall id :: id in s.ledger.audit ==> id in t.ledger.audit && t.ledger.audit[id] == s.ledger.audit[id])
    && (forall a :: a in s.humanActions ==> a in t.humanActions && t.humanActions[a] == s.humanActions[a])
  }

  lemma HumanGrows(s: Snapshot, r: HumanRequest, now: Time)
    requires HumanAction(s, r, now).Ok?
    ensures Grows(s, HumanAction(s, r, now).value.state)
    ensures HumanAction(s, r, now).value.state.storeRevision == s.storeRevision
  {
  }

  lemma CloseGrows(s: Snapshot, a: ActionId, p: ProjectId, primary: bool, session: SessionId, now: Time)
    requires Close(s, a, p, primary, session, now).Ok?
    ensures Grows(s, Close(s, a, p, primary, session, now).value.state)
    ensures Close(s, a, p, primary, session, now).value.state.storeRevision == s.storeRevision
  {
  }

  lemma RotateGrows(s: Snapshot, a: ActionId, p: ProjectId, predecessor: SessionId, epoch: nat,
                    successor: SessionId, retain: bool, now: Time)
    requires Rotate(s, a, p, predecessor, epoch, successor, retain, now).Ok?
    ensures Grows(s, Rotate(s, a, p, predecessor, epoch, successor, retain, now).value.state)
    ensures Rotate(s, a, p, predecessor, epoch, successor, retain, now).value.state.storeRevision == s.storeRevision
  {
  }

  lemma GrantGrows(s: Snapshot, a: ActionId, p: ProjectId, primary: bool, caller: SessionId,
                   operator: SessionId, expected: nat, now: Time)
    requires DirectorGrant(s, a, p, primary, caller, operator, expected, now).Ok?
    ensures Grows(s, DirectorGrant(s, a, p, primary, caller, operator, expected, now).value.state)
    ensures DirectorGrant(s, a, p, primary, caller, operator, expected, now).value.state.storeRevision
            == s.storeRevision
  {
  }

  lemma RevokeGrows(s: Snapshot, a: ActionId, p: ProjectId, primary: bool, caller: SessionId,
                    operator: SessionId, expected: nat, now: Time)
    requires DirectorRevoke(s, a, p, primary, caller, operator, expected, now).Ok?
    ensures Grows(s, DirectorRevoke(s, a, p, primary, caller, operator, expected, now).value.state)
    ensures DirectorRevoke(s, a, p, primary, caller, operator, expected, now).value.state.storeRevision
            == s.storeRevision
  {
  }

  lemma OperateGrows(s: Snapshot, e: Event)
    requires Operate(s, e).Ok?
    ensures Grows(s, Operate(s, e).value.state)
    ensures Operate(s, e).value.state.storeRevision == s.storeRevision
  {
    match e
    case Human(r, now) => HumanGrows(s, r, now);
    case Granting(a, p, primary, caller, o, expected, now) =>
      GrantGrows(s, a, p, primary, caller, o, expected, now);
    case Revoking(a, p, primary, caller, o, expected, now) =>
      RevokeGrows(s, a, p, primary, caller, o, expected, now);
    case Closing(a, p, primary, session, now) => CloseGrows(s, a, p, primary, session, now);
    case Rotating(a, p, d, epoch, successor, retain, now) =>
      RotateGrows(s, a, p, d, epoch, successor, retain, now);
    case _ =>
  }

  lemma StepGrows(s: Snapshot, e: Event, fault: Fault)
    ensures Grows(s, Step(s, e, fault))
    ensures Step(s, e, fault) == s || s.storeRevision + 1 == Step(s, e, fault).storeRevision <= MAX_JSON_SAFE_INTEGER
  {
    if Operate(s, e).Ok? {
      OperateGrows(s, e);
    }
  }

  /** A store revision names one store: a run that ends at the revision it began with has changed nothing. */
  lemma {:induction false} RunGrows(s: Snapshot, events: seq<(Event, Fault)>)
    ensures Grows(s, Run(s, events))
    ensures s.storeRevision <= Run(s, events).storeRevision <= s.storeRevision + |events|
    ensures s.storeRevision == Run(s, events).storeRevision ==> Run(s, events) == s
    decreases |events|
  {
    if events != [] {
      StepGrows(s, events[0].0, events[0].1);
      RunGrows(Step(s, events[0].0, events[0].1), events[1..]);
    }
  }

  /** The chain of an earlier ledger is a prefix of the chain of a later one. */
  lemma ChainIsPrefix(s: Snapshot, t: Snapshot, p: ProjectId, before: seq<AuditEvent>, after: seq<AuditEvent>)
    requires Grows(s, t) && IsChain(s.ledger, p, before) && IsChain(t.ledger, p, after)
    ensures before <= after
  {
    forall i | 0 <= i < |before| ensures i < |after| && after[i] == before[i] {
      assert t.ledger.audit[before[i].id] in after;
    }
    assert |before| > 0 ==> |before| - 1 < |after|;
  }

  /**
   A grant revision names one set of grants: if it is the same at two moments of a run, the grants are
   the same, whatever happened in between; otherwise it has risen.
   */
  lemma SameRevisionSameGrants(s: Snapshot, events: seq<(Event, Fault)>, p: ProjectId)
    requires Inv(s)
    ensures Revision(s.ledger, p) <= Revision(Run(s, events).ledger, p)
    ensures Revision(s.ledger, p) == Revision(Run(s, events).ledger, p) ==>
              Operators(s.ledger, p) == Operators(Run(s, events).ledger, p)
  {
    var t := Run(s, events);
    RunKeepsInv(s, events);
    RunGrows(s, events);
    assert Chained(s.ledger, p) && Chained(t.ledger, p);
    var before :| IsChain(s.ledger, p, before);
    var after :| IsChain(t.ledger, p, after);
    ChainIsPrefix(s, t, p, before, after);
    assert |before| == |after| ==> before == after;
  }

  // ---------------------------------------------------------------- replays and refusals

  /**
   Replaying a committed action at any later time returns its stored receipt, and the whole store,
   store revision included, stays as it is; only a store that cannot be read keeps the receipt back.
   */
  lemma ReplayReturnsReceipt(s: Snapshot, a: ActionId, events: seq<(Event, Fault)>, now: Time, fault: Fault)
    requires Inv(s) && a in s.humanActions
    ensures var t := Run(s, events);
            var record := s.humanActions[a];
            var reply := if fault.ReadFails? then Err(PersistenceUnavailable)
                         else if fault.Garbled? then Err(InvalidStore)
                         else Ok(record.receipt);
            Commit(t, u => HumanAction(u, record.request, now), fault) == (t, reply)
  {
    RunGrows(s, events);
    assert Recorded(s.ledger, a, s.humanActions[a]);
  }

  /** An action id once committed is refused with any other payload. */
  lemma OtherPayloadIsRefused(s: Snapshot, r: HumanRequest, events: seq<(Event, Fault)>, now: Time)
    requires r.action in s.humanActions && s.humanActions[r.action].request != r
    ensures HumanAction(Run(s, events), r, now) == Err(Conflict(ActionIdPayloadConflict))
  {
    RunGrows(s, events);
  }

  /**
   An error other than `PersistenceUnavailable` leaves the store as it was; so does that one, unless
   the failure came after the new file was in place. A write raises the store revision by one.
   */
  lemma RefusalChangesNothing<T>(s: Snapshot, operation: Snapshot -> Result<Outcome<T>, Error>, fault: Fault)
    ensures var (t, reply) := Commit(s, operation, fault);
            && (reply.Err? && t != s ==> reply.error.PersistenceUnavailable? && fault.SyncFails?)
            && (t != s ==>
                  && operation(s).Ok? && operation(s).value.write
                  && t == operation(s).value.state.(storeRevision := t.storeRevision)
                  && t.storeRevision == operation(s).value.state.storeRevision + 1 <= MAX_JSON_SAFE_INTEGER)
  {
  }

  /** An answer is on record in the state it comes with, and only a new action asks for a write. */
  predicate Answers(s: Snapshot, r: HumanRequest, result: Result<Outcome<HumanReceipt>, Error>) {
    && result != Err(InvalidStore)
    && (result.Ok? ==>
          var o := result.value;
          && r.action in o.state.humanActions && o.state.humanActions[r.action] == HumanRecord(r, o.value)
          && (o.write <==> r.action !in s.humanActions)
          && (!o.write ==> o.state == s))
  }

  lemma HumanAnswers(s: Snapshot, r: HumanRequest, now: Time)
    requires Inv(s)
    ensures Answers(s, r, HumanAction(s, r, now))
  {
    HumanKeepsInv(s, r, now);
    if r.action !in s.humanActions && HumanAction(s, r, now).Ok? {
      HumanForm(s, r, now);
    }
  }

  lemma HumanStep(s: Snapshot, r: HumanRequest, now: Time,
                  operation: Snapshot -> Result<Outcome<HumanReceipt>, Error>, fault: Fault)
    requires Inv(s) && operation(s) == HumanAction(s, r, now)
    ensures Commit(s, operation, fault).0 == Step(s, Human(r, now), fault)
    ensures Inv(Commit(s, operation, fault).0)
  {
    StepKeepsInv(s, Human(r, now), fault);
  }

  /** A receipt is answered only when it is on record; any error but one means nothing was written. */
  lemma RepliesAreOnRecord(s: Snapshot, r: HumanRequest, operation: Snapshot -> Result<Outcome<HumanReceipt>, Error>,
                           fault: Fault)
    requires Answers(s, r, operation(s))
    ensures var (t, reply) := Commit(s, operation, fault);
            && (reply.Ok? ==> r.action in t.humanActions && t.humanActions[r.action] == HumanRecord(r, reply.value))
            && (reply.Err? && !reply.error.PersistenceUnavailable? ==> t == s)
            && (r.action in s.humanActions ==> t == s)
            && (reply == Err(InvalidStore) <==> fault.Garbled?)
  {
  }

  /** Retrying after any reply commits an accepted action exactly once, and both replies that arrive agree. */
  lemma RetryCommitsOnce(s: Snapshot, r: HumanRequest, now: Time, later: Time, fault: Fault)
    requires Inv(s) && HumanAction(s, r, now).Ok? && r.action !in s.humanActions
    requires s.storeRevision < MAX_JSON_SAFE_INTEGER
    ensures var (t, first) := Commit(s, u => HumanAction(u, r, now), fault);
            var (u, second) := Commit(t, v => HumanAction(v, r, later), Works);
            && (fault.SyncFails? || fault.Works? ==> u == t && second == Ok(HumanAction(s, r, now).value.value))
            && (fault.ReadFails? || fault.Garbled? || fault.WriteFails? ==>
                  && t == s && second.Ok? && u.storeRevision == s.storeRevision + 1
                  && r.action in u.humanActions && u.humanActions[r.action] == HumanRecord(r, second.value))
            && (first.Ok? ==> first == second)
  {
    HumanForm(s, r, now);
    AcceptedAnyTime(s, r, now, later);
    RecordedOnWrite(s, r, later, v => HumanAction(v, r, later));
  }

  /** Whether a new action is accepted does not depend on the time. */
  lemma AcceptedAnyTime(s: Snapshot, r: HumanRequest, now: Time, later: Time)
    requires Inv(s) && r.action !in s.humanActions && HumanAction(s, r, now).Ok?
    ensures HumanAction(s, r, later).Ok?
  {
    CommitsExactlyWhen(s, r, now);
    CommitsExactlyWhen(s, r, later);
  }

  lemma RecordedOnWrite(s: Snapshot, r: HumanRequest, now: Time,
                        operation: Snapshot -> Result<Outcome<HumanReceipt>, Error>)
    requires Inv(s) && r.action !in s.humanActions && s.storeRevision < MAX_JSON_SAFE_INTEGER
    requires operation(s) == HumanAction(s, r, now) && HumanAction(s, r, now).Ok?
    ensures var (t, reply) := Commit(s, operation, Works);
            && reply.Ok? && t.storeRevision == s.storeRevision + 1
            && r.action in t.humanActions && t.humanActions[r.action] == HumanRecord(r, reply.value)
  {
    HumanForm(s, r, now);
  }

  /** What a commit does to the ledger of its own project and of the others. */
  lemma HumanEffect(s: Snapshot, r: HumanRequest, now: Time)
    requires r.action !in s.humanActions && HumanAction(s, r, now).Ok?
    ensures r.project in s.projects
    ensures var t := HumanAction(s, r, now).value.state;
            var grant := Grant(r.project, r.operator, Revision(s.ledger, r.project) + 1, now,
                               s.projects[r.project].director, true);
            var operators := Operators(s.ledger, r.project);
            && Revision(t.ledger, r.project) == Revision(s.ledger, r.project) + 1
            && Operators(t.ledger, r.project) == (if r.change.GrantOperator? then operators[r.operator := grant]
                                                  else operators - {r.operator})
            && (r.change.GrantOperator? <==> r.operator !in operators)
            && (forall p :: p != r.project ==> Operators(t.ledger, p) == Operators(s.ledger, p))
            && (forall p :: p != r.project ==> Revision(t.ledger, p) == Revision(s.ledger, p))
            && t == s.(ledger := t.ledger, humanActions := t.humanActions)
            && t.humanActions.Keys == s.humanActions.Keys + {r.action}
            && r.expectedEpoch == s.projects[r.project].epoch
            && r.expectedRevision == Revision(s.ledger, r.project)
  {
    HumanForm(s, r, now);
  }

  predicate ActionIsNew(s: Snapshot, a: ActionId) {
    a !in s.humanActions && a !in s.actions && a !in s.bindings && a !in s.otherReceipts
  }

  /** A new Human/Management action commits exactly when all of this holds; nothing else can stop it. */
  lemma CommitsExactlyWhen(s: Snapshot, r: HumanRequest, now: Time)
    requires Inv(s) && r.action !in s.humanActions
    ensures HumanAction(s, r, now).Ok? <==>
              && ActionIsNew(s, r.action)
              && r.project in s.projects && r.expectedEpoch == s.projects[r.project].epoch
              && r.operator != s.projects[r.project].director
              && r.expectedRevision == Revision(s.ledger, r.project) < MAX_JSON_SAFE_INTEGER
              && if r.change.GrantOperator?
                 then ActiveIn(s, r.operator, r.project) && r.operator !in Operators(s.ledger, r.project)
                 else r.operator in Operators(s.ledger, r.project)
  {
    if r.project in s.projects {
      HumanFindsStoreValid(s, r, now);
    }
  }

  /** With a new action id, the current epoch and the current revision, a revoke of an operator commits. */
  lemma RevokeCommits(s: Snapshot, r: HumanRequest, now: Time)
    requires Inv(s) && ActionIsNew(s, r.action) && r.change.RevokeOperator? && r.project in s.projects
    requires r.operator in Operators(s.ledger, r.project)
    requires r.expectedEpoch == s.projects[r.project].epoch
    requires r.expectedRevision == Revision(s.ledger, r.project) < MAX_JSON_SAFE_INTEGER
    ensures HumanAction(s, r, now).Ok?
    ensures var l := HumanAction(s, r, now).value.state.ledger;
            && Operators(l, r.project) == Operators(s.ledger, r.project) - {r.operator}
            && (forall p :: p != r.project ==> Operators(l, p) == Operators(s.ledger, p))
            && Revision(l, r.project) == Revision(s.ledger, r.project) + 1
  {
    CommitsExactlyWhen(s, r, now);
    HumanEffect(s, r, now);
  }

  lemma RemovingUndoesAdding(operators: map<SessionId, Grant>, o: SessionId, g: Grant)
    requires o !in operators
    ensures operators[o := g] - {o} == operators
  {
  }

  /** The request that undoes a grant. */
  function UndoOf(grant: HumanRequest, undo: ActionId): HumanRequest {
    HumanRequest(undo, grant.project, grant.expectedEpoch, grant.expectedRevision + 1, RevokeOperator, grant.operator)
  }

  lemma UndoRestores(l: Ledger, t: Snapshot, grant: HumanRequest, undo: ActionId, g: Grant, later: Time)
    requires Inv(t) && ActionIsNew(t, undo) && grant.project in t.projects
    requires grant.expectedEpoch == t.projects[grant.project].epoch
    requires grant.expectedRevision + 1 == Revision(t.ledger, grant.project) < MAX_JSON_SAFE_INTEGER
    requires grant.operator !in Operators(l, grant.project)
    requires Operators(t.ledger, grant.project) == Operators(l, grant.project)[grant.operator := g]
    requires forall p :: p != grant.project ==> Operators(t.ledger, p) == Operators(l, p)
    ensures HumanAction(t, UndoOf(grant, undo), later).Ok?
    ensures var u := HumanAction(t, UndoOf(grant, undo), later).value.state.ledger;
            && (forall p :: Operators(u, p) == Operators(l, p))
            && Revision(u, grant.project) == grant.expectedRevision + 2
  {
    RevokeCommits(t, UndoOf(grant, undo), later);
    RemovingUndoesAdding(Operators(l, grant.project), grant.operator, g);
  }

  /**
   A granted operator can be revoked at the next revision with any new action id, and that restores the
   grants of every project, two revisions later.
   */
  lemma GrantThenRevokeRestores(s: Snapshot, grant: HumanRequest, undo: ActionId, now: Time, later: Time)
    requires Inv(s) && grant.change.GrantOperator? && grant.action !in s.humanActions
    requires HumanAction(s, grant, now).Ok?
    requires undo != grant.action && ActionIsNew(s, undo)
    requires Revision(s.ledger, grant.project) + 2 <= MAX_JSON_SAFE_INTEGER
    ensures var t := HumanAction(s, grant, now).value.state;
            && grant.operator in Operators(t.ledger, grant.project)
            && HumanAction(t, UndoOf(grant, undo), later).Ok?
            && var u := HumanAction(t, UndoOf(grant, undo), later).value.state;
               && (forall p :: Operators(u.ledger, p) == Operators(s.ledger, p))
               && Revision(u.ledger, grant.project) == Revision(s.ledger, grant.project) + 2
  {
    HumanEffect(s, grant, now);
    HumanKeepsInv(s, grant, now);
    var t := HumanAction(s, grant, now).value.state;
    UndoRestores(s.ledger, t, grant, undo, Operators(t.ledger, grant.project)[grant.operator], later);
  }
}
