/**
 The host as the program runs it: an object that holds the execution lock, replaces its evidence
 snapshot and appends to the journal step by step, and returns early. Each method is proved to do
 what the step functions of `WorkerHost` say, so the run theorems are about this code.
 */
module TaskWorkerActionHost {
  import opened Wrappers
  import TaskJournal
  import opened WorkerHost

  class Host {
    var records: map<TaskJournal.ReceiptId, TransportRecord>
    var fence: Option<Fence>
    var nextId: TaskJournal.ServerId
    var journal: TaskJournal.Journal

    ghost function View(): World
      reads this
    {
      World(records, fence, nextId, journal)
    }

    constructor ()
      ensures View() == INITIAL
    {
      records, fence, nextId, journal := map[], None, 0, [];
    }

    /** Replace the evidence snapshot; a crash or an error may come before or after the rename. */
    method Replace(records': map<TaskJournal.ReceiptId, TransportRecord>, fence': Option<Fence>,
                   nextId': TaskJournal.ServerId, fault: WriteFault) returns (r: StoreResult)
      modifies this`records, this`fence, this`nextId
      ensures (View(), r) == Persist(old(View()), World(records', fence', nextId', old(journal)), fault)
    {
      if fault.CrashBefore? { return StoreCrashed; }
      if fault.Definite? { return DefiniteNoWrite; }
      if fault.OtherError? { return StoreError; }
      if fault.UnknownNotApplied? { return StoreUnknown; }
      records, fence, nextId := records', fence', nextId';
      if fault.CrashAfter? { return StoreCrashed; }
      if fault.UnknownApplied? { return StoreUnknown; }
      r := Stored;
    }

    method PrepareAction(a: TaskJournal.AuthorizedAction, fault: WriteFault)
      returns (r: StoreResult, p: Prepared)
      modifies this`records, this`fence, this`nextId
      ensures (View(), r) == Prepare(old(View()), a, fault)
      ensures p == PreparedFor(old(View()), a)
    {
      var record := TransportRecord(nextId, a);
      if a.id in records {
        record := records[a.id];
      }
      var raised := Fence(nextId + 1, Pending, record.recordId, record.action, None);
      p := Prepared(record, raised);
      if fence.Some? || record.action != a {
        return DefiniteNoWrite, p;
      }
      r := Replace(records[a.id := record], Some(raised), nextId + 2, fault);
    }

    method ClearFence(p: Prepared, fault: WriteFault) returns (r: StoreResult)
      modifies this`records, this`fence, this`nextId
      ensures (View(), r) == ClearKnown(old(View()), p, fault)
    {
      if fence.None? { return DefiniteNoWrite; }
      if fence.value.uncertaintyId != p.fence.uncertaintyId || fence.value.state != Pending
         || fence.value.recordId != p.record.recordId
      {
        return DefiniteNoWrite;
      }
      r := Replace(records, None, nextId, fault);
    }

    /** The known transition result is reported only once the fence is known to be down. */
    method SettleKnown(p: Prepared, outcome: Outcome, f: SubmitFaults) returns (reply: Reply)
      modifies this`records, this`fence, this`nextId
      ensures (View(), reply) == Settle(old(View()), p, outcome, f)
    {
      var cleared := ClearFence(p, f.clear);
      if cleared.Stored? { return Answer(outcome); }
      if cleared.StoreCrashed? || f.confirm.ReadCrash? { return Lost; }
      if f.confirm.ReadOk? && fence.Some? && fence.value.uncertaintyId == p.fence.uncertaintyId {
        return Answer(ReconciliationRequired(p.fence.uncertaintyId, p.fence.action.id));
      }
      reply := UNAVAILABLE;
    }

    /** Prepare, attempt the transition once, settle. */
    method ExecutePrepared(a: TaskJournal.AuthorizedAction, f: SubmitFaults) returns (reply: Reply)
      modifies this
      ensures (View(), reply) == SubmitPrepared(old(View()), a, f)
    {
      var stored, p := PrepareAction(a, f.prepare);
      if stored.StoreCrashed? { return Lost; }
      if stored.StoreUnknown? {
        if f.reprobe.ReadCrash? { return Lost; }
        if f.reprobe.ReadOk? {
          var probe := Probe(World(records, fence, nextId, journal), a);
          if probe.ExactBlocked? {
            return Answer(ReconciliationRequired(probe.uncertaintyId, probe.actionId));
          }
        }
        return UNAVAILABLE;
      }
      if !stored.Stored? { return UNAVAILABLE; }
      journal := TaskJournal.Others(journal, f.meanwhile);
      var (appended, result) := TaskJournal.TransitionOnce(journal, a, p.record.recordId, f.service);
      journal := appended;
      match result {
        case Crashed => return Lost;
        case PersistenceUnknown =>
          return Answer(ReconciliationRequired(p.fence.uncertaintyId, p.fence.action.id));
        case Transitioned(receipt) => reply := SettleKnown(p, ReceiptReply(receipt), f);
        case Refused(code) => reply := SettleKnown(p, NoWriteReply(code), f);
      }
    }

    method ExecuteAuthorized(a: TaskJournal.AuthorizedAction, f: SubmitFaults) returns (reply: Reply)
      modifies this
      ensures (View(), reply) == Submit(old(View()), a, f)
    {
      if f.probe.ReadCrash? { return Lost; }
      if f.probe.ReadFails? { return UNAVAILABLE; }
      var existing: Option<TransportRecord> := None;
      match Probe(World(records, fence, nextId, journal), a) {
        case Conflict => return Answer(NoWriteReply(TaskJournal.ActionConflict));
        case Blocked => return Answer(NoWriteReply(TaskJournal.UncertaintyBlocked));
        case ExactBlocked(u, id) => return Answer(ReconciliationRequired(u, id));
        case Existing(record) => existing := Some(record);
        case New =>
      }
      if f.inspect.InspectCrash? { return Lost; }
      if f.inspect.InspectFails? { return Answer(NoWriteReply(f.inspect.code)); }
      var observed := TaskJournal.InspectReceipt(journal, a.id);
      if observed.Err? { return Answer(NoWriteReply(observed.error)); }
      if observed.value.Committed? {
        if existing.None? { return Answer(NoWriteReply(TaskJournal.ActionConflict)); }
        var shown := TaskJournal.ReceiptFromObservation(a, existing.value.recordId, observed.value);
        if shown.Err? { return Answer(NoWriteReply(shown.error)); }
        if shown.value.None? { return Answer(NoWriteReply(TaskJournal.DurableRequestRejected)); }
        return Answer(ReceiptReply(shown.value.value));
      }
      reply := ExecutePrepared(a, f);
    }

    /** A request whose sender may be refused. */
    method ExecuteRequest(actionId: TaskJournal.ReceiptId,
                          authorization: Result<TaskJournal.AuthorizedAction, TaskJournal.NoWrite>,
                          read: ReadFault, f: SubmitFaults) returns (reply: Reply)
      modifies this
      ensures (View(), reply) == Execute(old(View()), actionId, authorization, read, f)
    {
      match authorization {
        case Ok(a) => reply := ExecuteAuthorized(a, f);
        case Err(code) =>
          if read.ReadCrash? { return Lost; }
          var error := code;
          if read.ReadOk? && actionId in records {
            error := TaskJournal.ActionConflict;
          }
          reply := Answer(NoWriteReply(error));
      }
    }

    method InspectUncertainty(record: TransportRecord, f: ReconcileFaults) returns (verdict: Verdict)
      requires fence.Some?
      modifies this
      ensures (View(), verdict) == InspectFence(old(View()), old(fence.value), record, f)
    {
      var standing := fence.value;
      if standing.resolution.Some? { return ResolvedAs(standing.resolution.value); }
      if f.inspect.InspectCrash? { return NoVerdict; }
      if f.inspect.InspectFails? { return StillUnknown; }
      var observed := TaskJournal.InspectReceipt(journal, record.action.id);
      if observed.Err? { return StillUnknown; }
      var evidence := EvidenceFor(record, observed.value);
      if evidence.None? { return Rejected; }
      journal := TaskJournal.Others(journal, f.meanwhile);
      if !standing.state.Pending? { return ReconcileUnavailable; }
      var resolution := Resolution(nextId, DigestOf(standing, nextId, evidence.value), evidence.value);
      var stored := Replace(records, Some(standing.(state := Resolved, resolution := Some(resolution))),
                            nextId + 1, f.write);
      match stored {
        case Stored => verdict := ResolvedAs(resolution);
        case StoreCrashed => verdict := NoVerdict;
        case StoreUnknown => verdict := AfterResolveUnknown(World(records, fence, nextId, journal), f.confirm);
        case DefiniteNoWrite => verdict := ReconcileUnavailable;
        case StoreError => verdict := ReconcileUnavailable;
      }
    }

    method AcknowledgeUncertainty(op: Operation, f: ReconcileFaults) returns (verdict: Verdict)
      requires op.Ack?
      modifies this`records, this`fence, this`nextId
      ensures (View(), verdict) == AckFence(old(View()), op, f)
    {
      if fence.None? || !AckMatches(fence.value, op.uncertaintyId, op.actionId, op.resolutionId, op.digest) {
        return Rejected;
      }
      var stored := Replace(records, None, nextId, f.write);
      match stored {
        case Stored => verdict := Acknowledged;
        case StoreCrashed => verdict := NoVerdict;
        case DefiniteNoWrite => verdict := Rejected;
        case StoreError => verdict := ReconcileUnavailable;
        case StoreUnknown =>
          if f.confirm.ReadCrash? { return NoVerdict; }
          verdict := if f.confirm.ReadOk? && fence.None? then Acknowledged else ReconcileUnavailable;
      }
    }

    method ReconcileUncertainty(sender: Sender, sessionCurrent: bool, op: Operation, f: ReconcileFaults)
      returns (verdict: Verdict)
      modifies this
      ensures (View(), verdict) == Reconcile(old(View()), sender, sessionCurrent, op, f)
    {
      if f.read.ReadCrash? { return NoVerdict; }
      if f.read.ReadFails? { return ReconcileUnavailable; }
      if fence.None? { return Rejected; }
      var standing := fence.value;
      if standing.uncertaintyId != op.uncertaintyId || standing.action.id != op.actionId {
        return Rejected;
      }
      if f.record.ReadCrash? { return NoVerdict; }
      if f.record.ReadFails? { return ReconcileUnavailable; }
      var record := RecordForUncertainty(World(records, fence, nextId, journal), standing);
      if record.None? { return ReconcileUnavailable; }
      if !StoredOwner(standing, sender, sessionCurrent) { return Rejected; }
      match op {
        case Inspect(_, _) => verdict := InspectUncertainty(record.value, f);
        case Ack(_, _, _, _) => verdict := AcknowledgeUncertainty(op, f);
      }
    }
  }
}
