/**
 Safety of the worker-action host over every run: submissions, retries, storage faults,
 crashes, reconciliation, and transitions by other Task Service clients.
 */
module WorkerSafety {
  import opened Wrappers
  import opened TaskJournal
  import opened WorkerHost

  // ---------------------------------------------------------------- the invariant

  predicate RecordIdsDistinct(records: map<ReceiptId, TransportRecord>) {
    forall x, y :: x in records && y in records && x != y ==> records[x].recordId != records[y].recordId
  }

  predicate IsRecordId(records: map<ReceiptId, TransportRecord>, id: ServerId) {
    exists x :: x in records && records[x].recordId == id
  }

  predicate EvidenceFits(f: Fence, e: Evidence) {
    e.CommittedEvidence? ==>
      && e.receipt.actionId == f.action.id
      && e.receipt.taskId == f.action.attempt.taskId
      && e.receipt.taskRevision == f.action.attempt.taskRevision
      && e.receipt.recordId == f.recordId
      && e.eventSequence <= e.observedSequence
      && e.receipt.committedRevision <= e.observedRevision
  }

  predicate FenceValid(records: map<ReceiptId, TransportRecord>, f: Fence) {
    && !IsRecordId(records, f.uncertaintyId)
    && f.action.id in records
    && records[f.action.id] == TransportRecord(f.recordId, f.action)
    && (f.state.Pending? <==> f.resolution.None?)
    && (f.resolution.Some? ==>
          var r := f.resolution.value;
          && r.resolutionId != f.uncertaintyId
          && !IsRecordId(records, r.resolutionId)
          && r.digest == DigestOf(f, r.resolutionId, r.evidence)
          && EvidenceFits(f, r.evidence))
  }

  /** The check every evidence snapshot must pass when it is read and before it is written. */
  predicate ValidSnapshot(w: World) {
    && (forall id :: id in w.records ==> w.records[id].action.id == id)
    && RecordIdsDistinct(w.records)
    && (w.fence.Some? ==> FenceValid(w.records, w.fence.value))
  }

  predicate IdsIssued(w: World) {
    && (forall id :: id in w.records ==> w.records[id].recordId < w.nextId)
    && (w.fence.Some? ==>
          && w.fence.value.uncertaintyId < w.nextId
          && (w.fence.value.resolution.Some? ==> w.fence.value.resolution.value.resolutionId < w.nextId))
  }

  /** An entry is the one planned for an action under its record. */
  predicate CommittedUnder(entry: Entry, record: TransportRecord) {
    && entry.envelope == ActionEnvelope(record.action, record.recordId)
    && ResponseMatches(record.action, entry.response)
  }

  /** What a resolution says about an action is what the journal says now. */
  predicate TrueOfJournal(journal: Journal, action: AuthorizedAction, recordId: ServerId, e: Evidence) {
    match Find(journal, action.id)
    case None => e.AbsentEvidence?
    case Some(k) =>
      e.CommittedEvidence? && e.receipt == ReceiptFor(action, recordId, journal[k]) && e.eventSequence == k + 1
  }

  /** What a resolution says was so when the journal was observed: the entry it names is there, or no
      entry up to the observed one has the action's id. */
  predicate EvidenceHolds(journal: Journal, action: AuthorizedAction, recordId: ServerId, e: Evidence) {
    match e
    case CommittedEvidence(receipt, envelope, sequence, _, _) =>
      && 1 <= sequence <= |journal|
      && CommittedUnder(journal[sequence - 1], TransportRecord(recordId, action))
      && receipt == ReceiptFor(action, recordId, journal[sequence - 1])
      && envelope == journal[sequence - 1].envelope
    case AbsentEvidence(revision, sequence) =>
      && sequence <= |journal| && revision == sequence + 1
      && forall k :: 0 <= k < sequence ==> journal[k].envelope.receiptId != action.id
  }

  predicate ResolutionHolds(w: World) {
    w.fence.Some? && w.fence.value.resolution.Some? ==>
      EvidenceHolds(w.journal, w.fence.value.action, w.fence.value.recordId, w.fence.value.resolution.value.evidence)
  }

  predicate Inv(w: World) {
    ValidSnapshot(w) && IdsIssued(w) && WellFormed(w.journal) && ResolutionHolds(w)
  }

  /** What held when it was observed is true now, unless it says that an id was absent which is now taken. */
  lemma HoldsMeansTrue(journal: Journal, action: AuthorizedAction, recordId: ServerId, e: Evidence)
    requires WellFormed(journal) && EvidenceHolds(journal, action, recordId, e)
    ensures TrueOfJournal(journal, action, recordId, e) <==> e.CommittedEvidence? || Find(journal, action.id).None?
  {
    if e.CommittedEvidence? {
      FindIsThe(journal, e.eventSequence - 1);
    }
  }

  // ---------------------------------------------------------------- each store operation keeps it

  /** A journal that grows and stays well-formed keeps the invariant. */
  lemma GrowingKeepsInv(w: World, journal: Journal)
    requires Inv(w) && w.journal <= journal && WellFormed(journal)
    ensures Inv(w.(journal := journal))
  {}

  lemma PrepareKeepsSnapshot(w: World, a: AuthorizedAction, fault: WriteFault)
    requires ValidSnapshot(w) && IdsIssued(w)
    ensures ValidSnapshot(Prepare(w, a, fault).0) && IdsIssued(Prepare(w, a, fault).0)
  {
    if MayPrepare(w, a) && Applies(fault) {
      assert Prepare(w, a, fault).0.records.Keys == w.records.Keys + {a.id};
    }
  }

  lemma PrepareKeepsInv(w: World, a: AuthorizedAction, fault: WriteFault)
    requires Inv(w)
    ensures Inv(Prepare(w, a, fault).0)
    ensures Prepare(w, a, fault).0.journal == w.journal
    ensures MayPrepare(w, a) && Applies(fault) ==>
              Prepare(w, a, fault).0.fence == Some(PreparedFor(w, a).fence)
  {
    PrepareKeepsSnapshot(w, a, fault);
  }

  lemma ResolveKeepsInv(w: World, evidence: Evidence, fault: WriteFault)
    requires Inv(w) && w.fence.Some?
    requires EvidenceFits(w.fence.value, evidence)
    requires EvidenceHolds(w.journal, w.fence.value.action, w.fence.value.recordId, evidence)
    ensures Inv(Resolve(w, w.fence.value.uncertaintyId, w.fence.value.action.id, evidence, fault).0)
  {
    if w.fence.value.resolution.None? && IsRecordId(w.records, w.nextId) {
      assert false;
    }
  }

  lemma DroppingFenceKeepsInv(w: World)
    requires Inv(w)
    ensures Inv(w.(fence := None))
  {}

  // ---------------------------------------------------------------- looking at the journal

  /** A recorded action whose receipt id is in the journal is shown the receipt exactly when the entry is
      the one planned under its record; to anything else under that id it is not. */
  lemma RecordedReceiptIsShown(journal: Journal, record: TransportRecord)
    ensures var o := InspectReceipt(journal, record.action.id);
            match Find(journal, record.action.id)
            case None => o.Ok? && o.value == Absent(StoreRevision(journal), |journal|)
            case Some(k) =>
              if CommittedUnder(journal[k], record) then
                && o.Ok? && o.value == Committed(journal[k], k + 1, StoreRevision(journal), |journal|)
                && ReceiptFromObservation(record.action, record.recordId, o.value)
                   == Ok(Some(ReceiptFor(record.action, record.recordId, journal[k])))
              else
                o.Ok? ==> o.value.Committed?
                          && ReceiptFromObservation(record.action, record.recordId, o.value) == Err(ActionConflict)
  {}

  // ---------------------------------------------------------------- submitting

  /** The journal the transition meets: other clients may have committed since it was inspected. */
  function Met(w: World, f: SubmitFaults): Journal {
    Others(w.journal, f.meanwhile)
  }

  /** The world after preparation and one transition attempt, before the fence is cleared. */
  function Attempted(w: World, a: AuthorizedAction, f: SubmitFaults): World {
    Prepare(w, a, WriteOk).0.(journal := TransitionOnce(Met(w, f), a, PreparedFor(w, a).record.recordId, f.service).0)
  }

  lemma SettleEnds(w: World, p: Prepared, outcome: Outcome, f: SubmitFaults)
    ensures var end := Settle(w, p, outcome, f).0; end == w || end == w.(fence := None)
  {}

  lemma SubmitFencedEnds(w: World, a: AuthorizedAction, p: Prepared, f: SubmitFaults)
    ensures var end := SubmitFenced(w, a, p, f).0;
            var journal := TransitionOnce(Met(w, f), a, p.record.recordId, f.service).0;
            end == w.(journal := journal) || end == w.(journal := journal, fence := None)
  {
    var (journal, result) := TransitionOnce(Met(w, f), a, p.record.recordId, f.service);
    match result
    case Transitioned(receipt) => SettleEnds(w.(journal := journal), p, ReceiptReply(receipt), f);
    case Refused(code) => SettleEnds(w.(journal := journal), p, NoWriteReply(code), f);
    case PersistenceUnknown =>
    case Crashed =>
  }

  lemma SubmitPreparedEnds(w: World, a: AuthorizedAction, f: SubmitFaults)
    requires MayPrepare(w, a)
    ensures var end := SubmitPrepared(w, a, f).0;
            if f.prepare.WriteOk?
            then end == Attempted(w, a, f) || end == Attempted(w, a, f).(fence := None)
            else end == Prepare(w, a, f.prepare).0
  {
    var w1 := Prepare(w, a, WriteOk).0;
    assert w1.journal == w.journal;
    SubmitFencedEnds(w1, a, PreparedFor(w, a), f);
  }

  lemma UnfencedReduces(w: World, a: AuthorizedAction, existing: Option<TransportRecord>, f: SubmitFaults)
    ensures || SubmitUnfenced(w, a, existing, f).0 == w
            || (Find(w.journal, a.id).None? && SubmitUnfenced(w, a, existing, f) == SubmitPrepared(w, a, f))
  {
    if !f.inspect.InspectOk? || Find(w.journal, a.id).Some? {
      assert SubmitUnfenced(w, a, existing, f).0 == w;
    }
  }

  /** A submission that changes anything got past the probe and the inspection. */
  lemma SubmitReduces(w: World, a: AuthorizedAction, f: SubmitFaults)
    ensures || Submit(w, a, f).0 == w
            || (MayPrepare(w, a) && Find(w.journal, a.id).None? && Submit(w, a, f) == SubmitPrepared(w, a, f))
  {
    if f.probe.ReadOk? && MayPrepare(w, a) {
      UnfencedReduces(w, a, if a.id in w.records then Some(w.records[a.id]) else None, f);
    } else {
      assert Submit(w, a, f).0 == w;
    }
  }

  /** A transition attempt leaves the journal well-formed if it adds nothing or if it is guarded. */
  lemma AttemptIsWellFormed(w: World, a: AuthorizedAction, f: SubmitFaults)
    requires WellFormed(w.journal) && Find(w.journal, a.id).None?
    requires Guarded(a, f) || Attempted(w, a, f).journal == Met(w, f)
    ensures w.journal <= Attempted(w, a, f).journal && WellFormed(Attempted(w, a, f).journal)
  {
    OthersCommit(w.journal, f.meanwhile, a.id);
    var entry := PlannedEntry(Met(w, f), a, PreparedFor(w, a).record.recordId, f.service.clock);
    if Find(Met(w, f), a.id).None? {
      OneMoreIsWellFormed(Met(w, f), entry);
    }
  }

  lemma SubmitPreparedKeepsInv(w: World, a: AuthorizedAction, f: SubmitFaults)
    requires Inv(w) && MayPrepare(w, a) && Find(w.journal, a.id).None?
    requires Guarded(a, f) || (f.prepare.WriteOk? ==> Attempted(w, a, f).journal == Met(w, f))
    ensures Inv(SubmitPrepared(w, a, f).0)
  {
    SubmitPreparedEnds(w, a, f);
    PrepareKeepsInv(w, a, f.prepare);
    if f.prepare.WriteOk? {
      AttemptIsWellFormed(w, a, f);
      GrowingKeepsInv(Prepare(w, a, WriteOk).0, Attempted(w, a, f).journal);
      DroppingFenceKeepsInv(Attempted(w, a, f));
    }
  }

  lemma SubmitKeepsInv(w: World, a: AuthorizedAction, f: SubmitFaults)
    requires Inv(w) && (Guarded(a, f) || w.fence.Some?)
    ensures Inv(Submit(w, a, f).0)
  {
    SubmitReduces(w, a, f);
    if Submit(w, a, f).0 != w {
      SubmitPreparedKeepsInv(w, a, f);
    }
  }

  // ---------------------------------------------------------------- reconciling

  /** The evidence an inspection of the standing fence would store. */
  function FenceEvidence(w: World): Option<Evidence>
    requires w.fence.Some?
  {
    var f := w.fence.value;
    match InspectReceipt(w.journal, f.action.id)
    case Ok(o) => EvidenceFor(TransportRecord(f.recordId, f.action), o)
    case Err(_) => None
  }

  /** No other client has taken the fenced action's receipt id. */
  predicate IdIsOwn(w: World)
    requires w.fence.Some?
  {
    var f := w.fence.value;
    var found := Find(w.journal, f.action.id);
    found.None? || CommittedUnder(w.journal[found.value], TransportRecord(f.recordId, f.action))
  }

  /** An inspection finds evidence exactly when no other client has taken the id; the evidence passes the
      store's validation, holds, and is true of the journal. */
  lemma EvidenceIsTrue(w: World)
    requires Inv(w) && w.fence.Some?
    ensures FenceEvidence(w).Some? <==> IdIsOwn(w)
    ensures FenceEvidence(w).Some? ==>
              var f, e := w.fence.value, FenceEvidence(w).value;
              && EvidenceFits(f, e)
              && EvidenceHolds(w.journal, f.action, f.recordId, e)
              && TrueOfJournal(w.journal, f.action, f.recordId, e)
  {
    var f := w.fence.value;
    RecordedReceiptIsShown(w.journal, TransportRecord(f.recordId, f.action));
  }

  /** A reconciliation that gets past its checks inspects or acknowledges the standing fence. */
  lemma ReconcileReduces(w: World, sender: Sender, current: bool, op: Operation, f: ReconcileFaults)
    requires ValidSnapshot(w)
    ensures var (after, verdict) := Reconcile(w, sender, current, op, f);
            || (after == w && (verdict.NoVerdict? || verdict.ReconcileUnavailable? || verdict.Rejected?))
            || (w.fence.Some? && op.Ack? && (after, verdict) == AckFence(w, op, f))
            || (w.fence.Some? && op.Inspect?
                && w.fence.value.uncertaintyId == op.uncertaintyId && w.fence.value.action.id == op.actionId
                && (after, verdict) == InspectFence(w, w.fence.value,
                                                    TransportRecord(w.fence.value.recordId, w.fence.value.action), f))
  {}

  lemma StoredOnly(w: World, uncertaintyId: ServerId, actionId: ReceiptId, evidence: Evidence, fault: WriteFault)
    ensures var end := Resolve(w, uncertaintyId, actionId, evidence, fault).0;
            end.journal == w.journal && end.records == w.records
  {}

  /** What a reconciliation leaves: nothing new, the fence down by its exact acknowledgement, or the evidence
      stored, in a journal to which other clients may have added since it was inspected. */
  lemma ReconcileEnds(w: World, sender: Sender, current: bool, op: Operation, f: ReconcileFaults)
    requires ValidSnapshot(w)
    ensures var end := Reconcile(w, sender, current, op, f).0;
            || end == w
            || (w.fence.Some? && op.Ack? && end == w.(fence := None)
                && AckMatches(w.fence.value, op.uncertaintyId, op.actionId, op.resolutionId, op.digest))
            || (w.fence.Some? && op.Inspect? && w.fence.value.resolution.None? && FenceEvidence(w).Some?
                && end == Resolve(w.(journal := Others(w.journal, f.meanwhile)), w.fence.value.uncertaintyId,
                                  w.fence.value.action.id, FenceEvidence(w).value, f.write).0)
  {}

  lemma InspectionKeepsInv(w: World, f: ReconcileFaults)
    requires Inv(w) && w.fence.Some? && FenceEvidence(w).Some?
    ensures Inv(Resolve(w.(journal := Others(w.journal, f.meanwhile)), w.fence.value.uncertaintyId,
                        w.fence.value.action.id, FenceEvidence(w).value, f.write).0)
  {
    var journal := Others(w.journal, f.meanwhile);
    EvidenceIsTrue(w);
    OthersCommit(w.journal, f.meanwhile, w.fence.value.action.id);
    GrowingKeepsInv(w, journal);
    ResolveKeepsInv(w.(journal := journal), FenceEvidence(w).value, f.write);
  }

  lemma ReconcileKeepsInv(w: World, sender: Sender, current: bool, op: Operation, f: ReconcileFaults)
    requires Inv(w)
    ensures Inv(Reconcile(w, sender, current, op, f).0)
  {
    ReconcileEnds(w, sender, current, op, f);
    if w.fence.Some? {
      DroppingFenceKeepsInv(w);
      if FenceEvidence(w).Some? {
        InspectionKeepsInv(w, f);
      }
    }
  }

  // ---------------------------------------------------------------- every run

  lemma StepKeepsInv(w: World, e: Event)
    requires Inv(w) && (GuardedEvent(e) || w.fence.Some?)
    ensures Inv(Step(w, e))
  {
    match e
    case Executed(_, authorization, _, f) =>
      if authorization.Ok? {
        SubmitKeepsInv(w, authorization.value, f);
      }
    case Reconciled(sender, current, op, f) => ReconcileKeepsInv(w, sender, current, op, f);
    case OtherTransition(entry) =>
      OtherCommits(w.journal, entry, entry.envelope.receiptId);
      GrowingKeepsInv(w, OtherCommit(w.journal, entry));
  }

  lemma {:induction false} RunKeepsInv(w: World, events: seq<Event>)
    requires Inv(w) && GuardedRun(events)
    ensures Inv(Run(w, events))
    decreases |events|
  {
    if events != [] {
      assert GuardedEvent(events[0]);
      StepKeepsInv(w, events[0]);
      assert forall i :: 0 <= i < |events[1..]| ==> events[1..][i] == events[i + 1];
      RunKeepsInv(Step(w, events[0]), events[1..]);
    }
  }
}
