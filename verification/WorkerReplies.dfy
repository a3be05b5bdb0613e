/**
 Which answer the worker-action host gives, case by case, in terms of what the two stores hold and what
 fails: the records, the fence, the journal entry under the action's id, and the faults.
 */
module WorkerReplies {
  import opened Wrappers
  import opened TaskJournal
  import opened WorkerHost
  import opened WorkerSafety
  import opened WorkerTheorems

  // ---------------------------------------------------------------- what an entry and a receipt say

  /** The phases a worker action moves a task between. */
  predicate Moves(kind: Kind, prior: Phase, resulting: Phase) {
    || (kind == Accept && prior == Delivered && resulting == Accepted)
    || (kind == Start && prior == Accepted && resulting == Running)
    || (kind == Complete && prior == Running && resulting == Completed)
  }

  /** The entry carries the action's request, with its record's id as evidence. */
  predicate SameRequest(e: Envelope, a: AuthorizedAction, recordId: ServerId) {
    && e.receiptId == a.id
    && e.expectedRevision == a.expectedRevision
    && e.fence == Some(ServiceFence(a.attempt.taskId, a.attempt.taskRevision, a.attempt.number, a.attempt.token,
                                    a.attempt.ownerSession, a.attempt.ownerGeneration))
    && e.command == WorkerCommand(a.kind, recordId, a.result)
  }

  predicate SameTransition(r: Response, a: AuthorizedAction) {
    && r.taskId == a.attempt.taskId && r.taskRevision == a.attempt.taskRevision
    && r.attempt == Some(a.attempt.number)
    && r.prior.Some? && Moves(a.kind, r.prior.value, r.resulting)
  }

  /** The receipt tells the action, its task and attempt, the phases, and when it was committed. */
  predicate TellsOf(r: Receipt, a: AuthorizedAction, recordId: ServerId, e: Entry) {
    && r.actionId == a.id && r.taskId == a.attempt.taskId && r.taskRevision == a.attempt.taskRevision
    && r.attempt == a.attempt.number && Moves(a.kind, r.prior, r.resulting)
    && r.committedRevision == e.response.committedRevision && r.committedAt == e.committedAt
    && r.recordId == recordId && r.result == a.result
  }

  lemma EntryForm(e: Entry, a: AuthorizedAction, recordId: ServerId)
    ensures CommittedUnder(e, TransportRecord(recordId, a)) <==>
              SameRequest(e.envelope, a, recordId) && SameTransition(e.response, a)
    ensures e.envelope == ActionEnvelope(a, recordId) <==> SameRequest(e.envelope, a, recordId)
    ensures TellsOf(ReceiptFor(a, recordId, e), a, recordId, e)
  {
  }

  /** An entry the service can show as a worker receipt, or the reason why not. */
  predicate Unshowable(e: Entry, code: NoWrite) {
    if e.response.attempt.None? || e.response.prior.None? then code == DurableRequestRejected
    else (e.response.prior == Some(OtherPhase) || e.response.resulting == OtherPhase) && code == IllegalPhase
  }

  predicate Showable(e: Entry) {
    && e.response.attempt.Some? && e.response.prior.Some?
    && e.response.prior != Some(OtherPhase) && e.response.resulting != OtherPhase
  }

  // ---------------------------------------------------------------- submissions that end before the preparation

  predicate RecordedOtherwise(w: World, a: AuthorizedAction) {
    a.id in w.records && w.records[a.id].action != a
  }

  predicate Refuses(reply: Reply, code: NoWrite) {
    reply == Answer(NoWriteReply(code))
  }

  /**
   Behind a fence the answer depends on whose fence it is. The owner of the fenced action is told its
   token; a different action under a recorded id is a conflict; everybody else is blocked. Without a fence a
   conflict is still one.
   */
  lemma FencedReply(w: World, a: AuthorizedAction, f: SubmitFaults)
    requires ValidSnapshot(w) && f.probe.ReadOk?
    ensures RecordedOtherwise(w, a) ==> Refuses(Submit(w, a, f).1, ActionConflict)
    ensures w.fence.Some? ==>
              && Submit(w, a, f).0 == w
              && (Submit(w, a, f).1 == Answer(ReconciliationRequired(w.fence.value.uncertaintyId, a.id)) <==>
                    w.fence.value.action == a)
              && (Refuses(Submit(w, a, f).1, UncertaintyBlocked) <==>
                    w.fence.value.action != a && !RecordedOtherwise(w, a))
              && (Refuses(Submit(w, a, f).1, ActionConflict) <==> RecordedOtherwise(w, a))
  {
  }

  lemma UnreadReply(w: World, a: AuthorizedAction, f: SubmitFaults)
    ensures f.probe.ReadCrash? ==> Submit(w, a, f) == (w, Lost)
    ensures f.probe.ReadFails? ==> Submit(w, a, f).0 == w && Refuses(Submit(w, a, f).1, PersistenceUnavailable)
  {
  }

  /** No fence stands and no other action is recorded under the id, so the journal is inspected. */
  predicate Inspects(w: World, a: AuthorizedAction, f: SubmitFaults) {
    f.probe.ReadOk? && w.fence.None? && !RecordedOtherwise(w, a)
  }

  lemma UninspectedReply(w: World, a: AuthorizedAction, f: SubmitFaults)
    requires Inspects(w, a, f)
    ensures f.inspect.InspectCrash? ==> Submit(w, a, f) == (w, Lost)
    ensures f.inspect.InspectFails? ==> Submit(w, a, f).0 == w && Refuses(Submit(w, a, f).1, f.inspect.code)
  {
  }

  /** An id that is in the journal: the receipt is answered for the recorded action's own entry, and for
      anything else the reason why not. */
  lemma CommittedReply(w: World, a: AuthorizedAction, f: SubmitFaults)
    requires Inspects(w, a, f) && f.inspect.InspectOk? && Find(w.journal, a.id).Some?
    ensures Submit(w, a, f).0 == w
    ensures var e, reply := w.journal[Find(w.journal, a.id).value], Submit(w, a, f).1;
            if !Showable(e) then reply.Answer? && reply.outcome.NoWriteReply? && Unshowable(e, reply.outcome.code)
            else if a.id in w.records && SameRequest(e.envelope, a, w.records[a.id].recordId)
                    && SameTransition(e.response, a)
            then reply.Answer? && reply.outcome.ReceiptReply?
                 && TellsOf(reply.outcome.receipt, a, w.records[a.id].recordId, e)
            else Refuses(reply, ActionConflict)
  {
    var e := w.journal[Find(w.journal, a.id).value];
    if a.id in w.records {
      EntryForm(e, a, w.records[a.id].recordId);
    }
  }

  /** An id that is absent is prepared, under its old record or a new one. What a failed preparation answers
      depends on whether it is known to have failed, and on what can be seen of it. */
  lemma PreparationReply(w: World, a: AuthorizedAction, f: SubmitFaults)
    requires Inspects(w, a, f) && f.inspect.InspectOk? && Find(w.journal, a.id).None? && !f.prepare.WriteOk?
    ensures var (after, reply) := Submit(w, a, f);
            match f.prepare
            case Definite => after == w && Refuses(reply, PersistenceUnavailable)
            case OtherError => after == w && Refuses(reply, PersistenceUnavailable)
            case CrashBefore => after == w && reply == Lost
            case CrashAfter => Fences(w, after, a) && reply == Lost
            case UnknownNotApplied =>
              after == w && if f.reprobe.ReadCrash? then reply == Lost else Refuses(reply, PersistenceUnavailable)
            case UnknownApplied =>
              && Fences(w, after, a)
              && (match f.reprobe
                  case ReadCrash => reply == Lost
                  case ReadFails => Refuses(reply, PersistenceUnavailable)
                  case ReadOk => reply == Answer(ReconciliationRequired(w.nextId + 1, a.id)))
  {
    PreparationFences(w, a);
  }

  /** A preparation keeps the action's record or makes a new one, raises a new pending fence for it, and
      leaves the journal and the other records alone. */
  predicate Fences(w: World, after: World, a: AuthorizedAction) {
    var record := if a.id in w.records then w.records[a.id] else TransportRecord(w.nextId, a);
    && after.records == w.records[a.id := record]
    && after.fence == Some(Fence(w.nextId + 1, Pending, record.recordId, a, None))
    && after.journal == w.journal
  }

  lemma PreparationFences(w: World, a: AuthorizedAction)
    requires w.fence.None? && !RecordedOtherwise(w, a)
    ensures Fences(w, Prepare(w, a, WriteOk).0, a)
    ensures Prepare(w, a, WriteOk).0 == Prepare(w, a, UnknownApplied).0 == Prepare(w, a, CrashAfter).0
  {
  }

  // ---------------------------------------------------------------- the transition attempt

  /** What one attempt reports and adds, by the entry under the id, the revision, and how the append ends. */
  lemma AttemptReply(journal: Journal, a: AuthorizedAction, recordId: ServerId, s: Service)
    ensures var (after, result) := TransitionOnce(journal, a, recordId, s);
            var found := Find(journal, a.id);
            if s.checksReceipts && found.Some? then
              var e := journal[found.value];
              && after == journal
              && if !SameRequest(e.envelope, a, recordId) then result == Refused(ActionConflict)
                 else if !SameTransition(e.response, a) then result == Refused(DurableRequestRejected)
                 else result.Transitioned? && TellsOf(result.receipt, a, recordId, e)
            else if a.expectedRevision != |journal| + 1 then
              after == journal && result == Refused(StoreRevisionConflict(a.expectedRevision, |journal| + 1))
            else if s.refusal.Some? then after == journal && result == Refused(s.refusal.value)
            else match s.append
                 case AppendRefused(code) => after == journal && result == Refused(code)
                 case UnknownLost => after == journal && result == PersistenceUnknown
                 case CrashBeforeAppend => after == journal && result == Crashed
                 case AppendOk => Adds(journal, after, a, recordId, s) && result.Transitioned?
                                  && TellsOf(result.receipt, a, recordId, after[|journal|])
                 case UnknownAppended => Adds(journal, after, a, recordId, s) && result == PersistenceUnknown
                 case CrashAfterAppend => Adds(journal, after, a, recordId, s) && result == Crashed
  {
    var e := PlannedEntry(journal, a, recordId, s.clock);
    EntryForm(e, a, recordId);
    if Find(journal, a.id).Some? {
      EntryForm(journal[Find(journal, a.id).value], a, recordId);
    }
  }

  /** One entry more: the action's request and transition, at the next revision and the service's time. */
  predicate Adds(journal: Journal, after: Journal, a: AuthorizedAction, recordId: ServerId, s: Service) {
    && |after| == |journal| + 1 && after[..|journal|] == journal
    && SameRequest(after[|journal|].envelope, a, recordId) && SameTransition(after[|journal|].response, a)
    && after[|journal|].response.committedRevision == |journal| + 2 && after[|journal|].committedAt == s.clock
  }

  /** Under a stored preparation the attempt meets what other clients have committed. A lost or unknown attempt
      leaves the fence; a known one is answered exactly when lowering the fence is reported as done. */
  lemma PreparedReply(w: World, a: AuthorizedAction, f: SubmitFaults)
    requires Inspects(w, a, f) && f.inspect.InspectOk? && Find(w.journal, a.id).None? && f.prepare.WriteOk?
    ensures var record := if a.id in w.records then w.records[a.id] else TransportRecord(w.nextId, a);
            var (journal, result) := TransitionOnce(Others(w.journal, f.meanwhile), a, record.recordId, f.service);
            var (after, reply) := Submit(w, a, f);
            var required := Answer(ReconciliationRequired(w.nextId + 1, a.id));
            && after.journal == journal && after.records == w.records[a.id := record]
            && (result.Crashed? ==> reply == Lost && after.fence.Some?)
            && (result.PersistenceUnknown? ==> reply == required && after.fence.Some?)
            && (result.Transitioned? || result.Refused? ==>
                  match f.clear
                  case WriteOk =>
                    && after.fence.None?
                    && reply == Answer(if result.Refused? then NoWriteReply(result.code)
                                       else ReceiptReply(result.receipt))
                  case CrashBefore => reply == Lost && after.fence.Some?
                  case CrashAfter => reply == Lost && after.fence.None?
                  case UnknownApplied =>
                    after.fence.None?
                    && if f.confirm.ReadCrash? then reply == Lost else Refuses(reply, PersistenceUnavailable)
                  case _ =>
                    && after.fence.Some?
                    && (match f.confirm
                        case ReadCrash => reply == Lost
                        case ReadFails => Refuses(reply, PersistenceUnavailable)
                        case ReadOk => reply == required))
  {
    PreparationFences(w, a);
    var p := PreparedFor(w, a);
    AttemptAndSettle(w, a, f);
    assert Submit(w, a, f) == SubmitPrepared(w, a, f);
    var (journal, result) := TransitionOnce(Met(w, f), a, p.record.recordId, f.service);
    if result.Transitioned? {
      SettleForm(Attempted(w, a, f), p, ReceiptReply(result.receipt), f);
    } else if result.Refused? {
      SettleForm(Attempted(w, a, f), p, NoWriteReply(result.code), f);
    }
  }

  /** Only the pending fence of this very preparation is lowered, and only by a write that takes effect. */
  lemma ClearsItsOwnFence(w: World, p: Prepared, fault: WriteFault)
    ensures var (after, _) := ClearKnown(w, p, fault);
            if w.fence.Some? && w.fence.value.uncertaintyId == p.fence.uncertaintyId && w.fence.value.state == Pending
               && w.fence.value.recordId == p.record.recordId
               && (fault.WriteOk? || fault.UnknownApplied? || fault.CrashAfter?)
            then after == w.(fence := None) else after == w
  {
  }

  // ---------------------------------------------------------------- refused senders

  /** A refused sender learns its own reason, unless the id is known to be recorded. */
  lemma RefusedSenderReply(w: World, id: ReceiptId, code: NoWrite, read: ReadFault, f: SubmitFaults)
    ensures var (after, reply) := Execute(w, id, Err(code), read, f);
            && after == w
            && (match read
                case ReadCrash => reply == Lost
                case ReadFails => Refuses(reply, code)
                case ReadOk => Refuses(reply, if id in w.records then ActionConflict else code))
  {
  }

  // ---------------------------------------------------------------- reconciliation

  /** The sender is the one the fenced action is bound to, and its session and attempt are still current. */
  predicate IsOwner(fence: Fence, sender: Sender, sessionCurrent: bool) {
    && sender.runtimeAgent == fence.action.owner.runtimeAgent
    && sender.rosterSession == fence.action.owner.rosterSession
    && sessionCurrent
  }

  predicate Names(fence: Fence, op: Operation) {
    op.uncertaintyId == fence.uncertaintyId && op.actionId == fence.action.id
  }

  /** The four parts of the token that an acknowledgement must repeat. */
  predicate ExactToken(fence: Fence, op: Operation) {
    && op.Ack? && Names(fence, op)
    && fence.resolution.Some?
    && op.resolutionId == fence.resolution.value.resolutionId
    && op.digest == fence.resolution.value.digest
  }

  /** The operation is the owner's and names the standing fence. */
  predicate Admitted(w: World, sender: Sender, sessionCurrent: bool, op: Operation) {
    w.fence.Some? && Names(w.fence.value, op) && IsOwner(w.fence.value, sender, sessionCurrent)
  }

  /**
   Only the owner of the fenced action inspects or acknowledges. Whatever fails, a changed fence, a reported
   resolution or an acknowledgement means that the sender was the owner and named the standing fence;
   with readable stores any other sender, and any other name, is rejected and changes nothing.
   */
  lemma OnlyOwnerReconciles(w: World, sender: Sender, sessionCurrent: bool, op: Operation, f: ReconcileFaults)
    requires ValidSnapshot(w)
    ensures var (after, verdict) := Reconcile(w, sender, sessionCurrent, op, f);
            && (after != w || verdict.ResolvedAs? || verdict.Acknowledged? || verdict.StillUnknown? ==>
                  Admitted(w, sender, sessionCurrent, op))
            && (f.read.ReadOk? && f.record.ReadOk? && !Admitted(w, sender, sessionCurrent, op) ==>
                  (after, verdict) == (w, Rejected))
  {
  }

  /** A store that cannot be read answers nothing. */
  lemma UnreadVerdict(w: World, sender: Sender, sessionCurrent: bool, op: Operation, f: ReconcileFaults)
    ensures var result := Reconcile(w, sender, sessionCurrent, op, f);
            && (f.read.ReadCrash? ==> result == (w, NoVerdict))
            && (f.read.ReadFails? ==> result == (w, ReconcileUnavailable))
            && (f.read.ReadOk? && (w.fence.None? || !Names(w.fence.value, op)) ==> result == (w, Rejected))
            && (f.read.ReadOk? && w.fence.Some? && Names(w.fence.value, op) && f.record.ReadCrash? ==>
                  result == (w, NoVerdict))
            && (f.read.ReadOk? && w.fence.Some? && Names(w.fence.value, op) && f.record.ReadFails? ==>
                  result == (w, ReconcileUnavailable))
  {
  }

  predicate Readable(f: ReconcileFaults) {
    f.read.ReadOk? && f.record.ReadOk?
  }

  /** The owner's acknowledgement: anything but the exact token is rejected; with it the fence falls exactly
      when the write takes effect, and the verdict tells what is known of that. */
  lemma AckVerdict(w: World, sender: Sender, op: Operation, f: ReconcileFaults)
    requires ValidSnapshot(w) && Readable(f) && op.Ack? && Admitted(w, sender, true, op)
    ensures var (after, verdict) := Reconcile(w, sender, true, op, f);
            if !ExactToken(w.fence.value, op) then (after, verdict) == (w, Rejected)
            else
              && after == (if f.write.WriteOk? || f.write.UnknownApplied? || f.write.CrashAfter?
                           then w.(fence := None) else w)
              && match f.write
                 case WriteOk => verdict == Acknowledged
                 case Definite => verdict == Rejected
                 case OtherError => verdict == ReconcileUnavailable
                 case CrashBefore => verdict == NoVerdict
                 case CrashAfter => verdict == NoVerdict
                 case UnknownApplied =>
                   (match f.confirm
                    case ReadOk => verdict == Acknowledged
                    case ReadFails => verdict == ReconcileUnavailable
                    case ReadCrash => verdict == NoVerdict)
                 case UnknownNotApplied =>
                   if f.confirm.ReadCrash? then verdict == NoVerdict else verdict == ReconcileUnavailable
  {
  }

  /** The owner's inspection before anything is stored: a stored resolution is repeated, an unreadable journal or
      an entry that cannot be shown leaves it unknown, and another client's entry rejects it. */
  lemma InspectVerdict(w: World, sender: Sender, op: Operation, f: ReconcileFaults)
    requires ValidSnapshot(w) && Readable(f) && op.Inspect? && Admitted(w, sender, true, op)
    ensures var result := Reconcile(w, sender, true, op, f);
            var fence := w.fence.value;
            var found := Find(w.journal, fence.action.id);
            if fence.resolution.Some? then result == (w, ResolvedAs(fence.resolution.value))
            else if f.inspect.InspectCrash? then result == (w, NoVerdict)
            else if f.inspect.InspectFails? then result == (w, StillUnknown)
            else if found.Some? && !Showable(w.journal[found.value]) then result == (w, StillUnknown)
            else if found.Some? && !(SameRequest(w.journal[found.value].envelope, fence.action, fence.recordId)
                                     && SameTransition(w.journal[found.value].response, fence.action))
            then result == (w, Rejected)
            else FenceEvidence(w).Some?
                 && result == StoreEvidence(w.(journal := Others(w.journal, f.meanwhile)), fence,
                                            FenceEvidence(w).value, f)
  {
    var fence := w.fence.value;
    var found := Find(w.journal, fence.action.id);
    if found.Some? {
      EntryForm(w.journal[found.value], fence.action, fence.recordId);
    }
  }

  /** The evidence is the whole of what the inspection saw: the entry and its place, or that there is none, and
      how far the journal reached. */
  lemma EvidenceTells(w: World)
    requires w.fence.Some? && FenceEvidence(w).Some?
    ensures var fence, found := w.fence.value, Find(w.journal, w.fence.value.action.id);
            match FenceEvidence(w).value
            case AbsentEvidence(revision, sequence) =>
              found.None? && revision == |w.journal| + 1 && sequence == |w.journal|
            case CommittedEvidence(receipt, envelope, at, revision, sequence) =>
              && found.Some? && at == found.value + 1 && envelope == w.journal[found.value].envelope
              && TellsOf(receipt, fence.action, fence.recordId, w.journal[found.value])
              && revision == |w.journal| + 1 && sequence == |w.journal|
  {
    var fence, found := w.fence.value, Find(w.journal, w.fence.value.action.id);
    if found.Some? {
      EntryForm(w.journal[found.value], fence.action, fence.recordId);
    }
  }

  /** Storing evidence on the pending fence: the resolution gets a new id and a digest over the fence, that id and
      the evidence, and the verdict tells what is known of the write. */
  lemma StoreVerdict(w: World, evidence: Evidence, f: ReconcileFaults)
    requires w.fence.Some? && w.fence.value.state.Pending? && w.fence.value.resolution.None?
    ensures var fence := w.fence.value;
            var digest := ResolutionDigest(fence.uncertaintyId, fence.recordId, fence.action, w.nextId, evidence);
            var resolution := Resolution(w.nextId, digest, evidence);
            var (after, verdict) := StoreEvidence(w, fence, evidence, f);
            && after.journal == w.journal && after.records == w.records
            && after.fence == Some(if f.write.WriteOk? || f.write.UnknownApplied? || f.write.CrashAfter?
                                   then Fence(fence.uncertaintyId, Resolved, fence.recordId, fence.action,
                                              Some(resolution))
                                   else fence)
            && match f.write
               case WriteOk => verdict == ResolvedAs(resolution)
               case Definite => verdict == ReconcileUnavailable
               case OtherError => verdict == ReconcileUnavailable
               case CrashBefore => verdict == NoVerdict
               case CrashAfter => verdict == NoVerdict
               case UnknownApplied =>
                 (match f.confirm
                  case ReadOk => verdict == ResolvedAs(resolution)
                  case ReadFails => verdict == StillUnknown
                  case ReadCrash => verdict == NoVerdict)
               case UnknownNotApplied =>
                 if f.confirm.ReadCrash? then verdict == NoVerdict else verdict == StillUnknown
  {
  }
}
