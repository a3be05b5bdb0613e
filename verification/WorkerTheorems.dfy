/** What the worker-action host guarantees, stated over every run and every fault. */
module WorkerTheorems {
  import opened Wrappers
  import opened TaskJournal
  import opened WorkerHost
  import opened WorkerSafety

  // ---------------------------------------------------------------- at most once

  /** In every run the journal holds at most one transition per receipt id, and every
      evidence snapshot passes the store's own validation. */
  lemma AtMostOnce(events: seq<Event>)
    requires GuardedRun(events)
    ensures UniqueReceipts(Run(INITIAL, events).journal)
    ensures ValidSnapshot(Run(INITIAL, events))
  {
    RunKeepsInv(INITIAL, events);
  }

  /** The call adds its transition to the journal. */
  predicate Appends(w: World, a: AuthorizedAction, f: SubmitFaults) {
    && f.probe.ReadOk? && f.inspect.InspectOk? && f.prepare.WriteOk?
    && MayPrepare(w, a) && Find(w.journal, a.id).None?
    && !(f.service.checksReceipts && Offers(f.meanwhile, a.id))
    && a.expectedRevision == StoreRevision(Met(w, f))
    && f.service.refusal.None?
    && (f.service.append.AppendOk? || f.service.append.UnknownAppended? || f.service.append.CrashAfterAppend?)
  }

  lemma AttemptAppends(w: World, a: AuthorizedAction, f: SubmitFaults)
    requires Find(w.journal, a.id).None?
    requires f.probe.ReadOk? && f.inspect.InspectOk? && f.prepare.WriteOk? && MayPrepare(w, a)
    ensures Attempted(w, a, f).journal == if !Appends(w, a, f) then Met(w, f)
              else Met(w, f) + [PlannedEntry(Met(w, f), a, PreparedFor(w, a).record.recordId, f.service.clock)]
  {
    OthersCommit(w.journal, f.meanwhile, a.id);
  }

  /** A call adds one transition, its own, or none; beside that only other clients add anything. */
  lemma SubmitAppends(w: World, a: AuthorizedAction, f: SubmitFaults)
    ensures var journal := Submit(w, a, f).0.journal;
            if Appends(w, a, f)
            then journal == Met(w, f) + [PlannedEntry(Met(w, f), a, PreparedFor(w, a).record.recordId, f.service.clock)]
            else journal == w.journal || journal == Met(w, f)
  {
    SubmitReduces(w, a, f);
    if MayPrepare(w, a) && Find(w.journal, a.id).None? {
      SubmitPreparedEnds(w, a, f);
      if f.probe.ReadOk? && f.inspect.InspectOk? && f.prepare.WriteOk? {
        AttemptAppends(w, a, f);
        assert Submit(w, a, f) == SubmitPrepared(w, a, f);
      }
    }
  }

  /** At-most-once leans on the service in one case only. A service that never looks for an earlier
      receipt repeats a receipt exactly when another client offers the action's id during the call, after
      the host has looked, and the service then appends the host's transition too. */
  lemma UncheckedServiceRepeatsExactlyWhen(w: World, a: AuthorizedAction, f: SubmitFaults)
    requires Inv(w) && !f.service.checksReceipts
    ensures UniqueReceipts(Submit(w, a, f).0.journal) <==> !(Appends(w, a, f) && Offers(f.meanwhile, a.id))
  {
    SubmitAppends(w, a, f);
    OthersCommit(w.journal, f.meanwhile, a.id);
    var entry := PlannedEntry(Met(w, f), a, PreparedFor(w, a).record.recordId, f.service.clock);
    if Appends(w, a, f) {
      if Offers(f.meanwhile, a.id) {
        var k := Find(Met(w, f), a.id).value;
        assert (Met(w, f) + [entry])[k].envelope.receiptId == (Met(w, f) + [entry])[|Met(w, f)|].envelope.receiptId;
      } else {
        OneMoreIsWellFormed(Met(w, f), entry);
      }
    }
  }

  lemma PreparedCheckIsNeverNeeded(w: World, a: AuthorizedAction, f: SubmitFaults)
    requires MayPrepare(w, a) && Find(Met(w, f), a.id).None?
    ensures SubmitPrepared(w, a, f) == SubmitPrepared(w, a, f.(service := f.service.(checksReceipts := false)))
  {
    if f.prepare.WriteOk? {
      AttemptAndSettle(w, a, f);
      AttemptAndSettle(w, a, f.(service := f.service.(checksReceipts := false)));
    }
  }

  /** The call of an event repeats a receipt: it adds its transition under an id offered during the call. */
  predicate Repeats(w: World, e: Event) {
    && e.Executed? && e.authorization.Ok?
    && Appends(w, e.authorization.value, e.faults)
    && Offers(e.faults.meanwhile, e.authorization.value.id)
  }

  predicate NeverRepeats(w: World, events: seq<Event>)
    decreases |events|
  {
    events == [] || (!Repeats(w, events[0]) && NeverRepeats(Step(w, events[0]), events[1..]))
  }

  lemma UnrepeatedKeepsInv(w: World, e: Event)
    requires Inv(w) && !Repeats(w, e)
    ensures Inv(Step(w, e))
  {
    if GuardedEvent(e) {
      StepKeepsInv(w, e);
    } else {
      var a, f := e.authorization.value, e.faults;
      SubmitReduces(w, a, f);
      if Submit(w, a, f).0 != w {
        if f.probe.ReadOk? && f.inspect.InspectOk? && f.prepare.WriteOk? {
          AttemptAppends(w, a, f);
        }
        SubmitPreparedKeepsInv(w, a, f);
      }
    }
  }

  lemma StoringLeavesJournal(w: World, fence: Fence, evidence: Evidence, f: ReconcileFaults)
    ensures StoreEvidence(w, fence, evidence, f).0.journal == w.journal
  {
    StoredOnly(w, fence.uncertaintyId, fence.action.id, evidence, f.write);
  }

  lemma InspectionEnds(w: World, fence: Fence, record: TransportRecord, f: ReconcileFaults)
    ensures var w0 := w.(journal := Others(w.journal, f.meanwhile));
            var o := InspectReceipt(w.journal, record.action.id);
            || InspectFence(w, fence, record, f).0 == w
            || (o.Ok? && EvidenceFor(record, o.value).Some?
                && InspectFence(w, fence, record, f) == StoreEvidence(w0, fence, EvidenceFor(record, o.value).value, f))
  {}

  lemma InspectionJournal(w: World, fence: Fence, record: TransportRecord, f: ReconcileFaults)
    ensures var end := InspectFence(w, fence, record, f).0.journal;
            end == w.journal || end == Others(w.journal, f.meanwhile)
  {
    InspectionEnds(w, fence, record, f);
    var o := InspectReceipt(w.journal, record.action.id);
    if o.Ok? && EvidenceFor(record, o.value).Some? {
      StoringLeavesJournal(w.(journal := Others(w.journal, f.meanwhile)), fence, EvidenceFor(record, o.value).value, f);
    }
  }

  lemma AckLeavesJournal(w: World, op: Operation, f: ReconcileFaults)
    requires op.Ack?
    ensures AckFence(w, op, f).0.journal == w.journal
  {}

  lemma ReconcileJournal(w: World, sender: Sender, current: bool, op: Operation, f: ReconcileFaults)
    ensures var end := Reconcile(w, sender, current, op, f).0.journal;
            end == w.journal || end == Others(w.journal, f.meanwhile)
  {
    if w.fence.Some? && RecordForUncertainty(w, w.fence.value).Some? {
      if op.Ack? {
        AckLeavesJournal(w, op, f);
      } else {
        InspectionJournal(w, w.fence.value, RecordForUncertainty(w, w.fence.value).value, f);
      }
    }
  }

  lemma StepGrows(w: World, e: Event)
    ensures w.journal <= Step(w, e).journal
  {
    match e
    case Executed(_, authorization, _, f) =>
      if authorization.Ok? {
        SubmitAppends(w, authorization.value, f);
        OthersCommit(w.journal, f.meanwhile, authorization.value.id);
      }
    case Reconciled(sender, current, op, f) =>
      ReconcileJournal(w, sender, current, op, f);
      OthersCommit(w.journal, f.meanwhile, op.actionId);
    case OtherTransition(entry) => OtherCommits(w.journal, entry, entry.envelope.receiptId);
  }

  /** A repeated receipt is there for good. */
  lemma {:induction false} RepetitionStays(w: World, events: seq<Event>)
    requires !UniqueReceipts(w.journal)
    ensures !UniqueReceipts(Run(w, events).journal)
    decreases |events|
  {
    if events != [] {
      StepGrows(w, events[0]);
      RepeatedInLonger(w.journal, Step(w, events[0]).journal);
      RepetitionStays(Step(w, events[0]), events[1..]);
    }
  }

  lemma RepeatedInLonger(journal: Journal, longer: Journal)
    requires journal <= longer && !UniqueReceipts(journal)
    ensures !UniqueReceipts(longer)
  {
    var i, j :| 0 <= i < j < |journal| && journal[i].envelope.receiptId == journal[j].envelope.receiptId;
    assert longer[i] == journal[i] && longer[j] == journal[j];
  }

  /** Over every run, whatever the service checks: the journal holds at most one transition per receipt id if
      and only if no call of the run adds its transition under an id that another client offers during it. */
  lemma {:induction false} AtMostOnceExactlyWhen(w: World, events: seq<Event>)
    requires Inv(w)
    ensures UniqueReceipts(Run(w, events).journal) <==> NeverRepeats(w, events)
    decreases |events|
  {
    if events != [] {
      if Repeats(w, events[0]) {
        UncheckedServiceRepeatsExactlyWhen(w, events[0].authorization.value, events[0].faults);
        RepetitionStays(Step(w, events[0]), events[1..]);
      } else {
        UnrepeatedKeepsInv(w, events[0]);
        AtMostOnceExactlyWhen(Step(w, events[0]), events[1..]);
      }
    }
  }

  /** Two calls that agree up to the preparation and do the same from there on do the same. */
  lemma SameFromPreparation(w: World, a: AuthorizedAction, f: SubmitFaults, g: SubmitFaults)
    requires f.probe == g.probe && f.inspect == g.inspect
    requires MayPrepare(w, a) && Find(w.journal, a.id).None? ==> SubmitPrepared(w, a, f) == SubmitPrepared(w, a, g)
    ensures Submit(w, a, f) == Submit(w, a, g)
  {}

  /** Unless the id is offered during the call, the service's own check makes no difference at all. */
  lemma ServiceReplayCheckIsNeverNeeded(w: World, a: AuthorizedAction, f: SubmitFaults)
    requires !Offers(f.meanwhile, a.id)
    ensures Submit(w, a, f) == Submit(w, a, f.(service := f.service.(checksReceipts := false)))
  {
    if MayPrepare(w, a) && Find(w.journal, a.id).None? {
      OthersCommit(w.journal, f.meanwhile, a.id);
      PreparedCheckIsNeverNeeded(w, a, f);
    }
    SameFromPreparation(w, a, f, f.(service := f.service.(checksReceipts := false)));
  }

  // ---------------------------------------------------------------- the fence

  /** How a call may change a standing fence. */
  predicate FenceMove(f: Fence, next: Option<Fence>, e: Event) {
    || next == Some(f)
    || (next.Some? && f.resolution.None? && next.value.resolution.Some?
        && next.value == f.(state := Resolved, resolution := next.value.resolution))
    || (next.None? && AcksExactly(f, e))
  }

  predicate AcksExactly(f: Fence, e: Event) {
    && e.Reconciled?
    && e.op.Ack?
    && AckMatches(f, e.op.uncertaintyId, e.op.actionId, e.op.resolutionId, e.op.digest)
  }

  /** What other clients commit around an event, if it comes to that. */
  function ByOthers(e: Event): seq<Entry> {
    match e
    case Executed(_, _, _, f) => f.meanwhile
    case Reconciled(_, _, _, f) => f.meanwhile
    case OtherTransition(entry) => [entry]
  }

  lemma OneOther(journal: Journal, entry: Entry)
    ensures Others(journal, [entry]) == OtherCommit(journal, entry)
  {
    assert [entry][..0] == [];
  }

  lemma ReconcileMovesFence(w: World, e: Event)
    requires ValidSnapshot(w) && w.fence.Some? && e.Reconciled?
    ensures Step(w, e).records == w.records && FenceMove(w.fence.value, Step(w, e).fence, e)
    ensures Step(w, e).journal == w.journal
            || (w.fence.value.resolution.None? && Step(w, e).journal == Others(w.journal, ByOthers(e)))
  {
    ReconcileEnds(w, e.sender, e.sessionCurrent, e.op, e.repairs);
  }

  /** While a fence stands the host commits nothing and records nothing, only other clients add to the
      journal, and only the exact acknowledgement of its resolution takes the fence down. */
  lemma FenceBlocksWorkers(w: World, e: Event)
    requires Inv(w) && w.fence.Some?
    ensures Step(w, e).records == w.records
    ensures Step(w, e).journal == w.journal || (!e.Executed? && Step(w, e).journal == Others(w.journal, ByOthers(e)))
    ensures FenceMove(w.fence.value, Step(w, e).fence, e)
    ensures w.fence.value.resolution.Some? && !e.OtherTransition? ==> Step(w, e).journal == w.journal
  {
    match e
    case Executed(_, authorization, _, f) =>
      if authorization.Ok? {
        SubmitReduces(w, authorization.value, f);
      }
    case Reconciled(_, _, _, _) => ReconcileMovesFence(w, e);
    case OtherTransition(entry) => OneOther(w.journal, entry);
  }

  predicate TakesId(e: Event, id: ReceiptId) {
    e.OtherTransition? && e.entry.envelope.receiptId == id
  }

  /** A resolution, once stored, is frozen through any run that does not contain its exact acknowledgement,
      and what it says was so when it was observed. A commit stays true of the journal; an absence stays
      true exactly as long as no other client commits under the action's id. */
  lemma {:induction false} ResolutionHoldsUntilAck(w: World, events: seq<Event>)
    requires Inv(w) && w.fence.Some? && w.fence.value.resolution.Some?
    requires forall i :: 0 <= i < |events| ==> !AcksExactly(w.fence.value, events[i])
    ensures var end := Run(w, events);
            var f, e := w.fence.value, w.fence.value.resolution.value.evidence;
            && Inv(end) && end.fence == w.fence && end.records == w.records
            && EvidenceHolds(end.journal, f.action, f.recordId, e)
            && (TrueOfJournal(end.journal, f.action, f.recordId, e) <==>
                  || e.CommittedEvidence?
                  || (Find(w.journal, f.action.id).None?
                      && forall i :: 0 <= i < |events| ==> !TakesId(events[i], f.action.id)))
    decreases |events|
  {
    var f, e := w.fence.value, w.fence.value.resolution.value.evidence;
    if events == [] {
      HoldsMeansTrue(w.journal, f.action, f.recordId, e);
    } else {
      assert !AcksExactly(f, events[0]);
      FenceBlocksWorkers(w, events[0]);
      StepKeepsInv(w, events[0]);
      forall i | 0 <= i < |events[1..]| ensures !AcksExactly(f, events[1..][i]) {
        assert events[1..][i] == events[i + 1];
      }
      ResolutionHoldsUntilAck(Step(w, events[0]), events[1..]);
      IdTaken(w, events[0], f.action.id);
      TakenLater(events, f.action.id);
    }
  }

  lemma IdTaken(w: World, e: Event, id: ReceiptId)
    requires Inv(w) && w.fence.Some? && w.fence.value.resolution.Some?
    ensures Find(Step(w, e).journal, id).None? <==> Find(w.journal, id).None? && !TakesId(e, id)
  {
    FenceBlocksWorkers(w, e);
    if e.OtherTransition? {
      OtherCommits(w.journal, e.entry, id);
    }
  }

  lemma TakenLater(events: seq<Event>, id: ReceiptId)
    requires events != []
    ensures (forall i :: 0 <= i < |events| ==> !TakesId(events[i], id)) <==>
            !TakesId(events[0], id) && forall i :: 0 <= i < |events[1..]| ==> !TakesId(events[1..][i], id)
  {
    assert events == [events[0]] + events[1..];
  }

  /** Every inspection made during such a run that answers with a resolution answers with that one. */
  lemma InspectionsAgree(w: World, events: seq<Event>, sender: Sender, current: bool,
                         uncertaintyId: ServerId, actionId: ReceiptId, f: ReconcileFaults)
    requires Inv(w) && w.fence.Some? && w.fence.value.resolution.Some?
    requires forall i :: 0 <= i < |events| ==> !AcksExactly(w.fence.value, events[i])
    ensures var verdict := Reconcile(Run(w, events), sender, current, Inspect(uncertaintyId, actionId), f).1;
            verdict.ResolvedAs? ==> verdict.resolution == w.fence.value.resolution.value
  {
    ResolutionHoldsUntilAck(w, events);
  }

  // ---------------------------------------------------------------- honest replies

  /** The receipt of the journal entry that was committed under the action's record. */
  predicate IsItsReceipt(w: World, a: AuthorizedAction, receipt: Receipt) {
    && a.id in w.records
    && w.records[a.id].action == a
    && Find(w.journal, a.id).Some?
    && CommittedUnder(w.journal[Find(w.journal, a.id).value], w.records[a.id])
    && receipt == ReceiptFor(a, w.records[a.id].recordId, w.journal[Find(w.journal, a.id).value])
  }

  /** `met` is the journal with what other clients committed during the call. */
  predicate Honest(before: World, id: ReceiptId, met: Journal, after: World, reply: Reply) {
    match reply
    case Lost => true
    case Answer(ReceiptReply(receipt)) =>
      receipt.actionId == id && id in after.records && IsItsReceipt(after, after.records[id].action, receipt)
    case Answer(ReconciliationRequired(u, i)) =>
      after.fence.Some? && after.fence.value.uncertaintyId == u && after.fence.value.action.id == i && i == id
    case Answer(NoWriteReply(code)) =>
      code.PersistenceUnavailable? || after.journal == before.journal || after.journal == met
  }

  /** Settling under the fence that the call itself raised, case by case. */
  lemma SettleForm(w: World, p: Prepared, outcome: Outcome, f: SubmitFaults)
    requires w.fence == Some(p.fence) && p.fence.state.Pending? && p.fence.recordId == p.record.recordId
    ensures Settle(w, p, outcome, f).0 == if Applies(f.clear) then w.(fence := None) else w
    ensures Settle(w, p, outcome, f).1 ==
            if f.clear.WriteOk? then Answer(outcome)
            else if f.clear.CrashBefore? || f.clear.CrashAfter? || f.confirm.ReadCrash? then Lost
            else if f.confirm.ReadFails? || f.clear.UnknownApplied? then UNAVAILABLE
            else Answer(ReconciliationRequired(p.fence.uncertaintyId, p.fence.action.id))
  {}

  /** What a fresh preparation leaves to the transition attempt. */
  lemma PreparedForm(w: World, a: AuthorizedAction)
    requires MayPrepare(w, a)
    ensures var p := PreparedFor(w, a);
            var w1 := Prepare(w, a, WriteOk).0;
            && w1.journal == w.journal && w1.fence == Some(p.fence) && p.fence.action == a
            && w1.records == w.records[a.id := p.record] && p.record.action == a
  {}

  /** A transition attempt that reports a receipt reports the entry found under the id, its own or the
      same request committed before; one that reports a refusal adds nothing. */
  lemma TransitionForm(journal: Journal, a: AuthorizedAction, recordId: ServerId, s: Service)
    ensures var (after, result) := TransitionOnce(journal, a, recordId, s);
            && (result.Refused? ==> after == journal)
            && (result.Transitioned? ==>
                  && Find(after, a.id).Some?
                  && CommittedUnder(after[Find(after, a.id).value], TransportRecord(recordId, a))
                  && result.receipt == ReceiptFor(a, recordId, after[Find(after, a.id).value]))
            && (after != journal ==> if s.append.AppendOk? then result.Transitioned?
                                     else result.PersistenceUnknown? || result.Crashed?)
  {
    FindInExtension(journal, PlannedEntry(journal, a, recordId, s.clock), a.id);
  }

  /** The prepared call, step by step: attempt, then settle what is known. */
  lemma AttemptAndSettle(w: World, a: AuthorizedAction, f: SubmitFaults)
    requires MayPrepare(w, a) && f.prepare.WriteOk?
    ensures var p := PreparedFor(w, a);
            var result := TransitionOnce(Met(w, f), a, p.record.recordId, f.service).1;
            var w2 := Attempted(w, a, f);
            && w2.fence == Some(p.fence) && p.fence.state.Pending? && p.fence.recordId == p.record.recordId
            && w2.journal == TransitionOnce(Met(w, f), a, p.record.recordId, f.service).0
            && SubmitPrepared(w, a, f) ==
               match result
               case Crashed => (w2, Lost)
               case PersistenceUnknown => (w2, Answer(ReconciliationRequired(p.fence.uncertaintyId, a.id)))
               case Transitioned(receipt) => Settle(w2, p, ReceiptReply(receipt), f)
               case Refused(code) => Settle(w2, p, NoWriteReply(code), f)
  {
    PreparedForm(w, a);
  }

  lemma PreparedRepliesAreHonest(w: World, a: AuthorizedAction, f: SubmitFaults)
    requires MayPrepare(w, a) && f.prepare.WriteOk?
    ensures Honest(w, a.id, Met(w, f), SubmitPrepared(w, a, f).0, SubmitPrepared(w, a, f).1)
  {
    PreparedForm(w, a);
    AttemptAndSettle(w, a, f);
    var p := PreparedFor(w, a);
    var w2 := Attempted(w, a, f);
    TransitionForm(Met(w, f), a, p.record.recordId, f.service);
    var result := TransitionOnce(Met(w, f), a, p.record.recordId, f.service).1;
    if result.Transitioned? {
      SettleForm(w2, p, ReceiptReply(result.receipt), f);
    } else if result.Refused? {
      SettleForm(w2, p, NoWriteReply(result.code), f);
    }
  }

  lemma UnpreparedRepliesAreHonest(w: World, a: AuthorizedAction, f: SubmitFaults)
    requires MayPrepare(w, a) && !f.prepare.WriteOk?
    ensures Honest(w, a.id, Met(w, f), SubmitPrepared(w, a, f).0, SubmitPrepared(w, a, f).1)
  {}

  /** A submission of a committed action, or of one that may not be prepared, changes nothing. */
  lemma UnchangedRepliesAreHonest(w: World, a: AuthorizedAction, f: SubmitFaults)
    requires !(MayPrepare(w, a) && Find(w.journal, a.id).None?)
    ensures Submit(w, a, f).0 == w && Honest(w, a.id, Met(w, f), w, Submit(w, a, f).1)
  {
    if MayPrepare(w, a) && a.id in w.records {
      RecordedReceiptIsShown(w.journal, w.records[a.id]);
    }
  }

  lemma UnpreparedForm(w: World, a: AuthorizedAction, f: SubmitFaults)
    requires MayPrepare(w, a) && Find(w.journal, a.id).None?
    ensures || Submit(w, a, f) == SubmitPrepared(w, a, f)
            || Submit(w, a, f) == (w, Lost)
            || (Submit(w, a, f).0 == w && Submit(w, a, f).1.Answer? && Submit(w, a, f).1.outcome.NoWriteReply?)
  {
    if !f.probe.ReadOk? || !f.inspect.InspectOk? {
      assert Submit(w, a, f).0 == w;
    }
  }

  /** Every reply is honest, in every state and whatever fails during the call. */
  lemma RepliesAreHonest(w: World, id: ReceiptId, authorization: Result<AuthorizedAction, NoWrite>, read: ReadFault,
                         f: SubmitFaults)
    requires authorization.Ok? ==> authorization.value.id == id
    ensures var (after, reply) := Execute(w, id, authorization, read, f);
            Honest(w, id, Met(w, f), after, reply)
  {
    if authorization.Ok? {
      var a := authorization.value;
      if MayPrepare(w, a) && Find(w.journal, a.id).None? {
        UnpreparedForm(w, a, f);
        if f.prepare.WriteOk? {
          PreparedRepliesAreHonest(w, a, f);
        } else {
          UnpreparedRepliesAreHonest(w, a, f);
        }
      } else {
        UnchangedRepliesAreHonest(w, a, f);
      }
    }
  }

  /** `PersistenceUnavailable` does not mean that nothing was written. A call that adds a
      transition is answered this way exactly when the append was reported as done, the
      attempt to lower the fence was not, and the fence cannot be seen standing afterwards. */
  lemma CommitHiddenExactlyWhen(w: World, a: AuthorizedAction, f: SubmitFaults)
    requires Appends(w, a, f)
    ensures Submit(w, a, f).1 == UNAVAILABLE <==>
              && f.service.append.AppendOk?
              && !f.clear.WriteOk? && !f.clear.CrashBefore? && !f.clear.CrashAfter?
              && (f.confirm.ReadFails? || (f.confirm.ReadOk? && f.clear.UnknownApplied?))
    ensures Submit(w, a, f).1.Answer? && Submit(w, a, f).1.outcome.ReceiptReply? <==>
              f.service.append.AppendOk? && f.clear.WriteOk?
  {
    assert Submit(w, a, f) == SubmitPrepared(w, a, f);
    AttemptAppends(w, a, f);
    AttemptAndSettle(w, a, f);
    var p := PreparedFor(w, a);
    TransitionForm(Met(w, f), a, p.record.recordId, f.service);
    var result := TransitionOnce(Met(w, f), a, p.record.recordId, f.service).1;
    if result.Transitioned? {
      SettleForm(Attempted(w, a, f), p, ReceiptReply(result.receipt), f);
    }
  }

  const SAMPLE_ACTION: AuthorizedAction :=
    Action("a", Accept, SAMPLE_ATTEMPT, 1, None, Owner("r", "s", "s", 1, 1))

  const NO_SUBMIT_FAULTS :=
    SubmitFaults(ReadOk, InspectOk, WriteOk, ReadOk, [], Service(true, None, 0, AppendOk), WriteOk, ReadOk)

  /** The hidden commit does happen, on the first call of a run. */
  lemma HiddenCommitHappens()
    ensures exists f: SubmitFaults ::
              && Submit(INITIAL, SAMPLE_ACTION, f).1 == UNAVAILABLE
              && |Submit(INITIAL, SAMPLE_ACTION, f).0.journal| == 1
              && Submit(INITIAL, SAMPLE_ACTION, f).0.fence.None?
  {
    var f := NO_SUBMIT_FAULTS.(clear := UnknownApplied);
    var w1 := Prepare(INITIAL, SAMPLE_ACTION, WriteOk).0;
    assert w1.journal == [] && w1.fence == Some(PreparedFor(INITIAL, SAMPLE_ACTION).fence);
    assert Submit(INITIAL, SAMPLE_ACTION, f).1 == UNAVAILABLE;
  }

  // ---------------------------------------------------------------- honest verdicts

  /** What a verdict says of the state it leaves, given the state it found. */
  predicate HonestVerdict(w: World, op: Operation, after: World, verdict: Verdict) {
    match verdict
    case Acknowledged =>
      && w.fence.Some? && op.Ack? && after == w.(fence := None)
      && AckMatches(w.fence.value, op.uncertaintyId, op.actionId, op.resolutionId, op.digest)
    case ResolvedAs(r) =>
      && op.Inspect? && after.fence.Some? && after.fence.value.resolution == Some(r)
      && EvidenceHolds(after.journal, after.fence.value.action, after.fence.value.recordId, r.evidence)
    case Rejected => after == w
    case _ => after.records == w.records
  }

  lemma AckVerdictsAreHonest(w: World, op: Operation, f: ReconcileFaults)
    requires w.fence.Some? && op.Ack?
    ensures var (after, verdict) := AckFence(w, op, f); HonestVerdict(w, op, after, verdict)
  {}

  lemma StoredVerdictsAreHonest(w: World, w0: World, op: Operation, evidence: Evidence, f: ReconcileFaults)
    requires w.fence.Some? && op.Inspect? && w0 == w.(journal := w0.journal)
    requires ResolutionHolds(StoreEvidence(w0, w.fence.value, evidence, f).0)
    ensures var (after, verdict) := StoreEvidence(w0, w.fence.value, evidence, f);
            HonestVerdict(w, op, after, verdict)
  {}

  lemma InspectVerdictsAreHonest(w: World, op: Operation, record: TransportRecord, f: ReconcileFaults)
    requires w.fence.Some? && op.Inspect?
    requires ResolutionHolds(InspectFence(w, w.fence.value, record, f).0)
    ensures var (after, verdict) := InspectFence(w, w.fence.value, record, f);
            HonestVerdict(w, op, after, verdict)
  {
    var o := InspectReceipt(w.journal, record.action.id);
    if w.fence.value.resolution.None? && f.inspect.InspectOk? && o.Ok? && EvidenceFor(record, o.value).Some? {
      StoredVerdictsAreHonest(w, w.(journal := Others(w.journal, f.meanwhile)), op,
                              EvidenceFor(record, o.value).value, f);
    }
  }

  /** Every verdict of a reconciliation is honest, whatever fails during the call. */
  lemma VerdictsAreHonest(w: World, sender: Sender, current: bool, op: Operation, f: ReconcileFaults)
    requires Inv(w)
    ensures var (after, verdict) := Reconcile(w, sender, current, op, f);
            HonestVerdict(w, op, after, verdict)
  {
    ReconcileKeepsInv(w, sender, current, op, f);
    ReconcileReduces(w, sender, current, op, f);
    VerdictsFromReduction(w, op, f, Reconcile(w, sender, current, op, f));
  }

  lemma VerdictsFromReduction(w: World, op: Operation, f: ReconcileFaults, result: (World, Verdict))
    requires ResolutionHolds(result.0)
    requires || (result.0 == w && (result.1.NoVerdict? || result.1.ReconcileUnavailable? || result.1.Rejected?))
             || (w.fence.Some? && op.Ack? && result == AckFence(w, op, f))
             || (w.fence.Some? && op.Inspect?
                 && result == InspectFence(w, w.fence.value,
                                           TransportRecord(w.fence.value.recordId, w.fence.value.action), f))
    ensures HonestVerdict(w, op, result.0, result.1)
  {
    if w.fence.Some? {
      var record := TransportRecord(w.fence.value.recordId, w.fence.value.action);
      if op.Ack? {
        AckVerdictsAreHonest(w, op, f);
      } else if result == InspectFence(w, w.fence.value, record, f) {
        InspectVerdictsAreHonest(w, op, record, f);
      }
    }
  }

  /** The three reports of a write that took effect: cut off, hidden, or told. */
  predicate ReportedAs(f: ReconcileFaults, cutOff: bool, hidden: bool, told: bool) {
    && (cutOff <==> f.write.CrashAfter? || (f.write.UnknownApplied? && f.confirm.ReadCrash?))
    && (hidden <==> f.write.UnknownApplied? && f.confirm.ReadFails?)
    && (told <==> f.write.WriteOk? || (f.write.UnknownApplied? && f.confirm.ReadOk?))
  }

  lemma AckHiddenExactlyWhen(w: World, op: Operation, f: ReconcileFaults)
    requires w.fence.Some? && op.Ack? && AckFence(w, op, f).0.fence != w.fence
    ensures var v := AckFence(w, op, f).1;
            ReportedAs(f, v.NoVerdict?, v.ReconcileUnavailable?, v.Acknowledged?)
  {}

  lemma EvidenceHiddenExactlyWhen(w: World, fence: Fence, evidence: Evidence, f: ReconcileFaults)
    requires StoreEvidence(w, fence, evidence, f).0.fence != w.fence
    ensures var v := StoreEvidence(w, fence, evidence, f).1;
            ReportedAs(f, v.NoVerdict?, v.StillUnknown?, v.ResolvedAs?)
  {}

  /** An applied acknowledgement, and a stored resolution, go unreported in exactly these cases. */
  lemma VerdictHiddenExactlyWhen(w: World, sender: Sender, current: bool, op: Operation, f: ReconcileFaults)
    requires ValidSnapshot(w) && w.fence.Some?
    requires Reconcile(w, sender, current, op, f).0.fence != w.fence
    ensures var v := Reconcile(w, sender, current, op, f).1;
            if op.Ack? then ReportedAs(f, v.NoVerdict?, v.ReconcileUnavailable?, v.Acknowledged?)
            else ReportedAs(f, v.NoVerdict?, v.StillUnknown?, v.ResolvedAs?)
  {
    ReconcileReduces(w, sender, current, op, f);
    if op.Ack? {
      AckHiddenExactlyWhen(w, op, f);
    } else {
      var record := TransportRecord(w.fence.value.recordId, w.fence.value.action);
      InspectionEnds(w, w.fence.value, record, f);
      var o := InspectReceipt(w.journal, record.action.id);
      EvidenceHiddenExactlyWhen(w.(journal := Others(w.journal, f.meanwhile)), w.fence.value,
                                EvidenceFor(record, o.value).value, f);
    }
  }

  // ---------------------------------------------------------------- recovery

  const NO_REPAIR_FAULTS := ReconcileFaults(ReadOk, ReadOk, InspectOk, [], WriteOk, ReadOk)

  function OwnerOf(f: Fence): Sender {
    Sender(f.action.owner.runtimeAgent, f.action.owner.rosterSession)
  }

  function Inspected(w: World): (World, Verdict)
    requires w.fence.Some?
  {
    var f := w.fence.value;
    Reconcile(w, OwnerOf(f), true, Inspect(f.uncertaintyId, f.action.id), NO_REPAIR_FAULTS)
  }

  function Recovered(w: World): (World, Verdict)
    requires w.fence.Some? && Inspected(w).1.ResolvedAs?
  {
    var f := w.fence.value;
    var r := Inspected(w).1.resolution;
    Reconcile(Inspected(w).0, OwnerOf(f), true,
              Ack(f.uncertaintyId, f.action.id, r.resolutionId, r.digest), NO_REPAIR_FAULTS)
  }

  /** The fence carries its resolution, or no other client has taken the action's id. */
  predicate Recoverable(w: World)
    requires w.fence.Some?
  {
    w.fence.value.resolution.Some? || IdIsOwn(w)
  }

  /** The stored owner gets out of a fenced state exactly when it is recoverable: an undisturbed inspection
      then resolves the fence, truthfully, and acknowledging that takes the fence down without touching
      anything else. In any other fenced state an inspection changes nothing. */
  lemma InspectThenAckClears(w: World)
    requires Inv(w) && w.fence.Some?
    ensures Inspected(w).1.ResolvedAs? <==> Recoverable(w)
    ensures Recoverable(w) ==>
              && (w.fence.value.resolution.None? ==>
                    TrueOfJournal(w.journal, w.fence.value.action, w.fence.value.recordId,
                                  Inspected(w).1.resolution.evidence))
              && Recovered(w).1 == Acknowledged && Recovered(w).0.fence.None?
              && Recovered(w).0.journal == w.journal && Recovered(w).0.records == w.records
    ensures !Recoverable(w) ==> Inspected(w).0 == w
  {
    EvidenceIsTrue(w);
    if Recoverable(w) {
      var w1 := Inspected(w).0;
      assert w1.fence.Some? && w1.fence.value.resolution == Some(Inspected(w).1.resolution);
      assert RecordForUncertainty(w1, w1.fence.value).Some?;
    }
  }

  lemma StuckStep(w: World, e: Event)
    requires Inv(w) && w.fence.Some? && !Recoverable(w)
    ensures var end := Step(w, e); end.fence == w.fence && end.records == w.records && !Recoverable(end)
  {
    FenceBlocksWorkers(w, e);
    var id := w.fence.value.action.id;
    var k := Find(w.journal, id).value;
    if e.Reconciled? {
      ReconcileEnds(w, e.sender, e.sessionCurrent, e.op, e.repairs);
      EvidenceIsTrue(w);
    } else if e.OtherTransition? {
      OtherCommits(w.journal, e.entry, id);
    }
  }

  /** A fence whose action's id another client has taken stands for good: no run takes it down or resolves
      it, and no submission after it gets to prepare anything. */
  lemma {:induction false} UnrecoverableForever(w: World, events: seq<Event>)
    requires Inv(w) && w.fence.Some? && !Recoverable(w)
    ensures var end := Run(w, events);
            && Inv(end) && end.fence == w.fence && end.records == w.records && !Recoverable(end)
            && forall a, f :: Submit(end, a, f).0 == end
    decreases |events|
  {
    if events != [] {
      StuckStep(w, events[0]);
      StepKeepsInv(w, events[0]);
      UnrecoverableForever(Step(w, events[0]), events[1..]);
    }
  }

  /** A first call that dies before the service appends, and another client's entry under the same id. */
  const CUT_OFF: Event := Executed("a", Ok(SAMPLE_ACTION), ReadOk,
                                   NO_SUBMIT_FAULTS.(service := Service(true, None, 0, CrashBeforeAppend)))

  const INTRUSION: Event :=
    OtherTransition(Entry(Envelope("a", 1, None, OtherCommand("publish")),
                          Response("t", 1, Some(1), Some(Draft), Published, 0), 0))

  /** What the call leaves when it is cut off. */
  const CUT_OFF_WORLD := World(map["a" := TransportRecord(0, SAMPLE_ACTION)],
                               Some(Fence(1, Pending, 0, SAMPLE_ACTION, None)), 2, [])

  lemma CutOffPrepares()
    ensures Prepare(INITIAL, SAMPLE_ACTION, WriteOk).0 == CUT_OFF_WORLD
  {}

  lemma CutOffSubmits()
    ensures Submit(INITIAL, SAMPLE_ACTION, CUT_OFF.faults).0 == CUT_OFF_WORLD
  {
    var f := CUT_OFF.faults;
    CutOffPrepares();
    AttemptAndSettle(INITIAL, SAMPLE_ACTION, f);
    assert Met(INITIAL, f) == [];
    assert Submit(INITIAL, SAMPLE_ACTION, f) == SubmitPrepared(INITIAL, SAMPLE_ACTION, f);
  }

  lemma CutOffLeaves()
    ensures Step(INITIAL, CUT_OFF) == CUT_OFF_WORLD && Inv(CUT_OFF_WORLD)
  {
    CutOffSubmits();
    StepKeepsInv(INITIAL, CUT_OFF);
  }

  lemma IntrusionTakesId(w: World)
    requires w.journal == []
    ensures Step(w, INTRUSION) == w.(journal := [Numbered([], INTRUSION.entry)])
    ensures Find(Step(w, INTRUSION).journal, "a") == Some(0)
  {
    FindInExtension([], Numbered([], INTRUSION.entry), "a");
  }

  /** It does happen: two events from the start the host is blocked for ever. */
  lemma HostGetsStuck()
    ensures var w := Run(INITIAL, [CUT_OFF, INTRUSION]);
            w.fence.Some? && !Recoverable(w) && Inspected(w) == (w, Rejected)
  {
    var w := Step(INITIAL, CUT_OFF);
    CutOffLeaves();
    IntrusionTakesId(w);
    assert [CUT_OFF, INTRUSION][1..] == [INTRUSION] && [INTRUSION][1..] == [];
    assert Run(INITIAL, [CUT_OFF, INTRUSION]) == Run(w, [INTRUSION]) == Run(Step(w, INTRUSION), []);
    RecordedReceiptIsShown(Step(w, INTRUSION).journal, w.records["a"]);
  }

  /** An absence does turn false: it is stored, and then another client takes the id. */
  lemma AbsenceTurnsFalse()
    ensures var w := Inspected(Step(INITIAL, CUT_OFF)).0;
            && w.fence.Some? && w.fence.value.resolution.Some?
            && TrueOfJournal(w.journal, w.fence.value.action, w.fence.value.recordId,
                             w.fence.value.resolution.value.evidence)
            && !TrueOfJournal(Step(w, INTRUSION).journal, w.fence.value.action, w.fence.value.recordId,
                              w.fence.value.resolution.value.evidence)
  {
    CutOffLeaves();
    var w := Inspected(Step(INITIAL, CUT_OFF)).0;
    assert w.journal == [] && w.fence.value.resolution.value.evidence == AbsentEvidence(1, 0);
    IntrusionTakesId(w);
  }

  // ---------------------------------------------------------------- after recovery

  /** Journals and records only grow. */
  predicate Extends(w: World, next: World) {
    && w.journal <= next.journal
    && forall id :: id in w.records ==> id in next.records && next.records[id] == w.records[id]
  }

  lemma SubmitExtends(w: World, a: AuthorizedAction, f: SubmitFaults)
    ensures Extends(w, Submit(w, a, f).0)
  {
    SubmitReduces(w, a, f);
    SubmitAppends(w, a, f);
    OthersCommit(w.journal, f.meanwhile, a.id);
    if Submit(w, a, f).0 != w {
      SubmitPreparedEnds(w, a, f);
    }
  }

  lemma ReconcileExtends(w: World, sender: Sender, current: bool, op: Operation, f: ReconcileFaults)
    requires ValidSnapshot(w)
    ensures Extends(w, Reconcile(w, sender, current, op, f).0)
  {
    ReconcileEnds(w, sender, current, op, f);
    OthersCommit(w.journal, f.meanwhile, op.actionId);
    if w.fence.Some? && FenceEvidence(w).Some? {
      StoredOnly(w.(journal := Others(w.journal, f.meanwhile)), w.fence.value.uncertaintyId,
                 w.fence.value.action.id, FenceEvidence(w).value, f.write);
    }
  }

  lemma StepExtends(w: World, e: Event)
    requires ValidSnapshot(w)
    ensures Extends(w, Step(w, e))
  {
    match e
    case Executed(_, authorization, _, f) =>
      if authorization.Ok? {
        SubmitExtends(w, authorization.value, f);
      }
    case Reconciled(sender, current, op, f) => ReconcileExtends(w, sender, current, op, f);
    case OtherTransition(entry) => OtherCommits(w.journal, entry, entry.envelope.receiptId);
  }

  lemma {:induction false} RunExtends(w: World, events: seq<Event>)
    requires Inv(w) && GuardedRun(events)
    ensures Extends(w, Run(w, events))
    decreases |events|
  {
    if events != [] {
      assert GuardedEvent(events[0]);
      StepKeepsInv(w, events[0]);
      StepExtends(w, events[0]);
      assert forall i :: 0 <= i < |events[1..]| ==> events[1..][i] == events[i + 1];
      RunExtends(Step(w, events[0]), events[1..]);
    }
  }

  /** The entry found under an id is found there ever after. */
  lemma FoundForGood(w: World, events: seq<Event>, id: ReceiptId)
    requires Inv(w) && GuardedRun(events) && Find(w.journal, id).Some?
    ensures var later := Run(w, events);
            Find(later.journal, id) == Find(w.journal, id)
            && later.journal[Find(later.journal, id).value] == w.journal[Find(w.journal, id).value]
  {
    RunKeepsInv(w, events);
    RunExtends(w, events);
    FindIsThe(Run(w, events).journal, Find(w.journal, id).value);
  }

  /** Submitting an action whose id is in the journal changes neither store, whatever fails; undisturbed, it
      answers with the receipt if and only if the entry is the one committed under the action's record. */
  lemma CommittedIdReplays(w: World, a: AuthorizedAction, f: SubmitFaults)
    requires Find(w.journal, a.id).Some? && a.id in w.records && w.records[a.id].action == a
    ensures Submit(w, a, f).0 == w
    ensures w.fence.None? && f.probe.ReadOk? && f.inspect.InspectOk? ==>
              var entry := w.journal[Find(w.journal, a.id).value];
              var receipt := ReceiptFor(a, w.records[a.id].recordId, entry);
              if CommittedUnder(entry, w.records[a.id]) then Submit(w, a, f).1 == Answer(ReceiptReply(receipt))
              else Submit(w, a, f).1.Answer? && Submit(w, a, f).1.outcome.NoWriteReply?
  {
    RecordedReceiptIsShown(w.journal, w.records[a.id]);
  }

  /** A committed action may be resubmitted at any later time: no such call changes either store,
      whatever fails, and an undisturbed one returns the receipt it was first given. */
  lemma ResubmissionReturnsOriginal(w: World, a: AuthorizedAction, receipt: Receipt, events: seq<Event>,
                                    f: SubmitFaults)
    requires Inv(w) && GuardedRun(events) && IsItsReceipt(w, a, receipt)
    ensures var later := Run(w, events);
            && Submit(later, a, f).0 == later
            && (later.fence.None? && f.probe.ReadOk? && f.inspect.InspectOk? ==>
                  Submit(later, a, f).1 == Answer(ReceiptReply(receipt)))
  {
    RunExtends(w, events);
    FoundForGood(w, events, a.id);
    CommittedIdReplays(Run(w, events), a, f);
  }

  /** Recovery keeps the invariant. */
  lemma RecoveryKeepsInv(w: World)
    requires Inv(w) && w.fence.Some? && Recoverable(w)
    ensures Inspected(w).1.ResolvedAs? && Inv(Recovered(w).0)
  {
    InspectThenAckClears(w);
    var f := w.fence.value;
    var r := Inspected(w).1.resolution;
    ReconcileKeepsInv(w, OwnerOf(f), true, Inspect(f.uncertaintyId, f.action.id), NO_REPAIR_FAULTS);
    ReconcileKeepsInv(Inspected(w).0, OwnerOf(f), true,
                      Ack(f.uncertaintyId, f.action.id, r.resolutionId, r.digest), NO_REPAIR_FAULTS);
  }

  /** An action whose id is in the journal behind its fence: after recovery, and after anything else that
      happens later, it answers with a receipt if and only if the entry was committed under its record, and
      that receipt is the one a committed resolution reported. */
  lemma RecoveredActionReplays(w: World, events: seq<Event>, f: SubmitFaults)
    requires Inv(w) && GuardedRun(events) && w.fence.Some? && Recoverable(w)
    requires Find(w.journal, w.fence.value.action.id).Some?
    requires f.probe.ReadOk? && f.inspect.InspectOk?
    ensures Inspected(w).1.ResolvedAs? && Recovered(w).1 == Acknowledged
    ensures var later := Run(Recovered(w).0, events);
            var a, e := w.fence.value.action, Inspected(w).1.resolution.evidence;
            later.fence.None? ==>
              && Submit(later, a, f).0 == later
              && (Submit(later, a, f).1.Answer? && Submit(later, a, f).1.outcome.ReceiptReply? <==> IdIsOwn(w))
              && (e.CommittedEvidence? ==> IdIsOwn(w) && Submit(later, a, f).1 == Answer(ReceiptReply(e.receipt)))
  {
    InspectThenAckClears(w);
    RecoveryKeepsInv(w);
    var fence := w.fence.value;
    var u := Recovered(w).0;
    FoundForGood(u, events, fence.action.id);
    RunExtends(u, events);
    CommittedIdReplays(Run(u, events), fence.action, f);
    ReportedReceipt(w);
  }

  /** A resolution that reports a commit reports the entry in the journal. */
  lemma ReportedReceipt(w: World)
    requires Inv(w) && w.fence.Some? && Inspected(w).1.ResolvedAs?
    ensures var f, e := w.fence.value, Inspected(w).1.resolution.evidence;
            var found := Find(w.journal, f.action.id);
            e.CommittedEvidence? ==>
              found.Some? && IdIsOwn(w) && e.receipt == ReceiptFor(f.action, f.recordId, w.journal[found.value])
  {
    var f, e := w.fence.value, Inspected(w).1.resolution.evidence;
    InspectThenAckClears(w);
    EvidenceIsTrue(w);
    if e.CommittedEvidence? && f.resolution.Some? {
      FindIsThe(w.journal, e.eventSequence - 1);
    }
  }

  /** An action found absent may be tried again after recovery; it then commits once, under the
      transport record it already had. */
  lemma AbsentActionCommitsOnRetry(w: World)
    requires Inv(w) && w.fence.Some? && Find(w.journal, w.fence.value.action.id).None?
    requires w.fence.value.action.expectedRevision == StoreRevision(w.journal)
    ensures Inspected(w).1.ResolvedAs? && Recovered(w).0.fence.None?
    ensures var f := w.fence.value;
            var (after, reply) := Submit(Recovered(w).0, f.action, NO_SUBMIT_FAULTS);
            && reply.Answer? && reply.outcome.ReceiptReply?
            && reply.outcome.receipt.recordId == f.recordId
            && |after.journal| == |w.journal| + 1
            && after.fence.None? && after.records == w.records
  {
    InspectThenAckClears(w);
    var a := w.fence.value.action;
    var u := Recovered(w).0;
    assert Probe(u, a) == Existing(TransportRecord(w.fence.value.recordId, a));
    var w1 := Prepare(u, a, WriteOk).0;
    assert w1.journal == w.journal && w1.records == w.records && w1.fence == Some(PreparedFor(u, a).fence);
  }
}
