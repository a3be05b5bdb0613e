/**
 The worker-action host: a durable evidence store with one uncertainty fence, in front of
 the Task Service journal.

 The host keeps nothing in memory between calls, and calls are serialised, so a call is a
 step from one durable state to the next. What may go wrong during a call is an argument of
 the call: each read, write and append names how it ends, including a crash before or after
 it takes effect. Other clients of the Task Service are not serialised with the host: what they
 commit between its look at the journal and its own write is an argument as well. Quantifying
 over these arguments is quantifying over all faulty executions.
 */
module WorkerHost {
  import opened Wrappers
  import opened TaskJournal

  // ---------------------------------------------------------------- durable state

  datatype TransportRecord = TransportRecord(recordId: ServerId, action: AuthorizedAction)

  datatype FenceState = Pending | Resolved

  datatype Evidence =
    | CommittedEvidence(receipt: Receipt, envelope: Envelope, eventSequence: nat,
                        observedRevision: nat, observedSequence: nat)
    | AbsentEvidence(observedRevision: nat, observedSequence: nat)

  datatype ResolutionDigest = ResolutionDigest(uncertaintyId: ServerId, recordId: ServerId,
                                               action: AuthorizedAction, resolutionId: ServerId,
                                               evidence: Evidence)

  datatype Resolution = Resolution(resolutionId: ServerId, digest: ResolutionDigest, evidence: Evidence)

  datatype Fence = Fence(uncertaintyId: ServerId, state: FenceState, recordId: ServerId,
                         action: AuthorizedAction, resolution: Option<Resolution>)

  /** Both stores. `nextId` is the supply of ids that no earlier call has used. */
  datatype World = World(records: map<ReceiptId, TransportRecord>, fence: Option<Fence>,
                         nextId: ServerId, journal: Journal)

  const INITIAL := World(map[], None, 0, [])

  // ---------------------------------------------------------------- faults

  datatype ReadFault = ReadOk | ReadFails | ReadCrash

  datatype WriteFault =
    | WriteOk
    | Definite
    | OtherError
    | UnknownApplied
    | UnknownNotApplied
    | CrashBefore
    | CrashAfter

  datatype InspectFault = InspectOk | InspectFails(code: NoWrite) | InspectCrash

  datatype StoreResult = Stored | DefiniteNoWrite | StoreError | StoreUnknown | StoreCrashed

  predicate Applies(fault: WriteFault) {
    fault in {WriteOk, UnknownApplied, CrashAfter}
  }

  /** A snapshot replacement is all or nothing; only the report about it may be wrong. */
  function Persist(w: World, next: World, fault: WriteFault): (World, StoreResult) {
    (if Applies(fault) then next else w,
     match fault
     case WriteOk => Stored
     case Definite => DefiniteNoWrite
     case OtherError => StoreError
     case UnknownApplied => StoreUnknown
     case UnknownNotApplied => StoreUnknown
     case CrashBefore => StoreCrashed
     case CrashAfter => StoreCrashed)
  }

  // ---------------------------------------------------------------- evidence store operations

  datatype ActionProbe =
    | New
    | Existing(record: TransportRecord)
    | ExactBlocked(uncertaintyId: ServerId, actionId: ReceiptId)
    | Blocked
    | Conflict

  function Probe(w: World, a: AuthorizedAction): ActionProbe {
    var record := if a.id in w.records then Some(w.records[a.id]) else None;
    if record.Some? && record.value.action != a then Conflict
    else if w.fence.Some? then
      if record.Some? && w.fence.value.recordId == record.value.recordId && w.fence.value.action == a
      then ExactBlocked(w.fence.value.uncertaintyId, w.fence.value.action.id)
      else Blocked
    else if record.Some? then Existing(record.value)
    else New
  }

  datatype Prepared = Prepared(record: TransportRecord, fence: Fence)

  /** The record an action is prepared under: its earlier one, or a new one. */
  function PreparedFor(w: World, a: AuthorizedAction): Prepared {
    var record := if a.id in w.records then w.records[a.id] else TransportRecord(w.nextId, a);
    Prepared(record, Fence(w.nextId + 1, Pending, record.recordId, record.action, None))
  }

  predicate MayPrepare(w: World, a: AuthorizedAction) {
    w.fence.None? && (a.id in w.records ==> w.records[a.id].action == a)
  }

  function Prepare(w: World, a: AuthorizedAction, fault: WriteFault): (World, StoreResult) {
    if !MayPrepare(w, a) then (w, DefiniteNoWrite)
    else
      var p := PreparedFor(w, a);
      Persist(w, w.(records := w.records[a.id := p.record], fence := Some(p.fence), nextId := w.nextId + 2),
              fault)
  }

  function ClearKnown(w: World, p: Prepared, fault: WriteFault): (World, StoreResult) {
    if w.fence.None? || w.fence.value.uncertaintyId != p.fence.uncertaintyId
       || !w.fence.value.state.Pending? || w.fence.value.recordId != p.record.recordId
    then (w, DefiniteNoWrite)
    else Persist(w, w.(fence := None), fault)
  }

  function RecordForUncertainty(w: World, f: Fence): Option<TransportRecord> {
    if f.action.id in w.records && w.records[f.action.id].recordId == f.recordId
    then Some(w.records[f.action.id]) else None
  }

  function DigestOf(f: Fence, resolutionId: ServerId, evidence: Evidence): ResolutionDigest {
    ResolutionDigest(f.uncertaintyId, f.recordId, f.action, resolutionId, evidence)
  }

  function Resolve(w: World, uncertaintyId: ServerId, actionId: ReceiptId, evidence: Evidence,
                   fault: WriteFault): (World, StoreResult, Option<Resolution>)
  {
    if w.fence.None? || w.fence.value.uncertaintyId != uncertaintyId || w.fence.value.action.id != actionId
    then (w, DefiniteNoWrite, None)
    else
      var f := w.fence.value;
      if f.resolution.Some? then
        var (next, r) := Persist(w, w, fault);
        (next, r, f.resolution)
      else if !f.state.Pending? then (w, StoreError, None)
      else
        var resolution := Resolution(w.nextId, DigestOf(f, w.nextId, evidence), evidence);
        var (next, r) := Persist(w, w.(fence := Some(f.(state := Resolved, resolution := Some(resolution))),
                                       nextId := w.nextId + 1), fault);
        (next, r, Some(resolution))
  }

  predicate AckMatches(f: Fence, uncertaintyId: ServerId, actionId: ReceiptId, resolutionId: ServerId,
                       digest: ResolutionDigest)
  {
    && f.resolution.Some?
    && f.state.Resolved?
    && f.uncertaintyId == uncertaintyId
    && f.action.id == actionId
    && f.resolution.value.resolutionId == resolutionId
    && f.resolution.value.digest == digest
  }

  function Acknowledge(w: World, uncertaintyId: ServerId, actionId: ReceiptId, resolutionId: ServerId,
                       digest: ResolutionDigest, fault: WriteFault): (World, StoreResult)
  {
    if w.fence.None? || !AckMatches(w.fence.value, uncertaintyId, actionId, resolutionId, digest)
    then (w, DefiniteNoWrite)
    else Persist(w, w.(fence := None), fault)
  }

  // ---------------------------------------------------------------- submitting an action

  datatype Outcome =
    | ReceiptReply(receipt: Receipt)
    | NoWriteReply(code: NoWrite)
    | ReconciliationRequired(uncertaintyId: ServerId, actionId: ReceiptId)

  /** `Lost` is the call that a crash cut off before it could answer. */
  datatype Reply = Lost | Answer(outcome: Outcome)

  datatype SubmitFaults = SubmitFaults(probe: ReadFault, inspect: InspectFault, prepare: WriteFault,
                                       reprobe: ReadFault, meanwhile: seq<Entry>, service: Service,
                                       clear: WriteFault, confirm: ReadFault)

  const UNAVAILABLE := Answer(NoWriteReply(PersistenceUnavailable))

  function Submit(w: World, a: AuthorizedAction, f: SubmitFaults): (World, Reply) {
    match f.probe
    case ReadCrash => (w, Lost)
    case ReadFails => (w, UNAVAILABLE)
    case ReadOk =>
      match Probe(w, a)
      case Conflict => (w, Answer(NoWriteReply(ActionConflict)))
      case Blocked => (w, Answer(NoWriteReply(UncertaintyBlocked)))
      case ExactBlocked(u, id) => (w, Answer(ReconciliationRequired(u, id)))
      case Existing(record) => SubmitUnfenced(w, a, Some(record), f)
      case New => SubmitUnfenced(w, a, None, f)
  }

  function SubmitUnfenced(w: World, a: AuthorizedAction, existing: Option<TransportRecord>,
                          f: SubmitFaults): (World, Reply)
  {
    match f.inspect
    case InspectCrash => (w, Lost)
    case InspectFails(code) => (w, Answer(NoWriteReply(code)))
    case InspectOk =>
      match InspectReceipt(w.journal, a.id)
      case Err(code) => (w, Answer(NoWriteReply(code)))
      case Ok(observation) =>
        if observation.Committed? then (w, Answer(CommittedEarlier(a, existing, observation)))
        else SubmitPrepared(w, a, f)
  }

  function CommittedEarlier(a: AuthorizedAction, existing: Option<TransportRecord>, o: Observation): Outcome {
    if existing.None? then NoWriteReply(ActionConflict)
    else
      match ReceiptFromObservation(a, existing.value.recordId, o)
      case Ok(Some(receipt)) => ReceiptReply(receipt)
      case Ok(None) => NoWriteReply(DurableRequestRejected)
      case Err(code) => NoWriteReply(code)
  }

  function SubmitPrepared(w: World, a: AuthorizedAction, f: SubmitFaults): (World, Reply) {
    var p := PreparedFor(w, a);
    var (w1, stored) := Prepare(w, a, f.prepare);
    match stored
    case StoreCrashed => (w1, Lost)
    case StoreUnknown => (w1, AfterPrepareUnknown(w1, a, f.reprobe))
    case DefiniteNoWrite => (w1, UNAVAILABLE)
    case StoreError => (w1, UNAVAILABLE)
    case Stored => SubmitFenced(w1, a, p, f)
  }

  /** Under the fence: one transition attempt, in a journal to which other clients may have added. */
  function SubmitFenced(w: World, a: AuthorizedAction, p: Prepared, f: SubmitFaults): (World, Reply) {
    var (journal, result) := TransitionOnce(Others(w.journal, f.meanwhile), a, p.record.recordId, f.service);
    var w1 := w.(journal := journal);
    match result
    case Crashed => (w1, Lost)
    case PersistenceUnknown => (w1, Answer(ReconciliationRequired(p.fence.uncertaintyId, p.fence.action.id)))
    case Transitioned(receipt) => Settle(w1, p, ReceiptReply(receipt), f)
    case Refused(code) => Settle(w1, p, NoWriteReply(code), f)
  }

  function AfterPrepareUnknown(w: World, a: AuthorizedAction, read: ReadFault): Reply {
    match read
    case ReadCrash => Lost
    case ReadFails => UNAVAILABLE
    case ReadOk =>
      var probe := Probe(w, a);
      if probe.ExactBlocked? then Answer(ReconciliationRequired(probe.uncertaintyId, probe.actionId))
      else UNAVAILABLE
  }

  /** A known transition result is reported only after the fence is known to be down. */
  function Settle(w: World, p: Prepared, outcome: Outcome, f: SubmitFaults): (World, Reply) {
    var (w1, cleared) := ClearKnown(w, p, f.clear);
    match cleared
    case Stored => (w1, Answer(outcome))
    case StoreCrashed => (w1, Lost)
    case DefiniteNoWrite => (w1, AfterClearUnknown(w1, p, f.confirm))
    case StoreError => (w1, AfterClearUnknown(w1, p, f.confirm))
    case StoreUnknown => (w1, AfterClearUnknown(w1, p, f.confirm))
  }

  function AfterClearUnknown(w: World, p: Prepared, read: ReadFault): Reply {
    match read
    case ReadCrash => Lost
    case ReadFails => UNAVAILABLE
    case ReadOk =>
      if w.fence.Some? && w.fence.value.uncertaintyId == p.fence.uncertaintyId
      then Answer(ReconciliationRequired(p.fence.uncertaintyId, p.fence.action.id))
      else UNAVAILABLE
  }

  /** An action whose sender is refused: a recorded action id is a conflict, whoever asks. */
  function Refuse(w: World, actionId: ReceiptId, code: NoWrite, read: ReadFault): Reply {
    if read.ReadCrash? then Lost
    else if read.ReadOk? && actionId in w.records then Answer(NoWriteReply(ActionConflict))
    else Answer(NoWriteReply(code))
  }

  /** One request: authorised and submitted, or refused. */
  function Execute(w: World, actionId: ReceiptId, authorization: Result<AuthorizedAction, NoWrite>,
                   read: ReadFault, f: SubmitFaults): (World, Reply)
  {
    match authorization
    case Ok(a) => Submit(w, a, f)
    case Err(code) => (w, Refuse(w, actionId, code, read))
  }

  // ---------------------------------------------------------------- reconciliation

  datatype Sender = Sender(runtimeAgent: string, rosterSession: string)

  datatype Operation =
    | Inspect(uncertaintyId: ServerId, actionId: ReceiptId)
    | Ack(uncertaintyId: ServerId, actionId: ReceiptId, resolutionId: ServerId, digest: ResolutionDigest)

  datatype Verdict =
    | StillUnknown
    | ResolvedAs(resolution: Resolution)
    | Acknowledged
    | Rejected
    | ReconcileUnavailable
    | NoVerdict

  datatype ReconcileFaults = ReconcileFaults(read: ReadFault, record: ReadFault, inspect: InspectFault,
                                             meanwhile: seq<Entry>, write: WriteFault, confirm: ReadFault)

  /** `sessionCurrent` is the outcome of the session and attempt checks. */
  predicate StoredOwner(f: Fence, sender: Sender, sessionCurrent: bool) {
    && sender.runtimeAgent == f.action.owner.runtimeAgent
    && sender.rosterSession == f.action.owner.rosterSession
    && sessionCurrent
  }

  function Reconcile(w: World, sender: Sender, sessionCurrent: bool, op: Operation, f: ReconcileFaults)
    : (World, Verdict)
  {
    match f.read
    case ReadCrash => (w, NoVerdict)
    case ReadFails => (w, ReconcileUnavailable)
    case ReadOk =>
      if w.fence.None? || w.fence.value.uncertaintyId != op.uncertaintyId
         || w.fence.value.action.id != op.actionId
      then (w, Rejected)
      else
        match f.record
        case ReadCrash => (w, NoVerdict)
        case ReadFails => (w, ReconcileUnavailable)
        case ReadOk =>
          var fence := w.fence.value;
          var record := RecordForUncertainty(w, fence);
          if record.None? then (w, ReconcileUnavailable)
          else if !StoredOwner(fence, sender, sessionCurrent) then (w, Rejected)
          else if op.Inspect? then InspectFence(w, fence, record.value, f)
          else AckFence(w, op, f)
  }

  function EvidenceFor(record: TransportRecord, o: Observation): Option<Evidence> {
    match o
    case Absent(revision, sequence) => Some(AbsentEvidence(revision, sequence))
    case Committed(entry, at, revision, sequence) =>
      match ReceiptFromObservation(record.action, record.recordId, o)
      case Ok(Some(receipt)) => Some(CommittedEvidence(receipt, entry.envelope, at, revision, sequence))
      case Ok(None) => None
      case Err(_) => None
  }

  function InspectFence(w: World, fence: Fence, record: TransportRecord, f: ReconcileFaults)
    : (World, Verdict)
  {
    if fence.resolution.Some? then (w, ResolvedAs(fence.resolution.value))
    else
      match f.inspect
      case InspectCrash => (w, NoVerdict)
      case InspectFails(_) => (w, StillUnknown)
      case InspectOk =>
        match InspectReceipt(w.journal, record.action.id)
        case Err(_) => (w, StillUnknown)
        case Ok(observation) =>
          var evidence := EvidenceFor(record, observation);
          if evidence.None? then (w, Rejected)
          else StoreEvidence(w.(journal := Others(w.journal, f.meanwhile)), fence, evidence.value, f)
  }

  function StoreEvidence(w: World, fence: Fence, evidence: Evidence, f: ReconcileFaults): (World, Verdict) {
    var (w1, stored, resolution) := Resolve(w, fence.uncertaintyId, fence.action.id, evidence, f.write);
    match stored
    case StoreCrashed => (w1, NoVerdict)
    case Stored => (w1, if resolution.Some? then ResolvedAs(resolution.value) else StillUnknown)
    case StoreUnknown => (w1, AfterResolveUnknown(w1, f.confirm))
    case DefiniteNoWrite => (w1, ReconcileUnavailable)
    case StoreError => (w1, ReconcileUnavailable)
  }

  function AfterResolveUnknown(w: World, read: ReadFault): Verdict {
    match read
    case ReadCrash => NoVerdict
    case ReadFails => StillUnknown
    case ReadOk =>
      if w.fence.Some? && w.fence.value.resolution.Some? then ResolvedAs(w.fence.value.resolution.value)
      else StillUnknown
  }

  function AckFence(w: World, op: Operation, f: ReconcileFaults): (World, Verdict)
    requires op.Ack?
  {
    var (w1, stored) := Acknowledge(w, op.uncertaintyId, op.actionId, op.resolutionId, op.digest, f.write);
    match stored
    case StoreCrashed => (w1, NoVerdict)
    case Stored => (w1, Acknowledged)
    case DefiniteNoWrite => (w1, Rejected)
    case StoreError => (w1, ReconcileUnavailable)
    case StoreUnknown =>
      (w1, match f.confirm
           case ReadCrash => NoVerdict
           case ReadFails => ReconcileUnavailable
           case ReadOk => if w1.fence.None? then Acknowledged else ReconcileUnavailable)
  }

  // ---------------------------------------------------------------- runs

  datatype Event =
    | Executed(actionId: ReceiptId, authorization: Result<AuthorizedAction, NoWrite>, read: ReadFault,
               faults: SubmitFaults)
    | Reconciled(sender: Sender, sessionCurrent: bool, op: Operation, repairs: ReconcileFaults)
    | OtherTransition(entry: Entry)

  function Step(w: World, e: Event): World {
    match e
    case Executed(id, authorization, read, f) => Execute(w, id, authorization, read, f).0
    case Reconciled(sender, current, op, f) => Reconcile(w, sender, current, op, f).0
    case OtherTransition(entry) => w.(journal := OtherCommit(w.journal, entry))
  }

  /** The service looks for an earlier receipt before it commits, or no other client offers the
      action's receipt id during the call. */
  predicate Guarded(a: AuthorizedAction, f: SubmitFaults) {
    f.service.checksReceipts || !Offers(f.meanwhile, a.id)
  }

  predicate GuardedEvent(e: Event) {
    e.Executed? && e.authorization.Ok? ==> Guarded(e.authorization.value, e.faults)
  }

  predicate GuardedRun(events: seq<Event>) {
    forall i :: 0 <= i < |events| ==> GuardedEvent(events[i])
  }

  function Run(w: World, events: seq<Event>): World
    decreases |events|
  {
    if events == [] then w else Run(Step(w, events[0]), events[1..])
  }
}
