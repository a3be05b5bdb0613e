/**
 The part of the Task Service that the worker-action host can see: a log of
 committed transitions, the receipt lookup, and the single transition attempt.

 A digest is modelled by the value it digests, so two digests agree exactly when
 the digested values do. The log keeps every append, also a second append for
 one receipt id, so that "at most once" is a statement about the log.
 */
module TaskJournal {
  import opened Wrappers

  type ReceiptId = string
  type ServerId = nat

  datatype Kind = Accept | Start | Complete

  datatype Phase = Draft | Published | Delivered | Accepted | Running | Completed | OtherPhase

  /** The attempt named by a worker: task, attempt and the owner it was given to. */
  datatype Attempt = Attempt(taskId: string, taskRevision: nat, number: nat, token: string,
                             ownerSession: string, ownerRevision: nat,
                             ownerRuntime: string, ownerGeneration: nat)

  /** The authenticated sender an action is bound to. */
  datatype Owner = Owner(runtimeAgent: string, rosterSession: string, session: string,
                         durableRevision: nat, generation: nat)

  datatype Action = Action(id: ReceiptId, kind: Kind, attempt: Attempt,
                           expectedRevision: nat, result: Option<string>, owner: Owner)
  {
    /** What request validation and session validation establish before an action is authorised. */
    predicate Coherent() {
      && owner.runtimeAgent == attempt.ownerRuntime
      && owner.session == attempt.ownerSession
      && owner.durableRevision == attempt.ownerRevision
      && owner.generation == attempt.ownerGeneration
      && (kind.Complete? <==> result.Some?)
    }
  }

  const SAMPLE_ATTEMPT := Attempt("t", 1, 1, "k", "s", 1, "r", 1)

  type AuthorizedAction = a: Action | a.Coherent()
    witness Action("a", Accept, SAMPLE_ATTEMPT, 1, None, Owner("r", "s", "s", 1, 1))

  /** The reasons a worker action is answered without a receipt. */
  datatype NoWrite =
    | ActionConflict
    | UncertaintyBlocked
    | PersistenceUnavailable
    | DurableRequestRejected
    | IllegalPhase
    | StoreRevisionConflict(expected: nat, actual: nat)
    | OtherRefusal(code: string)

  datatype Command =
    | WorkerCommand(kind: Kind, recordId: ServerId, result: Option<string>)
    | OtherCommand(name: string)

  /** The attempt as the Task Service knows it: without durable revision and runtime agent. */
  datatype ServiceFence = ServiceFence(taskId: string, taskRevision: nat, number: nat,
                                       token: string, ownerSession: string, generation: nat)

  datatype Envelope = Envelope(receiptId: ReceiptId, expectedRevision: nat,
                               fence: Option<ServiceFence>, command: Command)

  datatype Response = Response(taskId: string, taskRevision: nat, attempt: Option<nat>,
                               prior: Option<Phase>, resulting: Phase, committedRevision: nat)

  datatype Entry = Entry(envelope: Envelope, response: Response, committedAt: nat)

  type Journal = seq<Entry>

  datatype Receipt = Receipt(actionId: ReceiptId, taskId: string, taskRevision: nat, attempt: nat,
                             prior: Phase, resulting: Phase, committedRevision: nat,
                             committedAt: nat, recordId: ServerId, result: Option<string>)

  function ServiceFenceOf(t: Attempt): ServiceFence {
    ServiceFence(t.taskId, t.taskRevision, t.number, t.token, t.ownerSession, t.ownerGeneration)
  }

  function ActionEnvelope(a: AuthorizedAction, recordId: ServerId): Envelope {
    Envelope(a.id, a.expectedRevision, Some(ServiceFenceOf(a.attempt)),
             WorkerCommand(a.kind, recordId, a.result))
  }

  function ExpectedEdge(kind: Kind): (Phase, Phase) {
    match kind
    case Accept => (Delivered, Accepted)
    case Start => (Accepted, Running)
    case Complete => (Running, Completed)
  }

  /** An empty journal is at store revision one; each transition adds one. */
  function StoreRevision(journal: Journal): nat {
    |journal| + 1
  }

  /** Position of the receipt that a lookup by id finds; a later entry shadows an earlier one. */
  function Find(journal: Journal, id: ReceiptId): (r: Option<nat>)
    ensures r.Some? ==> r.value < |journal| && journal[r.value].envelope.receiptId == id
    ensures r.None? ==> forall k :: 0 <= k < |journal| ==> journal[k].envelope.receiptId != id
  {
    if journal == [] then None
    else
      var last := |journal| - 1;
      if journal[last].envelope.receiptId == id then Some(last) else Find(journal[..last], id)
  }

  datatype Observation =
    | Committed(entry: Entry, sequence: nat, observedRevision: nat, observedSequence: nat)
    | Absent(observedRevision: nat, observedSequence: nat)

  predicate PilotPhase(phase: Phase) {
    !phase.OtherPhase?
  }

  function InspectReceipt(journal: Journal, id: ReceiptId): Result<Observation, NoWrite> {
    match Find(journal, id)
    case None => Ok(Absent(StoreRevision(journal), |journal|))
    case Some(k) =>
      var entry := journal[k];
      if entry.response.attempt.None? || entry.response.prior.None? then Err(DurableRequestRejected)
      else if !PilotPhase(entry.response.prior.value) || !PilotPhase(entry.response.resulting) then
        Err(IllegalPhase)
      else Ok(Committed(entry, k + 1, StoreRevision(journal), |journal|))
  }

  function ReceiptFor(a: AuthorizedAction, recordId: ServerId, entry: Entry): Receipt {
    Receipt(a.id, a.attempt.taskId, a.attempt.taskRevision, a.attempt.number,
            ExpectedEdge(a.kind).0, ExpectedEdge(a.kind).1, entry.response.committedRevision,
            entry.committedAt, recordId, a.result)
  }

  /** The worker receipt shown by an observation; the request must be the one that was committed. */
  function ReceiptFromObservation(a: AuthorizedAction, recordId: ServerId, o: Observation)
    : Result<Option<Receipt>, NoWrite>
  {
    if o.Absent? then Ok(None)
    else if o.entry.envelope != ActionEnvelope(a, recordId) then Err(ActionConflict)
    else if !ResponseMatches(a, o.entry.response) then Err(ActionConflict)
    else Ok(Some(ReceiptFor(a, recordId, o.entry)))
  }

  predicate ResponseMatches(a: AuthorizedAction, response: Response) {
    && response.taskId == a.attempt.taskId
    && response.taskRevision == a.attempt.taskRevision
    && response.attempt == Some(a.attempt.number)
    && response.prior == Some(ExpectedEdge(a.kind).0)
    && response.resulting == ExpectedEdge(a.kind).1
  }

  /** How the append of one journal line ends. */
  datatype AppendFault =
    | AppendOk
    | AppendRefused(code: NoWrite)
    | UnknownAppended
    | UnknownLost
    | CrashBeforeAppend
    | CrashAfterAppend

  /**
   What the service decides on its own during one transition: whether it looks for an
   earlier receipt, whether task state admits the command, the clock, and the append.
   */
  datatype Service = Service(checksReceipts: bool, refusal: Option<NoWrite>, clock: nat,
                             append: AppendFault)

  datatype TransitionResult =
    | Transitioned(receipt: Receipt)
    | Refused(code: NoWrite)
    | PersistenceUnknown
    | Crashed

  function PlannedEntry(journal: Journal, a: AuthorizedAction, recordId: ServerId, clock: nat): Entry {
    Entry(ActionEnvelope(a, recordId),
          Response(a.attempt.taskId, a.attempt.taskRevision, Some(a.attempt.number),
                   Some(ExpectedEdge(a.kind).0), ExpectedEdge(a.kind).1, StoreRevision(journal) + 1),
          clock)
  }

  function CheckedResult(a: AuthorizedAction, recordId: ServerId, entry: Entry): TransitionResult {
    if ResponseMatches(a, entry.response) then Transitioned(ReceiptFor(a, recordId, entry))
    else Refused(DurableRequestRejected)
  }

  /** One transition attempt: the journal afterwards, and what the adapter reports. */
  function TransitionOnce(journal: Journal, a: AuthorizedAction, recordId: ServerId, s: Service)
    : (r: (Journal, TransitionResult))
    ensures r.0 == journal || r.0 == journal + [PlannedEntry(journal, a, recordId, s.clock)]
  {
    var earlier := Find(journal, a.id);
    if s.checksReceipts && earlier.Some? then
      if journal[earlier.value].envelope == ActionEnvelope(a, recordId)
      then (journal, CheckedResult(a, recordId, journal[earlier.value]))
      else (journal, Refused(ActionConflict))
    else if a.expectedRevision != StoreRevision(journal) then
      (journal, Refused(StoreRevisionConflict(a.expectedRevision, StoreRevision(journal))))
    else if s.refusal.Some? then
      (journal, Refused(s.refusal.value))
    else
      var entry := PlannedEntry(journal, a, recordId, s.clock);
      match s.append
      case AppendOk => (journal + [entry], CheckedResult(a, recordId, entry))
      case AppendRefused(code) => (journal, Refused(code))
      case UnknownAppended => (journal + [entry], PersistenceUnknown)
      case UnknownLost => (journal, PersistenceUnknown)
      case CrashBeforeAppend => (journal, Crashed)
      case CrashAfterAppend => (journal + [entry], Crashed)
  }

  // ---------------------------------------------------------------- other clients

  /** The service numbers a transition as it commits it. */
  function Numbered(journal: Journal, entry: Entry): Entry {
    entry.(response := entry.response.(committedRevision := StoreRevision(journal) + 1))
  }

  /** A commit by another client, under a receipt id of its choice: refused only if the id is taken. */
  function OtherCommit(journal: Journal, entry: Entry): Journal {
    if Find(journal, entry.envelope.receiptId).Some? then journal else journal + [Numbered(journal, entry)]
  }

  function Others(journal: Journal, entries: seq<Entry>): Journal {
    if entries == [] then journal
    else OtherCommit(Others(journal, entries[..|entries| - 1]), entries[|entries| - 1])
  }

  predicate Offers(entries: seq<Entry>, id: ReceiptId) {
    exists i :: 0 <= i < |entries| && entries[i].envelope.receiptId == id
  }

  // ---------------------------------------------------------------- well-formed journals

  predicate UniqueReceipts(journal: Journal) {
    forall i, j :: 0 <= i < j < |journal| ==>
      journal[i].envelope.receiptId != journal[j].envelope.receiptId
  }

  predicate WellFormed(journal: Journal) {
    && UniqueReceipts(journal)
    && forall k :: 0 <= k < |journal| ==> journal[k].response.committedRevision == k + 2
  }

  /** In a journal without repeated receipts, the lookup finds the one entry there is. */
  lemma FindIsThe(journal: Journal, k: nat)
    requires UniqueReceipts(journal) && k < |journal|
    ensures Find(journal, journal[k].envelope.receiptId) == Some(k)
  {
    var found := Find(journal, journal[k].envelope.receiptId);
    assert found.Some?;
  }

  lemma FindInExtension(journal: Journal, entry: Entry, id: ReceiptId)
    ensures Find(journal + [entry], id) ==
            if entry.envelope.receiptId == id then Some(|journal|) else Find(journal, id)
  {
    assert (journal + [entry])[..|journal|] == journal;
  }

  lemma OneMoreIsWellFormed(journal: Journal, entry: Entry)
    requires WellFormed(journal) && Find(journal, entry.envelope.receiptId).None?
    requires entry.response.committedRevision == StoreRevision(journal) + 1
    ensures WellFormed(journal + [entry])
  {}

  lemma OtherCommits(journal: Journal, entry: Entry, id: ReceiptId)
    ensures journal <= OtherCommit(journal, entry)
    ensures WellFormed(journal) ==> WellFormed(OtherCommit(journal, entry))
    ensures Find(OtherCommit(journal, entry), id) ==
            if Find(journal, id).None? && entry.envelope.receiptId == id then Some(|journal|) else Find(journal, id)
  {
    FindInExtension(journal, Numbered(journal, entry), id);
    if WellFormed(journal) && Find(journal, entry.envelope.receiptId).None? {
      OneMoreIsWellFormed(journal, Numbered(journal, entry));
    }
  }

  lemma OffersOneMore(entries: seq<Entry>, entry: Entry, id: ReceiptId)
    ensures Offers(entries + [entry], id) <==> Offers(entries, id) || entry.envelope.receiptId == id
  {
    var all := entries + [entry];
    assert all[|entries|] == entry;
    if i :| 0 <= i < |entries| && entries[i].envelope.receiptId == id {
      assert all[i] == entries[i];
    }
  }

  /** Other clients keep the journal well-formed. They take exactly the ids they offer, and leave an id
      that was taken where it was. */
  lemma {:induction false} OthersCommit(journal: Journal, entries: seq<Entry>, id: ReceiptId)
    ensures journal <= Others(journal, entries)
    ensures WellFormed(journal) ==> WellFormed(Others(journal, entries))
    ensures Find(journal, id).Some? ==> Find(Others(journal, entries), id) == Find(journal, id)
    ensures Find(journal, id).None? ==> (Find(Others(journal, entries), id).Some? <==> Offers(entries, id))
  {
    if entries != [] {
      var n := |entries| - 1;
      OthersCommit(journal, entries[..n], id);
      OtherCommits(Others(journal, entries[..n]), entries[n], id);
      OffersOneMore(entries[..n], entries[n], id);
      assert entries == entries[..n] + [entries[n]];
    }
  }
}
