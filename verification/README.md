# Cutex coordination core, modelled in Dafny

Cutex runs coding agents side by side. This project models the parts of it that must stay right when
calls are retried, storage fails halfway, processes crash and threads interleave:

- **The worker-action host** (`TaskJournal`, `WorkerHost`, `WorkerSafety`, `WorkerTheorems`, `WorkerReplies`,
  `TaskWorkerActionHost`). A worker action is prepared in an evidence store under an uncertainty fence,
  committed once in the Task Service journal, and the fence is lowered. Every storage step may succeed, fail
  with no effect, fail with an unknown effect, or be cut off by a crash, and other clients of the Task Service commit
  between calls and in the middle of them, under receipt ids of their choice. The journal is a log, so a second
  transition for an action would be visible.
- **Two wake-up protocols** (`DrainScheduler`, `LongPoll`), as interleavings of atomic steps by any number of
  threads: the single-flight completion drain, and the long poll with its generation counter.
- **The Agent Bus** (`DedupeKey`, `BusQueue`, `BusRuns`, `BusTheorems`, `AgentBus`, `Routing`, `AgentGroups`):
  queues, the 30-second repeat table, id reservations, target resolution against durable identities, and group
  names.
- **The operator-grant ledger** (`AuditEventId`, `OperatorLedger`, `LedgerSafety`, `LedgerTheorems`, `LedgerAnswers`,
  `AgentManagementStore`, `ProjectViews`): compare-and-swap grants with audit events, every writer of them, and
  the read views that must agree.
- **The watchdog's failure log** (`WatchdogLog`).

Each operation is a function of the state it changes. Where the program updates fields or runs a loop, a class
or a method does the same step by step and is proved to compute that function; theorems are about the functions
and hold for every run. `dafny verify dfyconfig.toml` checks the whole project.

Some promises hold only under a condition that the code does not guarantee. Each such condition is proved exact,
or the failing run is exhibited:

- A `PersistenceUnavailable` reply may hide a committed transition (`WorkerTheorems.CommitHiddenExactlyWhen`,
  `WorkerTheorems.HiddenCommitHappens`).
- Another client that commits under a fenced action's receipt id makes that fence permanent: no inspection resolves
  it, no run lowers it, and every worker stays blocked (`WorkerTheorems.InspectThenAckClears`,
  `WorkerTheorems.UnrecoverableForever`, `WorkerTheorems.HostGetsStuck`). If it commits after an absence was stored,
  the stored absence turns false (`WorkerTheorems.ResolutionHoldsUntilAck`, `WorkerTheorems.AbsenceTurnsFalse`).
- At-most-once needs the service's own receipt check in one case, another client taking the id during the call
  (per call `WorkerTheorems.UncheckedServiceRepeatsExactlyWhen`, over runs `WorkerTheorems.AtMostOnceExactlyWhen`). The
  service does check
  (src/task_service/store.rs:148-153).
- A committed Director action requests a drain without scheduling one (src/agent_bus/server.rs:3168-3173). It also
  clears the retry deadline, so another caller's request can be left pending with no worker
  (`DrainScheduler.StrandingHappens`). With no deadline and no thread about to look, a request is pending exactly when
  such a caller asked and nobody has checked since (`DrainScheduler.LeftPendingExactlyWhen`), and the next HTTP request
  serves it (`DrainScheduler.NextRequestServesStranded`).
- Messages the Task Service enqueues itself do not notify long polls (`LongPoll.SilentEnqueueIsMissed`); such a poll
  still returns them when its wait ends (`LongPoll.ReturnDeliversEverything`).
- Of two senders that share a reservation, the second sends with the reserved id and the old reserved time. Once
  someone has asked the bus for anything after the window, only the queue still knows the message: if a poll has
  drained it, the same message is enqueued and delivered a second time (`BusTheorems.OldTimeBreaksSpacing`; exactly
  when, `BusTheorems.RepeatIsEnqueuedExactlyWhen`).
- A sender id that contains the key separator shares its key with a different send
  (`DedupeKey.SeparatorInSenderCollides`).
- Two live records that claim one runtime hide a durable id from peers although it resolves at home
  (`Routing.DoubleClaimHidesId`).
- Adding groups rewrites an existing group that is not in normal form, such as a default project group longer than
  80 characters (`AgentGroups.AddKeepsExistingExactlyWhen`).
- `operator_count` exceeds the listed operators when a grantee is no agent of the project
  (`ProjectViews.OperatorCountExceedsList`).

## Model

| member | source | states |
|---|---|---|
| TaskJournal.FindIsThe | src/task_service/store.rs:96-229 | in a journal with unique receipts, looking up a receipt id finds the one entry that has it |
| TaskJournal.OthersCommit | src/task_service/store.rs:148-158 | commits by other clients keep the journal well-formed, take exactly the receipt ids they offer, and leave an id that was taken where it was |
| WorkerSafety.RecordedReceiptIsShown | src/task_delivery/worker_action_adapter.rs:253-282 | for every journal, a recorded action is shown absence exactly when its id is absent, and a receipt exactly when the entry under its id is the one planned under its record |
| WorkerSafety.PrepareKeepsInv | src/agent_bus/server/task_action_store.rs:380-438 | preparing, under any write fault, keeps the evidence snapshot valid and all invariants, does not touch the journal, and when it takes effect raises exactly the fence it reports |
| WorkerSafety.ResolveKeepsInv | src/agent_bus/server/task_action_store.rs:478-510 | attaching evidence that holds of the journal keeps the snapshot valid and every stored resolution borne out by the journal it was observed in |
| WorkerSafety.EvidenceIsTrue | src/agent_bus/server.rs:2302-2366 | an inspection of a standing fence finds evidence if and only if no other client has taken the id; that evidence passes the store's validation and agrees with the journal |
| WorkerSafety.RunKeepsInv | src/agent_bus/server/task_action_store.rs:698-776 | every run of requests, reconciliations and commits by other clients, with all faults and crashes, keeps every evidence snapshot valid, server ids distinct, receipts unique, and every stored resolution true of the journal as observed |
| WorkerTheorems.AtMostOnce | src/agent_bus/server.rs:2133-2225 | in every run the journal holds at most one transition per receipt id, with a service that checks for an earlier receipt, or one that does not while no other client offers the same id in the middle of a call |
| WorkerTheorems.SubmitAppends | src/agent_bus/server.rs:2167-2222 | a call adds its one transition exactly under the stated conditions, and otherwise only other clients add anything |
| WorkerTheorems.UncheckedServiceRepeatsExactlyWhen | src/agent_bus/server.rs:2167-2210 | with a service that never checks, a call repeats a receipt if and only if another client offers the id after the host has looked and the service appends anyway |
| WorkerTheorems.AtMostOnceExactlyWhen | src/agent_bus/server.rs:2133-2225 | over every run, whatever the service checks, receipts are unique at the end if and only if no call of the run adds its transition under an id that another client offers during that call |
| WorkerTheorems.ServiceReplayCheckIsNeverNeeded | src/agent_bus/server.rs:2163-2189 | in every state, unless another client offers the id during the call, a service that never checks for an earlier receipt gives the same state and reply |
| WorkerTheorems.FenceBlocksWorkers | src/agent_bus/server.rs:2145-2165 | while a fence stands the host commits and records nothing, only other clients add to the journal, and the fence changes only by gaining a resolution or by its exact acknowledgement |
| WorkerTheorems.ResolutionHoldsUntilAck | src/agent_bus/server.rs:2302-2390 | through every run without its exact acknowledgement a stored resolution stays in place and held when it was observed; it is true at the end if and only if it reports a commit, or no other client has committed under the id |
| WorkerTheorems.InspectionsAgree | src/agent_bus/server.rs:2302-2366 | every inspection answered during such a run returns that same resolution |
| WorkerTheorems.RepliesAreHonest | src/agent_bus/server.rs:2099-2255 | in every state and under every combination of faults a receipt reply is that of the entry committed under the action's record, a reconciliation reply names the standing fence of this action, and a no-write reply other than PersistenceUnavailable, refused senders included, added no transition |
| WorkerTheorems.CommitHiddenExactlyWhen | src/agent_bus/server.rs:2213-2255 | a call that adds its transition answers PersistenceUnavailable if and only if the append succeeded, lowering the fence did not report success, and the fence cannot be seen afterwards; it answers the receipt if and only if append and lowering both succeeded |
| WorkerTheorems.HiddenCommitHappens | src/agent_bus/server.rs:2243-2255 | the very first call of a run can commit, be answered PersistenceUnavailable, and leave no fence |
| WorkerTheorems.VerdictsAreHonest | src/agent_bus/server.rs:2257-2392 | under every fault Acknowledged means the exact token was given and the fence is down, a resolution is stored and holds of the journal, and Rejected means nothing changed |
| WorkerTheorems.VerdictHiddenExactlyWhen | src/agent_bus/server.rs:2353-2390 | an applied acknowledgement is answered unavailable, and a stored resolution unknown, if and only if the write took effect with an unknown report and the confirming read failed |
| WorkerTheorems.InspectThenAckClears | src/agent_bus/server.rs:2257-2392 | a fault-free inspection by the stored owner resolves the fence if and only if it already carries a resolution or no other client has taken the id; the answer is then true, acknowledging it lowers the fence and changes nothing else; otherwise nothing changes |
| WorkerTheorems.UnrecoverableForever | src/agent_bus/server.rs:2311-2334 | a fence whose id another client has taken stands through every run, unresolved, and no submission ever prepares anything again |
| WorkerTheorems.HostGetsStuck | src/agent_bus/server.rs:2311-2334 | two events from the empty state lead there: a call cut off before the append, and another client's transition under its id |
| WorkerTheorems.AbsenceTurnsFalse | src/agent_bus/server.rs:2345-2352 | a run in which a stored absence is true and another client then makes it false |
| WorkerTheorems.ResubmissionReturnsOriginal | src/agent_bus/server.rs:2163-2189 | after any later run, resubmitting a committed action changes neither store under any fault, and undisturbed returns the original receipt |
| WorkerTheorems.RecoveredActionReplays | src/agent_bus/server.rs:2257-2392 | an action whose id is in the journal behind its fence answers, after recovery and any later run, with a receipt if and only if the entry was committed under its record, and it is the receipt a committed resolution reported |
| WorkerTheorems.AbsentActionCommitsOnRetry | src/agent_bus/server.rs:2191-2222 | an action found absent commits once on retry after recovery, under the transport record it already had |
| WorkerReplies.FencedReply | src/agent_bus/server.rs:2145-2165 | behind a fence the answer is the fence's token if and only if the fence stands for this very action, a conflict if and only if another action is recorded under the id, and blocked otherwise; nothing changes |
| WorkerReplies.UnreadReply | src/agent_bus/server.rs:2137-2144 | an evidence store that cannot be read answers PersistenceUnavailable and changes nothing |
| WorkerReplies.UninspectedReply | src/agent_bus/server.rs:2167-2170 | a journal that cannot be inspected answers the adapter's code and changes nothing |
| WorkerReplies.CommittedReply | src/agent_bus/server.rs:2171-2189 | for an id that is in the journal the receipt of the recorded action's own entry is answered, field by field; for any other entry, an unrecorded action or an entry that cannot be shown, the reason why not |
| WorkerReplies.PreparationReply | src/agent_bus/server.rs:2191-2207 | what every failure of the preparation answers and leaves, and that an unknown one that took effect hands out the new fence's token when it can be seen |
| WorkerReplies.PreparationFences | src/agent_bus/server/task_action_store.rs:380-438 | a preparation keeps the action's record or makes a new one, raises a new pending fence for it, and leaves all else alone |
| WorkerReplies.AttemptReply | src/task_delivery/worker_action_adapter.rs:284-332 | what one transition attempt reports and adds: a receipt with the phases of the action's kind, the next revision and the service's time, or the exact refusal, by the entry under the id, the revision and how the append ends |
| WorkerReplies.PreparedReply | src/agent_bus/server.rs:2208-2255 | under a stored preparation, which answer is given and whether the fence is left, for every end of the attempt, of lowering the fence and of the confirming read |
| WorkerReplies.ClearsItsOwnFence | src/agent_bus/server/task_action_store.rs:440-457 | only the pending fence of this very preparation is lowered, and only by a write that takes effect |
| WorkerReplies.RefusedSenderReply | src/agent_bus/server.rs:2114-2124 | a refused sender learns its own code, or a conflict if and only if the id is seen to be recorded |
| WorkerReplies.OnlyOwnerReconciles | src/agent_bus/server.rs:2277-2301 | a changed state, a resolution or an acknowledgement means that the sender's runtime agent and roster session are those of the fenced action's owner, its session is current, and the fence was named; anybody else is rejected and changes nothing |
| WorkerReplies.UnreadVerdict | src/agent_bus/server.rs:2277-2288 | stores that cannot be read, a missing fence and a wrong name each get their verdict and change nothing |
| WorkerReplies.AckVerdict | src/agent_bus/server.rs:2367-2390 | the owner's acknowledgement lowers the fence if and only if all four parts of the token are exact and the write takes effect, with the verdict for every fault |
| WorkerReplies.InspectVerdict | src/agent_bus/server.rs:2303-2331 | the owner's inspection repeats a stored resolution, stays unknown for an entry that cannot be shown, is rejected for another client's entry, and stores evidence otherwise |
| WorkerReplies.EvidenceTells | src/agent_bus/server.rs:2332-2352 | the evidence holds the receipt, request and place of the entry, or the absence, and how far the journal reached |
| WorkerReplies.StoreVerdict | src/agent_bus/server/task_action_store.rs:478-510 | a stored resolution has a new id and a digest over fence, id and evidence, and the verdict tells what is known of the write |
| TaskWorkerActionHost.Host.PrepareAction | src/agent_bus/server/task_action_store.rs:380-438 | the in-place preparation refines the specified one: all or nothing, with the reported record and fence |
| TaskWorkerActionHost.Host.ClearFence | src/agent_bus/server/task_action_store.rs:440-457 | only the pending fence raised by this preparation is lowered |
| TaskWorkerActionHost.Host.ExecuteAuthorized | src/agent_bus/server.rs:2133-2225 | the step-by-step call has the state and reply of the specification that the theorems are about |
| TaskWorkerActionHost.Host.ExecuteRequest | src/agent_bus/server.rs:2099-2131 | the same with the refusal of a sender, which tells a recorded action id apart |
| TaskWorkerActionHost.Host.ReconcileUncertainty | src/agent_bus/server.rs:2257-2392 | the step-by-step reconciliation has the state and verdict of its specification |
| DrainScheduler.SingleFlightAlways | src/agent_bus/server.rs:726-772 | in every interleaving the scheduled flag is up exactly while one worker is between its claim and its clearing store, and two scans never overlap |
| DrainScheduler.RequestNeverForgotten | src/agent_bus/server.rs:712-772 | after every interleaving a raised request has been followed by a scan, or is up and watched by a live thread, or waits behind a deadline, or was stranded by a request made without scheduling |
| DrainScheduler.LeftPendingExactlyWhen | src/agent_bus/server.rs:712-772 | after every interleaving, when no deadline stands and no thread is going to look, a request is pending if and only if a caller requested without scheduling and nobody has begun a schedule check or taken the request since |
| DrainScheduler.ScheduledRequestNeverForgotten | src/agent_bus/server.rs:679-772 | if every request is followed by scheduling or an in-place drain, the last case never arises |
| DrainScheduler.StrandingHappens | src/agent_bus/server.rs:3168-3173 | a run of two transitions, one worker and one Director action after which a request that was followed by its schedule call is pending, no scan began since, no thread will look and no deadline stands |
| DrainScheduler.NextRequestServesStranded | src/agent_bus/server.rs:2626-2630 | from such a state, with or without a pending probe, the next HTTP request claims the worker slot, and that worker left to run begins a scan within eight steps |
| DrainScheduler.NextRequestServes | src/agent_bus/server.rs:718-772 | with slot and mutex free, the next request serves a pending one whose deadline is absent or has passed: it claims the slot and the worker begins a scan within eight steps; before the deadline and without a probe it ends and claims nothing |
| DrainScheduler.CheckClaimsExactlyWhen | src/agent_bus/server.rs:726-741 | a schedule check claims a free slot if and only if a request has reached its deadline or the probe is up |
| DrainScheduler.WorkerScansExactlyWhen | src/agent_bus/server.rs:742-770 | a worker left to run begins a scan within eight steps if and only if a request has reached its deadline or the probe finds a target; otherwise it leaves the request as it was |
| DrainScheduler.ScanEnds | src/agent_bus/server.rs:817-863 | a scan that fails puts the request back with a deadline five seconds on; one that ends well leaves the flags alone |
| DrainScheduler.CallersBegin | src/agent_bus/server.rs:712-716 | what each caller does first to the deadline, the request flag and the probe, and where it goes on |
| DrainScheduler.RecoveryServes | src/agent_bus/server.rs:807-815 | recovery clears the deadline under the mutex and serves a pending request at once |
| LongPoll.WakeupLostOnlyIf | src/agent_bus/server.rs:4222-4258 | a poller sleeps over a waiting message only if a sender has yet to notify, or the message was enqueued without notifying, or the generation has wrapped back to the one observed |
| LongPoll.NoLostWakeup | src/agent_bus/server.rs:2592-2598 | with any number of senders that notify after enqueuing and pollers, in fewer than 2^64 steps, a poller asleep over a non-empty queue implies a sender between enqueue and notify |
| LongPoll.SilentEnqueueIsMissed | src/agent_bus/server.rs:4222-4258 | an enqueue without a notification can leave a poller asleep over its message |
| LongPoll.ReturnDeliversEverything | src/agent_bus/server.rs:4222-4258 | over every run in which nobody else takes from its queue, a poll that returns, woken or timed out, returns at least what was waiting at any earlier moment of it, silent enqueues included |
| LongPoll.EmptyReturnOnlyWhen | src/agent_bus/server.rs:4235-4256 | a poll returns nothing only when its queue is empty and it may not wait or has timed out |
| LongPoll.PollProceeds | src/agent_bus/server.rs:4229-4256 | a poll returns what is queued, or else sleeps only if the generation is still the one it observed |
| LongPoll.NotificationWakes | src/agent_bus/server.rs:2592-2598 | a notification counts once and wakes every sleeper and nobody else |
| LongPoll.WaitingAfter | src/agent_bus/server.rs:4222-4258 | how many messages wait after each step: one more per enqueue, none after a poll that takes, fewer after an acknowledgement |
| DedupeKey.SameKeyIffSameSend | src/agent_bus/queue.rs:520-547 | two sends without separators outside the content get one key if and only if all fields agree, absent counting as empty |
| DedupeKey.FramedIsInjective | src/agent_bus/queue.rs:520-547 | a separated list of fields followed by free content determines both |
| DedupeKey.SeparatorInSenderCollides | src/agent_bus/queue.rs:520-547 | every sender id that contains the separator shares its key with a send from and to somebody else |
| BusRuns.RunKeepsInv | src/agent_bus/queue.rs:33-352 | every run of reserve, send, poll, ack, cancel and drop keeps every queue accounted for and every enqueued id unreserved |
| BusRuns.AckForm | src/agent_bus/queue.rs:85-110 | an acknowledgement removes exactly the named messages of one queue, touches no other queue, and returns how many it removed |
| BusTheorems.NothingLostOrReordered | src/agent_bus/queue.rs:85-352 | in every run, for each target, enqueued equals queued plus acked, drained or dropped; the queue is a subsequence of the enqueue order with distinct ids |
| BusTheorems.EnqueuedIdsAreNotReserved | src/agent_bus/queue.rs:300-352 | in every run no id that was enqueued is still reserved |
| BusTheorems.SendsAreSpaced | src/agent_bus/queue.rs:245-268 | with times that do not go back, two enqueues of one key without a withdrawal of it in between are more than 30 seconds apart, over every interleaving |
| BusTheorems.RepeatIsEnqueuedExactlyWhen | src/agent_bus/queue.rs:245-299 | after any send of a key and any run that neither sends nor withdraws it, a send of the key with a time inside the window is enqueued again if and only if some reserve or send since carried a time after the window and its stable id, if any, is not queued |
| BusTheorems.OldTimeBreaksSpacing | src/cli_app/agent_bus_server.rs:335-364 | two callers share a reservation and the second sends late: while the message is queued the send repeats it, once a poll drained it the same message with the same id and time is enqueued again |
| BusTheorems.ReservationsAgree | src/agent_bus/queue.rs:33-83 | all identical reservations before the key is sent or expires return one id and one timestamp, whatever else happens |
| BusTheorems.SentIsRemembered | src/agent_bus/queue.rs:245-268 | once sent, every identical reservation in the window is told it is enqueued, and every identical send repeats it |
| BusTheorems.ReserveThenSend | src/agent_bus/queue.rs:225-352 | a send under its reservation carries the reserved id and time and ends the reservation |
| AgentBus.AgentBusState.PruneRecentSends | src/agent_bus/store.rs:80-87 | in place: an entry of either table stays, unchanged, if and only if it is at most 30 seconds old |
| AgentBus.AgentBusState.ReserveMessageId | src/agent_bus/queue.rs:33-83 | in place: a key sent in the last 30 seconds is reported with its id and time, else the reservation held for it, else the new id and time, which are then held |
| AgentBus.AgentBusState.EnqueueOnce | src/agent_bus/queue.rs:225-352 | in place: a send is a repetition if and only if its key was sent in the last 30 seconds or its stable id is queued, and then the earlier message is answered and no queue changes; otherwise the new message ends the queue, is remembered, and its id is no longer reserved |
| AgentBus.AgentBusState.FindQueued | src/agent_bus/queue.rs:269-299 | the search finds the first queued message with the id, or none exists |
| AgentBus.AgentBusState.PollMessages | src/agent_bus/queue.rs:112-141 | in place: the answer is the queue as it was and the registered name or the id; an ack-mode poll leaves the queue, another empties it; the agent was seen now |
| AgentBus.AgentBusState.AckMessages | src/agent_bus/queue.rs:85-110 | in place: the queue keeps its order and loses exactly the messages named, the count is what it lost, an emptied queue goes, and no other queue changes |
| AgentBus.AgentBusState.UnregisterAgent | src/agent_bus/server.rs:2763-2777 | in place: the agent and its queue go, nothing else |
| AgentBus.AgentBusState.WithdrawNotifications | src/agent_bus/server.rs:520-546 | in place: every queue keeps its order and loses exactly the Task Service messages whose external id is cancelled; the recent sends lose exactly the cancelled ones |
| AgentBus.AgentBusState.PruneStaleAgents | src/agent_bus/store.rs:89-122 | in place: exactly the agents not seen for 120 seconds, or for 15 with their local process gone, leave with their queues, and the answer says whether any did |
| Routing.ProjectInPlace | src/agent_bus/routing.rs:316-344 | the loop that overwrites the durable ids computes the specified projection of the original list |
| Routing.ShownRecord | src/agent_bus/routing.rs:316-344 | a shown id belongs to exactly one record, and that record is live and claims the agent that shows it |
| Routing.ShownIdsAreDistinct | src/agent_bus/routing.rs:316-344 | with distinct runtime ids no two agents show the same durable id |
| Routing.ShownIdResolvesLocally | src/agent_bus/routing.rs:146-173 | a shown id resolves at home, over all groups, to the agent that shows it, and for a sender limited to its groups to that agent if it is in sight and to not-found otherwise |
| Routing.ResolvesAndClaimedOnceIffShown | src/agent_bus/routing.rs:241-314 | the converse, exactly: an id resolves to an agent that one live record claims if and only if that agent shows it |
| Routing.DoubleClaimHidesId | src/agent_bus/routing.rs:316-344 | with two live records claiming a runtime the id resolves at home and is not shown |
| Routing.ShownIdResolvesOnPeers | src/agent_bus/routing.rs:356-388 | on a peer that was sent the list, a full durable id that is nobody's runtime id resolves only to the agent that shows it, and over all groups it does resolve |
| Routing.ResolutionStaysInSight | src/agent_bus/routing.rs:106-219 | only a runtime id reaches an agent outside the groups the sender sees |
| Routing.VisibleExactly | src/agent_bus/routing.rs:98-128 | the visible agents are exactly those the sender sees: all of them, or itself and those that share a group with it, and none for an unregistered sender |
| Routing.OneMatchIsTheAnswer | src/agent_bus/routing.rs:175-219 | a search answers the one match, not found for none, and ambiguous for two or more |
| Routing.CriteriaMean | src/agent_bus/routing.rs:181-196 | which fields of an agent each search looks at |
| Routing.NamesBeatAliases | src/agent_bus/routing.rs:175-219 | aliases are searched if and only if no visible agent has the name |
| Routing.PlainTargetsResolve | src/agent_bus/routing.rs:146-173 | a target that is no durable id is a runtime id of anybody, or is searched among the visible agents |
| Routing.DurableTargetsResolve | src/agent_bus/routing.rs:241-296 | a durable id with two records is ambiguous; with one it resolves to the live endpoint in sight, is not found if that is out of sight, and unavailable if there is none |
| Routing.ForeignDurableTargetsResolve | src/agent_bus/routing.rs:298-314 | a full durable id without a record is searched among the ids that the visible agents show |
| Routing.PeerTargetsResolve | src/agent_bus/routing.rs:356-388 | on a peer's list a runtime id comes first, then a search among the agents that share a group with the sender |
| AgentGroups.NormalizeGroup | src/agent_bus/identity.rs:104-139 | the one-pass loop with its early stop equals trimming, mapping, squeezing dashes, cutting to 80 and trimming punctuation |
| AgentGroups.NormalizedIsNormal | src/agent_bus/identity.rs:104-139 | every result has 1 to 80 allowed characters, no double dash and no punctuation at the edges |
| AgentGroups.NormalIffFixed | src/agent_bus/identity.rs:104-139 | a group is a fixed point of normalisation if and only if it is well-formed |
| AgentGroups.CharacterBecomes | src/agent_bus/identity.rs:111-120 | small letters, digits and `:._-` stay, capitals turn small, blanks and slashes turn into dashes, other characters go |
| AgentGroups.DashesCollapse | src/agent_bus/identity.rs:124-131 | two dashes in a row count as one, anywhere in a text |
| AgentGroups.TrimIsSlice | src/agent_bus/identity.rs:137 | trimming takes off all droppable characters at both ends and nothing else |
| AgentGroups.CaseIsIgnored | src/agent_bus/identity.rs:104-139 | a name and its small-letter form normalise alike |
| AgentGroups.PaddingIsIgnored | src/agent_bus/identity.rs:105 | blanks around a name make no difference |
| AgentGroups.NormalizeGroups | src/agent_bus/identity.rs:82-93 | the loop with its seen set keeps first appearances of the normalised groups in order |
| AgentGroups.NormalizedListForm | src/agent_bus/identity.rs:82-93 | the list form is duplicate-free and well-formed and contains exactly the normalised groups of the input |
| AgentGroups.ListIsIdempotent | src/agent_bus/identity.rs:82-93 | normalising a list again changes nothing, and exactly the normal lists are unchanged |
| AgentGroups.MergeAgentGroups | src/agent_bus/identity.rs:76-80 | the merged list is well-formed and duplicate-free, has exactly the normalised groups of both lists, and begins with a normal first list unchanged |
| AgentGroups.ApplyGroupUpdate | src/agent_bus/groups.rs:86-107 | the update computes the specified list for each mode |
| AgentGroups.AddIsOrderedUnion | src/agent_bus/groups.rs:93-97 | adding to a normal list gives the list followed by the new groups in order of appearance |
| AgentGroups.AddKeepsExistingExactlyWhen | src/agent_bus/groups.rs:93-97 | an Add keeps the existing groups as they are if and only if they form a normal list |
| AgentGroups.UpdateStaysNormal | src/agent_bus/groups.rs:86-107 | on normal lists every mode gives a normal list whose members are the set, the union or the difference |
| AgentGroups.AddThenRemove | src/agent_bus/groups.rs:86-107 | removing what was newly added restores the list, order included |
| AuditEventId.EventIdIsInjective | src/agent_management/projects.rs:601-604 | two event ids are equal if and only if plane, action id and revision agree, even when action ids contain colons and digits |
| AuditEventId.DecimalRoundTrip | src/agent_management/provider.rs:3539-3543 | reading back the decimal text of a revision gives the revision |
| LedgerSafety.NextIdIsNew | src/agent_management/projects.rs:620-626 | the duplicate-event branch is never taken: the next event of a project has an unused id |
| LedgerSafety.HumanKeepsInv | src/agent_management/projects.rs:490-654 | a Human/Management action keeps the audit chain, the records and the separation of roles and id domains, and never finds the parsed store invalid |
| LedgerSafety.GrantKeepsInv | src/agent_management/provider.rs:2466-2561 | so does a Director's grant |
| LedgerSafety.RevokeKeepsInv | src/agent_management/provider.rs:2563-2634 | so does a Director's revoke |
| LedgerSafety.CloseKeepsInv | src/agent_management/provider.rs:1852-1892 | so does closing an agent, whose grant goes when the Director closes it |
| LedgerSafety.RotateKeepsInv | src/agent_management/provider.rs:2655-2776 | so does a rotation: the leaving Director never held a grant, and a retained one becomes operator under the new Director |
| LedgerSafety.BindKeepsInv | src/agent_management/provider.rs:334-422 | so does binding a project to a Director |
| LedgerSafety.BeginKeepsInv | src/agent_management/provider.rs:1041-1232 | so does beginning an agent action |
| LedgerSafety.RunKeepsInv | src/agent_management/store.rs:141-180 | every run of all these operations, with every read and write fault, keeps the invariant |
| LedgerTheorems.AuditIsGapless | src/agent_management/projects.rs:598-626 | in every run from the empty store each project's audit events are one chain with every revision from 1 to the current, and replaying them from nothing gives exactly the current grants, field by field |
| LedgerTheorems.OneWinnerPerRevision | src/agent_management/projects.rs:537-542 | in every run no two action ids commit against the same expected revision of a project |
| LedgerTheorems.OneEventPerAction | src/agent_management/projects.rs:605-654 | in every run a human-plane event is the event of its action's stored receipt, so an action files one |
| LedgerTheorems.RolesAndDomainsStayApart | src/agent_management/projects.rs:512-536 | in every run no Director holds a grant in its own project and no action id is used in two domains |
| LedgerTheorems.StoreIsInvalidOnlyIfGarbled | src/agent_management/projects.rs:555-626 | in every run each modelled operation, human or agent, answers that the store is invalid if and only if the file does not parse; the branches that find grants, audit events, agents or projects invalid are never taken. The checks on the phase of an agent action when an expected predecessor is marked retired are not modelled |
| LedgerTheorems.SameRevisionSameGrants | src/agent_management/projects.rs:656-674 | grant revisions never fall, and if one is the same at two moments of a run the grants are the same |
| LedgerTheorems.ReplayReturnsReceipt | src/agent_management/projects.rs:499-511 | after any later run, replaying a committed action returns its stored receipt and leaves the whole store, revision included, unchanged |
| LedgerTheorems.OtherPayloadIsRefused | src/agent_management/projects.rs:504-510 | after any later run the action id is refused with any other payload |
| LedgerTheorems.RefusalChangesNothing | src/agent_management/store.rs:141-180 | an error changes nothing, except PersistenceUnavailable when the failure came after the new file was in place; what is written is the state the operation asked for, one revision up and within the JSON-safe limit |
| LedgerTheorems.RunGrows | src/agent_management/store.rs:168-179 | over every run audit events and action records are never changed or dropped, and the store revision names one store: a run that ends at its first revision changed nothing |
| LedgerTheorems.RepliesAreOnRecord | src/agent_management/store.rs:141-180 | a receipt is answered only when the written store holds it, and an action on record never causes a write |
| LedgerTheorems.RetryCommitsOnce | src/agent_management/projects.rs:499-511 | retrying after any fault commits once: what was written before a lost reply is what the retry returns, and after a fault that wrote nothing the retry writes once and records what it answers |
| LedgerTheorems.CommitsExactlyWhen | src/agent_management/projects.rs:512-596 | a new action commits if and only if its id is unused, the authority epoch and grant revision match, the revision can rise, the operator is not the Director, and the grant or revoke applies |
| LedgerTheorems.GrantThenRevokeRestores | src/agent_management/projects.rs:545-600 | a committed grant can be revoked at the next revision with any new id, which restores every project's grants two revisions later |
| LedgerAnswers.ReachableIsOrderly | src/agent_management/projects.rs:490-654 | every store that keeps the invariant has what the next rows ask: records and grants under their own keys, no grant for a Director, and an unused id for the next event |
| LedgerAnswers.HumanRefusedExactlyWhen | src/agent_management/projects.rs:512-596 | a new action is refused with the code of the first check it fails, in the order of the checks, and commits if it fails none |
| LedgerAnswers.ReceiptTells | src/agent_management/projects.rs:627-652 | the receipt holds the grant that now stands, or none after a revoke, the project's roster as written, the filed event, and who, when and against which revision |
| LedgerAnswers.CommitWrites | src/agent_management/projects.rs:545-626 | a commit replaces the project's grants and revision, files its event and its record, and changes nothing else |
| LedgerAnswers.EventIdText | src/agent_management/projects.rs:601-604 | the text of an event id for either plane |
| LedgerAnswers.CommitAnswers | src/agent_management/store.rs:141-180 | the store's reply and its contents for every fault, for operations that fail, only read or write, and for a full store revision |
| LedgerAnswers.BindAnswers | src/agent_management/provider.rs:334-422 | a binding starts at epoch one or follows the Director and epoch named, one epoch later, and every refusal has its cause |
| LedgerAnswers.BeginAnswers | src/agent_management/provider.rs:1048-1068 | an agent action's id is bound to one project and to no other domain |
| LedgerAnswers.DirectorGrantAnswers | src/agent_management/provider.rs:2466-2561 | a Director's grant needs the Director as caller, the expected revision, and an active ungranted agent of the project; each refusal, and what a commit writes |
| LedgerAnswers.DirectorRevokeAnswers | src/agent_management/provider.rs:2563-2634 | the same for a revoke |
| LedgerAnswers.CloseAnswers | src/agent_management/provider.rs:1852-1892 | a close retires the agent once and keeps the rest of its record; the Director's close of an operator also takes its grant |
| LedgerAnswers.RotateAnswers | src/agent_management/provider.rs:2655-2776 | a rotation hands the project on one epoch later and grants a retained predecessor in its successor's name; each refusal has its cause |
| AgentManagementStore.ChangeOperators | src/agent_management/projects.rs:499-652 | the step-by-step changes to the copied snapshot give the specified result, error for error |
| AgentManagementStore.Store.WithState | src/agent_management/store.rs:141-180 | reading, operating, raising the revision and writing in place equal the specified commit under every fault |
| AgentManagementStore.Store.ExecuteOperatorAction | src/agent_management/projects.rs:490-654 | the call keeps the invariant, records what it answers, changes nothing on refusal or replay, and answers InvalidStore if and only if the file does not parse |
| ProjectViews.ProjectWorkspace | src/agent_management/projects.rs:696-763 | the loop fills the four places with exactly the agents that belong there, operators with the grants they hold |
| ProjectViews.ProjectSummary | src/agent_management/projects.rs:871-915 | the separate counting loop agrees with the lengths of the workspace's active and retired lists, and counts all grants |
| ProjectViews.EachAgentInOnePlace | src/agent_management/projects.rs:696-730 | each agent of the project is in exactly one of the four places, once; agents of other projects are in none |
| ProjectViews.OperatorCountExceedsList | src/agent_management/projects.rs:871-915 | the operator count is at least the listed operators, with equality if and only if every grantee is an agent of the project other than its Director |
| ProjectViews.OperatorCountInRuns | src/agent_management/projects.rs:904-907 | in every run equality holds if and only if every grantee is an agent of the project |
| ProjectViews.RolesAgree | src/agent_management/provider.rs:3018-3045 | in every run the provider and the projects view give every caller the same role |
| ProjectViews.OperatorsAreListed | src/agent_management/projects.rs:844-869 | a session acts as operator if and only if the workspace lists it as an operator that is not retired |
| ProjectViews.CommitDecidesAccess | src/agent_management/projects.rs:844-869 | a committed grant gives the operator role at once, a committed revoke takes it away |
| ProjectViews.PlacesMean | src/agent_management/projects.rs:706-730 | which agents are in which place: the Director first, then grantees even if retired, then retired or active |
| ProjectViews.ListsKeepOrder | src/agent_management/projects.rs:706-730 | the lists keep the order of the agent table |
| ProjectViews.AccessExactlyWhen | src/agent_management/projects.rs:844-869 | the Director role if and only if the caller is the Director, the operator role if and only if it is another session with a grant that is an active agent of the project |
| WatchdogLog.TaskWatchdogFailureLog.RecordFailure | src/agent_bus/server.rs:136-165 | in place: the next log, and the number of suppressed failures when this one is printed |
| WatchdogLog.EmitsExactlyWhen | src/agent_bus/server.rs:136-165 | with a clock that does not go back, a failure is printed if and only if every printed failure earlier in its streak is at least the backoff old |
| WatchdogLog.FailuresAreAccounted | src/agent_bus/server.rs:136-169 | over every run failures equal those printed, reported as suppressed, discarded with their streak, pending, or lost to a full counter, the last only beyond 2^64-1 failures |
| WatchdogLog.StreakDiscardsNothing | src/agent_bus/server.rs:136-165 | a run of identical failures discards nothing: below saturation failures are printed plus reported plus pending |
| WatchdogLog.PrintedCountsEmissions | src/agent_bus/server.rs:136-165 | the count of printed failures rises exactly at the polls that emit |

## Left out

- Digests: a SHA-256 of a request or resolution is modelled as the value it digests, so collisions are not modelled.
- Random ids are drawn from a counter, so clashes of random ids are not modelled; receipt ids are chosen by callers and may clash.
- The Task Service's own rules for phases and plans: whether it refuses a transition is an input of each call.
- Session, attempt and sender authorisation: the outcome of those checks is an input; the stored-owner check is modelled.
- Recovery records that the Task Service keeps in its own journal.
- A power loss that undoes a file that was already renamed into place but not yet synced.
- The revision counter of the evidence store; its overflow is one of the write faults.
- HTTP parsing, tokens, route dispatch, JSON encoding, audit files and other input and output.
- Lock poisoning, thread panics and weak memory: atomics are single steps of one interleaving.
- Which sends share a key in the bus runs: a run may use any key for any send; `DedupeKey` says when keys agree.
- The syntax of a full durable id is a parameter of the routing theorems.
- The order of roster and workspace lists: agents are taken in table order, which is already the order the final sorts ask for.
- The phases of agent actions: an agent action may go on at any time after it was begun, which allows more runs than the program.
- Marking an expected predecessor retired (src/agent_management/provider.rs:1980-2040) makes the ledger change of a close under stricter checks, among them checks of the action's phase that answer InvalidStore, and has no member of its own.
- Seat transfer, lifecycle effects and native bootstrap of Director rotation, and presentation settings of projects.
- Registration and its default project group, and retirement racing with registration.
- The review list of legacy operator repair candidates.
- The presentation-commit set of the watchdog.
- Wire types, client, federation discovery, command line and migration: types and wrappers without a hard property.
