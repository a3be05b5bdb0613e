/**
 What the Agent Bus queue guarantees over every run of reservations, sends, polls, acknowledgements,
 withdrawals and agent removals. A run keeps a log of what was enqueued and what left each queue. An event
 names the key of its send; nothing here depends on how keys are made.
 */
module BusRuns {
  import opened Wrappers
  import DedupeKey
  import opened BusQueue

  datatype Entry =
    | Sent(key: string, message: Message)
    | Removed(taken: map<AgentId, seq<Message>>)
    | Withdrew(keys: set<string>)

  /** `nextId` is the supply of random ids, `clock` the time last passed to the bus. */
  datatype World = World(bus: Bus, nextId: nat, clock: nat, log: seq<Entry>)

  const START := World(EMPTY_BUS, 0, 0, [])

  datatype Event =
    | Reserving(key: string, now: nat)
    | Sending(key: string, send: DedupeKey.Send, stable: Option<MessageId>, now: nat)
    | Polling(target: AgentId, ackMode: bool, now: nat)
    | Acking(target: AgentId, ids: seq<MessageId>)
    | Cancelling(control: string, cancelled: set<string>)
    | Dropping(agents: set<AgentId>)

  /** A random id cannot be named before it has been issued. */
  predicate Known(w: World, id: MessageId) {
    id.Uuid? ==> id.n < w.nextId
  }

  predicate Enabled(w: World, e: Event) {
    e.Sending? && e.stable.Some? ==> Known(w, e.stable.value)
  }

  function TakenFrom(b: Bus, targets: set<AgentId>, r: Removal): map<AgentId, seq<Message>> {
    map t | t in targets && t in b.messages :: Taken(b.messages[t], r)
  }

  function Step(w: World, e: Event): World {
    if !Enabled(w, e) then w
    else
      match e
      case Reserving(key, now) =>
        w.(bus := Reserve(w.bus, key, now, Uuid(w.nextId)).0, nextId := w.nextId + 1, clock := now)
      case Sending(key, send, stable, now) =>
        var (bus, outcome) := Enqueue(w.bus, key, send, stable, now, Uuid(w.nextId));
        World(bus, w.nextId + 1, now,
              if outcome.deduplicated then w.log else w.log + [Sent(key, outcome.message)])
      case Polling(target, ackMode, now) =>
        var (bus, (_, answered)) := Poll(w.bus, target, ackMode, now);
        w.(bus := bus, log := if ackMode then w.log else w.log + [Removed(map[target := answered])])
      case Acking(target, ids) =>
        w.(bus := Ack(w.bus, target, ids).0,
           log := w.log + [Removed(TakenFrom(w.bus, {target}, Acked(IdSet(ids))))])
      case Cancelling(control, cancelled) =>
        w.(bus := CancelWatchdog(w.bus, control, cancelled),
           log := w.log + [Removed(TakenFrom(w.bus, w.bus.messages.Keys, Withdrawn(control, cancelled))),
                           Withdrew(CancelledKeys(w.bus, control, cancelled))])
      case Dropping(agents) =>
        w.(bus := Drop(w.bus, agents),
           log := w.log + [Removed(TakenFrom(w.bus, agents, Everything))])
  }

  function Run(w: World, events: seq<Event>): World
    decreases |events|
  {
    if events == [] then w else Run(Step(w, events[0]), events[1..])
  }

  // ---------------------------------------------------------------- what the log says about a queue

  /** Everything enqueued for a target, in order. */
  function SentTo(log: seq<Entry>, target: AgentId): seq<Message> {
    if log == [] then []
    else
      var last := log[|log| - 1];
      SentTo(log[..|log| - 1], target)
      + (if last.Sent? && last.message.send.to == target then [last.message] else [])
  }

  /** Everything that left the target's queue. */
  function RemovedFrom(log: seq<Entry>, target: AgentId): multiset<Message> {
    if log == [] then multiset{}
    else
      var last := log[|log| - 1];
      RemovedFrom(log[..|log| - 1], target)
      + (if last.Removed? && target in last.taken then multiset(last.taken[target]) else multiset{})
  }

  /** `a` arises from `b` by leaving messages out. */
  predicate Subsequence(a: seq<Message>, b: seq<Message>)
    decreases |b|
  {
    if a == [] then true
    else if b == [] then false
    else
      || (a[|a| - 1] == b[|b| - 1] && Subsequence(a[..|a| - 1], b[..|b| - 1]))
      || Subsequence(a, b[..|b| - 1])
  }

  predicate DistinctIds(q: seq<Message>) {
    forall i, j :: 0 <= i < j < |q| ==> q[i].id != q[j].id
  }

  /** Of the messages `sent`, those `removed` are gone and `q` remains, in order and without repeated ids. */
  predicate Account(q: seq<Message>, sent: seq<Message>, removed: multiset<Message>) {
    && multiset(sent) == multiset(q) + removed
    && Subsequence(q, sent)
    && DistinctIds(q)
  }

  predicate Addressed(q: seq<Message>, t: AgentId, nextId: nat) {
    forall m :: m in q ==> m.send.to == t && (m.id.Uuid? ==> m.id.n < nextId)
  }

  predicate QueueAccounted(w: World, t: AgentId) {
    && Account(Queue(w.bus, t), SentTo(w.log, t), RemovedFrom(w.log, t))
    && Addressed(Queue(w.bus, t), t, w.nextId)
  }

  predicate IdsKnown(w: World) {
    && (forall k :: k in w.bus.reservations ==> Known(w, w.bus.reservations[k].id))
    && (forall i :: 0 <= i < |w.log| && w.log[i].Sent? ==> Known(w, w.log[i].message.id))
  }

  /** No id that was enqueued is still reserved. */
  predicate ReservedUnsent(w: World) {
    forall i, k :: 0 <= i < |w.log| && w.log[i].Sent? && k in w.bus.reservations ==>
      w.bus.reservations[k].id != w.log[i].message.id
  }

  ghost predicate Inv(w: World) {
    (forall t :: QueueAccounted(w, t)) && IdsKnown(w) && ReservedUnsent(w)
  }

  // ---------------------------------------------------------------- queue lemmas

  lemma Snoc(q: seq<Message>, m: Message, r: Removal)
    ensures Kept(q + [m], r) == if Goes(m, r) then Kept(q, r) else Kept(q, r) + [m]
    ensures Taken(q + [m], r) == if Goes(m, r) then Taken(q, r) + [m] else Taken(q, r)
  {
    assert (q + [m])[..|q|] == q;
  }

  lemma {:induction false} KeptAndTaken(q: seq<Message>, r: Removal)
    ensures multiset(q) == multiset(Kept(q, r)) + multiset(Taken(q, r))
  {
    if q != [] {
      var q0, m := q[..|q| - 1], q[|q| - 1];
      var k, t := Kept(q0, r), Taken(q0, r);
      KeptAndTaken(q0, r);
      assert q == q0 + [m];
      Snoc(q0, m, r);
      OneMore(q0, k, t, m);
    }
  }

  /** Both ways of placing one more message. */
  lemma OneMore(q: seq<Message>, k: seq<Message>, t: seq<Message>, m: Message)
    requires multiset(q) == multiset(k) + multiset(t)
    ensures multiset(q + [m]) == multiset(k + [m]) + multiset(t)
    ensures multiset(q + [m]) == multiset(k) + multiset(t + [m])
  {
    assert multiset(q + [m]) == multiset(q) + multiset{m};
    assert multiset(k + [m]) == multiset(k) + multiset{m};
    assert multiset(t + [m]) == multiset(t) + multiset{m};
  }

  lemma {:induction false} KeptAndTakenLength(q: seq<Message>, r: Removal)
    ensures |q| == |Kept(q, r)| + |Taken(q, r)|
  {
    if q != [] {
      KeptAndTakenLength(q[..|q| - 1], r);
    }
  }

  lemma KeptWereQueued(q: seq<Message>, r: Removal, m: Message)
    requires m in Kept(q, r)
    ensures m in q
  {
    KeptAndTaken(q, r);
    assert m in multiset(Kept(q, r));
    assert m in multiset(q);
  }

  lemma {:induction false} EverythingGoes(q: seq<Message>)
    ensures Kept(q, Everything) == [] && Taken(q, Everything) == q
  {
    if q != [] {
      EverythingGoes(q[..|q| - 1]);
    }
  }

  lemma {:induction false} NothingNamed(q: seq<Message>)
    ensures Kept(q, Acked({})) == q && Taken(q, Acked({})) == []
  {
    if q != [] {
      NothingNamed(q[..|q| - 1]);
      assert q == q[..|q| - 1] + [q[|q| - 1]];
    }
  }

  lemma SkipLast(a: seq<Message>, b: seq<Message>)
    requires b != [] && Subsequence(a, b[..|b| - 1])
    ensures Subsequence(a, b)
  {}

  lemma MatchLast(a: seq<Message>, b: seq<Message>, m: Message)
    requires Subsequence(a, b)
    ensures Subsequence(a + [m], b + [m])
  {
    assert (a + [m])[..|a|] == a && (b + [m])[..|b|] == b;
  }

  /** Filtering keeps a subsequence one. */
  lemma {:induction false} KeptSubsequence(q: seq<Message>, all: seq<Message>, r: Removal)
    requires Subsequence(q, all)
    ensures Subsequence(Kept(q, r), all)
    decreases |all|
  {
    if q != [] {
      var q0, all0 := q[..|q| - 1], all[..|all| - 1];
      var m := q[|q| - 1];
      if m == all[|all| - 1] && Subsequence(q0, all0) {
        KeptSubsequence(q0, all0, r);
        if Goes(m, r) {
          assert Kept(q, r) == Kept(q0, r);
          SkipLast(Kept(q0, r), all);
        } else {
          MatchLast(Kept(q0, r), all0, m);
          assert all == all0 + [m];
        }
      } else {
        KeptSubsequence(q, all0, r);
        SkipLast(Kept(q, r), all);
      }
    }
  }

  lemma {:induction false} KeptDistinct(q: seq<Message>, r: Removal)
    requires DistinctIds(q)
    ensures DistinctIds(Kept(q, r))
  {
    if q != [] {
      var q0, m := q[..|q| - 1], q[|q| - 1];
      KeptDistinct(q0, r);
      forall i | 0 <= i < |Kept(q0, r)| ensures Kept(q0, r)[i].id != m.id {
        KeptWereQueued(q0, r, Kept(q0, r)[i]);
      }
    }
  }

  lemma AccountAppend(q: seq<Message>, sent: seq<Message>, removed: multiset<Message>, m: Message)
    requires Account(q, sent, removed)
    requires forall i :: 0 <= i < |q| ==> q[i].id != m.id
    ensures Account(q + [m], sent + [m], removed)
  {
    MatchLast(q, sent, m);
  }

  lemma AccountRemove(q: seq<Message>, sent: seq<Message>, removed: multiset<Message>, r: Removal)
    requires Account(q, sent, removed)
    ensures Account(Kept(q, r), sent, removed + multiset(Taken(q, r)))
  {
    KeptAndTaken(q, r);
    KeptSubsequence(q, sent, r);
    KeptDistinct(q, r);
  }

  lemma AddressedRemove(q: seq<Message>, t: AgentId, nextId: nat, r: Removal)
    requires Addressed(q, t, nextId)
    ensures Addressed(Kept(q, r), t, nextId)
  {
    forall m | m in Kept(q, r) ensures m.send.to == t && (m.id.Uuid? ==> m.id.n < nextId) {
      KeptWereQueued(q, r, m);
    }
  }

  // ---------------------------------------------------------------- one step, one queue

  lemma LogGrows(log: seq<Entry>, e: Entry, t: AgentId)
    ensures SentTo(log + [e], t)
            == SentTo(log, t) + (if e.Sent? && e.message.send.to == t then [e.message] else [])
    ensures RemovedFrom(log + [e], t)
            == RemovedFrom(log, t)
               + (if e.Removed? && t in e.taken then multiset(e.taken[t]) else multiset{})
  {
    assert (log + [e])[..|log|] == log;
  }

  /** A queue that loses what a removal names, with the log saying so, stays accounted for. */
  lemma RemovalKeepsAccount(w: World, w': World, t: AgentId, r: Removal, taken: map<AgentId, seq<Message>>)
    requires QueueAccounted(w, t) && Shrinks(w, w', t, r, taken)
    ensures QueueAccounted(w', t)
  {
    AccountRemove(Queue(w.bus, t), SentTo(w.log, t), RemovedFrom(w.log, t), r);
    AddressedRemove(Queue(w.bus, t), t, w.nextId, r);
    LogGrows(w.log, Removed(taken), t);
    assert SentTo(w'.log, t) == SentTo(w.log, t);
    assert RemovedFrom(w'.log, t) == RemovedFrom(w.log, t) + multiset(Taken(Queue(w.bus, t), r));
  }

  /** A log entry that says nothing about a target. */
  predicate Elsewhere(e: Entry, t: AgentId) {
    !(e.Sent? && e.message.send.to == t) && !(e.Removed? && t in e.taken)
  }

  lemma SameLogKeepsAccount(w: World, w': World, t: AgentId)
    requires QueueAccounted(w, t) && w'.nextId >= w.nextId
    requires Queue(w'.bus, t) == Queue(w.bus, t) && w'.log == w.log
    ensures QueueAccounted(w', t)
  {}

  lemma ElsewhereKeepsAccount(w: World, w': World, t: AgentId, e: Entry)
    requires QueueAccounted(w, t) && w'.nextId >= w.nextId
    requires Queue(w'.bus, t) == Queue(w.bus, t) && w'.log == w.log + [e] && Elsewhere(e, t)
    ensures QueueAccounted(w', t)
  {
    LogGrows(w.log, e, t);
    assert SentTo(w'.log, t) == SentTo(w.log, t);
    assert RemovedFrom(w'.log, t) == RemovedFrom(w.log, t);
  }

  lemma EnqueueForm(b: Bus, key: string, send: DedupeKey.Send, stable: Option<MessageId>, now: nat, newId: MessageId)
    ensures var (b', o) := Enqueue(b, key, send, stable, now, newId);
            && (o.deduplicated ==> b'.messages == b.messages)
            && (!o.deduplicated ==>
                  && o.message == Message(IdFor(stable, newId), send, now)
                  && b'.messages == b.messages[send.to := Queue(b, send.to) + [o.message]]
                  && (stable.Some? ==> forall i :: 0 <= i < |Queue(b, send.to)| ==>
                                         Queue(b, send.to)[i].id != stable.value))
  {}

  lemma AppendKeepsAccount(w: World, w': World, t: AgentId, key: string, m: Message)
    requires QueueAccounted(w, t) && w'.nextId == w.nextId + 1
    requires m.send.to == t && Known(w', m.id)
    requires forall i :: 0 <= i < |Queue(w.bus, t)| ==> Queue(w.bus, t)[i].id != m.id
    requires Queue(w'.bus, t) == Queue(w.bus, t) + [m] && w'.log == w.log + [Sent(key, m)]
    ensures QueueAccounted(w', t)
  {
    AccountAppend(Queue(w.bus, t), SentTo(w.log, t), RemovedFrom(w.log, t), m);
    LogGrows(w.log, Sent(key, m), t);
    assert SentTo(w'.log, t) == SentTo(w.log, t) + [m];
    assert RemovedFrom(w'.log, t) == RemovedFrom(w.log, t);
  }

  /** The queue of one target and the log after a send. */
  lemma SendingForm(w: World, e: Event, t: AgentId)
    requires e.Sending? && Enabled(w, e)
    requires Addressed(Queue(w.bus, t), t, w.nextId)
    ensures var o := Enqueue(w.bus, e.key, e.send, e.stable, e.now, Uuid(w.nextId)).1;
            var w' := Step(w, e);
            && w'.nextId == w.nextId + 1
            && (o.deduplicated ==> Queue(w'.bus, t) == Queue(w.bus, t) && w'.log == w.log)
            && (!o.deduplicated ==>
                  && o.message.send == e.send && Known(w', o.message.id)
                  && w'.log == w.log + [Sent(e.key, o.message)]
                  && (t != e.send.to ==> Queue(w'.bus, t) == Queue(w.bus, t))
                  && (t == e.send.to ==>
                        && Queue(w'.bus, t) == Queue(w.bus, t) + [o.message]
                        && forall m :: m in Queue(w.bus, t) ==> m.id != o.message.id))
  {
    EnqueueForm(w.bus, e.key, e.send, e.stable, e.now, Uuid(w.nextId));
  }

  lemma SendingKeepsAccount(w: World, e: Event, t: AgentId)
    requires QueueAccounted(w, t) && e.Sending? && Enabled(w, e)
    ensures QueueAccounted(Step(w, e), t)
  {
    SendingForm(w, e, t);
    var w' := Step(w, e);
    var o := Enqueue(w.bus, e.key, e.send, e.stable, e.now, Uuid(w.nextId)).1;
    if o.deduplicated {
      SameLogKeepsAccount(w, w', t);
    } else if e.send.to != t {
      ElsewhereKeepsAccount(w, w', t, Sent(e.key, o.message));
    } else {
      AppendKeepsAccount(w, w', t, e.key, o.message);
    }
  }

  /** An acknowledgement takes exactly the named messages out of one queue, and counts them. */
  lemma AckForm(b: Bus, target: AgentId, ids: seq<MessageId>)
    ensures Queue(Ack(b, target, ids).0, target) == Kept(Queue(b, target), Acked(IdSet(ids)))
    ensures forall t :: t != target ==> Queue(Ack(b, target, ids).0, t) == Queue(b, t)
    ensures Ack(b, target, ids).1 == |Taken(Queue(b, target), Acked(IdSet(ids)))|
  {
    KeptAndTakenLength(Queue(b, target), Acked(IdSet(ids)));
    if ids == [] {
      assert IdSet(ids) == {};
      NothingNamed(Queue(b, target));
    }
  }

  /** The target's queue and the log as a removal leaves them. */
  predicate Shrinks(w: World, w': World, t: AgentId, r: Removal, taken: map<AgentId, seq<Message>>) {
    && w'.nextId == w.nextId
    && w'.log == w.log + [Removed(taken)]
    && Queue(w'.bus, t) == Kept(Queue(w.bus, t), r)
    && (if t in taken then taken[t] == Taken(Queue(w.bus, t), r) else Taken(Queue(w.bus, t), r) == [])
  }

  /** What leaves a queue in a drain is what the poll answers. */
  lemma PollShrinks(w: World, t: AgentId, now: nat)
    ensures Shrinks(w, Step(w, Polling(t, false, now)), t, Everything, map[t := Poll(w.bus, t, false, now).1.1])
  {
    EverythingGoes(Queue(w.bus, t));
  }

  lemma AckShrinks(w: World, t: AgentId, ids: seq<MessageId>)
    ensures Shrinks(w, Step(w, Acking(t, ids)), t, Acked(IdSet(ids)), TakenFrom(w.bus, {t}, Acked(IdSet(ids))))
  {
    AckForm(w.bus, t, ids);
  }

  lemma DropShrinks(w: World, agents: set<AgentId>, t: AgentId)
    requires t in agents
    ensures Shrinks(w, Step(w, Dropping(agents)), t, Everything, TakenFrom(w.bus, agents, Everything))
  {
    EverythingGoes(Queue(w.bus, t));
  }

  lemma CancelShrinks(w: World, control: string, cancelled: set<string>, t: AgentId)
    ensures var taken := TakenFrom(w.bus, w.bus.messages.Keys, Withdrawn(control, cancelled));
            var w' := Step(w, Cancelling(control, cancelled));
            && w'.log == w.log + [Removed(taken)] + [Withdrew(CancelledKeys(w.bus, control, cancelled))]
            && Shrinks(w, w'.(log := w.log + [Removed(taken)]), t, Withdrawn(control, cancelled), taken)
  {}

  lemma CancellingKeepsAccount(w: World, control: string, cancelled: set<string>, t: AgentId)
    requires QueueAccounted(w, t)
    ensures QueueAccounted(Step(w, Cancelling(control, cancelled)), t)
  {
    var w' := Step(w, Cancelling(control, cancelled));
    var taken := TakenFrom(w.bus, w.bus.messages.Keys, Withdrawn(control, cancelled));
    var mid := w'.(log := w.log + [Removed(taken)]);
    CancelShrinks(w, control, cancelled, t);
    RemovalKeepsAccount(w, mid, t, Withdrawn(control, cancelled), taken);
    ElsewhereKeepsAccount(mid, w', t, Withdrew(CancelledKeys(w.bus, control, cancelled)));
  }

  lemma PollingKeepsAccount(w: World, target: AgentId, ackMode: bool, now: nat, t: AgentId)
    requires QueueAccounted(w, t)
    ensures QueueAccounted(Step(w, Polling(target, ackMode, now)), t)
  {
    var w' := Step(w, Polling(target, ackMode, now));
    if ackMode {
      SameLogKeepsAccount(w, w', t);
    } else if target == t {
      PollShrinks(w, t, now);
      RemovalKeepsAccount(w, w', t, Everything, map[t := Poll(w.bus, t, false, now).1.1]);
    } else {
      ElsewhereKeepsAccount(w, w', t, Removed(map[target := Poll(w.bus, target, false, now).1.1]));
    }
  }

  lemma AckLeavesOthers(w: World, target: AgentId, ids: seq<MessageId>, t: AgentId)
    requires target != t
    ensures var w' := Step(w, Acking(target, ids));
            && Queue(w'.bus, t) == Queue(w.bus, t) && w'.nextId == w.nextId
            && w'.log == w.log + [Removed(TakenFrom(w.bus, {target}, Acked(IdSet(ids))))]
  {}

  lemma OtherAckKeepsAccount(w: World, target: AgentId, ids: seq<MessageId>, t: AgentId)
    requires QueueAccounted(w, t) && target != t
    ensures QueueAccounted(Step(w, Acking(target, ids)), t)
  {
    AckLeavesOthers(w, target, ids, t);
    ElsewhereKeepsAccount(w, Step(w, Acking(target, ids)), t, Removed(TakenFrom(w.bus, {target}, Acked(IdSet(ids)))));
  }

  lemma AckingKeepsAccount(w: World, target: AgentId, ids: seq<MessageId>, t: AgentId)
    requires QueueAccounted(w, t)
    ensures QueueAccounted(Step(w, Acking(target, ids)), t)
  {
    if target == t {
      AckShrinks(w, t, ids);
      RemovalKeepsAccount(w, Step(w, Acking(t, ids)), t, Acked(IdSet(ids)), TakenFrom(w.bus, {t}, Acked(IdSet(ids))));
    } else {
      OtherAckKeepsAccount(w, target, ids, t);
    }
  }

  lemma DroppingKeepsAccount(w: World, agents: set<AgentId>, t: AgentId)
    requires QueueAccounted(w, t)
    ensures QueueAccounted(Step(w, Dropping(agents)), t)
  {
    var w' := Step(w, Dropping(agents));
    if t in agents {
      DropShrinks(w, agents, t);
      RemovalKeepsAccount(w, w', t, Everything, TakenFrom(w.bus, agents, Everything));
    } else {
      ElsewhereKeepsAccount(w, w', t, Removed(TakenFrom(w.bus, agents, Everything)));
    }
  }

  lemma ReservingKeepsAccount(w: World, key: string, now: nat, t: AgentId)
    requires QueueAccounted(w, t)
    ensures QueueAccounted(Step(w, Reserving(key, now)), t)
  {
    SameLogKeepsAccount(w, Step(w, Reserving(key, now)), t);
  }

  lemma StepKeepsAccount(w: World, e: Event, t: AgentId)
    requires QueueAccounted(w, t)
    ensures QueueAccounted(Step(w, e), t)
  {
    match e
    case Reserving(key, now) => ReservingKeepsAccount(w, key, now, t);
    case Sending(_, _, _, _) =>
      if Enabled(w, e) {
        SendingKeepsAccount(w, e, t);
      } else {
        assert Step(w, e) == w;
      }
    case Polling(target, ackMode, now) => PollingKeepsAccount(w, target, ackMode, now, t);
    case Acking(target, ids) => AckingKeepsAccount(w, target, ids, t);
    case Cancelling(control, cancelled) => CancellingKeepsAccount(w, control, cancelled, t);
    case Dropping(agents) => DroppingKeepsAccount(w, agents, t);
  }

  // ---------------------------------------------------------------- ids

  lemma StepKeepsIds(w: World, e: Event)
    requires IdsKnown(w) && ReservedUnsent(w)
    ensures IdsKnown(Step(w, e)) && ReservedUnsent(Step(w, e))
  {}

  lemma StepKeepsInv(w: World, e: Event)
    requires Inv(w)
    ensures Inv(Step(w, e))
  {
    forall t ensures QueueAccounted(Step(w, e), t) {
      StepKeepsAccount(w, e, t);
    }
    StepKeepsIds(w, e);
  }

  lemma {:induction false} RunKeepsInv(w: World, events: seq<Event>)
    requires Inv(w)
    ensures Inv(Run(w, events))
    decreases |events|
  {
    if events != [] {
      StepKeepsInv(w, events[0]);
      RunKeepsInv(Step(w, events[0]), events[1..]);
    }
  }
}
