/** The Agent Bus state as the program updates it, each method proved against the functions of `BusQueue`. */
module AgentBus {
  import opened Wrappers
  import opened DedupeKey
  import opened BusQueue
  import opened BusRuns

  const WATCHDOG_CONTROL := "cutex.task_service.watchdog.v1"

  class AgentBusState {
    var agents: map<AgentId, Agent>
    var messages: map<AgentId, seq<Message>>
    var recent: map<string, Message>
    var reservations: map<string, Reservation>

    ghost function View(): Bus
      reads this
    {
      Bus(agents, messages, recent, reservations)
    }

    constructor ()
      ensures View() == EMPTY_BUS
    {
      agents, messages, recent, reservations := map[], map[], map[], map[];
    }

    method PruneRecentSends(now: nat)
      modifies this`recent, this`reservations
      ensures View() == PruneRecent(old(View()), now)
      ensures forall k :: k in recent <==> k in old(recent) && now <= old(recent)[k].createdAt + 30
      ensures forall k :: k in recent ==> recent[k] == old(recent)[k]
      ensures forall k :: k in reservations <==>
                            k in old(reservations) && now <= old(reservations)[k].createdAt + 30
      ensures forall k :: k in reservations ==> reservations[k] == old(reservations)[k]
    {
      recent := map k | k in recent && InWindow(now, recent[k].createdAt) :: recent[k];
      reservations := map k | k in reservations && InWindow(now, reservations[k].createdAt) :: reservations[k];
    }

    /** A send already made in the window is reported; else the id reserved for it, or a new one. */
    method ReserveMessageId(send: Send, now: nat, newId: MessageId) returns (r: Reserved)
      modifies this`recent, this`reservations
      ensures (View(), r) == Reserve(old(View()), Key(send), now, newId)
      ensures r == if Fresh(old(recent), Key(send), now)
                   then Reserved(old(recent)[Key(send)].id, old(recent)[Key(send)].createdAt, true)
                   else if Held(old(reservations), Key(send), now)
                   then Reserved(old(reservations)[Key(send)].id, old(reservations)[Key(send)].createdAt, false)
                   else Reserved(newId, now, false)
      ensures !r.alreadyEnqueued ==>
                Key(send) in reservations && reservations[Key(send)] == Reservation(r.id, r.createdAt)
    {
      var key := Key(send);
      PruneRecentSends(now);
      if key in recent {
        return Reserved(recent[key].id, recent[key].createdAt, true);
      }
      if key !in reservations {
        reservations := reservations[key := Reservation(newId, now)];
      }
      r := Reserved(reservations[key].id, reservations[key].createdAt, false);
    }

    /** Look for a queued message with an id, front to back. */
    method FindQueued(target: AgentId, id: MessageId) returns (found: Option<Message>)
      ensures var at := FindId(Queue(View(), target), id);
              found == if at.Some? then Some(Queue(View(), target)[at.value]) else None
    {
      if target !in messages { return None; }
      var queue := messages[target];
      var i := 0;
      while i < |queue|
        invariant 0 <= i <= |queue|
        invariant forall j :: 0 <= j < i ==> queue[j].id != id
      {
        if queue[i].id == id {
          FirstIsFound(queue, i, id);
          return Some(queue[i]);
        }
        i := i + 1;
      }
      found := None;
    }

    method EnqueueOnce(send: Send, stable: Option<MessageId>, now: nat, newId: MessageId) returns (o: Outcome)
      modifies this`messages, this`recent, this`reservations
      ensures (View(), o) == Enqueue(old(View()), Key(send), send, stable, now, newId)
      ensures o.deduplicated <==>
                Fresh(old(recent), Key(send), now)
                || (stable.Some? && exists m :: m in QueueIn(old(messages), send.to) && m.id == stable.value)
      ensures Fresh(old(recent), Key(send), now) ==> o.message == old(recent)[Key(send)]
      ensures o.deduplicated && !Fresh(old(recent), Key(send), now) ==>
                o.message in QueueIn(old(messages), send.to) && Some(o.message.id) == stable
      ensures o.deduplicated ==> messages == old(messages)
      ensures !o.deduplicated ==>
                && o.message == Message(if stable.Some? then stable.value else newId, send, now)
                && messages == old(messages)[send.to := QueueIn(old(messages), send.to) + [o.message]]
                && Key(send) in recent && recent[Key(send)] == o.message
                && forall k :: k in reservations ==> reservations[k].id != o.message.id
    {
      var key := Key(send);
      PruneRecentSends(now);
      if key in recent {
        return Outcome(recent[key], true);
      }
      if stable.Some? {
        var queued := FindQueued(send.to, stable.value);
        if queued.Some? {
          return Outcome(queued.value, true);
        }
      }
      var message := Message(if stable.Some? then stable.value else newId, send, now);
      var queue := if send.to in messages then messages[send.to] else [];
      messages := messages[send.to := queue + [message]];
      recent := recent[key := message];
      reservations := map k | k in reservations && reservations[k].id != message.id :: reservations[k];
      o := Outcome(message, false);
    }

    method PollMessages(target: AgentId, ackMode: bool, now: nat) returns (name: string, polled: seq<Message>)
      modifies this`agents, this`messages
      ensures (View(), (name, polled)) == Poll(old(View()), target, ackMode, now)
      ensures polled == if target in old(messages) then old(messages)[target] else []
      ensures messages == if ackMode then old(messages) else old(messages) - {target}
      ensures name == if target in old(agents) then old(agents)[target].name else target
      ensures agents.Keys == old(agents).Keys
      ensures forall id :: id in agents ==>
                agents[id] == if id == target then old(agents)[id].(lastSeen := now) else old(agents)[id]
    {
      name := target;
      if target in agents {
        name := agents[target].name;
        agents := agents[target := agents[target].(lastSeen := now)];
      }
      polled := [];
      if target in messages {
        polled := messages[target];
      }
      if !ackMode {
        messages := messages - {target};
      }
    }

    /** Keep what is not named, count what goes. */
    method AckMessages(target: AgentId, ids: seq<MessageId>) returns (acked: nat)
      modifies this`messages
      ensures (View(), acked) == Ack(old(View()), target, ids)
      ensures Acknowledges(old(messages), messages, target, ids, acked)
    {
      AckAcknowledges(Bus(agents, messages, recent, reservations), target, ids);
      if ids == [] || target !in messages { return 0; }
      var queue := messages[target];
      var kept := RetainUnnamed(queue, IdSet(ids));
      acked := |queue| - |kept|;
      messages := if kept == [] then messages - {target} else messages[target := kept];
    }

    method UnregisterAgent(agent: AgentId) returns (removed: bool)
      modifies this`agents, this`messages
      ensures View() == Drop(old(View()), {agent})
      ensures removed == (agent in old(agents))
      ensures agents == old(agents) - {agent} && messages == old(messages) - {agent}
    {
      messages := messages - {agent};
      removed := agent in agents;
      agents := agents - {agent};
    }

    method WithdrawNotifications(cancelled: set<string>)
      modifies this`messages, this`recent
      ensures cancelled != {} ==> View() == CancelWatchdog(old(View()), WATCHDOG_CONTROL, cancelled)
      ensures cancelled == {} ==> View() == old(View())
      ensures Withdraws(old(messages), messages, WATCHDOG_CONTROL, cancelled)
      ensures forall k :: k in recent <==>
                            k in old(recent) && !IsCancelled(old(recent)[k], WATCHDOG_CONTROL, cancelled)
    {
      WithdrawsExactly(messages, WATCHDOG_CONTROL, cancelled);
      if cancelled == {} { return; }
      messages := map t | t in messages :: Kept(messages[t], Withdrawn(WATCHDOG_CONTROL, cancelled));
      recent := recent - CancelledKeys(Bus(agents, messages, recent, reservations), WATCHDOG_CONTROL, cancelled);
    }

    /** Collect the stale agents, then remove them one by one, with their queues. */
    method PruneStaleAgents(now: nat, localHost: string -> bool, running: nat -> bool) returns (changed: bool)
      modifies this`agents, this`messages
      ensures (View(), changed) == PruneStale(old(View()), now, localHost, running)
      ensures forall id :: id in agents <==> id in old(agents) && !GoneSilent(old(agents)[id], now, localHost, running)
      ensures forall id :: id in agents ==> agents[id] == old(agents)[id]
      ensures forall t :: t in messages <==>
                t in old(messages)
                && !(t in old(agents) && GoneSilent(old(agents)[t], now, localHost, running))
      ensures forall t :: t in messages ==> messages[t] == old(messages)[t]
      ensures changed <==> exists id :: id in old(agents) && GoneSilent(old(agents)[id], now, localHost, running)
    {
      var heartbeatCutoff := if now >= STALE_HEARTBEAT_SECS then now - STALE_HEARTBEAT_SECS else 0;
      var pidCutoff := if now >= PID_PRUNE_GRACE_SECS then now - PID_PRUNE_GRACE_SECS else 0;
      var stale := set id | id in agents &&
                              (agents[id].lastSeen < heartbeatCutoff
                               || (agents[id].lastSeen < pidCutoff
                                   && (agents[id].hostId.None? || localHost(agents[id].hostId.value))
                                   && !running(agents[id].pid)));
      assert stale == StaleAgents(View(), now, localHost, running);
      changed := stale != {};
      var left := stale;
      while left != {}
        invariant left <= stale
        invariant agents == old(agents) - (stale - left) && messages == old(messages) - (stale - left)
        decreases left
      {
        var id :| id in left;
        agents := agents - {id};
        messages := messages - {id};
        left := left - {id};
        assert stale - left == (stale - (left + {id})) + {id};
      }
      assert stale - left == stale;
    }
  }

  method RetainUnnamed(queue: seq<Message>, named: set<MessageId>) returns (kept: seq<Message>)
    ensures kept == Kept(queue, Acked(named)) && |kept| <= |queue|
  {
    kept := [];
    for i := 0 to |queue|
      invariant kept == Kept(queue[..i], Acked(named))
      invariant |kept| <= i
    {
      assert queue[..i + 1][..i] == queue[..i];
      if queue[i].id !in named {
        kept := kept + [queue[i]];
      }
    }
    assert queue[..|queue|] == queue;
  }

  type Queues = map<AgentId, seq<Message>>

  function QueueIn(queues: Queues, target: AgentId): seq<Message> {
    if target in queues then queues[target] else []
  }

  /** The key was sent at most 30 seconds before. */
  predicate Fresh(recent: map<string, Message>, key: string, now: nat) {
    key in recent && now <= recent[key].createdAt + 30
  }

  predicate Held(reservations: map<string, Reservation>, key: string, now: nat) {
    key in reservations && now <= reservations[key].createdAt + 30
  }

  /** Not seen for more than 120 seconds; or for more than 15, when it runs here, as an agent without a host is
      taken to, and its process is gone. */
  predicate GoneSilent(a: Agent, now: nat, localHost: string -> bool, running: nat -> bool) {
    || now > a.lastSeen + 120
    || (now > a.lastSeen + 15 && (a.hostId == None || localHost(a.hostId.value)) && !running(a.pid))
  }

  /** A queue keeps its order and loses exactly the messages whose ids are named. */
  ghost predicate LosesNamed(before: seq<Message>, after: seq<Message>, ids: seq<MessageId>) {
    && Subsequence(after, before)
    && forall m :: m in after <==> m in before && m.id !in ids
  }

  /** The target's queue loses what is named, counted, and goes when it is empty; the other queues stay. */
  ghost predicate Acknowledges(before: Queues, after: Queues, target: AgentId, ids: seq<MessageId>, acked: nat) {
    && (forall t :: t != target ==> (t in after <==> t in before))
    && (forall t :: t != target && t in after ==> after[t] == before[t])
    && LosesNamed(QueueIn(before, target), QueueIn(after, target), ids)
    && acked == |QueueIn(before, target)| - |QueueIn(after, target)|
    && (ids != [] && target in after ==> after[target] != [])
  }

  lemma AckAcknowledges(b: Bus, target: AgentId, ids: seq<MessageId>)
    ensures Acknowledges(b.messages, Ack(b, target, ids).0.messages, target, ids, Ack(b, target, ids).1)
  {
    KeptLosesNamed(QueueIn(b.messages, target), ids);
    KeptAndTakenLength(QueueIn(b.messages, target), Acked(IdSet(ids)));
  }

  lemma KeptLosesNamed(q: seq<Message>, ids: seq<MessageId>)
    ensures LosesNamed(q, Kept(q, Acked(IdSet(ids))), ids)
    ensures ids == [] ==> LosesNamed(q, q, ids)
  {
    SubsequenceOfItself(q);
    KeptSubsequence(q, q, Acked(IdSet(ids)));
    forall m ensures m in Kept(q, Acked(IdSet(ids))) <==> m in q && m.id !in ids {
      KeptExactly(q, Acked(IdSet(ids)), m);
    }
  }

  /** A queue keeps its order and loses exactly the Task Service messages that are withdrawn. */
  ghost predicate LosesWithdrawn(before: seq<Message>, after: seq<Message>, control: string, cancelled: set<string>) {
    && Subsequence(after, before)
    && forall m :: m in after <==> m in before && !Goes(m, Withdrawn(control, cancelled))
  }

  ghost predicate Withdraws(before: Queues, after: Queues, control: string, cancelled: set<string>) {
    after.Keys == before.Keys && forall t :: t in after ==> LosesWithdrawn(before[t], after[t], control, cancelled)
  }

  lemma KeptLosesWithdrawn(q: seq<Message>, control: string, cancelled: set<string>)
    ensures LosesWithdrawn(q, Kept(q, Withdrawn(control, cancelled)), control, cancelled)
    ensures cancelled == {} ==> LosesWithdrawn(q, q, control, cancelled)
  {
    SubsequenceOfItself(q);
    KeptSubsequence(q, q, Withdrawn(control, cancelled));
    forall m
      ensures m in Kept(q, Withdrawn(control, cancelled)) <==> m in q && !Goes(m, Withdrawn(control, cancelled))
    {
      KeptExactly(q, Withdrawn(control, cancelled), m);
    }
  }

  lemma WithdrawsExactly(before: Queues, control: string, cancelled: set<string>)
    ensures Withdraws(before, map t | t in before :: Kept(before[t], Withdrawn(control, cancelled)), control, cancelled)
    ensures cancelled == {} ==> Withdraws(before, before, control, cancelled)
  {
    forall t | t in before
      ensures LosesWithdrawn(before[t], Kept(before[t], Withdrawn(control, cancelled)), control, cancelled)
      ensures cancelled == {} ==> LosesWithdrawn(before[t], before[t], control, cancelled)
    {
      KeptLosesWithdrawn(before[t], control, cancelled);
    }
  }

  lemma {:induction false} KeptExactly(q: seq<Message>, r: Removal, m: Message)
    ensures m in Kept(q, r) <==> m in q && !Goes(m, r)
  {
    if q != [] {
      KeptExactly(q[..|q| - 1], r, m);
      assert m in q <==> m in q[..|q| - 1] || m == q[|q| - 1];
    }
  }

  lemma {:induction false} SubsequenceOfItself(q: seq<Message>)
    ensures Subsequence(q, q)
  {
    if q != [] {
      SubsequenceOfItself(q[..|q| - 1]);
    }
  }

  lemma {:induction false} FirstIsFound(q: seq<Message>, i: nat, id: MessageId)
    requires i < |q| && q[i].id == id && forall j :: 0 <= j < i ==> q[j].id != id
    ensures FindId(q, id) == Some(i)
  {
    if i > 0 {
      FirstIsFound(q[1..], i - 1, id);
    }
  }
}
