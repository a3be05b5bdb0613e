/**
 The Agent Bus queue: one queue per target, a 30-second table of recent sends, and ids reserved for
 sends in flight. The operations are functions of the bus; `AgentBus` runs them on an object.
 */
module BusQueue {
  import opened Wrappers
  import opened DedupeKey

  const WINDOW_SECS: nat := 30
  const STALE_HEARTBEAT_SECS: nat := 120
  const PID_PRUNE_GRACE_SECS: nat := 15

  type AgentId = string

  /** A random id, or one chosen by the caller. */
  datatype MessageId = Uuid(n: nat) | Named(name: string)

  datatype Message = Message(id: MessageId, send: Send, createdAt: nat)

  datatype Reservation = Reservation(id: MessageId, createdAt: nat)

  datatype Agent = Agent(name: string, lastSeen: nat, hostId: Option<string>, pid: nat)

  datatype Bus = Bus(agents: map<AgentId, Agent>, messages: map<AgentId, seq<Message>>,
                     recent: map<string, Message>, reservations: map<string, Reservation>)

  const EMPTY_BUS := Bus(map[], map[], map[], map[])

  function Monus(a: nat, b: nat): nat {
    if a >= b then a - b else 0
  }

  predicate InWindow(now: nat, createdAt: nat) {
    Monus(now, createdAt) <= WINDOW_SECS
  }

  function Queue(b: Bus, target: AgentId): seq<Message> {
    if target in b.messages then b.messages[target] else []
  }

  function PruneRecent(b: Bus, now: nat): Bus {
    b.(recent := map k | k in b.recent && InWindow(now, b.recent[k].createdAt) :: b.recent[k],
       reservations := map k | k in b.reservations && InWindow(now, b.reservations[k].createdAt)
                         :: b.reservations[k])
  }

  // ---------------------------------------------------------------- reserve and enqueue

  datatype Reserved = Reserved(id: MessageId, createdAt: nat, alreadyEnqueued: bool)

  /** Reserve an id for the send with this key. */
  function Reserve(b: Bus, key: string, now: nat, newId: MessageId): (Bus, Reserved) {
    var p := PruneRecent(b, now);
    if key in p.recent then (p, Reserved(p.recent[key].id, p.recent[key].createdAt, true))
    else if key in p.reservations then
      (p, Reserved(p.reservations[key].id, p.reservations[key].createdAt, false))
    else (p.(reservations := p.reservations[key := Reservation(newId, now)]), Reserved(newId, now, false))
  }

  datatype Outcome = Outcome(message: Message, deduplicated: bool)

  /** Position of the first message with an id. */
  function FindId(q: seq<Message>, id: MessageId): (r: Option<nat>)
    ensures r.Some? ==> r.value < |q| && q[r.value].id == id
    ensures r.None? ==> forall i :: 0 <= i < |q| ==> q[i].id != id
  {
    if q == [] then None
    else if q[0].id == id then Some(0)
    else
      var rest := FindId(q[1..], id);
      if rest.None? then None else Some(rest.value + 1)
  }

  function IdFor(stable: Option<MessageId>, newId: MessageId): MessageId {
    if stable.Some? then stable.value else newId
  }

  /** The queued message that makes a send with a stable id a repetition. */
  function QueuedAlready(b: Bus, send: Send, stable: Option<MessageId>): Option<Message> {
    if stable.None? then None
    else
      var at := FindId(Queue(b, send.to), stable.value);
      if at.Some? then Some(Queue(b, send.to)[at.value]) else None
  }

  function WithoutId(r: map<string, Reservation>, id: MessageId): map<string, Reservation> {
    map k | k in r && r[k].id != id :: r[k]
  }

  /** Enqueue a send under its key, unless it repeats a recent or a queued one. */
  function Enqueue(b: Bus, key: string, send: Send, stable: Option<MessageId>, now: nat, newId: MessageId)
    : (Bus, Outcome)
  {
    var p := PruneRecent(b, now);
    var queued := QueuedAlready(p, send, stable);
    if key in p.recent then (p, Outcome(p.recent[key], true))
    else if queued.Some? then (p, Outcome(queued.value, true))
    else
      var message := Message(IdFor(stable, newId), send, now);
      (p.(messages := p.messages[send.to := Queue(p, send.to) + [message]],
          recent := p.recent[key := message],
          reservations := WithoutId(p.reservations, message.id)),
       Outcome(message, false))
  }

  // ---------------------------------------------------------------- delivery

  /** Which messages of a queue go. */
  datatype Removal = Acked(ids: set<MessageId>) | Withdrawn(control: string, cancelled: set<string>) | Everything

  predicate Goes(m: Message, r: Removal) {
    match r
    case Acked(ids) => m.id in ids
    case Withdrawn(control, cancelled) => m.send.senderKind.TaskServiceSystem? && IsCancelled(m, control, cancelled)
    case Everything => true
  }

  function Kept(q: seq<Message>, r: Removal): seq<Message> {
    if q == [] then []
    else
      var last := q[|q| - 1];
      Kept(q[..|q| - 1], r) + (if Goes(last, r) then [] else [last])
  }

  function Taken(q: seq<Message>, r: Removal): seq<Message> {
    if q == [] then []
    else
      var last := q[|q| - 1];
      Taken(q[..|q| - 1], r) + (if Goes(last, r) then [last] else [])
  }

  function IdSet(ids: seq<MessageId>): set<MessageId> {
    set id | id in ids
  }

  /** Acknowledge: the messages named leave the target's queue. */
  function Ack(b: Bus, target: AgentId, ids: seq<MessageId>): (Bus, nat) {
    if ids == [] || target !in b.messages then (b, 0)
    else
      var kept := Kept(b.messages[target], Acked(IdSet(ids)));
      (b.(messages := if kept == [] then b.messages - {target} else b.messages[target := kept]),
       Monus(|b.messages[target]|, |kept|))
  }

  function Seen(b: Bus, agent: AgentId, now: nat): Bus {
    if agent in b.agents then b.(agents := b.agents[agent := b.agents[agent].(lastSeen := now)]) else b
  }

  function Poll(b: Bus, target: AgentId, ackMode: bool, now: nat): (Bus, (string, seq<Message>)) {
    var b1 := Seen(b, target, now);
    (if ackMode then b1 else b1.(messages := b1.messages - {target}),
     (if target in b.agents then b.agents[target].name else target, Queue(b, target)))
  }

  // ---------------------------------------------------------------- explicit drops

  /** A message of the given control type whose external id is withdrawn. */
  predicate IsCancelled(m: Message, control: string, cancelled: set<string>) {
    && m.send.controlType == Some(control)
    && m.send.externalMessage.Some?
    && m.send.externalMessage.value in cancelled
  }

  function CancelledKeys(b: Bus, control: string, cancelled: set<string>): set<string> {
    set k | k in b.recent && IsCancelled(b.recent[k], control, cancelled)
  }

  /** The watchdog withdraws notifications: queued system messages, and the recent sends. */
  function CancelWatchdog(b: Bus, control: string, cancelled: set<string>): Bus {
    b.(messages := map t | t in b.messages :: Kept(b.messages[t], Withdrawn(control, cancelled)),
       recent := b.recent - CancelledKeys(b, control, cancelled))
  }

  /** Agents leave, and their queues with them. */
  function Drop(b: Bus, agents: set<AgentId>): Bus {
    b.(agents := b.agents - agents, messages := b.messages - agents)
  }

  /** Silent for two minutes, or silent for a grace period with its local process gone. */
  predicate IsStale(a: Agent, now: nat, localHost: string -> bool, running: nat -> bool) {
    || a.lastSeen < Monus(now, STALE_HEARTBEAT_SECS)
    || (&& a.lastSeen < Monus(now, PID_PRUNE_GRACE_SECS)
        && (a.hostId.None? || localHost(a.hostId.value))
        && !running(a.pid))
  }

  function StaleAgents(b: Bus, now: nat, localHost: string -> bool, running: nat -> bool): set<AgentId> {
    set id | id in b.agents && IsStale(b.agents[id], now, localHost, running)
  }

  function PruneStale(b: Bus, now: nat, localHost: string -> bool, running: nat -> bool): (Bus, bool) {
    var stale := StaleAgents(b, now, localHost, running);
    (Drop(b, stale), stale != {})
  }
}
