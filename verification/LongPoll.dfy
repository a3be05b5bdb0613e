/**
 The long poll: pollers sleep on a condition variable guarded by a generation counter, and senders
 enqueue first and bump the generation afterwards.

 The counter wraps at 2^64. `notices` is the number of notifications ever made, so the stored
 generation is `notices` modulo 2^64. Two facts about the program decide whether a wake-up can be
 lost, and both are kept as history: how many notifications a poller has missed since it looked, and
 whether a Task Service message was enqueued meanwhile, since those enqueues do not notify.
 */
module LongPoll {
  const WRAP: nat := 0x1_0000_0000_0000_0000

  type Agent = string
  type Pid = nat

  datatype PollerPc =
    | Looking                     // read the generation
    | Polling                     // poll the queue
    | Rechecking                  // lock the generation, compare, and go to sleep if unchanged
    | Asleep
    | LastPoll                    // timed out: poll once more
    | Returned(count: nat)

  /** `observed` is the generation read; `seen` the number of notifications made by then, and
      `silent` whether a message arrived without a notification after the queue was found empty. */
  datatype Poller = Poller(agent: Agent, pc: PollerPc, observed: nat, seen: nat, silent: bool)

  /** A sender that has enqueued and has yet to notify. */
  datatype Sender = Sender(agent: Agent)

  datatype State = State(queued: map<Agent, nat>, notices: nat,
                         pollers: map<Pid, Poller>, senders: map<Pid, Sender>)

  function Generation(s: State): nat {
    s.notices % WRAP
  }

  function Waiting(s: State, a: Agent): nat {
    if a in s.queued then s.queued[a] else 0
  }

  datatype Move =
    | Arrive(poller: Pid, agent: Agent)
    | Advance(poller: Pid, ackMode: bool, stillWaits: bool)
    | TimeOut(poller: Pid)
    | SpuriousWake(poller: Pid)
    | Enqueue(sender: Pid, agent: Agent)
    | Notify(sender: Pid)
    | EnqueueSilently(agent: Agent)
    | NotifyUnregistered
    | Acknowledge(agent: Agent, count: nat)

  function Woken(p: Poller): Poller {
    if p.pc.Asleep? then p.(pc := Looking) else p
  }

  function WithNotice(s: State): State {
    s.(notices := s.notices + 1, pollers := map i | i in s.pollers :: Woken(s.pollers[i]))
  }

  /** A poll answers with what is queued; without acknowledgements it also takes it. */
  function AfterPoll(s: State, a: Agent, ackMode: bool): map<Agent, nat> {
    if ackMode then s.queued else s.queued - {a}
  }

  /** One step of a poller. `stillWaits` is false when it may not wait: the wait is zero, the agent
      is not registered, or the deadline has passed. */
  function StepPoller(s: State, i: Pid, ackMode: bool, stillWaits: bool): State
    requires i in s.pollers
  {
    var p := s.pollers[i];
    match p.pc
    case Looking =>
      s.(pollers := s.pollers[i := p.(pc := Polling, observed := Generation(s), seen := s.notices, silent := false)])
    case Polling =>
      var n := Waiting(s, p.agent);
      s.(queued := AfterPoll(s, p.agent, ackMode),
         pollers := s.pollers[i := p.(pc := if n > 0 || !stillWaits then Returned(n) else Rechecking, silent := false)])
    case Rechecking =>
      s.(pollers := s.pollers[i := p.(pc := if Generation(s) != p.observed then Looking else Asleep)])
    case Asleep => s
    case LastPoll =>
      s.(queued := AfterPoll(s, p.agent, ackMode),
         pollers := s.pollers[i := p.(pc := Returned(Waiting(s, p.agent)))])
    case Returned(_) => s
  }

  function Touched(p: Poller, a: Agent): Poller {
    if p.agent == a then p.(silent := true) else p
  }

  function Step(s: State, m: Move): State {
    match m
    case Arrive(i, a) =>
      if i in s.pollers then s else s.(pollers := s.pollers[i := Poller(a, Looking, 0, 0, false)])
    case Advance(i, ackMode, stillWaits) =>
      if i in s.pollers then StepPoller(s, i, ackMode, stillWaits) else s
    case TimeOut(i) =>
      if i in s.pollers && s.pollers[i].pc.Asleep?
      then s.(pollers := s.pollers[i := s.pollers[i].(pc := LastPoll)]) else s
    case SpuriousWake(i) =>
      if i in s.pollers then s.(pollers := s.pollers[i := Woken(s.pollers[i])]) else s
    case Enqueue(i, a) =>
      if i in s.senders then s
      else s.(queued := s.queued[a := Waiting(s, a) + 1], senders := s.senders[i := Sender(a)])
    case Notify(i) =>
      if i in s.senders then WithNotice(s.(senders := s.senders - {i})) else s
    case EnqueueSilently(a) =>
      s.(queued := s.queued[a := Waiting(s, a) + 1],
         pollers := map i | i in s.pollers :: Touched(s.pollers[i], a))
    case NotifyUnregistered => WithNotice(s)
    case Acknowledge(a, count) =>
      if a in s.queued
      then s.(queued := s.queued[a := if count <= s.queued[a] then s.queued[a] - count else 0]) else s
  }

  function Run(s: State, moves: seq<Move>): State
    decreases |moves|
  {
    if moves == [] then s else Run(Step(s, moves[0]), moves[1..])
  }

  const EMPTY := State(map[], 0, map[], map[])

  // ---------------------------------------------------------------- no lost wake-up

  predicate Sleeping(s: State, i: Pid) {
    i in s.pollers && s.pollers[i].pc.Asleep?
  }

  ghost predicate SenderPending(s: State, a: Agent) {
    exists j :: j in s.senders && s.senders[j].agent == a
  }

  /** The poller found its queue empty and has not looked again. */
  predicate FoundEmpty(p: Poller) {
    p.pc.Rechecking? || p.pc.Asleep?
  }

  /** Between looking and sleeping, a message may only have come from a sender that has yet to notify,
      from one that has notified since, or without any notification. */
  ghost predicate PollerInv(s: State, p: Poller) {
    && (!p.pc.Looking? ==> p.seen <= s.notices && p.observed == p.seen % WRAP)
    && (FoundEmpty(p) && Waiting(s, p.agent) > 0 && !p.silent ==>
          SenderPending(s, p.agent) || s.notices > p.seen)
    && (p.pc.Asleep? ==> (s.notices - p.seen) % WRAP == 0)
  }

  ghost predicate Inv(s: State) {
    forall i :: i in s.pollers ==> PollerInv(s, s.pollers[i])
  }

  lemma DifferenceOfEqualRemainders(a: nat, b: nat)
    requires a <= b && a % WRAP == b % WRAP
    ensures (b - a) % WRAP == 0
  {
    var k := b / WRAP - a / WRAP;
    assert b - a == WRAP * k;
  }

  lemma PollerStepKeepsInv(s: State, i: Pid, ackMode: bool, stillWaits: bool)
    requires Inv(s) && i in s.pollers
    ensures Inv(StepPoller(s, i, ackMode, stillWaits))
  {
    var s' := StepPoller(s, i, ackMode, stillWaits);
    var p := s.pollers[i];
    assert PollerInv(s, p);
    if p.pc.Rechecking? && Generation(s) == p.observed {
      DifferenceOfEqualRemainders(p.seen, s.notices);
    }
    forall j | j in s'.pollers ensures PollerInv(s', s'.pollers[j]) {
      assert PollerInv(s, s.pollers[j]);
      assert Waiting(s', s.pollers[j].agent) <= Waiting(s, s.pollers[j].agent);
      assert SenderPending(s', s.pollers[j].agent) <==> SenderPending(s, s.pollers[j].agent);
    }
  }

  /** A new sender accounts for the message it enqueued. */
  lemma EnqueueKeepsInv(s: State, j: Pid, a: Agent)
    requires Inv(s) && j !in s.senders
    ensures Inv(Step(s, Enqueue(j, a)))
  {
    var s' := Step(s, Enqueue(j, a));
    assert j in s'.senders && s'.senders[j].agent == a;
    forall i | i in s'.pollers ensures PollerInv(s', s'.pollers[i]) {
      var p := s.pollers[i];
      assert PollerInv(s, p);
      if SenderPending(s, p.agent) {
        var k :| k in s.senders && s.senders[k].agent == p.agent;
        assert k in s'.senders && s'.senders[k].agent == p.agent;
      }
    }
  }

  /** A notification wakes every sleeper and moves the count past what anyone has seen. */
  lemma NoticeKeepsInv(s: State, s': State)
    requires Inv(s) && s'.queued == s.queued && s'.notices == s.notices + 1
    requires s'.pollers == map i | i in s.pollers :: Woken(s.pollers[i])
    ensures Inv(s')
  {
    forall i | i in s'.pollers ensures PollerInv(s', s'.pollers[i]) {
      assert PollerInv(s, s.pollers[i]);
    }
  }

  /** What a poller may become while no notification is made and no sender comes or goes. */
  predicate Carries(s: State, s': State, p: Poller, p': Poller) {
    || p'.pc.Looking?
    || (&& p'.(pc := p.pc, silent := p.silent) == p
        && (p' == p || p'.pc.LastPoll? || p'.silent)
        && (p'.pc != p.pc ==> p.pc.Asleep? && p'.pc.LastPoll?)
        && (p'.silent || Waiting(s', p.agent) <= Waiting(s, p.agent)))
  }

  lemma QuietKeepsInv(s: State, s': State)
    requires Inv(s) && s'.notices == s.notices && s'.senders == s.senders
    requires forall i :: i in s'.pollers ==>
               if i in s.pollers then Carries(s, s', s.pollers[i], s'.pollers[i]) else s'.pollers[i].pc.Looking?
    ensures Inv(s')
  {
    forall i | i in s'.pollers ensures PollerInv(s', s'.pollers[i]) {
      if i in s.pollers {
        assert PollerInv(s, s.pollers[i]);
        assert SenderPending(s', s.pollers[i].agent) <==> SenderPending(s, s.pollers[i].agent);
      }
    }
  }

  lemma PollerMoveKeepsInv(s: State, m: Move)
    requires Inv(s) && (m.Arrive? || m.TimeOut? || m.SpuriousWake?)
    ensures Inv(Step(s, m))
  {
    QuietKeepsInv(s, Step(s, m));
  }

  lemma SilentStepKeepsInv(s: State, m: Move)
    requires Inv(s) && (m.EnqueueSilently? || m.Acknowledge?)
    ensures Inv(Step(s, m))
  {
    QuietKeepsInv(s, Step(s, m));
  }

  lemma StepKeepsInv(s: State, m: Move)
    requires Inv(s)
    ensures Inv(Step(s, m))
  {
    var s' := Step(s, m);
    match m
    case Advance(i, ackMode, stillWaits) =>
      if i in s.pollers {
        PollerStepKeepsInv(s, i, ackMode, stillWaits);
      }
    case Enqueue(i, a) =>
      if i !in s.senders {
        EnqueueKeepsInv(s, i, a);
      }
    case Notify(i) =>
      if i in s.senders {
        NoticeKeepsInv(s, s');
      }
    case NotifyUnregistered => NoticeKeepsInv(s, s');
    case EnqueueSilently(_) => SilentStepKeepsInv(s, m);
    case Acknowledge(_, _) => SilentStepKeepsInv(s, m);
    case _ => PollerMoveKeepsInv(s, m);
  }

  lemma {:induction false} RunKeepsInv(s: State, moves: seq<Move>)
    requires Inv(s)
    ensures Inv(Run(s, moves))
    decreases |moves|
  {
    if moves != [] {
      StepKeepsInv(s, moves[0]);
      RunKeepsInv(Step(s, moves[0]), moves[1..]);
    }
  }

  /** A poller sleeps over a waiting message only in three cases: its sender has yet to notify; the
      message came from an enqueue that never notifies; or the generation went all the way round,
      once or more, between the poller's look and its sleep. */
  lemma WakeupLostOnlyIf(moves: seq<Move>, i: Pid)
    ensures var s := Run(EMPTY, moves);
            Sleeping(s, i) && Waiting(s, s.pollers[i].agent) > 0 ==>
              || SenderPending(s, s.pollers[i].agent)
              || s.pollers[i].silent
              || (s.notices - s.pollers[i].seen >= WRAP && (s.notices - s.pollers[i].seen) % WRAP == 0)
  {
    RunKeepsInv(EMPTY, moves);
    var s := Run(EMPTY, moves);
    if Sleeping(s, i) {
      assert PollerInv(s, s.pollers[i]);
    }
  }

  predicate Notifying(moves: seq<Move>) {
    forall k :: 0 <= k < |moves| ==> !moves[k].EnqueueSilently?
  }

  predicate NothingSilent(s: State) {
    forall i :: i in s.pollers ==> !s.pollers[i].silent
  }

  lemma {:induction false} NotifyingRuns(s: State, moves: seq<Move>)
    requires Notifying(moves) && NothingSilent(s)
    ensures NothingSilent(Run(s, moves))
    ensures Run(s, moves).notices <= s.notices + |moves|
    decreases |moves|
  {
    if moves != [] {
      NotifyingRuns(Step(s, moves[0]), moves[1..]);
    }
  }

  /** When every sender notifies after it enqueues, no wake-up is lost: a poller asleep over a
      waiting message has a sender that is about to notify. Any number of pollers and senders. */
  lemma NoLostWakeup(moves: seq<Move>, i: Pid)
    requires Notifying(moves) && |moves| < WRAP
    ensures var s := Run(EMPTY, moves);
            Sleeping(s, i) && Waiting(s, s.pollers[i].agent) > 0 ==> SenderPending(s, s.pollers[i].agent)
  {
    WakeupLostOnlyIf(moves, i);
    NotifyingRuns(EMPTY, moves);
    RunKeepsInv(EMPTY, moves);
  }

  /** An enqueue that does not notify does leave a poller asleep over its message. */
  lemma SilentEnqueueIsMissed(a: Agent)
    ensures exists moves, i ::
              var s := Run(EMPTY, moves);
              Sleeping(s, i) && s.pollers[i].agent == a && Waiting(s, a) > 0 && !SenderPending(s, a)
  {
    var go := Advance(0, true, true);
    var moves := [Arrive(0, a), go, go, go, EnqueueSilently(a)];
    var s1 := Step(EMPTY, moves[0]);
    var s2 := Step(s1, go);
    var s3 := Step(s2, go);
    var s4 := Step(s3, go);
    var s5 := Step(s4, moves[4]);
    assert s3.pollers[0].pc.Rechecking? && s4.pollers[0].pc.Asleep?;
    calc {
      Run(EMPTY, moves);
      { assert moves[1..] == [go, go, go, EnqueueSilently(a)]; }
      Run(s1, [go, go, go, EnqueueSilently(a)]);
      { assert [go, go, go, EnqueueSilently(a)][1..] == [go, go, EnqueueSilently(a)]; }
      Run(s2, [go, go, EnqueueSilently(a)]);
      { assert [go, go, EnqueueSilently(a)][1..] == [go, EnqueueSilently(a)]; }
      Run(s3, [go, EnqueueSilently(a)]);
      { assert [go, EnqueueSilently(a)][1..] == [EnqueueSilently(a)]; }
      Run(s4, [EnqueueSilently(a)]);
      { assert [EnqueueSilently(a)][1..] == []; }
      s5;
    }
    assert Sleeping(s5, 0) && s5.pollers[0].agent == a && Waiting(s5, a) > 0 && !SenderPending(s5, a);
  }

  /** Somebody other than poller `i` takes from the queue of `a`. */
  predicate TakesElsewhere(s: State, m: Move, i: Pid, a: Agent) {
    || (m.Acknowledge? && m.agent == a)
    || (m.Advance? && m.poller != i && m.poller in s.pollers && s.pollers[m.poller].agent == a)
  }

  predicate LeftTo(s: State, moves: seq<Move>, i: Pid, a: Agent)
    decreases |moves|
  {
    moves == [] || (!TakesElsewhere(s, moves[0], i, a) && LeftTo(Step(s, moves[0]), moves[1..], i, a))
  }

  predicate Open(s: State, i: Pid, a: Agent) {
    i in s.pollers && s.pollers[i].agent == a && !s.pollers[i].pc.Returned?
  }

  /** A step leaves the messages of an open poll where they are, unless it returns them. */
  lemma StepDelivers(s: State, m: Move, i: Pid, a: Agent)
    requires Open(s, i, a) && !TakesElsewhere(s, m, i, a)
    ensures var s' := Step(s, m);
            || (Open(s', i, a) && Waiting(s', a) >= Waiting(s, a))
            || (i in s'.pollers && s'.pollers[i].pc == Returned(Waiting(s, a)))
  {}

  lemma {:induction false} ReturnedStays(s: State, moves: seq<Move>, i: Pid)
    requires i in s.pollers && s.pollers[i].pc.Returned?
    ensures i in Run(s, moves).pollers && Run(s, moves).pollers[i].pc == s.pollers[i].pc
    decreases |moves|
  {
    if moves != [] {
      ReturnedStays(Step(s, moves[0]), moves[1..], i);
    }
  }

  /** No message is missed for good, not even one enqueued without a notification. Over every run in which
      nobody else takes from its queue, a poll that returns, woken or timed out, returns at least what was
      waiting at any earlier moment of the poll. */
  lemma {:induction false} ReturnDeliversEverything(s: State, moves: seq<Move>, i: Pid, a: Agent)
    requires Open(s, i, a) && LeftTo(s, moves, i, a)
    ensures var end := Run(s, moves);
            && i in end.pollers
            && (end.pollers[i].pc.Returned? ==> end.pollers[i].pc.count >= Waiting(s, a))
            && (!end.pollers[i].pc.Returned? ==> Waiting(end, a) >= Waiting(s, a))
    decreases |moves|
  {
    if moves != [] {
      StepDelivers(s, moves[0], i, a);
      var s' := Step(s, moves[0]);
      if Open(s', i, a) {
        ReturnDeliversEverything(s', moves[1..], i, a);
      } else {
        ReturnedStays(s', moves[1..], i);
      }
    }
  }

  // ---------------------------------------------------------------- what each step does

  /** A poll comes back empty-handed only when it may not wait or after its wait has run out, and its queue is
      empty at that moment. */
  lemma EmptyReturnOnlyWhen(s: State, m: Move, i: Pid)
    requires i in s.pollers && !s.pollers[i].pc.Returned?
    requires Step(s, m).pollers[i].pc == Returned(0)
    ensures Waiting(s, s.pollers[i].agent) == 0
    ensures m.Advance? && m.poller == i
    ensures (s.pollers[i].pc == Polling && !m.stillWaits) || s.pollers[i].pc == LastPoll
  {
  }

  /** The last poll is made after a time-out in sleep, and at no other time. */
  lemma LastPollOnlyAfterTimeout(s: State, m: Move, i: Pid)
    requires i in s.pollers && s.pollers[i].pc != LastPoll
    ensures Step(s, m).pollers[i].pc == LastPoll <==> m == TimeOut(i) && s.pollers[i].pc == Asleep
  {
  }

  /** A poll looks at the generation, then at its queue. With messages there, or when it may not wait, it returns
      them; otherwise it looks at the generation again and sleeps only if nothing has been announced. */
  lemma PollProceeds(s: State, i: Pid, ackMode: bool, stillWaits: bool)
    requires i in s.pollers
    ensures var p, next := s.pollers[i], Step(s, Advance(i, ackMode, stillWaits)).pollers[i];
            match p.pc
            case Looking => next.pc == Polling && next.observed == s.notices % 0x1_0000_0000_0000_0000
            case Polling => next.pc == if Waiting(s, p.agent) > 0 || !stillWaits
                                       then Returned(Waiting(s, p.agent)) else Rechecking
            case Rechecking => next.pc == if s.notices % 0x1_0000_0000_0000_0000 == p.observed then Asleep else Looking
            case Asleep => next == p
            case LastPoll => next.pc == Returned(Waiting(s, p.agent))
            case Returned(_) => next == p
  {
  }

  /** A notification counts, and wakes every sleeper and nobody else. */
  lemma NotificationWakes(s: State, j: Pid, i: Pid)
    requires j in s.senders && i in s.pollers
    ensures var s' := Step(s, Notify(j));
            && s'.notices == s.notices + 1 && j !in s'.senders && s'.queued == s.queued
            && s'.pollers[i] == if s.pollers[i].pc == Asleep then s.pollers[i].(pc := Looking) else s.pollers[i]
  {
  }

  /** How much waits for an agent after a step: one more for each message enqueued, nothing after a poll that takes,
      fewer after an acknowledgement, and the same otherwise. */
  lemma WaitingAfter(s: State, m: Move, a: Agent)
    ensures var n := Waiting(s, a);
            Waiting(Step(s, m), a) ==
              match m
              case Enqueue(j, b) => if b == a && j !in s.senders then n + 1 else n
              case EnqueueSilently(b) => if b == a then n + 1 else n
              case Acknowledge(b, count) => if b != a then n else if count <= n then n - count else 0
              case Advance(i, ackMode, _) =>
                if i in s.pollers && s.pollers[i].agent == a && !ackMode && s.pollers[i].pc in {Polling, LastPoll}
                then 0 else n
              case _ => n
  {
  }
}
