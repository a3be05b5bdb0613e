/** What the Agent Bus queue guarantees, stated over every run. */
module BusTheorems {
  import opened Wrappers
  import DedupeKey
  import opened BusQueue
  import opened BusRuns

  // ---------------------------------------------------------------- conservation and order

  lemma StartAccounted()
    ensures Inv(START)
  {
    assert forall t :: SentTo(START.log, t) == [] && RemovedFrom(START.log, t) == multiset{};
  }

  lemma ReachableAccounted(events: seq<Event>, t: AgentId)
    ensures QueueAccounted(Run(START, events), t)
  {
    StartAccounted();
    RunKeepsInv(START, events);
  }

  /** For every target, what was enqueued is what is queued plus what left; the queue keeps the order of
      enqueuing and never holds two messages with one id. */
  lemma NothingLostOrReordered(events: seq<Event>, t: AgentId)
    ensures var w := Run(START, events);
            && multiset(SentTo(w.log, t)) == multiset(Queue(w.bus, t)) + RemovedFrom(w.log, t)
            && Subsequence(Queue(w.bus, t), SentTo(w.log, t))
            && DistinctIds(Queue(w.bus, t))
  {
    ReachableAccounted(events, t);
  }

  /** No id that was ever enqueued is reserved. */
  lemma EnqueuedIdsAreNotReserved(events: seq<Event>, key: string, i: nat)
    ensures var w := Run(START, events);
            key in w.bus.reservations && i < |w.log| && w.log[i].Sent? ==>
              w.bus.reservations[key].id != w.log[i].message.id
  {
    StartAccounted();
    RunKeepsInv(START, events);
  }

  // ---------------------------------------------------------------- the dedupe window

  /** The bus is given times that do not go back. */
  predicate Timely(w: World, e: Event) {
    match e
    case Reserving(_, now) => now >= w.clock
    case Sending(_, _, _, now) => now >= w.clock
    case _ => true
  }

  predicate TimelyRun(w: World, events: seq<Event>)
    decreases |events|
  {
    events == [] || (Timely(w, events[0]) && TimelyRun(Step(w, events[0]), events[1..]))
  }

  predicate SentUnder(e: Entry, key: string) {
    e.Sent? && e.key == key
  }

  predicate WithdrewKey(e: Entry, key: string) {
    e.Withdrew? && key in e.keys
  }

  /** Entries `i` and `j` are sends of one key, and the key was not withdrawn in between. */
  predicate Repeated(log: seq<Entry>, i: nat, j: nat) {
    && i < j < |log|
    && log[i].Sent?
    && SentUnder(log[j], log[i].key)
    && forall k :: i < k < j ==> !WithdrewKey(log[k], log[i].key)
  }

  /** Two such sends are more than the window apart. */
  ghost predicate Spaced(log: seq<Entry>) {
    forall i: nat, j: nat :: Repeated(log, i, j) ==> log[j].message.createdAt > log[i].message.createdAt + WINDOW_SECS
  }

  /** A send that has not been withdrawn since. */
  predicate Standing(log: seq<Entry>, i: nat) {
    i < |log| && log[i].Sent? && forall k :: i < k < |log| ==> !WithdrewKey(log[k], log[i].key)
  }

  /** A standing send is remembered, or its window is over. */
  predicate Remembered(b: Bus, clock: nat, key: string, at: nat) {
    && at <= clock
    && ((key in b.recent && b.recent[key].createdAt >= at) || clock > at + WINDOW_SECS)
  }

  ghost predicate TimeInv(w: World) {
    && Spaced(w.log)
    && forall i: nat :: Standing(w.log, i) ==> Remembered(w.bus, w.clock, w.log[i].key, w.log[i].message.createdAt)
  }

  lemma PruningForgetsOnlyOld(b: Bus, clock: nat, now: nat, key: string, at: nat)
    requires Remembered(b, clock, key, at) && now >= clock
    ensures Remembered(PruneRecent(b, now), now, key, at)
    ensures key !in PruneRecent(b, now).recent ==> now > at + WINDOW_SECS
  {}

  lemma StandingBefore(log: seq<Entry>, more: seq<Entry>, i: nat)
    requires i < |log| && Standing(log + more, i)
    ensures Standing(log, i) && (log + more)[i] == log[i]
  {
    forall k | i < k < |log| ensures !WithdrewKey(log[k], log[i].key) {
      assert (log + more)[k] == log[k];
    }
  }

  /** Entries that are not sends leave the spacing alone. */
  lemma SpacedGrows(log: seq<Entry>, more: seq<Entry>)
    requires Spaced(log) && forall k :: 0 <= k < |more| ==> !more[k].Sent?
    ensures Spaced(log + more)
  {
    var all := log + more;
    forall i: nat, j: nat | Repeated(all, i, j)
      ensures all[j].message.createdAt > all[i].message.createdAt + WINDOW_SECS
    {
      assert j < |log|;
      forall k | i < k < j ensures !WithdrewKey(log[k], log[i].key) {
        assert all[k] == log[k];
      }
      assert Repeated(log, i, j);
    }
  }

  /** Events that neither send nor move the clock. */
  lemma QuietKeepsTime(w: World, e: Event)
    requires TimeInv(w) && (e.Polling? || e.Acking? || e.Cancelling? || e.Dropping?)
    ensures TimeInv(Step(w, e))
  {
    var w' := Step(w, e);
    var more := w'.log[|w.log|..];
    assert w'.log == w.log + more;
    SpacedGrows(w.log, more);
    forall i: nat | Standing(w'.log, i)
      ensures Remembered(w'.bus, w'.clock, w'.log[i].key, w'.log[i].message.createdAt)
    {
      assert i < |w.log|;
      StandingBefore(w.log, more, i);
      if e.Cancelling? {
        assert !WithdrewKey(w'.log[|w.log| + 1], w.log[i].key);
      }
    }
  }

  lemma ReservingKeepsTime(w: World, key: string, now: nat)
    requires TimeInv(w) && now >= w.clock
    ensures TimeInv(Step(w, Reserving(key, now)))
  {
    var w' := Step(w, Reserving(key, now));
    forall i: nat | Standing(w'.log, i)
      ensures Remembered(w'.bus, w'.clock, w'.log[i].key, w'.log[i].message.createdAt)
    {
      PruningForgetsOnlyOld(w.bus, w.clock, now, w.log[i].key, w.log[i].message.createdAt);
    }
  }

  /** A send that is not a repetition comes after every standing send of its key, by more than the window. */
  lemma NewSendIsSpaced(w: World, e: Event)
    requires TimeInv(w) && e.Sending? && Enabled(w, e) && Timely(w, e)
    requires Step(w, e).log != w.log
    ensures Spaced(Step(w, e).log)
  {
    var all := Step(w, e).log;
    var n := |w.log|;
    assert all[..n] == w.log && all[n] == Sent(e.key, Message(IdFor(e.stable, Uuid(w.nextId)), e.send, e.now));
    assert e.key !in PruneRecent(w.bus, e.now).recent;
    forall i: nat, j: nat | Repeated(all, i, j)
      ensures all[j].message.createdAt > all[i].message.createdAt + WINDOW_SECS
    {
      assert all[i] == w.log[i];
      forall k | i < k < j ensures k < n && !WithdrewKey(w.log[k], w.log[i].key) {
        assert all[k] == w.log[k];
      }
      if j == n {
        assert Standing(w.log, i);
        PruningForgetsOnlyOld(w.bus, w.clock, e.now, e.key, w.log[i].message.createdAt);
      } else {
        assert all[j] == w.log[j] && Repeated(w.log, i, j);
      }
    }
  }

  lemma SendingKeepsTime(w: World, e: Event)
    requires TimeInv(w) && e.Sending? && Enabled(w, e) && Timely(w, e)
    ensures TimeInv(Step(w, e))
  {
    var w' := Step(w, e);
    if w'.log != w.log {
      NewSendIsSpaced(w, e);
    }
    var more := w'.log[|w.log|..];
    assert w'.log == w.log + more;
    forall i: nat | Standing(w'.log, i)
      ensures Remembered(w'.bus, w'.clock, w'.log[i].key, w'.log[i].message.createdAt)
    {
      if i < |w.log| {
        StandingBefore(w.log, more, i);
        PruningForgetsOnlyOld(w.bus, w.clock, e.now, w.log[i].key, w.log[i].message.createdAt);
      }
    }
  }

  lemma {:induction false} RunKeepsTime(w: World, events: seq<Event>)
    requires TimeInv(w) && TimelyRun(w, events)
    ensures TimeInv(Run(w, events))
    decreases |events|
  {
    if events != [] {
      var e := events[0];
      if e.Reserving? {
        ReservingKeepsTime(w, e.key, e.now);
      } else if !e.Sending? {
        QuietKeepsTime(w, e);
      } else if Enabled(w, e) {
        SendingKeepsTime(w, e);
      }
      RunKeepsTime(Step(w, events[0]), events[1..]);
    }
  }

  /** With a clock that does not go back, two enqueues of one key without a withdrawal of that key in
      between are more than 30 seconds apart, whatever else happens. */
  lemma SendsAreSpaced(events: seq<Event>)
    requires TimelyRun(START, events)
    ensures Spaced(Run(START, events).log)
  {
    RunKeepsTime(START, events);
  }

  /** The event makes the bus forget what is older than a window before `limit`. */
  predicate AsksAfter(w: World, e: Event, limit: nat) {
    Enabled(w, e) && ((e.Reserving? && e.now > limit) || (e.Sending? && e.now > limit))
  }

  /** No reserve or send of the run carries a time after `limit`. */
  predicate AsksUpTo(w: World, events: seq<Event>, limit: nat)
    decreases |events|
  {
    events == [] || (!AsksAfter(w, events[0], limit) && AsksUpTo(Step(w, events[0]), events[1..], limit))
  }

  /** The log entries since `w` neither send nor withdraw the key. */
  predicate LeavesKey(w: World, later: World, key: string) {
    && w.log <= later.log
    && forall k :: |w.log| <= k < |later.log| ==> !SentUnder(later.log[k], key) && !WithdrewKey(later.log[k], key)
  }

  /** The key's entry in the table of recent sends is `m`, or it has been forgotten. */
  predicate KnownIff(b: Bus, key: string, m: Message, known: bool) {
    if known then key in b.recent && b.recent[key] == m else key !in b.recent
  }

  lemma StepForgets(w: World, e: Event, key: string, m: Message, known: bool)
    requires KnownIff(w.bus, key, m, known) && LeavesKey(w, Step(w, e), key)
    ensures KnownIff(Step(w, e).bus, key, m, known && !AsksAfter(w, e, m.createdAt + WINDOW_SECS))
  {
    var w' := Step(w, e);
    if e.Cancelling? {
      assert !WithdrewKey(w'.log[|w.log| + 1], key);
    } else if e.Sending? && w'.log != w.log {
      assert !SentUnder(w'.log[|w.log|], key);
    }
  }

  lemma StepLogGrows(w: World, e: Event)
    ensures w.log <= Step(w, e).log
  {}

  lemma {:induction false} RunLogGrows(w: World, events: seq<Event>)
    ensures w.log <= Run(w, events).log
    decreases |events|
  {
    if events != [] {
      StepLogGrows(w, events[0]);
      RunLogGrows(Step(w, events[0]), events[1..]);
    }
  }

  /** The latest send of a key is known exactly as long as nobody asks with a time after its window. */
  lemma {:induction false} LatestSendIsKnownExactlyWhen(w: World, events: seq<Event>, key: string, m: Message,
                                                        known: bool)
    requires KnownIff(w.bus, key, m, known) && LeavesKey(w, Run(w, events), key)
    ensures KnownIff(Run(w, events).bus, key, m, known && AsksUpTo(w, events, m.createdAt + WINDOW_SECS))
    decreases |events|
  {
    if events != [] {
      var w', end := Step(w, events[0]), Run(w, events);
      StepLogGrows(w, events[0]);
      RunLogGrows(w', events[1..]);
      assert forall k :: |w.log| <= k < |w'.log| ==> w'.log[k] == end.log[k];
      StepForgets(w, events[0], key, m, known);
      LatestSendIsKnownExactlyWhen(w', events[1..], key, m,
                                   known && !AsksAfter(w, events[0], m.createdAt + WINDOW_SECS));
    }
  }

  /** What breaks the spacing, exactly. After any send of a key, and any run that neither sends nor withdraws
      the key, a send of the key with a time inside the window is enqueued a second time if and only if
      somebody has asked since with a time after the window, and its stable id, if it has one, is not queued. */
  lemma RepeatIsEnqueuedExactlyWhen(w: World, e: Event, events: seq<Event>, send: DedupeKey.Send,
                                    stable: Option<MessageId>, now: nat, newId: MessageId)
    requires e.Sending? && Enabled(w, e) && Step(w, e).log != w.log
    requires LeavesKey(Step(w, e), Run(Step(w, e), events), e.key)
    requires now <= e.now + WINDOW_SECS
    ensures var later := Run(Step(w, e), events);
            !Enqueue(later.bus, e.key, send, stable, now, newId).1.deduplicated <==>
              && !AsksUpTo(Step(w, e), events, e.now + WINDOW_SECS)
              && (stable.Some? ==> FindId(Queue(later.bus, send.to), stable.value).None?)
  {
    var m := Message(IdFor(e.stable, Uuid(w.nextId)), e.send, e.now);
    LatestSendIsKnownExactlyWhen(Step(w, e), events, e.key, m, true);
    var later := Run(Step(w, e), events);
    assert Queue(PruneRecent(later.bus, now), send.to) == Queue(later.bus, send.to);
  }

  /** Two callers reserve one key and are given one id and time; the first sends under it. */
  function FirstOfTwo(key: string, send: DedupeKey.Send): seq<Event> {
    [Reserving(key, 100), Reserving(key, 100), Sending(key, send, Some(Uuid(0)), 100)]
  }

  /** A send under an id whose key is not known: repeated if the id is queued, enqueued otherwise. */
  lemma UnknownKeySends(w: World, key: string, send: DedupeKey.Send, id: MessageId, now: nat)
    requires key !in w.bus.recent && Known(w, id)
    ensures var w' := Step(w, Sending(key, send, Some(id), now));
            var q, m := Queue(w.bus, send.to), Message(id, send, now);
            && w'.nextId == w.nextId + 1
            && if FindId(q, id).Some? then w'.log == w.log && Queue(w'.bus, send.to) == q
               else && w'.log == w.log + [Sent(key, m)] && Queue(w'.bus, send.to) == q + [m]
                    && w'.bus.recent == PruneRecent(w.bus, now).recent[key := m]
  {
    EnqueueForm(w.bus, key, send, Some(id), now, Uuid(w.nextId));
    assert Queue(PruneRecent(w.bus, now), send.to) == Queue(w.bus, send.to);
  }

  lemma FirstOfTwoSends(key: string, send: DedupeKey.Send)
    ensures var w := Run(START, FirstOfTwo(key, send));
            var m := Message(Uuid(0), send, 100);
            && Reserve(Step(START, Reserving(key, 100)).bus, key, 100, Uuid(1)).1 == Reserved(Uuid(0), 100, false)
            && w.log == [Sent(key, m)] && w.nextId == 3
            && w.bus.recent == map[key := m] && Queue(w.bus, send.to) == [m]
  {
    var es := FirstOfTwo(key, send);
    var w1 := Step(START, es[0]);
    var w2 := Step(w1, es[1]);
    assert w1.bus.reservations == map[key := Reservation(Uuid(0), 100)];
    assert es[1..] == [es[1], es[2]] && [es[1], es[2]][1..] == [es[2]] && [es[2]][1..] == [];
    assert Run(START, es) == Run(w1, es[1..]) == Run(w2, [es[2]]) == Run(Step(w2, es[2]), []);
    assert w2.bus.recent == map[] && Queue(w2.bus, send.to) == [];
    UnknownKeySends(w2, key, send, Uuid(0), 100);
  }

  lemma RunFrom(a: seq<Event>, b: seq<Event>, w: World)
    ensures Run(w, a + b) == Run(Run(w, a), b)
    decreases |a|
  {
    if a == [] {
      assert a + b == b;
    } else {
      assert (a + b)[0] == a[0] && (a + b)[1..] == a[1..] + b;
      RunFrom(a[1..], b, Step(w, a[0]));
    }
  }

  /** What happens to the second caller: another key is reserved after the window, then it sends. */
  function SecondOfTwo(key: string, other: string, send: DedupeKey.Send): seq<Event> {
    [Reserving(other, 131), Sending(key, send, Some(Uuid(0)), 100)]
  }

  lemma SecondSends(w: World, key: string, other: string, send: DedupeKey.Send)
    requires w.nextId > 0 && forall k :: k in w.bus.recent ==> w.bus.recent[k].createdAt == 100
    requires Queue(w.bus, send.to) == [] || Queue(w.bus, send.to) == [Message(Uuid(0), send, 100)]
    ensures var w' := Run(w, SecondOfTwo(key, other, send));
            && Queue(w'.bus, send.to) == [Message(Uuid(0), send, 100)]
            && w'.log == if Queue(w.bus, send.to) == [] then w.log + [Sent(key, Message(Uuid(0), send, 100))] else w.log
  {
    var b, c := Reserving(other, 131), Sending(key, send, Some(Uuid(0)), 100);
    var w1 := Step(w, b);
    assert w1.bus.recent == map[] && Queue(w1.bus, send.to) == Queue(w.bus, send.to);
    UnknownKeySends(w1, key, send, Uuid(0), 100);
    assert [b, c][1..] == [c] && [c][1..] == [];
    assert Run(w, [b, c]) == Run(w1, [c]) == Run(Step(w1, c), []);
  }

  /** The clock matters. The second of two callers that share a reservation sends under the reserved id and
      the reserved time. Once another caller has moved the table on, the queue decides: while the message is
      queued the send repeats it; after a poll has drained it, the same message is enqueued and delivered again. */
  lemma OldTimeBreaksSpacing(key: string, other: string, send: DedupeKey.Send)
    ensures var m := Message(Uuid(0), send, 100);
            var second := SecondOfTwo(key, other, send);
            && Run(START, FirstOfTwo(key, send) + second).log == [Sent(key, m)]
            && var w := Run(START, FirstOfTwo(key, send) + ([Polling(send.to, false, 101)] + second));
               |w.log| == 3 && w.log[0] == w.log[2] == Sent(key, m) && Queue(w.bus, send.to) == [m]
  {
    var poll, second := Polling(send.to, false, 101), SecondOfTwo(key, other, send);
    var w := Run(START, FirstOfTwo(key, send));
    FirstOfTwoSends(key, send);
    RunFrom(FirstOfTwo(key, send), second, START);
    SecondSends(w, key, other, send);
    RunFrom(FirstOfTwo(key, send), [poll] + second, START);
    assert ([poll] + second)[1..] == second;
    SecondSends(Step(w, poll), key, other, send);
  }

  // ---------------------------------------------------------------- reservations

  /** Events after which a reservation of `key` still stands: within its window, and no send of the
      key or under the reserved id. */
  predicate LeavesReservation(e: Event, key: string, r: Reservation) {
    match e
    case Reserving(_, now) => InWindow(now, r.createdAt)
    case Sending(k, _, stable, now) => InWindow(now, r.createdAt) && k != key && stable != Some(r.id)
    case _ => true
  }

  /** All identical reservations made before the key is sent or expires get one id and one timestamp. */
  lemma {:induction false} ReservationsAgree(w: World, events: seq<Event>, key: string, r: Reservation)
    requires key in w.bus.reservations && w.bus.reservations[key] == r && key !in w.bus.recent && Known(w, r.id)
    requires forall i :: 0 <= i < |events| ==> LeavesReservation(events[i], key, r)
    ensures var w' := Run(w, events);
            && key in w'.bus.reservations && w'.bus.reservations[key] == r && key !in w'.bus.recent
            && (forall now, newId :: InWindow(now, r.createdAt) ==>
                  Reserve(w'.bus, key, now, newId).1 == Reserved(r.id, r.createdAt, false))
    decreases |events|
  {
    if events != [] {
      var w' := Step(w, events[0]);
      assert LeavesReservation(events[0], key, r);
      forall i | 0 <= i < |events[1..]| ensures LeavesReservation(events[1..][i], key, r) {
        assert events[1..][i] == events[i + 1];
      }
      ReservationsAgree(w', events[1..], key, r);
    }
  }

  /** Events after which a recent send is still known: within its window, and not withdrawing it. */
  predicate LeavesRecent(e: Event, m: Message) {
    match e
    case Reserving(_, now) => InWindow(now, m.createdAt)
    case Sending(_, _, _, now) => InWindow(now, m.createdAt)
    case Cancelling(control, cancelled) => !IsCancelled(m, control, cancelled)
    case _ => true
  }

  /** Once sent, every identical reservation in the window is told so, and every identical send repeats it. */
  lemma {:induction false} SentIsRemembered(w: World, events: seq<Event>, key: string, m: Message)
    requires key in w.bus.recent && w.bus.recent[key] == m
    requires forall i :: 0 <= i < |events| ==> LeavesRecent(events[i], m)
    ensures var w' := Run(w, events);
            && key in w'.bus.recent && w'.bus.recent[key] == m
            && (forall now, newId :: InWindow(now, m.createdAt) ==>
                  Reserve(w'.bus, key, now, newId).1 == Reserved(m.id, m.createdAt, true))
            && (forall send, stable, now, newId :: InWindow(now, m.createdAt) ==>
                  Enqueue(w'.bus, key, send, stable, now, newId).1 == Outcome(m, true))
    decreases |events|
  {
    if events != [] {
      assert LeavesRecent(events[0], m);
      forall i | 0 <= i < |events[1..]| ensures LeavesRecent(events[1..][i], m) {
        assert events[1..][i] == events[i + 1];
      }
      SentIsRemembered(Step(w, events[0]), events[1..], key, m);
    }
  }

  /** Reserve, then send under the reserved id at the reserved time: the message carries that id and time
      unless it is a repetition, the reservation is gone, and the send is known from then on. */
  lemma ReserveThenSend(w: World, key: string, send: DedupeKey.Send, now: nat)
    requires key !in PruneRecent(w.bus, now).recent
    requires key in w.bus.reservations ==> Known(w, w.bus.reservations[key].id)
    ensures var w1 := Step(w, Reserving(key, now));
            var r := Reserve(w.bus, key, now, Uuid(w.nextId)).1;
            var w2 := Step(w1, Sending(key, send, Some(r.id), r.createdAt));
            var o := Enqueue(w1.bus, key, send, Some(r.id), r.createdAt, Uuid(w1.nextId)).1;
            && !r.alreadyEnqueued && o.message.id == r.id
            && (!o.deduplicated ==>
                  && o.message == Message(r.id, send, r.createdAt)
                  && w2.bus.recent[key] == o.message
                  && (forall k :: k in w2.bus.reservations ==> w2.bus.reservations[k].id != r.id))
  {}
}
