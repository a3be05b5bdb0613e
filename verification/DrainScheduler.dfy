/**
 The single-flight scheduler for completion-notification drains.

 Any number of threads interleave at their atomic loads, stores, swaps and compare-exchanges on
 three flags and a retry deadline, and at the lock and unlock of the drain mutex. A move names the
 thread that takes its next step and whatever that step learns from outside: the clock, whether a
 target became available, how a scan ended, and the id of a thread it may spawn.
 */
module DrainScheduler {
  import opened Wrappers

  type Tid = nat

  const RETRY_SECS := 5

  /** What a caller does after it has requested a drain. */
  datatype Then = ThenSchedule | ThenReturn | ThenBlock | ThenDrain

  datatype Role = Worker | Recovery

  datatype Pc =
    | ClearRetry(next: Then)      // store 0 to the retry deadline
    | RaiseRequest(next: Then)    // store true to the request flag
    | RaiseProbe                  // store true to the probe flag
    | CheckRequested              // schedule: load the request flag
    | CheckRetry                  // schedule: load the deadline and the clock
    | CheckProbe                  // schedule: load the probe flag
    | Claim                       // schedule: compare-exchange the scheduled flag
    | WorkerLock                  // lock the drain mutex
    | SwapProbe
    | AskAvailability
    | DrainRequested              // under the mutex: load the request flag
    | DrainRetry                  // under the mutex: load the deadline and the clock
    | SwapRequest(role: Role)
    | Scan(role: Role)
    | Rearm(role: Role)           // scan failed: store true to the request flag
    | Backoff(role: Role)         // scan failed: store the next deadline
    | Unlock(role: Role)
    | Release                     // store false to the scheduled flag
    | RecoveryLock
    | RecoveryClear
    | Done

  /** `stamp` is history: the number of scans begun when the thread raised its request. */
  datatype Thread = Thread(caller: Caller, pc: Pc, stamp: Option<nat>)

  /**
   The shared cells. `scans` counts the scans begun. `stranded` is history: a caller has requested
   without scheduling, and since then nobody has begun a schedule check or taken the request.
   */
  datatype Cells = Cells(requested: bool, scheduled: bool, probe: bool, retryAt: nat,
                         lock: Option<Tid>, scans: nat, stranded: bool)

  /** `hosted` says that the provider and the seat authority are configured. */
  datatype State = State(hosted: bool, cells: Cells, threads: map<Tid, Thread>)

  datatype Caller =
    | AfterTransition             // request, then schedule
    | DirectorAction              // request only
    | Recover                     // request, then drain in place
    | TargetAvailable             // raise the probe, then schedule
    | AnyRequest                  // schedule
    | SpawnedWorker               // started by a claim, never by itself

  datatype Choice = Choice(now: nat, available: bool, failed: bool, spawned: Tid)

  datatype Move = Start(tid: Tid, caller: Caller) | Advance(tid: Tid, choice: Choice)

  function Entry(caller: Caller): Pc {
    match caller
    case AfterTransition => ClearRetry(ThenSchedule)
    case DirectorAction => ClearRetry(ThenReturn)
    case Recover => ClearRetry(ThenBlock)
    case TargetAvailable => RaiseProbe
    case AnyRequest => CheckRequested
    case SpawnedWorker => Done
  }

  function AfterRequest(next: Then): Pc {
    match next
    case ThenSchedule => CheckRequested
    case ThenReturn => Done
    case ThenBlock => RecoveryLock
    case ThenDrain => DrainRequested
  }

  predicate Due(c: Cells, now: nat) {
    c.retryAt == 0 || now >= c.retryAt
  }

  /** One atomic step of thread `t` at `pc`: the cells afterwards, and its next pc. */
  function Atomic(hosted: bool, c: Cells, t: Tid, pc: Pc, x: Choice): (Cells, Pc) {
    match pc
    case ClearRetry(next) => (c.(retryAt := 0), RaiseRequest(next))
    case RaiseRequest(next) =>
      (c.(requested := true, stranded := c.stranded || next.ThenReturn?), AfterRequest(next))
    case RaiseProbe => (c.(probe := true), CheckRequested)
    case CheckRequested => (c.(stranded := false), if c.requested then CheckRetry else CheckProbe)
    case CheckRetry => (c, if Due(c, x.now) then Claim else CheckProbe)
    case CheckProbe => (c, if c.probe then Claim else Done)
    case Claim => (c.(scheduled := true), Done)
    case WorkerLock => if c.lock.Some? then (c, pc) else (c.(lock := Some(t)), SwapProbe)
    case SwapProbe => (c.(probe := false), if c.probe then AskAvailability else DrainRequested)
    case AskAvailability => (c, if x.available then ClearRetry(ThenDrain) else DrainRequested)
    case DrainRequested => (c, if c.requested then DrainRetry else Unlock(Worker))
    case DrainRetry => (c, if Due(c, x.now) then SwapRequest(Worker) else Unlock(Worker))
    case SwapRequest(role) =>
      if c.requested && hosted then (c.(requested := false, stranded := false, scans := c.scans + 1), Scan(role))
      else (c.(requested := false, stranded := false), Unlock(role))
    case Scan(role) => (c, if x.failed then Rearm(role) else Unlock(role))
    case Rearm(role) => (c.(requested := true), Backoff(role))
    case Backoff(role) => (c.(retryAt := x.now + RETRY_SECS), Unlock(role))
    case Unlock(role) => (c.(lock := None), if role.Worker? then Release else Done)
    case Release => (c.(scheduled := false), CheckRequested)
    case RecoveryLock => if c.lock.Some? then (c, pc) else (c.(lock := Some(t)), RecoveryClear)
    case RecoveryClear => (c.(retryAt := 0), SwapRequest(Recovery))
    case Done => (c, Done)
  }

  /** A claim that wins the compare-exchange also spawns the worker. */
  predicate Spawns(s: State, t: Tid)
    requires t in s.threads
  {
    s.threads[t].pc.Claim? && !s.cells.scheduled
  }

  function StepThread(s: State, t: Tid, x: Choice): State
    requires t in s.threads
  {
    if Spawns(s, t) && x.spawned in s.threads then s
    else
      var here := s.threads[t];
      var (cells, pc) := Atomic(s.hosted, s.cells, t, here.pc, x);
      var stamp := if here.pc.RaiseRequest? then Some(s.cells.scans) else here.stamp;
      var threads := s.threads[t := here.(pc := pc, stamp := stamp)];
      s.(cells := cells,
         threads := if Spawns(s, t) then threads[x.spawned := Thread(SpawnedWorker, WorkerLock, None)] else threads)
  }

  function Step(s: State, m: Move): State {
    match m
    case Start(t, caller) =>
      if t in s.threads then s else s.(threads := s.threads[t := Thread(caller, Entry(caller), None)])
    case Advance(t, c) => if t in s.threads then StepThread(s, t, c) else s
  }

  function Run(s: State, moves: seq<Move>): State
    decreases |moves|
  {
    if moves == [] then s else Run(Step(s, moves[0]), moves[1..])
  }

  function Idle(hosted: bool): State {
    State(hosted, Cells(false, false, false, 0, None, 0, false), map[])
  }

  // ---------------------------------------------------------------- invariants

  /** The pcs between a worker's claim and its clearing store. */
  predicate WorkerPc(pc: Pc) {
    match pc
    case WorkerLock => true
    case SwapProbe => true
    case AskAvailability => true
    case DrainRequested => true
    case DrainRetry => true
    case Release => true
    case ClearRetry(next) => next.ThenDrain?
    case RaiseRequest(next) => next.ThenDrain?
    case SwapRequest(role) => role.Worker?
    case Scan(role) => role.Worker?
    case Rearm(role) => role.Worker?
    case Backoff(role) => role.Worker?
    case Unlock(role) => role.Worker?
    case _ => false
  }

  /** The pcs at which a thread holds the drain mutex. */
  predicate LockedPc(pc: Pc) {
    match pc
    case SwapProbe => true
    case AskAvailability => true
    case ClearRetry(next) => next.ThenDrain?
    case RaiseRequest(next) => next.ThenDrain?
    case DrainRequested => true
    case DrainRetry => true
    case RecoveryClear => true
    case SwapRequest(_) => true
    case Scan(_) => true
    case Rearm(_) => true
    case Backoff(_) => true
    case Unlock(_) => true
    case _ => false
  }

  /** The pcs from which a thread is still going to look at a pending request, or to serve it. */
  predicate WatchfulPc(pc: Pc) {
    match pc
    case RaiseRequest(_) => true
    case CheckRequested => true
    case CheckRetry => true
    case Claim => true
    case RecoveryLock => true
    case RecoveryClear => true
    case SwapRequest(_) => true
    case Backoff(_) => true
    case _ => WorkerPc(pc)
  }

  predicate IsWorker(s: State, t: Tid) {
    t in s.threads && WorkerPc(s.threads[t].pc)
  }

  predicate HoldsLock(s: State, t: Tid) {
    t in s.threads && LockedPc(s.threads[t].pc)
  }

  predicate Watchful(s: State, t: Tid) {
    t in s.threads && WatchfulPc(s.threads[t].pc)
  }

  ghost predicate SingleFlight(s: State) {
    && (s.cells.scheduled <==> exists t :: IsWorker(s, t))
    && (forall t, u :: IsWorker(s, t) && IsWorker(s, u) ==> t == u)
  }

  ghost predicate MutexHeld(s: State) {
    forall t: Tid :: HoldsLock(s, t) <==> s.cells.lock == Some(t)
  }

  /** A request that waits for nothing. */
  predicate Pending(s: State) {
    s.cells.requested && s.cells.retryAt == 0
  }

  ghost predicate RequestWatched(s: State) {
    Pending(s) && !s.cells.stranded ==> exists t :: Watchful(s, t)
  }

  predicate StampServed(c: Cells, stamp: Option<nat>) {
    stamp.Some? ==> stamp.value <= c.scans && (stamp.value < c.scans || c.requested)
  }

  predicate StampsServed(s: State) {
    s.hosted ==> forall t :: t in s.threads ==> StampServed(s.cells, s.threads[t].stamp)
  }

  ghost predicate Inv(s: State) {
    SingleFlight(s) && MutexHeld(s) && RequestWatched(s) && StampsServed(s)
  }

  /** What one step does to the facts the invariants are made of. */
  lemma AtomicKeepsFlight(hosted: bool, c: Cells, t: Tid, pc: Pc, x: Choice)
    ensures var (c', pc') := Atomic(hosted, c, t, pc, x);
            && (WorkerPc(pc') <==> WorkerPc(pc) && !pc.Release?)
            && (c'.scheduled == if pc.Claim? then true else if pc.Release? then false else c.scheduled)
  {}

  lemma AtomicKeepsLock(hosted: bool, c: Cells, t: Tid, pc: Pc, x: Choice)
    requires LockedPc(pc) <==> c.lock == Some(t)
    ensures var (c', pc') := Atomic(hosted, c, t, pc, x);
            && (LockedPc(pc') <==> c'.lock == Some(t))
            && (c'.lock != c.lock ==> (c.lock == None || c.lock == Some(t)) && (c'.lock == None || c'.lock == Some(t)))
  {}

  lemma AtomicKeepsWatch(hosted: bool, c: Cells, t: Tid, pc: Pc, x: Choice)
    requires !pc.Claim?
    ensures var (c', pc') := Atomic(hosted, c, t, pc, x);
            c'.requested && c'.retryAt == 0 && !c'.stranded && !WatchfulPc(pc') ==>
              c.requested && c.retryAt == 0 && !c.stranded && !WatchfulPc(pc)
  {}

  lemma AtomicServesStamps(c: Cells, t: Tid, pc: Pc, x: Choice, stamp: Option<nat>)
    requires StampServed(c, stamp)
    ensures StampServed(Atomic(true, c, t, pc, x).0, stamp)
    ensures pc.RaiseRequest? ==> StampServed(Atomic(true, c, t, pc, x).0, Some(c.scans))
  {}

  lemma OthersUnmoved(s: State, t: Tid, x: Choice, u: Tid)
    requires t in s.threads && u != t && !(Spawns(s, t) && u == x.spawned)
    ensures u in StepThread(s, t, x).threads <==> u in s.threads
    ensures u in s.threads ==> StepThread(s, t, x).threads[u] == s.threads[u]
  {}

  lemma StepKeepsSingleFlight(s: State, t: Tid, x: Choice)
    requires t in s.threads && SingleFlight(s)
    ensures SingleFlight(StepThread(s, t, x))
  {
    var s' := StepThread(s, t, x);
    var pc := s.threads[t].pc;
    AtomicKeepsFlight(s.hosted, s.cells, t, pc, x);
    if Spawns(s, t) && x.spawned in s.threads {
      assert s' == s;
    } else {
      forall u | u != t && !(Spawns(s, t) && u == x.spawned)
        ensures IsWorker(s', u) <==> IsWorker(s, u)
      {
        OthersUnmoved(s, t, x, u);
      }
      if Spawns(s, t) {
        assert IsWorker(s', x.spawned) && !IsWorker(s', t) && !IsWorker(s, t);
      } else {
        assert IsWorker(s', t) <==> IsWorker(s, t) && !pc.Release?;
        if s.cells.scheduled {
          var w :| IsWorker(s, w);
          assert pc.Release? ==> w == t;
          assert !pc.Release? ==> IsWorker(s', w);
        }
      }
    }
  }

  lemma StepKeepsMutex(s: State, t: Tid, x: Choice)
    requires t in s.threads && MutexHeld(s)
    ensures MutexHeld(StepThread(s, t, x))
  {
    var s' := StepThread(s, t, x);
    assert HoldsLock(s, t) <==> LockedPc(s.threads[t].pc);
    AtomicKeepsLock(s.hosted, s.cells, t, s.threads[t].pc, x);
    if !(Spawns(s, t) && x.spawned in s.threads) {
      forall u
        ensures HoldsLock(s', u) <==> s'.cells.lock == Some(u)
      {
        assert HoldsLock(s, u) <==> s.cells.lock == Some(u);
        if u != t && !(Spawns(s, t) && u == x.spawned) {
          OthersUnmoved(s, t, x, u);
        }
      }
    }
  }

  lemma StepKeepsWatch(s: State, t: Tid, x: Choice)
    requires t in s.threads && SingleFlight(s) && RequestWatched(s)
    ensures RequestWatched(StepThread(s, t, x))
  {
    var s' := StepThread(s, t, x);
    if Spawns(s, t) {
      assert x.spawned !in s.threads ==> Watchful(s', x.spawned);
    } else if Pending(s') && !s'.cells.stranded && !Watchful(s', t) {
      var w: Tid;
      if s.threads[t].pc.Claim? {
        w :| IsWorker(s, w);
      } else {
        AtomicKeepsWatch(s.hosted, s.cells, t, s.threads[t].pc, x);
        w :| Watchful(s, w);
      }
      OthersUnmoved(s, t, x, w);
      assert Watchful(s', w);
    }
  }

  lemma StepKeepsStamps(s: State, t: Tid, x: Choice)
    requires t in s.threads && StampsServed(s)
    ensures StampsServed(StepThread(s, t, x))
  {
    var s' := StepThread(s, t, x);
    if s.hosted && !(Spawns(s, t) && x.spawned in s.threads) {
      forall u | u in s'.threads ensures StampServed(s'.cells, s'.threads[u].stamp) {
        if u != t && !(Spawns(s, t) && u == x.spawned) {
          OthersUnmoved(s, t, x, u);
        }
        AtomicServesStamps(s.cells, t, s.threads[t].pc, x, if u in s.threads then s.threads[u].stamp else None);
      }
    }
  }

  lemma StepKeepsInv(s: State, m: Move)
    requires Inv(s)
    ensures Inv(Step(s, m))
  {
    match m
    case Start(t, caller) =>
      var s' := Step(s, m);
      if t !in s.threads {
        assert !WorkerPc(Entry(caller)) && !LockedPc(Entry(caller));
        assert forall u :: IsWorker(s', u) <==> IsWorker(s, u);
        assert forall u :: HoldsLock(s', u) <==> HoldsLock(s, u);
        assert forall u :: Watchful(s, u) ==> Watchful(s', u);
      }
    case Advance(t, x) =>
      if t in s.threads {
        StepKeepsSingleFlight(s, t, x);
        StepKeepsMutex(s, t, x);
        StepKeepsWatch(s, t, x);
        StepKeepsStamps(s, t, x);
      }
  }

  lemma {:induction false} RunKeepsInv(s: State, moves: seq<Move>)
    requires Inv(s)
    ensures Inv(Run(s, moves))
    decreases |moves|
  {
    if moves != [] {
      StepKeepsInv(s, moves[0]);
      RunKeepsInv(Step(s, moves[0]), moves[1..]);
    }
  }

  // ---------------------------------------------------------------- what every run guarantees

  predicate Scanning(s: State, t: Tid) {
    t in s.threads && s.threads[t].pc.Scan?
  }

  /** In every interleaving the scheduled flag is up exactly while one worker is between its claim and
      its clearing store, and no two threads scan at once, workers and recovery alike. */
  lemma SingleFlightAlways(hosted: bool, moves: seq<Move>)
    ensures SingleFlight(Run(Idle(hosted), moves))
    ensures forall t, u :: Scanning(Run(Idle(hosted), moves), t) && Scanning(Run(Idle(hosted), moves), u) ==> t == u
  {
    var s := Run(Idle(hosted), moves);
    RunKeepsInv(Idle(hosted), moves);
    forall t, u | Scanning(s, t) && Scanning(s, u) ensures t == u {
      assert HoldsLock(s, t) && HoldsLock(s, u);
    }
  }

  predicate Raised(s: State, t: Tid) {
    t in s.threads && s.threads[t].stamp.Some?
  }

  ghost predicate Cared(s: State) {
    s.cells.retryAt != 0 || exists u :: Watchful(s, u)
  }

  /** A request, once raised, is never forgotten: a scan has begun since, or it is still up and either
      waits for a retry deadline, or some thread has yet to look at it or serve it. The one exception
      is a request left behind by a caller that requests and does not schedule. */
  lemma RequestNeverForgotten(moves: seq<Move>, t: Tid)
    ensures var s := Run(Idle(true), moves);
            Raised(s, t) ==>
              || s.cells.scans > s.threads[t].stamp.value
              || (s.cells.requested && (Cared(s) || s.cells.stranded))
  {
    RunKeepsInv(Idle(true), moves);
    HostedStays(Idle(true), moves);
    var s := Run(Idle(true), moves);
    if Raised(s, t) {
      assert StampServed(s.cells, s.threads[t].stamp);
    }
  }

  lemma {:induction false} StrandedIsRequested(s: State, moves: seq<Move>)
    requires s.cells.stranded ==> s.cells.requested
    ensures Run(s, moves).cells.stranded ==> Run(s, moves).cells.requested
    decreases |moves|
  {
    if moves != [] {
      StrandedIsRequested(Step(s, moves[0]), moves[1..]);
    }
  }

  /** When nobody cares, no deadline and no thread that is going to look, a request is pending exactly when a
      caller asked without scheduling and nobody has checked or taken the request since. */
  lemma LeftPendingExactlyWhen(hosted: bool, moves: seq<Move>)
    ensures var s := Run(Idle(hosted), moves);
            !Cared(s) ==> (s.cells.requested <==> s.cells.stranded)
  {
    RunKeepsInv(Idle(hosted), moves);
    StrandedIsRequested(Idle(hosted), moves);
  }

  lemma {:induction false} HostedStays(s: State, moves: seq<Move>)
    ensures Run(s, moves).hosted == s.hosted
    decreases |moves|
  {
    if moves != [] {
      HostedStays(Step(s, moves[0]), moves[1..]);
    }
  }

  predicate OnlyScheduling(moves: seq<Move>) {
    forall i :: 0 <= i < |moves| && moves[i].Start? ==> !moves[i].caller.DirectorAction?
  }

  predicate NoBareRequests(s: State) {
    && !s.cells.stranded
    && forall t :: t in s.threads ==>
         s.threads[t].pc != ClearRetry(ThenReturn) && s.threads[t].pc != RaiseRequest(ThenReturn)
  }

  lemma {:induction false} SchedulingRunsNeverStrand(s: State, moves: seq<Move>)
    requires NoBareRequests(s) && OnlyScheduling(moves)
    ensures NoBareRequests(Run(s, moves))
    decreases |moves|
  {
    if moves != [] {
      assert NoBareRequests(Step(s, moves[0])) by {
        if moves[0].Advance? && moves[0].tid in s.threads {
          BareRequestsDoNotArise(s, moves[0].tid, moves[0].choice);
        }
      }
      assert OnlyScheduling(moves[1..]);
      SchedulingRunsNeverStrand(Step(s, moves[0]), moves[1..]);
    }
  }

  lemma BareRequestsDoNotArise(s: State, t: Tid, x: Choice)
    requires NoBareRequests(s) && t in s.threads
    ensures NoBareRequests(StepThread(s, t, x))
  {
    var s' := StepThread(s, t, x);
    forall u | u in s'.threads
      ensures s'.threads[u].pc != ClearRetry(ThenReturn) && s'.threads[u].pc != RaiseRequest(ThenReturn)
    {
      if u != t && !(Spawns(s, t) && u == x.spawned) {
        OthersUnmoved(s, t, x, u);
      }
    }
  }

  /** When every request is followed by a schedule call or an in-place drain, the exception never arises. */
  lemma ScheduledRequestNeverForgotten(moves: seq<Move>, t: Tid)
    requires OnlyScheduling(moves)
    ensures var s := Run(Idle(true), moves);
            Raised(s, t) ==> s.cells.scans > s.threads[t].stamp.value || (s.cells.requested && Cared(s))
  {
    RequestNeverForgotten(moves, t);
    SchedulingRunsNeverStrand(Idle(true), moves);
  }

  // ---------------------------------------------------------------- the exception

  /** What a thread learns in the run below: the clock stands at zero, scans fail, and a claim spawns thread 9. */
  const AT_ZERO := Choice(0, false, true, 9)

  ghost predicate Reachable(s: State) {
    exists moves :: Run(Idle(true), moves) == s
  }

  lemma {:induction false} RunSplits(s: State, a: seq<Move>, b: seq<Move>)
    ensures Run(s, a + b) == Run(Run(s, a), b)
    decreases |a|
  {
    if a == [] {
      assert a + b == b;
    } else {
      assert (a + b)[0] == a[0] && (a + b)[1..] == a[1..] + b;
      RunSplits(Step(s, a[0]), a[1..], b);
    }
  }

  lemma ReachableNext(s: State, m: Move)
    requires Reachable(s)
    ensures Reachable(Step(s, m))
  {
    var moves :| Run(Idle(true), moves) == s;
    RunSplits(Idle(true), moves, [m]);
    assert [m][1..] == [];
  }

  /** One step of thread `t` in a reachable state. */
  lemma Hop(s: State, t: Tid) returns (next: State)
    requires Reachable(s) && s.hosted && t in s.threads && !Spawns(s, t)
    ensures Reachable(next) && next.hosted && next.threads.Keys == s.threads.Keys
    ensures var here := s.threads[t];
            && (next.cells, next.threads[t].pc) == Atomic(true, s.cells, t, here.pc, AT_ZERO)
            && next.threads[t].caller == here.caller
            && next.threads[t].stamp == if here.pc.RaiseRequest? then Some(s.cells.scans) else here.stamp
    ensures forall u :: u != t && u in s.threads ==> next.threads[u] == s.threads[u]
  {
    ReachableNext(s, Advance(t, AT_ZERO));
    next := Step(s, Advance(t, AT_ZERO));
  }

  lemma Enter(s: State, t: Tid, caller: Caller) returns (next: State)
    requires Reachable(s) && s.hosted && t !in s.threads
    ensures Reachable(next) && next.hosted && next.cells == s.cells
    ensures next.threads.Keys == s.threads.Keys + {t}
    ensures next.threads[t] == Thread(caller, Entry(caller), None)
    ensures forall u :: u in s.threads ==> next.threads[u] == s.threads[u]
  {
    ReachableNext(s, Start(t, caller));
    next := Step(s, Start(t, caller));
  }

  /** The cells without a probe and with nothing stranded. */
  function Plain(requested: bool, scheduled: bool, retryAt: nat, lock: Option<Tid>, scans: nat): Cells {
    Cells(requested, scheduled, false, retryAt, lock, scans, false)
  }

  /** Transition 1 asks for a drain. */
  lemma FirstAsks() returns (s: State)
    ensures Reachable(s) && s.hosted && s.cells == Plain(true, false, 0, None, 0)
    ensures s.threads.Keys == {1} && s.threads[1].pc == CheckRequested
  {
    assert Run(Idle(true), []) == Idle(true);
    s := Enter(Idle(true), 1, AfterTransition);
    s := Hop(s, 1);
    s := Hop(s, 1);
  }

  /** It finds the drain due. */
  lemma FirstFindsDue() returns (s: State)
    ensures Reachable(s) && s.hosted && s.cells == Plain(true, false, 0, None, 0)
    ensures s.threads.Keys == {1} && s.threads[1].pc == Claim
  {
    s := FirstAsks();
    s := Hop(s, 1);
    s := Hop(s, 1);
  }

  /** It claims the flag, and worker 9 starts. */
  lemma WorkerStarts() returns (s: State)
    ensures Reachable(s) && s.hosted && s.cells == Plain(true, true, 0, None, 0)
    ensures s.threads.Keys == {1, 9} && s.threads[1].pc == Done && s.threads[9].pc == WorkerLock
  {
    var before := FirstFindsDue();
    ReachableNext(before, Advance(1, AT_ZERO));
    s := Step(before, Advance(1, AT_ZERO));
  }

  /** The worker finds the drain due as well. */
  lemma WorkerFindsDue() returns (s: State)
    ensures Reachable(s) && s.hosted && s.cells == Plain(true, true, 0, Some(9), 0)
    ensures s.threads.Keys == {1, 9} && s.threads[1].pc == Done && s.threads[9].pc == DrainRetry
  {
    s := WorkerStarts();
    s := Hop(s, 9);
    s := Hop(s, 9);
    s := Hop(s, 9);
  }

  /** The worker begins a scan. */
  lemma WorkerScans() returns (s: State)
    ensures Reachable(s) && s.hosted && s.cells == Plain(false, true, 0, Some(9), 1)
    ensures s.threads.Keys == {1, 9} && s.threads[1].pc == Done && s.threads[9].pc == Scan(Worker)
  {
    s := WorkerFindsDue();
    s := Hop(s, 9);
    s := Hop(s, 9);
  }

  /** Meanwhile transition 2 raises its request. */
  lemma SecondAsks() returns (s: State)
    ensures Reachable(s) && s.hosted && s.cells == Plain(true, true, 0, Some(9), 1)
    ensures s.threads.Keys == {1, 2, 9} && s.threads[1].pc == Done && s.threads[9].pc == Scan(Worker)
    ensures s.threads[2] == Thread(AfterTransition, CheckRequested, Some(1))
  {
    s := WorkerScans();
    s := Enter(s, 2, AfterTransition);
    s := Hop(s, 2);
    s := Hop(s, 2);
  }

  /** Then the scan fails, and the worker raises the request again. */
  lemma WorkerRearms() returns (s: State)
    ensures Reachable(s) && s.hosted && s.cells == Plain(true, true, 0, Some(9), 1)
    ensures s.threads.Keys == {1, 2, 9} && s.threads[1].pc == Done && s.threads[9].pc == Backoff(Worker)
    ensures s.threads[2] == Thread(AfterTransition, CheckRequested, Some(1))
  {
    s := SecondAsks();
    s := Hop(s, 9);
    s := Hop(s, 9);
  }

  /** It leaves a deadline. */
  lemma WorkerUnlocks() returns (s: State)
    ensures Reachable(s) && s.hosted && s.cells == Plain(true, true, RETRY_SECS, None, 1)
    ensures s.threads.Keys == {1, 2, 9} && s.threads[1].pc == Done && s.threads[9].pc == Release
    ensures s.threads[2] == Thread(AfterTransition, CheckRequested, Some(1))
  {
    s := WorkerRearms();
    s := Hop(s, 9);
    s := Hop(s, 9);
  }

  /** It gives up its claim. */
  lemma WorkerBacksOff() returns (s: State)
    ensures Reachable(s) && s.hosted && s.cells == Plain(true, false, RETRY_SECS, None, 1)
    ensures s.threads.Keys == {1, 2, 9} && s.threads[1].pc == Done && s.threads[9].pc == CheckRequested
    ensures s.threads[2] == Thread(AfterTransition, CheckRequested, Some(1))
  {
    s := WorkerUnlocks();
    s := Hop(s, 9);
  }

  /** A thread that checks before the deadline ends. */
  lemma FindsDeadline(s: State, t: Tid) returns (next: State)
    requires Reachable(s) && s.hosted && s.cells == Plain(true, false, RETRY_SECS, None, 1)
    requires t in s.threads && s.threads[t].pc == CheckRequested
    ensures Reachable(next) && next.hosted && next.cells == s.cells && next.threads.Keys == s.threads.Keys
    ensures next.threads[t] == s.threads[t].(pc := Done)
    ensures forall u :: u != t && u in s.threads ==> next.threads[u] == s.threads[u]
  {
    next := Hop(s, t);
    next := Hop(next, t);
    next := Hop(next, t);
  }

  /** The worker and transition 2 find the deadline. Director action 3 clears it, raises a request of its
      own, and returns. */
  lemma DirectorClearsDeadline() returns (s: State)
    ensures Reachable(s) && s.hosted && s.cells == Plain(true, false, 0, None, 1).(stranded := true)
    ensures s.threads.Keys == {1, 2, 3, 9}
    ensures s.threads[1].pc == s.threads[3].pc == s.threads[9].pc == Done
    ensures s.threads[2] == Thread(AfterTransition, Done, Some(1))
  {
    s := WorkerBacksOff();
    s := FindsDeadline(s, 9);
    s := FindsDeadline(s, 2);
    s := Enter(s, 3, DirectorAction);
    s := Hop(s, 3);
    s := Hop(s, 3);
  }

  /** A request followed by its schedule call can be stranded: transition 2 has returned, no scan has
      begun since it asked, no deadline is set, and no thread is going to look. */
  lemma StrandingHappens()
    ensures exists s, t ::
              && Reachable(s) && Raised(s, t) && s.threads[t].caller.AfterTransition? && s.threads[t].pc.Done?
              && s.cells.requested && s.cells.scans == s.threads[t].stamp.value
              && !Cared(s)
  {
    var s := DirectorClearsDeadline();
    assert Raised(s, 2) && !Cared(s);
  }

  // ---------------------------------------------------------------- the way out

  /** Thread `t` takes `n` steps while nobody else moves. */
  function Solo(s: State, t: Tid, x: Choice, n: nat): State
    decreases n
  {
    if n == 0 then s else Solo(Step(s, Advance(t, x)), t, x, n - 1)
  }

  lemma {:induction false} SoloSplits(s: State, t: Tid, x: Choice, m: nat, n: nat)
    ensures Solo(s, t, x, m + n) == Solo(Solo(s, t, x, m), t, x, n)
    decreases m
  {
    if m > 0 {
      SoloSplits(Step(s, Advance(t, x)), t, x, m - 1, n);
    }
  }

  /** A request is up, and its deadline, if it has one, has passed. */
  predicate RetryReached(c: Cells, now: nat) {
    c.requested && (c.retryAt == 0 || now >= c.retryAt)
  }

  /** The slot is claimed by a new worker, and nothing else has changed. */
  predicate Claims(s: State, after: State, spawned: Tid) {
    && after.hosted == s.hosted
    && after.cells == s.cells.(scheduled := true, stranded := false)
    && spawned in after.threads && after.threads[spawned] == Thread(SpawnedWorker, WorkerLock, None)
  }

  /** A schedule check claims a free slot exactly when a request has reached its deadline or the probe is up. */
  lemma CheckClaimsExactlyWhen(s: State, t: Tid, x: Choice) returns (n: nat)
    requires t in s.threads && s.threads[t].pc.CheckRequested?
    requires !s.cells.scheduled && x.spawned !in s.threads
    ensures n <= 4
    ensures var after := Solo(s, t, x, n);
            && t in after.threads && after.threads[t].pc.Done?
            && if RetryReached(s.cells, x.now) || s.cells.probe then Claims(s, after, x.spawned)
               else after.cells == s.cells.(stranded := false) && after.threads.Keys == s.threads.Keys
    ensures RetryReached(s.cells, x.now) ==> n == 3
  {
    var s1 := Step(s, Advance(t, x));
    var s2 := Step(s1, Advance(t, x));
    var s3 := Step(s2, Advance(t, x));
    assert Solo(s, t, x, 2) == Solo(s1, t, x, 1) == Solo(s2, t, x, 0);
    SoloSplits(s, t, x, 2, 1);
    assert Solo(s2, t, x, 1) == Solo(s3, t, x, 0);
    if RetryReached(s.cells, x.now) {
      return 3;
    }
    if !s.cells.requested {
      return if s.cells.probe then 3 else 2;
    }
    var s4 := Step(s3, Advance(t, x));
    SoloSplits(s, t, x, 3, 1);
    assert Solo(s3, t, x, 1) == Solo(s4, t, x, 0);
    return if s.cells.probe then 4 else 3;
  }

  /** A check that finds the slot taken starts nothing. */
  lemma TakenSlotStartsNothing(s: State, t: Tid, x: Choice)
    requires t in s.threads && s.threads[t].pc.Claim? && s.cells.scheduled
    ensures var after := Step(s, Advance(t, x));
            after.cells == s.cells && after.threads.Keys == s.threads.Keys && after.threads[t].pc.Done?
  {
  }

  /** A worker at its request check begins a scan exactly when the request has reached its deadline; otherwise
      it lets the mutex go with the request as it was. */
  lemma ServesExactlyWhen(s: State, w: Tid, x: Choice) returns (n: nat)
    requires w in s.threads && s.threads[w].pc.DrainRequested? && s.hosted
    ensures n <= 3
    ensures var after := Solo(s, w, x, n);
            && w in after.threads
            && if RetryReached(s.cells, x.now)
               then n == 3 && Scanning(after, w)
                    && after.cells == s.cells.(requested := false, stranded := false, scans := s.cells.scans + 1)
               else after.threads[w].pc == Unlock(Worker) && after.cells == s.cells
  {
    var s1 := Step(s, Advance(w, x));
    var s2 := Step(s1, Advance(w, x));
    var s3 := Step(s2, Advance(w, x));
    assert Solo(s, w, x, 1) == Solo(s1, w, x, 0);
    SoloSplits(s, w, x, 1, 1);
    assert Solo(s1, w, x, 1) == Solo(s2, w, x, 0);
    SoloSplits(s, w, x, 2, 1);
    assert Solo(s2, w, x, 1) == Solo(s3, w, x, 0);
    return if !s.cells.requested then 1 else if RetryReached(s.cells, x.now) then 3 else 2;
  }

  /** A worker that gets the mutex takes the probe. If the probe finds a target, it asks again and clears the
      deadline; in any case it then comes to its request check. */
  lemma WorkerTakesProbe(s: State, w: Tid, x: Choice) returns (n: nat)
    requires w in s.threads && s.threads[w].pc.WorkerLock? && s.cells.lock.None?
    ensures n <= 5
    ensures var after := Solo(s, w, x, n);
            var held := s.cells.(lock := Some(w), probe := false);
            && w in after.threads && after.threads[w].pc.DrainRequested? && after.hosted == s.hosted
            && after.cells == if s.cells.probe && x.available then held.(requested := true, retryAt := 0) else held
  {
    var s1 := Step(s, Advance(w, x));
    var s2 := Step(s1, Advance(w, x));
    assert Solo(s, w, x, 2) == Solo(s1, w, x, 1) == Solo(s2, w, x, 0);
    if !s.cells.probe {
      return 2;
    }
    var s3 := Step(s2, Advance(w, x));
    SoloSplits(s, w, x, 2, 1);
    assert Solo(s2, w, x, 1) == Solo(s3, w, x, 0);
    if !x.available {
      return 3;
    }
    var s4 := Step(s3, Advance(w, x));
    SoloSplits(s, w, x, 3, 2);
    assert Solo(s3, w, x, 2) == Solo(s4, w, x, 1);
    return 5;
  }

  /** What a worker left to run does with the mutex free: within eight steps it begins a scan, exactly when a
      request has reached its deadline or the probe finds a target, and otherwise lets the mutex go. */
  lemma WorkerScansExactlyWhen(s: State, w: Tid, x: Choice) returns (n: nat)
    requires w in s.threads && s.threads[w].pc.WorkerLock? && s.hosted && s.cells.lock.None?
    ensures n <= 8
    ensures var after := Solo(s, w, x, n);
            && w in after.threads
            && if RetryReached(s.cells, x.now) || (s.cells.probe && x.available)
               then after.cells.scans == s.cells.scans + 1 && Scanning(after, w)
               else after.threads[w].pc == Unlock(Worker)
                    && after.cells == s.cells.(lock := Some(w), probe := false)
  {
    var m := WorkerTakesProbe(s, w, x);
    var mid := Solo(s, w, x, m);
    assert RetryReached(mid.cells, x.now) <==> RetryReached(s.cells, x.now) || (s.cells.probe && x.available);
    var k := ServesExactlyWhen(mid, w, x);
    SoloSplits(s, w, x, m, k);
    assert Solo(s, w, x, m + k) == Solo(mid, w, x, k);
    return m + k;
  }

  /** A scan that ends well leaves everything as it is; one that fails puts the request back and leaves a
      deadline five seconds away. */
  lemma ScanEnds(s: State, t: Tid, x: Choice)
    requires t in s.threads && s.threads[t].pc.Scan?
    ensures !x.failed ==> Solo(s, t, x, 1).cells == s.cells && Solo(s, t, x, 1).threads[t].pc.Unlock?
    ensures x.failed ==> var after := Solo(s, t, x, 3);
                         && t in after.threads && after.threads[t].pc.Unlock?
                         && after.cells == s.cells.(requested := true, retryAt := x.now + 5)
  {
    var s1 := Step(s, Advance(t, x));
    var s2 := Step(s1, Advance(t, x));
    assert Solo(s, t, x, 1) == Solo(s1, t, x, 0);
    assert Solo(s, t, x, 3) == Solo(s1, t, x, 2) == Solo(s2, t, x, 1);
  }

  /** Letting go: a worker gives back the mutex and then its slot, and checks once more; recovery ends. */
  lemma LettingGo(s: State, t: Tid, x: Choice)
    requires t in s.threads && s.threads[t].pc.Unlock?
    ensures s.threads[t].pc.role.Worker? ==>
              var after := Solo(s, t, x, 2);
              && t in after.threads && after.threads[t].pc.CheckRequested?
              && after.cells == s.cells.(lock := None, scheduled := false)
    ensures s.threads[t].pc.role.Recovery? ==>
              var after := Solo(s, t, x, 1);
              && t in after.threads && after.threads[t].pc.Done? && after.cells == s.cells.(lock := None)
  {
    var s1 := Step(s, Advance(t, x));
    assert Solo(s, t, x, 1) == Solo(s1, t, x, 0);
    assert Solo(s, t, x, 2) == Solo(s1, t, x, 1);
  }

  /** What each caller does first: a request clears the deadline and goes up, a probe goes up; then the caller
      checks, returns, waits for the mutex, as the case may be. */
  lemma CallersBegin(s: State, t: Tid, caller: Caller, x: Choice)
    requires t !in s.threads
    ensures var started := Step(s, Start(t, caller));
            var asked := s.cells.(retryAt := 0, requested := true);
            match caller
            case AfterTransition => Reaches(Solo(started, t, x, 2), t, CheckRequested, asked)
            case DirectorAction => Reaches(Solo(started, t, x, 2), t, Done, asked.(stranded := true))
            case Recover => Reaches(Solo(started, t, x, 2), t, RecoveryLock, asked)
            case TargetAvailable => Reaches(Solo(started, t, x, 1), t, CheckRequested, s.cells.(probe := true))
            case AnyRequest => Reaches(started, t, CheckRequested, s.cells)
            case SpawnedWorker => Reaches(started, t, Done, s.cells)
  {
    var s0 := Step(s, Start(t, caller));
    var s1 := Step(s0, Advance(t, x));
    assert Solo(s0, t, x, 1) == Solo(s1, t, x, 0);
    assert Solo(s0, t, x, 2) == Solo(s1, t, x, 1);
  }

  predicate Reaches(s: State, t: Tid, pc: Pc, cells: Cells) {
    t in s.threads && s.threads[t].pc == pc && s.cells == cells
  }

  /** Recovery that gets the mutex clears the deadline and serves a pending request at once. */
  lemma RecoveryServes(s: State, t: Tid, x: Choice)
    requires t in s.threads && s.threads[t].pc.RecoveryLock? && s.cells.lock.None? && s.hosted && s.cells.requested
    ensures var after := Solo(s, t, x, 3);
            Reaches(after, t, Scan(Recovery), s.cells.(lock := Some(t), retryAt := 0, requested := false,
                                                       stranded := false, scans := s.cells.scans + 1))
  {
    var s1 := Step(s, Advance(t, x));
    var s2 := Step(s1, Advance(t, x));
    assert Solo(s, t, x, 3) == Solo(s1, t, x, 2) == Solo(s2, t, x, 1);
  }

  /** A host without its provider takes the request down and scans nothing. */
  lemma UnhostedScansNothing(s: State, t: Tid, x: Choice)
    requires t in s.threads && s.threads[t].pc.SwapRequest? && !s.hosted
    ensures Reaches(Step(s, Advance(t, x)), t, Unlock(s.threads[t].pc.role),
                    s.cells.(requested := false, stranded := false))
  {
  }

  /** The next request of any kind serves a pending request that has reached its deadline, or none: with the slot
      and the mutex free its schedule check claims the slot, and the worker, left to run, begins a scan within
      eight steps. Before the deadline, and without a probe, the check ends and nothing is claimed. */
  lemma NextRequestServes(s: State, t: Tid, x: Choice) returns (n: nat)
    requires s.hosted && s.cells.requested && !s.cells.scheduled && s.cells.lock.None?
    requires t !in s.threads && x.spawned !in s.threads && t != x.spawned
    ensures s.cells.retryAt == 0 || x.now >= s.cells.retryAt ==>
              var checked := Solo(Step(s, Start(t, AnyRequest)), t, x, 3);
              && checked.cells.scheduled && IsWorker(checked, x.spawned)
              && n <= 8
              && Solo(checked, x.spawned, x, n).cells.scans == s.cells.scans + 1
              && Scanning(Solo(checked, x.spawned, x, n), x.spawned)
    ensures s.cells.retryAt != 0 && x.now < s.cells.retryAt && !s.cells.probe ==>
              var ended := Solo(Step(s, Start(t, AnyRequest)), t, x, n);
              Reaches(ended, t, Done, s.cells.(stranded := false)) && x.spawned !in ended.threads
  {
    var asked := Step(s, Start(t, AnyRequest));
    var m := CheckClaimsExactlyWhen(asked, t, x);
    if RetryReached(s.cells, x.now) {
      n := WorkerScansExactlyWhen(Solo(asked, t, x, 3), x.spawned, x);
    } else {
      n := m;
    }
  }

  /** In particular a pending request that nobody looks at: the slot is then free, and only a mutex held by
      start-up recovery delays the scan. */
  lemma NextRequestServesStranded(s: State, t: Tid, x: Choice)
    requires Inv(s) && s.hosted && Pending(s) && !Cared(s) && s.cells.lock.None?
    requires t !in s.threads && x.spawned !in s.threads && t != x.spawned
    ensures var checked := Solo(Step(s, Start(t, AnyRequest)), t, x, 3);
            && checked.cells.scheduled && IsWorker(checked, x.spawned)
            && exists n: nat :: n <= 8
                 && Solo(checked, x.spawned, x, n).cells.scans == s.cells.scans + 1
                 && Scanning(Solo(checked, x.spawned, x, n), x.spawned)
  {
    assert forall u :: IsWorker(s, u) ==> Watchful(s, u);
    var n := NextRequestServes(s, t, x);
  }
}
