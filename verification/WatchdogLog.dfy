/** The watchdog's failure log: an identical failure is printed at most once per backoff period. */
module WatchdogLog {
  import opened Wrappers

  const MAX_U64: nat := 0xFFFF_FFFF_FFFF_FFFF

  type Time = nat

  datatype Entry = Entry(fingerprint: string, lastEmitted: Time, suppressed: nat)

  datatype Event = Failed(fingerprint: string, now: Time) | Succeeded

  function Since(now: Time, earlier: Time): nat {
    if now >= earlier then now - earlier else 0
  }

  function SaturatingAdd(n: nat, m: nat): nat {
    if n + m <= MAX_U64 then n + m else MAX_U64
  }

  predicate Suppresses(log: Option<Entry>, fingerprint: string, now: Time, backoff: nat) {
    && log.Some? && log.value.fingerprint == fingerprint
    && Since(now, log.value.lastEmitted) < backoff
  }

  /** The log after one poll. */
  function Next(log: Option<Entry>, e: Event, backoff: nat): Option<Entry> {
    match e
    case Succeeded => None
    case Failed(fingerprint, now) =>
      if Suppresses(log, fingerprint, now, backoff) then
        Some(log.value.(suppressed := SaturatingAdd(log.value.suppressed, 1)))
      else Some(Entry(fingerprint, now, 0))
  }

  class TaskWatchdogFailureLog {
    var current: Option<Entry>

    constructor ()
      ensures current == None
    {
      current := None;
    }

    /** Answers how many earlier failures went unprinted, or None when this one is not printed either. */
    method RecordFailure(fingerprint: string, now: Time, backoff: nat) returns (printed: Option<nat>)
      modifies this
      ensures current == Next(old(current), Failed(fingerprint, now), backoff)
      ensures printed.None? <==> Suppresses(old(current), fingerprint, now, backoff)
      ensures printed.Some? ==> printed.value == if old(current).Some? && old(current).value.fingerprint == fingerprint
                                                 then old(current).value.suppressed else 0
    {
      if current.Some? && current.value.fingerprint == fingerprint {
        if Since(now, current.value.lastEmitted) < backoff {
          current := Some(current.value.(suppressed := SaturatingAdd(current.value.suppressed, 1)));
          return None;
        }
        var suppressed := current.value.suppressed;
        current := Some(current.value.(lastEmitted := now, suppressed := 0));
        return Some(suppressed);
      }
      current := Some(Entry(fingerprint, now, 0));
      return Some(0);
    }

    method RecordSuccess()
      modifies this
      ensures current == Next(old(current), Succeeded, 0) == None
    {
      current := None;
    }
  }

  // ---------------------------------------------------------------- runs

  /** The log after a run of polls. */
  function After(events: seq<Event>, backoff: nat): Option<Entry> {
    if events == [] then None
    else Next(After(events[..|events| - 1], backoff), events[|events| - 1], backoff)
  }

  /** Poll `k` failed and was printed. */
  predicate Emits(events: seq<Event>, k: nat, backoff: nat)
    requires k < |events|
  {
    events[k].Failed? && !Suppresses(After(events[..k], backoff), events[k].fingerprint, events[k].now, backoff)
  }

  /** From poll `i` to poll `k` the same failure repeats without a success or another failure between. */
  predicate Streak(events: seq<Event>, i: nat, k: nat)
    requires i <= k < |events|
  {
    events[k].Failed? && forall m :: i <= m <= k ==> events[m].Failed? && events[m].fingerprint == events[k].fingerprint
  }

  predicate ClockAdvances(events: seq<Event>) {
    forall i, j :: 0 <= i < j < |events| && events[i].Failed? && events[j].Failed? ==> events[i].now <= events[j].now
  }

  lemma AfterStep(events: seq<Event>, k: nat, backoff: nat)
    requires k < |events|
    ensures After(events[..k + 1], backoff) == Next(After(events[..k], backoff), events[k], backoff)
  {
    assert events[..k + 1][..k] == events[..k];
  }

  /** A log entry dates from an emission of the streak that leads up to now, the last one there. */
  lemma {:induction false} LastEmission(events: seq<Event>, k: nat, backoff: nat) returns (i: nat)
    requires 0 < k <= |events| && After(events[..k], backoff).Some?
    ensures i < k && Emits(events, i, backoff) && Streak(events, i, k - 1)
    ensures After(events[..k], backoff).value.fingerprint == events[i].fingerprint
    ensures After(events[..k], backoff).value.lastEmitted == events[i].now
    ensures forall m :: i < m < k ==> !Emits(events, m, backoff)
  {
    AfterStep(events, k - 1, backoff);
    if Emits(events, k - 1, backoff) {
      return k - 1;
    }
    i := LastEmission(events, k - 1, backoff);
  }

  /**
   A failure is printed exactly when every printed failure before it in its streak is at least the
   backoff old: printed ones are that far apart, and none is held back longer.
   */
  lemma EmitsExactlyWhen(events: seq<Event>, k: nat, backoff: nat)
    requires ClockAdvances(events) && k < |events| && events[k].Failed?
    ensures Emits(events, k, backoff) <==>
              forall i :: 0 <= i < k && Streak(events, i, k) && Emits(events, i, backoff) ==>
                events[k].now - events[i].now >= backoff
  {
    var log := After(events[..k], backoff);
    if k > 0 {
      AfterStep(events, k - 1, backoff);
      if log.Some? {
        var last := LastEmission(events, k, backoff);
        if log.value.fingerprint == events[k].fingerprint {
          assert Streak(events, last, k);
        } else {
          assert forall i :: 0 <= i < k ==> !Streak(events, i, k);
        }
      } else {
        assert forall i :: 0 <= i < k ==> !Streak(events, i, k);
      }
    }
  }

  // ---------------------------------------------------------------- accounting

  /** What became of the failures of a run; `overflowed` ones met a full counter. */
  datatype Tally = Tally(failures: nat, printed: nat, reported: nat, discarded: nat, overflowed: nat)

  function Pending(log: Option<Entry>): nat {
    if log.Some? then log.value.suppressed else 0
  }

  /** Count one more poll, answered from the log before it. */
  function Count(t: Tally, log: Option<Entry>, e: Event, backoff: nat): Tally {
    match e
    case Succeeded => t.(discarded := t.discarded + Pending(log))
    case Failed(fingerprint, now) =>
      if Suppresses(log, fingerprint, now, backoff) then
        t.(failures := t.failures + 1, overflowed := t.overflowed + if Pending(log) == MAX_U64 then 1 else 0)
      else if log.Some? && log.value.fingerprint == fingerprint then
        t.(failures := t.failures + 1, printed := t.printed + 1, reported := t.reported + Pending(log))
      else
        t.(failures := t.failures + 1, printed := t.printed + 1, discarded := t.discarded + Pending(log))
  }

  function Tallied(events: seq<Event>, backoff: nat): Tally {
    if events == [] then Tally(0, 0, 0, 0, 0)
    else
      var before := events[..|events| - 1];
      Count(Tallied(before, backoff), After(before, backoff), events[|events| - 1], backoff)
  }

  /** The count of printed failures rises by one at exactly the polls that emit. */
  lemma PrintedCountsEmissions(events: seq<Event>, k: nat, backoff: nat)
    requires k < |events|
    ensures Tallied(events[..k + 1], backoff).printed ==
              Tallied(events[..k], backoff).printed + if Emits(events, k, backoff) then 1 else 0
  {
    assert events[..k + 1][..k] == events[..k];
  }

  /**
   Every failure is printed, reported in a later print, discarded with its streak, or still pending;
   some go uncounted only after more failures than the counter can hold.
   */
  lemma {:induction false} FailuresAreAccounted(events: seq<Event>, backoff: nat)
    ensures var t := Tallied(events, backoff);
            var pending := Pending(After(events, backoff));
            && t.failures == t.printed + t.reported + t.discarded + pending + t.overflowed
            && pending <= MAX_U64
            && (t.overflowed > 0 ==> t.failures > MAX_U64)
  {
    if events != [] {
      FailuresAreAccounted(events[..|events| - 1], backoff);
    }
  }

  /** A run of one repeated failure discards nothing, so below saturation the printed counts tell everything. */
  lemma {:induction false} StreakDiscardsNothing(events: seq<Event>, fingerprint: string, backoff: nat)
    requires forall k :: 0 <= k < |events| ==> events[k].Failed? && events[k].fingerprint == fingerprint
    ensures var t := Tallied(events, backoff);
            && t.discarded == 0 && t.failures == |events|
            && (|events| <= MAX_U64 ==> |events| == t.printed + t.reported + Pending(After(events, backoff)))
    ensures var log := After(events, backoff); log.Some? ==> log.value.fingerprint == fingerprint
  {
    FailuresAreAccounted(events, backoff);
    if events != [] {
      StreakDiscardsNothing(events[..|events| - 1], fingerprint, backoff);
    }
  }
}
