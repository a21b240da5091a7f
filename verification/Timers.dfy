/**
 The clockwork of the deadline loop that every controller request runs in.  Times are in milliseconds.  A
 Timer says where one flight stands in its loop.
 */
module Timers {
  import opened Status

  const RETRY_DELAY: int := 2000
  const DEADLINE_MARGIN: int := 3000
  const DEFAULT_TIMEOUT: int := 60000

  function WaitDeadline(now: int, deadline: Option<int>): int {
    (if deadline.Some? then deadline.value else now + DEFAULT_TIMEOUT) - DEADLINE_MARGIN
  }

  // When a request's own time is up: a minute from now, unless its caller says otherwise.
  function TimeUp(now: int, deadline: Option<int>): int {
    if deadline.Some? then deadline.value else now + 60000
  }

  // The loop stops waiting three seconds before the request's time is up.
  lemma WaitsUntil(now: int, deadline: Option<int>)
    ensures WaitDeadline(now, deadline) + 3000 == TimeUp(now, deadline)
  {}

  // The select statement: the timer for the next try fires at `wake`, the wait context ends at
  // `waitDeadline`.  When both are ready at once Go picks either branch; `tie` is its pick.
  predicate TimerFirst(wake: int, waitDeadline: int, tie: bool) {
    wake < waitDeadline || (wake == waitDeadline && tie)
  }

  // `calls` counts the handler's calls, the last of which began at `start` and, if it is over, ended at
  // `finish`; `acted` is when the flight last had the cloud begin to attach or detach.
  datatype Timer = Timer(begun: int, waitDeadline: int, calls: nat, start: int, finish: Option<int>, acted: int)

  function Begin(now: int, deadline: Option<int>): Timer {
    Timer(now, WaitDeadline(now, deadline), 1, now, None, now)
  }

  function Over(t: Timer, now: int): Timer {
    t.(finish := Some(now))
  }

  function Again(t: Timer, now: int): Timer {
    t.(calls := t.calls + 1, start := now, finish := None)
  }

  // The handler may be called again exactly two seconds after it ended, if the timer can come first.
  predicate MayRetry(t: Timer, now: int) {
    t.finish.Some? && now == t.finish.value + RETRY_DELAY && TimerFirst(now, t.waitDeadline, true)
  }

  // The loop ends at an answer other than Aborted, or at the wait deadline, if that can come first.
  predicate MayLeave(t: Timer, now: int, aborted: bool) {
    && t.finish.Some?
    && (aborted ==> now >= t.waitDeadline && !TimerFirst(t.finish.value + RETRY_DELAY, t.waitDeadline, false))
  }

  // What holds of a timer throughout the loop.
  predicate Paced(t: Timer, now: int) {
    && t.calls >= 1
    && t.begun + (t.calls - 1) * RETRY_DELAY <= t.start <= now
    && (t.calls > 1 ==> t.start <= t.waitDeadline)
    && (t.finish.Some? ==> t.start <= t.finish.value <= now)
  }

  lemma PacedKeeps(t: Timer, now: int, later: int, deadline: Option<int>)
    requires now <= later
    ensures Paced(Begin(now, deadline), now)
    ensures Paced(t, now) ==> Paced(t, later) && Paced(Over(t, now), now)
    ensures Paced(t, now) && MayRetry(t, now) ==> Paced(Again(t, now), now)
  {}

  // At least one call, and at most one more for every two seconds of waiting time.
  predicate WithinBudget(t: Timer) {
    var slack := t.waitDeadline - t.begun;
    1 <= t.calls <= 1 + (if slack >= 0 then slack / RETRY_DELAY else 0)
  }

  lemma PacedBudget(t: Timer, now: int)
    requires Paced(t, now)
    ensures WithinBudget(t)
  {
    assert t.calls > 1 ==> (t.calls - 1) * RETRY_DELAY <= t.waitDeadline - t.begun;
  }

  // What a flight's timer says in the end about the request's own time, `end`: every call but the first began at
  // least three seconds before it, two seconds apart at the least, and if the last call aborted, the next
  // would have begun later than that.
  predicate Punctual(t: Timer, begun: int, end: int, aborted: bool) {
    && t.begun == begun && t.calls >= 1 && t.finish.Some?
    && begun + 2000 * (t.calls - 1) <= t.start <= t.finish.value
    && (t.calls > 1 ==> t.start + 3000 <= end)
    && (aborted ==> t.finish.value + 2000 + 3000 >= end)
  }

  lemma PacedIsPunctual(t: Timer, now: int, begun: int, deadline: Option<int>, aborted: bool)
    requires Paced(t, now) && t.begun == begun && t.waitDeadline == WaitDeadline(begun, deadline)
    requires MayLeave(t, now, aborted)
    ensures Punctual(t, begun, TimeUp(begun, deadline), aborted)
  {
    WaitsUntil(begun, deadline);
  }

  // No call takes longer than `longest`, and a timer that fires before the wait deadline fires on time.
  predicate OnTime(t: Timer, aborted: bool, clock: int, longest: nat) {
    && (t.finish.None? ==> clock <= t.start + longest)
    && (aborted && t.finish.Some? && t.finish.value + RETRY_DELAY < t.waitDeadline ==>
        clock <= t.finish.value + RETRY_DELAY)
  }

  // The time by which a flight has its answer.
  function Limit(t: Timer, delay: nat, longest: nat): int {
    t.begun + longest + delay + longest + RETRY_DELAY + longest
  }

  // One more retry fits: the time to the call that has the cloud act, the cloud's delay, one call that reads
  // too early to see the end of it, and the pause before the next.
  predicate Fits(t: Timer, delay: nat, longest: nat) {
    delay > 0 && t.begun + longest + delay + longest + RETRY_DELAY <= t.waitDeadline
  }

  // Which of two timers that are ready at once is served is not the program's to say.
  method Tie() returns (tie: bool) {
    return true;
  }

  // The select statement after an aborted call that ended at `finish`: whether the handler is called
  // again, and until when the loop sleeps.
  method Select(finish: int, waitDeadline: int) returns (again: bool, until: int)
    ensures finish <= until
    ensures forall t: Timer | t.finish == Some(finish) && t.waitDeadline == waitDeadline ::
              if again then MayRetry(t, until) else MayLeave(t, until, true)
    ensures again ==> finish < until <= waitDeadline
  {
    var wake := finish + RETRY_DELAY;
    var tie := Tie();
    again := TimerFirst(wake, waitDeadline, tie);
    until := if again then wake else if finish < waitDeadline then waitDeadline else finish;
  }
}
