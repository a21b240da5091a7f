/**
 The deadline loop that every controller request runs in.  Times are in milliseconds.  A handler is
 known only by what its k-th call, started at time t, answers and how long it takes.
 */
module Retry {
  import opened Status
  import opened Timers

  datatype Attempt<+T> = Attempt(outcome: Outcome<T>, duration: nat)
  datatype Call<+T> = Call(start: int, finish: int, outcome: Outcome<T>)

  // The answer of the k-th call, given the time at which it starts.
  type Handler<!T> = (nat, int) -> Attempt<T>

  function Last<T>(calls: seq<Call<T>>): Call<T>
    requires |calls| >= 1
  {
    calls[|calls| - 1]
  }

  // The calls that a loop standing before its k-th call at time `now` makes.
  function History<T>(handler: Handler<T>, k: nat, now: int, waitDeadline: int, tie: nat -> bool): (calls: seq<Call<T>>)
    ensures |calls| >= 1
    decreases waitDeadline - now
  {
    var attempt := handler(k, now);
    var finish := now + attempt.duration;
    var call := Call(now, finish, attempt.outcome);
    if attempt.outcome.IsAborted() && TimerFirst(finish + RETRY_DELAY, waitDeadline, tie(k)) then
      [call] + History(handler, k + 1, finish + RETRY_DELAY, waitDeadline, tie)
    else
      [call]
  }

  // The j-th call is the handler's j-th, made at the time the history says.
  lemma {:induction false} CallsAreTheHandlers<T>(handler: Handler<T>, k: nat, now: int, waitDeadline: int,
                                                  tie: nat -> bool)
    ensures var calls := History(handler, k, now, waitDeadline, tie);
            && calls[0].start == now
            && forall j | 0 <= j < |calls| ::
                 && calls[j].outcome == handler(k + j, calls[j].start).outcome
                 && calls[j].finish == calls[j].start + handler(k + j, calls[j].start).duration
    decreases waitDeadline - now
  {
    var attempt := handler(k, now);
    var wake := now + attempt.duration + RETRY_DELAY;
    if attempt.outcome.IsAborted() && TimerFirst(wake, waitDeadline, tie(k)) {
      CallsAreTheHandlers(handler, k + 1, wake, waitDeadline, tie);
      var calls := History(handler, k, now, waitDeadline, tie);
      var rest := History(handler, k + 1, wake, waitDeadline, tie);
      forall j | 1 <= j < |calls|
        ensures && calls[j].outcome == handler(k + j, calls[j].start).outcome
                && calls[j].finish == calls[j].start + handler(k + j, calls[j].start).duration
      {
        assert calls[j] == rest[j - 1] && k + 1 + (j - 1) == k + j;
      }
    }
  }

  predicate Follows<T>(before: Call<T>, after: Call<T>, waitDeadline: int) {
    before.outcome.IsAborted() && after.start == before.finish + RETRY_DELAY && after.start <= waitDeadline
  }

  // Only aborted calls are followed by another, two seconds after they end and no later than the wait
  // deadline; so the answer is that of the first call not aborted, or of the last call when all are
  // aborted and no time is left.
  lemma {:induction false} RetriesOnlyAborted<T>(handler: Handler<T>, k: nat, now: int, waitDeadline: int,
                                                 tie: nat -> bool)
    ensures var calls := History(handler, k, now, waitDeadline, tie);
            && calls[0].start == now
            && (forall j | 1 <= j < |calls| :: Follows(calls[j - 1], calls[j], waitDeadline))
            && (Last(calls).outcome.IsAborted() ==> Last(calls).finish + RETRY_DELAY >= waitDeadline)
    decreases waitDeadline - now
  {
    var attempt := handler(k, now);
    var wake := now + attempt.duration + RETRY_DELAY;
    if attempt.outcome.IsAborted() && TimerFirst(wake, waitDeadline, tie(k)) {
      RetriesOnlyAborted(handler, k + 1, wake, waitDeadline, tie);
      var calls := History(handler, k, now, waitDeadline, tie);
      var rest := History(handler, k + 1, wake, waitDeadline, tie);
      forall j | 1 <= j < |calls| ensures Follows(calls[j - 1], calls[j], waitDeadline) {
        assert calls[j] == rest[j - 1] && (j > 1 ==> calls[j - 1] == rest[j - 2]);
      }
    }
  }

  // The timer, in the sense of Timers, of a loop that began at `begun` and is over with its n-th call.
  function TimerOf<T>(call: Call<T>, n: nat, begun: int, waitDeadline: int): Timer {
    Timer(begun, waitDeadline, n, call.start, Some(call.finish), begun)
  }

  // The loop keeps to the rules by which flights are timed: after every call its timer is paced, it calls the
  // handler again only when the rules allow it, and it ends only when they allow it.
  lemma {:induction false} HistoryKeepsTimers<T>(handler: Handler<T>, k: nat, begun: int, now: int, waitDeadline: int,
                                                 tie: nat -> bool)
    requires Paced(Timer(begun, waitDeadline, k + 1, now, None, begun), now)
    ensures var calls := History(handler, k, now, waitDeadline, tie);
            && (forall j | 0 <= j < |calls| ::
                  Paced(TimerOf(calls[j], k + j + 1, begun, waitDeadline), calls[j].finish))
            && (forall j | 1 <= j < |calls| ::
                  MayRetry(TimerOf(calls[j - 1], k + j, begun, waitDeadline), calls[j].start))
            && var end, over := TimerOf(Last(calls), k + |calls|, begun, waitDeadline), Last(calls).finish;
               MayLeave(end, if over > waitDeadline then over else waitDeadline, Last(calls).outcome.IsAborted())
    decreases waitDeadline - now
  {
    var attempt := handler(k, now);
    var wake := now + attempt.duration + RETRY_DELAY;
    if attempt.outcome.IsAborted() && TimerFirst(wake, waitDeadline, tie(k)) {
      HistoryKeepsTimers(handler, k + 1, begun, wake, waitDeadline, tie);
      var calls := History(handler, k, now, waitDeadline, tie);
      var rest := History(handler, k + 1, wake, waitDeadline, tie);
      assert forall j | 1 <= j < |calls| :: calls[j] == rest[j - 1];
      forall j | 0 <= j < |calls| ensures Paced(TimerOf(calls[j], k + j + 1, begun, waitDeadline), calls[j].finish) {
        assert j > 0 ==> Paced(TimerOf(rest[j - 1], (k + 1) + (j - 1) + 1, begun, waitDeadline), rest[j - 1].finish);
      }
      forall j | 1 <= j < |calls| ensures MayRetry(TimerOf(calls[j - 1], k + j, begun, waitDeadline), calls[j].start) {
        assert j > 1 ==> MayRetry(TimerOf(rest[j - 2], (k + 1) + (j - 1), begun, waitDeadline), rest[j - 1].start);
      }
    }
  }

  // The handler runs at least once, and at most once more for every two seconds of waiting time.
  lemma CallBudget<T>(handler: Handler<T>, now: int, waitDeadline: int, tie: nat -> bool)
    ensures var slack := waitDeadline - now;
            1 <= |History(handler, 0, now, waitDeadline, tie)| <= 1 + (if slack >= 0 then slack / RETRY_DELAY else 0)
  {
    var calls := History(handler, 0, now, waitDeadline, tie);
    HistoryKeepsTimers(handler, 0, now, now, waitDeadline, tie);
    PacedBudget(TimerOf(Last(calls), |calls|, now, waitDeadline), Last(calls).finish);
  }

  // The deadline in the request's own terms: no retry begins later than three seconds before the request's
  // time is up, and the loop gives up on an aborted call only when the next would begin later.
  lemma RetriesBeforeTimeUp<T>(handler: Handler<T>, now: int, deadline: Option<int>, tie: nat -> bool)
    ensures var calls := History(handler, 0, now, WaitDeadline(now, deadline), tie);
            var end := if deadline.Some? then deadline.value else now + 60000;
            && (forall j | 1 <= j < |calls| ::
                  calls[j].start == calls[j - 1].finish + 2000 && calls[j].start + 3000 <= end)
            && (Last(calls).outcome.IsAborted() ==> Last(calls).finish + 2000 + 3000 >= end)
  {
    WaitsUntil(now, deadline);
    RetriesOnlyAborted(handler, 0, now, WaitDeadline(now, deadline), tie);
    var calls := History(handler, 0, now, WaitDeadline(now, deadline), tie);
    var end := if deadline.Some? then deadline.value else now + 60000;
    forall j | 1 <= j < |calls| ensures calls[j].start == calls[j - 1].finish + 2000 && calls[j].start + 3000 <= end {
      assert Follows(calls[j - 1], calls[j], WaitDeadline(now, deadline));
    }
  }

  // Progress: when calls abort until time `ready` and answer `answer` from then on, and no call takes
  // longer than `longest`, the loop returns `answer` if one retry still fits before the deadline.
  lemma {:induction false} AnswersOnceReady<T>(handler: Handler<T>, k: nat, now: int, waitDeadline: int,
                                               tie: nat -> bool,
                                               ready: int, longest: nat, answer: Outcome<T>)
    requires forall j: nat, t: int :: handler(j, t).duration <= longest
    requires forall j: nat, t: int | t < ready :: handler(j, t).outcome.IsAborted()
    requires forall j: nat, t: int | t >= ready :: handler(j, t).outcome == answer
    requires !answer.IsAborted()
    requires ready + longest + RETRY_DELAY <= waitDeadline
    ensures var calls := History(handler, k, now, waitDeadline, tie);
            && Last(calls).outcome == answer
            && Last(calls).start >= ready
    decreases waitDeadline - now
  {
    if now < ready {
      var wake := now + handler(k, now).duration + RETRY_DELAY;
      AnswersOnceReady(handler, k + 1, wake, waitDeadline, tie, ready, longest, answer);
    }
  }

  method RetryOnAborted<T>(handler: Handler<T>, now: int, deadline: Option<int>, tie: nat -> bool)
    returns (result: Outcome<T>, calls: nat)
    ensures var history := History(handler, 0, now, WaitDeadline(now, deadline), tie);
            var end := if deadline.Some? then deadline.value else now + 60000;
            && calls == |history| && result == Last(history).outcome
            && (forall j | 1 <= j < |history| :: history[j].start + 3000 <= end)
            && (result.IsAborted() ==> Last(history).finish + 2000 + 3000 >= end)
  {
    RetriesBeforeTimeUp(handler, now, deadline, tie);
    var waitDeadline := WaitDeadline(now, deadline);
    ghost var all := History(handler, 0, now, waitDeadline, tie);
    var clock := now;
    calls := 0;
    while true
      invariant |all| == calls + |History(handler, calls, clock, waitDeadline, tie)|
      invariant Last(all) == Last(History(handler, calls, clock, waitDeadline, tie))
      decreases waitDeadline - clock
    {
      var attempt := handler(calls, clock);
      result := attempt.outcome;
      var wake := clock + attempt.duration + RETRY_DELAY;
      var again := attempt.outcome.IsAborted() && TimerFirst(wake, waitDeadline, tie(calls));
      calls := calls + 1;
      if !again {
        return;
      }
      clock := wake;
    }
  }
}
