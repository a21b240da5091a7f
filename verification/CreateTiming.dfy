/**
 CreateVolume while the cloud takes its time.  As long as the volume is still being created, or not in sight yet,
 the handler answers Aborted, which is what keeps its flight going; and if the cloud finishes the volume
 within `delay`, no call takes longer than `longest`, and one more retry fits before the wait deadline, the
 flight ends with the volume.  What the environment owes is said of the states of the run and of the
 answers in it.
 */
module CreateTiming {
  import opened Status
  import opened Capacity
  import opened Timers
  import opened CreateProtocol

  predicate Named(s: State, name: string, id: string) {
    id in s.cloud && s.cloud[id].name == name
  }

  // A request that passes the checks, for so many gigabytes.
  predicate AsksFor(request: Request, gb: int64) {
    request.accepted && GetVolumeSizeGB(request.range) == Size(gb)
  }

  // Neither the controller nor a call of the flight fails, and the flight's end is left to the conclusion.
  predicate Smooth(step: Step, name: string) {
    match step
    case List(n, _, fault) => n == name ==> !fault
    case Create(n, reply) => n == name ==> reply.Made? && reply.reported
    case Fetch(n, fault) => n == name ==> !fault
    case Leave(n) => n != name
    case Restart => false
    case _ => true
  }

  // ---------- waiting ----------

  // Any volume of the name is of the size asked for, and is still being created, or not listed yet.
  predicate Hidden(s: State, name: string, gb: int64) {
    forall id | id in s.cloud && Named(s, name, id) ::
      s.cloud[id].sizeGB == gb && (s.cloud[id].creating || !s.cloud[id].listed)
  }

  // A flight whose calls have all been answered Aborted.
  predicate Waits(s: State, name: string, gb: int64) {
    && name in s.flights && AsksFor(s.flights[name].leader, gb)
    && match s.flights[name].phase
       case Closing(outcome, _) => outcome == Error(Aborted)
       case Returned(outcome) => outcome == Error(Aborted)
       case _ => true
  }

  lemma MoveWaits(c: Config, s: State, step: Step, gb: int64)
    requires c.Valid() && c.Reliable() && Inv(c, s) && Moves(step) && Enabled(c, s, step) && Smooth(step, step.name)
    requires Waits(s, step.name, gb) && Hidden(s, step.name, gb) && Hidden(Apply(c, s, step), step.name, gb)
    ensures Waits(Apply(c, s, step), step.name, gb)
  {
    var name := step.name;
    assert PhaseInv(c, s, name);
    if step.TryLock? {
      LockIsFree(c, s, name);
    } else if step.List? && step.found != {} {
      var id :| id in step.found;
      assert forall i | i in step.found :: Named(s, name, i) && i == id;
      assert step.found == {id};
      assert TheOne(step.found) == id;
    } else if step.Fetch? {
      assert Named(s, name, s.flights[name].phase.id);
    }
  }

  lemma StepWaits(c: Config, s: State, step: Step, name: string, gb: int64)
    requires c.Valid() && c.Reliable() && Inv(c, s) && Enabled(c, s, step) && Smooth(step, name)
    requires Waits(s, name, gb) && Hidden(s, name, gb) && Hidden(Apply(c, s, step), name, gb)
    ensures Waits(Apply(c, s, step), name, gb)
  {
    if Moves(step) && step.name == name {
      MoveWaits(c, s, step, gb);
    } else {
      StepLeavesOthers(c, s, step, name);
    }
  }

  predicate HiddenRun(c: Config, s: State, steps: seq<Step>, name: string, gb: int64) {
    && Exec(c, s, steps).Some? && Hidden(Exec(c, s, steps).value, name, gb)
    && (steps == [] || (Smooth(steps[|steps| - 1], name) && HiddenRun(c, s, steps[..|steps| - 1], name, gb)))
  }

  // As long as the volume stays hidden, whether it is creating, unlisted with its name in the cache, or not
  // readable after the create call, every call of the handler answers Aborted, so that the flight goes on.
  lemma {:induction false} HiddenAnswersAborted(c: Config, s: State, steps: seq<Step>, name: string, gb: int64)
    requires c.Valid() && c.Reliable() && Inv(c, s) && HiddenRun(c, s, steps, name, gb)
    requires name in s.flights && s.flights[name].phase.Called? && AsksFor(s.flights[name].leader, gb)
    ensures var t := Exec(c, s, steps).value;
            && Inv(c, t) && Waits(t, name, gb)
            && (t.flights[name].phase.Returned? ==> t.flights[name].phase.outcome == Error(Aborted))
  {
    if steps == [] {
    } else {
      var front, last := steps[..|steps| - 1], steps[|steps| - 1];
      HiddenAnswersAborted(c, s, front, name, gb);
      StepKeepsInv(c, Exec(c, s, front).value, last);
      StepWaits(c, Exec(c, s, front).value, last, name, gb);
    }
  }

  // ---------- in time ----------

  // When the cloud is to be done: `delay` after the end of the first call, in which the volume is made.
  function Due(t: Timer, delay: nat, longest: nat): int {
    t.begun + longest + delay
  }

  // What the cloud owes the flight: from then on the volume is listed, readable and out of its creating state.
  predicate Serves(s: State, name: string, delay: nat, longest: nat) {
    && name in s.flights
    && var f := s.flights[name];
       && (s.clock >= Due(f.timer, delay, longest) ==>
             forall id | id in s.cloud && Named(s, name, id) ::
               s.cloud[id].listed && s.cloud[id].readable && !s.cloud[id].creating)
       && OnTime(f.timer, f.phase.Returned? && f.phase.outcome.IsAborted(), s.clock, longest)
  }

  predicate InOrder(s: State, name: string, gb: int64, outcome: Outcome<VolumeInfo>, early: bool) {
    || (outcome == Error(Aborted) && early)
    || (outcome.Done? && outcome.value.capacityBytes == SizeGBToBytes(gb) && Named(s, name, outcome.value.id))
  }

  // Where the flight stands.  `early`: its latest call began before the cloud was due.
  predicate Underway(s: State, name: string, gb: int64, delay: nat, longest: nat) {
    && name in s.flights && AsksFor(s.flights[name].leader, gb)
    && var f := s.flights[name];
       var t := f.timer;
       var early := t.start < Due(t, delay, longest);
       && (forall id | id in s.cloud && Named(s, name, id) :: s.cloud[id].sizeGB == gb)
       && (t.finish.Some? ==> t.finish.value <= t.start + longest && f.phase.Returned?)
       && t.start < Due(t, delay, longest) + longest + RETRY_DELAY
       && if Unnamed(s, name) then
            && t.start == t.begun && t.finish.None?
            && (f.phase.Called? || f.phase.Locked? || f.phase.Checked? || (f.phase.Listing? && f.phase.seen == {})
                || f.phase.Absent? || f.phase.Missing?)
          else
            match f.phase
            case Listing(_, seen) => seen == {} ==> early
            case Absent(_) => early
            case Created(_, _) => early
            case Cached(_, _) => early
            case Closing(outcome, _) => InOrder(s, name, gb, outcome, early)
            case Returned(outcome) => InOrder(s, name, gb, outcome, early)
            case _ => true
  }

  lemma MoveKeepsUnderway(c: Config, s: State, step: Step, gb: int64, delay: nat, longest: nat)
    requires c.Valid() && c.Reliable() && Inv(c, s) && TimersInv(s) && delay > 0
    requires Moves(step) && Enabled(c, s, step) && Smooth(step, step.name)
    requires Serves(s, step.name, delay, longest) && Serves(Apply(c, s, step), step.name, delay, longest)
    requires Underway(s, step.name, gb, delay, longest)
    ensures Underway(Apply(c, s, step), step.name, gb, delay, longest)
  {
    var name := step.name;
    assert PhaseInv(c, s, name) && Paced(s.flights[name].timer, s.clock);
    if step.TryLock? {
      LockIsFree(c, s, name);
    } else if step.StartList? {
      if !Unnamed(s, name) && Listed(s.cloud, name) == {} {
        var id :| id in s.cloud && s.cloud[id].name == name;
        assert Named(s, name, id) && id !in Listed(s.cloud, name);
        assert s.clock < Due(s.flights[name].timer, delay, longest);
      }
    } else if step.List? && step.found != {} {
      var id :| id in step.found;
      assert Named(s, name, id);
      assert step.found == {id} && TheOne({id}) == id;
    } else if step.Create? {
      assert Unnamed(s, name);
      if step.reply.id in s.cloud {
        TokenInjective(c, name, s.cloud[step.reply.id].name);
        assert false;
      }
      assert Named(Apply(c, s, step), name, step.reply.id);
    } else if step.Fetch? {
      assert Named(s, name, s.flights[name].phase.id);
    }
  }

  lemma StepKeepsUnderway(c: Config, s: State, step: Step, name: string, gb: int64, delay: nat, longest: nat)
    requires c.Valid() && c.Reliable() && Inv(c, s) && TimersInv(s) && delay > 0
    requires Enabled(c, s, step) && Smooth(step, name)
    requires Serves(s, name, delay, longest) && Serves(Apply(c, s, step), name, delay, longest)
    requires Underway(s, name, gb, delay, longest)
    ensures Underway(Apply(c, s, step), name, gb, delay, longest)
  {
    if Moves(step) && step.name == name {
      MoveKeepsUnderway(c, s, step, gb, delay, longest);
    } else {
      var t := Apply(c, s, step);
      StepLeavesOthers(c, s, step, name);
      assert forall id :: Named(t, name, id) <==> Named(s, name, id);
      assert Unnamed(t, name) <==> Unnamed(s, name);
    }
  }

  // A flight that has just begun, where any volume of the name has the size asked for.
  predicate Begins(s: State, request: Request, gb: int64, deadline: Option<int>) {
    && AsksFor(request, gb) && request.name in s.flights
    && s.flights[request.name] == Flight(request, Called, Timers.Begin(s.clock, deadline))
    && forall id | id in s.cloud && Named(s, request.name, id) :: s.cloud[id].sizeGB == gb
  }

  predicate Served(c: Config, s: State, steps: seq<Step>, name: string, delay: nat, longest: nat) {
    && Exec(c, s, steps).Some? && Serves(Exec(c, s, steps).value, name, delay, longest)
    && (steps == [] || (Smooth(steps[|steps| - 1], name) && Served(c, s, steps[..|steps| - 1], name, delay, longest)))
  }

  // Where the flight that began in s stands in t.
  predicate OnCourse(c: Config, s: State, t: State, name: string, gb: int64, deadline: Option<int>,
                     delay: nat, longest: nat)
  {
    && Inv(c, t) && TimersInv(t) && Serves(t, name, delay, longest) && Underway(t, name, gb, delay, longest)
    && t.flights[name].timer.begun == s.clock && t.flights[name].timer.waitDeadline == WaitDeadline(s.clock, deadline)
  }

  lemma StepOnCourse(c: Config, s: State, t: State, step: Step, name: string, gb: int64, deadline: Option<int>,
                     delay: nat, longest: nat)
    requires c.Valid() && c.Reliable() && delay > 0 && OnCourse(c, s, t, name, gb, deadline, delay, longest)
    requires Enabled(c, t, step) && Smooth(step, name) && Serves(Apply(c, t, step), name, delay, longest)
    ensures OnCourse(c, s, Apply(c, t, step), name, gb, deadline, delay, longest)
  {
    StepKeepsInv(c, t, step);
    StepKeepsTimers(c, t, step);
    StepKeepsUnderway(c, t, step, name, gb, delay, longest);
    SameTimes(c, t, step, name);
  }

  lemma SameTimes(c: Config, t: State, step: Step, name: string)
    requires Enabled(c, t, step) && Smooth(step, name) && name in t.flights
    ensures var u := Apply(c, t, step);
            && name in u.flights
            && u.flights[name].timer.begun == t.flights[name].timer.begun
            && u.flights[name].timer.waitDeadline == t.flights[name].timer.waitDeadline
  {}

  lemma {:induction false} StaysOnCourse(c: Config, s: State, steps: seq<Step>, request: Request, gb: int64,
                                         deadline: Option<int>, delay: nat, longest: nat)
    requires c.Valid() && c.Reliable() && delay > 0 && Inv(c, s) && TimersInv(s)
    requires Begins(s, request, gb, deadline) && Served(c, s, steps, request.name, delay, longest)
    ensures OnCourse(c, s, Exec(c, s, steps).value, request.name, gb, deadline, delay, longest)
  {
    if steps == [] {
    } else {
      var front, last := steps[..|steps| - 1], steps[|steps| - 1];
      StaysOnCourse(c, s, front, request, gb, deadline, delay, longest);
      StepOnCourse(c, s, Exec(c, s, front).value, last, request.name, gb, deadline, delay, longest);
    }
  }

  // In every run from the beginning of a flight, the flight can end only with a volume of its name and of the
  // size asked for, which is the only one of the name and out of its creating state; and it has that
  // answer by the time limit.
  lemma CreateSucceedsInTime(c: Config, s: State, steps: seq<Step>, request: Request, gb: int64,
                             deadline: Option<int>, delay: nat, longest: nat)
    requires c.Valid() && c.Reliable() && Inv(c, s) && TimersInv(s)
    requires Begins(s, request, gb, deadline) && Fits(s.flights[request.name].timer, delay, longest)
    requires Served(c, s, steps, request.name, delay, longest)
    ensures var t, name := Exec(c, s, steps).value, request.name;
            && name in t.flights &&
            var f := t.flights[name];
            CanLeave(f, t.clock) || t.clock > Limit(f.timer, delay, longest) ==>
              && f.phase.Returned? && f.phase.outcome.Done?
              && var id := f.phase.outcome.value.id;
                 && Named(t, name, id) && (forall i | Named(t, name, i) :: i == id)
                 && t.cloud[id].sizeGB == gb && !t.cloud[id].creating
                 && f.phase.outcome.value.capacityBytes == SizeGBToBytes(gb)
  {
    StaysOnCourse(c, s, steps, request, gb, deadline, delay, longest);
    assert PhaseInv(c, Exec(c, s, steps).value, request.name);
  }
}
