/**
 Why a CreateVolume flight answers what it does.  In every run, an answer goes back to one step of the flight and
 to what the cloud and the cache held at that step; which answer it is, is said here in terms of these
 alone.  Requests that do not pass the checks never reach the cloud.
 */
module CreateAnswers {
  import opened Status
  import opened Capacity
  import opened CreateProtocol

  // What a volume that has been seen means for a request, one equivalence for each answer.
  ghost predicate VolumeSays(id: string, v: Volume, outcome: Outcome<VolumeInfo>) {
    && (outcome == Error(Aborted) <==> v.creating)
    && (outcome.Done? <==> !v.creating)
    && (outcome.Done? ==> outcome.value.id == id && outcome.value.capacityBytes == SizeGBToBytes(v.sizeGB))
  }

  // What a listing that shows one volume means: sizes are compared first.
  ghost predicate ListingSays(id: string, v: Volume, range: CapacityRange, outcome: Outcome<VolumeInfo>) {
    if GetVolumeSizeGB(range) == Size(v.sizeGB) then VolumeSays(id, v, outcome) else outcome == Error(AlreadyExists)
  }

  // What a step of a flight, taken in a state, gives it for an answer.
  ghost predicate Reason(s: State, step: Step, request: Request, outcome: Outcome<VolumeInfo>) {
    match step
    case CheckArgs(_) =>
      outcome == Error(InvalidArgument) && (!request.accepted || GetVolumeSizeGB(request.range).Invalid?)
    case List(_, found, fault) =>
      if fault || |found| > 1 then outcome == Error(Internal)
      else
        && found != {}
        && forall id | id in found :: id in s.cloud && ListingSays(id, s.cloud[id], request.range, outcome)
    case LoadCache(name) => outcome == Error(Aborted) && name in s.cache
    case Create(_, Refused(invalid)) =>
      if invalid then outcome == Error(InvalidArgument) else outcome == Error(Internal)
    case Create(_, Made(_, reported, _, _, _)) => !reported && outcome == Error(Internal)
    case Fetch(name, fault) =>
      if fault then outcome == Error(Internal)
      else
        && name in s.flights && s.flights[name].phase.Cached? && s.flights[name].phase.id in s.cloud
        && var id := s.flights[name].phase.id;
           if s.cloud[id].readable then VolumeSays(id, s.cloud[id], outcome) else outcome == Error(Aborted)
    case _ => false
  }

  // A step that shows the flight a volume of its name, which ends the cache's part.
  predicate Sees(s: State, step: Step) {
    match step
    case List(_, found, fault) => !fault && |found| == 1
    case Fetch(name, fault) =>
      && !fault && name in s.flights && s.flights[name].phase.Cached?
      && s.flights[name].phase.id in s.cloud && s.cloud[s.flights[name].phase.id].readable
    case _ => false
  }

  // After the step nothing happens to the flight but the deferred calls and its return.
  predicate Rests(step: Step, name: string) {
    && !step.Restart?
    && (step.Enter? ==> step.request.name != name)
    && (step.Leave? ==> step.name != name)
    && (Moves(step) && step.name == name ==> step.Drop? || step.Unlock? || step.Return?)
  }

  // An answer with its deferred calls still to come.
  predicate Closed(s: State, name: string, outcome: Outcome<VolumeInfo>) {
    && name in s.flights
    && (s.flights[name].phase == Returned(outcome)
        || (s.flights[name].phase.Closing? && s.flights[name].phase.outcome == outcome))
  }

  // The cache entry of the name is gone, or about to go.
  predicate Dropped(s: State, name: string) {
    name in s.flights && (name !in s.cache || (s.flights[name].phase.Closing? && s.flights[name].phase.dropsCache))
  }

  lemma MoveHasReason(c: Config, s: State, step: Step, outcome: Outcome<VolumeInfo>)
    requires c.Valid() && Inv(c, s) && Enabled(c, s, step)
    requires Moves(step) && !step.Drop? && !step.Unlock? && !step.Return? && !step.Retry?
    requires Closed(Apply(c, s, step), step.name, outcome)
    ensures Reason(s, step, s.flights[step.name].leader, outcome)
    ensures Sees(s, step) ==> Dropped(Apply(c, s, step), step.name)
  {
    assert PhaseInv(c, s, step.name);
    if step.TryLock? {
      LockIsFree(c, s, step.name);
    } else if step.List? && !step.fault && |step.found| == 1 {
      assert step.found == {TheOne(step.found)};
    }
  }

  lemma RestKeepsDropped(c: Config, s: State, step: Step, name: string)
    requires Enabled(c, s, step) && Rests(step, name) && Dropped(s, name)
    ensures Dropped(Apply(c, s, step), name)
  {}

  lemma RestKeepsAnswer(c: Config, s: State, step: Step, name: string, outcome: Outcome<VolumeInfo>)
    requires Enabled(c, s, step) && Rests(step, name) && Closed(Apply(c, s, step), name, outcome)
    ensures Closed(s, name, outcome) && s.flights[name].leader == Apply(c, s, step).flights[name].leader
  {}

  // Step k of the run is why the flight answers as it does in t, where the run ends.
  ghost predicate Explains(c: Config, s: State, steps: seq<Step>, k: int, t: State, name: string,
                           outcome: Outcome<VolumeInfo>)
  {
    && 0 <= k < |steps| && Moves(steps[k]) && steps[k].name == name && Exec(c, s, steps[..k]).Some?
    && (forall j | k < j < |steps| :: Rests(steps[j], name))
    && Closed(t, name, outcome)
    && Reason(Exec(c, s, steps[..k]).value, steps[k], t.flights[name].leader, outcome)
    && (Sees(Exec(c, s, steps[..k]).value, steps[k]) ==> Dropped(t, name))
  }

  lemma StillExplains(c: Config, s: State, steps: seq<Step>, k: int, t: State, step: Step, name: string,
                      outcome: Outcome<VolumeInfo>)
    requires Explains(c, s, steps, k, t, name, outcome)
    requires Enabled(c, t, step) && Rests(step, name) && Closed(Apply(c, t, step), name, outcome)
    ensures Explains(c, s, steps + [step], k, Apply(c, t, step), name, outcome)
  {
    RestKeepsAnswer(c, t, step, name, outcome);
    assert (steps + [step])[..k] == steps[..k];
    if Dropped(t, name) {
      RestKeepsDropped(c, t, step, name);
    }
  }

  // Every answer of a flight, in every run, has its reason; and a flight that has seen a volume leaves its
  // name out of the cache.
  lemma {:induction false} AnswerHasReason(c: Config, s: State, steps: seq<Step>, name: string,
                                           outcome: Outcome<VolumeInfo>)
    returns (k: int)
    requires c.Valid() && Init(s) && Exec(c, s, steps).Some? && Closed(Exec(c, s, steps).value, name, outcome)
    ensures Explains(c, s, steps, k, Exec(c, s, steps).value, name, outcome)
  {
    var n := |steps| - 1;
    var before := Exec(c, s, steps[..n]).value;
    assert steps == steps[..n] + [steps[n]];
    if Rests(steps[n], name) {
      RestKeepsAnswer(c, before, steps[n], name, outcome);
      k := AnswerHasReason(c, s, steps[..n], name, outcome);
      StillExplains(c, s, steps[..n], k, before, steps[n], name, outcome);
    } else {
      k := n;
      RunKeepsInv(c, s, steps[..n]);
      MoveHasReason(c, before, steps[n], outcome);
    }
  }

  // ---------- requests that do not pass ----------

  predicate Passes(request: Request) {
    request.accepted && GetVolumeSizeGB(request.range).Size?
  }

  // What a flight does and says for a request that does not pass: it answers InvalidArgument before anything is
  // asked of the cloud.
  predicate Vetted(f: Flight) {
    Passes(f.leader) ||
    match f.phase
    case Called => true
    case Locked => true
    case Closing(outcome, dropsCache) => outcome == Error(InvalidArgument) && !dropsCache
    case Returned(outcome) => outcome == Error(InvalidArgument)
    case _ => false
  }

  lemma StepVets(c: Config, s: State, step: Step)
    requires c.Valid() && FlightsInv(s.flights) && LocksInv(c, s) && Enabled(c, s, step)
    requires forall name | name in s.flights :: Vetted(s.flights[name])
    ensures forall name | name in Apply(c, s, step).flights :: Vetted(Apply(c, s, step).flights[name])
  {
    if step.TryLock? {
      LockIsFree(c, s, step.name);
    }
  }

  lemma {:induction false} RunVetsRequests(c: Config, s: State, steps: seq<Step>)
    requires c.Valid() && Init(s) && Exec(c, s, steps).Some?
    ensures forall name | name in Exec(c, s, steps).value.flights :: Vetted(Exec(c, s, steps).value.flights[name])
  {
    if steps == [] {
    } else {
      RunVetsRequests(c, s, steps[..|steps| - 1]);
      RunKeepsLocks(c, s, steps[..|steps| - 1]);
      StepVets(c, Exec(c, s, steps[..|steps| - 1]).value, steps[|steps| - 1]);
    }
  }
}
