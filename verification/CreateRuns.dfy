/**
 What the environment of CreateVolume decides: which clouds and controllers keep every run to one volume
 for each name, which of them answer with the size that was asked for, and which do both.
 */
module CreateRuns {
  import opened Status
  import opened Capacity
  import opened CreateProtocol

  const EMPTY: State := State(map[], {}, {}, map[], 0)
  const ASK: Request := Request("pvc", Unset, true, "")
  const ASK_FOR_MORE: Request := Request("pvc", Range(200 * GB, 0), true, "")

  // ---------- building runs ----------

  // One more step of a run, to a state that is known.
  lemma Take(c: Config, steps: seq<Step>, s: State, step: Step, t: State) returns (more: seq<Step>)
    requires Exec(c, EMPTY, steps) == Some(s) && Enabled(c, s, step) && Apply(c, s, step) == t
    ensures Exec(c, EMPTY, more) == Some(t)
  {
    more := steps + [step];
    assert more[..|more| - 1] == steps;
  }

  // A state in which one flight is at work.
  function Alone(s: State, f: Flight): State {
    s.(flights := map[f.leader.name := f])
  }

  // The only flight takes a step.
  lemma Move(c: Config, steps: seq<Step>, s: State, f: Flight, step: Step)
    returns (more: seq<Step>, t: State, g: Flight)
    requires Exec(c, EMPTY, steps) == Some(Alone(s, f)) && Moves(step) && step.name == f.leader.name
        && Enabled(c, Alone(s, f), step)
    ensures Exec(c, EMPTY, more) == Some(Alone(t, g))
    ensures g == Flight(f.leader, NextPhase(c, Alone(s, f), step), TimerAfter(f.timer, s.clock, step))
    ensures t == s.(cloud := CloudAfter(c, Alone(s, f), step), cache := CacheAfter(c, Alone(s, f), step),
                    held := HeldAfter(c, Alone(s, f), step))
  {
    var a := Alone(s, f);
    t := s.(cloud := CloudAfter(c, a, step), cache := CacheAfter(c, a, step), held := HeldAfter(c, a, step));
    g := Flight(f.leader, NextPhase(c, a, step), TimerAfter(f.timer, s.clock, step));
    assert a.flights[step.name := g] == map[step.name := g];
    more := Take(c, steps, a, step, Alone(t, g));
  }

  // Nobody is at work, and nothing of the name is to be seen.
  predicate Idle(s: State) {
    s.cache == {} && s.held == {} && s.flights == map[] && Listed(s.cloud, ASK.name) == {}
  }

  // A request that passes the checks, for so many gigabytes.
  predicate Asks(request: Request, gb: int64) {
    request.name == ASK.name && request.accepted && GetVolumeSizeGB(request.range) == Size(gb)
  }

  lemma TheyAsk()
    ensures Asks(ASK, 100) && Asks(ASK_FOR_MORE, 200)
  {
    RoundUpExactlyWhen(200 * GB);
  }

  // The handler up to the listing, and up to the end of the create call.
  lemma OpeningPass(c: Config, steps: seq<Step>, s: State, request: Request, gb: int64)
    returns (more: seq<Step>, t: State, f: Flight)
    requires Asks(request, gb) && Exec(c, EMPTY, steps) == Some(s) && Idle(s)
    ensures Exec(c, EMPTY, more) == Some(Alone(t, f))
    ensures f == Flight(request, Listing(gb, {}), Timers.Begin(s.clock, None)) && t == s.(held := {c.text(request)})
  {
    t, f := s, Flight(request, Called, Timers.Begin(s.clock, None));
    more := Take(c, steps, s, Enter(request, None), Alone(t, f));
    more, t, f := Move(c, more, t, f, TryLock(request.name));
    more, t, f := Move(c, more, t, f, CheckArgs(request.name));
    more, t, f := Move(c, more, t, f, StartList(request.name));
  }

  lemma CreatePass(c: Config, steps: seq<Step>, s: State, request: Request, gb: int64, reply: CreateReply)
    returns (more: seq<Step>, t: State, f: Flight)
    requires Asks(request, gb) && Exec(c, EMPTY, steps) == Some(s) && Idle(s)
    requires reply.Made? && CanMake(c, s.cloud, request.name, reply)
    ensures Exec(c, EMPTY, more) == Some(Alone(t, f))
    ensures t == s.(cloud := AfterCreate(c, s.cloud, request.name, gb, reply), held := {c.text(request)})
    ensures f == Flight(request, if reply.reported then Created(reply.id, gb) else Closing(Error(Internal), false),
                        Timers.Begin(s.clock, None))
  {
    more, t, f := OpeningPass(c, steps, s, request, gb);
    more, t, f := Move(c, more, t, f, List(request.name, {}, false));
    more, t, f := Move(c, more, t, f, LoadCache(request.name));
    more, t, f := Move(c, more, t, f, Create(request.name, reply));
  }

  // The end of a flight.
  lemma EndPass(c: Config, steps: seq<Step>, s: State, f: Flight) returns (more: seq<Step>)
    requires Exec(c, EMPTY, steps) == Some(Alone(s, f))
    requires f.phase.Returned? && !f.phase.outcome.IsAborted() && f.timer.finish.None?
    ensures Exec(c, EMPTY, more) == Some(s.(flights := map[]))
  {
    var name, t, g := f.leader.name, s, f;
    more, t, g := Move(c, steps, s, f, Return(name));
    assert Alone(t, g).flights - {name} == map[];
    more := Take(c, more, Alone(t, g), Leave(name), s.(flights := map[]));
  }

  // The deferred calls, and the end.
  lemma LeavePass(c: Config, steps: seq<Step>, s: State, f: Flight) returns (more: seq<Step>, t: State)
    requires Exec(c, EMPTY, steps) == Some(Alone(s, f)) && s.held == {c.text(f.leader)}
    requires f.phase.Closing? && !f.phase.outcome.IsAborted() && f.timer.finish.None?
    requires s.cache == if f.phase.dropsCache then {f.leader.name} else {}
    ensures Exec(c, EMPTY, more) == Some(t) && t == s.(cache := {}, held := {}, flights := map[])
  {
    more, t := steps, s;
    var g := f;
    if f.phase.dropsCache {
      more, t, g := Move(c, more, t, g, Drop(f.leader.name));
    }
    more, t, g := Move(c, more, t, g, Unlock(f.leader.name));
    more := EndPass(c, more, t, g);
    t := t.(flights := map[]);
  }

  // Each threat alone leads to a volume "a" that is not listed and that the controller has forgotten.
  lemma ForgottenVolume(c: Config) returns (steps: seq<Step>, s: State)
    requires !c.Reliable()
    ensures Exec(c, EMPTY, steps) == Some(s) && Idle(s)
    ensures var readable := !c.losesReplies && c.readsAhead;
            s.cloud == map["a" := Volume(ASK.name, c.ClientToken(ASK.name), 100, false, false, readable)]
  {
    TheyAsk();
    assert Idle(EMPTY) && WithToken(EMPTY.cloud, c.ClientToken(ASK.name)) == {};
    var f;
    steps, s, f := CreatePass(c, [], EMPTY, ASK, 100,
        Made("a", !c.losesReplies, false, false, !c.losesReplies && c.readsAhead));
    if c.losesReplies {
      steps, s := LeavePass(c, steps, s, f);
    } else if c.restarts {
      var t := s.(cache := {}, held := {}, flights := map[]);
      steps := Take(c, steps, Alone(s, f), Restart, t);
      s := t;
    } else {
      steps, s, f := Move(c, steps, s, f, Store(ASK.name));
      steps, s, f := Move(c, steps, s, f, Fetch(ASK.name, false));
      steps, s := LeavePass(c, steps, s, f);
    }
    assert Listed(s.cloud, ASK.name) == {};
  }

  // ---------- one volume for each name ----------

  ghost predicate OnePerName(c: Config) {
    forall s, steps | Init(s) && Exec(c, s, steps).Some? :: DistinctNames(Exec(c, s, steps).value.cloud)
  }

  // Without deduplication, each threat alone has a run that ends with two volumes of one name.
  lemma DuplicatingRun(c: Config) returns (steps: seq<Step>)
    requires !c.dedup && !c.Reliable()
    ensures Exec(c, EMPTY, steps).Some? && !DistinctNames(Exec(c, EMPTY, steps).value.cloud)
  {
    TheyAsk();
    var s, t, f;
    steps, s := ForgottenVolume(c);
    steps, t, f := CreatePass(c, steps, s, ASK, 100, Made("b", true, false, false, false));
    assert t.cloud["a"].name == t.cloud["b"].name;
  }

  // The exact condition: runs are kept to one volume per name by a cloud that deduplicates on the
  // client token, or else by the absence of all three threats.
  lemma OnePerNameExactlyWhen(c: Config)
    requires c.Valid()
    ensures OnePerName(c) <==> c.dedup || c.Reliable()
  {
    if c.dedup || c.Reliable() {
      forall s, steps | Init(s) && Exec(c, s, steps).Some? ensures DistinctNames(Exec(c, s, steps).value.cloud) {
        RunKeepsInv(c, s, steps);
      }
    } else {
      var steps := DuplicatingRun(c);
      assert Init(EMPTY);
    }
  }

  // ---------- the size that was asked for ----------

  // A flight about to return a volume returns one of the size that its leader's range stands for.
  predicate SizedAnswer(t: State, name: string) {
    name in t.flights && t.flights[name].phase.Returned? && t.flights[name].phase.outcome.Done? ==>
      && t.flights[name].phase.outcome.value.id in t.cloud
      && GetVolumeSizeGB(t.flights[name].leader.range) == Size(t.cloud[t.flights[name].phase.outcome.value.id].sizeGB)
  }

  ghost predicate SizesTrue(c: Config) {
    forall s, steps, name | Init(s) && Exec(c, s, steps).Some? :: SizedAnswer(Exec(c, s, steps).value, name)
  }

  // The handler from the end of the create call on, for the volume "a" that comes into sight just then.
  lemma FetchPass(c: Config, steps: seq<Step>, s: State, f: Flight) returns (more: seq<Step>, t: State, g: Flight)
    requires Exec(c, EMPTY, steps) == Some(Alone(s, f)) && f.phase.Created? && f.phase.id == "a"
    requires "a" in s.cloud && !s.cloud["a"].creating
    ensures Exec(c, EMPTY, more) == Some(Alone(t, g))
    ensures g == f.(phase := Returned(Done(VolumeInfo("a", SizeGBToBytes(s.cloud["a"].sizeGB)))))
    ensures t.cloud == s.cloud["a" := Shown(s.cloud["a"], true, true)]
  {
    var name := f.leader.name;
    more, t, g := Move(c, steps, s, f, Store(name));
    var u := t.(cloud := t.cloud["a" := Shown(t.cloud["a"], true, true)]);
    more := Take(c, more, Alone(t, g), Surface("a", true, true), Alone(u, g));
    more, t, g := Move(c, more, u, g, Fetch(name, false));
    more, t, g := Move(c, more, t, g, Drop(name));
    more, t, g := Move(c, more, t, g, Unlock(name));
  }

  // After the create call the handler never compares sizes.  So with deduplication and a threat, a
  // request for 200 GB is answered with the 100 GB volume that an earlier request made for the token.
  lemma MissizedRun(c: Config) returns (steps: seq<Step>, t: State, f: Flight)
    requires c.dedup && !c.Reliable()
    ensures Exec(c, EMPTY, steps) == Some(Alone(t, f)) && f.leader == ASK_FOR_MORE
    ensures f.phase == Returned(Done(VolumeInfo("a", SizeGBToBytes(100))))
    ensures "a" in t.cloud && t.cloud["a"].sizeGB == 100 && GetVolumeSizeGB(ASK_FOR_MORE.range) == Size(200)
  {
    TheyAsk();
    var s;
    steps, s := ForgottenVolume(c);
    assert "a" in WithToken(s.cloud, c.ClientToken(ASK_FOR_MORE.name));
    steps, t, f := CreatePass(c, steps, s, ASK_FOR_MORE, 200, Made("a", true, false, false, false));
    steps, t, f := FetchPass(c, steps, t, f);
  }

  // The exact condition for sizes: no threat, or a cloud that does not deduplicate.
  lemma SizesTrueExactlyWhen(c: Config)
    requires c.Valid()
    ensures SizesTrue(c) <==> c.Reliable() || !c.dedup
  {
    if c.Sized() {
      forall s, steps, name | Init(s) && Exec(c, s, steps).Some? ensures SizedAnswer(Exec(c, s, steps).value, name) {
        RunAnswersTruthfully(c, s, steps, name);
      }
    } else {
      var steps, t, f := MissizedRun(c);
      assert Init(EMPTY) && !SizedAnswer(Alone(t, f), ASK_FOR_MORE.name);
    }
  }

  // Deduplication trades one guarantee for the other: both hold only where no threat is.
  lemma BothExactlyWhenReliable(c: Config)
    requires c.Valid()
    ensures OnePerName(c) && SizesTrue(c) <==> c.Reliable()
  {
    OnePerNameExactlyWhen(c);
    SizesTrueExactlyWhen(c);
  }

  // ---------- progress ----------

  // The only volume of a name is listed and out of its creating state.
  predicate InSight(s: State, name: string, id: string) {
    && id in s.cloud && s.cloud[id].name == name && s.cloud[id].listed && !s.cloud[id].creating
    && forall i | i in s.cloud && s.cloud[i].name == name :: i == id
  }

  // What the handler then answers.
  function TheAnswer(s: State, id: string, gb: int64): Outcome<VolumeInfo>
    requires id in s.cloud
  {
    if s.cloud[id].sizeGB == gb then Done(VolumeInfo(id, SizeGBToBytes(gb))) else Error(AlreadyExists)
  }

  // A call of the handler that is on its way to that answer, or has given it.
  predicate OnTheWay(s: State, name: string, id: string, gb: int64) {
    && InSight(s, name, id)
    && name in s.flights
    && s.flights[name].leader.accepted && GetVolumeSizeGB(s.flights[name].leader.range) == Size(gb)
    && match s.flights[name].phase
       case Called => true
       case Locked => true
       case Checked(g) => g == gb
       case Listing(g, seen) => g == gb && seen == {id}
       case Closing(outcome, _) => outcome == TheAnswer(s, id, gb)
       case Returned(outcome) => outcome == TheAnswer(s, id, gb)
       case _ => false
  }

  // Anything may happen but a restart, a failing list call of the flight, and its end.
  predicate Undisturbed(step: Step, name: string) {
    !step.Restart? && !(step.List? && step.name == name && step.fault) && step != Leave(name)
  }

  lemma MoveKeepsOnTheWay(c: Config, s: State, step: Step, name: string, id: string, gb: int64)
    requires c.Valid() && Inv(c, s) && Moves(step) && step.name == name && Enabled(c, s, step)
        && Undisturbed(step, name)
    requires OnTheWay(s, name, id, gb)
    ensures OnTheWay(Apply(c, s, step), name, id, gb)
  {
    assert PhaseInv(c, s, name);
    assert Listed(s.cloud, name) == {id};
    if step.TryLock? {
      LockIsFree(c, s, name);
    } else if step.List? {
      assert step.found == {id} && TheOne({id}) == id;
    }
  }

  lemma StepKeepsOnTheWay(c: Config, s: State, step: Step, name: string, id: string, gb: int64)
    requires c.Valid() && Inv(c, s) && Enabled(c, s, step) && Undisturbed(step, name)
    requires OnTheWay(s, name, id, gb)
    ensures OnTheWay(Apply(c, s, step), name, id, gb)
  {
    var t := Apply(c, s, step);
    if Moves(step) && step.name == name {
      MoveKeepsOnTheWay(c, s, step, name, id, gb);
    } else {
      StepLeavesOthers(c, s, step, name);
      assert forall i | i in t.cloud && t.cloud[i].name == name :: i in s.cloud && s.cloud[i].name == name;
    }
  }

  // Once the volume is in sight, the next call of the handler answers with it, or with AlreadyExists when
  // it has another size, whatever other flights, callers and the cloud do in between.
  lemma {:induction false} AnswersOnceInSight(c: Config, s: State, steps: seq<Step>, name: string, id: string,
                                              gb: int64)
    requires c.Valid() && Inv(c, s) && OnTheWay(s, name, id, gb)
    requires Exec(c, s, steps).Some? && forall step | step in steps :: Undisturbed(step, name)
    ensures var t := Exec(c, s, steps).value;
            && Inv(c, t) && OnTheWay(t, name, id, gb)
            && (t.flights[name].phase.Returned? ==> t.flights[name].phase.outcome == TheAnswer(t, id, gb))
  {
    if steps == [] {
    } else {
      var front, last := steps[..|steps| - 1], steps[|steps| - 1];
      AnswersOnceInSight(c, s, front, name, id, gb);
      StepKeepsInv(c, Exec(c, s, front).value, last);
      StepKeepsOnTheWay(c, Exec(c, s, front).value, last, name, id, gb);
    }
  }
}
