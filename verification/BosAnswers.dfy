/**
 Where containers and credentials files come from, and why a publish handler does what it does with a container.
 In every run each goes back to one step and to what docker showed at that step, said here in terms of the
 container alone.
 */
module BosAnswers {
  import opened Status
  import opened BosProtocol

  // ---------- origins ----------

  // Step k is a call of the target's handler, which stands in the phase.
  predicate CallsIn(c: Config, s: State, steps: seq<Step>, k: int, target: string, phase: Phase) {
    && 0 <= k < |steps| && steps[k] == Advance(target) && Exec(c, s, steps[..k]).Some?
    && target in Exec(c, s, steps[..k]).value.handlers && Exec(c, s, steps[..k]).value.handlers[target] == phase
  }

  lemma CallsInLonger(c: Config, s: State, steps: seq<Step>, k: int, target: string, phase: Phase)
    requires steps != [] && CallsIn(c, s, steps[..|steps| - 1], k, target, phase)
    ensures CallsIn(c, s, steps, k, target, phase)
  {
    assert steps[..|steps| - 1][..k] == steps[..k];
  }

  // A container that is there was there from the start, made for the same target with the same credentials, or
  // was made by a publish handler of its target; and it reads a credentials file exactly when the request
  // had credentials.
  lemma {:induction false} ContainerWasMade(c: Config, s: State, steps: seq<Step>, name: string) returns (k: int)
    requires Exec(c, s, steps).Some? && name in Exec(c, s, steps).value.host.containers
    ensures var made := Exec(c, s, steps).value.host.containers[name];
            || (name in s.host.containers
                && s.host.containers[name].target == made.target && s.host.containers[name].usesFile == made.usesFile)
            || (c.containerName(made.target) == name && CallsIn(c, s, steps, k, made.target, Create(made.usesFile)))
  {
    k := 0;
    if steps == [] {
    } else {
      var n := |steps| - 1;
      var before := Exec(c, s, steps[..n]).value;
      var made := Exec(c, s, steps).value.host.containers[name];
      if name in before.host.containers && before.host.containers[name].target == made.target
         && before.host.containers[name].usesFile == made.usesFile
      {
        k := ContainerWasMade(c, s, steps[..n], name);
        if CallsIn(c, s, steps[..n], k, made.target, Create(made.usesFile)) {
          CallsInLonger(c, s, steps, k, made.target, Create(made.usesFile));
        }
      } else {
        k := n;
        OnlyCreateMakes(c, before, steps[n], name);
      }
    }
  }

  lemma OnlyCreateMakes(c: Config, s: State, step: Step, name: string)
    requires Enabled(s, step) && name in Apply(c, s, step).host.containers
    requires var made := Apply(c, s, step).host.containers[name];
             !(name in s.host.containers
               && s.host.containers[name].target == made.target && s.host.containers[name].usesFile == made.usesFile)
    ensures var made := Apply(c, s, step).host.containers[name];
            && step == Advance(made.target) && c.containerName(made.target) == name
            && made.target in s.handlers && s.handlers[made.target] == Create(made.usesFile)
  {}

  // A credentials file that is there was there from the start, or was written for a request with credentials.
  lemma {:induction false} FileWasWritten(c: Config, s: State, steps: seq<Step>, dir: string)
    returns (k: int, target: string)
    requires c.Valid() && Consistent(c, s.host) && s.handlers == map[]
    requires Exec(c, s, steps).Some? && dir in Exec(c, s, steps).value.host.files
    ensures dir in s.host.files || (c.credentialsDir(target) == dir && CallsIn(c, s, steps, k, target, WriteFile(true)))
  {
    k, target := 0, "";
    if steps == [] {
    } else {
      var n := |steps| - 1;
      var before := Exec(c, s, steps[..n]).value;
      if dir in before.host.files {
        k, target := FileWasWritten(c, s, steps[..n], dir);
        if CallsIn(c, s, steps[..n], k, target, WriteFile(true)) {
          CallsInLonger(c, s, steps, k, target, WriteFile(true));
        }
      } else {
        k, target := n, steps[n].target;
        RunKeepsInv(c, s, steps[..n]);
        assert PhaseInv(c, before.host, target, before.handlers[target]);
      }
    }
  }

  // ---------- reasons ----------

  // What an inspection that shows a container leads to.
  predicate StatusSays(k: Container, phase: Phase) {
    && (phase == RemoveDead <==> k.status in {Exited, Dead})
    && (phase == Start <==> k.status in {ContainerStatus.Created, Paused})
    && (phase == Published <==> k.status == Running && k.healthy)
    && (phase == Wait <==> (k.status == Running && !k.healthy) || k.status == OtherStatus)
  }

  // A call of the handler, in a state, that brings it to where it removes, starts or waits for its container.
  predicate Leads(c: Config, s: State, target: string, phase: Phase) {
    && target in s.handlers
    && match s.handlers[target]
       case Inspect(_) => c.containerName(target) in s.host.containers
                          && StatusSays(s.host.containers[c.containerName(target)], phase)
       case InspectNew => c.containerName(target) in s.host.containers
                          && StatusSays(s.host.containers[c.containerName(target)], phase)
       case Start => phase == Wait
       case _ => false
  }

  // From then on the handler has at most looked again.
  predicate Rests(step: Step, target: string, phase: Phase) {
    !Bounds(step, target) && (step == Advance(target) ==> phase == Wait)
  }

  lemma LeadsOrRests(c: Config, s: State, step: Step, target: string)
    requires Enabled(s, step) && target in Apply(c, s, step).handlers
    requires Apply(c, s, step).handlers[target] in {RemoveDead, Start, Wait}
    ensures var phase := Apply(c, s, step).handlers[target];
            || (step == Advance(target) && Leads(c, s, target, phase))
            || (Rests(step, target, phase) && target in s.handlers && s.handlers[target] == phase)
  {}

  // Step k is why a handler stands in a phase at the end of the run.
  predicate Explains(c: Config, s: State, steps: seq<Step>, k: int, target: string, phase: Phase) {
    && 0 <= k < |steps| && steps[k] == Advance(target) && Exec(c, s, steps[..k]).Some?
    && Leads(c, Exec(c, s, steps[..k]).value, target, phase)
    && forall j | k < j < |steps| :: Rests(steps[j], target, phase)
  }

  lemma StillExplains(c: Config, s: State, steps: seq<Step>, k: int, target: string, phase: Phase)
    requires steps != [] && Explains(c, s, steps[..|steps| - 1], k, target, phase)
    requires Rests(steps[|steps| - 1], target, phase)
    ensures Explains(c, s, steps, k, target, phase)
  {
    var front := steps[..|steps| - 1];
    assert front[..k] == steps[..k] && steps[k] == front[k];
    forall j | k < j < |steps| ensures Rests(steps[j], target, phase) {
      if j < |front| {
        assert steps[j] == front[j];
      }
    }
  }

  // A handler that is about to remove, start or wait for its container has its reason: it has just seen the
  // container dead, seen it created or paused, started it, or seen it running but not healthy.
  lemma {:induction false} HandlerHasReason(c: Config, s: State, steps: seq<Step>, target: string) returns (k: int)
    requires s.handlers == map[] && Exec(c, s, steps).Some? && target in Exec(c, s, steps).value.handlers
    requires Exec(c, s, steps).value.handlers[target] in {RemoveDead, Start, Wait}
    ensures Explains(c, s, steps, k, target, Exec(c, s, steps).value.handlers[target])
  {
    var n := |steps| - 1;
    var before, phase := Exec(c, s, steps[..n]).value, Exec(c, s, steps).value.handlers[target];
    LeadsOrRests(c, before, steps[n], target);
    if steps[n] == Advance(target) && Leads(c, before, target, phase) {
      k := n;
    } else {
      k := HandlerHasReason(c, s, steps[..n], target);
      StillExplains(c, s, steps, k, target, phase);
    }
  }

  // ---------- one call from any state of the container ----------

  // A publish call left to itself succeeds, at the first attempt, unless the container is exited, dead,
  // restarting or being removed.  In the first two cases it is gone afterwards, in the others it is left alone.
  lemma PublishOnceExactlyWhen(c: Config, h: Host, target: string, cred: bool)
    ensures var name := c.containerName(target);
            var (g, end) := Drive(c, h, target, CheckPath(cred));
            var status := if name in h.containers then h.containers[name].status else ContainerStatus.Created;
            && (end == Some(Published) <==> status !in {Exited, Dead, Restarting, Removing})
            && (status in {Exited, Dead} ==> name !in g.containers)
            && (status in {Restarting, Removing} ==> name in g.containers && g.containers[name] == h.containers[name])
            && (end == Some(Published) ==> name in g.containers && Ready(g.containers[name]))
  {
    DriveToInspect(c, h, target, cred);
    var a: Host :| a.containers == h.containers
        && Drive(c, h, target, CheckPath(cred)) == Drive(c, a, target, Inspect(cred));
    InspectOnce(c, a, target, cred);
  }

  lemma InspectOnce(c: Config, h: Host, target: string, cred: bool)
    ensures var name := c.containerName(target);
            var (g, end) := Drive(c, h, target, Inspect(cred));
            var status := if name in h.containers then h.containers[name].status else ContainerStatus.Created;
            && (end == Some(Published) <==> status !in {Exited, Dead, Restarting, Removing})
            && (status in {Exited, Dead} ==> name !in g.containers)
            && (status in {Restarting, Removing} ==> name in g.containers && g.containers[name] == h.containers[name])
            && (end == Some(Published) ==> name in g.containers && Ready(g.containers[name]))
  {
    var name := c.containerName(target);
    if name !in h.containers || h.containers[name].status in {ContainerStatus.Created, Running, Exited, Dead} {
      DriveInspect(c, h, target, cred);
    } else if h.containers[name].status == Paused {
      assert Drive(c, h, target, Inspect(cred)) == Drive(c, h, target, Start)
          == Drive(c, AfterCall(c, h, target, Start), target, Wait);
    } else if h.containers[name].status == OtherStatus {
      assert Drive(c, h, target, Inspect(cred)) == Drive(c, h, target, Wait);
    } else {
      assert NextPhase(c, h, target, Inspect(cred)) == None;
    }
  }
}
