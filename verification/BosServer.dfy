/**
 The BOS node service as the program runs it.  Before every call docker and other requests may act, and
 every call may fail without an effect, which ends the handler.  A ghost log ties what a handler does,
 call by call, to a run of the protocol in BosProtocol.
 */
module BosServer {
  import opened Status
  import opened BosProtocol

  datatype Inspection = Failed | Unknown | Seen(container: Container)

  // The calls that look, and where their answer leads.
  predicate Looks(phase: Phase) {
    phase.CheckPath? || phase.FindPath? || phase.FindMount? || phase.FindDir?
  }

  function AfterLook(phase: Phase, yes: bool): Phase
    requires Looks(phase)
  {
    match phase
    case CheckPath(cred) => if yes then MakeDir(cred) else MakePath(cred)
    case FindPath => if yes then FindContainer else FindDir
    case FindMount => if yes then Unmount else RemovePath
    case FindDir => if yes then RemoveDir else Unpublished
  }

  // The calls that change the file system, and what comes after them.
  predicate Acts(phase: Phase) {
    phase.MakePath? || phase.MakeDir? || phase.WriteFile? || phase.Unmount? || phase.RemovePath? || phase.RemoveDir?
  }

  function AfterAct(phase: Phase): Phase
    requires Acts(phase)
  {
    match phase
    case MakePath(cred) => MakeDir(cred)
    case MakeDir(cred) => if cred then WriteFile(cred) else Inspect(cred)
    case WriteFile(cred) => Inspect(cred)
    case Unmount => RemovePath
    case RemovePath => FindDir
    case RemoveDir => Unpublished
  }

  // The calls that change a container; removing a dead one ends the handler.
  predicate Commands(phase: Phase) {
    phase.Create? || phase.RemoveDead? || phase.Start? || phase.Stop? || phase.RemoveContainer?
  }

  function AfterCommand(phase: Phase): Phase
    requires Commands(phase) && phase != RemoveDead
  {
    match phase
    case Create(_) => InspectNew
    case Start => Wait
    case Stop => RemoveContainer
    case RemoveContainer => FindMount
  }

  ghost predicate ReadyAfter(c: Config, start: State, steps: seq<Step>, target: string) {
    && Exec(c, start, steps).Some?
    && var h := Exec(c, start, steps).value.host;
       c.containerName(target) in h.containers && Ready(h.containers[c.containerName(target)])
  }

  // Somewhere in the run, from position `from` on, the target's container was running and healthy.
  ghost predicate SeenReady(c: Config, start: State, log: seq<Step>, from: nat, target: string) {
    exists k | from <= k <= |log| :: ReadyAfter(c, start, log[..k], target)
  }

  lemma SeenReadyLasts(c: Config, start: State, log: seq<Step>, more: seq<Step>, from: nat, target: string)
    requires SeenReady(c, start, log, from, target) && log <= more
    ensures SeenReady(c, start, more, from, target)
  {
    var k :| from <= k <= |log| && ReadyAfter(c, start, log[..k], target);
    assert more[..k] == log[..k];
  }

  // At the end of a run a target's handler stands in a phase.
  predicate Stood(c: Config, start: State, steps: seq<Step>, target: string, phase: Phase) {
    && Exec(c, start, steps).Some?
    && var handlers := Exec(c, start, steps).value.handlers;
       target in handlers && handlers[target] == phase
  }

  // A run that ends with a call of the target's handler that made it give up.
  predicate GaveUp(steps: seq<Step>, target: string) {
    |steps| > 0 && (steps[|steps| - 1] == Abandon(target) || steps[|steps| - 1] == Advance(target))
  }

  class NodeServer {
    const config: Config
    // The host: file system, mounts and docker.
    var host: Host

    // The requests under way, the state at the start, and the steps since.
    ghost var handlers: map<string, Phase>
    ghost const start: State
    ghost var log: seq<Step>

    ghost predicate Valid()
      reads this
    {
      && config.Valid() && Consistent(config, start.host) && start.handlers == map[]
      && Exec(config, start, log) == Some(State(host, handlers))
    }

    constructor (config: Config, host: Host)
      requires config.Valid() && Consistent(config, host)
      ensures Valid() && log == [] && this.config == config && this.host == host && handlers == map[]
    {
      this.config := config;
      this.host := host;
      handlers := map[];
      start := State(host, map[]);
      log := [];
    }

    // Accounts for a step whose effect on the host has just taken place.
    ghost method Record(step: Step, before: State)
      requires config.Valid() && Consistent(config, start.host) && start.handlers == map[]
      requires Exec(config, start, log) == Some(before) && Enabled(before, step)
      requires host == Apply(config, before, step).host
      modifies this`handlers, this`log
      ensures Valid() && log == old(log) + [step] && handlers == Apply(config, before, step).handlers
    {
      handlers := Apply(config, before, step).handlers;
      log := log + [step];
      assert log[..|log| - 1] == old(log);
    }

    ghost predicate Stands(target: string, phase: Phase)
      reads this
    {
      Valid() && target in handlers && handlers[target] == phase
    }

    ghost method Begin(target: string, step: Step, phase: Phase)
      requires Valid() && target != "" && target !in handlers
      requires (step.BeginPublish? && step.target == target && phase == CheckPath(step.cred))
            || (step == BeginUnpublish(target) && phase == FindPath)
      modifies this`handlers, this`log
      ensures Stands(target, phase) && log == old(log) + [step]
    {
      Record(step, State(host, handlers));
    }

    // The call that was next has failed, or has made the handler give up.
    ghost predicate Over(target: string)
      reads this
    {
      Valid() && target !in handlers && GaveUp(log, target)
    }

    // Whatever docker and requests for other targets do in the meantime.
    method Interfere(ghost target: string)
      requires Valid() && target in handlers
      modifies this
      ensures Valid() && old(log) <= log
      ensures target in handlers && handlers[target] == old(handlers[target])
    {
    }

    // Whether the next call fails is the environment's choice.
    method Fails() returns (fails: bool) {
      return false;
    }

    ghost method GiveUp(target: string)
      requires Valid() && target in handlers
      modifies this`handlers, this`log
      ensures Over(target) && old(log) < log
    {
      Record(Abandon(target), State(host, handlers));
    }

    ghost method Finish(target: string, phase: Phase)
      requires Stands(target, phase) && (phase.Published? || phase.Unpublished?)
      modifies this`handlers, this`log
      ensures Valid() && target !in handlers && log == old(log) + [End(target)]
      ensures Stood(config, start, old(log), target, phase)
      ensures phase.Unpublished? ==> Clean(config, host, target)
    {
      RunKeepsInv(config, start, log);
      assert PhaseInv(config, host, target, phase);
      Record(End(target), State(host, handlers));
    }

    // ---------- file system and docker calls ----------

    // A call that looks whether something is there.
    method Look(target: string, phase: Phase) returns (ok: bool, yes: bool)
      requires Stands(target, phase) && Looks(phase)
      modifies this
      ensures old(log) < log && if ok then Stands(target, AfterLook(phase, yes)) else Over(target)
    {
      Interfere(target);
      match phase {
        case FindMount => yes := Mounts(host, target) > 0;
        case FindDir => yes := config.credentialsDir(target) in host.dirs;
        case _ => yes := target in host.paths;
      }
      var fails := Fails();
      ok := !fails;
      if ok {
        Record(Advance(target), State(host, handlers));
      } else {
        GiveUp(target);
      }
    }

    // A call to the file system that changes something, or fails without an effect.
    method Act(target: string, phase: Phase) returns (ok: bool)
      requires Stands(target, phase) && Acts(phase)
      modifies this
      ensures old(log) < log
      ensures if ok then Stands(target, AfterAct(phase)) else Over(target)
    {
      Interfere(target);
      ghost var before := State(host, handlers);
      var dir := config.credentialsDir(target);
      var fails := Fails();
      ok := !fails
         && (phase.Unmount? ==> Mounts(host, target) > 0)
         && (phase.RemovePath? ==> target in host.paths && Mounts(host, target) == 0);
      if !ok {
        GiveUp(target);
        return;
      }
      match phase {
        case MakePath(_) => host := host.(paths := host.paths + {target});
        case MakeDir(_) => host := host.(dirs := host.dirs + {dir});
        case WriteFile(_) => host := host.(files := host.files + {dir});
        case Unmount => host := host.(mounts := host.mounts[target := host.mounts[target] - 1]);
        case RemovePath => host := host.(paths := host.paths - {target});
        case RemoveDir => host := host.(dirs := host.dirs - {dir}, files := host.files - {dir});
      }
      Record(Advance(target), before);
    }

    // A call to docker that changes something, or fails without an effect.
    method Command(target: string, phase: Phase) returns (ok: bool)
      requires Stands(target, phase) && Commands(phase)
      modifies this
      ensures old(log) < log
      ensures if ok && phase != RemoveDead then Stands(target, AfterCommand(phase)) else Over(target)
    {
      Interfere(target);
      ghost var before := State(host, handlers);
      var name, containers := config.containerName(target), host.containers;
      var fails := Fails();
      ok := !fails
         && (phase.Create? ==> name !in containers)
         && (phase.Start? || phase.Stop? || phase.RemoveContainer? ==> name in containers)
         && (phase.RemoveContainer? ==> Removable(containers[name]));
      if !ok {
        GiveUp(target);
        return;
      }
      match phase {
        case Create(cred) =>
          host := host.(containers := containers[name := Container(target, cred, ContainerStatus.Created, false)]);
        case RemoveDead => host := host.(containers := containers - {name});
        case Start => host := host.(containers := containers[name := containers[name].(status := Running)]);
        case Stop => host := host.(containers := containers[name := containers[name].(status := Exited)]);
        case RemoveContainer => host := host.(containers := containers - {name});
      }
      Record(Advance(target), before);
    }

    // ContainerInspect: a failure, an absence, or the container as it is.
    method InspectContainer(target: string) returns (seen: Inspection)
      ensures var name := config.containerName(target);
              match seen
              case Failed => true
              case Unknown => name !in host.containers
              case Seen(c) => name in host.containers && c == host.containers[name]
    {
      var name := config.containerName(target);
      return if name in host.containers then Seen(host.containers[name]) else Unknown;
    }

    // ---------- MountByBOSFS ----------

    // waitForBosfsContainerReady: at most `ticks` inspections.
    method WaitUntilReady(target: string, ticks: nat) returns (ok: bool)
      requires Stands(target, Wait)
      modifies this
      ensures old(log) < log && if ok then Stands(target, Published) else Over(target)
      ensures ok ==> SeenReady(config, start, log, |old(log)|, target)
    {
      var left := ticks;
      while left > 0
        invariant Stands(target, Wait) && old(log) <= log
      {
        Interfere(target);
        ghost var before := State(host, handlers);
        ghost var logged := log;
        var seen := InspectContainer(target);
        if !seen.Seen? {
          GiveUp(target);
          return false;
        }
        Record(Advance(target), before);
        if seen.container.status == Running && seen.container.healthy {
          assert log[..|logged|] == logged;
          assert ReadyAfter(config, start, log[..|logged|], target);
          return true;
        }
        left := left - 1;
      }
      GiveUp(target);
      ok := false;
    }

    // Starting a container and waiting for it.
    method StartAndWait(target: string, ticks: nat) returns (ok: bool)
      requires Stands(target, Start)
      modifies this
      ensures old(log) < log && if ok then Stands(target, Published) else Over(target)
      ensures ok ==> SeenReady(config, start, log, |old(log)|, target)
    {
      ok := Command(target, Start);
      if ok {
        ok := WaitUntilReady(target, ticks);
      }
    }

    // One inspection, and what its result leads to.
    method InspectAndAct(target: string, phase: Phase, ticks: nat) returns (ok: bool, missing: bool)
      requires Stands(target, phase) && (phase.Inspect? || phase.InspectNew?)
      modifies this
      ensures old(log) < log
      ensures missing ==> !ok && phase.Inspect? && Stands(target, Create(phase.cred))
      ensures !missing ==> if ok then Stands(target, Published) else Over(target)
      ensures ok ==> SeenReady(config, start, log, |old(log)|, target)
    {
      missing := false;
      Interfere(target);
      ghost var before := State(host, handlers);
      ghost var logged := log;
      var seen := InspectContainer(target);
      if seen.Failed? {
        GiveUp(target);
        return false, false;
      }
      Record(Advance(target), before);
      if seen.Unknown? {
        return false, phase.Inspect?;
      }
      assert log[..|logged|] == logged;
      var c := seen.container;
      match c.status
      case Exited =>
        var removed := Command(target, RemoveDead);
        ok := false;
      case Dead =>
        var removed := Command(target, RemoveDead);
        ok := false;
      case Restarting =>
        ok := false;
      case Removing =>
        ok := false;
      case Running =>
        if c.healthy {
          assert ReadyAfter(config, start, log[..|logged|], target);
          return true, false;
        }
        ok := WaitUntilReady(target, ticks);
      case Created =>
        ok := StartAndWait(target, ticks);
      case Paused =>
        ok := StartAndWait(target, ticks);
      case OtherStatus =>
        ok := WaitUntilReady(target, ticks);
    }

    method MountByBOSFS(target: string, cred: bool, ticks: nat) returns (ok: bool)
      requires Stands(target, Inspect(cred))
      modifies this
      ensures old(log) < log && if ok then Stands(target, Published) else Over(target)
      ensures ok ==> SeenReady(config, start, log, |old(log)|, target)
    {
      var missing;
      ok, missing := InspectAndAct(target, Inspect(cred), ticks);
      if missing {
        ok := Command(target, Create(cred));
        if ok {
          ok, missing := InspectAndAct(target, InspectNew, ticks);
        }
      }
    }

    method EnsureTarget(target: string, cred: bool) returns (ok: bool)
      requires Stands(target, CheckPath(cred))
      modifies this
      ensures old(log) < log && if ok then Stands(target, MakeDir(cred)) else Over(target)
    {
      var exist;
      ok, exist := Look(target, CheckPath(cred));
      if ok && !exist {
        ok := Act(target, MakePath(cred));
      }
    }

    method EnsureCredentials(target: string, cred: bool) returns (ok: bool)
      requires Stands(target, MakeDir(cred))
      modifies this
      ensures old(log) < log && if ok then Stands(target, Inspect(cred)) else Over(target)
    {
      ok := Act(target, MakeDir(cred));
      if ok && cred {
        ok := Act(target, WriteFile(cred));
      }
    }

    // The effects of publishing, in their order: target path, credentials, container.
    method Publish(target: string, cred: bool, ticks: nat) returns (ok: bool)
      requires Stands(target, CheckPath(cred))
      modifies this
      ensures old(log) < log && if ok then Stands(target, Published) else Over(target)
      ensures ok ==> SeenReady(config, start, log, |old(log)|, target)
    {
      ok := EnsureTarget(target, cred);
      if ok {
        ok := EnsureCredentials(target, cred);
      }
      if ok {
        ok := MountByBOSFS(target, cred, ticks);
      }
    }

    // The request from its beginning to its end.
    method ServePublish(target: string, cred: bool, ticks: nat) returns (outcome: Outcome<()>)
      requires Valid() && target != "" && target !in handlers
      modifies this
      ensures Valid() && target !in handlers && old(log) + [BeginPublish(target, cred)] < log
      ensures if outcome.Done? then
                log[|log| - 1] == End(target) && Stood(config, start, log[..|log| - 1], target, Published)
              else outcome == Error(Internal) && GaveUp(log, target)
      ensures outcome.Done? ==> SeenReady(config, start, log, |old(log)|, target)
    {
      Begin(target, BeginPublish(target, cred), CheckPath(cred));
      var ok := Publish(target, cred, ticks);
      if !ok {
        return Error(Internal);
      }
      ghost var logged := log;
      Finish(target, Published);
      SeenReadyLasts(config, start, logged, log, |old(log)|, target);
      return Done(());
    }

    // NodePublishVolume.  `verdict` is what the checks of the request and of the bucket say, before any
    // effect.  Success means that the container was seen running and healthy during the call.
    method NodePublishVolume(target: string, verdict: Option<Code>, cred: bool, ticks: nat)
      returns (outcome: Outcome<()>)
      requires Valid() && target !in handlers
      modifies this
      ensures Valid() && target !in handlers && old(log) <= log
      ensures if target == "" || verdict.Some? then
                && outcome == Error(if target == "" then InvalidArgument else verdict.value)
                && host == old(host) && log == old(log)
              else
                && old(log) + [BeginPublish(target, cred)] < log
                && if outcome.Done? then
                     log[|log| - 1] == End(target) && Stood(config, start, log[..|log| - 1], target, Published)
                   else outcome == Error(Internal) && GaveUp(log, target)
      ensures outcome.Done? ==> SeenReady(config, start, log, |old(log)|, target)
    {
      if target == "" {
        return Error(InvalidArgument);
      }
      if verdict.Some? {
        return Error(verdict.value);
      }
      outcome := ServePublish(target, cred, ticks);
    }

    // ---------- NodeUnpublishVolume ----------

    method LookForContainer(target: string) returns (ok: bool, next: Phase)
      requires Stands(target, FindContainer)
      modifies this
      ensures old(log) < log && if ok then Stands(target, next) else Over(target)
      ensures next == FindMount || next == Stop || next == RemoveContainer
    {
      Interfere(target);
      ghost var before := State(host, handlers);
      var seen := InspectContainer(target);
      next := FindMount;
      ok := !seen.Failed?;
      if ok {
        if seen.Seen? {
          next := if seen.container.status == Running then Stop else RemoveContainer;
        }
        Record(Advance(target), before);
      } else {
        GiveUp(target);
      }
    }

    // Stop and remove the container if there is one.
    method DiscardContainer(target: string) returns (ok: bool)
      requires Stands(target, FindContainer)
      modifies this
      ensures old(log) < log && if ok then Stands(target, FindMount) else Over(target)
    {
      var next;
      ok, next := LookForContainer(target);
      if ok && next == Stop {
        ok := Command(target, Stop);
      }
      if ok && next != FindMount {
        ok := Command(target, RemoveContainer);
      }
    }

    method DiscardMount(target: string) returns (ok: bool)
      requires Stands(target, FindMount)
      modifies this
      ensures old(log) < log && if ok then Stands(target, RemovePath) else Over(target)
    {
      var mounted;
      ok, mounted := Look(target, FindMount);
      if ok && mounted {
        ok := Act(target, Unmount);
      }
    }

    method UnmountFromBOSFS(target: string) returns (ok: bool)
      requires Stands(target, FindContainer)
      modifies this
      ensures old(log) < log && if ok then Stands(target, RemovePath) else Over(target)
    {
      ok := DiscardContainer(target);
      if ok {
        ok := DiscardMount(target);
      }
    }

    method ClearTarget(target: string) returns (ok: bool)
      requires Stands(target, FindContainer)
      modifies this
      ensures old(log) < log && if ok then Stands(target, FindDir) else Over(target)
    {
      ok := UnmountFromBOSFS(target);
      if ok {
        ok := Act(target, RemovePath);
      }
    }

    method ClearCredentials(target: string) returns (ok: bool)
      requires Stands(target, FindDir)
      modifies this
      ensures old(log) < log && if ok then Stands(target, Unpublished) else Over(target)
    {
      var left;
      ok, left := Look(target, FindDir);
      if ok && left {
        ok := Act(target, RemoveDir);
      }
    }

    // The effects of unpublishing, in their order: container, mount and target path, then credentials.
    method Unpublish(target: string) returns (ok: bool)
      requires Stands(target, FindPath)
      modifies this
      ensures old(log) < log && if ok then Stands(target, Unpublished) else Over(target)
    {
      var exist;
      ok, exist := Look(target, FindPath);
      if ok && exist {
        ok := ClearTarget(target);
      }
      if ok {
        ok := ClearCredentials(target);
      }
    }

    // The request from its beginning to its end.
    method ServeUnpublish(target: string) returns (outcome: Outcome<()>)
      requires Valid() && target != "" && target !in handlers
      modifies this
      ensures Valid() && target !in handlers && old(log) + [BeginUnpublish(target)] < log
      ensures if outcome.Done? then
                log[|log| - 1] == End(target) && Stood(config, start, log[..|log| - 1], target, Unpublished)
              else outcome == Error(Internal) && GaveUp(log, target)
      ensures outcome.Done? ==> Clean(config, host, target)
    {
      Begin(target, BeginUnpublish(target), FindPath);
      var ok := Unpublish(target);
      if !ok {
        return Error(Internal);
      }
      Finish(target, Unpublished);
      return Done(());
    }

    // NodeUnpublishVolume: success leaves no container, mount, path or credentials of the target, whatever
    // earlier requests had left there.
    method NodeUnpublishVolume(target: string) returns (outcome: Outcome<()>)
      requires Valid() && target !in handlers
      modifies this
      ensures Valid() && target !in handlers && old(log) <= log
      ensures if target == "" then outcome == Error(InvalidArgument) && host == old(host) && log == old(log)
              else
                && old(log) + [BeginUnpublish(target)] < log
                && if outcome.Done? then
                     log[|log| - 1] == End(target) && Stood(config, start, log[..|log| - 1], target, Unpublished)
                   else outcome == Error(Internal) && GaveUp(log, target)
      ensures outcome.Done? ==> Clean(config, host, target)
    {
      if target == "" {
        return Error(InvalidArgument);
      }
      outcome := ServeUnpublish(target);
    }
  }
}
