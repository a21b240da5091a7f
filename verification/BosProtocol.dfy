/**
 Publishing and unpublishing of BOS buckets as a protocol: every call to the file system or to docker is
 a step of its own, a handler may be abandoned at any step (a call failed, or the process died), and
 docker changes containers and mounts as it likes in between.  One request runs at a time for each
 target path, as many targets as there are run side by side.
 */
module BosProtocol {
  import opened Status

  datatype ContainerStatus = Created | Running | Paused | Restarting | Removing | Exited | Dead | OtherStatus

  // `usesFile`: bosfs was told to read its credentials from the credentials file.
  datatype Container = Container(target: string, usesFile: bool, status: ContainerStatus, healthy: bool)

  /** How a target's container and credentials directory are named. */
  datatype Config = Config(containerName: string -> string, credentialsDir: string -> string) {

    ghost predicate Valid() {
      && (forall a, b :: containerName(a) == containerName(b) ==> a == b)
      && (forall a, b :: credentialsDir(a) == credentialsDir(b) ==> a == b)
    }
  }

  // The names the program uses, made from a digest of the target.
  function NamesFrom(md5: string -> string): Config {
    Config(target => "bosfs-" + md5(target), target => "/etc/bosfs/credentials/" + md5(target))
  }

  // A digest without collisions keeps targets apart.
  lemma NamesAreApart(md5: string -> string)
    requires forall a, b :: md5(a) == md5(b) ==> a == b
    ensures NamesFrom(md5).Valid()
  {
    var c := NamesFrom(md5);
    forall a, b ensures c.containerName(a) == c.containerName(b) ==> a == b {
      assert c.containerName(a)[6..] == md5(a) && c.containerName(b)[6..] == md5(b);
    }
    forall a, b ensures c.credentialsDir(a) == c.credentialsDir(b) ==> a == b {
      assert c.credentialsDir(a)[23..] == md5(a) && c.credentialsDir(b)[23..] == md5(b);
    }
  }

  /** Target paths that exist, how many mounts each carries, credentials directories, those of them that
      hold a credentials file, and the containers by name. */
  datatype Host = Host(paths: set<string>, mounts: map<string, nat>, dirs: set<string>, files: set<string>,
                       containers: map<string, Container>)

  // The calls of NodePublishVolume and MountByBOSFS, then of NodeUnpublishVolume and UnmountFromBOSFS.
  // Each phase is named for the call that comes next; `cred` says whether there are credentials.
  datatype Phase =
    | CheckPath(cred: bool)
    | MakePath(cred: bool)
    | MakeDir(cred: bool)
    | WriteFile(cred: bool)
    | Inspect(cred: bool)
    | Create(cred: bool)
    | InspectNew
    | RemoveDead
    | Start
    | Wait
    | Published
    | FindPath
    | FindContainer
    | Stop
    | RemoveContainer
    | FindMount
    | Unmount
    | RemovePath
    | FindDir
    | RemoveDir
    | Unpublished

  datatype State = State(host: Host, handlers: map<string, Phase>)

  datatype Step =
    | BeginPublish(target: string, cred: bool)
    | BeginUnpublish(target: string)
    | Advance(target: string)                        // the next call takes effect
    | Abandon(target: string)                        // the next call fails, or the handler dies before it
    | End(target: string)
    | Alter(name: string, status: ContainerStatus, healthy: bool)
    | Vanish(name: string)
    | MountUp(name: string)                          // a running container mounts its target
    | MountDown(target: string)

  function Mounts(h: Host, target: string): nat {
    if target in h.mounts then h.mounts[target] else 0
  }

  predicate Ready(c: Container) {
    c.status == Running && c.healthy
  }

  // docker refuses to remove a container that is up, unless forced, and one that it is already removing.
  predicate Removable(c: Container) {
    c.status !in {Running, Paused, Restarting, Removing}
  }

  // What MountByBOSFS makes of the container it inspects.
  function AfterInspect(c: Container): Option<Phase> {
    match c.status
    case Exited => Some(RemoveDead)
    case Dead => Some(RemoveDead)
    case Running => Some(if c.healthy then Published else Wait)
    case Restarting => None
    case Removing => None
    case Created => Some(Start)
    case Paused => Some(Start)
    case OtherStatus => Some(Wait)
  }

  // ---------- one call of a handler ----------

  // The phase after a call that takes effect, or None when it makes the handler give up.
  function NextPhase(c: Config, h: Host, target: string, phase: Phase): Option<Phase> {
    var name := c.containerName(target);
    var found := name in h.containers;
    match phase
    case CheckPath(cred) => Some(if target in h.paths then MakeDir(cred) else MakePath(cred))
    case MakePath(cred) => Some(MakeDir(cred))
    case MakeDir(cred) => Some(if cred then WriteFile(cred) else Inspect(cred))
    case WriteFile(cred) => Some(Inspect(cred))
    case Inspect(cred) => if found then AfterInspect(h.containers[name]) else Some(Create(cred))
    case Create(_) => if found then None else Some(InspectNew)
    case InspectNew => if found then AfterInspect(h.containers[name]) else None
    case RemoveDead => None
    case Start => if found then Some(Wait) else None
    case Wait => if !found then None else Some(if Ready(h.containers[name]) then Published else Wait)
    case Published => None
    case FindPath => Some(if target in h.paths then FindContainer else FindDir)
    case FindContainer =>
      Some(if !found then FindMount else if h.containers[name].status == Running then Stop else RemoveContainer)
    case Stop => if found then Some(RemoveContainer) else None
    case RemoveContainer => if found && Removable(h.containers[name]) then Some(FindMount) else None
    case FindMount => Some(if Mounts(h, target) > 0 then Unmount else RemovePath)
    case Unmount => if Mounts(h, target) > 0 then Some(RemovePath) else None
    case RemovePath => if target in h.paths && Mounts(h, target) == 0 then Some(FindDir) else None
    case FindDir => Some(if c.credentialsDir(target) in h.dirs then RemoveDir else Unpublished)
    case RemoveDir => Some(Unpublished)
    case Unpublished => None
  }

  // The host after a call that takes effect.
  function AfterCall(c: Config, h: Host, target: string, phase: Phase): Host {
    var name := c.containerName(target);
    var dir := c.credentialsDir(target);
    match phase
    case MakePath(_) => h.(paths := h.paths + {target})
    case MakeDir(_) => h.(dirs := h.dirs + {dir})
    case WriteFile(_) => h.(files := h.files + {dir})
    case Create(cred) =>
      if name in h.containers then h
      else h.(containers := h.containers[name := Container(target, cred, ContainerStatus.Created, false)])
    case RemoveDead => h.(containers := h.containers - {name})
    case Start =>
      if name in h.containers then h.(containers := h.containers[name := h.containers[name].(status := Running)]) else h
    case Stop =>
      if name in h.containers then h.(containers := h.containers[name := h.containers[name].(status := Exited)]) else h
    case RemoveContainer =>
      if name in h.containers && Removable(h.containers[name]) then h.(containers := h.containers - {name}) else h
    case Unmount => if Mounts(h, target) > 0 then h.(mounts := h.mounts[target := h.mounts[target] - 1]) else h
    case RemovePath => if Mounts(h, target) == 0 then h.(paths := h.paths - {target}) else h
    case RemoveDir => h.(dirs := h.dirs - {dir}, files := h.files - {dir})
    case _ => h
  }

  // ---------- the system ----------

  predicate Enabled(s: State, step: Step) {
    match step
    case BeginPublish(target, _) => target != "" && target !in s.handlers
    case BeginUnpublish(target) => target != "" && target !in s.handlers
    case Advance(target) => target in s.handlers && !s.handlers[target].Published? && !s.handlers[target].Unpublished?
    case Abandon(target) => target in s.handlers
    case End(target) => target in s.handlers && (s.handlers[target].Published? || s.handlers[target].Unpublished?)
    case Alter(name, _, _) => name in s.host.containers
    case Vanish(name) => name in s.host.containers
    case MountUp(name) => name in s.host.containers && s.host.containers[name].status == Running
    case MountDown(target) => Mounts(s.host, target) > 0
  }

  function Apply(c: Config, s: State, step: Step): State
    requires Enabled(s, step)
  {
    match step
    case BeginPublish(target, cred) => s.(handlers := s.handlers[target := CheckPath(cred)])
    case BeginUnpublish(target) => s.(handlers := s.handlers[target := FindPath])
    case Advance(target) =>
      var next := NextPhase(c, s.host, target, s.handlers[target]);
      State(AfterCall(c, s.host, target, s.handlers[target]),
            if next.Some? then s.handlers[target := next.value] else s.handlers - {target})
    case Abandon(target) => s.(handlers := s.handlers - {target})
    case End(target) => s.(handlers := s.handlers - {target})
    case Alter(name, status, healthy) =>
      var container := s.host.containers[name].(status := status, healthy := healthy);
      s.(host := s.host.(containers := s.host.containers[name := container]))
    case Vanish(name) => s.(host := s.host.(containers := s.host.containers - {name}))
    case MountUp(name) =>
      var target := s.host.containers[name].target;
      s.(host := s.host.(mounts := s.host.mounts[target := Mounts(s.host, target) + 1]))
    case MountDown(target) => s.(host := s.host.(mounts := s.host.mounts[target := s.host.mounts[target] - 1]))
  }

  // The state after a whole run, or None when a step is taken that is not enabled.
  function Exec(c: Config, s: State, steps: seq<Step>): Option<State> {
    if steps == [] then Some(s)
    else
      var before := Exec(c, s, steps[..|steps| - 1]);
      var step := steps[|steps| - 1];
      if before.Some? && Enabled(before.value, step) then Some(Apply(c, before.value, step)) else None
  }

  // ---------- consistency ----------

  // A container has its target path, its credentials directory and, if it reads one, its credentials
  // file; mounts are on paths that exist.
  predicate Consistent(c: Config, h: Host) {
    && (forall name | name in h.containers ::
          var k := h.containers[name];
          && name == c.containerName(k.target)
          && k.target in h.paths
          && c.credentialsDir(k.target) in h.dirs
          && (k.usesFile ==> c.credentialsDir(k.target) in h.files))
    && (forall target | target in h.mounts && h.mounts[target] > 0 :: target in h.paths)
    && h.files <= h.dirs
  }

  predicate NoContainer(c: Config, h: Host, target: string) {
    c.containerName(target) !in h.containers
  }

  // Nothing at all is left of a target.
  predicate Clean(c: Config, h: Host, target: string) {
    && NoContainer(c, h, target)
    && target !in h.paths
    && Mounts(h, target) == 0
    && c.credentialsDir(target) !in h.dirs && c.credentialsDir(target) !in h.files
  }

  predicate Furnished(c: Config, h: Host, target: string, cred: bool) {
    && target in h.paths
    && c.credentialsDir(target) in h.dirs
    && (cred ==> c.credentialsDir(target) in h.files)
  }

  // What a handler relies on in each phase.
  predicate PhaseInv(c: Config, h: Host, target: string, phase: Phase) {
    match phase
    case MakeDir(_) => target in h.paths
    case WriteFile(cred) => cred && target in h.paths && c.credentialsDir(target) in h.dirs
    case Inspect(cred) => Furnished(c, h, target, cred)
    case Create(cred) => Furnished(c, h, target, cred)
    case FindMount => NoContainer(c, h, target)
    case Unmount => NoContainer(c, h, target)
    case RemovePath => NoContainer(c, h, target)
    case FindDir => NoContainer(c, h, target) && target !in h.paths
    case RemoveDir => NoContainer(c, h, target) && target !in h.paths
    case Unpublished => Clean(c, h, target)
    case _ => true
  }

  predicate Inv(c: Config, s: State) {
    && Consistent(c, s.host)
    && forall target | target in s.handlers :: PhaseInv(c, s.host, target, s.handlers[target])
  }

  lemma CallKeepsConsistent(c: Config, h: Host, target: string, phase: Phase)
    requires c.Valid() && Consistent(c, h) && PhaseInv(c, h, target, phase)
    ensures Consistent(c, AfterCall(c, h, target, phase))
  {
    match phase
    case RemovePath =>
      assert forall name | name in h.containers :: h.containers[name].target != target;
    case RemoveDir =>
      assert forall name | name in h.containers :: h.containers[name].target != target;
    case _ =>
  }

  lemma CallEstablishesNext(c: Config, h: Host, target: string, phase: Phase)
    requires c.Valid() && Consistent(c, h) && PhaseInv(c, h, target, phase)
    ensures NextPhase(c, h, target, phase).Some? ==>
              PhaseInv(c, AfterCall(c, h, target, phase), target, NextPhase(c, h, target, phase).value)
  {
    var name := c.containerName(target);
    assert name in h.containers ==> h.containers[name].target == target;
  }

  // A call for one target leaves everything of every other target alone.
  lemma CallLeavesOthers(c: Config, h: Host, target: string, phase: Phase, other: string)
    requires c.Valid() && other != target
    ensures var g := AfterCall(c, h, target, phase);
            && (other in g.paths <==> other in h.paths)
            && Mounts(g, other) == Mounts(h, other)
            && (c.credentialsDir(other) in g.dirs <==> c.credentialsDir(other) in h.dirs)
            && (c.credentialsDir(other) in g.files <==> c.credentialsDir(other) in h.files)
            && (c.containerName(other) in g.containers <==> c.containerName(other) in h.containers)
            && (c.containerName(other) in h.containers ==>
                  g.containers[c.containerName(other)] == h.containers[c.containerName(other)])
  {}

  lemma AdvanceKeepsInv(c: Config, s: State, target: string)
    requires c.Valid() && Inv(c, s) && Enabled(s, Advance(target))
    ensures Inv(c, Apply(c, s, Advance(target)))
  {
    var t := Apply(c, s, Advance(target));
    CallKeepsConsistent(c, s.host, target, s.handlers[target]);
    CallEstablishesNext(c, s.host, target, s.handlers[target]);
    forall other | other in t.handlers && other != target
      ensures PhaseInv(c, t.host, other, t.handlers[other])
    {
      CallLeavesOthers(c, s.host, target, s.handlers[target], other);
      assert PhaseInv(c, s.host, other, s.handlers[other]);
    }
  }

  lemma DockerKeepsInv(c: Config, s: State, step: Step)
    requires Inv(c, s) && Enabled(s, step)
    requires step.Alter? || step.Vanish? || step.MountUp? || step.MountDown?
    ensures Inv(c, Apply(c, s, step))
  {
    var t := Apply(c, s, step);
    if step.MountUp? {
      assert s.host.containers[step.name].target in s.host.paths;
    }
    assert Consistent(c, t.host);
    forall target | target in t.handlers ensures PhaseInv(c, t.host, target, t.handlers[target]) {
      assert PhaseInv(c, s.host, target, s.handlers[target]);
    }
  }

  lemma StepKeepsInv(c: Config, s: State, step: Step)
    requires c.Valid() && Inv(c, s) && Enabled(s, step)
    ensures Inv(c, Apply(c, s, step))
  {
    if step.Advance? {
      AdvanceKeepsInv(c, s, step.target);
    } else if step.Alter? || step.Vanish? || step.MountUp? || step.MountDown? {
      DockerKeepsInv(c, s, step);
    }
  }

  lemma {:induction false} RunKeepsInv(c: Config, s: State, steps: seq<Step>)
    requires c.Valid() && Consistent(c, s.host) && s.handlers == map[]
    requires Exec(c, s, steps).Some?
    ensures Inv(c, Exec(c, s, steps).value)
  {
    if steps == [] {
    } else {
      RunKeepsInv(c, s, steps[..|steps| - 1]);
      StepKeepsInv(c, Exec(c, s, steps[..|steps| - 1]).value, steps[|steps| - 1]);
    }
  }

  // ---------- what holds in every run ----------

  // Crash consistency: after any sequence of publish and unpublish requests, stopped wherever they may
  // be, a container has its target path, its credentials directory and its credentials file, and it is
  // the only container of its target; and an unpublish that has succeeded has left nothing behind.
  lemma CrashConsistency(c: Config, s: State, steps: seq<Step>)
    requires c.Valid() && Consistent(c, s.host) && s.handlers == map[]
    requires Exec(c, s, steps).Some?
    ensures var t := Exec(c, s, steps).value;
            && Consistent(c, t.host)
            && (forall a, b | a in t.host.containers && b in t.host.containers
                              && t.host.containers[a].target == t.host.containers[b].target :: a == b)
            && (forall target | target in t.handlers && t.handlers[target].Unpublished? :: Clean(c, t.host, target))
  {
    RunKeepsInv(c, s, steps);
    var t := Exec(c, s, steps).value;
    forall target | target in t.handlers && t.handlers[target].Unpublished? ensures Clean(c, t.host, target) {
      assert PhaseInv(c, t.host, target, t.handlers[target]);
    }
  }

  // ---------- what success of a publish means ----------

  predicate PublishPhase(phase: Phase) {
    match phase
    case CheckPath(_) => true case MakePath(_) => true case MakeDir(_) => true case WriteFile(_) => true
    case Inspect(_) => true case Create(_) => true case InspectNew => true case RemoveDead => true
    case Start => true case Wait => true case Published => true
    case _ => false
  }

  // The steps at which a request for a target begins or ends.
  predicate Bounds(step: Step, target: string) {
    match step
    case BeginPublish(t, _) => t == target
    case BeginUnpublish(t) => t == target
    case Abandon(t) => t == target
    case End(t) => t == target
    case _ => false
  }

  // Step k of a run is an inspection of the target's container, made by its handler, that shows the
  // container running and healthy.
  predicate InspectsReady(c: Config, s: State, steps: seq<Step>, target: string, k: nat) {
    && k < |steps| && steps[k] == Advance(target)
    && Exec(c, s, steps[..k]).Some?
    && var t := Exec(c, s, steps[..k]).value;
       && target in t.handlers
       && (t.handlers[target].Inspect? || t.handlers[target].InspectNew? || t.handlers[target].Wait?)
       && c.containerName(target) in t.host.containers && Ready(t.host.containers[c.containerName(target)])
  }

  // The request that a publish handler serves began at step b, and the handler is the same since.
  lemma {:induction false} PublishBegan(c: Config, s: State, steps: seq<Step>, target: string) returns (b: nat)
    requires s.handlers == map[] && Exec(c, s, steps).Some?
    requires target in Exec(c, s, steps).value.handlers && PublishPhase(Exec(c, s, steps).value.handlers[target])
    ensures b < |steps| && steps[b].BeginPublish? && steps[b].target == target
    ensures forall j | b < j < |steps| :: !Bounds(steps[j], target)
  {
    var n := |steps| - 1;
    if Bounds(steps[n], target) {
      b := n;
    } else {
      b := PublishBegan(c, s, steps[..n], target);
      assert forall j | b < j < n :: steps[j] == steps[..n][j];
    }
  }

  lemma LastInspectsReady(c: Config, s: State, steps: seq<Step>, target: string)
    requires steps != [] && steps[|steps| - 1] == Advance(target) && Exec(c, s, steps).Some?
    requires var t := Exec(c, s, steps).value; target in t.handlers && t.handlers[target] == Published
    ensures InspectsReady(c, s, steps, target, |steps| - 1)
  {
    var t := Exec(c, s, steps[..|steps| - 1]).value;
    assert NextPhase(c, t.host, target, t.handlers[target]) == Some(Published);
  }

  lemma InspectionStays(c: Config, s: State, steps: seq<Step>, target: string, k: nat)
    requires steps != [] && InspectsReady(c, s, steps[..|steps| - 1], target, k)
    ensures InspectsReady(c, s, steps, target, k)
  {
    assert steps[..|steps| - 1][..k] == steps[..k];
  }

  // In every run, a handler that reports a publish as done was brought there, since its request began, by an
  // inspection that showed the container running and healthy; and it has done nothing since.
  lemma {:induction false} PublishedWasSeenReady(c: Config, s: State, steps: seq<Step>, target: string)
    returns (b: nat, k: nat)
    requires s.handlers == map[] && Exec(c, s, steps).Some?
    requires target in Exec(c, s, steps).value.handlers && Exec(c, s, steps).value.handlers[target] == Published
    ensures b < k < |steps| && steps[b].BeginPublish? && steps[b].target == target
    ensures InspectsReady(c, s, steps, target, k)
    ensures forall j | b < j < |steps| :: !Bounds(steps[j], target)
    ensures forall j | k < j < |steps| :: steps[j] != Advance(target)
  {
    var n := |steps| - 1;
    var front := steps[..n];
    assert forall j | 0 <= j < n :: steps[j] == front[j];
    if steps[n] == Advance(target) {
      k := n;
      LastInspectsReady(c, s, steps, target);
      b := PublishBegan(c, s, front, target);
    } else {
      b, k := PublishedWasSeenReady(c, s, front, target);
      InspectionStays(c, s, steps, target, k);
    }
  }

  // ---------- recovery ----------

  // An upper bound on the calls that a handler still makes before it waits or ends.
  function Rank(phase: Phase): nat {
    match phase
    case CheckPath(_) => 9 case MakePath(_) => 8 case MakeDir(_) => 7 case WriteFile(_) => 6 case Inspect(_) => 5
    case Create(_) => 4 case InspectNew => 3 case Start => 2 case RemoveDead => 2 case Wait => 1 case Published => 0
    case FindPath => 9 case FindContainer => 8 case Stop => 7 case RemoveContainer => 6 case FindMount => 5
    case Unmount => 4 case RemovePath => 3 case FindDir => 2 case RemoveDir => 1 case Unpublished => 0
  }

  // A handler left to itself: no call fails, nothing else happens, and docker brings a container that is
  // waited for up in time.  The result is the host and the last phase, or None when it gave up.
  function Drive(c: Config, h: Host, target: string, phase: Phase): (Host, Option<Phase>)
    decreases Rank(phase)
  {
    if phase.Published? || phase.Unpublished? then (h, Some(phase))
    else if phase.Wait? then
      var name := c.containerName(target);
      if name !in h.containers then (h, None)
      else
        var up := h.containers[name].(status := Running, healthy := true);
        (h.(containers := h.containers[name := up]), Some(Published))
    else
      var next := NextPhase(c, h, target, phase);
      var g := AfterCall(c, h, target, phase);
      if next.None? then (g, None) else Drive(c, g, target, next.value)
  }

  predicate Starts(h: Host, name: string) {
    name in h.containers ==> h.containers[name].status in {ContainerStatus.Created, Running}
  }

  // MountByBOSFS on an existing or absent container, once path and credentials are there.
  lemma DriveInspect(c: Config, h: Host, target: string, cred: bool)
    requires var name := c.containerName(target);
             name in h.containers ==> h.containers[name].status in {ContainerStatus.Created, Running, Exited, Dead}
    ensures var name := c.containerName(target);
            var (g, end) := Drive(c, h, target, Inspect(cred));
            if Starts(h, name) then end == Some(Published) && name in g.containers && Ready(g.containers[name])
            else end == None && name !in g.containers
  {
    var name := c.containerName(target);
    if name !in h.containers {
      var g := AfterCall(c, h, target, Create(cred));
      assert Drive(c, h, target, Inspect(cred)) == Drive(c, h, target, Create(cred)) == Drive(c, g, target, InspectNew)
          == Drive(c, g, target, Start);
      assert Drive(c, g, target, Start) == Drive(c, AfterCall(c, g, target, Start), target, Wait);
    } else if h.containers[name].status == ContainerStatus.Created {
      assert Drive(c, h, target, Inspect(cred)) == Drive(c, h, target, Start)
          == Drive(c, AfterCall(c, h, target, Start), target, Wait);
    } else if h.containers[name].status == Running {
      assert AfterCall(c, h, target, Inspect(cred)) == h;
    } else {
      assert Drive(c, h, target, Inspect(cred)) == Drive(c, h, target, RemoveDead);
    }
  }

  lemma DriveToInspect(c: Config, h: Host, target: string, cred: bool)
    ensures exists g: Host :: g.containers == h.containers
                     && Drive(c, h, target, CheckPath(cred)) == Drive(c, g, target, Inspect(cred))
  {
    var a := if target in h.paths then h else AfterCall(c, h, target, MakePath(cred));
    assert Drive(c, h, target, CheckPath(cred)) == Drive(c, a, target, MakeDir(cred));
    var b := AfterCall(c, a, target, MakeDir(cred));
    if cred {
      assert Drive(c, a, target, MakeDir(cred)) == Drive(c, b, target, WriteFile(cred))
          == Drive(c, AfterCall(c, b, target, WriteFile(cred)), target, Inspect(cred));
    } else {
      assert Drive(c, a, target, MakeDir(cred)) == Drive(c, b, target, Inspect(cred));
    }
  }

  // From a target whose container is absent, created, running, exited or dead, publishing succeeds within
  // two calls, and the first fails exactly when the container has to be cleared away.
  lemma PublishWithinTwoCalls(c: Config, h: Host, target: string, cred: bool)
    requires var name := c.containerName(target);
             name in h.containers ==> h.containers[name].status in {ContainerStatus.Created, Running, Exited, Dead}
    ensures var name := c.containerName(target);
            var (g, first) := Drive(c, h, target, CheckPath(cred));
            var (k, second) := Drive(c, g, target, CheckPath(cred));
            && (first == Some(Published) <==> Starts(h, name))
            && (first == Some(Published) || second == Some(Published))
            && name in k.containers && Ready(k.containers[name])
  {
    DriveToInspect(c, h, target, cred);
    var a: Host :| a.containers == h.containers
        && Drive(c, h, target, CheckPath(cred)) == Drive(c, a, target, Inspect(cred));
    DriveInspect(c, a, target, cred);
    var g := Drive(c, h, target, CheckPath(cred)).0;
    DriveToInspect(c, g, target, cred);
    var b: Host :| b.containers == g.containers
        && Drive(c, g, target, CheckPath(cred)) == Drive(c, b, target, Inspect(cred));
    DriveInspect(c, b, target, cred);
  }

  lemma DriveFindDir(c: Config, h: Host, target: string)
    requires h.files <= h.dirs && NoContainer(c, h, target) && target !in h.paths && Mounts(h, target) == 0
    ensures Drive(c, h, target, FindDir).1 == Some(Unpublished) && Clean(c, Drive(c, h, target, FindDir).0, target)
  {
    if c.credentialsDir(target) in h.dirs {
      assert Drive(c, h, target, FindDir) == Drive(c, h, target, RemoveDir)
          == Drive(c, AfterCall(c, h, target, RemoveDir), target, Unpublished);
    } else {
      assert Drive(c, h, target, FindDir) == Drive(c, h, target, Unpublished);
    }
  }

  // The part of unpublishing that follows the container's removal.
  lemma DriveFindMount(c: Config, h: Host, target: string)
    requires Consistent(c, h) && NoContainer(c, h, target) && target in h.paths
    ensures var (g, end) := Drive(c, h, target, FindMount);
            && (end == Some(Unpublished) <==> Mounts(h, target) <= 1)
            && (end == Some(Unpublished) ==> Clean(c, g, target))
            && (end != Some(Unpublished) ==> Mounts(g, target) == Mounts(h, target) - 1 && target in g.paths)
  {
    var a := if Mounts(h, target) > 0 then AfterCall(c, h, target, Unmount) else h;
    assert Drive(c, h, target, FindMount) == Drive(c, a, target, RemovePath);
    if Mounts(a, target) == 0 {
      DriveFindDir(c, AfterCall(c, a, target, RemovePath), target);
      assert Drive(c, a, target, RemovePath) == Drive(c, AfterCall(c, a, target, RemovePath), target, FindDir);
    }
  }

  // The part that deals with a container.
  lemma DriveFindContainer(c: Config, h: Host, target: string)
    requires c.Valid() && Consistent(c, h) && target in h.paths && c.containerName(target) in h.containers
    ensures var (g, end) := Drive(c, h, target, FindContainer);
            && (end == Some(Unpublished) <==>
                  h.containers[c.containerName(target)].status !in {Paused, Restarting, Removing}
                      && Mounts(h, target) <= 1)
            && (end == Some(Unpublished) ==> Clean(c, g, target))
  {
    var name := c.containerName(target);
    assert h.containers[name].target == target;
    var a := if h.containers[name].status == Running then AfterCall(c, h, target, Stop) else h;
    assert Drive(c, h, target, FindContainer) == Drive(c, a, target, RemoveContainer);
    if Removable(a.containers[name]) {
      var b := AfterCall(c, a, target, RemoveContainer);
      CallKeepsConsistent(c, h, target, Stop);
      CallKeepsConsistent(c, a, target, RemoveContainer);
      assert Drive(c, a, target, RemoveContainer) == Drive(c, b, target, FindMount);
      DriveFindMount(c, b, target);
    }
  }

  // From any consistent host, whatever half-finished requests have left there, one unpublish call cleans
  // the target up exactly when docker lets the container be removed and at most one mount is in the
  // way, or when the path is already gone.
  lemma UnpublishCleansExactlyWhen(c: Config, h: Host, target: string)
    requires c.Valid() && Consistent(c, h)
    ensures var name := c.containerName(target);
            var (g, end) := Drive(c, h, target, FindPath);
            && (end == Some(Unpublished) <==>
                  target !in h.paths
                  || ((name in h.containers ==> h.containers[name].status !in {Paused, Restarting, Removing})
                      && Mounts(h, target) <= 1))
            && (end == Some(Unpublished) ==> Clean(c, g, target))
  {
    if target !in h.paths {
      assert Drive(c, h, target, FindPath) == Drive(c, h, target, FindDir);
      DriveFindDir(c, h, target);
    } else {
      assert Drive(c, h, target, FindPath) == Drive(c, h, target, FindContainer);
      if c.containerName(target) !in h.containers {
        assert Drive(c, h, target, FindContainer) == Drive(c, h, target, FindMount);
        DriveFindMount(c, h, target);
      } else {
        DriveFindContainer(c, h, target);
      }
    }
  }
}
