/**
 The CreateVolume handler as the program runs it, on a server object and against a cloud object.
 Between any two of its calls, other flights and the cloud may act.  The ghost log records the steps
 taken; every method shows that what it did is a run of the protocol in CreateProtocol, which is
 where the properties of runs are proved.
 */
module CreateServer {
  import opened Status
  import opened Capacity
  import opened Timers
  import opened KeyMutexes
  import opened CreateProtocol

  datatype Reading = Fault | Unseen | Several | Found(id: string, volume: Volume)

  // At the end of a run a flight stands as given.
  predicate Answered(c: Config, start: State, steps: seq<Step>, f: Flight) {
    && Exec(c, start, steps).Some?
    && var flights := Exec(c, start, steps).value.flights;
       f.leader.name in flights && flights[f.leader.name] == f
  }

  /** The cloud's side of the volume service. */
  class VolumeService {
    var volumes: Cloud

    constructor (volumes: Cloud)
      ensures this.volumes == volumes
    {
      this.volumes := volumes;
    }

    // Reports what the pages of a listing show under a name, or a failure of a call.  `seen` is what
    // was listed when the first page was asked for, `found` what the pages show.
    method GetVolumeByName(name: string, ghost seen: set<string>) returns (reading: Reading, ghost found: set<string>)
      requires seen <= Listed(volumes, name)
      ensures CanList(volumes, name, seen, found)
      ensures match reading
              case Fault => true
              case Unseen => found == {}
              case Several => |found| > 1
              case Found(id, v) => found == {id} && v == volumes[id]
    {
      var listed := Listed(volumes, name);
      found := listed;
      if listed == {} {
        return Unseen, found;
      }
      if |listed| > 1 {
        return Several, found;
      }
      var id := TheOne(listed);
      return Found(id, volumes[id]), found;
    }

    // Reports a volume that its identifier can be used to read, or a failure of the call.
    method GetVolumeByID(id: string) returns (reading: Reading)
      requires id in volumes
      ensures match reading
              case Fault => true
              case Unseen => !volumes[id].readable
              case Several => false
              case Found(i, v) => i == id && volumes[id].readable && v == volumes[id]
    {
      return if volumes[id].readable then Found(id, volumes[id]) else Unseen;
    }

    // Makes a volume, or names the one it made for the same token, or refuses.
    method CreateVolume(config: Config, name: string, gb: int64) returns (reply: CreateReply)
      modifies this
      ensures reply.Made? ==> CanMake(config, old(volumes), name, reply)
      ensures volumes == AfterCreate(config, old(volumes), name, gb, reply)
    {
      return Refused(false);
    }
  }

  class ControllerServer {
    const config: Config
    const volumeService: VolumeService
    const inProcessRequests: KeyMutex
    var creatingVolumeCache: set<string>
    // The time of day.
    var clock: int

    // The flights that singleflight is running, the state at the start, and the steps since.
    ghost var flights: map<string, Flight>
    ghost const start: State
    ghost var log: seq<Step>

    ghost function View(): State
      reads this, volumeService, inProcessRequests
    {
      State(volumeService.volumes, creatingVolumeCache, inProcessRequests.kv, flights, clock)
    }

    ghost predicate Valid()
      reads this, volumeService, inProcessRequests
    {
      config.Valid() && Init(start) && Exec(config, start, log) == Some(View())
    }

    constructor (config: Config, volumeService: VolumeService, now: int)
      requires config.Valid()
      requires Init(State(volumeService.volumes, {}, {}, map[], now))
      ensures Valid() && log == [] && flights == map[] && clock == now
      ensures this.config == config && this.volumeService == volumeService
    {
      this.config := config;
      this.volumeService := volumeService;
      inProcessRequests := new KeyMutex();
      creatingVolumeCache := {};
      clock := now;
      flights := map[];
      start := State(volumeService.volumes, {}, {}, map[], now);
      log := [];
    }

    // Accounts for a step whose effect on the shared fields has just taken place.
    ghost method Record(step: Step, before: State)
      requires config.Valid() && Init(start) && Exec(config, start, log) == Some(before)
      requires Enabled(config, before, step)
      requires View() == Apply(config, before, step).(flights := flights)
      modifies this`flights, this`log
      ensures Valid() && log == old(log) + [step] && flights == FlightsAfter(config, before, step)
    {
      flights := FlightsAfter(config, before, step);
      log := log + [step];
      assert log[..|log| - 1] == old(log);
    }

    // The flight of a request stands in a phase, with its timer.
    ghost predicate Stands(request: Request, phase: Phase, timer: Timer)
      reads this, volumeService, inProcessRequests
    {
      Valid() && request.name in flights && flights[request.name] == Flight(request, phase, timer)
    }

    // Whatever other flights, the cloud and callers do in the meantime: any steps of the protocol
    // that leave the flight of `name` where it is.  Time may pass.
    method Interfere(ghost name: string)
      requires Valid() && name in flights
      modifies this, volumeService, inProcessRequests
      ensures Valid() && old(log) <= log && old(clock) <= clock
      ensures name in flights && flights[name] == old(flights[name])
    {
    }

    // ---------- the calls of createVolume, each at a moment of its own ----------

    method Lock(request: Request, ghost timer: Timer) returns (locked: bool)
      requires Stands(request, Called, timer)
      modifies this, volumeService, inProcessRequests
      ensures locked && Stands(request, Locked, timer) && old(log) < log && old(clock) <= clock
    {
      Interfere(request.name);
      ghost var before := View();
      RunKeepsLocks(config, start, log);
      LockIsFree(config, before, request.name);
      locked := inProcessRequests.TryLock(config.text(request));
      Record(TryLock(request.name), before);
    }

    method Check(request: Request, ghost timer: Timer) returns (size: SizeResult)
      requires Stands(request, Locked, timer)
      modifies this, volumeService, inProcessRequests
      ensures old(log) < log && old(clock) <= clock
      ensures size == if request.accepted then GetVolumeSizeGB(request.range) else Invalid
      ensures Stands(request, if size.Size? then Checked(size.gb) else Closing(Error(InvalidArgument), false), timer)
    {
      ghost var before := View();
      size := if request.accepted then GetVolumeSizeGB(request.range) else Invalid;
      Record(CheckArgs(request.name), before);
    }

    // The first page is asked for at one moment, and the last one comes in at a later one.
    method BeginListing(request: Request, gb: int64, ghost timer: Timer) returns (ghost seen: set<string>)
      requires Stands(request, Checked(gb), timer)
      modifies this, volumeService, inProcessRequests
      ensures Stands(request, Listing(gb, seen), timer) && old(log) < log && old(clock) <= clock
    {
      Interfere(request.name);
      ghost var before := View();
      seen := Listed(before.cloud, request.name);
      Record(StartList(request.name), before);
    }

    method Find(request: Request, gb: int64, ghost timer: Timer) returns (next: Phase)
      requires Stands(request, Checked(gb), timer)
      modifies this, volumeService, inProcessRequests
      ensures Stands(request, next, timer) && old(log) < log && old(clock) <= clock
      ensures next == Absent(gb) || next.Closing?
    {
      ghost var seen := BeginListing(request, gb, timer);
      Interfere(request.name);
      ghost var before := View();
      RunKeepsInv(config, start, log);
      assert PhaseInv(config, before, request.name);
      ghost var found;
      var listed;
      listed, found := volumeService.GetVolumeByName(request.name, seen);
      Record(List(request.name, found, listed.Fault?), before);
      match listed
      case Fault => next := Closing(Error(Internal), false);
      case Several => next := Closing(Error(Internal), false);
      case Unseen => next := Absent(gb);
      case Found(id, volume) =>
        assert TheOne(found) == id;
        if volume.sizeGB != gb {
          next := Closing(Error(AlreadyExists), true);
        } else {
          next := Closing(Answer(id, volume), true);
        }
    }

    method ConsultCache(request: Request, gb: int64, ghost timer: Timer) returns (found: bool)
      requires Stands(request, Absent(gb), timer)
      modifies this, volumeService, inProcessRequests
      ensures old(log) < log && old(clock) <= clock
      ensures Stands(request, if found then Closing(Error(Aborted), false) else Missing(gb), timer)
    {
      Interfere(request.name);
      ghost var before := View();
      found := request.name in creatingVolumeCache;
      Record(LoadCache(request.name), before);
    }

    method CreateOnCloud(request: Request, gb: int64, ghost timer: Timer) returns (next: Phase)
      requires Stands(request, Missing(gb), timer)
      modifies this, volumeService, inProcessRequests
      ensures Stands(request, next, timer) && old(log) < log && old(clock) <= clock
      ensures (next.Created? && next.gb == gb) || (next.Closing? && !next.dropsCache)
    {
      Interfere(request.name);
      ghost var before := View();
      var reply := volumeService.CreateVolume(config, request.name, gb);
      Record(Create(request.name, reply), before);
      match reply
      case Refused(invalid) => next := Closing(Error(if invalid then InvalidArgument else Internal), false);
      case Made(id, reported, _, _, _) => next := if reported then Created(id, gb) else Closing(Error(Internal), false);
    }

    method StoreInCache(request: Request, id: string, gb: int64, ghost timer: Timer)
      requires Stands(request, Created(id, gb), timer)
      modifies this, volumeService, inProcessRequests
      ensures Stands(request, Cached(id, gb), timer) && old(log) < log && old(clock) <= clock
    {
      Interfere(request.name);
      ghost var before := View();
      creatingVolumeCache := creatingVolumeCache + {request.name};
      Record(Store(request.name), before);
    }

    method FetchByID(request: Request, id: string, gb: int64, ghost timer: Timer) returns (next: Phase)
      requires Stands(request, Cached(id, gb), timer)
      modifies this, volumeService, inProcessRequests
      ensures Stands(request, next, timer) && old(log) < log && old(clock) <= clock
      ensures next.Closing? && id in volumeService.volumes && volumeService.volumes[id].name == request.name
    {
      Interfere(request.name);
      ghost var before := View();
      RunKeepsInv(config, start, log);
      assert PhaseInv(config, before, request.name);
      var fetched := volumeService.GetVolumeByID(id);
      Record(Fetch(request.name, fetched.Fault?), before);
      match fetched
      case Fault => next := Closing(Error(Internal), false);
      case Unseen => next := Closing(Error(Aborted), false);
      case Found(_, volume) => next := Closing(Answer(id, volume), true);
    }

    // The body of createVolume from the create call on.
    method CreateAndFetch(request: Request, gb: int64, ghost timer: Timer) returns (closing: Phase)
      requires Stands(request, Missing(gb), timer)
      modifies this, volumeService, inProcessRequests
      ensures Stands(request, closing, timer) && closing.Closing? && old(log) < log && old(clock) <= clock
    {
      closing := CreateOnCloud(request, gb, timer);
      if closing.Closing? {
        return;
      }
      StoreInCache(request, closing.id, gb, timer);
      closing := FetchByID(request, closing.id, gb, timer);
    }

    // The body of createVolume once the arguments are known to be good.
    method FindOrCreate(request: Request, gb: int64, ghost timer: Timer) returns (closing: Phase)
      requires Stands(request, Checked(gb), timer)
      modifies this, volumeService, inProcessRequests
      ensures Stands(request, closing, timer) && closing.Closing? && old(log) < log && old(clock) <= clock
    {
      closing := Find(request, gb, timer);
      if closing.Closing? {
        return;
      }
      var found := ConsultCache(request, gb, timer);
      if found {
        return Closing(Error(Aborted), false);
      }
      closing := CreateAndFetch(request, gb, timer);
    }

    method DropFromCache(request: Request, outcome: Outcome<VolumeInfo>, ghost timer: Timer)
      requires Stands(request, Closing(outcome, true), timer)
      modifies this, volumeService, inProcessRequests
      ensures Stands(request, Closing(outcome, false), timer) && old(log) < log && old(clock) <= clock
    {
      Interfere(request.name);
      ghost var before := View();
      creatingVolumeCache := creatingVolumeCache - {request.name};
      Record(Drop(request.name), before);
    }

    method Release(request: Request, outcome: Outcome<VolumeInfo>, ghost timer: Timer)
      requires Stands(request, Closing(outcome, false), timer)
      modifies this, volumeService, inProcessRequests
      ensures Stands(request, Returned(outcome), timer) && old(log) < log && old(clock) <= clock
    {
      Interfere(request.name);
      ghost var before := View();
      inProcessRequests.Unlock(config.text(request));
      Record(Unlock(request.name), before);
    }

    // The deferred calls, in the order in which Go runs them: the cache entry goes before the lock.
    method RunDeferred(request: Request, closing: Phase, ghost timer: Timer) returns (outcome: Outcome<VolumeInfo>)
      requires closing.Closing? && Stands(request, closing, timer)
      modifies this, volumeService, inProcessRequests
      ensures Stands(request, Returned(outcome), timer) && old(log) < log && old(clock) <= clock
      ensures outcome == closing.outcome
    {
      outcome := closing.outcome;
      if closing.dropsCache {
        DropFromCache(request, outcome, timer);
      }
      Release(request, outcome, timer);
    }

    // The body of createVolume.
    method HandleCreateVolume(request: Request, ghost timer: Timer) returns (outcome: Outcome<VolumeInfo>)
      requires Stands(request, Called, timer)
      modifies this, volumeService, inProcessRequests
      ensures Stands(request, Returned(outcome), timer) && old(log) < log && old(clock) <= clock
    {
      var locked := Lock(request, timer);
      if !locked {
        return Error(Aborted);
      }
      var size := Check(request, timer);
      if size.Invalid? {
        outcome := RunDeferred(request, Closing(Error(InvalidArgument), false), timer);
        return;
      }
      var closing := FindOrCreate(request, size.gb, timer);
      outcome := RunDeferred(request, closing, timer);
    }

    // ---------- the retry loop around the handler ----------

    // One call of the handler, up to the moment when the loop has its answer.
    method Attempt(request: Request, ghost timer: Timer) returns (outcome: Outcome<VolumeInfo>)
      requires Stands(request, Called, timer) && timer.finish.None?
      modifies this, volumeService, inProcessRequests
      ensures Stands(request, Returned(outcome), Timers.Over(timer, clock)) && old(log) < log && old(clock) <= clock
    {
      outcome := HandleCreateVolume(request, timer);
      Interfere(request.name);
      Record(Return(request.name), View());
    }

    // Sleeps; others go on.
    method SleepUntil(ghost name: string, time: int)
      requires Valid() && name in flights && clock <= time
      modifies this, volumeService, inProcessRequests
      ensures Valid() && old(log) <= log && clock == time
      ensures name in flights && flights[name] == old(flights[name])
    {
      ghost var before := View();
      ghost var passed := time - clock;
      clock := time;
      Record(Tick(passed), before);
    }

    method Fly(request: Request, waitDeadline: int, ghost timer: Timer)
      returns (outcome: Outcome<VolumeInfo>, ghost last: Timer)
      requires Stands(request, Called, timer) && timer.finish.None? && timer.waitDeadline == waitDeadline
      modifies this, volumeService, inProcessRequests
      ensures Stands(request, Returned(outcome), last) && old(log) < log
      ensures last.begun == timer.begun && last.waitDeadline == waitDeadline && CanLeave(flights[request.name], clock)
    {
      last := timer;
      while true
        invariant Stands(request, Called, last) && old(log) <= log
        invariant last.finish.None? && last.begun == timer.begun && last.waitDeadline == waitDeadline
        decreases waitDeadline - clock
      {
        outcome := Attempt(request, last);
        last := Timers.Over(last, clock);
        if !outcome.IsAborted() {
          return;
        }
        var again, until := Select(clock, waitDeadline);
        SleepUntil(request.name, until);
        if !again {
          return;
        }
        Record(Retry(request.name), View());
        last := Timers.Again(last, clock);
      }
    }

    ghost method Finish(request: Request, outcome: Outcome<VolumeInfo>, timer: Timer)
      requires Stands(request, Returned(outcome), timer) && CanLeave(flights[request.name], clock)
      modifies this`flights, this`log
      ensures Valid() && request.name !in flights && log == old(log) + [Leave(request.name)]
      ensures WithinBudget(timer)
      ensures Truthful(config, View(), request, outcome)
      ensures config.Reliable() || config.dedup ==> DistinctNames(volumeService.volumes)
    {
      RunKeepsInv(config, start, log);
      RunCallsWithinBudget(config, start, log, request.name);
      assert PhaseInv(config, View(), request.name);
      Record(Leave(request.name), View());
    }

    // CreateVolume, for the caller whose flight singleflight runs.  What happens is one flight of the
    // protocol, from its Enter to its Leave, and the answer is the one it stands at in the end; the
    // handler is called again exactly while it answers Aborted and the deadline leaves time.
    method CreateVolume(request: Request, deadline: Option<int>)
      returns (outcome: Outcome<VolumeInfo>, ghost last: Timer)
      requires Valid() && request.name !in flights
      modifies this, volumeService, inProcessRequests
      ensures Valid() && request.name !in flights
      ensures request.name == "" ==> outcome == Error(InvalidArgument) && View() == old(View()) && log == old(log)
      ensures request.name != "" ==>
                && old(log) + [Enter(request, deadline)] < log && log[|log| - 1] == Leave(request.name)
                && Answered(config, start, log[..|log| - 1], Flight(request, Returned(outcome), last))
                && Punctual(last, old(clock), TimeUp(old(clock), deadline), outcome.IsAborted()) && WithinBudget(last)
      ensures Truthful(config, View(), request, outcome)
      ensures config.Reliable() || config.dedup ==> DistinctNames(volumeService.volumes)
    {
      if request.name == "" {
        RunKeepsInv(config, start, log);
        return Error(InvalidArgument), Timers.Begin(clock, deadline);
      }
      var waitDeadline := WaitDeadline(clock, deadline);
      last := Timers.Begin(clock, deadline);
      Record(Enter(request, deadline), View());
      outcome, last := Fly(request, waitDeadline, last);
      RunKeepsTimers(config, start, log);
      PacedIsPunctual(last, clock, old(clock), deadline, outcome.IsAborted());
      Finish(request, outcome, last);
    }
  }
}
