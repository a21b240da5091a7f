/**
 CreateVolume as a protocol.  Any number of callers race; singleflight lets one flight run for each
 volume name, the flight calls the handler again while it answers Aborted and its deadline leaves
 time, and every call to the cloud or to shared memory is a step of its own, so that flights, the
 cloud, the clock and restarts of the controller interleave freely.
 */
module CreateProtocol {
  import opened Status
  import opened Capacity
  import opened Timers

  // `accepted` says whether the checks that only look at the request pass: capabilities, storage
  // type, payment timing, reservation length and credentials.
  datatype Request = Request(name: string, range: CapacityRange, accepted: bool, rest: string)

  datatype VolumeInfo = VolumeInfo(id: string, capacityBytes: int64)

  // `listed`: GetVolumeByName sees the volume; `readable`: GetVolumeByID sees it.
  datatype Volume = Volume(name: string, token: string, sizeGB: int64, creating: bool, listed: bool, readable: bool)

  /** The environment.  `text` is the request's String(), the key of the KeyMutex.  `dedup`: the cloud
      answers a known client token with the volume it made for it.  The three threats: `restarts`, the
      controller may lose its memory; `losesReplies`, a create call may make a volume and still report
      an error; `readsAhead`, a volume may be readable by its identifier before it is listed. */
  datatype Config = Config(clusterID: string, text: Request -> string, dedup: bool,
                           restarts: bool, losesReplies: bool, readsAhead: bool) {

    ghost predicate Valid() {
      forall a, b :: text(a) == text(b) ==> a == b
    }

    function ClientToken(name: string): string {
      if clusterID != "" then clusterID + "-" + name else name
    }

    predicate Reliable() {
      !restarts && !losesReplies && !readsAhead
    }

    // A create call is answered with a volume that was made for the same request.
    predicate Sized() {
      Reliable() || !dedup
    }
  }

  // Where a flight stands.  Each phase names the step that comes next.
  datatype Phase =
    | Called                                                     // TryLock
    | Locked                                                     // check the arguments
    | Checked(gb: int64)                                         // GetVolumeByName: ask for the first page
    | Listing(gb: int64, seen: set<string>)                      // GetVolumeByName: the last page comes in
    | Absent(gb: int64)                                          // consult the cache
    | Missing(gb: int64)                                         // CreateVolume on the cloud
    | Created(id: string, gb: int64)                             // store the name in the cache
    | Cached(id: string, gb: int64)                              // GetVolumeByID
    | Closing(outcome: Outcome<VolumeInfo>, dropsCache: bool)    // run the deferred calls, last one first
    | Returned(outcome: Outcome<VolumeInfo>)                     // retry or leave

  // The handler holds the lock from a successful TryLock to the deferred Unlock.
  predicate Holds(phase: Phase) {
    !phase.Called? && !phase.Returned?
  }

  datatype Flight = Flight(leader: Request, phase: Phase, timer: Timer)

  datatype State = State(cloud: Cloud, cache: set<string>, held: set<string>, flights: map<string, Flight>, clock: int)

  datatype CreateReply =
    | Made(id: string, reported: bool, creating: bool, listed: bool, readable: bool)
    | Refused(invalid: bool)

  datatype Step =
    | Enter(request: Request, deadline: Option<int>)
    | TryLock(name: string)
    | CheckArgs(name: string)
    | StartList(name: string)
    | List(name: string, found: set<string>, fault: bool)
    | LoadCache(name: string)
    | Create(name: string, reply: CreateReply)
    | Store(name: string)
    | Fetch(name: string, fault: bool)
    | Drop(name: string)
    | Unlock(name: string)
    | Return(name: string)
    | Retry(name: string)
    | Leave(name: string)
    | Surface(id: string, listed: bool, readable: bool)
    | Finish(id: string)
    | Tick(d: nat)
    | Restart

  type Cloud = map<string, Volume>

  function Listed(cloud: Cloud, name: string): set<string> {
    set id | id in cloud && cloud[id].listed && cloud[id].name == name
  }

  function WithToken(cloud: Cloud, token: string): set<string> {
    set id | id in cloud && cloud[id].token == token
  }

  // The steps that a flight takes by itself; the others belong to callers, the cloud and the host.
  predicate Moves(step: Step) {
    !step.Enter? && !step.Leave? && !step.Surface? && !step.Finish? && !step.Tick? && !step.Restart?
  }

  // Where a flight must stand for a step of its own.
  predicate Ready(step: Step, f: Flight, clock: int)
    requires Moves(step)
  {
    match step
    case TryLock(_) => f.phase.Called?
    case CheckArgs(_) => f.phase.Locked?
    case StartList(_) => f.phase.Checked?
    case List(_, _, _) => f.phase.Listing?
    case LoadCache(_) => f.phase.Absent?
    case Create(_, _) => f.phase.Missing?
    case Store(_) => f.phase.Created?
    case Fetch(_, _) => f.phase.Cached?
    case Drop(_) => f.phase.Closing? && f.phase.dropsCache
    case Unlock(_) => f.phase.Closing? && !f.phase.dropsCache
    case Return(_) => f.phase.Returned? && f.timer.finish.None?
    case Retry(_) => f.phase.Returned? && f.phase.outcome.IsAborted() && MayRetry(f.timer, clock)
  }

  predicate CanLeave(f: Flight, clock: int) {
    f.phase.Returned? && MayLeave(f.timer, clock, f.phase.outcome.IsAborted())
  }

  // The pages of one listing come in one after another.  Volumes are never hidden again, so what was
  // listed when the first page was asked for is found, and what is found is listed in the end.
  predicate CanList(cloud: Cloud, name: string, seen: set<string>, found: set<string>) {
    seen <= found <= Listed(cloud, name)
  }

  predicate CanShow(c: Config, v: Volume) {
    v.readable ==> v.listed || c.readsAhead
  }

  function Shown(v: Volume, listed: bool, readable: bool): Volume {
    v.(listed := v.listed || listed, readable := v.readable || readable)
  }

  // What the cloud may do with a create call: a known token names its volume when the cloud
  // deduplicates, and otherwise the identifier is new.
  predicate CanMake(c: Config, cloud: Cloud, name: string, reply: CreateReply)
    requires reply.Made?
  {
    && (!reply.reported ==> c.losesReplies)
    && (reply.readable ==> reply.listed || c.readsAhead)
    && (if c.dedup && WithToken(cloud, c.ClientToken(name)) != {} then reply.id in WithToken(cloud, c.ClientToken(name))
        else reply.id !in cloud)
  }

  predicate Enabled(c: Config, s: State, step: Step) {
    if Moves(step) then
      && step.name in s.flights
      && Ready(step, s.flights[step.name], s.clock)
      && (step.List? && !step.fault ==> CanList(s.cloud, step.name, s.flights[step.name].phase.seen, step.found))
      && (step.Create? && step.reply.Made? ==> CanMake(c, s.cloud, step.name, step.reply))
      && (step.Fetch? ==> s.flights[step.name].phase.id in s.cloud)
    else
      match step
      case Enter(request, _) => request.name != "" && request.name !in s.flights
      case Leave(name) => name in s.flights && CanLeave(s.flights[name], s.clock)
      case Surface(id, listed, readable) => id in s.cloud && CanShow(c, Shown(s.cloud[id], listed, readable))
      case Finish(id) => id in s.cloud
      case Tick(_) => true
      case Restart => c.restarts
  }

  function AfterCreate(c: Config, cloud: Cloud, name: string, gb: int64, reply: CreateReply): Cloud {
    match reply
    case Refused(_) => cloud
    case Made(id, _, creating, listed, readable) =>
      if id in cloud then cloud else cloud[id := Volume(name, c.ClientToken(name), gb, creating, listed, readable)]
  }

  // What the handler makes of a volume it found, by name or by id.
  function Answer(id: string, v: Volume): Outcome<VolumeInfo> {
    if v.creating then Error(Aborted) else Done(VolumeInfo(id, SizeGBToBytes(v.sizeGB)))
  }

  function TheOne(ids: set<string>): (id: string)
    requires |ids| == 1
    ensures ids == {id}
  {
    assert forall a, b | a in ids && b in ids :: a == b by {
      forall a, b | a in ids && b in ids ensures a == b {
        assert |ids - {a}| == 0;
      }
    }
    var id :| id in ids;
    id
  }

  function AfterList(cloud: Cloud, gb: int64, found: set<string>): Phase
    requires found <= cloud.Keys
  {
    if found == {} then Absent(gb)
    else if |found| > 1 then Closing(Error(Internal), false)
    else
      var id := TheOne(found);
      if cloud[id].sizeGB != gb then Closing(Error(AlreadyExists), true)
      else Closing(Answer(id, cloud[id]), true)
  }

  // The phase a flight moves to by a step of its own.
  function NextPhase(c: Config, s: State, step: Step): Phase
    requires Moves(step) && Enabled(c, s, step)
  {
    var name := step.name;
    var f := s.flights[name];
    match step
    case TryLock(_) => if c.text(f.leader) in s.held then Returned(Error(Aborted)) else Locked
    case CheckArgs(_) =>
      var size := GetVolumeSizeGB(f.leader.range);
      if f.leader.accepted && size.Size? then Checked(size.gb) else Closing(Error(InvalidArgument), false)
    case StartList(_) => Listing(f.phase.gb, Listed(s.cloud, name))
    case List(_, found, fault) =>
      if fault then Closing(Error(Internal), false) else AfterList(s.cloud, f.phase.gb, found)
    case LoadCache(_) => if name in s.cache then Closing(Error(Aborted), false) else Missing(f.phase.gb)
    case Create(_, Refused(invalid)) => Closing(Error(if invalid then InvalidArgument else Internal), false)
    case Create(_, Made(id, reported, _, _, _)) =>
      if reported then Created(id, f.phase.gb) else Closing(Error(Internal), false)
    case Store(_) => Cached(f.phase.id, f.phase.gb)
    case Fetch(_, fault) =>
      var id := f.phase.id;
      if fault then Closing(Error(Internal), false)
      else if !s.cloud[id].readable then Closing(Error(Aborted), false)
      else Closing(Answer(id, s.cloud[id]), true)
    case Drop(_) => f.phase.(dropsCache := false)
    case Unlock(_) => Returned(f.phase.outcome)
    case Return(_) => f.phase
    case Retry(_) => Called
  }

  function TimerAfter(t: Timer, clock: int, step: Step): Timer {
    if step.Return? then Timers.Over(t, clock) else if step.Retry? then Timers.Again(t, clock) else t
  }

  function CloudAfter(c: Config, s: State, step: Step): Cloud
    requires Enabled(c, s, step)
  {
    match step
    case Create(name, reply) => AfterCreate(c, s.cloud, name, s.flights[name].phase.gb, reply)
    case Surface(id, listed, readable) => s.cloud[id := Shown(s.cloud[id], listed, readable)]
    case Finish(id) => s.cloud[id := s.cloud[id].(creating := false)]
    case _ => s.cloud
  }

  function CacheAfter(c: Config, s: State, step: Step): set<string> {
    match step
    case Store(name) => s.cache + {name}
    case Drop(name) => s.cache - {name}
    case Restart => {}
    case _ => s.cache
  }

  function HeldAfter(c: Config, s: State, step: Step): set<string>
    requires Enabled(c, s, step)
  {
    match step
    case TryLock(name) => s.held + {c.text(s.flights[name].leader)}
    case Unlock(name) => s.held - {c.text(s.flights[name].leader)}
    case Restart => {}
    case _ => s.held
  }

  function FlightsAfter(c: Config, s: State, step: Step): map<string, Flight>
    requires Enabled(c, s, step)
  {
    if Moves(step) then
      var f := s.flights[step.name];
      s.flights[step.name := Flight(f.leader, NextPhase(c, s, step), TimerAfter(f.timer, s.clock, step))]
    else
      match step
      case Enter(request, deadline) =>
        s.flights[request.name := Flight(request, Called, Timers.Begin(s.clock, deadline))]
      case Leave(name) => s.flights - {name}
      case Restart => map[]
      case Surface(_, _, _) => s.flights
      case Finish(_) => s.flights
      case Tick(_) => s.flights
  }

  function Apply(c: Config, s: State, step: Step): State
    requires Enabled(c, s, step)
  {
    State(CloudAfter(c, s, step), CacheAfter(c, s, step), HeldAfter(c, s, step), FlightsAfter(c, s, step),
          if step.Tick? then s.clock + step.d else s.clock)
  }

  // The state after a whole run, or None when a step is taken that is not enabled.
  function Exec(c: Config, s: State, steps: seq<Step>): Option<State> {
    if steps == [] then Some(s)
    else
      var before := Exec(c, s, steps[..|steps| - 1]);
      var step := steps[|steps| - 1];
      if before.Some? && Enabled(c, before.value, step) then Some(Apply(c, before.value, step)) else None
  }

  predicate DistinctNames(cloud: Cloud) {
    forall i, j | i in cloud && j in cloud && i != j :: cloud[i].name != cloud[j].name
  }

  // The cloud may hold volumes already, made by others without a token, in plain sight and with
  // names that differ.
  predicate Init(s: State) {
    && s.cache == {} && s.held == {} && s.flights == map[]
    && DistinctNames(s.cloud)
    && forall id | id in s.cloud :: s.cloud[id].listed && s.cloud[id].token == ""
  }

  // ---------- the invariant ----------

  predicate VolumesInv(c: Config, cloud: Cloud) {
    && (c.Reliable() || c.dedup ==> DistinctNames(cloud))
    && forall id | id in cloud ::
         var v := cloud[id];
         && CanShow(c, v)
         && (v.token == "" ==> v.listed)
         && (v.token != "" ==> v.token == c.ClientToken(v.name))
  }

  predicate FlightsInv(flights: map<string, Flight>) {
    forall name | name in flights :: flights[name].leader.name == name != ""
  }

  predicate TimersInv(s: State) {
    forall name | name in s.flights :: Paced(s.flights[name].timer, s.clock)
  }

  function Keys(c: Config, flights: map<string, Flight>): set<string> {
    set name | name in flights && Holds(flights[name].phase) :: c.text(flights[name].leader)
  }

  // The keys held are those of the flights inside the critical section.
  predicate LocksInv(c: Config, s: State) {
    s.held == Keys(c, s.flights)
  }

  predicate Tracked(s: State, id: string)
    requires id in s.cloud
  {
    var v := s.cloud[id];
    v.listed || v.name in s.cache || (v.name in s.flights && s.flights[v.name].phase.Created?)
  }

  // Created implies visible by name, or in the cache, or about to be put there.
  predicate CacheInv(c: Config, s: State) {
    && (c.Reliable() ==> forall id | id in s.cloud :: Tracked(s, id))
    && (forall name | name in s.cache :: exists id :: id in s.cloud && s.cloud[id].name == name)
  }

  predicate Unnamed(s: State, name: string) {
    forall id | id in s.cloud :: s.cloud[id].name != name
  }

  // What it means that nothing of a name was listed a while ago: in a reliable environment the name is in
  // the cache, or there is no volume of it; and there is none without a token.
  predicate NothingToSee(c: Config, s: State, name: string) {
    && (c.Reliable() ==> name in s.cache || Unnamed(s, name))
    && (forall id | id in s.cloud && s.cloud[id].name == name :: s.cloud[id].token != "")
  }

  predicate MadeFor(c: Config, s: State, request: Request, id: string, gb: int64) {
    && GetVolumeSizeGB(request.range) == Size(gb)
    && id in s.cloud && s.cloud[id].name == request.name
    && (c.Sized() ==> s.cloud[id].sizeGB == gb)
  }

  // A success names a volume of the requested name that has left its creating state, and its
  // capacity; under the condition it is of the size that the request stands for.
  predicate Truthful(c: Config, s: State, request: Request, outcome: Outcome<VolumeInfo>) {
    outcome.Done? ==>
      var id := outcome.value.id;
      && id in s.cloud && s.cloud[id].name == request.name && !s.cloud[id].creating
      && outcome.value.capacityBytes == SizeGBToBytes(s.cloud[id].sizeGB)
      && (c.Sized() ==> GetVolumeSizeGB(request.range) == Size(s.cloud[id].sizeGB))
  }

  // What a flight knows in each phase.
  predicate PhaseInv(c: Config, s: State, name: string)
    requires name in s.flights
  {
    var f := s.flights[name];
    match f.phase
    case Called => true
    case Locked => true
    case Checked(gb) => GetVolumeSizeGB(f.leader.range) == Size(gb)
    case Listing(gb, seen) =>
      && GetVolumeSizeGB(f.leader.range) == Size(gb)
      && seen <= Listed(s.cloud, name)
      && (seen == {} ==> NothingToSee(c, s, name))
    case Absent(gb) => GetVolumeSizeGB(f.leader.range) == Size(gb) && NothingToSee(c, s, name)
    case Missing(gb) =>
      && GetVolumeSizeGB(f.leader.range) == Size(gb)
      && (c.Reliable() ==> Unnamed(s, name))
      && (forall id | id in s.cloud && s.cloud[id].name == name :: s.cloud[id].token != "")
    case Created(id, gb) => MadeFor(c, s, f.leader, id, gb)
    case Cached(id, gb) => MadeFor(c, s, f.leader, id, gb)
    case Closing(outcome, dropsCache) =>
      && Truthful(c, s, f.leader, outcome)
      && (dropsCache && c.Reliable() ==> Listed(s.cloud, name) != {})
    case Returned(outcome) => Truthful(c, s, f.leader, outcome)
  }

  predicate Inv(c: Config, s: State) {
    && VolumesInv(c, s.cloud)
    && FlightsInv(s.flights)
    && LocksInv(c, s)
    && CacheInv(c, s)
    && forall name | name in s.flights :: PhaseInv(c, s, name)
  }

  // ---------- every step keeps the invariant ----------

  // For one cluster the token determines the name.
  lemma TokenInjective(c: Config, a: string, b: string)
    requires c.ClientToken(a) == c.ClientToken(b)
    ensures a == b
  {
    if c.clusterID != "" {
      var k := |c.clusterID| + 1;
      assert a == c.ClientToken(a)[k..] == c.ClientToken(b)[k..] == b;
    }
  }

  // The client tokens of two clusters, whose identifiers are not empty and hold no dash, never coincide; and
  // without a cluster the token is the name.
  lemma TokensKeepClustersApart(c: Config, d: Config, a: string, b: string)
    requires '-' !in c.clusterID && '-' !in d.clusterID && c.clusterID != "" && d.clusterID != ""
    requires c.ClientToken(a) == d.ClientToken(b)
    ensures c.clusterID == d.clusterID && a == b
  {
    var token, i, j := c.ClientToken(a), |c.clusterID|, |d.clusterID|;
    assert token == c.clusterID + "-" + a == d.clusterID + "-" + b;
    assert token[i] == '-' && token[j] == '-';
    assert forall k | 0 <= k < i :: token[k] == c.clusterID[k];
    assert forall k | 0 <= k < j :: token[k] == d.clusterID[k];
    assert token[..i] == c.clusterID && token[..j] == d.clusterID;
    assert token[i + 1..] == a && token[j + 1..] == b;
  }

  lemma TokenWithoutCluster(c: Config, a: string)
    requires c.clusterID == ""
    ensures c.ClientToken(a) == a
  {}

  lemma StepKeepsVolumes(c: Config, s: State, step: Step)
    requires Inv(c, s) && Enabled(c, s, step)
    ensures VolumesInv(c, CloudAfter(c, s, step))
  {
    if step.Create? && step.reply.Made? && step.reply.id !in s.cloud {
      var name := step.name;
      assert PhaseInv(c, s, name);
      if c.dedup {
        assert WithToken(s.cloud, c.ClientToken(name)) == {};
        assert forall id | id in s.cloud :: id !in WithToken(s.cloud, c.ClientToken(name));
      }
      if c.dedup || c.Reliable() {
        assert Unnamed(s, name);
      }
      assert c.ClientToken(name) != "";
    }
  }

  // A flight that enters or leaves the critical section changes the set of keys by its own key.
  lemma KeysAfterMove(c: Config, flights: map<string, Flight>, name: string, f: Flight)
    requires c.Valid() && name in flights && f.leader == flights[name].leader
    requires forall n | n in flights :: flights[n].leader.name == n
    ensures var after := Keys(c, flights[name := f]);
            var key := c.text(f.leader);
            after == if Holds(f.phase) then Keys(c, flights) + {key} else Keys(c, flights) - {key}
  {
    var moved := flights[name := f];
    var key := c.text(f.leader);
    forall n | n in flights && n != name ensures c.text(flights[n].leader) != key {
      assert flights[n].leader != f.leader;
    }
    forall k | k in Keys(c, flights) && k != key ensures k in Keys(c, moved) {
      var n :| n in flights && Holds(flights[n].phase) && c.text(flights[n].leader) == k;
      assert n in moved && moved[n] == flights[n];
    }
    if Holds(f.phase) {
      assert name in moved && Holds(moved[name].phase);
    }
  }

  lemma KeysAfterVisit(c: Config, flights: map<string, Flight>, name: string, f: Flight)
    requires name in flights ==> !Holds(flights[name].phase)
    requires !Holds(f.phase)
    ensures Keys(c, flights[name := f]) == Keys(c, flights)
    ensures Keys(c, flights - {name}) == Keys(c, flights)
  {
    forall k | k in Keys(c, flights) ensures k in Keys(c, flights[name := f]) && k in Keys(c, flights - {name}) {
      var n :| n in flights && Holds(flights[n].phase) && c.text(flights[n].leader) == k;
      assert n in flights[name := f] && n in flights - {name};
    }
  }

  // The key of a flight outside the critical section is free: equal texts mean equal requests, and
  // requests of one name share one flight.
  lemma LockIsFree(c: Config, s: State, name: string)
    requires c.Valid() && FlightsInv(s.flights) && LocksInv(c, s)
    requires name in s.flights && !Holds(s.flights[name].phase)
    ensures c.text(s.flights[name].leader) !in s.held
  {
    forall n | n in s.flights && Holds(s.flights[n].phase)
      ensures c.text(s.flights[n].leader) != c.text(s.flights[name].leader)
    {
      assert s.flights[n].leader.name == n;
    }
  }

  lemma MoveKeepsLocks(c: Config, s: State, step: Step)
    requires c.Valid() && FlightsInv(s.flights) && LocksInv(c, s) && Moves(step) && Enabled(c, s, step)
    ensures HeldAfter(c, s, step) == Keys(c, FlightsAfter(c, s, step))
  {
    var f := s.flights[step.name];
    KeysAfterMove(c, s.flights, step.name, FlightsAfter(c, s, step)[step.name]);
    if Holds(f.phase) {
      assert c.text(f.leader) in Keys(c, s.flights);
    } else {
      LockIsFree(c, s, step.name);
    }
  }

  lemma StepKeepsLocks(c: Config, s: State, step: Step)
    requires c.Valid() && FlightsInv(s.flights) && LocksInv(c, s) && Enabled(c, s, step)
    ensures FlightsInv(Apply(c, s, step).flights) && LocksInv(c, Apply(c, s, step))
  {
    if Moves(step) {
      MoveKeepsLocks(c, s, step);
    } else if step.Enter? {
      KeysAfterVisit(c, s.flights, step.request.name, FlightsAfter(c, s, step)[step.request.name]);
    } else if step.Leave? {
      KeysAfterVisit(c, s.flights, step.name, s.flights[step.name]);
    }
  }

  lemma StepKeepsTimers(c: Config, s: State, step: Step)
    requires TimersInv(s) && Enabled(c, s, step)
    ensures TimersInv(Apply(c, s, step))
  {
    var t := Apply(c, s, step);
    forall name | name in t.flights ensures Paced(t.flights[name].timer, t.clock) {
      if step.Enter? && step.request.name == name {
        PacedKeeps(t.flights[name].timer, s.clock, t.clock, step.deadline);
      } else {
        PacedKeeps(s.flights[name].timer, s.clock, t.clock, None);
      }
    }
  }

  // A name stays in the cache only with a volume to its name.
  lemma StepKeepsNamesKnown(c: Config, s: State, step: Step, name: string)
    requires Inv(c, s) && Enabled(c, s, step) && name in CacheAfter(c, s, step)
    ensures exists id :: id in CloudAfter(c, s, step) && CloudAfter(c, s, step)[id].name == name
  {
    var cloud := CloudAfter(c, s, step);
    if name in s.cache {
      var id :| id in s.cloud && s.cloud[id].name == name;
      assert id in cloud && cloud[id].name == name;
    } else {
      assert PhaseInv(c, s, name);
      var id := s.flights[name].phase.id;
      assert id in cloud && cloud[id].name == name;
    }
  }

  // An unlisted volume stays in the cache, or on the way there.
  lemma StepKeepsUnlisted(c: Config, s: State, step: Step, name: string)
    requires c.Reliable() && FlightsInv(s.flights) && Enabled(c, s, step)
    requires name in s.cache || (name in s.flights && s.flights[name].phase.Created?)
    requires step != Drop(name)
    ensures name in CacheAfter(c, s, step)
         || (name in FlightsAfter(c, s, step) && FlightsAfter(c, s, step)[name].phase.Created?)
  {}

  lemma StepKeepsTracked(c: Config, s: State, step: Step, id: string)
    requires c.Reliable() && Inv(c, s) && Enabled(c, s, step) && id in CloudAfter(c, s, step)
    ensures Tracked(Apply(c, s, step), id)
  {
    if id in s.cloud {
      assert Tracked(s, id);
      var name := s.cloud[id].name;
      if step == Drop(name) {
        assert PhaseInv(c, s, name);
        var listed :| listed in Listed(s.cloud, name);
        assert listed == id;
      } else if !s.cloud[id].listed {
        StepKeepsUnlisted(c, s, step, name);
      }
    }
  }

  lemma StepKeepsCache(c: Config, s: State, step: Step)
    requires Inv(c, s) && Enabled(c, s, step)
    ensures CacheInv(c, Apply(c, s, step))
  {
    var t := Apply(c, s, step);
    forall name | name in t.cache ensures exists id :: id in t.cloud && t.cloud[id].name == name {
      StepKeepsNamesKnown(c, s, step, name);
    }
    if c.Reliable() {
      forall id | id in t.cloud ensures Tracked(t, id) {
        StepKeepsTracked(c, s, step, id);
      }
    }
  }

  lemma ListedNothing(c: Config, s: State, name: string)
    requires Inv(c, s) && name in s.flights && s.flights[name].phase.Checked? && Listed(s.cloud, name) == {}
    ensures NothingToSee(c, s, name)
  {
    forall id | id in s.cloud && s.cloud[id].name == name
      ensures !s.cloud[id].listed && (c.Reliable() ==> name in s.cache)
    {
      assert id !in Listed(s.cloud, name);
      assert c.Reliable() ==> Tracked(s, id);
    }
  }

  lemma StartListKeepsPhase(c: Config, s: State, name: string)
    requires Inv(c, s) && Enabled(c, s, StartList(name))
    ensures PhaseInv(c, Apply(c, s, StartList(name)), name)
  {
    assert PhaseInv(c, s, name);
    if Listed(s.cloud, name) == {} {
      ListedNothing(c, s, name);
    }
  }

  lemma ListKeepsPhase(c: Config, s: State, name: string, found: set<string>, fault: bool)
    requires Inv(c, s) && Enabled(c, s, List(name, found, fault))
    ensures PhaseInv(c, Apply(c, s, List(name, found, fault)), name)
  {
    assert PhaseInv(c, s, name);
    if !fault && |found| == 1 {
      assert TheOne(found) in Listed(s.cloud, name);
    }
  }

  lemma CreateKeepsPhase(c: Config, s: State, name: string, reply: CreateReply)
    requires Inv(c, s) && Enabled(c, s, Create(name, reply))
    ensures PhaseInv(c, Apply(c, s, Create(name, reply)), name)
  {
    assert PhaseInv(c, s, name);
    if reply.Made? && reply.id in s.cloud {
      assert s.cloud[reply.id].token == c.ClientToken(name);
      TokenInjective(c, name, s.cloud[reply.id].name);
    }
  }

  lemma FetchKeepsPhase(c: Config, s: State, name: string, fault: bool)
    requires Inv(c, s) && Enabled(c, s, Fetch(name, fault))
    ensures PhaseInv(c, Apply(c, s, Fetch(name, fault)), name)
  {
    assert PhaseInv(c, s, name);
    var id := s.flights[name].phase.id;
    if s.cloud[id].readable && c.Reliable() {
      assert id in Listed(s.cloud, name);
    }
  }

  // Volumes are never renamed, resized, hidden or put back into their creating state.
  predicate CloudGrows(s: State, t: State) {
    forall id | id in s.cloud ::
      && id in t.cloud
      && t.cloud[id].name == s.cloud[id].name && t.cloud[id].token == s.cloud[id].token
      && t.cloud[id].sizeGB == s.cloud[id].sizeGB
      && (s.cloud[id].listed ==> t.cloud[id].listed)
      && (t.cloud[id].creating ==> s.cloud[id].creating)
  }

  // Only the flight of a name makes volumes of that name or touches its cache entry.
  lemma StepLeavesOthers(c: Config, s: State, step: Step, name: string)
    requires FlightsInv(s.flights) && Enabled(c, s, step)
    requires name in s.flights && name in Apply(c, s, step).flights
    requires !(Moves(step) && step.name == name)
    ensures var t := Apply(c, s, step);
            && CloudGrows(s, t)
            && t.flights[name] == s.flights[name]
            && (name in t.cache <==> name in s.cache)
            && forall id | id in t.cloud && id !in s.cloud :: t.cloud[id].name != name
  {}

  lemma OthersKeepPhase(c: Config, s: State, t: State, name: string)
    requires name in s.flights && PhaseInv(c, s, name) && s.flights[name].leader.name == name
    requires CloudGrows(s, t)
    requires name in t.flights && t.flights[name] == s.flights[name]
    requires name in t.cache <==> name in s.cache
    requires forall id | id in t.cloud && id !in s.cloud :: t.cloud[id].name != name
    ensures PhaseInv(c, t, name)
  {
    forall id | id in Listed(s.cloud, name) ensures id in Listed(t.cloud, name) {}
    forall id | id in t.cloud && t.cloud[id].name == name
      ensures id in s.cloud && s.cloud[id].name == name && s.cloud[id].token == t.cloud[id].token
    {}
  }

  lemma StepKeepsPhase(c: Config, s: State, step: Step, name: string)
    requires c.Valid() && Inv(c, s) && Enabled(c, s, step)
    requires name in Apply(c, s, step).flights
    ensures PhaseInv(c, Apply(c, s, step), name)
  {
    if Moves(step) && step.name == name {
      assert PhaseInv(c, s, name);
      if step.StartList? {
        StartListKeepsPhase(c, s, name);
      } else if step.List? {
        ListKeepsPhase(c, s, name, step.found, step.fault);
      } else if step.Create? {
        CreateKeepsPhase(c, s, name, step.reply);
      } else if step.Fetch? {
        FetchKeepsPhase(c, s, name, step.fault);
      }
    } else if name in s.flights {
      StepLeavesOthers(c, s, step, name);
      OthersKeepPhase(c, s, Apply(c, s, step), name);
    }
  }

  lemma StepKeepsInv(c: Config, s: State, step: Step)
    requires c.Valid() && Inv(c, s) && Enabled(c, s, step)
    ensures Inv(c, Apply(c, s, step))
  {
    StepKeepsVolumes(c, s, step);
    StepKeepsLocks(c, s, step);
    StepKeepsCache(c, s, step);
    forall name | name in Apply(c, s, step).flights ensures PhaseInv(c, Apply(c, s, step), name) {
      StepKeepsPhase(c, s, step, name);
    }
  }

  // ---------- whole runs ----------

  lemma {:induction false} RunKeepsInv(c: Config, s: State, steps: seq<Step>)
    requires c.Valid() && Init(s) && Exec(c, s, steps).Some?
    ensures Inv(c, Exec(c, s, steps).value)
  {
    if steps == [] {
    } else {
      RunKeepsInv(c, s, steps[..|steps| - 1]);
      StepKeepsInv(c, Exec(c, s, steps[..|steps| - 1]).value, steps[|steps| - 1]);
    }
  }

  // In every run, whatever the cloud does, TryLock finds its key free, and no key is held while no
  // flight is inside the handler.
  lemma {:induction false} RunKeepsLocks(c: Config, s: State, steps: seq<Step>)
    requires c.Valid() && Init(s) && Exec(c, s, steps).Some?
    ensures var t := Exec(c, s, steps).value;
            && FlightsInv(t.flights) && LocksInv(c, t)
            && (forall name | Enabled(c, t, TryLock(name)) :: Apply(c, t, TryLock(name)).flights[name].phase.Locked?)
            && ((forall name | name in t.flights :: !Holds(t.flights[name].phase)) ==> t.held == {})
  {
    if steps == [] {
    } else {
      RunKeepsLocks(c, s, steps[..|steps| - 1]);
      StepKeepsLocks(c, Exec(c, s, steps[..|steps| - 1]).value, steps[|steps| - 1]);
    }
    var t := Exec(c, s, steps).value;
    forall name | Enabled(c, t, TryLock(name)) ensures Apply(c, t, TryLock(name)).flights[name].phase.Locked? {
      LockIsFree(c, t, name);
    }
  }

  lemma {:induction false} RunKeepsTimers(c: Config, s: State, steps: seq<Step>)
    requires Init(s) && Exec(c, s, steps).Some?
    ensures TimersInv(Exec(c, s, steps).value)
  {
    if steps == [] {
    } else {
      RunKeepsTimers(c, s, steps[..|steps| - 1]);
      StepKeepsTimers(c, Exec(c, s, steps[..|steps| - 1]).value, steps[|steps| - 1]);
    }
  }

  // How often a flight has called its handler: at least once, at most once more for every two seconds
  // between its beginning and its wait deadline, and no later than that deadline but for the first time.
  lemma RunCallsWithinBudget(c: Config, s: State, steps: seq<Step>, name: string)
    requires Init(s) && Exec(c, s, steps).Some? && name in Exec(c, s, steps).value.flights
    ensures var t := Exec(c, s, steps).value.flights[name].timer;
            WithinBudget(t) && (t.calls > 1 ==> t.start <= t.waitDeadline)
  {
    RunKeepsTimers(c, s, steps);
    PacedBudget(Exec(c, s, steps).value.flights[name].timer, Exec(c, s, steps).value.clock);
  }

  // The answers of every run, whatever the environment: a flight that returns a volume returns one that
  // has the leader's name and is out of its creating state, with its capacity.  It has the size the
  // leader asked for under the condition that SizesTrueExactlyWhen shows to be exact, and
  // GetVolumeByName never reports several volumes where there is at most one for each name.
  lemma RunAnswersTruthfully(c: Config, s: State, steps: seq<Step>, name: string)
    requires c.Valid() && Init(s) && Exec(c, s, steps).Some?
    ensures var t := Exec(c, s, steps).value;
            && (c.Reliable() || c.dedup ==> |Listed(t.cloud, name)| <= 1)
            && (name in t.flights && t.flights[name].phase.Returned? ==>
                  Truthful(c, t, t.flights[name].leader, t.flights[name].phase.outcome))
  {
    RunKeepsInv(c, s, steps);
    var t := Exec(c, s, steps).value;
    if name in t.flights {
      assert PhaseInv(c, t, name);
    }
    if Listed(t.cloud, name) != {} && (c.Reliable() || c.dedup) {
      var id :| id in Listed(t.cloud, name);
      assert Listed(t.cloud, name) == {id};
    }
  }

  // Singleflight hands the leader's answer to every caller that waited under the same name.  It is true
  // of a caller exactly when the caller's range stands for the same size as the leader's.
  lemma FollowerServedExactlyWhen(c: Config, s: State, steps: seq<Step>, follower: Request)
    requires c.Sized() && c.Valid() && Init(s) && Exec(c, s, steps).Some?
    requires var t := Exec(c, s, steps).value;
             && follower.name in t.flights && t.flights[follower.name].phase.Returned?
             && t.flights[follower.name].phase.outcome.Done?
    ensures var t := Exec(c, s, steps).value;
            var f := t.flights[follower.name];
            Truthful(c, t, follower, f.phase.outcome) <==>
                GetVolumeSizeGB(follower.range) == GetVolumeSizeGB(f.leader.range)
  {
    RunAnswersTruthfully(c, s, steps, follower.name);
    RunKeepsLocks(c, s, steps);
  }
}
