/**
 Racing NodeStageVolume calls for one staging path and device, with unstaging going on at the same time.
 The KeyMutex key of a call is the text of its request, so calls exclude each other only when their
 requests are the same; the main result says that this is exactly what it takes.
 */
module StageProtocol {
  import opened Status

  datatype Phase =
    | Called           // TryLock
    | Locked           // look up the device mounted on the path
    | WillMount        // mount
    | Closing          // deferred Unlock
    | Returned

  predicate Critical(phase: Phase) {
    !phase.Called? && !phase.Returned?
  }

  datatype Thread = Thread(text: string, phase: Phase)

  // `stack` holds the devices mounted on the staging path, oldest first.
  datatype State = State(threads: map<nat, Thread>, held: set<string>, stack: seq<string>)

  datatype Step =
    | Enter(thread: nat, text: string)
    | TryLock(thread: nat)
    | LookUp(thread: nat, fails: bool)
    | Mount(thread: nat, fails: bool)
    | Unlock(thread: nat)
    | Unmount

  /** The device being staged, the request texts that calls arrive with, and the mounts that are on the
      staging path to begin with, oldest first. */
  datatype Config = Config(source: string, texts: set<string>, mounts: seq<string>)

  predicate In(s: State, thread: nat, phase: Phase) {
    thread in s.threads && s.threads[thread].phase == phase
  }

  predicate Enabled(c: Config, s: State, step: Step) {
    match step
    case Enter(thread, text) => thread !in s.threads && text in c.texts
    case TryLock(thread) => In(s, thread, Called)
    case LookUp(thread, _) => In(s, thread, Locked)
    case Mount(thread, _) => In(s, thread, WillMount)
    case Unlock(thread) => In(s, thread, Closing)
    case Unmount => s.stack != []
  }

  function Move(s: State, thread: nat, phase: Phase): State
    requires thread in s.threads
  {
    s.(threads := s.threads[thread := s.threads[thread].(phase := phase)])
  }

  function Apply(c: Config, s: State, step: Step): State
    requires Enabled(c, s, step)
  {
    match step
    case Enter(thread, text) => s.(threads := s.threads[thread := Thread(text, Called)])
    case TryLock(thread) =>
      var key := s.threads[thread].text;
      if key in s.held then Move(s, thread, Returned) else Move(s, thread, Locked).(held := s.held + {key})
    case LookUp(thread, fails) =>
      Move(s, thread, if fails || (s.stack != [] && s.stack[0] == c.source) then Closing else WillMount)
    case Mount(thread, fails) =>
      var t := Move(s, thread, Closing);
      if fails then t else t.(stack := s.stack + [c.source])
    case Unlock(thread) => Move(s, thread, Returned).(held := s.held - {s.threads[thread].text})
    case Unmount => s.(stack := s.stack[..|s.stack| - 1])
  }

  function Exec(c: Config, s: State, steps: seq<Step>): Option<State> {
    if steps == [] then Some(s)
    else
      var before := Exec(c, s, steps[..|steps| - 1]);
      var step := steps[|steps| - 1];
      if before.Some? && Enabled(c, before.value, step) then Some(Apply(c, before.value, step)) else None
  }

  function Start(c: Config): State {
    State(map[], {}, c.mounts)
  }

  predicate OneText(c: Config) {
    forall a, b | a in c.texts && b in c.texts :: a == b
  }

  // ---------- locks ----------

  predicate Holder(s: State, thread: nat, key: string) {
    thread in s.threads && Critical(s.threads[thread].phase) && s.threads[thread].text == key
  }

  // The held keys are exactly those of the threads in the critical section, which share no key.
  ghost predicate LocksInv(c: Config, s: State) {
    && (forall t | t in s.threads :: s.threads[t].text in c.texts)
    && (forall key :: key in s.held <==> exists t :: Holder(s, t, key))
    && (forall t, u, key | Holder(s, t, key) && Holder(s, u, key) :: t == u)
  }

  // A step changes the holders of its own thread's key only, and only by taking or giving up the key.
  lemma StepMovesHolder(c: Config, s: State, step: Step, t: nat, key: string)
    requires LocksInv(c, s) && Enabled(c, s, step)
    ensures Holder(Apply(c, s, step), t, key) <==>
              ((Holder(s, t, key) && step != Unlock(t))
                  || (step == TryLock(t) && s.threads[t].text == key && key !in s.held))
  {}

  lemma StepKeepsLocks(c: Config, s: State, step: Step)
    requires LocksInv(c, s) && Enabled(c, s, step)
    ensures LocksInv(c, Apply(c, s, step))
  {
    var t := Apply(c, s, step);
    forall u, key
      ensures Holder(t, u, key) <==>
                ((Holder(s, u, key) && step != Unlock(u))
                    || (step == TryLock(u) && s.threads[u].text == key && key !in s.held))
    {
      StepMovesHolder(c, s, step, u, key);
    }
    if step.Unlock? {
      assert Holder(s, step.thread, s.threads[step.thread].text);
    } else if step.TryLock? && s.threads[step.thread].text !in s.held {
      assert Holder(t, step.thread, s.threads[step.thread].text);
    }
    forall key ensures key in t.held <==> exists u :: Holder(t, u, key) {
      if u :| Holder(s, u, key) && step != Unlock(u) {
        assert Holder(t, u, key);
      }
    }
  }

  // ---------- one mount ----------

  // How often a device is mounted on the path.
  function Count(stack: seq<string>, device: string): nat {
    if stack == [] then 0
    else Count(stack[..|stack| - 1], device) + (if stack[|stack| - 1] == device then 1 else 0)
  }

  lemma CountPush(stack: seq<string>, last: string, device: string)
    ensures Count(stack + [last], device) == Count(stack, device) + (if last == device then 1 else 0)
  {
    assert (stack + [last])[..|stack|] == stack;
  }

  // Staging looks only at the oldest mount.
  predicate OldestIsOurs(c: Config, stack: seq<string>) {
    stack == [] || stack[0] == c.source
  }

  predicate StackInv(c: Config, s: State) {
    && Count(s.stack, c.source) <= 1
    && OldestIsOurs(c, s.stack)
    && (forall t | t in s.threads && s.threads[t].phase.WillMount? :: s.stack == [])
  }

  lemma StepKeepsStack(c: Config, s: State, step: Step)
    requires OneText(c) && LocksInv(c, s) && StackInv(c, s) && Enabled(c, s, step)
    ensures StackInv(c, Apply(c, s, step))
  {
    if step.Mount? {
      CountPush(s.stack, c.source, c.source);
      forall t | t in s.threads && t != step.thread ensures !s.threads[t].phase.WillMount? {
        var key := s.threads[step.thread].text;
        assert s.threads[t].text == key && Holder(s, step.thread, key);
        assert !Holder(s, t, key);
      }
    }
  }

  // Where no call can arrive, nothing but unmounting happens.
  predicate Quiet(c: Config, s: State) {
    s.threads == map[] && Count(s.stack, c.source) <= 1
  }

  // The environments in which the path is safe: the device is on it at most once, and either there are
  // no calls, or all carry one request and the oldest mount is the device.
  predicate Safe(c: Config) {
    Count(c.mounts, c.source) <= 1 && (c.texts == {} || (OneText(c) && OldestIsOurs(c, c.mounts)))
  }

  lemma {:induction false} RunKeepsInv(c: Config, steps: seq<Step>)
    requires Exec(c, Start(c), steps).Some?
    ensures LocksInv(c, Exec(c, Start(c), steps).value)
    ensures Safe(c) ==> Count(Exec(c, Start(c), steps).value.stack, c.source) <= 1
    ensures Safe(c) && c.texts != {} ==> StackInv(c, Exec(c, Start(c), steps).value)
    ensures Safe(c) && c.texts == {} ==> Quiet(c, Exec(c, Start(c), steps).value)
  {
    if steps == [] {
    } else {
      var before := Exec(c, Start(c), steps[..|steps| - 1]).value;
      RunKeepsInv(c, steps[..|steps| - 1]);
      StepKeepsLocks(c, before, steps[|steps| - 1]);
      if Safe(c) && c.texts != {} {
        StepKeepsStack(c, before, steps[|steps| - 1]);
      }
    }
  }

  // ---------- runs that mount the device twice ----------

  lemma Take(c: Config, steps: seq<Step>, s: State, step: Step) returns (more: seq<Step>, t: State)
    requires Exec(c, Start(c), steps) == Some(s) && Enabled(c, s, step)
    ensures t == Apply(c, s, step) && Exec(c, Start(c), more) == Some(t)
  {
    more, t := steps + [step], Apply(c, s, step);
    assert more[..|more| - 1] == steps;
  }

  // All mounts can be taken off the path.
  lemma {:induction false} ClearedRun(c: Config, left: nat) returns (steps: seq<Step>)
    requires left <= |c.mounts|
    ensures Exec(c, Start(c), steps) == Some(Start(c).(stack := c.mounts[..left]))
    decreases |c.mounts| - left
  {
    if left == |c.mounts| {
      steps := [];
      assert c.mounts[..left] == c.mounts;
    } else {
      steps := ClearedRun(c, left + 1);
      var t;
      steps, t := Take(c, steps, Start(c).(stack := c.mounts[..left + 1]), Unmount);
      assert t.stack == c.mounts[..left + 1][..left] == c.mounts[..left];
    }
  }

  // Two different requests race from an empty path.
  lemma DoubleMount(c: Config, a: string, b: string) returns (steps: seq<Step>)
    requires a in c.texts && b in c.texts && a != b
    ensures Exec(c, Start(c), steps).Some? && Exec(c, Start(c), steps).value.stack == [c.source, c.source]
  {
    steps := ClearedRun(c, 0);
    var s := Start(c).(stack := []);
    steps, s := Take(c, steps, s, Enter(0, a));
    steps, s := Take(c, steps, s, Enter(1, b));
    steps, s := Take(c, steps, s, TryLock(0));
    steps, s := Take(c, steps, s, TryLock(1));
    steps, s := Take(c, steps, s, LookUp(0, false));
    steps, s := Take(c, steps, s, LookUp(1, false));
    steps, s := Take(c, steps, s, Mount(0, false));
    steps, s := Take(c, steps, s, Mount(1, false));
  }

  // One request, called twice in a row, where the oldest mount is foreign.
  lemma MountsAgain(c: Config, a: string) returns (steps: seq<Step>)
    requires a in c.texts && !OldestIsOurs(c, c.mounts)
    ensures Exec(c, Start(c), steps).Some?
    ensures Exec(c, Start(c), steps).value.stack == c.mounts + [c.source] + [c.source]
  {
    var s := Start(c);
    steps, s := Take(c, [], s, Enter(0, a));
    steps, s := Take(c, steps, s, TryLock(0));
    steps, s := Take(c, steps, s, LookUp(0, false));
    steps, s := Take(c, steps, s, Mount(0, false));
    steps, s := Take(c, steps, s, Unlock(0));
    steps, s := Take(c, steps, s, Enter(1, a));
    steps, s := Take(c, steps, s, TryLock(1));
    steps, s := Take(c, steps, s, LookUp(1, false));
    steps, s := Take(c, steps, s, Mount(1, false));
  }

  // However staging calls race with each other and with unstaging, the path carries the device at most
  // once if and only if it does so to begin with, and either no call arrives or all carry the same request
  // and the oldest mount on the path, if there is one, is the device.
  lemma OneMountExactlyWhen(c: Config)
    ensures (forall steps | Exec(c, Start(c), steps).Some? ::
               Count(Exec(c, Start(c), steps).value.stack, c.source) <= 1)
       <==> Safe(c)
  {
    if Safe(c) {
      forall steps | Exec(c, Start(c), steps).Some? ensures Count(Exec(c, Start(c), steps).value.stack, c.source) <= 1 {
        RunKeepsInv(c, steps);
      }
    } else if Count(c.mounts, c.source) > 1 {
      assert Exec(c, Start(c), []) == Some(Start(c));
    } else if !OneText(c) {
      var a, b :| a in c.texts && b in c.texts && a != b;
      var steps := DoubleMount(c, a, b);
      CountPush([c.source], c.source, c.source);
      CountPush([], c.source, c.source);
      assert [c.source] + [c.source] == [c.source, c.source] && [] + [c.source] == [c.source];
    } else {
      var a :| a in c.texts;
      var steps := MountsAgain(c, a);
      CountPush(c.mounts, c.source, c.source);
      CountPush(c.mounts + [c.source], c.source, c.source);
    }
  }
}
