/**
 Racing NodePublishVolume calls for one target, with unpublishing going on at the same time.  Publishing
 takes no lock: a call looks whether anything is mounted on the target, and binds later if nothing was.
 The main result says how many mounts that can leave on the target.
 */
module PublishProtocol {
  import opened Status

  datatype Phase =
    | Looking          // look up what is mounted on the target
    | WillBind         // mount

  // The calls at work, and the devices mounted on the target, oldest first.
  datatype State = State(calls: map<nat, Phase>, stack: seq<string>)

  datatype Step =
    | Enter(call: nat)
    | LookUp(call: nat, fails: bool)
    | Bind(call: nat, fails: bool)
    | Unmount

  /** The device that is published, how many calls may be at work at once, and the mounts to begin with. */
  datatype Config = Config(device: string, width: nat, mounts: seq<string>)

  predicate In(s: State, call: nat, phase: Phase) {
    call in s.calls && s.calls[call] == phase
  }

  predicate Enabled(c: Config, s: State, step: Step) {
    match step
    case Enter(call) => call !in s.calls && |s.calls| < c.width
    case LookUp(call, _) => In(s, call, Looking)
    case Bind(call, _) => In(s, call, WillBind)
    case Unmount => s.stack != []
  }

  function Apply(c: Config, s: State, step: Step): State
    requires Enabled(c, s, step)
  {
    match step
    case Enter(call) => s.(calls := s.calls[call := Looking])
    case LookUp(call, fails) =>
      if fails || s.stack != [] then s.(calls := s.calls - {call}) else s.(calls := s.calls[call := WillBind])
    case Bind(call, fails) => State(s.calls - {call}, if fails then s.stack else s.stack + [c.device])
    case Unmount => s.(stack := s.stack[..|s.stack| - 1])
  }

  function Start(c: Config): State {
    State(map[], c.mounts)
  }

  function Exec(c: Config, steps: seq<Step>): Option<State> {
    if steps == [] then Some(Start(c))
    else
      var before := Exec(c, steps[..|steps| - 1]);
      var step := steps[|steps| - 1];
      if before.Some? && Enabled(c, before.value, step) then Some(Apply(c, before.value, step)) else None
  }

  // ---------- the bound ----------

  function Pending(s: State): set<nat> {
    set call | call in s.calls && s.calls[call] == WillBind
  }

  function Max(a: nat, b: nat): nat {
    if a > b then a else b
  }

  // The mounts and those still to come.
  predicate Inv(c: Config, s: State) {
    && |s.calls| <= c.width
    && |s.stack| + |Pending(s)| <= Max(|c.mounts|, c.width)
  }

  lemma {:induction false} SubsetCard(a: set<nat>, b: set<nat>)
    requires a <= b
    ensures |a| <= |b|
  {
    if a == {} {
    } else {
      var x :| x in a;
      SubsetCard(a - {x}, b - {x});
    }
  }

  lemma PendingAfter(c: Config, s: State, step: Step)
    requires Enabled(c, s, step)
    ensures var after := Pending(Apply(c, s, step));
            match step
            case LookUp(call, fails) => after == if fails || s.stack != [] then Pending(s) else Pending(s) + {call}
            case Bind(call, _) => after == Pending(s) - {call} && call in Pending(s)
            case _ => after == Pending(s)
  {}

  lemma CallsAfter(c: Config, s: State, step: Step)
    requires Enabled(c, s, step)
    ensures var after := Apply(c, s, step).calls;
            && (step.Enter? ==> |after| == |s.calls| + 1)
            && (!step.Enter? ==> |after| <= |s.calls|)
  {
    var after := Apply(c, s, step).calls;
    assert |after.Keys| == |after| && |s.calls.Keys| == |s.calls|;
    if step.Enter? {
      assert after.Keys == s.calls.Keys + {step.call};
    } else {
      SubsetCard(after.Keys, s.calls.Keys);
    }
  }

  lemma StepKeepsInv(c: Config, s: State, step: Step)
    requires Inv(c, s) && Enabled(c, s, step)
    ensures Inv(c, Apply(c, s, step))
  {
    var t := Apply(c, s, step);
    PendingAfter(c, s, step);
    CallsAfter(c, s, step);
    SubsetCard(Pending(t), t.calls.Keys);
    assert |t.calls.Keys| == |t.calls|;
  }

  lemma {:induction false} RunKeepsInv(c: Config, steps: seq<Step>)
    requires Exec(c, steps).Some?
    ensures Inv(c, Exec(c, steps).value)
  {
    if steps == [] {
      assert Pending(Start(c)) == {};
    } else {
      RunKeepsInv(c, steps[..|steps| - 1]);
      StepKeepsInv(c, Exec(c, steps[..|steps| - 1]).value, steps[|steps| - 1]);
    }
  }

  // ---------- the bound is reached ----------

  lemma Take(c: Config, steps: seq<Step>, s: State, step: Step, t: State) returns (more: seq<Step>)
    requires Exec(c, steps) == Some(s) && Enabled(c, s, step) && Apply(c, s, step) == t
    ensures Exec(c, more) == Some(t)
  {
    more := steps + [step];
    assert more[..|more| - 1] == steps;
  }

  function PhaseOf(call: nat, looked: nat): Phase {
    if call < looked then WillBind else Looking
  }

  // Calls 0 to n - 1, of which those from `from` on are still at work and those below `looked` have looked.
  function Calls(n: nat, looked: nat, from: nat): map<nat, Phase> {
    map k: nat | from <= k < n :: PhaseOf(k, looked)
  }

  lemma {:induction false} ClearedRun(c: Config, left: nat) returns (steps: seq<Step>)
    requires left <= |c.mounts|
    ensures Exec(c, steps) == Some(State(map[], c.mounts[..left]))
    decreases |c.mounts| - left
  {
    if left == |c.mounts| {
      steps := [];
      assert c.mounts[..left] == c.mounts;
    } else {
      steps := ClearedRun(c, left + 1);
      assert c.mounts[..left + 1][..left] == c.mounts[..left];
      steps := Take(c, steps, State(map[], c.mounts[..left + 1]), Unmount, State(map[], c.mounts[..left]));
    }
  }

  lemma {:induction false} CallsCard(n: nat)
    ensures |Calls(n, 0, 0)| == n
  {
    if n == 0 {
      assert Calls(0, 0, 0) == map[];
    } else {
      CallsCard(n - 1);
      assert Calls(n, 0, 0) == Calls(n - 1, 0, 0)[n - 1 := Looking];
    }
  }

  lemma {:induction false} EnteredRun(c: Config, n: nat) returns (steps: seq<Step>)
    requires n <= c.width
    ensures Exec(c, steps) == Some(State(Calls(n, 0, 0), []))
  {
    if n == 0 {
      steps := ClearedRun(c, 0);
      assert Calls(0, 0, 0) == map[];
    } else {
      steps := EnteredRun(c, n - 1);
      CallsCard(n - 1);
      assert Calls(n, 0, 0) == Calls(n - 1, 0, 0)[n - 1 := Looking];
      steps := Take(c, steps, State(Calls(n - 1, 0, 0), []), Enter(n - 1), State(Calls(n, 0, 0), []));
    }
  }

  lemma {:induction false} LookedRun(c: Config, n: nat) returns (steps: seq<Step>)
    requires n <= c.width
    ensures Exec(c, steps) == Some(State(Calls(c.width, n, 0), []))
  {
    if n == 0 {
      steps := EnteredRun(c, c.width);
    } else {
      steps := LookedRun(c, n - 1);
      assert Calls(c.width, n, 0) == Calls(c.width, n - 1, 0)[n - 1 := WillBind];
      steps := Take(c, steps, State(Calls(c.width, n - 1, 0), []), LookUp(n - 1, false),
          State(Calls(c.width, n, 0), []));
    }
  }

  lemma {:induction false} BoundRun(c: Config, n: nat) returns (steps: seq<Step>)
    requires n <= c.width
    ensures Exec(c, steps) == Some(State(Calls(c.width, c.width, n), seq(n, _ => c.device)))
  {
    if n == 0 {
      steps := LookedRun(c, c.width);
    } else {
      steps := BoundRun(c, n - 1);
      var s := State(Calls(c.width, c.width, n - 1), seq(n - 1, _ => c.device));
      var t := State(Calls(c.width, c.width, n), seq(n, _ => c.device));
      assert t.calls == s.calls - {n - 1} && t.stack == s.stack + [c.device];
      steps := Take(c, steps, s, Bind(n - 1, false), t);
    }
  }

  // The exact bound: no run leaves more than n mounts on the target if and only if there are no more to
  // begin with and at most n calls are at work at once.  So a target keeps to one mount exactly when it has
  // no more than one and publish calls for it come one at a time.
  lemma MountsBoundedExactlyWhen(c: Config, n: nat)
    ensures (forall steps | Exec(c, steps).Some? :: |Exec(c, steps).value.stack| <= n) <==>
        |c.mounts| <= n && c.width <= n
  {
    if |c.mounts| <= n && c.width <= n {
      forall steps | Exec(c, steps).Some? ensures |Exec(c, steps).value.stack| <= n {
        RunKeepsInv(c, steps);
      }
    } else if |c.mounts| > n {
      assert Exec(c, []) == Some(Start(c));
    } else {
      var steps := BoundRun(c, c.width);
    }
  }
}
