/**
 Racing ControllerExpandVolume calls for one volume.  Nothing groups them: a call reads the volume in one
 step and resizes it in a later one.  A volume grows only by a resize that the cloud has accepted.  The
 main result says exactly when every resize asks for more than the volume has.
 */
module ExpandProtocol {
  import opened Status
  import opened Capacity
  import opened Volumes
  import opened Expansion

  datatype Phase =
    | Called(range: CapacityRange)      // read the volume
    | Ready(gb: int64)                  // resize it

  // The volume, the size it is scaling to, and the calls at work.
  datatype State = State(model: Model, target: int64, calls: map<nat, Phase>)

  datatype Step =
    | Enter(call: nat, range: CapacityRange)
    | Read(call: nat, fault: bool)
    | Issue(call: nat, accepted: bool)   // whether accepted or not, the call then ends
    | Settle(status: VolumeStatus)       // scaling ends, in this status
    | Drift(status: VolumeStatus)        // any other change of status

  /** How many calls may be at work at once, whether attached volumes are resized, and whether callers break
      the CSI rule that limits are not negative. */
  datatype Config = Config(width: nat, online: bool, negative: bool)

  predicate Enabled(c: Config, s: State, step: Step) {
    match step
    case Enter(call, range) =>
      call !in s.calls && |s.calls| < c.width && (range.Range? && range.limit < 0 ==> c.negative)
    case Read(call, _) => call in s.calls && s.calls[call].Called?
    case Issue(call, _) => call in s.calls && s.calls[call].Ready?
    case Settle(status) => s.model.status == Scaling && status != Scaling
    case Drift(status) => s.model.status != Scaling && status != Scaling
  }

  function AfterRead(c: Config, s: State, call: nat, fault: bool): map<nat, Phase>
    requires call in s.calls && s.calls[call].Called?
  {
    if fault then s.calls - {call}
    else
      match Decide(s.model, s.calls[call].range, c.online, false)
      case Answer(_) => s.calls - {call}
      case Resize(gb) => s.calls[call := Ready(gb)]
  }

  function Apply(c: Config, s: State, step: Step): State
    requires Enabled(c, s, step)
  {
    match step
    case Enter(call, range) => s.(calls := s.calls[call := Called(range)])
    case Read(call, fault) => s.(calls := AfterRead(c, s, call, fault))
    case Issue(call, accepted) =>
      var gone := s.(calls := s.calls - {call});
      if accepted then gone.(model := s.model.(status := Scaling), target := s.calls[call].gb) else gone
    case Settle(status) => s.(model := s.model.(status := status, sizeGB := s.target))
    case Drift(status) => s.(model := s.model.(status := status))
  }

  function Exec(c: Config, s: State, steps: seq<Step>): Option<State> {
    if steps == [] then Some(s)
    else
      var before := Exec(c, s, steps[..|steps| - 1]);
      var step := steps[|steps| - 1];
      if before.Some? && Enabled(c, before.value, step) then Some(Apply(c, before.value, step)) else None
  }

  // Any volume, which may be scaling to any size, and no call at work.
  predicate Init(s: State) {
    s.calls == map[] && 0 <= s.model.sizeGB < SIZE_BOUND_GB && 0 <= s.target < SIZE_BOUND_GB
  }

  // Every resize about to be issued asks for more than the volume has.
  predicate Grows(s: State) {
    forall call | call in s.calls && s.calls[call].Ready? :: s.model.sizeGB < s.calls[call].gb
  }

  ghost predicate AlwaysGrows(c: Config) {
    forall s, steps | Init(s) && Exec(c, s, steps).Some? :: Grows(Exec(c, s, steps).value)
  }

  // ---------- one call at a time ----------

  // A call that is about to resize is alone, so nothing is scaling and the volume is as it was read.
  predicate Inv(s: State) {
    && 0 <= s.model.sizeGB < SIZE_BOUND_GB && 0 <= s.target < SIZE_BOUND_GB
    && (forall a, b | a in s.calls && b in s.calls :: a == b)
    && (forall call | call in s.calls ::
          match s.calls[call]
          case Called(range) => range.Range? ==> range.limit >= 0
          case Ready(gb) => s.model.status != Scaling && s.model.sizeGB < gb < SIZE_BOUND_GB)
  }

  lemma StepKeepsInv(c: Config, s: State, step: Step)
    requires c.width <= 1 && !c.negative && Inv(s) && Enabled(c, s, step)
    ensures Inv(Apply(c, s, step))
  {
    if step.Read? && !step.fault && s.calls[step.call].range.Range? {
      ResizeExactlyWhen(s.model, s.calls[step.call].range, c.online, false);
    } else if step.Enter? {
      assert s.calls == map[];
    }
  }

  lemma {:induction false} RunKeepsInv(c: Config, s: State, steps: seq<Step>)
    requires c.width <= 1 && !c.negative && Init(s) && Exec(c, s, steps).Some?
    ensures Inv(Exec(c, s, steps).value)
  {
    if steps == [] {
    } else {
      RunKeepsInv(c, s, steps[..|steps| - 1]);
      StepKeepsInv(c, Exec(c, s, steps[..|steps| - 1]).value, steps[|steps| - 1]);
    }
  }

  lemma {:induction false} NoCalls(c: Config, s: State, steps: seq<Step>)
    requires c.width == 0 && Init(s) && Exec(c, s, steps).Some?
    ensures Exec(c, s, steps).value.calls == map[]
  {
    if steps == [] {
    } else {
      NoCalls(c, s, steps[..|steps| - 1]);
    }
  }

  // ---------- runs that do not grow ----------

  const START: State := State(Model(Available, [], 10), 10, map[])

  lemma Take(c: Config, steps: seq<Step>, s: State, step: Step) returns (more: seq<Step>, t: State)
    requires Exec(c, START, steps) == Some(s) && Enabled(c, s, step)
    ensures more == steps + [step] && t == Apply(c, s, step) && Exec(c, START, more) == Some(t)
  {
    more, t := steps + [step], Apply(c, s, step);
    assert more[..|more| - 1] == steps;
  }

  lemma Asked(online: bool, gb: int64)
    requires 10 < gb < 100
    ensures Decide(Model(Available, [], 10), Range(gb * GB, 0), online, false) == Resize(gb)
  {
    BytesFit(10);
    BytesFit(gb);
    RoundUpExactlyWhen(gb * GB);
  }

  const SMALLER: CapacityRange := Range(20 * GB, 0)
  const LARGER: CapacityRange := Range(30 * GB, 0)

  // Two requests, for 20 and for 30 GB, read the volume at 10 GB.
  lemma OverlappingReads(c: Config) returns (steps: seq<Step>, s: State)
    requires c.width >= 2
    ensures steps == [Enter(0, SMALLER), Enter(1, LARGER), Read(0, false), Read(1, false)]
    ensures s == START.(calls := map[0 := Ready(20), 1 := Ready(30)]) && Exec(c, START, steps) == Some(s)
  {
    Asked(c.online, 20);
    Asked(c.online, 30);
    steps, s := Take(c, [], START, Enter(0, SMALLER));
    steps, s := Take(c, steps, s, Enter(1, LARGER));
    steps, s := Take(c, steps, s, Read(0, false));
    steps, s := Take(c, steps, s, Read(1, false));
    assert s.calls == map[0 := Ready(20), 1 := Ready(30)];
  }

  // The larger request is carried out first, and then the smaller one is about to resize a volume of 30 GB
  // to 20.
  lemma OvertakenRun(c: Config) returns (steps: seq<Step>)
    requires c.width >= 2
    ensures steps == [Enter(0, SMALLER), Enter(1, LARGER), Read(0, false), Read(1, false),
                      Issue(1, true), Step.Settle(Available)]
    ensures Exec(c, START, steps).Some?
    ensures var t := Exec(c, START, steps).value;
            t.calls == map[0 := Ready(20)] && t.model.sizeGB == 30 && CanResize(t.model.status, c.online)
  {
    var s;
    steps, s := OverlappingReads(c);
    steps, s := Take(c, steps, s, Issue(1, true));
    assert s.calls == map[0 := Ready(20)];
    steps, s := Take(c, steps, s, Step.Settle(Available));
  }

  // One request with a negative limit, for the size that the volume has.
  lemma StandstillRun(c: Config) returns (steps: seq<Step>)
    requires c.width >= 1 && c.negative
    ensures Exec(c, START, steps).Some?
    ensures var t := Exec(c, START, steps).value; t.calls == map[0 := Ready(10)] && t.model.sizeGB == 10
  {
    BytesFit(10);
    RoundUpExactlyWhen(10 * GB);
    var s := START;
    steps, s := Take(c, [], s, Enter(0, Range(10 * GB, -1)));
    steps, s := Take(c, steps, s, Read(0, false));
  }

  // The exact condition: in every run every resize grows the volume if and only if calls for it come one at
  // a time and limits are not negative (or no call comes at all).
  lemma AlwaysGrowsExactlyWhen(c: Config)
    ensures AlwaysGrows(c) <==> c.width == 0 || (c.width == 1 && !c.negative)
  {
    assert Init(START);
    if c.width == 0 {
      forall s, steps | Init(s) && Exec(c, s, steps).Some? ensures Grows(Exec(c, s, steps).value) {
        NoCalls(c, s, steps);
      }
    } else if c.width == 1 && !c.negative {
      forall s, steps | Init(s) && Exec(c, s, steps).Some? ensures Grows(Exec(c, s, steps).value) {
        RunKeepsInv(c, s, steps);
      }
    } else if c.negative {
      var steps := StandstillRun(c);
      assert Exec(c, START, steps).value.calls[0] == Ready(10);
      assert !Grows(Exec(c, START, steps).value);
    } else {
      var steps := OvertakenRun(c);
      assert Exec(c, START, steps).value.calls[0] == Ready(20);
      assert !Grows(Exec(c, START, steps).value);
    }
  }
}
