/**
 Volume expansion: the controller's handler, its meeting with a cloud that resizes asynchronously,
 and the node's check of the device that results.
 */
module Expansion {
  import opened Status
  import opened Capacity
  import opened Volumes

  datatype Expanded = Expanded(capacityBytes: int64, nodeExpansionRequired: bool)

  // What the handler decides once it has read the volume: to answer, or to resize first.
  datatype Decision = Answer(outcome: Outcome<Expanded>) | Resize(newSizeGB: int64)

  predicate CanResize(status: VolumeStatus, online: bool) {
    status == Available || (online && status == InUse)
  }

  function Decide(model: Model, range: CapacityRange, online: bool, isBlock: bool): Decision {
    if model.status == Scaling then Answer(Error(Aborted))
    else if range.Unset? then Answer(Error(InvalidArgument))
    else if MeetsRange(model.sizeGB, range) then Answer(Done(Expanded(SizeGBToBytes(model.sizeGB), !isBlock)))
    else
      var size := GetVolumeSizeGB(range);
      if size.Invalid? || size.gb < model.sizeGB then Answer(Error(InvalidArgument))
      else if !CanResize(model.status, online) then Answer(Error(FailedPrecondition))
      else Resize(size.gb)
  }

  /** The cloud's volumes and the resize calls it has been sent, newest last. */
  class ExpandService {
    var volumes: map<string, Model>
    ghost var resizes: seq<(string, int64)>

    constructor (volumes: map<string, Model>)
      ensures this.volumes == volumes && resizes == []
    {
      this.volumes := volumes;
      resizes := [];
    }

    // The call may be refused; an accepted one puts the volume into the scaling state, and may still report
    // an error.
    method Resize(id: string, newSizeGB: int64) returns (reported: bool, ghost accepted: bool)
      requires id in volumes
      modifies this
      ensures resizes == old(resizes) + [(id, newSizeGB)]
      ensures reported ==> accepted
      ensures volumes == if accepted then old(volumes)[id := old(volumes)[id].(status := Scaling)] else old(volumes)
    {
      volumes := volumes[id := volumes[id].(status := Scaling)];
      resizes := resizes + [(id, newSizeGB)];
      return true, true;
    }

    // `fault` says whether reading the volume fails.
    method ControllerExpandVolume(id: string, range: CapacityRange, online: bool, isBlock: bool, fault: bool)
      returns (outcome: Outcome<Expanded>)
      modifies this
      ensures id == "" ==> outcome == Error(InvalidArgument) && volumes == old(volumes) && resizes == old(resizes)
      ensures id != "" && fault ==> outcome == Error(Internal) && volumes == old(volumes) && resizes == old(resizes)
      ensures id != "" && !fault && id !in old(volumes) ==>
                outcome == Error(NotFound) && volumes == old(volumes) && resizes == old(resizes)
      ensures id != "" && !fault && id in old(volumes) ==>
                match Decide(old(volumes)[id], range, online, isBlock)
                case Answer(o) => outcome == o && volumes == old(volumes) && resizes == old(resizes)
                case Resize(gb) =>
                  && resizes == old(resizes) + [(id, gb)]
                  && (outcome == Error(Aborted) || outcome == Error(Internal))
                  && var scaling := old(volumes)[id := old(volumes)[id].(status := Scaling)];
                     volumes == scaling || (outcome == Error(Internal) && volumes == old(volumes))
    {
      if id == "" {
        return Error(InvalidArgument);
      }
      if fault {
        return Error(Internal);
      }
      if id !in volumes {
        return Error(NotFound);
      }
      var volume := volumes[id];
      if volume.status == Scaling {
        return Error(Aborted);
      }
      if range.Unset? {
        return Error(InvalidArgument);
      }
      var oldSizeInGB := volume.sizeGB;
      if MeetsRange(oldSizeInGB, range) {
        return Done(Expanded(SizeGBToBytes(oldSizeInGB), !isBlock));
      }
      var newSize := GetVolumeSizeGB(range);
      if newSize.Invalid? {
        return Error(InvalidArgument);
      }
      if newSize.gb < oldSizeInGB {
        return Error(InvalidArgument);
      }
      var canResize := volume.status == Available || (online && volume.status == InUse);
      if !canResize {
        return Error(FailedPrecondition);
      }
      var reported;
      ghost var accepted;
      reported, accepted := Resize(id, newSize.gb);
      if !reported {
        return Error(Internal);
      }
      return Error(Aborted);
    }
  }

  // ---------- one call ----------

  // The case of a positive requirement that can be rounded.
  lemma LeastSizeGrows(model: Model, range: CapacityRange)
    requires range.Range? && 0 < range.required <= MAX_ROUNDABLE && range.limit >= 0
        && 0 <= model.sizeGB < SIZE_BOUND_GB
    ensures GetVolumeSizeGB(range).Size? ==>
              var gb := GetVolumeSizeGB(range).gb;
              && 0 <= gb < SIZE_BOUND_GB && MeetsRange(gb, range)
              && (forall g: int64 | 0 <= g < gb :: !MeetsRange(g, range))
              && (model.sizeGB < gb <==> model.sizeGB * GB < range.required)
  {
    var size := GetVolumeSizeGB(range);
    BytesFit(model.sizeGB);
    RoundUpExactlyWhen(range.required);
    BytesFit(RoundUpGB(range.required));
    ReturnedSizeMeetsExactlyWhen(range.required, range.limit);
    if size.Size? {
      forall g: int64 | 0 <= g < size.gb ensures !MeetsRange(g, range) {
        if MeetsRange(g, range) {
          ReturnedSizeIsLeast(range, g);
        }
      }
    }
  }

  // Resize is called exactly when the volume is too small for the range, some whole-GB size fits it and
  // the status allows it; the new size is the least that satisfies the range, and it is larger than the
  // old one.  The limit must not be negative, as the CSI rules have it.
  lemma ResizeExactlyWhen(model: Model, range: CapacityRange, online: bool, isBlock: bool)
    requires range.Range? && range.limit >= 0 && 0 <= model.sizeGB < SIZE_BOUND_GB
    ensures Decide(model, range, online, isBlock).Resize? <==>
              && (model.status == Available || (online && model.status == InUse))
              && model.sizeGB * GB < range.required
              && exists gb: int64 :: 0 <= gb < SIZE_BOUND_GB && MeetsRange(gb, range)
    ensures Decide(model, range, online, isBlock).Resize? ==>
              var gb := Decide(model, range, online, isBlock).newSizeGB;
              && model.sizeGB < gb < SIZE_BOUND_GB && MeetsRange(gb, range)
              && forall g: int64 | 0 <= g < gb :: !MeetsRange(g, range)
  {
    var size := GetVolumeSizeGB(range);
    BytesFit(model.sizeGB);
    BytesFit(DEFAULT_VOLUME_SIZE_GB);
    InvalidExactlyWhen(range.required, range.limit);
    ReturnedSizeMeetsExactlyWhen(range.required, range.limit);
    if range.required < 0 {
      RoundUpNegative(range.required);
      BytesFit(RoundUpGB(range.required));
    } else if range.required > MAX_ROUNDABLE {
      RoundUpExactlyWhen(range.required);
      forall gb: int64 | 0 <= gb < SIZE_BOUND_GB ensures !MeetsRange(gb, range) {
        NoSizeBeyond(range, gb);
      }
    } else if range.required > 0 {
      LeastSizeGrows(model, range);
    }
  }

  // Every answer, each with the condition under which it is given: a volume that is scaling is to be asked for
  // again; one in range is a success; one that is too small, and could be resized but for its status, is a
  // failed precondition; and the rest is an invalid request.
  lemma AnswersExactlyWhen(model: Model, range: CapacityRange, online: bool, isBlock: bool)
    requires range.Range? ==> range.limit >= 0
    requires 0 <= model.sizeGB < SIZE_BOUND_GB
    ensures var bytes := model.sizeGB * GB;
            var inRange := range.Range? && range.required <= bytes && (range.limit > 0 ==> bytes <= range.limit);
            var canGrow := range.Range? && bytes < range.required
                           && exists gb: int64 :: 0 <= gb < SIZE_BOUND_GB && MeetsRange(gb, range);
            var settled := model.status != Scaling;
            var decision := Decide(model, range, online, isBlock);
            && (decision == Answer(Error(Aborted)) <==> !settled)
            && (decision == Answer(Done(Expanded(bytes, !isBlock))) <==> settled && inRange)
            && (decision == Answer(Error(FailedPrecondition)) <==>
                  settled && canGrow && model.status != Available && !(online && model.status == InUse))
            && (decision == Answer(Error(InvalidArgument)) <==> settled && !inRange && !canGrow)
  {
    BytesFit(model.sizeGB);
    if range.Range? {
      ResizeExactlyWhen(model, range, online, isBlock);
      ResizeExactlyWhen(model.(status := Available), range, online, isBlock);
    }
  }

  // Over every int64 range: a resize is to a size in range exactly when the limit is not negative, and to a
  // larger size exactly when the volume is smaller than the requirement, or than the default where
  // nothing is required.
  lemma ResizeFitsExactlyWhen(model: Model, required: int64, limit: int64, online: bool, isBlock: bool)
    requires 0 <= model.sizeGB < SIZE_BOUND_GB
    ensures var range := Range(required, limit);
            var wanted := if required == 0 then DEFAULT_VOLUME_SIZE_GB * GB else required;
            var decision := Decide(model, range, online, isBlock);
            decision.Resize? ==>
              && (MeetsRange(decision.newSizeGB, range) <==> limit >= 0)
              && (model.sizeGB < decision.newSizeGB <==> model.sizeGB * GB < wanted)
  {
    BytesFit(model.sizeGB);
    BytesFit(DEFAULT_VOLUME_SIZE_GB);
    if required < 0 {
      RoundUpNegative(required);
      BytesFit(RoundUpGB(required));
    } else {
      RoundUpExactlyWhen(required);
      BytesFit(RoundUpGB(required));
    }
  }

  // Where a caller breaks the rule on limits, and requires something: Resize is called exactly when the
  // status allows it and the volume is smaller than the requirement rounded up, or of that size.
  lemma NegativeLimitResizesExactlyWhen(model: Model, required: int64, limit: int64, online: bool, isBlock: bool)
    requires 0 <= model.sizeGB < SIZE_BOUND_GB && required > 0 && limit < 0
    ensures Decide(model, Range(required, limit), online, isBlock).Resize? <==>
              && (model.status == Available || (online && model.status == InUse))
              && required <= MAX_ROUNDABLE && (model.sizeGB - 1) * GB < required
  {
    BytesFit(model.sizeGB);
    RoundUpExactlyWhen(required);
    BytesFit(RoundUpGB(required));
  }

  // An instance of both: a resize to a size that is not in range, and is the one the volume has.
  lemma NegativeLimitResizes()
    ensures Decide(Model(Available, [], 5), Range(5 * GB, -1), false, false) == Resize(5)
    ensures !MeetsRange(5, Range(5 * GB, -1))
  {
    BytesFit(5);
    RoundUpExactlyWhen(5 * GB);
  }

  // Once the cloud has finished scaling to the size asked for, the same request succeeds, reports that
  // size, which is in range, and does not resize again; and the node accepts the larger device for
  // that range.
  lemma ExpansionConverges(model: Model, range: CapacityRange, online: bool, isBlock: bool, after: Model)
    requires range.Range? && range.limit >= 0 && 0 <= model.sizeGB < SIZE_BOUND_GB
    requires Decide(model, range, online, isBlock).Resize?
    requires after.sizeGB == Decide(model, range, online, isBlock).newSizeGB && after.status != Scaling
    ensures Decide(after, range, online, isBlock) == Answer(Done(Expanded(after.sizeGB * GB, !isBlock)))
    ensures range.required <= after.sizeGB * GB && (range.limit > 0 ==> after.sizeGB * GB <= range.limit)
    ensures NodeAccepts(after.sizeGB * GB, range)
  {
    ResizeExactlyWhen(model, range, online, isBlock);
    BytesFit(after.sizeGB);
    ChecksAgreeExactlyWhen(after.sizeGB, range.required, range.limit);
  }

  // Whenever the controller reports success, with or without resizing, the node does not find the
  // device out of range.
  lemma ControllerSuccessFitsNode(model: Model, range: CapacityRange, online: bool, isBlock: bool)
    requires 0 <= model.sizeGB < SIZE_BOUND_GB
    ensures var decision := Decide(model, range, online, isBlock);
            decision.Answer? && decision.outcome.Done? ==>
              && decision.outcome.value.capacityBytes == model.sizeGB * GB
              && NodeAccepts(model.sizeGB * GB, range)
  {
    BytesFit(model.sizeGB);
  }

  // ---------- any number of calls ----------

  // A volume that requests arrive at: scaling, it has a size to grow to.  `resizes` counts the calls.
  datatype Growing = Growing(model: Model, target: int64, resizes: nat)

  datatype Event =
    | Request(range: CapacityRange, accepted: bool)   // an expand request, and the cloud's answer if it is asked
    | Settle(status: VolumeStatus)                    // scaling ends, in this status
    | Drift(status: VolumeStatus)                     // any other change of status

  predicate Possible(v: Growing, event: Event) {
    match event
    case Request(range, _) => range.Range? ==> range.limit >= 0
    case Settle(status) => v.model.status == Scaling && status != Scaling
    case Drift(status) => v.model.status != Scaling && status != Scaling
  }

  function React(v: Growing, event: Event, online: bool): Growing {
    match event
    case Request(range, accepted) => (
      match Decide(v.model, range, online, false)
      case Answer(_) => v
      case Resize(gb) =>
        if accepted then Growing(v.model.(status := Scaling), gb, v.resizes + 1) else v.(resizes := v.resizes + 1)
    )
    case Settle(status) => v.(model := v.model.(status := status, sizeGB := v.target))
    case Drift(status) => v.(model := v.model.(status := status))
  }

  predicate CanRun(v: Growing, events: seq<Event>, online: bool)
    decreases |events|
  {
    events == [] || (Possible(v, events[0]) && CanRun(React(v, events[0], online), events[1..], online))
  }

  function Run(v: Growing, events: seq<Event>, online: bool): Growing
    decreases |events|
  {
    if events == [] then v else Run(React(v, events[0], online), events[1..], online)
  }

  predicate Settled(v: Growing) {
    && 0 <= v.model.sizeGB <= v.target < SIZE_BOUND_GB
    && (v.model.status != Scaling ==> v.target == v.model.sizeGB)
  }

  // The requests that the cloud refused: the only resize calls without an effect.
  function Refusals(v: Growing, events: seq<Event>, online: bool): nat
    decreases |events|
  {
    if events == [] then 0
    else (if events[0].Request? && !events[0].accepted
        && Decide(v.model, events[0].range, online, false).Resize? then 1 else 0)
         + Refusals(React(v, events[0], online), events[1..], online)
  }

  // Over any sequence of expand requests, whatever their ranges, a volume never shrinks, and every
  // accepted resize grows it by at least one gigabyte.
  lemma {:induction false} RunsOnlyGrow(v: Growing, events: seq<Event>, online: bool)
    requires Settled(v) && CanRun(v, events, online)
    ensures var w := Run(v, events, online);
            && Settled(w)
            && v.model.sizeGB <= w.model.sizeGB
            && v.resizes <= w.resizes
            && w.resizes - v.resizes - Refusals(v, events, online) <= w.target - v.target
    decreases |events|
  {
    if events == [] {
    } else {
      if events[0].Request? && events[0].range.Range? {
        ResizeExactlyWhen(v.model, events[0].range, online, false);
      }
      RunsOnlyGrow(React(v, events[0], online), events[1..], online);
    }
  }

  // One request, repeated any number of times while the volume scales, settles and changes status,
  // resizes at most once, but for calls that the cloud refuses, and not at all when the volume has the
  // required size or is growing to it.
  lemma {:induction false} SameRequestResizesOnce(v: Growing, events: seq<Event>, range: CapacityRange, online: bool)
    requires range.Range? && Settled(v) && CanRun(v, events, online)
    requires forall e | e in events && e.Request? :: e.range == range
    ensures Run(v, events, online).resizes
         <= v.resizes + Refusals(v, events, online) + (if v.target * GB < range.required then 1 else 0)
    decreases |events|
  {
    if events == [] {
    } else {
      BytesFit(v.target);
      if events[0].Request? {
        assert events[0].range == range;
        ResizeExactlyWhen(v.model, range, online, false);
        if Decide(v.model, range, online, false).Resize? {
          BytesFit(Decide(v.model, range, online, false).newSizeGB);
        }
      }
      SameRequestResizesOnce(React(v, events[0], online), events[1..], range, online);
    }
  }
}
