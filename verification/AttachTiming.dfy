/**
 Publish and unpublish on the clock.  If the cloud carries out an accepted Attach within `delay`, no call of
 the handler takes longer than `longest`, and one more retry fits before the wait deadline, a flight of
 AttachProtocol succeeds with a single Attach; and the same for Detach.  What the environment owes is
 said of the states of the run and of the answers in it, never of what the flight does.
 */
module AttachTiming {
  import opened Status
  import opened Timers
  import opened Volumes
  import opened AttachProtocol

  // ---------- publishing ----------

  // What the cloud owes a publish flight: nobody detaches; the volume is AVAILABLE while it has no attachment,
  // and with one it is IN USE, or still ATTACHING before the delay is over.  The delay runs from the
  // flight's own Attach, or from its beginning when the volume was attached before.
  predicate Attaches(s: State, id: string, delay: nat, longest: nat) {
    && id in s.disks && id in s.publishing
    && var d, f := s.disks[id], s.publishing[id];
       && d.removals == f.removals0
       && (d.model.attachments == [] ==> d.model.status == Available)
       && (d.model.attachments != [] ==>
             d.model.status == InUse || (d.model.status == Attaching && s.clock < f.timer.acted + delay))
       && OnTime(f.timer, f.phase.PReturned? && f.phase.outcome.IsAborted(), s.clock, longest)
  }

  // No call of the flight fails, and its end is left to the conclusion.
  predicate PublishSmooth(step: Step, id: string) {
    && step != PLeave(id)
    && (step.PStep? && step.id == id ==>
          match step.publish
          case PNode(reply) => reply == Exists
          case PRead(fault) => !fault
          case PAttach(reply) => reply.Accepted? && reply.reported
          case _ => true)
  }

  // Where a flight stands.  `free`: the volume had no attachment when it began.
  predicate PublishUnderway(d: Disk, f: Publish, free: bool, delay: nat, longest: nat) {
    var t := f.timer;
    && (t.finish.Some? ==> t.finish.value <= t.start + longest && f.phase.PReturned?)
    && if d.model.attachments == [] then
         && free && f.issued == 0
         && t.start == t.begun && t.finish.None? && (f.phase.PCalled? || f.phase.PNodeSeen? || f.phase.PReady?)
       else
         && f.issued == (if free then 1 else 0) && t.begun <= t.acted <= t.begun + longest
         && t.start < t.acted + delay + longest + RETRY_DELAY
         && |d.model.attachments| == 1 && d.model.attachments[0].instance == f.node
         && var a := d.model.attachments[0];
            || f.phase.PCalled? || f.phase.PNodeSeen?
            || (f.phase == PReturned(Error(Aborted)) && t.start < t.acted + delay)
            || f.phase == PReturned(Done(Attached(a.device, a.serial)))
  }

  lemma PublishMoveKeepsUnderway(s: State, id: string, move: PublishMove, free: bool, delay: nat, longest: nat)
    requires delay > 0 && Inv(s) && Enabled(s, PStep(id, move)) && PublishSmooth(PStep(id, move), id)
    requires Attaches(s, id, delay, longest) && Attaches(Apply(s, PStep(id, move)), id, delay, longest)
    requires PublishUnderway(s.disks[id], s.publishing[id], free, delay, longest)
    ensures var t := Apply(s, PStep(id, move));
            PublishUnderway(t.disks[id], t.publishing[id], free, delay, longest)
  {
    var d, f := s.disks[id], s.publishing[id];
    assert DiskInv(d) && PublishInv(Some(d), f) && Paced(f.timer, s.clock);
    if move.PRead? && d.model.attachments != [] {
      assert FindAttachment(d.model.attachments, f.node) == 0;
    }
  }

  lemma StepKeepsPublishUnderway(s: State, step: Step, id: string, free: bool, delay: nat, longest: nat)
    requires delay > 0 && Inv(s) && Enabled(s, step) && PublishSmooth(step, id)
    requires Attaches(s, id, delay, longest) && Attaches(Apply(s, step), id, delay, longest)
    requires PublishUnderway(s.disks[id], s.publishing[id], free, delay, longest)
    ensures var t := Apply(s, step);
            PublishUnderway(t.disks[id], t.publishing[id], free, delay, longest)
  {
    if step.PStep? && step.id == id {
      PublishMoveKeepsUnderway(s, id, step.publish, free, delay, longest);
    } else {
      StepEffect(s, step, id);
      assert Apply(s, step).publishing[id] == s.publishing[id];
    }
  }

  // A publish flight that has just begun, for a volume that is in sight and not attached to another node.
  predicate PublishBegins(s: State, id: string, node: string, deadline: Option<int>) {
    && id in s.disks && id in s.publishing
    && s.publishing[id] == NewPublish(node, Some(s.disks[id]), Timers.Begin(s.clock, deadline))
    && forall a | a in s.disks[id].model.attachments :: a.instance == node
  }

  predicate Free(s: State, id: string)
    requires id in s.disks
  {
    s.disks[id].model.attachments == []
  }

  // A run throughout which the environment does its part.
  predicate PublishServed(s: State, steps: seq<Step>, id: string, delay: nat, longest: nat) {
    && Exec(s, steps).Some? && Attaches(Exec(s, steps).value, id, delay, longest)
    && (steps == [] ||
        (PublishSmooth(steps[|steps| - 1], id) && PublishServed(s, steps[..|steps| - 1], id, delay, longest)))
  }

  // Where the flight that began in s stands in t.
  predicate PublishOnCourse(s: State, t: State, id: string, node: string, deadline: Option<int>, delay: nat,
                            longest: nat)
    requires id in s.disks
  {
    && Inv(t) && Attaches(t, id, delay, longest)
    && PublishUnderway(t.disks[id], t.publishing[id], Free(s, id), delay, longest)
    && t.publishing[id].node == node
    && t.publishing[id].timer.begun == s.clock && t.publishing[id].timer.waitDeadline == WaitDeadline(s.clock, deadline)
  }

  lemma PublishStepOnCourse(s: State, t: State, step: Step, id: string, node: string, deadline: Option<int>,
                            delay: nat, longest: nat)
    requires id in s.disks && delay > 0 && PublishOnCourse(s, t, id, node, deadline, delay, longest)
    requires Enabled(t, step) && PublishSmooth(step, id) && Attaches(Apply(t, step), id, delay, longest)
    ensures PublishOnCourse(s, Apply(t, step), id, node, deadline, delay, longest)
  {
    StepKeepsInv(t, step);
    StepKeepsPublishUnderway(t, step, id, Free(s, id), delay, longest);
  }

  lemma PublishStartsOnCourse(s: State, id: string, node: string, deadline: Option<int>, delay: nat, longest: nat)
    requires delay > 0 && Inv(s) && PublishBegins(s, id, node, deadline) && Attaches(s, id, delay, longest)
    ensures PublishOnCourse(s, s, id, node, deadline, delay, longest)
  {
    assert DiskInv(s.disks[id]);
    if !Free(s, id) {
      assert s.disks[id].model.attachments[0] in s.disks[id].model.attachments;
    }
  }

  lemma {:induction false} PublishStaysOnCourse(s: State, steps: seq<Step>, id: string, node: string,
                                                deadline: Option<int>, delay: nat, longest: nat)
    requires delay > 0 && Inv(s) && PublishBegins(s, id, node, deadline)
    requires PublishServed(s, steps, id, delay, longest)
    ensures PublishOnCourse(s, Exec(s, steps).value, id, node, deadline, delay, longest)
  {
    if steps == [] {
      PublishStartsOnCourse(s, id, node, deadline, delay, longest);
    } else {
      var front, last := steps[..|steps| - 1], steps[|steps| - 1];
      PublishStaysOnCourse(s, front, id, node, deadline, delay, longest);
      PublishStepOnCourse(s, Exec(s, front).value, last, id, node, deadline, delay, longest);
    }
  }

  // In every run from the beginning of a publish flight, the flight can end only with the device and
  // serial of the volume's only attachment, which is to its node, after exactly one Attach, or after none
  // when the volume was attached or attaching to the node already; and it has that answer by the time
  // limit.
  lemma PublishSucceedsInTime(s: State, steps: seq<Step>, id: string, node: string, deadline: Option<int>,
                              delay: nat, longest: nat)
    requires Inv(s) && PublishBegins(s, id, node, deadline) && Fits(s.publishing[id].timer, delay, longest)
    requires PublishServed(s, steps, id, delay, longest)
    ensures var t := Exec(s, steps).value;
            && id in t.publishing && id in t.disks &&
            var f, attachments := t.publishing[id], t.disks[id].model.attachments;
            CanLeavePublish(f, t.clock) || t.clock > Limit(f.timer, delay, longest) ==>
              && f.phase.PReturned? && f.phase.outcome.Done? && f.issued == (if Free(s, id) then 1 else 0)
              && attachments == [Attachment(node, f.phase.outcome.value.device, f.phase.outcome.value.serial)]
  {
    PublishStaysOnCourse(s, steps, id, node, deadline, delay, longest);
  }

  // ---------- unpublishing ----------

  // A volume that is attached to a node and not on its way off.
  predicate Holds(d: Disk, node: string) {
    IsAttachedTo(d.model.attachments, node) && d.model.status != Detaching
  }

  // What the cloud owes an unpublish flight: nobody attaches, and no detachment is given up; a volume that is
  // attached and DETACHING is so before the delay is over, which runs from the flight's own Detach, or from
  // its beginning.  `held`: the volume held on to the node when the flight began; then it does so until
  // the flight's Detach.
  predicate Detaches(s: State, id: string, held: bool, delay: nat, longest: nat) {
    && id in s.disks && id in s.unpublishing
    && var d, f := s.disks[id], s.unpublishing[id];
       && d.attaches == f.attaches0 && d.reverts == f.reverts0
       && (held && f.issued == 0 ==> Holds(d, f.node))
       && (IsAttachedTo(d.model.attachments, f.node) && d.model.status == Detaching ==> s.clock < f.timer.acted + delay)
       && OnTime(f.timer, f.phase.UReturned? && f.phase.outcome.IsAborted(), s.clock, longest)
  }

  predicate UnpublishSmooth(step: Step, id: string) {
    && step != ULeave(id)
    && (step.UStep? && step.id == id ==>
          match step.unpublish
          case URead(fault) => !fault
          case UNode(reply) => reply == Exists
          case UDetach(accepted, reported) => accepted && reported
          case _ => true)
  }

  predicate UnpublishUnderway(d: Disk, f: Unpublish, held: bool, delay: nat, longest: nat) {
    var t := f.timer;
    && !f.gone && f.attaches0 == f.seen
    && (t.finish.Some? ==> t.finish.value <= t.start + longest && f.phase.UReturned?)
    && if held && f.issued == 0 then
         && t.start == t.begun && t.finish.None? && !f.phase.UReturned?
         && (f.phase.USeen? ==> IsAttachedTo(f.phase.model.attachments, f.node) && f.phase.model.status != Detaching)
       else
         && f.issued == (if held then 1 else 0) && t.begun <= t.acted <= t.begun + longest
         && t.start < t.acted + delay + longest + RETRY_DELAY
         && !Holds(d, f.node)
         && match f.phase
            case UCalled => true
            case USeen(model) =>
              if IsAttachedTo(model.attachments, f.node) then model.status == Detaching && t.start < t.acted + delay
              else !IsAttachedTo(d.model.attachments, f.node)
            case UReady => false
            case UReturned(outcome) =>
              || (outcome == Error(Aborted) && t.start < t.acted + delay)
              || (outcome.Done? && !IsAttachedTo(d.model.attachments, f.node))
  }

  lemma UnpublishMoveKeepsUnderway(s: State, id: string, move: UnpublishMove, held: bool, delay: nat, longest: nat)
    requires delay > 0 && Inv(s) && Enabled(s, UStep(id, move)) && UnpublishSmooth(UStep(id, move), id)
    requires Detaches(s, id, held, delay, longest) && Detaches(Apply(s, UStep(id, move)), id, held, delay, longest)
    requires UnpublishUnderway(s.disks[id], s.unpublishing[id], held, delay, longest)
    ensures var t := Apply(s, UStep(id, move));
            UnpublishUnderway(t.disks[id], t.unpublishing[id], held, delay, longest)
  {
    var d, f := s.disks[id], s.unpublishing[id];
    assert DiskInv(d) && UnpublishInv(Some(d), f) && Paced(f.timer, s.clock);
  }

  lemma StepKeepsUnpublishUnderway(s: State, step: Step, id: string, held: bool, delay: nat, longest: nat)
    requires delay > 0 && Inv(s) && Enabled(s, step) && UnpublishSmooth(step, id)
    requires Detaches(s, id, held, delay, longest) && Detaches(Apply(s, step), id, held, delay, longest)
    requires UnpublishUnderway(s.disks[id], s.unpublishing[id], held, delay, longest)
    ensures var t := Apply(s, step);
            UnpublishUnderway(t.disks[id], t.unpublishing[id], held, delay, longest)
  {
    if step.UStep? && step.id == id {
      UnpublishMoveKeepsUnderway(s, id, step.unpublish, held, delay, longest);
    } else {
      StepEffect(s, step, id);
      var d, e, node := s.disks[id], Apply(s, step).disks[id], s.unpublishing[id].node;
      assert Apply(s, step).unpublishing[id] == s.unpublishing[id];
      assert DiskInv(d) && DiskInv(e) && Quiet(d, e);
      assert Holds(e, node) ==> IsAttachedTo(d.model.attachments, node) && !Resting(e.model);
    }
  }

  predicate UnpublishBegins(s: State, id: string, node: string, deadline: Option<int>) {
    && id in s.disks && id in s.unpublishing
    && s.unpublishing[id] == NewUnpublish(node, Some(s.disks[id]), Timers.Begin(s.clock, deadline))
  }

  predicate UnpublishServed(s: State, steps: seq<Step>, id: string, held: bool, delay: nat, longest: nat) {
    && Exec(s, steps).Some? && Detaches(Exec(s, steps).value, id, held, delay, longest)
    && (steps == [] ||
        (UnpublishSmooth(steps[|steps| - 1], id) && UnpublishServed(s, steps[..|steps| - 1], id, held, delay, longest)))
  }

  predicate UnpublishOnCourse(s: State, t: State, id: string, node: string, deadline: Option<int>,
                              held: bool, delay: nat, longest: nat)
  {
    && Inv(t) && Detaches(t, id, held, delay, longest)
    && UnpublishUnderway(t.disks[id], t.unpublishing[id], held, delay, longest)
    && t.unpublishing[id].node == node
    && t.unpublishing[id].timer.begun == s.clock
    && t.unpublishing[id].timer.waitDeadline == WaitDeadline(s.clock, deadline)
  }

  lemma UnpublishStepOnCourse(s: State, t: State, step: Step, id: string, node: string, deadline: Option<int>,
                              held: bool, delay: nat, longest: nat)
    requires delay > 0 && UnpublishOnCourse(s, t, id, node, deadline, held, delay, longest)
    requires Enabled(t, step) && UnpublishSmooth(step, id) && Detaches(Apply(t, step), id, held, delay, longest)
    ensures UnpublishOnCourse(s, Apply(t, step), id, node, deadline, held, delay, longest)
  {
    StepKeepsInv(t, step);
    StepKeepsUnpublishUnderway(t, step, id, held, delay, longest);
  }

  lemma {:induction false} UnpublishStaysOnCourse(s: State, steps: seq<Step>, id: string, node: string,
                                                  deadline: Option<int>, held: bool, delay: nat, longest: nat)
    requires delay > 0 && Inv(s) && UnpublishBegins(s, id, node, deadline) && held == Holds(s.disks[id], node)
    requires UnpublishServed(s, steps, id, held, delay, longest)
    ensures UnpublishOnCourse(s, Exec(s, steps).value, id, node, deadline, held, delay, longest)
  {
    if steps == [] {
    } else {
      var front, last := steps[..|steps| - 1], steps[|steps| - 1];
      UnpublishStaysOnCourse(s, front, id, node, deadline, held, delay, longest);
      UnpublishStepOnCourse(s, Exec(s, front).value, last, id, node, deadline, held, delay, longest);
    }
  }

  // The dual: an unpublish flight can end only with success, with the volume no longer attached to its node,
  // after exactly one Detach, or after none when the volume was detached or detaching already; and it
  // has that answer by the time limit.
  lemma UnpublishSucceedsInTime(s: State, steps: seq<Step>, id: string, node: string, deadline: Option<int>,
                                delay: nat, longest: nat)
    requires Inv(s) && UnpublishBegins(s, id, node, deadline) && Fits(s.unpublishing[id].timer, delay, longest)
    requires UnpublishServed(s, steps, id, Holds(s.disks[id], node), delay, longest)
    ensures var t := Exec(s, steps).value;
            && id in t.unpublishing && id in t.disks &&
            var f := t.unpublishing[id];
            CanLeaveUnpublish(f, t.clock) || t.clock > Limit(f.timer, delay, longest) ==>
              && f.phase.UReturned? && f.phase.outcome.Done?
              && f.issued == (if Holds(s.disks[id], node) then 1 else 0)
              && !IsAttachedTo(t.disks[id].model.attachments, node)
  {
    UnpublishStaysOnCourse(s, steps, id, node, deadline, Holds(s.disks[id], node), delay, longest);
  }
}
