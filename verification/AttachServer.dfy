/**
 The publish and unpublish handlers as the program runs them: a call that reads, then a call that acts,
 with other requests and the cloud free to act in between.  As in CreateServer, a ghost log ties what
 a method does to a run of the protocol, here that of AttachProtocol.
 */
module AttachServer {
  import opened Status
  import opened Timers
  import opened Volumes
  import opened AttachProtocol
  import opened AttachAnswers

  datatype Detail = Fault | NotThere | Found(model: Model)

  // The two kinds of flight that a volume can have.
  datatype Kind = Publishing | Unpublishing

  // What a call of the handler leaves alone in its flight: all but phase, counters and the moment at which
  // the cloud was told to act.
  predicate Same(f: Publish, g: Publish) {
    && g.node == f.node && g.attaches0 == f.attaches0 && g.removals0 == f.removals0
    && g.timer.(acted := f.timer.acted) == f.timer
  }

  predicate Alike(f: Unpublish, g: Unpublish) {
    && g.node == f.node && g.attaches0 == f.attaches0 && g.reverts0 == f.reverts0
    && g.timer.(acted := f.timer.acted) == f.timer
  }

  // What a publish flight that ends with an outcome tells about its volume: success means that the
  // volume is attached to the leader's node and to no other, with the device and serial reported,
  // unless an attachment was removed after the handler had read it; and Attach was called at most once
  // more than attachments were removed.
  predicate PublishAnswer(disks: Disks, id: string, flight: Publish, outcome: Outcome<Attached>) {
    && flight.phase == PReturned(outcome)
    && (outcome.Done? ==>
          && id in disks
          && (disks[id].removals == flight.seen ==>
                disks[id].model.attachments == [Attachment(flight.node, outcome.value.device, outcome.value.serial)]))
    && (id in disks ==> flight.issued <= 1 + disks[id].removals - flight.removals0)
  }

  // The dual: success means that the volume or the node is gone, or that the volume is not attached to the
  // node, unless it was attached after the handler had read it; and Detach was called at most once, but
  // for detachments that the cloud gave up and attachments made in the meantime.
  predicate UnpublishAnswer(disks: Disks, id: string, flight: Unpublish, outcome: Outcome<()>) {
    && flight.phase == UReturned(outcome)
    && (outcome.Done? && id in disks && !flight.gone ==>
          disks[id].attaches > flight.seen || !IsAttachedTo(disks[id].model.attachments, flight.node))
    && (id in disks ==>
          flight.issued <= 1 + disks[id].reverts - flight.reverts0 + disks[id].attaches - flight.attaches0)
  }

  /** The cloud's side: volumes with their histories, and a node directory. */
  class CloudService {
    var disks: Disks

    constructor (disks: Disks)
      ensures this.disks == disks
    {
      this.disks := disks;
    }

    method GetVolumeByID(id: string) returns (reading: Detail)
      ensures match reading
              case Fault => true
              case NotThere => id !in disks
              case Found(model) => id in disks && model == disks[id].model
    {
      return if id in disks then Found(disks[id].model) else NotThere;
    }

    // Whether a node exists is the cloud's to say.
    method GetNodeByID(node: string) returns (reply: NodeReply) {
      return Exists;
    }

    method Attach(id: string, node: string) returns (reply: AttachReply)
      requires id in disks
      modifies this
      ensures reply.Accepted? ==> reply.status != Available
      ensures disks == if reply.Accepted?
                       then
                         var d := old(disks)[id];
                         old(disks)[id := WithAttachment(d, node, reply.device, reply.serial, reply.status)]
                       else old(disks)
    {
      return Refused;
    }

    method Detach(id: string, node: string) returns (accepted: bool, reported: bool)
      requires id in disks
      modifies this
      ensures disks == if accepted then old(disks)[id := WithStatus(old(disks)[id], Detaching)] else old(disks)
    {
      return false, false;
    }
  }

  class ControllerServer {
    const cloud: CloudService
    // The time of day.
    var clock: int

    // The requests under way, the state at the start, and the steps since.
    ghost var publishing: map<string, Publish>
    ghost var unpublishing: map<string, Unpublish>
    ghost var expanding: map<nat, Expand>
    ghost const start: State
    ghost var log: seq<Step>

    ghost function View(): State
      reads this, cloud
    {
      State(cloud.disks, publishing, unpublishing, expanding, clock)
    }

    ghost predicate Valid()
      reads this, cloud
    {
      Init(start) && Exec(start, log) == Some(View())
    }

    constructor (cloud: CloudService, now: int)
      requires Init(State(cloud.disks, map[], map[], map[], now))
      ensures Valid() && log == [] && this.cloud == cloud && publishing == map[] && unpublishing == map[]
          && clock == now
    {
      this.cloud := cloud;
      clock := now;
      publishing := map[];
      unpublishing := map[];
      expanding := map[];
      start := State(cloud.disks, map[], map[], map[], now);
      log := [];
    }

    // Accounts for a step whose effect on cloud and clock has just taken place.
    ghost method Record(step: Step, before: State)
      requires Init(start) && Exec(start, log) == Some(before) && Enabled(before, step)
      requires publishing == before.publishing && unpublishing == before.unpublishing && expanding == before.expanding
      requires cloud.disks == DisksAfter(before, step) && clock == Apply(before, step).clock
      modifies this`publishing, this`unpublishing, this`expanding, this`log
      ensures Valid() && log == old(log) + [step] && View() == Apply(before, step)
    {
      publishing := PublishingAfter(before, step);
      unpublishing := UnpublishingAfter(before, step);
      expanding := ExpandingAfter(before, step);
      log := log + [step];
      assert log[..|log| - 1] == old(log);
    }

    // Whatever other requests and the cloud do in the meantime: any steps of the protocol but those of
    // the volume's flight of one kind.  Time may pass.
    method Interfere(ghost kind: Kind, ghost id: string)
      requires Valid()
      modifies this, cloud
      ensures Valid() && old(log) <= log && old(clock) <= clock
      ensures kind.Publishing? && id in old(publishing) ==> id in publishing && publishing[id] == old(publishing[id])
      ensures kind.Unpublishing? && id in old(unpublishing) ==>
          id in unpublishing && unpublishing[id] == old(unpublishing[id])
    {
    }

    // Sleeps; others go on.
    method SleepUntil(ghost kind: Kind, ghost id: string, time: int)
      requires Valid() && clock <= time
      modifies this, cloud
      ensures Valid() && old(log) <= log && clock == time
      ensures kind.Publishing? && id in old(publishing) ==> id in publishing && publishing[id] == old(publishing[id])
      ensures kind.Unpublishing? && id in old(unpublishing) ==>
          id in unpublishing && unpublishing[id] == old(unpublishing[id])
    {
      ghost var before := View();
      ghost var passed := time - clock;
      clock := time;
      Record(Tick(passed), before);
    }

    ghost predicate Publishes(id: string, f: Publish)
      reads this, cloud
    {
      Valid() && id in publishing && publishing[id] == f
    }

    ghost predicate Unpublishes(id: string, f: Unpublish)
      reads this, cloud
    {
      Valid() && id in unpublishing && unpublishing[id] == f
    }

    // ---------- controllerPublishVolume ----------

    // `f` is the flight as it stands.
    method LookUpNode(id: string, node: string, ghost f: Publish) returns (next: PublishPhase, ghost reply: NodeReply)
      requires Publishes(id, f) && f.phase == PCalled && f.node == node
      modifies this, cloud
      ensures Publishes(id, f.(phase := next)) && old(log) < log && old(clock) <= clock
      ensures match reply
              case Exists => next == PNodeSeen
              case Gone => next == PReturned(Error(NotFound))
              case Unknown => next == PReturned(Error(Internal))
      ensures log[|log| - 1] == PStep(id, PNode(reply))
    {
      Interfere(Publishing, id);
      ghost var before := View();
      var answer := cloud.GetNodeByID(node);
      reply := answer;
      Record(PStep(id, PNode(answer)), before);
      match answer
      case Exists => next := PNodeSeen;
      case Gone => next := PReturned(Error(NotFound));
      case Unknown => next := PReturned(Error(Internal));
    }

    // The volume is read once, and the reading decides.
    method ReadForAttach(id: string, node: string, ghost f: Publish)
      returns (next: PublishPhase, ghost reading: Detail, ghost g: Publish)
      requires Publishes(id, f) && f.phase == PNodeSeen && f.node == node
      modifies this, cloud
      ensures Publishes(id, g) && g == f.(phase := next, seen := g.seen) && old(log) < log && old(clock) <= clock
      ensures log[|log| - 1] == PStep(id, PRead(reading.Fault?))
      ensures match reading
              case Fault => next == PReturned(Error(Internal))
              case NotThere => id !in cloud.disks && next == PReturned(Error(NotFound))
              case Found(model) =>
                id in cloud.disks && cloud.disks[id].model == model && ReadingSays(model, node, next)
    {
      Interfere(Publishing, id);
      ghost var before := View();
      var detail := cloud.GetVolumeByID(id);
      reading := detail;
      Record(PStep(id, PRead(detail.Fault?)), before);
      g := publishing[id];
      match detail
      case Fault => next := PReturned(Error(Internal));
      case NotThere => next := PReturned(Error(NotFound));
      case Found(volume) =>
        if volume.status == InUse {
          var k := FindAttachment(volume.attachments, node);
          if k >= 0 {
            next := PReturned(Done(Attached(volume.attachments[k].device, volume.attachments[k].serial)));
          } else {
            next := PReturned(Error(FailedPrecondition));
          }
        } else if volume.status == Attaching {
          next := PReturned(Error(Aborted));
        } else if volume.status != Available {
          next := PReturned(Error(Unavailable));
        } else {
          next := PReady;
        }
    }

    // Attach is called once, for a volume without attachments, and never answers success; an error leaves
    // open whether it was carried out.
    method AttachVolume(id: string, node: string, ghost f: Publish)
      returns (outcome: Outcome<Attached>, ghost g: Publish)
      requires Publishes(id, f) && f.phase == PReady && f.node == node
      modifies this, cloud
      ensures Publishes(id, g) && old(log) < log && old(clock) <= clock
      ensures g == f.(phase := PReturned(outcome), issued := f.issued + 1, timer := f.timer.(acted := clock))
      ensures outcome == Error(Aborted) || outcome == Error(Internal)
      ensures id in cloud.disks
      ensures var attachments := cloud.disks[id].model.attachments;
              if attachments == [] then outcome == Error(Internal)
              else |attachments| == 1 && attachments[0].instance == node
    {
      Interfere(Publishing, id);
      ghost var before := View();
      RunKeepsInv(start, log);
      assert PublishInv(DiskOf(cloud.disks, id), publishing[id]);
      var reply := cloud.Attach(id, node);
      Record(PStep(id, PAttach(reply)), before);
      g := publishing[id];
      outcome := Error(if reply.Accepted? && reply.reported then Aborted else Internal);
    }

    method HandlePublish(id: string, node: string, ghost f: Publish)
      returns (outcome: Outcome<Attached>, ghost g: Publish)
      requires Publishes(id, f) && f.phase == PCalled && f.node == node
      modifies this, cloud
      ensures Publishes(id, g) && g.phase == PReturned(outcome) && Same(f, g) && old(log) < log && old(clock) <= clock
    {
      var next;
      ghost var reply;
      next, reply := LookUpNode(id, node, f);
      g := f.(phase := next);
      if next.PReturned? {
        return next.outcome, g;
      }
      ghost var reading;
      next, reading, g := ReadForAttach(id, node, g);
      if next.PReturned? {
        return next.outcome, g;
      }
      outcome, g := AttachVolume(id, node, g);
    }

    // One call of the handler, up to the moment when the loop has its answer.
    method AttemptPublish(id: string, node: string, ghost f: Publish)
      returns (outcome: Outcome<Attached>, ghost g: Publish)
      requires Publishes(id, f) && f.phase == PCalled && f.node == node && f.timer.finish.None?
      modifies this, cloud
      ensures Publishes(id, g) && g.phase == PReturned(outcome) && old(log) < log && old(clock) <= clock
      ensures Same(f.(timer := Timers.Over(f.timer, clock)), g)
    {
      outcome, g := HandlePublish(id, node, f);
      Interfere(Publishing, id);
      Record(PStep(id, PReturn), View());
      g := publishing[id];
    }

    // The retry loop around the handler.
    method FlyPublish(id: string, node: string, waitDeadline: int, ghost f: Publish)
      returns (outcome: Outcome<Attached>, ghost g: Publish)
      requires Publishes(id, f) && f.phase == PCalled && f.node == node
      requires f.timer.finish.None? && f.timer.waitDeadline == waitDeadline
      modifies this, cloud
      ensures Publishes(id, g) && g.phase == PReturned(outcome) && CanLeavePublish(g, clock) && old(log) < log
      ensures g.node == node && g.removals0 == f.removals0
      ensures g.timer.begun == f.timer.begun && g.timer.waitDeadline == waitDeadline
    {
      g := f;
      while true
        invariant Publishes(id, g) && g.phase == PCalled && old(log) <= log
        invariant g.node == node && g.removals0 == f.removals0
        invariant g.timer.finish.None? && g.timer.begun == f.timer.begun && g.timer.waitDeadline == waitDeadline
        decreases waitDeadline - clock
      {
        outcome, g := AttemptPublish(id, node, g);
        if !outcome.IsAborted() {
          return;
        }
        var again, until := Select(clock, waitDeadline);
        SleepUntil(Publishing, id, until);
        if !again {
          return;
        }
        Record(PStep(id, PRetry), View());
        g := publishing[id];
      }
    }

    // The flight ends; what it knows then is reported.
    ghost method FinishPublish(id: string, outcome: Outcome<Attached>, f: Publish)
      requires Publishes(id, f) && f.phase == PReturned(outcome) && CanLeavePublish(f, clock)
      modifies this
      ensures Valid() && log == old(log) + [PLeave(id)] && id !in publishing && clock == old(clock)
      ensures PublishAnswer(cloud.disks, id, f, outcome) && Paced(f.timer, clock)
    {
      RunKeepsInv(start, log);
      assert PublishInv(DiskOf(cloud.disks, id), f);
      Record(PLeave(id), View());
    }

    // The flight, from its Enter to its Leave.
    method PublishFlight(id: string, node: string, deadline: Option<int>)
      returns (outcome: Outcome<Attached>, ghost flight: Publish)
      requires Valid() && id != "" && node != "" && id !in publishing
      modifies this, cloud
      ensures Valid() && id !in publishing
      ensures old(log) + [PEnter(id, node, deadline)] < log && log[|log| - 1] == PLeave(id)
      ensures var begun := NewPublish(node, DiskOf(old(cloud.disks), id), Timers.Begin(old(clock), deadline));
              && flight.node == node && flight.removals0 == begun.removals0
              && Punctual(flight.timer, old(clock), TimeUp(old(clock), deadline), outcome.IsAborted())
      ensures PublishAnswer(cloud.disks, id, flight, outcome)
    {
      var waitDeadline := WaitDeadline(clock, deadline);
      Record(PEnter(id, node, deadline), View());
      outcome, flight := FlyPublish(id, node, waitDeadline, publishing[id]);
      FinishPublish(id, outcome, flight);
      PacedIsPunctual(flight.timer, clock, old(clock), deadline, outcome.IsAborted());
    }

    // ControllerPublishVolume, for the caller whose flight singleflight runs.
    method ControllerPublishVolume(id: string, node: string, accepted: bool, deadline: Option<int>)
      returns (outcome: Outcome<Attached>, ghost flight: Publish)
      requires Valid() && id !in publishing
      modifies this, cloud
      ensures Valid() && id !in publishing
      ensures var begun := NewPublish(node, DiskOf(old(cloud.disks), id), Timers.Begin(old(clock), deadline));
              if id == "" || node == "" || !accepted then
                outcome == Error(InvalidArgument) && View() == old(View()) && log == old(log)
              else
                && old(log) + [PEnter(id, node, deadline)] < log && log[|log| - 1] == PLeave(id)
                && flight.node == node && flight.removals0 == begun.removals0
                && Punctual(flight.timer, old(clock), TimeUp(old(clock), deadline), outcome.IsAborted())
                && PublishAnswer(cloud.disks, id, flight, outcome)
    {
      if id == "" || node == "" || !accepted {
        return Error(InvalidArgument), NewPublish(node, None, Timers.Begin(clock, deadline));
      }
      outcome, flight := PublishFlight(id, node, deadline);
    }

    // ---------- controllerUnpublishVolume ----------

    method ReadForDetach(id: string, ghost f: Unpublish) returns (next: UnpublishPhase, ghost g: Unpublish)
      requires Unpublishes(id, f) && f.phase == UCalled
      modifies this, cloud
      ensures Unpublishes(id, g) && g.phase == next && old(log) < log && old(clock) <= clock
      ensures match next
              case USeen(model) =>
                id in cloud.disks && cloud.disks[id].model == model && g == f.(phase := next, seen := g.seen)
              case UReturned(outcome) =>
                if outcome.Done? then id !in cloud.disks && g == f.(phase := next, gone := true)
                else outcome == Error(Internal) && g == f.(phase := next)
              case _ => false
    {
      Interfere(Unpublishing, id);
      ghost var before := View();
      var reading := cloud.GetVolumeByID(id);
      Record(UStep(id, URead(reading.Fault?)), before);
      g := unpublishing[id];
      match reading
      case Fault => next := UReturned(Error(Internal));
      case NotThere => next := UReturned(Done(()));
      case Found(volume) => next := USeen(volume);
    }

    // The node is looked up, and then the volume as it was read decides.
    method CheckNode(id: string, node: string, volume: Model, ghost f: Unpublish)
      returns (next: UnpublishPhase, ghost reply: NodeReply, ghost g: Unpublish)
      requires Unpublishes(id, f) && f.phase == USeen(volume) && f.node == node
      modifies this, cloud
      ensures Unpublishes(id, g) && g == f.(phase := next, gone := g.gone) && old(log) < log && old(clock) <= clock
      ensures log[|log| - 1] == UStep(id, UNode(reply))
      ensures match reply
              case Gone => next.UReturned? && next.outcome.Done? && g.gone
              case Unknown => next == UReturned(Error(Internal)) && g.gone == f.gone
              case Exists =>
                g.gone == f.gone && LastReadingSays(volume, node, next)
    {
      Interfere(Unpublishing, id);
      ghost var before := View();
      var answer := cloud.GetNodeByID(node);
      reply := answer;
      Record(UStep(id, UNode(answer)), before);
      g := unpublishing[id];
      match answer
      case Gone => next := UReturned(Done(()));
      case Unknown => next := UReturned(Error(Internal));
      case Exists =>
        if !IsAttachedTo(volume.attachments, node) {
          next := UReturned(Done(()));
        } else if volume.status == Detaching {
          next := UReturned(Error(Aborted));
        } else {
          next := UReady;
        }
    }

    // Detach is called once, and never answers success.
    method DetachVolume(id: string, node: string, ghost f: Unpublish) returns (outcome: Outcome<()>, ghost g: Unpublish)
      requires Unpublishes(id, f) && f.phase == UReady && f.node == node
      modifies this, cloud
      ensures Unpublishes(id, g) && old(log) < log && old(clock) <= clock
      ensures g == f.(phase := UReturned(outcome), issued := f.issued + 1, timer := f.timer.(acted := clock))
      ensures outcome == Error(Aborted) || outcome == Error(Internal)
      ensures outcome == Error(Aborted) ==> id in cloud.disks && cloud.disks[id].model.status == Detaching
    {
      Interfere(Unpublishing, id);
      ghost var before := View();
      RunKeepsInv(start, log);
      assert UnpublishInv(DiskOf(cloud.disks, id), unpublishing[id]);
      var accepted, reported := cloud.Detach(id, node);
      Record(UStep(id, UDetach(accepted, reported)), before);
      g := unpublishing[id];
      outcome := Error(if accepted && reported then Aborted else Internal);
    }

    method HandleUnpublish(id: string, node: string, ghost f: Unpublish)
      returns (outcome: Outcome<()>, ghost g: Unpublish)
      requires Unpublishes(id, f) && f.phase == UCalled && f.node == node
      modifies this, cloud
      ensures Unpublishes(id, g) && g.phase == UReturned(outcome) && Alike(f, g) && old(log) < log
          && old(clock) <= clock
    {
      var next;
      next, g := ReadForDetach(id, f);
      if next.UReturned? {
        return next.outcome, g;
      }
      ghost var reply;
      next, reply, g := CheckNode(id, node, next.model, g);
      if next.UReturned? {
        return next.outcome, g;
      }
      outcome, g := DetachVolume(id, node, g);
    }

    method AttemptUnpublish(id: string, node: string, ghost f: Unpublish)
      returns (outcome: Outcome<()>, ghost g: Unpublish)
      requires Unpublishes(id, f) && f.phase == UCalled && f.node == node && f.timer.finish.None?
      modifies this, cloud
      ensures Unpublishes(id, g) && g.phase == UReturned(outcome) && old(log) < log && old(clock) <= clock
      ensures Alike(f.(timer := Timers.Over(f.timer, clock)), g)
    {
      outcome, g := HandleUnpublish(id, node, f);
      Interfere(Unpublishing, id);
      Record(UStep(id, UReturn), View());
      g := unpublishing[id];
    }

    method FlyUnpublish(id: string, node: string, waitDeadline: int, ghost f: Unpublish)
      returns (outcome: Outcome<()>, ghost g: Unpublish)
      requires Unpublishes(id, f) && f.phase == UCalled && f.node == node
      requires f.timer.finish.None? && f.timer.waitDeadline == waitDeadline
      modifies this, cloud
      ensures Unpublishes(id, g) && g.phase == UReturned(outcome) && CanLeaveUnpublish(g, clock) && old(log) < log
      ensures g.node == node && g.attaches0 == f.attaches0 && g.reverts0 == f.reverts0
      ensures g.timer.begun == f.timer.begun && g.timer.waitDeadline == waitDeadline
    {
      g := f;
      while true
        invariant Unpublishes(id, g) && g.phase == UCalled && old(log) <= log
        invariant g.node == node && g.attaches0 == f.attaches0 && g.reverts0 == f.reverts0
        invariant g.timer.finish.None? && g.timer.begun == f.timer.begun && g.timer.waitDeadline == waitDeadline
        decreases waitDeadline - clock
      {
        outcome, g := AttemptUnpublish(id, node, g);
        if !outcome.IsAborted() {
          return;
        }
        var again, until := Select(clock, waitDeadline);
        SleepUntil(Unpublishing, id, until);
        if !again {
          return;
        }
        Record(UStep(id, URetry), View());
        g := unpublishing[id];
      }
    }

    ghost method FinishUnpublish(id: string, outcome: Outcome<()>, f: Unpublish)
      requires Unpublishes(id, f) && f.phase == UReturned(outcome) && CanLeaveUnpublish(f, clock)
      modifies this
      ensures Valid() && log == old(log) + [ULeave(id)] && id !in unpublishing && clock == old(clock)
      ensures UnpublishAnswer(cloud.disks, id, f, outcome) && Paced(f.timer, clock)
    {
      RunKeepsInv(start, log);
      assert UnpublishInv(DiskOf(cloud.disks, id), f);
      Record(ULeave(id), View());
    }

    method UnpublishFlight(id: string, node: string, deadline: Option<int>)
      returns (outcome: Outcome<()>, ghost flight: Unpublish)
      requires Valid() && id != "" && node != "" && id !in unpublishing
      modifies this, cloud
      ensures Valid() && id !in unpublishing
      ensures old(log) + [UEnter(id, node, deadline)] < log && log[|log| - 1] == ULeave(id)
      ensures var begun := NewUnpublish(node, DiskOf(old(cloud.disks), id), Timers.Begin(old(clock), deadline));
              && flight.node == node && flight.attaches0 == begun.attaches0 && flight.reverts0 == begun.reverts0
              && Punctual(flight.timer, old(clock), TimeUp(old(clock), deadline), outcome.IsAborted())
      ensures UnpublishAnswer(cloud.disks, id, flight, outcome)
    {
      var waitDeadline := WaitDeadline(clock, deadline);
      Record(UEnter(id, node, deadline), View());
      outcome, flight := FlyUnpublish(id, node, waitDeadline, unpublishing[id]);
      FinishUnpublish(id, outcome, flight);
      PacedIsPunctual(flight.timer, clock, old(clock), deadline, outcome.IsAborted());
    }

    // ControllerUnpublishVolume, likewise.
    method ControllerUnpublishVolume(id: string, node: string, accepted: bool, deadline: Option<int>)
      returns (outcome: Outcome<()>, ghost flight: Unpublish)
      requires Valid() && id !in unpublishing
      modifies this, cloud
      ensures Valid() && id !in unpublishing
      ensures var begun := NewUnpublish(node, DiskOf(old(cloud.disks), id), Timers.Begin(old(clock), deadline));
              if id == "" || node == "" || !accepted then
                outcome == Error(InvalidArgument) && View() == old(View()) && log == old(log)
              else
                && old(log) + [UEnter(id, node, deadline)] < log && log[|log| - 1] == ULeave(id)
                && flight.node == node && flight.attaches0 == begun.attaches0 && flight.reverts0 == begun.reverts0
                && Punctual(flight.timer, old(clock), TimeUp(old(clock), deadline), outcome.IsAborted())
                && UnpublishAnswer(cloud.disks, id, flight, outcome)
    {
      if id == "" || node == "" || !accepted {
        return Error(InvalidArgument), NewUnpublish(node, None, Timers.Begin(clock, deadline));
      }
      outcome, flight := UnpublishFlight(id, node, deadline);
    }
  }
}
