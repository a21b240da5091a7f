/**
 Why a publish or unpublish flight stands where it does.  In every run, an answer goes back to one step of the
 flight and to what the cloud held at that step; which answer it is, is said here in terms of the cloud
 alone.
 */
module AttachAnswers {
  import opened Status
  import opened Volumes
  import opened AttachProtocol

  // ---------- publishing ----------

  // What a reading of the volume means for the node that asks, one equivalence for each answer.
  ghost predicate ReadingSays(model: Model, node: string, phase: PublishPhase) {
    var attachments := model.attachments;
    && (phase == PReady <==> model.status == Available)
    && (phase == PReturned(Error(Aborted)) <==> model.status == Attaching)
    && (phase == PReturned(Error(FailedPrecondition)) <==>
          model.status == InUse && forall a | a in attachments :: a.instance != node)
    && (phase == PReturned(Error(Unavailable)) <==> model.status !in {Available, Attaching, InUse})
    && (phase.PReturned? && phase.outcome.Done? <==>
          model.status == InUse && exists a :: a in attachments && a.instance == node)
    && (phase.PReturned? && phase.outcome.Done? ==>
          exists j :: 0 <= j < |attachments|
            && attachments[j] == Attachment(node, phase.outcome.value.device, phase.outcome.value.serial)
            && forall i | 0 <= i < j :: attachments[i].instance != node)
  }

  // What a step of a flight, taken in a state, gives it for an answer (or, after a reading, leave to attach).
  ghost predicate PublishReason(s: State, id: string, node: string, move: PublishMove, phase: PublishPhase) {
    match move
    case PNode(reply) =>
      || (reply == Gone && phase == PReturned(Error(NotFound)))
      || (reply == Unknown && phase == PReturned(Error(Internal)))
    case PRead(fault) =>
      if fault then phase == PReturned(Error(Internal))
      else if id !in s.disks then phase == PReturned(Error(NotFound))
      else ReadingSays(s.disks[id].model, node, phase)
    case PAttach(reply) =>
      if reply.Accepted? && reply.reported then phase == PReturned(Error(Aborted))
      else phase == PReturned(Error(Internal))
    case _ => false
  }

  // After the step nothing happens to the flight but that its loop takes the answer.
  predicate PublishRests(step: Step, id: string) {
    match step
    case PStep(i, move) => i == id ==> move.PReturn?
    case PEnter(i, _, _) => i != id
    case PLeave(i) => i != id
    case _ => true
  }

  lemma MoveHasReason(s: State, id: string, move: PublishMove)
    requires Enabled(s, PStep(id, move)) && !move.PReturn? && !move.PRetry?
    requires var phase := Apply(s, PStep(id, move)).publishing[id].phase; phase.PReady? || phase.PReturned?
    ensures PublishReason(s, id, s.publishing[id].node, move, Apply(s, PStep(id, move)).publishing[id].phase)
  {
    if move.PRead? && !move.fault && id in s.disks {
      var attachments, node := s.disks[id].model.attachments, s.publishing[id].node;
      var k := FindAttachment(attachments, node);
      if k >= 0 {
        assert attachments[k] in attachments;
      }
    }
  }

  // Every answer of a publish flight, in every run, has its reason.
  lemma {:induction false} PublishHasReason(s: State, steps: seq<Step>, id: string) returns (k: nat)
    requires s.publishing == map[] && Exec(s, steps).Some? && id in Exec(s, steps).value.publishing
    requires var phase := Exec(s, steps).value.publishing[id].phase; phase.PReady? || phase.PReturned?
    ensures k < |steps| && steps[k].PStep? && steps[k].id == id && Exec(s, steps[..k]).Some?
    ensures forall j | k < j < |steps| :: PublishRests(steps[j], id)
    ensures var f := Exec(s, steps).value.publishing[id];
            PublishReason(Exec(s, steps[..k]).value, id, f.node, steps[k].publish, f.phase)
  {
    var n := |steps| - 1;
    if PublishRests(steps[n], id) {
      k := PublishHasReason(s, steps[..n], id);
      assert steps[..n][..k] == steps[..k];
      assert forall j | k < j < n :: steps[j] == steps[..n][j];
    } else {
      k := n;
      MoveHasReason(Exec(s, steps[..n]).value, id, steps[n].publish);
    }
  }

  // In particular, a flight that reports success has read the volume IN USE, with that attachment to its node
  // the first one to it.
  lemma PublishedWasRead(s: State, steps: seq<Step>, id: string) returns (k: nat)
    requires s.publishing == map[] && Exec(s, steps).Some? && id in Exec(s, steps).value.publishing
    requires var phase := Exec(s, steps).value.publishing[id].phase; phase.PReturned? && phase.outcome.Done?
    ensures k < |steps| && steps[k] == PStep(id, PRead(false))
    ensures forall j | k < j < |steps| :: PublishRests(steps[j], id)
    ensures Exec(s, steps[..k]).Some? && id in Exec(s, steps[..k]).value.disks
    ensures var f := Exec(s, steps).value.publishing[id];
            var model := Exec(s, steps[..k]).value.disks[id].model;
            && model.status == InUse
            && Attachment(f.node, f.phase.outcome.value.device, f.phase.outcome.value.serial) in model.attachments
  {
    k := PublishHasReason(s, steps, id);
  }

  // ---------- unpublishing ----------

  // What the volume, as it was read, means for the node that is to let it go.
  ghost predicate LastReadingSays(model: Model, node: string, phase: UnpublishPhase) {
    var attached := exists a :: a in model.attachments && a.instance == node;
    && (phase == UReady <==> attached && model.status != Detaching)
    && (phase == UReturned(Error(Aborted)) <==> attached && model.status == Detaching)
    && (phase.UReturned? && phase.outcome.Done? <==> !attached)
  }

  ghost predicate UnpublishReason(s: State, id: string, node: string, move: UnpublishMove, phase: UnpublishPhase) {
    match move
    case URead(fault) =>
      if fault then phase == UReturned(Error(Internal)) else id !in s.disks && phase.UReturned? && phase.outcome.Done?
    case UNode(Gone) => phase.UReturned? && phase.outcome.Done?
    case UNode(Unknown) => phase == UReturned(Error(Internal))
    case UNode(Exists) =>
      && id in s.unpublishing && s.unpublishing[id].phase.USeen?
      && LastReadingSays(s.unpublishing[id].phase.model, node, phase)
    case UDetach(accepted, reported) =>
      if accepted && reported then phase == UReturned(Error(Aborted)) else phase == UReturned(Error(Internal))
    case _ => false
  }

  predicate UnpublishRests(step: Step, id: string) {
    match step
    case UStep(i, move) => i == id ==> move.UReturn?
    case UEnter(i, _, _) => i != id
    case ULeave(i) => i != id
    case _ => true
  }

  lemma UnpublishMoveHasReason(s: State, id: string, move: UnpublishMove)
    requires Enabled(s, UStep(id, move)) && !move.UReturn? && !move.URetry?
    requires var phase := Apply(s, UStep(id, move)).unpublishing[id].phase; phase.UReady? || phase.UReturned?
    ensures UnpublishReason(s, id, s.unpublishing[id].node, move, Apply(s, UStep(id, move)).unpublishing[id].phase)
  {
    if move == UNode(Exists) {
      var attachments, node := s.unpublishing[id].phase.model.attachments, s.unpublishing[id].node;
      var k := FindAttachment(attachments, node);
      if k >= 0 {
        assert attachments[k] in attachments;
      }
    }
  }

  lemma {:induction false} UnpublishHasReason(s: State, steps: seq<Step>, id: string) returns (k: nat)
    requires s.unpublishing == map[] && Exec(s, steps).Some? && id in Exec(s, steps).value.unpublishing
    requires var phase := Exec(s, steps).value.unpublishing[id].phase; phase.UReady? || phase.UReturned?
    ensures k < |steps| && steps[k].UStep? && steps[k].id == id && Exec(s, steps[..k]).Some?
    ensures forall j | k < j < |steps| :: UnpublishRests(steps[j], id)
    ensures var f := Exec(s, steps).value.unpublishing[id];
            UnpublishReason(Exec(s, steps[..k]).value, id, f.node, steps[k].unpublish, f.phase)
  {
    var n := |steps| - 1;
    if UnpublishRests(steps[n], id) {
      k := UnpublishHasReason(s, steps[..n], id);
      assert steps[..n][..k] == steps[..k];
      assert forall j | k < j < n :: steps[j] == steps[..n][j];
    } else {
      k := n;
      UnpublishMoveHasReason(Exec(s, steps[..n]).value, id, steps[n].unpublish);
    }
  }

  // The volume that an unpublish flight decides about is the one it has read.
  lemma {:induction false} SeenWasRead(s: State, steps: seq<Step>, id: string) returns (k: nat)
    requires s.unpublishing == map[] && Exec(s, steps).Some? && id in Exec(s, steps).value.unpublishing
    requires Exec(s, steps).value.unpublishing[id].phase.USeen?
    ensures k < |steps| && steps[k] == UStep(id, URead(false)) && Exec(s, steps[..k]).Some?
    ensures forall j | k < j < |steps| :: UnpublishRests(steps[j], id)
    ensures id in Exec(s, steps[..k]).value.disks
    ensures Exec(s, steps).value.unpublishing[id].phase.model == Exec(s, steps[..k]).value.disks[id].model
  {
    var n := |steps| - 1;
    if UnpublishRests(steps[n], id) {
      k := SeenWasRead(s, steps[..n], id);
      assert steps[..n][..k] == steps[..k];
      assert forall j | k < j < n :: steps[j] == steps[..n][j];
    } else {
      k := n;
    }
  }
}
