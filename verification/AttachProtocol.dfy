/**
 ControllerPublishVolume, ControllerUnpublishVolume and ControllerExpandVolume as one protocol.  For
 each volume singleflight runs at most one publish flight and, independently, one unpublish flight;
 expand calls are not grouped at all.  Each handler reads the volume in one step and acts on what it
 read in a later one.  Of the cloud it is assumed only that AVAILABLE means no attachments, that an
 attachment is listed from the moment Attach is accepted, and that attachments come from Attach; the
 cloud may accept Attach in any status, and change status and remove attachments as it likes.
 */
module AttachProtocol {
  import opened Status
  import opened Capacity
  import opened Volumes
  import opened Expansion
  import opened Timers

  datatype Attached = Attached(device: string, serial: string)

  /** A volume together with its history: attachments ever made and removed, and how often the cloud
      gave up a detachment, that is, left DETACHING with an attachment in place. */
  datatype Disk = Disk(model: Model, attaches: nat, removals: nat, reverts: nat)

  // ---------- what the handlers decide from one reading ----------

  datatype Plan<+T> = Say(outcome: Outcome<T>) | Act

  function PlanPublish(model: Model, node: string): Plan<Attached> {
    if model.status == InUse then
      var k := FindAttachment(model.attachments, node);
      if k >= 0 then Say(Done(Attached(model.attachments[k].device, model.attachments[k].serial)))
      else Say(Error(FailedPrecondition))
    else if model.status == Attaching then Say(Error(Aborted))
    else if model.status != Available then Say(Error(Unavailable))
    else Act
  }

  function PlanUnpublish(model: Model, node: string): Plan<()> {
    if !IsAttachedTo(model.attachments, node) then Say(Done(()))
    else if model.status == Detaching then Say(Error(Aborted))
    else Act
  }

  // ---------- flights ----------

  datatype NodeReply = Exists | Gone | Unknown
  // An accepted call may still report an error.
  datatype AttachReply = Accepted(device: string, serial: string, status: VolumeStatus, reported: bool) | Refused

  datatype PublishPhase =
    | PCalled                              // look the node up
    | PNodeSeen                            // read the volume
    | PReady                               // attach
    | PReturned(outcome: Outcome<Attached>)

  // `issued` counts Attach calls; `attaches0` and `removals0` are the history when the flight began,
  // and `seen` the removals when it last read the volume.
  datatype Publish = Publish(node: string, phase: PublishPhase, issued: nat, attaches0: nat, removals0: nat, seen: nat,
                             timer: Timer)

  datatype PublishMove = PNode(node: NodeReply) | PRead(fault: bool) | PAttach(reply: AttachReply) | PReturn | PRetry

  datatype UnpublishPhase =
    | UCalled                              // read the volume
    | USeen(model: Model)                  // look the node up
    | UReady                               // detach
    | UReturned(outcome: Outcome<()>)

  // `seen` counts the attaches at the last reading; `gone` says that volume or node was not found.
  datatype Unpublish = Unpublish(node: string, phase: UnpublishPhase, issued: nat, attaches0: nat, reverts0: nat,
                                 seen: nat, gone: bool, timer: Timer)

  datatype UnpublishMove = URead(fault: bool) | UNode(node: NodeReply) | UDetach(accepted: bool, reported: bool)
      | UReturn | URetry

  datatype Change = SetStatus(status: VolumeStatus) | Remove(index: nat) | Grow(gb: int64)

  // ---------- volumes ----------

  function WithModel(d: Disk, model: Model): Disk {
    var gaveUp := d.model.status == Detaching && model.status != Detaching && model.attachments != [];
    d.(model := model, reverts := d.reverts + if gaveUp then 1 else 0)
  }

  function WithStatus(d: Disk, status: VolumeStatus): Disk {
    WithModel(d, d.model.(status := status))
  }

  function WithAttachment(d: Disk, node: string, device: string, serial: string, status: VolumeStatus): Disk {
    WithModel(d, Model(status, d.model.attachments + [Attachment(node, device, serial)], d.model.sizeGB))
      .(attaches := d.attaches + 1)
  }

  predicate CanChange(d: Disk, change: Change) {
    match change
    case SetStatus(status) => status == Available ==> d.model.attachments == []
    case Remove(index) => index < |d.model.attachments|
    case Grow(_) => true
  }

  function Changed(d: Disk, change: Change): Disk
    requires CanChange(d, change)
  {
    match change
    case SetStatus(status) => WithStatus(d, status)
    case Remove(index) =>
      d.(model := d.model.(attachments := d.model.attachments[..index] + d.model.attachments[index + 1..]),
         removals := d.removals + 1)
    case Grow(gb) => d.(model := d.model.(sizeGB := gb))
  }

  // ---------- steps of a publish flight ----------

  function NewPublish(node: string, d: Option<Disk>, timer: Timer): Publish {
    if d.None? then Publish(node, PCalled, 0, 0, 0, 0, timer)
    else Publish(node, PCalled, 0, d.value.attaches, d.value.removals, d.value.removals, timer)
  }

  predicate PublishReady(f: Publish, d: Option<Disk>, move: PublishMove) {
    match move
    case PNode(_) => f.phase.PCalled?
    case PRead(_) => f.phase.PNodeSeen?
    case PAttach(reply) => f.phase.PReady? && d.Some? && (reply.Accepted? ==> reply.status != Available)
    case PReturn => f.phase.PReturned? && f.timer.finish.None?
    case PRetry => f.phase.PReturned? && f.phase.outcome.IsAborted()
  }

  function PublishNext(f: Publish, d: Option<Disk>, move: PublishMove): Publish
    requires PublishReady(f, d, move)
  {
    match move
    case PNode(Exists) => f.(phase := PNodeSeen)
    case PNode(Gone) => f.(phase := PReturned(Error(NotFound)))
    case PNode(Unknown) => f.(phase := PReturned(Error(Internal)))
    case PRead(fault) =>
      if fault then f.(phase := PReturned(Error(Internal)))
      else if d.None? then f.(phase := PReturned(Error(NotFound)))
      else
        var plan := PlanPublish(d.value.model, f.node);
        f.(phase := if plan.Say? then PReturned(plan.outcome) else PReady, seen := d.value.removals)
    case PAttach(reply) =>
      f.(phase := PReturned(Error(if reply.Accepted? && reply.reported then Aborted else Internal)),
          issued := f.issued + 1)
    case PReturn => f
    case PRetry => f.(phase := PCalled)
  }

  function DiskAfterPublish(f: Publish, d: Disk, move: PublishMove): Disk {
    if move.PAttach? && move.reply.Accepted? then
      WithAttachment(d, f.node, move.reply.device, move.reply.serial, move.reply.status)
    else d
  }

  // ---------- steps of an unpublish flight ----------

  function NewUnpublish(node: string, d: Option<Disk>, timer: Timer): Unpublish {
    if d.None? then Unpublish(node, UCalled, 0, 0, 0, 0, false, timer)
    else Unpublish(node, UCalled, 0, d.value.attaches, d.value.reverts, d.value.attaches, false, timer)
  }

  predicate UnpublishReady(f: Unpublish, d: Option<Disk>, move: UnpublishMove) {
    match move
    case URead(_) => f.phase.UCalled?
    case UNode(_) => f.phase.USeen?
    case UDetach(_, _) => f.phase.UReady? && d.Some?
    case UReturn => f.phase.UReturned? && f.timer.finish.None?
    case URetry => f.phase.UReturned? && f.phase.outcome.IsAborted()
  }

  function UnpublishNext(f: Unpublish, d: Option<Disk>, move: UnpublishMove): Unpublish
    requires UnpublishReady(f, d, move)
  {
    match move
    case URead(fault) =>
      if fault then f.(phase := UReturned(Error(Internal)))
      else if d.None? then f.(phase := UReturned(Done(())), gone := true)
      else f.(phase := USeen(d.value.model), seen := d.value.attaches)
    case UNode(Gone) => f.(phase := UReturned(Done(())), gone := true)
    case UNode(Unknown) => f.(phase := UReturned(Error(Internal)))
    case UNode(Exists) =>
      var plan := PlanUnpublish(f.phase.model, f.node);
      f.(phase := if plan.Say? then UReturned(plan.outcome) else UReady)
    case UDetach(accepted, reported) =>
      f.(phase := UReturned(Error(if accepted && reported then Aborted else Internal)), issued := f.issued + 1)
    case UReturn => f
    case URetry => f.(phase := UCalled)
  }

  function DiskAfterUnpublish(d: Disk, move: UnpublishMove): Disk {
    if move.UDetach? && move.accepted then WithStatus(d, Detaching) else d
  }

  // ---------- the whole system ----------

  // An expand call that has read the volume at a size and decided to resize it.
  datatype Expand =
    | XCalled(id: string, range: CapacityRange, online: bool)
    | XReady(id: string, range: CapacityRange, size: int64, gb: int64)

  type Disks = map<string, Disk>

  datatype State = State(disks: Disks, publishing: map<string, Publish>, unpublishing: map<string, Unpublish>,
                         expanding: map<nat, Expand>, clock: int)

  datatype Step =
    | PEnter(id: string, node: string, deadline: Option<int>)
    | PStep(id: string, publish: PublishMove)
    | PLeave(id: string)
    | UEnter(id: string, node: string, deadline: Option<int>)
    | UStep(id: string, unpublish: UnpublishMove)
    | ULeave(id: string)
    | XEnter(call: nat, id: string, range: CapacityRange, online: bool)
    | XRead(call: nat, fault: bool)
    | XResize(call: nat, accepted: bool)
    | World(id: string, change: Change)
    | Tick(d: nat)

  function DiskOf(disks: Disks, id: string): Option<Disk> {
    if id in disks then Some(disks[id]) else None
  }

  predicate CanLeavePublish(f: Publish, clock: int) {
    f.phase.PReturned? && MayLeave(f.timer, clock, f.phase.outcome.IsAborted())
  }

  predicate CanLeaveUnpublish(f: Unpublish, clock: int) {
    f.phase.UReturned? && MayLeave(f.timer, clock, f.phase.outcome.IsAborted())
  }

  predicate Enabled(s: State, step: Step) {
    match step
    case PEnter(id, node, _) => id != "" && node != "" && id !in s.publishing
    case PStep(id, move) =>
      && id in s.publishing && PublishReady(s.publishing[id], DiskOf(s.disks, id), move)
      && (move.PRetry? ==> MayRetry(s.publishing[id].timer, s.clock))
    case PLeave(id) => id in s.publishing && CanLeavePublish(s.publishing[id], s.clock)
    case UEnter(id, node, _) => id != "" && node != "" && id !in s.unpublishing
    case UStep(id, move) =>
      && id in s.unpublishing && UnpublishReady(s.unpublishing[id], DiskOf(s.disks, id), move)
      && (move.URetry? ==> MayRetry(s.unpublishing[id].timer, s.clock))
    case ULeave(id) => id in s.unpublishing && CanLeaveUnpublish(s.unpublishing[id], s.clock)
    case XEnter(call, id, _, _) => id != "" && call !in s.expanding
    case XRead(call, _) => call in s.expanding && s.expanding[call].XCalled?
    case XResize(call, _) => call in s.expanding && s.expanding[call].XReady? && s.expanding[call].id in s.disks
    case World(id, change) => id in s.disks && CanChange(s.disks[id], change)
    case Tick(_) => true
  }

  function ExpandAfterRead(s: State, call: nat, fault: bool): map<nat, Expand>
    requires call in s.expanding && s.expanding[call].XCalled?
  {
    var x := s.expanding[call];
    if fault || x.id !in s.disks then s.expanding - {call}
    else
      var model := s.disks[x.id].model;
      match Decide(model, x.range, x.online, false)
      case Answer(_) => s.expanding - {call}
      case Resize(gb) => s.expanding[call := XReady(x.id, x.range, model.sizeGB, gb)]
  }

  function DisksAfter(s: State, step: Step): Disks
    requires Enabled(s, step)
  {
    match step
    case PStep(id, move) =>
      if id in s.disks then s.disks[id := DiskAfterPublish(s.publishing[id], s.disks[id], move)] else s.disks
    case UStep(id, move) =>
      if id in s.disks then s.disks[id := DiskAfterUnpublish(s.disks[id], move)] else s.disks
    case XResize(call, accepted) =>
      var id := s.expanding[call].id;
      if accepted then s.disks[id := WithStatus(s.disks[id], Scaling)] else s.disks
    case World(id, change) => s.disks[id := Changed(s.disks[id], change)]
    case _ => s.disks
  }

  // The timer of a flight after a step of its own: it notes the handler's return, the next call, and the
  // moment at which the cloud is told to act.
  function TimerAfter(t: Timer, clock: int, isReturn: bool, isRetry: bool, isAct: bool): Timer {
    if isReturn then Timers.Over(t, clock)
    else if isRetry then Timers.Again(t, clock)
    else if isAct then t.(acted := clock)
    else t
  }

  function PublishAfter(f: Publish, d: Option<Disk>, clock: int, move: PublishMove): Publish
    requires PublishReady(f, d, move)
  {
    PublishNext(f, d, move).(timer := TimerAfter(f.timer, clock, move.PReturn?, move.PRetry?, move.PAttach?))
  }

  function UnpublishAfter(f: Unpublish, d: Option<Disk>, clock: int, move: UnpublishMove): Unpublish
    requires UnpublishReady(f, d, move)
  {
    UnpublishNext(f, d, move).(timer := TimerAfter(f.timer, clock, move.UReturn?, move.URetry?, move.UDetach?))
  }

  function PublishingAfter(s: State, step: Step): map<string, Publish>
    requires Enabled(s, step)
  {
    match step
    case PEnter(id, node, deadline) =>
      s.publishing[id := NewPublish(node, DiskOf(s.disks, id), Timers.Begin(s.clock, deadline))]
    case PStep(id, move) => s.publishing[id := PublishAfter(s.publishing[id], DiskOf(s.disks, id), s.clock, move)]
    case PLeave(id) => s.publishing - {id}
    case _ => s.publishing
  }

  function UnpublishingAfter(s: State, step: Step): map<string, Unpublish>
    requires Enabled(s, step)
  {
    match step
    case UEnter(id, node, deadline) =>
      s.unpublishing[id := NewUnpublish(node, DiskOf(s.disks, id), Timers.Begin(s.clock, deadline))]
    case UStep(id, move) => s.unpublishing[id := UnpublishAfter(s.unpublishing[id], DiskOf(s.disks, id), s.clock, move)]
    case ULeave(id) => s.unpublishing - {id}
    case _ => s.unpublishing
  }

  function ExpandingAfter(s: State, step: Step): map<nat, Expand>
    requires Enabled(s, step)
  {
    match step
    case XEnter(call, id, range, online) => s.expanding[call := XCalled(id, range, online)]
    case XRead(call, fault) => ExpandAfterRead(s, call, fault)
    case XResize(call, _) => s.expanding - {call}
    case _ => s.expanding
  }

  function Apply(s: State, step: Step): State
    requires Enabled(s, step)
  {
    State(DisksAfter(s, step), PublishingAfter(s, step), UnpublishingAfter(s, step), ExpandingAfter(s, step),
          if step.Tick? then s.clock + step.d else s.clock)
  }

  // The state after a whole run, or None when a step is taken that is not enabled.
  function Exec(s: State, steps: seq<Step>): Option<State> {
    if steps == [] then Some(s)
    else
      var before := Exec(s, steps[..|steps| - 1]);
      var step := steps[|steps| - 1];
      if before.Some? && Enabled(before.value, step) then Some(Apply(before.value, step)) else None
  }

  // At most one attachment, and the books balance: attachments made are removed or still there.
  predicate DiskInv(d: Disk) {
    && |d.model.attachments| <= 1
    && (d.model.status == Available ==> d.model.attachments == [])
    && |d.model.attachments| + d.removals == d.attaches
  }

  // Any volumes, attached at most once each, and no request under way.
  predicate Init(s: State) {
    && s.publishing == map[] && s.unpublishing == map[] && s.expanding == map[]
    && forall id | id in s.disks ::
         DiskInv(s.disks[id]) && s.disks[id].removals == 0 && s.disks[id].reverts == 0
  }

  // ---------- the invariant ----------

  predicate PublishInv(d: Option<Disk>, f: Publish) {
    match d
    case None => f.issued == 0 && !f.phase.PReady? && !(f.phase.PReturned? && f.phase.outcome.Done?)
    case Some(d) =>
      && f.removals0 <= f.attaches0 <= d.attaches && f.removals0 <= f.seen <= d.removals
      && f.issued <= 1 + d.removals - f.removals0
      && (f.phase != PReturned(Error(Internal)) ==> f.issued == d.attaches - f.attaches0)
      && (f.phase.PReady? ==> d.model.attachments == [])
      && (f.phase.PReturned? && f.phase.outcome.Done? ==>
            d.removals > f.seen ||
            d.model.attachments == [Attachment(f.node, f.phase.outcome.value.device, f.phase.outcome.value.serial)])
  }

  // A detachment is on its way, or there is nothing to detach.
  predicate Resting(model: Model) {
    model.status == Detaching || model.attachments == []
  }

  function Slack(d: Disk, f: Unpublish): int {
    d.reverts - f.reverts0 + d.attaches - f.attaches0
  }

  predicate DetachedFrom(d: Disk, f: Unpublish) {
    d.attaches > f.seen || !IsAttachedTo(d.model.attachments, f.node)
  }

  predicate UnpublishInv(d: Option<Disk>, f: Unpublish) {
    match d
    case None => f.issued == 0 && !f.phase.UReady? && !f.phase.USeen?
    case Some(d) =>
      && f.attaches0 <= f.seen <= d.attaches && f.reverts0 <= d.reverts
      && f.issued <= Slack(d, f) + 1
      && (f.phase != UReturned(Error(Internal)) && !Resting(d.model) ==> f.issued <= Slack(d, f))
      && (f.phase.UReady? ==> f.issued <= Slack(d, f))
      && (f.phase.USeen? && !Resting(f.phase.model) ==> f.issued <= Slack(d, f))
      && (f.phase.USeen? && !IsAttachedTo(f.phase.model.attachments, f.node) ==> DetachedFrom(d, f))
      && (f.phase.UReturned? && f.phase.outcome.Done? && !f.gone ==> DetachedFrom(d, f))
  }

  // What an expand call that is about to resize knows: a range that a CSI caller may send makes it ask for
  // more than it has read.
  predicate ExpandInv(x: Expand) {
    x.XReady? && x.range.Range? && x.range.limit >= 0 && 0 <= x.size < SIZE_BOUND_GB ==>
      x.size < x.gb && MeetsRange(x.gb, x.range)
  }

  predicate TimersInv(s: State) {
    && (forall id | id in s.publishing :: Paced(s.publishing[id].timer, s.clock))
    && (forall id | id in s.unpublishing :: Paced(s.unpublishing[id].timer, s.clock))
  }

  predicate Inv(s: State) {
    && (forall id | id in s.disks :: DiskInv(s.disks[id]))
    && (forall id | id in s.publishing :: PublishInv(DiskOf(s.disks, id), s.publishing[id]))
    && (forall id | id in s.unpublishing :: UnpublishInv(DiskOf(s.disks, id), s.unpublishing[id]))
    && (forall call | call in s.expanding :: ExpandInv(s.expanding[call]))
    && TimersInv(s)
  }

  // What every step other than an accepted Attach does to a volume.
  ghost predicate Quiet(d: Disk, e: Disk) {
    && d.removals <= e.removals && d.reverts <= e.reverts && d.attaches == e.attaches
    && (e.removals == d.removals ==> e.model.attachments == d.model.attachments)
    && (d.model.attachments == [] ==> e.model.attachments == [])
    && (forall node :: IsAttachedTo(e.model.attachments, node) ==> IsAttachedTo(d.model.attachments, node))
    && (Resting(d.model) && !Resting(e.model) ==> e.reverts > d.reverts)
  }

  // What an accepted Attach does.
  predicate Gains(d: Disk, e: Disk) {
    d.removals == e.removals && d.reverts <= e.reverts && e.attaches == d.attaches + 1
  }

  lemma ChangeIsQuiet(d: Disk, change: Change)
    requires DiskInv(d) && CanChange(d, change)
    ensures DiskInv(Changed(d, change)) && Quiet(d, Changed(d, change))
  {}

  lemma StatusIsQuiet(d: Disk, status: VolumeStatus)
    requires DiskInv(d) && status != Available
    ensures DiskInv(WithStatus(d, status)) && Quiet(d, WithStatus(d, status))
  {}

  lemma PublishMoveKeeps(f: Publish, d: Option<Disk>, move: PublishMove)
    requires d.Some? ==> DiskInv(d.value)
    requires PublishInv(d, f) && PublishReady(f, d, move)
    ensures var e := if d.Some? then Some(DiskAfterPublish(f, d.value, move)) else None;
            && (forall t :: PublishInv(e, PublishNext(f, d, move).(timer := t)))
            && (d.Some? ==> DiskInv(e.value) && (Quiet(d.value, e.value) || Gains(d.value, e.value)))
  {}

  lemma UnpublishMoveKeeps(f: Unpublish, d: Option<Disk>, move: UnpublishMove)
    requires d.Some? ==> DiskInv(d.value)
    requires UnpublishInv(d, f) && UnpublishReady(f, d, move)
    ensures var e := if d.Some? then Some(DiskAfterUnpublish(d.value, move)) else None;
            && (forall t :: UnpublishInv(e, UnpublishNext(f, d, move).(timer := t)))
            && (d.Some? ==> DiskInv(e.value) && Quiet(d.value, e.value))
  {}

  lemma QuietKeepsPublish(f: Publish, d: Disk, e: Disk)
    requires PublishInv(Some(d), f) && Quiet(d, e)
    ensures PublishInv(Some(e), f)
  {}

  lemma OthersKeepUnpublish(f: Unpublish, d: Disk, e: Disk)
    requires UnpublishInv(Some(d), f) && (Quiet(d, e) || Gains(d, e))
    ensures UnpublishInv(Some(e), f)
  {}

  // Every step leaves each volume in order, and only the publish flight of a volume adds to it.
  lemma StepEffect(s: State, step: Step, id: string)
    requires Inv(s) && Enabled(s, step) && id in s.disks
    ensures var t := DisksAfter(s, step);
            && id in t && DiskInv(t[id])
            && (Quiet(s.disks[id], t[id]) || (step.PStep? && step.id == id && Gains(s.disks[id], t[id])))
  {
    match step
    case PStep(i, move) =>
      if i == id {
        PublishMoveKeeps(s.publishing[id], DiskOf(s.disks, id), move);
      }
    case UStep(i, move) =>
      if i == id {
        UnpublishMoveKeeps(s.unpublishing[id], DiskOf(s.disks, id), move);
      }
    case XResize(call, accepted) =>
      StatusIsQuiet(s.disks[s.expanding[call].id], Scaling);
    case World(i, change) =>
      ChangeIsQuiet(s.disks[i], change);
    case _ =>
  }

  lemma StepKeepsPublish(s: State, step: Step, id: string)
    requires Inv(s) && Enabled(s, step) && id in PublishingAfter(s, step)
    ensures PublishInv(DiskOf(DisksAfter(s, step), id), PublishingAfter(s, step)[id])
  {
    if step.PStep? && step.id == id {
      PublishMoveKeeps(s.publishing[id], DiskOf(s.disks, id), step.publish);
    } else if id in s.disks && id in s.publishing {
      StepEffect(s, step, id);
      QuietKeepsPublish(s.publishing[id], s.disks[id], DisksAfter(s, step)[id]);
    }
  }

  lemma StepKeepsUnpublish(s: State, step: Step, id: string)
    requires Inv(s) && Enabled(s, step) && id in UnpublishingAfter(s, step)
    ensures UnpublishInv(DiskOf(DisksAfter(s, step), id), UnpublishingAfter(s, step)[id])
  {
    if step.UStep? && step.id == id {
      UnpublishMoveKeeps(s.unpublishing[id], DiskOf(s.disks, id), step.unpublish);
    } else if id in s.disks && id in s.unpublishing {
      StepEffect(s, step, id);
      OthersKeepUnpublish(s.unpublishing[id], s.disks[id], DisksAfter(s, step)[id]);
    }
  }

  lemma StepKeepsExpand(s: State, step: Step, call: nat)
    requires Inv(s) && Enabled(s, step) && call in ExpandingAfter(s, step)
    ensures ExpandInv(ExpandingAfter(s, step)[call])
  {
    if step.XRead? && step.call == call {
      var x := s.expanding[call];
      if !step.fault && x.range.Range? && x.range.limit >= 0 && 0 <= s.disks[x.id].model.sizeGB < SIZE_BOUND_GB {
        ResizeExactlyWhen(s.disks[x.id].model, x.range, x.online, false);
      }
    }
  }

  lemma StepKeepsTimers(s: State, step: Step)
    requires TimersInv(s) && Enabled(s, step)
    ensures TimersInv(Apply(s, step))
  {
    var t := Apply(s, step);
    forall id | id in t.publishing ensures Paced(t.publishing[id].timer, t.clock) {
      if step.PEnter? && step.id == id {
        PacedKeeps(t.publishing[id].timer, s.clock, t.clock, step.deadline);
      } else {
        PacedKeeps(s.publishing[id].timer, s.clock, t.clock, None);
      }
    }
    forall id | id in t.unpublishing ensures Paced(t.unpublishing[id].timer, t.clock) {
      if step.UEnter? && step.id == id {
        PacedKeeps(t.unpublishing[id].timer, s.clock, t.clock, step.deadline);
      } else {
        PacedKeeps(s.unpublishing[id].timer, s.clock, t.clock, None);
      }
    }
  }

  lemma StepKeepsInv(s: State, step: Step)
    requires Inv(s) && Enabled(s, step)
    ensures Inv(Apply(s, step))
  {
    var t := Apply(s, step);
    assert t.disks.Keys == s.disks.Keys;
    forall id | id in t.disks ensures DiskInv(t.disks[id]) {
      StepEffect(s, step, id);
    }
    forall id | id in t.publishing ensures PublishInv(DiskOf(t.disks, id), t.publishing[id]) {
      StepKeepsPublish(s, step, id);
    }
    forall id | id in t.unpublishing ensures UnpublishInv(DiskOf(t.disks, id), t.unpublishing[id]) {
      StepKeepsUnpublish(s, step, id);
    }
    forall call | call in t.expanding ensures ExpandInv(t.expanding[call]) {
      StepKeepsExpand(s, step, call);
    }
    StepKeepsTimers(s, step);
  }

  lemma {:induction false} RunKeepsInv(s: State, steps: seq<Step>)
    requires Init(s) && Exec(s, steps).Some?
    ensures Inv(Exec(s, steps).value)
  {
    if steps == [] {
    } else {
      RunKeepsInv(s, steps[..|steps| - 1]);
      StepKeepsInv(Exec(s, steps[..|steps| - 1]).value, steps[|steps| - 1]);
    }
  }

  // ---------- what holds in every run ----------

  // A volume never has two attachments, and every accepted Attach beyond the first attachment has
  // been made room for by a removal.
  lemma AtMostOneAttachment(s: State, steps: seq<Step>, id: string)
    requires Init(s) && Exec(s, steps).Some? && id in Exec(s, steps).value.disks
    ensures var d := Exec(s, steps).value.disks[id];
            && |d.model.attachments| <= 1
            && d.attaches - d.removals == |d.model.attachments|
  {
    RunKeepsInv(s, steps);
    assert DiskInv(Exec(s, steps).value.disks[id]);
  }

  // A publish flight calls Attach at most once more than attachments are removed during the flight;
  // and when it returns a device and serial, they are those of the volume's only attachment, which is
  // to the leader's node, unless the attachment was removed after the flight read it.
  lemma PublishFlightAttachesOnce(s: State, steps: seq<Step>, id: string)
    requires Init(s) && Exec(s, steps).Some?
    requires id in Exec(s, steps).value.disks && id in Exec(s, steps).value.publishing
    ensures var d := Exec(s, steps).value.disks[id];
            var f := Exec(s, steps).value.publishing[id];
            && f.issued <= 1 + (d.removals - f.removals0)
            && (f.phase.PReturned? && f.phase.outcome.Done? && d.removals == f.seen ==>
                  var got := f.phase.outcome.value;
                  d.model.attachments == [Attachment(f.node, got.device, got.serial)])
  {
    RunKeepsInv(s, steps);
    assert PublishInv(DiskOf(Exec(s, steps).value.disks, id), Exec(s, steps).value.publishing[id]);
  }

  // Singleflight hands the leader's answer to every caller that waited for the same volume.  While the
  // attachment stands, it is true of a caller exactly when that caller named the leader's node.
  lemma FollowerServedExactlyWhen(s: State, steps: seq<Step>, id: string, node: string)
    requires Init(s) && Exec(s, steps).Some?
    requires id in Exec(s, steps).value.disks && id in Exec(s, steps).value.publishing
    requires var f := Exec(s, steps).value.publishing[id];
             f.phase.PReturned? && f.phase.outcome.Done? && Exec(s, steps).value.disks[id].removals == f.seen
    ensures IsAttachedTo(Exec(s, steps).value.disks[id].model.attachments, node)
       <==> node == Exec(s, steps).value.publishing[id].node
  {
    PublishFlightAttachesOnce(s, steps, id);
  }

  // An unpublish flight calls Detach at most once, but for detachments that the cloud gives up and
  // attachments made during the flight; and when it returns success although it found both volume
  // and node, the volume is not attached to the node, unless it was attached after the reading.
  lemma UnpublishFlightDetachesOnce(s: State, steps: seq<Step>, id: string)
    requires Init(s) && Exec(s, steps).Some?
    requires id in Exec(s, steps).value.disks && id in Exec(s, steps).value.unpublishing
    ensures var d := Exec(s, steps).value.disks[id];
            var f := Exec(s, steps).value.unpublishing[id];
            && f.issued <= 1 + (d.reverts - f.reverts0) + (d.attaches - f.attaches0)
            && (f.phase.UReturned? && f.phase.outcome.Done? && !f.gone && d.attaches == f.seen ==>
                  !IsAttachedTo(d.model.attachments, f.node))
  {
    RunKeepsInv(s, steps);
    assert UnpublishInv(DiskOf(Exec(s, steps).value.disks, id), Exec(s, steps).value.unpublishing[id]);
  }

  // ---------- followers of an unpublish flight ----------

  // What a leader's success says of a node: while nothing has been attached since the reading, the volume is
  // not attached to it.
  predicate SuccessTrueOf(s: State, id: string, leader: string, node: string) {
    && id in s.disks && id in s.unpublishing
    && s.unpublishing[id].node == leader && !s.unpublishing[id].gone
    && s.unpublishing[id].phase.UReturned? && s.unpublishing[id].phase.outcome.Done?
    && s.disks[id].attaches == s.unpublishing[id].seen ==>
      !IsAttachedTo(s.disks[id].model.attachments, node)
  }

  ghost predicate FollowerSafe(leader: string, node: string) {
    forall s, steps, id | Init(s) && Exec(s, steps).Some? :: SuccessTrueOf(Exec(s, steps).value, id, leader, node)
  }

  lemma Take(start: State, steps: seq<Step>, s: State, step: Step) returns (more: seq<Step>, t: State)
    requires Exec(start, steps) == Some(s) && Enabled(s, step)
    ensures more == steps + [step] && t == Apply(s, step) && Exec(start, more) == Some(t)
  {
    more, t := steps + [step], Apply(s, step);
    assert more[..|more| - 1] == steps;
  }

  // The leader's flight for one node finds the volume attached to another and succeeds at once.
  lemma UnpublishElsewhere(leader: string, node: string) returns (s: State, steps: seq<Step>)
    requires leader != "" && node != leader
    ensures Init(s) && Exec(s, steps).Some? && !SuccessTrueOf(Exec(s, steps).value, "v", leader, node)
  {
    var disk := Disk(Model(InUse, [Attachment(node, "vdb", "v-1")], 10), 1, 0, 0);
    s := State(map["v" := disk], map[], map[], map[], 0);
    var t;
    steps, t := Take(s, [], s, UEnter("v", leader, None));
    steps, t := Take(s, steps, t, UStep("v", URead(false)));
    steps, t := Take(s, steps, t, UStep("v", UNode(Exists)));
    assert t.disks["v"] == disk && t.disks["v"].model.attachments[0].instance == node;
  }

  // The group of unpublish flights is keyed by the volume alone, so a follower that named another node gets
  // the leader's answer.  A leader's success is true of a follower in every run if and only if the follower
  // named the leader's node.
  lemma UnpublishFollowerServedExactlyWhen(leader: string, node: string)
    requires leader != ""
    ensures FollowerSafe(leader, node) <==> node == leader
  {
    if node == leader {
      forall s, steps, id | Init(s) && Exec(s, steps).Some?
        ensures SuccessTrueOf(Exec(s, steps).value, id, leader, node)
      {
        var t := Exec(s, steps).value;
        if id in t.disks && id in t.unpublishing {
          UnpublishFlightDetachesOnce(s, steps, id);
        }
      }
    } else {
      var s, steps := UnpublishElsewhere(leader, node);
    }
  }

  // ---------- expand calls ----------

  // A resize that is about to be issued asks for a size in range that is larger than the one the call has
  // read.  Whether it is still larger when it is issued is the subject of ExpandProtocol.
  lemma ResizeAsksForMore(s: State, steps: seq<Step>, call: nat)
    requires Init(s) && Exec(s, steps).Some?
    requires call in Exec(s, steps).value.expanding && Exec(s, steps).value.expanding[call].XReady?
    requires var x := Exec(s, steps).value.expanding[call];
             x.range.Range? && x.range.limit >= 0 && 0 <= x.size < SIZE_BOUND_GB
    ensures var x := Exec(s, steps).value.expanding[call];
            x.size < x.gb && MeetsRange(x.gb, x.range)
  {
    RunKeepsInv(s, steps);
    assert ExpandInv(Exec(s, steps).value.expanding[call]);
  }

  lemma Asked(online: bool, gb: int64)
    requires 10 < gb < 100
    ensures Decide(Model(Available, [], 10), Range(gb * GB, 0), online, false) == Resize(gb)
  {
    BytesFit(10);
    BytesFit(gb);
    RoundUpExactlyWhen(gb * GB);
  }

  // A volume of some size and status, and expand calls.
  function Expands(status: VolumeStatus, gb: int64, calls: map<nat, Expand>): State {
    State(map["v" := Disk(Model(status, [], gb), 0, 0, 0)], map[], map[], calls, 0)
  }

  const SMALLER: CapacityRange := Range(20 * GB, 0)
  const LARGER: CapacityRange := Range(30 * GB, 0)

  // A step that leaves the volume alone.
  lemma Expanded(start: State, steps: seq<Step>, status: VolumeStatus, gb: int64,
                 calls: map<nat, Expand>, step: Step, after: map<nat, Expand>)
    returns (more: seq<Step>)
    requires Exec(start, steps) == Some(Expands(status, gb, calls)) && Enabled(Expands(status, gb, calls), step)
    requires step.XEnter? || step.XRead?
    requires ExpandingAfter(Expands(status, gb, calls), step) == after
    ensures more == steps + [step] && Exec(start, more) == Some(Expands(status, gb, after))
  {
    var t;
    more, t := Take(start, steps, Expands(status, gb, calls), step);
  }

  // Two requests are read at 10 GB.
  lemma OverlappingReads() returns (steps: seq<Step>)
    ensures steps == [XEnter(0, "v", SMALLER, false), XEnter(1, "v", LARGER, false), XRead(0, false), XRead(1, false)]
    ensures Exec(Expands(Available, 10, map[]), steps)
         == Some(Expands(Available, 10, map[0 := XReady("v", SMALLER, 10, 20), 1 := XReady("v", LARGER, 10, 30)]))
  {
    var s := Expands(Available, 10, map[]);
    var a, b := XCalled("v", SMALLER, false), XCalled("v", LARGER, false);
    var x, y := XReady("v", SMALLER, 10, 20), XReady("v", LARGER, 10, 30);
    Asked(false, 20);
    Asked(false, 30);
    steps := Expanded(s, [], Available, 10, map[], XEnter(0, "v", SMALLER, false), map[0 := a]);
    steps := Expanded(s, steps, Available, 10, map[0 := a], XEnter(1, "v", LARGER, false), map[0 := a, 1 := b]);
    steps := Expanded(s, steps, Available, 10, map[0 := a, 1 := b], XRead(0, false), map[0 := x, 1 := b]);
    steps := Expanded(s, steps, Available, 10, map[0 := x, 1 := b], XRead(1, false), map[0 := x, 1 := y]);
  }

  // A step that changes the volume.
  lemma Rescaled(start: State, steps: seq<Step>, s: State, step: Step,
                 status: VolumeStatus, gb: int64, after: map<nat, Expand>)
    returns (more: seq<Step>)
    requires Exec(start, steps) == Some(s) && Enabled(s, step) && (step.XResize? || step.World?)
    requires s.disks.Keys == {"v"} && s.publishing == map[] && s.unpublishing == map[] && s.clock == 0
    requires DisksAfter(s, step)["v"] == Disk(Model(status, [], gb), 0, 0, 0) && ExpandingAfter(s, step) == after
    ensures more == steps + [step] && Exec(start, more) == Some(Expands(status, gb, after))
  {
    var t;
    more, t := Take(start, steps, s, step);
    assert t.disks == map["v" := Disk(Model(status, [], gb), 0, 0, 0)];
  }

  // The larger one is carried out.
  lemma LargerCarriedOut() returns (steps: seq<Step>)
    ensures |steps| == 6 && steps[0] == XEnter(0, "v", SMALLER, false) && steps[1] == XEnter(1, "v", LARGER, false)
    ensures steps[2] == XRead(0, false) && steps[3] == XRead(1, false) && steps[4] == XResize(1, true)
    ensures Exec(Expands(Available, 10, map[]), steps)
        == Some(Expands(Scaling, 30, map[0 := XReady("v", SMALLER, 10, 20)]))
  {
    var s := Expands(Available, 10, map[]);
    var x, y := XReady("v", SMALLER, 10, 20), XReady("v", LARGER, 10, 30);
    steps := OverlappingReads();
    assert map[0 := x, 1 := y] - {1} == map[0 := x];
    steps := Rescaled(s, steps, Expands(Available, 10, map[0 := x, 1 := y]), XResize(1, true), Scaling, 10,
        map[0 := x]);
    steps := Rescaled(s, steps, Expands(Scaling, 10, map[0 := x]), World("v", Grow(30)), Scaling, 30, map[0 := x]);
  }

  // Two requests overlap: both read 10 GB, the larger one is carried out, and the smaller one is still issued,
  // for a volume that is larger by now.
  lemma OvertakenRun() returns (s: State, steps: seq<Step>)
    ensures Init(s) && s.disks.Keys == {"v"} && s.disks["v"].model.sizeGB == 10 && Exec(s, steps).Some?
    ensures |steps| == 7 && steps[0] == XEnter(0, "v", SMALLER, false) && steps[1] == XEnter(1, "v", LARGER, false)
    ensures steps[2] == XRead(0, false) && steps[3] == XRead(1, false) && steps[4] == XResize(1, true)
    ensures var t := Exec(s, steps).value;
            && 0 in t.expanding && t.expanding[0] == XReady("v", SMALLER, 10, 20)
            && "v" in t.disks && t.disks["v"].model.sizeGB == 30
            && Enabled(t, XResize(0, true))
  {
    s := Expands(Available, 10, map[]);
    var x := XReady("v", SMALLER, 10, 20);
    steps := LargerCarriedOut();
    steps := Rescaled(s, steps, Expands(Scaling, 30, map[0 := x]), World("v", SetStatus(Available)), Available, 30,
        map[0 := x]);
  }
}
