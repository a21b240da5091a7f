/**
 Runs that meet every assumption of AttachTiming: a flight that attaches a volume, sleeps and finds it attached,
 and one that detaches it, sleeps and finds it detached.
 */
module AttachExamples {
  import opened Status
  import opened Timers
  import opened Volumes
  import opened AttachProtocol
  import opened AttachTiming

  // ---------- publishing ----------

  // A volume "v" with its publish flight and nothing else.
  function Lone(d: Disk, f: Publish, clock: int): State {
    State(map["v" := d], map["v" := f], map[], map[], clock)
  }

  lemma TakeServed(s: State, steps: seq<Step>, t: State, step: Step, u: State) returns (more: seq<Step>)
    requires PublishServed(s, steps, "v", 1000, 0) && Exec(s, steps) == Some(t)
    requires Enabled(t, step) && Apply(t, step) == u && PublishSmooth(step, "v") && Attaches(u, "v", 1000, 0)
    ensures Exec(s, more) == Some(u) && PublishServed(s, more, "v", 1000, 0)
  {
    more := steps + [step];
    assert more[..|more| - 1] == steps;
  }

  lemma MoveServed(s: State, steps: seq<Step>, d: Disk, f: Publish, clock: int, move: PublishMove)
    returns (more: seq<Step>, e: Disk, g: Publish)
    requires PublishServed(s, steps, "v", 1000, 0) && Exec(s, steps) == Some(Lone(d, f, clock))
    requires Enabled(Lone(d, f, clock), PStep("v", move)) && PublishSmooth(PStep("v", move), "v")
    requires Attaches(Lone(DiskAfterPublish(f, d, move), PublishAfter(f, Some(d), clock, move), clock), "v", 1000, 0)
    ensures e == DiskAfterPublish(f, d, move) && g == PublishAfter(f, Some(d), clock, move)
    ensures Exec(s, more) == Some(Lone(e, g, clock)) && PublishServed(s, more, "v", 1000, 0)
  {
    e, g := DiskAfterPublish(f, d, move), PublishAfter(f, Some(d), clock, move);
    assert map["v" := d]["v" := e] == map["v" := e] && map["v" := f]["v" := g] == map["v" := g];
    more := TakeServed(s, steps, Lone(d, f, clock), PStep("v", move), Lone(e, g, clock));
  }

  function Fresh(): Disk {
    Disk(Model(Available, [], 10), 0, 0, 0)
  }

  function Held(node: string, status: VolumeStatus): Disk {
    Disk(Model(status, [Attachment(node, "vdb", "v-1")], 10), 1, 0, 0)
  }

  function Begun(node: string): Publish {
    NewPublish(node, Some(Fresh()), Timers.Begin(0, None))
  }

  lemma ServedRead(node: string) returns (steps: seq<Step>, d: Disk, f: Publish)
    requires node != ""
    ensures PublishServed(Lone(Fresh(), Begun(node), 0), steps, "v", 1000, 0)
    ensures Exec(Lone(Fresh(), Begun(node), 0), steps) == Some(Lone(d, f, 0))
    ensures d == Fresh() && f == Begun(node).(phase := PReady)
  {
    var s := Lone(Fresh(), Begun(node), 0);
    d, f := Fresh(), Begun(node);
    steps, d, f := MoveServed(s, [], d, f, 0, PNode(Exists));
    steps, d, f := MoveServed(s, steps, d, f, 0, PRead(false));
  }

  lemma ServedAttach(node: string) returns (steps: seq<Step>, f: Publish)
    requires node != ""
    ensures PublishServed(Lone(Fresh(), Begun(node), 0), steps, "v", 1000, 0)
    ensures Exec(Lone(Fresh(), Begun(node), 0), steps) == Some(Lone(Held(node, Attaching), f, 0))
    ensures f == Begun(node).(phase := PReturned(Error(Aborted)), issued := 1,
        timer := Timers.Over(Begun(node).timer, 0))
  {
    var s := Lone(Fresh(), Begun(node), 0);
    var d;
    steps, d, f := ServedRead(node);
    steps, d, f := MoveServed(s, steps, d, f, 0, PAttach(Accepted("vdb", "v-1", Attaching, true)));
    assert d.model.attachments == [Attachment(node, "vdb", "v-1")];
    assert d == Held(node, Attaching);
    steps, d, f := MoveServed(s, steps, d, f, 0, PReturn);
  }

  lemma ServedSleep(s: State, steps: seq<Step>, node: string, f: Publish) returns (more: seq<Step>)
    requires PublishServed(s, steps, "v", 1000, 0) && Exec(s, steps) == Some(Lone(Held(node, Attaching), f, 0))
    requires f.node == node && f.phase == PReturned(Error(Aborted)) && f.attaches0 == f.removals0 == 0
    requires f.timer.finish == Some(0) && f.timer.waitDeadline == 57000 && f.timer.acted == 0
    ensures Exec(s, more) == Some(Lone(Held(node, InUse), f, 2000)) && PublishServed(s, more, "v", 1000, 0)
  {
    var u := Lone(Held(node, InUse), f, 0);
    more := TakeServed(s, steps, Lone(Held(node, Attaching), f, 0), World("v", SetStatus(InUse)), u);
    more := TakeServed(s, more, u, Tick(2000), Lone(Held(node, InUse), f, 2000));
  }

  lemma ServedRetry(s: State, steps: seq<Step>, node: string, f: Publish)
    returns (more: seq<Step>, d: Disk, g: Publish)
    requires PublishServed(s, steps, "v", 1000, 0) && Exec(s, steps) == Some(Lone(Held(node, InUse), f, 2000))
    requires f.node == node && f.phase == PReturned(Error(Aborted)) && f.attaches0 == f.removals0 == 0
    requires f.timer.finish == Some(0) && f.timer.waitDeadline == 57000 && f.timer.acted == 0
    ensures Exec(s, more) == Some(Lone(d, g, 2000)) && PublishServed(s, more, "v", 1000, 0)
    ensures d == Held(node, InUse) && g == f.(phase := PNodeSeen, timer := Timers.Again(f.timer, 2000))
  {
    d := Held(node, InUse);
    more, d, g := MoveServed(s, steps, d, f, 2000, PRetry);
    more, d, g := MoveServed(s, more, d, g, 2000, PNode(Exists));
  }

  lemma ServedFind(s: State, steps: seq<Step>, node: string, f: Publish) returns (more: seq<Step>, g: Publish)
    requires PublishServed(s, steps, "v", 1000, 0) && Exec(s, steps) == Some(Lone(Held(node, InUse), f, 2000))
    requires f.node == node && f.phase == PReturned(Error(Aborted)) && f.attaches0 == f.removals0 == 0
    requires f.timer.finish == Some(0) && f.timer.waitDeadline == 57000 && f.timer.acted == 0
    ensures Exec(s, more) == Some(Lone(Held(node, InUse), g, 2000)) && PublishServed(s, more, "v", 1000, 0)
    ensures CanLeavePublish(g, 2000)
  {
    var d;
    more, d, g := ServedRetry(s, steps, node, f);
    more, d, g := MoveServed(s, more, d, g, 2000, PRead(false));
    more, d, g := MoveServed(s, more, d, g, 2000, PReturn);
  }

  // Such runs exist: the flight attaches, sleeps, and finds the volume attached.
  lemma ServedPublish(node: string) returns (s: State, steps: seq<Step>)
    requires node != ""
    ensures Inv(s) && PublishBegins(s, "v", node, None) && Fits(s.publishing["v"].timer, 1000, 0)
    ensures PublishServed(s, steps, "v", 1000, 0)
    ensures var t := Exec(s, steps).value; "v" in t.publishing && CanLeavePublish(t.publishing["v"], t.clock)
  {
    s := Lone(Fresh(), Begun(node), 0);
    var f;
    steps, f := ServedAttach(node);
    steps := ServedSleep(s, steps, node, f);
    steps, f := ServedFind(s, steps, node, f);
  }

  // ---------- unpublishing ----------

  // A volume "v" with its unpublish flight and nothing else.
  function Lonely(d: Disk, f: Unpublish, clock: int): State {
    State(map["v" := d], map[], map["v" := f], map[], clock)
  }

  lemma TakeDetached(s: State, steps: seq<Step>, t: State, step: Step, u: State) returns (more: seq<Step>)
    requires UnpublishServed(s, steps, "v", true, 1000, 0) && Exec(s, steps) == Some(t)
    requires Enabled(t, step) && Apply(t, step) == u && UnpublishSmooth(step, "v") && Detaches(u, "v", true, 1000, 0)
    ensures Exec(s, more) == Some(u) && UnpublishServed(s, more, "v", true, 1000, 0)
  {
    more := steps + [step];
    assert more[..|more| - 1] == steps;
  }

  lemma MoveDetached(s: State, steps: seq<Step>, d: Disk, f: Unpublish, clock: int, move: UnpublishMove)
    returns (more: seq<Step>, e: Disk, g: Unpublish)
    requires UnpublishServed(s, steps, "v", true, 1000, 0) && Exec(s, steps) == Some(Lonely(d, f, clock))
    requires Enabled(Lonely(d, f, clock), UStep("v", move)) && UnpublishSmooth(UStep("v", move), "v")
    requires Detaches(Lonely(DiskAfterUnpublish(d, move), UnpublishAfter(f, Some(d), clock, move), clock), "v", true,
        1000, 0)
    ensures e == DiskAfterUnpublish(d, move) && g == UnpublishAfter(f, Some(d), clock, move)
    ensures Exec(s, more) == Some(Lonely(e, g, clock)) && UnpublishServed(s, more, "v", true, 1000, 0)
  {
    e, g := DiskAfterUnpublish(d, move), UnpublishAfter(f, Some(d), clock, move);
    assert map["v" := d]["v" := e] == map["v" := e] && map["v" := f]["v" := g] == map["v" := g];
    more := TakeDetached(s, steps, Lonely(d, f, clock), UStep("v", move), Lonely(e, g, clock));
  }

  function Gone(): Disk {
    Disk(Model(Available, [], 10), 1, 1, 0)
  }

  function Detaining(node: string): Unpublish {
    NewUnpublish(node, Some(Held(node, InUse)), Timers.Begin(0, None))
  }

  lemma HeldRead(node: string) returns (steps: seq<Step>, d: Disk, f: Unpublish)
    requires node != ""
    ensures UnpublishServed(Lonely(Held(node, InUse), Detaining(node), 0), steps, "v", true, 1000, 0)
    ensures Exec(Lonely(Held(node, InUse), Detaining(node), 0), steps) == Some(Lonely(d, f, 0))
    ensures d == Held(node, InUse) && f == Detaining(node).(phase := UReady)
  {
    d, f := Held(node, InUse), Detaining(node);
    var s := Lonely(d, f, 0);
    assert FindAttachment(d.model.attachments, node) == 0;
    steps, d, f := MoveDetached(s, [], d, f, 0, URead(false));
    steps, d, f := MoveDetached(s, steps, d, f, 0, UNode(Exists));
  }

  lemma ServedDetach(node: string) returns (steps: seq<Step>, f: Unpublish)
    requires node != ""
    ensures UnpublishServed(Lonely(Held(node, InUse), Detaining(node), 0), steps, "v", true, 1000, 0)
    ensures Exec(Lonely(Held(node, InUse), Detaining(node), 0), steps) == Some(Lonely(Held(node, Detaching), f, 0))
    ensures f == Detaining(node).(phase := UReturned(Error(Aborted)), issued := 1,
                                  timer := Timers.Over(Detaining(node).timer, 0))
  {
    var s := Lonely(Held(node, InUse), Detaining(node), 0);
    var d;
    steps, d, f := HeldRead(node);
    assert FindAttachment(d.model.attachments, node) == 0;
    steps, d, f := MoveDetached(s, steps, d, f, 0, UDetach(true, true));
    assert d == Held(node, Detaching);
    steps, d, f := MoveDetached(s, steps, d, f, 0, UReturn);
  }

  lemma Removed(node: string)
    ensures var e := Changed(Held(node, Detaching), Remove(0));
            e.model.attachments == [] && WithStatus(e, Available) == Gone()
  {}

  lemma WorldDetached(s: State, steps: seq<Step>, d: Disk, f: Unpublish, change: Change, e: Disk)
    returns (more: seq<Step>)
    requires UnpublishServed(s, steps, "v", true, 1000, 0) && Exec(s, steps) == Some(Lonely(d, f, 0))
    requires CanChange(d, change) && Changed(d, change) == e && Detaches(Lonely(e, f, 0), "v", true, 1000, 0)
    ensures Exec(s, more) == Some(Lonely(e, f, 0)) && UnpublishServed(s, more, "v", true, 1000, 0)
  {
    assert map["v" := d]["v" := e] == map["v" := e];
    more := TakeDetached(s, steps, Lonely(d, f, 0), World("v", change), Lonely(e, f, 0));
  }

  lemma DetachedSleep(s: State, steps: seq<Step>, node: string, f: Unpublish) returns (more: seq<Step>)
    requires UnpublishServed(s, steps, "v", true, 1000, 0)
        && Exec(s, steps) == Some(Lonely(Held(node, Detaching), f, 0))
    requires f.node == node && f.phase == UReturned(Error(Aborted)) && f.issued == 1 && f.attaches0 == 1
        && f.reverts0 == 0
    requires f.timer.finish == Some(0) && f.timer.waitDeadline == 57000
    ensures Exec(s, more) == Some(Lonely(Gone(), f, 2000)) && UnpublishServed(s, more, "v", true, 1000, 0)
  {
    var d := Held(node, Detaching);
    Removed(node);
    var e := Changed(d, Remove(0));
    more := WorldDetached(s, steps, d, f, Remove(0), e);
    more := WorldDetached(s, more, e, f, SetStatus(Available), Gone());
    more := TakeDetached(s, more, Lonely(Gone(), f, 0), Tick(2000), Lonely(Gone(), f, 2000));
  }

  lemma DetachedRead(s: State, steps: seq<Step>, node: string, f: Unpublish)
    returns (more: seq<Step>, d: Disk, g: Unpublish)
    requires UnpublishServed(s, steps, "v", true, 1000, 0) && Exec(s, steps) == Some(Lonely(Gone(), f, 2000))
    requires f.node == node && f.phase == UReturned(Error(Aborted)) && f.issued == 1 && f.attaches0 == 1
        && f.reverts0 == 0
    requires f.timer.finish == Some(0) && f.timer.waitDeadline == 57000
    ensures Exec(s, more) == Some(Lonely(d, g, 2000)) && UnpublishServed(s, more, "v", true, 1000, 0)
    ensures d == Gone() && g == f.(phase := USeen(Gone().model), seen := 1, timer := Timers.Again(f.timer, 2000))
  {
    d := Gone();
    more, d, g := MoveDetached(s, steps, d, f, 2000, URetry);
    more, d, g := MoveDetached(s, more, d, g, 2000, URead(false));
  }

  lemma DetachedFind(s: State, steps: seq<Step>, node: string, f: Unpublish) returns (more: seq<Step>, g: Unpublish)
    requires UnpublishServed(s, steps, "v", true, 1000, 0) && Exec(s, steps) == Some(Lonely(Gone(), f, 2000))
    requires f.node == node && f.phase == UReturned(Error(Aborted)) && f.issued == 1 && f.attaches0 == 1
        && f.reverts0 == 0
    requires f.timer.finish == Some(0) && f.timer.waitDeadline == 57000
    ensures Exec(s, more) == Some(Lonely(Gone(), g, 2000)) && UnpublishServed(s, more, "v", true, 1000, 0)
    ensures CanLeaveUnpublish(g, 2000)
  {
    var d;
    more, d, g := DetachedRead(s, steps, node, f);
    more, d, g := MoveDetached(s, more, d, g, 2000, UNode(Exists));
    more, d, g := MoveDetached(s, more, d, g, 2000, UReturn);
  }

  // The flight detaches, sleeps, and finds the volume detached.
  lemma ServedUnpublish(node: string) returns (s: State, steps: seq<Step>)
    requires node != ""
    ensures Inv(s) && UnpublishBegins(s, "v", node, None) && Fits(s.unpublishing["v"].timer, 1000, 0)
    ensures UnpublishServed(s, steps, "v", Holds(s.disks["v"], node), 1000, 0)
    ensures var t := Exec(s, steps).value; "v" in t.unpublishing && CanLeaveUnpublish(t.unpublishing["v"], t.clock)
  {
    s := Lonely(Held(node, InUse), Detaining(node), 0);
    assert FindAttachment(s.disks["v"].model.attachments, node) == 0;
    var f;
    steps, f := ServedDetach(node);
    steps := DetachedSleep(s, steps, node, f);
    steps, f := DetachedFind(s, steps, node, f);
  }
}
