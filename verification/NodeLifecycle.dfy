/**
 What the node handlers achieve together, over every host, every failing call and every order: what one
 call can touch, how retries drain a stack of mounts, and that a whole life cycle undoes itself.
 */
module NodeLifecycle {
  import opened Status
  import opened MountTable
  import opened NodeServer

  datatype Operation =
    | StageOp(target: Path, source: string)
    | PublishMountOp(staging: Path, target: Path)
    | PublishBlockOp(source: string, target: Path)
    | UnpublishOp(target: Path)
    | UnstageOp(target: Path)

  function Perform(h: Host, op: Operation, fails: Faults): Result {
    match op
    case StageOp(target, source) => Stage(h, target, source, fails)
    case PublishMountOp(staging, target) => PublishMount(h, staging, target, fails)
    case PublishBlockOp(source, target) => PublishBlock(h, source, target, fails)
    case UnpublishOp(target) => Unpublish(h, target, fails)
    case UnstageOp(target) => Unstage(h, target, fails)
  }

  predicate GoodOperation(op: Operation) {
    op.target != [] && (op.StageOp? ==> op.source != "")
  }

  lemma SoundDevice(h: Host, p: Path)
    requires Sound(h)
    ensures DeviceAt(h.table, p) != "" <==> At(h.table, p) != []
    ensures References(h.table, DeviceAt(h.table, p)) > 0 <==> At(h.table, p) != []
    ensures DeviceUnder(h.table, p) != ""
    ensures At(h.table, p) != [] ==> p in h.paths
  {
    AtMember(h.table, p);
    ReferencesCount(h.table, DeviceAt(h.table, p));
    if At(h.table, p) != [] {
      assert At(h.table, p)[0] in At(h.table, p);
      assert At(h.table, p)[|At(h.table, p)| - 1] in At(h.table, p);
    }
  }

  lemma MkdirKeepsSound(h: Host, p: Path)
    requires Sound(h)
    ensures Sound(MkdirAll(h, p)) && p in MkdirAll(h, p).paths
  {
    PrefixesAll(p);
  }

  lemma AddLeafKeepsSound(h: Host, p: Path)
    requires Sound(h) && p != []
    ensures var g := MkdirAll(h, Dir(p));
            Sound(g.(paths := g.paths + {p})) && g.paths + {p} == MkdirAll(h, p).paths
  {
    PrefixesAll(p);
    PrefixesAll(Dir(p));
    forall q ensures IsPrefix(q, p) <==> IsPrefix(q, Dir(p)) || q == p {
      if IsPrefix(q, p) && q != p {
        assert q == p[..|q|] == Dir(p)[..|q|];
      }
    }
    assert MkdirAll(h, Dir(p)).paths + {p} == MkdirAll(h, p).paths;
    MkdirKeepsSound(h, p);
  }

  // What an operation on a target may do to the host: mounts at every other path stay as they are, the
  // target's stack changes by at most one mount on top, at most the target and the directories above
  // it come into being, and at most the target goes.
  ghost predicate Local(h: Host, g: Host, target: Path) {
    && Sound(g)
    && (forall p | p != target :: At(g.table, p) == At(h.table, p))
    && (g.table == h.table || g.table == Pop(h.table, target) || (|g.table| == |h.table| + 1 && h.table < g.table))
    && h.paths - {target} <= g.paths <= h.paths + Prefixes(target)
  }

  // A host that has only gained paths, and perhaps a mount on the target.
  lemma GainIsLocal(h: Host, g: Host, target: Path, device: string)
    requires Sound(g) && g.table == h.table && h.paths <= g.paths <= h.paths + Prefixes(target)
    ensures Local(h, g, target)
    ensures forall node :: device != "" && target in g.paths ==>
              Local(h, g.(table := g.table + [Entry(device, target, node)]), target)
  {
    forall p, node | p != target ensures At(h.table + [Entry(device, target, node)], p) == At(h.table, p) {
      AtPush(h.table, Entry(device, target, node), p);
    }
  }

  lemma BindIsLocal(h: Host, g: Host, target: Path, device: string, node: string, fails: Faults)
    requires Sound(g) && g.table == h.table && h.paths <= g.paths <= h.paths + Prefixes(target)
    requires device != "" && target in g.paths
    ensures Local(h, Bind(g, target, device, node, fails).0, target)
  {
    GainIsLocal(h, g, target, device);
  }

  lemma PopIsLocal(h: Host, target: Path)
    requires Sound(h)
    ensures Local(h, h.(table := Pop(h.table, target)), target)
  {
    PopMembers(h.table, target);
    forall p | p != target ensures At(Pop(h.table, target), p) == At(h.table, p) {
      AtPop(h.table, target, p);
    }
  }

  lemma RemoveIsLocal(h: Host, g: Host, target: Path, fails: Faults)
    requires Local(h, g, target)
    ensures Local(h, Remove(g, target, fails).0, target)
  {
    if CanRemove(g, target) {
      AtMember(g.table, target);
    }
  }

  lemma TakeDownIsLocal(h: Host, target: Path, mounted: bool, fails: Faults)
    requires Sound(h)
    ensures Local(h, TakeDown(h, target, mounted, fails).0, target)
  {
    GainIsLocal(h, h, target, "");
    PopIsLocal(h, target);
    RemoveIsLocal(h, h, target, fails);
    RemoveIsLocal(h, h.(table := Pop(h.table, target)), target, fails);
  }

  // Every operation is local, whichever of its calls fail.
  lemma OperationIsLocal(h: Host, op: Operation, fails: Faults)
    requires Sound(h) && GoodOperation(op)
    ensures Local(h, Perform(h, op, fails).0, op.target)
  {
    var target := op.target;
    GainIsLocal(h, h, target, "");
    MkdirKeepsSound(h, target);
    match op
    case StageOp(_, source) =>
      GainIsLocal(h, h, target, source);
      GainIsLocal(h, MkdirAll(h, target), target, source);
    case PublishMountOp(staging, _) =>
      SoundDevice(h, staging);
      var g := if target in h.paths then h else MkdirAll(h, target);
      BindIsLocal(h, g, target, DeviceUnder(h.table, staging), "", fails);
    case PublishBlockOp(source, _) =>
      if target in h.paths {
        BindIsLocal(h, h, target, DEVICE_FS, source, fails);
      } else {
        var g := MkdirAll(h, Dir(target));
        MkdirKeepsSound(h, Dir(target));
        AddLeafKeepsSound(h, target);
        GainIsLocal(h, g, target, "");
        BindIsLocal(h, g.(paths := g.paths + {target}), target, DEVICE_FS, source, fails);
      }
    case UnpublishOp(_) =>
      TakeDownIsLocal(h, target, DeviceAt(h.table, target) != "", fails);
    case UnstageOp(_) =>
      TakeDownIsLocal(h, target, References(h.table, DeviceAt(h.table, target)) > 0, fails);
  }

  // ---------- draining a stack ----------

  // On a sound host the two ways of asking whether something is mounted agree, so that unstaging does
  // to the staging path what unpublishing does to a target.
  lemma UnstageIsUnpublish(h: Host, target: Path, fails: Faults)
    requires Sound(h)
    ensures Unstage(h, target, fails) == Unpublish(h, target, fails)
  {
    SoundDevice(h, target);
  }

  // The host and the outcome after n calls in which nothing fails.
  function AfterCalls(h: Host, target: Path, n: nat): Result
    requires n >= 1
  {
    if n == 1 then Unpublish(h, target, NO_FAULTS) else Unpublish(AfterCalls(h, target, n - 1).0, target, NO_FAULTS)
  }

  function Max(a: int, b: int): int {
    if a > b then a else b
  }

  // What one call does in which nothing fails.
  ghost predicate Lowered(h: Host, target: Path, g: Host, outcome: Outcome<()>) {
    var stack := At(h.table, target);
    && Sound(g)
    && At(g.table, target) == (if stack == [] then [] else stack[..|stack| - 1])
    && (outcome.Done? <==> target !in h.paths || (Leaf(h, target) && |stack| <= 1))
    && g.paths == (if outcome.Done? then h.paths - {target} else h.paths)
  }

  // The call, case by case.
  lemma UnpublishCases(h: Host, target: Path)
    requires Sound(h)
    ensures var g := if At(h.table, target) == [] then h else h.(table := Pop(h.table, target));
            Unpublish(h, target, NO_FAULTS) ==
              if target !in h.paths then (h, Done(()))
              else if CanRemove(g, target) then (g.(paths := h.paths - {target}), Done(()))
              else (g, Error(Internal))
  {
    SoundDevice(h, target);
  }

  lemma LoweredByPop(h: Host, target: Path)
    requires Sound(h) && target in h.paths
    ensures var g := if At(h.table, target) == [] then h else h.(table := Pop(h.table, target));
            if CanRemove(g, target) then Lowered(h, target, g.(paths := h.paths - {target}), Done(()))
            else Lowered(h, target, g, Error(Internal))
  {
    var g := if At(h.table, target) == [] then h else h.(table := Pop(h.table, target));
    AtPop(h.table, target, target);
    GainIsLocal(h, h, target, "");
    PopIsLocal(h, target);
    RemoveIsLocal(h, g, target, NO_FAULTS);
    assert Leaf(g, target) == Leaf(h, target);
  }

  lemma LoweredOutside(h: Host, target: Path)
    requires Sound(h) && target !in h.paths
    ensures Lowered(h, target, h, Done(()))
  {
    SoundDevice(h, target);
    assert h.paths - {target} == h.paths;
  }

  lemma UnpublishOnce(h: Host, target: Path)
    requires Sound(h)
    ensures Lowered(h, target, Unpublish(h, target, NO_FAULTS).0, Unpublish(h, target, NO_FAULTS).1)
  {
    UnpublishCases(h, target);
    if target in h.paths {
      LoweredByPop(h, target);
    } else {
      LoweredOutside(h, target);
    }
  }

  // What n calls do to a target with k mounts: each takes one mount off, and they succeed from call
  // max(1, k) on, unless something lies below the target.
  ghost predicate Drained(h: Host, target: Path, n: nat, g: Host, outcome: Outcome<()>) {
    var k := |At(h.table, target)|;
    && Sound(g)
    && At(g.table, target) == At(h.table, target)[..Max(k - n, 0)]
    && (outcome.Done? <==> target !in h.paths || (Leaf(h, target) && n >= Max(1, k)))
    && g.paths == (if outcome.Done? then h.paths - {target} else h.paths)
  }

  lemma DrainFirst(h: Host, target: Path, g: Host, outcome: Outcome<()>)
    requires Sound(h) && Lowered(h, target, g, outcome)
    ensures Drained(h, target, 1, g, outcome)
  {
    SoundDevice(h, target);
  }

  lemma TakeOneMore(stack: seq<Entry>, n: nat)
    ensures var left := stack[..Max(|stack| - n, 0)];
            (if left == [] then [] else left[..|left| - 1]) == stack[..Max(|stack| - (n + 1), 0)]
  {}

  lemma DrainNext(h: Host, target: Path, n: nat, g: Host, outcome: Outcome<()>, g': Host, outcome': Outcome<()>)
    requires Sound(h) && n >= 1 && Drained(h, target, n, g, outcome) && Lowered(g, target, g', outcome')
    ensures Drained(h, target, n + 1, g', outcome')
  {
    TakeOneMore(At(h.table, target), n);
    SoundDevice(h, target);
    assert g.paths == h.paths ==> (Leaf(g, target) <==> Leaf(h, target));
  }

  lemma DrainBegins(h: Host, target: Path)
    requires Sound(h)
    ensures var r := Unpublish(h, target, NO_FAULTS); Drained(h, target, 1, r.0, r.1)
  {
    var r := Unpublish(h, target, NO_FAULTS);
    UnpublishOnce(h, target);
    DrainFirst(h, target, r.0, r.1);
  }

  lemma DrainGoesOn(h: Host, target: Path, n: nat, r: Result)
    requires Sound(h) && n >= 1 && Drained(h, target, n, r.0, r.1)
    ensures var r' := Unpublish(r.0, target, NO_FAULTS); Drained(h, target, n + 1, r'.0, r'.1)
  {
    var r' := Unpublish(r.0, target, NO_FAULTS);
    UnpublishOnce(r.0, target);
    DrainNext(h, target, n, r.0, r.1, r'.0, r'.1);
  }

  ghost predicate DrainedAfter(h: Host, target: Path, n: nat)
    requires n >= 1
  {
    Drained(h, target, n, AfterCalls(h, target, n).0, AfterCalls(h, target, n).1)
  }

  lemma DrainsFirst(h: Host, target: Path)
    requires Sound(h)
    ensures DrainedAfter(h, target, 1)
  {
    DrainBegins(h, target);
  }

  lemma DrainsOneMore(h: Host, target: Path, n: nat)
    requires Sound(h) && n >= 1 && DrainedAfter(h, target, n)
    ensures DrainedAfter(h, target, n + 1)
  {
    DrainGoesOn(h, target, n, AfterCalls(h, target, n));
  }

  // With k mounts stacked on a target, the first max(1, k) - 1 calls fail, each taking one mount off, and
  // from call max(1, k) on every call succeeds and finds the path gone; a path that something lies
  // below is never removed.  By UnstageIsUnpublish the same holds of unstaging.
  lemma {:induction false} DrainsExactly(h: Host, target: Path, n: nat)
    requires Sound(h) && n >= 1
    ensures DrainedAfter(h, target, n)
  {
    if n == 1 {
      DrainsFirst(h, target);
    } else {
      DrainsExactly(h, target, n - 1);
      DrainsOneMore(h, target, n - 1);
    }
  }

  // A successful call leaves nothing at the target, whichever calls of it might have failed; and a call of
  // which one has failed is an internal error that leaves the paths alone.
  lemma SuccessMeansGone(h: Host, target: Path, fails: Faults)
    requires Sound(h)
    ensures var (g, outcome) := Unpublish(h, target, fails);
            && (outcome.Done? ==> target !in g.paths && At(g.table, target) == [])
            && (outcome.Done? ==> !fails(ExistsCall))
            && (outcome.Done? && target in h.paths ==> !fails(LookupCall) && !fails(RemoveCall))
            && (outcome.Done? && At(h.table, target) != [] ==> !fails(UnmountCall))
            && (outcome.Error? ==> outcome == Error(Internal) && g.paths == h.paths)
  {
    SoundDevice(h, target);
  }

  // ---------- what success of publish and stage means ----------

  // Success leaves something mounted on the target: the entry, if nothing was mounted there before, and
  // otherwise what was; it needs the checks to have answered.  Failure mounts nothing.  A call in which
  // nothing fails succeeds.
  predicate Binds(h: Host, target: Path, entry: Entry, fails: Faults, g: Host, outcome: Outcome<()>) {
    && (outcome.Done? ==>
          && target in g.paths && At(g.table, target) != [] && g.paths == h.paths + Prefixes(target)
          && g.table == (if At(h.table, target) == [] then h.table + [entry] else h.table)
          && !fails(ExistsCall) && !fails(LookupCall))
    && (outcome.Error? ==> outcome == Error(Internal) && g.table == h.table)
    && (!fails(ExistsCall) && !fails(MkdirCall) && !fails(MakeFileCall) && !fails(LookupCall) && !fails(MountCall) ==>
          outcome.Done?)
  }

  lemma BindMeans(h: Host, g: Host, target: Path, device: string, node: string, fails: Faults)
    requires Sound(g) && g.table == h.table && target in g.paths && g.paths == h.paths + Prefixes(target)
    requires device != "" && !fails(ExistsCall)
    ensures var (k, outcome) := Bind(g, target, device, node, fails);
            Binds(h, target, Entry(device, target, node), fails, k, outcome)
  {
    SoundDevice(g, target);
    AtPush(h.table, Entry(device, target, node), target);
  }

  lemma AllThere(h: Host, target: Path)
    requires Sound(h) && target in h.paths
    ensures h.paths + Prefixes(target) == h.paths
  {
    PrefixesAll(target);
  }

  lemma SourceOf(h: Host, staging: Path)
    requires Sound(h)
    ensures var stack := At(h.table, staging);
            DeviceUnder(h.table, staging) == (if stack == [] then "rootfs" else stack[|stack| - 1].device)
    ensures DeviceUnder(h.table, staging) != ""
  {
    SoundDevice(h, staging);
  }

  lemma TargetMade(h: Host, target: Path)
    requires Sound(h)
    ensures var g := if target in h.paths then h else MkdirAll(h, target);
            Sound(g) && target in g.paths && g.paths == h.paths + Prefixes(target)
  {
    MkdirKeepsSound(h, target);
    if target in h.paths {
      AllThere(h, target);
    }
  }

  // Publishing a mount volume binds what is on top of the staging path.
  lemma PublishMountBinds(h: Host, staging: Path, target: Path, fails: Faults)
    requires Sound(h) && target != []
    ensures var (g, outcome) := PublishMount(h, staging, target, fails);
            var stack := At(h.table, staging);
            var device := if stack == [] then "rootfs" else stack[|stack| - 1].device;
            Binds(h, target, Entry(device, target), fails, g, outcome)
  {
    var device := DeviceUnder(h.table, staging);
    SourceOf(h, staging);
    if !fails(ExistsCall) && (target in h.paths || !fails(MkdirCall)) {
      var g := if target in h.paths then h else MkdirAll(h, target);
      TargetMade(h, target);
      BindMeans(h, g, target, device, "", fails);
      assert PublishMount(h, staging, target, fails) == Bind(g, target, device, "", fails);
    }
  }

  // Publishing a block volume binds its device node to a file.
  lemma PublishBlockBinds(h: Host, source: string, target: Path, fails: Faults)
    requires Sound(h) && target != []
    ensures var (g, outcome) := PublishBlock(h, source, target, fails);
            Binds(h, target, Entry("devtmpfs", target, source), fails, g, outcome)
  {
    if !fails(ExistsCall) && (target in h.paths || !fails(MkdirCall)) {
      if target in h.paths {
        AllThere(h, target);
        BindMeans(h, h, target, DEVICE_FS, source, fails);
      } else if !fails(MakeFileCall) {
        var g := MkdirAll(h, Dir(target));
        AddLeafKeepsSound(h, target);
        BindMeans(h, g.(paths := g.paths + {target}), target, DEVICE_FS, source, fails);
      }
    }
  }

  // Success of staging leaves the device on the path, mounted by this call unless it was the oldest mount
  // there before; failure mounts nothing, and a call in which nothing fails succeeds.
  lemma StageMounts(h: Host, target: Path, source: string, fails: Faults)
    requires Sound(h) && target != [] && source != ""
    ensures var (g, outcome) := Stage(h, target, source, fails);
            && (outcome.Done? ==>
                  && target in g.paths && g.paths == h.paths + Prefixes(target)
                  && (exists e :: e in g.table && e.path == target && e.device == source)
                  && g.table == (if At(h.table, target) != [] && At(h.table, target)[0].device == source then h.table
                                 else h.table + [Entry(source, target)])
                  && !fails(ExistsCall) && !fails(LookupCall))
            && (outcome.Error? ==> outcome == Error(Internal) && g.table == h.table)
            && (!fails(ExistsCall) && !fails(MkdirCall) && !fails(LookupCall) && !fails(MountCall) ==> outcome.Done?)
  {
    SoundDevice(h, target);
    MkdirKeepsSound(h, target);
    AtMember(h.table, target);
    if target in h.paths {
      AllThere(h, target);
    }
    var (g, outcome) := Stage(h, target, source, fails);
    if At(h.table, target) != [] && At(h.table, target)[0].device == source {
      assert At(h.table, target)[0] in At(h.table, target);
    } else if outcome.Done? {
      assert Entry(source, target) in g.table;
    }
  }

  // ---------- retrying publish and stage ----------

  // Publishing is idempotent: once it has succeeded, a further call changes nothing, whichever of its
  // calls fail, and succeeds unless one does.
  lemma PublishTwice(h: Host, staging: Path, target: Path, fails: Faults, again: Faults)
    requires Sound(h) && target != []
    requires PublishMount(h, staging, target, fails).1.Done?
    ensures var g := PublishMount(h, staging, target, fails).0;
            && PublishMount(g, staging, target, again).0 == g
            && (PublishMount(g, staging, target, again).1.Done? <==> !again(ExistsCall) && !again(LookupCall))
  {
    var g := PublishMount(h, staging, target, fails).0;
    OperationIsLocal(h, PublishMountOp(staging, target), fails);
    SoundDevice(h, staging);
    SoundDevice(g, target);
    AtPush(h.table, Entry(DeviceUnder(h.table, staging), target), target);
    PrefixesMean(target, target);
  }

  lemma PublishBlockTwice(h: Host, source: string, target: Path, fails: Faults, again: Faults)
    requires Sound(h) && target != []
    requires PublishBlock(h, source, target, fails).1.Done?
    ensures var g := PublishBlock(h, source, target, fails).0;
            && PublishBlock(g, source, target, again).0 == g
            && (PublishBlock(g, source, target, again).1.Done? <==> !again(ExistsCall) && !again(LookupCall))
  {
    OperationIsLocal(h, PublishBlockOp(source, target), fails);
    PublishBlockBinds(h, source, target, fails);
    SoundDevice(PublishBlock(h, source, target, fails).0, target);
  }

  // Staging looks only at the oldest mount of the path, so a second call leaves the host alone exactly
  // when the path had no mount, or had the device as its oldest one, before the first.
  lemma StageTwiceExactlyWhen(h: Host, target: Path, source: string)
    requires Sound(h) && target != [] && source != ""
    ensures var g := Stage(h, target, source, NO_FAULTS).0;
            && Stage(h, target, source, NO_FAULTS).1.Done?
            && (Stage(g, target, source, NO_FAULTS) == (g, Done(())) <==> DeviceAt(h.table, target) in {"", source})
  {
    SoundDevice(h, target);
    AtPush(h.table, Entry(source, target), target);
    PrefixesMean(target, target);
  }

  // ---------- the life cycle ----------

  // Paths that do not exist yet, of which none lies below another.
  predicate Fresh(h: Host, ps: seq<Path>) {
    && (forall i | 0 <= i < |ps| :: ps[i] != [] && ps[i] !in h.paths)
    && (forall i, j | 0 <= i < |ps| && 0 <= j < |ps| && i != j :: !IsPrefix(ps[i], ps[j]))
  }

  function Members(ps: seq<Path>): set<Path> {
    set p | p in ps
  }

  function AllPrefixes(ps: seq<Path>): set<Path> {
    if ps == [] then {} else AllPrefixes(ps[..|ps| - 1]) + Prefixes(ps[|ps| - 1])
  }

  function Entries(device: string, ps: seq<Path>): seq<Entry> {
    seq(|ps|, i requires 0 <= i < |ps| => Entry(device, ps[i]))
  }

  // Operations one after another, and whether all succeeded.
  function PublishAll(h: Host, staging: Path, ps: seq<Path>): (Host, bool) {
    if ps == [] then (h, true)
    else
      var (g, ok) := PublishAll(h, staging, ps[..|ps| - 1]);
      var (g', outcome) := PublishMount(g, staging, ps[|ps| - 1], NO_FAULTS);
      (g', ok && outcome.Done?)
  }

  function UnpublishAll(h: Host, ps: seq<Path>): (Host, bool) {
    if ps == [] then (h, true)
    else
      var (g, ok) := UnpublishAll(h, ps[..|ps| - 1]);
      var (g', outcome) := Unpublish(g, ps[|ps| - 1], NO_FAULTS);
      (g', ok && outcome.Done?)
  }

  function LifeCycle(h: Host, staging: Path, source: string, published: seq<Path>, unpublished: seq<Path>): (Host,
                     bool) {
    var (a, staged) := Stage(h, staging, source, NO_FAULTS);
    var (b, allUp) := PublishAll(a, staging, published);
    var (c, allDown) := UnpublishAll(b, unpublished);
    var (d, unstaged) := Unstage(c, staging, NO_FAULTS);
    (d, staged.Done? && allUp && allDown && unstaged.Done?)
  }

  lemma {:induction false} AllPrefixesMean(ps: seq<Path>, q: Path)
    ensures q in AllPrefixes(ps) <==> exists i :: 0 <= i < |ps| && IsPrefix(q, ps[i])
  {
    if ps == [] {
    } else {
      var front := ps[..|ps| - 1];
      AllPrefixesMean(front, q);
      PrefixesMean(ps[|ps| - 1], q);
      if q in AllPrefixes(front) {
        var i :| 0 <= i < |front| && IsPrefix(q, front[i]);
        assert IsPrefix(q, ps[i]);
      }
    }
  }

  // One publish to a path that does not exist.
  lemma PublishOnce(h: Host, staging: Path, p: Path)
    requires Sound(h) && p != [] && p !in h.paths && p != staging
    ensures var device := DeviceUnder(h.table, staging);
            var g := Host(h.paths + Prefixes(p), h.table + [Entry(device, p)]);
            && PublishMount(h, staging, p, NO_FAULTS) == (g, Done(()))
            && Sound(g) && At(g.table, staging) == At(h.table, staging)
  {
    SoundDevice(h, p);
    OperationIsLocal(h, PublishMountOp(staging, p), NO_FAULTS);
  }

  lemma PublishAllNext(h: Host, staging: Path, front: seq<Path>, p: Path)
    ensures var (g, ok) := PublishAll(h, staging, front);
            var (k, outcome) := PublishMount(g, staging, p, NO_FAULTS);
            PublishAll(h, staging, front + [p]) == (k, ok && outcome.Done?)
  {
    assert (front + [p])[..|front|] == front;
  }

  lemma FreshNext(h: Host, front: seq<Path>, p: Path)
    requires Fresh(h, front + [p])
    ensures Fresh(h, front) && p != [] && p !in h.paths + AllPrefixes(front)
    ensures AllPrefixes(front + [p]) == AllPrefixes(front) + Prefixes(p)
  {
    var ps := front + [p];
    assert ps[..|front|] == front && ps[|front|] == p;
    assert forall i | 0 <= i < |front| :: front[i] == ps[i];
    AllPrefixesMean(front, p);
    assert forall i | 0 <= i < |front| :: !IsPrefix(ps[|front|], ps[i]);
  }

  lemma EntriesNext(device: string, front: seq<Path>, p: Path)
    ensures Entries(device, front + [p]) == Entries(device, front) + [Entry(device, p)]
  {}

  function AllPublished(h: Host, device: string, ps: seq<Path>): Host {
    Host(h.paths + AllPrefixes(ps), h.table + Entries(device, ps))
  }

  lemma AllPublishedNext(h: Host, device: string, front: seq<Path>, p: Path)
    ensures AllPublished(h, device, []) == h
    ensures AllPrefixes(front + [p]) == AllPrefixes(front) + Prefixes(p) ==>
              var g := AllPublished(h, device, front);
              AllPublished(h, device, front + [p]) == Host(g.paths + Prefixes(p), g.table + [Entry(device, p)])
  {
    assert h.table + Entries(device, []) == h.table && h.paths + AllPrefixes([]) == h.paths;
    EntriesNext(device, front, p);
    assert h.table + Entries(device, front) + [Entry(device, p)] == h.table + Entries(device, front + [p]);
    assert h.paths + AllPrefixes(front) + Prefixes(p) == h.paths + (AllPrefixes(front) + Prefixes(p));
  }

  lemma PublishOneMore(h: Host, staging: Path, front: seq<Path>, p: Path, device: string)
    requires Sound(AllPublished(h, device, front))
        && DeviceUnder(AllPublished(h, device, front).table, staging) == device
    requires PublishAll(h, staging, front) == (AllPublished(h, device, front), true)
    requires Fresh(h, front + [p]) && p != staging
    ensures var g := AllPublished(h, device, front + [p]);
            && PublishAll(h, staging, front + [p]) == (g, true) && Sound(g)
            && At(g.table, staging) == At(AllPublished(h, device, front).table, staging)
  {
    FreshNext(h, front, p);
    PublishOnce(AllPublished(h, device, front), staging, p);
    PublishAllNext(h, staging, front, p);
    AllPublishedNext(h, device, front, p);
  }

  // Publishing to fresh targets puts one mount on each, of the device that is staged.
  lemma {:induction false} PublishAllFresh(h: Host, staging: Path, ps: seq<Path>)
    requires Sound(h) && Fresh(h, ps) && staging !in ps
    ensures var g := AllPublished(h, DeviceUnder(h.table, staging), ps);
            PublishAll(h, staging, ps) == (g, true) && Sound(g) && At(g.table, staging) == At(h.table, staging)
  {
    var device := DeviceUnder(h.table, staging);
    if ps == [] {
      AllPublishedNext(h, device, [], staging);
    } else {
      var front, p := ps[..|ps| - 1], ps[|ps| - 1];
      assert ps == front + [p];
      FreshNext(h, front, p);
      PublishAllFresh(h, staging, front);
      PublishOneMore(h, staging, front, p, device);
    }
  }

  // One unpublish of a path with a single mount and nothing below it.
  lemma UnpublishSingle(h: Host, p: Path)
    requires Sound(h) && p != [] && |At(h.table, p)| == 1 && Leaf(h, p)
    ensures var g := Host(h.paths - {p}, Without(h.table, {p}));
            Unpublish(h, p, NO_FAULTS) == (g, Done(())) && Sound(g)
  {
    SoundDevice(h, p);
    UnpublishCases(h, p);
    OperationIsLocal(h, UnpublishOp(p), NO_FAULTS);
    AtPop(h.table, p, p);
    PopSingle(h.table, p);
  }

  lemma UnpublishAllNext(h: Host, front: seq<Path>, p: Path)
    ensures var (g, ok) := UnpublishAll(h, front);
            var (k, outcome) := Unpublish(g, p, NO_FAULTS);
            UnpublishAll(h, front + [p]) == (k, ok && outcome.Done?)
    ensures Members(front + [p]) == Members(front) + {p}
  {
    assert (front + [p])[..|front|] == front;
  }

  predicate SingleAt(h: Host, p: Path) {
    p != [] && |At(h.table, p)| == 1 && Leaf(h, p)
  }

  function AllGone(h: Host, ps: seq<Path>): Host {
    Host(h.paths - Members(ps), Without(h.table, Members(ps)))
  }

  lemma AllGoneNext(h: Host, front: seq<Path>, p: Path)
    ensures AllGone(h, []) == h
    ensures var g := AllGone(h, front);
            && AllGone(h, front + [p]) == Host(g.paths - {p}, Without(g.table, {p}))
            && (p !in front ==> At(g.table, p) == At(h.table, p))
  {
    NothingToTake(h.table, {});
    assert Members([]) == {} && h.paths - {} == h.paths;
    assert Members(front + [p]) == Members(front) + {p};
    WithoutTwice(h.table, Members(front), p);
    AtWithout(h.table, Members(front), p);
    assert h.paths - Members(front) - {p} == h.paths - (Members(front) + {p});
  }

  // Unpublishing paths that carry one mount each takes exactly their entries and paths away, so the
  // order does not matter.
  lemma {:induction false} UnpublishAllSingle(h: Host, ps: seq<Path>)
    requires Sound(h)
    requires forall i | 0 <= i < |ps| :: SingleAt(h, ps[i])
    requires forall i, j | 0 <= i < j < |ps| :: ps[i] != ps[j]
    ensures UnpublishAll(h, ps) == (AllGone(h, ps), true) && Sound(AllGone(h, ps))
  {
    if ps == [] {
      AllGoneNext(h, [], []);
    } else {
      var front, p := ps[..|ps| - 1], ps[|ps| - 1];
      assert ps == front + [p] && p !in front;
      assert SingleAt(h, p);
      UnpublishAllSingle(h, front);
      AllGoneNext(h, front, p);
      UnpublishSingle(AllGone(h, front), p);
      UnpublishAllNext(h, front, p);
    }
  }

  lemma {:induction false} AtEntries(device: string, ps: seq<Path>, p: Path)
    requires forall i, j | 0 <= i < j < |ps| :: ps[i] != ps[j]
    ensures At(Entries(device, ps), p) == if p in ps then [Entry(device, p)] else []
  {
    if ps == [] {
    } else {
      var front := ps[..|ps| - 1];
      AtEntries(device, front, p);
      AtPush(Entries(device, front), Entry(device, ps[|ps| - 1]), p);
      assert Entries(device, ps) == Entries(device, front) + [Entry(device, ps[|ps| - 1])];
      assert ps == front + [ps[|ps| - 1]];
    }
  }

  lemma {:induction false} AtAppends(a: seq<Entry>, b: seq<Entry>, p: Path)
    ensures At(a + b, p) == At(a, p) + At(b, p)
  {
    if b == [] {
      assert a + b == a;
    } else {
      AtAppends(a, b[..|b| - 1], p);
      assert (a + b)[..|a + b| - 1] == a + b[..|b| - 1];
    }
  }

  lemma {:induction false} WithoutEntries(device: string, ps: seq<Path>, gone: set<Path>)
    requires forall p | p in ps :: p in gone
    ensures Without(Entries(device, ps), gone) == []
  {
    if ps == [] {
    } else {
      WithoutEntries(device, ps[..|ps| - 1], gone);
      assert Entries(device, ps)[..|ps| - 1] == Entries(device, ps[..|ps| - 1]);
    }
  }

  lemma {:induction false} CountDistinct(ps: seq<Path>, p: Path)
    requires forall i, j | 0 <= i < j < |ps| :: ps[i] != ps[j]
    ensures multiset(ps)[p] <= 1
  {
    if ps == [] {
    } else {
      CountDistinct(ps[..|ps| - 1], p);
      assert ps == ps[..|ps| - 1] + [ps[|ps| - 1]];
    }
  }

  // A reordering of distinct paths has the same members, and they are distinct.
  lemma SameMembers(ps: seq<Path>, qs: seq<Path>)
    requires multiset(ps) == multiset(qs)
    requires forall i, j | 0 <= i < j < |ps| :: ps[i] != ps[j]
    ensures forall p :: p in ps <==> p in qs
    ensures forall i, j | 0 <= i < j < |qs| :: qs[i] != qs[j]
  {
    forall p ensures p in ps <==> p in qs {
      assert p in ps <==> p in multiset(ps);
      assert p in qs <==> p in multiset(qs);
    }
    forall i, j | 0 <= i < j < |qs| ensures qs[i] != qs[j] {
      CountDistinct(ps, qs[i]);
      assert qs == qs[..i] + [qs[i]] + qs[i + 1..j] + [qs[j]] + qs[j + 1..];
    }
  }

  // Nothing that the life cycle creates lies below one of its paths.
  lemma FreshIsLeaf(h: Host, used: seq<Path>, g: Host, i: nat)
    requires Sound(h) && Fresh(h, used) && i < |used| && g.paths <= h.paths + AllPrefixes(used)
    ensures Leaf(g, used[i])
  {
    forall q | q in g.paths && IsPrefix(used[i], q) ensures q == used[i] {
      if q !in h.paths {
        AllPrefixesMean(used, q);
        var j :| 0 <= j < |used| && IsPrefix(q, used[j]);
        assert IsPrefix(used[i], used[j]);
      }
    }
  }

  lemma PathsUsed(staging: Path, published: seq<Path>)
    ensures AllPrefixes([staging] + published) == Prefixes(staging) + AllPrefixes(published)
  {
    var used := [staging] + published;
    forall q ensures q in AllPrefixes(used) <==> q in Prefixes(staging) + AllPrefixes(published) {
      AllPrefixesMean(used, q);
      AllPrefixesMean(published, q);
      PrefixesMean(staging, q);
      if IsPrefix(q, staging) {
        assert IsPrefix(q, used[0]);
      }
      if i :| 0 <= i < |published| && IsPrefix(q, published[i]) {
        assert IsPrefix(q, used[i + 1]);
      }
      if i :| 0 < i < |used| && IsPrefix(q, used[i]) {
        assert IsPrefix(q, published[i - 1]);
      }
    }
  }

  lemma FreshTail(h: Host, staging: Path, published: seq<Path>)
    requires Fresh(h, [staging] + published)
    ensures staging != [] && staging !in h.paths && Fresh(h, published)
    ensures forall i, j | 0 <= i < j < |published| :: published[i] != published[j]
    ensures forall i | 0 <= i < |published| ::
              published[i] != staging && !IsPrefix(published[i], staging) && !IsPrefix(staging, published[i])
  {
    var used := [staging] + published;
    assert used[0] == staging;
    assert forall i | 0 <= i < |published| :: published[i] == used[i + 1];
    forall i, j | 0 <= i < |published| && 0 <= j < |published| && i != j
      ensures !IsPrefix(published[i], published[j]) && published[i] != published[j]
    {
      assert !IsPrefix(used[i + 1], used[j + 1]) && IsPrefix(published[j], published[j]);
    }
    forall i | 0 <= i < |published|
      ensures published[i] != staging && !IsPrefix(published[i], staging) && !IsPrefix(staging, published[i])
    {
      assert !IsPrefix(used[i + 1], used[0]) && !IsPrefix(used[0], used[i + 1]) && IsPrefix(staging, staging);
    }
  }

  function Staged(h: Host, staging: Path, source: string): Host {
    Host(h.paths + Prefixes(staging), h.table + [Entry(source, staging)])
  }

  function Published(h: Host, staging: Path, source: string, published: seq<Path>): Host {
    AllPublished(Staged(h, staging, source), source, published)
  }

  lemma StageOnce(h: Host, staging: Path, source: string)
    requires Sound(h) && source != "" && staging != [] && staging !in h.paths
    ensures var a := Staged(h, staging, source);
            Stage(h, staging, source, NO_FAULTS) == (a, Done(())) && Sound(a) && DeviceUnder(a.table, staging) == source
  {
    SoundDevice(h, staging);
    OperationIsLocal(h, StageOp(staging, source), NO_FAULTS);
    AtPush(h.table, Entry(source, staging), staging);
  }

  // The host after staging and publishing.
  lemma BuildUp(h: Host, staging: Path, source: string, published: seq<Path>)
    requires Sound(h) && source != "" && Fresh(h, [staging] + published)
    ensures PublishAll(Stage(h, staging, source, NO_FAULTS).0, staging, published)
         == (Published(h, staging, source, published), true)
    ensures Stage(h, staging, source, NO_FAULTS).1.Done? && Sound(Published(h, staging, source, published))
  {
    FreshTail(h, staging, published);
    StageOnce(h, staging, source);
    var a := Staged(h, staging, source);
    forall i | 0 <= i < |published| ensures published[i] !in a.paths {
      PrefixesMean(staging, published[i]);
    }
    assert Fresh(a, published);
    PublishAllFresh(a, staging, published);
  }

  // After staging and publishing, each target carries its one mount and nothing lies below it.
  lemma PublishedOnce(h: Host, staging: Path, source: string, published: seq<Path>, i: nat)
    requires Sound(h) && Fresh(h, [staging] + published) && i < |published|
    ensures At(Staged(h, staging, source).table, published[i]) == []
    ensures SingleAt(Published(h, staging, source, published), published[i])
  {
    var p := published[i];
    FreshTail(h, staging, published);
    PathsUsed(staging, published);
    assert ([staging] + published)[i + 1] == p;
    FreshIsLeaf(h, [staging] + published, Published(h, staging, source, published), i + 1);
    SoundDevice(h, p);
    AtPush(h.table, Entry(source, staging), p);
    AtAppends(Staged(h, staging, source).table, Entries(source, published), p);
    AtEntries(source, published, p);
  }

  // Taking the targets away again leaves the host as it was after staging, but for directories.
  lemma PublishedGone(h: Host, staging: Path, source: string, published: seq<Path>, unpublished: seq<Path>)
    requires Members(unpublished) == Members(published)
    requires forall p | p in published :: At(Staged(h, staging, source).table, p) == []
    ensures AllGone(Published(h, staging, source, published), unpublished)
         == Host(Published(h, staging, source, published).paths - Members(published), Staged(h, staging, source).table)
  {
    var a, gone := Staged(h, staging, source), Members(published);
    WithoutAppends(a.table, Entries(source, published), gone);
    WithoutEntries(source, published, gone);
    NothingToTake(a.table, gone);
    assert a.table + [] == a.table;
  }

  // The host that the unpublish calls leave, in whatever order they come.
  lemma TakeDownAll(h: Host, staging: Path, source: string, published: seq<Path>, unpublished: seq<Path>)
    requires Sound(h) && Sound(Published(h, staging, source, published)) && Fresh(h, [staging] + published)
    requires multiset(unpublished) == multiset(published)
    ensures var b := Published(h, staging, source, published);
            var c := Host(b.paths - Members(published), Staged(h, staging, source).table);
            UnpublishAll(b, unpublished) == (c, true) && Sound(c)
  {
    var a, b := Staged(h, staging, source), Published(h, staging, source, published);
    FreshTail(h, staging, published);
    SameMembers(published, unpublished);
    forall p | p in published ensures At(a.table, p) == [] && SingleAt(b, p) {
      var i :| 0 <= i < |published| && published[i] == p;
      PublishedOnce(h, staging, source, published, i);
    }
    forall i | 0 <= i < |unpublished| ensures SingleAt(b, unpublished[i]) {
      assert unpublished[i] in published;
    }
    UnpublishAllSingle(b, unpublished);
    assert Members(published) == Members(unpublished);
    PublishedGone(h, staging, source, published, unpublished);
  }

  // Unstaging at the end.
  lemma UnstageLast(h: Host, staging: Path, source: string, published: seq<Path>, c: Host)
    requires Sound(h) && Sound(c) && Fresh(h, [staging] + published)
    requires c == Host(Published(h, staging, source, published).paths - Members(published),
        Staged(h, staging, source).table)
    ensures var d := Host(h.paths + AllPrefixes([staging] + published) - Members([staging] + published), h.table);
            Unstage(c, staging, NO_FAULTS) == (d, Done(()))
  {
    var used := [staging] + published;
    FreshTail(h, staging, published);
    PathsUsed(staging, published);
    assert used[0] == staging;
    FreshIsLeaf(h, used, c, 0);
    UnstageIsUnpublish(c, staging, NO_FAULTS);
    SoundDevice(h, staging);
    AtPush(h.table, Entry(source, staging), staging);
    UnpublishSingle(c, staging);
    PopSingle(c.table, staging);
    assert c.table[..|c.table| - 1] == h.table;
    assert Members(used) == Members(published) + {staging};
    assert c.paths - {staging} == h.paths + AllPrefixes(used) - Members(used);
  }

  // The round trip: stage, publish to any number of fresh targets, unpublish them in any order, unstage.
  // Every call succeeds, the mount table is what it was, entry for entry, and the paths are what they
  // were but for the directories created above the paths used.
  lemma LifeCycleRestores(h: Host, staging: Path, source: string, published: seq<Path>, unpublished: seq<Path>)
    requires Sound(h) && source != "" && Fresh(h, [staging] + published)
    requires multiset(unpublished) == multiset(published)
    ensures LifeCycle(h, staging, source, published, unpublished)
         == (Host(h.paths + AllPrefixes([staging] + published) - Members([staging] + published), h.table), true)
  {
    BuildUp(h, staging, source, published);
    TakeDownAll(h, staging, source, published, unpublished);
    UnstageLast(h, staging, source, published,
                UnpublishAll(Published(h, staging, source, published), unpublished).0);
  }
}
