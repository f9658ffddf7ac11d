/**
 The MIG entry points of src/nvc_mount.c: they enter the container's namespace,
 mount capability files and nodes, and leave again.  Their cleanup covers only
 part of what they mount.  What a failed call leaves behind and what it unmounts
 without having mounted it are functions of its arguments and of the calls that
 fail, the first call of the entry point being number `start`.
 */
module CapabilityMounts {
  import opened CStrings
  import opened Paths
  import opened Libraries
  import opened Schedules
  import opened MountTable
  import opened Destinations
  import opened FileMounts
  import opened DriverMount
  import opened PathMounts

  const PROC_CAPS := "/proc/driver/nvidia/capabilities"
  const MIG_CAPS := "/proc/driver/nvidia/capabilities/mig"
  const CAPS_DEVICE_DIR := "/dev/nvidia-caps"
  const ACCESS_FILE := "access"

  // ---------------------------------------------------------------------
  // nvc_mig_device_access_caps_mount
  // ---------------------------------------------------------------------

  /** A GPU or compute instance: its capability directory, and the device node its access file describes. */
  datatype Instance = Instance(caps: string, view: View, node: Device)

  function AccessPath(i: Instance): Option<string> { JoinPaths(i.caps, ACCESS_FILE) }

  predicate AccessFits(root: string, i: Instance) {
    AccessPath(i).Some? && PathFits(root, i.view, AccessPath(i).value)
  }

  /** `major` tells whether the capability device driver is loaded. */
  predicate InstanceFits(root: string, i: Instance, major: bool, flags: Flags) {
    AccessFits(root, i) && (major ==> CapFits(root, i.node, flags))
  }

  function InstanceCap(root: string, i: Instance, major: bool, flags: Flags): Table {
    if major then CapPlan(root, i.node, flags) else []
  }

  function InstanceRules(i: Instance, major: bool, flags: Flags): seq<DeviceId> {
    if major then CapRules(i.node, flags) else []
  }

  function InstancePlan(root: string, i: Instance, major: bool, flags: Flags): Table
    requires InstanceFits(root, i, major, flags)
  {
    [PathMount(root, i.view, AccessPath(i).value, PROC_FLAGS)] + InstanceCap(root, i, major, flags)
  }

  function InstanceCalls(major: bool, flags: Flags): nat {
    PATH_CALLS + if major then CapCalls(flags) else 0
  }

  ghost predicate InstanceDone(root: string, i: Instance, major: bool, flags: Flags, faults: nat -> bool, t: nat) {
    InstanceFits(root, i, major, flags) && NoFault(faults, t, t + InstanceCalls(major, flags))
  }

  ghost function InstanceLoss(root: string, i: Instance, major: bool, flags: Flags, faults: nat -> bool, t: nat): Option<string> {
    if AccessPath(i).None? then None
    else if AccessFits(root, i) && NoFault(faults, t, t + PATH_CALLS) then
      if major then CapLoss(root, i.node, flags, faults, t + PATH_CALLS) else None
    else PathLoss(root, i.view, AccessPath(i).value, faults, t)
  }

  ghost function InstanceExposes(root: string, i: Instance, major: bool, flags: Flags): set<string> {
    if AccessPath(i).None? then {}
    else
      PathExposes(root, i.view, AccessPath(i).value)
      + (if AccessFits(root, i) && major then CapExposes(root, i.node, flags) else {})
  }

  /** The steps for one instance; `proc` is what has to be unmounted again. */
  method MountInstance(k: Kernel, root: string, i: Instance, major: bool, flags: Flags)
    returns (ok: bool, proc: Option<string>, ghost lost: Option<string>)
    modifies k`clock, k`table, k`rules
    ensures k.rules == old(k.rules) + if ok then InstanceRules(i, major, flags) else []
    ensures old(k.clock) <= k.clock <= old(k.clock) + InstanceCalls(major, flags)
    ensures ok ==> k.clock == old(k.clock) + InstanceCalls(major, flags)
    ensures ok <==> k.Clean(old(k.clock)) && InstanceFits(root, i, major, flags)
    ensures ok ==> k.table == old(k.table) + InstancePlan(root, i, major, flags)
    ensures ok ==> proc.Some? && Targets(InstancePlan(root, i, major, flags))
                                 == Single(proc) + Targets(InstanceCap(root, i, major, flags))
    ensures !ok ==> Undone(old(k.table), k.table, Single(proc), lost)
    ensures lost == InstanceLoss(root, i, major, flags, k.faults, old(k.clock))
    ensures proc.Some? ==> proc.value != ""
  {
    hide Targets, Undone, Detach, Destination, JoinPaths, CapFits, CapPlan, CapCalls, CapLoss, PathLoss, PathFits, CapRules;
    assert k.rules + [] == k.rules;
    proc, lost := None, None;
    ghost var before := k.table;
    UndoneNothing(before);
    var access := AccessPath(i);
    if access.None? {
      return false, proc, lost;
    }
    proc, lost := MountPath(k, root, i.view, access.value, PROC_FLAGS);
    if proc.None? {
      return false, proc, lost;
    }
    ghost var m := PathMount(root, i.view, access.value, PROC_FLAGS);
    NamedTarget(i.view, access.value);
    UndonePush(before, m);
    ok := true;
    if major {
      ok, lost := MountCap(k, root, i.node, flags);
    }
    if ok {
      ghost var cap := InstanceCap(root, i, major, flags);
      assert before + ([m] + cap) == before + [m] + cap;
      TargetsOfConcat([m], cap);
      TargetsOfOne(m);
    } else if lost.Some? {
      UndoneDetach(before, before + [m], Single(proc), lost.value);
    }
  }

  /** The arguments of the entry point. */
  datatype Access = Access(root: string, gi: Instance, ci: Instance, major: bool, flags: Flags)

  predicate BothFit(a: Access) {
    InstanceFits(a.root, a.gi, a.major, a.flags) && InstanceFits(a.root, a.ci, a.major, a.flags)
  }

  function AccessPlan(a: Access): Table
    requires BothFit(a)
  {
    InstancePlan(a.root, a.gi, a.major, a.flags) + InstancePlan(a.root, a.ci, a.major, a.flags)
  }

  function OneCalls(a: Access): nat { InstanceCalls(a.major, a.flags) }

  ghost predicate FirstDone(a: Access, faults: nat -> bool, t: nat) { InstanceDone(a.root, a.gi, a.major, a.flags, faults, t) }

  ghost predicate SecondDone(a: Access, faults: nat -> bool, t: nat) { InstanceDone(a.root, a.ci, a.major, a.flags, faults, t + OneCalls(a)) }

  /** What a failed body, begun with call `t`, leaves: the first instance's node, if that instance was done. */
  ghost function BothLeft(a: Access, faults: nat -> bool, t: nat): multiset<string> {
    if FirstDone(a, faults, t) && !SecondDone(a, faults, t) then Targets(InstanceCap(a.root, a.gi, a.major, a.flags)) else multiset{}
  }

  function FirstRules(a: Access): seq<DeviceId> { InstanceRules(a.gi, a.major, a.flags) }

  function SecondRules(a: Access): seq<DeviceId> { InstanceRules(a.ci, a.major, a.flags) }

  /** The rules set, which are never taken back. */
  ghost function BothRules(a: Access, faults: nat -> bool, t: nat): seq<DeviceId> {
    if !FirstDone(a, faults, t) then []
    else if !SecondDone(a, faults, t) then FirstRules(a)
    else FirstRules(a) + SecondRules(a)
  }

  ghost function BothLoss(a: Access, faults: nat -> bool, t: nat): Option<string> {
    if FirstDone(a, faults, t) then InstanceLoss(a.root, a.ci, a.major, a.flags, faults, t + OneCalls(a))
    else InstanceLoss(a.root, a.gi, a.major, a.flags, faults, t)
  }

  /** The mounts of both instances, or their cleanup. */
  method MountInstances(k: Kernel, a: Access) returns (ok: bool)
    modifies k`clock, k`table, k`rules
    ensures k.rules == old(k.rules) + BothRules(a, k.faults, old(k.clock))
    ensures ok ==> k.rules == old(k.rules) + (FirstRules(a) + SecondRules(a))
    ensures old(k.clock) <= k.clock <= old(k.clock) + 2 * OneCalls(a) && (ok ==> k.clock == old(k.clock) + 2 * OneCalls(a))
    ensures ok <==> k.Clean(old(k.clock)) && BothFit(a)
    ensures ok ==> k.table == old(k.table) + AccessPlan(a)
    ensures !ok ==> Undone(old(k.table), k.table, BothLeft(a, k.faults, old(k.clock)), BothLoss(a, k.faults, old(k.clock)))
  {
    hide Targets, InstanceFits, InstancePlan, InstanceCap, InstanceCalls, InstanceLoss, InstanceRules, Undone, Single;
    assert k.rules + [] == k.rules;
    ConcatAssociates(k.rules, FirstRules(a), SecondRules(a));
    assert FirstRules(a) + [] == FirstRules(a);
    ghost var left := multiset{};
    ghost var before := k.table;
    var gproc, cproc;
    cproc := None;
    ghost var lost;
    ok, gproc, lost := MountInstance(k, a.root, a.gi, a.major, a.flags);
    if ok {
      ghost var first := k.table;
      left := Targets(InstanceCap(a.root, a.gi, a.major, a.flags));
      TargetsOfConcat(before, InstancePlan(a.root, a.gi, a.major, a.flags));
      ok, cproc, lost := MountInstance(k, a.root, a.ci, a.major, a.flags);
      if ok {
        ConcatAssociates(before, InstancePlan(a.root, a.gi, a.major, a.flags), InstancePlan(a.root, a.ci, a.major, a.flags));
      } else {
        LaterFails(before, first, k.table, left, gproc, cproc, lost);
      }
    } else {
      FirstFails(before, k.table, gproc, lost);
    }
    if !ok {
      UndoTwo(k, gproc, cproc, before, left, lost);
    }
  }

  ghost function AccessLeft(a: Access, faults: nat -> bool, start: nat): multiset<string> {
    if faults(start) then multiset{} else BothLeft(a, faults, start + 1)
  }

  ghost function AccessLoss(a: Access, faults: nat -> bool, start: nat): Option<string> {
    if faults(start) then None else BothLoss(a, faults, start + 1)
  }

  /** nvc_mig_device_access_caps_mount */
  method MountAccessCaps(k: Kernel, a: Access) returns (r: DriverResult)
    requires k.ns == Host
    modifies k
    ensures LeftIn(r, k.ns) && !r.Crashed?
    ensures r.NotEntered? <==> k.faults(old(k.clock))
    ensures r.Done? <==> BothFit(a) && NoFault(k.faults, old(k.clock), old(k.clock) + 2 * OneCalls(a) + 2)
    ensures r.Stranded? <==> BothFit(a) && FirstFault(k.faults, old(k.clock), old(k.clock) + 2 * OneCalls(a) + 1)
    ensures r.Done? || r.Stranded? ==> k.table == old(k.table) + AccessPlan(a) && k.rules == old(k.rules) + (FirstRules(a) + SecondRules(a))
    ensures r.RolledBack? || r.Aborted? ==> k.rules == old(k.rules) + BothRules(a, k.faults, old(k.clock) + 1)
    ensures r.NotEntered? ==> k.rules == old(k.rules)
    ensures r.Done? ==> k.ns == Host
    ensures r.NotEntered? ==> k.table == old(k.table)
    ensures r.RolledBack? || r.Aborted? ==>
              Undone(old(k.table), k.table, AccessLeft(a, k.faults, old(k.clock)), AccessLoss(a, k.faults, old(k.clock)))
  {
    hide BothFit, AccessPlan, BothLeft, BothLoss, BothRules, OneCalls, Undone, FirstRules, SecondRules;
    var ok := k.EnterNamespace(Container);
    if !ok {
      return NotEntered;
    }
    ok := MountInstances(k, a);
    r := LeaveNamespace(k, ok);
  }

  /** Some schedule makes the call forget a mount. */
  predicate CanForgetNode(a: Access) {
    InstanceFits(a.root, a.gi, a.major, a.flags) && InstanceCap(a.root, a.gi, a.major, a.flags) != []
  }

  /** The targets some schedule makes the call unmount without having mounted them. */
  ghost function AccessExposes(a: Access): set<string> {
    InstanceExposes(a.root, a.gi, a.major, a.flags)
    + (if InstanceFits(a.root, a.gi, a.major, a.flags) then InstanceExposes(a.root, a.ci, a.major, a.flags) else {})
  }

  lemma InstanceLossIsExposed(root: string, i: Instance, major: bool, flags: Flags, faults: nat -> bool, t: nat)
    requires InstanceLoss(root, i, major, flags, faults, t).Some?
    ensures InstanceLoss(root, i, major, flags, faults, t).value in InstanceExposes(root, i, major, flags)
  {
    hide JoinPaths, PathLoss, PathExposes, CapLoss, CapExposes, PathFits;
    if AccessFits(root, i) && NoFault(faults, t, t + PATH_CALLS) {
      CapLossIsExposed(root, i.node, flags, faults, t + PATH_CALLS);
    } else {
      PathLossIsExposed(root, i.view, AccessPath(i).value, faults, t);
    }
  }

  /** Each exposed target has a call whose failure alone loses it. */
  lemma InstanceCanLose(root: string, i: Instance, major: bool, flags: Flags, t: nat, x: string) returns (at: nat)
    requires x in InstanceExposes(root, i, major, flags)
    ensures t < at
    ensures forall faults: nat -> bool | OnlyFault(faults, t, at) :: InstanceLoss(root, i, major, flags, faults, t) == Some(x)
  {
    hide JoinPaths, PathLoss, PathExposes, CapLoss, CapExposes, PathFits;
    var access := AccessPath(i).value;
    if x in PathExposes(root, i.view, access) {
      at := t + 1;
      forall faults: nat -> bool | OnlyFault(faults, t, at)
        ensures InstanceLoss(root, i, major, flags, faults, t) == Some(x)
      {
        assert faults(at);
        PathCanLose(root, i.view, access, faults, t);
      }
    } else {
      at := t + PATH_CALLS + 1 + BIND_CALL;
      forall faults: nat -> bool | OnlyFault(faults, t, at)
        ensures InstanceLoss(root, i, major, flags, faults, t) == Some(x)
      {
        CapCanLose(root, i.node, flags, faults, t + PATH_CALLS);
      }
    }
  }

  lemma AccessLossIsExposed(a: Access, faults: nat -> bool, start: nat)
    requires AccessLoss(a, faults, start).Some?
    ensures AccessLoss(a, faults, start).value in AccessExposes(a)
  {
    hide InstanceLoss, InstanceExposes, InstanceFits, InstanceCalls;
    if FirstDone(a, faults, start + 1) {
      InstanceLossIsExposed(a.root, a.ci, a.major, a.flags, faults, start + 1 + OneCalls(a));
    } else {
      InstanceLossIsExposed(a.root, a.gi, a.major, a.flags, faults, start + 1);
    }
  }

  lemma AccessCanLose(a: Access, start: nat, x: string) returns (at: nat)
    requires x in AccessExposes(a)
    ensures AccessLoss(a, n => n == at, start) == Some(x)
  {
    hide InstanceLoss, InstanceExposes, InstanceFits, InstanceCalls;
    if x in InstanceExposes(a.root, a.gi, a.major, a.flags) {
      at := InstanceCanLose(a.root, a.gi, a.major, a.flags, start + 1, x);
      var faults: nat -> bool := n => n == at;
      assert OnlyFault(faults, start + 1, at);
      if FirstDone(a, faults, start + 1) { DoneLosesNothing(a.root, a.gi, a.major, a.flags, faults, start + 1); }
    } else {
      at := InstanceCanLose(a.root, a.ci, a.major, a.flags, start + 1 + OneCalls(a), x);
      var faults: nat -> bool := n => n == at;
      assert OnlyFault(faults, start + 1 + OneCalls(a), at);
      assert FirstDone(a, faults, start + 1);
    }
  }

  lemma DoneLosesNothing(root: string, i: Instance, major: bool, flags: Flags, faults: nat -> bool, t: nat)
    requires InstanceDone(root, i, major, flags, faults, t)
    ensures InstanceLoss(root, i, major, flags, faults, t) == None
  {
    hide JoinPaths, PathLoss, PathFits, DeviceFits;
  }

  /**
   Over every schedule: the call never forgets a mount exactly if it never gets to
   mount the first node, and never takes a mount off that was there at entry
   exactly if no exposed target was mounted on.
   */
  lemma AccessSafeExactly(a: Access, start: nat, before: Table)
    ensures (forall faults: nat -> bool :: AccessLeft(a, faults, start) == multiset{}) <==> !CanForgetNode(a)
    ensures (forall faults: nat -> bool :: !Hits(AccessLoss(a, faults, start), before)) <==>
              forall x :: x in AccessExposes(a) ==> x !in Targets(before)
  {
    hide InstanceFits, InstanceCap, InstanceCalls, Targets, AccessLoss, AccessExposes;
    if CanForgetNode(a) {
      var at := start + 1 + OneCalls(a);
      var faults: nat -> bool := n => n == at;
      NodeIsForgotten(a, faults, start);
      assert AccessLeft(a, faults, start) != multiset{};
    } else {
      NoNodeNoTargets(a);
    }
    forall faults: nat -> bool | Hits(AccessLoss(a, faults, start), before)
      ensures exists x :: x in AccessExposes(a) && x in Targets(before)
    {
      AccessLossIsExposed(a, faults, start);
    }
    forall x | x in AccessExposes(a) && x in Targets(before)
      ensures exists faults: nat -> bool :: Hits(AccessLoss(a, faults, start), before)
    {
      var at := AccessCanLose(a, start, x);
      var faults: nat -> bool := n => n == at;
      assert Hits(AccessLoss(a, faults, start), before);
    }
  }

  lemma NoNodeNoTargets(a: Access)
    requires !CanForgetNode(a)
    ensures InstanceFits(a.root, a.gi, a.major, a.flags) ==> Targets(InstanceCap(a.root, a.gi, a.major, a.flags)) == multiset{}
  {
    hide InstanceCap, InstanceFits;
  }

  /** The first call for the second instance fails, and nothing else. */
  lemma NodeIsForgotten(a: Access, faults: nat -> bool, start: nat)
    requires CanForgetNode(a) && OnlyFault(faults, start, start + 1 + OneCalls(a))
    ensures AccessLeft(a, faults, start) == Targets(InstanceCap(a.root, a.gi, a.major, a.flags)) != multiset{}
    ensures AccessLoss(a, faults, start) == None
  {
    hide PathFits, JoinPaths, CapFits, CapPlan, CapLoss;
    var t := start + 1;
    assert FirstDone(a, faults, t);
    var u := t + OneCalls(a);
    assert faults(u);
    assert !NoFault(faults, u, u + PATH_CALLS);
    SomeTarget(InstanceCap(a.root, a.gi, a.major, a.flags));
  }

  lemma SomeTarget(t: Table)
    requires t != []
    ensures Targets(t) != multiset{}
  {
    assert TargetList(t)[0] in Targets(t);
  }

  /** Such a run, for every input that has one: the call fails and the first instance's node stays mounted. */
  method ForgetNode(a: Access, table: Table) returns (k: Kernel, r: DriverResult)
    requires CanForgetNode(a)
    ensures r.RolledBack? || r.Aborted?
    ensures Targets(k.table) == Targets(table) + Targets(InstanceCap(a.root, a.gi, a.major, a.flags))
    ensures Targets(InstanceCap(a.root, a.gi, a.major, a.flags)) != multiset{}
  {
    hide InstanceFits, InstanceCap, InstanceCalls, Targets, AccessLoss, AccessLeft, CanForgetNode;
    var at := 1 + OneCalls(a);
    k := new Kernel((n: nat) => n == at, table);
    NodeIsForgotten(a, k.faults, 0);
    assert !NoFault(k.faults, 0, 2 * OneCalls(a) + 2) by { OneIsSome(a); assert k.faults(at); }
    assert !FirstFault(k.faults, 0, 2 * OneCalls(a) + 1) by { OneIsSome(a); assert k.faults(at); }
    r := MountAccessCaps(k, a);
    ghost var left := Targets(InstanceCap(a.root, a.gi, a.major, a.flags));
    assert Targets(table) + left - Single(None) == Targets(table) + left;
  }

  /** A smallest such input: an empty container, a capability directory at its root, and one node. */
  lemma SomeNodeIsForgotten()
    ensures ValidSight(EMPTY_ROOT)
    ensures var i := Instance("", EMPTY_ROOT, Device("/d", NV_DEVICE_MAJOR, 0, EMPTY_ROOT, true));
            CanForgetNode(Access("/", i, i, true, Flags(false, false, false, false, false, false, false, false, false)))
  {
    hide Destination, Render;
    RendersAs("d");
    RendersAs("access");
    EmptyRootResolves(["d"]);
    EmptyRootResolves(["access"]);
    assert Joined("", "access") == "/" + "access" && Joined("", "") == "";
    assert JoinPaths("", "access") == Some("/" + "access");
    assert JoinPaths("/", "/" + "access").Some? && JoinPaths("/", "/" + "d").Some?;
    assert "/" + "d" == "/d";
  }

  lemma RendersAs(name: string)
    ensures Render([name]) == "/" + name
  {
    assert [name][..0] == [];
  }

  lemma OneIsSome(a: Access)
    ensures OneCalls(a) > 0
  {
  }

  /** Everything the call mounts goes under the container's root. */
  lemma AccessIsConfined(a: Access, rootfs: string)
    requires BothFit(a)
    requires a.gi.view.rootfs == a.gi.node.view.rootfs == a.ci.view.rootfs == a.ci.node.view.rootfs == rootfs
    ensures Confined(rootfs, AccessPlan(a))
  {
    hide Confined, PathFits, JoinPaths, CapFits;
    InstanceIsConfined(a.root, a.gi, a.major, a.flags, rootfs);
    InstanceIsConfined(a.root, a.ci, a.major, a.flags, rootfs);
    ConfinedConcat(rootfs, InstancePlan(a.root, a.gi, a.major, a.flags), InstancePlan(a.root, a.ci, a.major, a.flags));
  }

  lemma InstanceIsConfined(root: string, i: Instance, major: bool, flags: Flags, rootfs: string)
    requires InstanceFits(root, i, major, flags) && i.view.rootfs == i.node.view.rootfs == rootfs
    ensures Confined(rootfs, InstancePlan(root, i, major, flags))
  {
    hide PathFits, JoinPaths, CapFits, CapPlan, PathMount, Under;
    var m := PathMount(root, i.view, AccessPath(i).value, PROC_FLAGS);
    PathIsConfined(root, i.view, AccessPath(i).value, PROC_FLAGS);
    CapIsConfined(root, i.node, flags);
    ConfinedConcat(rootfs, [m], InstanceCap(root, i, major, flags));
  }

  // ---------------------------------------------------------------------
  // nvc_mig_config_global_caps_mount, nvc_mig_monitor_global_caps_mount
  // ---------------------------------------------------------------------

  /** The arguments of either; they differ in `file`, and in the node it describes, only.  `stray` is what mount_with_flags' unset variable holds. */
  datatype Global = Global(
    root: string, proc: View, dev: View, file: string, node: DeviceId, major: bool, flags: Flags, stray: Option<string>)

  predicate ProcFits(g: Global) { PathFits(g.root, g.proc, PROC_CAPS) }

  predicate DirectoryFits(g: Global) { PathFits(g.root, g.dev, CAPS_DEVICE_DIR) }

  predicate GlobalFits(g: Global) {
    ProcFits(g) && (g.major ==> DirectoryFits(g) && JoinPaths(MIG_CAPS, g.file).Some?)
  }

  function GlobalPlan(g: Global): Table
    requires GlobalFits(g)
  {
    [PathMount(g.root, g.proc, PROC_CAPS, PROC_FLAGS)]
    + if g.major then [PathMount(g.root, g.dev, CAPS_DEVICE_DIR, DIRECTORY_FLAGS)] else []
  }

  /** The directory, the node's description and its rule. */
  function DirectoryCalls(g: Global): nat { PATH_CALLS + 1 + if g.flags.noCgroups then 0 else 1 }

  function GlobalCalls(g: Global): nat { PATH_CALLS + if g.major then DirectoryCalls(g) else 0 }

  ghost predicate ProcDone(g: Global, faults: nat -> bool, t: nat) { ProcFits(g) && NoFault(faults, t, t + PATH_CALLS) }

  /** The directory is bound, and something after that fails; `t` is the first call for it. */
  ghost predicate DirectoryStays(g: Global, faults: nat -> bool, t: nat) {
    && DirectoryFits(g) && NoFault(faults, t, t + 4)
    && !(JoinPaths(MIG_CAPS, g.file).Some? && NoFault(faults, t, t + DirectoryCalls(g)))
  }

  /** What a failed body, begun with call `t`, leaves: the device directory, if it was bound. */
  ghost function BodyLeft(g: Global, faults: nat -> bool, t: nat): Option<string> {
    if g.major && ProcDone(g, faults, t) && DirectoryStays(g, faults, t + PATH_CALLS)
    then Destination(g.dev, CAPS_DEVICE_DIR) else None
  }

  ghost function BodyLoss(g: Global, faults: nat -> bool, t: nat): Option<string> {
    if !ProcDone(g, faults, t) then PathLoss(g.root, g.proc, PROC_CAPS, faults, t)
    else if g.major then DirectoryLoss(g.root, g.dev, CAPS_DEVICE_DIR, g.stray, faults, t + PATH_CALLS)
    else None
  }

  /** The device directory, and the rule for the node the capability file describes. */
  method MountCapsDirectory(k: Kernel, g: Global) returns (ok: bool, ghost left: Option<string>, ghost lost: Option<string>)
    modifies k`clock, k`table, k`rules
    ensures k.rules == if ok && !g.flags.noCgroups then old(k.rules) + [g.node] else old(k.rules)
    ensures old(k.clock) <= k.clock <= old(k.clock) + DirectoryCalls(g) && (ok ==> k.clock == old(k.clock) + DirectoryCalls(g))
    ensures ok <==> k.Clean(old(k.clock)) && DirectoryFits(g) && JoinPaths(MIG_CAPS, g.file).Some?
    ensures ok ==> k.table == old(k.table) + [PathMount(g.root, g.dev, CAPS_DEVICE_DIR, DIRECTORY_FLAGS)]
    ensures !ok ==> Undone(old(k.table), k.table, Single(left), lost)
    ensures left == if DirectoryStays(g, k.faults, old(k.clock)) then Destination(g.dev, CAPS_DEVICE_DIR) else None
    ensures lost == DirectoryLoss(g.root, g.dev, CAPS_DEVICE_DIR, g.stray, k.faults, old(k.clock))
  {
    hide Undone, Single, Destination, JoinPaths, PathFits, PathMount, DirectoryLoss;
    ghost var before := k.table;
    var mnt;
    mnt, left, lost := MountDirectory(k, g.root, g.dev, CAPS_DEVICE_DIR, g.stray);
    if mnt.None? {
      return false, left, lost;
    }
    UndonePush(before, PathMount(g.root, g.dev, CAPS_DEVICE_DIR, DIRECTORY_FLAGS));
    MountGoesTo(g.root, g.dev, CAPS_DEVICE_DIR, DIRECTORY_FLAGS);
    left := mnt;
    if JoinPaths(MIG_CAPS, g.file).None? {
      return false, left, lost;
    }
    ok := k.Attempt();                // nvc_nvcaps_device_from_proc_path
    if ok && !g.flags.noCgroups {
      ok := k.Allow(g.node);          // setup_device_cgroup
    }
    if ok { left := None; }
  }

  lemma MountGoesTo(root: string, view: View, path: string, flags: set<MsFlag>)
    requires PathFits(root, view, path)
    ensures Destination(view, path) == Some(PathMount(root, view, path, flags).target)
  {
  }

  method MountGlobal(k: Kernel, g: Global) returns (ok: bool)
    modifies k`clock, k`table, k`rules
    ensures k.rules == if ok && g.major && !g.flags.noCgroups then old(k.rules) + [g.node] else old(k.rules)
    ensures old(k.clock) <= k.clock <= old(k.clock) + GlobalCalls(g) && (ok ==> k.clock == old(k.clock) + GlobalCalls(g))
    ensures ok <==> k.Clean(old(k.clock)) && GlobalFits(g)
    ensures ok ==> k.table == old(k.table) + GlobalPlan(g)
    ensures !ok ==> Undone(old(k.table), k.table, Single(BodyLeft(g, k.faults, old(k.clock))), BodyLoss(g, k.faults, old(k.clock)))
  {
    hide Destination, JoinPaths, PathFits, PathLoss, PathMount, DirectoryLoss, DirectoryStays, Undone, Single, Targets;
    ghost var before := k.table;
    ghost var lost;
    var mnt;
    mnt, lost := MountPath(k, g.root, g.proc, PROC_CAPS, PROC_FLAGS);
    if mnt.None? {
      return false;
    }
    ghost var m := PathMount(g.root, g.proc, PROC_CAPS, PROC_FLAGS);
    MountGoesTo(g.root, g.proc, PROC_CAPS, PROC_FLAGS);
    NamedTarget(g.proc, PROC_CAPS);
    if !g.major {
      assert before + ([m] + []) == before + [m];
      return true;
    }
    ghost var left;
    ok, left, lost := MountCapsDirectory(k, g);
    if ok {
      ghost var dir := PathMount(g.root, g.dev, CAPS_DEVICE_DIR, DIRECTORY_FLAGS);
      assert before + ([m] + [dir]) == before + [m] + [dir];
    } else {
      ThenFails(before, m, k.table, left, lost);
      UndoTwo(k, mnt, None, before, Single(left), lost);
    }
  }

  /** One recorded mount was made before a step failed. */
  lemma ThenFails(before: Table, m: Mount, now: Table, left: Option<string>, lost: Option<string>)
    requires Undone(before + [m], now, Single(left), lost)
    ensures Targets(now) == Targets(before) + Single(left) + (Single(Some(m.target)) + Single(None)) - Single(lost)
  {
    hide Targets;
    TargetsOfPush(before, m);
    assert Targets(before) + multiset{m.target} + Single(left)
        == Targets(before) + Single(left) + (Single(Some(m.target)) + Single(None));
  }

  ghost function GlobalLeft(g: Global, faults: nat -> bool, start: nat): Option<string> {
    if faults(start) then None else BodyLeft(g, faults, start + 1)
  }

  ghost function GlobalLoss(g: Global, faults: nat -> bool, start: nat): Option<string> {
    if faults(start) then None else BodyLoss(g, faults, start + 1)
  }

  /** Both entry points. */
  method MountGlobalCaps(k: Kernel, g: Global) returns (r: DriverResult)
    requires k.ns == Host
    modifies k
    ensures LeftIn(r, k.ns) && !r.Crashed?
    ensures r.NotEntered? <==> k.faults(old(k.clock))
    ensures r.Done? <==> GlobalFits(g) && NoFault(k.faults, old(k.clock), old(k.clock) + GlobalCalls(g) + 2)
    ensures r.Stranded? <==> GlobalFits(g) && FirstFault(k.faults, old(k.clock), old(k.clock) + GlobalCalls(g) + 1)
    ensures r.Done? || r.Stranded? ==> k.table == old(k.table) + GlobalPlan(g)
    ensures r.Done? ==> k.ns == Host
    ensures k.rules == if (r.Done? || r.Stranded?) && g.major && !g.flags.noCgroups then old(k.rules) + [g.node] else old(k.rules)
    ensures r.NotEntered? ==> k.table == old(k.table)
    ensures r.RolledBack? || r.Aborted? ==>
              Undone(old(k.table), k.table, Single(GlobalLeft(g, k.faults, old(k.clock))), GlobalLoss(g, k.faults, old(k.clock)))
  {
    hide BodyLeft, BodyLoss, Undone, Single, GlobalFits, GlobalPlan, GlobalCalls;
    var ok := k.EnterNamespace(Container);
    if !ok {
      return NotEntered;
    }
    ok := MountGlobal(k, g);
    r := LeaveNamespace(k, ok);
  }

  predicate CanForgetDirectory(g: Global) { g.major && ProcFits(g) && DirectoryFits(g) }

  ghost function GlobalExposes(g: Global): set<string> {
    PathExposes(g.root, g.proc, PROC_CAPS) + (if CanForgetDirectory(g) && IsText(g.stray) then {g.stray.value} else {})
  }

  /** The copy of the directory's path is the only call that fails. */
  lemma DirectoryIsForgotten(g: Global, faults: nat -> bool, start: nat)
    requires CanForgetDirectory(g) && OnlyFault(faults, start, start + 2 * PATH_CALLS)
    ensures GlobalLeft(g, faults, start) == Destination(g.dev, CAPS_DEVICE_DIR) && GlobalLeft(g, faults, start).Some?
    ensures GlobalLoss(g, faults, start) == None
  {
    hide JoinPaths, Destination, PathLoss;
    var u := start + 1 + PATH_CALLS;
    assert faults(u + 5);
    assert !NoFault(faults, u, u + DirectoryCalls(g));
  }

  /** The directory's file_mode is the only call that fails. */
  lemma StrayIsLost(g: Global, faults: nat -> bool, start: nat)
    requires CanForgetDirectory(g) && IsText(g.stray) && OnlyFault(faults, start, start + PATH_CALLS + 2)
    ensures GlobalLoss(g, faults, start) == g.stray && GlobalLeft(g, faults, start) == None
  {
    hide JoinPaths, Destination, PathLoss;
    var u := start + 1 + PATH_CALLS;
    assert faults(u + 1);
    assert !NoFault(faults, u, u + 4) && !NoFault(faults, u, u + 5);
  }

  lemma GlobalLossIsExposed(g: Global, faults: nat -> bool, start: nat)
    requires GlobalLoss(g, faults, start).Some?
    ensures GlobalLoss(g, faults, start).value in GlobalExposes(g)
  {
    hide PathFits, JoinPaths, Destination, PathLoss, PathExposes;
    if !ProcDone(g, faults, start + 1) { PathLossIsExposed(g.root, g.proc, PROC_CAPS, faults, start + 1); }
  }

  lemma GlobalCanLose(g: Global, start: nat, x: string) returns (at: nat)
    requires x in GlobalExposes(g)
    ensures GlobalLoss(g, n => n == at, start) == Some(x)
  {
    hide PathFits, JoinPaths, Destination, PathLoss, PathExposes, DirectoryLoss;
    if x in PathExposes(g.root, g.proc, PROC_CAPS) {
      at := start + 2;
      var faults: nat -> bool := n => n == at;
      assert !NoFault(faults, start + 1, start + 1 + PATH_CALLS) by { assert faults(start + 2); }
      PathCanLose(g.root, g.proc, PROC_CAPS, faults, start + 1);
    } else {
      at := start + PATH_CALLS + 2;
      StrayIsLost(g, n => n == at, start);
    }
  }

  /** Over every schedule: exactly when no call forgets the directory, and exactly when none takes off a mount that was there. */
  lemma GlobalSafeExactly(g: Global, start: nat, before: Table)
    ensures (forall faults: nat -> bool :: GlobalLeft(g, faults, start) == None) <==> !CanForgetDirectory(g)
    ensures (forall faults: nat -> bool :: !Hits(GlobalLoss(g, faults, start), before)) <==>
              forall x :: x in GlobalExposes(g) ==> x !in Targets(before)
  {
    hide Targets, GlobalLoss, GlobalExposes, PathFits, Destination;
    if CanForgetDirectory(g) {
      var at := start + 2 * PATH_CALLS;
      var faults: nat -> bool := n => n == at;
      DirectoryIsForgotten(g, faults, start);
      assert GlobalLeft(g, faults, start) != None;
    }
    forall faults: nat -> bool | Hits(GlobalLoss(g, faults, start), before)
      ensures exists x :: x in GlobalExposes(g) && x in Targets(before)
    {
      GlobalLossIsExposed(g, faults, start);
    }
    forall x | x in GlobalExposes(g) && x in Targets(before)
      ensures exists faults: nat -> bool :: Hits(GlobalLoss(g, faults, start), before)
    {
      var at := GlobalCanLose(g, start, x);
      var faults: nat -> bool := n => n == at;
      assert Hits(GlobalLoss(g, faults, start), before);
    }
  }

  /** A run that forgets the directory, for every input that has one. */
  method ForgetDirectory(g: Global, table: Table) returns (k: Kernel, r: DriverResult)
    requires CanForgetDirectory(g)
    ensures r.RolledBack? || r.Aborted?
    ensures Destination(g.dev, CAPS_DEVICE_DIR).Some?
    ensures Targets(k.table) == Targets(table) + multiset{Destination(g.dev, CAPS_DEVICE_DIR).value}
  {
    hide GlobalFits, GlobalLeft, GlobalLoss, Targets, Destination, CanForgetDirectory;
    var at := 2 * PATH_CALLS;
    k := new Kernel((n: nat) => n == at, table);
    DirectoryIsForgotten(g, k.faults, 0);
    MajorCalls(g);
    assert k.faults(at);
    r := MountGlobalCaps(k, g);
    assert Targets(table) + Single(Destination(g.dev, CAPS_DEVICE_DIR)) - Single(None)
        == Targets(table) + Single(Destination(g.dev, CAPS_DEVICE_DIR));
  }

  /** A run that takes off a mount on whatever the unset variable names. */
  method LoseStray(g: Global, table: Table) returns (k: Kernel, r: DriverResult)
    requires CanForgetDirectory(g) && IsText(g.stray)
    ensures r.RolledBack? || r.Aborted?
    ensures Targets(k.table) == Targets(table) - multiset{g.stray.value}
  {
    hide GlobalFits, GlobalLeft, GlobalLoss, Targets, Destination, CanForgetDirectory;
    var at := PATH_CALLS + 2;
    k := new Kernel((n: nat) => n == at, table);
    StrayIsLost(g, k.faults, 0);
    MajorCalls(g);
    assert k.faults(at);
    r := MountGlobalCaps(k, g);
    assert Targets(table) + Single(None) == Targets(table);
  }

  /** An input for both: an empty container, with the driver loaded. */
  lemma SomeDirectoryIsForgotten(file: string, node: DeviceId, stray: Option<string>)
    ensures ValidSight(EMPTY_ROOT)
    ensures var flags := Flags(false, false, false, false, false, false, false, false, false);
            CanForgetDirectory(Global("/", EMPTY_ROOT, EMPTY_ROOT, file, node, true, flags, stray))
  {
    hide Destination, Render;
    var p, d := ["proc", "driver", "nvidia", "capabilities"], ["dev", "nvidia-caps"];
    ConstantsRender();
    EmptyRootResolves(p);
    EmptyRootResolves(d);
    assert JoinPaths("/", PROC_CAPS).Some? && JoinPaths("/", CAPS_DEVICE_DIR).Some?;
  }

  lemma ConstantsRender()
    ensures Render(["proc", "driver", "nvidia", "capabilities"]) == PROC_CAPS
    ensures Render(["dev", "nvidia-caps"]) == CAPS_DEVICE_DIR
  {
    hide Render;
    RendersFour("proc", "driver", "nvidia", "capabilities");
    RendersTwo("dev", "nvidia-caps");
    assert "/" + "proc" + "/" + "driver" + "/" + "nvidia" + "/" + "capabilities" == PROC_CAPS;
    assert "/" + "dev" + "/" + "nvidia-caps" == CAPS_DEVICE_DIR;
  }

  lemma RendersTwo(a: string, b: string)
    ensures Render([a, b]) == "/" + a + "/" + b
  {
    RendersAs(a);
    assert [a, b][..1] == [a];
  }

  lemma RendersFour(a: string, b: string, c: string, d: string)
    ensures Render([a, b, c, d]) == "/" + a + "/" + b + "/" + c + "/" + d
  {
    RendersTwo(a, b);
    assert [a, b, c][..2] == [a, b];
    assert Render([a, b, c]) == Render([a, b]) + "/" + c;
    assert [a, b, c, d][..3] == [a, b, c];
  }

  lemma MajorCalls(g: Global)
    requires CanForgetDirectory(g)
    ensures GlobalCalls(g) > 2 * PATH_CALLS
  {
  }

  /** Everything the call mounts goes under the container's root. */
  lemma GlobalIsConfined(g: Global, rootfs: string)
    requires GlobalFits(g) && g.proc.rootfs == g.dev.rootfs == rootfs
    ensures Confined(rootfs, GlobalPlan(g))
  {
    hide PathFits, JoinPaths, PathMount, Under;
    PathIsConfined(g.root, g.proc, PROC_CAPS, PROC_FLAGS);
    var m := PathMount(g.root, g.proc, PROC_CAPS, PROC_FLAGS);
    if g.major {
      PathIsConfined(g.root, g.dev, CAPS_DEVICE_DIR, DIRECTORY_FLAGS);
      ConfinedConcat(rootfs, [m], [PathMount(g.root, g.dev, CAPS_DEVICE_DIR, DIRECTORY_FLAGS)]);
    } else {
      assert [m] + [] == [m];
    }
  }

  // ---------------------------------------------------------------------
  // nvc_device_mig_caps_mount
  // ---------------------------------------------------------------------

  /** The MIG minors the lines of the minors file list for one GPU; None is a line of another form. */
  function MinorsOf(lines: seq<Option<(nat, nat)>>, gpu: nat): seq<nat> {
    if lines == [] then []
    else
      var before, line := MinorsOf(lines[..|lines| - 1], gpu), lines[|lines| - 1];
      if line.Some? && line.value.0 == gpu then before + [line.value.1] else before
  }

  /**
   setup_mig_minor_cgroups: one rule for each minor of this GPU, in order, up to
   the first that fails.  A file that cannot be opened is closed all the same.
   */
  method AllowMinors(k: Kernel, lines: seq<Option<(nat, nat)>>, gpu: nat)
    returns (ok: bool, crashed: bool, granted: seq<nat>)
    modifies k`clock
    ensures old(k.clock) < k.clock <= old(k.clock) + 1 + |MinorsOf(lines, gpu)|
    ensures crashed <==> k.faults(old(k.clock))
    ensures ok <==> k.Clean(old(k.clock))
    ensures ok ==> k.clock == old(k.clock) + 1 + |granted|
    ensures |granted| <= |MinorsOf(lines, gpu)| && granted == MinorsOf(lines, gpu)[..|granted|]
    ensures NoFault(k.faults, old(k.clock) + 1, old(k.clock) + 1 + |granted|)
    ensures ok || crashed || (|granted| < |MinorsOf(lines, gpu)| && k.faults(old(k.clock) + 1 + |granted|))
    ensures ok ==> granted == MinorsOf(lines, gpu)
  {
    granted, crashed := [], false;
    ok := k.Attempt();                // fopen
    if !ok {
      return ok, true, granted;
    }
    var i := 0;
    while i < |lines|
      invariant 0 <= i <= |lines|
      invariant granted == MinorsOf(lines[..i], gpu)
      invariant k.clock == old(k.clock) + 1 + |granted| && k.Clean(old(k.clock))
    {
      assert lines[..i + 1][..i] == lines[..i];
      if lines[i].Some? && lines[i].value.0 == gpu {
        MinorsGrow(lines, i + 1, gpu);
        ok := k.Attempt();            // setup_device_cgroup
        if !ok {
          return;
        }
        granted := granted + [lines[i].value.1];
      }
      i := i + 1;
    }
    assert lines[..i] == lines;
  }

  lemma {:induction false} MinorsGrow(lines: seq<Option<(nat, nat)>>, i: nat, gpu: nat)
    requires i <= |lines|
    ensures MinorsOf(lines[..i], gpu) <= MinorsOf(lines, gpu)
    decreases |lines|
  {
    if i < |lines| {
      assert lines[..|lines| - 1][..i] == lines[..i];
      MinorsGrow(lines[..|lines| - 1], i, gpu);
    } else {
      assert lines[..i] == lines;
    }
  }

  /** The rules asked for. */
  function Rules(major: bool, flags: Flags, lines: seq<Option<(nat, nat)>>, gpu: nat): Option<seq<nat>> {
    if major && !flags.noCgroups then Some(MinorsOf(lines, gpu)) else None
  }

  /** The calls between entering and leaving: the file, and one for each rule. */
  function RuleCalls(rules: Option<seq<nat>>): nat {
    if rules.None? then 0 else 1 + |rules.value|
  }

  /** nvc_device_mig_caps_mount */
  method AllowMigCaps(k: Kernel, major: bool, flags: Flags, lines: seq<Option<(nat, nat)>>, gpu: nat)
    returns (r: DriverResult, granted: seq<nat>)
    requires k.ns == Host
    modifies k`clock, k`ns
    ensures LeftIn(r, k.ns) && (r.Done? ==> k.ns == Host)
    ensures r.NotEntered? <==> k.faults(old(k.clock))
    ensures r.Done? <==> NoFault(k.faults, old(k.clock), old(k.clock) + RuleCalls(Rules(major, flags, lines, gpu)) + 2)
    ensures r.Stranded? <==> FirstFault(k.faults, old(k.clock), old(k.clock) + RuleCalls(Rules(major, flags, lines, gpu)) + 1)
    ensures r.Crashed? <==> Rules(major, flags, lines, gpu).Some? && FirstFault(k.faults, old(k.clock), old(k.clock) + 1)
    ensures r.Done? || r.Stranded? ==> granted == if major && !flags.noCgroups then MinorsOf(lines, gpu) else []
    ensures granted <= MinorsOf(lines, gpu)
    ensures r.RolledBack? || r.Aborted? ==> FirstFault(k.faults, old(k.clock), old(k.clock) + 2 + |granted|)
  {
    granted := [];
    var ok := k.EnterNamespace(Container);
    if !ok {
      return NotEntered, granted;
    }
    if major && !flags.noCgroups {
      var crashed;
      ok, crashed, granted := AllowMinors(k, lines, gpu);
      if crashed {
        return Crashed, granted;
      }
    }
    r := LeaveNamespace(k, ok);
  }

  // ---------------------------------------------------------------------
  // What is mounted
  // ---------------------------------------------------------------------

  /** The file mounted for an instance is the access file of its capability directory. */
  lemma AccessPathLeads(i: Instance)
    requires AccessPath(i).Some?
    ensures Components(AccessPath(i).value) == Components(i.caps) + ["access"]
  {
    hide Components;
    JoinExact(i.caps, ACCESS_FILE);
    assert '/' !in "access";
    ComponentsOfComponent("access");
  }

  /** Without the driver the call mounts the two access files; with it, each file and then its node. */
  lemma AccessPlanIs(a: Access)
    requires BothFit(a)
    ensures var g, c := PathMount(a.root, a.gi.view, AccessPath(a.gi).value, {ReadOnly, NoDev, NoSuid, NoExec}),
                        PathMount(a.root, a.ci.view, AccessPath(a.ci).value, {ReadOnly, NoDev, NoSuid, NoExec});
            && (!a.major || a.flags.noDevbind ==> AccessPlan(a) == [g, c])
            && (a.major && !a.flags.noDevbind ==>
                  && DeviceTarget(a.gi.node).Some? && DeviceTarget(a.ci.node).Some?
                  && AccessPlan(a) == [g, DeviceMount(a.root, a.gi.node), c, DeviceMount(a.root, a.ci.node)])
    ensures FirstRules(a) + SecondRules(a) ==
              if a.major && !a.flags.noCgroups then [IdOf(a.gi.node), IdOf(a.ci.node)] else []
  {
    hide PathMount, PathFits, JoinPaths, DeviceTarget, DeviceMount, DeviceFits;
    if a.major {
      CapsByOptions(a.root, a.gi.node, a.flags);
      CapsByOptions(a.root, a.ci.node, a.flags);
    }
  }

  /** The capability directory of /proc is mounted always, the device directory exactly with the driver. */
  lemma GlobalPlanIs(g: Global)
    requires GlobalFits(g)
    ensures var p := PathMount(g.root, g.proc, "/proc/driver/nvidia/capabilities", {ReadOnly, NoDev, NoSuid, NoExec});
            && (!g.major ==> GlobalPlan(g) == [p])
            && (g.major ==> GlobalPlan(g) == [p, PathMount(g.root, g.dev, "/dev/nvidia-caps", {NoSuid, NoExec})])
  {
    hide PathMount, PathFits, JoinPaths;
  }

  /** Only lines of this GPU give a rule, and each gives one, in order. */
  lemma MinorsOfPush(lines: seq<Option<(nat, nat)>>, gpu: nat, other: nat, minor: nat)
    requires other != gpu
    ensures MinorsOf(lines + [Some((gpu, minor))], gpu) == MinorsOf(lines, gpu) + [minor]
    ensures MinorsOf(lines + [Some((other, minor))], gpu) == MinorsOf(lines, gpu)
    ensures MinorsOf(lines + [None], gpu) == MinorsOf(lines, gpu) && MinorsOf([], gpu) == []
  {
    assert (lines + [Some((gpu, minor))])[..|lines|] == lines;
    assert (lines + [Some((other, minor))])[..|lines|] == lines;
    assert (lines + [None])[..|lines|] == lines;
  }

  /** Rules are asked for exactly with the driver and unless cgroups are off. */
  lemma RulesByOptions(major: bool, flags: Flags, lines: seq<Option<(nat, nat)>>, gpu: nat)
    ensures major && !flags.noCgroups ==> Rules(major, flags, lines, gpu) == Some(MinorsOf(lines, gpu))
    ensures !major || flags.noCgroups ==> Rules(major, flags, lines, gpu) == None
  {
  }
}
