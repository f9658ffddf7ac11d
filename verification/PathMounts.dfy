/**
 The helpers of src/nvc_mount.c that mount one path each: mount_procfs_mig,
 mount_config_file, mount_directory with mount_with_flags, and cap_device_mount.
 `lost` is a target they unmount without having mounted it; what that is, and
 what a failure leaves behind, is a function of the arguments and of the calls
 that fail, the first call of a helper being number `t`.
 */
module PathMounts {
  import opened CStrings
  import opened Paths
  import opened Libraries
  import opened Schedules
  import opened MountTable
  import opened Destinations
  import opened FileMounts
  import opened DriverMount

  const PROC_FLAGS: set<MsFlag> := {ReadOnly, NoDev, NoSuid, NoExec}
  const DIRECTORY_FLAGS: set<MsFlag> := {NoSuid, NoExec}

  // ---------------------------------------------------------------------
  // Counts after a failure
  // ---------------------------------------------------------------------

  /** The counts after a failed call: `left` was added, and one mount on `lost` taken off. */
  ghost predicate Undone(before: Table, now: Table, left: multiset<string>, lost: Option<string>) {
    Targets(now) == Targets(before) + left - Single(lost)
  }

  /** What is lost had been mounted on. */
  ghost predicate Hits(lost: Option<string>, before: Table) {
    lost.Some? && lost.value in Targets(before)
  }

  lemma UndoneNothing(t: Table)
    ensures Undone(t, t, Single(None), None)
  {
  }

  lemma UndonePush(t: Table, m: Mount)
    ensures Undone(t, t + [m], Single(Some(m.target)), None)
  {
    hide Targets;
    TargetsOfPush(t, m);
  }

  lemma UndoneDetach(t: Table, now: Table, left: multiset<string>, x: string)
    requires Undone(t, now, left, None)
    ensures Undone(t, Detach(now, x), left, Some(x))
  {
    hide Targets, Detach;
    TargetsOfDetach(now, x);
    assert Targets(t) + left - Single(None) == Targets(t) + left;
  }

  lemma TargetsOfOne(m: Mount)
    ensures Targets([m]) == multiset{m.target}
  {
    assert TargetList([m]) == [m.target];
  }

  lemma TargetsOfNothing()
    ensures Targets([]) == multiset{}
  {
  }

  method UnmountIf(k: Kernel, mnt: Option<string>)
    modifies k`table
    ensures k.table == if mnt.None? || mnt.value == "" then old(k.table) else Detach(old(k.table), mnt.value)
  {
    if mnt.Some? { k.Unmount(mnt.value); }
  }

  /** Unmounting what was recorded, after a failure that lost `lost`, leaves what was not. */
  method UndoTwo(k: Kernel, a: Option<string>, b: Option<string>, ghost before: Table, ghost left: multiset<string>, ghost lost: Option<string>)
    requires (a.Some? ==> a.value != "") && (b.Some? ==> b.value != "")
    requires Targets(k.table) == Targets(before) + left + (Single(a) + Single(b)) - Single(lost)
    modifies k`table
    ensures Undone(before, k.table, left, lost)
  {
    hide Targets, Detach;
    ghost var now := k.table;
    if a.Some? { TargetsOfDetach(now, a.value); }
    UnmountIf(k, a);
    assert Targets(k.table) == Targets(now) - Single(a);
    if b.Some? { TargetsOfDetach(k.table, b.value); }
    UnmountIf(k, b);
    MinusTwice(Targets(now), Single(a), Single(b));
    TakeBack(Targets(before) + left, Single(a) + Single(b), Single(lost));
  }

  /** The first step fails, with `a` mounted and recorded. */
  lemma FirstFails(before: Table, now: Table, a: Option<string>, lost: Option<string>)
    requires Undone(before, now, Single(a), lost)
    ensures Targets(now) == Targets(before) + multiset{} + (Single(a) + Single(None)) - Single(lost)
    ensures Targets(now) == Targets(before) + multiset{} + (Single(None) + Single(a)) - Single(lost)
  {
    hide Targets;
    assert Targets(before) + multiset{} + (Single(a) + Single(None)) == Targets(before) + Single(a);
    assert Targets(before) + multiset{} + (Single(None) + Single(a)) == Targets(before) + Single(a);
  }

  /** A later step fails, with `a` and `done` mounted, of which `a` is recorded, and `b` mounted and recorded since. */
  lemma LaterFails(before: Table, first: Table, now: Table, done: multiset<string>, a: Option<string>, b: Option<string>, lost: Option<string>)
    requires Targets(first) == Targets(before) + (Single(a) + done) && Undone(first, now, Single(b), lost)
    ensures Targets(now) == Targets(before) + done + (Single(a) + Single(b)) - Single(lost)
  {
    hide Targets;
    assert Targets(before) + (Single(a) + done) + Single(b) == Targets(before) + done + (Single(a) + Single(b));
  }

  // ---------------------------------------------------------------------
  // mount_procfs_mig and mount_config_file
  // ---------------------------------------------------------------------

  predicate PathFits(root: string, view: View, path: string) {
    JoinPaths(root, path).Some? && Destination(view, path).Some?
  }

  /** The mount of one path onto the same path in the container. */
  function PathMount(root: string, view: View, path: string, flags: set<MsFlag>): Mount
    requires PathFits(root, view, path)
  {
    Mount(JoinPaths(root, path).value, Destination(view, path).value, flags)
  }

  /** resolve, file_mode, file_create, bind, remount, copy */
  const PATH_CALLS: nat := 6

  /** The text in the destination buffer: the destination, or what a failed resolution left. */
  function PathText(view: View, path: string): string {
    if Destination(view, path).None? then Residue(view, path) else Destination(view, path).value
  }

  /** What the cleanup unmounts without having mounted it: the buffer's text, unless the bind was made. */
  ghost function PathLoss(root: string, view: View, path: string, faults: nat -> bool, t: nat): Option<string> {
    if JoinPaths(root, path).None? || faults(t) || PathText(view, path) == "" then None
    else if PathFits(root, view, path) && NoFault(faults, t, t + 4) then None
    else Some(PathText(view, path))
  }

  /** The targets that can be lost. */
  ghost function PathExposes(root: string, view: View, path: string): set<string> {
    if JoinPaths(root, path).None? || PathText(view, path) == "" then {} else {PathText(view, path)}
  }

  /** A schedule that loses the buffer's text: the second call is the only one to fail. */
  lemma PathCanLose(root: string, view: View, path: string, faults: nat -> bool, t: nat)
    requires PathExposes(root, view, path) != {} && OnlyFault(faults, t, t + 1)
    ensures PathLoss(root, view, path, faults, t) == Some(PathText(view, path))
    ensures PathExposes(root, view, path) == {PathText(view, path)}
  {
    hide PathText, JoinPaths, Destination;
    assert !NoFault(faults, t, t + 4) by { assert faults(t + 1); }
  }

  lemma PathLossIsExposed(root: string, view: View, path: string, faults: nat -> bool, t: nat)
    requires PathLoss(root, view, path, faults, t).Some?
    ensures PathLoss(root, view, path, faults, t).value in PathExposes(root, view, path)
  {
    hide PathText, JoinPaths, Destination;
  }

  /** A bind onto `target` and its flags. */
  method BindWithFlags(k: Kernel, source: string, target: string, flags: set<MsFlag>)
    returns (ok: bool, ghost bound: bool)
    modifies k`clock, k`table
    ensures old(k.clock) < k.clock <= old(k.clock) + 2 && (ok ==> k.clock == old(k.clock) + 2)
    ensures ok <==> k.Clean(old(k.clock))
    ensures bound <==> !k.faults(old(k.clock))
    ensures ok ==> bound
    ensures k.table == if !bound then old(k.table)
                       else old(k.table) + [Mount(source, target, if ok then flags else {})]
  {
    hide SetFlags;
    ok := k.Bind(source, target);
    bound := ok;
    if ok {
      SetFlagsOfPush(old(k.table), Mount(source, target, {}), flags);
      ok := k.Remount(target, flags);
    }
  }

  /** On any failure the text in the destination buffer is unmounted, whether or not the bind was made. */
  method MountPath(k: Kernel, root: string, view: View, path: string, flags: set<MsFlag>)
    returns (mnt: Option<string>, ghost lost: Option<string>)
    modifies k`clock, k`table
    ensures old(k.clock) <= k.clock <= old(k.clock) + PATH_CALLS && (mnt.Some? ==> k.clock == old(k.clock) + PATH_CALLS)
    ensures mnt.Some? <==> k.Clean(old(k.clock)) && PathFits(root, view, path)
    ensures mnt.Some? ==> mnt == Destination(view, path) && k.table == old(k.table) + [PathMount(root, view, path, flags)]
    ensures mnt.None? ==> Undone(old(k.table), k.table, Single(None), lost)
    ensures lost == PathLoss(root, view, path, k.faults, old(k.clock)) && (mnt.Some? ==> lost.None?)
  {
    hide Joined, Detach, Destination, Residue, JoinPaths, Undone, Single;
    lost := None;
    ghost var before := k.table;
    UndoneNothing(before);
    var src := JoinPaths(root, path);
    if src.None? {
      return None, lost;
    }
    var ok := k.Attempt();            // the calls of path_resolve_full
    if !ok {
      return None, lost;
    }
    UndoneDetach(before, before, Single(None), PathText(view, path));
    var dst := Destination(view, path);
    if dst.None? {
      var text := Residue(view, path);
      k.Unmount(text);
      lost := if text == "" then None else Some(text);
      return None, lost;
    }
    ghost var bound := false;
    ok := k.Attempt();                // file_mode
    if ok {
      ok := k.Attempt();              // file_create
    }
    if ok {
      ok, bound := BindWithFlags(k, src.value, dst.value, flags);
    }
    if ok {
      ok := k.Attempt();              // xstrdup
    }
    if ok {
      return dst, lost;
    }
    if bound {
      DetachOfPush(before, k.table[|before|]);
    }
    k.Unmount(dst.value);
    lost := if bound then None else dst;
    mnt := None;
  }

  // ---------------------------------------------------------------------
  // mount_with_flags and mount_directory
  // ---------------------------------------------------------------------

  /** A text unmount() acts on. */
  predicate IsText(mnt: Option<string>) { mnt.Some? && mnt.value != "" }

  /**
   mount_with_flags: file_mode, file_create, bind, remount, copy.  On failure the
   variable it unmounts has never been set, unless it is the copy that fails:
   `stray` is what it holds.  The bind itself is never undone.
   */
  method MountWithFlags(k: Kernel, source: string, target: string, flags: set<MsFlag>, stray: Option<string>)
    returns (ok: bool, ghost bound: bool, ghost lost: Option<string>)
    modifies k`clock, k`table
    ensures old(k.clock) < k.clock <= old(k.clock) + 5 && (ok ==> k.clock == old(k.clock) + 5)
    ensures ok <==> k.Clean(old(k.clock))
    ensures ok ==> k.table == old(k.table) + [Mount(source, target, flags)]
    ensures !ok ==> Undone(old(k.table), k.table, Single(if bound then Some(target) else None), lost)
    ensures bound <==> NoFault(k.faults, old(k.clock), old(k.clock) + 3)
    ensures lost == if IsText(stray) && !NoFault(k.faults, old(k.clock), old(k.clock) + 4) then stray else None
  {
    hide Detach, Undone, Single;
    bound, lost := false, None;
    ghost var before := k.table;
    ok := k.Attempt();                // file_mode
    if ok {
      ok := k.Attempt();              // file_create
    }
    if ok {
      ok, bound := BindWithFlags(k, source, target, flags);
    }
    ghost var left := Single(if bound then Some(target) else None);
    UndoneNothing(before);
    if bound { UndonePush(before, k.table[|before|]); }
    if !ok {
      if IsText(stray) {
        lost := stray;
        UndoneDetach(before, k.table, left, stray.value);
      }
      UnmountIf(k, stray);
      return;
    }
    ok := k.Attempt();                // xstrdup
  }

  /** The directory that stays mounted when mount_directory fails. */
  ghost function DirectoryLeft(root: string, view: View, dir: string, faults: nat -> bool, t: nat): Option<string> {
    if PathFits(root, view, dir) && NoFault(faults, t, t + 4) && !NoFault(faults, t, t + PATH_CALLS)
    then Destination(view, dir) else None
  }

  /** What it unmounts without having mounted it. */
  ghost function DirectoryLoss(root: string, view: View, dir: string, stray: Option<string>, faults: nat -> bool, t: nat): Option<string> {
    if PathFits(root, view, dir) && IsText(stray) && !faults(t) && !NoFault(faults, t, t + 5) then stray else None
  }

  /** mount_directory */
  method MountDirectory(k: Kernel, root: string, view: View, dir: string, stray: Option<string>)
    returns (mnt: Option<string>, ghost left: Option<string>, ghost lost: Option<string>)
    modifies k`clock, k`table
    ensures old(k.clock) <= k.clock <= old(k.clock) + PATH_CALLS && (mnt.Some? ==> k.clock == old(k.clock) + PATH_CALLS)
    ensures mnt.Some? <==> k.Clean(old(k.clock)) && PathFits(root, view, dir)
    ensures mnt.Some? ==>
              mnt == Destination(view, dir) && k.table == old(k.table) + [PathMount(root, view, dir, DIRECTORY_FLAGS)]
    ensures mnt.None? ==> Undone(old(k.table), k.table, Single(left), lost)
    ensures left == DirectoryLeft(root, view, dir, k.faults, old(k.clock))
    ensures lost == DirectoryLoss(root, view, dir, stray, k.faults, old(k.clock))
    ensures mnt.Some? ==> left.None? && lost.None?
  {
    hide Joined, Destination, JoinPaths, Undone, Single;
    left, lost := None, None;
    UndoneNothing(k.table);
    var src := JoinPaths(root, dir);
    if src.None? {
      return None, left, lost;
    }
    var ok := k.Attempt();            // the calls of path_resolve_full
    var dst := Destination(view, dir);
    if !ok || dst.None? {
      return None, left, lost;
    }
    ghost var bound;
    ok, bound, lost := MountWithFlags(k, src.value, dst.value, DIRECTORY_FLAGS, stray);
    left := if bound && !ok then dst else None;
    mnt := if ok then dst else None;
  }

  // ---------------------------------------------------------------------
  // cap_device_mount
  // ---------------------------------------------------------------------

  /** What cap_device_mount adds. */
  function CapPlan(root: string, node: Device, flags: Flags): Table {
    if flags.noDevbind || !DeviceFits(root, node) then [] else [DeviceMount(root, node)]
  }

  predicate CapFits(root: string, node: Device, flags: Flags) {
    flags.noDevbind || DeviceFits(root, node)
  }

  /** The rule it sets. */
  function CapRules(node: Device, flags: Flags): seq<DeviceId> {
    if flags.noCgroups then [] else [IdOf(node)]
  }

  /** One call, the device's own, and the rule. */
  function CapCalls(flags: Flags): nat {
    1 + (if flags.noDevbind then 0 else DEVICE_CALLS) + (if flags.noCgroups then 0 else 1)
  }

  /** A device mounted behind one call loses a mount exactly if its bind is the first call to fail. */
  ghost function CapLoss(root: string, node: Device, flags: Flags, faults: nat -> bool, t: nat): Option<string> {
    if !flags.noDevbind && DeviceFits(root, node) && FirstFault(faults, t, t + 1 + BIND_CALL) then DeviceTarget(node) else None
  }

  ghost function CapExposes(root: string, node: Device, flags: Flags): set<string> {
    if flags.noDevbind || !DeviceFits(root, node) then {} else {DeviceTarget(node).value}
  }

  lemma CapCanLose(root: string, node: Device, flags: Flags, faults: nat -> bool, t: nat)
    requires CapExposes(root, node, flags) != {} && OnlyFault(faults, t, t + 1 + BIND_CALL)
    ensures CapLoss(root, node, flags, faults, t) == DeviceTarget(node)
    ensures DeviceTarget(node).Some? && CapExposes(root, node, flags) == {DeviceTarget(node).value}
  {
    hide DeviceTarget, JoinPaths;
  }

  lemma CapLossIsExposed(root: string, node: Device, flags: Flags, faults: nat -> bool, t: nat)
    requires CapLoss(root, node, flags, faults, t).Some?
    ensures CapLoss(root, node, flags, faults, t).value in CapExposes(root, node, flags)
  {
    hide DeviceTarget, JoinPaths;
  }

  lemma MountOfDevice(root: string, node: Device)
    ensures DeviceTarget(node).Some? ==> DeviceMount(root, node).target == DeviceTarget(node).value
  {
  }

  /** cap_device_mount, on the node its capability file describes. */
  method MountCap(k: Kernel, root: string, node: Device, flags: Flags) returns (ok: bool, ghost lost: Option<string>)
    modifies k`clock, k`table, k`rules
    ensures k.rules == old(k.rules) + if ok then CapRules(node, flags) else []
    ensures old(k.clock) <= k.clock <= old(k.clock) + CapCalls(flags) && (ok ==> k.clock == old(k.clock) + CapCalls(flags))
    ensures ok <==> k.Clean(old(k.clock)) && CapFits(root, node, flags)
    ensures ok ==> k.table == old(k.table) + CapPlan(root, node, flags)
    ensures !ok ==> k.table == if lost.Some? then Detach(old(k.table), lost.value) else old(k.table)
    ensures lost == CapLoss(root, node, flags, k.faults, old(k.clock)) && (ok ==> lost.None?)
  {
    hide Detach, DeviceTarget, DeviceFits, DeviceMount;
    lost := None;
    ghost var before := k.table;
    assert k.rules + [] == k.rules;
    MountOfDevice(root, node);
    var mnt: Option<string> := None;
    ok := k.Attempt();                // nvc_nvcaps_device_from_proc_path
    if ok && !flags.noDevbind {
      mnt, lost := MountDevice(k, root, node);
      ok := mnt.Some?;
    }
    if ok && !flags.noCgroups {
      ok := k.Allow(IdOf(node));      // setup_device_cgroup
    }
    if !ok {
      if mnt.Some? {
        FittingHasTarget(root, node);
        DetachOfPush(before, DeviceMount(root, node));
        TargetIsNamed(node);
      }
      UnmountIf(k, mnt);
    } else {
      assert before + [] == before;
    }
  }

  lemma TargetIsNamed(node: Device)
    ensures DeviceTarget(node).Some? ==> DeviceTarget(node).value != ""
  {
  }

  lemma NamedTarget(view: View, path: string)
    ensures Destination(view, path).Some? ==> Destination(view, path).value != ""
  {
  }

  // ---------------------------------------------------------------------
  // Confinement
  // ---------------------------------------------------------------------

  lemma PathIsConfined(root: string, view: View, path: string, flags: set<MsFlag>)
    requires PathFits(root, view, path)
    ensures Confined(view.rootfs, [PathMount(root, view, path, flags)])
  {
    hide Under, Destination, JoinPaths;
    DestinationIsUnder(view, path);
  }

  lemma CapIsConfined(root: string, node: Device, flags: Flags)
    ensures Confined(node.view.rootfs, CapPlan(root, node, flags))
  {
    hide Under, Destination, JoinPaths;
    if DeviceTarget(node).Some? { DestinationIsUnder(node.view, node.path); }
  }

  lemma ConfinedConcat(rootfs: string, a: Table, b: Table)
    ensures Confined(rootfs, a + b) <==> Confined(rootfs, a) && Confined(rootfs, b)
  {
    hide Under;
    forall i | 0 <= i < |a|
      ensures (a + b)[i] == a[i]
    {
    }
    forall i | 0 <= i < |b|
      ensures (a + b)[|a| + i] == b[i]
    {
    }
  }

  /** A path is mounted from below the root onto its resolved place, with the given flags. */
  lemma PathMountLeads(root: string, view: View, path: string, flags: set<MsFlag>)
    requires PathFits(root, view, path)
    ensures var m := PathMount(root, view, path, flags);
            && Components(m.source) == Components(root) + Components(path)
            && Destination(view, path) == Some(m.target)
            && m.flags == flags
  {
    hide Components, Destination;
    JoinExact(root, path);
  }

  /** A capability's node is mounted exactly unless binding is off, and ruled exactly unless cgroups are. */
  lemma CapsByOptions(root: string, node: Device, flags: Flags)
    requires CapFits(root, node, flags)
    ensures flags.noDevbind ==> CapPlan(root, node, flags) == []
    ensures !flags.noDevbind ==> DeviceTarget(node).Some? && CapPlan(root, node, flags) == [DeviceMount(root, node)]
    ensures flags.noCgroups ==> CapRules(node, flags) == []
    ensures !flags.noCgroups ==> CapRules(node, flags) == [DeviceId(node.major, node.minor)]
  {
    hide DeviceTarget, JoinPaths;
  }
}
