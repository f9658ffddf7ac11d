/**
 nvc_driver_mount (src/nvc_mount.c): enter the container's namespace, mount the
 driver's files and devices while recording every target in a ledger sized in
 advance, and either leave the namespace again or undo the record first.
 */
module DriverMount {
  import opened CStrings
  import opened Paths
  import opened Arrays
  import opened Libraries
  import opened Schedules
  import opened MountTable
  import opened Destinations
  import opened FileMounts

  const NV_DEVICE_MAJOR: nat := 226
  const NV_MODESET_DEVICE_MINOR: nat := 254

  /** A device node; `view` is what resolving it in the container sees, `genuine` whether the node has the expected id. */
  datatype Device = Device(path: string, major: nat, minor: nat, view: View, genuine: bool)

  /** A list of files, whether it is mounted at all, and the container directory it goes to. */
  datatype Group = Group(enabled: bool, root: string, view: View, dir: string, paths: seq<string>)

  function DeviceTarget(d: Device): Option<string> { Destination(d.view, d.path) }

  function GroupTarget(g: Group): Option<string> { Destination(g.view, g.dir) }

  /** A device is mounted unless its options are off. */
  predicate Wanted(d: Device, dxcore: bool, flags: Flags) {
    dxcore || ((flags.computeLibs || d.major == NV_DEVICE_MAJOR)
               && (flags.display || d.minor != NV_MODESET_DEVICE_MINOR))
  }

  function DeviceMount(root: string, d: Device): Mount
    requires DeviceTarget(d).Some?
  {
    Mount(Joined(Joined("", root), d.path), DeviceTarget(d).value, DEVICE_FLAGS)
  }

  /** What mount_device needs to be true besides its system calls. */
  predicate DeviceFits(root: string, d: Device) {
    JoinPaths(root, d.path).Some? && DeviceTarget(d).Some? && d.genuine
  }

  /** The last steps of mount_device; on failure the target is unmounted even if it was the bind that failed. */
  method BindDevice(k: Kernel, source: string, target: string) returns (ok: bool, ghost lost: bool)
    requires target != ""
    modifies k`clock, k`table
    ensures old(k.clock) < k.clock <= old(k.clock) + 3 && (ok ==> k.clock == old(k.clock) + 3)
    ensures ok <==> k.Clean(old(k.clock))
    ensures ok ==> k.table == old(k.table) + [Mount(source, target, DEVICE_FLAGS)]
    ensures !ok ==> k.table == if lost then Detach(old(k.table), target) else old(k.table)
    ensures lost <==> k.faults(old(k.clock))
  {
    hide SetFlags, Detach;
    ghost var t := k.table;
    ghost var m := Mount(source, target, {});
    lost := false;
    ok := k.Bind(source, target);
    if !ok {
      lost := true;
      k.Unmount(target);
      return;
    }
    DetachOfPush(t, m);
    DetachOfPush(t, m.(flags := DEVICE_FLAGS));
    SetFlagsOfPush(t, m, DEVICE_FLAGS);
    ok := k.Remount(target, DEVICE_FLAGS);
    if ok {
      ok := k.Attempt();          // xstrdup
    }
    if !ok {
      k.Unmount(target);
    }
  }

  /** The calls of mount_device: BIND_CALL is the number of the bind, counted from 0. */
  const BIND_CALL: nat := 4
  const DEVICE_CALLS: nat := 7

  /**
   mount_device: it mounts the node, or leaves the table alone, or loses a mount
   the target had.  The last happens exactly if the bind is the first call to fail.
   */
  method MountDevice(k: Kernel, root: string, d: Device) returns (mnt: Option<string>, ghost lost: Option<string>)
    modifies k`clock, k`table
    ensures old(k.clock) <= k.clock <= old(k.clock) + DEVICE_CALLS
    ensures mnt.Some? ==> k.clock == old(k.clock) + DEVICE_CALLS
    ensures mnt.Some? <==> k.Clean(old(k.clock)) && DeviceFits(root, d)
    ensures mnt.Some? ==> mnt == DeviceTarget(d) && k.table == old(k.table) + [DeviceMount(root, d)] && lost.None?
    ensures mnt.None? ==> k.table == if lost.Some? then Detach(old(k.table), lost.value) else old(k.table)
    ensures lost == if DeviceFits(root, d) && FirstFault(k.faults, old(k.clock), old(k.clock) + BIND_CALL)
                    then DeviceTarget(d) else None
  {
    hide Joined, Detach, Destination;
    lost := None;
    var src := JoinPaths(root, d.path);
    if src.None? {
      return None, lost;
    }
    var ok := k.Attempt();        // the calls of path_resolve_full
    var dst := DeviceTarget(d);
    if !ok || dst.None? {
      return None, lost;
    }
    ok := k.Attempt();            // xstat
    if !ok || !d.genuine {
      return None, lost;
    }
    ok := k.Attempt();            // file_mode
    if !ok {
      return None, lost;
    }
    ok := k.Attempt();            // file_create
    if !ok {
      return None, lost;
    }
    ghost var gone;
    ok, gone := BindDevice(k, src.value, dst.value);
    lost := if gone then dst else None;
    mnt := if ok then dst else None;
  }

  ghost predicate GroupFits(g: Group, flags: Flags) {
    g.enabled ==> |Joined("", g.root)| < PATH_MAX && PlanFits(Joined("", g.root), GroupTarget(g), g.paths, ByFlags(flags))
  }

  /** The mounts a group asks for. */
  function GroupPlan(g: Group, flags: Flags): (t: Table)
    ensures |t| <= |g.paths|
  {
    if !g.enabled || GroupTarget(g).None? then []
    else Plan(Joined("", g.root), GroupTarget(g).value, g.paths, ByFlags(flags))
  }

  function GroupCalls(g: Group, flags: Flags): nat {
    if g.enabled then MountCalls(Joined("", g.root), GroupTarget(g), g.paths, ByFlags(flags)) else 0
  }

  /** What a group's mount_files, begun with call `t`, leaves mounted when it fails. */
  ghost function GroupFlight(g: Group, flags: Flags, faults: nat -> bool, t: nat): Option<string> {
    if !g.enabled || |Joined("", g.root)| >= PATH_MAX then None
    else MountFlight(Joined("", g.root), GroupTarget(g), g.paths, ByFlags(flags), faults, t)
  }

  lemma GroupFlightIsPlanned(g: Group, flags: Flags, faults: nat -> bool, t: nat)
    requires GroupFlight(g, flags, faults, t).Some?
    ensures GroupFlight(g, flags, faults, t).value in TargetList(GroupPlan(g, flags))
  {
    hide Plan, Flight, Joined, Destination;
    FlightIsPlanned(Joined("", g.root), GroupTarget(g).value, g.paths, ByFlags(flags), faults, t + 3);
  }

  lemma GroupTargetsAreNamed(g: Group, flags: Flags)
    ensures Named(GroupPlan(g, flags))
  {
    hide Plan;
    if g.enabled && GroupTarget(g).Some? {
      forall j | 0 <= j < |GroupPlan(g, flags)|
        ensures GroupPlan(g, flags)[j].target != ""
      {
        PlanTargetsAreNamed(Joined("", g.root), GroupTarget(g).value, g.paths, ByFlags(flags), j);
      }
    }
  }

  ghost predicate Named(t: Table) {
    forall i :: 0 <= i < |t| ==> t[i].target != ""
  }

  /** `done` is mounted on top of `before` and recorded in the first places of `mnt`. */
  ghost predicate Recorded(k: Kernel, mnt: array<Option<string>>, before: Table, done: Table)
    reads k`table, mnt
  {
    && k.table == before + done
    && Ledger(TargetList(done), mnt[..])
    && Named(done)
  }

  /**
   A failed attempt: `made` is mounted and recorded, `left` is mounted only, and
   one mount on `lost` is gone.
   */
  ghost predicate Partial(k: Kernel, mnt: array<Option<string>>, before: Table, made: Table, left: Option<string>, lost: Option<string>)
    reads k`table, mnt
  {
    && Targets(k.table) == Targets(before) + Single(left) + Targets(made) - Single(lost)
    && Ledger(TargetList(made), mnt[..])
    && Named(made)
    && (left.None? || lost.None?)
  }

  lemma RecordedIsPartial(k: Kernel, mnt: array<Option<string>>, before: Table, done: Table)
    requires Recorded(k, mnt, before, done)
    ensures Partial(k, mnt, before, done, None, None)
  {
    TargetsOfConcat(before, done);
  }

  /** One mount_files call of nvc_driver_mount and the append to the ledger. */
  method MountGroup(k: Kernel, mnt: array<Option<string>>, n: nat, g: Group, flags: Flags, ghost before: Table, ghost done: Table)
    returns (ok: bool, next: nat, ghost left: Option<string>)
    requires n == |done| && n + |g.paths| <= mnt.Length && Recorded(k, mnt, before, done)
    modifies k`clock, k`table, mnt
    ensures old(k.clock) <= k.clock <= old(k.clock) + GroupCalls(g, flags)
    ensures ok ==> k.clock == old(k.clock) + GroupCalls(g, flags)
    ensures ok <==> k.Clean(old(k.clock)) && GroupFits(g, flags)
    ensures ok ==> next == |done + GroupPlan(g, flags)| && Recorded(k, mnt, before, done + GroupPlan(g, flags))
    ensures !ok ==> Partial(k, mnt, before, done, left, None)
    ensures left == GroupFlight(g, flags, k.faults, old(k.clock)) && (ok ==> left.None?)
  {
    hide Joined, Targets, Ledger, Plan, PlanFits, MountCalls, Single, MountFlight, Destination;
    left, next := None, n;
    if !g.enabled {
      assert done + [] == done;
      return true, next, left;
    }
    TargetsOfConcat(before, done);
    var tmp;
    tmp, left := MountFiles(k, g.root, g.view, g.dir, g.paths, flags);
    if tmp == null {
      Reorder(Targets(before), Targets(done), Single(left));
      return false, next, left;
    }
    ghost var plan := GroupPlan(g, flags);
    next := AppendLedger(mnt, n, tmp, TargetList(done), TargetList(plan));
    assert TargetList(done + plan) == TargetList(done) + TargetList(plan);
    assert before + (done + plan) == before + done + plan;
    GroupTargetsAreNamed(g, flags);
    ok := true;
  }

  /** Whether a device is bound into the container. */
  predicate Bound(d: Device, dxcore: bool, flags: Flags) {
    Wanted(d, dxcore, flags) && !flags.noDevbind
  }

  ghost predicate DevicesFit(root: string, devs: seq<Device>, dxcore: bool, flags: Flags) {
    forall i :: 0 <= i < |devs| && Bound(devs[i], dxcore, flags) ==> DeviceFits(root, devs[i])
  }

  /** The mounts of the bound devices, in order. */
  ghost function DevicePlan(root: string, devs: seq<Device>, dxcore: bool, flags: Flags): (t: Table)
    ensures |t| <= |devs|
  {
    if devs == [] then []
    else
      var before, d := DevicePlan(root, devs[..|devs| - 1], dxcore, flags), devs[|devs| - 1];
      if Bound(d, dxcore, flags) && DeviceTarget(d).Some? then before + [DeviceMount(root, d)] else before
  }

  lemma DevicePlanOfPush(root: string, devs: seq<Device>, i: nat, dxcore: bool, flags: Flags)
    requires i < |devs|
    ensures DevicePlan(root, devs[..i + 1], dxcore, flags) ==
              DevicePlan(root, devs[..i], dxcore, flags)
              + (if Bound(devs[i], dxcore, flags) && DeviceTarget(devs[i]).Some? then [DeviceMount(root, devs[i])] else [])
  {
    assert devs[..i + 1][..i] == devs[..i];
  }

  lemma FittingHasTarget(root: string, d: Device)
    requires DeviceFits(root, d)
    ensures DeviceTarget(d).Some?
  {
  }

  /** mount_device and the record of what it returns. */
  method RecordDevice(k: Kernel, mnt: array<Option<string>>, n: nat, root: string, d: Device, ghost before: Table, ghost done: Table)
    returns (ok: bool, ghost lost: Option<string>)
    requires n == |done| < mnt.Length && Recorded(k, mnt, before, done)
    modifies k`clock, k`table, mnt
    ensures old(k.clock) <= k.clock <= old(k.clock) + DEVICE_CALLS
    ensures ok ==> k.clock == old(k.clock) + DEVICE_CALLS && lost.None?
    ensures ok <==> k.Clean(old(k.clock)) && DeviceFits(root, d)
    ensures ok ==> Recorded(k, mnt, before, done + [DeviceMount(root, d)])
    ensures !ok ==> Partial(k, mnt, before, done, None, lost)
    ensures lost == if DeviceFits(root, d) && FirstFault(k.faults, old(k.clock), old(k.clock) + BIND_CALL)
                    then DeviceTarget(d) else None
  {
    hide Joined, Targets, Ledger, Detach, Destination;
    LedgerPlaces(TargetList(done), mnt[..]);
    var entry;
    entry, lost := MountDevice(k, root, d);
    ghost var was := mnt[..];
    mnt[n] := entry;
    if entry.None? {
      assert mnt[..] == was;
      TargetsOfConcat(before, done);
      if lost.Some? { TargetsOfDetach(before + done, lost.value); }
      assert Targets(before) + Single(None) == Targets(before);
      assert Targets(before) + Targets(done) - Single(None) == Targets(before) + Targets(done);
      return false, lost;
    }
    LedgerPush(TargetList(done), was, entry.value);
    ghost var m := DeviceMount(root, d);
    assert TargetList(done + [m]) == TargetList(done) + [entry.value];
    assert before + (done + [m]) == before + done + [m];
    ok := true;
  }

  /** The calls a wanted device takes: mount_device, and the cgroup rule. */
  function DeviceCalls(d: Device, dxcore: bool, flags: Flags): nat {
    (if Bound(d, dxcore, flags) then DEVICE_CALLS else 0) + (if Wanted(d, dxcore, flags) && !flags.noCgroups then 1 else 0)
  }

  function DevicesCalls(devs: seq<Device>, dxcore: bool, flags: Flags): nat {
    if devs == [] then 0
    else DevicesCalls(devs[..|devs| - 1], dxcore, flags) + DeviceCalls(devs[|devs| - 1], dxcore, flags)
  }

  lemma DevicesCallsOfPush(devs: seq<Device>, i: nat, dxcore: bool, flags: Flags)
    requires i < |devs|
    ensures DevicesCalls(devs[..i + 1], dxcore, flags)
            == DevicesCalls(devs[..i], dxcore, flags) + DeviceCalls(devs[i], dxcore, flags)
  {
    assert devs[..i + 1][..i] == devs[..i];
  }

  lemma {:induction false} DevicesCallsGrow(devs: seq<Device>, i: nat, j: nat, dxcore: bool, flags: Flags)
    requires i <= j <= |devs|
    ensures DevicesCalls(devs[..i], dxcore, flags) <= DevicesCalls(devs[..j], dxcore, flags)
    decreases j
  {
    hide DevicesCalls;
    if i < j {
      DevicesCallsGrow(devs, i, j - 1, dxcore, flags);
      DevicesCallsOfPush(devs, j - 1, dxcore, flags);
    }
  }

  /** Device `i` is bound if no call fails before: it fits, and so do the devices before it. */
  ghost predicate Reachable(d: Driver, i: nat) {
    && i < |d.devs| && Bound(d.devs[i], d.dxcore, d.flags) && DeviceFits(d.root, d.devs[i])
    && DevicesFit(d.root, d.devs[..i], d.dxcore, d.flags)
  }

  /** When the bind of device `i` is called, if the device loop starts at `base`. */
  function BindAt(d: Driver, base: nat, i: nat): nat
    requires i < |d.devs|
  {
    base + DevicesCalls(d.devs[..i], d.dxcore, d.flags) + BIND_CALL
  }

  /** The bind of device `i` is the first call to fail from `start` on; the device loop starts at `base`. */
  ghost predicate Loses(d: Driver, faults: nat -> bool, start: nat, base: nat, i: nat) {
    Reachable(d, i) && FirstFault(faults, start, BindAt(d, base, i))
  }

  /** `lost` is the target of the one device whose bind is the first call to fail, or nothing. */
  ghost predicate LossIs(d: Driver, faults: nat -> bool, start: nat, base: nat, lost: Option<string>) {
    && (lost.Some? ==> exists i: nat :: Loses(d, faults, start, base, i) && DeviceTarget(d.devs[i]) == lost)
    && (forall i: nat :: Loses(d, faults, start, base, i) ==> DeviceTarget(d.devs[i]) == lost)
  }

  /** The binds of different devices come at different times. */
  lemma BindsApart(d: Driver, base: nat, i: nat, j: nat, u: nat)
    requires i < |d.devs| && j < |d.devs| && Bound(d.devs[j], d.dxcore, d.flags)
    requires base + DevicesCalls(d.devs[..i], d.dxcore, d.flags) <= u
    requires u < base + DevicesCalls(d.devs[..i + 1], d.dxcore, d.flags)
    requires u == BindAt(d, base, j)
    ensures i == j
  {
    hide DevicesCalls;
    DevicesCallsOfPush(d.devs, j, d.dxcore, d.flags);
    if j < i {
      DevicesCallsGrow(d.devs, j + 1, i, d.dxcore, d.flags);
    } else if i < j {
      DevicesCallsGrow(d.devs, i + 1, j, d.dxcore, d.flags);
    }
  }

  /** The first call to fail is one of device `i`'s. */
  ghost predicate FailsDuring(d: Driver, faults: nat -> bool, start: nat, i: nat)
    requires i < |d.devs|
  {
    && NoFault(faults, start, start + DevicesCalls(d.devs[..i], d.dxcore, d.flags))
    && !NoFault(faults, start, start + DevicesCalls(d.devs[..i + 1], d.dxcore, d.flags))
  }

  lemma LossDuring(d: Driver, faults: nat -> bool, start: nat, i: nat, j: nat)
    requires i < |d.devs| && FailsDuring(d, faults, start, i) && Loses(d, faults, start, start, j)
    ensures i == j
  {
    hide DevicesCalls, DeviceFits, Bound, DevicesFit;
    BindsApart(d, start, i, j, BindAt(d, start, j));
  }

  /** Device `i` is where the loop fails. */
  lemma LossAtDevice(d: Driver, faults: nat -> bool, start: nat, i: nat, lost: Option<string>)
    requires i < |d.devs| && DevicesFit(d.root, d.devs[..i], d.dxcore, d.flags)
    requires NoFault(faults, start, start + DevicesCalls(d.devs[..i], d.dxcore, d.flags))
    requires DeviceOk(d, d.devs[i]) ==> FailsDuring(d, faults, start, i)
    requires lost == LostAt(d, d.devs[i], faults, start + DevicesCalls(d.devs[..i], d.dxcore, d.flags))
    ensures LossIs(d, faults, start, start, lost)
  {
    hide DevicesCalls, DeviceFits, Bound, DeviceTarget;
    forall j: nat | Loses(d, faults, start, start, j)
      ensures DeviceTarget(d.devs[j]) == lost
    {
      if DeviceOk(d, d.devs[i]) {
        LossDuring(d, faults, start, i, j);
      } else {
        LossBeforeMisfit(d, faults, start, i, j);
      }
    }
    if lost.Some? { assert Loses(d, faults, start, start, i); }
  }

  /** Nothing but a failing call stops the device. */
  ghost predicate DeviceOk(d: Driver, dev: Device) {
    Bound(dev, d.dxcore, d.flags) ==> DeviceFits(d.root, dev)
  }

  /** The target that loses a mount when the device's turn begins with call `t`. */
  ghost function LostAt(d: Driver, dev: Device, faults: nat -> bool, t: nat): Option<string> {
    if Bound(dev, d.dxcore, d.flags) && DeviceFits(d.root, dev) && FirstFault(faults, t, t + BIND_CALL)
    then DeviceTarget(dev) else None
  }

  /** A device that does not fit is as far as the loop gets. */
  lemma LossBeforeMisfit(d: Driver, faults: nat -> bool, start: nat, i: nat, j: nat)
    requires i < |d.devs| && Bound(d.devs[i], d.dxcore, d.flags) && !DeviceFits(d.root, d.devs[i])
    requires NoFault(faults, start, start + DevicesCalls(d.devs[..i], d.dxcore, d.flags))
    ensures !Loses(d, faults, start, start, j)
  {
    hide DevicesCalls, DeviceFits, Bound;
    if i < j < |d.devs| {
      assert d.devs[..j][i] == d.devs[i];
    } else if j < i {
      DevicesCallsOfPush(d.devs, j, d.dxcore, d.flags);
      DevicesCallsGrow(d.devs, j + 1, i, d.dxcore, d.flags);
    }
  }

  lemma NoLossWhenDone(d: Driver, faults: nat -> bool, start: nat)
    requires NoFault(faults, start, start + DevicesCalls(d.devs, d.dxcore, d.flags))
    ensures LossIs(d, faults, start, start, None)
  {
    hide DevicesCalls, DeviceFits, Bound, DevicesFit;
    forall j: nat
      ensures !Loses(d, faults, start, start, j)
    {
      if j < |d.devs| {
        DevicesCallsOfPush(d.devs, j, d.dxcore, d.flags);
        DevicesCallsGrow(d.devs, j + 1, |d.devs|, d.dxcore, d.flags);
        assert d.devs[..|d.devs|] == d.devs;
      }
    }
  }

  /** A failure before the device loop loses nothing. */
  lemma NoLossBefore(d: Driver, faults: nat -> bool, start: nat, base: nat)
    requires !NoFault(faults, start, base)
    ensures LossIs(d, faults, start, base, None)
  {
    hide DevicesCalls, Reachable;
  }

  /** Calls that succeed in front change nothing. */
  lemma LossShifts(d: Driver, faults: nat -> bool, start: nat, mid: nat, base: nat, lost: Option<string>)
    requires start <= mid <= base && NoFault(faults, start, mid) && LossIs(d, faults, mid, base, lost)
    ensures LossIs(d, faults, start, base, lost)
  {
    hide DevicesCalls, Reachable;
    forall i: nat
      ensures Loses(d, faults, start, base, i) <==> Loses(d, faults, mid, base, i)
    {
    }
  }

  /** What one device adds to the plan. */
  ghost function DeviceStep(d: Driver, dev: Device): Table {
    if Bound(dev, d.dxcore, d.flags) && DeviceTarget(dev).Some? then [DeviceMount(d.root, dev)] else []
  }

  function IdOf(dev: Device): DeviceId { DeviceId(dev.major, dev.minor) }

  /** What one device adds to the container's rules. */
  ghost function DeviceRule(d: Driver, dev: Device): seq<DeviceId> {
    if Wanted(dev, d.dxcore, d.flags) && !d.flags.noCgroups then [IdOf(dev)] else []
  }

  /** What the first devices of the list add. */
  ghost function DeviceRules(d: Driver, devs: seq<Device>): seq<DeviceId> {
    if devs == [] then [] else DeviceRules(d, devs[..|devs| - 1]) + DeviceRule(d, devs[|devs| - 1])
  }

  lemma DeviceRulesOfPush(d: Driver, i: nat)
    requires i < |d.devs|
    ensures DeviceRules(d, d.devs[..i + 1]) == DeviceRules(d, d.devs[..i]) + DeviceRule(d, d.devs[i])
    ensures DeviceRules(d, d.devs[..0]) == []
  {
    hide DeviceRule;
    assert d.devs[..i + 1][..i] == d.devs[..i];
  }

  /** One turn of the device loop. */
  method MountNext(k: Kernel, mnt: array<Option<string>>, n: nat, d: Driver, dev: Device, ghost before: Table, ghost done: Table)
    returns (ok: bool, next: nat, ghost made: Table, ghost lost: Option<string>)
    requires n == |done| < mnt.Length && Recorded(k, mnt, before, done)
    modifies k`clock, k`table, k`rules, mnt
    ensures old(k.clock) <= k.clock <= old(k.clock) + DeviceCalls(dev, d.dxcore, d.flags)
    ensures ok ==> k.clock == old(k.clock) + DeviceCalls(dev, d.dxcore, d.flags)
    ensures ok <==> k.Clean(old(k.clock)) && DeviceOk(d, dev)
    ensures ok ==> made == done + DeviceStep(d, dev) && next == |made| && Recorded(k, mnt, before, made) && lost.None?
    ensures !ok ==> Partial(k, mnt, before, made, None, lost)
    ensures lost == LostAt(d, dev, k.faults, old(k.clock))
    ensures k.rules == if ok then old(k.rules) + DeviceRule(d, dev) else old(k.rules)
  {
    hide Partial, Recorded, DeviceMount, DeviceFits, DeviceTarget;
    lost, made, next := None, done, n;
    if Bound(dev, d.dxcore, d.flags) {
      ok, lost := RecordDevice(k, mnt, n, d.root, dev, before, done);
      if !ok {
        return;
      }
      FittingHasTarget(d.root, dev);
      made, next := done + [DeviceMount(d.root, dev)], n + 1;
    }
    if Wanted(dev, d.dxcore, d.flags) && !d.flags.noCgroups {
      ok := k.Allow(IdOf(dev));   // setup_device_cgroup
      if !ok {
        RecordedIsPartial(k, mnt, before, made);
        return;
      }
    }
    assert done + [] == done && old(k.rules) + [] == old(k.rules);
    ok := true;
  }

  /** The device loop. */
  method MountDevices(k: Kernel, mnt: array<Option<string>>, n: nat, d: Driver, ghost before: Table, ghost done: Table)
    returns (ok: bool, ghost made: Table, ghost lost: Option<string>)
    requires n == |done| && n + |d.devs| <= mnt.Length && Recorded(k, mnt, before, done)
    modifies k`clock, k`table, k`rules, mnt
    ensures old(k.clock) <= k.clock <= old(k.clock) + DevicesCalls(d.devs, d.dxcore, d.flags)
    ensures ok ==> k.clock == old(k.clock) + DevicesCalls(d.devs, d.dxcore, d.flags)
    ensures ok <==> k.Clean(old(k.clock)) && DevicesFit(d.root, d.devs, d.dxcore, d.flags)
    ensures ok ==> made == done + DevicePlan(d.root, d.devs, d.dxcore, d.flags) && Recorded(k, mnt, before, made)
    ensures ok ==> lost.None?
    ensures !ok ==> Partial(k, mnt, before, made, None, lost)
    ensures LossIs(d, k.faults, old(k.clock), old(k.clock), lost)
    ensures ok ==> k.rules == old(k.rules) + DeviceRules(d, d.devs)
    ensures !ok ==> exists i: nat :: i < |d.devs| && k.rules == old(k.rules) + DeviceRules(d, d.devs[..i])
  {
    hide Partial, Recorded, DevicePlan, DevicesCalls, DevicesFit, LossIs, DeviceStep, DeviceOk, DeviceCalls, LostAt;
    hide DeviceRule, DeviceRules;
    NoRules(d);
    assert k.rules + [] == k.rules;
    ghost var start := k.clock;
    lost, made := None, done;
    NoDevices(d);
    assert done + [] == done;
    var at := n;
    var i := 0;
    while i < |d.devs|
      invariant 0 <= i <= |d.devs| && at == |made| <= n + i
      invariant lost.None?
      invariant made == done + DevicePlan(d.root, d.devs[..i], d.dxcore, d.flags)
      invariant Recorded(k, mnt, before, made)
      invariant k.clock == start + DevicesCalls(d.devs[..i], d.dxcore, d.flags) && k.Clean(start)
      invariant DevicesFit(d.root, d.devs[..i], d.dxcore, d.flags)
      invariant k.rules == old(k.rules) + DeviceRules(d, d.devs[..i])
    {
      NextDevice(d, i);
      DeviceRulesOfPush(d, i);
      ConcatAssociates(old(k.rules), DeviceRules(d, d.devs[..i]), DeviceRule(d, d.devs[i]));
      ghost var plan := DevicePlan(d.root, d.devs[..i], d.dxcore, d.flags);
      ConcatAssociates(done, plan, DeviceStep(d, d.devs[i]));
      ok, at, made, lost := MountNext(k, mnt, at, d, d.devs[i], before, made);
      if !ok {
        LossAtDevice(d, k.faults, start, i, lost);
        return;
      }
      i := i + 1;
    }
    assert d.devs[..i] == d.devs;
    NoLossWhenDone(d, k.faults, start);
    ok := true;
  }

  lemma NoRules(d: Driver)
    ensures DeviceRules(d, d.devs[..0]) == []
  {
  }

  lemma NoDevices(d: Driver)
    ensures DevicesCalls(d.devs[..0], d.dxcore, d.flags) == 0 && DevicePlan(d.root, d.devs[..0], d.dxcore, d.flags) == []
    ensures DevicesFit(d.root, d.devs[..0], d.dxcore, d.flags)
  {
  }

  /** What one more device changes. */
  lemma NextDevice(d: Driver, i: nat)
    requires i < |d.devs|
    ensures DevicesCalls(d.devs[..i + 1], d.dxcore, d.flags)
            == DevicesCalls(d.devs[..i], d.dxcore, d.flags) + DeviceCalls(d.devs[i], d.dxcore, d.flags)
    ensures DevicesCalls(d.devs[..i + 1], d.dxcore, d.flags) <= DevicesCalls(d.devs, d.dxcore, d.flags)
    ensures DevicePlan(d.root, d.devs[..i + 1], d.dxcore, d.flags)
            == DevicePlan(d.root, d.devs[..i], d.dxcore, d.flags) + DeviceStep(d, d.devs[i])
    ensures |DeviceStep(d, d.devs[i])| <= 1
    ensures DevicesFit(d.root, d.devs[..i + 1], d.dxcore, d.flags) <==>
              DevicesFit(d.root, d.devs[..i], d.dxcore, d.flags) && DeviceOk(d, d.devs[i])
    ensures DevicesFit(d.root, d.devs, d.dxcore, d.flags) ==> DeviceOk(d, d.devs[i])
  {
    hide DevicesCalls, DevicePlan, DeviceCalls, DeviceFits, Bound, DevicesFit, DeviceMount, DeviceTarget, DeviceOk;
    DevicesFitOfPush(d, i);
    DevicesCallsOfPush(d.devs, i, d.dxcore, d.flags);
    DevicesCallsGrow(d.devs, i + 1, |d.devs|, d.dxcore, d.flags);
    assert d.devs[..|d.devs|] == d.devs;
    DevicePlanOfPush(d.root, d.devs, i, d.dxcore, d.flags);
  }

  lemma DevicesFitOfPush(d: Driver, i: nat)
    requires i < |d.devs|
    ensures DevicesFit(d.root, d.devs[..i + 1], d.dxcore, d.flags) <==>
              DevicesFit(d.root, d.devs[..i], d.dxcore, d.flags) && DeviceOk(d, d.devs[i])
    ensures DevicesFit(d.root, d.devs, d.dxcore, d.flags) ==> DeviceOk(d, d.devs[i])
  {
    hide DeviceFits, Bound;
    assert d.devs[..i + 1] == d.devs[..i] + [d.devs[i]];
  }

  /** What nvc_driver_mount is asked for; `nlibs` counts the container's libraries before they are filtered. */
  datatype Driver = Driver(
    bins: Group, libs: Group, libs32: Group, cntLibs: Group, nlibs: nat,
    root: string, devs: seq<Device>, nipcs: nat, nfirmwares: nat, dxcore: bool, flags: Flags)

  ghost predicate ValidDriver(d: Driver) {
    && (d.bins.enabled <==> d.bins.paths != [])
    && (d.libs.enabled <==> d.libs.paths != [])
    && (d.libs32.enabled <==> d.flags.compat32 && d.libs32.paths != [])
    && (d.cntLibs.enabled <==> d.nlibs > 0)
    && |d.cntLibs.paths| <= d.nlibs
  }

  /** nmnt */
  function LedgerSize(d: Driver): nat {
    2 + |d.bins.paths| + |d.libs.paths| + d.nlibs + |d.libs32.paths| + d.nipcs + |d.devs| + d.nfirmwares
  }

  ghost function HostPlan(d: Driver): Table {
    GroupPlan(d.bins, d.flags) + GroupPlan(d.libs, d.flags) + GroupPlan(d.libs32, d.flags)
  }

  /** All mounts a successful call makes, in order. */
  ghost function FullPlan(d: Driver): Table {
    HostPlan(d) + GroupPlan(d.cntLibs, d.flags) + DevicePlan(d.root, d.devs, d.dxcore, d.flags)
  }

  ghost predicate HostFits(d: Driver) {
    GroupFits(d.bins, d.flags) && GroupFits(d.libs, d.flags) && GroupFits(d.libs32, d.flags)
  }

  ghost predicate FilesFit(d: Driver) { HostFits(d) && GroupFits(d.cntLibs, d.flags) }

  /** Every path fits its buffer, every destination resolves and every device node is genuine. */
  ghost predicate DriverFits(d: Driver) {
    FilesFit(d) && DevicesFit(d.root, d.devs, d.dxcore, d.flags)
  }

  function HostCalls(d: Driver): nat {
    GroupCalls(d.bins, d.flags) + GroupCalls(d.libs, d.flags) + GroupCalls(d.libs32, d.flags) + 1
  }

  function ContainerCalls(d: Driver): nat {
    (if d.cntLibs.enabled then 1 else 0) + GroupCalls(d.cntLibs, d.flags)
  }

  /** The calls from the ledger's allocation up to the device loop. */
  function FilesCalls(d: Driver): nat { 1 + HostCalls(d) + ContainerCalls(d) }

  /** The number, counted from 0, of the call that leads back to the host's namespace when nothing fails before. */
  function WayBack(d: Driver): nat { 1 + FilesCalls(d) + DevicesCalls(d.devs, d.dxcore, d.flags) }

  /** What a step leaves in flight, or what the next one does once it is done. */
  ghost function Then(first: Option<string>, done: bool, next: Option<string>): Option<string> {
    if first.Some? || !done then first else next
  }

  ghost predicate GroupDone(g: Group, flags: Flags, faults: nat -> bool, t: nat) {
    GroupFits(g, flags) && NoFault(faults, t, t + GroupCalls(g, flags))
  }

  ghost function HostFlight(d: Driver, faults: nat -> bool, t: nat): Option<string> {
    var t2 := t + GroupCalls(d.bins, d.flags);
    var t3 := t2 + GroupCalls(d.libs, d.flags);
    Then(GroupFlight(d.bins, d.flags, faults, t), GroupDone(d.bins, d.flags, faults, t),
         Then(GroupFlight(d.libs, d.flags, faults, t2), GroupDone(d.libs, d.flags, faults, t2),
              GroupFlight(d.libs32, d.flags, faults, t3)))
  }

  ghost function ContainerFlight(d: Driver, faults: nat -> bool, t: nat): Option<string> {
    if d.cntLibs.enabled && faults(t) then None
    else GroupFlight(d.cntLibs, d.flags, faults, t + if d.cntLibs.enabled then 1 else 0)
  }

  /** What the mounts of a nvc_driver_mount leave in flight when the first of their calls is number `t`. */
  ghost function DriverFlight(d: Driver, faults: nat -> bool, t: nat): Option<string> {
    Then(HostFlight(d, faults, t), HostFits(d) && NoFault(faults, t, t + HostCalls(d)),
         ContainerFlight(d, faults, t + HostCalls(d)))
  }

  /** The target a nvc_driver_mount begun with call `start` leaves a mount on when it fails. */
  ghost function DriverLeft(d: Driver, faults: nat -> bool, start: nat): Option<string> {
    if faults(start) || faults(start + 1) then None else DriverFlight(d, faults, start + 2)
  }

  /** The target a failed call may leave a mount on is a planned one. */
  ghost predicate Accounted(d: Driver, left: Option<string>) {
    left.Some? ==> left.value in TargetList(FullPlan(d))
  }

  lemma PlannedInGroup(d: Driver, g: Group, x: string)
    requires g == d.bins || g == d.libs || g == d.libs32 || g == d.cntLibs
    requires x in TargetList(GroupPlan(g, d.flags))
    ensures x in TargetList(FullPlan(d))
  {
    hide GroupPlan, DevicePlan;
    var b, l, m, c := GroupPlan(d.bins, d.flags), GroupPlan(d.libs, d.flags), GroupPlan(d.libs32, d.flags), GroupPlan(d.cntLibs, d.flags);
    var v := DevicePlan(d.root, d.devs, d.dxcore, d.flags);
    assert FullPlan(d) == b + l + m + c + v;
    assert TargetList(b + l + m + c + v) == TargetList(b) + TargetList(l) + TargetList(m) + TargetList(c) + TargetList(v);
  }

  /** Every call of the driver sees the same container root. */
  ghost predicate RootedAt(d: Driver, rootfs: string) {
    && d.bins.view.rootfs == d.libs.view.rootfs == d.libs32.view.rootfs == d.cntLibs.view.rootfs == rootfs
    && forall i :: 0 <= i < |d.devs| ==> d.devs[i].view.rootfs == rootfs
  }

  /** Every mount of `t` goes to a place under `rootfs`. */
  ghost predicate Confined(rootfs: string, t: Table) {
    forall i :: 0 <= i < |t| ==> Under(rootfs, t[i].target)
  }

  lemma GroupIsConfined(g: Group, flags: Flags)
    ensures Confined(g.view.rootfs, GroupPlan(g, flags))
  {
    hide Plan, Under, Destination;
    if g.enabled && GroupTarget(g).Some? {
      DestinationIsUnder(g.view, g.dir);
      forall j | 0 <= j < |GroupPlan(g, flags)|
        ensures Under(g.view.rootfs, GroupPlan(g, flags)[j].target)
      {
        PlanIsUnder(g.view.rootfs, Joined("", g.root), GroupTarget(g).value, g.paths, flags, j);
      }
    }
  }

  lemma {:induction false} DevicesAreConfined(root: string, rootfs: string, devs: seq<Device>, dxcore: bool, flags: Flags)
    requires forall i :: 0 <= i < |devs| ==> devs[i].view.rootfs == rootfs
    ensures Confined(rootfs, DevicePlan(root, devs, dxcore, flags))
  {
    hide Under, Destination, Joined, Bound;
    if devs != [] {
      var d := devs[|devs| - 1];
      DevicesAreConfined(root, rootfs, devs[..|devs| - 1], dxcore, flags);
      if DeviceTarget(d).Some? { DestinationIsUnder(d.view, d.path); }
    }
  }

  /** Whatever the links inside the container say, nvc_driver_mount plans mounts under the container's root only. */
  lemma PlanIsConfined(d: Driver, rootfs: string)
    requires RootedAt(d, rootfs)
    ensures Confined(rootfs, FullPlan(d))
  {
    hide Under, GroupPlan, DevicePlan;
    GroupIsConfined(d.bins, d.flags);
    GroupIsConfined(d.libs, d.flags);
    GroupIsConfined(d.libs32, d.flags);
    GroupIsConfined(d.cntLibs, d.flags);
    DevicesAreConfined(d.root, rootfs, d.devs, d.dxcore, d.flags);
  }

  /** What a group leaves in flight is planned. */
  lemma FlightIsAccounted(d: Driver, g: Group, faults: nat -> bool, t: nat)
    requires g == d.bins || g == d.libs || g == d.libs32 || g == d.cntLibs
    ensures Accounted(d, GroupFlight(g, d.flags, faults, t))
  {
    hide GroupFlight, GroupPlan, FullPlan;
    var left := GroupFlight(g, d.flags, faults, t);
    if left.Some? {
      GroupFlightIsPlanned(g, d.flags, faults, t);
      PlannedInGroup(d, g, left.value);
    }
  }

  /** The host's binaries and libraries, and the links made for them. */
  method MountHost(k: Kernel, mnt: array<Option<string>>, d: Driver, ghost before: Table)
    returns (ok: bool, n: nat, ghost made: Table, ghost left: Option<string>)
    requires ValidDriver(d) && mnt.Length == LedgerSize(d) && Recorded(k, mnt, before, [])
    modifies k`clock, k`table, mnt
    ensures old(k.clock) <= k.clock <= old(k.clock) + HostCalls(d) && (ok ==> k.clock == old(k.clock) + HostCalls(d))
    ensures ok <==> k.Clean(old(k.clock)) && HostFits(d)
    ensures ok ==> made == HostPlan(d) && n == |made| && Recorded(k, mnt, before, made)
    ensures !ok ==> Partial(k, mnt, before, made, left, None) && Accounted(d, left)
    ensures left == HostFlight(d, k.faults, old(k.clock)) && (ok ==> left.None?)
  {
    hide Recorded, Partial, GroupFits, GroupPlan, GroupCalls, GroupFlight, FullPlan, TargetList;
    made := [];
    ghost var start := k.clock;
    ghost var b, l, m := GroupPlan(d.bins, d.flags), GroupPlan(d.libs, d.flags), GroupPlan(d.libs32, d.flags);
    ok, n, left := MountGroup(k, mnt, 0, d.bins, d.flags, before, made);
    if !ok {
      FlightIsAccounted(d, d.bins, k.faults, start);
      return;
    }
    made := made + b;
    start := k.clock;
    ok, n, left := MountGroup(k, mnt, n, d.libs, d.flags, before, made);
    if !ok {
      FlightIsAccounted(d, d.libs, k.faults, start);
      return;
    }
    made := made + l;
    start := k.clock;
    ok, n, left := MountGroup(k, mnt, n, d.libs32, d.flags, before, made);
    if !ok {
      FlightIsAccounted(d, d.libs32, k.faults, start);
      return;
    }
    made := made + m;
    assert made == HostPlan(d);
    ok := k.Attempt();            // symlink_libraries
    if !ok {
      RecordedIsPartial(k, mnt, before, made);
    }
  }

  /** The container's own libraries. */
  method MountContainer(k: Kernel, mnt: array<Option<string>>, n0: nat, d: Driver, ghost before: Table)
    returns (ok: bool, n: nat, ghost left: Option<string>)
    requires ValidDriver(d) && mnt.Length == LedgerSize(d)
    requires n0 == |HostPlan(d)| && Recorded(k, mnt, before, HostPlan(d))
    modifies k`clock, k`table, mnt
    ensures old(k.clock) <= k.clock <= old(k.clock) + ContainerCalls(d)
    ensures ok ==> k.clock == old(k.clock) + ContainerCalls(d)
    ensures ok <==> k.Clean(old(k.clock)) && GroupFits(d.cntLibs, d.flags)
    ensures ok ==> var made := HostPlan(d) + GroupPlan(d.cntLibs, d.flags);
                   n == |made| && Recorded(k, mnt, before, made)
    ensures !ok ==> Partial(k, mnt, before, HostPlan(d), left, None) && Accounted(d, left)
    ensures left == ContainerFlight(d, k.faults, old(k.clock)) && (ok ==> left.None?)
  {
    hide Recorded, Partial, GroupFits, GroupPlan, GroupCalls, GroupFlight, TargetList, HostPlan, FullPlan, LedgerSize, Accounted;
    RoomForContainer(d);
    NothingInFlight(d);
    left, n := None, n0;
    if d.cntLibs.enabled {
      ok := k.Attempt();          // array_copy
      if !ok {
        RecordedIsPartial(k, mnt, before, HostPlan(d));
        return;
      }
    }
    FlightIsAccounted(d, d.cntLibs, k.faults, k.clock);
    ok, n, left := MountGroup(k, mnt, n0, d.cntLibs, d.flags, before, HostPlan(d));
  }

  /** The rules of all wanted devices are set, or those of some first devices of the list. */
  ghost predicate RulesSet(d: Driver, before: seq<DeviceId>, now: seq<DeviceId>, all: bool) {
    if all then now == before + DeviceRules(d, d.devs)
    else now == before || exists i: nat :: i < |d.devs| && now == before + DeviceRules(d, d.devs[..i])
  }

  /** Everything that is recorded in the ledger, in order. */
  method MountPlan(k: Kernel, mnt: array<Option<string>>, d: Driver, ghost before: Table)
    returns (ok: bool, ghost made: Table, ghost left: Option<string>, ghost lost: Option<string>)
    requires ValidDriver(d) && mnt.Length == LedgerSize(d) && Recorded(k, mnt, before, [])
    modifies k`clock, k`table, k`rules, mnt
    ensures RulesSet(d, old(k.rules), k.rules, ok)
    ensures var calls := HostCalls(d) + ContainerCalls(d) + DevicesCalls(d.devs, d.dxcore, d.flags);
            old(k.clock) <= k.clock <= old(k.clock) + calls && (ok ==> k.clock == old(k.clock) + calls)
    ensures ok <==> k.Clean(old(k.clock)) && DriverFits(d)
    ensures ok ==> made == FullPlan(d) && Recorded(k, mnt, before, made) && left.None? && lost.None?
    ensures !ok ==> Partial(k, mnt, before, made, left, lost) && Accounted(d, left)
    ensures if FilesFit(d) then LossIs(d, k.faults, old(k.clock), old(k.clock) + HostCalls(d) + ContainerCalls(d), lost)
            else lost.None?
    ensures left == DriverFlight(d, k.faults, old(k.clock))
  {
    hide Recorded, Partial, HostFits, GroupFits, DevicesFit, HostPlan, GroupPlan, DevicePlan;
    hide HostCalls, ContainerCalls, DevicesCalls, LossIs, Accounted, HostFlight, ContainerFlight, DeviceRules;
    left, lost := None, None;
    ghost var start, base := k.clock, k.clock + HostCalls(d) + ContainerCalls(d);
    var n;
    ok, n, made, left := MountHost(k, mnt, d, before);
    if !ok {
      if FilesFit(d) { NoLossBefore(d, k.faults, start, base); }
      return;
    }
    ok, n, left := MountContainer(k, mnt, n, d, before);
    if !ok {
      if FilesFit(d) { NoLossBefore(d, k.faults, start, base); }
      return;
    }
    made := made + GroupPlan(d.cntLibs, d.flags);
    HostPlanFits(d);
    ok, made, lost := MountDevices(k, mnt, n, d, before, made);
    LossShifts(d, k.faults, start, base, base, lost);
    NothingInFlight(d);
  }

  lemma RoomForContainer(d: Driver)
    requires ValidDriver(d)
    ensures |HostPlan(d)| + |d.cntLibs.paths| <= LedgerSize(d)
  {
  }

  lemma HostPlanFits(d: Driver)
    requires ValidDriver(d)
    ensures |HostPlan(d)| + |GroupPlan(d.cntLibs, d.flags)| + |d.devs| <= LedgerSize(d)
  {
  }

  lemma NothingInFlight(d: Driver)
    ensures Accounted(d, None)
  {
  }

  datatype DriverResult =
    | NotEntered    // ns_enter failed
    | Done          // rv == 0
    | RolledBack    // a step failed, the record was undone
    | Stranded      // everything mounted, but the way back to the host's namespace failed
    | Aborted       // the assertion that the way back succeeds did not hold
    | Crashed       // a null stream was closed; only nvc_device_mig_caps_mount does that

  /** The part of nvc_driver_mount that runs in the container's namespace, up to leaving it. */
  method MountInside(k: Kernel, d: Driver) returns (ok: bool, ghost left: Option<string>, ghost lost: Option<string>)
    requires ValidDriver(d)
    modifies k`clock, k`table, k`rules
    ensures RulesSet(d, old(k.rules), k.rules, ok)
    ensures var calls := FilesCalls(d) + DevicesCalls(d.devs, d.dxcore, d.flags);
            old(k.clock) <= k.clock <= old(k.clock) + calls && (ok ==> k.clock == old(k.clock) + calls)
    ensures ok <==> k.Clean(old(k.clock)) && DriverFits(d)
    ensures ok ==> k.table == old(k.table) + FullPlan(d) && left.None? && lost.None?
    ensures !ok ==>
              && Targets(k.table) == old(Targets(k.table)) + Single(left) - Single(lost)
              && (left.None? || lost.None?)
              && Accounted(d, left)
    ensures if FilesFit(d) then LossIs(d, k.faults, old(k.clock), old(k.clock) + FilesCalls(d), lost) else lost.None?
    ensures left == if k.faults(old(k.clock)) then None else DriverFlight(d, k.faults, old(k.clock) + 1)
  {
    hide DriverFlight, DeviceRules, Recorded, Partial, DriverFits, FilesFit, FullPlan, Targets, Ledger, Accounted, Single;
    hide HostCalls, ContainerCalls, DevicesCalls, LossIs;
    left, lost := None, None;
    ghost var before, start, base := k.table, k.clock, k.clock + FilesCalls(d);
    var size := LedgerSize(d);
    ok := k.Attempt();            // array_new
    if !ok {
      NothingLeft(before);
      NothingInFlight(d);
      NoLossBefore(d, k.faults, start, base);
      return;
    }
    var mnt := new Option<string>[size](_ => None);
    NothingRecorded(k, mnt, before);
    ghost var made;
    ok, made, left, lost := MountPlan(k, mnt, d, before);
    if FilesFit(d) { LossShifts(d, k.faults, start, start + 1, base, lost); }
    if ok {
      RecordedTable(k, mnt, before, made);
    } else {
      PartialFacts(k, mnt, before, made, left, lost);
      RollBack(k, mnt, size, before, made, left, lost);
    }
  }

  /** Where a result leaves the process. */
  predicate LeftIn(r: DriverResult, ns: Namespace) {
    ns == if r.Stranded? || r.Aborted? || r.Crashed? then Container else Host
  }

  /** The end every entry point shares: an error must find the way back, a success reports whether it did. */
  method LeaveNamespace(k: Kernel, ok: bool) returns (r: DriverResult)
    requires k.ns == Container
    modifies k`clock, k`ns
    ensures k.clock == old(k.clock) + 1
    ensures LeftIn(r, k.ns)
    ensures ok ==> r == if k.faults(old(k.clock)) then Stranded else Done
    ensures !ok ==> r == if k.faults(old(k.clock)) then Aborted else RolledBack
  {
    var back := k.EnterNamespace(Host);
    r := if ok then (if back then Done else Stranded) else (if back then RolledBack else Aborted);
  }

  /** The bind of device `i` is the first call of a nvc_driver_mount begun at `start` to fail. */
  ghost predicate BindFails(d: Driver, faults: nat -> bool, start: nat, i: nat) {
    FilesFit(d) && Loses(d, faults, start, start + 1 + FilesCalls(d), i)
  }

  /** Some device whose bind is the first call to fail had its target mounted on before. */
  ghost predicate DropsMount(d: Driver, faults: nat -> bool, start: nat, before: Table) {
    exists i: nat :: BindFails(d, faults, start, i) && DeviceTarget(d.devs[i]).value in Targets(before)
  }

  /**
   nvc_driver_mount.  Its result is decided by the arguments and by which of its
   calls is the first to fail; an undone call leaves every mount count as it was,
   plus the one bind in flight, unless it drops a mount.
   */
  method DriverMount(k: Kernel, d: Driver) returns (r: DriverResult, ghost left: Option<string>, ghost lost: Option<string>)
    requires ValidDriver(d) && k.ns == Host
    modifies k
    ensures LeftIn(r, k.ns) && !r.Crashed?
    ensures r.NotEntered? <==> k.faults(old(k.clock))
    ensures r.Done? <==> DriverFits(d) && NoFault(k.faults, old(k.clock), old(k.clock) + WayBack(d) + 1)
    ensures r.Stranded? <==> DriverFits(d) && FirstFault(k.faults, old(k.clock), old(k.clock) + WayBack(d))
    ensures r.Done? || r.Stranded? ==> k.table == old(k.table) + FullPlan(d)
    ensures r.NotEntered? ==> k.table == old(k.table) && k.rules == old(k.rules)
    ensures !r.NotEntered? ==> RulesSet(d, old(k.rules), k.rules, r.Done? || r.Stranded?)
    ensures r.Done? ==> k.ns == Host
    ensures r.RolledBack? || r.Aborted? ==>
              && Targets(k.table) == old(Targets(k.table)) + Single(left) - Single(lost)
              && (left.None? || lost.None?)
              && Accounted(d, left)
    ensures left == DriverLeft(d, k.faults, old(k.clock))
    ensures lost.Some? ==> exists i: nat :: BindFails(d, k.faults, old(k.clock), i) && DeviceTarget(d.devs[i]) == lost
    ensures forall i: nat :: BindFails(d, k.faults, old(k.clock), i) ==> DeviceTarget(d.devs[i]) == lost
    ensures r.RolledBack? || r.Aborted? ==>
              (old(Targets(k.table)) <= Targets(k.table) <==> !DropsMount(d, k.faults, old(k.clock), old(k.table)))
    ensures (r.RolledBack? || r.Aborted?) && !DropsMount(d, k.faults, old(k.clock), old(k.table)) ==>
              Targets(k.table) == old(Targets(k.table)) + Single(left)
  {
    hide DriverFits, FilesFit, FullPlan, FilesCalls, DevicesCalls, Targets, Accounted, Single, LossIs, DropsMount, Loses;
    hide DriverFlight, BindFails, RulesSet;
    left, lost := None, None;
    ghost var start, before := k.clock, k.table;
    var ok := k.EnterNamespace(Container);
    if !ok {
      NothingFailsLater(d, k.faults, start);
      return NotEntered, left, lost;
    }
    ok, left, lost := MountInside(k, d);
    if FilesFit(d) { LossShifts(d, k.faults, start, start + 1, start + 1 + FilesCalls(d), lost); }
    LossIsTold(d, k.faults, start, lost);
    if !ok { LossDrops(d, k.faults, start, before, left, lost); }
    r := LeaveNamespace(k, ok);
  }

  lemma NothingFailsLater(d: Driver, faults: nat -> bool, start: nat)
    requires faults(start)
    ensures forall i: nat :: !BindFails(d, faults, start, i)
  {
    hide DevicesCalls, FilesCalls, Reachable, FilesFit;
  }

  lemma LossIsTold(d: Driver, faults: nat -> bool, start: nat, lost: Option<string>)
    requires if FilesFit(d) then LossIs(d, faults, start, start + 1 + FilesCalls(d), lost) else lost.None?
    ensures lost.Some? ==> exists i: nat :: BindFails(d, faults, start, i) && DeviceTarget(d.devs[i]) == lost
    ensures forall i: nat :: BindFails(d, faults, start, i) ==> DeviceTarget(d.devs[i]) == lost
  {
    hide FilesCalls, FilesFit, FirstFault, BindAt, DevicesFit, DeviceFits, Bound, DeviceTarget, Destination;
    if lost.Some? {
      var base := start + 1 + FilesCalls(d);
      var i: nat :| Loses(d, faults, start, base, i) && DeviceTarget(d.devs[i]) == lost;
      assert BindFails(d, faults, start, i);
    }
  }

  /** What a loss means for the counts. */
  lemma LossDrops(d: Driver, faults: nat -> bool, start: nat, before: Table, left: Option<string>, lost: Option<string>)
    requires if FilesFit(d) then LossIs(d, faults, start, start + 1 + FilesCalls(d), lost) else lost.None?
    requires left.None? || lost.None?
    ensures Targets(before) <= Targets(before) + Single(left) - Single(lost) <==> !DropsMount(d, faults, start, before)
    ensures !DropsMount(d, faults, start, before) ==>
              Targets(before) + Single(left) - Single(lost) == Targets(before) + Single(left)
  {
    hide FilesFit, FilesCalls, DevicesCalls, DevicesFit, JoinPaths, FirstFault, BindAt, Targets, DeviceTarget;
    var t := Targets(before);
    assert DropsMount(d, faults, start, before) <==> lost.Some? && lost.value in t;
    if lost.Some? && lost.value in t { assert (t + Single(left) - Single(lost))[lost.value] < t[lost.value]; }
  }

  /**
   Over every schedule of failures: no call of nvc_driver_mount can drop a mount,
   exactly if no device it gets to bind has its target mounted on at entry.
   */
  lemma SafeUnderEverySchedule(d: Driver, start: nat, before: Table)
    ensures (forall faults: nat -> bool :: !DropsMount(d, faults, start, before)) <==>
              !FilesFit(d) || forall i: nat :: Reachable(d, i) ==> DeviceTarget(d.devs[i]).value !in Targets(before)
  {
    hide FilesFit, FilesCalls, DevicesCalls, DevicesFit, JoinPaths, DeviceTarget, Targets;
    if i: nat :| FilesFit(d) && Reachable(d, i) && DeviceTarget(d.devs[i]).value in Targets(before) {
      var at := BindAt(d, start + 1 + FilesCalls(d), i);
      var faults := (n: nat) => n == at;
      assert BindFails(d, faults, start, i);
      assert DropsMount(d, faults, start, before);
    }
  }

  /** Such a run: any device whose target is mounted on loses that mount when its bind, and nothing before, fails. */
  method LoseMount(d: Driver, i: nat, table: Table) returns (k: Kernel, r: DriverResult)
    requires ValidDriver(d) && FilesFit(d) && Reachable(d, i) && DeviceTarget(d.devs[i]).value in Targets(table)
    ensures r.RolledBack? || r.Aborted?
    ensures Targets(k.table) == Targets(table) - multiset{DeviceTarget(d.devs[i]).value}
  {
    hide FilesFit, FilesCalls, DevicesCalls, DeviceTarget, Targets, DriverFits, Accounted, BindFails, BindAt, WayBack, DropsMount;
    var at := BindAt(d, 1 + FilesCalls(d), i);
    k := new Kernel((n: nat) => n == at, table);
    ghost var left, lost;
    ReachableHasTarget(d, i);
    assert Targets(table) + multiset{} == Targets(table);
    OnlyBindFails(d, k.faults, i, table);
    hide Reachable;
    r, left, lost := DriverMount(k, d);
  }

  /** No file to mount, and one device node. */
  ghost function OneDevice(view: View): Driver {
    var none := Group(false, "/", view, "/", []);
    var flags := Flags(false, false, false, false, false, false, false, false, false);
    Driver(none, none, none, none, 0, "/", [Device("/d", NV_DEVICE_MAJOR, 0, view, true)], 0, 0, false, flags)
  }

  /** A smallest input on which LoseMount runs: its device is reached, and its target may be mounted on. */
  lemma OneDeviceCanLose()
    ensures ValidSight(EMPTY_ROOT)
    ensures var d := OneDevice(EMPTY_ROOT);
            ValidDriver(d) && FilesFit(d) && Reachable(d, 0) && DeviceTarget(d.devs[0]) == Some("/c/d")
  {
    hide Destination;
    assert Render(["d"]) == "/d" by { assert ["d"][..0] == []; }
    EmptyRootResolves(["d"]);
    assert "/c" + "/d" == "/c/d";
    var d := OneDevice(EMPTY_ROOT);
    assert JoinPaths("/", "/d").Some?;
    assert d.devs[..0] == [];
  }

  lemma ReachableHasTarget(d: Driver, i: nat)
    requires Reachable(d, i)
    ensures i < |d.devs| && DeviceTarget(d.devs[i]).Some?
  {
  }

  /** The schedule in which only the bind of device `i` fails. */
  lemma OnlyBindFails(d: Driver, faults: nat -> bool, i: nat, table: Table)
    requires FilesFit(d) && Reachable(d, i) && DeviceTarget(d.devs[i]).value in Targets(table)
    requires forall n: nat :: faults(n) <==> n == BindAt(d, 1 + FilesCalls(d), i)
    ensures BindFails(d, faults, 0, i) && DropsMount(d, faults, 0, table)
    ensures !faults(0) && !NoFault(faults, 0, WayBack(d)) && !FirstFault(faults, 0, WayBack(d))
    ensures forall j: nat :: BindFails(d, faults, 0, j) ==> j == i
  {
    hide FilesFit, FilesCalls, DevicesCalls, DevicesFit, DeviceFits, Targets, DeviceTarget;
    var base := 1 + FilesCalls(d);
    DevicesCallsOfPush(d.devs, i, d.dxcore, d.flags);
    DevicesCallsGrow(d.devs, i + 1, |d.devs|, d.dxcore, d.flags);
    assert d.devs[..|d.devs|] == d.devs;
    assert BindFails(d, faults, 0, i);
    forall j: nat | BindFails(d, faults, 0, j)
      ensures j == i
    {
      BindsApart(d, base, i, j, BindAt(d, base, j));
    }
  }

  lemma NothingLeft(before: Table)
    ensures Targets(before) + Single(None) - Single(None) == Targets(before)
  {
  }

  lemma NothingRecorded(k: Kernel, mnt: array<Option<string>>, before: Table)
    requires k.table == before && forall i :: 0 <= i < mnt.Length ==> mnt[i] == None
    ensures Recorded(k, mnt, before, [])
  {
  }

  lemma RecordedTable(k: Kernel, mnt: array<Option<string>>, before: Table, made: Table)
    requires Recorded(k, mnt, before, made)
    ensures k.table == before + made
  {
  }

  lemma PartialFacts(k: Kernel, mnt: array<Option<string>>, before: Table, made: Table, left: Option<string>, lost: Option<string>)
    requires Partial(k, mnt, before, made, left, lost)
    ensures Targets(k.table) == Targets(before) + Single(left) + Targets(made) - Single(lost)
    ensures |made| <= mnt.Length && Ledger(TargetList(made), mnt[..])
    ensures forall i :: 0 <= i < |made| ==> made[i].target != ""
    ensures left.None? || lost.None?
  {
  }

  // ---------------------------------------------------------------------
  // Which devices, and how
  // ---------------------------------------------------------------------

  /** The devices a call deals with. */
  ghost function WantedDevices(devs: seq<Device>, dxcore: bool, flags: Flags): seq<Device> {
    if devs == [] then []
    else
      var init, d := WantedDevices(devs[..|devs| - 1], dxcore, flags), devs[|devs| - 1];
      if Wanted(d, dxcore, flags) then init + [d] else init
  }

  /** The devices without the modeset device. */
  ghost function WithoutModeset(devs: seq<Device>): seq<Device> {
    if devs == [] then []
    else
      var init, d := WithoutModeset(devs[..|devs| - 1]), devs[|devs| - 1];
      if d.minor == 254 then init else init + [d]
  }

  /** The GPU devices only. */
  ghost function GpusOnly(devs: seq<Device>): seq<Device> {
    if devs == [] then []
    else
      var init, d := GpusOnly(devs[..|devs| - 1]), devs[|devs| - 1];
      if d.major == 226 then init + [d] else init
  }

  /** Under dxcore, or with both options on, every device is wanted. */
  lemma {:induction false} AllAreWanted(devs: seq<Device>, dxcore: bool, flags: Flags)
    requires dxcore || (flags.computeLibs && flags.display)
    ensures WantedDevices(devs, dxcore, flags) == devs
  {
    hide WantedDevices, Wanted;
    NothingOfNone("", dxcore, flags);
    if devs != [] {
      var init, d := devs[..|devs| - 1], devs[|devs| - 1];
      assert devs == init + [d];
      AllAreWanted(init, dxcore, flags);
      OneIsWanted(d, dxcore, flags);
      WantedOfPush(init, d, dxcore, flags);
    }
  }

  lemma OneIsWanted(d: Device, dxcore: bool, flags: Flags)
    requires dxcore || (flags.computeLibs && flags.display)
    ensures Wanted(d, dxcore, flags)
  {
  }

  /** The display option adds the modeset device and nothing else; without it that device is never wanted. */
  lemma {:induction false} DisplayAddsModeset(devs: seq<Device>, flags: Flags)
    requires !flags.display
    ensures WantedDevices(devs, false, flags) == WantedDevices(WithoutModeset(devs), false, flags.(display := true))
    ensures forall i :: 0 <= i < |WantedDevices(devs, false, flags)| ==> WantedDevices(devs, false, flags)[i].minor != 254
  {
    if devs != [] {
      var init, d := devs[..|devs| - 1], devs[|devs| - 1];
      DisplayAddsModeset(init, flags);
      if d.minor != 254 { WantedOfPush(WithoutModeset(init), d, false, flags.(display := true)); }
    }
  }

  /** The compute option adds the devices that are no GPU and nothing else; without it no such device is wanted. */
  lemma {:induction false} ComputeAddsOthers(devs: seq<Device>, flags: Flags)
    requires !flags.computeLibs
    ensures WantedDevices(devs, false, flags) == WantedDevices(GpusOnly(devs), false, flags.(computeLibs := true))
    ensures forall i :: 0 <= i < |WantedDevices(devs, false, flags)| ==> WantedDevices(devs, false, flags)[i].major == 226
  {
    if devs != [] {
      var init, d := devs[..|devs| - 1], devs[|devs| - 1];
      ComputeAddsOthers(init, flags);
      if d.major == 226 { WantedOfPush(GpusOnly(init), d, false, flags.(computeLibs := true)); }
    }
  }

  lemma WantedOfPush(devs: seq<Device>, d: Device, dxcore: bool, flags: Flags)
    ensures WantedDevices(devs + [d], dxcore, flags) ==
              WantedDevices(devs, dxcore, flags) + if Wanted(d, dxcore, flags) then [d] else []
  {
    assert (devs + [d])[..|devs|] == devs;
  }

  /** The plan and the rules are those of the wanted devices, each unless its option is off. */
  lemma WantedAreMounted(d: Driver, devs: seq<Device>)
    ensures DevicePlan(d.root, devs, d.dxcore, d.flags) ==
              if d.flags.noDevbind then [] else MountsOf(d.root, WantedDevices(devs, d.dxcore, d.flags))
    ensures DeviceRules(d, devs) ==
              if d.flags.noCgroups then [] else IdsOf(WantedDevices(devs, d.dxcore, d.flags))
  {
    hide DevicePlan, DeviceRules, MountsOf, IdsOf, WantedDevices;
    PlanOfWanted(d.root, devs, d.dxcore, d.flags);
    RulesOfWanted(d, devs);
  }

  lemma {:induction false} PlanOfWanted(root: string, devs: seq<Device>, dxcore: bool, flags: Flags)
    ensures DevicePlan(root, devs, dxcore, flags) ==
              if flags.noDevbind then [] else MountsOf(root, WantedDevices(devs, dxcore, flags))
    decreases |devs|
  {
    hide DeviceMount, DeviceTarget, Wanted, WantedDevices, MountsOf, IdsOf;
    NothingOfNone(root, dxcore, flags);
    if devs != [] {
      var init, dev := devs[..|devs| - 1], devs[|devs| - 1];
      assert init + [dev] == devs;
      PlanOfWanted(root, init, dxcore, flags);
      WantedOfPush(init, dev, dxcore, flags);
      MountsOfPush(root, WantedDevices(init, dxcore, flags), dev);
      assert WantedDevices(init, dxcore, flags) + [] == WantedDevices(init, dxcore, flags);
    }
  }

  lemma {:induction false} RulesOfWanted(d: Driver, devs: seq<Device>)
    ensures DeviceRules(d, devs) == if d.flags.noCgroups then [] else IdsOf(WantedDevices(devs, d.dxcore, d.flags))
    decreases |devs|
  {
    hide Wanted, WantedDevices, MountsOf, IdsOf;
    NothingOfNone(d.root, d.dxcore, d.flags);
    if devs != [] {
      var init, dev := devs[..|devs| - 1], devs[|devs| - 1];
      assert init + [dev] == devs;
      RulesOfWanted(d, init);
      WantedOfPush(init, dev, d.dxcore, d.flags);
      MountsOfPush(d.root, WantedDevices(init, d.dxcore, d.flags), dev);
      assert WantedDevices(init, d.dxcore, d.flags) + [] == WantedDevices(init, d.dxcore, d.flags);
    }
  }

  lemma NothingOfNone(root: string, dxcore: bool, flags: Flags)
    ensures WantedDevices([], dxcore, flags) == [] && MountsOf(root, []) == [] && IdsOf([]) == []
  {
  }

  /** The mounts of devices that resolve, in order. */
  ghost function MountsOf(root: string, devs: seq<Device>): Table {
    if devs == [] then []
    else
      var init, d := MountsOf(root, devs[..|devs| - 1]), devs[|devs| - 1];
      if DeviceTarget(d).Some? then init + [DeviceMount(root, d)] else init
  }

  ghost function IdsOf(devs: seq<Device>): (ids: seq<DeviceId>)
    ensures |ids| == |devs| && forall i :: 0 <= i < |devs| ==> ids[i] == DeviceId(devs[i].major, devs[i].minor)
  {
    seq(|devs|, i requires 0 <= i < |devs| => DeviceId(devs[i].major, devs[i].minor))
  }

  lemma MountsOfPush(root: string, devs: seq<Device>, d: Device)
    ensures MountsOf(root, devs + [d]) == MountsOf(root, devs) + if DeviceTarget(d).Some? then [DeviceMount(root, d)] else []
    ensures IdsOf(devs + [d]) == IdsOf(devs) + [IdOf(d)]
  {
    hide DeviceMount, DeviceTarget;
    assert (devs + [d])[..|devs|] == devs;
  }

  /** A device is mounted from its path below the root onto its resolved place, usable but read-only, without programs. */
  lemma DeviceMountLeads(root: string, d: Device)
    requires DeviceTarget(d).Some?
    ensures var m := DeviceMount(root, d);
            && Components(m.source) == Components(root) + Components(d.path)
            && Destination(d.view, d.path) == Some(m.target)
            && m.flags == {ReadOnly, NoSuid, NoExec}
  {
    hide Components, Joined, Destination;
    JoinConcatenates("", root);
    ComponentsAt("", 0);
    assert [] + Components(root) == Components(root);
    JoinConcatenates(Joined("", root), d.path);
  }

  /** Options that say nothing about files leave a group's plan as it is. */
  lemma GroupPlanIgnores(g: Group, f: Flags, h: Flags)
    requires f == h.(display := f.display, noDevbind := f.noDevbind, noCgroups := f.noCgroups, compat32 := f.compat32)
    ensures GroupPlan(g, f) == GroupPlan(g, h)
  {
    hide Plan, Destination, Joined, Basename, MatchPrefix;
    if g.enabled && GroupTarget(g).Some? {
      SameSelectionSamePlan(Joined("", g.root), GroupTarget(g).value, g.paths, ByFlags(f), ByFlags(h));
    }
  }

  /** Over the whole call: without the display option the plan is that of the other devices with it. */
  lemma PlanWithoutDisplay(d: Driver)
    requires !d.dxcore && !d.flags.display
    ensures FullPlan(d) == FullPlan(d.(devs := WithoutModeset(d.devs), flags := d.flags.(display := true)))
  {
    hide GroupPlan, DevicePlan, WantedDevices, MountsOf;
    var f := d.flags.(display := true);
    var e := d.(devs := WithoutModeset(d.devs), flags := f);
    GroupPlanIgnores(d.bins, d.flags, f);
    GroupPlanIgnores(d.libs, d.flags, f);
    GroupPlanIgnores(d.libs32, d.flags, f);
    GroupPlanIgnores(d.cntLibs, d.flags, f);
    DisplayAddsModeset(d.devs, d.flags);
    WantedAreMounted(d, d.devs);
    WantedAreMounted(e, e.devs);
  }

  /** Over the whole call: without the compute option the devices planned are the GPUs with it. */
  lemma DevicesWithoutCompute(d: Driver)
    requires !d.dxcore && !d.flags.computeLibs
    ensures DevicePlan(d.root, d.devs, false, d.flags) == DevicePlan(d.root, GpusOnly(d.devs), false, d.flags.(computeLibs := true))
  {
    hide DevicePlan, WantedDevices, MountsOf;
    ComputeAddsOthers(d.devs, d.flags);
    WantedAreMounted(d, d.devs);
    WantedAreMounted(d.(flags := d.flags.(computeLibs := true)), GpusOnly(d.devs));
  }

  /** The 32-bit libraries are mounted exactly with their option; no device is bound without binding, and none ruled without cgroups. */
  lemma OptionsSwitchOff(d: Driver)
    requires ValidDriver(d)
    ensures !d.flags.compat32 ==> GroupPlan(d.libs32, d.flags) == []
    ensures d.flags.compat32 && d.libs32.paths != [] ==> d.libs32.enabled
    ensures d.flags.noDevbind ==> DevicePlan(d.root, d.devs, d.dxcore, d.flags) == []
    ensures d.flags.noCgroups ==> DeviceRules(d, d.devs) == []
  {
    hide DevicePlan, DeviceRules, WantedDevices, MountsOf;
    WantedAreMounted(d, d.devs);
  }

  /** The order of the mounts: binaries, libraries, 32-bit libraries, the container's libraries, devices. */
  lemma PlanOrder(d: Driver)
    ensures FullPlan(d) == GroupPlan(d.bins, d.flags) + GroupPlan(d.libs, d.flags) + GroupPlan(d.libs32, d.flags)
                           + GroupPlan(d.cntLibs, d.flags) + DevicePlan(d.root, d.devs, d.dxcore, d.flags)
  {
    hide GroupPlan, DevicePlan;
  }

  /** A node without the expected device number is never mounted, nor one whose paths are too long or do not resolve. */
  lemma MisfitsAreRefused(root: string, d: Device)
    ensures !d.genuine || JoinPaths(root, d.path).None? || Destination(d.view, d.path).None? ==> !DeviceFits(root, d)
    ensures d.genuine && JoinPaths(root, d.path).Some? && Destination(d.view, d.path).Some? ==> DeviceFits(root, d)
  {
    hide JoinPaths, Destination;
  }
}
