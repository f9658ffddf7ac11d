/**
 nvc_device_mount (src/nvc_mount.c): a native device with what belongs to it, or
 the driver store under WSL.  The native cleanup covers the node and the loader
 configuration only.  What a failed call leaves behind and what it unmounts
 without having mounted it are functions of its arguments and of the calls that
 fail, the first call of the entry point being number `start`.
 */
module DeviceMounts {
  import opened CStrings
  import opened Paths
  import opened Libraries
  import opened Schedules
  import opened MountTable
  import opened Destinations
  import opened FileMounts
  import opened DriverMount
  import opened PathMounts

  const LD_CONFIG_DIR := "/etc/ld.so.conf.d"
  const SMI_FRONT_DIR := "/usr/lib/python3/dist-packages/xdxsmi"

  /** What device_mount_native is asked for: the node, and the library directory with what the search in it found. */
  datatype Native = Native(
    root: string, node: Device, config: View, front: View, view: View, dir: string, libs: seq<string>, flags: Flags)

  // ---------------------------------------------------------------------
  // The node and the loader configuration, which a failed call undoes
  // ---------------------------------------------------------------------

  predicate RecordedFits(n: Native) {
    CapFits(n.root, n.node, n.flags) && PathFits(n.root, n.config, LD_CONFIG_DIR)
  }

  function RecordedPlan(n: Native): Table
    requires RecordedFits(n)
  {
    CapPlan(n.root, n.node, n.flags) + [PathMount(n.root, n.config, LD_CONFIG_DIR, FILE_FLAGS)]
  }

  /** The search and the node. */
  function NodeCalls(n: Native): nat { 1 + if n.flags.noDevbind then 0 else DEVICE_CALLS }

  function RecordedCalls(n: Native): nat { NodeCalls(n) + PATH_CALLS }

  ghost predicate RecordedDone(n: Native, faults: nat -> bool, t: nat) {
    RecordedFits(n) && NoFault(faults, t, t + RecordedCalls(n))
  }

  ghost function RecordedLoss(n: Native, faults: nat -> bool, t: nat): Option<string> {
    if CapFits(n.root, n.node, n.flags) && NoFault(faults, t, t + NodeCalls(n))
    then PathLoss(n.root, n.config, LD_CONFIG_DIR, faults, t + NodeCalls(n))
    else CapLoss(n.root, n.node, n.flags, faults, t)
  }

  /** The search for libraries and the node. */
  method MountNode(k: Kernel, n: Native) returns (ok: bool, dev: Option<string>, ghost lost: Option<string>)
    modifies k`clock, k`table
    ensures old(k.clock) <= k.clock <= old(k.clock) + NodeCalls(n) && (ok ==> k.clock == old(k.clock) + NodeCalls(n))
    ensures ok <==> k.Clean(old(k.clock)) && CapFits(n.root, n.node, n.flags)
    ensures ok ==> k.table == old(k.table) + CapPlan(n.root, n.node, n.flags)
    ensures ok ==> dev == if n.flags.noDevbind then None else DeviceTarget(n.node)
    ensures ok ==> Undone(old(k.table), k.table, Single(dev), None)
    ensures !ok ==> dev.None? && Undone(old(k.table), k.table, Single(None), lost)
    ensures lost == CapLoss(n.root, n.node, n.flags, k.faults, old(k.clock)) && (ok ==> lost.None?)
    ensures dev.Some? ==> dev.value != ""
  {
    hide Undone, Single, Detach, DeviceTarget, DeviceFits;
    dev, lost := None, None;
    ghost var before := k.table;
    UndoneNothing(before);
    assert before + [] == before;
    ok := k.Attempt();                // library_search_in_dir
    if !ok || n.flags.noDevbind {
      return;
    }
    dev, lost := MountDevice(k, n.root, n.node);
    ok := dev.Some?;
    if ok {
      TargetIsNamed(n.node);
      UndonePush(before, DeviceMount(n.root, n.node));
    } else if lost.Some? {
      UndoneDetach(before, before, Single(None), lost.value);
    }
  }

  method MountRecorded(k: Kernel, n: Native)
    returns (ok: bool, dev: Option<string>, config: Option<string>, ghost lost: Option<string>)
    modifies k`clock, k`table
    ensures old(k.clock) <= k.clock <= old(k.clock) + RecordedCalls(n) && (ok ==> k.clock == old(k.clock) + RecordedCalls(n))
    ensures ok <==> k.Clean(old(k.clock)) && RecordedFits(n)
    ensures ok ==> k.table == old(k.table) + RecordedPlan(n)
    ensures ok ==> Targets(RecordedPlan(n)) == Single(config) + Single(dev)
    ensures !ok ==> Undone(old(k.table), k.table, Single(dev), lost) && config.None?
    ensures lost == RecordedLoss(n, k.faults, old(k.clock))
    ensures (dev.Some? ==> dev.value != "") && (config.Some? ==> config.value != "")
  {
    hide Targets, Undone, Single, Destination, JoinPaths, CapFits, CapPlan, CapLoss, PathFits, PathLoss, PathMount;
    ghost var before := k.table;
    config := None;
    ok, dev, lost := MountNode(k, n);
    if !ok {
      return;
    }
    ghost var first := k.table;
    config, lost := MountPath(k, n.root, n.config, LD_CONFIG_DIR, FILE_FLAGS);
    ok := config.Some?;
    if ok {
      NamedTarget(n.config, LD_CONFIG_DIR);
      ghost var c := PathMount(n.root, n.config, LD_CONFIG_DIR, FILE_FLAGS);
      assert before + (CapPlan(n.root, n.node, n.flags) + [c]) == first + [c];
      RecordedTargets(n);
    } else {
      UndoneTwice(before, first, k.table, Single(dev), lost);
    }
  }

  /** What a step added, and then what the next one lost. */
  lemma UndoneTwice(before: Table, first: Table, now: Table, left: multiset<string>, lost: Option<string>)
    requires Undone(before, first, left, None) && Undone(first, now, Single(None), lost)
    ensures Undone(before, now, left, lost)
  {
    hide Targets;
    assert Targets(before) + left - Single(None) == Targets(before) + left;
    assert Targets(first) + Single(None) == Targets(first);
  }

  lemma RecordedTargets(n: Native)
    requires RecordedFits(n)
    ensures Targets(RecordedPlan(n))
            == Single(Destination(n.config, LD_CONFIG_DIR)) + Single(if n.flags.noDevbind then None else DeviceTarget(n.node))
  {
    hide Targets, Destination, JoinPaths;
    var c := PathMount(n.root, n.config, LD_CONFIG_DIR, FILE_FLAGS);
    TargetsOfPush(CapPlan(n.root, n.node, n.flags), c);
    if n.flags.noDevbind {
      TargetsOfNothing();
    } else {
      TargetsOfOne(DeviceMount(n.root, n.node));
    }
  }

  // ---------------------------------------------------------------------
  // The front end and the dri libraries, which it does not
  // ---------------------------------------------------------------------

  predicate FrontFits(n: Native) { n.flags.utilityLibs ==> PathFits(n.root, n.front, SMI_FRONT_DIR) }

  function FrontPlan(n: Native): Table {
    if n.flags.utilityLibs && PathFits(n.root, n.front, SMI_FRONT_DIR)
    then [PathMount(n.root, n.front, SMI_FRONT_DIR, FILE_FLAGS)] else []
  }

  function ProfileCalls(n: Native): nat { if n.flags.graphicsLibs then 1 else 0 }

  function FrontCalls(n: Native): nat { ProfileCalls(n) + if n.flags.utilityLibs then PATH_CALLS else 0 }

  ghost predicate FrontDone(n: Native, faults: nat -> bool, t: nat) {
    FrontFits(n) && NoFault(faults, t, t + FrontCalls(n))
  }

  ghost function FrontLoss(n: Native, faults: nat -> bool, t: nat): Option<string> {
    if n.flags.utilityLibs && NoFault(faults, t, t + ProfileCalls(n))
    then PathLoss(n.root, n.front, SMI_FRONT_DIR, faults, t + ProfileCalls(n)) else None
  }

  /** The profile and the front end of xdxsmi. */
  method MountFront(k: Kernel, n: Native) returns (ok: bool, ghost lost: Option<string>)
    modifies k`clock, k`table
    ensures old(k.clock) <= k.clock <= old(k.clock) + FrontCalls(n) && (ok ==> k.clock == old(k.clock) + FrontCalls(n))
    ensures ok <==> k.Clean(old(k.clock)) && FrontFits(n)
    ensures ok ==> k.table == old(k.table) + FrontPlan(n)
    ensures !ok ==> Undone(old(k.table), k.table, Single(None), lost)
    ensures lost == FrontLoss(n, k.faults, old(k.clock)) && (ok ==> lost.None?)
  {
    hide Undone, Single, PathFits, PathLoss, PathMount, Destination;
    lost := None;
    ghost var before := k.table;
    UndoneNothing(before);
    assert before + [] == before;
    if n.flags.graphicsLibs {
      ok := k.Attempt();              // update_app_profile
      if !ok {
        return;
      }
    }
    ok := true;
    if n.flags.utilityLibs {
      var mnt;
      mnt, lost := MountPath(k, n.root, n.front, SMI_FRONT_DIR, FILE_FLAGS);
      ok := mnt.Some?;
    }
  }

  predicate WantsDris(n: Native) { n.flags.videoLibs || n.flags.graphicsLibs }

  function DrisSource(n: Native): string { Joined("", n.root) }

  ghost predicate DrisFit(n: Native) {
    WantsDris(n) ==>
      |DrisSource(n)| < PATH_MAX && PlanFits(DrisSource(n), Destination(n.view, n.dir), n.libs, ByFlags(n.flags))
  }

  function DrisPlan(n: Native): Table {
    if WantsDris(n) && Destination(n.view, n.dir).Some?
    then Plan(DrisSource(n), Destination(n.view, n.dir).value, n.libs, ByFlags(n.flags)) else []
  }

  function DrisCalls(n: Native): nat {
    if WantsDris(n) then MountCalls(DrisSource(n), Destination(n.view, n.dir), n.libs, ByFlags(n.flags)) else 0
  }

  ghost predicate DrisDone(n: Native, faults: nat -> bool, t: nat) {
    DrisFit(n) && NoFault(faults, t, t + DrisCalls(n))
  }

  ghost function DrisFlight(n: Native, faults: nat -> bool, t: nat): Option<string> {
    if !WantsDris(n) || |DrisSource(n)| >= PATH_MAX then None
    else MountFlight(DrisSource(n), Destination(n.view, n.dir), n.libs, ByFlags(n.flags), faults, t)
  }

  /** The dri libraries, if wanted. */
  method MountDris(k: Kernel, n: Native) returns (ok: bool, ghost left: Option<string>)
    modifies k`clock, k`table
    ensures old(k.clock) <= k.clock <= old(k.clock) + DrisCalls(n) && (ok ==> k.clock == old(k.clock) + DrisCalls(n))
    ensures ok <==> k.Clean(old(k.clock)) && DrisFit(n)
    ensures ok ==> k.table == old(k.table) + DrisPlan(n)
    ensures !ok ==> Undone(old(k.table), k.table, Single(left), None)
    ensures left == DrisFlight(n, k.faults, old(k.clock))
  {
    hide Targets, Single, Destination, PlanFits, Plan, MountFlight, MountCalls, Joined;
    left := None;
    assert k.table + [] == k.table;
    if !WantsDris(n) {
      return true, left;
    }
    ghost var before := k.table;
    var mnt;
    mnt, left := MountFiles(k, n.root, n.view, n.dir, n.libs, n.flags);
    ok := mnt != null;
    PlusNothing(before, Single(left));
  }

  lemma PlusNothing(before: Table, left: multiset<string>)
    ensures Targets(before) + left - Single(None) == Targets(before) + left
  {
  }

  ghost predicate KeptFits(n: Native) { FrontFits(n) && DrisFit(n) }

  function KeptPlan(n: Native): Table { FrontPlan(n) + DrisPlan(n) }

  function RuleCalls(n: Native): nat { if n.flags.noCgroups then 0 else 1 }

  function KeptCalls(n: Native): nat { FrontCalls(n) + DrisCalls(n) + RuleCalls(n) }

  ghost predicate KeptDone(n: Native, faults: nat -> bool, t: nat) {
    KeptFits(n) && NoFault(faults, t, t + KeptCalls(n))
  }

  /** What stays when one of these steps fails; the first call for them is number `t`. */
  ghost function KeptLeft(n: Native, faults: nat -> bool, t: nat): multiset<string> {
    if KeptDone(n, faults, t) || !FrontDone(n, faults, t) then multiset{}
    else
      Targets(FrontPlan(n))
      + (if DrisDone(n, faults, t + FrontCalls(n)) then Targets(DrisPlan(n))
         else Single(DrisFlight(n, faults, t + FrontCalls(n))))
  }

  /** The profile, the front end, the dri libraries and the device rule: what was mounted stays when a step fails. */
  method MountKept(k: Kernel, n: Native) returns (ok: bool, ghost lost: Option<string>)
    modifies k`clock, k`table, k`rules
    ensures k.rules == old(k.rules) + if ok then CapRules(n.node, n.flags) else []
    ensures old(k.clock) <= k.clock <= old(k.clock) + KeptCalls(n) && (ok ==> k.clock == old(k.clock) + KeptCalls(n))
    ensures ok <==> k.Clean(old(k.clock)) && KeptFits(n)
    ensures ok ==> k.table == old(k.table) + KeptPlan(n)
    ensures !ok ==> Undone(old(k.table), k.table, KeptLeft(n, k.faults, old(k.clock)), lost)
    ensures lost == FrontLoss(n, k.faults, old(k.clock))
  {
    hide Targets, Undone, Single, DrisFit, DrisPlan, DrisCalls, DrisFlight, FrontPlan, FrontFits, FrontCalls, FrontLoss;
    ghost var before := k.table;
    assert k.rules + [] == k.rules;
    NothingIsEmpty();
    ok, lost := MountFront(k, n);
    if !ok {
      return;
    }
    ghost var left;
    ok, left := MountDris(k, n);
    if !ok {
      Prepend(before, FrontPlan(n), k.table, Single(left));
      return;
    }
    ConcatAssociates(before, FrontPlan(n), DrisPlan(n));
    TargetsOfConcat(FrontPlan(n), DrisPlan(n));
    if !n.flags.noCgroups {
      ok := k.Allow(IdOf(n.node));    // setup_device_cgroup
      UndoneAdded(before, KeptPlan(n));
    }
  }

  lemma NothingIsEmpty()
    ensures Single(None) == multiset{}
  {
  }

  lemma Prepend(before: Table, a: Table, now: Table, left: multiset<string>)
    requires Undone(before + a, now, left, None)
    ensures Undone(before, now, Targets(a) + left, None)
  {
    hide Targets;
    TargetsOfConcat(before, a);
  }

  lemma UndoneAdded(before: Table, t: Table)
    ensures Undone(before, before + t, Targets(t), None)
  {
    hide Targets;
    TargetsOfConcat(before, t);
  }

  // ---------------------------------------------------------------------
  // device_mount_native
  // ---------------------------------------------------------------------

  ghost predicate NativeFits(n: Native) { RecordedFits(n) && KeptFits(n) }

  function NativeCalls(n: Native): nat { RecordedCalls(n) + KeptCalls(n) }

  ghost function NativeLeft(n: Native, faults: nat -> bool, t: nat): multiset<string> {
    if RecordedDone(n, faults, t) then KeptLeft(n, faults, t + RecordedCalls(n)) else multiset{}
  }

  ghost function NativeLoss(n: Native, faults: nat -> bool, t: nat): Option<string> {
    if RecordedDone(n, faults, t) then FrontLoss(n, faults, t + RecordedCalls(n)) else RecordedLoss(n, faults, t)
  }

  /** device_mount_native */
  method MountNative(k: Kernel, n: Native) returns (ok: bool)
    modifies k`clock, k`table, k`rules
    ensures k.rules == old(k.rules) + if ok then CapRules(n.node, n.flags) else []
    ensures old(k.clock) <= k.clock <= old(k.clock) + NativeCalls(n) && (ok ==> k.clock == old(k.clock) + NativeCalls(n))
    ensures ok <==> k.Clean(old(k.clock)) && NativeFits(n)
    ensures ok ==> k.table == old(k.table) + (RecordedPlan(n) + KeptPlan(n))
    ensures !ok ==> Undone(old(k.table), k.table, NativeLeft(n, k.faults, old(k.clock)), NativeLoss(n, k.faults, old(k.clock)))
  {
    hide Targets, Undone, Single, RecordedFits, RecordedCalls, RecordedLoss, RecordedPlan;
    hide KeptFits, KeptPlan, KeptCalls, KeptLeft, FrontLoss, CapRules;
    assert k.rules + [] == k.rules;
    ghost var before := k.table;
    ghost var left := multiset{};
    ghost var lost;
    var dev, config;
    ok, dev, config, lost := MountRecorded(k, n);
    if ok {
      ghost var first, t := k.table, k.clock;
      TargetsOfConcat(before, RecordedPlan(n));
      ok, lost := MountKept(k, n);
      if ok {
        ConcatAssociates(before, RecordedPlan(n), KeptPlan(n));
      } else {
        left := KeptLeft(n, k.faults, t);
        KeptFails(before, first, k.table, left, config, dev, lost);
      }
    } else {
      FirstFails(before, k.table, dev, lost);
    }
    if !ok {
      UndoTwo(k, config, dev, before, left, lost);
    }
  }

  lemma KeptFails(before: Table, first: Table, now: Table, left: multiset<string>, a: Option<string>, b: Option<string>, lost: Option<string>)
    requires Targets(first) == Targets(before) + (Single(a) + Single(b)) && Undone(first, now, left, lost)
    ensures Targets(now) == Targets(before) + left + (Single(a) + Single(b)) - Single(lost)
  {
    hide Targets;
    assert Targets(before) + (Single(a) + Single(b)) + left == Targets(before) + left + (Single(a) + Single(b));
  }

  // ---------------------------------------------------------------------
  // nvc_device_mount
  // ---------------------------------------------------------------------

  /** The files of one driver store directory. */
  datatype Store = Store(root: string, view: View, path: string, files: seq<string>)

  ghost predicate StoreFits(s: Store) {
    JoinPaths(s.root, s.path).Some? && PlanFits(JoinPaths(s.root, s.path).value, Destination(s.view, s.path), s.files, Everything)
  }

  ghost function StoreFlight(s: Store, faults: nat -> bool, t: nat): Option<string> {
    if JoinPaths(s.root, s.path).None? then None
    else MountFlight(JoinPaths(s.root, s.path).value, Destination(s.view, s.path), s.files, Everything, faults, t)
  }

  /** What nvc_device_mount mounts: the driver store under WSL, otherwise the native device. */
  datatype Request = OfStore(store: Store) | OfNative(native: Native)

  ghost predicate RequestFits(q: Request) {
    match q
    case OfStore(s) => StoreFits(s)
    case OfNative(n) => NativeFits(n)
  }

  ghost function RequestPlan(q: Request): Table
    requires RequestFits(q)
  {
    match q
    case OfStore(s) => Plan(JoinPaths(s.root, s.path).value, Destination(s.view, s.path).value, s.files, Everything)
    case OfNative(n) => RecordedPlan(n) + KeptPlan(n)
  }

  /** The driver store needs no rule. */
  function RequestRules(q: Request): seq<DeviceId> {
    match q
    case OfStore(_) => []
    case OfNative(n) => CapRules(n.node, n.flags)
  }

  function RequestCalls(q: Request): nat {
    match q
    case OfStore(s) => StoreCalls(s.root, s.view, s.path, s.files)
    case OfNative(n) => NativeCalls(n)
  }

  /** What a request begun with call `t` leaves behind when it fails, and what it unmounts without having mounted it. */
  ghost function BodyLeft(q: Request, faults: nat -> bool, t: nat): multiset<string> {
    match q
    case OfStore(s) => Single(StoreFlight(s, faults, t))
    case OfNative(n) => NativeLeft(n, faults, t)
  }

  ghost function BodyLoss(q: Request, faults: nat -> bool, t: nat): Option<string> {
    match q
    case OfStore(s) => None
    case OfNative(n) => NativeLoss(n, faults, t)
  }

  method MountBody(k: Kernel, q: Request) returns (ok: bool)
    modifies k`clock, k`table, k`rules
    ensures k.rules == old(k.rules) + if ok then RequestRules(q) else []
    ensures old(k.clock) <= k.clock <= old(k.clock) + RequestCalls(q) && (ok ==> k.clock == old(k.clock) + RequestCalls(q))
    ensures ok <==> k.Clean(old(k.clock)) && RequestFits(q)
    ensures ok ==> k.table == old(k.table) + RequestPlan(q)
    ensures !ok ==> Undone(old(k.table), k.table, BodyLeft(q, k.faults, old(k.clock)), BodyLoss(q, k.faults, old(k.clock)))
  {
    hide Targets, Single, Destination, JoinPaths, PlanFits, Plan, MountFlight, StoreCalls;
    hide NativeFits, NativeCalls, NativeLeft, NativeLoss, RecordedPlan, KeptPlan, CapRules;
    assert k.rules + [] == k.rules;
    match q
    case OfStore(s) =>
      var mnt;
      ghost var left;
      ghost var before := k.table;
      mnt, left := MountDriverStore(k, s.root, s.view, s.path, s.files);
      PlusNothing(before, Single(left));
      ok := mnt != null;
    case OfNative(n) =>
      ok := MountNative(k, n);
  }

  ghost function RequestLeft(q: Request, faults: nat -> bool, start: nat): multiset<string> {
    if faults(start) then multiset{} else BodyLeft(q, faults, start + 1)
  }

  ghost function RequestLoss(q: Request, faults: nat -> bool, start: nat): Option<string> {
    if faults(start) then None else BodyLoss(q, faults, start + 1)
  }

  /** nvc_device_mount */
  method MountRequest(k: Kernel, q: Request) returns (r: DriverResult)
    requires k.ns == Host
    modifies k
    ensures LeftIn(r, k.ns) && !r.Crashed?
    ensures r.NotEntered? <==> k.faults(old(k.clock))
    ensures r.Done? <==> RequestFits(q) && NoFault(k.faults, old(k.clock), old(k.clock) + RequestCalls(q) + 2)
    ensures r.Stranded? <==> RequestFits(q) && FirstFault(k.faults, old(k.clock), old(k.clock) + RequestCalls(q) + 1)
    ensures r.Done? || r.Stranded? ==> k.table == old(k.table) + RequestPlan(q)
    ensures r.Done? ==> k.ns == Host
    ensures k.rules == old(k.rules) + if r.Done? || r.Stranded? then RequestRules(q) else []
    ensures r.NotEntered? ==> k.table == old(k.table)
    ensures r.RolledBack? || r.Aborted? ==>
              Undone(old(k.table), k.table, RequestLeft(q, k.faults, old(k.clock)), RequestLoss(q, k.faults, old(k.clock)))
  {
    hide Undone, RequestFits, RequestPlan, RequestCalls, RequestRules, BodyLeft, BodyLoss;
    assert k.rules + [] == k.rules;
    var ok := k.EnterNamespace(Container);
    if !ok {
      return NotEntered;
    }
    ok := MountBody(k, q);
    r := LeaveNamespace(k, ok);
  }

  // ---------------------------------------------------------------------
  // Over every schedule
  // ---------------------------------------------------------------------

  /** The targets some schedule makes the call unmount without having mounted them. */
  ghost function RequestExposes(q: Request): set<string> {
    match q
    case OfStore(_) => {}
    case OfNative(n) => NativeExposes(n)
  }

  ghost function NativeExposes(n: Native): set<string> {
    CapExposes(n.root, n.node, n.flags)
    + (if CapFits(n.root, n.node, n.flags) then PathExposes(n.root, n.config, LD_CONFIG_DIR) else {})
    + (if RecordedFits(n) && n.flags.utilityLibs then PathExposes(n.root, n.front, SMI_FRONT_DIR) else {})
  }

  lemma NativeLossIsExposed(n: Native, faults: nat -> bool, t: nat)
    requires NativeLoss(n, faults, t).Some?
    ensures NativeLoss(n, faults, t).value in NativeExposes(n)
  {
    hide PathFits, PathLoss, PathExposes, CapFits, CapLoss, CapExposes;
    if RecordedDone(n, faults, t) {
      PathLossIsExposed(n.root, n.front, SMI_FRONT_DIR, faults, t + RecordedCalls(n) + ProfileCalls(n));
    } else if CapFits(n.root, n.node, n.flags) && NoFault(faults, t, t + NodeCalls(n)) {
      PathLossIsExposed(n.root, n.config, LD_CONFIG_DIR, faults, t + NodeCalls(n));
    } else {
      CapLossIsExposed(n.root, n.node, n.flags, faults, t);
    }
  }

  /** Each exposed target has a call whose failure alone loses it. */
  lemma NativeCanLose(n: Native, t: nat, x: string) returns (at: nat)
    requires x in NativeExposes(n)
    ensures t < at
    ensures forall faults: nat -> bool | OnlyFault(faults, t, at) :: NativeLoss(n, faults, t) == Some(x)
  {
    hide PathFits, PathLoss, PathExposes, CapFits, CapLoss, CapExposes;
    if x in CapExposes(n.root, n.node, n.flags) {
      at := t + 1 + BIND_CALL;
      forall faults: nat -> bool | OnlyFault(faults, t, at)
        ensures NativeLoss(n, faults, t) == Some(x)
      {
        assert faults(at);
        CapCanLose(n.root, n.node, n.flags, faults, t);
        ExposedIsBound(n);
        assert !NoFault(faults, t, t + NodeCalls(n)) && !NoFault(faults, t, t + RecordedCalls(n));
      }
    } else if CapFits(n.root, n.node, n.flags) && x in PathExposes(n.root, n.config, LD_CONFIG_DIR) {
      at := t + NodeCalls(n) + 1;
      forall faults: nat -> bool | OnlyFault(faults, t, at)
        ensures NativeLoss(n, faults, t) == Some(x)
      {
        assert faults(at);
        PathCanLose(n.root, n.config, LD_CONFIG_DIR, faults, t + NodeCalls(n));
        assert !NoFault(faults, t, t + RecordedCalls(n));
      }
    } else {
      var u := t + RecordedCalls(n) + ProfileCalls(n);
      at := u + 1;
      forall faults: nat -> bool | OnlyFault(faults, t, at)
        ensures NativeLoss(n, faults, t) == Some(x)
      {
        PathCanLose(n.root, n.front, SMI_FRONT_DIR, faults, u);
      }
    }
  }

  lemma ExposedIsBound(n: Native)
    requires CapExposes(n.root, n.node, n.flags) != {}
    ensures !n.flags.noDevbind
  {
  }

  /** A file of the store can be left in flight. */
  ghost predicate StoreForgets(s: Store) {
    && JoinPaths(s.root, s.path).Some? && Destination(s.view, s.path).Some?
    && exists i: nat :: StoreFile(s, i)
  }

  ghost predicate StoreFile(s: Store, i: nat)
    requires JoinPaths(s.root, s.path).Some? && Destination(s.view, s.path).Some?
  {
    Mountable(JoinPaths(s.root, s.path).value, Destination(s.view, s.path).value, s.files, Everything, i)
  }

  /** The front end stays when a later step fails, and there is one. */
  predicate FrontForgets(n: Native) {
    RecordedFits(n) && n.flags.utilityLibs && FrontFits(n) && (WantsDris(n) || !n.flags.noCgroups)
  }

  ghost predicate DriFile(n: Native, i: nat)
    requires Destination(n.view, n.dir).Some?
  {
    Mountable(DrisSource(n), Destination(n.view, n.dir).value, n.libs, ByFlags(n.flags), i)
  }

  /** A dri library can be left in flight, or behind. */
  ghost predicate DrisForgets(n: Native) {
    && RecordedFits(n) && FrontFits(n) && WantsDris(n) && |DrisSource(n)| < PATH_MAX && Destination(n.view, n.dir).Some?
    && exists i: nat :: DriFile(n, i)
  }

  ghost predicate RequestForgets(q: Request) {
    match q
    case OfStore(s) => StoreForgets(s)
    case OfNative(n) => FrontForgets(n) || DrisForgets(n)
  }

  /** What a failed native call leaves is something it can forget. */
  lemma NativeLeftIsForgotten(n: Native, faults: nat -> bool, t: nat)
    requires NativeLeft(n, faults, t) != multiset{}
    ensures FrontForgets(n) || DrisForgets(n)
  {
    hide RecordedFits, PathFits, Plan, Flight, Destination, Joined, AllFit, FileCalls;
    var u := t + RecordedCalls(n) + FrontCalls(n);
    if !FrontForgets(n) {
      NoFrontLeft(n, faults, t);
      if DrisDone(n, faults, u) {
        var d := DrisPlan(n);
        if d == [] { TargetsOfNothing(); }
        PlanWasReached(DrisSource(n), Destination(n.view, n.dir).value, n.libs, ByFlags(n.flags));
      } else {
        FlightWasReached(DrisSource(n), Destination(n.view, n.dir).value, n.libs, ByFlags(n.flags), faults, u + 3);
      }
      var i: nat :| Mountable(DrisSource(n), Destination(n.view, n.dir).value, n.libs, ByFlags(n.flags), i);
      assert DriFile(n, i);
    }
  }

  /** Without a front end to forget, what is left comes from the dri libraries. */
  lemma NoFrontLeft(n: Native, faults: nat -> bool, t: nat)
    requires NativeLeft(n, faults, t) != multiset{} && !FrontForgets(n)
    ensures RecordedDone(n, faults, t) && FrontDone(n, faults, t + RecordedCalls(n))
    ensures var u := t + RecordedCalls(n) + FrontCalls(n);
            if DrisDone(n, faults, u) then Targets(DrisPlan(n)) != multiset{} else DrisFlight(n, faults, u).Some?
  {
    hide RecordedFits, FrontFits, PathFits, DrisDone, DrisFlight, DrisPlan, WantsDris, RecordedCalls, FrontCalls, Targets;
    hide RecordedDone, FrontDone, KeptDone, Single;
    var v := t + RecordedCalls(n);
    var u := v + FrontCalls(n);
    DoneFits(n, faults, t, v);
    NoneIsEmpty(DrisFlight(n, faults, u));
    if n.flags.utilityLibs { FrontAloneIsDone(n, faults, v); }
    assert FrontPlan(n) == [];
    TargetsOfNothing();
    var x := if DrisDone(n, faults, u) then Targets(DrisPlan(n)) else Single(DrisFlight(n, faults, u));
    assert multiset{} + x == x;
  }

  lemma DoneFits(n: Native, faults: nat -> bool, t: nat, v: nat)
    ensures RecordedDone(n, faults, t) ==> RecordedFits(n)
    ensures FrontDone(n, faults, v) ==> FrontFits(n)
  {
    hide RecordedFits, FrontFits, RecordedCalls, FrontCalls;
  }

  lemma NoneIsEmpty(x: Option<string>)
    ensures Single(x) != multiset{} ==> x.Some?
  {
  }

  /** With nothing to do after the front end, nothing fails after it. */
  lemma FrontAloneIsDone(n: Native, faults: nat -> bool, t: nat)
    requires !WantsDris(n) && n.flags.noCgroups && FrontDone(n, faults, t)
    ensures KeptDone(n, faults, t)
  {
    hide FrontFits;
  }

  /** The first call after the front end is the only one that fails. */
  lemma FrontIsForgotten(n: Native, faults: nat -> bool, start: nat)
    requires FrontForgets(n) && OnlyFault(faults, start, start + 1 + RecordedCalls(n) + FrontCalls(n))
    ensures RequestLeft(OfNative(n), faults, start) == Targets(FrontPlan(n)) != multiset{}
    ensures RequestLoss(OfNative(n), faults, start) == None
  {
    hide RecordedFits, RecordedCalls, PathFits, FrontCalls, FrontLoss, FrontPlan, KeptLeft, Targets;
    var t := start + 1 + RecordedCalls(n);
    assert RecordedDone(n, faults, start + 1) && FrontDone(n, faults, t);
    FrontLosesNothing(n, faults, t);
    FrontStaysAlone(n, faults, t);
  }

  lemma FrontStaysAlone(n: Native, faults: nat -> bool, t: nat)
    requires FrontForgets(n) && FrontDone(n, faults, t) && faults(t + FrontCalls(n))
    ensures KeptLeft(n, faults, t) == Targets(FrontPlan(n)) != multiset{}
  {
    hide RecordedFits, PathFits, PathMount, DrisFit, DrisCalls, DrisFlight, DrisPlan, FrontCalls, Targets, WantsDris;
    var u := t + FrontCalls(n);
    NoDrisAtFault(n, faults, u);
    assert !NoFault(faults, t, t + KeptCalls(n)) by {
      if WantsDris(n) {
        var c: nat :| u <= c < u + DrisCalls(n) && faults(c);
        assert t <= c < t + KeptCalls(n);
      } else {
        assert t <= u < t + KeptCalls(n);
      }
    }
    TargetsOfOne(PathMount(n.root, n.front, SMI_FRONT_DIR, FILE_FLAGS));
    assert Targets(FrontPlan(n)) + multiset{} == Targets(FrontPlan(n));
  }

  /** A failure of the first call for the dri libraries, or where it would have been, leaves none. */
  lemma NoDrisAtFault(n: Native, faults: nat -> bool, u: nat)
    requires faults(u)
    ensures (if DrisDone(n, faults, u) then Targets(DrisPlan(n)) else Single(DrisFlight(n, faults, u))) == multiset{}
    ensures WantsDris(n) ==> !NoFault(faults, u, u + DrisCalls(n))
  {
    hide Destination, Joined, Plan, PlanFits, Flight, FileCalls;
    TargetsOfNothing();
    if WantsDris(n) { assert !NoFault(faults, u, u + 3) && !NoFault(faults, u, u + DrisCalls(n)); }
  }

  lemma FrontLosesNothing(n: Native, faults: nat -> bool, t: nat)
    requires FrontDone(n, faults, t)
    ensures FrontLoss(n, faults, t) == None
  {
    hide PathFits, PathText;
  }

  /** When the remount of a dri library is called, if nothing fails before. */
  function DriAt(n: Native, i: nat, start: nat): nat
    requires i < |n.libs| && Destination(n.view, n.dir).Some?
  {
    RemountAt(DrisSource(n), Destination(n.view, n.dir).value, n.libs, i, ByFlags(n.flags),
              start + 1 + RecordedCalls(n) + FrontCalls(n) + 3)
  }

  /** The remount of one dri library is the only call that fails. */
  lemma DriIsForgotten(n: Native, i: nat, faults: nat -> bool, start: nat)
    requires DrisForgets(n) && DriFile(n, i) && OnlyFault(faults, start, DriAt(n, i, start))
    ensures RequestLeft(OfNative(n), faults, start)
            == Targets(FrontPlan(n)) + multiset{Joined(Destination(n.view, n.dir).value, Basename(n.libs[i]))}
    ensures RequestLoss(OfNative(n), faults, start) == None
  {
    hide RecordedFits, RecordedCalls, PathFits, PathMount, Destination, Joined, Basename, Plan, Flight, Targets, AllFit;
    var t := start + 1 + RecordedCalls(n);
    var u := t + FrontCalls(n);
    var src, dst, pick := DrisSource(n), Destination(n.view, n.dir).value, ByFlags(n.flags);
    assert RecordedDone(n, faults, start + 1) && FrontDone(n, faults, t);
    FrontLosesNothing(n, faults, t);
    FlightCanHappen(src, dst, n.libs, i, pick, faults, u + 3);
    assert DrisFlight(n, faults, u) == Some(Joined(dst, Basename(n.libs[i])));
    if DrisDone(n, faults, u) { DoneIsNotInFlight(n, faults, u); }
    assert !KeptDone(n, faults, t);
  }

  lemma DoneIsNotInFlight(n: Native, faults: nat -> bool, t: nat)
    requires DrisDone(n, faults, t)
    ensures DrisFlight(n, faults, t) == None
  {
    hide Destination, Joined, Plan, Flight, AllFit, FileCalls;
    if WantsDris(n) {
      NoFlight(DrisSource(n), Destination(n.view, n.dir).value, n.libs, ByFlags(n.flags), faults, t + 3);
    }
  }

  /** When the remount of a file of the store is called, if nothing fails before. */
  function StoreAt(s: Store, i: nat, start: nat): nat
    requires i < |s.files| && JoinPaths(s.root, s.path).Some? && Destination(s.view, s.path).Some?
  {
    RemountAt(JoinPaths(s.root, s.path).value, Destination(s.view, s.path).value, s.files, i, Everything, start + 1 + 3)
  }

  /** The remount of one file of the store is the only call that fails. */
  lemma FileIsForgotten(s: Store, i: nat, faults: nat -> bool, start: nat)
    requires StoreForgets(s) && StoreFile(s, i) && OnlyFault(faults, start, StoreAt(s, i, start))
    ensures RequestLeft(OfStore(s), faults, start) == multiset{Joined(Destination(s.view, s.path).value, Basename(s.files[i]))}
    ensures RequestLoss(OfStore(s), faults, start) == None
  {
    hide Destination, JoinPaths, Joined, Basename, Plan, Flight, AllFit;
    FlightCanHappen(JoinPaths(s.root, s.path).value, Destination(s.view, s.path).value, s.files, i, Everything, faults, start + 4);
  }

  /**
   Over every schedule: the call never forgets a mount exactly if there is nothing
   it can forget, and never takes a mount off that was there at entry exactly if
   no exposed target was mounted on.
   */
  lemma RequestSafeExactly(q: Request, start: nat, before: Table)
    ensures (forall faults: nat -> bool :: RequestLeft(q, faults, start) == multiset{}) <==> !RequestForgets(q)
    ensures (forall faults: nat -> bool :: !Hits(RequestLoss(q, faults, start), before)) <==>
              forall x :: x in RequestExposes(q) ==> x !in Targets(before)
  {
    hide Targets, RequestLeft, RequestForgets, RequestLoss, RequestExposes;
    if RequestForgets(q) {
      var at := RequestCanForget(q, start);
      var faults: nat -> bool := k => k == at;
      assert RequestLeft(q, faults, start) != multiset{};
    }
    forall faults: nat -> bool | RequestLeft(q, faults, start) != multiset{}
      ensures RequestForgets(q)
    {
      RequestLeftIsForgotten(q, faults, start);
    }
    forall faults: nat -> bool | Hits(RequestLoss(q, faults, start), before)
      ensures exists x :: x in RequestExposes(q) && x in Targets(before)
    {
      RequestLossIsExposed(q, faults, start);
    }
    forall x | x in RequestExposes(q) && x in Targets(before)
      ensures exists faults: nat -> bool :: Hits(RequestLoss(q, faults, start), before)
    {
      var at := RequestCanLose(q, start, x);
      var faults: nat -> bool := k => k == at;
      assert Hits(RequestLoss(q, faults, start), before);
    }
  }

  lemma RequestCanForget(q: Request, start: nat) returns (at: nat)
    requires RequestForgets(q)
    ensures RequestLeft(q, k => k == at, start) != multiset{}
  {
    hide RequestLeft, FrontForgets, RecordedCalls, FrontCalls, Destination, JoinPaths, Joined, Basename, Targets;
    match q
    case OfStore(s) =>
      var i: nat :| StoreFile(s, i);
      at := StoreAt(s, i, start);
      FileIsForgotten(s, i, k => k == at, start);
    case OfNative(n) =>
      if FrontForgets(n) {
        at := start + 1 + RecordedCalls(n) + FrontCalls(n);
        FrontIsForgotten(n, k => k == at, start);
      } else {
        var i: nat :| DriFile(n, i);
        at := DriAt(n, i, start);
        DriIsForgotten(n, i, k => k == at, start);
        assert Joined(Destination(n.view, n.dir).value, Basename(n.libs[i])) in RequestLeft(q, k => k == at, start);
      }
  }

  lemma RequestLeftIsForgotten(q: Request, faults: nat -> bool, start: nat)
    requires RequestLeft(q, faults, start) != multiset{}
    ensures RequestForgets(q)
  {
    hide NativeLeft, FrontForgets, DrisForgets, Flight, Destination, JoinPaths, Mountable;
    match q
    case OfStore(s) =>
      FlightWasReached(JoinPaths(s.root, s.path).value, Destination(s.view, s.path).value, s.files, Everything, faults, start + 4);
      var i: nat :| Mountable(JoinPaths(s.root, s.path).value, Destination(s.view, s.path).value, s.files, Everything, i);
      assert StoreFile(s, i);
    case OfNative(n) =>
      NativeLeftIsForgotten(n, faults, start + 1);
  }

  lemma RequestLossIsExposed(q: Request, faults: nat -> bool, start: nat)
    requires RequestLoss(q, faults, start).Some?
    ensures RequestLoss(q, faults, start).value in RequestExposes(q)
  {
    hide NativeLoss, NativeExposes;
    NativeLossIsExposed(q.native, faults, start + 1);
  }

  lemma RequestCanLose(q: Request, start: nat, x: string) returns (at: nat)
    requires x in RequestExposes(q)
    ensures RequestLoss(q, k => k == at, start) == Some(x)
  {
    hide NativeLoss, NativeExposes;
    at := NativeCanLose(q.native, start + 1, x);
    var faults: nat -> bool := k => k == at;
    assert OnlyFault(faults, start + 1, at);
  }

  // ---------------------------------------------------------------------
  // Runs that forget, for every input that has one
  // ---------------------------------------------------------------------

  /** A schedule with one failing call inside the body makes the call fail. */
  lemma FailsInside(q: Request, faults: nat -> bool, at: nat)
    requires OnlyFault(faults, 0, at) && 0 < at
    requires RequestLeft(q, faults, 0) != multiset{}
    ensures !(RequestFits(q) && NoFault(faults, 0, RequestCalls(q) + 2))
    ensures !(RequestFits(q) && FirstFault(faults, 0, RequestCalls(q) + 1))
  {
    hide RequestFits, RequestCalls, RequestLeft;
    if RequestFits(q) && NoFault(faults, 1, 1 + RequestCalls(q)) { NothingLeftWhenDone(q, faults); }
  }

  lemma NothingLeftWhenDone(q: Request, faults: nat -> bool)
    requires RequestFits(q) && NoFault(faults, 1, 1 + RequestCalls(q))
    ensures RequestLeft(q, faults, 0) == multiset{}
  {
    hide Targets, Destination, JoinPaths, Plan, Flight, AllFit, FileCalls, RecordedFits, FrontFits, DrisFit, RecordedCalls, FrontCalls, DrisCalls;
    if q.OfStore? {
      var s := q.store;
      NoFlight(JoinPaths(s.root, s.path).value, Destination(s.view, s.path).value, s.files, Everything, faults, 4);
    }
  }

  /** The front end of xdxsmi stays mounted. */
  method ForgetFront(n: Native, table: Table) returns (k: Kernel, r: DriverResult)
    requires FrontForgets(n)
    ensures r.RolledBack? || r.Aborted?
    ensures Targets(k.table) == Targets(table) + Targets(FrontPlan(n)) && Targets(FrontPlan(n)) != multiset{}
  {
    hide FrontForgets, RequestFits, RequestPlan, RequestLeft, RequestLoss, RequestCalls, RecordedCalls, FrontCalls, Targets;
    var at := 1 + RecordedCalls(n) + FrontCalls(n);
    k := new Kernel((c: nat) => c == at, table);
    FrontIsForgotten(n, k.faults, 0);
    FailsInside(OfNative(n), k.faults, at);
    r := MountRequest(k, OfNative(n));
    PlusNothing(table, Targets(FrontPlan(n)));
  }

  /** A dri library stays mounted, and the front end with it. */
  method ForgetDri(n: Native, i: nat, table: Table) returns (k: Kernel, r: DriverResult)
    requires DrisForgets(n) && DriFile(n, i)
    ensures r.RolledBack? || r.Aborted?
    ensures Targets(k.table)
            == Targets(table) + (Targets(FrontPlan(n)) + multiset{Joined(Destination(n.view, n.dir).value, Basename(n.libs[i]))})
  {
    hide RequestFits, RequestPlan, RequestLeft, RequestLoss, RequestCalls, RecordedCalls, FrontCalls, Targets, Joined, Basename, RemountAt;
    var at := DriAt(n, i, 0);
    k := new Kernel((c: nat) => c == at, table);
    DriIsForgotten(n, i, k.faults, 0);
    ghost var left := Targets(FrontPlan(n)) + multiset{Joined(Destination(n.view, n.dir).value, Basename(n.libs[i]))};
    assert left != multiset{} by { assert Joined(Destination(n.view, n.dir).value, Basename(n.libs[i])) in left; }
    LaterThanFirst(n, i);
    FailsInside(OfNative(n), k.faults, at);
    r := MountRequest(k, OfNative(n));
    PlusNothing(table, left);
  }

  lemma LaterThanFirst(n: Native, i: nat)
    requires i < |n.libs| && Destination(n.view, n.dir).Some?
    ensures DriAt(n, i, 0) > 0
  {
  }

  /** A file of the driver store stays mounted. */
  method ForgetFile(s: Store, i: nat, table: Table) returns (k: Kernel, r: DriverResult)
    requires StoreForgets(s) && StoreFile(s, i)
    ensures r.RolledBack? || r.Aborted?
    ensures Targets(k.table) == Targets(table) + multiset{Joined(Destination(s.view, s.path).value, Basename(s.files[i]))}
  {
    hide RequestFits, RequestPlan, RequestLeft, RequestLoss, RequestCalls, Targets, Joined, Basename;
    var at := StoreAt(s, i, 0);
    k := new Kernel((c: nat) => c == at, table);
    FileIsForgotten(s, i, k.faults, 0);
    FailsInside(OfStore(s), k.faults, at);
    r := MountRequest(k, OfStore(s));
    PlusNothing(table, multiset{Joined(Destination(s.view, s.path).value, Basename(s.files[i]))});
  }

  /** A smallest such input: an empty container and a store of one file. */
  lemma SomeFileIsForgotten()
    ensures ValidSight(EMPTY_ROOT)
    ensures var s := Store("/", EMPTY_ROOT, "/d", ["f"]);
            StoreForgets(s) && StoreFile(s, 0)
  {
    hide Destination, Render, Basename, Joined;
    assert Render(["d"]) == "/d" by { RenderOfOne("d"); }
    EmptyRootResolves(["d"]);
    ShortStore();
    BasenameIs("", "f");
    assert ["f"][..1] == ["f"];
    assert StoreFile(Store("/", EMPTY_ROOT, "/d", ["f"]), 0);
  }

  lemma RenderOfOne(name: string)
    ensures Render([name]) == "/" + name
  {
    assert [name][..0] == [];
  }

  lemma ShortStore()
    ensures JoinPaths("/", "/d") == Some("/d") && |Joined("/d", "f")| < PATH_MAX && |Joined("/c" + "/d", "f")| < PATH_MAX
  {
    assert Joined("", "/") == "/";
    assert "/d"[1..] == "d" && "/" + "d" == "/d";
    assert Joined("/", "/d") == "/d";
  }

  // ---------------------------------------------------------------------
  // Confinement
  // ---------------------------------------------------------------------

  /** Everything a native call mounts goes under the container's root. */
  lemma NativeIsConfined(n: Native, rootfs: string)
    requires NativeFits(n)
    requires n.node.view.rootfs == n.config.rootfs == n.front.rootfs == n.view.rootfs == rootfs
    ensures Confined(rootfs, RecordedPlan(n) + KeptPlan(n))
  {
    hide PathFits, CapFits, CapPlan, PathMount, DrisPlan, DrisFit, Confined;
    CapIsConfined(n.root, n.node, n.flags);
    PathIsConfined(n.root, n.config, LD_CONFIG_DIR, FILE_FLAGS);
    ConfinedConcat(rootfs, CapPlan(n.root, n.node, n.flags), [PathMount(n.root, n.config, LD_CONFIG_DIR, FILE_FLAGS)]);
    FrontIsConfined(n);
    DrisAreConfined(n);
    ConfinedConcat(rootfs, FrontPlan(n), DrisPlan(n));
    ConfinedConcat(rootfs, RecordedPlan(n), KeptPlan(n));
  }

  lemma FrontIsConfined(n: Native)
    ensures Confined(n.front.rootfs, FrontPlan(n))
  {
    hide PathFits, PathMount, Under;
    if FrontPlan(n) != [] { PathIsConfined(n.root, n.front, SMI_FRONT_DIR, FILE_FLAGS); }
  }

  lemma DrisAreConfined(n: Native)
    ensures Confined(n.view.rootfs, DrisPlan(n))
  {
    hide Plan, Under, Destination, Joined;
    if DrisPlan(n) != [] {
      DestinationIsUnder(n.view, n.dir);
      forall j | 0 <= j < |DrisPlan(n)|
        ensures Under(n.view.rootfs, DrisPlan(n)[j].target)
      {
        PlanIsUnder(n.view.rootfs, DrisSource(n), Destination(n.view, n.dir).value, n.libs, n.flags, j);
      }
    }
  }

  /** The driver store's files stay under the container's root exactly if none of their names is a dot or two. */
  lemma StoreIsConfinedExactly(s: Store)
    requires StoreFits(s)
    ensures Confined(s.view.rootfs, RequestPlan(OfStore(s))) <==>
              forall j :: 0 <= j < |s.files| ==> Basename(s.files[j]) != "." && Basename(s.files[j]) != ".."
  {
    hide Plan, Under, Destination, JoinPaths, Joined, Basename, AllFit;
    var src, dst := JoinPaths(s.root, s.path).value, Destination(s.view, s.path).value;
    var plan := Plan(src, dst, s.files, Everything);
    DestinationIsUnder(s.view, s.path);
    forall j | 0 <= j < |s.files|
      ensures |plan| == |s.files| && plan[j].target == Joined(dst, Basename(s.files[j]))
      ensures Under(s.view.rootfs, plan[j].target) <==> Basename(s.files[j]) != "." && Basename(s.files[j]) != ".."
    {
      EverythingIsPlanned(src, dst, s.files, j);
      NameStaysUnder(s.view.rootfs, dst, s.files[j]);
    }
    if s.files == [] { NoFilesNoPlan(src, dst); }
  }

  lemma NoFilesNoPlan(src: string, dst: string)
    ensures Plan(src, dst, [], Everything) == []
  {
  }

  // ---------------------------------------------------------------------
  // What is mounted
  // ---------------------------------------------------------------------

  /** The loader configuration is mounted always and read-only, the node unless binding is off. */
  lemma RecordedPlanIs(n: Native)
    requires RecordedFits(n)
    ensures var c := PathMount(n.root, n.config, "/etc/ld.so.conf.d", {ReadOnly, NoDev, NoSuid});
            && (n.flags.noDevbind ==> RecordedPlan(n) == [c])
            && (!n.flags.noDevbind ==> DeviceTarget(n.node).Some? && RecordedPlan(n) == [DeviceMount(n.root, n.node), c])
  {
    hide PathMount, PathFits, DeviceTarget, DeviceMount, DeviceFits;
    CapsByOptions(n.root, n.node, n.flags);
  }

  /** The front end is mounted exactly with the utility option, the dri libraries exactly with the video or the graphics option. */
  lemma KeptPlanIs(n: Native)
    requires KeptFits(n)
    ensures !n.flags.utilityLibs ==> FrontPlan(n) == []
    ensures n.flags.utilityLibs ==>
              && PathFits(n.root, n.front, "/usr/lib/python3/dist-packages/xdxsmi")
              && FrontPlan(n) == [PathMount(n.root, n.front, "/usr/lib/python3/dist-packages/xdxsmi", {ReadOnly, NoDev, NoSuid})]
    ensures !n.flags.videoLibs && !n.flags.graphicsLibs ==> DrisPlan(n) == []
    ensures n.flags.videoLibs || n.flags.graphicsLibs ==>
              && Destination(n.view, n.dir).Some?
              && DrisPlan(n) == Plan(Joined("", n.root), Destination(n.view, n.dir).value, n.libs, ByFlags(n.flags))
    ensures KeptPlan(n) == FrontPlan(n) + DrisPlan(n)
  {
    hide PathMount, PathFits, Destination, Plan, Joined, AllFit;
  }
}
