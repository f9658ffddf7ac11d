/**
 mount_files and mount_driverstore_files (src/nvc_mount.c): bind host files into
 the container, reusing two path buffers, and take back what was recorded when
 a step fails.
 */
module FileMounts {
  import opened CStrings
  import opened Paths
  import opened Arrays
  import opened Libraries
  import opened Schedules
  import opened MountTable
  import opened Destinations

  /** GNU basename: what follows the last slash. */
  function Basename(path: string): string {
    path[LastIndexOf(path, '/') + 1..]
  }

  /** Which of its paths a call mounts: those the container's options ask for, or all of them. */
  datatype Filter = ByFlags(flags: Flags) | Everything

  predicate Selected(path: string, pick: Filter) {
    match pick
    case Everything => true
    case ByFlags(flags) => MatchBinaryFlags(Basename(path), flags) || MatchLibraryFlags(Basename(path), flags)
  }

  /** The calls made for `n` files; file_mode is asked only under a filter. */
  function FileCalls(n: nat, pick: Filter): nat {
    if pick.ByFlags? then 5 * n else 4 * n
  }

  /** The mount `path` asks for. */
  function Planned(src: string, dst: string, path: string): Mount {
    Mount(Joined(src, path), Joined(dst, Basename(path)), FILE_FLAGS)
  }

  predicate Fits(src: string, dst: string, path: string) {
    |Joined(src, path)| < PATH_MAX && |Joined(dst, Basename(path))| < PATH_MAX
  }

  /** The mounts of all selected paths, in order. */
  function Plan(src: string, dst: string, paths: seq<string>, pick: Filter): (t: Table)
    ensures |t| <= |paths|
  {
    if paths == [] then []
    else
      var before, path := Plan(src, dst, paths[..|paths| - 1], pick), paths[|paths| - 1];
      if Selected(path, pick) then before + [Planned(src, dst, path)] else before
  }

  ghost predicate AllFit(src: string, dst: string, paths: seq<string>, pick: Filter) {
    forall i :: 0 <= i < |paths| && Selected(paths[i], pick) ==> Fits(src, dst, paths[i])
  }

  /** At most one target. */
  function Single(left: Option<string>): multiset<string> {
    if left.None? then multiset{} else multiset{left.value}
  }

  /** The bind is the last call but two for a file; it is made if nothing up to it fails. */
  ghost predicate BindMade(faults: nat -> bool, t: nat, pick: Filter) {
    NoFault(faults, t, t + FileCalls(1, pick) - 2)
  }

  /** The calls made for one file whose buffers are set; `bound` tells whether the bind was made. */
  method BindFile(k: Kernel, source: string, target: string, pick: Filter) returns (ok: bool, ghost bound: bool)
    modifies k`clock, k`table
    ensures old(k.clock) <= k.clock <= old(k.clock) + FileCalls(1, pick)
    ensures ok ==> k.clock == old(k.clock) + FileCalls(1, pick)
    ensures ok <==> k.Clean(old(k.clock))
    ensures ok ==> k.table == old(k.table) + [Mount(source, target, FILE_FLAGS)]
    ensures !ok ==> Targets(k.table) == old(Targets(k.table)) + Single(if bound then Some(target) else None)
    ensures bound <==> BindMade(k.faults, old(k.clock), pick)
  {
    hide Targets, SetFlags, Single;
    ghost var t := k.table;
    ghost var m := Mount(source, target, {});
    PlusNone(t);
    bound := false;
    if pick.ByFlags? {
      ok := k.Attempt();      // file_mode
      if !ok { return; }
    }
    ok := k.Attempt();        // file_create
    if !ok { return; }
    ok := k.Bind(source, target);
    if !ok { return; }
    bound := true;
    PlusOne(t, m);
    ok := k.Remount(target, FILE_FLAGS);
    if !ok { return; }
    SetFlagsOfPush(t, m, FILE_FLAGS);
    TargetsOfSetFlags(t + [m], target, FILE_FLAGS);
    ok := k.Attempt();        // xstrdup
  }

  /** One turn of mount_files for a selected path: extend both buffers, then mount. */
  method MountOne(k: Kernel, src: PathBuf, dst: PathBuf, path: string, pick: Filter) returns (ok: bool, ghost bound: bool)
    requires src.Valid() && dst.Valid() && src != dst
    modifies k`clock, k`table, src, dst
    ensures src.Valid() && dst.Valid()
    ensures old(k.clock) <= k.clock <= old(k.clock) + FileCalls(1, pick)
    ensures ok ==> k.clock == old(k.clock) + FileCalls(1, pick)
    ensures ok <==> k.Clean(old(k.clock)) && Fits(old(src.text), old(dst.text), path)
    ensures ok ==> src.text == Joined(old(src.text), path) && dst.text == Joined(old(dst.text), Basename(path))
    ensures ok ==> k.table == old(k.table) + [Planned(old(src.text), old(dst.text), path)]
    ensures !ok ==> Targets(k.table) == old(Targets(k.table))
                    + Single(if bound then Some(Joined(old(dst.text), Basename(path))) else None)
    ensures bound <==> Fits(old(src.text), old(dst.text), path) && BindMade(k.faults, old(k.clock), pick)
  {
    hide Joined, Basename, Targets, BindMade, FileCalls;
    bound := false;
    ok := src.Append(path);
    if !ok { return; }
    ok := dst.Append(Basename(path));
    if !ok { return; }
    ok, bound := BindFile(k, src.text, dst.text, pick);
  }

  /** unmount() of every recorded entry. */
  method UnmountEntries(k: Kernel, mnt: array<Option<string>>, n: nat)
    requires n <= mnt.Length
    requires forall i :: 0 <= i < n && mnt[i].Some? ==> mnt[i].value != ""
    modifies k`table
    ensures k.table == DetachAll(old(k.table), Filled(mnt[..n]))
  {
    var i := 0;
    while i < n
      invariant 0 <= i <= n
      invariant k.table == DetachAll(old(k.table), Filled(mnt[..i]))
    {
      assert mnt[..i + 1] == mnt[..i] + [mnt[i]];
      FilledOfPush(mnt[..i], mnt[i]);
      if mnt[i].Some? {
        DetachAllOfPush(old(k.table), Filled(mnt[..i]), mnt[i].value);
        k.Unmount(mnt[i].value);
      }
      i := i + 1;
    }
  }

  lemma DetachAllOfPush(t: Table, targets: seq<string>, target: string)
    ensures DetachAll(t, targets + [target]) == Detach(DetachAll(t, targets), target)
  {
  }

  lemma PlanOfPush(src: string, dst: string, paths: seq<string>, i: nat, pick: Filter)
    requires i < |paths|
    ensures Plan(src, dst, paths[..i + 1], pick) ==
              if Selected(paths[i], pick) then Plan(src, dst, paths[..i], pick) + [Planned(src, dst, paths[i])]
              else Plan(src, dst, paths[..i], pick)
  {
    assert paths[..i + 1][..i] == paths[..i];
  }

  lemma {:induction false} PlanTargetsAreNamed(src: string, dst: string, paths: seq<string>, pick: Filter, j: nat)
    requires dst != "" && j < |Plan(src, dst, paths, pick)|
    ensures Plan(src, dst, paths, pick)[j].target != ""
    decreases |paths|
  {
    hide Selected, Joined, Basename;
    var init, path := paths[..|paths| - 1], paths[|paths| - 1];
    if j < |Plan(src, dst, init, pick)| {
      PlanTargetsAreNamed(src, dst, init, pick, j);
    } else {
      JoinedExtends(dst, Basename(path));
    }
  }

  /** Taking back `b` undoes adding it, also when one more was lost in between. */
  lemma TakeBack(a: multiset<string>, b: multiset<string>, lost: multiset<string>)
    ensures ((a + b) - lost) - b == a - lost
  {
  }

  /**
   The failure path: `done` was mounted and recorded, `left` was mounted without
   being recorded, and the mount on `lost` was taken off without being ours.
   Unmounting the record leaves what was there before, plus `left`, minus `lost`.
   */
  method RollBack(k: Kernel, mnt: array<Option<string>>, size: nat, ghost before: Table, ghost done: Table,
                  ghost left: Option<string>, ghost lost: Option<string>)
    requires size <= mnt.Length && |done| <= size
    requires Ledger(TargetList(done), mnt[..])
    requires forall i :: 0 <= i < |done| ==> done[i].target != ""
    requires Targets(k.table) == Targets(before) + Single(left) + Targets(done) - Single(lost)
    modifies k`table
    ensures Targets(k.table) == Targets(before) + Single(left) - Single(lost)
  {
    hide Ledger, Single, DetachAll;
    ghost var t := k.table;
    ghost var names := TargetList(done);
    LedgerPlaces(names, mnt[..]);
    FilledOfLedger(names, mnt[..], size);
    assert mnt[..][..size] == mnt[..size];
    UnmountEntries(k, mnt, size);
    TargetsOfDetachAll(t, names);
    TakeBack(Targets(before) + Single(left), Targets(done), Single(lost));
  }

  lemma Reorder(a: multiset<string>, b: multiset<string>, c: multiset<string>)
    ensures a + b + c == a + c + b - Single(None)
    ensures a + c - Single(None) == a + c
  {
  }

  /** All of `paths` fit, and none of the calls for them fails when the first is number `base`. */
  ghost predicate Completes(src: string, dst: string, paths: seq<string>, pick: Filter, faults: nat -> bool, base: nat) {
    AllFit(src, dst, paths, pick) && NoFault(faults, base, base + FileCalls(|Plan(src, dst, paths, pick)|, pick))
  }

  /** The call for `path`, which begins with number `t`, fails with the bind made. */
  ghost predicate FailsBound(src: string, dst: string, path: string, pick: Filter, faults: nat -> bool, t: nat) {
    Fits(src, dst, path) && BindMade(faults, t, pick) && !NoFault(faults, t, t + FileCalls(1, pick))
  }

  /** The target whose bind is made but not recorded when the loop over `paths`, begun with call `base`, fails. */
  ghost function Flight(src: string, dst: string, paths: seq<string>, pick: Filter, faults: nat -> bool, base: nat): Option<string> {
    if paths == [] then None
    else
      var init, path := paths[..|paths| - 1], paths[|paths| - 1];
      if !Completes(src, dst, init, pick, faults, base) then Flight(src, dst, init, pick, faults, base)
      else if Selected(path, pick) && FailsBound(src, dst, path, pick, faults, base + FileCalls(|Plan(src, dst, init, pick)|, pick))
      then Some(Joined(dst, Basename(path)))
      else None
  }

  lemma FlightOfPush(src: string, dst: string, paths: seq<string>, i: nat, pick: Filter, faults: nat -> bool, base: nat)
    requires i < |paths| && Completes(src, dst, paths[..i], pick, faults, base)
    ensures Flight(src, dst, paths[..i + 1], pick, faults, base) ==
              if Selected(paths[i], pick)
                 && FailsBound(src, dst, paths[i], pick, faults, base + FileCalls(|Plan(src, dst, paths[..i], pick)|, pick))
              then Some(Joined(dst, Basename(paths[i]))) else None
  {
    hide Completes, FailsBound, Selected, Joined, Basename;
    assert paths[..i + 1][..i] == paths[..i];
  }

  /** What completes has completed at every shorter length. */
  lemma CompletesBefore(src: string, dst: string, paths: seq<string>, i: nat, pick: Filter, faults: nat -> bool, base: nat)
    requires i <= |paths| && Completes(src, dst, paths, pick, faults, base)
    ensures Completes(src, dst, paths[..i], pick, faults, base)
  {
    hide Plan, Selected, Fits;
    PlanGrows(src, dst, paths, i, pick);
    FileCallsGrow(|Plan(src, dst, paths[..i], pick)|, |Plan(src, dst, paths, pick)|, pick);
  }

  lemma FileCallsGrow(n: nat, m: nat, pick: Filter)
    requires n <= m
    ensures FileCalls(n, pick) <= FileCalls(m, pick)
  {
  }

  /** A failed prefix decides. */
  lemma {:induction false} FlightStays(src: string, dst: string, paths: seq<string>, i: nat, pick: Filter, faults: nat -> bool, base: nat)
    requires i <= |paths| && !Completes(src, dst, paths[..i], pick, faults, base)
    ensures Flight(src, dst, paths, pick, faults, base) == Flight(src, dst, paths[..i], pick, faults, base)
    decreases |paths|
  {
    hide Completes, FailsBound, Selected, Joined, Basename;
    if i == |paths| {
      assert paths[..i] == paths;
    } else {
      var init := paths[..|paths| - 1];
      assert init[..i] == paths[..i];
      if Completes(src, dst, init, pick, faults, base) { CompletesBefore(src, dst, init, i, pick, faults, base); }
      FlightStays(src, dst, init, i, pick, faults, base);
    }
  }

  /** The target in flight is a planned one. */
  lemma {:induction false} FlightIsPlanned(src: string, dst: string, paths: seq<string>, pick: Filter, faults: nat -> bool, base: nat)
    requires Flight(src, dst, paths, pick, faults, base).Some?
    ensures Flight(src, dst, paths, pick, faults, base).value in TargetList(Plan(src, dst, paths, pick))
    decreases |paths|
  {
    hide Selected, Joined, Basename, Completes, FailsBound;
    var init, path := paths[..|paths| - 1], paths[|paths| - 1];
    var plan, before := Plan(src, dst, paths, pick), Plan(src, dst, init, pick);
    if Completes(src, dst, init, pick, faults, base) {
      assert TargetList(plan)[|plan| - 1] == Joined(dst, Basename(path));
    } else {
      FlightIsPlanned(src, dst, init, pick, faults, base);
      var x := Flight(src, dst, init, pick, faults, base).value;
      var j :| 0 <= j < |before| && TargetList(before)[j] == x;
      assert plan[j] == before[j];
      assert TargetList(plan)[j] == x;
    }
  }

  /** Nothing is in flight when everything completes. */
  lemma NoFlight(src: string, dst: string, paths: seq<string>, pick: Filter, faults: nat -> bool, base: nat)
    requires Completes(src, dst, paths, pick, faults, base)
    ensures Flight(src, dst, paths, pick, faults, base) == None
  {
    hide Selected, Joined, Basename, FailsBound, Completes, Plan;
    if paths != [] {
      var i := |paths| - 1;
      assert paths[..i + 1] == paths;
      CompletesBefore(src, dst, paths, i, pick, faults, base);
      FlightOfPush(src, dst, paths, i, pick, faults, base);
      if Selected(paths[i], pick) { LastCompletes(src, dst, paths, i, pick, faults, base); }
    }
  }

  lemma LastCompletes(src: string, dst: string, paths: seq<string>, i: nat, pick: Filter, faults: nat -> bool, base: nat)
    requires i < |paths| && Completes(src, dst, paths[..i + 1], pick, faults, base) && Selected(paths[i], pick)
    ensures !FailsBound(src, dst, paths[i], pick, faults, base + FileCalls(|Plan(src, dst, paths[..i], pick)|, pick))
  {
    hide Selected, Plan, Fits, Joined, Basename, FileCalls;
    PlanOfPush(src, dst, paths, i, pick);
    FileCallsAdd(|Plan(src, dst, paths[..i], pick)|, |Plan(src, dst, paths[..i + 1], pick)|, pick);
  }

  /** Path `i` is mounted if no call fails: it is selected, and nothing up to it is too long. */
  ghost predicate Mountable(src: string, dst: string, paths: seq<string>, pick: Filter, i: nat) {
    i < |paths| && Selected(paths[i], pick) && AllFit(src, dst, paths[..i + 1], pick)
  }

  /** What is in flight was reached. */
  lemma {:induction false} FlightWasReached(src: string, dst: string, paths: seq<string>, pick: Filter, faults: nat -> bool, base: nat)
    requires Flight(src, dst, paths, pick, faults, base).Some?
    ensures exists i: nat :: Mountable(src, dst, paths, pick, i)
    decreases |paths|
  {
    hide Selected, Fits, Joined, Basename, Plan, BindMade, FileCalls;
    var n := |paths| - 1;
    var init := paths[..n];
    if Completes(src, dst, init, pick, faults, base) {
      assert paths[..n + 1] == paths;
      assert forall j :: 0 <= j < n ==> init[j] == paths[j];
      assert Mountable(src, dst, paths, pick, n);
    } else {
      FlightWasReached(src, dst, init, pick, faults, base);
      var i: nat :| Mountable(src, dst, init, pick, i);
      assert init[..i + 1] == paths[..i + 1];
      assert Mountable(src, dst, paths, pick, i);
    }
  }

  /** A plan that fits and is not empty reaches a path. */
  lemma {:induction false} PlanWasReached(src: string, dst: string, paths: seq<string>, pick: Filter)
    requires AllFit(src, dst, paths, pick) && Plan(src, dst, paths, pick) != []
    ensures exists i: nat :: Mountable(src, dst, paths, pick, i)
    decreases |paths|
  {
    hide Selected, Fits, Joined, Basename;
    var n := |paths| - 1;
    if Selected(paths[n], pick) {
      assert paths[..n + 1] == paths;
      assert Mountable(src, dst, paths, pick, n);
    } else {
      var init := paths[..n];
      assert forall j :: 0 <= j < n ==> init[j] == paths[j];
      PlanWasReached(src, dst, init, pick);
      var i: nat :| Mountable(src, dst, init, pick, i);
      assert init[..i + 1] == paths[..i + 1];
      assert Mountable(src, dst, paths, pick, i);
    }
  }

  /** Any selected path with nothing too long up to it can be left in flight: its remount is the one call that fails. */
  lemma FlightCanHappen(src: string, dst: string, paths: seq<string>, i: nat, pick: Filter, faults: nat -> bool, base: nat)
    requires Mountable(src, dst, paths, pick, i)
    requires OnlyFault(faults, base, RemountAt(src, dst, paths, i, pick, base))
    ensures Flight(src, dst, paths, pick, faults, base) == Some(Joined(dst, Basename(paths[i])))
  {
    hide Selected, Plan, Fits, Joined, Basename, AllFit, FileCalls, Flight;
    var n := |Plan(src, dst, paths[..i], pick)|;
    PlanOfPush(src, dst, paths, i, pick);
    FileCallsAdd(n, |Plan(src, dst, paths[..i + 1], pick)|, pick);
    OneFileCalls(pick);
    AllFitOfPush(src, dst, paths, i, pick);
    FlightOfPush(src, dst, paths, i, pick, faults, base);
    var at := RemountAt(src, dst, paths, i, pick, base);
    assert faults(at);
    assert !NoFault(faults, base, base + FileCalls(n + 1, pick));
    assert !NoFault(faults, base + FileCalls(n, pick), base + FileCalls(n, pick) + FileCalls(1, pick));
    FlightStays(src, dst, paths, i + 1, pick, faults, base);
  }

  lemma OneFileCalls(pick: Filter)
    ensures FileCalls(1, pick) >= 4
  {
  }

  /** When the remount for path `i` is called if nothing fails before. */
  function RemountAt(src: string, dst: string, paths: seq<string>, i: nat, pick: Filter, base: nat): nat
    requires i < |paths|
  {
    base + FileCalls(|Plan(src, dst, paths[..i], pick)|, pick) + FileCalls(1, pick) - 2
  }

  /** Mount a selected path, record its target, and cut both buffers back to where they were. */
  method MountAndRecord(k: Kernel, src: PathBuf, dst: PathBuf, list: array<Option<string>>, n: nat,
                        path: string, pick: Filter, ghost done: Table)
    returns (ok: bool, ghost bound: bool)
    requires src.Valid() && dst.Valid() && src != dst
    requires Ledger(TargetList(done), list[..]) && n == |done| < list.Length
    modifies k`clock, k`table, src, dst, list
    ensures src.Valid() && dst.Valid()
    ensures old(k.clock) <= k.clock <= old(k.clock) + FileCalls(1, pick)
    ensures ok ==> k.clock == old(k.clock) + FileCalls(1, pick)
    ensures ok <==> k.Clean(old(k.clock)) && Fits(old(src.text), old(dst.text), path)
    ensures ok ==> src.text == old(src.text) && dst.text == old(dst.text)
    ensures ok ==> k.table == old(k.table) + [Planned(src.text, dst.text, path)]
    ensures ok ==> Ledger(TargetList(done + [Planned(src.text, dst.text, path)]), list[..])
    ensures !ok ==> list[..] == old(list[..])
    ensures !ok ==> Targets(k.table) == old(Targets(k.table))
                    + Single(if bound then Some(Joined(old(dst.text), Basename(path))) else None)
    ensures bound <==> Fits(old(src.text), old(dst.text), path) && BindMade(k.faults, old(k.clock), pick)
  {
    hide Joined, Targets, Ledger, Basename, Fits, Single, BindMade, FileCalls;
    var srcEnd, dstEnd := |src.text|, |dst.text|;
    ghost var from, to := src.text, dst.text;
    ok, bound := MountOne(k, src, dst, path, pick);
    if !ok { return; }
    LedgerPush(TargetList(done), list[..], dst.text);
    assert TargetList(done + [Planned(from, to, path)]) == TargetList(done) + [dst.text];
    list[n] := Some(dst.text);
    JoinedExtends(from, path);
    JoinedExtends(to, Basename(path));
    src.Truncate(srcEnd);
    dst.Truncate(dstEnd);
  }

  /** What the failure path finds: named targets in the record, and at most one mount without record. */
  lemma FailedFile(before: Table, done: Table, from: string, to: string, paths: seq<string>, pick: Filter, left: Option<string>)
    requires to != "" && done == Plan(from, to, paths, pick)
    ensures Targets(before + done) + Single(left) == Targets(before) + Single(left) + Targets(done) - Single(None)
    ensures Targets(before) + Single(left) - Single(None) == Targets(before) + Single(left)
    ensures forall j :: 0 <= j < |done| ==> done[j].target != ""
  {
    hide Plan, Targets;
    TargetsOfConcat(before, done);
    Reorder(Targets(before), Targets(done), Single(left));
    forall j | 0 <= j < |done|
      ensures done[j].target != ""
    {
      PlanTargetsAreNamed(from, to, paths, pick, j);
    }
  }

  lemma NothingTooLong(src: string, dst: string, paths: seq<string>, pick: Filter)
    ensures AllFit(src, dst, paths[..0], pick)
  {
  }

  lemma AllFitOfPush(src: string, dst: string, paths: seq<string>, i: nat, pick: Filter)
    requires i < |paths|
    ensures AllFit(src, dst, paths[..i + 1], pick) <==>
              AllFit(src, dst, paths[..i], pick) && (Selected(paths[i], pick) ==> Fits(src, dst, paths[i]))
    ensures AllFit(src, dst, paths, pick) ==> AllFit(src, dst, paths[..i + 1], pick)
  {
    hide Selected, Fits;
    assert paths[..i + 1] == paths[..i] + [paths[i]];
  }

  lemma NoFileCalls(pick: Filter)
    ensures FileCalls(0, pick) == 0
  {
  }

  lemma FileCallsAdd(n: nat, m: nat, pick: Filter)
    requires n + 1 <= m
    ensures FileCalls(n, pick) + FileCalls(1, pick) == FileCalls(n + 1, pick) <= FileCalls(m, pick)
  {
  }

  /** The loop of mount_files, with its failure path. */
  method MountAll(k: Kernel, src: PathBuf, dst: PathBuf, list: array<Option<string>>, paths: seq<string>, pick: Filter)
    returns (ok: bool, ghost left: Option<string>)
    requires src.Valid() && dst.Valid() && src != dst && dst.text != ""
    requires list.Length == |paths| + 1 && list[..] == Blank(|paths| + 1)
    modifies k`clock, k`table, src, dst, list
    ensures var calls := FileCalls(|Plan(old(src.text), old(dst.text), paths, pick)|, pick);
            old(k.clock) <= k.clock <= old(k.clock) + calls && (ok ==> k.clock == old(k.clock) + calls)
    ensures ok <==> k.Clean(old(k.clock)) && AllFit(old(src.text), old(dst.text), paths, pick)
    ensures ok ==> var plan := Plan(old(src.text), old(dst.text), paths, pick);
                   k.table == old(k.table) + plan && Ledger(TargetList(plan), list[..])
    ensures !ok ==> Targets(k.table) == old(Targets(k.table)) + Single(left)
    ensures left == Flight(old(src.text), old(dst.text), paths, pick, k.faults, old(k.clock)) && (ok ==> left.None?)
  {
    hide Joined, Targets, Ledger, Selected, Basename, Fits, Plan, Single, Planned, FileCalls, Flight, BindMade, AllFit;
    left := None;
    ghost var from, to, before := src.text, dst.text, k.table;
    LedgerStart(list[..]);
    ghost var done: Table := [];
    PlanOfNothing(from, to, paths, pick);
    assert TargetList(done) == [];
    assert before + done == before;
    NoFileCalls(pick);
    NothingTooLong(from, to, paths, pick);
    var i := 0;
    var n := 0;
    while i < |paths|
      invariant 0 <= i <= |paths| && n == |done| <= i
      invariant src.Valid() && dst.Valid() && src.text == from && dst.text == to
      invariant done == Plan(from, to, paths[..i], pick)
      invariant k.table == before + done
      invariant Ledger(TargetList(done), list[..])
      invariant k.clock == old(k.clock) + FileCalls(n, pick) && k.Clean(old(k.clock))
      invariant AllFit(from, to, paths[..i], pick)
    {
      PlanOfPush(from, to, paths, i, pick);
      AllFitOfPush(from, to, paths, i, pick);
      if Selected(paths[i], pick) {
        ghost var bound;
        PlanGrows(from, to, paths, i + 1, pick);
        FileCallsAdd(n, |Plan(from, to, paths, pick)|, pick);
        ok, bound := MountAndRecord(k, src, dst, list, n, paths[i], pick, done);
        if !ok {
          left := if bound then Some(Joined(to, Basename(paths[i]))) else None;
          LeftInFlight(from, to, paths, i, pick, k.faults, old(k.clock));
          FailedFile(before, done, from, to, paths[..i], pick, left);
          RollBack(k, list, |paths|, before, done, left, None);
          return;
        }
        assert before + (done + [Planned(from, to, paths[i])]) == before + done + [Planned(from, to, paths[i])];
        done := done + [Planned(from, to, paths[i])];
        n := n + 1;
      }
      i := i + 1;
    }
    assert paths[..i] == paths;
    NoFlight(from, to, paths, pick, k.faults, old(k.clock));
    ok := true;
  }

  /** The loop fails at path `i`. */
  lemma LeftInFlight(src: string, dst: string, paths: seq<string>, i: nat, pick: Filter, faults: nat -> bool, base: nat)
    requires i < |paths| && Selected(paths[i], pick) && Completes(src, dst, paths[..i], pick, faults, base)
    requires var t := base + FileCalls(|Plan(src, dst, paths[..i], pick)|, pick);
             !(Fits(src, dst, paths[i]) && NoFault(faults, t, t + FileCalls(1, pick)))
    ensures Flight(src, dst, paths, pick, faults, base) ==
              if Fits(src, dst, paths[i]) && BindMade(faults, base + FileCalls(|Plan(src, dst, paths[..i], pick)|, pick), pick)
              then Some(Joined(dst, Basename(paths[i]))) else None
  {
    hide Selected, Plan, Fits, Joined, Basename, FileCalls, BindMade, Flight;
    FlightOfPush(src, dst, paths, i, pick, faults, base);
    PlanOfPush(src, dst, paths, i, pick);
    FileCallsAdd(|Plan(src, dst, paths[..i], pick)|, |Plan(src, dst, paths[..i + 1], pick)|, pick);
    assert paths[..i + 1][i] == paths[i];
    FlightStays(src, dst, paths, i + 1, pick, faults, base);
  }

  /** The part mount_files and mount_driverstore_files share, from resolving the destination directory on. */
  method MountInto(k: Kernel, src: PathBuf, view: View, dir: string, paths: seq<string>, pick: Filter)
    returns (mnt: array?<Option<string>>, ghost left: Option<string>)
    requires src.Valid()
    modifies k`clock, k`table, src
    ensures old(k.clock) <= k.clock <= old(k.clock) + MountCalls(old(src.text), Destination(view, dir), paths, pick)
    ensures mnt != null ==> k.clock == old(k.clock) + MountCalls(old(src.text), Destination(view, dir), paths, pick)
    ensures mnt != null <==> k.Clean(old(k.clock)) && PlanFits(old(src.text), Destination(view, dir), paths, pick)
    ensures mnt != null ==> fresh(mnt) && Mounted(k, mnt, old(k.table), old(src.text), Destination(view, dir), paths, pick)
    ensures mnt == null ==> Targets(k.table) == old(Targets(k.table)) + Single(left)
    ensures mnt != null ==> left.None?
    ensures left == MountFlight(old(src.text), Destination(view, dir), paths, pick, k.faults, old(k.clock))
  {
    hide Joined, Targets, Ledger, Plan, AllFit, Selected, Basename, Destination, Flight, FileCalls, Single;
    left := None;
    PlusNone(k.table);
    var ok := k.Attempt();    // the calls of path_resolve_full
    var where := Destination(view, dir);
    if !ok || where.None? {
      return null, left;
    }
    ok := k.Attempt();        // file_create of the directory
    if !ok {
      return null, left;
    }
    ok := k.Attempt();        // array_new
    if !ok {
      return null, left;
    }
    var dst := new PathBuf();
    dst.text := where.value;
    var list := new Option<string>[|paths| + 1](_ => None);
    assert list[..] == Blank(|paths| + 1);
    ok, left := MountAll(k, src, dst, list, paths, pick);
    return if ok then list else null, left;
  }

  lemma PlusOne(before: Table, m: Mount)
    ensures Targets(before + [m]) == Targets(before) + Single(Some(m.target))
  {
    hide Targets;
    TargetsOfPush(before, m);
  }

  lemma PlusNone(before: Table)
    ensures Targets(before) + Single(None) == Targets(before)
  {
  }

  /** The calls of a whole mount_files that succeeds; one that fails makes at most as many. */
  function MountCalls(src: string, where: Option<string>, paths: seq<string>, pick: Filter): nat {
    3 + if where.None? then 0 else FileCalls(|Plan(src, where.value, paths, pick)|, pick)
  }

  /** What mount_files, begun with call `t`, leaves mounted when it fails. */
  ghost function MountFlight(src: string, where: Option<string>, paths: seq<string>, pick: Filter, faults: nat -> bool, t: nat): Option<string> {
    if where.None? || !NoFault(faults, t, t + 3) then None else Flight(src, where.value, paths, pick, faults, t + 3)
  }

  /** The destination resolves and every text fits its buffer. */
  ghost predicate PlanFits(src: string, where: Option<string>, paths: seq<string>, pick: Filter) {
    where.Some? && AllFit(src, where.value, paths, pick)
  }

  /** The planned mounts lie on top of `before`, and `mnt` is their null-terminated list. */
  ghost predicate Mounted(k: Kernel, mnt: array<Option<string>>, before: Table,
                          src: string, where: Option<string>, paths: seq<string>, pick: Filter)
    reads k`table, mnt
  {
    && where.Some? && mnt.Length == |paths| + 1
    && var plan := Plan(src, where.value, paths, pick);
       k.table == before + plan && Ledger(TargetList(plan), mnt[..])
  }

  /**
   mount_files.  On success exactly the selected paths are mounted, in order, and
   the list of targets is null-terminated; on failure the mount counts are those
   at entry plus at most the one bind in flight.
   */
  method MountFiles(k: Kernel, root: string, view: View, dir: string, paths: seq<string>, flags: Flags)
    returns (mnt: array?<Option<string>>, ghost left: Option<string>)
    modifies k`clock, k`table
    ensures var calls := MountCalls(Joined("", root), Destination(view, dir), paths, ByFlags(flags));
            old(k.clock) <= k.clock <= old(k.clock) + calls && (mnt != null ==> k.clock == old(k.clock) + calls)
    ensures mnt != null <==>
              && k.Clean(old(k.clock)) && |Joined("", root)| < PATH_MAX
              && PlanFits(Joined("", root), Destination(view, dir), paths, ByFlags(flags))
    ensures mnt != null ==>
              fresh(mnt) && Mounted(k, mnt, old(k.table), Joined("", root), Destination(view, dir), paths, ByFlags(flags))
    ensures mnt == null ==> Targets(k.table) == old(Targets(k.table)) + Single(left)
    ensures mnt != null ==> left.None?
    ensures left == if |Joined("", root)| >= PATH_MAX then None
                    else MountFlight(Joined("", root), Destination(view, dir), paths, ByFlags(flags), k.faults, old(k.clock))
  {
    hide Joined, Targets, Mounted, PlanFits, MountCalls, MountFlight, Destination;
    var src := new PathBuf();
    var ok := src.New(root);
    if !ok {
      assert Targets(k.table) + multiset{} == Targets(k.table);
      return null, None;
    }
    mnt, left := MountInto(k, src, view, dir, paths, ByFlags(flags));
  }

  /** mount_driverstore_files: every file of one host directory, below the same directory of the container. */
  method MountDriverStore(k: Kernel, root: string, view: View, store: string, files: seq<string>)
    returns (mnt: array?<Option<string>>, ghost left: Option<string>)
    modifies k`clock, k`table
    ensures old(k.clock) <= k.clock <= old(k.clock) + StoreCalls(root, view, store, files)
    ensures mnt != null ==> k.clock == old(k.clock) + StoreCalls(root, view, store, files)
    ensures mnt != null <==>
              && k.Clean(old(k.clock)) && JoinPaths(root, store).Some?
              && PlanFits(JoinPaths(root, store).value, Destination(view, store), files, Everything)
    ensures mnt != null ==>
              && fresh(mnt)
              && Mounted(k, mnt, old(k.table), JoinPaths(root, store).value, Destination(view, store), files, Everything)
    ensures mnt == null ==> Targets(k.table) == old(Targets(k.table)) + Single(left)
    ensures mnt != null ==> left.None?
    ensures left == if JoinPaths(root, store).None? then None
                    else MountFlight(JoinPaths(root, store).value, Destination(view, store), files, Everything, k.faults, old(k.clock))
  {
    hide Targets, Mounted, PlanFits, MountCalls, MountFlight, Destination, JoinPaths;
    var src := new PathBuf();
    var ok := src.Join(root, store);
    if !ok {
      assert Targets(k.table) + multiset{} == Targets(k.table);
      return null, None;
    }
    mnt, left := MountInto(k, src, view, store, files, Everything);
  }

  function StoreCalls(root: string, view: View, store: string, files: seq<string>): nat {
    if JoinPaths(root, store).None? then 0 else MountCalls(JoinPaths(root, store).value, Destination(view, store), files, Everything)
  }

  lemma {:induction false} PlanGrows(src: string, dst: string, paths: seq<string>, i: nat, pick: Filter)
    requires i <= |paths|
    ensures |Plan(src, dst, paths[..i], pick)| <= |Plan(src, dst, paths, pick)|
    decreases |paths|
  {
    if i < |paths| {
      assert paths[..|paths| - 1][..i] == paths[..i];
      PlanGrows(src, dst, paths[..|paths| - 1], i, pick);
    } else {
      assert paths[..i] == paths;
    }
  }

  /** A name that begins like one of `names`, none of which is empty or starts with a dot, is neither. */
  lemma PrefixGivesName(name: string, names: seq<string>)
    requires MatchPrefix(name, names) && forall i :: 0 <= i < |names| ==> names[i] != "" && names[i][0] != '.'
    ensures name != "" && name[0] != '.'
  {
    var i :| 0 <= i < |names| && HasPrefix(name, names[i]);
    assert name[..|names[i]|][0] == names[i][0];
  }

  lemma TablesHaveNames(name: string)
    requires || MatchPrefix(name, UTILITY_BINS) || MatchPrefix(name, UTILITY_LIBS) || MatchPrefix(name, COMPUTE_LIBS)
             || MatchPrefix(name, VIDEO_LIBS) || MatchPrefix(name, GRAPHICS_LIBS) || MatchPrefix(name, DXCORE_LIBS)
    ensures name != "" && name[0] != '.'
  {
    hide MatchPrefix;
    if MatchPrefix(name, UTILITY_BINS) { PrefixGivesName(name, UTILITY_BINS); }
    if MatchPrefix(name, UTILITY_LIBS) { PrefixGivesName(name, UTILITY_LIBS); }
    if MatchPrefix(name, COMPUTE_LIBS) { PrefixGivesName(name, COMPUTE_LIBS); }
    if MatchPrefix(name, VIDEO_LIBS) { PrefixGivesName(name, VIDEO_LIBS); }
    if MatchPrefix(name, GRAPHICS_LIBS) { PrefixGivesName(name, GRAPHICS_LIBS); }
    if MatchPrefix(name, DXCORE_LIBS) { PrefixGivesName(name, DXCORE_LIBS); }
  }

  /** The tables hold no name that starts with a dot, so a file the options ask for has a proper name. */
  lemma SelectedHasName(path: string, flags: Flags)
    requires Selected(path, ByFlags(flags))
    ensures IsName(Basename(path))
  {
    hide LastIndexOf, HasPrefix, MatchPrefix;
    var name := Basename(path);
    assert '/' !in name;
    TablesHaveNames(name);
  }

  /** A planned mount goes to a proper name in the destination directory, so it stays under the container's root. */
  lemma {:induction false} PlanIsUnder(rootfs: string, src: string, dst: string, paths: seq<string>, flags: Flags, j: nat)
    requires Under(rootfs, dst) && j < |Plan(src, dst, paths, ByFlags(flags))|
    ensures Under(rootfs, Plan(src, dst, paths, ByFlags(flags))[j].target)
    decreases |paths|
  {
    hide Selected, Joined, Basename, Under, IsName;
    var init, path := paths[..|paths| - 1], paths[|paths| - 1];
    if j < |Plan(src, dst, init, ByFlags(flags))| {
      PlanIsUnder(rootfs, src, dst, init, flags, j);
    } else {
      SelectedHasName(path, flags);
      UnderGrows(rootfs, dst, Basename(path));
    }
  }

  /** Without a filter every file is planned, in order. */
  lemma {:induction false} EverythingIsPlanned(src: string, dst: string, files: seq<string>, j: nat)
    requires j < |files|
    ensures |Plan(src, dst, files, Everything)| == |files| && Plan(src, dst, files, Everything)[j] == Planned(src, dst, files[j])
    decreases |files|
  {
    hide Planned;
    var n := |files| - 1;
    if n > 0 { EverythingIsPlanned(src, dst, files[..n], if j < n then j else 0); }
  }

  /** Apart from a dot or two, the name of a file stays under the root. */
  lemma NameStaysUnder(rootfs: string, dst: string, file: string)
    requires Under(rootfs, dst)
    ensures Under(rootfs, Joined(dst, Basename(file))) <==> Basename(file) != "." && Basename(file) != ".."
  {
    hide Components, LastIndexOf;
    var name := Basename(file);
    assert '/' !in name;
    if IsName(name) {
      UnderGrows(rootfs, dst, name);
    } else if name != "" {
      DotsAreNotUnder(rootfs, dst, name);
    }
  }

  lemma PlanOfNothing(src: string, dst: string, paths: seq<string>, pick: Filter)
    ensures Plan(src, dst, paths[..0], pick) == []
  {
  }

  // ---------------------------------------------------------------------
  // What is mounted
  // ---------------------------------------------------------------------

  /** The name behind the last slash, or the whole text without one. */
  lemma BasenameIs(dir: string, name: string)
    requires '/' !in name
    ensures Basename(dir + "/" + name) == name && Basename(name) == name
  {
    hide LastIndexOf;
    LastSlash(dir, name);
    var path := dir + "/" + name;
    assert path[|dir| + 1..] == name;
    NoLastSlash(name);
  }

  lemma NoLastSlash(name: string)
    requires '/' !in name
    ensures LastIndexOf(name, '/') == -1
  {
  }

  /** A file is selected by its name, as a binary or as a library. */
  lemma SelectedByName(dir: string, name: string, flags: Flags)
    requires '/' !in name
    ensures Selected(dir + "/" + name, ByFlags(flags)) <==> MatchBinaryFlags(name, flags) || MatchLibraryFlags(name, flags)
    ensures Selected(dir + "/" + name, Everything)
  {
    hide Basename, MatchBinaryFlags, MatchLibraryFlags;
    BasenameIs(dir, name);
  }

  /** The mount of a file leads from the path below the source to its name below the destination, read-only, without devices or set-user-id programs. */
  lemma PlannedLeads(src: string, dst: string, dir: string, name: string)
    requires IsComponent(name)
    ensures var m := Planned(src, dst, dir + "/" + name);
            && Components(m.source) == Components(src) + Components(dir) + [name]
            && Components(m.target) == Components(dst) + [name]
            && m.flags == {ReadOnly, NoDev, NoSuid}
  {
    hide Components, Joined, Basename;
    BasenameIs(dir, name);
    JoinConcatenates(src, dir + "/" + name);
    JoinConcatenates(dst, name);
    ComponentsOfCut(dir, name);
    ComponentsOfComponent(name);
    ConcatAssociates(Components(src), Components(dir), [name]);
  }

  /** Every selected path has its mount, at the number of selected paths before it. */
  lemma {:induction false} PlanPlaces(src: string, dst: string, paths: seq<string>, pick: Filter, i: nat)
    requires i < |paths| && Selected(paths[i], pick)
    ensures var n := |Plan(src, dst, paths[..i], pick)|;
            n < |Plan(src, dst, paths, pick)| && Plan(src, dst, paths, pick)[n] == Planned(src, dst, paths[i])
    decreases |paths|
  {
    hide Selected, Planned;
    var last := |paths| - 1;
    if i < last {
      assert paths[..last][..i] == paths[..i];
      PlanPlaces(src, dst, paths[..last], pick, i);
    }
  }

  /** And nothing else is mounted. */
  lemma {:induction false} PlanHasOnly(src: string, dst: string, paths: seq<string>, pick: Filter, j: nat)
    requires j < |Plan(src, dst, paths, pick)|
    ensures exists i: nat :: i < |paths| && Selected(paths[i], pick) && |Plan(src, dst, paths[..i], pick)| == j
    decreases |paths|
  {
    hide Selected, Planned;
    var last := |paths| - 1;
    var init := paths[..last];
    if j < |Plan(src, dst, init, pick)| {
      PlanHasOnly(src, dst, init, pick, j);
      var i: nat :| i < |init| && Selected(init[i], pick) && |Plan(src, dst, init[..i], pick)| == j;
      assert init[..i] == paths[..i] && init[i] == paths[i];
    } else {
      assert Selected(paths[last], pick) && |Plan(src, dst, paths[..last], pick)| == j;
    }
  }

  /** Two filters that select the same paths plan the same mounts. */
  lemma {:induction false} SameSelectionSamePlan(src: string, dst: string, paths: seq<string>, p: Filter, q: Filter)
    requires forall i :: 0 <= i < |paths| ==> (Selected(paths[i], p) <==> Selected(paths[i], q))
    ensures Plan(src, dst, paths, p) == Plan(src, dst, paths, q)
    decreases |paths|
  {
    hide Selected, Planned;
    if paths != [] { SameSelectionSamePlan(src, dst, paths[..|paths| - 1], p, q); }
  }
}
