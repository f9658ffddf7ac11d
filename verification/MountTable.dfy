/**
 The mount table of the container's namespace as the mounting code sees it, and
 the system calls that change it.  Every call but umount2 may fail: `faults(k)`
 says whether the k-th one does.  umount2 with MNT_DETACH takes the topmost
 mount off its target and fails only when there is none.
 */
module MountTable {
  import opened CStrings
  import opened Schedules

  datatype MsFlag = ReadOnly | NoDev | NoSuid | NoExec

  /** A bind mount; a fresh one has no flags until it is remounted with some. */
  datatype Mount = Mount(source: string, target: string, flags: set<MsFlag>)

  const FILE_FLAGS: set<MsFlag> := {ReadOnly, NoDev, NoSuid}
  const DEVICE_FLAGS: set<MsFlag> := {ReadOnly, NoSuid, NoExec}

  type Table = seq<Mount>

  /** Major and minor number. */
  datatype DeviceId = DeviceId(major: nat, minor: nat)

  datatype Namespace = Host | Container

  /** The targets of a table, oldest first. */
  function TargetList(t: Table): (r: seq<string>)
    ensures |r| == |t| && forall i :: 0 <= i < |t| ==> r[i] == t[i].target
  {
    seq(|t|, i requires 0 <= i < |t| => t[i].target)
  }

  /** How often each target is mounted on. */
  ghost function Targets(t: Table): multiset<string> {
    multiset(TargetList(t))
  }

  /** The table without the topmost mount on `target`. */
  function Detach(t: Table, target: string): Table {
    if t == [] then []
    else
      var init, last := t[..|t| - 1], t[|t| - 1];
      if last.target == target then init else Detach(init, target) + [last]
  }

  /** The table with the flags of the topmost mount on `target` set. */
  function SetFlags(t: Table, target: string, flags: set<MsFlag>): Table {
    if t == [] then []
    else
      var init, last := t[..|t| - 1], t[|t| - 1];
      if last.target == target then init + [last.(flags := flags)] else SetFlags(init, target, flags) + [last]
  }

  class Kernel {
    const faults: nat -> bool
    var clock: nat
    var ns: Namespace
    var table: Table
    var rules: seq<DeviceId>   // the devices the container's cgroup has been allowed

    constructor (faults: nat -> bool, table: Table)
      ensures this.faults == faults && this.table == table && clock == 0 && ns == Host && rules == []
    {
      this.faults, this.table, this.clock, this.ns, this.rules := faults, table, 0, Host, [];
    }

    /** No call since `from` has failed. */
    ghost predicate Clean(from: nat)
      reads this
    {
      NoFault(faults, from, clock)
    }

    /** A call with no effect on what is modelled: stat, file creation, string copies. */
    method Attempt() returns (ok: bool)
      modifies this`clock
      ensures clock == old(clock) + 1 && ok == !faults(old(clock))
    {
      ok := !faults(clock);
      clock := clock + 1;
    }

    method Bind(source: string, target: string) returns (ok: bool)
      modifies this`clock, this`table
      ensures clock == old(clock) + 1 && ok == !faults(old(clock))
      ensures table == if ok then old(table) + [Mount(source, target, {})] else old(table)
    {
      ok := Attempt();
      if ok { table := table + [Mount(source, target, {})]; }
    }

    /** setup_device_cgroup */
    method Allow(id: DeviceId) returns (ok: bool)
      modifies this`clock, this`rules
      ensures clock == old(clock) + 1 && ok == !faults(old(clock))
      ensures rules == if ok then old(rules) + [id] else old(rules)
    {
      ok := Attempt();
      if ok { rules := rules + [id]; }
    }

    method Remount(target: string, flags: set<MsFlag>) returns (ok: bool)
      modifies this`clock, this`table
      ensures clock == old(clock) + 1 && ok == !faults(old(clock))
      ensures table == if ok then SetFlags(old(table), target, flags) else old(table)
    {
      ok := Attempt();
      if ok { table := SetFlags(table, target, flags); }
    }

    /** unmount() of src/nvc_mount.c: nothing for an empty path, otherwise the topmost mount goes. */
    method Unmount(target: string)
      modifies this`table
      ensures table == if target == "" then old(table) else Detach(old(table), target)
    {
      if target != "" { table := Detach(table, target); }
    }

    method EnterNamespace(which: Namespace) returns (ok: bool)
      modifies this`clock, this`ns
      ensures clock == old(clock) + 1 && ok == !faults(old(clock))
      ensures ns == if ok then which else old(ns)
    {
      ok := Attempt();
      if ok { ns := which; }
    }
  }

  lemma TargetsOfConcat(a: Table, b: Table)
    ensures Targets(a + b) == Targets(a) + Targets(b)
  {
    assert TargetList(a + b) == TargetList(a) + TargetList(b);
  }

  lemma TargetsOfPush(t: Table, m: Mount)
    ensures Targets(t + [m]) == Targets(t) + multiset{m.target}
  {
    assert TargetList(t + [m]) == TargetList(t) + [m.target];
  }

  /** Taking away one list of targets and then another is taking away both. */
  lemma MinusTwice(a: multiset<string>, b: multiset<string>, c: multiset<string>)
    ensures (a - b) - c == a - (b + c)
  {
  }

  lemma SetFlagsOfPush(t: Table, m: Mount, flags: set<MsFlag>)
    ensures SetFlags(t + [m], m.target, flags) == t + [m.(flags := flags)]
  {
  }

  lemma DetachOfPush(t: Table, m: Mount)
    ensures Detach(t + [m], m.target) == t
  {
  }

  /** Setting flags moves nothing. */
  lemma {:induction false} TargetsOfSetFlags(t: Table, target: string, flags: set<MsFlag>)
    ensures Targets(SetFlags(t, target, flags)) == Targets(t)
  {
    hide Targets;
    if t != [] {
      var init, last := t[..|t| - 1], t[|t| - 1];
      assert init + [last] == t;
      TargetsOfPush(init, last);
      if last.target == target {
        TargetsOfPush(init, last.(flags := flags));
      } else {
        TargetsOfSetFlags(init, target, flags);
        TargetsOfPush(SetFlags(init, target, flags), last);
      }
    }
  }

  /** Detaching lowers one count by one, unless it is already zero. */
  lemma {:induction false} TargetsOfDetach(t: Table, target: string)
    ensures Targets(Detach(t, target)) == Targets(t) - multiset{target}
  {
    if t == [] {
      assert Targets(t) == multiset{};
    } else {
      var init, last := t[..|t| - 1], t[|t| - 1];
      assert init + [last] == t;
      TargetsOfPush(init, last);
      if last.target != target {
        TargetsOfDetach(init, target);
        TargetsOfPush(Detach(init, target), last);
      }
    }
  }

  /** Detaching every target of a list, in order. */
  function DetachAll(t: Table, targets: seq<string>): Table {
    if targets == [] then t else Detach(DetachAll(t, targets[..|targets| - 1]), targets[|targets| - 1])
  }

  lemma {:induction false} TargetsOfDetachAll(t: Table, targets: seq<string>)
    ensures Targets(DetachAll(t, targets)) == Targets(t) - multiset(targets)
  {
    hide Targets;
    if targets != [] {
      var init, last := targets[..|targets| - 1], targets[|targets| - 1];
      assert multiset(targets) == multiset(init) + multiset{last} by { assert targets == init + [last]; }
      calc {
        Targets(DetachAll(t, targets));
        { TargetsOfDetach(DetachAll(t, init), last); }
        Targets(DetachAll(t, init)) - multiset{last};
        { TargetsOfDetachAll(t, init); }
        Targets(t) - multiset(init) - multiset{last};
        { MinusTwice(Targets(t), multiset(init), multiset{last}); }
        Targets(t) - multiset(targets);
      }
    }
  }
}
