/**
 make_ancestors (src/utils.c): recursive directory creation on a path buffer
 that is cut at its last slash on the way down and mended on the way up.
 */
module Ancestors {
  import opened CStrings
  import opened Paths
  import opened Schedules

  datatype Kind = Directory | Other

  type Nodes = map<string, Kind>

  /** The path one level up, for a path with a slash. */
  function Up(path: string): string
    requires LastIndexOf(path, '/') >= 0
  {
    path[..LastIndexOf(path, '/')]
  }

  /** Paths make_ancestors takes for granted: the root, and those relative to a dot. */
  predicate Granted(path: string) {
    path == "" || path[0] == '.'
  }

  /** Something above `path` is not a directory, so that stat fails with ENOTDIR. */
  predicate Blocked(nodes: Nodes, path: string)
    decreases |path|
  {
    LastIndexOf(path, '/') >= 0
    && ((Up(path) in nodes && nodes[Up(path)].Other?) || Blocked(nodes, Up(path)))
  }

  /** mkdir finds a directory to put `path` in. */
  predicate HasParent(nodes: Nodes, path: string) {
    LastIndexOf(path, '/') < 0 || Granted(Up(path)) || (Up(path) in nodes && nodes[Up(path)].Directory?)
  }

  class Disk {
    const faults: nat -> bool
    var clock: nat
    var nodes: Nodes
    var made: seq<string>      // the directories created, in order

    constructor (faults: nat -> bool, nodes: Nodes)
      ensures this.faults == faults && this.nodes == nodes && made == [] && clock == 0
    {
      this.faults, this.nodes, this.made, this.clock := faults, nodes, [], 0;
    }

    ghost predicate Clean(from: nat)
      reads this
    {
      NoFault(faults, from, clock)
    }

    /** stat may also fail for reasons of its own. */
    method Probe() returns (ok: bool)
      modifies this`clock
      ensures clock == old(clock) + 1 && ok == !faults(old(clock))
    {
      ok := !faults(clock);
      clock := clock + 1;
    }

    method Mkdir(path: string) returns (ok: bool)
      modifies this
      ensures clock == old(clock) + 1
      ensures ok <==> !faults(old(clock)) && path !in old(nodes) && HasParent(old(nodes), path)
      ensures nodes == if ok then old(nodes)[path := Directory] else old(nodes)
      ensures made == if ok then old(made) + [path] else old(made)
    {
      ok := !faults(clock) && path !in nodes && HasParent(nodes, path);
      clock := clock + 1;
      if ok { nodes, made := nodes[path := Directory], made + [path]; }
    }
  }

  /** What must be created for `path` to be a directory, shortest first; None when something is in the way. */
  function Needed(nodes: Nodes, path: string): Option<seq<string>>
    decreases |path|
  {
    if Granted(path) then Some([])
    else if path in nodes then (if nodes[path].Directory? then Some([]) else None)
    else if Blocked(nodes, path) then None
    else if LastIndexOf(path, '/') < 0 then Some([path])
    else match Needed(nodes, Up(path))
      case None => None
      case Some(list) => Some(list + [path])
  }

  function AddAll(nodes: Nodes, list: seq<string>): Nodes {
    if list == [] then nodes else AddAll(nodes, list[..|list| - 1])[list[|list| - 1] := Directory]
  }

  /** The C string a buffer holds. */
  function CStr(b: seq<char>): string {
    b[..IndexOf(b, '\0')]
  }

  /** Writing a NUL over the last slash leaves the path one level up; writing the slash back restores the buffer. */
  lemma CutAtSlash(b: seq<char>)
    requires '\0' in b && LastIndexOf(CStr(b), '/') >= 0
    ensures var p := LastIndexOf(CStr(b), '/');
            && p < |b| && b[p] == '/'
            && '\0' in b[p := '\0'] && CStr(b[p := '\0']) == Up(CStr(b))
            && b[p := '\0'][p := '/'] == b
  {
    var p := LastIndexOf(CStr(b), '/');
    var cut := b[p := '\0'];
    assert cut[p] == '\0';
    IndexOfIs(cut, '\0', p);
    assert cut[..p] == CStr(b)[..p];
  }

  /** Everything that had to be made is a prefix at least as long as none and at most as long as the path. */
  lemma {:induction false} NeededShape(nodes: Nodes, path: string, i: nat)
    requires Needed(nodes, path).Some? && i < |Needed(nodes, path).value|
    ensures var x := Needed(nodes, path).value[i]; |x| <= |path| && x !in nodes
    decreases |path|
  {
    if LastIndexOf(path, '/') >= 0 && i < |Needed(nodes, path).value| - 1 {
      NeededShape(nodes, Up(path), i);
    }
  }

  lemma {:induction false} InAddAll(nodes: Nodes, list: seq<string>, x: string)
    ensures x in AddAll(nodes, list) <==> x in nodes || x in list
    ensures x in list ==> AddAll(nodes, list)[x] == Directory
    ensures x in nodes && x !in list ==> AddAll(nodes, list)[x] == nodes[x]
    decreases |list|
  {
    if list != [] {
      var init, last := list[..|list| - 1], list[|list| - 1];
      InAddAll(nodes, init, x);
      assert list == init + [last];
    }
  }

  /** After the recursive call the directory above is there and the path itself is still missing. */
  lemma ReadyForMkdir(nodes: Nodes, path: string)
    requires !Granted(path) && path !in nodes && LastIndexOf(path, '/') >= 0 && Needed(nodes, Up(path)).Some?
    ensures var now := AddAll(nodes, Needed(nodes, Up(path)).value);
            path !in now && HasParent(now, path)
  {
    hide AddAll;
    var up := Up(path);
    var list := Needed(nodes, up).value;
    InAddAll(nodes, list, path);
    if path in list {
      var i :| 0 <= i < |list| && list[i] == path;
      NeededShape(nodes, up, i);
    }
    InAddAll(nodes, list, up);
    if !Granted(up) && up !in nodes { assert up == list[|list| - 1]; }
  }

  lemma AddAllOfPush(nodes: Nodes, list: seq<string>, x: string)
    ensures AddAll(nodes, list + [x]) == AddAll(nodes, list)[x := Directory]
  {
  }

  /** The directories to create, none when something is in the way. */
  function NeededList(nodes: Nodes, path: string): seq<string> {
    var r := Needed(nodes, path);
    if r.Some? then r.value else []
  }

  /** The first `m` of the needed directories have been created, in order, and nothing else. */
  ghost predicate MadeFirst(disk: Disk, made: seq<string>, nodes: Nodes, list: seq<string>, m: nat)
    reads disk
  {
    m <= |list| && disk.made == made + list[..m] && disk.nodes == AddAll(nodes, list[..m])
  }

  /** Some slashes of the buffer have been overwritten and not restored. */
  ghost predicate Torn(before: seq<char>, now: seq<char>) {
    && |before| == |now|
    && forall i :: 0 <= i < |now| ==> now[i] == before[i] || (before[i] == '/' && now[i] == '\0')
  }

  /** One level below what the recursive call was asked for. */
  lemma NeededFromUp(nodes: Nodes, path: string, m: nat)
    requires !Granted(path) && path !in nodes && !Blocked(nodes, path) && LastIndexOf(path, '/') >= 0
    requires m <= |NeededList(nodes, Up(path))|
    ensures Needed(nodes, path).Some? <==> Needed(nodes, Up(path)).Some?
    ensures Needed(nodes, path).Some? ==> NeededList(nodes, path) == NeededList(nodes, Up(path)) + [path]
    ensures m <= |NeededList(nodes, path)| && NeededList(nodes, path)[..m] == NeededList(nodes, Up(path))[..m]
  {
    hide Blocked, LastIndexOf;
  }

  /**
   make_ancestors: on success exactly the missing levels were created and the
   buffer is as it was; on failure the first of them were, and the slashes below
   the level that failed are still overwritten.
   */
  method MakeAncestors(buf: array<char>, disk: Disk) returns (ok: bool, ghost m: nat)
    requires '\0' in buf[..]
    modifies buf, disk
    ensures old(disk.clock) <= disk.clock
    ensures ok <==> disk.Clean(old(disk.clock)) && old(Needed(disk.nodes, CStr(buf[..]))).Some?
    ensures MadeFirst(disk, old(disk.made), old(disk.nodes), old(NeededList(disk.nodes, CStr(buf[..]))), m)
    ensures ok ==> m == |old(NeededList(disk.nodes, CStr(buf[..])))| && buf[..] == old(buf[..])
    ensures !ok ==> Torn(old(buf[..]), buf[..]) && '\0' in buf[..] && CStr(buf[..]) <= old(CStr(buf[..]))
    decreases IndexOf(buf[..], '\0'), 1
  {
    hide Blocked, LastIndexOf, IndexOf, HasParent, AddAll, Needed, Torn, Granted, Up;
    var path := CStr(buf[..]);
    ghost var before, made := disk.nodes, disk.made;
    m := 0;
    NothingMade(before, made);
    NeededAtOnce(before, path);
    TornNowhere(buf[..]);
    if Granted(path) {
      return true, m;
    }
    ok := disk.Probe();
    if !ok {
      return;
    }
    if path in disk.nodes {
      return disk.nodes[path].Directory?, m;
    }
    if Blocked(disk.nodes, path) {
      return false, m;
    }
    var p := LastIndexOf(path, '/');
    if p >= 0 {
      ok, m := MakeUp(buf, disk, p);
      NeededFromUp(before, path, m);
      if !ok {
        return;
      }
      ReadyForMkdir(before, path);
      assert NeededList(before, Up(path))[..m] == NeededList(before, Up(path));
    } else {
      NoParentNeeded(before, path);
    }
    ok := disk.Mkdir(path);
    if ok {
      OneMoreMade(before, made, NeededList(before, path), m, path);
      m := m + 1;
    }
  }

  /** The recursive call on the path one level up, with the buffer cut at the slash and mended afterwards. */
  method MakeUp(buf: array<char>, disk: Disk, p: nat) returns (ok: bool, ghost m: nat)
    requires '\0' in buf[..] && p == LastIndexOf(CStr(buf[..]), '/')
    modifies buf, disk
    ensures old(disk.clock) <= disk.clock
    ensures ok <==> disk.Clean(old(disk.clock)) && old(Needed(disk.nodes, Up(CStr(buf[..])))).Some?
    ensures MadeFirst(disk, old(disk.made), old(disk.nodes), old(NeededList(disk.nodes, Up(CStr(buf[..])))), m)
    ensures ok ==> m == |old(NeededList(disk.nodes, Up(CStr(buf[..]))))| && buf[..] == old(buf[..])
    ensures !ok ==> Torn(old(buf[..]), buf[..]) && '\0' in buf[..] && CStr(buf[..]) <= old(CStr(buf[..]))
    decreases IndexOf(buf[..], '\0'), 0
  {
    hide LastIndexOf, IndexOf, AddAll, Needed, Torn, Up, MadeFirst;
    ghost var whole := buf[..];
    CutAtSlash(whole);
    buf[p] := '\0';
    assert buf[..] == whole[p := '\0'];
    ok, m := MakeAncestors(buf, disk);
    if !ok {
      TornAt(whole, p, buf[..]);
      return;
    }
    buf[p] := '/';
    assert buf[..] == whole;
  }

  lemma TornNowhere(b: seq<char>)
    ensures Torn(b, b)
  {
  }

  lemma TornAt(whole: seq<char>, p: nat, now: seq<char>)
    requires p < |whole| && whole[p] == '/' && Torn(whole[p := '\0'], now)
    requires '\0' in whole && p == LastIndexOf(CStr(whole), '/') && CStr(now) <= Up(CStr(whole))
    ensures Torn(whole, now) && CStr(now) <= CStr(whole)
  {
    hide LastIndexOf, IndexOf, CStr;
  }

  lemma NothingMade(nodes: Nodes, made: seq<string>)
    ensures AddAll(nodes, []) == nodes && made + [] == made
  {
  }

  lemma OneMoreMade(nodes: Nodes, made: seq<string>, list: seq<string>, m: nat, path: string)
    requires m + 1 == |list| && list[m] == path
    ensures list[..m + 1] == list && made + list[..m] + [path] == made + list
    ensures AddAll(nodes, list) == AddAll(nodes, list[..m])[path := Directory]
  {
    assert list == list[..m] + [path];
    AddAllOfPush(nodes, list[..m], path);
  }

  /** The cases decided without a recursive call. */
  lemma NeededAtOnce(nodes: Nodes, path: string)
    ensures Granted(path) ==> Needed(nodes, path) == Some([])
    ensures !Granted(path) && path in nodes ==> Needed(nodes, path) == if nodes[path].Directory? then Some([]) else None
    ensures !Granted(path) && path !in nodes && Blocked(nodes, path) ==> Needed(nodes, path) == None
    ensures !Granted(path) && path !in nodes && !Blocked(nodes, path) && LastIndexOf(path, '/') < 0 ==>
              Needed(nodes, path) == Some([path])
  {
    hide Blocked, LastIndexOf;
  }

  lemma NoParentNeeded(nodes: Nodes, path: string)
    requires LastIndexOf(path, '/') < 0
    ensures HasParent(nodes, path)
  {
  }

  // ---------------------------------------------------------------------
  // Absolute paths, as component lists
  // ---------------------------------------------------------------------

  function Prefix(names: seq<string>, k: nat): string
    requires k <= |names|
  {
    Render(names[..k])
  }

  /** Along the path, whatever exists lies in existing directories; the root itself is not listed. */
  ghost predicate Rooted(nodes: Nodes, names: seq<string>) {
    && "" !in nodes
    && forall j, k :: 1 <= j < k <= |names| && Prefix(names, k) in nodes ==>
         Prefix(names, j) in nodes && nodes[Prefix(names, j)].Directory?
  }

  /** No level of the path is something other than a directory. */
  ghost predicate Unobstructed(nodes: Nodes, names: seq<string>) {
    forall k :: 1 <= k <= |names| && Prefix(names, k) in nodes ==> nodes[Prefix(names, k)].Directory?
  }

  /** The levels of the path that do not exist, shortest first. */
  function MissingLevels(nodes: Nodes, names: seq<string>): seq<string> {
    if names == [] then []
    else MissingLevels(nodes, names[..|names| - 1]) + (if Render(names) in nodes then [] else [Render(names)])
  }

  lemma PrefixOfInit(names: seq<string>, k: nat)
    requires k < |names|
    ensures Prefix(names[..|names| - 1], k) == Prefix(names, k)
  {
    assert names[..|names| - 1][..k] == names[..k];
  }

  lemma InitIsRooted(nodes: Nodes, names: seq<string>)
    requires names != [] && Rooted(nodes, names)
    ensures Rooted(nodes, names[..|names| - 1])
  {
    hide Prefix;
    var init := names[..|names| - 1];
    forall j, k | 1 <= j < k <= |init| && Prefix(init, k) in nodes
      ensures Prefix(init, j) in nodes && nodes[Prefix(init, j)].Directory?
    {
      PrefixOfInit(names, j);
      PrefixOfInit(names, k);
    }
  }

  lemma UnobstructedInit(nodes: Nodes, names: seq<string>)
    requires names != []
    ensures Unobstructed(nodes, names) <==>
              Unobstructed(nodes, names[..|names| - 1])
              && (Render(names) in nodes ==> nodes[Render(names)].Directory?)
  {
    hide Render;
    var init := names[..|names| - 1];
    assert Prefix(names, |names|) == Render(names) by { assert names[..|names|] == names; }
    forall k | 0 <= k < |names|
      ensures Prefix(init, k) == Prefix(names, k)
    {
      PrefixOfInit(names, k);
    }
    if Unobstructed(nodes, names) {
      assert forall k :: 1 <= k <= |init| ==> Prefix(init, k) == Prefix(names, k);
    }
    if Unobstructed(nodes, init) {
      assert forall k :: 1 <= k < |names| ==> Prefix(names, k) == Prefix(init, k);
    }
  }

  /** Stepping up from a rendered path drops its last name. */
  lemma UpOfRender(names: seq<string>)
    requires names != [] && AreNames(names)
    ensures LastIndexOf(Render(names), '/') >= 0 && Up(Render(names)) == Render(names[..|names| - 1])
    ensures !Granted(Render(names))
  {
    hide LastIndexOf;
    RenderPop(names);
    RenderShape(names);
  }

  /** stat is blocked exactly when some level strictly above is in the way. */
  lemma {:induction false} BlockedExactly(nodes: Nodes, names: seq<string>)
    requires names != [] && AreNames(names) && "" !in nodes
    ensures Blocked(nodes, Render(names)) <==> !Unobstructed(nodes, names[..|names| - 1])
    decreases |names|
  {
    hide Render, LastIndexOf;
    var init := names[..|names| - 1];
    UpOfRender(names);
    if init == [] {
      RenderShape(init);
      assert Render(init) == "";
      NotBlockedAtTop(nodes);
    } else {
      BlockedExactly(nodes, init);
      UnobstructedInit(nodes, init);
    }
  }

  lemma NotBlockedAtTop(nodes: Nodes)
    ensures !Blocked(nodes, "")
  {
  }

  /** If a path exists, nothing of it is missing. */
  lemma {:induction false} NothingMissing(nodes: Nodes, names: seq<string>)
    requires names != [] && Rooted(nodes, names) && Render(names) in nodes
    ensures MissingLevels(nodes, names) == [] && Unobstructed(nodes, names[..|names| - 1])
    decreases |names|
  {
    hide Render;
    var n := |names|;
    var init := names[..n - 1];
    assert Prefix(names, n) == Render(names) by { assert names[..n] == names; }
    InitIsRooted(nodes, names);
    if init != [] {
      assert Prefix(names, n - 1) in nodes && nodes[Prefix(names, n - 1)].Directory?;
      assert Prefix(names, n - 1) == Render(init);
      NothingMissing(nodes, init);
      UnobstructedInit(nodes, init);
    }
  }

  /**
   For an absolute path without empty components, make_ancestors creates precisely
   the missing levels, shortest first, and gives up exactly when some level exists
   that is not a directory.
   */
  lemma {:induction false} NeededIsMissing(nodes: Nodes, names: seq<string>)
    requires AreNames(names) && Rooted(nodes, names)
    ensures Needed(nodes, Render(names)).Some? <==> Unobstructed(nodes, names)
    ensures Needed(nodes, Render(names)).Some? ==> Needed(nodes, Render(names)).value == MissingLevels(nodes, names)
    decreases |names|
  {
    hide Render, LastIndexOf, Blocked;
    if names == [] {
      RenderShape(names);
    } else {
      var init := names[..|names| - 1];
      UpOfRender(names);
      UnobstructedInit(nodes, names);
      BlockedExactly(nodes, names);
      InitIsRooted(nodes, names);
      if Render(names) in nodes {
        NothingMissing(nodes, names);
      } else {
        NeededIsMissing(nodes, init);
      }
    }
  }

  /** After a successful call every level of the path is a directory. */
  lemma EveryLevelIsDirectory(nodes: Nodes, names: seq<string>, k: nat)
    requires AreNames(names) && Rooted(nodes, names) && Unobstructed(nodes, names) && 1 <= k <= |names|
    ensures var now := AddAll(nodes, MissingLevels(nodes, names));
            Prefix(names, k) in now && now[Prefix(names, k)].Directory?
  {
    hide Render, AddAll;
    InAddAll(nodes, MissingLevels(nodes, names), Prefix(names, k));
    LevelsAreListed(nodes, names, k);
  }

  lemma {:induction false} LevelsAreListed(nodes: Nodes, names: seq<string>, k: nat)
    requires 1 <= k <= |names|
    ensures Prefix(names, k) in nodes || Prefix(names, k) in MissingLevels(nodes, names)
    decreases |names|
  {
    hide Render;
    if k == |names| {
      assert names[..k] == names;
    } else {
      PrefixOfInit(names, k);
      LevelsAreListed(nodes, names[..|names| - 1], k);
    }
  }

  /** Nothing is created for the root, or for a path that begins with a dot; a path without a slash is created where it is. */
  lemma RelativePaths(nodes: Nodes, rest: string, name: string)
    requires '/' !in name && name != "" && name[0] != '.'
    ensures Needed(nodes, "") == Some([]) && Needed(nodes, "." + rest) == Some([])
    ensures name !in nodes ==> Needed(nodes, name) == Some([name])
    ensures name in nodes ==> Needed(nodes, name) == if nodes[name].Directory? then Some([]) else None
  {
  }

  /** A relative path of two names: the first is created before the second, unless it is there. */
  lemma RelativeLevels(nodes: Nodes, a: string, b: string)
    requires '/' !in a && '/' !in b && a != "" && a[0] != '.' && a + "/" + b !in nodes
    requires a in nodes ==> nodes[a].Directory?
    ensures Needed(nodes, a + "/" + b) == Some(if a in nodes then [a + "/" + b] else [a, a + "/" + b])
  {
    hide LastIndexOf;
    LastSlash(a, b);
    RelativePaths(nodes, "", a);
    NoSlash(a);
    var path := a + "/" + b;
    assert path[0] == a[0] && Up(path) == a && !Blocked(nodes, a) && !Blocked(nodes, path);
    assert [] + [a + "/" + b] == [a + "/" + b] && [a] + [a + "/" + b] == [a, a + "/" + b];
  }

  lemma NoSlash(a: string)
    requires '/' !in a
    ensures LastIndexOf(a, '/') == -1
  {
  }
}
