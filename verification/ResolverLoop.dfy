/**
 do_path_resolve (src/utils.c) with the storage it really uses: a resolved-path
 buffer, two text buffers that take turns holding the pending path and the next
 link target, a descriptor, a counter of missing names and a counter of links.
 Every system call may fail for reasons outside the model: `faults(k)` says
 whether the k-th one does.
 */
module ResolverLoop {
  import opened CStrings
  import opened Paths
  import opened FileTree
  import opened Resolver
  import opened Schedules

  /** The local variables of do_path_resolve. */
  datatype Locals = Locals(
    realpath: string,
    dbuf: seq<string>,     // the two text buffers
    link: nat,             // which of them receives the next link target
    held: nat,             // which of them `ptr` points into
    ptr: Option<nat>,      // offset of the pending text, None once strsep has run out
    fd: NodeId,
    noents: nat,
    nlinks: nat,
    trail: seq<NodeId>)    // every node the descriptor has denoted

  function Pending(v: Locals): Option<string>
    requires v.ptr.Some? ==> v.held < |v.dbuf| && v.ptr.value <= |v.dbuf[v.held]|
  {
    if v.ptr.None? then None else Some(v.dbuf[v.held][v.ptr.value..])
  }

  /**
   The buffer for the next link target is never the one that holds the pending
   path.  A text of PATH_MAX characters has its NUL one byte past its buffer.
   */
  ghost predicate Storage(v: Locals) {
    && |v.dbuf| == 2 && |v.dbuf[0]| <= PATH_MAX && |v.dbuf[1]| <= PATH_MAX
    && v.link == v.nlinks % 2 && v.held == 1 - v.link
    && (v.ptr.Some? ==> v.ptr.value <= |v.dbuf[v.held]|)
  }

  /** The locals represent the abstract walk `w`. */
  ghost predicate Represents(v: Locals, w: Walk) {
    && Storage(v)
    && w == Walk(Pending(v), w.stack, v.noents, v.fd, v.nlinks, v.trail)
    && v.realpath == Render(w.stack)
  }

  /** A branch did what the transition system says, or stopped because a system call failed. */
  ghost predicate Did(o: Outcome, clean: bool, before: Locals, v: Locals, stop: Option<Failure>) {
    if clean then
      match o
      case Stop(e, visited) => stop == Some(e) && v.trail == visited
      case Next(w) => stop.None? && Represents(v, w)
    else stop == Some(SystemFault) && v.trail == before.trail
  }

  /** The `..` branch; `ok` is the fate of the openat it may make. */
  method ClimbUp(fs: Fs, v0: Locals, ok: bool, ghost w: Walk) returns (v: Locals, stop: Option<Failure>, called: bool)
    requires Represents(v0, w) && AreNames(w.stack) && w.node in fs
    ensures Did(GoUp(fs, w), !called || ok, v0, v, stop)
  {
    hide Render, LastIndexOf, AreNames;
    v, called := v0, false;
    var p := LastIndexOf(v.realpath, '/');
    assert p < 0 <==> w.stack == [] by {
      if w.stack == [] { RenderOfNothing(); } else { RenderPop(w.stack); }
    }
    if p < 0 {
      return v, Some(EscapesRoot), called;
    }
    RenderPop(w.stack);
    v := v.(realpath := v.realpath[..p]);
    if v.noents > 0 {
      v := v.(noents := v.noents - 1);
    } else {
      called := true;
      if !ok {
        return v, Some(SystemFault), called;
      }
      if !fs[v.fd].Dir? {
        return v, Some(NotADir), called;
      }
      v := v.(fd := fs[v.fd].parent, trail := v.trail + [fs[v.fd].parent]);
    }
    return v, None, called;
  }

  /** path_append of a component to the resolved path, with the counter of missing names. */
  method AppendName(v0: Locals, name: string, gone: bool, ghost w: Walk) returns (v: Locals, stop: Option<Failure>)
    requires Represents(v0, w) && AreNames(w.stack) && IsName(name)
    ensures Did(Push(w, name, gone), true, v0, v, stop)
  {
    hide Render, Joined, IsName, AreNames;
    v := if gone then v0.(noents := v0.noents + 1) else v0;
    var joined := AppendPath(v.realpath, name);
    if joined.None? {
      return v, Some(NameTooLong);
    }
    RenderPush(w.stack, name);
    return v.(realpath := joined.value), None;
  }

  lemma RenderOfNothing()
    ensures Render([]) == ""
  {
  }

  /**
   path_append counts its room from where the text starts, and an absolute target
   starts one character into its buffer: the NUL of the longest text that is
   accepted behind it, or of a text cut to that length, lies past the buffer's end.
   */
  predicate PastEnd(pending: Option<string>, target: string)
    requires target != ""
  {
    target[0] == '/' && pending.Some? && |Joined(target[1..], pending.value)| >= PATH_MAX - 1
  }

  /** A link: its target goes to the free buffer, the pending text behind it, and the buffers swap roles. */
  method FollowLink(root: NodeId, v0: Locals, target: string, ok: bool, ghost w: Walk)
    returns (v: Locals, stop: Option<Failure>, called: bool, past: bool)
    requires Represents(v0, w)
    requires target != "" && |target| < PATH_MAX
    ensures Did(Follow(root, w, target), !called || ok, v0, v, stop)
    ensures past <==> (!called || ok) && PastEnd(w.pending, target)
    ensures past ==> |v.dbuf| == 2 && |v.dbuf[v0.link]| == PATH_MAX
  {
    hide Render, Joined;
    RenderOfNothing();
    v, called, past := v0.(dbuf := v0.dbuf[v0.link := target]), false, false;
    assert v.dbuf[v.held] == v0.dbuf[v0.held];
    var off := 0;
    if target[0] == '/' {
      off, v, called := 1, v.(realpath := ""), true;
      if !ok {
        return v, Some(SystemFault), called, past;
      }
      v := v.(fd := root, trail := v.trail + [root]);
    }
    var text := target[off..];
    if v.ptr.Some? {
      var rest := v.dbuf[v.held][v.ptr.value..];
      var joined := AppendPath(text, rest);
      text := if joined.Some? then joined.value else Joined(text, rest)[..PATH_MAX - 1];
      v := v.(dbuf := v.dbuf[v.link := target[..off] + text]);
      past := |v.dbuf[v.link]| == PATH_MAX;
      if joined.None? {
        return v, Some(NameTooLong), called, past;
      }
    }
    var nlinks := v.nlinks + 1;
    assert v.dbuf[v.link] == target[..off] + text;
    v := v.(held := v.link, ptr := Some(off), nlinks := nlinks, link := nlinks % 2);
    assert v.dbuf[v.held][off..] == text;
    return v, None, called, past;
  }

  /** While the rest of the walk has room in a path buffer, no text gets that long. */
  lemma ShortTextsStayInside(w: Walk, target: string, t: nat)
    requires target != "" && |target| <= t && w.links < MAXSYMLINKS && Room(w, t) < PATH_MAX
    ensures !PastEnd(w.pending, target)
  {
    hide Joined, Components, AppendPath, Reserve;
    ReserveStep(w.links, t);
    if w.pending.Some? { AppendExact(target[1..], w.pending.value); }
  }

  /** The turn follows a link and its text gets that long. */
  ghost predicate TurnOverruns(fs: Fs, w: Walk)
    requires ValidFs(fs) && w.node in fs
  {
    w.pending.Some? &&
    var (file, rest) := Strsep(w.pending.value, '/');
    IsName(file) && LookUpOverruns(fs, w.(pending := rest), file)
  }

  ghost predicate LookUpOverruns(fs: Fs, w: Walk, name: string)
    requires ValidFs(fs) && w.node in fs
  {
    && w.missing == 0 && w.links < MAXSYMLINKS
    && var text := Readlink(fs, w.node, name);
       text.Target? && |text.text| < PATH_MAX && PastEnd(w.pending, text.text)
  }

  /** Some turn from `w` on writes a NUL past its buffer. */
  ghost predicate Overruns(fs: Fs, root: NodeId, w: Walk)
    requires Inv(fs, root, w)
    decreases MAXSYMLINKS - w.links, PendingLength(w.pending)
  {
    w.pending.Some? &&
    (TurnOverruns(fs, w) ||
     match Step(fs, root, w)
     case Stop(_, _) => false
     case Next(w') =>
       StepKeepsInv(fs, root, w);
       StepProgresses(fs, root, w);
       Overruns(fs, root, w'))
  }

  /** A walk with room for its links and its pending text in a path buffer never does. */
  lemma {:induction false} ShortWalksStayInside(fs: Fs, root: NodeId, w: Walk, t: nat)
    requires Inv(fs, root, w) && TargetsUpTo(fs, t) && t < PATH_MAX && Room(w, t) < PATH_MAX
    ensures !Overruns(fs, root, w)
    decreases MAXSYMLINKS - w.links, PendingLength(w.pending)
  {
    hide Locate, Joined, Render, Reserve, Step, PastEnd, Below;
    if w.pending.Some? {
      NoOverrunHere(fs, root, w, t);
      StepFits(fs, root, w, t);
      if Step(fs, root, w).Next? {
        StepKeepsInv(fs, root, w);
        StepProgresses(fs, root, w);
        ShortWalksStayInside(fs, root, Step(fs, root, w).walk, t);
      }
    }
  }

  lemma NoOverrunHere(fs: Fs, root: NodeId, w: Walk, t: nat)
    requires Inv(fs, root, w) && TargetsUpTo(fs, t) && w.pending.Some? && Room(w, t) < PATH_MAX
    ensures !TurnOverruns(fs, w)
  {
    hide Locate, Joined, Render, Reserve, PastEnd, Below;
    var (file, rest) := Strsep(w.pending.value, '/');
    if IsName(file) {
      match Readlink(fs, w.node, file)
      case Target(target) =>
        if w.links < MAXSYMLINKS { ShortTextsStayInside(w.(pending := rest), target, t); }
      case _ =>
    }
  }

  /** The same for a whole call on a short path. */
  lemma ShortCallsStayInside(fs: Fs, root: NodeId, path: string, t: nat)
    requires ValidRoot(fs, root) && TargetsUpTo(fs, t)
    requires |path| + 2 + MAXSYMLINKS * (t + 1) < PATH_MAX
    ensures Inv(fs, root, Start(root, Joined("", path))) && !Overruns(fs, root, Start(root, Joined("", path)))
  {
    hide Joined, Overruns, Components;
    StartInv(fs, root, Joined("", path));
    AppendExact("", path);
    ShortWalksStayInside(fs, root, Start(root, Joined("", path)), t);
  }

  /** A root directory with one absolute link `a`. */
  function OneLink(s: string): Fs {
    map[0 := Dir(map["a" := 1], 0), 1 := Link("/" + s)]
  }

  /** An input that overruns: a target of PATH_MAX - 2 characters behind which "b" just fits. */
  lemma LongLinkOverruns(s: string)
    requires |s| == PATH_MAX - 3 && s[|s| - 1] != '/'
    ensures ValidRoot(OneLink(s), 0) && Inv(OneLink(s), 0, Start(0, Joined("", "a/b")))
    ensures Overruns(OneLink(s), 0, Start(0, Joined("", "a/b")))
  {
    hide Descend, GoUp, Locate, Below, Strsep;
    var fs := OneLink(s);
    OneLinkIsValid(s);
    assert Joined("", "a/b") == "/a/b";
    var w := Start(0, "/a/b");
    StartInv(fs, 0, "/a/b");
    StrsepOfJoin("", '/', "a/b");
    assert "" + ['/'] + "a/b" == "/a/b";
    var w1 := w.(pending := Some("a/b"));
    assert Step(fs, 0, w) == Next(w1);
    StepKeepsInv(fs, 0, w);
    StepProgresses(fs, 0, w);
    StrsepOfJoin("a", '/', "b");
    assert "a" + ['/'] + "b" == "a/b";
    assert ("/" + s)[1..] == s;
    assert Joined(s, "b") == s + "/" + "b";
    assert TurnOverruns(fs, w1);
  }

  lemma OneLinkIsValid(s: string)
    ensures ValidRoot(OneLink(s), 0) && Readlink(OneLink(s), 0, "a") == Target("/" + s)
  {
  }

  /** The branch for a named component. */
  method LookUp(fs: Fs, root: NodeId, v0: Locals, name: string, faults: nat -> bool, calls0: nat, ghost w: Walk)
    returns (v: Locals, stop: Option<Failure>, calls: nat, past: bool)
    requires ValidFs(fs) && Represents(v0, w) && AreNames(w.stack) && w.node in fs && IsName(name)
    ensures calls0 <= calls
    ensures Did(Descend(fs, root, w, name), NoFault(faults, calls0, calls), v0, v, stop)
    ensures past <==> NoFault(faults, calls0, calls) && LookUpOverruns(fs, w, name)
  {
    hide Render, Joined, PastEnd;
    v, calls, past := v0, calls0, false;
    if v.noents > 0 {
      v, stop := AppendName(v, name, true, w);
      return;
    }
    calls := calls + 1;
    if faults(calls0) {
      return v, Some(SystemFault), calls, past;
    }
    var read := Readlink(fs, v.fd, name);
    if read.Target? && |read.text| < PATH_MAX && v.nlinks < MAXSYMLINKS {
      var called;
      v, stop, called, past := FollowLink(root, v, read.text, !faults(calls), w);
      calls := if called then calls + 1 else calls;
    } else if read.Target? && |read.text| >= PATH_MAX {
      stop := Some(NameTooLong);
    } else if v.nlinks >= MAXSYMLINKS {
      stop := Some(TooManyLinks);
    } else if read.NoEntry? {
      v, stop := AppendName(v, name, true, w);
    } else if read.NotALink? {
      calls := calls + 1;
      if faults(calls0 + 1) {
        return v, Some(SystemFault), calls, past;
      }
      var child := fs[v.fd].entries[name];
      v := v.(fd := child, trail := v.trail + [child]);
      v, stop := AppendName(v, name, false, w.(node := child, trail := w.trail + [child]));
    } else {
      stop := Some(NotADir);
    }
  }

  /** strsep on the held buffer. */
  method CutComponent(v0: Locals, ghost w: Walk) returns (v: Locals, file: string, ghost tail: Option<string>)
    requires v0.ptr.Some? && Represents(v0, w)
    ensures w.pending.Some? && (file, tail) == Strsep(w.pending.value, '/')
    ensures Represents(v, w.(pending := tail)) && v.trail == v0.trail && '/' !in file
  {
    hide Render;
    var rest := v0.dbuf[v0.held][v0.ptr.value..];
    var (first, left) := Strsep(rest, '/');
    file, tail := first, left;
    v := v0.(ptr := if left.None? then None else Some(v0.ptr.value + |file| + 1));
    assert Pending(v) == tail by {
      if tail.Some? { assert rest == file + ['/'] + tail.value; assert rest[|file| + 1..] == tail.value; }
    }
  }

  lemma InvFacts(fs: Fs, root: NodeId, w: Walk)
    requires Inv(fs, root, w)
    ensures ValidFs(fs) && w.node in fs && AreNames(w.stack)
  {
  }

  /** One turn of the loop: cut the next component off and act on it. */
  method Turn(fs: Fs, root: NodeId, v0: Locals, faults: nat -> bool, calls0: nat, ghost w: Walk)
    returns (v: Locals, stop: Option<Failure>, calls: nat, past: bool)
    requires v0.ptr.Some? && Represents(v0, w) && Inv(fs, root, w)
    ensures calls0 <= calls
    ensures Did(Step(fs, root, w), NoFault(faults, calls0, calls), v0, v, stop)
    ensures past <==> NoFault(faults, calls0, calls) && TurnOverruns(fs, w)
  {
    hide GoUp, Descend, Readlink, Inv, AreNames, ValidFs, LookUpOverruns, Strsep, Represents;
    InvFacts(fs, root, w);
    past, calls := false, calls0;
    var file;
    ghost var tail;
    v, file, tail := CutComponent(v0, w);
    ghost var w' := w.(pending := tail);
    if file == "" || file == "." {
      stop := None;
    } else if file == ".." {
      var called;
      v, stop, called := ClimbUp(fs, v, !faults(calls), w');
      calls := if called then calls + 1 else calls;
    } else {
      v, stop, calls, past := LookUp(fs, root, v, file, faults, calls, w');
    }
  }

  /**
   do_path_resolve.  `rootNode` is what opening the absolute text `root` as a
   directory yields.  Without faults the answer is exactly PathResolve's; a
   fault ends the call; and every node opened on the way lies below the root.
   `past` tells whether a NUL was written past one of the two buffers.
   */
  method DoPathResolve(fs: Fs, rootNode: Option<NodeId>, full: bool, root: string, path: string, faults: nat -> bool)
    returns (r: Result<string>, calls: nat, visited: seq<NodeId>, past: bool)
    requires rootNode.Some? ==> ValidRoot(fs, rootNode.value)
    requires HasPrefix(root, "/")
    ensures NoFault(faults, 0, calls) ==> r == PathResolve(fs, rootNode, full, root, path)
    ensures !NoFault(faults, 0, calls) ==> r == Err(SystemFault)
    ensures visited != [] ==> rootNode.Some?
    ensures forall id :: id in visited ==> Below(fs, rootNode.value, id)
    ensures past ==> CallOverruns(fs, rootNode, path)
    ensures NoFault(faults, 0, calls) ==> past == CallOverruns(fs, rootNode, path)
  {
    hide Overruns, TurnOverruns;
    calls, visited, past := 1, [], false;
    if faults(0) {
      return Err(SystemFault), calls, visited, past;
    }
    if rootNode.None? {
      return Err(RootUnavailable), calls, visited, past;
    }
    var top := rootNode.value;
    ghost var w := Start(top, Joined("", path));
    StartInv(fs, top, w.pending.value);
    visited := [top];
    var text := AppendPath("", path);
    if text.None? {
      return Err(NameTooLong), calls, visited, past;
    }
    var v := Locals("", ["", text.value], 0, 1, Some(0), top, 0, 0, [top]);
    assert v.dbuf[1][0..] == text.value;
    ghost var answer, bad := Run(fs, top, w), Overruns(fs, top, w);
    while v.ptr.Some?
      invariant Represents(v, w) && Inv(fs, top, w)
      invariant Run(fs, top, w) == answer
      invariant (past || Overruns(fs, top, w)) == bad
      invariant NoFault(faults, 0, calls)
      decreases MAXSYMLINKS - w.links, PendingLength(w.pending)
    {
      ghost var o := Step(fs, top, w);
      var stop, here;
      OverrunsUnfolds(fs, top, w);
      v, stop, calls, here := Turn(fs, top, v, faults, calls, w);
      visited, past := v.trail, past || here;
      if o.Next? {
        StepKeepsInv(fs, top, w);
        StepProgresses(fs, top, w);
      } else {
        StopIsConfined(fs, top, w);
      }
      if stop.Some? {
        return Err(stop.value), calls, visited, past;
      }
      w := o.walk;
    }
    OverrunsUnfolds(fs, top, w);
    visited := v.trail;
    var out := if full then JoinPaths(root, v.realpath) else AppendPath("", v.realpath);
    r := if out.None? then Err(NameTooLong) else Ok(out.value);
  }

  /** The call reaches its loop and overruns in it. */
  ghost predicate CallOverruns(fs: Fs, rootNode: Option<NodeId>, path: string)
    requires rootNode.Some? ==> ValidRoot(fs, rootNode.value)
  {
    && rootNode.Some? && |Joined("", path)| < PATH_MAX
    && (StartInv(fs, rootNode.value, Joined("", path)); Overruns(fs, rootNode.value, Start(rootNode.value, Joined("", path))))
  }

  lemma OverrunsUnfolds(fs: Fs, root: NodeId, w: Walk)
    requires Inv(fs, root, w)
    ensures w.pending.None? ==> !Overruns(fs, root, w)
    ensures w.pending.Some? && Step(fs, root, w).Stop? ==> (Overruns(fs, root, w) <==> TurnOverruns(fs, w))
    ensures w.pending.Some? && Step(fs, root, w).Next? ==>
              && Inv(fs, root, Step(fs, root, w).walk)
              && (Overruns(fs, root, w) <==> TurnOverruns(fs, w) || Overruns(fs, root, Step(fs, root, w).walk))
  {
    hide Step, TurnOverruns, Locate, Below, Render, Joined;
    if w.pending.Some? && Step(fs, root, w).Next? { StepKeepsInv(fs, root, w); }
  }
}
