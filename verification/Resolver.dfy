/**
 do_path_resolve (src/utils.c) as a transition system on values: the pending
 text, the resolved names, the count of names below the first missing one, the
 open node and the number of links followed.  `Reference` is an independent
 resolver on component lists that re-walks the tree from the root at every
 component and knows no buffer, descriptor or counter.
 */
module Resolver {
  import opened CStrings
  import opened Paths
  import opened FileTree

  const MAXSYMLINKS: nat := 20

  datatype Failure = EscapesRoot | NotADir | TooManyLinks | NameTooLong | RootUnavailable | SystemFault

  datatype Result<+T> = Ok(value: T) | Err(error: Failure)

  /** The loop's variables; `trail` is the history of nodes the descriptor has denoted. */
  datatype Walk = Walk(
    pending: Option<string>,
    stack: seq<string>,
    missing: nat,
    node: NodeId,
    links: nat,
    trail: seq<NodeId>)

  /** A turn ends with the next loop head, or stops with an error and the nodes opened until then. */
  datatype Outcome = Next(walk: Walk) | Stop(error: Failure, visited: seq<NodeId>)

  function PendingLength(p: Option<string>): nat {
    if p.None? then 0 else |p.value| + 1
  }

  /** The names of the resolved path that exist. */
  function Existing(w: Walk): seq<string>
    requires w.missing <= |w.stack|
  {
    w.stack[..|w.stack| - w.missing]
  }

  /** What holds at every loop head. */
  ghost predicate Inv(fs: Fs, root: NodeId, w: Walk) {
    && ValidRoot(fs, root)
    && w.missing <= |w.stack|
    && w.links <= MAXSYMLINKS
    && w.node in fs && !fs[w.node].Link?
    && AreNames(w.stack)
    && Locate(fs, root, Existing(w)) == Some(w.node)
    && (w.missing > 0 ==> fs[w.node].Dir? && w.stack[|w.stack| - w.missing] !in fs[w.node].entries)
    && (forall id :: id in w.trail ==> Below(fs, root, id))
  }

  /** path_append of one name to the resolved path, as seen from the name list. */
  function Push(w: Walk, name: string, gone: bool): Outcome {
    if |Joined(Render(w.stack), name)| >= PATH_MAX then Stop(NameTooLong, w.trail)
    else Next(w.(stack := w.stack + [name], missing := if gone then w.missing + 1 else w.missing))
  }

  function GoUp(fs: Fs, w: Walk): Outcome
    requires w.node in fs
  {
    if w.stack == [] then Stop(EscapesRoot, w.trail)
    else
      var up := w.(stack := w.stack[..|w.stack| - 1]);
      if w.missing > 0 then Next(up.(missing := w.missing - 1))
      else match fs[w.node]
        case Dir(_, parent) => Next(up.(node := parent, trail := w.trail + [parent]))
        case _ => Stop(NotADir, w.trail)
  }

  /** Splice a link target in front of what is still pending. */
  function Follow(root: NodeId, w: Walk, target: string): Outcome
    requires target != ""
  {
    var absolute := target[0] == '/';
    var text := if absolute then target[1..] else target;
    var at := if absolute then w.(stack := [], node := root, trail := w.trail + [root]) else w;
    var joined := if w.pending.None? then text else Joined(text, w.pending.value);
    if w.pending.Some? && |joined| >= PATH_MAX then Stop(NameTooLong, at.trail)
    else Next(at.(pending := Some(joined), links := w.links + 1))
  }

  function Descend(fs: Fs, root: NodeId, w: Walk, name: string): Outcome
    requires ValidFs(fs) && w.node in fs
  {
    if w.missing > 0 then Push(w, name, true)
    else
      var text := Readlink(fs, w.node, name);
      if text.Target? && |text.text| >= PATH_MAX then Stop(NameTooLong, w.trail)
      else if w.links >= MAXSYMLINKS then Stop(TooManyLinks, w.trail)
      else match text
        case Target(t) => Follow(root, w, t)
        case NoEntry => Push(w, name, true)
        case NotALink =>
          var child := fs[w.node].entries[name];
          Push(w.(node := child, trail := w.trail + [child]), name, false)
        case NotADirectory => Stop(NotADir, w.trail)
  }

  /** One turn of the loop. */
  function Step(fs: Fs, root: NodeId, w: Walk): Outcome
    requires ValidFs(fs) && w.node in fs && w.pending.Some?
  {
    var (file, rest) := Strsep(w.pending.value, '/');
    var w' := w.(pending := rest);
    if file == "" || file == "." then Next(w')
    else if file == ".." then GoUp(fs, w')
    else Descend(fs, root, w', file)
  }

  /** Every turn keeps the loop invariant. */
  lemma StepKeepsInv(fs: Fs, root: NodeId, w: Walk)
    requires Inv(fs, root, w) && w.pending.Some?
    requires Step(fs, root, w).Next?
    ensures Inv(fs, root, Step(fs, root, w).walk)
  {
    hide Joined, Render, Locate;
    var (file, rest) := Strsep(w.pending.value, '/');
    var w' := w.(pending := rest);
    if file == "" || file == "." {
    } else if file == ".." {
      GoUpKeepsInv(fs, root, w');
    } else {
      DescendKeepsInv(fs, root, w', file);
    }
  }

  lemma TrailGrows(fs: Fs, root: NodeId, trail: seq<NodeId>, names: seq<string>, id: NodeId)
    requires forall i :: i in trail ==> Below(fs, root, i)
    requires Locate(fs, root, names) == Some(id)
    ensures forall i :: i in trail + [id] ==> Below(fs, root, i)
  {
  }

  lemma GoUpKeepsInv(fs: Fs, root: NodeId, w: Walk)
    requires Inv(fs, root, w) && GoUp(fs, w).Next?
    ensures Inv(fs, root, GoUp(fs, w).walk)
  {
    var up := GoUp(fs, w).walk;
    if w.missing > 0 {
      assert Existing(up) == Existing(w);
    } else {
      assert Existing(w) == w.stack && Existing(up) == w.stack[..|w.stack| - 1];
      ParentIsOneUp(fs, root, w.stack, w.node);
      TrailGrows(fs, root, w.trail, Existing(up), up.node);
    }
  }

  lemma PushMissingKeepsInv(fs: Fs, root: NodeId, w: Walk, name: string)
    requires Inv(fs, root, w) && IsName(name)
    requires w.missing == 0 ==> fs[w.node].Dir? && name !in fs[w.node].entries
    requires Push(w, name, true).Next?
    ensures Inv(fs, root, Push(w, name, true).walk)
  {
    assert Existing(Push(w, name, true).walk) == Existing(w);
  }

  lemma PushFoundKeepsInv(fs: Fs, root: NodeId, w: Walk, name: string)
    requires Inv(fs, root, w) && IsName(name) && w.missing == 0
    requires Readlink(fs, w.node, name).NotALink?
    ensures Descend(fs, root, w, name).Next? ==> Inv(fs, root, Descend(fs, root, w, name).walk)
  {
    var child := fs[w.node].entries[name];
    assert Existing(w) == w.stack;
    LocatePush(fs, root, w.stack, name);
    TrailGrows(fs, root, w.trail, w.stack + [name], child);
    if Descend(fs, root, w, name).Next? {
      assert Existing(Descend(fs, root, w, name).walk) == w.stack + [name];
    }
  }

  lemma FollowKeepsInv(fs: Fs, root: NodeId, w: Walk, target: string)
    requires Inv(fs, root, w) && w.missing == 0 && target != "" && w.links < MAXSYMLINKS
    requires Follow(root, w, target).Next?
    ensures Inv(fs, root, Follow(root, w, target).walk)
  {
  }

  lemma DescendKeepsInv(fs: Fs, root: NodeId, w: Walk, name: string)
    requires Inv(fs, root, w) && IsName(name)
    requires Descend(fs, root, w, name).Next?
    ensures Inv(fs, root, Descend(fs, root, w, name).walk)
  {
    if w.missing > 0 {
      PushMissingKeepsInv(fs, root, w, name);
    } else {
      match Readlink(fs, w.node, name)
      case Target(t) => FollowKeepsInv(fs, root, w, t);
      case NoEntry => PushMissingKeepsInv(fs, root, w, name);
      case NotALink => PushFoundKeepsInv(fs, root, w, name);
    }
  }

  /** A turn that stops has opened nothing outside the root either. */
  lemma StopIsConfined(fs: Fs, root: NodeId, w: Walk)
    requires Inv(fs, root, w) && w.pending.Some?
    requires Step(fs, root, w).Stop?
    ensures forall id :: id in Step(fs, root, w).visited ==> Below(fs, root, id)
  {
    var (file, rest) := Strsep(w.pending.value, '/');
    if IsName(file) && w.missing == 0 {
      match Readlink(fs, w.node, file)
      case Target(_) =>
        TrailGrows(fs, root, w.trail, [], root);
      case NotALink =>
        assert Existing(w) == w.stack;
        LocatePush(fs, root, w.stack, file);
        TrailGrows(fs, root, w.trail, w.stack + [file], fs[w.node].entries[file]);
      case _ =>
    }
  }

  /** Every turn follows a link or consumes pending text. */
  lemma StepProgresses(fs: Fs, root: NodeId, w: Walk)
    requires ValidFs(fs) && w.node in fs && w.pending.Some?
    requires Step(fs, root, w).Next?
    ensures var w' := Step(fs, root, w).walk;
            || w'.links == w.links + 1
            || (w'.links == w.links && PendingLength(w'.pending) < PendingLength(w.pending))
  {
    hide Joined, Render, Readlink;
  }

  /** The loop, to its end. */
  function Run(fs: Fs, root: NodeId, w: Walk): (r: Result<Walk>)
    requires Inv(fs, root, w)
    ensures r.Ok? ==> Inv(fs, root, r.value) && r.value.pending.None?
    decreases MAXSYMLINKS - w.links, PendingLength(w.pending)
  {
    if w.pending.None? then Ok(w)
    else match Step(fs, root, w)
      case Stop(e, _) => Err(e)
      case Next(w') =>
        StepKeepsInv(fs, root, w);
        StepProgresses(fs, root, w);
        Run(fs, root, w')
  }

  function Start(root: NodeId, text: string): Walk {
    Walk(Some(text), [], 0, root, 0, [root])
  }

  lemma StartInv(fs: Fs, root: NodeId, text: string)
    requires ValidRoot(fs, root)
    ensures Inv(fs, root, Start(root, text))
  {
  }

  /** path_resolve and path_resolve_full: `full` selects whether the root is put in front. */
  function PathResolve(fs: Fs, rootNode: Option<NodeId>, full: bool, root: string, path: string): Result<string>
    requires rootNode.Some? ==> ValidRoot(fs, rootNode.value)
  {
    if rootNode.None? then Err(RootUnavailable)
    else if |Joined("", path)| >= PATH_MAX then Err(NameTooLong)
    else
      StartInv(fs, rootNode.value, Joined("", path));
      match Run(fs, rootNode.value, Start(rootNode.value, Joined("", path)))
      case Err(e) => Err(e)
      case Ok(w) =>
        match (if full then JoinPaths(root, Render(w.stack)) else AppendPath("", Render(w.stack)))
        case None => Err(NameTooLong)
        case Some(text) => Ok(text)
  }

  // ---------------------------------------------------------------------
  // The independent reference and the refinement
  // ---------------------------------------------------------------------

  /** Resolution on component lists: pending components, resolved names, link budget. */
  function Reference(fs: Fs, root: NodeId, todo: seq<string>, stack: seq<string>, budget: nat): Result<seq<string>>
    decreases budget, |todo|
  {
    if todo == [] then Ok(stack)
    else
      var c, rest := todo[0], todo[1..];
      var here := Locate(fs, root, stack);
      if c == "." then Reference(fs, root, rest, stack, budget)
      else if c == ".." then
        if stack == [] then Err(EscapesRoot)
        else if here.Some? && !IsDir(fs, here.value) then Err(NotADir)
        else Reference(fs, root, rest, stack[..|stack| - 1], budget)
      else if here.None? then Reference(fs, root, rest, stack + [c], budget)
      else if budget == 0 then Err(TooManyLinks)
      else if !IsDir(fs, here.value) then Err(NotADir)
      else
        var next := Locate(fs, root, stack + [c]);
        if next.Some? && IsLink(fs, next.value) then
          var target := fs[next.value].target;
          var base := if HasPrefix(target, "/") then [] else stack;
          Reference(fs, root, Components(target) + rest, base, budget - 1)
        else
          Reference(fs, root, rest, stack + [c], budget)
  }

  predicate IsDir(fs: Fs, id: NodeId) { id in fs && fs[id].Dir? }

  predicate IsLink(fs: Fs, id: NodeId) { id in fs && fs[id].Link? }

  function PendingComponents(p: Option<string>): seq<string> {
    if p.None? then [] else Components(p.value)
  }

  /** The reference resolver started where the walk stands. */
  function ReferenceFrom(fs: Fs, root: NodeId, w: Walk): Result<seq<string>>
    requires w.links <= MAXSYMLINKS
  {
    Reference(fs, root, PendingComponents(w.pending), w.stack, MAXSYMLINKS - w.links)
  }

  /** strsep takes the first component, or an empty piece. */
  lemma StrsepComponents(s: string)
    ensures var (file, rest) := Strsep(s, '/');
            Components(s) == (if file == "" then [] else [file]) + PendingComponents(rest)
  {
    ComponentsAt(s, IndexOf(s, '/'));
    assert s[..|s|] == s;
  }

  /** The counter of missing names says whether the resolved path exists. */
  lemma MissingMeansGone(fs: Fs, root: NodeId, w: Walk)
    requires Inv(fs, root, w)
    ensures w.missing == 0 ==> Locate(fs, root, w.stack) == Some(w.node)
    ensures w.missing > 0 ==> Locate(fs, root, w.stack).None?
  {
    if w.missing == 0 {
      assert Existing(w) == w.stack;
    } else {
      var k := |w.stack| - w.missing;
      LocatePush(fs, root, Existing(w), w.stack[k]);
      assert w.stack[..k + 1] == Existing(w) + [w.stack[k]];
      NothingBelowMissing(fs, root, w.stack, k + 1);
    }
  }

  /** The step agrees with the reference: the same answer before and after, or the same failure. */
  ghost predicate Agrees(fs: Fs, root: NodeId, expected: Result<seq<string>>, o: Outcome) {
    match o
    case Stop(e, _) => e == NameTooLong || expected == Err(e)
    case Next(w) => w.links <= MAXSYMLINKS && ReferenceFrom(fs, root, w) == expected
  }

  lemma StepRefines(fs: Fs, root: NodeId, w: Walk)
    requires Inv(fs, root, w) && w.pending.Some?
    ensures Agrees(fs, root, ReferenceFrom(fs, root, w), Step(fs, root, w))
  {
    hide Components, Joined, Locate, Strsep;
    var (file, rest) := Strsep(w.pending.value, '/');
    var w' := w.(pending := rest);
    StrsepComponents(w.pending.value);
    var todo := PendingComponents(rest);
    if file == "" {
      assert [] + todo == todo;
    } else {
      var all := [file] + todo;
      assert all[0] == file && all[1..] == todo;
      if file == ".." {
        GoUpRefines(fs, root, w');
      } else if file != "." {
        DescendRefines(fs, root, w', file);
      }
    }
  }

  lemma GoUpRefines(fs: Fs, root: NodeId, w: Walk)
    requires Inv(fs, root, w)
    ensures Agrees(fs, root,
                   Reference(fs, root, [".."] + PendingComponents(w.pending), w.stack, MAXSYMLINKS - w.links),
                   GoUp(fs, w))
  {
    hide Components, Locate, Below, AreNames;
    var todo := PendingComponents(w.pending);
    var all := [".."] + todo;
    assert all[0] == ".." && all[1..] == todo;
    MissingMeansGone(fs, root, w);
  }

  lemma DescendRefines(fs: Fs, root: NodeId, w: Walk, name: string)
    requires Inv(fs, root, w) && IsName(name)
    ensures Agrees(fs, root,
                   Reference(fs, root, [name] + PendingComponents(w.pending), w.stack, MAXSYMLINKS - w.links),
                   Descend(fs, root, w, name))
  {
    hide Components, Joined, Locate, Render;
    var todo := PendingComponents(w.pending);
    var all := [name] + todo;
    assert all[0] == name && all[1..] == todo;
    MissingMeansGone(fs, root, w);
    LocatePush(fs, root, w.stack, name);
    if w.missing == 0 && w.links < MAXSYMLINKS && Readlink(fs, w.node, name).Target? {
      FollowRefines(fs, root, w, name);
    }
  }

  lemma FollowRefines(fs: Fs, root: NodeId, w: Walk, name: string)
    requires Inv(fs, root, w) && IsName(name)
    requires w.missing == 0 && w.links < MAXSYMLINKS && Readlink(fs, w.node, name).Target?
    ensures Agrees(fs, root,
                   Reference(fs, root, [name] + PendingComponents(w.pending), w.stack, MAXSYMLINKS - w.links),
                   Descend(fs, root, w, name))
  {
    hide Components, Joined, Render;
    var todo := PendingComponents(w.pending);
    var all := [name] + todo;
    assert all[0] == name && all[1..] == todo;
    MissingMeansGone(fs, root, w);
    LocatePush(fs, root, w.stack, name);
    FollowComponents(root, w, Readlink(fs, w.node, name).text);
  }

  /** Splicing a target in front of the pending text splices its components. */
  lemma FollowComponents(root: NodeId, w: Walk, target: string)
    requires target != ""
    ensures var o := Follow(root, w, target);
            o.Next? ==>
              && PendingComponents(o.walk.pending) == Components(target) + PendingComponents(w.pending)
              && o.walk.stack == (if HasPrefix(target, "/") then [] else w.stack)
              && o.walk.links == w.links + 1
  {
    hide Joined, Components, Render;
    var text := if target[0] == '/' then target[1..] else target;
    assert Components(text) == Components(target) by {
      if target[0] == '/' {
        assert target == "/" + target[1..];
        ComponentsOfSlash(target[1..]);
      }
    }
    assert HasPrefix(target, "/") <==> target[0] == '/' by { assert target[..1] == [target[0]]; }
    if w.pending.Some? {
      JoinConcatenates(text, w.pending.value);
    } else {
      assert Components(text) + [] == Components(text);
    }
  }

  /** Whenever the loop succeeds, the reference gives the same names; any failure but overflow is the reference's. */
  lemma {:induction false} RunRefines(fs: Fs, root: NodeId, w: Walk)
    requires Inv(fs, root, w)
    ensures match Run(fs, root, w)
            case Ok(w') => ReferenceFrom(fs, root, w) == Ok(w'.stack)
            case Err(e) => e == NameTooLong || ReferenceFrom(fs, root, w) == Err(e)
    decreases MAXSYMLINKS - w.links, PendingLength(w.pending)
  {
    if w.pending.Some? {
      StepRefines(fs, root, w);
      match Step(fs, root, w)
      case Stop(_, _) =>
      case Next(w') =>
        StepKeepsInv(fs, root, w);
        StepProgresses(fs, root, w);
        RunRefines(fs, root, w');
    }
  }

  // ---------------------------------------------------------------------
  // The early link limit
  // ---------------------------------------------------------------------

  /** The resolver one would expect: the budget is charged only when a link is met. */
  function Standard(fs: Fs, root: NodeId, todo: seq<string>, stack: seq<string>, budget: nat): Result<seq<string>>
    decreases budget, |todo|
  {
    if todo == [] then Ok(stack)
    else
      var c, rest := todo[0], todo[1..];
      var here := Locate(fs, root, stack);
      if c == "." then Standard(fs, root, rest, stack, budget)
      else if c == ".." then
        if stack == [] then Err(EscapesRoot)
        else if here.Some? && !IsDir(fs, here.value) then Err(NotADir)
        else Standard(fs, root, rest, stack[..|stack| - 1], budget)
      else if here.None? then Standard(fs, root, rest, stack + [c], budget)
      else if !IsDir(fs, here.value) then Err(NotADir)
      else
        var next := Locate(fs, root, stack + [c]);
        if next.Some? && IsLink(fs, next.value) then
          if budget == 0 then Err(TooManyLinks)
          else
            var target := fs[next.value].target;
            var base := if HasPrefix(target, "/") then [] else stack;
            Standard(fs, root, Components(target) + rest, base, budget - 1)
        else
          Standard(fs, root, rest, stack + [c], budget)
  }

  /** The code either reports too many links or does what one would expect. */
  lemma {:induction false} EarlyLimitIsTheOnlyDifference(fs: Fs, root: NodeId, todo: seq<string>, stack: seq<string>, budget: nat)
    ensures || Reference(fs, root, todo, stack, budget) == Err(TooManyLinks)
            || Reference(fs, root, todo, stack, budget) == Standard(fs, root, todo, stack, budget)
    decreases budget, |todo|
  {
    hide Locate, Components;
    if todo != [] {
      var c, rest := todo[0], todo[1..];
      var next := Locate(fs, root, stack + [c]);
      if c == "." {
        EarlyLimitIsTheOnlyDifference(fs, root, rest, stack, budget);
      } else if c == ".." {
        if stack != [] { EarlyLimitIsTheOnlyDifference(fs, root, rest, stack[..|stack| - 1], budget); }
      } else {
        EarlyLimitIsTheOnlyDifference(fs, root, rest, stack + [c], budget);
        if budget > 0 && next.Some? && IsLink(fs, next.value) {
          var target := fs[next.value].target;
          EarlyLimitIsTheOnlyDifference(
            fs, root, Components(target) + rest, if HasPrefix(target, "/") then [] else stack, budget - 1);
        }
      }
    }
  }

  /** One more link makes up for it: whatever the expected resolver decides within `budget` links, the code decides within one more. */
  lemma {:induction false} OneMoreLinkIsEnough(fs: Fs, root: NodeId, todo: seq<string>, stack: seq<string>, budget: nat)
    ensures || Standard(fs, root, todo, stack, budget) == Err(TooManyLinks)
            || Reference(fs, root, todo, stack, budget + 1) == Standard(fs, root, todo, stack, budget)
    decreases budget, |todo|
  {
    hide Locate, Components;
    if todo != [] {
      var c, rest := todo[0], todo[1..];
      var next := Locate(fs, root, stack + [c]);
      if c == "." {
        OneMoreLinkIsEnough(fs, root, rest, stack, budget);
      } else if c == ".." {
        if stack != [] { OneMoreLinkIsEnough(fs, root, rest, stack[..|stack| - 1], budget); }
      } else {
        OneMoreLinkIsEnough(fs, root, rest, stack + [c], budget);
        if budget > 0 && next.Some? && IsLink(fs, next.value) {
          var target := fs[next.value].target;
          OneMoreLinkIsEnough(
            fs, root, Components(target) + rest, if HasPrefix(target, "/") then [] else stack, budget - 1);
        }
      }
    }
  }

  /** What is pending and what is resolved once `n` links have been followed, if that many are met. */
  function AfterLinks(fs: Fs, root: NodeId, todo: seq<string>, stack: seq<string>, n: nat): Option<(seq<string>, seq<string>)>
    decreases n, |todo|
  {
    if n == 0 then Some((todo, stack))
    else if todo == [] then None
    else
      var c, rest := todo[0], todo[1..];
      var here := Locate(fs, root, stack);
      if c == "." then AfterLinks(fs, root, rest, stack, n)
      else if c == ".." then
        if stack == [] || (here.Some? && !IsDir(fs, here.value)) then None
        else AfterLinks(fs, root, rest, stack[..|stack| - 1], n)
      else if here.None? then AfterLinks(fs, root, rest, stack + [c], n)
      else if !IsDir(fs, here.value) then None
      else
        var next := Locate(fs, root, stack + [c]);
        if next.Some? && IsLink(fs, next.value) then
          var target := fs[next.value].target;
          AfterLinks(fs, root, Components(target) + rest, if HasPrefix(target, "/") then [] else stack, n - 1)
        else
          AfterLinks(fs, root, rest, stack + [c], n)
  }

  /** The rest of the walk looks up no name at a place that exists. */
  predicate Idle(fs: Fs, root: NodeId, todo: seq<string>, stack: seq<string>)
    decreases |todo|
  {
    todo == [] ||
    (var c, rest := todo[0], todo[1..];
     var here := Locate(fs, root, stack);
     if c == "." then Idle(fs, root, rest, stack)
     else if c == ".." then
       stack == [] || (here.Some? && !IsDir(fs, here.value)) || Idle(fs, root, rest, stack[..|stack| - 1])
     else here.None? && Idle(fs, root, rest, stack + [c]))
  }

  lemma {:induction false} StandardLimit(fs: Fs, root: NodeId, todo: seq<string>, stack: seq<string>, budget: nat)
    ensures Standard(fs, root, todo, stack, budget) == Err(TooManyLinks) <==>
              AfterLinks(fs, root, todo, stack, budget + 1).Some?
    decreases budget, |todo|
  {
    hide Locate, Components;
    if todo != [] {
      var c, rest := todo[0], todo[1..];
      var next := Locate(fs, root, stack + [c]);
      if c == "." {
        StandardLimit(fs, root, rest, stack, budget);
      } else if c == ".." {
        if stack != [] { StandardLimit(fs, root, rest, stack[..|stack| - 1], budget); }
      } else {
        StandardLimit(fs, root, rest, stack + [c], budget);
        if budget > 0 && next.Some? && IsLink(fs, next.value) {
          var target := fs[next.value].target;
          StandardLimit(fs, root, Components(target) + rest, if HasPrefix(target, "/") then [] else stack, budget - 1);
        }
      }
    }
  }

  lemma {:induction false} ReferenceLimit(fs: Fs, root: NodeId, todo: seq<string>, stack: seq<string>, budget: nat)
    ensures Reference(fs, root, todo, stack, budget) == Err(TooManyLinks) <==>
              match AfterLinks(fs, root, todo, stack, budget)
              case None => false
              case Some((t, s)) => !Idle(fs, root, t, s)
    decreases budget, |todo|
  {
    hide Locate, Components;
    if todo != [] {
      var c, rest := todo[0], todo[1..];
      var next := Locate(fs, root, stack + [c]);
      if c == "." {
        ReferenceLimit(fs, root, rest, stack, budget);
      } else if c == ".." {
        if stack != [] { ReferenceLimit(fs, root, rest, stack[..|stack| - 1], budget); }
      } else {
        ReferenceLimit(fs, root, rest, stack + [c], budget);
        if budget > 0 && next.Some? && IsLink(fs, next.value) {
          var target := fs[next.value].target;
          ReferenceLimit(fs, root, Components(target) + rest, if HasPrefix(target, "/") then [] else stack, budget - 1);
        }
      }
    }
  }

  /**
   The code differs from what one would expect exactly on walks that follow all
   the links allowed, no more, and look up a name at an existing place after the last.
   */
  lemma EarlyLimitExactly(fs: Fs, root: NodeId, todo: seq<string>, stack: seq<string>, budget: nat)
    ensures Reference(fs, root, todo, stack, budget) != Standard(fs, root, todo, stack, budget) <==>
              && AfterLinks(fs, root, todo, stack, budget + 1).None?
              && match AfterLinks(fs, root, todo, stack, budget)
                 case None => false
                 case Some((t, s)) => !Idle(fs, root, t, s)
  {
    hide Reference, Standard, AfterLinks, Idle;
    EarlyLimitIsTheOnlyDifference(fs, root, todo, stack, budget);
    StandardLimit(fs, root, todo, stack, budget);
    ReferenceLimit(fs, root, todo, stack, budget);
  }

  /** A root directory with a link `a` to itself and a file `f`. */
  const LOOP_TREE: Fs := map[0 := Dir(map["a" := 1, "f" := 2], 0), 1 := Link("."), 2 := File]

  function LoopPath(n: nat): seq<string> {
    if n == 0 then ["f"] else ["a"] + LoopPath(n - 1)
  }

  lemma LoopTreeFacts()
    ensures ValidRoot(LOOP_TREE, 0)
    ensures Locate(LOOP_TREE, 0, []) == Some(0)
    ensures Locate(LOOP_TREE, 0, [] + ["a"]) == Some(1) && Locate(LOOP_TREE, 0, [] + ["f"]) == Some(2)
    ensures Components(".") == ["."]
  {
    LocatePush(LOOP_TREE, 0, [], "a");
    LocatePush(LOOP_TREE, 0, [], "f");
    ComponentsOfComponent(".");
  }

  /** On `n` links and then a plain file the code needs a budget of n + 1, the expected resolver one of n. */
  lemma {:induction false} LoopPathExactly(n: nat, budget: nat)
    ensures Standard(LOOP_TREE, 0, LoopPath(n), [], budget) == if n <= budget then Ok(["f"]) else Err(TooManyLinks)
    ensures Reference(LOOP_TREE, 0, LoopPath(n), [], budget) == if n < budget then Ok(["f"]) else Err(TooManyLinks)
    decreases n
  {
    hide Components;
    LoopTreeFacts();
    hide Locate;
    if n == 0 {
      assert LoopPath(0)[1..] == [] && [] + ["f"] == ["f"];
    } else {
      var todo, rest := LoopPath(n), LoopPath(n - 1);
      assert todo[0] == "a" && todo[1..] == rest;
      assert !HasPrefix(".", "/") by { assert "."[..1][0] == '.'; }
      if budget > 0 {
        var again := ["."] + rest;
        assert again[0] == "." && again[1..] == rest;
        LoopPathExactly(n - 1, budget - 1);
      }
    }
  }

  // ---------------------------------------------------------------------
  // Every run: confinement and canonical form
  // ---------------------------------------------------------------------

  /** The first `j` names lead nowhere, or to a node that is not a link and that has whatever follows below it. */
  ghost predicate PrefixOk(fs: Fs, root: NodeId, names: seq<string>, j: nat)
    requires j <= |names|
  {
    match Locate(fs, root, names[..j])
    case None => true
    case Some(id) => id in fs && !fs[id].Link? && (j < |names| ==> fs[id].Dir?)
  }

  /** A path with nothing left to resolve: proper names, and no existing prefix is a link. */
  ghost predicate Canonical(fs: Fs, root: NodeId, names: seq<string>) {
    && AreNames(names)
    && (forall j :: 0 <= j <= |names| ==> PrefixOk(fs, root, names, j))
  }

  lemma {:induction false} PrefixesExist(fs: Fs, root: NodeId, names: seq<string>, j: nat)
    requires ValidRoot(fs, root)
    requires j < |names| && Locate(fs, root, names).Some?
    ensures var at := Locate(fs, root, names[..j]);
            at.Some? && at.value in fs && fs[at.value].Dir?
    decreases |names|
  {
    var init := names[..|names| - 1];
    if j < |names| - 1 {
      assert init[..j] == names[..j];
      PrefixesExist(fs, root, init, j);
    }
  }

  lemma InvIsCanonical(fs: Fs, root: NodeId, w: Walk)
    requires Inv(fs, root, w)
    ensures Canonical(fs, root, w.stack)
  {
    hide Locate;
    var e := |w.stack| - w.missing;
    forall j | 0 <= j <= |w.stack|
      ensures PrefixOk(fs, root, w.stack, j)
    {
      var prefix := w.stack[..j];
      if j < e {
        assert Existing(w)[..j] == prefix;
        PrefixesExist(fs, root, Existing(w), j);
      } else if j > e {
        LocatePush(fs, root, Existing(w), w.stack[e]);
        assert prefix[..e + 1] == Existing(w) + [w.stack[e]];
        NothingBelowMissing(fs, root, prefix, e + 1);
      }
    }
  }

  /** A run of the loop: consecutive loop heads, from the initial one. */
  ghost predicate IsRun(fs: Fs, root: NodeId, text: string, ws: seq<Walk>)
    requires ValidRoot(fs, root)
  {
    && ws != []
    && ws[0] == Start(root, text)
    && (forall i :: 0 <= i < |ws| ==> ws[i].node in fs)
    && (forall i :: 0 <= i < |ws| - 1 ==> Turns(fs, root, ws[i], ws[i + 1]))
  }

  ghost predicate Turns(fs: Fs, root: NodeId, w: Walk, w': Walk)
    requires ValidRoot(fs, root) && w.node in fs
  {
    w.pending.Some? && Step(fs, root, w) == Next(w')
  }

  /**
   At every loop head of every run: the descriptor is the node the resolved path
   minus its missing names leads to, every node opened so far lies below the
   root, and no existing component is a link.
   */
  lemma {:induction false} EveryLoopHead(fs: Fs, root: NodeId, text: string, ws: seq<Walk>, i: nat)
    requires ValidRoot(fs, root) && IsRun(fs, root, text, ws) && i < |ws|
    ensures Inv(fs, root, ws[i])
    ensures Canonical(fs, root, ws[i].stack)
    decreases i
  {
    if i == 0 {
      StartInv(fs, root, text);
    } else {
      EveryLoopHead(fs, root, text, ws, i - 1);
      assert Turns(fs, root, ws[i - 1], ws[(i - 1) + 1]);
      StepKeepsInv(fs, root, ws[i - 1]);
    }
    InvIsCanonical(fs, root, ws[i]);
  }

  /** The loop heads from `w` to the end of the loop. */
  ghost function Heads(fs: Fs, root: NodeId, w: Walk): (ws: seq<Walk>)
    requires Inv(fs, root, w)
    ensures ws != [] && ws[0] == w
    decreases MAXSYMLINKS - w.links, PendingLength(w.pending)
  {
    if w.pending.None? then [w]
    else match Step(fs, root, w)
      case Stop(_, _) => [w]
      case Next(w') =>
        StepKeepsInv(fs, root, w);
        StepProgresses(fs, root, w);
        [w] + Heads(fs, root, w')
  }

  lemma {:induction false} HeadsFollow(fs: Fs, root: NodeId, w: Walk)
    requires Inv(fs, root, w)
    ensures var ws := Heads(fs, root, w);
            && (forall i :: 0 <= i < |ws| ==> ws[i].node in fs)
            && (forall i :: 0 <= i < |ws| - 1 ==> Turns(fs, root, ws[i], ws[i + 1]))
            && match Run(fs, root, w)
               case Ok(end) => ws[|ws| - 1] == end
               case Err(e) => ws[|ws| - 1].pending.Some? && Step(fs, root, ws[|ws| - 1]).Stop? && Step(fs, root, ws[|ws| - 1]).error == e
    decreases MAXSYMLINKS - w.links, PendingLength(w.pending)
  {
    hide Step, Locate, Below;
    if w.pending.Some? && Step(fs, root, w).Next? {
      StepKeepsInv(fs, root, w);
      StepProgresses(fs, root, w);
      var next := Step(fs, root, w).walk;
      HeadsFollow(fs, root, next);
      var ws, tail := Heads(fs, root, w), Heads(fs, root, next);
      assert ws == [w] + tail;
      forall i | 0 <= i < |ws|
        ensures ws[i].node in fs && (i < |ws| - 1 ==> Turns(fs, root, ws[i], ws[i + 1]))
      {
        if i > 0 { assert ws[i] == tail[i - 1] && (i < |ws| - 1 ==> ws[i + 1] == tail[i]); }
      }
    }
  }

  /** The loop itself is such a run, and the last head is where it succeeds or stops. */
  lemma LoopIsRun(fs: Fs, root: NodeId, text: string)
    requires ValidRoot(fs, root)
    ensures Inv(fs, root, Start(root, text)) && IsRun(fs, root, text, Heads(fs, root, Start(root, text)))
  {
    hide Step, Inv;
    StartInv(fs, root, text);
    HeadsFollow(fs, root, Start(root, text));
  }

  // ---------------------------------------------------------------------
  // Refinement, confinement and idempotence of the whole call
  // ---------------------------------------------------------------------

  /** The reference on the whole path. */
  function ReferenceResolve(fs: Fs, root: NodeId, path: string): Result<seq<string>> {
    Reference(fs, root, Components(path), [], MAXSYMLINKS)
  }

  lemma StartRefines(fs: Fs, root: NodeId, path: string)
    requires ValidRoot(fs, root)
    ensures ReferenceFrom(fs, root, Start(root, Joined("", path))) == ReferenceResolve(fs, root, path)
  {
    JoinConcatenates("", path);
    ComponentsAt("", 0);
    assert [] + Components(path) == Components(path);
  }

  lemma RenderIsAppended(names: seq<string>)
    requires AreNames(names)
    ensures Joined("", Render(names)) == Render(names)
    ensures Components(Render(names)) == names
  {
    RenderShape(names);
    ComponentsOfRender(names);
  }

  /** path_resolve succeeds only with the reference's answer, and fails otherwise only on overflow. */
  lemma PathResolveRefines(fs: Fs, root: NodeId, rootText: string, path: string)
    requires ValidRoot(fs, root)
    ensures match PathResolve(fs, Some(root), false, rootText, path)
            case Ok(text) =>
              && ReferenceResolve(fs, root, path).Ok?
              && text == Render(ReferenceResolve(fs, root, path).value)
              && Canonical(fs, root, ReferenceResolve(fs, root, path).value)
              && Components(text) == ReferenceResolve(fs, root, path).value
            case Err(e) => e == NameTooLong || ReferenceResolve(fs, root, path) == Err(e)
  {
    hide Components, Locate, Joined;
    var text := Joined("", path);
    StartInv(fs, root, text);
    StartRefines(fs, root, path);
    RunRefines(fs, root, Start(root, text));
    var r := Run(fs, root, Start(root, text));
    if r.Ok? {
      InvIsCanonical(fs, root, r.value);
      RenderIsAppended(r.value.stack);
    }
  }

  /** Confinement: a full result is the root followed by proper names, whatever the links say. */
  lemma FullResultIsConfined(fs: Fs, root: NodeId, rootText: string, path: string)
    requires ValidRoot(fs, root)
    ensures match PathResolve(fs, Some(root), true, rootText, path)
            case Ok(text) =>
              && ReferenceResolve(fs, root, path).Ok?
              && Components(text) == Components(rootText) + ReferenceResolve(fs, root, path).value
              && Canonical(fs, root, ReferenceResolve(fs, root, path).value)
            case Err(e) => e == NameTooLong || ReferenceResolve(fs, root, path) == Err(e)
  {
    hide Components, Locate, Joined;
    var text := Joined("", path);
    StartInv(fs, root, text);
    StartRefines(fs, root, path);
    RunRefines(fs, root, Start(root, text));
    var r := Run(fs, root, Start(root, text));
    if r.Ok? {
      InvIsCanonical(fs, root, r.value);
      RenderIsAppended(r.value.stack);
      JoinExact(rootText, Render(r.value.stack));
    }
  }

  /** A full result is a usable buffer text: not empty, and it fits. */
  lemma FullResultIsATarget(fs: Fs, root: NodeId, rootText: string, path: string)
    requires ValidRoot(fs, root) && rootText != ""
    requires PathResolve(fs, Some(root), true, rootText, path).Ok?
    ensures var text := PathResolve(fs, Some(root), true, rootText, path).value;
            text != "" && |text| < PATH_MAX
  {
    hide Run, Joined, Render;
    var text := Joined("", path);
    StartInv(fs, root, text);
    var r := Run(fs, root, Start(root, text)).value;
    JoinedExtends("", rootText);
    JoinedExtends(Joined("", rootText), Render(r.stack));
  }

  lemma {:induction false} RenderGrows(names: seq<string>, j: nat)
    requires j <= |names|
    ensures |Render(names[..j])| <= |Render(names)|
    decreases |names|
  {
    if j < |names| {
      var init := names[..|names| - 1];
      assert init[..j] == names[..j];
      RenderGrows(init, j);
    } else {
      assert names[..j] == names;
    }
  }

  /** Pushing the next name of a path that fits leaves a path that fits. */
  lemma NextNameFits(names: seq<string>, i: nat)
    requires AreNames(names) && |Render(names)| < PATH_MAX && i < |names|
    ensures |Joined(Render(names[..i]), names[i])| < PATH_MAX
  {
    hide Joined, IsComponent, IsName;
    var stack := names[..i];
    assert names[..i + 1] == stack + [names[i]];
    RenderGrows(names, i + 1);
    RenderPush(stack, names[i]);
  }

  /** The next name of a canonical path is never a link, and is looked up in a directory or below a missing name. */
  lemma NextNameIsPlain(fs: Fs, root: NodeId, w: Walk, names: seq<string>)
    requires Inv(fs, root, w) && Canonical(fs, root, names)
    requires |w.stack| < |names| && w.stack == names[..|w.stack|]
    ensures w.missing > 0 ||
            (var text := Readlink(fs, w.node, names[|w.stack|]); text.NoEntry? || text.NotALink?)
  {
    var i := |w.stack|;
    MissingMeansGone(fs, root, w);
    LocatePush(fs, root, w.stack, names[i]);
    assert names[..i + 1] == w.stack + [names[i]];
    assert PrefixOk(fs, root, names, i) && PrefixOk(fs, root, names, i + 1);
  }

  /** On a canonical path the next name is just pushed. */
  lemma CanonicalDescend(fs: Fs, root: NodeId, w: Walk, names: seq<string>)
    requires Inv(fs, root, w) && w.links == 0 && Canonical(fs, root, names) && |Render(names)| < PATH_MAX
    requires |w.stack| < |names| && w.stack == names[..|w.stack|]
    ensures var o := Descend(fs, root, w, names[|w.stack|]);
            o.Next? && o.walk.stack == names[..|w.stack| + 1] && o.walk.pending == w.pending && o.walk.links == 0
  {
    hide Joined, Render, Locate, Components;
    NextNameFits(names, |w.stack|);
    NextNameIsPlain(fs, root, w, names);
    assert names[..|w.stack| + 1] == w.stack + [names[|w.stack|]];
  }

  /** A walk that still has exactly the rest of `names` to go. */
  ghost predicate OnCourse(fs: Fs, root: NodeId, w: Walk, names: seq<string>) {
    && Inv(fs, root, w) && w.links == 0
    && |w.stack| <= |names| && w.stack == names[..|w.stack|]
    && PendingComponents(w.pending) == names[|w.stack|..]
  }

  lemma CanonicalStep(fs: Fs, root: NodeId, w: Walk, names: seq<string>)
    requires OnCourse(fs, root, w, names) && w.pending.Some?
    requires Canonical(fs, root, names) && |Render(names)| < PATH_MAX
    ensures Step(fs, root, w).Next? && OnCourse(fs, root, Step(fs, root, w).walk, names)
  {
    hide Components, Render, Joined, Locate, Push, GoUp, Follow, Strsep;
    var (file, rest) := Strsep(w.pending.value, '/');
    var i := |w.stack|;
    var tail := PendingComponents(rest);
    StrsepComponents(w.pending.value);
    if file == "" {
      assert [] + tail == tail;
    } else {
      assert names[i..] == [file] + tail;
      FirstAndRest(names, i, file, tail);
      CanonicalDescend(fs, root, w.(pending := rest), names);
    }
    StepKeepsInv(fs, root, w);
  }

  lemma FirstAndRest(names: seq<string>, i: nat, c: string, tail: seq<string>)
    requires i <= |names| && names[i..] == [c] + tail
    ensures i < |names| && names[i] == c && names[i + 1..] == tail
  {
  }

  /** A canonical path is walked to its end without following a link. */
  lemma {:induction false} CanonicalRun(fs: Fs, root: NodeId, w: Walk, names: seq<string>)
    requires OnCourse(fs, root, w, names)
    requires Canonical(fs, root, names) && |Render(names)| < PATH_MAX
    ensures Run(fs, root, w).Ok?
    ensures Run(fs, root, w).value.stack == names && Run(fs, root, w).value.links == 0
    decreases PendingLength(w.pending)
  {
    if w.pending.Some? {
      CanonicalStep(fs, root, w, names);
      StepProgresses(fs, root, w);
      CanonicalRun(fs, root, Step(fs, root, w).walk, names);
    }
  }

  /** Resolving a result again, against the same tree and root, follows no link and changes nothing. */
  lemma ResolveIsIdempotent(fs: Fs, root: NodeId, rootText: string, path: string)
    requires ValidRoot(fs, root)
    requires PathResolve(fs, Some(root), false, rootText, path).Ok?
    ensures var text := PathResolve(fs, Some(root), false, rootText, path).value;
            && PathResolve(fs, Some(root), false, rootText, text) == Ok(text)
            && Inv(fs, root, Start(root, Joined("", text)))
            && Run(fs, root, Start(root, Joined("", text))).Ok?
            && Run(fs, root, Start(root, Joined("", text))).value.links == 0
  {
    hide Components, Locate;
    var text := PathResolve(fs, Some(root), false, rootText, path).value;
    PathResolveRefines(fs, root, rootText, path);
    var names := ReferenceResolve(fs, root, path).value;
    RenderIsAppended(names);
    assert Joined("", text) == text == Render(names);
    StartInv(fs, root, text);
    var start := Start(root, text);
    assert names[..0] == [] && names[0..] == names;
    CanonicalRun(fs, root, start, names);
  }

  // ---------------------------------------------------------------------
  // When no buffer can overflow
  // ---------------------------------------------------------------------

  ghost predicate TargetsUpTo(fs: Fs, t: nat) {
    forall l :: l in fs && fs[l].Link? ==> |fs[l].target| <= t
  }

  /** Text the links yet to be followed can still add. */
  function Reserve(links: nat, t: nat): nat {
    if links >= MAXSYMLINKS then 0 else (MAXSYMLINKS - links) * (t + 1)
  }

  lemma ReserveStep(links: nat, t: nat)
    requires links < MAXSYMLINKS
    ensures Reserve(links, t) == Reserve(links + 1, t) + t + 1
  {
  }

  /** Room the rest of the walk can still need: resolved text, pending text, and the links yet to be followed. */
  function Room(w: Walk, t: nat): nat {
    |Render(w.stack)| + PendingLength(w.pending) + Reserve(w.links, t)
  }

  ghost predicate Fits(o: Outcome, room: int, t: nat) {
    match o
    case Stop(e, _) => e != NameTooLong
    case Next(w) => Room(w, t) <= room
  }

  lemma PushFits(w: Walk, name: string, gone: bool, t: nat)
    requires AreNames(w.stack) && IsName(name) && w.links <= MAXSYMLINKS
    requires Room(w, t) + |name| + 1 < PATH_MAX
    ensures Fits(Push(w, name, gone), Room(w, t) + |name| + 1, t)
  {
    hide Joined, Render, Reserve;
    RenderPush(w.stack, name);
  }

  lemma FollowFits(root: NodeId, w: Walk, target: string, t: nat)
    requires target != "" && |target| <= t && w.links < MAXSYMLINKS
    requires Room(w, t) < PATH_MAX
    ensures Fits(Follow(root, w, target), Room(w, t), t)
  {
    hide Joined, Components, AppendPath, Reserve;
    ReserveStep(w.links, t);
    if w.pending.Some? {
      AppendExact(if target[0] == '/' then target[1..] else target, w.pending.value);
    }
  }

  lemma GoUpFits(fs: Fs, w: Walk, t: nat)
    requires w.node in fs
    ensures Fits(GoUp(fs, w), Room(w, t), t)
  {
    hide Reserve;
  }

  lemma StepFits(fs: Fs, root: NodeId, w: Walk, t: nat)
    requires Inv(fs, root, w) && w.pending.Some? && TargetsUpTo(fs, t) && t < PATH_MAX
    requires Room(w, t) < PATH_MAX
    ensures Fits(Step(fs, root, w), Room(w, t), t)
  {
    hide Joined, Render, Locate, Reserve;
    var (file, rest) := Strsep(w.pending.value, '/');
    var w' := w.(pending := rest);
    assert Room(w, t) == Room(w', t) + |file| + 1;
    if file == "" || file == "." {
    } else if file == ".." {
      GoUpFits(fs, w', t);
    } else {
      DescendFits(fs, root, w', file, t);
    }
  }

  lemma DescendFits(fs: Fs, root: NodeId, w: Walk, name: string, t: nat)
    requires Inv(fs, root, w) && IsName(name) && TargetsUpTo(fs, t) && t < PATH_MAX
    requires Room(w, t) + |name| + 1 < PATH_MAX
    ensures Fits(Descend(fs, root, w, name), Room(w, t) + |name| + 1, t)
  {
    hide Joined, Render, Locate, Push, Reserve;
    PushFits(w, name, true, t);
    if w.missing == 0 {
      match Readlink(fs, w.node, name)
      case Target(target) =>
        if w.links < MAXSYMLINKS { FollowFits(root, w, target, t); }
      case NotALink =>
        var child := fs[w.node].entries[name];
        PushFits(w.(node := child, trail := w.trail + [child]), name, false, t);
      case _ =>
    }
  }

  lemma {:induction false} RunFits(fs: Fs, root: NodeId, w: Walk, t: nat)
    requires Inv(fs, root, w) && TargetsUpTo(fs, t) && t < PATH_MAX
    requires Room(w, t) < PATH_MAX
    ensures Run(fs, root, w) != Err(NameTooLong)
    ensures Run(fs, root, w).Ok? ==> |Render(Run(fs, root, w).value.stack)| < PATH_MAX
    decreases MAXSYMLINKS - w.links, PendingLength(w.pending)
  {
    hide Render, Locate, Joined, Reserve;
    if w.pending.Some? {
      StepFits(fs, root, w, t);
      if Step(fs, root, w).Next? {
        StepKeepsInv(fs, root, w);
        StepProgresses(fs, root, w);
        RunFits(fs, root, Step(fs, root, w).walk, t);
      }
    }
  }

  /** On paths and link targets this short, path_resolve and the reference agree on every input, failures included. */
  lemma ShortInputsAgreeExactly(fs: Fs, root: NodeId, rootText: string, path: string, t: nat)
    requires ValidRoot(fs, root) && TargetsUpTo(fs, t)
    requires |path| + 2 + MAXSYMLINKS * (t + 1) < PATH_MAX
    ensures PathResolve(fs, Some(root), false, rootText, path) ==
              match ReferenceResolve(fs, root, path)
              case Ok(names) => Ok(Render(names))
              case Err(e) => Err(e)
  {
    var text := Joined("", path);
    AppendExact("", path);
    StartInv(fs, root, text);
    RunFits(fs, root, Start(root, text), t);
    PathResolveRefines(fs, root, rootText, path);
    var r := Run(fs, root, Start(root, text));
    if r.Ok? {
      RenderIsAppended(r.value.stack);
    }
  }

  lemma {:induction false} LoopPathShape(n: nat)
    ensures |LoopPath(n)| == n + 1 && AreNames(LoopPath(n))
    ensures forall i :: 0 <= i <= n ==> |LoopPath(n)[i]| == 1
  {
    if n > 0 { LoopPathShape(n - 1); }
  }

  lemma {:induction false} RenderLength(names: seq<string>)
    requires forall i :: 0 <= i < |names| ==> |names[i]| == 1
    ensures |Render(names)| == 2 * |names|
  {
    if names != [] { RenderLength(names[..|names| - 1]); }
  }

  /** Twenty links and then a plain file, as a path: one would expect the file, the code reports too many links. */
  lemma TwentyLinksAreTooMany(rootText: string)
    ensures var path := Render(LoopPath(MAXSYMLINKS));
            && Standard(LOOP_TREE, 0, Components(path), [], MAXSYMLINKS) == Ok(["f"])
            && ValidRoot(LOOP_TREE, 0)
            && PathResolve(LOOP_TREE, Some(0), false, rootText, path) == Err(TooManyLinks)
  {
    hide Render, Components, PathResolve, Standard, Reference, LoopPath;
    var names := LoopPath(MAXSYMLINKS);
    LoopTreeFacts();
    LoopPathShape(MAXSYMLINKS);
    RenderLength(names);
    ComponentsOfRender(names);
    LoopPathExactly(MAXSYMLINKS, MAXSYMLINKS);
    ShortInputsAgreeExactly(LOOP_TREE, 0, rootText, Render(names), 1);
  }

  // ---------------------------------------------------------------------
  // path_resolve_full
  // ---------------------------------------------------------------------

  lemma StepKeepsRealpath(fs: Fs, root: NodeId, w: Walk)
    requires Inv(fs, root, w) && w.pending.Some? && |Render(w.stack)| < PATH_MAX && Step(fs, root, w).Next?
    ensures |Render(Step(fs, root, w).walk.stack)| < PATH_MAX
  {
    hide Joined, Locate, Below;
    var (file, rest) := Strsep(w.pending.value, '/');
    if file == ".." {
      if w.stack != [] { RenderGrows(w.stack, |w.stack| - 1); }
    } else if IsName(file) {
      RenderPush(w.stack, file);
    }
  }

  /** The resolved path always fits its buffer. */
  lemma {:induction false} RunKeepsRealpath(fs: Fs, root: NodeId, w: Walk)
    requires Inv(fs, root, w) && |Render(w.stack)| < PATH_MAX
    ensures Run(fs, root, w).Ok? ==> |Render(Run(fs, root, w).value.stack)| < PATH_MAX
    decreases MAXSYMLINKS - w.links, PendingLength(w.pending)
  {
    hide Render, Joined, Locate, Step;
    if w.pending.Some? && Step(fs, root, w).Next? {
      StepKeepsInv(fs, root, w);
      StepProgresses(fs, root, w);
      StepKeepsRealpath(fs, root, w);
      RunKeepsRealpath(fs, root, Step(fs, root, w).walk);
    }
  }

  /** For every input path_resolve_full is path_resolve with the root joined in front: it fails with it, or because the join is too long. */
  lemma FullJoinsRoot(fs: Fs, rootNode: Option<NodeId>, rootText: string, path: string)
    requires rootNode.Some? ==> ValidRoot(fs, rootNode.value)
    ensures PathResolve(fs, rootNode, true, rootText, path) ==
              match PathResolve(fs, rootNode, false, rootText, path)
              case Err(e) => Err(e)
              case Ok(text) =>
                if |Joined("", rootText)| < PATH_MAX && |Joined(Joined("", rootText), text)| < PATH_MAX
                then Ok(Joined(Joined("", rootText), text)) else Err(NameTooLong)
  {
    hide Run, Components, Locate;
    if rootNode.Some? && |Joined("", path)| < PATH_MAX {
      var start := Start(rootNode.value, Joined("", path));
      StartInv(fs, rootNode.value, Joined("", path));
      RunKeepsRealpath(fs, rootNode.value, start);
      var r := Run(fs, rootNode.value, start);
      if r.Ok? { RenderIsAppended(r.value.stack); }
    }
  }

  /** When no buffer can overflow on the way, the full result is the reference's answer behind the root, exactly if that fits. */
  lemma ShortInputsAgreeFull(fs: Fs, root: NodeId, rootText: string, path: string, t: nat)
    requires ValidRoot(fs, root) && TargetsUpTo(fs, t)
    requires |path| + 2 + MAXSYMLINKS * (t + 1) < PATH_MAX
    ensures PathResolve(fs, Some(root), true, rootText, path) ==
              match ReferenceResolve(fs, root, path)
              case Err(e) => Err(e)
              case Ok(names) =>
                if |Joined("", rootText)| < PATH_MAX && |Joined(Joined("", rootText), Render(names))| < PATH_MAX
                then Ok(Joined(Joined("", rootText), Render(names))) else Err(NameTooLong)
  {
    hide PathResolve, Reference, Joined, Render;
    ShortInputsAgreeExactly(fs, root, rootText, path, t);
    FullJoinsRoot(fs, Some(root), rootText, path);
  }

  /** A name that is a link stands for its target: a relative one where the link lies, an absolute one at the root. */
  lemma LinksAreTransparent(fs: Fs, root: NodeId, stack: seq<string>, name: string, text: string, rest: seq<string>, b: nat)
    requires IsName(name) && Locate(fs, root, stack).Some? && IsDir(fs, Locate(fs, root, stack).value)
    requires var next := Locate(fs, root, stack + [name]); next.Some? && IsLink(fs, next.value) && fs[next.value].target == text
    ensures text == "" || text[0] != '/' ==>
              Reference(fs, root, [name] + rest, stack, b + 1) == Reference(fs, root, Components(text) + rest, stack, b)
    ensures text != "" && text[0] == '/' ==>
              Reference(fs, root, [name] + rest, stack, b + 1) == Reference(fs, root, Components(text[1..]) + rest, [], b)
  {
    hide Components, Locate;
    var all := [name] + rest;
    assert all[0] == name && all[1..] == rest;
    if text != "" {
      assert HasPrefix(text, "/") <==> text[0] == '/' by { assert text[..1] == [text[0]]; }
      if text[0] == '/' {
        assert text == "/" + text[1..];
        ComponentsOfSlash(text[1..]);
      }
    }
  }

  /** A name that is no link, or missing, is just kept; looking it up takes a budget. */
  lemma PlainNamesAreKept(fs: Fs, root: NodeId, stack: seq<string>, name: string, rest: seq<string>, b: nat)
    requires IsName(name)
    requires var here, next := Locate(fs, root, stack), Locate(fs, root, stack + [name]);
             here.None? || (IsDir(fs, here.value) && b > 0 && (next.None? || !IsLink(fs, next.value)))
    ensures Reference(fs, root, [name] + rest, stack, b) == Reference(fs, root, rest, stack + [name], b)
  {
    hide Locate;
    var all := [name] + rest;
    assert all[0] == name && all[1..] == rest;
  }

  /** Two dots leave a directory or a missing place for the one above, are an error at the root, and so is any name in a file. */
  lemma DotsGoUp(fs: Fs, root: NodeId, stack: seq<string>, name: string, rest: seq<string>, b: nat)
    ensures Reference(fs, root, [".."] + rest, [], b) == Err(EscapesRoot)
    ensures Reference(fs, root, ["."] + rest, stack, b) == Reference(fs, root, rest, stack, b)
    ensures var at := Locate(fs, root, stack + [name]);
            at.None? || IsDir(fs, at.value) ==>
              Reference(fs, root, [".."] + rest, stack + [name], b) == Reference(fs, root, rest, stack, b)
    ensures var at := Locate(fs, root, stack + [name]);
            at.Some? && !IsDir(fs, at.value) ==> Reference(fs, root, [".."] + rest, stack + [name], b) == Err(NotADir)
  {
    hide Locate;
    var up, dot := [".."] + rest, ["."] + rest;
    assert up[0] == ".." && up[1..] == rest && dot[0] == "." && dot[1..] == rest;
    assert (stack + [name])[..|stack|] == stack;
  }

  /** A root whose `lib` is a link to `usr`. */
  const LIB_TREE: Fs := map[0 := Dir(map["lib" := 1, "usr" := 2], 0), 1 := Link("usr"), 2 := Dir(map[], 0)]

  /** Resolving the link gives the directory it stands for, behind the root. */
  lemma LibIsUsr()
    ensures ValidRoot(LIB_TREE, 0) && PathResolve(LIB_TREE, Some(0), true, "/c", "/lib") == Ok("/c/usr")
  {
    hide Components, Reference, PathResolve, Joined, Render;
    LibTreeFacts();
    LinksAreTransparent(LIB_TREE, 0, [], "lib", "usr", [], MAXSYMLINKS - 1);
    PlainNamesAreKept(LIB_TREE, 0, [], "usr", [], MAXSYMLINKS - 1);
    assert ["lib"] + [] == ["lib"] && ["usr"] + [] == ["usr"] && [] + ["usr"] == ["usr"];
    assert Reference(LIB_TREE, 0, [], ["usr"], MAXSYMLINKS - 1) == Ok(["usr"]) by { ReferenceOfNothing(LIB_TREE, 0, ["usr"], MAXSYMLINKS - 1); }
    ShortInputsAgreeFull(LIB_TREE, 0, "/c", "/lib", 3);
    LibTexts();
  }

  lemma ReferenceOfNothing(fs: Fs, root: NodeId, stack: seq<string>, b: nat)
    ensures Reference(fs, root, [], stack, b) == Ok(stack)
  {
  }

  lemma LibTexts()
    ensures Components("/lib") == ["lib"] && Components("usr") == ["usr"]
    ensures Joined("", "/c") == "/c" && Render(["usr"]) == "/usr" && Joined("/c", "/usr") == "/c/usr"
  {
    hide Components;
    assert "/" + "lib" == "/lib";
    ComponentsOfSlash("lib");
    ComponentsOfComponent("lib");
    ComponentsOfComponent("usr");
    assert ["usr"][..0] == [];
  }

  lemma LibTreeFacts()
    ensures ValidRoot(LIB_TREE, 0) && TargetsUpTo(LIB_TREE, 3)
    ensures Locate(LIB_TREE, 0, []) == Some(0)
    ensures Locate(LIB_TREE, 0, [] + ["lib"]) == Some(1) && Locate(LIB_TREE, 0, [] + ["usr"]) == Some(2)
  {
    LocatePush(LIB_TREE, 0, [], "lib");
    LocatePush(LIB_TREE, 0, [], "usr");
  }
}
