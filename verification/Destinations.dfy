/**
 Where a mount goes: path_resolve_full of a path inside the container's root
 (src/utils.c), against the tree as that call finds it.
 */
module Destinations {
  import opened CStrings
  import opened Paths
  import opened FileTree
  import opened Resolver

  datatype Sight = Sight(fs: Fs, rootNode: Option<NodeId>, rootfs: string)

  /** The container's tree as one call finds it; the root is an absolute path, as do_path_resolve asserts. */
  type View = v: Sight | ValidSight(v) witness Sight(map[], None, "/")

  ghost predicate ValidSight(v: Sight) {
    HasPrefix(v.rootfs, "/") && (v.rootNode.Some? ==> ValidRoot(v.fs, v.rootNode.value))
  }

  /** path_resolve_full: a text that fits a path buffer and is not empty, if the path resolves. */
  function Destination(v: View, path: string): (r: Option<string>)
    ensures r.Some? ==> r.value != "" && |r.value| < PATH_MAX
  {
    match PathResolve(v.fs, v.rootNode, true, v.rootfs, path)
    case Err(_) => None
    case Ok(text) =>
      FullResultIsATarget(v.fs, v.rootNode.value, v.rootfs, path);
      Some(text)
  }

  /** What a failed path_resolve_full has written: nothing, or as much of a text too long as fits. */
  function Residue(v: View, path: string): (text: string)
    ensures Destination(v, path).Some? ==> text == ""
  {
    if v.rootNode.None? || |Joined("", path)| >= PATH_MAX then ""
    else
      StartInv(v.fs, v.rootNode.value, Joined("", path));
      match Run(v.fs, v.rootNode.value, Start(v.rootNode.value, Joined("", path)))
      case Err(_) => ""
      case Ok(w) =>
        var root := Joined("", v.rootfs);
        var full := Joined(root, Render(w.stack));
        if |root| >= PATH_MAX then root[..PATH_MAX - 1]
        else if |full| >= PATH_MAX then full[..PATH_MAX - 1]
        else ""
  }

  /** The buffer holds as much of the root, or of the root and the resolved path, as fits, exactly if the path itself resolves. */
  lemma ResidueIs(v: View, path: string)
    ensures match PathResolve(v.fs, v.rootNode, false, v.rootfs, path)
            case Err(_) => Residue(v, path) == "" && Destination(v, path) == None
            case Ok(text) =>
              var root := Joined("", v.rootfs);
              var full := Joined(root, text);
              && (Destination(v, path).Some? <==> |root| < PATH_MAX && |full| < PATH_MAX)
              && Residue(v, path) == if |root| >= PATH_MAX then root[..PATH_MAX - 1]
                                     else if |full| >= PATH_MAX then full[..PATH_MAX - 1] else ""
  {
    hide Run, Locate, Components;
    if v.rootNode.Some? && |Joined("", path)| < PATH_MAX {
      var start := Start(v.rootNode.value, Joined("", path));
      StartInv(v.fs, v.rootNode.value, Joined("", path));
      RunKeepsRealpath(v.fs, v.rootNode.value, start);
      var r := Run(v.fs, v.rootNode.value, start);
      if r.Ok? { RenderIsAppended(r.value.stack); }
    }
  }

  /** A text that leads from `rootfs` down through proper names only. */
  ghost predicate Under(rootfs: string, text: string) {
    exists names :: AreNames(names) && Components(text) == Components(rootfs) + names
  }

  /** Whatever the links in the container say, a destination lies under its root. */
  lemma DestinationIsUnder(v: View, path: string)
    requires Destination(v, path).Some?
    ensures Under(v.rootfs, Destination(v, path).value)
  {
    hide Components;
    FullResultIsConfined(v.fs, v.rootNode.value, v.rootfs, path);
    assert AreNames(ReferenceResolve(v.fs, v.rootNode.value, path).value);
  }

  lemma UnderGrows(rootfs: string, dir: string, name: string)
    requires Under(rootfs, dir) && IsName(name)
    ensures Under(rootfs, Joined(dir, name))
  {
    hide Components;
    var names :| AreNames(names) && Components(dir) == Components(rootfs) + names;
    JoinConcatenates(dir, name);
    ComponentsOfComponent(name);
    ConcatAssociates(Components(rootfs), names, [name]);
    assert AreNames(names + [name]);
  }

  /** A last component that is no name leads out of `rootfs`, or stays where it is, but not to a name under it. */
  lemma DotsAreNotUnder(rootfs: string, dir: string, dots: string)
    requires Under(rootfs, dir) && IsComponent(dots) && !IsName(dots)
    ensures !Under(rootfs, Joined(dir, dots))
  {
    hide Components;
    var names :| AreNames(names) && Components(dir) == Components(rootfs) + names;
    JoinConcatenates(dir, dots);
    ComponentsOfComponent(dots);
    var all := Components(Joined(dir, dots));
    assert all[|all| - 1] == dots && |all| > |Components(rootfs)|;
    forall other | Components(Joined(dir, dots)) == Components(rootfs) + other
      ensures !AreNames(other)
    {
      assert other[|other| - 1] == dots;
    }
  }

  /** A container whose root directory is empty. */
  const EMPTY_ROOT: Sight := Sight(map[0 := Dir(map[], 0)], Some(0), "/c")

  /** In an empty root a path of names leads to the missing entry below it. */
  lemma EmptyRootResolves(names: seq<string>)
    requires names != [] && AreNames(names) && |Render(names)| < PATH_MAX - 2
    ensures ValidSight(EMPTY_ROOT) && Destination(EMPTY_ROOT, Render(names)) == Some("/c" + Render(names))
  {
    hide Components, Locate, Below, Render, Run;
    var fs: Fs := EMPTY_ROOT.fs;
    var text := Render(names);
    assert HasPrefix("/c", "/") by { assert "/c"[..1] == "/"; }
    RenderIsAppended(names);
    StartInv(fs, 0, text);
    EmptyRootIsCanonical(names);
    assert names[..0] == [] && names[0..] == names;
    CanonicalRun(fs, 0, Start(0, text), names);
    RenderShape(names);
    assert Joined("", "/c") == "/c" && Joined("/c", text) == "/c" + text;
  }

  lemma EmptyRootIsCanonical(names: seq<string>)
    requires names != [] && AreNames(names)
    ensures ValidRoot(EMPTY_ROOT.fs, 0) && Canonical(EMPTY_ROOT.fs, 0, names)
  {
    var fs: Fs := EMPTY_ROOT.fs;
    forall j | 0 <= j <= |names|
      ensures PrefixOk(fs, 0, names, j)
    {
      var prefix := names[..j];
      if j > 0 {
        assert prefix[..1] == [] + [names[0]];
        LocatePush(fs, 0, [], names[0]);
        NothingBelowMissing(fs, 0, prefix, 1);
      }
    }
  }
}
