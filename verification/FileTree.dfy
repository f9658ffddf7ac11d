/**
 The part of the file system the resolver sees: directories with named entries
 and a parent, regular files, and symbolic links holding a target text.
 */
module FileTree {
  import opened CStrings
  import opened Paths

  type NodeId = nat

  datatype Node = Dir(entries: map<string, NodeId>, parent: NodeId) | File | Link(target: string)

  type Fs = map<NodeId, Node>

  /** Every entry is a name of an existing node, a directory has one parent, and no link is empty. */
  ghost predicate ValidFs(fs: Fs) {
    && (forall d, n :: d in fs && fs[d].Dir? && n in fs[d].entries ==>
          && IsName(n)
          && fs[d].entries[n] in fs
          && (fs[fs[d].entries[n]].Dir? ==> fs[fs[d].entries[n]].parent == d))
    && (forall l :: l in fs && fs[l].Link? ==> fs[l].target != "")
  }

  ghost predicate ValidRoot(fs: Fs, root: NodeId) {
    ValidFs(fs) && root in fs && fs[root].Dir?
  }

  /** The node `names` leads to from `root` when no link is followed. */
  function Locate(fs: Fs, root: NodeId, names: seq<string>): (r: Option<NodeId>)
  {
    if names == [] then Some(root)
    else
      match Locate(fs, root, names[..|names| - 1])
      case None => None
      case Some(d) =>
        var n := names[|names| - 1];
        if d in fs && fs[d].Dir? && n in fs[d].entries then Some(fs[d].entries[n]) else None
  }

  /** `id` lies at or below `root`. */
  ghost predicate Below(fs: Fs, root: NodeId, id: NodeId) {
    exists names :: Locate(fs, root, names) == Some(id)
  }

  /** What readlinkat reports for `name` in an open node. */
  datatype LinkText = Target(text: string) | NoEntry | NotALink | NotADirectory

  function Readlink(fs: Fs, node: NodeId, name: string): LinkText
    requires node in fs
  {
    if !fs[node].Dir? then NotADirectory
    else if name !in fs[node].entries then NoEntry
    else
      var child := fs[node].entries[name];
      if child in fs && fs[child].Link? then Target(fs[child].target) else NotALink
  }

  lemma LocatePush(fs: Fs, root: NodeId, names: seq<string>, n: string)
    ensures Locate(fs, root, names + [n]) ==
              match Locate(fs, root, names)
              case None => None
              case Some(d) =>
                if d in fs && fs[d].Dir? && n in fs[d].entries then Some(fs[d].entries[n]) else None
  {
  }

  /** Nothing exists below a place that does not. */
  lemma {:induction false} NothingBelowMissing(fs: Fs, root: NodeId, names: seq<string>, k: nat)
    requires k <= |names| && Locate(fs, root, names[..k]).None?
    ensures Locate(fs, root, names).None?
    decreases |names|
  {
    if k == |names| {
      assert names[..k] == names;
    } else {
      assert names[..|names| - 1][..k] == names[..k];
      NothingBelowMissing(fs, root, names[..|names| - 1], k);
    }
  }

  /** The parent of a directory found below the root is the node one name up. */
  lemma ParentIsOneUp(fs: Fs, root: NodeId, names: seq<string>, id: NodeId)
    requires ValidRoot(fs, root) && names != []
    requires Locate(fs, root, names) == Some(id) && id in fs && fs[id].Dir?
    ensures Locate(fs, root, names[..|names| - 1]) == Some(fs[id].parent)
  {
  }
}
