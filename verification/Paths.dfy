/**
 path_new, path_append and path_join (src/utils.c), and what they mean for a
 path read as a list of components.
 */
module Paths {
  import opened CStrings

  const PATH_MAX: nat := 4096

  /** A component is what remains between slashes: never empty, never holding a slash. */
  predicate IsComponent(c: string) {
    c != "" && '/' !in c
  }

  /** A name is a component that denotes a directory entry, not the directory itself or its parent. */
  predicate IsName(c: string) {
    IsComponent(c) && c != "." && c != ".."
  }

  predicate AreNames(names: seq<string>) {
    forall i :: 0 <= i < |names| ==> IsName(names[i])
  }

  /** The components of a path: split at slashes, empty pieces dropped. */
  function Components(s: string): seq<string>
    decreases |s|
  {
    var k := IndexOf(s, '/');
    var head := if k == 0 then [] else [s[..k]];
    if k == |s| then head else head + Components(s[k + 1..])
  }

  /** The rendering the resolver keeps: every name preceded by one slash. */
  function Render(names: seq<string>): string {
    if names == [] then "" else Render(names[..|names| - 1]) + "/" + names[|names| - 1]
  }

  /** What path_append writes when the buffer is large enough. */
  function Joined(buf: string, path: string): string {
    if path == "" then buf
    else
      var open := buf == "" || buf[|buf| - 1] != '/';
      if path[0] != '/' && open then buf + "/" + path
      else if path[0] == '/' && !open then buf + path[1..]
      else buf + path
  }

  /** path_append as a value: None when the joined text and its NUL do not fit. */
  function AppendPath(buf: string, path: string): Option<string> {
    if |Joined(buf, path)| < PATH_MAX then Some(Joined(buf, path)) else None
  }

  /** path_join as a value. */
  function JoinPaths(p1: string, p2: string): Option<string> {
    match AppendPath("", p1)
    case None => None
    case Some(b) => AppendPath(b, p2)
  }

  /** A path buffer of PATH_MAX bytes; `text` is the C string it holds. */
  class PathBuf {
    var text: string

    ghost predicate Valid() reads this { |text| < PATH_MAX }

    constructor ()
      ensures Valid() && text == ""
    {
      text := "";
    }

    /** path_append: on overflow snprintf has already written all that fits. */
    method Append(path: string) returns (ok: bool)
      requires Valid()
      modifies this
      ensures Valid()
      ensures ok <==> |Joined(old(text), path)| < PATH_MAX
      ensures ok ==> text == Joined(old(text), path)
      ensures !ok ==> text == Joined(old(text), path)[..PATH_MAX - 1]
    {
      if path == "" {
        return true;
      }
      var sep := if path[0] != '/' && (text == "" || text[|text| - 1] != '/') then "/" else "";
      var body := if path[0] == '/' && text != "" && text[|text| - 1] == '/' then path[1..] else path;
      var cap := PATH_MAX - |text|;
      var out := sep + body;
      assert text + out == Joined(text, path);
      if |out| >= cap {
        text := text + out[..cap - 1];
        return false;
      }
      text := text + out;
      return true;
    }

    /** path_new */
    method New(path: string) returns (ok: bool)
      modifies this
      ensures Valid()
      ensures ok <==> AppendPath("", path).Some?
      ensures text == if ok then Joined("", path) else Joined("", path)[..PATH_MAX - 1]
    {
      text := "";
      ok := Append(path);
    }

    /** path_join */
    method Join(p1: string, p2: string) returns (ok: bool)
      modifies this
      ensures Valid()
      ensures ok <==> JoinPaths(p1, p2).Some?
      ensures ok ==> Some(text) == JoinPaths(p1, p2)
    {
      ok := New(p1);
      if ok { ok := Append(p2); }
    }

    /** Writing a NUL at a saved end pointer. */
    method Truncate(len: nat)
      requires Valid() && len <= |text|
      modifies this
      ensures Valid() && text == old(text)[..len]
    {
      text := text[..len];
    }
  }

  /** One unfolding of Components at a known first slash. */
  lemma ComponentsAt(s: string, k: nat)
    requires k <= |s| && (forall i :: 0 <= i < k ==> s[i] != '/') && (k < |s| ==> s[k] == '/')
    ensures k == |s| ==> Components(s) == if k == 0 then [] else [s[..k]]
    ensures k < |s| ==> Components(s) == (if k == 0 then [] else [s[..k]]) + Components(s[k + 1..])
  {
    hide IndexOf;
    IndexOfIs(s, '/', k);
  }

  /** A slash between two texts separates their components, whatever the texts. */
  lemma {:induction false} ComponentsOfCut(a: string, b: string)
    ensures Components(a + "/" + b) == Components(a) + Components(b)
    decreases |a|
  {
    hide Components, IndexOf;
    var s := a + "/" + b;
    var k := IndexOf(a, '/');
    assert forall i :: 0 <= i < |a| ==> s[i] == a[i];
    assert s[|a|] == '/';
    var head := if k == 0 then [] else [a[..k]];
    assert s[..k] == a[..k];
    if k == |a| {
      assert Components(a) == head by { ComponentsAt(a, k); }
      assert Components(s) == head + Components(b) by {
        ComponentsAt(s, k);
        assert s[k + 1..] == b;
      }
    } else {
      var a', s' := a[k + 1..], s[k + 1..];
      assert Components(a) == head + Components(a') by { ComponentsAt(a, k); }
      assert Components(s) == head + Components(s') by { ComponentsAt(s, k); }
      assert s' == a' + "/" + b;
      ComponentsOfCut(a', b);
      ConcatAssociates(head, Components(a'), Components(b));
    }
  }

  lemma ComponentsOfSlash(b: string)
    ensures Components("/" + b) == Components(b)
  {
  }

  lemma ComponentsOfClosed(a: string)
    ensures Components(a + "/") == Components(a)
  {
    hide Components;
    assert a + "/" + "" == a + "/";
    ComponentsOfCut(a, "");
    ComponentsAt("", 0);
  }

  /** Joining concatenates component lists, for every pair of texts. */
  lemma JoinConcatenates(buf: string, path: string)
    ensures Components(Joined(buf, path)) == Components(buf) + Components(path)
  {
    hide Components;
    if path == "" {
      ComponentsAt("", 0);
    } else if buf != "" && buf[|buf| - 1] == '/' {
      assert buf == buf[..|buf| - 1] + "/";
      JoinAfterSlash(buf[..|buf| - 1], path);
    } else if path[0] == '/' {
      assert path == "/" + path[1..];
      JoinBeforeSlash(buf, path[1..]);
    } else {
      ComponentsOfCut(buf, path);
    }
  }

  lemma JoinBeforeSlash(buf: string, rest: string)
    ensures Components(buf + ("/" + rest)) == Components(buf) + Components("/" + rest)
  {
    hide Components;
    ComponentsOfSlash(rest);
    ConcatAssociates(buf, "/", rest);
    ComponentsOfCut(buf, rest);
  }

  lemma JoinAfterSlash(a: string, path: string)
    requires path != ""
    ensures Components(Joined(a + "/", path)) == Components(a + "/") + Components(path)
  {
    hide Components;
    ComponentsOfClosed(a);
    if path[0] == '/' {
      assert path == "/" + path[1..];
      ComponentsOfSlash(path[1..]);
      ComponentsOfCut(a, path[1..]);
    } else {
      ComponentsOfCut(a, path);
    }
  }

  lemma ComponentsOfComponent(c: string)
    requires IsComponent(c)
    ensures Components(c) == [c]
  {
    hide Components, IndexOf;
    ComponentsAt(c, |c|);
    assert c[..|c|] == c;
  }

  /** Rendering is undone by splitting. */
  lemma {:induction false} ComponentsOfRender(names: seq<string>)
    requires AreNames(names)
    ensures Components(Render(names)) == names
  {
    hide Components;
    if names == [] {
      ComponentsAt("", 0);
    } else {
      var init, last := names[..|names| - 1], names[|names| - 1];
      ComponentsOfRender(init);
      ComponentsOfCut(Render(init), last);
      ComponentsOfComponent(last);
      assert init + [last] == names;
    }
  }

  /** A rendering is empty, or starts with a slash and ends without one. */
  lemma {:induction false} RenderShape(names: seq<string>)
    requires AreNames(names)
    ensures names == [] <==> Render(names) == ""
    ensures names != [] ==> Render(names)[0] == '/' && Render(names)[|Render(names)| - 1] != '/'
  {
    if names != [] {
      var init, last := names[..|names| - 1], names[|names| - 1];
      RenderShape(init);
      assert last[|last| - 1] in last;
    }
  }

  /** Appending one component to a rendering renders the longer list. */
  lemma RenderPush(names: seq<string>, c: string)
    requires AreNames(names) && IsName(c)
    ensures Joined(Render(names), c) == Render(names + [c])
    ensures |Render(names + [c])| == |Render(names)| + 1 + |c|
  {
  }

  lemma LastSlash(init: string, last: string)
    requires '/' !in last
    ensures LastIndexOf(init + "/" + last, '/') == |init|
    ensures (init + "/" + last)[..|init|] == init
  {
    var s := init + "/" + last;
    assert s[|init| + 1..] == last;
    LastIndexOfIs(s, '/', |init|);
  }

  /** Cutting a rendering at its last slash drops the last name. */
  lemma RenderPop(names: seq<string>)
    requires names != []
    requires AreNames(names)
    ensures LastIndexOf(Render(names), '/') >= 0
    ensures Render(names)[..LastIndexOf(Render(names), '/')] == Render(names[..|names| - 1])
  {
    LastSlash(Render(names[..|names| - 1]), names[|names| - 1]);
  }

  /** Joining only adds at the end. */
  lemma JoinedExtends(buf: string, path: string)
    ensures |buf| <= |Joined(buf, path)| && Joined(buf, path)[..|buf|] == buf
    ensures path != "" ==> Joined(buf, path) != ""
  {
  }

  function WithoutLastSlash(s: string): string {
    if s != "" && s[|s| - 1] == '/' then s[..|s| - 1] else s
  }

  function WithoutFirstSlash(s: string): string {
    if s != "" && s[0] == '/' then s[1..] else s
  }

  /** There is exactly one slash at the seam, whichever side brings it. */
  lemma JoinSeam(buf: string, path: string)
    ensures path != "" ==> Joined(buf, path) == WithoutLastSlash(buf) + "/" + WithoutFirstSlash(path)
    ensures Joined(buf, "") == buf
  {
    if path != "" {
      if buf != "" && buf[|buf| - 1] == '/' { assert buf == buf[..|buf| - 1] + "/"; }
      if path[0] == '/' { assert path == "/" + path[1..]; }
    }
  }

  /** path_append onto a buffer fails exactly when the joined text would not fit beside its NUL. */
  lemma AppendExact(buf: string, path: string)
    ensures AppendPath(buf, path).Some? <==> |Joined(buf, path)| < PATH_MAX
    ensures |buf| + |path| - 1 <= |Joined(buf, path)| <= |buf| + |path| + 1
    ensures AppendPath(buf, path).Some? ==>
              Components(AppendPath(buf, path).value) == Components(buf) + Components(path)
  {
    hide Components;
    JoinConcatenates(buf, path);
  }

  /** path_join, for all strings: the components of the halves in order, whenever both steps fit. */
  lemma JoinExact(p1: string, p2: string)
    ensures JoinPaths(p1, p2).Some? <==> |Joined("", p1)| < PATH_MAX && |Joined(Joined("", p1), p2)| < PATH_MAX
    ensures JoinPaths(p1, p2).Some? ==> Components(JoinPaths(p1, p2).value) == Components(p1) + Components(p2)
  {
    hide Components;
    var b := Joined("", p1);
    assert Components(b) == Components(p1) by {
      JoinConcatenates("", p1);
      ComponentsAt("", 0);
    }
    JoinConcatenates(b, p2);
  }
}
