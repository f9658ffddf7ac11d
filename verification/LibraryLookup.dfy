/**
 find_library_paths and lookup_libraries (src/nvc_info.c): open the cache,
 select a path for every requested library on two architectures, and drop the
 libraries not found.
 */
module LibraryLookup {
  import opened CStrings
  import opened Arrays
  import opened CacheFormat
  import opened CacheSelect
  import opened FileTree
  import opened Resolver
  import opened Libraries

  const LIB_ARCH: nat := 0x0300     // LD_X8664_LIB64
  const LIB32_ARCH: nat := 0x0000   // LD_I386_LIB32

  /** path_resolve against the driver root, on a fixed file system. */
  function ResolveIn(fs: Fs, rootNode: NodeId, root: string): Resolve
    requires ValidRoot(fs, rootNode)
  {
    (value: string) =>
      match PathResolve(fs, Some(rootNode), false, root, value)
      case Ok(path) => Some(path)
      case Err(_) => None
  }

  /** The preference function find_library_paths picks. */
  function Preference(dxcore: bool, readable: string -> bool): Select {
    if dxcore then SelectWsl() else SelectLibraries(readable)
  }

  /** The libraries found for one architecture, in request order. */
  ghost function Chosen(es: seq<Entry>, arch: nat, dxcore: bool, resolve: Resolve, readable: string -> bool): Option<seq<string>> {
    match OfferAll(es, arch, Requested(dxcore), resolve, Preference(dxcore, readable))
    case None => None
    case Some(slots) => Some(Filled(slots))
  }

  /** Astray: an entry led out of the mapping. */
  datatype Lookup<+T> = Found(value: T) | NotFound | Astray

  /** One architecture of find_library_paths, and the packing lookup_libraries does afterwards; `spare` is asked first for the array. */
  method LookUpArch(img: seq<Byte>, ptr: nat, arch: nat, dxcore: bool, resolve: Resolve, readable: string -> bool,
                    spare: nat -> bool)
    returns (r: Lookup<seq<string>>, used: nat)
    requires ptr + LIBC6_HEADER <= |img|
    ensures r.Found? ==> WellFormed(img, ptr) && Some(r.value) == Chosen(Entries(img, ptr), arch, dxcore, resolve, readable)
    ensures r.Astray? ==> !WellFormed(img, ptr)
    ensures r.NotFound? && WellFormed(img, ptr) ==>
              || Chosen(Entries(img, ptr), arch, dxcore, resolve, readable).None?
              || exists k: nat :: k < used && !spare(k)
  {
    hide OfferAll, Entries, WellFormed, Filled, Packing, Requested, FailsAt;
    used := 1;
    if !spare(0) {
      return NotFound, used;
    }
    var requested := Requested(dxcore);
    var select := Preference(dxcore, readable);
    var paths := new Option<string>[|requested|];
    var scan, copies := LdcacheResolve(img, ptr, arch, requested, paths, resolve, select, (k: nat) => spare(k + 1));
    used := 1 + copies;
    match scan
    case OutOfBounds =>
      return Astray, used;
    case Failed =>
      if WellFormed(img, ptr) { FailureIsTotal(img, ptr, arch, requested, resolve, select); }
      return NotFound, used;
    case Resolved =>
      ghost var slots := paths[..];
      var n := ArrayPack(paths, |requested|);
      PackedShape(slots, |requested|, n, paths[..]);
      assert slots[..|requested|] == slots;
      var libs := seq(n, i requires 0 <= i < n && paths[i].Some? reads paths => paths[i].value);
      assert libs == Filled(slots);
      return Found(libs), used;
  }

  /** The two lists a cache image selects, if it can be opened. */
  ghost predicate Selects(img: seq<Byte>, dxcore: bool, resolve: Resolve, readable: string -> bool, libs: seq<string>, libs32: seq<string>) {
    && OpenAt(img).Some? && WellFormed(img, OpenAt(img).value)
    && var es := Entries(img, OpenAt(img).value);
       && Chosen(es, LIB_ARCH, dxcore, resolve, readable) == Some(libs)
       && Chosen(es, LIB32_ARCH, dxcore, resolve, readable) == Some(libs32)
  }

  /**
   find_library_paths and lookup_libraries: resolve the cache's own path, map and
   open it, look up both architectures, unmap it.  `read` maps a file, `spare` is
   asked for every allocation and `unmap` tells whether the unmapping succeeds.
   */
  method LookUpLibraries(cache: string, read: string -> Option<seq<Byte>>, dxcore: bool, fs: Fs, rootNode: NodeId, root: string,
                         readable: string -> bool, spare: nat -> bool, unmap: bool)
    returns (r: Lookup<(seq<string>, seq<string>)>, used: nat)
    requires ValidRoot(fs, rootNode)
    ensures var path := PathResolve(fs, Some(rootNode), true, root, cache);
            var resolve := ResolveIn(fs, rootNode, root);
            && (r.Found? ==>
                  && unmap && path.Ok? && read(path.value).Some?
                  && Selects(read(path.value).value, dxcore, resolve, readable, r.value.0, r.value.1))
            && (r.Astray? ==>
                  && path.Ok? && read(path.value).Some? && OpenAt(read(path.value).value).Some?
                  && !WellFormed(read(path.value).value, OpenAt(read(path.value).value).value))
            && (r.NotFound? && unmap && path.Ok? && read(path.value).Some? && (forall k: nat :: k < used ==> spare(k)) ==>
                  forall libs, libs32 :: !Selects(read(path.value).value, dxcore, resolve, readable, libs, libs32))
  {
    hide PathResolve, OpenAt, WellFormed, Entries, Chosen, ResolveIn;
    used := 0;
    var path := PathResolve(fs, Some(rootNode), true, root, cache);
    if path.Err? {
      return NotFound, used;
    }
    var image := read(path.value);
    if image.None? {
      return NotFound, used;
    }
    var ld := new LdCache();
    var ok := ld.Open(image.value);
    if !ok {
      return NotFound, used;
    }
    OpenedInside(image.value);
    var resolve := ResolveIn(fs, rootNode, root);
    var libs, n := LookUpArch(ld.image, ld.ptr, LIB_ARCH, dxcore, resolve, readable, spare);
    used := n;
    if !libs.Found? {
      return (if libs.Astray? then Astray else NotFound), used;
    }
    var libs32, n32 := LookUpArch(ld.image, ld.ptr, LIB32_ARCH, dxcore, resolve, readable, (k: nat) => spare(k + n));
    used := n + n32;
    if !libs32.Found? {
      return (if libs32.Astray? then Astray else NotFound), used;
    }
    if !unmap {
      return NotFound, used;
    }
    r := Found((libs.value, libs32.value));
  }

  lemma OpenedInside(img: seq<Byte>)
    ensures OpenAt(img).Some? ==> OpenAt(img).value + LIBC6_HEADER <= |img|
  {
  }

  /** One entry, for the library asked for at place `k` and none before it: its path is all that is found. */
  lemma OneEntryIsFound(e: Entry, arch: nat, libs: seq<string>, resolve: Resolve, select: Select, k: nat, path: string)
    requires k < |libs| && CacheSelect.Wanted(e, arch) && HasPrefix(e.key, libs[k]) && forall i :: 0 <= i < k ==> !HasPrefix(e.key, libs[i])
    requires resolve(e.value) == Some(path) && select(None, path) == Some(true)
    ensures OfferAll([e], arch, libs, resolve, select) == Some(Blank(|libs|)[k := Some(path)])
    ensures Filled(Blank(|libs|)[k := Some(path)]) == [path]
  {
    hide HasPrefix, CacheSelect.Wanted, Filled;
    assert [e][..0] == [] && OfferAll([], arch, libs, resolve, select) == Some(Blank(|libs|));
    assert Matches(libs, e.key, 0);
    var n := |libs|;
    var head := Blank(k) + [Some(path)];
    assert Blank(n)[k := Some(path)] == head + Blank(n - k - 1);
    FilledOfBlankTail(head, n - k - 1);
    FilledOfPush(Blank(k), Some(path));
    assert [] + Blank(k) == Blank(k);
    FilledOfBlankTail([], k);
    FilledOfNone();
  }

  lemma FilledOfNone()
    ensures Filled([]) == []
  {
  }

  /** The first library asked for that begins the OpenCL library's name is its own entry in the list. */
  lemma OpenClSlot(version: string)
    ensures HasPrefix("libCL_xdxgpu.so" + version, Requested(false)[5])
    ensures forall i :: 0 <= i < 5 ==> !HasPrefix("libCL_xdxgpu.so" + version, Requested(false)[i])
  {
    hide HasPrefix;
    var name := "libCL_xdxgpu.so" + version;
    PrefixOfConcat("libCL_xdxgpu.so", version);
    assert name[3] == 'C';
    forall i | 0 <= i < 5
      ensures !HasPrefix(name, Requested(false)[i])
    {
      PrefixLetters(name, Requested(false)[i]);
    }
  }

  /** A cache with the OpenCL library for both architectures: the two lists hold the two paths. */
  lemma BothArchitecturesAreFound(version: string, v64: string, v32: string, resolve: Resolve, readable: string -> bool, p64: string, p32: string)
    requires resolve(v64) == Some(p64) && resolve(v32) == Some(p32) && readable(p64) && readable(p32)
    ensures var name := "libCL_xdxgpu.so" + version;
            var es := [Entry(0x0303, name, v64), Entry(0x0003, name, v32)];
            && Chosen(es, LIB_ARCH, false, resolve, readable) == Some([p64])
            && Chosen(es, LIB32_ARCH, false, resolve, readable) == Some([p32])
  {
    hide HasPrefix, CacheSelect.Wanted, Filled, OfferAll, Requested, InOpt, InUsr;
    var name := "libCL_xdxgpu.so" + version;
    var a, b := Entry(0x0303, name, v64), Entry(0x0003, name, v32);
    var select := Preference(false, readable);
    WantedByBytes(0, 3, 3, name, v64, LIB_ARCH);
    WantedByBytes(0, 3, 3, name, v64, LIB32_ARCH);
    WantedByBytes(0, 0, 3, name, v32, LIB_ARCH);
    WantedByBytes(0, 0, 3, name, v32, LIB32_ARCH);
    OpenClSlot(version);
    RequestedByDxcore();
    TwoEntries(a, b, LIB_ARCH);
    TwoEntries(a, b, LIB32_ARCH);
    OthersDoNotCount([a, b], LIB_ARCH, Requested(false), resolve, select);
    OthersDoNotCount([a, b], LIB32_ARCH, Requested(false), resolve, select);
    OneEntryIsFound(a, LIB_ARCH, Requested(false), resolve, select, 5, p64);
    OneEntryIsFound(b, LIB32_ARCH, Requested(false), resolve, select, 5, p32);
  }

  lemma TwoEntries(a: Entry, b: Entry, arch: nat)
    ensures CacheSelect.Wanted(a, arch) && !CacheSelect.Wanted(b, arch) ==> OfArch([a, b], arch) == [a]
    ensures !CacheSelect.Wanted(a, arch) && CacheSelect.Wanted(b, arch) ==> OfArch([a, b], arch) == [b]
  {
    hide CacheSelect.Wanted;
    assert [a, b][..1] == [a] && [a][..0] == [] && OfArch([], arch) == [];
    assert [] + [a] == [a] && [] + [b] == [b];
  }

  /** Under dxcore a path below /wsl/lib/ is kept; natively one under /opt is kept from /usr/lib only, and an unreadable one fails. */
  lemma PreferenceIs(readable: string -> bool, held: Option<string>, c: string)
    ensures Preference(true, readable)(held, c) == Some(held.None? || !Contains(held.value, "/wsl/lib/"))
    ensures !readable(c) ==> Preference(false, readable)(held, c) == None
    ensures readable(c) ==>
              Preference(false, readable)(held, c) ==
                Some(held.None? || !HasPrefix(held.value, "/opt/xdxgpu/lib/x86_64-linux-gnu") || !HasPrefix(c, "/usr/lib/x86_64-linux-gnu"))
  {
    hide HasPrefix, Contains;
  }

  /** A candidate's path is resolved as seen from the driver root, without the root in front. */
  lemma ResolveInIs(fs: Fs, rootNode: NodeId, root: string, value: string)
    requires ValidRoot(fs, rootNode)
    ensures ResolveIn(fs, rootNode, root)(value) ==
              match PathResolve(fs, Some(rootNode), false, root, value)
              case Ok(path) => Some(path)
              case Err(_) => None
  {
    hide PathResolve;
  }
}
