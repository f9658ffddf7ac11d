/**
 The driver's binaries and libraries, and which of them the container options
 ask for (the tables and match_*_flags of src/nvc_info.c; src/options.h).
 */
module Libraries {
  import opened CStrings

  /** The container options that mounting looks at. */
  datatype Flags = Flags(
    utilityBins: bool, utilityLibs: bool, computeLibs: bool, videoLibs: bool, graphicsLibs: bool,
    compat32: bool, display: bool, noDevbind: bool, noCgroups: bool)

  const UTILITY_BINS: seq<string> := ["xdxsmi"]

  const UTILITY_LIBS: seq<string> :=
    ["libxdxgpu-ml.so", "libpciaccess.so", "libva.so", "libva-drm.so", "libdrm.so"]

  const COMPUTE_LIBS: seq<string> := ["libCL_xdxgpu.so", "libdrm.so"]

  const VIDEO_LIBS: seq<string> :=
    ["libva.so", "libva-x11.so", "xdxgpu_dri.so",
     "xdxgpu_drv_video.so", "xdxgpu_drv_video_a0.so", "xdxgpu_drv_video_b0.so"]

  const GRAPHICS_LIBS: seq<string> :=
    ["libEGL_mesa.so", "libEGL.so", "libglapi.so", "libGLdispatch.so", "libGLESv1_CM.so",
     "libGLESv1_CM_xdxgpu.so", "libGLESv2.so", "libGLESv2_xdxgpu.so", "libGL.so", "libGL_xdxgpu.so",
     "libGLX_mesa.so", "libGLX.so", "libOpenGL.so", "libusc_xdxgpu.so", "libufgen_xdxgpu.so",
     "libgsl_xdxgpu.so", "libdri_xdxgpu.so", "libdrm_xdxgpu.so", "libxdxgpu_mesa_wsi.so",
     "libvlk_xdxgpu.so", "xdxgpu_dri.so"]

  const DXCORE_LIBS: seq<string> := ["libdxcore.so"]

  /** The libraries lookup_libraries asks the cache for, in order. */
  function Requested(dxcore: bool): seq<string> {
    UTILITY_LIBS + COMPUTE_LIBS + VIDEO_LIBS + GRAPHICS_LIBS + (if dxcore then DXCORE_LIBS else [])
  }

  /** str_array_match_prefix */
  predicate MatchPrefix(name: string, names: seq<string>) {
    exists i :: 0 <= i < |names| && HasPrefix(name, names[i])
  }

  predicate MatchBinaryFlags(bin: string, flags: Flags) {
    flags.utilityBins && MatchPrefix(bin, UTILITY_BINS)
  }

  predicate MatchLibraryFlags(lib: string, flags: Flags) {
    || MatchPrefix(lib, DXCORE_LIBS)
    || (flags.utilityLibs && MatchPrefix(lib, UTILITY_LIBS))
    || (flags.computeLibs && MatchPrefix(lib, COMPUTE_LIBS))
    || (flags.videoLibs && MatchPrefix(lib, VIDEO_LIBS))
    || (flags.graphicsLibs && MatchPrefix(lib, GRAPHICS_LIBS))
  }

  lemma MatchPrefixOfConcat(name: string, a: seq<string>, b: seq<string>)
    ensures MatchPrefix(name, a + b) <==> MatchPrefix(name, a) || MatchPrefix(name, b)
  {
    if MatchPrefix(name, a) {
      var i :| 0 <= i < |a| && HasPrefix(name, a[i]);
      assert (a + b)[i] == a[i];
    }
    if MatchPrefix(name, b) {
      var i :| 0 <= i < |b| && HasPrefix(name, b[i]);
      assert (a + b)[|a| + i] == b[i];
    }
    if MatchPrefix(name, a + b) {
      var i :| 0 <= i < |a + b| && HasPrefix(name, (a + b)[i]);
      if i < |a| { assert HasPrefix(name, a[i]); } else { assert HasPrefix(name, b[i - |a|]); }
    }
  }

  /** With every library option on, exactly the names the lookup asks for (under dxcore) are mounted. */
  lemma RequestedAreMountable(name: string, flags: Flags)
    requires flags.utilityLibs && flags.computeLibs && flags.videoLibs && flags.graphicsLibs
    ensures MatchLibraryFlags(name, flags) <==> MatchPrefix(name, Requested(true))
  {
    hide MatchPrefix, HasPrefix;
    var u, c, v, g := UTILITY_LIBS, COMPUTE_LIBS, VIDEO_LIBS, GRAPHICS_LIBS;
    MatchPrefixOfConcat(name, u, c);
    MatchPrefixOfConcat(name, u + c, v);
    MatchPrefixOfConcat(name, u + c + v, g);
    MatchPrefixOfConcat(name, u + c + v + g, DXCORE_LIBS);
  }

  const NO_FLAGS: Flags := Flags(false, false, false, false, false, false, false, false, false)

  /** One option alone. */
  datatype Choice = Utility | Compute | Video | Graphics

  function Only(c: Choice): Flags {
    match c
    case Utility => NO_FLAGS.(utilityLibs := true)
    case Compute => NO_FLAGS.(computeLibs := true)
    case Video => NO_FLAGS.(videoLibs := true)
    case Graphics => NO_FLAGS.(graphicsLibs := true)
  }

  function TableOf(c: Choice): seq<string> {
    match c
    case Utility => UTILITY_LIBS
    case Compute => COMPUTE_LIBS
    case Video => VIDEO_LIBS
    case Graphics => GRAPHICS_LIBS
  }

  predicate IsOn(c: Choice, flags: Flags) {
    match c
    case Utility => flags.utilityLibs
    case Compute => flags.computeLibs
    case Video => flags.videoLibs
    case Graphics => flags.graphicsLibs
  }

  /** Each option alone lets exactly the names of its own table pass, besides those of the dxcore table. */
  lemma OneOptionOneTable(name: string, c: Choice)
    ensures MatchLibraryFlags(name, Only(c)) <==> MatchPrefix(name, DXCORE_LIBS) || MatchPrefix(name, TableOf(c))
    ensures MatchLibraryFlags(name, NO_FLAGS) <==> MatchPrefix(name, DXCORE_LIBS)
  {
    hide MatchPrefix;
  }

  /** A set of options lets a name pass exactly if one of them alone does, or none is needed. */
  lemma OptionsAddUp(name: string, flags: Flags)
    ensures MatchLibraryFlags(name, flags) <==>
              MatchLibraryFlags(name, NO_FLAGS) || exists c :: IsOn(c, flags) && MatchLibraryFlags(name, Only(c))
  {
    hide MatchPrefix;
    assert forall c :: IsOn(c, flags) ==> c == Utility || c == Compute || c == Video || c == Graphics;
    if flags.utilityLibs { assert IsOn(Utility, flags); }
    if flags.computeLibs { assert IsOn(Compute, flags); }
    if flags.videoLibs { assert IsOn(Video, flags); }
    if flags.graphicsLibs { assert IsOn(Graphics, flags); }
  }

  /** A name that is one of the table's, with any version behind it. */
  lemma VersionsMatch(names: seq<string>, i: nat, version: string)
    requires i < |names|
    ensures MatchPrefix(names[i] + version, names)
  {
    assert (names[i] + version)[..|names[i]|] == names[i];
  }

  lemma PrefixLetters(name: string, p: string)
    ensures HasPrefix(name, p) ==> |p| <= |name| && forall j :: 0 <= j < |p| ==> name[j] == p[j]
  {
    if HasPrefix(name, p) { assert forall j :: 0 <= j < |p| ==> name[..|p|][j] == name[j]; }
  }

  /** A name whose fourth letter is not that of any name in the table does not match it. */
  lemma OtherNamesDoNot(name: string, names: seq<string>)
    requires |name| > 3 && forall i :: 0 <= i < |names| ==> |names[i]| > 3 && names[i][3] != name[3]
    ensures !MatchPrefix(name, names)
  {
    forall i | 0 <= i < |names|
      ensures !HasPrefix(name, names[i])
    {
      PrefixLetters(name, names[i]);
    }
  }

  /** The one binary is mounted exactly when its option is on, and no other option mounts it. */
  lemma BinariesNeedTheirOption(version: string, flags: Flags)
    ensures MatchBinaryFlags("xdxsmi" + version, flags) <==> flags.utilityBins
  {
    assert UTILITY_BINS[0] == "xdxsmi";
    VersionsMatch(UTILITY_BINS, 0, version);
  }

  /** One library of each table, in any version: it is mounted exactly when the option of that table is on. */
  lemma EachTableHasItsOwn(version: string, flags: Flags)
    ensures MatchLibraryFlags("libpciaccess.so" + version, flags) <==> flags.utilityLibs
    ensures MatchLibraryFlags("libCL_xdxgpu.so" + version, flags) <==> flags.computeLibs
    ensures MatchLibraryFlags("libGL.so" + version, flags) <==> flags.graphicsLibs
    ensures MatchLibraryFlags("libdxcore.so" + version, flags)
  {
    hide MatchPrefix;
    VersionsMatch(UTILITY_LIBS, 1, version);
    OnlyInUtility("libpciaccess.so" + version);
    VersionsMatch(COMPUTE_LIBS, 0, version);
    OnlyInCompute("libCL_xdxgpu.so" + version);
    VersionsMatch(GRAPHICS_LIBS, 8, version);
    OnlyInGraphics("libGL.so" + version);
    VersionsMatch(DXCORE_LIBS, 0, version);
  }

  lemma OnlyInUtility(name: string)
    requires |name| > 3 && name[3] == 'p'
    ensures !MatchPrefix(name, COMPUTE_LIBS) && !MatchPrefix(name, VIDEO_LIBS)
    ensures !MatchPrefix(name, GRAPHICS_LIBS) && !MatchPrefix(name, DXCORE_LIBS)
  {
    hide MatchPrefix;
    OtherNamesDoNot(name, COMPUTE_LIBS);
    OtherNamesDoNot(name, VIDEO_LIBS);
    OtherNamesDoNot(name, GRAPHICS_LIBS);
    OtherNamesDoNot(name, DXCORE_LIBS);
  }

  lemma OnlyInCompute(name: string)
    requires |name| > 3 && name[3] == 'C'
    ensures !MatchPrefix(name, UTILITY_LIBS) && !MatchPrefix(name, VIDEO_LIBS)
    ensures !MatchPrefix(name, GRAPHICS_LIBS) && !MatchPrefix(name, DXCORE_LIBS)
  {
    hide MatchPrefix;
    OtherNamesDoNot(name, UTILITY_LIBS);
    OtherNamesDoNot(name, VIDEO_LIBS);
    OtherNamesDoNot(name, GRAPHICS_LIBS);
    OtherNamesDoNot(name, DXCORE_LIBS);
  }

  lemma OnlyInGraphics(name: string)
    requires |name| > 3 && name[3] == 'G'
    ensures !MatchPrefix(name, UTILITY_LIBS) && !MatchPrefix(name, COMPUTE_LIBS)
    ensures !MatchPrefix(name, VIDEO_LIBS) && !MatchPrefix(name, DXCORE_LIBS)
  {
    hide MatchPrefix;
    OtherNamesDoNot(name, UTILITY_LIBS);
    OtherNamesDoNot(name, COMPUTE_LIBS);
    OtherNamesDoNot(name, VIDEO_LIBS);
    OtherNamesDoNot(name, DXCORE_LIBS);
  }

  /** The X11 library is mounted exactly for video: its letters part it from the other va libraries. */
  lemma VaX11IsVideo(version: string, flags: Flags)
    ensures MatchLibraryFlags("libva-x11.so" + version, flags) <==> flags.videoLibs
  {
    var name := "libva-x11.so" + version;
    assert name[0] == 'l' && name[3] == 'v' && name[4] == 'a' && name[5] == '-' && name[6] == 'x';
    assert VIDEO_LIBS[1] == "libva-x11.so";
    VersionsMatch(VIDEO_LIBS, 1, version);
    assert !MatchPrefix(name, UTILITY_LIBS) by {
      forall i | 0 <= i < |UTILITY_LIBS|
        ensures !HasPrefix(name, UTILITY_LIBS[i])
      {
        PrefixLetters(name, UTILITY_LIBS[i]);
      }
    }
    OtherNamesDoNot(name, COMPUTE_LIBS);
    assert !MatchPrefix(name, GRAPHICS_LIBS) by {
      forall i | 0 <= i < |GRAPHICS_LIBS|
        ensures !HasPrefix(name, GRAPHICS_LIBS[i])
      {
        PrefixLetters(name, GRAPHICS_LIBS[i]);
      }
    }
    OtherNamesDoNot(name, DXCORE_LIBS);
  }

  /** Without dxcore its library is not asked for; with it, it comes last. */
  lemma RequestedByDxcore()
    ensures Requested(true) == Requested(false) + ["libdxcore.so"]
    ensures |Requested(false)| == 34
    ensures Requested(false)[0] == "libxdxgpu-ml.so" && Requested(false)[5] == "libCL_xdxgpu.so"
    ensures Requested(false)[7] == "libva.so" && Requested(false)[13] == "libEGL_mesa.so"
  {
  }

  /** What is asked for without dxcore is what the four options together mount, short of the dxcore table. */
  lemma RequestedByOptions(name: string)
    ensures MatchPrefix(name, Requested(false)) <==>
              exists c :: MatchPrefix(name, TableOf(c))
  {
    hide MatchPrefix, HasPrefix;
    var u, c, v, g := UTILITY_LIBS, COMPUTE_LIBS, VIDEO_LIBS, GRAPHICS_LIBS;
    MatchPrefixOfConcat(name, u, c);
    MatchPrefixOfConcat(name, u + c, v);
    MatchPrefixOfConcat(name, u + c + v, g);
    assert Requested(false) == u + c + v + g;
    assert TableOf(Utility) == u && TableOf(Compute) == c && TableOf(Video) == v && TableOf(Graphics) == g;
  }
}
