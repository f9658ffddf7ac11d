/**
 ldcache_resolve (src/ldcache.c): every cache entry of the right architecture
 is offered to the requested libraries in order, and a preference function
 decides whether it replaces what a library has so far.  The two preference
 functions are those of src/nvc_info.c.
 */
module CacheSelect {
  import opened CStrings
  import opened Arrays
  import opened CacheFormat

  const LD_ELF: nat := 0x0001

  /** path_resolve against the driver root: None when it fails. */
  type Resolve = string -> Option<string>

  /** ldcache_select_fn: what the slot holds, the candidate, and whether the candidate wins (None on error). */
  type Select = (Option<string>, string) -> Option<bool>

  /** flags & LD_ELF, and the architecture byte is the wanted one. */
  predicate Wanted(e: Entry, arch: nat) {
    e.flags % 2 == LD_ELF && e.flags / 0x100 % 0x100 * 0x100 == arch
  }

  /** Some requested library, from `j` on, is a prefix of the key. */
  predicate Matches(libs: seq<string>, key: string, j: nat) {
    exists k :: j <= k < |libs| && HasPrefix(key, libs[k])
  }

  /** The first slot from `j` on whose library is a prefix of the key and that does not hold `path` yet. */
  function Reached(libs: seq<string>, key: string, slots: Slots, path: string, j: nat): (k: nat)
    requires |slots| == |libs| && j <= |libs|
    ensures j <= k <= |libs|
    ensures k < |libs| ==> HasPrefix(key, libs[k]) && slots[k] != Some(path)
    ensures forall i :: j <= i < k ==> !HasPrefix(key, libs[i]) || slots[i] == Some(path)
    decreases |libs| - j
  {
    if j == |libs| || (HasPrefix(key, libs[j]) && slots[j] != Some(path)) then j
    else Reached(libs, key, slots, path, j + 1)
  }

  /** One entry: None on failure. */
  function Offer(e: Entry, arch: nat, libs: seq<string>, resolve: Resolve, select: Select, slots: Slots): (r: Option<Slots>)
    requires |slots| == |libs|
    ensures r.Some? ==> |r.value| == |libs|
  {
    if !Wanted(e, arch) || !Matches(libs, e.key, 0) then Some(slots)
    else match resolve(e.value)
      case None => None
      case Some(path) =>
        var k := Reached(libs, e.key, slots, path, 0);
        if k == |libs| then Some(slots)
        else match select(slots[k], path)
          case None => None
          case Some(wins) => Some(if wins then slots[k := Some(path)] else slots)
  }

  /** All entries, in file order, on slots that start empty. */
  function OfferAll(es: seq<Entry>, arch: nat, libs: seq<string>, resolve: Resolve, select: Select): (r: Option<Slots>)
    ensures r.Some? ==> |r.value| == |libs|
  {
    if es == [] then Some(Blank(|libs|))
    else match OfferAll(es[..|es| - 1], arch, libs, resolve, select)
      case None => None
      case Some(slots) => Offer(es[|es| - 1], arch, libs, resolve, select, slots)
  }

  /** The inner loop over the requested libraries.  `spare` says whether the copy it may make can be allocated. */
  method OfferEntry(e: Entry, libs: seq<string>, paths: array<Option<string>>, resolve: Resolve, select: Select,
                    arch: nat, spare: bool)
    returns (ok: bool, copied: bool)
    requires paths.Length == |libs| && Wanted(e, arch)
    modifies paths
    ensures ok ==> Some(paths[..]) == old(Offer(e, arch, libs, resolve, select, paths[..])) && (copied ==> spare)
    ensures !ok ==> old(Offer(e, arch, libs, resolve, select, paths[..])).None? || (copied && !spare)
  {
    ghost var slots := paths[..];
    copied := false;
    var j := 0;
    while j < |libs|
      invariant 0 <= j <= |libs|
      invariant paths[..] == slots
      invariant !copied
      invariant forall i :: 0 <= i < j && HasPrefix(e.key, libs[i]) ==>
                  resolve(e.value).Some? && slots[i] == resolve(e.value)
    {
      if HasPrefix(e.key, libs[j]) {
        var path := resolve(e.value);
        if path.None? {
          return false, copied;
        }
        if paths[j] != path {
          ghost var k := Reached(libs, e.key, slots, path.value, 0);
          assert k == j;
          var wins := select(paths[j], path.value);
          if wins.None? {
            return false, copied;
          }
          if wins.value {
            copied := true;
            if !spare {
              paths[j] := None;
              return false, copied;
            }
            paths[j] := path;
            assert paths[..] == slots[j := path];
          }
          return true, copied;
        }
      }
      j := j + 1;
    }
    return true, copied;
  }

  /** How a scan of the cache ends; the source does not notice when an entry leads out of the mapping. */
  datatype Scan = Resolved | Failed | OutOfBounds

  /** The first `n` entries can be read. */
  ghost predicate ReadableTo(img: seq<Byte>, ptr: nat, n: nat) {
    forall i :: 0 <= i < n ==> Readable(img, ptr, i)
  }

  ghost function EntriesTo(img: seq<Byte>, ptr: nat, n: nat): (es: seq<Entry>)
    requires ReadableTo(img, ptr, n)
    ensures |es| == n && forall i :: 0 <= i < n ==> es[i] == ReadEntry(img, ptr, i)
  {
    seq(n, i requires 0 <= i < n => ReadEntry(img, ptr, i))
  }

  /**
   ldcache_resolve: on success every entry could be read and the slots are the
   fold over them.  It fails only with the fold over the entries read so far, or
   a failed copy; and it leaves the mapping only if an entry does.
   */
  method LdcacheResolve(img: seq<Byte>, ptr: nat, arch: nat, libs: seq<string>, paths: array<Option<string>>,
                        resolve: Resolve, select: Select, spare: nat -> bool)
    returns (r: Scan, copies: nat)
    requires ptr + LIBC6_HEADER <= |img| && paths.Length == |libs|
    modifies paths
    ensures r.Resolved? ==> WellFormed(img, ptr) && Some(paths[..]) == OfferAll(Entries(img, ptr), arch, libs, resolve, select)
    ensures r.Resolved? ==> forall k: nat :: k < copies ==> spare(k)
    ensures r.OutOfBounds? ==> !WellFormed(img, ptr)
    ensures r.Failed? ==>
              || (exists n: nat :: FailsAt(img, ptr, n, arch, libs, resolve, select))
              || exists k: nat :: k < copies && !spare(k)
  {
    hide OfferAll, Matches, Reached, CStringAt, U32, Readable, ReadEntry;
    forall j | 0 <= j < paths.Length { paths[j] := None; }
    assert paths[..] == Blank(|libs|);
    copies := 0;
    var n := Count(img, ptr);
    var i := 0;
    NoEntries(img, ptr, arch, libs, resolve, select);
    while i < n
      invariant 0 <= i <= n && ReadableTo(img, ptr, i)
      invariant OfferAll(EntriesTo(img, ptr, i), arch, libs, resolve, select) == Some(paths[..])
      invariant forall k: nat :: k < copies ==> spare(k)
    {
      if !Readable(img, ptr, i) {
        return OutOfBounds, copies;
      }
      var e := ReadEntry(img, ptr, i);
      OneMoreEntry(img, ptr, i, arch, libs, resolve, select);
      if Wanted(e, arch) {
        var ok, copied := OfferEntry(e, libs, paths, resolve, select, arch, spare(copies));
        copies := if copied then copies + 1 else copies;
        if !ok {
          if !copied || spare(copies - 1) { assert FailsAt(img, ptr, i + 1, arch, libs, resolve, select); }
          return Failed, copies;
        }
      }
      i := i + 1;
    }
    assert EntriesTo(img, ptr, n) == Entries(img, ptr);
    r := Resolved;
  }

  /** The fold over the first `n` entries, all of which can be read, fails. */
  ghost predicate FailsAt(img: seq<Byte>, ptr: nat, n: nat, arch: nat, libs: seq<string>, resolve: Resolve, select: Select)
    requires ptr + LIBC6_HEADER <= |img|
  {
    n <= Count(img, ptr) && ReadableTo(img, ptr, n) && OfferAll(EntriesTo(img, ptr, n), arch, libs, resolve, select).None?
  }

  /** On a well-formed image such a failure is one of the fold over all entries. */
  lemma FailureIsTotal(img: seq<Byte>, ptr: nat, arch: nat, libs: seq<string>, resolve: Resolve, select: Select)
    requires WellFormed(img, ptr)
    ensures (exists n: nat :: FailsAt(img, ptr, n, arch, libs, resolve, select)) ==>
              OfferAll(Entries(img, ptr), arch, libs, resolve, select).None?
  {
    hide OfferAll, Readable, ReadEntry;
    if n: nat :| FailsAt(img, ptr, n, arch, libs, resolve, select) {
      assert Entries(img, ptr)[..n] == EntriesTo(img, ptr, n);
      FailureStays(Entries(img, ptr), n, arch, libs, resolve, select);
    }
  }

  lemma NoEntries(img: seq<Byte>, ptr: nat, arch: nat, libs: seq<string>, resolve: Resolve, select: Select)
    ensures OfferAll(EntriesTo(img, ptr, 0), arch, libs, resolve, select) == Some(Blank(|libs|))
  {
    hide Readable;
  }

  lemma OneMoreEntry(img: seq<Byte>, ptr: nat, i: nat, arch: nat, libs: seq<string>, resolve: Resolve, select: Select)
    requires ReadableTo(img, ptr, i) && Readable(img, ptr, i)
    ensures ReadableTo(img, ptr, i + 1)
    ensures OfferAll(EntriesTo(img, ptr, i + 1), arch, libs, resolve, select) ==
              match OfferAll(EntriesTo(img, ptr, i), arch, libs, resolve, select)
              case None => None
              case Some(slots) => Offer(ReadEntry(img, ptr, i), arch, libs, resolve, select, slots)
  {
    hide Offer, Readable, ReadEntry;
    var es := EntriesTo(img, ptr, i + 1);
    assert es[..i] == EntriesTo(img, ptr, i);
  }

  lemma {:induction false} FailureStays(es: seq<Entry>, i: nat, arch: nat, libs: seq<string>, resolve: Resolve, select: Select)
    requires i <= |es|
    ensures OfferAll(es[..i], arch, libs, resolve, select).None? ==> OfferAll(es, arch, libs, resolve, select).None?
    decreases |es|
  {
    if i == |es| {
      assert es[..i] == es;
    } else {
      assert es[..|es| - 1][..i] == es[..i];
      FailureStays(es[..|es| - 1], i, arch, libs, resolve, select);
    }
  }

  // ---------------------------------------------------------------------
  // Whole runs
  // ---------------------------------------------------------------------

  /** Entry `e` is where a slot for library `lib` may have got `path` from. */
  ghost predicate Provides(e: Entry, arch: nat, lib: string, resolve: Resolve, path: string) {
    Wanted(e, arch) && HasPrefix(e.key, lib) && resolve(e.value) == Some(path)
  }

  /** Every filled slot is the resolved value of an entry of the wanted architecture whose key has the library's prefix. */
  lemma {:induction false} FilledSlotsAreFound(
    es: seq<Entry>, arch: nat, libs: seq<string>, resolve: Resolve, select: Select, j: nat)
    requires j < |libs| && OfferAll(es, arch, libs, resolve, select).Some?
    ensures var slots := OfferAll(es, arch, libs, resolve, select).value;
            slots[j].Some? ==> exists i :: 0 <= i < |es| && Provides(es[i], arch, libs[j], resolve, slots[j].value)
    decreases |es|
  {
    if es != [] {
      var init, e := es[..|es| - 1], es[|es| - 1];
      FilledSlotsAreFound(init, arch, libs, resolve, select, j);
      var before := OfferAll(init, arch, libs, resolve, select).value;
      var after := OfferAll(es, arch, libs, resolve, select).value;
      if after[j].Some? {
        if after[j] == before[j] {
          var i :| 0 <= i < |init| && Provides(init[i], arch, libs[j], resolve, before[j].value);
          assert es[i] == init[i];
        } else {
          assert Provides(es[|es| - 1], arch, libs[j], resolve, after[j].value);
        }
      }
    }
  }

  /** What `e` brings to slot `j`: nothing, or the path the preference function is asked about. */
  function Arrival(e: Entry, arch: nat, libs: seq<string>, resolve: Resolve, slots: Slots, j: nat): seq<string>
    requires |slots| == |libs| && j < |libs|
  {
    if !Wanted(e, arch) || !Matches(libs, e.key, 0) then []
    else match resolve(e.value)
      case None => []
      case Some(path) => if Reached(libs, e.key, slots, path, 0) == j then [path] else []
  }

  /** The candidates that reach slot `j` over the run, in order. */
  function Arrivals(es: seq<Entry>, arch: nat, libs: seq<string>, resolve: Resolve, select: Select, j: nat): seq<string>
    requires j < |libs|
  {
    if es == [] then []
    else
      var init := es[..|es| - 1];
      match OfferAll(init, arch, libs, resolve, select)
      case None => []
      case Some(slots) =>
        Arrivals(init, arch, libs, resolve, select, j)
        + Arrival(es[|es| - 1], arch, libs, resolve, slots, j)
  }

  /** What a slot holds after the candidates `cs` were put to the preference function one by one. */
  function Winner(select: Select, cs: seq<string>): Option<string> {
    if cs == [] then None
    else
      var held := Winner(select, cs[..|cs| - 1]);
      if select(held, cs[|cs| - 1]) == Some(true) then Some(cs[|cs| - 1]) else held
  }

  lemma WinnerOfPush(select: Select, cs: seq<string>, c: string)
    ensures Winner(select, cs + [c]) ==
              if select(Winner(select, cs), c) == Some(true) then Some(c) else Winner(select, cs)
  {
  }

  /** The preference function had an answer for every candidate. */
  ghost predicate NoneRefused(select: Select, cs: seq<string>) {
    forall k :: 0 <= k < |cs| ==> select(Winner(select, cs[..k]), cs[k]).Some?
  }

  lemma NoneRefusedPush(select: Select, cs: seq<string>, c: string)
    requires NoneRefused(select, cs) && select(Winner(select, cs), c).Some?
    ensures NoneRefused(select, cs + [c])
  {
    hide Winner;
    var all := cs + [c];
    forall k | 0 <= k < |all|
      ensures select(Winner(select, all[..k]), all[k]).Some?
    {
      assert all[..k] == if k < |cs| then cs[..k] else cs;
    }
  }

  /** One entry does to a slot what the preference function says about its arrival there. */
  lemma OfferToSlot(e: Entry, arch: nat, libs: seq<string>, resolve: Resolve, select: Select, slots: Slots, j: nat)
    requires |slots| == |libs| && j < |libs| && Offer(e, arch, libs, resolve, select, slots).Some?
    ensures var a := Arrival(e, arch, libs, resolve, slots, j);
            var next := Offer(e, arch, libs, resolve, select, slots).value;
            && |a| <= 1
            && (a == [] ==> next[j] == slots[j])
            && (a != [] ==>
                  && select(slots[j], a[0]).Some?
                  && next[j] == if select(slots[j], a[0]) == Some(true) then Some(a[0]) else slots[j])
  {
    hide Matches, Wanted;
  }

  /** Slots do not interfere: each ends as the preference function's verdict on its own arrivals, none of which was refused. */
  lemma {:induction false} SlotIsWinner(
    es: seq<Entry>, arch: nat, libs: seq<string>, resolve: Resolve, select: Select, j: nat)
    requires j < |libs| && OfferAll(es, arch, libs, resolve, select).Some?
    ensures var cs := Arrivals(es, arch, libs, resolve, select, j);
            OfferAll(es, arch, libs, resolve, select).value[j] == Winner(select, cs) && NoneRefused(select, cs)
    decreases |es|
  {
    hide Offer, Arrival, NoneRefused, Winner;
    if es != [] {
      var init, e := es[..|es| - 1], es[|es| - 1];
      SlotIsWinner(init, arch, libs, resolve, select, j);
      var slots := OfferAll(init, arch, libs, resolve, select).value;
      var cs := Arrivals(init, arch, libs, resolve, select, j);
      var a := Arrival(e, arch, libs, resolve, slots, j);
      OfferToSlot(e, arch, libs, resolve, select, slots, j);
      assert Arrivals(es, arch, libs, resolve, select, j) == cs + a;
      if a == [] {
        assert cs + a == cs;
      } else {
        WinnerOfPush(select, cs, a[0]);
        NoneRefusedPush(select, cs, a[0]);
        assert cs + a == cs + [a[0]];
      }
    } else {
      NoArrivals(select);
    }
  }

  lemma NoArrivals(select: Select)
    ensures Winner(select, []) == None && NoneRefused(select, [])
  {
  }

  // ---------------------------------------------------------------------
  // The preference functions
  // ---------------------------------------------------------------------

  predicate InWsl(path: string) { Contains(path, "/wsl/lib/") }

  /** select_wsl_libraries */
  function SelectWsl(): Select {
    (held: Option<string>, candidate: string) => Some(held.None? || !InWsl(held.value))
  }

  /** Under WSL the first candidate from /wsl/lib/ wins; without one, the last candidate does. */
  lemma {:induction false} WslWinner(cs: seq<string>, k: nat)
    requires k < |cs| && (forall i :: 0 <= i < k ==> !InWsl(cs[i]))
    requires InWsl(cs[k]) || k == |cs| - 1
    ensures Winner(SelectWsl(), cs) == Some(cs[k])
    decreases |cs|
  {
    var init := cs[..|cs| - 1];
    if k < |cs| - 1 {
      WslWinner(init, k);
    } else if k > 0 {
      WslWinner(init, k - 1);
    }
  }

  predicate InOpt(path: string) { HasPrefix(path, "/opt/xdxgpu/lib/x86_64-linux-gnu") }

  predicate InUsr(path: string) { HasPrefix(path, "/usr/lib/x86_64-linux-gnu") }

  /** select_libraries; `readable` says whether root/path can be opened as an ELF file. */
  function SelectLibraries(readable: string -> bool): Select {
    (held: Option<string>, candidate: string) =>
      if !readable(candidate) then None
      else Some(!(held.Some? && InOpt(held.value) && InUsr(candidate)))
  }

  /** The last candidate outside /usr/lib, or -1. */
  function LastOutsideUsr(cs: seq<string>): (m: int)
    ensures -1 <= m < |cs|
    ensures m >= 0 ==> !InUsr(cs[m])
    ensures forall i :: m < i < |cs| ==> InUsr(cs[i])
  {
    if cs == [] then -1
    else if !InUsr(cs[|cs| - 1]) then |cs| - 1
    else LastOutsideUsr(cs[..|cs| - 1])
  }

  lemma OptIsNotUsr(path: string)
    ensures InOpt(path) ==> !InUsr(path)
  {
    if InOpt(path) { assert path[..32][1] == 'o'; }
    if InUsr(path) { assert path[..25][1] == 'u'; }
  }

  /**
   Under select_libraries the winner is the last candidate outside /usr/lib when
   that one is under /opt, and otherwise simply the last candidate.
   */
  lemma {:induction false} LibrariesWinner(readable: string -> bool, cs: seq<string>)
    requires cs != []
    requires forall i :: 0 <= i < |cs| ==> readable(cs[i])
    ensures var m := LastOutsideUsr(cs);
            Winner(SelectLibraries(readable), cs) ==
              if m >= 0 && InOpt(cs[m]) then Some(cs[m]) else Some(cs[|cs| - 1])
    decreases |cs|
  {
    var init, last := cs[..|cs| - 1], cs[|cs| - 1];
    if init != [] {
      LibrariesWinner(readable, init);
      OptIsNotUsr(init[|init| - 1]);
    }
  }

  /** A whole run under WSL: a slot some /wsl/lib/ candidate reached ends with the first such. */
  lemma WslRun(es: seq<Entry>, arch: nat, libs: seq<string>, resolve: Resolve, j: nat, k: nat)
    requires j < |libs| && OfferAll(es, arch, libs, resolve, SelectWsl()).Some?
    requires var cs := Arrivals(es, arch, libs, resolve, SelectWsl(), j);
             && k < |cs| && (forall i :: 0 <= i < k ==> !InWsl(cs[i]))
             && (InWsl(cs[k]) || k == |cs| - 1)
    ensures OfferAll(es, arch, libs, resolve, SelectWsl()).value[j]
            == Some(Arrivals(es, arch, libs, resolve, SelectWsl(), j)[k])
  {
    SlotIsWinner(es, arch, libs, resolve, SelectWsl(), j);
    WslWinner(Arrivals(es, arch, libs, resolve, SelectWsl(), j), k);
  }

  /** A whole run of the native selector, in closed form. */
  lemma LibrariesRun(es: seq<Entry>, arch: nat, libs: seq<string>, resolve: Resolve, readable: string -> bool, j: nat)
    requires j < |libs| && OfferAll(es, arch, libs, resolve, SelectLibraries(readable)).Some?
    ensures var cs := Arrivals(es, arch, libs, resolve, SelectLibraries(readable), j);
            var m := LastOutsideUsr(cs);
            OfferAll(es, arch, libs, resolve, SelectLibraries(readable)).value[j] ==
              if cs == [] then None
              else if m >= 0 && InOpt(cs[m]) then Some(cs[m])
              else Some(cs[|cs| - 1])
  {
    var select := SelectLibraries(readable);
    var cs := Arrivals(es, arch, libs, resolve, select, j);
    SlotIsWinner(es, arch, libs, resolve, select, j);
    forall k | 0 <= k < |cs|
      ensures readable(cs[k])
    {
      assert select(Winner(select, cs[..k]), cs[k]).Some?;
    }
    if cs != [] { LibrariesWinner(readable, cs); }
  }

  /** When every candidate that reaches a slot is under /opt or /usr/lib, the slot ends with the last /opt one, if there is one. */
  lemma OptBeatsUsr(es: seq<Entry>, arch: nat, libs: seq<string>, resolve: Resolve, readable: string -> bool, j: nat, k: nat)
    requires j < |libs| && OfferAll(es, arch, libs, resolve, SelectLibraries(readable)).Some?
    requires var cs := Arrivals(es, arch, libs, resolve, SelectLibraries(readable), j);
             && (forall i :: 0 <= i < |cs| ==> InOpt(cs[i]) || InUsr(cs[i]))
             && k < |cs| && InOpt(cs[k]) && forall i :: k < i < |cs| ==> !InOpt(cs[i])
    ensures OfferAll(es, arch, libs, resolve, SelectLibraries(readable)).value[j]
            == Some(Arrivals(es, arch, libs, resolve, SelectLibraries(readable), j)[k])
  {
    hide InOpt, InUsr, OfferAll, Arrivals;
    var cs := Arrivals(es, arch, libs, resolve, SelectLibraries(readable), j);
    OptIsNotUsr(cs[k]);
    LibrariesRun(es, arch, libs, resolve, readable, j);
    assert LastOutsideUsr(cs) == k;
  }

  lemma OfferToOne(e: Entry, arch: nat, lib: string, resolve: Resolve, select: Select, held: Option<string>, path: string)
    requires Provides(e, arch, lib, resolve, path) && held != Some(path) && select(held, path) == Some(true)
    ensures Offer(e, arch, [lib], resolve, select, [held]) == Some([Some(path)])
  {
    assert HasPrefix(e.key, [lib][0]);
    assert [held][0 := Some(path)] == [Some(path)];
  }

  /** A run in which a /usr/lib entry displaces an /opt one, because one from a third directory came in between. */
  lemma OptCanLose(es: seq<Entry>, arch: nat, lib: string, resolve: Resolve, readable: string -> bool,
                   opt: string, other: string, usr: string)
    requires |es| == 3 && readable(opt) && readable(other) && readable(usr)
    requires InOpt(opt) && InUsr(usr) && !InOpt(other) && !InUsr(other)
    requires Provides(es[0], arch, lib, resolve, opt) && Provides(es[1], arch, lib, resolve, other) && Provides(es[2], arch, lib, resolve, usr)
    ensures OfferAll(es, arch, [lib], resolve, SelectLibraries(readable)) == Some([Some(usr)])
  {
    hide Provides, InOpt, InUsr, Offer;
    var select := SelectLibraries(readable);
    assert es[..3] == es && es[..3][..2] == es[..2] && es[..2][..1] == es[..1] && es[..1][..0] == es[..0] == [];
    assert OfferAll(es[..0], arch, [lib], resolve, select) == Some([None]) by { assert Blank(1) == [None]; }
    OfferToOne(es[0], arch, lib, resolve, select, None, opt);
    assert OfferAll(es[..1], arch, [lib], resolve, select) == Some([Some(opt)]);
    OfferToOne(es[1], arch, lib, resolve, select, Some(opt), other);
    assert OfferAll(es[..2], arch, [lib], resolve, select) == Some([Some(other)]);
    OfferToOne(es[2], arch, lib, resolve, select, Some(other), usr);
  }

  // ---------------------------------------------------------------------
  // Which entries count
  // ---------------------------------------------------------------------

  /** An entry is wanted for an architecture exactly if its type byte is odd and its architecture byte is the wanted one. */
  lemma WantedByBytes(hi: nat, a: nat, ty: nat, key: string, value: string, arch: nat)
    requires a < 0x100 && ty < 0x100
    ensures Wanted(Entry(hi * 0x1_0000 + a * 0x100 + ty, key, value), arch) <==> ty % 2 == 1 && arch == a * 0x100
  {
    var q := hi * 0x100 + a;
    var flags := hi * 0x1_0000 + a * 0x100 + ty;
    assert flags == q * 0x100 + ty;
    HighAndLow(q, ty);
    HighAndLow(hi, a);
  }

  lemma HighAndLow(hi: nat, lo: nat)
    requires lo < 0x100
    ensures (hi * 0x100 + lo) / 0x100 == hi && (hi * 0x100 + lo) % 0x100 == lo
    ensures (hi * 0x100 + lo) % 2 == lo % 2
  {
  }

  /** The entries of one architecture. */
  function OfArch(es: seq<Entry>, arch: nat): seq<Entry> {
    if es == [] then []
    else
      var init, e := OfArch(es[..|es| - 1], arch), es[|es| - 1];
      if Wanted(e, arch) then init + [e] else init
  }

  /** Entries of other architectures, or of no ELF file, change nothing. */
  lemma {:induction false} OthersDoNotCount(es: seq<Entry>, arch: nat, libs: seq<string>, resolve: Resolve, select: Select)
    ensures OfferAll(es, arch, libs, resolve, select) == OfferAll(OfArch(es, arch), arch, libs, resolve, select)
    decreases |es|
  {
    hide Wanted;
    if es != [] {
      var init, e := es[..|es| - 1], es[|es| - 1];
      OthersDoNotCount(init, arch, libs, resolve, select);
      if Wanted(e, arch) {
        var some := OfArch(init, arch) + [e];
        assert some[..|some| - 1] == OfArch(init, arch);
      }
    }
  }

  /** What is held is never given up for nothing. */
  lemma {:induction false} FilledStaysFilled(
    es: seq<Entry>, arch: nat, libs: seq<string>, resolve: Resolve, select: Select, n: nat, j: nat)
    requires n <= |es| && j < |libs| && OfferAll(es, arch, libs, resolve, select).Some?
    ensures OfferAll(es[..n], arch, libs, resolve, select).Some?
    ensures OfferAll(es[..n], arch, libs, resolve, select).value[j].Some? ==>
              OfferAll(es, arch, libs, resolve, select).value[j].Some?
    decreases |es|
  {
    hide Matches, Wanted;
    if n == |es| {
      assert es[..n] == es;
    } else {
      var init := es[..|es| - 1];
      assert init[..n] == es[..n];
      FilledStaysFilled(init, arch, libs, resolve, select, n, j);
    }
  }

  /**
   No library in the cache is missed: after a successful run the first library whose
   name a wanted entry's key begins with has a path, if the preference function
   never refuses a first candidate.
   */
  lemma ProvidedIsFound(
    es: seq<Entry>, arch: nat, libs: seq<string>, resolve: Resolve, select: Select, i: nat, j: nat)
    requires j < |libs| && i < |es| && OfferAll(es, arch, libs, resolve, select).Some?
    requires forall c :: select(None, c) != Some(false)
    requires Wanted(es[i], arch) && HasPrefix(es[i].key, libs[j])
    requires forall m :: 0 <= m < j ==> !HasPrefix(es[i].key, libs[m])
    ensures OfferAll(es, arch, libs, resolve, select).value[j].Some?
  {
    hide OfferAll, Wanted, HasPrefix;
    FilledStaysFilled(es, arch, libs, resolve, select, i + 1, j);
    FilledStaysFilled(es[..i + 1], arch, libs, resolve, select, i, j);
    assert es[..i + 1][..i] == es[..i];
    OneMore(es, i, arch, libs, resolve, select);
    OfferFills(es[i], arch, libs, resolve, select, OfferAll(es[..i], arch, libs, resolve, select).value, j);
  }

  lemma OneMore(es: seq<Entry>, i: nat, arch: nat, libs: seq<string>, resolve: Resolve, select: Select)
    requires i < |es|
    ensures OfferAll(es[..i + 1], arch, libs, resolve, select) ==
              match OfferAll(es[..i], arch, libs, resolve, select)
              case None => None
              case Some(slots) => Offer(es[i], arch, libs, resolve, select, slots)
  {
    assert es[..i + 1][..i] == es[..i];
  }

  lemma OfferFills(e: Entry, arch: nat, libs: seq<string>, resolve: Resolve, select: Select, slots: Slots, j: nat)
    requires |slots| == |libs| && j < |libs| && Offer(e, arch, libs, resolve, select, slots).Some?
    requires forall c :: select(None, c) != Some(false)
    requires Wanted(e, arch) && HasPrefix(e.key, libs[j]) && forall m :: 0 <= m < j ==> !HasPrefix(e.key, libs[m])
    ensures Offer(e, arch, libs, resolve, select, slots).value[j].Some?
  {
    hide Wanted, HasPrefix;
    assert Matches(libs, e.key, 0);
  }

  /** Both preference functions take a first candidate or fail. */
  lemma FirstIsTaken(readable: string -> bool, c: string)
    ensures SelectWsl()(None, c) == Some(true)
    ensures SelectLibraries(readable)(None, c) == if readable(c) then Some(true) else None
  {
  }

  /** The two directories, and what the native preference does with a pair of candidates from them. */
  lemma DirectoriesAre(readable: string -> bool, x: string, y: string)
    requires readable("/opt/xdxgpu/lib/x86_64-linux-gnu" + x) && readable("/usr/lib/x86_64-linux-gnu" + y)
    ensures var opt, usr := "/opt/xdxgpu/lib/x86_64-linux-gnu" + x, "/usr/lib/x86_64-linux-gnu" + y;
            && SelectLibraries(readable)(Some(opt), usr) == Some(false)
            && SelectLibraries(readable)(Some(usr), opt) == Some(true)
  {
    var opt, usr := "/opt/xdxgpu/lib/x86_64-linux-gnu" + x, "/usr/lib/x86_64-linux-gnu" + y;
    assert InOpt(opt) by { PrefixOfConcat("/opt/xdxgpu/lib/x86_64-linux-gnu", x); }
    assert InUsr(usr) by { PrefixOfConcat("/usr/lib/x86_64-linux-gnu", y); }
    OptIsNotUsr(opt);
    OptIsNotUsr(usr);
    hide InOpt, InUsr;
  }

  /** A path below /wsl/lib/ is kept under WSL, whatever comes after it. */
  lemma WslIsKept(before: string, after: string, candidate: string)
    ensures SelectWsl()(Some(before + "/wsl/lib/" + after), candidate) == Some(false)
  {
    var path := before + "/wsl/lib/" + after;
    assert path[|before|..|before| + 9] == "/wsl/lib/";
    assert OccursAt(path, "/wsl/lib/", |before|);
  }

  /** One x86_64 and one i386 entry for the same library: each architecture finds its own. */
  lemma EachArchitectureItsOwn(
    lib: string, version: string, v64: string, v32: string, resolve: Resolve, select: Select, p64: string, p32: string)
    requires resolve(v64) == Some(p64) && resolve(v32) == Some(p32)
    requires select(None, p64) == Some(true) && select(None, p32) == Some(true)
    ensures var es := [Entry(0x0303, lib + version, v64), Entry(0x0003, lib + version, v32)];
            && OfferAll(es, 0x0300, [lib], resolve, select) == Some([Some(p64)])
            && OfferAll(es, 0x0000, [lib], resolve, select) == Some([Some(p32)])
  {
    hide Offer, HasPrefix, Wanted;
    var a, b := Entry(0x0303, lib + version, v64), Entry(0x0003, lib + version, v32);
    var es := [a, b];
    WantedByBytes(0, 3, 3, lib + version, v64, 0x0300);
    WantedByBytes(0, 3, 3, lib + version, v64, 0x0000);
    WantedByBytes(0, 0, 3, lib + version, v32, 0x0300);
    WantedByBytes(0, 0, 3, lib + version, v32, 0x0000);
    assert HasPrefix(lib + version, lib) by { PrefixOfConcat(lib, version); }
    assert es[..1] == [a] && [a][..0] == [] && [b][..0] == [];
    assert OfArch([], 0x0300) == [] && OfArch([], 0x0000) == [];
    assert OfArch(es, 0x0300) == [] + [a] == [a];
    assert OfArch(es, 0x0000) == [] + [b] == [b];
    OthersDoNotCount(es, 0x0300, [lib], resolve, select);
    OthersDoNotCount(es, 0x0000, [lib], resolve, select);
    OfferToOne(a, 0x0300, lib, resolve, select, None, p64);
    OfferToOne(b, 0x0000, lib, resolve, select, None, p32);
    assert Blank(1) == [None];
    assert OfferAll([], 0x0300, [lib], resolve, select) == Some([None]) && OfferAll([], 0x0000, [lib], resolve, select) == Some([None]);
  }

  lemma PrefixOfConcat(a: string, b: string)
    ensures HasPrefix(a + b, a)
  {
    assert (a + b)[..|a|] == a;
  }
}
