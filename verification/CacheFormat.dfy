/**
 The ld.so.cache file (src/ldcache.c, after glibc's dl-cache.h): an optional
 libc5 section that is skipped, padding, a libc6 header, its entries, and a
 table of NUL-terminated strings the entries point into.  Offsets are relative
 to the libc6 header.  The file is mapped at a page boundary, so an offset and
 the address it stands for have the same alignment.
 */
module CacheFormat {
  import opened CStrings

  type Byte = b: int | 0 <= b < 256

  const MAGIC_LIBC5 := "ld.so-1.7.0"
  const MAGIC_LIBC6 := "glibc-ld.so.cache"
  const MAGIC_VERSION := "1.1"

  // struct header_libc5: magic (11), padding (1), nlibs (4); entries of 12 bytes follow.
  const LIBC5_NLIBS: nat := 12
  const LIBC5_HEADER: nat := 16
  const LIBC5_ENTRY: nat := 12

  // struct header_libc6: magic (17), version (3), nlibs (4), table_size (4), unused (20); aligned on 8.
  const LIBC6_VERSION: nat := 17
  const LIBC6_NLIBS: nat := 20
  const LIBC6_HEADER: nat := 48
  const LIBC6_ENTRY: nat := 24
  const LIBC6_ALIGN: nat := 8

  /** The characters a C string can hold, one byte each. */
  predicate IsText(s: string) {
    forall i :: 0 <= i < |s| ==> 0 < s[i] as int < 256
  }

  function Bytes(s: string): (b: seq<Byte>)
    requires IsText(s)
    ensures |b| == |s| && forall i :: 0 <= i < |s| ==> b[i] == s[i] as int
  {
    seq(|s|, i requires 0 <= i < |s| => s[i] as int)
  }

  /** The image holds the characters of `s` at `at`. */
  predicate HasText(img: seq<Byte>, at: nat, s: string) {
    at + |s| <= |img| && forall i :: 0 <= i < |s| ==> img[at + i] == s[i] as int
  }

  /** A 32-bit little-endian word. */
  function U32(img: seq<Byte>, at: nat): (n: nat)
    requires at + 4 <= |img|
    ensures n < 0x1_0000_0000
  {
    var b0: int, b1: int, b2: int, b3: int := img[at], img[at + 1], img[at + 2], img[at + 3];
    b0 + 0x100 * b1 + 0x1_0000 * b2 + 0x100_0000 * b3
  }

  /** A NUL ends the string that starts at `at`. */
  predicate Terminated(img: seq<Byte>, at: nat) {
    exists k :: at <= k < |img| && img[k] == 0
  }

  function CStringAt(img: seq<Byte>, at: nat): string
    requires Terminated(img, at)
    decreases |img| - at
  {
    if img[at] == 0 then "" else [img[at] as char] + CStringAt(img, at + 1)
  }

  /** Bytes to skip so that `p` becomes a multiple of the header's alignment: (-p) & (alignment - 1). */
  function Padding(p: nat): nat {
    (-(p as int)) % LIBC6_ALIGN
  }

  /** Where ldcache_open finds the libc6 header, if it accepts the file. */
  function OpenAt(img: seq<Byte>): (r: Option<nat>)
    ensures r.Some? ==> r.value + LIBC6_HEADER < |img|
  {
    if |img| <= LIBC5_HEADER then None
    else
      var skip := LIBC5_HEADER + LIBC5_ENTRY * U32(img, LIBC5_NLIBS);
      var p := if HasText(img, 0, MAGIC_LIBC5) then skip + Padding(skip) else 0;
      if |img| - p <= LIBC6_HEADER then None
      else if !HasText(img, p, MAGIC_LIBC6) || !HasText(img, p + LIBC6_VERSION, MAGIC_VERSION) then None
      else Some(p)
  }

  /** struct ldcache: the mapping and the position of the libc6 header in it. */
  class LdCache {
    var image: seq<Byte>
    var ptr: nat

    constructor ()
      ensures image == [] && ptr == 0
    {
      image, ptr := [], 0;
    }

    /** ldcache_open, once the file is mapped. */
    method Open(img: seq<Byte>) returns (ok: bool)
      modifies this
      ensures ok <==> OpenAt(img).Some?
      ensures ok ==> image == img && ptr == OpenAt(img).value
    {
      image, ptr := img, 0;
      if |image| <= LIBC5_HEADER {
        return false;
      }
      if HasText(image, 0, MAGIC_LIBC5) {
        ptr := LIBC5_HEADER + LIBC5_ENTRY * U32(image, LIBC5_NLIBS);
        ptr := ptr + Padding(ptr);
      }
      if |image| - ptr <= LIBC6_HEADER {
        return false;
      }
      ok := HasText(image, ptr, MAGIC_LIBC6) && HasText(image, ptr + LIBC6_VERSION, MAGIC_VERSION);
    }
  }

  /** What one entry says: its flags and the two strings it points at. */
  datatype Entry = Entry(flags: nat, key: string, value: string)

  function Count(img: seq<Byte>, ptr: nat): nat
    requires ptr + LIBC6_HEADER <= |img|
  {
    U32(img, ptr + LIBC6_NLIBS)
  }

  /** Entry `i` lies in the image and its offsets lead to terminated strings. */
  predicate Readable(img: seq<Byte>, ptr: nat, i: nat) {
    var e := ptr + LIBC6_HEADER + LIBC6_ENTRY * i;
    && e + LIBC6_ENTRY <= |img|
    && Terminated(img, ptr + U32(img, e + 4))
    && Terminated(img, ptr + U32(img, e + 8))
  }

  /** What the loop of ldcache_resolve reads for entry `i`. */
  function ReadEntry(img: seq<Byte>, ptr: nat, i: nat): Entry
    requires Readable(img, ptr, i)
  {
    var e := ptr + LIBC6_HEADER + LIBC6_ENTRY * i;
    Entry(U32(img, e), CStringAt(img, ptr + U32(img, e + 4)), CStringAt(img, ptr + U32(img, e + 8)))
  }

  /** Every entry the header announces can be read. */
  ghost predicate WellFormed(img: seq<Byte>, ptr: nat) {
    && ptr + LIBC6_HEADER <= |img|
    && forall i :: 0 <= i < Count(img, ptr) ==> Readable(img, ptr, i)
  }

  /** The entries in file order. */
  ghost function Entries(img: seq<Byte>, ptr: nat): (es: seq<Entry>)
    requires WellFormed(img, ptr)
    ensures |es| == Count(img, ptr)
    ensures forall i :: 0 <= i < |es| ==> es[i] == ReadEntry(img, ptr, i)
  {
    seq(Count(img, ptr), i requires 0 <= i < Count(img, ptr) => ReadEntry(img, ptr, i))
  }

  // ---------------------------------------------------------------------
  // The writer
  // ---------------------------------------------------------------------

  /** One library as ldconfig records it. */
  datatype Lib = Lib(flags: nat, key: string, value: string, osversion: nat, hwcap: nat)

  function Put32(n: nat): (b: seq<Byte>)
    requires n < 0x1_0000_0000
    ensures |b| == 4
  {
    var q1 := n / 0x100;
    var q2 := q1 / 0x100;
    [n % 0x100, q1 % 0x100, q2 % 0x100, q2 / 0x100]
  }

  function Put64(n: nat): (b: seq<Byte>)
    requires n < 0x1_0000_0000_0000_0000
    ensures |b| == 8
  {
    Put32(n % 0x1_0000_0000) + Put32(n / 0x1_0000_0000)
  }

  predicate ValidLib(l: Lib) {
    && l.flags < 0x1_0000_0000 && l.osversion < 0x1_0000_0000 && l.hwcap < 0x1_0000_0000_0000_0000
    && IsText(l.key) && IsText(l.value)
  }

  function Zeros(n: nat): (b: seq<Byte>)
    ensures |b| == n && forall i :: 0 <= i < n ==> b[i] == 0
  {
    seq(n, i => 0)
  }

  /** Bytes of string table one library takes. */
  function Span(l: Lib): nat { |l.key| + 1 + |l.value| + 1 }

  function Spans(libs: seq<Lib>): nat {
    if libs == [] then 0 else Spans(libs[..|libs| - 1]) + Span(libs[|libs| - 1])
  }

  function PutString(s: string): (b: seq<Byte>)
    requires IsText(s)
    ensures |b| == |s| + 1
  {
    Bytes(s) + [0]
  }

  function PutStrings(l: Lib): (b: seq<Byte>)
    requires ValidLib(l)
    ensures |b| == Span(l)
  {
    PutString(l.key) + PutString(l.value)
  }

  /** An entry whose strings lie at the offsets `key` and `value`. */
  function PutEntry(l: Lib, key: nat, value: nat): (b: seq<Byte>)
    requires ValidLib(l) && key < 0x1_0000_0000 && value < 0x1_0000_0000
    ensures |b| == LIBC6_ENTRY
  {
    Put32(l.flags) + Put32(key) + Put32(value) + Put32(l.osversion) + Put64(l.hwcap)
  }

  /** An entry whose strings follow each other from `key` on. */
  function PutPacked(l: Lib, key: nat): (b: seq<Byte>)
    requires ValidLib(l) && key + Span(l) < 0x1_0000_0000
    ensures |b| == LIBC6_ENTRY
  {
    PutEntry(l, key, key + |l.key| + 1)
  }

  ghost predicate ValidLibs(libs: seq<Lib>) {
    && (forall i :: 0 <= i < |libs| ==> ValidLib(libs[i]))
    && LIBC6_HEADER + LIBC6_ENTRY * |libs| + Spans(libs) < 0x1_0000_0000
  }

  /** The entries of `libs` in order; the strings of the first one start at `base`. */
  ghost function EntryTable(libs: seq<Lib>, base: nat): (b: seq<Byte>)
    requires (forall i :: 0 <= i < |libs| ==> ValidLib(libs[i])) && base + Spans(libs) < 0x1_0000_0000
    ensures |b| == LIBC6_ENTRY * |libs|
  {
    if libs == [] then []
    else
      var init := libs[..|libs| - 1];
      EntryTable(init, base) + PutPacked(libs[|libs| - 1], base + Spans(init))
  }

  ghost function StringTable(libs: seq<Lib>): (b: seq<Byte>)
    requires forall i :: 0 <= i < |libs| ==> ValidLib(libs[i])
    ensures |b| == Spans(libs)
  {
    if libs == [] then [] else StringTable(libs[..|libs| - 1]) + PutStrings(libs[|libs| - 1])
  }

  /** The part of the header the reader looks at. */
  function HeaderStart(n: nat): (b: seq<Byte>)
    requires n < 0x1_0000_0000
    ensures |b| == LIBC6_NLIBS + 4
  {
    Bytes(MAGIC_LIBC6) + Bytes(MAGIC_VERSION) + Put32(n)
  }

  ghost function Header(libs: seq<Lib>): (b: seq<Byte>)
    requires ValidLibs(libs)
    ensures |b| == LIBC6_HEADER
  {
    HeaderStart(|libs|) + (Put32(Spans(libs)) + Zeros(20))
  }

  ghost function Libc6Section(libs: seq<Lib>): (b: seq<Byte>)
    requires ValidLibs(libs)
    ensures |b| == LIBC6_HEADER + LIBC6_ENTRY * |libs| + Spans(libs)
  {
    Header(libs) + EntryTable(libs, LIBC6_HEADER + LIBC6_ENTRY * |libs|) + StringTable(libs)
  }

  /** A libc5 section of `n` entries with any content, padded for what follows. */
  ghost function Libc5Section(n: nat, content: seq<Byte>): (b: seq<Byte>)
    requires n < 0x1_0000_0000 && |content| == LIBC5_ENTRY * n
    ensures |b| == LIBC5_HEADER + |content| + Padding(LIBC5_HEADER + |content|)
  {
    Bytes(MAGIC_LIBC5) + [0] + Put32(n) + content + Zeros(Padding(LIBC5_HEADER + |content|))
  }

  // ---------------------------------------------------------------------
  // Reading back what was written
  // ---------------------------------------------------------------------

  /** `piece` lies in `img` at `at`. */
  ghost predicate At(img: seq<Byte>, at: nat, piece: seq<Byte>) {
    at + |piece| <= |img| && img[at..at + |piece|] == piece
  }

  lemma SliceOfSlice(s: seq<Byte>, i: nat, j: nat, k: nat, l: nat)
    requires i <= j <= |s| && k <= l <= j - i
    ensures s[i..j][k..l] == s[i + k..i + l]
  {
    var t, u := s[i..j][k..l], s[i + k..i + l];
    assert |t| == |u| && forall m :: 0 <= m < |t| ==> t[m] == u[m];
  }

  lemma AtWithin(img: seq<Byte>, at: nat, piece: seq<Byte>, off: nat, part: seq<Byte>)
    requires At(img, at, piece) && At(piece, off, part)
    ensures At(img, at + off, part)
  {
    SliceOfSlice(img, at, at + |piece|, off, off + |part|);
  }

  lemma WholeAt(s: seq<Byte>)
    ensures At(s, 0, s)
  {
  }

  lemma AtFirst(a: seq<Byte>, b: seq<Byte>)
    ensures At(a + b, 0, a)
  {
  }

  lemma AtSecond(a: seq<Byte>, b: seq<Byte>)
    ensures At(a + b, |a|, b)
  {
  }

  /** What lies in the first half lies in the whole. */
  lemma AtInFirst(a: seq<Byte>, b: seq<Byte>, off: nat, part: seq<Byte>)
    requires At(a, off, part)
    ensures At(a + b, off, part)
  {
  }

  lemma AtThree(img: seq<Byte>, p: nat, a: seq<Byte>, b: seq<Byte>, c: seq<Byte>)
    requires At(img, p, a + b + c)
    ensures At(img, p, a) && At(img, p + |a|, b) && At(img, p + |a| + |b|, c)
  {
    var s := a + b + c;
    assert s[..|a|] == a && s[|a|..|a| + |b|] == b && s[|a| + |b|..] == c;
    AtWithin(img, p, s, 0, a);
    AtWithin(img, p, s, |a|, b);
    AtWithin(img, p, s, |a| + |b|, c);
  }

  lemma PiecesAt(img: seq<Byte>, p: nat, s: seq<Byte>, a: seq<Byte>, b: seq<Byte>, c: seq<Byte>, i: nat, j: nat)
    requires At(img, p, s) && s == a + b + c && |a| == i && |a| + |b| == j
    ensures At(img, p, a) && At(img, p + i, b) && At(img, p + j, c)
  {
    hide At;
    AtThree(img, p, a, b, c);
  }

  lemma ReadPut32(img: seq<Byte>, at: nat, n: nat)
    requires n < 0x1_0000_0000 && At(img, at, Put32(n))
    ensures U32(img, at) == n
  {
  }

  lemma ReadText(img: seq<Byte>, at: nat, s: string)
    requires IsText(s) && At(img, at, Bytes(s))
    ensures HasText(img, at, s)
  {
  }

  lemma {:induction false} ReadCString(img: seq<Byte>, at: nat, s: string)
    requires IsText(s) && HasText(img, at, s) && at + |s| < |img| && img[at + |s|] == 0
    ensures Terminated(img, at) && CStringAt(img, at) == s
    decreases |s|
  {
    assert img[at + |s|] == 0;
    if s == "" {
    } else {
      assert img[at + 0] == s[0] as int;
      forall i | 0 <= i < |s[1..]|
        ensures img[at + 1 + i] == s[1..][i] as int
      {
        assert img[at + (i + 1)] == s[i + 1] as int;
      }
      ReadCString(img, at + 1, s[1..]);
      assert s == [s[0]] + s[1..];
    }
  }

  lemma ReadByte(img: seq<Byte>, at: nat, b: Byte)
    requires At(img, at, [b])
    ensures at < |img| && img[at] == b
  {
    assert img[at..at + 1][0] == b;
  }

  lemma ReadPutString(img: seq<Byte>, at: nat, s: string)
    requires IsText(s) && At(img, at, PutString(s))
    ensures Terminated(img, at) && CStringAt(img, at) == s
  {
    hide CStringAt, Bytes;
    var b := PutString(s);
    AtFirst(Bytes(s), [0]);
    AtSecond(Bytes(s), [0]);
    AtWithin(img, at, b, 0, Bytes(s));
    AtWithin(img, at, b, |s|, [0]);
    ReadText(img, at, s);
    ReadByte(img, at + |s|, 0);
    hide At, HasText, PutString;
    ReadCString(img, at, s);
  }

  lemma ReadPutEntry(img: seq<Byte>, at: nat, l: Lib, key: nat, value: nat)
    requires ValidLib(l) && key < 0x1_0000_0000 && value < 0x1_0000_0000 && At(img, at, PutEntry(l, key, value))
    ensures at + LIBC6_ENTRY <= |img|
    ensures U32(img, at) == l.flags && U32(img, at + 4) == key && U32(img, at + 8) == value
  {
    hide U32;
    var b := PutEntry(l, key, value);
    PiecesOfEntry(l, key, value);
    AtWithin(img, at, b, 0, Put32(l.flags));
    AtWithin(img, at, b, 4, Put32(key));
    AtWithin(img, at, b, 8, Put32(value));
    ReadPut32(img, at, l.flags);
    ReadPut32(img, at + 4, key);
    ReadPut32(img, at + 8, value);
  }

  lemma PiecesOfEntry(l: Lib, key: nat, value: nat)
    requires ValidLib(l) && key < 0x1_0000_0000 && value < 0x1_0000_0000
    ensures var b := PutEntry(l, key, value);
            At(b, 0, Put32(l.flags)) && At(b, 4, Put32(key)) && At(b, 8, Put32(value))
  {
    hide Put32, Put64;
  }

  lemma {:induction false} SpansOfPrefix(libs: seq<Lib>, i: nat)
    requires i < |libs|
    ensures Spans(libs[..i]) + Span(libs[i]) <= Spans(libs)
    decreases |libs|
  {
    var init := libs[..|libs| - 1];
    if i < |libs| - 1 {
      assert init[..i] == libs[..i];
      SpansOfPrefix(init, i);
    }
  }

  lemma {:induction false} EntryTableAt(libs: seq<Lib>, base: nat, i: nat)
    requires (forall k :: 0 <= k < |libs| ==> ValidLib(libs[k])) && base + Spans(libs) < 0x1_0000_0000
    requires i < |libs|
    ensures base + Spans(libs[..i]) + Span(libs[i]) < 0x1_0000_0000
    ensures At(EntryTable(libs, base), LIBC6_ENTRY * i, PutPacked(libs[i], base + Spans(libs[..i])))
    decreases |libs|
  {
    hide PutPacked, At;
    SpansOfPrefix(libs, i);
    var init, last := libs[..|libs| - 1], libs[|libs| - 1];
    var before, e := EntryTable(init, base), PutPacked(last, base + Spans(init));
    assert EntryTable(libs, base) == before + e;
    if i < |libs| - 1 {
      assert init[..i] == libs[..i];
      EntryTableAt(init, base, i);
      AtInFirst(before, e, LIBC6_ENTRY * i, PutPacked(libs[i], base + Spans(libs[..i])));
    } else {
      AtSecond(before, e);
    }
  }

  lemma {:induction false} StringTableAt(libs: seq<Lib>, i: nat)
    requires forall k :: 0 <= k < |libs| ==> ValidLib(libs[k])
    requires i < |libs|
    ensures At(StringTable(libs), Spans(libs[..i]), PutStrings(libs[i]))
    decreases |libs|
  {
    var init, last := libs[..|libs| - 1], libs[|libs| - 1];
    var before, b := StringTable(init), PutStrings(last);
    if i < |libs| - 1 {
      assert init[..i] == libs[..i];
      StringTableAt(init, i);
      AtInFirst(before, b, Spans(libs[..i]), PutStrings(libs[i]));
    } else {
      AtSecond(before, b);
    }
  }

  /** What the reader should see of `libs`. */
  ghost function Seen(libs: seq<Lib>): seq<Entry> {
    seq(|libs|, i requires 0 <= i < |libs| => Entry(libs[i].flags, libs[i].key, libs[i].value))
  }

  /** Entry `i` of the section at `p` is `l`, with its strings at the offsets `key` and `value`. */
  ghost predicate Placed(img: seq<Byte>, p: nat, i: nat, l: Lib, key: nat, value: nat) {
    && ValidLib(l) && key < 0x1_0000_0000 && value < 0x1_0000_0000
    && At(img, p + LIBC6_HEADER + LIBC6_ENTRY * i, PutEntry(l, key, value))
    && At(img, p + key, PutString(l.key))
    && At(img, p + value, PutString(l.value))
  }

  ghost predicate HasEntry(img: seq<Byte>, p: nat, i: nat, l: Lib) {
    exists key: nat, value: nat :: Placed(img, p, i, l, key, value)
  }

  /**
   The image holds a libc6 section for `libs` at `p`: its header, and for every
   library an entry whose strings lie anywhere, in any order, shared or not.
   */
  ghost predicate Section(img: seq<Byte>, p: nat, libs: seq<Lib>) {
    && |libs| < 0x1_0000_0000 && p + LIBC6_HEADER <= |img|
    && At(img, p, HeaderStart(|libs|))
    && forall i :: 0 <= i < |libs| ==> HasEntry(img, p, i, libs[i])
  }

  lemma HeaderReads(img: seq<Byte>, p: nat, n: nat)
    requires n < 0x1_0000_0000 && p + LIBC6_HEADER <= |img| && At(img, p, HeaderStart(n))
    ensures HasText(img, p, MAGIC_LIBC6) && HasText(img, p + LIBC6_VERSION, MAGIC_VERSION) && Count(img, p) == n
  {
    hide U32, HasText;
    var m, v, w := Bytes(MAGIC_LIBC6), Bytes(MAGIC_VERSION), Put32(n);
    AtThree(img, p, m, v, w);
    ReadText(img, p, MAGIC_LIBC6);
    ReadText(img, p + LIBC6_VERSION, MAGIC_VERSION);
    ReadPut32(img, p + LIBC6_NLIBS, n);
  }

  lemma EntryReads(img: seq<Byte>, p: nat, i: nat, l: Lib, key: nat, value: nat)
    requires Placed(img, p, i, l, key, value)
    ensures Readable(img, p, i) && ReadEntry(img, p, i) == Entry(l.flags, l.key, l.value)
  {
    hide PutEntry, PutString, At, CStringAt, U32, Terminated;
    ReadPutEntry(img, p + LIBC6_HEADER + LIBC6_ENTRY * i, l, key, value);
    ReadPutString(img, p + key, l.key);
    ReadPutString(img, p + value, l.value);
  }

  /** Wherever a libc6 section lies, and however its strings are laid out, the loop reads back exactly its flags, keys and values. */
  lemma SectionReads(img: seq<Byte>, p: nat, libs: seq<Lib>)
    requires Section(img, p, libs)
    ensures WellFormed(img, p) && Entries(img, p) == Seen(libs)
    ensures HasText(img, p, MAGIC_LIBC6) && HasText(img, p + LIBC6_VERSION, MAGIC_VERSION)
  {
    hide Placed, Readable, ReadEntry, HeaderStart, HasText, Count, At;
    HeaderReads(img, p, |libs|);
    forall i | 0 <= i < |libs|
      ensures Readable(img, p, i) && ReadEntry(img, p, i) == Seen(libs)[i]
    {
      var key: nat, value: nat :| Placed(img, p, i, libs[i], key, value);
      EntryReads(img, p, i, libs[i], key, value);
    }
  }

  lemma SectionIs(libs: seq<Lib>, base: nat)
    requires ValidLibs(libs) && base == LIBC6_HEADER + LIBC6_ENTRY * |libs|
    ensures Libc6Section(libs) == Header(libs) + EntryTable(libs, base) + StringTable(libs)
  {
    hide Header, EntryTable, StringTable, Spans, ValidLib;
  }

  lemma PiecesOfSection(img: seq<Byte>, p: nat, libs: seq<Lib>)
    requires ValidLibs(libs) && At(img, p, Libc6Section(libs))
    ensures var base := LIBC6_HEADER + LIBC6_ENTRY * |libs|;
            && At(img, p, Header(libs))
            && At(img, p + LIBC6_HEADER, EntryTable(libs, base))
            && At(img, p + base, StringTable(libs))
  {
    hide Header, EntryTable, StringTable, At, Spans, ValidLib, Libc6Section;
    var base := LIBC6_HEADER + LIBC6_ENTRY * |libs|;
    var h, e, t := Header(libs), EntryTable(libs, base), StringTable(libs);
    SectionIs(libs, base);
    PiecesAt(img, p, Libc6Section(libs), h, e, t, LIBC6_HEADER, base);
  }

  /** Where entry `i` and its strings lie. */
  lemma EntryPlaces(img: seq<Byte>, p: nat, libs: seq<Lib>, i: nat)
    requires ValidLibs(libs) && At(img, p, Libc6Section(libs)) && i < |libs|
    ensures var key := LIBC6_HEADER + LIBC6_ENTRY * |libs| + Spans(libs[..i]);
            && key + Span(libs[i]) < 0x1_0000_0000
            && At(img, p + LIBC6_HEADER + LIBC6_ENTRY * i, PutPacked(libs[i], key))
            && At(img, p + key, PutStrings(libs[i]))
  {
    hide Header, EntryTable, StringTable, Libc6Section, PutPacked, PutStrings, At;
    var base := LIBC6_HEADER + LIBC6_ENTRY * |libs|;
    PiecesOfSection(img, p, libs);
    EntryTableAt(libs, base, i);
    AtWithin(img, p + LIBC6_HEADER, EntryTable(libs, base), LIBC6_ENTRY * i, PutPacked(libs[i], base + Spans(libs[..i])));
    StringTableAt(libs, i);
    AtWithin(img, p + base, StringTable(libs), Spans(libs[..i]), PutStrings(libs[i]));
  }

  /** What the writer makes is a section. */
  lemma WrittenIsSection(img: seq<Byte>, p: nat, libs: seq<Lib>)
    requires ValidLibs(libs) && At(img, p, Libc6Section(libs))
    ensures Section(img, p, libs)
  {
    hide Header, HeaderStart, EntryTable, StringTable, Libc6Section, PutEntry, PutString, At, Spans;
    PiecesOfSection(img, p, libs);
    HeaderBegins(img, p, libs);
    forall i | 0 <= i < |libs|
      ensures HasEntry(img, p, i, libs[i])
    {
      var key := LIBC6_HEADER + LIBC6_ENTRY * |libs| + Spans(libs[..i]);
      var value := key + |libs[i].key| + 1;
      EntryPlaces(img, p, libs, i);
      var k, v := PutString(libs[i].key), PutString(libs[i].value);
      AtFirst(k, v);
      AtSecond(k, v);
      AtWithin(img, p + key, k + v, 0, k);
      AtWithin(img, p + key, k + v, |k|, v);
      assert Placed(img, p, i, libs[i], key, value);
    }
  }

  lemma HeaderBegins(img: seq<Byte>, p: nat, libs: seq<Lib>)
    requires ValidLibs(libs) && At(img, p, Header(libs))
    ensures p + LIBC6_HEADER <= |img| && At(img, p, HeaderStart(|libs|))
  {
    hide HeaderStart, Put32, Spans;
    var a, b := HeaderStart(|libs|), Put32(Spans(libs)) + Zeros(20);
    AtFirst(a, b);
    AtWithin(img, p, a + b, 0, a);
  }

  /** The padding is the least that gives the header its alignment. */
  lemma PaddingIsLeast(p: nat, q: nat)
    ensures (p + Padding(p)) % LIBC6_ALIGN == 0
    ensures (p + q) % LIBC6_ALIGN == 0 ==> Padding(p) <= q
  {
  }

  /** An image that begins with a libc6 section: it is opened at 0, unless it ends with the header. */
  lemma NewImageOpens(img: seq<Byte>, libs: seq<Lib>)
    requires Section(img, 0, libs)
    ensures OpenAt(img) == if |img| > LIBC6_HEADER then Some(0) else None
    ensures WellFormed(img, 0) && Entries(img, 0) == Seen(libs)
  {
    hide Section, WellFormed, Entries, Seen, U32;
    SectionReads(img, 0, libs);
    assert img[0 + 0] == MAGIC_LIBC6[0] as int;
    assert !HasText(img, 0, MAGIC_LIBC5) by { assert MAGIC_LIBC5[0] == 'l'; }
  }

  /** An image with a libc5 section of `n` entries in front: the libc6 header is found right after its padding. */
  lemma OldImageOpens(img: seq<Byte>, n: nat, content: seq<Byte>, libs: seq<Lib>)
    requires n < 0x1_0000_0000 && |content| == LIBC5_ENTRY * n
    requires At(img, 0, Libc5Section(n, content)) && Section(img, |Libc5Section(n, content)|, libs)
    ensures var p := |Libc5Section(n, content)|;
            && p % LIBC6_ALIGN == 0
            && OpenAt(img) == (if |img| > p + LIBC6_HEADER then Some(p) else None)
            && WellFormed(img, p) && Entries(img, p) == Seen(libs)
  {
    hide Libc5Section, Section, WellFormed, Entries, Seen, U32, At, HasText, Padding;
    var p, skip := |Libc5Section(n, content)|, LIBC5_HEADER + |content|;
    SectionReads(img, p, libs);
    Libc5Reads(img, n, content);
    assert p == skip + Padding(skip);
    PaddingIsLeast(skip, 0);
    LongEnough(img, p, libs);
  }

  lemma LongEnough(img: seq<Byte>, p: nat, libs: seq<Lib>)
    requires Section(img, p, libs)
    ensures p + LIBC6_HEADER <= |img|
  {
  }

  /** A file holding only a written section and any trailing bytes. */
  lemma NewFileRoundTrips(libs: seq<Lib>, tail: seq<Byte>)
    requires ValidLibs(libs)
    ensures var img := Libc6Section(libs) + tail;
            && (OpenAt(img).Some? <==> libs != [] || tail != [])
            && (OpenAt(img).Some? ==> OpenAt(img).value == 0)
            && WellFormed(img, 0) && Entries(img, 0) == Seen(libs)
  {
    hide Libc6Section, Section, WellFormed, Entries, Seen, At, OpenAt;
    var img := Libc6Section(libs) + tail;
    AtFirst(Libc6Section(libs), tail);
    WrittenIsSection(img, 0, libs);
    NewImageOpens(img, libs);
    if libs != [] { SpansOfPrefix(libs, 0); }
  }

  /** The same behind a libc5 section. */
  lemma OldFileRoundTrips(n: nat, content: seq<Byte>, libs: seq<Lib>, tail: seq<Byte>)
    requires n < 0x1_0000_0000 && |content| == LIBC5_ENTRY * n && ValidLibs(libs)
    ensures var pre := Libc5Section(n, content);
            var img := pre + Libc6Section(libs) + tail;
            && (OpenAt(img).Some? <==> libs != [] || tail != [])
            && (OpenAt(img).Some? ==> OpenAt(img).value == |pre|)
            && |pre| % LIBC6_ALIGN == 0
            && WellFormed(img, |pre|) && Entries(img, |pre|) == Seen(libs)
  {
    hide Libc5Section, Libc6Section, Section, WellFormed, Entries, Seen, At, OpenAt, Padding;
    var pre := Libc5Section(n, content);
    var body := Libc6Section(libs);
    var img := pre + body + tail;
    WholeAt(img);
    AtThree(img, 0, pre, body, tail);
    WrittenIsSection(img, |pre|, libs);
    OldImageOpens(img, n, content, libs);
    if libs != [] { SpansOfPrefix(libs, 0); }
  }

  lemma Libc5Reads(img: seq<Byte>, n: nat, content: seq<Byte>)
    requires n < 0x1_0000_0000 && |content| == LIBC5_ENTRY * n
    requires At(img, 0, Libc5Section(n, content))
    ensures HasText(img, 0, MAGIC_LIBC5) && U32(img, LIBC5_NLIBS) == n
  {
    var pre := Libc5Section(n, content);
    var m, w := Bytes(MAGIC_LIBC5), Put32(n);
    assert At(pre, 0, m) && At(pre, LIBC5_NLIBS, w);
    AtWithin(img, 0, pre, 0, m);
    AtWithin(img, 0, pre, LIBC5_NLIBS, w);
    ReadText(img, 0, MAGIC_LIBC5);
    ReadPut32(img, LIBC5_NLIBS, n);
  }

  // ---------------------------------------------------------------------
  // What is refused, and the bytes themselves
  // ---------------------------------------------------------------------

  /** Whatever the file: it is accepted exactly if, at 0 or behind a libc5 section and its padding, both magic texts stand and bytes follow the header. */
  lemma OpenExactly(img: seq<Byte>, p: nat)
    ensures OpenAt(img) == Some(p) <==>
              && |img| > p + LIBC6_HEADER
              && (forall i :: 0 <= i < 17 ==> img[p + i] == "glibc-ld.so.cache"[i] as int)
              && img[p + 17] == '1' as int && img[p + 18] == '.' as int && img[p + 19] == '1' as int
              && if HasText(img, 0, "ld.so-1.7.0") then
                   var end := LIBC5_HEADER + LIBC5_ENTRY * U32(img, LIBC5_NLIBS); end <= p < end + 8 && p % 8 == 0
                 else p == 0
  {
    hide U32, HasText, Padding;
    MagicText(img, p);
    VersionText(img, p + LIBC6_VERSION);
    if |img| > LIBC5_HEADER && HasText(img, 0, MAGIC_LIBC5) {
      PaddedPlace(LIBC5_HEADER + LIBC5_ENTRY * U32(img, LIBC5_NLIBS), p);
    }
  }

  /** The padded place is the one multiple of 8 among the next eight. */
  lemma PaddedPlace(end: nat, p: nat)
    ensures p == end + Padding(end) <==> end <= p < end + 8 && p % 8 == 0
  {
  }

  lemma MagicText(img: seq<Byte>, at: nat)
    ensures HasText(img, at, MAGIC_LIBC6) <==>
              at + 17 <= |img| && forall i :: 0 <= i < 17 ==> img[at + i] == "glibc-ld.so.cache"[i] as int
  {
  }

  lemma VersionText(img: seq<Byte>, at: nat)
    ensures HasText(img, at, MAGIC_VERSION) <==>
              at + 3 <= |img| && img[at] == '1' as int && img[at + 1] == '.' as int && img[at + 2] == '1' as int
  {
    assert |MAGIC_VERSION| == 3 && MAGIC_VERSION[0] == '1' && MAGIC_VERSION[1] == '.' && MAGIC_VERSION[2] == '1';
    if HasText(img, at, MAGIC_VERSION) {
      assert img[at + 0] == MAGIC_VERSION[0] as int && img[at + 1] == MAGIC_VERSION[1] as int && img[at + 2] == MAGIC_VERSION[2] as int;
    }
  }

  /** Words are little-endian. */
  lemma WordsAreLittleEndian(a: Byte, b: Byte, c: Byte, d: Byte)
    ensures U32([a, b, c, d], 0) == (((d as int) * 256 + c as int) * 256 + b as int) * 256 + a as int
    ensures U32([1, 0, 0, 0], 0) == 1 && U32([0, 1, 0, 0], 0) == 256
    ensures Put32(0x1234) == [0x34, 0x12, 0, 0]
  {
  }

  /** The layout of an entry: flags, the offset of the key, the offset of the value, then what the reader skips. */
  lemma EntryLayout(l: Lib, key: nat, value: nat)
    requires ValidLib(l) && key < 0x1_0000_0000 && value < 0x1_0000_0000
    ensures PutEntry(l, key, value)[0..4] == Put32(l.flags)
    ensures PutEntry(l, key, value)[4..8] == Put32(key)
    ensures PutEntry(l, key, value)[8..12] == Put32(value)
    ensures |PutEntry(l, key, value)| == 24
  {
    PiecesOfEntry(l, key, value);
  }

  /** Strings are read up to the first NUL, and no further. */
  lemma {:induction false} StringsStopAtNul(img: seq<Byte>, at: nat)
    requires Terminated(img, at)
    ensures var s := CStringAt(img, at);
            && at + |s| < |img| && img[at + |s|] == 0 && HasText(img, at, s)
            && forall j :: at <= j < at + |s| ==> img[j] != 0
    decreases |img| - at
  {
    if img[at] != 0 {
      StringsStopAtNul(img, at + 1);
      var s, t := CStringAt(img, at), CStringAt(img, at + 1);
      assert s == [img[at] as char] + t;
      forall i | 0 <= i < |s|
        ensures img[at + i] == s[i] as int
      {
        if i > 0 { assert img[(at + 1) + (i - 1)] == t[i - 1] as int; }
      }
    }
  }
}
