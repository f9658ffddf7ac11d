/**
 update_app_profile (src/nvc_mount.c): a 64-bit device mask kept in hexadecimal
 inside a small text file, read back, extended by one bit and written again;
 and file_read_text with str_join (src/utils.c), which read that file in chunks.
 */
module AppProfile {
  import opened CStrings

  const UINTMAX: nat := 0xFFFF_FFFF_FFFF_FFFF
  const WORD: nat := 64
  const CHUNK: nat := 511

  // ---------------------------------------------------------------------
  // Words as bits
  // ---------------------------------------------------------------------

  predicate Bit(n: nat, k: nat) {
    if k == 0 then n % 2 == 1 else Bit(n / 2, k - 1)
  }

  /** n | (1 << k) */
  function SetBit(n: nat, k: nat): nat {
    if k == 0 then n / 2 * 2 + 1 else SetBit(n / 2, k - 1) * 2 + n % 2
  }

  function Pow2(k: nat): (p: nat)
    ensures p > 0
  {
    if k == 0 then 1 else 2 * Pow2(k - 1)
  }

  /** Setting a bit sets that bit and no other. */
  lemma {:induction false} BitOfSetBit(n: nat, k: nat, j: nat)
    ensures Bit(SetBit(n, k), j) <==> j == k || Bit(n, j)
    decreases k
  {
    if k > 0 && j > 0 {
      assert SetBit(n, k) / 2 == SetBit(n / 2, k - 1);
      BitOfSetBit(n / 2, k - 1, j - 1);
    } else if k == 0 && j > 0 {
      assert SetBit(n, 0) / 2 == n / 2;
    }
  }

  /** A bit not yet set adds its power of two; one already set adds nothing. */
  lemma {:induction false} SetBitAdds(n: nat, k: nat)
    ensures SetBit(n, k) == if Bit(n, k) then n else n + Pow2(k)
    decreases k
  {
    if k > 0 { SetBitAdds(n / 2, k - 1); }
  }

  lemma {:induction false} SetBitFits(n: nat, k: nat, w: nat)
    requires n < Pow2(w) && k < w
    ensures SetBit(n, k) < Pow2(w)
    decreases k
  {
    if k > 0 { SetBitFits(n / 2, k - 1, w - 1); }
  }

  /** A word is determined by its bits. */
  lemma {:induction false} BitsDetermine(n: nat, m: nat, w: nat)
    requires n < Pow2(w) && m < Pow2(w)
    requires forall j :: 0 <= j < w ==> (Bit(n, j) <==> Bit(m, j))
    ensures n == m
    decreases w
  {
    if w > 0 {
      assert Bit(n, 0) <==> Bit(m, 0);
      forall j | 0 <= j < w - 1
        ensures Bit(n / 2, j) <==> Bit(m / 2, j)
      {
        assert Bit(n, j + 1) <==> Bit(m, j + 1);
      }
      BitsDetermine(n / 2, m / 2, w - 1);
    }
  }

  lemma {:induction false} AllBits(w: nat, j: nat)
    requires j < w
    ensures Bit(Pow2(w) - 1, j)
    decreases w
  {
    if j > 0 {
      assert (Pow2(w) - 1) / 2 == Pow2(w - 1) - 1;
      AllBits(w - 1, j - 1);
    }
  }

  lemma WordIsPow2()
    ensures Pow2(WORD) == UINTMAX + 1
  {
    assert Pow2(4) == 0x10;
    Pow2Adds(4, 4);
    assert Pow2(8) == 0x100;
    Pow2Adds(8, 8);
    assert Pow2(16) == 0x1_0000;
    Pow2Adds(16, 16);
    assert Pow2(32) == 0x1_0000_0000;
    Pow2Adds(32, 32);
  }

  lemma {:induction false} Pow2Adds(a: nat, b: nat)
    ensures Pow2(a + b) == Pow2(a) * Pow2(b)
    decreases b
  {
    if b > 0 { Pow2Adds(a, b - 1); }
  }

  // ---------------------------------------------------------------------
  // Hexadecimal
  // ---------------------------------------------------------------------

  function HexDigit(d: nat): char
    requires d < 16
  {
    if d < 10 then '0' + d as char else 'a' + (d - 10) as char
  }

  /** The value of a hexadecimal digit in either case. */
  function HexValue(c: char): (v: Option<nat>)
    ensures v.Some? ==> v.value < 16
  {
    if '0' <= c <= '9' then Some((c - '0') as nat)
    else if 'a' <= c <= 'f' then Some((c - 'a') as nat + 10)
    else if 'A' <= c <= 'F' then Some((c - 'A') as nat + 10)
    else None
  }

  /** %lx */
  function PrintHex(n: nat): string {
    if n < 16 then [HexDigit(n)] else PrintHex(n / 16) + [HexDigit(n % 16)]
  }

  /** The leading hexadecimal digits of a text. */
  function TakeHex(s: string): string {
    if s == "" || HexValue(s[0]).None? then "" else [s[0]] + TakeHex(s[1..])
  }

  predicate AllHex(s: string) {
    forall i :: 0 <= i < |s| ==> HexValue(s[i]).Some?
  }

  function ValueOf(s: string): nat
    requires AllHex(s)
  {
    if s == "" then 0 else ValueOf(s[..|s| - 1]) * 16 + HexValue(s[|s| - 1]).value
  }

  lemma {:induction false} TakeHexIsHex(s: string)
    ensures AllHex(TakeHex(s))
  {
    if s != "" && HexValue(s[0]).Some? { TakeHexIsHex(s[1..]); }
  }

  /** strtoumax(s, NULL, 16) on a text that starts with "0x": the value saturates. */
  function Strtoumax(s: string): nat
    requires HasPrefix(s, "0x")
  {
    TakeHexIsHex(s[2..]);
    var v := ValueOf(TakeHex(s[2..]));
    if v > UINTMAX then UINTMAX else v
  }

  lemma {:induction false} PrintThenValue(n: nat)
    ensures AllHex(PrintHex(n)) && ValueOf(PrintHex(n)) == n
  {
    if n >= 16 {
      PrintThenValue(n / 16);
      var s := PrintHex(n);
      assert s[..|s| - 1] == PrintHex(n / 16);
    }
  }

  lemma {:induction false} TakeHexOfDigits(digits: string, rest: string)
    requires AllHex(digits) && (rest == "" || HexValue(rest[0]).None?)
    ensures TakeHex(digits + rest) == digits
  {
    if digits == "" {
      assert digits + rest == rest;
    } else {
      assert (digits + rest)[0] == digits[0];
      assert (digits + rest)[1..] == digits[1..] + rest;
      TakeHexOfDigits(digits[1..], rest);
      assert digits == [digits[0]] + digits[1..];
    }
  }

  /** The digits are the usual ones, and both cases are read. */
  lemma DigitsAreUsual(d: nat)
    requires d < 16
    ensures HexDigit(d) == "0123456789abcdef"[d]
    ensures HexValue("0123456789abcdef"[d]) == Some(d) && HexValue("0123456789ABCDEF"[d]) == Some(d)
    ensures HexValue('x').None? && HexValue(']').None? && HexValue(' ').None? && HexValue('g').None? && HexValue('G').None?
  {
  }

  /** The most significant digit comes first. */
  lemma HighDigitFirst(hi: nat, lo: nat)
    requires 0 < hi < 16 && lo < 16
    ensures PrintHex(16 * hi + lo) == [HexDigit(hi), HexDigit(lo)]
  {
    assert (16 * hi + lo) / 16 == hi && (16 * hi + lo) % 16 == lo;
    assert PrintHex(hi) == [HexDigit(hi)];
  }

  /** Printing and parsing cancel, up to saturation, whatever non-digit follows. */
  lemma HexRoundTrip(n: nat, rest: string)
    requires rest == "" || HexValue(rest[0]).None?
    ensures HasPrefix("0x" + PrintHex(n) + rest, "0x")
    ensures Strtoumax("0x" + PrintHex(n) + rest) == if n > UINTMAX then UINTMAX else n
  {
    hide PrintHex, TakeHex, ValueOf;
    var digits := PrintHex(n);
    PrintThenValue(n);
    TakeHexOfDigits(digits, rest);
    var s := "0x" + digits + rest;
    assert s[..2] == "0x" && s[2..] == digits + rest;
  }

  // ---------------------------------------------------------------------
  // The profile text
  // ---------------------------------------------------------------------

  const HEAD := "{ \"profiles\": [{\"name\": " + "\"_container_\", " + "\"settings\": [" + "\"EGLVisibleDGPUDevices\", "
  const TAIL := "]" + "}], \"rules\": [{\"pattern\": [], \"profile\": \"_container_\"}]}"

  function Profile(mask: nat): string {
    HEAD + ("0x" + PrintHex(mask) + TAIL)
  }

  /** The mask a profile text holds: what strstr and strtoumax make of it. */
  function MaskIn(text: string): Option<nat> {
    match Find(text, "0x")
    case None => None
    case Some(k) => if HasPrefix(text[k..], "0x") then Some(Strtoumax(text[k..])) else None
  }

  lemma HeadHasNoZero(i: nat)
    requires i < |HEAD|
    ensures HEAD[i] != '0'
  {
    assert '0' !in "{ \"profiles\": [{\"name\": " && '0' !in "\"_container_\", ";
    assert '0' !in "\"settings\": [" && '0' !in "\"EGLVisibleDGPUDevices\", ";
    assert HEAD[i] in HEAD;
  }

  /** The first "0x" of a profile is its mask. */
  lemma FirstHexIsMask(rest: string)
    ensures Find(HEAD + ("0x" + rest), "0x") == Some(|HEAD|)
  {
    hide Find;
    forall i | 0 <= i < |HEAD|
      ensures HEAD[i] != '0'
    {
      HeadHasNoZero(i);
    }
    FirstMask(HEAD, rest);
  }

  /** A profile parses to the mask it was written with. */
  lemma ProfileRoundTrip(mask: nat)
    requires mask <= UINTMAX
    ensures MaskIn(Profile(mask)) == Some(mask)
  {
    hide Find, PrintHex, Strtoumax;
    var rest := PrintHex(mask) + TAIL;
    var text := Profile(mask);
    assert text == HEAD + ("0x" + rest) by { assert "0x" + PrintHex(mask) + TAIL == "0x" + rest; }
    FirstHexIsMask(rest);
    assert text[|HEAD|..] == "0x" + PrintHex(mask) + TAIL;
    assert TAIL[0] == ']';
    HexRoundTrip(mask, TAIL);
  }

  /** The mask stands where the setting's value is expected: behind its name and a blank, and before the closing bracket. */
  lemma MaskIsTheSetting(mask: nat)
    ensures var name, n := "\"EGLVisibleDGPUDevices\", ", |HEAD|;
            && |name| <= n && Profile(mask)[n - |name|..n] == name
            && Profile(mask)[n..n + 2] == "0x" && Profile(mask)[n + 2..n + 2 + |PrintHex(mask)|] == PrintHex(mask)
            && Profile(mask)[n + 2 + |PrintHex(mask)|] == ']'
  {
    hide PrintHex;
    var name, front := "\"EGLVisibleDGPUDevices\", ", "{ \"profiles\": [{\"name\": " + "\"_container_\", " + "\"settings\": [";
    assert HEAD == front + name;
    assert TAIL[0] == ']';
  }

  /** One call as a value: the file before (None if missing), and after, or None when the call fails. */
  function Updated(file: Option<string>, minor: nat): Option<string> {
    if file.None? then Some(Profile(SetBit(0, minor)))
    else match MaskIn(file.value)
      case None => None
      case Some(n) => if n == UINTMAX then None else Some(Profile(SetBit(n, minor)))
  }

  /** A sequence of calls, starting from no file. */
  function UpdatedAll(minors: seq<nat>): Option<Option<string>> {
    if minors == [] then Some(None)
    else match UpdatedAll(minors[..|minors| - 1])
      case None => None
      case Some(file) =>
        match Updated(file, minors[|minors| - 1])
        case None => None
        case Some(text) => Some(Some(text))
  }

  ghost predicate AreMinors(minors: seq<nat>) {
    forall i :: 0 <= i < |minors| ==> minors[i] < WORD
  }

  /** The OR of the bits of `minors`. */
  function Mask(minors: seq<nat>): nat {
    if minors == [] then 0 else SetBit(Mask(minors[..|minors| - 1]), minors[|minors| - 1])
  }

  lemma {:induction false} MaskFits(minors: seq<nat>)
    requires AreMinors(minors)
    ensures Mask(minors) <= UINTMAX
  {
    hide SetBit, Pow2;
    if minors != [] {
      MaskFits(minors[..|minors| - 1]);
      WordIsPow2();
      SetBitFits(Mask(minors[..|minors| - 1]), minors[|minors| - 1], WORD);
    }
  }

  /** The mask has exactly the bits of the minors. */
  lemma {:induction false} MaskBits(minors: seq<nat>, j: nat)
    ensures Bit(Mask(minors), j) <==> j in minors
    decreases |minors|
  {
    hide SetBit;
    if minors == [] {
      NoBits(j);
    } else {
      var init, last := minors[..|minors| - 1], minors[|minors| - 1];
      MaskBits(init, j);
      BitOfSetBit(Mask(init), last, j);
      assert minors == init + [last];
    }
  }

  lemma {:induction false} NoBits(j: nat)
    ensures !Bit(0, j)
  {
    if j > 0 { NoBits(j - 1); }
  }

  /** Every word's bit is there. */
  ghost predicate Full(minors: seq<nat>) {
    forall j :: 0 <= j < WORD ==> j in minors
  }

  /** The mask is all ones exactly when every minor below 64 has been seen. */
  lemma FullMask(minors: seq<nat>)
    requires AreMinors(minors)
    ensures Mask(minors) == UINTMAX <==> Full(minors)
  {
    hide Mask, Pow2, Bit;
    MaskFits(minors);
    WordIsPow2();
    forall j | 0 <= j < WORD
      ensures Bit(UINTMAX, j) && (Bit(Mask(minors), j) <==> j in minors)
    {
      AllBits(WORD, j);
      MaskBits(minors, j);
    }
    if Full(minors) { BitsDetermine(Mask(minors), UINTMAX, WORD); }
  }

  /**
   After any sequence of calls the file holds exactly the OR of their bits.
   A call fails only on a file whose mask is already all ones, because that is
   also what strtoumax reports for an overflow.
   */
  lemma {:induction false} ProfileHoldsMinors(minors: seq<nat>)
    requires AreMinors(minors)
    ensures UpdatedAll(minors).Some? <==> forall k :: 0 <= k < |minors| ==> !Full(minors[..k])
    ensures UpdatedAll(minors).Some? ==>
              UpdatedAll(minors).value == if minors == [] then None else Some(Profile(Mask(minors)))
    ensures UpdatedAll(minors).Some? && minors != [] ==> MaskIn(UpdatedAll(minors).value.value) == Some(Mask(minors))
    decreases |minors|
  {
    hide Profile, MaskIn, Mask, SetBit, Full;
    if minors != [] {
      var init, last := minors[..|minors| - 1], minors[|minors| - 1];
      ProfileHoldsMinors(init);
      MaskOfPush(minors);
      MaskFits(init);
      MaskFits(minors);
      ProfileRoundTrip(Mask(init));
      ProfileRoundTrip(Mask(minors));
      FullMask(init);
      assert forall k :: 0 <= k < |init| ==> minors[..k] == init[..k];
    }
  }

  lemma MaskOfPush(minors: seq<nat>)
    requires minors != []
    ensures Mask(minors) == SetBit(Mask(minors[..|minors| - 1]), minors[|minors| - 1])
    ensures |minors| == 1 ==> Mask(minors[..0]) == 0 && !Full(minors[..0])
  {
    assert minors[..0] == [];
    if |minors| == 1 { assert 0 !in minors[..0]; }
  }

  /** Order and repeats do not matter: the same devices leave the same file. */
  lemma SameMinorsSameFile(a: seq<nat>, b: seq<nat>)
    requires AreMinors(a) && AreMinors(b) && UpdatedAll(a).Some? && UpdatedAll(b).Some?
    requires forall j :: j in a <==> j in b
    ensures UpdatedAll(a) == UpdatedAll(b)
  {
    hide Mask, Bit, Pow2, Profile, MaskIn, UpdatedAll;
    ProfileHoldsMinors(a);
    ProfileHoldsMinors(b);
    MaskFits(a);
    MaskFits(b);
    WordIsPow2();
    forall j | 0 <= j < WORD
      ensures Bit(Mask(a), j) <==> Bit(Mask(b), j)
    {
      MaskBits(a, j);
      MaskBits(b, j);
    }
    BitsDetermine(Mask(a), Mask(b), WORD);
    assert a == [] <==> b == [] by {
      if a != [] { assert a[0] in b; }
      if b != [] { assert b[0] in a; }
    }
  }

  // ---------------------------------------------------------------------
  // Reading and rewriting the file
  // ---------------------------------------------------------------------

  /** str_join: a null or empty first text takes no separator. */
  function StrJoin(s1: Option<string>, s2: string, sep: string): string {
    if s1.None? || s1.value == "" then s2 else s1.value + sep + s2
  }

  /**
   file_read_text, chunk by chunk: the whole text, or a null pointer for an empty
   file.  A read or a reallocation that fails once `got` bytes have been joined
   frees the text and fails, but leaves the pointer to it with the caller.
   */
  method FileReadText(content: string, got: Option<nat>) returns (ok: bool, txt: Option<string>)
    ensures ok <==> got.None?
    ensures ok ==> txt == if content == "" then None else Some(content)
    ensures !ok ==> (txt.Some? <==> content != "" && got.value > 0)
  {
    txt := None;
    var end := if got.None? || got.value > |content| then |content| else got.value;
    var pos := 0;
    while pos < end
      invariant 0 <= pos <= end
      invariant txt == if pos == 0 then None else Some(content[..pos])
    {
      var n := if end - pos < CHUNK then end - pos else CHUNK;
      txt := Some(StrJoin(txt, content[pos..pos + n], ""));
      assert content[..pos] + "" + content[pos..pos + n] == content[..pos + n];
      pos := pos + n;
    }
    assert content[..|content|] == content;
    ok := got.None?;
  }

  /**
   How the input and output of one call go: the file cannot be opened, its reading
   breaks off after `got` bytes, it cannot be opened for writing, or a failed write
   keeps the first `kept` bytes only.
   */
  datatype Io = Fine | CannotRead | ReadBreaks(got: nat) | CannotOpen | CannotWrite(kept: nat)

  datatype Verdict = Done | Failed | Crashed

  function Cut(text: string, kept: nat): string {
    if kept < |text| then text[..kept] else text
  }

  /**
   An empty file is read as a null pointer, on which strstr is called; a text whose
   reading breaks off after its first bytes is freed by file_read_text and again
   by its caller.
   */
  predicate Crashes(file: Option<string>, io: Io) {
    && file.Some?
    && if io.ReadBreaks? then file.value != "" && io.got > 0 else file.value == "" && !io.CannotRead?
  }

  /** Nothing fails: a file that does not exist is not read. */
  predicate GoesWell(file: Option<string>, io: Io) {
    io.Fine? || (io.ReadBreaks? && file.None?)
  }

  /** The file after one call, whatever its outcome. */
  function AfterCall(file: Option<string>, minor: nat, io: Io): Option<string> {
    match Updated(file, minor)
    case None => file
    case Some(text) =>
      if GoesWell(file, io) then Some(text)
      else if io.CannotWrite? then Some(Cut(text, io.kept))
      else file
  }

  class ProfileFile {
    var content: Option<string>   // None while the file does not exist

    constructor ()
      ensures content == None
    {
      content := None;
    }

    /** update_app_profile */
    method Update(minor: nat, io: Io) returns (v: Verdict)
      requires minor < WORD
      modifies this
      ensures v.Crashed? <==> Crashes(old(content), io)
      ensures v.Done? <==> GoesWell(old(content), io) && Updated(old(content), minor).Some?
      ensures content == AfterCall(old(content), minor, io)
    {
      hide Profile, Strtoumax, SetBit;
      if io.CannotRead? {
        return Failed;
      }
      var text;
      if content.None? {
        text := Profile(SetBit(0, minor));
      } else {
        var ok, buf := FileReadText(content.value, if io.ReadBreaks? then Some(io.got) else None);
        if !ok {
          return if buf.Some? then Crashed else Failed;     // free(buf) of a text already freed
        }
        if buf.None? {
          return Crashed;                                   // strstr(NULL, "0x")
        }
        var k := Find(buf.value, "0x");
        if k.None? {
          return Failed;
        }
        assert HasPrefix(buf.value[k.value..], "0x") by { assert buf.value[k.value..][..2] == "0x"; }
        var n := Strtoumax(buf.value[k.value..]);
        if n == UINTMAX {
          return Failed;
        }
        text := Profile(SetBit(n, minor));
      }
      if io.CannotOpen? {
        return Failed;
      }
      if io.CannotWrite? {
        content := Some(Cut(text, io.kept));
        return Failed;
      }
      content := Some(text);
      return Done;
    }
  }

  /** A call leaves the file empty, so that the next one that reads it crashes, exactly if it was empty or the write kept nothing. */
  lemma EmptyExactly(file: Option<string>, minor: nat, io: Io)
    ensures AfterCall(file, minor, io) == Some("") <==>
              file == Some("") || (Updated(file, minor).Some? && io == CannotWrite(0))
  {
    hide Profile, Strtoumax, SetBit;
    var mask := match file case None => SetBit(0, minor) case Some(text) =>
      (match MaskIn(text) case None => 0 case Some(n) => SetBit(n, minor));
    ProfileIsNotEmpty(mask);
    assert Find("", "0x").None?;
  }

  lemma ProfileIsNotEmpty(mask: nat)
    ensures |Profile(mask)| >= 1
  {
    hide PrintHex;
  }

  /** The first device's write keeps nothing: the second device's call crashes. */
  method CrashExample(a: nat, b: nat) returns (v: Verdict)
    requires a < WORD && b < WORD
    ensures v.Crashed?
  {
    var f := new ProfileFile();
    EmptyExactly(None, a, CannotWrite(0));
    var _ := f.Update(a, CannotWrite(0));
    v := f.Update(b, Fine);
  }

  /** The first device's profile cannot be read to its end: the second device's call crashes, whatever the devices. */
  method BrokenReadExample(a: nat, b: nat, got: nat) returns (v: Verdict)
    requires a < WORD && b < WORD && got > 0
    ensures v.Crashed?
  {
    var f := new ProfileFile();
    ProfileIsNotEmpty(SetBit(0, a));
    var _ := f.Update(a, Fine);
    v := f.Update(b, ReadBreaks(got));
  }

  /** A text without a mask cannot be updated, whatever the device. */
  lemma NoMaskNoUpdate(text: string, minor: nat)
    requires Find(text, "0x").None?
    ensures Updated(Some(text), minor) == None
  {
    hide Profile, Strtoumax, SetBit;
  }

  /** A text with a mask, whoever wrote it, becomes the profile of that mask and the device's bit, unless the mask is full. */
  lemma AnyMaskIsUpdated(front: string, n: nat, rest: string, minor: nat)
    requires n <= UINTMAX && (rest == "" || HexValue(rest[0]).None?)
    requires '0' !in front
    ensures Updated(Some(front + ("0x" + PrintHex(n) + rest)), minor) == if n == UINTMAX then None else Some(Profile(SetBit(n, minor)))
  {
    hide Find, PrintHex, Strtoumax, Profile, SetBit;
    var tail := "0x" + PrintHex(n) + rest;
    var text := front + tail;
    FirstMask(front, PrintHex(n) + rest);
    assert tail == "0x" + (PrintHex(n) + rest);
    assert text[|front|..] == tail;
    HexRoundTrip(n, rest);
  }

  lemma FirstMask(front: string, rest: string)
    requires '0' !in front
    ensures Find(front + ("0x" + rest), "0x") == Some(|front|)
  {
    hide Find;
    var text := front + ("0x" + rest);
    assert OccursAt(text, "0x", |front|) by { assert text[|front|..|front| + 2] == "0x"; }
    forall i | 0 <= i < |front|
      ensures !OccursAt(text, "0x", i)
    {
      assert text[i] == front[i] && front[i] in front;
      OccursFirst(text, "0x", i);
    }
    FindIs(text, "0x", |front|);
  }

  /** What each way to fail leaves: the file as it was, unless the write began. */
  lemma FailuresLeave(file: Option<string>, minor: nat, kept: nat, got: nat)
    ensures AfterCall(file, minor, CannotRead) == file && AfterCall(file, minor, CannotOpen) == file
    ensures file.Some? ==> AfterCall(file, minor, ReadBreaks(got)) == file
    ensures Updated(file, minor).None? ==> AfterCall(file, minor, Fine) == file && AfterCall(file, minor, CannotWrite(kept)) == file
    ensures Updated(file, minor).Some? ==>
              && AfterCall(file, minor, Fine) == Updated(file, minor)
              && AfterCall(file, minor, CannotWrite(kept)).Some?
              && AfterCall(file, minor, CannotWrite(kept)).value <= Updated(file, minor).value
              && |AfterCall(file, minor, CannotWrite(kept)).value| <= kept
  {
    hide Updated;
  }
}
