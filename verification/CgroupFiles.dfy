/**
 The readers of /proc/<pid>/mountinfo and /proc/<pid>/cgroup in
 src/cgroup_legacy.c, the line printers they undo, and the path they combine to.
 */
module CgroupFiles {
  import opened CStrings
  import opened Paths

  /** What a line parser makes of a line; `Crash` stands for the null pointer cgroup_mount may search. */
  datatype Verdict = Crash | Reject | Accept(value: string, prefix: string)

  // ---------------------------------------------------------------------
  // strsep on a pointer that may be null
  // ---------------------------------------------------------------------

  function Token(line: Option<string>, c: char): Option<string> {
    if line.None? then None else Some(Strsep(line.value, c).0)
  }

  function Rest(line: Option<string>, c: char): Option<string> {
    if line.None? then None else Strsep(line.value, c).1
  }

  /** What is left after `n` tokens. */
  function RestAfter(line: Option<string>, c: char, n: nat): Option<string> {
    if n == 0 then line else Rest(RestAfter(line, c, n - 1), c)
  }

  /** for (i = 0; i < n; ++i) token = strsep(&line, c); */
  method TakeTokens(line: Option<string>, c: char, n: nat) returns (token: Option<string>, rest: Option<string>)
    requires n > 0
    ensures token == Token(RestAfter(line, c, n - 1), c)
    ensures rest == RestAfter(line, c, n)
  {
    rest, token := line, None;
    for i := 0 to n
      invariant rest == RestAfter(line, c, i)
      invariant i > 0 ==> token == Token(RestAfter(line, c, i - 1), c)
    {
      token, rest := Token(rest, c), Rest(rest, c);
    }
  }

  // ---------------------------------------------------------------------
  // The line parsers
  // ---------------------------------------------------------------------

  /** From the first dash on (strchr). */
  function FromDash(s: string): Option<string> {
    var k := IndexOf(s, '-');
    if k == |s| then None else Some(s[k..])
  }

  /** The tests cgroup_mount makes on the fields it has cut out. */
  predicate GoodMount(root: string, mount: string, fstype: string, options: string, subsys: string) {
    && root != "" && mount != "" && fstype != "" && options != ""
    && fstype == "cgroup"
    && Contains(options, subsys)
    && |root| < PATH_MAX && !HasPrefix(root, "/..")
  }

  /** cgroup_mount as a value. */
  function MountVerdict(line: string, subsys: string): Verdict {
    var l := Some(line);
    var root := Token(RestAfter(l, ' ', 3), ' ');
    var mount := Token(RestAfter(l, ' ', 4), ' ');
    var after := RestAfter(l, ' ', 5);
    if after.None? then Crash
    else
      var dash := FromDash(after.value);
      var fstype := Token(RestAfter(dash, ' ', 1), ' ');
      var options := Token(RestAfter(dash, ' ', 3), ' ');
      if root.Some? && mount.Some? && fstype.Some? && options.Some?
         && GoodMount(root.value, mount.value, fstype.value, options.value, subsys)
      then Accept(mount.value, root.value)
      else Reject
  }

  /** cgroup_mount */
  method CgroupMount(line: string, subsys: string) returns (v: Verdict)
    ensures v == MountVerdict(line, subsys)
  {
    var root, rest := TakeTokens(Some(line), ' ', 4);
    var mount := Token(rest, ' ');
    rest := Rest(rest, ' ');
    if rest.None? {
      return Crash;
    }
    rest := FromDash(rest.value);
    ghost var dash := rest;
    var fstype, options;
    fstype, rest := TakeTokens(rest, ' ', 2);
    options, rest := TakeTokens(rest, ' ', 2);
    FourTokens(dash);
    if root.None? || mount.None? || fstype.None? || options.None? {
      return Reject;
    }
    v := if GoodMount(root.value, mount.value, fstype.value, options.value, subsys)
         then Accept(mount.value, root.value) else Reject;
  }

  lemma StepsOfRest(line: Option<string>, c: char)
    ensures RestAfter(line, c, 1) == Rest(line, c)
    ensures RestAfter(line, c, 2) == Rest(Rest(line, c), c)
  {
  }

  lemma FourTokens(line: Option<string>)
    ensures RestAfter(RestAfter(line, ' ', 2), ' ', 1) == RestAfter(line, ' ', 3)
  {
  }

  /** The tests cgroup_root makes. */
  predicate GoodCgroup(controllers: string, path: string, subsys: string) {
    && path != "" && controllers != ""
    && Contains(controllers, subsys)
    && |path| < PATH_MAX && !HasPrefix(path, "/..")
  }

  /** Strip the mount's root from a cgroup path, unless it is "/" or not a prefix. */
  function Stripped(prefix: string, path: string): string {
    if prefix != "/" && HasPrefix(path, prefix) then path[|prefix|..] else path
  }

  /** cgroup_root as a value. */
  function CgroupVerdict(line: string, prefix: string, subsys: string): Verdict {
    var controllers := Token(RestAfter(Some(line), ':', 1), ':');
    var path := RestAfter(Some(line), ':', 2);
    if controllers.Some? && path.Some? && GoodCgroup(controllers.value, path.value, subsys)
    then Accept(Stripped(prefix, path.value), prefix)
    else Reject
  }

  /** cgroup_root */
  method CgroupRoot(line: string, prefix: string, subsys: string) returns (v: Verdict)
    ensures v == CgroupVerdict(line, prefix, subsys)
  {
    hide Token, Rest, RestAfter, Contains;
    StepsOfRest(Some(line), ':');
    var rest: Option<string> := Some(line);
    rest := Rest(rest, ':');                 // hierarchy id
    assert rest == RestAfter(Some(line), ':', 1);
    var controllers := Token(rest, ':');
    if controllers.None? {
      return Reject;
    }
    rest := Rest(rest, ':');
    assert rest == RestAfter(Some(line), ':', 2);
    if rest.None? {
      return Reject;
    }
    var path := rest.value;
    if path == "" || controllers.value == "" {
      return Reject;
    }
    if !Contains(controllers.value, subsys) {
      return Reject;
    }
    if |path| >= PATH_MAX || HasPrefix(path, "/..") {
      return Reject;
    }
    if prefix != "/" && HasPrefix(path, prefix) {
      path := path[|prefix|..];
    }
    return Accept(path, prefix);
  }

  // ---------------------------------------------------------------------
  // The printers
  // ---------------------------------------------------------------------

  /** One mount as the kernel lists it; `middle` holds the mount options and the optional fields. */
  datatype MountLine = MountLine(
    id: string, parent: string, dev: string, root: string, mount: string,
    middle: string, fstype: string, source: string, options: string)

  function PrintMount(m: MountLine): string {
    m.id + " " + (m.parent + " " + (m.dev + " " + (m.root + " " + (m.mount + " "
    + (m.middle + " " + ("-" + " " + (m.fstype + " " + (m.source + " " + m.options))))))))
  }

  /** No field holds a blank, and no dash comes before the separator. */
  predicate ValidMount(m: MountLine) {
    && ' ' !in m.id && ' ' !in m.parent && ' ' !in m.dev && ' ' !in m.root && ' ' !in m.mount
    && '-' !in m.middle
    && ' ' !in m.fstype && ' ' !in m.source && ' ' !in m.options
  }

  datatype CgroupLine = CgroupLine(id: string, controllers: string, path: string)

  function PrintCgroup(c: CgroupLine): string {
    c.id + ":" + (c.controllers + ":" + c.path)
  }

  /** The path may hold colons; the fields before it may not. */
  predicate ValidCgroup(c: CgroupLine) {
    ':' !in c.id && ':' !in c.controllers
  }

  lemma Cut(token: string, c: char, rest: string)
    requires c !in token
    ensures Token(Some(token + [c] + rest), c) == Some(token)
    ensures Rest(Some(token + [c] + rest), c) == Some(rest)
  {
    StrsepOfJoin(token, c, rest);
  }

  lemma DashFound(middle: string, rest: string)
    requires '-' !in middle
    ensures FromDash(middle + " " + ("-" + rest)) == Some("-" + rest)
  {
    var s := middle + " " + ("-" + rest);
    assert s[|middle| + 1] == '-';
    assert forall i :: 0 <= i < |middle| ==> s[i] == middle[i];
    IndexOfIs(s, '-', |middle| + 1);
    assert s[|middle| + 1..] == "-" + rest;
  }

  /** cgroup_mount undoes the printer: it accepts exactly the good lines and gives back their root and mount point. */
  lemma MountRoundTrip(m: MountLine, subsys: string)
    requires ValidMount(m)
    ensures MountVerdict(PrintMount(m), subsys) ==
              if GoodMount(m.root, m.mount, m.fstype, m.options, subsys) then Accept(m.mount, m.root) else Reject
  {
    hide Token, Rest, FromDash, GoodMount;
    var s9 := m.source + " " + m.options;
    var s8 := m.fstype + " " + s9;
    var s7 := "-" + " " + s8;
    var s6 := m.middle + " " + s7;
    var s5 := m.mount + " " + s6;
    var s4 := m.root + " " + s5;
    var s3 := m.dev + " " + s4;
    var s2 := m.parent + " " + s3;
    var s1 := m.id + " " + s2;
    assert PrintMount(m) == s1;
    Cut(m.id, ' ', s2);
    Cut(m.parent, ' ', s3);
    Cut(m.dev, ' ', s4);
    Cut(m.root, ' ', s5);
    Cut(m.mount, ' ', s6);
    var l := Some(s1);
    assert RestAfter(l, ' ', 1) == Some(s2);
    assert RestAfter(l, ' ', 2) == Some(s3);
    assert RestAfter(l, ' ', 3) == Some(s4);
    assert RestAfter(l, ' ', 4) == Some(s5);
    assert RestAfter(l, ' ', 5) == Some(s6);
    TailRoundTrip(m);
  }

  /** The part of the line from the separator on. */
  lemma TailRoundTrip(m: MountLine)
    requires ValidMount(m)
    ensures var s9 := m.source + " " + m.options;
            var s8 := m.fstype + " " + s9;
            var dash := FromDash(m.middle + " " + ("-" + " " + s8));
            && dash == Some("-" + " " + s8)
            && Token(RestAfter(dash, ' ', 1), ' ') == Some(m.fstype)
            && Token(RestAfter(dash, ' ', 3), ' ') == Some(m.options)
  {
    hide FromDash, Strsep;
    var s9 := m.source + " " + m.options;
    var s8 := m.fstype + " " + s9;
    assert "-" + " " + s8 == "-" + (" " + s8);
    DashFound(m.middle, " " + s8);
    var dash := Some("-" + " " + s8);
    Cut("-", ' ', s8);
    Cut(m.fstype, ' ', s9);
    Cut(m.source, ' ', m.options);
    StrsepOfToken(m.options, ' ');
    assert RestAfter(dash, ' ', 1) == Some(s8);
    assert RestAfter(dash, ' ', 2) == Some(s9);
    assert RestAfter(dash, ' ', 3) == Some(m.options);
  }

  /** cgroup_root undoes the printer; colons in the path survive. */
  lemma CgroupRoundTrip(c: CgroupLine, prefix: string, subsys: string)
    requires ValidCgroup(c)
    ensures CgroupVerdict(PrintCgroup(c), prefix, subsys) ==
              if GoodCgroup(c.controllers, c.path, subsys) then Accept(Stripped(prefix, c.path), prefix) else Reject
  {
    hide Token, Rest, GoodCgroup, Stripped;
    var tail := c.controllers + ":" + c.path;
    Cut(c.id, ':', tail);
    Cut(c.controllers, ':', c.path);
    var l := Some(PrintCgroup(c));
    assert RestAfter(l, ':', 1) == Some(tail);
    assert RestAfter(l, ':', 2) == Some(c.path);
  }

  /** What makes a mount usable, field by field: a version 1 cgroup file system whose options name the subsystem, and a root that does not lead up. */
  lemma GoodMountByField(m: MountLine, subsys: string, a: string, b: string)
    ensures GoodMount(m.root, m.mount, m.fstype, m.options, subsys) ==>
              m.fstype == "cgroup" && Contains(m.options, subsys) && m.root != "" && m.mount != "" && m.options != ""
              && |m.root| < PATH_MAX && !HasPrefix(m.root, "/..")
    ensures 0 < |m.root| < PATH_MAX && !HasPrefix(m.root, "/..") && m.mount != "" && a + subsys + b != "" ==>
              GoodMount(m.root, m.mount, "cgroup", a + subsys + b, subsys)
  {
    ContainsIts(a, subsys, b);
  }

  lemma ContainsIts(a: string, needle: string, b: string)
    ensures Contains(a + needle + b, needle)
  {
    var s := a + needle + b;
    assert s[|a|..|a| + |needle|] == needle;
    assert OccursAt(s, needle, |a|);
  }

  /** The version 2 file system is never taken, whatever its options. */
  lemma Cgroup2IsRejected(m: MountLine, subsys: string)
    requires ValidMount(m) && m.fstype == "cgroup2"
    ensures MountVerdict(PrintMount(m), subsys) == Reject
  {
    hide MountVerdict, PrintMount, Contains;
    MountRoundTrip(m, subsys);
    assert |"cgroup2"| == 7 && |"cgroup"| == 6;
  }

  /** What makes a cgroup line acceptable: its controllers name the subsystem and its path does not lead up. */
  lemma GoodCgroupByField(controllers: string, path: string, subsys: string, a: string, b: string)
    ensures GoodCgroup(controllers, path, subsys) ==>
              controllers != "" && Contains(controllers, subsys) && 0 < |path| < PATH_MAX && !HasPrefix(path, "/..")
    ensures 0 < |path| < PATH_MAX && !HasPrefix(path, "/..") && a + subsys + b != "" ==>
              GoodCgroup(a + subsys + b, path, subsys)
  {
    ContainsIts(a, subsys, b);
  }

  /** Stripping loses nothing but the prefix. */
  lemma StrippedJoins(prefix: string, path: string)
    ensures prefix != "/" && HasPrefix(path, prefix) ==> prefix + Stripped(prefix, path) == path
    ensures prefix == "/" || !HasPrefix(path, prefix) ==> Stripped(prefix, path) == path
  {
  }

  // ---------------------------------------------------------------------
  // When cgroup_mount searches a null pointer
  // ---------------------------------------------------------------------

  function Count(s: string, c: char): nat {
    if s == "" then 0 else (if s[0] == c then 1 else 0) + Count(s[1..], c)
  }

  lemma {:induction false} CountOfCut(token: string, c: char, rest: string)
    requires c !in token
    ensures Count(token, c) == 0 && Count(token + [c] + rest, c) == 1 + Count(rest, c)
    decreases |token|
  {
    var s := token + [c] + rest;
    if token == "" {
      assert s[1..] == rest;
    } else {
      assert s[1..] == token[1..] + [c] + rest;
      CountOfCut(token[1..], c, rest);
    }
  }

  lemma {:induction false} RestAfterFirst(line: Option<string>, c: char, n: nat)
    requires n > 0
    ensures RestAfter(line, c, n) == RestAfter(Rest(line, c), c, n - 1)
  {
    if n > 1 { RestAfterFirst(line, c, n - 1); }
  }

  lemma {:induction false} RestNeedsSeparators(s: string, c: char, n: nat)
    ensures RestAfter(Some(s), c, n).Some? <==> Count(s, c) >= n
    decreases n
  {
    hide Count, Strsep;
    if n > 0 {
      RestAfterFirst(Some(s), c, n);
      var (token, rest) := Strsep(s, c);
      if rest.None? {
        CountOfCut(s, c, "");
        NothingAfterNull(c, n - 1);
      } else {
        CountOfCut(token, c, rest.value);
        RestNeedsSeparators(rest.value, c, n - 1);
      }
    }
  }

  lemma {:induction false} NothingAfterNull(c: char, n: nat)
    ensures RestAfter(None, c, n).None?
  {
    if n > 0 { NothingAfterNull(c, n - 1); }
  }

  /** cgroup_mount runs into a null pointer exactly on lines with fewer than five blanks. */
  lemma CrashExactly(line: string, subsys: string)
    ensures MountVerdict(line, subsys) == Crash <==> Count(line, ' ') < 5
  {
    hide Count, Token, FromDash, GoodMount;
    RestNeedsSeparators(line, ' ', 5);
  }

  // ---------------------------------------------------------------------
  // Whole files
  // ---------------------------------------------------------------------

  type Parser = string -> Verdict

  /** parse_proc_file as a value.  A line that ends at the end of the file leaves feof set and does not count. */
  function ParseFile(text: string, parse: Parser): Verdict
    decreases |text|
  {
    var k := IndexOf(text, '\n');
    if k == |text| then
      if text != "" && parse(text).Crash? then Crash else Reject
    else
      var v := if k == 0 then Reject else parse(text[..k]);
      if v.Reject? then ParseFile(text[k + 1..], parse) else v
  }

  /** One turn: the line up to the first newline, or the rest of the file. */
  lemma ParseStep(text: string, k: nat, parse: Parser)
    requires k == IndexOf(text, '\n')
    ensures k == |text| ==> ParseFile(text, parse) == if k > 0 && parse(text[..k]).Crash? then Crash else Reject
    ensures k < |text| ==>
              var v := if k == 0 then Reject else parse(text[..k]);
              ParseFile(text, parse) == if v.Reject? then ParseFile(text[k + 1..], parse) else v
  {
    hide IndexOf;
    assert text[..|text|] == text;
  }

  /** parse_proc_file: getline until a line is accepted or the file ends. */
  method ParseProcFile(text: string, parse: Parser) returns (v: Verdict)
    ensures v == ParseFile(text, parse)
  {
    hide ParseFile, IndexOf;
    var pos := 0;
    var eof := false;
    v := Reject;
    assert text[0..] == text;
    while !eof && v.Reject?
      invariant 0 <= pos <= |text|
      invariant !eof && v.Reject? ==> ParseFile(text[pos..], parse) == ParseFile(text, parse)
      invariant v.Crash? ==> ParseFile(text, parse) == Crash
      invariant v.Accept? && !eof ==> ParseFile(text, parse) == v
      invariant eof && !v.Crash? ==> ParseFile(text, parse) == Reject
      decreases !eof, |text| - pos
    {
      var rest := text[pos..];
      var k := IndexOf(rest, '\n');
      ParseStep(rest, k, parse);
      eof := k == |rest|;
      if k > 0 { v := parse(rest[..k]); }
      if !eof {
        assert text[pos + k + 1..] == rest[k + 1..];
        pos := pos + k + 1;
      } else {
        assert rest[..k] == rest;
      }
    }
    if v.Accept? && eof { v := Reject; }
  }

  /** Newline-terminated lines. */
  function Unlines(lines: seq<string>): string {
    if lines == [] then "" else lines[0] + "\n" + Unlines(lines[1..])
  }

  ghost predicate AreLines(lines: seq<string>) {
    forall i :: 0 <= i < |lines| ==> '\n' !in lines[i]
  }

  /** A line decides when it is not empty and its parser does not reject it. */
  predicate Decides(line: string, parse: Parser) {
    line != "" && !parse(line).Reject?
  }

  lemma ParseFirstLine(line: string, rest: string, parse: Parser)
    requires '\n' !in line
    ensures ParseFile(line + "\n" + rest, parse) == if Decides(line, parse) then parse(line) else ParseFile(rest, parse)
  {
    var s := line + "\n" + rest;
    IndexOfIs(s, '\n', |line|);
    assert s[..|line|] == line && s[|line| + 1..] == rest;
  }

  /** The first line that decides wins, whatever follows. */
  lemma {:induction false} FirstLineWins(lines: seq<string>, k: nat, rest: string, parse: Parser)
    requires AreLines(lines) && k < |lines| && Decides(lines[k], parse)
    requires forall i :: 0 <= i < k ==> !Decides(lines[i], parse)
    ensures ParseFile(Unlines(lines) + rest, parse) == parse(lines[k])
    decreases k
  {
    hide ParseFile, Decides;
    var tail := Unlines(lines[1..]) + rest;
    assert Unlines(lines) + rest == lines[0] + "\n" + tail;
    ParseFirstLine(lines[0], tail, parse);
    if k > 0 { FirstLineWins(lines[1..], k - 1, rest, parse); }
  }

  /** When no full line decides, what is left after the last newline can only crash the parser. */
  lemma {:induction false} NoLineWins(lines: seq<string>, rest: string, parse: Parser)
    requires AreLines(lines) && '\n' !in rest
    requires forall i :: 0 <= i < |lines| ==> !Decides(lines[i], parse)
    ensures ParseFile(Unlines(lines) + rest, parse) == if rest != "" && parse(rest).Crash? then Crash else Reject
    decreases |lines|
  {
    hide Decides;
    if lines == [] {
      assert Unlines(lines) + rest == rest;
      IndexOfIs(rest, '\n', |rest|);
    } else {
      var tail := Unlines(lines[1..]) + rest;
      assert Unlines(lines) + rest == lines[0] + "\n" + tail;
      ParseFirstLine(lines[0], tail, parse);
      NoLineWins(lines[1..], rest, parse);
    }
  }

  // ---------------------------------------------------------------------
  // find_device_cgroup_path
  // ---------------------------------------------------------------------

  const SUBSYS := "devices"

  /** find_device_cgroup_path as a value, on the texts of the two files; `prefix` is the rootfs in standalone mode. */
  function FoundPath(prefix: string, mountinfo: string, cgroup: string): Option<string> {
    match ParseFile(mountinfo, line => MountVerdict(line, SUBSYS))
    case Crash => None
    case Reject => None
    case Accept(mount, root) =>
      match ParseFile(cgroup, line => CgroupVerdict(line, root, SUBSYS))
      case Accept(path, _) => Some(prefix + mount + path)
      case _ => None
  }

  /** find_device_cgroup_path */
  method FindDeviceCgroupPath(prefix: string, mountinfo: string, cgroup: string) returns (r: Option<string>, crashed: bool)
    ensures crashed == ParseFile(mountinfo, line => MountVerdict(line, SUBSYS)).Crash?
    ensures r == FoundPath(prefix, mountinfo, cgroup)
  {
    hide ParseFile, MountVerdict, CgroupVerdict;
    var m := ParseProcFile(mountinfo, line => MountVerdict(line, SUBSYS));
    if !m.Accept? {
      return None, m.Crash?;
    }
    var root := m.prefix;
    var c := ParseProcFile(cgroup, line => CgroupVerdict(line, root, SUBSYS));
    return if c.Accept? then Some(prefix + m.value + c.value) else None, false;
  }

  function PrintMounts(ms: seq<MountLine>): (lines: seq<string>)
    ensures |lines| == |ms| && forall i :: 0 <= i < |ms| ==> lines[i] == PrintMount(ms[i])
  {
    seq(|ms|, i requires 0 <= i < |ms| => PrintMount(ms[i]))
  }

  function PrintCgroups(cs: seq<CgroupLine>): (lines: seq<string>)
    ensures |lines| == |cs| && forall i :: 0 <= i < |cs| ==> lines[i] == PrintCgroup(cs[i])
  {
    seq(|cs|, i requires 0 <= i < |cs| => PrintCgroup(cs[i]))
  }

  predicate Usable(m: MountLine) { GoodMount(m.root, m.mount, m.fstype, m.options, SUBSYS) }

  predicate Listed(c: CgroupLine) { GoodCgroup(c.controllers, c.path, SUBSYS) }

  lemma MountDecides(m: MountLine)
    requires ValidMount(m)
    ensures Decides(PrintMount(m), line => MountVerdict(line, SUBSYS)) <==> Usable(m)
  {
    hide GoodMount, MountVerdict;
    MountRoundTrip(m, SUBSYS);
  }

  lemma CgroupDecides(c: CgroupLine, prefix: string)
    requires ValidCgroup(c)
    ensures Decides(PrintCgroup(c), line => CgroupVerdict(line, prefix, SUBSYS)) <==> Listed(c)
  {
    hide GoodCgroup, CgroupVerdict;
    CgroupRoundTrip(c, prefix, SUBSYS);
  }

  /** The mount table as printed by the kernel: the first usable cgroup mount is found. */
  lemma FirstUsableMount(ms: seq<MountLine>, k: nat)
    requires forall i :: 0 <= i < |ms| ==> ValidMount(ms[i])
    requires AreLines(PrintMounts(ms))
    requires k < |ms| && Usable(ms[k]) && forall i :: 0 <= i < k ==> !Usable(ms[i])
    ensures ParseFile(Unlines(PrintMounts(ms)), line => MountVerdict(line, SUBSYS)) == Accept(ms[k].mount, ms[k].root)
  {
    hide ParseFile, Unlines, MountVerdict, PrintMount, GoodMount, Decides, AreLines;
    var lines, parse := PrintMounts(ms), line => MountVerdict(line, SUBSYS);
    forall i | 0 <= i < |ms|
      ensures Decides(lines[i], parse) <==> Usable(ms[i])
    {
      MountDecides(ms[i]);
    }
    FirstLineWins(lines, k, "", parse);
    assert Unlines(lines) + "" == Unlines(lines);
    MountRoundTrip(ms[k], SUBSYS);
  }

  /** The cgroup list as printed by the kernel: the first listed controller's path, less the mount's root. */
  lemma FirstListedCgroup(cs: seq<CgroupLine>, j: nat, prefix: string)
    requires forall i :: 0 <= i < |cs| ==> ValidCgroup(cs[i])
    requires AreLines(PrintCgroups(cs))
    requires j < |cs| && Listed(cs[j]) && forall i :: 0 <= i < j ==> !Listed(cs[i])
    ensures ParseFile(Unlines(PrintCgroups(cs)), line => CgroupVerdict(line, prefix, SUBSYS))
            == Accept(Stripped(prefix, cs[j].path), prefix)
  {
    hide ParseFile, Unlines, CgroupVerdict, PrintCgroup, GoodCgroup, Decides, AreLines, Stripped;
    var lines, parse := PrintCgroups(cs), line => CgroupVerdict(line, prefix, SUBSYS);
    forall i | 0 <= i < |cs|
      ensures Decides(lines[i], parse) <==> Listed(cs[i])
    {
      CgroupDecides(cs[i], prefix);
    }
    FirstLineWins(lines, j, "", parse);
    assert Unlines(lines) + "" == Unlines(lines);
    CgroupRoundTrip(cs[j], prefix, SUBSYS);
  }

  /** On the files as the kernel prints them: prefix, mount point, and the path of the first listed group less the mount's root. */
  lemma FoundOnPrintedFiles(prefix: string, ms: seq<MountLine>, k: nat, cs: seq<CgroupLine>, j: nat)
    requires forall i :: 0 <= i < |ms| ==> ValidMount(ms[i])
    requires forall i :: 0 <= i < |cs| ==> ValidCgroup(cs[i])
    requires AreLines(PrintMounts(ms)) && AreLines(PrintCgroups(cs))
    requires k < |ms| && Usable(ms[k]) && forall i :: 0 <= i < k ==> !Usable(ms[i])
    requires j < |cs| && Listed(cs[j]) && forall i :: 0 <= i < j ==> !Listed(cs[i])
    ensures FoundPath(prefix, Unlines(PrintMounts(ms)), Unlines(PrintCgroups(cs)))
            == Some(prefix + ms[k].mount + Stripped(ms[k].root, cs[j].path))
  {
    hide ParseFile, Unlines, MountVerdict, CgroupVerdict, GoodMount, GoodCgroup, AreLines, Stripped;
    FirstUsableMount(ms, k);
    FirstListedCgroup(cs, j, ms[k].root);
  }
}
