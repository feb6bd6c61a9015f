/*
 * The Project of lib/makeconf/project.rb: the list of things to build,
 * install, distribute and test that a YAML manifest describes, the
 * configuration probes, the system headers the sources need, and the name
 * of the source archive.
 *
 * The YAML loader, `Dir.glob`, `File.exists?`, `File.directory?` and the
 * Buildable constructors are not part of this model: the manifest is given
 * as its parsed entries, the files that exist as a set, and the rest as the
 * fields of `Env`.
 */
module Projects {
  import opened Strings
  import opened Platform
  import opened Targets
  import Manuals
  import HeaderFiles
  import opened ProjectConfig

  // ---------------------------------------------------------------------
  // Manifest values
  // ---------------------------------------------------------------------

  /** A value the YAML loader returns; numbers are the text they were written as. */
  datatype YamlValue = YNil | YBool(b: bool) | YText(s: string) | YList(items: seq<YamlValue>) | YMap(entries: seq<(string, YamlValue)>)

  /** A Hash with String keys, as its entries in insertion order. */
  type YamlHash = seq<(string, YamlValue)>

  /** `h[k]`: the value of the first entry with key `k`, nil when there is none. */
  function YGet(h: YamlHash, k: string): (v: YamlValue)
    ensures v != YNil ==> exists i :: 0 <= i < |h| && h[i] == (k, v)
    decreases |h|
  {
    if h == [] then YNil
    else if h[0].0 == k then h[0].1
    else YGet(h[1..], k)
  }

  /** `inspect`, for strings without characters that need escaping. */
  function Inspect(v: YamlValue): string
  {
    match v
    case YNil => "nil"
    case YBool(b) => if b then "true" else "false"
    case YText(s) => "\"" + s + "\""
    case YList(items) => "[" + Join(seq(|items|, i requires 0 <= i < |items| => Inspect(items[i])), ", ") + "]"
    case YMap(entries) =>
      "{" + Join(seq(|entries|, i requires 0 <= i < |entries| => "\"" + entries[i].0 + "\"=>" + Inspect(entries[i].1)), ", ") + "}"
  }

  /** `to_s`: a String is itself, nil is empty, collections are inspected. */
  function ToS(v: YamlValue): string
  {
    match v
    case YNil => ""
    case YBool(b) => if b then "true" else "false"
    case YText(s) => s
    case _ => Inspect(v)
  }

  // ---------------------------------------------------------------------
  // Errors
  // ---------------------------------------------------------------------

  const InvalidArgument := "ArgumentError: Invalid argument"
  const InvalidDataType := "ArgumentError: Invalid data type"
  /** `throw ArgumentError` of `check_decl` and `check_func`. */
  const BadProbeArgument := "ArgumentError"
  const Fixme := "FIXME"
  /** `id += ext` or `@id + '-'` on an id that is not a String. */
  const IdNotString := "TypeError: the id is not a String"
  /** `each` on a manifest value that is neither a list nor a mapping. */
  const NotEnumerable := "NoMethodError: undefined method `each'"
  /** `gsub` on a manual page path that is not a String. */
  const PathNotString := "NoMethodError: undefined method `gsub'"

  function Unrecognized(key: string, val: YamlValue): string
  {
    "Unrecognized entry in manifest -- " + key + ": " + ToS(val)
  }

  // ---------------------------------------------------------------------
  // Buildables as the project sees them
  // ---------------------------------------------------------------------

  datatype UnitKind = BinaryKind | SharedLibraryKind | StaticLibraryKind | OtherKind

  /**
   * What the project reads and writes of an object passed to `build` or
   * `test`: whether it is a Buildable and has a `build` method, its class,
   * output, flags, and the system headers each source depends on.
   */
  datatype Unit = Unit(
    kind: UnitKind,
    isBuildable: bool,
    respondsToBuild: bool,
    output: YamlValue,
    cflags: seq<string>,
    installable: bool,
    distributable: bool,
    rpath: YamlValue,
    sysdep: map<string, seq<string>>)

  /**
   * The surroundings of the manifest: the host, `Kind.new(id).parse(e)`,
   * `Dir.glob`, and whether `./include` is a directory.
   */
  datatype Env = Env(
    host: Host,
    make: (UnitKind, YamlValue, YamlValue) -> Unit,
    glob: YamlValue -> seq<string>,
    includeDir: bool)

  // ---------------------------------------------------------------------
  // Install records
  // ---------------------------------------------------------------------

  const LibDir := "$(LIBDIR)"
  const BinDir := "$(BINDIR)"

  /** `{ :sources => ..., :dest => ..., :mode => ... }` */
  function Record(sources: YamlValue, dest: YamlValue, mode: string): YamlHash
  {
    [("sources", sources), ("dest", dest), ("mode", YText(mode))]
  }

  /** `v.nil? ? d : v` */
  function OrDefault(v: YamlValue, d: string): (r: YamlValue)
    ensures r == YText(d) <==> v == YNil || v == YText(d)
  {
    if v.YNil? then YText(d) else v
  }

  /** Where `build` installs a unit: libraries to `$(LIBDIR)`, anything else to `$(BINDIR)`. */
  function BuildDest(u: Unit): string
  {
    if u.kind == SharedLibraryKind || u.kind == StaticLibraryKind then LibDir else BinDir
  }

  function BuildRecord(u: Unit): YamlHash
  {
    Record(u.output, YText(BuildDest(u)), "0755")
  }

  function BuildRecords(us: seq<Unit>): (r: seq<YamlHash>)
    ensures |r| == |us|
  {
    seq(|us|, i requires 0 <= i < |us| => BuildRecord(us[i]))
  }

  /** The record `header(path, opt)` pushes. */
  function HeaderRecord(path: YamlValue, opt: YamlHash): YamlHash
  {
    Record(path, OrDefault(YGet(opt, "dest"), HeaderFiles.IncludeDir), "0644")
  }

  /** The record `manpage(path, opt)` pushes. */
  function ManpageRecord(path: string, opt: YamlHash): YamlHash
  {
    Record(YText(path), OrDefault(YGet(opt, "dest"), Manuals.ManDest(GsubSection(path))), "0644")
  }

  /** The record `script(id, opt)` pushes; the id is not used. */
  function ScriptRecord(opt: YamlHash): YamlHash
  {
    [("sources", YGet(opt, "sources")), ("dest", OrDefault(YGet(opt, "dest"), BinDir)),
     ("rename", YGet(opt, "rename")), ("mode", YText("0755"))]
  }

  /**
   * Every record `build` pushes has the unit's output as sources, mode
   * `0755`, and dest `$(LIBDIR)` exactly for shared and static libraries,
   * `$(BINDIR)` otherwise.
   */
  lemma BuildRecordSpec(u: Unit)
    ensures var rec := BuildRecord(u);
            && YGet(rec, "sources") == u.output
            && YGet(rec, "mode") == YText("0755")
            && (YGet(rec, "dest") == YText(LibDir) <==> u.kind in {SharedLibraryKind, StaticLibraryKind})
            && (YGet(rec, "dest") == YText(BinDir) <==> u.kind !in {SharedLibraryKind, StaticLibraryKind})
  {
    RecordGet(u.output, YText(BuildDest(u)), "0755");
  }

  /** The three fields of a record read back. */
  lemma RecordGet(sources: YamlValue, dest: YamlValue, mode: string)
    ensures YGet(Record(sources, dest, mode), "sources") == sources
    ensures YGet(Record(sources, dest, mode), "dest") == dest
    ensures YGet(Record(sources, dest, mode), "mode") == YText(mode)
  {
    var rec := Record(sources, dest, mode);
    assert "dest" != "sources" by { assert "dest"[0] != "sources"[0]; }
    assert "mode" != "sources" by { assert "mode"[0] != "sources"[0]; }
    assert "mode" != "dest" by { assert "mode"[0] != "dest"[0]; }
    assert rec[1..] == [("dest", dest), ("mode", YText(mode))];
    assert rec[1..][1..] == [("mode", YText(mode))];
    assert YGet(rec, "mode") == YGet(rec[1..], "mode") == YGet(rec[1..][1..], "mode");
  }

  /**
   * Headers go to `$(INCLUDEDIR)` and manual pages to
   * `$(MANDIR)/man<section>` unless the options name a dest; both have mode
   * `0644`; a script goes to `$(BINDIR)` with mode `0755` unless told otherwise.
   */
  lemma RecordDefaults(path: string, opt: YamlHash)
    requires YGet(opt, "dest") == YNil
    ensures YGet(HeaderRecord(YText(path), opt), "dest") == YText(HeaderFiles.IncludeDir)
    ensures YGet(HeaderRecord(YText(path), opt), "mode") == YText("0644")
    ensures YGet(ManpageRecord(path, opt), "dest") == YText("$(MANDIR)/man" + GsubSection(path))
    ensures YGet(ManpageRecord(path, opt), "mode") == YText("0644")
    ensures YGet(ScriptRecord(opt), "dest") == YText(BinDir)
    ensures YGet(ScriptRecord(opt), "mode") == YText("0755")
  {
    RecordGet(YText(path), YText(HeaderFiles.IncludeDir), "0644");
    RecordGet(YText(path), YText("$(MANDIR)/man" + GsubSection(path)), "0644");
    var sr := ScriptRecord(opt);
    assert "dest" != "sources" by { assert "dest"[0] != "sources"[0]; }
    assert "mode" != "sources" by { assert "mode"[0] != "sources"[0]; }
    assert "mode" != "dest" by { assert "mode"[0] != "dest"[0]; }
    assert "mode" != "rename" by { assert "mode"[0] != "rename"[0]; }
    assert sr[1..][1..][1..] == [("mode", YText("0755"))];
    assert YGet(sr, "mode") == YGet(sr[1..], "mode") == YGet(sr[1..][1..], "mode") == YGet(sr[1..][1..][1..], "mode");
  }

  /** A dest given in the options is used as it is. */
  lemma RecordGivenDest(path: string, opt: YamlHash)
    requires YGet(opt, "dest") != YNil
    ensures YGet(HeaderRecord(YText(path), opt), "dest") == YGet(opt, "dest")
    ensures YGet(ManpageRecord(path, opt), "dest") == YGet(opt, "dest")
    ensures YGet(ScriptRecord(opt), "dest") == YGet(opt, "dest")
  {
    RecordGet(YText(path), YGet(opt, "dest"), "0644");
    assert "dest" != "sources" by { assert "dest"[0] != "sources"[0]; }
  }

  // ---------------------------------------------------------------------
  // The manual section: `path.gsub(/.*\./, '')`
  // ---------------------------------------------------------------------

  /** `gsub` from line start `p` on: every line loses everything up to and including its last `.`. */
  function GsubFrom(s: string, p: nat): string
    requires p <= |s|
    decreases |s| - p
  {
    var e := Manuals.LineEnd(s, p);
    var line := GsubLine(s, p);
    if e == |s| then line else line + "\n" + GsubFrom(s, e + 1)
  }

  /** The line starting at `p` after `gsub`: what follows its last `.`, or all of it. */
  function GsubLine(s: string, p: nat): string
    requires p <= |s|
  {
    var e := Manuals.LineEnd(s, p);
    match Manuals.LastDot(s, p, e)
    case Some(q) => s[q + 1..e]
    case None => s[p..e]
  }

  lemma GsubLineWithoutDot(s: string, p: nat)
    requires p <= |s|
    ensures '.' !in GsubLine(s, p)
  {
    var e := Manuals.LineEnd(s, p);
    var line := GsubLine(s, p);
    var start := match Manuals.LastDot(s, p, e) case Some(q) => q + 1 case None => p;
    assert line == s[start..e];
    forall i | 0 <= i < |line| ensures line[i] != '.' {
      assert line[i] == s[start + i];
    }
  }

  function GsubSection(path: string): string
  {
    GsubFrom(path, 0)
  }

  /** What is left of a line holds no `.`. */
  lemma {:induction false} GsubFromWithoutDot(s: string, p: nat)
    requires p <= |s|
    ensures '.' !in GsubFrom(s, p)
    decreases |s| - p
  {
    var e := Manuals.LineEnd(s, p);
    GsubLineWithoutDot(s, p);
    if e < |s| {
      assert GsubFrom(s, p) == GsubLine(s, p) + "\n" + GsubFrom(s, e + 1);
      GsubFromWithoutDot(s, e + 1);
      NoDotJoined(GsubLine(s, p), GsubFrom(s, e + 1));
    }
  }

  lemma NoDotJoined(a: string, b: string)
    requires '.' !in a && '.' !in b
    ensures '.' !in a + "\n" + b
  {
  }

  /**
   * The section never holds a `.`; for a one-line name it is the section
   * the Manual class computes: the text after the last `.`, or the whole
   * name when it has none.
   */
  lemma GsubSectionSpec(path: string)
    ensures '.' !in GsubSection(path)
    ensures '\n' !in path ==> GsubSection(path) == Manuals.Section(path)
  {
    GsubFromWithoutDot(path, 0);
    if '\n' !in path {
      Manuals.NoBreakLineEnd(path, 0);
      assert path[0..|path|] == path;
      assert path[..0] + path == path;
    }
  }

  // ---------------------------------------------------------------------
  // build and test
  // ---------------------------------------------------------------------

  /** The length of the longest prefix whose flags all hold. */
  function Leading(flags: seq<bool>): (n: nat)
    ensures n <= |flags|
    ensures forall i :: 0 <= i < n ==> flags[i]
    ensures n < |flags| ==> !flags[n]
    decreases |flags|
  {
    if flags == [] || !flags[0] then 0 else 1 + Leading(flags[1..])
  }

  /** A prefix of holding flags that ends at a failing flag or at the end is the leading one. */
  lemma LeadingIs(flags: seq<bool>, i: nat)
    requires i <= |flags|
    requires forall j :: 0 <= j < i ==> flags[j]
    requires i < |flags| ==> !flags[i]
    ensures Leading(flags) == i
  {
  }

  function BuildableFlags(us: seq<Unit>): (r: seq<bool>)
    ensures |r| == |us|
  {
    seq(|us|, i requires 0 <= i < |us| => us[i].isBuildable)
  }

  function TestableFlags(us: seq<Unit>): (r: seq<bool>)
    ensures |r| == |us|
  {
    seq(|us|, i requires 0 <= i < |us| => us[i].respondsToBuild)
  }

  lemma BuildableAt(args: seq<Unit>, i: nat)
    requires i <= |args|
    requires forall j :: 0 <= j < i ==> args[j].isBuildable
    requires i < |args| ==> !args[i].isBuildable
    ensures Leading(BuildableFlags(args)) == i
  {
    LeadingIs(BuildableFlags(args), i);
  }

  lemma TestableAt(args: seq<Unit>, i: nat)
    requires i <= |args|
    requires forall j :: 0 <= j < i ==> args[j].respondsToBuild
    requires i < |args| ==> !args[i].respondsToBuild
    ensures Leading(TestableFlags(args)) == i
  {
    LeadingIs(TestableFlags(args), i);
  }

  /** The compiler flags `test` adds. */
  function TestFlags(h: Host, includeDir: bool): seq<string>
  {
    (if IsWindows(h) then [] else ["-g", "-O0"]) + ["-I."] + (if includeDir then ["-I./include"] else [])
  }

  /** A unit as `test` leaves it. */
  function AsTest(u: Unit, h: Host, includeDir: bool): Unit
  {
    u.(installable := false, distributable := false, cflags := u.cflags + TestFlags(h, includeDir), rpath := YText("$$PWD"))
  }

  function AsTests(us: seq<Unit>, h: Host, includeDir: bool): (r: seq<Unit>)
    ensures |r| == |us|
  {
    seq(|us|, i requires 0 <= i < |us| => AsTest(us[i], h, includeDir))
  }

  /** The tests of one more argument. */
  lemma AsTestsSnoc(args: seq<Unit>, i: nat, h: Host, includeDir: bool)
    requires i < |args|
    ensures AsTests(args[..i + 1], h, includeDir) == AsTests(args[..i], h, includeDir) + [AsTest(args[i], h, includeDir)]
  {
    assert args[..i + 1] == args[..i] + [args[i]];
  }

  /**
   * A test is neither installed nor distributed, runs with the rpath
   * `$$PWD`, and keeps its flags followed by `-g -O0` (except on Windows),
   * `-I.`, and `-I./include` exactly when that directory exists.
   */
  lemma AsTestSpec(u: Unit, h: Host, includeDir: bool)
    ensures var t := AsTest(u, h, includeDir);
            && !t.installable && !t.distributable && t.rpath == YText("$$PWD")
            && t.kind == u.kind && t.output == u.output && t.sysdep == u.sysdep
            && t.cflags[..|u.cflags|] == u.cflags
            && ("-g" in t.cflags[|u.cflags|..] <==> !IsWindows(h))
            && ("-O0" in t.cflags[|u.cflags|..] <==> !IsWindows(h))
            && "-I." in t.cflags[|u.cflags|..]
            && ("-I./include" in t.cflags[|u.cflags|..] <==> includeDir)
  {
    var t := AsTest(u, h, includeDir);
    assert t.cflags[..|u.cflags|] == u.cflags;
    assert t.cflags[|u.cflags|..] == TestFlags(h, includeDir);
  }

  // ---------------------------------------------------------------------
  // The project state
  // ---------------------------------------------------------------------

  datatype ProjectState = ProjectState(
    id: YamlValue,
    version: string,
    licenseFile: YamlValue,
    header: map<string, bool>,
    build: seq<Unit>,
    distribute: seq<seq<string>>,
    install: seq<YamlHash>,
    target: seq<TargetState>,
    test: seq<Unit>,
    decls: map<string, bool>,
    funcs: map<string, bool>)

  /** A new project, before the manifest is read. */
  function Started(licenseFile: YamlValue): ProjectState
  {
    ProjectState(YText("myproject"), "0.1", licenseFile, map[], [], [], [], [], [], map[], map[])
  }

  /** The license file: the manifest's `license_file`, else `COPYING` or `LICENSE`, whichever exists first. */
  function LicenseFile(manifest: YamlHash, existing: set<string>): YamlValue
  {
    var given := YGet(manifest, "license_file");
    if !given.YNil? then given
    else if "COPYING" in existing then YText("COPYING")
    else if "LICENSE" in existing then YText("LICENSE")
    else YNil
  }

  /**
   * `build(*args)`: the state after it and whether it finished; it stops
   * at the first argument that is not a Buildable, after the ones before
   * it were added with their install records.
   */
  function Built(ps: ProjectState, args: seq<Unit>): (ProjectState, bool)
  {
    var n := Leading(BuildableFlags(args));
    (ps.(build := ps.build + args[..n], install := ps.install + BuildRecords(args[..n])), n == |args|)
  }

  /** `test(*args)`: like `build`, stopping at the first argument without a `build` method. */
  function Tested(ps: ProjectState, args: seq<Unit>, h: Host, includeDir: bool): (ProjectState, bool)
  {
    var n := Leading(TestableFlags(args));
    var ts := AsTests(args[..n], h, includeDir);
    (ps.(build := ps.build + ts, test := ps.test + ts), n == |args|)
  }

  /**
   * `build` succeeds exactly when every argument is a Buildable; it then
   * adds them all, in order, with one record each, and changes nothing else.
   */
  lemma BuiltSpec(ps: ProjectState, args: seq<Unit>)
    ensures var (s, ok) := Built(ps, args);
            && (ok <==> forall i :: 0 <= i < |args| ==> args[i].isBuildable)
            && (ok ==> s.build == ps.build + args && s.install == ps.install + BuildRecords(args))
            && s.build[..|ps.build|] == ps.build && s.install[..|ps.install|] == ps.install
            && |s.build| - |ps.build| == |s.install| - |ps.install|
            && s.(build := ps.build, install := ps.install) == ps
  {
    var n := Leading(BuildableFlags(args));
    if n < |args| {
      assert !BuildableFlags(args)[n];
    } else {
      assert args[..n] == args;
      forall i | 0 <= i < |args| ensures args[i].isBuildable {
        assert BuildableFlags(args)[i];
      }
    }
    var s := Built(ps, args).0;
    assert s.build[..|ps.build|] == ps.build;
    assert s.install[..|ps.install|] == ps.install;
  }

  /** `test` succeeds exactly when every argument has a `build` method, and adds the same tests to the build and test lists. */
  lemma TestedSpec(ps: ProjectState, args: seq<Unit>, h: Host, includeDir: bool)
    ensures var (s, ok) := Tested(ps, args, h, includeDir);
            && (ok <==> forall i :: 0 <= i < |args| ==> args[i].respondsToBuild)
            && (ok ==> s.build == ps.build + AsTests(args, h, includeDir) && s.test == ps.test + AsTests(args, h, includeDir))
            && s.build[|ps.build|..] == s.test[|ps.test|..]
            && s.(build := ps.build, test := ps.test) == ps
  {
    var n := Leading(TestableFlags(args));
    if n < |args| {
      assert !TestableFlags(args)[n];
    } else {
      assert args[..n] == args;
      forall i | 0 <= i < |args| ensures args[i].respondsToBuild {
        assert TestableFlags(args)[i];
      }
    }
    var s := Tested(ps, args, h, includeDir).0;
    var ts := AsTests(args[..n], h, includeDir);
    assert s.build[|ps.build|..] == ts;
    assert s.test[|ps.test|..] == ts;
  }

  // ---------------------------------------------------------------------
  // The manifest
  // ---------------------------------------------------------------------

  /** What `val.each do |id, e|` yields: a mapping's entries, or a list's elements taken apart. */
  function Pairs(v: YamlValue): Result<seq<(YamlValue, YamlValue)>>
  {
    match v
    case YMap(es) => Ok(seq(|es|, i requires 0 <= i < |es| => (YText(es[i].0), es[i].1)))
    case YList(xs) => Ok(seq(|xs|, i requires 0 <= i < |xs| => Destructured(xs[i])))
    case _ => Err(NotEnumerable)
  }

  /** `|id, e|` bound to one element: a list gives its first two elements, anything else is the id alone. */
  function Destructured(x: YamlValue): (YamlValue, YamlValue)
  {
    if x.YList? then
      (if |x.items| > 0 then x.items[0] else YNil, if |x.items| > 1 then x.items[1] else YNil)
    else (x, YNil)
  }

  /** The binaries of a `binary` entry: each id with the executable extension. */
  function BinaryUnits(pairs: seq<(YamlValue, YamlValue)>, env: Env): (r: Result<seq<Unit>>)
    ensures r.Ok? ==> |r.value| == |pairs|
    decreases |pairs|
  {
    if pairs == [] then Ok([])
    else if !pairs[0].0.YText? then Err(IdNotString)
    else match BinaryUnits(pairs[1..], env)
      case Err(e) => Err(e)
      case Ok(rest) => Ok([BinaryOf(pairs[0], env)] + rest)
  }

  /** `Binary.new(id + ext).parse(e)` */
  function BinaryOf(p: (YamlValue, YamlValue), env: Env): Unit
    requires p.0.YText?
  {
    env.make(BinaryKind, YText(p.0.s + ExecutableExtension(env.host)), p.1)
  }

  /** An id that is not a String makes the entry raise. */
  lemma {:induction false} BinaryUnitsFail(pairs: seq<(YamlValue, YamlValue)>, env: Env, i: nat)
    requires i < |pairs| && !pairs[i].0.YText?
    ensures BinaryUnits(pairs, env) == Err(IdNotString)
    decreases i
  {
    if i > 0 && pairs[0].0.YText? {
      assert pairs[1..][i - 1] == pairs[i];
      BinaryUnitsFail(pairs[1..], env, i - 1);
    }
  }

  /** The libraries of a `library` entry: a shared and a static library per id. */
  function LibraryUnits(pairs: seq<(YamlValue, YamlValue)>, env: Env): (r: seq<Unit>)
    ensures |r| == 2 * |pairs|
    decreases |pairs|
  {
    if pairs == [] then []
    else [env.make(SharedLibraryKind, pairs[0].0, pairs[0].1), env.make(StaticLibraryKind, pairs[0].0, pairs[0].1)]
         + LibraryUnits(pairs[1..], env)
  }

  /** The tests of a `tests` entry. */
  function TestUnits(pairs: seq<(YamlValue, YamlValue)>, env: Env): (r: seq<Unit>)
    ensures |r| == |pairs|
  {
    seq(|pairs|, i requires 0 <= i < |pairs| => env.make(BinaryKind, pairs[i].0, pairs[i].1))
  }

  /** The keys the manifest may hold without raising "Unrecognized entry". */
  const KnownKeys: set<string> := {"project", "version", "binary", "binaries", "library", "libraries", "tests",
                                   "manpage", "header", "extra_dist", "targets", "script", "check_decl", "check_func"}

  /** One manifest entry applied to the project. */
  function Step(ps: ProjectState, key: string, val: YamlValue, env: Env): Result<ProjectState>
  {
    if key == "project" then Ok(ps.(id := val))
    else if key == "version" then Ok(ps.(version := ToS(val)))
    else if key == "binary" || key == "binaries" then
      match Pairs(val)
      case Err(e) => Err(e)
      case Ok(pairs) =>
        match BinaryUnits(pairs, env)
        case Err(e) => Err(e)
        case Ok(us) => Ok(ps.(build := ps.build + us))
    else if key == "library" || key == "libraries" then
      match Pairs(val)
      case Err(e) => Err(e)
      case Ok(pairs) =>
        var (s, ok) := Built(ps, LibraryUnits(pairs, env));
        if ok then Ok(s) else Err(InvalidArgument)
    else if key == "tests" then
      match Pairs(val)
      case Err(e) => Err(e)
      case Ok(pairs) =>
        var (s, ok) := Tested(ps, TestUnits(pairs, env), env.host, env.includeDir);
        if ok then Ok(s) else Err(InvalidArgument)
    else if key == "manpage" then
      if val.YText? then Ok(ps.(install := ps.install + [ManpageRecord(val.s, [])])) else Err(PathNotString)
    else if key == "header" then Ok(ps.(install := ps.install + [HeaderRecord(val, [])]))
    else if key == "extra_dist" then Ok(ps.(distribute := ps.distribute + [env.glob(val)]))
    else if key == "targets" then Err(InvalidDataType)
    else if key == "script" || key == "check_decl" || key == "check_func" then Err(Fixme)
    else Err(Unrecognized(key, val))
  }

  /** The manifest entries applied in order; the first that raises ends the construction. */
  function Loaded(ps: ProjectState, entries: YamlHash, env: Env): Result<ProjectState>
    decreases |entries|
  {
    if entries == [] then Ok(ps)
    else match Step(ps, entries[0].0, entries[0].1, env)
      case Err(e) => Err(e)
      case Ok(next) => Loaded(next, entries[1..], env)
  }

  /** A `library` entry is one `build` of a shared and a static library per id. */
  lemma StepLibrary(ps: ProjectState, val: YamlValue, env: Env)
    requires Pairs(val).Ok?
    ensures Step(ps, "library", val, env)
         == (var (s, ok) := Built(ps, LibraryUnits(Pairs(val).value, env)); if ok then Ok(s) else Err(InvalidArgument))
  {
    assert "library" != "project" by { assert "library"[0] != "project"[0]; }
    assert "library" != "version" by { assert "library"[0] != "version"[0]; }
    assert "library" != "binary" by { assert "library"[0] != "binary"[0]; }
    assert "library" != "binaries" by { assert "library"[0] != "binaries"[0]; }
  }

  /** The install records of the libraries all go to `$(LIBDIR)`. */
  lemma LibraryRecords(us: seq<Unit>)
    requires forall i :: 0 <= i < |us| ==> us[i].kind in {SharedLibraryKind, StaticLibraryKind}
    ensures forall i :: 0 <= i < |us| ==> YGet(BuildRecords(us)[i], "dest") == YText(LibDir)
  {
    forall i | 0 <= i < |us| ensures YGet(BuildRecords(us)[i], "dest") == YText(LibDir) {
      BuildRecordSpec(us[i]);
    }
  }

  /**
   * Each id of a `library` entry yields a shared library then a static
   * library, both installed to `$(LIBDIR)`, when the constructors make
   * Buildables of those classes.
   */
  lemma LibraryEntry(ps: ProjectState, entries: seq<(string, YamlValue)>, env: Env)
    requires forall k: UnitKind, id: YamlValue, e: YamlValue :: env.make(k, id, e).isBuildable && env.make(k, id, e).kind == k
    ensures var r := Step(ps, "library", YMap(entries), env);
            && r.Ok?
            && r.value.build == ps.build + LibraryUnits(Pairs(YMap(entries)).value, env)
            && |r.value.build| == |ps.build| + 2 * |entries|
            && (forall i :: 0 <= i < |entries| ==>
                  && r.value.build[|ps.build| + 2 * i] == env.make(SharedLibraryKind, YText(entries[i].0), entries[i].1)
                  && r.value.build[|ps.build| + 2 * i + 1] == env.make(StaticLibraryKind, YText(entries[i].0), entries[i].1))
            && |r.value.install| == |ps.install| + 2 * |entries|
            && (forall j :: |ps.install| <= j < |r.value.install| ==> YGet(r.value.install[j], "dest") == YText(LibDir))
  {
    var pairs := Pairs(YMap(entries)).value;
    var us := LibraryUnits(pairs, env);
    LibraryUnitsMade(pairs, env);
    StepLibrary(ps, YMap(entries), env);
    BuiltSpec(ps, us);
    var s := Built(ps, us).0;
    LibraryInstallDests(ps.install, us, s.install);
    LibraryBuildAt(ps.build, entries, env, s.build);
  }

  /** Every unit of a library entry is a shared or static library Buildable. */
  lemma LibraryUnitsMade(pairs: seq<(YamlValue, YamlValue)>, env: Env)
    requires forall k: UnitKind, id: YamlValue, e: YamlValue :: env.make(k, id, e).isBuildable && env.make(k, id, e).kind == k
    ensures forall i :: 0 <= i < |LibraryUnits(pairs, env)| ==>
              LibraryUnits(pairs, env)[i].isBuildable && LibraryUnits(pairs, env)[i].kind in {SharedLibraryKind, StaticLibraryKind}
  {
    var us := LibraryUnits(pairs, env);
    LibraryUnitsAt(pairs, env);
    forall i | 0 <= i < |us| ensures us[i].isBuildable && us[i].kind in {SharedLibraryKind, StaticLibraryKind} {
      var p := pairs[i / 2];
      assert us[i] == env.make(SharedLibraryKind, p.0, p.1) || us[i] == env.make(StaticLibraryKind, p.0, p.1);
    }
  }

  /** The install records a library entry adds all go to `$(LIBDIR)`. */
  lemma LibraryInstallDests(before: seq<YamlHash>, us: seq<Unit>, after: seq<YamlHash>)
    requires forall i :: 0 <= i < |us| ==> us[i].kind in {SharedLibraryKind, StaticLibraryKind}
    requires after == before + BuildRecords(us)
    ensures forall j :: |before| <= j < |after| ==> YGet(after[j], "dest") == YText(LibDir)
  {
    LibraryRecords(us);
    forall j | |before| <= j < |after| ensures YGet(after[j], "dest") == YText(LibDir) {
      assert after[j] == BuildRecords(us)[j - |before|];
    }
  }

  /** A library entry adds a shared then a static library per id, in order. */
  lemma LibraryBuildAt(before: seq<Unit>, entries: seq<(string, YamlValue)>, env: Env, after: seq<Unit>)
    requires after == before + LibraryUnits(Pairs(YMap(entries)).value, env)
    ensures |after| == |before| + 2 * |entries|
    ensures forall i :: 0 <= i < |entries| ==>
              && after[|before| + 2 * i] == env.make(SharedLibraryKind, YText(entries[i].0), entries[i].1)
              && after[|before| + 2 * i + 1] == env.make(StaticLibraryKind, YText(entries[i].0), entries[i].1)
  {
    var pairs := Pairs(YMap(entries)).value;
    LibraryUnitsAt(pairs, env);
    forall i | 0 <= i < |entries|
      ensures after[|before| + 2 * i] == env.make(SharedLibraryKind, YText(entries[i].0), entries[i].1)
      ensures after[|before| + 2 * i + 1] == env.make(StaticLibraryKind, YText(entries[i].0), entries[i].1)
    {
      assert pairs[i] == (YText(entries[i].0), entries[i].1);
    }
  }

  /** The units of a library entry, position by position. */
  lemma {:induction false} LibraryUnitsAt(pairs: seq<(YamlValue, YamlValue)>, env: Env)
    ensures forall i :: 0 <= i < |pairs| ==>
              && LibraryUnits(pairs, env)[2 * i] == env.make(SharedLibraryKind, pairs[i].0, pairs[i].1)
              && LibraryUnits(pairs, env)[2 * i + 1] == env.make(StaticLibraryKind, pairs[i].0, pairs[i].1)
    decreases |pairs|
  {
    if pairs != [] {
      LibraryUnitsAt(pairs[1..], env);
      forall i | 1 <= i < |pairs|
        ensures LibraryUnits(pairs, env)[2 * i] == env.make(SharedLibraryKind, pairs[i].0, pairs[i].1)
        ensures LibraryUnits(pairs, env)[2 * i + 1] == env.make(StaticLibraryKind, pairs[i].0, pairs[i].1)
      {
        assert pairs[1..][i - 1] == pairs[i];
      }
    }
  }

  /**
   * Each id of a `binary` entry is made with the executable extension
   * appended, and the binaries are added as built, without install record.
   */
  lemma {:induction false} BinaryEntry(ps: ProjectState, entries: seq<(string, YamlValue)>, env: Env)
    ensures var r := Step(ps, "binary", YMap(entries), env);
            && r.Ok?
            && r.value.install == ps.install
            && |r.value.build| == |ps.build| + |entries|
            && r.value.build[..|ps.build|] == ps.build
            && forall i :: 0 <= i < |entries| ==>
                 r.value.build[|ps.build| + i] == env.make(BinaryKind, YText(entries[i].0 + ExecutableExtension(env.host)), entries[i].1)
  {
    var pairs := Pairs(YMap(entries)).value;
    BinaryUnitsAt(pairs, env);
    forall i | 0 <= i < |entries| ensures pairs[i] == (YText(entries[i].0), entries[i].1) {
    }
    var us := BinaryUnits(pairs, env).value;
    assert (ps.build + us)[..|ps.build|] == ps.build;
  }

  /** The binaries of an entry whose ids are all Strings, position by position. */
  lemma {:induction false} BinaryUnitsAt(pairs: seq<(YamlValue, YamlValue)>, env: Env)
    requires forall i :: 0 <= i < |pairs| ==> pairs[i].0.YText?
    ensures BinaryUnits(pairs, env).Ok?
    ensures BinaryUnits(pairs, env).value == seq(|pairs|, i requires 0 <= i < |pairs| && pairs[i].0.YText? => BinaryOf(pairs[i], env))
    decreases |pairs|
  {
    if pairs != [] {
      BinaryUnitsAt(pairs[1..], env);
      forall i | 1 <= i < |pairs| ensures pairs[1..][i - 1] == pairs[i] {
      }
    }
  }

  /**
   * An entry whose key the manifest does not know raises "Unrecognized
   * entry" with the key and the value; `license_file`, which the
   * constructor reads first, is one of them.
   */
  lemma UnknownKeyRaises(ps: ProjectState, key: string, val: YamlValue, env: Env)
    requires key !in KnownKeys
    ensures Step(ps, key, val, env) == Err(Unrecognized(key, val))
    ensures Step(ps, "license_file", val, env) == Err(Unrecognized("license_file", val))
  {
  }

  /**
   * A `targets` entry always raises, since a manifest value is never a
   * Target; `script`, `check_decl` and `check_func` entries raise "FIXME".
   */
  lemma UnsupportedKeysRaise(ps: ProjectState, val: YamlValue, env: Env)
    ensures Step(ps, "targets", val, env) == Err(InvalidDataType)
    ensures Step(ps, "script", val, env) == Err(Fixme)
    ensures Step(ps, "check_decl", val, env) == Err(Fixme)
    ensures Step(ps, "check_func", val, env) == Err(Fixme)
  {
  }

  /**
   * A manifest whose first failing entry is at position `i` raises that
   * entry's error: the entries after it are never looked at.
   */
  lemma {:induction false} LoadedStopsAtError(ps: ProjectState, entries: YamlHash, env: Env, i: nat)
    requires i < |entries|
    requires Loaded(ps, entries[..i], env).Ok?
    requires Step(Loaded(ps, entries[..i], env).value, entries[i].0, entries[i].1, env).Err?
    ensures Loaded(ps, entries, env) == Err(Step(Loaded(ps, entries[..i], env).value, entries[i].0, entries[i].1, env).error)
    decreases i
  {
    if i > 0 {
      assert entries[..i][1..] == entries[1..][..i - 1];
      LoadedStopsAtError(Step(ps, entries[0].0, entries[0].1, env).value, entries[1..], env, i - 1);
    }
  }

  // ---------------------------------------------------------------------
  // sysdeps and distfile
  // ---------------------------------------------------------------------

  /** Some source of the unit depends on system header `x`. */
  predicate HasSysdep(u: Unit, x: string)
  {
    exists k :: k in u.sysdep && x in u.sysdep[k]
  }

  /** Some unit of the list depends on `x`. */
  predicate AnySysdep(us: seq<Unit>, x: string)
  {
    exists i :: 0 <= i < |us| && HasSysdep(us[i], x)
  }

  /** `@id + '-' + @version + '.tar.gz'` */
  function DistfileName(id: YamlValue, version: string): (r: Result<string>)
    ensures r.Ok? <==> id.YText?
    ensures r.Err? ==> r.error == IdNotString
  {
    if id.YText? then Ok(id.s + "-" + version + ".tar.gz") else Err(IdNotString)
  }

  /**
   * The archive name starts with the id and a dash and ends with
   * `.tar.gz`, the version standing between them; different versions of a
   * project give different archives.
   */
  lemma DistfileNameSpec(id: string, version: string, other: string)
    ensures var r := DistfileName(YText(id), version).value;
            && StartsWith(r, id + "-") && EndsWith(r, ".tar.gz")
            && |r| == |id| + |version| + 8
            && r[|id| + 1..|r| - 7] == version
    ensures version != other ==> DistfileName(YText(id), version) != DistfileName(YText(id), other)
  {
    var r := DistfileName(YText(id), version).value;
    assert r[..|id| + 1] == id + "-";
    assert r[|r| - 7..] == ".tar.gz";
    assert r[|id| + 1..|r| - 7] == version;
    if version != other && |version| == |other| {
      var r' := DistfileName(YText(id), other).value;
      assert r'[|id| + 1..|r'| - 7] == other;
    }
  }

  // ---------------------------------------------------------------------
  // check_decl / check_func arguments
  // ---------------------------------------------------------------------

  /** The name argument of `check_decl` / `check_func`: a String, an Array of Strings, or anything else. */
  datatype NameArg = OneName(name: string) | NameList(names: seq<string>) | NotNames

  /** `decl = [decl] if decl.kind_of? String`, then an Array is required. */
  function NamesOf(arg: NameArg): Result<seq<string>>
  {
    match arg
    case OneName(n) => Ok([n])
    case NameList(ns) => Ok(ns)
    case NotNames => Err(BadProbeArgument)
  }

  /** `decl.each { |x| next if @decls.has_key? x; ... }`: the results and the names probed. */
  method ProbeAll(known: map<string, bool>, c: Check, names: seq<string>, builds: string -> bool)
    returns (m: map<string, bool>, log: seq<string>)
    ensures (m, log) == Probed(known, c, names, builds)
  {
    m, log := known, [];
    var i := 0;
    assert names[0..] == names;
    assert [] + Probed(known, c, names, builds).1 == Probed(known, c, names, builds).1;
    while i < |names|
      invariant i <= |names|
      invariant Probed(known, c, names, builds).0 == Probed(m, c, names[i..], builds).0
      invariant Probed(known, c, names, builds).1 == log + Probed(m, c, names[i..], builds).1
    {
      var x := names[i];
      if x in m {
        ProbeSkip(known, c, names, i, builds, m, log);
      } else {
        ProbeNew(known, c, names, i, builds, m, log);
        m := m[x := builds(Program(c, x))];
        log := log + [x];
      }
      i := i + 1;
    }
    assert names[|names|..] == [];
    assert log + [] == log;
  }

  /** A known name is skipped: the invariant of `ProbeAll`'s loop holds one position on. */
  lemma ProbeSkip(known: map<string, bool>, c: Check, names: seq<string>, i: nat, builds: string -> bool,
                  m: map<string, bool>, log: seq<string>)
    requires i < |names| && names[i] in m
    requires Probed(known, c, names, builds).0 == Probed(m, c, names[i..], builds).0
    requires Probed(known, c, names, builds).1 == log + Probed(m, c, names[i..], builds).1
    ensures Probed(known, c, names, builds).0 == Probed(m, c, names[i + 1..], builds).0
    ensures Probed(known, c, names, builds).1 == log + Probed(m, c, names[i + 1..], builds).1
  {
    ProbedAt(m, c, names, i, builds);
  }

  /** A new name is probed and logged: the invariant of `ProbeAll`'s loop holds one position on. */
  lemma ProbeNew(known: map<string, bool>, c: Check, names: seq<string>, i: nat, builds: string -> bool,
                 m: map<string, bool>, log: seq<string>)
    requires i < |names| && names[i] !in m
    requires Probed(known, c, names, builds).0 == Probed(m, c, names[i..], builds).0
    requires Probed(known, c, names, builds).1 == log + Probed(m, c, names[i..], builds).1
    ensures var m' := m[names[i] := builds(Program(c, names[i]))];
            && Probed(known, c, names, builds).0 == Probed(m', c, names[i + 1..], builds).0
            && Probed(known, c, names, builds).1 == (log + [names[i]]) + Probed(m', c, names[i + 1..], builds).1
  {
    ProbedAt(m, c, names, i, builds);
    var rest := Probed(m[names[i] := builds(Program(c, names[i]))], c, names[i + 1..], builds);
    assert log + ([names[i]] + rest.1) == (log + [names[i]]) + rest.1;
  }

  /** Probing from position `i` either skips the known name there or probes it first. */
  lemma ProbedAt(m: map<string, bool>, c: Check, names: seq<string>, i: nat, builds: string -> bool)
    requires i < |names|
    ensures names[i] in m ==> Probed(m, c, names[i..], builds) == Probed(m, c, names[i + 1..], builds)
    ensures names[i] !in m ==>
              var rest := Probed(m[names[i] := builds(Program(c, names[i]))], c, names[i + 1..], builds);
              Probed(m, c, names[i..], builds) == (rest.0, [names[i]] + rest.1)
  {
    assert names[i..][1..] == names[i + 1..];
    assert names[i..][0] == names[i];
  }

  // ---------------------------------------------------------------------
  // The class
  // ---------------------------------------------------------------------

  class Project {
    var id: YamlValue
    var version: string
    var licenseFile: YamlValue
    /** The system headers found, by name. */
    var header: map<string, bool>
    var build: seq<Unit>
    var distribute: seq<seq<string>>
    var install: seq<YamlHash>
    var target: seq<TargetState>
    var test: seq<Unit>
    var decls: map<string, bool>
    var funcs: map<string, bool>

    function State(): ProjectState
      reads this
    {
      ProjectState(id, version, licenseFile, header, build, distribute, install, target, test, decls, funcs)
    }

    /** The fields the constructor sets before it reads the manifest. */
    constructor (licenseFile: YamlValue)
      ensures State() == Started(licenseFile)
    {
      id := YText("myproject");
      version := "0.1";
      this.licenseFile := licenseFile;
      header := map[];
      build := [];
      distribute := [];
      install := [];
      target := [];
      test := [];
      decls := map[];
      funcs := map[];
    }

    /** One manifest entry: the body of the constructor's `@manifest.each`. */
    method Apply(key: string, val: YamlValue, env: Env) returns (r: Result<()>)
      modifies this
      ensures var s := Step(old(State()), key, val, env);
              && (r.Ok? <==> s.Ok?)
              && (r.Err? ==> r.error == s.error)
              && (r.Ok? ==> State() == s.value)
    {
      if key == "project" {
        id := val;
        return Ok(());
      } else if key == "version" {
        version := ToS(val);
        return Ok(());
      } else if key == "binary" || key == "binaries" {
        var pairs := Pairs(val);
        if pairs.Err? {
          return Err(pairs.error);
        }
        r := AddBinaries(pairs.value, env);
      } else if key == "library" || key == "libraries" {
        var pairs := Pairs(val);
        if pairs.Err? {
          return Err(pairs.error);
        }
        r := Build(LibraryUnits(pairs.value, env));
      } else if key == "tests" {
        var pairs := Pairs(val);
        if pairs.Err? {
          return Err(pairs.error);
        }
        r := Test(TestUnits(pairs.value, env), env.host, env.includeDir);
      } else if key == "manpage" {
        r := Manpage(val, []);
      } else if key == "header" {
        Header(val, []);
        r := Ok(());
      } else if key == "extra_dist" {
        Distribute([val], env.glob);
        assert seq(1, i requires 0 <= i < 1 => env.glob([val][i])) == [env.glob(val)];
        r := Ok(());
      } else if key == "targets" {
        r := Err(InvalidDataType);
      } else if key == "script" || key == "check_decl" || key == "check_func" {
        r := Err(Fixme);
      } else {
        r := Err(Unrecognized(key, val));
      }
    }

    /** The `binary` entry: each id gets the executable extension and the binary is pushed as it is. */
    method AddBinaries(pairs: seq<(YamlValue, YamlValue)>, env: Env) returns (r: Result<()>)
      modifies this
      ensures var b := BinaryUnits(pairs, env);
              && (r.Ok? <==> b.Ok?)
              && (r.Err? ==> r.error == b.error)
              && (r.Ok? ==> State() == old(State()).(build := old(build) + b.value))
    {
      ghost var before := State();
      var i := 0;
      while i < |pairs|
        invariant i <= |pairs|
        invariant forall j :: 0 <= j < i ==> pairs[j].0.YText?
        invariant State() == before.(build := before.build + seq(i, j requires 0 <= j < i && pairs[j].0.YText? => BinaryOf(pairs[j], env)))
      {
        if !pairs[i].0.YText? {
          BinaryUnitsFail(pairs, env, i);
          return Err(IdNotString);
        }
        build := build + [BinaryOf(pairs[i], env)];
        i := i + 1;
      }
      BinaryUnitsAt(pairs, env);
      return Ok(());
    }

    /** `build(*args)` */
    method Build(args: seq<Unit>) returns (r: Result<()>)
      modifies this
      ensures var (s, ok) := Built(old(State()), args);
              State() == s && (r.Ok? <==> ok) && (r.Err? ==> r.error == InvalidArgument)
    {
      ghost var before := State();
      var i := 0;
      while i < |args|
        invariant i <= |args|
        invariant forall j :: 0 <= j < i ==> args[j].isBuildable
        invariant State() == before.(build := before.build + args[..i], install := before.install + BuildRecords(args[..i]))
      {
        var x := args[i];
        if !x.isBuildable {
          BuildableAt(args, i);
          return Err(InvalidArgument);
        }
        assert args[..i + 1] == args[..i] + [x];
        assert BuildRecords(args[..i + 1]) == BuildRecords(args[..i]) + [BuildRecord(x)];
        build := build + [x];
        install := install + [BuildRecord(x)];
        i := i + 1;
      }
      BuildableAt(args, |args|);
      return Ok(());
    }

    /** `test(*args)`; `includeDir` says whether `./include` is a directory. */
    method Test(args: seq<Unit>, h: Host, includeDir: bool) returns (r: Result<()>)
      modifies this
      ensures var (s, ok) := Tested(old(State()), args, h, includeDir);
              State() == s && (r.Ok? <==> ok) && (r.Err? ==> r.error == InvalidArgument)
    {
      ghost var before := State();
      var i := 0;
      while i < |args|
        invariant i <= |args|
        invariant forall j :: 0 <= j < i ==> args[j].respondsToBuild
        invariant build == before.build + AsTests(args[..i], h, includeDir)
        invariant test == before.test + AsTests(args[..i], h, includeDir)
        invariant State() == before.(build := build, test := test)
      {
        var x := args[i];
        if !x.respondsToBuild {
          TestableAt(args, i);
          return Err(InvalidArgument);
        }
        var extra: seq<string> := [];
        if !IsWindows(h) {
          extra := extra + ["-g", "-O0"];
        }
        extra := extra + ["-I."];
        if includeDir {
          extra := extra + ["-I./include"];
        }
        var t := x.(installable := false, distributable := false, cflags := x.cflags + extra, rpath := YText("$$PWD"));
        assert extra == TestFlags(h, includeDir);
        AsTestsSnoc(args, i, h, includeDir);
        build := build + [t];
        test := test + [t];
        i := i + 1;
      }
      TestableAt(args, |args|);
      return Ok(());
    }

    /** `distribute(*patterns)`, and `install(*patterns)`, which does the same: each pattern's files as one entry. */
    method Distribute(patterns: seq<YamlValue>, glob: YamlValue -> seq<string>)
      modifies this
      ensures State() == old(State()).(distribute := old(distribute) + seq(|patterns|, i requires 0 <= i < |patterns| => glob(patterns[i])))
    {
      ghost var before := State();
      var i := 0;
      while i < |patterns|
        invariant i <= |patterns|
        invariant State() == before.(distribute := before.distribute + seq(i, j requires 0 <= j < i => glob(patterns[j])))
      {
        distribute := distribute + [glob(patterns[i])];
        i := i + 1;
      }
    }

    /** `header(path, opt)` */
    method Header(path: YamlValue, opt: YamlHash)
      modifies this
      ensures State() == old(State()).(install := old(install) + [HeaderRecord(path, opt)])
    {
      install := install + [Record(path, OrDefault(YGet(opt, "dest"), "$(INCLUDEDIR)"), "0644")];
    }

    /** `manpage(path, opt)`: `gsub` raises on a path that is not a String. */
    method Manpage(path: YamlValue, opt: YamlHash) returns (r: Result<()>)
      modifies this
      ensures r.Ok? <==> path.YText?
      ensures r.Err? ==> r.error == PathNotString && State() == old(State())
      ensures r.Ok? ==> State() == old(State()).(install := old(install) + [ManpageRecord(path.s, opt)])
    {
      if !path.YText? {
        return Err(PathNotString);
      }
      var section := GsubSection(path.s);
      install := install + [Record(path, OrDefault(YGet(opt, "dest"), "$(MANDIR)/man" + section), "0644")];
      return Ok(());
    }

    /** `script(id, opt)` */
    method Script(id: YamlValue, opt: YamlHash)
      modifies this
      ensures State() == old(State()).(install := old(install) + [ScriptRecord(opt)])
    {
      install := install + [ScriptRecord(opt)];
    }

    /** `target(t)` */
    method AddTarget(t: TargetState)
      modifies this
      ensures State() == old(State()).(target := old(target) + [t])
    {
      target := target + [t];
    }

    /**
     * `check_decl(header, decl)`: `compiles` is the compiler's verdict on a
     * program; the names probed are returned in order.
     */
    method CheckDecl(hdr: YamlValue, decl: NameArg, compiles: string -> bool) returns (r: Result<seq<string>>)
      modifies this
      ensures r.Ok? <==> hdr.YText? && NamesOf(decl).Ok?
      ensures r.Err? ==> r.error == BadProbeArgument && State() == old(State())
      ensures r.Ok? ==> var (m, log) := Probed(old(decls), Decl(hdr.s), NamesOf(decl).value, compiles);
                        State() == old(State()).(decls := m) && r.value == log
    {
      if !hdr.YText? {
        return Err(BadProbeArgument);
      }
      var names := NamesOf(decl);
      if names.Err? {
        return Err(BadProbeArgument);
      }
      var m, log := ProbeAll(decls, Decl(hdr.s), names.value, compiles);
      decls := m;
      return Ok(log);
    }

    /** `check_func(func)`: `links` is the linker's verdict on a program. */
    method CheckFunc(func: NameArg, links: string -> bool) returns (r: Result<seq<string>>)
      modifies this
      ensures r.Ok? <==> NamesOf(func).Ok?
      ensures r.Err? ==> r.error == BadProbeArgument && State() == old(State())
      ensures r.Ok? ==> var (m, log) := Probed(old(funcs), Func, NamesOf(func).value, links);
                        State() == old(State()).(funcs := m) && r.value == log
    {
      var names := NamesOf(func);
      if names.Err? {
        return Err(BadProbeArgument);
      }
      var m, log := ProbeAll(funcs, Func, names.value, links);
      funcs := m;
      return Ok(log);
    }

    /** `sysdeps`: every system header some unit depends on, sorted, each once. */
    method Sysdeps() returns (r: seq<string>)
      ensures StrictlySorted(r)
      ensures forall x :: x in r <==> AnySysdep(build, x)
    {
      var res: seq<string> := [];
      var i := 0;
      while i < |build|
        invariant i <= |build|
        invariant forall x :: x in res <==> AnySysdep(build[..i], x)
      {
        var hs := UnitSysdeps(build[i]);
        forall x ensures AnySysdep(build[..i + 1], x) <==> AnySysdep(build[..i], x) || HasSysdep(build[i], x) {
          if AnySysdep(build[..i + 1], x) {
            var j :| 0 <= j < i + 1 && HasSysdep(build[..i + 1][j], x);
            if j < i {
              assert build[..i][j] == build[..i + 1][j];
            }
          }
          if AnySysdep(build[..i], x) {
            var j :| 0 <= j < i && HasSysdep(build[..i][j], x);
            assert build[..i + 1][j] == build[..i][j];
          }
          if HasSysdep(build[i], x) {
            assert build[..i + 1][i] == build[i];
          }
        }
        res := res + hs;
        i := i + 1;
      }
      assert build[..|build|] == build;
      r := SortUniq(res);
    }

    /** `distfile` */
    method Distfile() returns (r: Result<string>)
      ensures r == DistfileName(id, version)
    {
      if !id.YText? {
        return Err(IdNotString);
      }
      return Ok(id.s + "-" + version + ".tar.gz");
    }

    /** The text `write_config_h` writes to the `config.h` file. */
    method WriteConfigH() returns (text: string)
      ensures text == ConfigText(header, decls, funcs)
    {
      text := ProjectConfig.WriteConfigH(header, decls, funcs);
    }
  }

  /** `x.sysdep.each { |k, v| res.concat v }` for one unit. */
  method UnitSysdeps(u: Unit) returns (hs: seq<string>)
    ensures forall x :: x in hs <==> HasSysdep(u, x)
  {
    hs := [];
    var todo := u.sysdep.Keys;
    while todo != {}
      invariant todo <= u.sysdep.Keys
      invariant forall x :: x in hs <==> exists k :: k in u.sysdep && k !in todo && x in u.sysdep[k]
      decreases todo
    {
      var k :| k in todo;
      hs := hs + u.sysdep[k];
      todo := todo - {k};
    }
  }

  /**
   * `Project.new(manifest)`: the license file, then each manifest entry in
   * order; the project is returned only when no entry raises.
   */
  method Load(manifest: YamlHash, existing: set<string>, env: Env) returns (r: Result<Project>)
    ensures var l := Loaded(Started(LicenseFile(manifest, existing)), manifest, env);
            && (r.Ok? <==> l.Ok?)
            && (r.Err? ==> r.error == l.error)
            && (r.Ok? ==> fresh(r.value) && r.value.State() == l.value)
  {
    var p := new Project(LicenseFile(manifest, existing));
    var i := 0;
    assert manifest[0..] == manifest;
    while i < |manifest|
      invariant i <= |manifest|
      invariant fresh(p)
      invariant Loaded(Started(LicenseFile(manifest, existing)), manifest, env) == Loaded(p.State(), manifest[i..], env)
    {
      assert manifest[i..][1..] == manifest[i + 1..];
      var res := p.Apply(manifest[i].0, manifest[i].1, env);
      if res.Err? {
        return Err(res.error);
      }
      i := i + 1;
    }
    return Ok(p);
  }
}
