/**
 * makeconf.rb's Library: the targets a C library adds to the Makefile it
 * was built with.
 *
 * `build` first builds the static library (one compile target per
 * `-static` object, then the archive), then the versioned shared library
 * (one link target, from the compiler's `to_make` entries on Unix-like
 * hosts and a `link.exe` command on Windows, installed into `$(LIBDIR)`),
 * and finally does what every Buildable does: clean its outputs,
 * distribute its sources and make `all` depend on the outputs.
 */
module LegacyLibrary {
  import opened Strings
  import opened RubyValues
  import opened Platform
  import opened Patterns
  import opened Targets
  import opened Makefiles
  import opened LegacyToolchain
  import opened LegacyBuild

  /** A library's manifest entry, once the defaults of Buildable and Library are applied. */
  datatype LibrarySettings = LibrarySettings(
    id: string,
    sources: seq<string>,
    cflags: string,
    ldflags: string,
    ldadd: string,
    abiMajor: string,
    abiMinor: string)

  /** The compiler `Buildable.new` keeps: a copy with the entry's flags appended. */
  function OwnCompiler(s: LibrarySettings, c: Compiler): (r: Compiler)
    ensures r.extraCflags == c.extraCflags + " " + s.cflags
    ensures r.ldflags == c.ldflags + " " + s.ldflags && r.ldadd == c.ldadd + " " + s.ldadd
    ensures r.path == c.path && r.ld == c.ld && r.sources == c.sources
  {
    AppendLdadd(AppendLdflags(AppendCflags(c, s.cflags), s.ldflags), s.ldadd)
  }

  /** The copy of the compiler each build step configures; `shared` picks the shared-library objects. */
  function LibraryCompiler(s: LibrarySettings, c: Compiler, shared: bool): (cc: Compiler)
    ensures cc.isLibrary && cc.isShared == shared && cc.isMakefile && cc.sources == s.sources
    ensures cc.extraCflags == c.extraCflags + " " + s.cflags
    ensures cc.path == c.path && cc.ldflags == c.ldflags && cc.ldadd == c.ldadd && cc.ld == c.ld
  {
    AppendCflags(c.(isLibrary := true, isShared := shared, isMakefile := true, sources := s.sources), s.cflags)
  }

  function StaticLibfile(h: Host, s: LibrarySettings): string
  {
    s.id + StaticLibraryExtension(h)
  }

  /** The shared library's file name: `<id>.so.<major>.<minor>`, or `<id>.dll` on Windows. */
  function SharedLibfile(h: Host, s: LibrarySettings): (r: string)
    ensures !IsWindows(h) ==> r == s.id + ".so." + s.abiMajor + "." + s.abiMinor
    ensures IsWindows(h) ==> r == s.id + ".dll"
  {
    s.id + VersionedSharedExtension(h, s.abiMajor, s.abiMinor)
  }

  /** The source `build_static_library` names for object `d`: `-static<objext>` at its end becomes `.c`. */
  function StaticSource(h: Host, d: string): string
  {
    SubEol(d, "-static" + ObjectExtension(h), ".c")
  }

  /** The rule that compiles object `d` from `src`: the command, the output flag, the source. */
  function ObjectRule(h: Host, cmd: string, d: string, src: string): string
  {
    cmd + (if IsWindows(h) then " /Fo" + d else " -o " + d) + " " + src
  }

  /** The target `build_static_library` adds for object `d`. */
  function ObjectTarget(h: Host, cmd: string, d: string): TargetState
  {
    LegacyTarget(d, Str(StaticSource(h, d)), Str(ObjectRule(h, cmd, d, StaticSource(h, d))))
  }

  /** The per-object targets of `build_static_library`, added in the order of `ds`. */
  function StaticObjectTargets(h: Host, m: MakefileState, cmd: string, ds: seq<string>): (r: MakefileState)
    ensures r.vars == m.vars && r.mkdirList == m.mkdirList
    ensures Consistent(m) ==> Consistent(r)
    decreases |ds|
  {
    if ds == [] then m
    else
      var d := ds[|ds| - 1];
      WithLegacyTarget(StaticObjectTargets(h, m, cmd, ds[..|ds| - 1]), d, Str(StaticSource(h, d)),
                       Str(ObjectRule(h, cmd, d, StaticSource(h, d))))
  }

  /** Each listed object gets its compile target; every other target is left as it was. */
  lemma {:induction false} StaticObjectTargetsAt(h: Host, m: MakefileState, cmd: string, ds: seq<string>, k: string)
    ensures var r := StaticObjectTargets(h, m, cmd, ds);
            && (k in ds ==> k in r.targets && r.targets[k] == ObjectTarget(h, cmd, k))
            && (k !in ds ==> (k in r.targets <==> k in m.targets) && (k in m.targets ==> r.targets[k] == m.targets[k]))
    decreases |ds|
  {
    if ds != [] {
      var init, d := ds[..|ds| - 1], ds[|ds| - 1];
      assert ds == init + [d];
      StaticObjectTargetsAt(h, m, cmd, init, k);
    }
  }

  /** `build_static_library`. */
  function StaticBuilt(h: Host, m: MakefileState, s: LibrarySettings, c: Compiler): (r: MakefileState)
    ensures Consistent(m) ==> Consistent(r)
  {
    var cc := LibraryCompiler(s, c, false);
    var libfile := StaticLibfile(h, s);
    var deps := Sort(Objs(h, cc));
    var m1 := StaticObjectTargets(h, m, Command(cc, libfile), deps);
    var m2 := WithLegacyTarget(m1, libfile, List(Strs(deps)), Str(Archiver(h, libfile, deps)));
    CleanedList(h, m2, Objs(h, cc))
  }

  /** The link target of `build_shared_library`: `link.exe` on Windows, the merged `to_make` entries elsewhere. */
  function SharedLinked(h: Host, m: MakefileState, s: LibrarySettings, c: Compiler): (r: MakefileState)
    ensures r.vars == m.vars && r.mkdirList == m.mkdirList
    ensures Consistent(m) ==> Consistent(r)
  {
    var cc := LibraryCompiler(s, c, true);
    var libfile := SharedLibfile(h, s);
    var deps := Sort(Objs(h, cc));
    if IsWindows(h) then
      WithLegacyTarget(m, libfile, List(Strs(deps)), Str("link.exe /DLL /OUT:$@ " + Spaced(deps)))
    else
      var linked := cc.(ld := Soname(h, ExportDynamic(cc.ld), s.id + "." + s.abiMajor));
      ToMakeEntries(h, linked, libfile);
      MergedEntries(m, ToMakeSpec(h, linked, libfile))
  }

  /** `build_shared_library`; `executable` stands for `File.executable?` on the library file. */
  function SharedBuilt(h: Host, m: MakefileState, s: LibrarySettings, c: Compiler, executable: bool): (r: MakefileState)
    ensures Consistent(m) ==> Consistent(r)
  {
    var cc := LibraryCompiler(s, c, true);
    var m1 := SharedLinked(h, m, s, c);
    var m2 := Installed(h, m1, SharedLibfile(h, s), "$(LIBDIR)", InstallOptions(None, None), executable);
    CleanedList(h, m2, Objs(h, cc))
  }

  /** Buildable's `build`: clean the outputs, distribute the sources, make `all` depend on the outputs. */
  function BaseBuilt(h: Host, m: MakefileState, sources: seq<string>, output: seq<string>, distributable: bool): (r: MakefileState)
    requires Consistent(m)
    ensures Consistent(r)
  {
    assert FixedTargets[0] == "all";
    var m1 := CleanedList(h, m, output);
    var m2 := if distributable then DistributedList(m1, sources) else m1;
    WithPushedAt(m2, "all", List(Strs(output)))
  }

  /** `Library#build`. */
  function LibraryBuilt(h: Host, m: MakefileState, s: LibrarySettings, c: Compiler, output: seq<string>,
                        distributable: bool, executable: bool): (r: MakefileState)
    requires Consistent(m)
    ensures Consistent(r)
  {
    var m1 := SharedBuilt(h, StaticBuilt(h, m, s, c), s, c, executable);
    BaseBuilt(h, m1, s.sources, output + [StaticLibfile(h, s)] + [SharedLibfile(h, s)], distributable)
  }

  lemma LibraryBuiltSteps(h: Host, m: MakefileState, s: LibrarySettings, c: Compiler, output: seq<string>,
                          distributable: bool, executable: bool)
    requires Consistent(m)
    ensures LibraryBuilt(h, m, s, c, output, distributable, executable)
            == BaseBuilt(h, SharedBuilt(h, StaticBuilt(h, m, s, c), s, c, executable), s.sources,
                         output + [StaticLibfile(h, s)] + [SharedLibfile(h, s)], distributable)
  {
  }

  // ---------------------------------------------------------------------
  // What a library build promises
  // ---------------------------------------------------------------------

  /** None of the names is `clean`, `install` or `uninstall`, the targets a build extends. */
  predicate Clear(names: seq<string>)
  {
    "clean" !in names && "install" !in names && "uninstall" !in names
  }

  lemma SortedMembers(s: seq<string>, x: string)
    ensures x in Sort(s) <==> x in s
  {
    assert x in Sort(s) <==> x in multiset(Sort(s));
    assert x in s <==> x in multiset(s);
  }

  /** The steps of `build_static_library`, for any compile command, archive command and objects. */
  lemma StaticSteps(h: Host, m: MakefileState, cmd: string, libfile: string, deps: seq<string>,
                    objs: seq<string>, archive: string, d: string)
    requires Clear([libfile] + deps)
    ensures var r := CleanedList(h, WithLegacyTarget(StaticObjectTargets(h, m, cmd, deps), libfile, List(Strs(deps)), Str(archive)), objs);
            && TargetOrEmpty(r, libfile) == LegacyTarget(libfile, List(Strs(deps)), Str(archive))
            && (d in deps && d != libfile ==> TargetOrEmpty(r, d) == ObjectTarget(h, cmd, d))
            && TargetOrEmpty(r, "clean").rules == TargetOrEmpty(m, "clean").rules + [Str(Rm(h, objs))]
            && TargetOrEmpty(r, "install") == TargetOrEmpty(m, "install")
            && TargetOrEmpty(r, "uninstall") == TargetOrEmpty(m, "uninstall")
  {
    StaticObjectTargetsAt(h, m, cmd, deps, "clean");
    StaticObjectTargetsAt(h, m, cmd, deps, "install");
    StaticObjectTargetsAt(h, m, cmd, deps, "uninstall");
    StaticObjectTargetsAt(h, m, cmd, deps, d);
  }

  /**
   * The static library: every object gets its compile target, the archive
   * depends on the sorted objects and is built by the archiver, the objects
   * are removed under `clean`, and nothing is installed.
   */
  lemma StaticLibraryTargets(h: Host, m: MakefileState, s: LibrarySettings, c: Compiler, d: string)
    requires Clear([StaticLibfile(h, s)] + Objs(h, LibraryCompiler(s, c, false)))
    ensures var cc := LibraryCompiler(s, c, false);
            var libfile := StaticLibfile(h, s);
            var deps := Sort(Objs(h, cc));
            var r := StaticBuilt(h, m, s, c);
            && TargetOrEmpty(r, libfile) == LegacyTarget(libfile, List(Strs(deps)), Str(Archiver(h, libfile, deps)))
            && (d in deps && d != libfile ==> TargetOrEmpty(r, d) == ObjectTarget(h, Command(cc, libfile), d))
            && TargetOrEmpty(r, "clean").rules == TargetOrEmpty(m, "clean").rules + [Str(Rm(h, Objs(h, cc)))]
            && TargetOrEmpty(r, "install") == TargetOrEmpty(m, "install")
            && TargetOrEmpty(r, "uninstall") == TargetOrEmpty(m, "uninstall")
  {
    var cc := LibraryCompiler(s, c, false);
    var libfile := StaticLibfile(h, s);
    var objs := Objs(h, cc);
    SortedMembers(objs, "clean");
    SortedMembers(objs, "install");
    SortedMembers(objs, "uninstall");
    StaticSteps(h, m, Command(cc, libfile), libfile, Sort(objs), objs, Archiver(h, libfile, Sort(objs)), d);
  }

  /** A line matches itself read as a pattern. */
  lemma SelfMatch(t: string)
    requires '\n' !in t
    ensures MatchAt(t, 0, Atoms(t), false)
  {
    forall j | 0 <= j < |t| ensures AtomMatches(Atoms(t)[j], t[j], false) {
    }
  }

  /**
   * A static object compiled from `<stem>.c` is `<stem>-static<objext>`,
   * and its compile target depends on `<stem>.c` again.
   */
  lemma StaticObjectSource(h: Host, s: LibrarySettings, c: Compiler, stem: string)
    requires '\n' !in stem
    ensures var cc := LibraryCompiler(s, c, false);
            var d := SubEol(stem + ".c", ".c", ObjSuffix(h, cc));
            && d == stem + "-static" + ObjectExtension(h)
            && StaticSource(h, d) == stem + ".c"
  {
    var cc := LibraryCompiler(s, c, false);
    assert stem + ".c" == stem + ['.', 'c'];
    ObjectOfSource(stem, '.', ObjSuffix(h, cc));
    var tail := "-static" + ObjectExtension(h);
    assert '\n' !in tail;
    SelfMatch(tail);
    assert stem + ObjSuffix(h, cc) == stem + tail;
    assert stem + "-static" + ObjectExtension(h) == stem + tail;
    SubEolSuffix(stem, tail, tail, ".c");
  }

  /** Merging the `to_make` entries of `c` sets the output's target and, apart from objects, nothing else. */
  lemma SharedMergedTargets(h: Host, m: MakefileState, c: Compiler, output: string, k: string)
    requires k == output || k !in Sort(Objs(h, c))
    requires AllLists(ToMakeSpec(h, c, output))
    ensures var r := MergedEntries(m, ToMakeSpec(h, c, output));
            && (k == output ==> TargetOrEmpty(r, k) == LegacyTarget(k, List(Strs(Sort(Objs(h, c)))), Str(LinkRule(c, output, Sort(Objs(h, c))))))
            && (k != output ==> TargetOrEmpty(r, k) == TargetOrEmpty(m, k))
  {
    var objs := Sort(Objs(h, c));
    var spec := ToMakeSpec(h, c, output);
    ToMakeEntries(h, c, output);
    MergedEntriesGet(m, spec, k);
    if k != output {
      var e := ObjectEntries(h, c, objs);
      ObjectEntriesKeys(h, c, objs);
      HashPutKeys(e, output, LinkEntry(c, output, objs));
      HashGetFound(spec, k);
    }
  }

  /** The link rule `to_make` writes for a shared library. */
  lemma SharedLinkRule(c: Compiler, output: string, objs: seq<string>)
    requires c.isLibrary && c.isShared
    ensures LinkRule(c, output, objs) ==
              Spaced(["$(CC)", "-o " + output, "-shared", c.ldflags, "$(LDFLAGS)"] + objs + [c.ldadd, "$(LDADD)"])
  {
    LinkRuleFlattens(c, output, objs);
    assert LinkArgs(c, output, objs)
        == ["$(CC)", "-o " + output, "-shared", c.ldflags, "$(LDFLAGS)"] + objs + [c.ldadd, "$(LDADD)"];
  }

  /** `to_make` merged for a shared library on a Unix-like host, for any compiler and output. */
  lemma SharedUnixLink(h: Host, m: MakefileState, c: Compiler, output: string)
    requires c.isLibrary && c.isShared
    requires Clear([output] + Objs(h, c))
    requires AllLists(ToMakeSpec(h, c, output))
    ensures var deps := Sort(Objs(h, c));
            var r := MergedEntries(m, ToMakeSpec(h, c, output));
            && TargetOrEmpty(r, output).deps == Strs(deps)
            && TargetOrEmpty(r, output).rules ==
                 [Str(Spaced(["$(CC)", "-o " + output, "-shared", c.ldflags, "$(LDFLAGS)"] + deps + [c.ldadd, "$(LDADD)"]))]
            && TargetOrEmpty(r, "clean") == TargetOrEmpty(m, "clean")
            && TargetOrEmpty(r, "install") == TargetOrEmpty(m, "install")
            && TargetOrEmpty(r, "uninstall") == TargetOrEmpty(m, "uninstall")
  {
    var objs := Objs(h, c);
    SortedMembers(objs, "clean");
    SortedMembers(objs, "install");
    SortedMembers(objs, "uninstall");
    SharedMergedTargets(h, m, c, output, "clean");
    SharedMergedTargets(h, m, c, output, "install");
    SharedMergedTargets(h, m, c, output, "uninstall");
    SharedMergedTargets(h, m, c, output, output);
    SharedLinkRule(c, output, Sort(objs));
  }

  /**
   * The shared library's link target: on Unix-like hosts it depends on the
   * sorted shared objects and links them with `-shared` into
   * `<id>.so.<major>.<minor>`; on Windows `link.exe /DLL` builds `<id>.dll`.
   * The targets `clean`, `install` and `uninstall` are not touched.
   */
  lemma SharedLinkTarget(h: Host, m: MakefileState, s: LibrarySettings, c: Compiler)
    requires Clear([SharedLibfile(h, s)] + Objs(h, LibraryCompiler(s, c, true)))
    ensures var cc := LibraryCompiler(s, c, true);
            var libfile := SharedLibfile(h, s);
            var deps := Sort(Objs(h, cc));
            var r := SharedLinked(h, m, s, c);
            && TargetOrEmpty(r, libfile).deps == Strs(deps)
            && TargetOrEmpty(r, libfile).rules ==
                 [Str(if IsWindows(h) then "link.exe /DLL /OUT:$@ " + Spaced(deps)
                      else Spaced(["$(CC)", "-o " + libfile, "-shared", cc.ldflags, "$(LDFLAGS)"] + deps + [cc.ldadd, "$(LDADD)"]))]
            && TargetOrEmpty(r, "clean") == TargetOrEmpty(m, "clean")
            && TargetOrEmpty(r, "install") == TargetOrEmpty(m, "install")
            && TargetOrEmpty(r, "uninstall") == TargetOrEmpty(m, "uninstall")
  {
    var cc := LibraryCompiler(s, c, true);
    var libfile := SharedLibfile(h, s);
    var objs := Objs(h, cc);
    if !IsWindows(h) {
      var linked := cc.(ld := Soname(h, ExportDynamic(cc.ld), s.id + "." + s.abiMajor));
      assert Objs(h, linked) == Objs(h, cc);
      ToMakeEntries(h, linked, libfile);
      SharedUnixLink(h, m, linked, libfile);
    }
  }

  /** Installing `libfile` into `$(LIBDIR)` and cleaning `objs`, after a step that kept the rules of `m`. */
  lemma InstallCleaned(h: Host, m: MakefileState, m1: MakefileState, libfile: string, objs: seq<string>, executable: bool)
    requires m1.mkdirList == m.mkdirList
    requires TargetOrEmpty(m1, "clean") == TargetOrEmpty(m, "clean")
    requires TargetOrEmpty(m1, "install") == TargetOrEmpty(m, "install")
    requires TargetOrEmpty(m1, "uninstall") == TargetOrEmpty(m, "uninstall")
    ensures var r := CleanedList(h, Installed(h, m1, libfile, "$(LIBDIR)", InstallOptions(None, None), executable), objs);
            var mkdir := if CreatesDir(m, "$(LIBDIR)", InstallOptions(None, None)) then [Str(MkdirRule("$(LIBDIR)"))] else [];
            && TargetOrEmpty(r, "install").rules ==
                 TargetOrEmpty(m, "install").rules + mkdir + [Str(InstallRule(if executable then "755" else "644", libfile, "$(LIBDIR)"))]
            && TargetOrEmpty(r, "uninstall").rules == TargetOrEmpty(m, "uninstall").rules + [Str(UninstallRule(h, libfile, "$(LIBDIR)"))]
            && TargetOrEmpty(r, "clean").rules == TargetOrEmpty(m, "clean").rules + [Str(Rm(h, objs))]
  {
    var opts := InstallOptions(None, None);
    var m2 := WithDirRule(m1, "$(LIBDIR)", opts);
    var m3 := WithRuleAt(m2, "install", Str(InstallRule(InstallMode(opts, executable), libfile, "$(LIBDIR)")));
    var m4 := WithRuleAt(m3, "uninstall", Str(UninstallRule(h, libfile, "$(LIBDIR)")));
    assert TargetOrEmpty(m3, "uninstall") == TargetOrEmpty(m2, "uninstall");
    assert TargetOrEmpty(m4, "install") == TargetOrEmpty(m3, "install");
    assert TargetOrEmpty(m4, "clean") == TargetOrEmpty(m1, "clean");
  }

  /**
   * The shared library is installed into `$(LIBDIR)`, with mode 755 or 644
   * as the file is executable or not, and removed from there by
   * `uninstall`; its objects are removed by `clean`.
   */
  lemma SharedLibraryInstalled(h: Host, m: MakefileState, s: LibrarySettings, c: Compiler, executable: bool)
    requires Clear([SharedLibfile(h, s)] + Objs(h, LibraryCompiler(s, c, true)))
    ensures var cc := LibraryCompiler(s, c, true);
            var libfile := SharedLibfile(h, s);
            var r := SharedBuilt(h, m, s, c, executable);
            var mkdir := if CreatesDir(m, "$(LIBDIR)", InstallOptions(None, None)) then [Str(MkdirRule("$(LIBDIR)"))] else [];
            && TargetOrEmpty(r, "install").rules ==
                 TargetOrEmpty(m, "install").rules + mkdir + [Str(InstallRule(if executable then "755" else "644", libfile, "$(LIBDIR)"))]
            && TargetOrEmpty(r, "uninstall").rules == TargetOrEmpty(m, "uninstall").rules + [Str(UninstallRule(h, libfile, "$(LIBDIR)"))]
            && TargetOrEmpty(r, "clean").rules == TargetOrEmpty(m, "clean").rules + [Str(Rm(h, Objs(h, cc)))]
  {
    var libfile := SharedLibfile(h, s);
    SharedLinkTarget(h, m, s, c);
    InstallCleaned(h, m, SharedLinked(h, m, s, c), libfile, Objs(h, LibraryCompiler(s, c, true)), executable);
  }

  // ---------------------------------------------------------------------
  // The Library object
  // ---------------------------------------------------------------------

  /** Buildable's `build` on a Makefile: clean the outputs, distribute the sources, make `all` depend on the outputs. */
  method BaseBuild(mf: LegacyBuild.Makefile, sources: seq<string>, outs: seq<string>, dist: bool)
    requires mf.Valid()
    modifies mf
    ensures mf.State() == BaseBuilt(mf.host, old(mf.State()), sources, outs, dist)
    ensures mf.Valid()
  {
    mf.Clean(outs);
    if dist {
      mf.DistributeList(sources);
    }
    assert FixedTargets[0] == "all";
    mf.AddDependency("all", List(Strs(outs)));
  }

  class Library {
    const settings: LibrarySettings
    /** The compiler after `Buildable.new` appended the entry's flags. */
    const compiler: Compiler
    const makefile: LegacyBuild.Makefile
    var distributable: bool
    var output: seq<string>

    /** `Library.new(id, ast, compiler, makefile)` once the manifest entry is read into `settings`. */
    constructor (settings: LibrarySettings, compiler: Compiler, makefile: LegacyBuild.Makefile)
      ensures this.settings == settings && this.makefile == makefile
      ensures this.compiler == OwnCompiler(settings, compiler)
      ensures distributable && output == []
    {
      this.settings := settings;
      this.compiler := OwnCompiler(settings, compiler);
      this.makefile := makefile;
      distributable := true;
      output := [];
    }

    /** The loop of `build_static_library`: one compile target per object, in the order of `deps`. */
    method AddObjectTargets(cmd: string, deps: seq<string>)
      requires makefile.Valid()
      modifies makefile
      ensures makefile.State() == StaticObjectTargets(makefile.host, old(makefile.State()), cmd, deps)
      ensures makefile.Valid()
      ensures unchanged(this)
    {
      var h := makefile.host;
      ghost var m0 := makefile.State();
      var i := 0;
      while i < |deps|
        invariant 0 <= i <= |deps|
        invariant makefile.Valid()
        invariant makefile.State() == StaticObjectTargets(h, m0, cmd, deps[..i])
      {
        var d := deps[i];
        var src := SubEol(d, "-static" + ObjectExtension(h), ".c");
        var out := if IsWindows(h) then " /Fo" + d else " -o " + d;
        makefile.AddTarget(d, Str(src), Str(cmd + out + " " + src));
        assert deps[..i + 1][..i] == deps[..i];
        i := i + 1;
      }
      assert deps[..|deps|] == deps;
    }

    method BuildStatic()
      requires makefile.Valid()
      modifies this, makefile
      ensures makefile.State() == StaticBuilt(makefile.host, old(makefile.State()), settings, compiler)
      ensures output == old(output) + [StaticLibfile(makefile.host, settings)]
      ensures distributable == old(distributable)
      ensures makefile.Valid()
    {
      var h := makefile.host;
      var libfile := settings.id + StaticLibraryExtension(h);
      var cc := compiler.(isLibrary := true, isShared := false, isMakefile := true, sources := settings.sources);
      cc := AppendCflags(cc, settings.cflags);
      var cmd := Command(cc, libfile);
      var deps := Sort(Objs(h, cc));
      AddObjectTargets(cmd, deps);
      makefile.AddTarget(libfile, List(Strs(deps)), Str(Archiver(h, libfile, deps)));
      makefile.Clean(Objs(h, cc));
      output := output + [libfile];
    }

    /** The link step of `build_shared_library`. */
    method LinkShared()
      requires makefile.Valid()
      modifies makefile
      ensures makefile.State() == SharedLinked(makefile.host, old(makefile.State()), settings, compiler)
      ensures makefile.Valid()
      ensures unchanged(this)
    {
      var h := makefile.host;
      var libfile := settings.id + VersionedSharedExtension(h, settings.abiMajor, settings.abiMinor);
      var cc := compiler.(isLibrary := true, isShared := true, isMakefile := true, sources := settings.sources);
      cc := AppendCflags(cc, settings.cflags);
      var deps := Sort(Objs(h, cc));
      if IsWindows(h) {
        makefile.AddTarget(libfile, List(Strs(deps)), Str("link.exe /DLL /OUT:$@ " + Spaced(deps)));
      } else {
        cc := cc.(ld := ExportDynamic(cc.ld));
        cc := cc.(ld := Soname(h, cc.ld, settings.id + "." + settings.abiMajor));
        var entries := ToMake(h, cc, libfile);
        ToMakeEntries(h, cc, libfile);
        var r := makefile.Merge(entries);
        assert entries[..|entries|] == entries;
      }
    }

    /** The install and clean steps of `build_shared_library`. */
    method InstallShared(libfile: string, executable: bool)
      requires makefile.Valid()
      modifies makefile
      ensures makefile.State() == CleanedList(makefile.host,
                                    Installed(makefile.host, old(makefile.State()), libfile, "$(LIBDIR)", InstallOptions(None, None), executable),
                                    Objs(makefile.host, LibraryCompiler(settings, compiler, true)))
      ensures makefile.Valid()
      ensures unchanged(this)
    {
      makefile.Install(libfile, "$(LIBDIR)", InstallOptions(None, None), executable);
      makefile.Clean(Objs(makefile.host, LibraryCompiler(settings, compiler, true)));
    }

    /** The makefile steps of `build_shared_library`. */
    method LinkAndInstallShared(executable: bool)
      requires makefile.Valid()
      modifies makefile
      ensures makefile.State() == SharedBuilt(makefile.host, old(makefile.State()), settings, compiler, executable)
      ensures makefile.Valid()
      ensures unchanged(this)
    {
      LinkShared();
      InstallShared(SharedLibfile(makefile.host, settings), executable);
    }

    /** `build_shared_library`; `executable` stands for `File.executable?` on the library file. */
    method BuildShared(executable: bool)
      requires makefile.Valid()
      modifies this, makefile
      ensures makefile.State() == SharedBuilt(makefile.host, old(makefile.State()), settings, compiler, executable)
      ensures output == old(output) + [SharedLibfile(makefile.host, settings)]
      ensures distributable == old(distributable)
      ensures makefile.Valid()
    {
      var libfile := SharedLibfile(makefile.host, settings);
      AddOutput(libfile);
      LinkAndInstallShared(executable);
    }

    /** Records one more library file. */
    method AddOutput(f: string)
      modifies this
      ensures output == old(output) + [f]
      ensures distributable == old(distributable)
    {
      output := output + [f];
    }

    /** The two library files of `build`, static first. */
    method BuildBoth(executable: bool)
      requires makefile.Valid()
      modifies this, makefile
      ensures makefile.State() == SharedBuilt(makefile.host, StaticBuilt(makefile.host, old(makefile.State()), settings, compiler),
                                              settings, compiler, executable)
      ensures output == old(output) + [StaticLibfile(makefile.host, settings)] + [SharedLibfile(makefile.host, settings)]
      ensures distributable == old(distributable)
      ensures makefile.Valid()
    {
      BuildStatic();
      BuildShared(executable);
    }

    /** Buildable's `build`: clean the outputs, distribute the sources, make `all` depend on the outputs. */
    method Finish(outs: seq<string>, dist: bool)
      requires makefile.Valid()
      modifies makefile
      ensures makefile.State() == BaseBuilt(makefile.host, old(makefile.State()), settings.sources, outs, dist)
      ensures makefile.Valid()
      ensures unchanged(this)
    {
      BaseBuild(makefile, settings.sources, outs, dist);
    }

    /** `build`: the static library, the shared library, then Buildable's `build`. */
    method Build(executable: bool)
      requires makefile.Valid()
      modifies this, makefile
      ensures makefile.State() == LibraryBuilt(makefile.host, old(makefile.State()), settings, compiler, old(output),
                                                old(distributable), executable)
      ensures output == old(output) + [StaticLibfile(makefile.host, settings)] + [SharedLibfile(makefile.host, settings)]
      ensures makefile.Valid()
    {
      ghost var h, m0, out0, dist0 := makefile.host, makefile.State(), output, distributable;
      BuildBoth(executable);
      Finish(output, distributable);
      LibraryBuiltSteps(h, m0, settings, compiler, out0, dist0, executable);
      LibraryBuiltSteps(h, m0, settings, compiler, out0, dist0, executable);
    }
  }
}
