/**
 * The classes of trunk/makeconf.rb that the rest of the model does not
 * already cover: its `Linker`, which keeps the `-L` flags for the
 * compiler apart from the `-Wl,` flags, `Script`, which distributes and
 * installs interpreted scripts, and `Header#to_config_h`.
 */
module TrunkMakeconf {
  import opened Strings
  import opened RubyValues
  import opened Platform
  import opened Targets
  import opened Makefiles
  import LegacyToolchain
  import CompilerBuilds

  // ---------------------------------------------------------------------
  // Linker
  // ---------------------------------------------------------------------

  /** The flag `rpath=` records for the linker: `-R` on Solaris, `-rpath` on Linux. */
  function RpathName(h: Host): string
  {
    if IsSolaris(h) then "-R" else "-rpath"
  }

  /** `['-L', dir]`, which `rpath=` records among the compiler-side flags. */
  function SearchFlag(dir: string): RValue
  {
    List([Str("-L"), Str(dir)])
  }

  /**
   * `to_s`: a space, then the compiler-side flags (one nested list, so its
   * pairs are joined by spaces too) and then one `-Wl,` token per linker
   * flag, all joined by spaces.
   */
  function LinkerText(cflags: seq<RValue>, flags: seq<LegacyToolchain.LinkFlag>): string
  {
    " " + JoinValues([List(cflags)] + Strs(LegacyToolchain.LinkerTokens(LegacyToolchain.Linker(flags))), " ")
  }

  /**
   * The compiler-side flags come first, unprefixed, and the `-Wl,` tokens
   * follow in recording order.
   */
  lemma LinkerTextLayout(cflags: seq<RValue>, flags: seq<LegacyToolchain.LinkFlag>)
    ensures LinkerText(cflags, flags) ==
              " " + JoinValues(cflags, " ")
              + (if flags == [] then "" else " " + Spaced(LegacyToolchain.LinkerTokens(LegacyToolchain.Linker(flags))))
  {
    var ts := LegacyToolchain.LinkerTokens(LegacyToolchain.Linker(flags));
    if flags == [] {
      assert Strs(ts) == [];
      assert [List(cflags)] + Strs(ts) == [List(cflags)];
    } else {
      JoinValuesCons(List(cflags), Strs(ts), " ");
      JoinOfStrs(ts, " ");
    }
  }

  /** On a fresh linker, `rpath = dir` gives the text ` -L dir -Wl,-<flag>,dir`. */
  lemma RpathText(h: Host, dir: string)
    ensures LinkerText([SearchFlag(dir)], [LegacyToolchain.Pair(RpathName(h), dir)])
         == " -L " + dir + " " + LegacyToolchain.FlagToken(LegacyToolchain.Pair(RpathName(h), dir))
  {
    var f := LegacyToolchain.Pair(RpathName(h), dir);
    LinkerTextLayout([SearchFlag(dir)], [f]);
    var ts := LegacyToolchain.LinkerTokens(LegacyToolchain.Linker([f]));
    var t := LegacyToolchain.FlagToken(f);
    assert [f][0] == f;
    assert ts[0] == t;
    assert ts == [t];
    var joined := JoinValues([SearchFlag(dir)], " ");
    assert joined == "-L " + dir by {
      JoinValuesCons(Str("-L"), [Str(dir)], " ");
      assert [Str("-L")] + [Str(dir)] == [Str("-L"), Str(dir)];
      assert JoinValues([Str(dir)], " ") == dir;
      assert joined == JoinValues([Str("-L"), Str(dir)], " ");
    }
    ConcatRegroup(" ", "-L ", dir, " ", t);
  }

  lemma ConcatRegroup(a: string, b: string, c: string, d: string, e: string)
    ensures a + (b + c) + (d + e) == (a + b) + c + d + e
  {
  }

  const UnsupportedOs := "Unsupported OS"
  const Stub := "stub"

  /** The Linker of trunk/makeconf.rb. */
  class Linker {
    var flags: seq<LegacyToolchain.LinkFlag>
    /** Flags passed to the compiler without the `-Wl,` prefix. */
    var cflags: seq<RValue>

    constructor ()
      ensures flags == [] && cflags == []
    {
      flags := [];
      cflags := [];
    }

    function Text(): string
      reads this
    {
      LinkerText(cflags, flags)
    }

    /** `soname(s)`: records nothing on Windows. */
    method Soname(h: Host, s: string)
      modifies this
      ensures flags == if IsWindows(h) then old(flags) else old(flags) + [LegacyToolchain.Pair("soname", s)]
      ensures cflags == old(cflags)
    {
      if !IsWindows(h) {
        flags := flags + [LegacyToolchain.Pair("soname", s)];
      }
    }

    /** `export_dynamic`: recorded on every platform, Windows included. */
    method ExportDynamic()
      modifies this
      ensures flags == old(flags) + [LegacyToolchain.Single("export-dynamic")]
      ensures cflags == old(cflags)
    {
      flags := flags + [LegacyToolchain.Single("export-dynamic")];
    }

    /**
     * `rpath = dir`: throws on any OS but Solaris and Linux, Windows
     * included, before recording anything; otherwise records the linker
     * flag and `-L dir` for the compiler.
     */
    method SetRpath(h: Host, dir: string) returns (r: Result<()>)
      modifies this
      ensures r.Err? <==> !IsSolaris(h) && !IsLinux(h)
      ensures r.Err? ==> r.error == UnsupportedOs && flags == old(flags) && cflags == old(cflags)
      ensures r.Ok? ==> flags == old(flags) + [LegacyToolchain.Pair(RpathName(h), dir)] && cflags == old(cflags) + [SearchFlag(dir)]
    {
      if IsSolaris(h) {
        flags := flags + [LegacyToolchain.Pair("-R", dir)];
      } else if IsLinux(h) {
        flags := flags + [LegacyToolchain.Pair("-rpath", dir)];
      } else {
        return Err(UnsupportedOs);
      }
      cflags := cflags + [SearchFlag(dir)];
      return Ok(());
    }

    /** `command`: not written yet, it always throws. */
    method Command() returns (r: Result<string>)
      ensures r == Err(Stub)
    {
      r := Err(Stub);
    }
  }

  // ---------------------------------------------------------------------
  // Script
  // ---------------------------------------------------------------------

  /** `ast[k].nil? ? v : ast[k]`: a missing or nil setting takes the default. */
  function ScriptSetting(ast: Hash, k: string, v: RValue): (r: RValue)
    ensures HashGet(ast, k).Some? && !HashGet(ast, k).value.Nil? ==> r == HashGet(ast, k).value
    ensures (HashGet(ast, k).None? || HashGet(ast, k).value.Nil?) ==> r == v
  {
    match HashGet(ast, k)
    case Some(x) => if x.Nil? then v else x
    case None => v
  }

  function ScriptOptions(mode: string): InstallOptions
  {
    InstallOptions(Some(mode), None)
  }

  /** The installs of `build`'s loop, the last source last. */
  function InstalledEach(h: Host, m: MakefileState, srcs: seq<string>, dest: string, mode: string): (r: MakefileState)
    ensures Consistent(m) ==> Consistent(r)
  {
    if srcs == [] then m
    else Installed(h, InstalledEach(h, m, srcs[..|srcs| - 1], dest, mode), srcs[|srcs| - 1], dest, ScriptOptions(mode), false)
  }

  /** `build`: distribute the sources, then install each into dest with the mode. */
  function ScriptBuilt(h: Host, m: MakefileState, srcs: seq<string>, dest: string, mode: string): (r: MakefileState)
    requires Consistent(m)
    ensures Consistent(r)
  {
    InstalledEach(h, DistributedAll(m, srcs), srcs, dest, mode)
  }

  /** A script to install, written in an interpreted language. */
  class Script {
    const id: string
    const makefile: Makefile
    /** The settings as the manifest gives them, defaults filled in. */
    var sources: RValue
    var dest: RValue
    var mode: RValue

    /** `Script.new(id, ast, makefile)`: sources `[]`, dest `$(BINDIR)` and mode `755` unless set. */
    constructor (id: string, ast: Hash, makefile: Makefile)
      ensures this.id == id && this.makefile == makefile
      ensures sources == ScriptSetting(ast, "sources", List([]))
      ensures dest == ScriptSetting(ast, "dest", Str("$(BINDIR)"))
      ensures mode == ScriptSetting(ast, "mode", Str("755"))
    {
      this.id := id;
      this.makefile := makefile;
      sources := ScriptSetting(ast, "sources", List([]));
      dest := ScriptSetting(ast, "dest", Str("$(BINDIR)"));
      mode := ScriptSetting(ast, "mode", Str("755"));
    }

    /**
     * `build`: distribute the sources, then install each into dest with the
     * mode; settings of the wrong type are refused.
     */
    method Build() returns (r: Result<()>)
      requires makefile.Valid()
      modifies makefile
      ensures makefile.Valid()
      ensures r.Ok? <==> CompilerBuilds.StrList(sources) && dest.Str? && mode.Str?
      ensures r.Ok? ==> makefile.State() == ScriptBuilt(makefile.host, old(makefile.State()), CompilerBuilds.Names(sources), dest.s, mode.s)
      ensures r.Err? ==> r.error == ScriptSettingsError && makefile.State() == old(makefile.State())
    {
      if !(CompilerBuilds.StrList(sources) && dest.Str? && mode.Str?) {
        return Err(ScriptSettingsError);
      }
      var srcs := CompilerBuilds.Names(sources);
      makefile.DistributeAll(srcs);
      ghost var start := makefile.State();
      for i := 0 to |srcs|
        invariant makefile.Valid()
        invariant makefile.State() == InstalledEach(makefile.host, start, srcs[..i], dest.s, mode.s)
      {
        InstallNext(makefile, start, srcs, i, dest.s, mode.s);
      }
      assert srcs[..|srcs|] == srcs;
      return Ok(());
    }
  }

  /** The failure of `build` when `sources` is not a list of names or dest or mode is not a String. */
  const ScriptSettingsError := "invalid script settings"

  /** One turn of `build`'s install loop: the install of `srcs[i]`. */
  method InstallNext(makefile: Makefile, ghost start: MakefileState, srcs: seq<string>, i: nat, dest: string, mode: string)
    requires i < |srcs|
    requires makefile.Valid()
    requires makefile.State() == InstalledEach(makefile.host, start, srcs[..i], dest, mode)
    modifies makefile
    ensures makefile.Valid()
    ensures makefile.State() == InstalledEach(makefile.host, start, srcs[..i + 1], dest, mode)
  {
    InstalledEachPrefix(makefile.host, start, srcs, i, dest, mode);
    makefile.Install(srcs[i], dest, ScriptOptions(mode), false);
  }

  function UninstallRules(h: Host, srcs: seq<string>, dest: string): (r: seq<RValue>)
    ensures |r| == |srcs|
    ensures forall i :: 0 <= i < |srcs| ==> r[i] == Str(UninstallRule(h, srcs[i], dest))
    decreases |srcs|
  {
    if srcs == [] then [] else UninstallRules(h, srcs[..|srcs| - 1], dest) + [Str(UninstallRule(h, srcs[|srcs| - 1], dest))]
  }

  function InstallRules(mode: string, srcs: seq<string>, dest: string): (r: seq<RValue>)
    ensures |r| == |srcs|
    ensures forall i :: 0 <= i < |srcs| ==> r[i] == Str(InstallRule(mode, srcs[i], dest))
    decreases |srcs|
  {
    if srcs == [] then [] else InstallRules(mode, srcs[..|srcs| - 1], dest) + [Str(InstallRule(mode, srcs[|srcs| - 1], dest))]
  }

  /** Whether the installs create the destination directory: only when there is a source and dest is new. */
  predicate MakesDir(m: MakefileState, srcs: seq<string>, dest: string)
  {
    srcs != [] && Str(dest) !in m.mkdirList
  }

  /** One install of `build`'s loop, seen on the two targets it writes and on the directory list. */
  lemma InstalledStep(h: Host, p: MakefileState, src: string, dest: string, mode: string)
    ensures var r := Installed(h, p, src, dest, ScriptOptions(mode), false);
            && r.mkdirList == (if Str(dest) !in p.mkdirList then p.mkdirList + [Str(dest)] else p.mkdirList)
            && TargetOrEmpty(r, "install").rules == TargetOrEmpty(p, "install").rules
                 + (if Str(dest) !in p.mkdirList then [Str(MkdirRule(dest))] else [])
                 + [Str(InstallRule(mode, src, dest))]
            && TargetOrEmpty(r, "uninstall").rules == TargetOrEmpty(p, "uninstall").rules + [Str(UninstallRule(h, src, dest))]
  {
    var opts := ScriptOptions(mode);
    var m1 := WithDirRule(p, dest, opts);
    var m2 := WithRuleAt(m1, "install", Str(InstallRule(mode, src, dest)));
    var r := WithRuleAt(m2, "uninstall", Str(UninstallRule(h, src, dest)));
    assert CreatesDir(p, dest, opts) <==> Str(dest) !in p.mkdirList;
    assert TargetOrEmpty(m2, "uninstall") == TargetOrEmpty(m1, "uninstall");
    assert TargetOrEmpty(r, "install") == TargetOrEmpty(m2, "install");
  }

  /** An install leaves every target but `install` and `uninstall` as it was. */
  lemma InstalledFrame(h: Host, p: MakefileState, src: string, dest: string, mode: string, k: string)
    requires k != "install" && k != "uninstall"
    ensures TargetOrEmpty(Installed(h, p, src, dest, ScriptOptions(mode), false), k) == TargetOrEmpty(p, k)
  {
    var opts := ScriptOptions(mode);
    var m1 := WithDirRule(p, dest, opts);
    if CreatesDir(p, dest, opts) {
      assert TargetOrEmpty(m1, k) == TargetOrEmpty(p, k);
    }
    var m2 := WithRuleAt(m1, "install", Str(InstallRule(mode, src, dest)));
    assert TargetOrEmpty(m2, k) == TargetOrEmpty(m1, k);
  }

  lemma InstalledEachPrefix(h: Host, m: MakefileState, srcs: seq<string>, i: nat, dest: string, mode: string)
    requires i < |srcs|
    ensures InstalledEach(h, m, srcs[..i + 1], dest, mode)
         == Installed(h, InstalledEach(h, m, srcs[..i], dest, mode), srcs[i], dest, ScriptOptions(mode), false)
  {
    assert srcs[..i + 1][..i] == srcs[..i];
  }

  /** The installs record the destination directory once, when there is a source and it is new. */
  lemma {:induction false} InstalledEachMkdir(h: Host, m: MakefileState, srcs: seq<string>, dest: string, mode: string)
    ensures InstalledEach(h, m, srcs, dest, mode).mkdirList
         == m.mkdirList + (if MakesDir(m, srcs, dest) then [Str(dest)] else [])
    decreases |srcs|
  {
    if srcs != [] {
      var init := srcs[..|srcs| - 1];
      var p := InstalledEach(h, m, init, dest, mode);
      InstalledEachMkdir(h, m, init, dest, mode);
      InstalledStep(h, p, srcs[|srcs| - 1], dest, mode);
      if init != [] && Str(dest) !in m.mkdirList {
        assert p.mkdirList == m.mkdirList + [Str(dest)];
        assert Str(dest) in p.mkdirList;
      }
    }
  }

  /** Under `uninstall`, the installs add one removal per source, in order. */
  lemma {:induction false} InstalledEachUninstall(h: Host, m: MakefileState, srcs: seq<string>, dest: string, mode: string)
    ensures TargetOrEmpty(InstalledEach(h, m, srcs, dest, mode), "uninstall").rules
         == TargetOrEmpty(m, "uninstall").rules + UninstallRules(h, srcs, dest)
    decreases |srcs|
  {
    if srcs != [] {
      var init := srcs[..|srcs| - 1];
      var last := srcs[|srcs| - 1];
      var p := InstalledEach(h, m, init, dest, mode);
      InstalledEachUninstall(h, m, init, dest, mode);
      InstalledStep(h, p, last, dest, mode);
      AppendRule(TargetOrEmpty(m, "uninstall").rules, [], UninstallRules(h, init, dest), Str(UninstallRule(h, last, dest)));
    }
  }

  /**
   * Under `install`, the installs add the directory rule once (when there
   * is a source and the directory is new) and then one install rule per
   * source, in order.
   */
  lemma {:induction false} InstalledEachInstall(h: Host, m: MakefileState, srcs: seq<string>, dest: string, mode: string)
    ensures TargetOrEmpty(InstalledEach(h, m, srcs, dest, mode), "install").rules
         == TargetOrEmpty(m, "install").rules
            + (if MakesDir(m, srcs, dest) then [Str(MkdirRule(dest))] else [])
            + InstallRules(mode, srcs, dest)
    decreases |srcs|
  {
    if srcs != [] {
      var init := srcs[..|srcs| - 1];
      var p := InstalledEach(h, m, init, dest, mode);
      var a := TargetOrEmpty(m, "install").rules;
      var d := if MakesDir(m, srcs, dest) then [Str(MkdirRule(dest))] else [];
      InstalledEachInstall(h, m, init, dest, mode);
      InstalledStep(h, p, srcs[|srcs| - 1], dest, mode);
      if init == [] {
        AppendRule(a, d, [], Str(InstallRule(mode, srcs[|srcs| - 1], dest)));
      } else {
        InstalledEachMkdir(h, m, init, dest, mode);
        assert Str(dest) in p.mkdirList by {
          if Str(dest) !in m.mkdirList {
            assert p.mkdirList == m.mkdirList + [Str(dest)];
          }
        }
        AppendRule(a, d, InstallRules(mode, init, dest), Str(InstallRule(mode, srcs[|srcs| - 1], dest)));
      }
    }
  }

  lemma AppendRule(a: seq<RValue>, d: seq<RValue>, b: seq<RValue>, x: RValue)
    ensures a + d + b + [] + [x] == a + d + (b + [x])
    ensures a + d + [x] == a + d + ([] + [x])
    ensures a + b + [x] == a + (b + [x])
  {
  }

  /** The installs leave every target but `install` and `uninstall` as it was. */
  lemma {:induction false} InstalledEachFrame(h: Host, m: MakefileState, srcs: seq<string>, dest: string, mode: string, k: string)
    requires k != "install" && k != "uninstall"
    ensures TargetOrEmpty(InstalledEach(h, m, srcs, dest, mode), k) == TargetOrEmpty(m, k)
    decreases |srcs|
  {
    if srcs != [] {
      var init := srcs[..|srcs| - 1];
      InstalledEachFrame(h, m, init, dest, mode, k);
      InstalledFrame(h, InstalledEach(h, m, init, dest, mode), srcs[|srcs| - 1], dest, mode, k);
    }
  }

  /**
   * `Script#build` on a Makefile: the sources go to `distdir` exactly as
   * `distribute` puts them, and the install and uninstall rules are those
   * of the installs of every source into dest with the mode.
   */
  lemma ScriptBuildRules(h: Host, m: MakefileState, srcs: seq<string>, dest: string, mode: string)
    requires Consistent(m)
    ensures var r := ScriptBuilt(h, m, srcs, dest, mode);
            && TargetOrEmpty(r, "distdir") == TargetOrEmpty(DistributedAll(m, srcs), "distdir")
            && TargetOrEmpty(r, "install").rules == TargetOrEmpty(m, "install").rules
                 + (if MakesDir(m, srcs, dest) then [Str(MkdirRule(dest))] else [])
                 + InstallRules(mode, srcs, dest)
            && TargetOrEmpty(r, "uninstall").rules == TargetOrEmpty(m, "uninstall").rules + UninstallRules(h, srcs, dest)
  {
    var d := DistributedAll(m, srcs);
    FixedTargetsPresent(m);
    assert TargetOrEmpty(d, "install") == TargetOrEmpty(m, "install");
    assert TargetOrEmpty(d, "uninstall") == TargetOrEmpty(m, "uninstall");
    InstalledEachInstall(h, d, srcs, dest, mode);
    InstalledEachUninstall(h, d, srcs, dest, mode);
    InstalledEachFrame(h, d, srcs, dest, mode, "distdir");
  }

  // ---------------------------------------------------------------------
  // Header
  // ---------------------------------------------------------------------

  /** `path.upcase.gsub(/[.-]/, '_')` */
  function ConfigId(path: string): string
  {
    Underscore(Upcase(path), {'.', '-'})
  }

  /** A system header known to exist or not; `present` stands for the compile probe. */
  class Header {
    const path: string
    const present: bool

    constructor (path: string, present: bool)
      ensures this.path == path && this.present == present
    {
      this.path := path;
      this.present := present;
    }

    /** `to_config_h`: the `config.h` line for this header. */
    function ToConfigH(): string
    {
      if present then "#define HAVE_" + ConfigId(path) + " 1\n" else "#undef  HAVE_" + ConfigId(path) + "\n"
    }
  }

  /**
   * The line defines the macro exactly when the header exists, the macro
   * name is `HAVE_` and the identifier, and the identifier has the path's
   * length, no lower-case letter, and no `.` or `-`.
   */
  lemma ConfigLine(hd: Header)
    ensures StartsWith(hd.ToConfigH(), "#define ") <==> hd.present
    ensures hd.present ==> hd.ToConfigH() == "#define HAVE_" + ConfigId(hd.path) + " 1\n"
    ensures !hd.present ==> hd.ToConfigH() == "#undef  HAVE_" + ConfigId(hd.path) + "\n"
    ensures var id := ConfigId(hd.path);
            |id| == |hd.path| && forall i :: 0 <= i < |id| ==> id[i] != '.' && id[i] != '-' && !('a' <= id[i] <= 'z')
  {
    var line := hd.ToConfigH();
    if !hd.present {
      assert line[1] == 'u';
    }
  }
}
