/**
 * Makefile: the variables and targets of one generated Makefile, plus the
 * list of installation directories whose creation rule has already been
 * emitted.
 *
 * `class Makefile` follows trunk/lib/makeconf/makefile.rb; the older
 * makefile.rb has the same state and the same methods except that its
 * `distribute` takes a single path and it adds `toplevel_init`, so both are
 * methods of the one class here.  Each method is specified by a function on
 * `MakefileState`, and the lemmas state what the methods promise.
 */
module Makefiles {
  import opened Strings
  import opened RubyValues
  import opened Platform
  import opened Targets

  datatype MakefileState = MakefileState(
    vars: map<string, (string, string)>,
    targets: map<string, TargetState>,
    mkdirList: seq<RValue>)

  /** The phony targets every Makefile starts with. */
  const FixedTargets: seq<string> := ["all", "check", "clean", "distclean", "install", "uninstall", "distdir"]

  /** Every target is stored under its own name, and the fixed targets are present. */
  ghost predicate Consistent(m: MakefileState)
  {
    (forall k :: k in m.targets ==> m.targets[k].name == k && Wellformed(m.targets[k]))
    && (forall i :: 0 <= i < |FixedTargets| ==> FixedTargets[i] in m.targets)
  }

  /** The state right after `Makefile.new`. */
  function Initial(): (m: MakefileState)
    ensures Consistent(m)
    ensures m.vars == map[] && m.mkdirList == []
    ensures forall k :: k in m.targets <==> k in FixedTargets
    ensures forall k :: k in m.targets ==> m.targets[k] == Empty(k)
  {
    MakefileState(map[], map k | k in FixedTargets :: Empty(k), [])
  }

  // ---------------------------------------------------------------------
  // The operations, as functions on the Makefile's value
  // ---------------------------------------------------------------------

  /**
   * `define_variable(lval, op, rval)`: a nil name or operator throws
   * "invalid arguments", a nil value throws "variable ... is undefined";
   * otherwise the name is (re)defined and no other variable changes.
   */
  function Defined(m: MakefileState, lval: Option<string>, op: Option<string>, rval: Option<string>): (r: Result<MakefileState>)
    ensures r.Ok? <==> lval.Some? && op.Some? && rval.Some?
    ensures r.Err? && (lval.None? || op.None?) ==> r.error == "invalid arguments"
    ensures r.Ok? ==> r.value.targets == m.targets && r.value.mkdirList == m.mkdirList
    ensures r.Ok? ==> r.value.vars.Keys == m.vars.Keys + {lval.value}
    ensures r.Ok? ==> r.value.vars[lval.value] == (op.value, rval.value)
    ensures r.Ok? ==> forall k :: k in m.vars && k != lval.value ==> r.value.vars[k] == m.vars[k]
  {
    if lval.None? || op.None? then Err("invalid arguments")
    else if rval.None? then Err("variable `" + lval.value + "' is undefined")
    else Ok(m.(vars := m.vars[lval.value := (op.value, rval.value)]))
  }

  /**
   * `add_target(name, deps, rules)`: a fresh target replaces any target of
   * that name; the Target constructor's argument checks apply.
   */
  function WithTarget(m: MakefileState, name: string, deps: RValue, rules: RValue): (r: Result<MakefileState>)
    ensures r.Ok? <==> New(Str(name), deps, rules).Ok?
    ensures r.Ok? ==> r.value.targets.Keys == m.targets.Keys + {name}
    ensures r.Ok? ==> r.value.targets[name] == New(Str(name), deps, rules).value
    ensures r.Ok? ==> r.value.targets[name].dirs == [] && r.value.targets[name].copies == []
    ensures r.Ok? ==> forall k :: k in m.targets && k != name ==> r.value.targets[k] == m.targets[k]
    ensures r.Ok? ==> r.value.vars == m.vars && r.value.mkdirList == m.mkdirList
    ensures r.Ok? && Consistent(m) ==> Consistent(r.value)
  {
    match New(Str(name), deps, rules)
    case Err(e) => Err(e)
    case Ok(t) => Ok(m.(targets := m.targets[name := t]))
  }

  /** The target `name`, created empty when missing. */
  function TargetOrEmpty(m: MakefileState, name: string): TargetState
  {
    if name in m.targets then m.targets[name] else Empty(name)
  }

  /** `add_rule(target, rule)`: creates a missing target first, then appends the rule. */
  function WithRuleAt(m: MakefileState, target: string, rule: RValue): (r: MakefileState)
    ensures r.targets.Keys == m.targets.Keys + {target}
    ensures r.targets[target].rules == TargetOrEmpty(m, target).rules + [rule]
    ensures r.targets[target] == TargetOrEmpty(m, target).(rules := r.targets[target].rules)
    ensures forall k :: k in m.targets && k != target ==> r.targets[k] == m.targets[k]
    ensures r.vars == m.vars && r.mkdirList == m.mkdirList
    ensures Consistent(m) ==> Consistent(r)
  {
    m.(targets := m.targets[target := WithRule(TargetOrEmpty(m, target), rule)])
  }

  /**
   * `add_dependency(target, d)`: a missing target is created with `[d]` as
   * its dependencies, and then `d` is added with set semantics.
   */
  function WithDependencyAt(m: MakefileState, target: string, d: RValue): (r: MakefileState)
    ensures r.targets.Keys == m.targets.Keys + {target}
    ensures d in r.targets[target].deps
    ensures r.targets[target] == WithDependency(if target in m.targets then m.targets[target] else TargetState(target, [d], [], [], []), d)
    ensures forall k :: k in m.targets && k != target ==> r.targets[k] == m.targets[k]
    ensures r.vars == m.vars && r.mkdirList == m.mkdirList
    ensures Consistent(m) ==> Consistent(r)
  {
    var t := if target in m.targets then m.targets[target] else TargetState(target, [d], [], [], []);
    m.(targets := m.targets[target := WithDependency(t, d)])
  }

  /**
   * `distribute(path)` of makefile.rb (one element of the loop in
   * trunk/lib/makeconf/makefile.rb): a path with a `/` creates
   * `$(distdir)/<dirname>` and is copied there; any other path is copied
   * into `$(distdir)`.
   */
  function DistDestination(path: string): string
  {
    if '/' in path then "$(distdir)/" + Dirname(path) else "$(distdir)"
  }

  /** What `distribute(path)` does to the `distdir` target on its own. */
  function DistdirWith(t: TargetState, path: string): (r: TargetState)
    ensures Wellformed(t) ==> Wellformed(r)
    ensures r.name == t.name && r.rules == t.rules && r.deps == t.deps
  {
    var dst := DistDestination(path);
    var t0 := if '/' in path then WithDir(t, dst) else t;
    assert Wellformed(t) ==> Wellformed(WithCopy(t0, path, dst)) by {
      if Wellformed(t) {
        CopyAppends(t0, path, dst, dst);
      }
    }
    WithCopy(t0, path, dst)
  }

  function Distributed(m: MakefileState, path: string): (r: MakefileState)
    requires Consistent(m)
    ensures Consistent(r)
    ensures r.vars == m.vars && r.mkdirList == m.mkdirList && r.targets.Keys == m.targets.Keys
    ensures forall k :: k in m.targets && k != "distdir" ==> r.targets[k] == m.targets[k]
    ensures "distdir" in m.targets && r.targets["distdir"] == DistdirWith(m.targets["distdir"], path)
  {
    assert FixedTargets[6] == "distdir";
    m.(targets := m.targets["distdir" := DistdirWith(m.targets["distdir"], path)])
  }

  /**
   * makefile.rb's `distribute` given a list of paths: a list never matches
   * `/\//` (`=~` on an Array answers nil), so the whole list becomes one
   * entry copied into `$(distdir)`, which `cp` renders space-joined.
   */
  function ListDistributed(m: MakefileState, paths: seq<string>): (r: MakefileState)
    requires Consistent(m)
    ensures Consistent(r)
    ensures r.vars == m.vars && r.mkdirList == m.mkdirList && r.targets.Keys == m.targets.Keys
    ensures forall k :: k in m.targets && k != "distdir" ==> r.targets[k] == m.targets[k]
  {
    assert FixedTargets[6] == "distdir";
    var t := m.targets["distdir"];
    CopyAppends(t, Spaced(paths), "$(distdir)", "$(distdir)");
    m.(targets := m.targets["distdir" := WithCopy(t, Spaced(paths), "$(distdir)")])
  }

  /** `distribute(paths)` of trunk/lib/makeconf/makefile.rb: each path in turn. */
  function DistributedAll(m: MakefileState, paths: seq<string>): (r: MakefileState)
    requires Consistent(m)
    ensures Consistent(r)
    ensures r.vars == m.vars && r.mkdirList == m.mkdirList && r.targets.Keys == m.targets.Keys
    ensures forall k :: k in m.targets && k != "distdir" ==> r.targets[k] == m.targets[k]
    decreases |paths|
  {
    if paths == [] then m
    else DistributedAll(Distributed(m, paths[0]), paths[1..])
  }

  /** `clean(path)`: an `rm` rule under `clean`. */
  function Cleaned(h: Host, m: MakefileState, path: string): MakefileState
  {
    WithRuleAt(m, "clean", Str(Rm(h, [path])))
  }

  /** `distclean(path)`: an `rm` rule under `distclean`. */
  function Distcleaned(h: Host, m: MakefileState, path: string): MakefileState
  {
    WithRuleAt(m, "distclean", Str(Rm(h, [path])))
  }

  /**
   * The options of `install`: `mode` is the `'mode'` entry (None when it is
   * absent or nil); `mkdir` is the truthiness of the `'mkdir'` entry, None
   * when the key is absent.
   */
  datatype InstallOptions = InstallOptions(mode: Option<string>, mkdir: Option<bool>)

  /** The mode `install` uses: the option, else 755 for an executable source and 644 otherwise. */
  function InstallMode(opts: InstallOptions, executable: bool): (r: string)
    ensures opts.mode.Some? ==> r == opts.mode.value
    ensures opts.mode.None? ==> r == (if executable then "755" else "644")
  {
    if opts.mode.Some? then opts.mode.value else if executable then "755" else "644"
  }

  function MkdirRule(dst: string): string
  {
    "test -e $(DESTDIR)" + dst + " || $(INSTALL) -d -m 755 $(DESTDIR)" + dst
  }

  function InstallRule(mode: string, src: string, dst: string): string
  {
    "$(INSTALL) -m " + mode + " " + src + " $(DESTDIR)" + dst
  }

  function UninstallRule(h: Host, src: string, dst: string): string
  {
    Rm(h, ["$(DESTDIR)" + dst + "/" + Basename(src)])
  }

  /** Whether `install` emits the directory-creation rule for `dst`. */
  predicate CreatesDir(m: MakefileState, dst: string, opts: InstallOptions)
  {
    (opts.mkdir.None? || opts.mkdir.value) && Str(dst) !in m.mkdirList
  }

  /**
   * `install(src, dst, opt)`; `executable` stands for `File.executable?(src)`.
   */
  function Installed(h: Host, m: MakefileState, src: string, dst: string, opts: InstallOptions, executable: bool): (r: MakefileState)
    ensures Consistent(m) ==> Consistent(r)
  {
    var m2 := WithRuleAt(WithDirRule(m, dst, opts), "install", Str(InstallRule(InstallMode(opts, executable), src, dst)));
    WithRuleAt(m2, "uninstall", Str(UninstallRule(h, src, dst)))
  }

  /** The first step of `install`: the directory rule, when `CreatesDir`, and its record in the directory list. */
  function WithDirRule(m: MakefileState, dst: string, opts: InstallOptions): (r: MakefileState)
    ensures r.targets.Keys == m.targets.Keys + (if CreatesDir(m, dst, opts) then {"install"} else {})
    ensures TargetOrEmpty(r, "install").rules ==
              TargetOrEmpty(m, "install").rules + (if CreatesDir(m, dst, opts) then [Str(MkdirRule(dst))] else [])
    ensures TargetOrEmpty(r, "uninstall") == TargetOrEmpty(m, "uninstall")
    ensures r.mkdirList == (if CreatesDir(m, dst, opts) then m.mkdirList + [Str(dst)] else m.mkdirList)
    ensures r.vars == m.vars
    ensures Consistent(m) ==> Consistent(r)
  {
    if CreatesDir(m, dst, opts)
    then WithRuleAt(m, "install", Str(MkdirRule(dst))).(mkdirList := m.mkdirList + [Str(dst)])
    else m
  }

  /** The tarball target `make_dist(project, version)` creates. */
  function DistRules(h: Host, distdir: string): (r: seq<RValue>)
    ensures |r| == if IsWindows(h) then 3 else 7
  {
    var common := [Str(Rmdir(h, distdir)), Str("mkdir " + distdir), Str("$(MAKE) distdir distdir=" + distdir)];
    if IsWindows(h) then common
    else common + [Str("rm -rf " + distdir + ".tar " + distdir + ".tar.gz"),
                   Str("tar cf " + distdir + ".tar " + distdir),
                   Str("gzip " + distdir + ".tar"),
                   Str("rm -rf " + distdir)]
  }

  function WithDist(h: Host, m: MakefileState, project: string, version: string): (r: MakefileState)
    ensures Consistent(m) ==> Consistent(r)
  {
    var distdir := project + "-" + version;
    var distfile := distdir + ".tar.gz";
    var m1 := if IsWindows(h) then m else Cleaned(h, m, distfile);
    m1.(targets := m1.targets[distfile := TargetState(distfile, [], DistRules(h, distdir), [], [])])
  }

  /** `merge!` of the target maps: same-named targets are merged, the others adopted. */
  function MergeTargets(a: map<string, TargetState>, b: map<string, TargetState>): (r: map<string, TargetState>)
    ensures r.Keys == a.Keys + b.Keys
  {
    map k | k in a.Keys + b.Keys :: MergedEntry(a, b, k)
  }

  /** The target `merge!` leaves under one name: merged if both have it, else whichever has it. */
  function MergedEntry(a: map<string, TargetState>, b: map<string, TargetState>, k: string): TargetState
    requires k in a || k in b
  {
    if k in b then (if k in a then Merged(a[k], b[k]) else b[k]) else a[k]
  }

  /**
   * `merge!(src)`: the other Makefile's variables win, its targets are merged
   * or adopted, and its directory list is pushed as ONE nested element.
   */
  function MergedMakefile(m: MakefileState, src: MakefileState): MakefileState
  {
    MakefileState(m.vars + src.vars, MergeTargets(m.targets, src.targets), m.mkdirList + [List(src.mkdirList)])
  }

  /** The first two steps of `toplevel_init`: the `dist` target and the install check. */
  function ToplevelPrepared(m: MakefileState): (r: MakefileState)
    requires Consistent(m)
    ensures Consistent(r)
    ensures r.targets.Keys == m.targets.Keys + {"dist"}
    ensures r.targets["dist"] == TargetState("dist", [Str("clean"), Str("$(DISTFILE)")], [], [], [])
    ensures "install" in m.targets && r.targets["install"] == WithRule(m.targets["install"], Str("test -e $(DESTDIR)"))
    ensures forall k :: k in m.targets && k != "dist" && k != "install" ==> r.targets[k] == m.targets[k]
    ensures r.vars == m.vars && r.mkdirList == m.mkdirList
  {
    var m1 := m.(targets := m.targets["dist" := TargetState("dist", [Str("clean"), Str("$(DISTFILE)")], [], [], [])]);
    assert FixedTargets[4] == "install";
    m1.(targets := m1.targets["install" := WithRule(m1.targets["install"], Str("test -e $(DESTDIR)"))])
  }

  /** `toplevel_init` once the makeconf.rb to ship has been found at `found`. */
  function ToplevelDistributed(m: MakefileState, found: string): (r: MakefileState)
    requires Consistent(m)
    ensures Consistent(r)
  {
    Distributed(Distributed(Distributed(ToplevelPrepared(m), "config.yaml"), "configure"), found)
  }

  /** makefile.rb's `toplevel_init`; the two flags stand for `File.exists?` on the two candidate paths. */
  function ToplevelInitialized(m: MakefileState, hasMakeconf: bool, hasSubdirMakeconf: bool): (r: Result<MakefileState>)
    requires Consistent(m)
    ensures r.Ok? <==> hasMakeconf || hasSubdirMakeconf
    ensures r.Err? ==> r.error == "Unable to locate makeconf.rb"
  {
    if hasMakeconf then Ok(ToplevelDistributed(m, "makeconf.rb"))
    else if hasSubdirMakeconf then Ok(ToplevelDistributed(m, "makeconf/makeconf.rb"))
    else Err("Unable to locate makeconf.rb")
  }

  /** Two top-level paths distributed in turn are copied into `$(distdir)` in that order. */
  lemma DistdirTwoTopLevel(t: TargetState, p1: string, p2: string)
    requires Wellformed(t) && '/' !in p1 && '/' !in p2
    ensures var after := DistdirWith(DistdirWith(t, p1), p2);
            && after.dirs == t.dirs
            && Lookup(after.copies, "$(distdir)") == Lookup(t.copies, "$(distdir)") + [p1, p2]
  {
    DistdirEffect(t, p1, "");
    DistdirEffect(DistdirWith(t, p1), p2, "");
  }

  /** Three top-level paths distributed in turn are copied into `$(distdir)` in that order. */
  lemma DistdirThreeTopLevel(t: TargetState, p1: string, p2: string, p3: string)
    requires Wellformed(t) && '/' !in p1 && '/' !in p2 && '/' !in p3
    ensures var after := DistdirWith(DistdirWith(DistdirWith(t, p1), p2), p3);
            && after.dirs == t.dirs
            && Lookup(after.copies, "$(distdir)") == Lookup(t.copies, "$(distdir)") + [p1, p2, p3]
  {
    var a := DistdirWith(DistdirWith(t, p1), p2);
    DistdirTwoTopLevel(t, p1, p2);
    DistdirEffect(a, p3, "");
    AppendOneMore(Lookup(t.copies, "$(distdir)"), [p1, p2], p3);
  }

  lemma AppendOneMore(l: seq<string>, s: seq<string>, x: string)
    ensures l + s + [x] == l + (s + [x])
  {
  }

  /**
   * Two top-level paths and then one with its own destination: the first
   * two go into `$(distdir)`, the last into that destination.
   */
  lemma DistdirTwoThenSub(t: TargetState, p1: string, p2: string, p3: string)
    requires Wellformed(t) && '/' !in p1 && '/' !in p2 && DistDestination(p3) != "$(distdir)"
    ensures var after := DistdirWith(DistdirWith(DistdirWith(t, p1), p2), p3);
            var dst := DistDestination(p3);
            && Lookup(after.copies, "$(distdir)") == Lookup(t.copies, "$(distdir)") + [p1, p2]
            && Lookup(after.copies, dst) == Lookup(t.copies, dst) + [p3]
  {
    var dst := DistDestination(p3);
    var b := DistdirWith(t, p1);
    var a := DistdirWith(b, p2);
    DistdirTwoTopLevel(t, p1, p2);
    DistdirEffect(t, p1, dst);
    DistdirEffect(b, p2, dst);
    DistdirEffect(a, p3, "$(distdir)");
  }

  /** The `distdir` target after `toplevel_init` is the old one with the three paths distributed. */
  lemma ToplevelDistdir(m: MakefileState, found: string)
    requires Consistent(m)
    ensures "distdir" in m.targets
    ensures ToplevelDistributed(m, found).targets["distdir"]
         == DistdirWith(DistdirWith(DistdirWith(m.targets["distdir"], "config.yaml"), "configure"), found)
  {
    FixedTargetsPresent(m);
    var m2 := ToplevelPrepared(m);
    var m3 := Distributed(m2, "config.yaml");
    var m4 := Distributed(m3, "configure");
    assert ToplevelDistributed(m, found) == Distributed(m4, found);
  }

  /** `toplevel_init` changes no target but `dist`, `install` and `distdir`, and no variable. */
  lemma ToplevelKeeps(m: MakefileState, found: string)
    requires Consistent(m)
    ensures var r := ToplevelDistributed(m, found);
            && r.targets.Keys == m.targets.Keys + {"dist"}
            && r.targets["dist"] == TargetState("dist", [Str("clean"), Str("$(DISTFILE)")], [], [], [])
            && "install" in m.targets
            && r.targets["install"] == WithRule(m.targets["install"], Str("test -e $(DESTDIR)"))
            && (forall k :: k in m.targets && k != "dist" && k != "install" && k != "distdir" ==> r.targets[k] == m.targets[k])
            && r.vars == m.vars && r.mkdirList == m.mkdirList
  {
    var m2 := ToplevelPrepared(m);
    var m3 := Distributed(m2, "config.yaml");
    var m4 := Distributed(m3, "configure");
    assert ToplevelDistributed(m, found) == Distributed(m4, found);
  }

  /** With makeconf.rb at the top level, `distdir` copies the three files into `$(distdir)`. */
  lemma ToplevelDistdirTop(m: MakefileState)
    requires Consistent(m)
    ensures "distdir" in m.targets
    ensures var before := m.targets["distdir"];
            var after := ToplevelDistributed(m, "makeconf.rb").targets["distdir"];
            && after.rules == before.rules && after.deps == before.deps && after.dirs == before.dirs
            && Lookup(after.copies, "$(distdir)") == Lookup(before.copies, "$(distdir)") + ["config.yaml", "configure", "makeconf.rb"]
  {
    FixedTargetsPresent(m);
    NoSlash();
    ToplevelDistdir(m, "makeconf.rb");
    DistdirThreeTopLevel(m.targets["distdir"], "config.yaml", "configure", "makeconf.rb");
  }

  /** The three names `toplevel_init` ships from the top level have no `/`. */
  lemma NoSlash()
    ensures '/' !in "config.yaml" && '/' !in "configure" && '/' !in "makeconf.rb"
  {
  }

  /**
   * With makeconf.rb found under makeconf/, `config.yaml` and `configure`
   * go into `$(distdir)` and makeconf/makeconf.rb into its own directory.
   */
  lemma ToplevelDistdirSub(m: MakefileState)
    requires Consistent(m)
    ensures "distdir" in m.targets
    ensures var before := m.targets["distdir"];
            var after := ToplevelDistributed(m, "makeconf/makeconf.rb").targets["distdir"];
            var dst := DistDestination("makeconf/makeconf.rb");
            && after.rules == before.rules && after.deps == before.deps
            && Lookup(after.copies, "$(distdir)") == Lookup(before.copies, "$(distdir)") + ["config.yaml", "configure"]
            && Lookup(after.copies, dst) == Lookup(before.copies, dst) + ["makeconf/makeconf.rb"]
  {
    FixedTargetsPresent(m);
    NoSlash();
    SubdirDestination();
    ToplevelDistdir(m, "makeconf/makeconf.rb");
    DistdirTwoThenSub(m.targets["distdir"], "config.yaml", "configure", "makeconf/makeconf.rb");
  }

  /**
   * `toplevel_init` on success: `dist` depends on `clean` and
   * `$(DISTFILE)` and has no rules, `install` ends with `test -e
   * $(DESTDIR)`, `distdir` copies `config.yaml`, `configure` and then the
   * makeconf.rb that was found, and no other target or variable changes.
   */
  lemma ToplevelInitializedSpec(m: MakefileState, hasMakeconf: bool, hasSubdirMakeconf: bool)
    requires Consistent(m) && (hasMakeconf || hasSubdirMakeconf)
    ensures "install" in m.targets && "distdir" in m.targets
    ensures var r := ToplevelInitialized(m, hasMakeconf, hasSubdirMakeconf).value;
            && r.targets.Keys == m.targets.Keys + {"dist"}
            && r.targets["dist"] == TargetState("dist", [Str("clean"), Str("$(DISTFILE)")], [], [], [])
            && r.targets["install"] == WithRule(m.targets["install"], Str("test -e $(DESTDIR)"))
            && (forall k :: k in m.targets && k != "dist" && k != "install" && k != "distdir" ==> r.targets[k] == m.targets[k])
            && r.vars == m.vars && r.mkdirList == m.mkdirList
    ensures var before := m.targets["distdir"];
            var after := ToplevelInitialized(m, hasMakeconf, hasSubdirMakeconf).value.targets["distdir"];
            && after.rules == before.rules && after.deps == before.deps
            && (hasMakeconf ==> after.dirs == before.dirs)
            && (hasMakeconf ==>
                  Lookup(after.copies, "$(distdir)") == Lookup(before.copies, "$(distdir)") + ["config.yaml", "configure", "makeconf.rb"])
            && (!hasMakeconf ==> Lookup(after.copies, "$(distdir)") == Lookup(before.copies, "$(distdir)") + ["config.yaml", "configure"])
            && (!hasMakeconf ==> var dst := DistDestination("makeconf/makeconf.rb");
                  Lookup(after.copies, dst) == Lookup(before.copies, dst) + ["makeconf/makeconf.rb"])
  {
    FixedTargetsPresent(m);
    if hasMakeconf {
      ToplevelKeeps(m, "makeconf.rb");
      ToplevelDistdirTop(m);
    } else {
      ToplevelKeeps(m, "makeconf/makeconf.rb");
      ToplevelDistdirSub(m);
    }
  }

  /** `makeconf/makeconf.rb` is copied into its own directory, not into `$(distdir)`. */
  lemma SubdirDestination()
    ensures DistDestination("makeconf/makeconf.rb") != "$(distdir)"
  {
    assert "makeconf/makeconf.rb"[8] == '/';
    assert |DistDestination("makeconf/makeconf.rb")| > |"$(distdir)"|;
  }

  // ---------------------------------------------------------------------
  // Serialisation
  // ---------------------------------------------------------------------

  /** `name + op + value + "\n"` for each variable, in the order of `ks`. */
  function VarLines(vars: map<string, (string, string)>, ks: seq<string>): string
    requires forall i :: 0 <= i < |ks| ==> ks[i] in vars
  {
    if ks == [] then ""
    else ks[0] + vars[ks[0]].0 + vars[ks[0]].1 + "\n" + VarLines(vars, ks[1..])
  }

  /** The targets' texts, in the order of `ks`; fails when one of them fails. */
  function TargetTexts(h: Host, style: MkdirStyle, targets: map<string, TargetState>, ks: seq<string>): (r: Result<string>)
    requires forall i :: 0 <= i < |ks| ==> ks[i] in targets
    ensures r.Ok? <==> forall i :: 0 <= i < |ks| ==> TargetText(h, style, targets[ks[i]]).Ok?
  {
    if ks == [] then Ok("")
    else match TargetText(h, style, targets[ks[0]])
      case Err(e) => Err(e)
      case Ok(first) =>
        match TargetTexts(h, style, targets, ks[1..])
        case Err(e) => Err(e)
        case Ok(rest) => Ok(first + rest)
  }

  /** `to_s`: the variables sorted by name, `default: all`, then the targets sorted by name. */
  ghost function MakefileText(h: Host, style: MkdirStyle, m: MakefileState): Result<string>
  {
    var vs := SortedElements(m.vars.Keys);
    var ts := SortedElements(m.targets.Keys);
    match TargetTexts(h, style, m.targets, ts)
    case Err(e) => Err(e)
    case Ok(body) => Ok(VarLines(m.vars, vs) + "\n\n" + "default: all\n" + body)
  }

  // ---------------------------------------------------------------------
  // What the operations promise
  // ---------------------------------------------------------------------

  /** A consistent Makefile has each of the fixed targets. */
  lemma FixedTargetsPresent(m: MakefileState)
    requires Consistent(m)
    ensures "all" in m.targets && "check" in m.targets && "clean" in m.targets && "distclean" in m.targets
    ensures "install" in m.targets && "uninstall" in m.targets && "distdir" in m.targets
  {
    assert FixedTargets[0] == "all" && FixedTargets[1] == "check" && FixedTargets[2] == "clean";
    assert FixedTargets[3] == "distclean" && FixedTargets[4] == "install";
    assert FixedTargets[5] == "uninstall" && FixedTargets[6] == "distdir";
  }

  /** A dependency added to a missing target appears exactly once. */
  lemma DependencyOfNewTarget(m: MakefileState, target: string, d: RValue)
    requires target !in m.targets
    ensures WithDependencyAt(m, target, d).targets[target].deps == [d]
  {
    UniqAppend([d], d);
    UniqOfDistinct([d]);
    assert [d] + [d] == [d, d];
  }

  /** Adding a dependency twice is the same as adding it once. */
  lemma AddDependencyIdempotentAt(m: MakefileState, target: string, d: RValue)
    requires Consistent(m)
    ensures WithDependencyAt(WithDependencyAt(m, target, d), target, d) == WithDependencyAt(m, target, d)
  {
    var m1 := WithDependencyAt(m, target, d);
    var t1 := m1.targets[target];
    assert d in t1.deps;
    AddDependencyIdempotent(t1, d);
    assert m1.targets[target := t1] == m1.targets;
  }

  /** What `distribute(path)` does to a `distdir` target's directories and copies. */
  lemma DistdirEffect(t: TargetState, path: string, other: string)
    requires Wellformed(t)
    ensures var after := DistdirWith(t, path);
            var dst := DistDestination(path);
            && after.dirs == (if '/' in path && dst !in t.dirs then t.dirs + [dst] else t.dirs)
            && Lookup(after.copies, dst) == Lookup(t.copies, dst) + [path]
            && (other != dst ==> Lookup(after.copies, other) == Lookup(t.copies, other))
  {
    var dst := DistDestination(path);
    var t0 := if '/' in path then WithDir(t, dst) else t;
    CopyAppends(t0, path, dst, other);
  }

  /** What `distribute(path)` does to `distdir`'s directories and copies. */
  lemma DistributeEffect(m: MakefileState, path: string, other: string)
    requires Consistent(m)
    ensures "distdir" in m.targets
    ensures var before := m.targets["distdir"];
            var after := Distributed(m, path).targets["distdir"];
            var dst := DistDestination(path);
            && after.dirs == (if '/' in path && dst !in before.dirs then before.dirs + [dst] else before.dirs)
            && Lookup(after.copies, dst) == Lookup(before.copies, dst) + [path]
            && (other != dst ==> Lookup(after.copies, other) == Lookup(before.copies, other))
            && after.rules == before.rules && after.deps == before.deps
  {
    FixedTargetsPresent(m);
    DistdirEffect(m.targets["distdir"], path, other);
  }

  /**
   * A list given to makefile.rb's `distribute` creates no directory, even
   * when some path in it has a `/`, and is copied into `$(distdir)` as one
   * space-joined entry.
   */
  lemma ListDistributeEffect(m: MakefileState, paths: seq<string>)
    requires Consistent(m)
    ensures "distdir" in m.targets
    ensures var t, t' := m.targets["distdir"], ListDistributed(m, paths).targets["distdir"];
            && t'.dirs == t.dirs
            && Lookup(t'.copies, "$(distdir)") == Lookup(t.copies, "$(distdir)") + [Spaced(paths)]
            && (forall d :: d != "$(distdir)" ==> Lookup(t'.copies, d) == Lookup(t.copies, d))
  {
    FixedTargetsPresent(m);
    var t := m.targets["distdir"];
    forall d
      ensures Lookup(WithCopy(t, Spaced(paths), "$(distdir)").copies, d)
           == if d == "$(distdir)" then Lookup(t.copies, d) + [Spaced(paths)] else Lookup(t.copies, d)
    {
      CopyAppends(t, Spaced(paths), "$(distdir)", d);
    }
  }

  /** A path without `/` is copied straight into `$(distdir)`, and no directory is created. */
  lemma DistributeTopLevel(m: MakefileState, path: string)
    requires Consistent(m) && '/' !in path
    ensures "distdir" in m.targets
    ensures Distributed(m, path).targets["distdir"].dirs == m.targets["distdir"].dirs
    ensures Lookup(Distributed(m, path).targets["distdir"].copies, "$(distdir)") ==
              Lookup(m.targets["distdir"].copies, "$(distdir)") + [path]
  {
    DistributeEffect(m, path, "");
  }

  lemma AppendHeadTail(a: seq<string>, s: seq<string>)
    requires s != []
    ensures a + [s[0]] + s[1..] == a + s
  {
    assert [s[0]] + s[1..] == s;
  }

  /**
   * trunk's `distribute` of paths without `/` copies them, in order, into
   * `$(distdir)` and creates no directory.
   */
  lemma {:induction false} DistributeAllTopLevel(m: MakefileState, paths: seq<string>)
    requires Consistent(m)
    requires forall i :: 0 <= i < |paths| ==> '/' !in paths[i]
    ensures "distdir" in m.targets
    ensures DistributedAll(m, paths).targets["distdir"].dirs == m.targets["distdir"].dirs
    ensures Lookup(DistributedAll(m, paths).targets["distdir"].copies, "$(distdir)")
         == Lookup(m.targets["distdir"].copies, "$(distdir)") + paths
    decreases |paths|
  {
    FixedTargetsPresent(m);
    if paths != [] {
      var m1 := Distributed(m, paths[0]);
      var rest := paths[1..];
      assert DistributedAll(m, paths) == DistributedAll(m1, rest);
      DistributeTopLevel(m, paths[0]);
      assert forall i :: 0 <= i < |rest| ==> rest[i] == paths[i + 1];
      DistributeAllTopLevel(m1, rest);
      AppendHeadTail(Lookup(m.targets["distdir"].copies, "$(distdir)"), paths);
    }
  }

  /**
   * The rules `install` adds: the directory rule only when `CreatesDir`, then
   * one install rule; one uninstall rule; and `dst` is recorded as created.
   */
  lemma InstallRules(h: Host, m: MakefileState, src: string, dst: string, opts: InstallOptions, executable: bool)
    requires Consistent(m)
    ensures var r := Installed(h, m, src, dst, opts, executable);
            var mode := InstallMode(opts, executable);
            && Consistent(r)
            && r.targets["install"].rules ==
                 TargetOrEmpty(m, "install").rules
                 + (if CreatesDir(m, dst, opts) then [Str(MkdirRule(dst))] else [])
                 + [Str(InstallRule(mode, src, dst))]
            && r.targets["uninstall"].rules == TargetOrEmpty(m, "uninstall").rules + [Str(UninstallRule(h, src, dst))]
            && r.mkdirList == (if CreatesDir(m, dst, opts) then m.mkdirList + [Str(dst)] else m.mkdirList)
            && r.vars == m.vars
  {
  }

  /** A second install into the same directory does not create it again. */
  lemma InstallCreatesDirOnce(h: Host, m: MakefileState, src1: string, src2: string, dst: string,
                              opts1: InstallOptions, opts2: InstallOptions, x1: bool, x2: bool)
    requires Consistent(m)
    requires CreatesDir(m, dst, opts1)
    ensures !CreatesDir(Installed(h, m, src1, dst, opts1, x1), dst, opts2)
  {
    InstallRules(h, m, src1, dst, opts1, x1);
  }

  /**
   * The directories a merged-in Makefile had created are pushed as one
   * nested list, so `install` into one of them emits the creation rule again.
   */
  lemma MergedDirectoriesForgotten(m: MakefileState, src: MakefileState, dst: string, opts: InstallOptions)
    requires Str(dst) in src.mkdirList && Str(dst) !in m.mkdirList
    requires opts.mkdir.None?
    ensures CreatesDir(MergedMakefile(m, src), dst, opts)
  {
    assert MergedMakefile(m, src).mkdirList == m.mkdirList + [List(src.mkdirList)];
  }

  /** `merge!`: the other Makefile's variables win, same-named targets are merged, the rest is adopted. */
  lemma MakefileMergeProperties(m: MakefileState, src: MakefileState, k: string)
    requires Consistent(m) && Consistent(src)
    ensures Consistent(MergedMakefile(m, src))
    ensures k in src.vars ==> MergedMakefile(m, src).vars[k] == src.vars[k]
    ensures k in m.vars && k !in src.vars ==> MergedMakefile(m, src).vars[k] == m.vars[k]
    ensures k in src.targets && k in m.targets ==>
              Targets.Merge(m.targets[k], src.targets[k]) == Ok(MergedMakefile(m, src).targets[k])
    ensures k in src.targets && k !in m.targets ==> MergedMakefile(m, src).targets[k] == src.targets[k]
    ensures k !in src.targets && k in m.targets ==> MergedMakefile(m, src).targets[k] == m.targets[k]
  {
    var r := MergedMakefile(m, src);
    forall j | j in r.targets
      ensures r.targets[j].name == j && Wellformed(r.targets[j])
    {
      if j in src.targets && j in m.targets {
        MergedWellformed(m.targets[j], src.targets[j]);
      }
    }
  }

  /** `make_dist` rebuilds the tarball target; on Windows it adds no archive rules and no clean rule. */
  lemma MakeDistTarget(h: Host, m: MakefileState, project: string, version: string)
    requires Consistent(m)
    ensures var distfile := project + "-" + version + ".tar.gz";
            var r := WithDist(h, m, project, version);
            && distfile in r.targets
            && r.targets[distfile].name == distfile
            && r.targets[distfile].deps == []
            && |r.targets[distfile].rules| == (if IsWindows(h) then 3 else 7)
            && r.targets[distfile].rules[2] == Str("$(MAKE) distdir distdir=" + project + "-" + version)
  {
    assert project + "-" + version + ".tar.gz" == (project + "-" + version) + ".tar.gz";
  }

  /** Outside Windows `make_dist` also removes the tarball under `clean`. */
  lemma MakeDistClean(h: Host, m: MakefileState, project: string, version: string)
    requires Consistent(m)
    ensures var distfile := project + "-" + version + ".tar.gz";
            distfile != "clean" ==>
              TargetOrEmpty(WithDist(h, m, project, version), "clean").rules ==
                TargetOrEmpty(m, "clean").rules + (if IsWindows(h) then [] else [Str(Rm(h, [distfile]))])
  {
    assert project + "-" + version + ".tar.gz" == (project + "-" + version) + ".tar.gz";
  }

  /** Redefining a variable keeps only the last definition. */
  lemma DefineVariableLastWins(m: MakefileState, name: string, op1: string, v1: string, op2: string, v2: string)
    ensures var r1 := Defined(m, Some(name), Some(op1), Some(v1));
            var r2 := Defined(r1.value, Some(name), Some(op2), Some(v2));
            r2 == Defined(m, Some(name), Some(op2), Some(v2))
  {
    var r1 := Defined(m, Some(name), Some(op1), Some(v1)).value;
    assert r1.vars[name := (op2, v2)] == m.vars[name := (op2, v2)];
  }

  /** The text of a Makefile consists of its variable lines in name order, `default: all`, and its targets' texts in name order. */
  lemma TargetTextsCons(h: Host, style: MkdirStyle, targets: map<string, TargetState>, ks: seq<string>)
    requires forall j :: 0 <= j < |ks| ==> ks[j] in targets
    requires ks != [] && TargetTexts(h, style, targets, ks).Ok?
    ensures TargetText(h, style, targets[ks[0]]).Ok? && TargetTexts(h, style, targets, ks[1..]).Ok?
    ensures TargetTexts(h, style, targets, ks).value ==
              TargetText(h, style, targets[ks[0]]).value + TargetTexts(h, style, targets, ks[1..]).value
  {
  }

  lemma {:induction false} TargetTextsContain(h: Host, style: MkdirStyle, targets: map<string, TargetState>, ks: seq<string>, i: nat)
    requires forall j :: 0 <= j < |ks| ==> ks[j] in targets
    requires i < |ks| && TargetTexts(h, style, targets, ks).Ok?
    ensures Contains(TargetTexts(h, style, targets, ks).value, TargetText(h, style, targets[ks[i]]).value)
    decreases |ks|
  {
    TargetTextsCons(h, style, targets, ks);
    if i == 0 {
      var first := TargetText(h, style, targets[ks[0]]).value;
      var rest := TargetTexts(h, style, targets, ks[1..]).value;
      ContainsInfix("", first, rest);
      assert "" + first + rest == first + rest;
    } else {
      assert ks[1..][i - 1] == ks[i];
      TargetTextsContain(h, style, targets, ks[1..], i - 1);
      TargetTextsContainStep(h, style, targets, ks, TargetText(h, style, targets[ks[i]]).value);
    }
  }

  /** What the later targets' texts hold, all the texts hold. */
  lemma TargetTextsContainStep(h: Host, style: MkdirStyle, targets: map<string, TargetState>, ks: seq<string>, sub: string)
    requires forall j :: 0 <= j < |ks| ==> ks[j] in targets
    requires ks != [] && TargetTexts(h, style, targets, ks).Ok?
    requires TargetText(h, style, targets[ks[0]]).Ok? && TargetTexts(h, style, targets, ks[1..]).Ok?
    requires TargetTexts(h, style, targets, ks).value ==
               TargetText(h, style, targets[ks[0]]).value + TargetTexts(h, style, targets, ks[1..]).value
    requires Contains(TargetTexts(h, style, targets, ks[1..]).value, sub)
    ensures Contains(TargetTexts(h, style, targets, ks).value, sub)
  {
    ContainsSuffix(TargetText(h, style, targets[ks[0]]).value, TargetTexts(h, style, targets, ks[1..]).value, sub);
  }

  /** Every target of the Makefile appears in its text. */
  lemma TextHasEveryTarget(h: Host, style: MkdirStyle, m: MakefileState, k: string)
    requires k in m.targets && MakefileText(h, style, m).Ok?
    ensures TargetText(h, style, m.targets[k]).Ok?
    ensures Contains(MakefileText(h, style, m).value, TargetText(h, style, m.targets[k]).value)
  {
    MakefileTextSplit(h, style, m);
    KeyTextContained(h, style, m.targets, SortedElements(m.targets.Keys), k,
                     VarLines(m.vars, SortedElements(m.vars.Keys)) + "\n\n" + "default: all\n",
                     MakefileText(h, style, m).value);
  }

  /** `to_s` is a fixed head followed by the targets' texts. */
  lemma MakefileTextSplit(h: Host, style: MkdirStyle, m: MakefileState)
    requires MakefileText(h, style, m).Ok?
    ensures TargetTexts(h, style, m.targets, SortedElements(m.targets.Keys)).Ok?
    ensures MakefileText(h, style, m).value ==
              VarLines(m.vars, SortedElements(m.vars.Keys)) + "\n\n" + "default: all\n"
              + TargetTexts(h, style, m.targets, SortedElements(m.targets.Keys)).value
  {
  }

  /** A listed key's text lies in any text that ends with all the listed keys' texts. */
  lemma KeyTextContained(h: Host, style: MkdirStyle, targets: map<string, TargetState>, ts: seq<string>, k: string,
                          pre: string, full: string)
    requires forall j :: 0 <= j < |ts| ==> ts[j] in targets
    requires k in ts && k in targets && TargetTexts(h, style, targets, ts).Ok?
    requires full == pre + TargetTexts(h, style, targets, ts).value
    ensures TargetText(h, style, targets[k]).Ok?
    ensures Contains(full, TargetText(h, style, targets[k]).value)
  {
    var i :| 0 <= i < |ts| && ts[i] == k;
    TargetTextsContain(h, style, targets, ts, i);
    ContainsSuffix(pre, TargetTexts(h, style, targets, ts).value, TargetText(h, style, targets[k]).value);
  }

  // ---------------------------------------------------------------------
  // The mutable object
  // ---------------------------------------------------------------------

  /** Collects a set of names and sorts them bytewise. */
  method SortedNames(s: set<string>) returns (ks: seq<string>)
    ensures ks == SortedElements(s)
  {
    var rest := s;
    var acc: seq<string> := [];
    while rest != {}
      invariant rest <= s
      invariant forall x :: x in acc <==> x in s && x !in rest
      decreases rest
    {
      var x :| x in rest;
      acc := acc + [x];
      rest := rest - {x};
    }
    ks := SortUniq(acc);
    StrictlySortedUnique(ks, SortedElements(s));
  }

  /** The loop invariant of `merge!`: the names in `done` are merged, the others are as in `a`. */
  ghost predicate MergedSoFar(a: map<string, TargetState>, b: map<string, TargetState>, done: set<string>,
                              r: map<string, TargetState>)
    requires done <= b.Keys
  {
    && r.Keys == a.Keys + done
    && forall k :: k in r ==> r[k] == if k in done then MergedEntry(a, b, k) else a[k]
  }

  lemma MergeStep(a: map<string, TargetState>, b: map<string, TargetState>, done: set<string>,
                  r: map<string, TargetState>, k: string)
    requires done <= b.Keys && k in b && k !in done
    requires MergedSoFar(a, b, done, r)
    ensures MergedSoFar(a, b, done + {k}, r[k := if k in r then Merged(r[k], b[k]) else b[k]])
  {
  }

  lemma MergeDone(a: map<string, TargetState>, b: map<string, TargetState>, r: map<string, TargetState>)
    requires MergedSoFar(a, b, b.Keys, r)
    ensures r == MergeTargets(a, b)
  {
    var m := MergeTargets(a, b);
    assert r.Keys == m.Keys;
    forall k | k in r ensures r[k] == m[k] {
    }
  }

  /** The loop of `merge!` over the other Makefile's targets, one name at a time. */
  method MergeTargetMaps(a: map<string, TargetState>, b: map<string, TargetState>) returns (r: map<string, TargetState>)
    ensures r == MergeTargets(a, b)
  {
    r := a;
    var todo := b.Keys;
    while todo != {}
      invariant todo <= b.Keys
      invariant MergedSoFar(a, b, b.Keys - todo, r)
      decreases todo
    {
      var k :| k in todo;
      MergeStep(a, b, b.Keys - todo, r, k);
      if k in r {
        r := r[k := Merged(r[k], b[k])];
      } else {
        r := r[k := b[k]];
      }
      assert b.Keys - todo + {k} == b.Keys - (todo - {k});
      todo := todo - {k};
    }
    MergeDone(a, b, r);
  }

  class Makefile {
    /** The platform the Makefile is generated for (the `Platform` globals). */
    const host: Host
    var vars: map<string, (string, string)>
    var targets: map<string, TargetState>
    var mkdirList: seq<RValue>

    function State(): MakefileState
      reads this
    {
      MakefileState(vars, targets, mkdirList)
    }

    ghost predicate Valid()
      reads this
    {
      Consistent(State())
    }

    /** `Makefile.new`: adds the fixed targets one by one. */
    constructor (host: Host)
      ensures this.host == host
      ensures State() == Initial()
      ensures Valid()
    {
      this.host := host;
      vars := map[];
      mkdirList := [];
      var ts: map<string, TargetState> := map[];
      for i := 0 to |FixedTargets|
        invariant ts == map k | k in FixedTargets[..i] :: Empty(k)
      {
        assert FixedTargets[..i + 1] == FixedTargets[..i] + [FixedTargets[i]];
        ts := ts[FixedTargets[i] := Empty(FixedTargets[i])];
      }
      assert FixedTargets[..|FixedTargets|] == FixedTargets;
      targets := ts;
    }

    method DefineVariable(lval: Option<string>, op: Option<string>, rval: Option<string>) returns (r: Result<()>)
      modifies this
      ensures var spec := Defined(old(State()), lval, op, rval);
              && (r.Ok? <==> spec.Ok?)
              && (r.Ok? ==> State() == spec.value)
              && (r.Err? ==> r.error == spec.error && State() == old(State()))
      ensures old(Valid()) ==> Valid()
    {
      if lval.None? || op.None? {
        return Err("invalid arguments");
      }
      if rval.None? {
        return Err("variable `" + lval.value + "' is undefined");
      }
      vars := vars[lval.value := (op.value, rval.value)];
      return Ok(());
    }

    method AddTarget(name: string, deps: RValue, rules: RValue) returns (r: Result<()>)
      modifies this
      ensures var spec := WithTarget(old(State()), name, deps, rules);
              && (r.Ok? <==> spec.Ok?)
              && (r.Ok? ==> State() == spec.value)
              && (r.Err? ==> r.error == spec.error && State() == old(State()))
      ensures old(Valid()) ==> Valid()
    {
      var t := New(Str(name), deps, rules);
      if t.Err? {
        return Err(t.error);
      }
      targets := targets[name := t.value];
      return Ok(());
    }

    method AddRule(target: string, rule: RValue)
      modifies this
      ensures State() == WithRuleAt(old(State()), target, rule)
      ensures old(Valid()) ==> Valid()
    {
      var t := if target in targets then targets[target] else Empty(target);
      targets := targets[target := WithRule(t, rule)];
    }

    method AddDependency(target: string, d: RValue)
      modifies this
      ensures State() == WithDependencyAt(old(State()), target, d)
      ensures old(Valid()) ==> Valid()
    {
      var t := if target in targets then targets[target] else TargetState(target, [d], [], [], []);
      targets := targets[target := WithDependency(t, d)];
    }

    /** makefile.rb's `distribute(path)`. */
    method Distribute(path: string)
      requires Valid()
      modifies this
      ensures State() == Distributed(old(State()), path)
      ensures Valid()
    {
      assert FixedTargets[6] == "distdir";
      var t := targets["distdir"];
      if '/' in path {
        var dst := "$(distdir)/" + Dirname(path);
        t := WithDir(t, dst);
        t := WithCopy(t, path, dst);
      } else {
        t := WithCopy(t, path, "$(distdir)");
      }
      targets := targets["distdir" := t];
    }

    /** makefile.rb's `distribute` called with a list. */
    method DistributeList(paths: seq<string>)
      requires Valid()
      modifies this
      ensures State() == ListDistributed(old(State()), paths)
      ensures Valid()
    {
      assert FixedTargets[6] == "distdir";
      var t := targets["distdir"];
      t := WithCopy(t, Spaced(paths), "$(distdir)");
      targets := targets["distdir" := t];
    }

    /** trunk/lib/makeconf/makefile.rb's `distribute(path)`: a String is one path, a list is taken in order. */
    method DistributeAll(paths: seq<string>)
      requires Valid()
      modifies this
      ensures State() == DistributedAll(old(State()), paths)
      ensures Valid()
    {
      ghost var start := State();
      var i := 0;
      while i < |paths|
        invariant 0 <= i <= |paths|
        invariant Valid()
        invariant DistributedAll(start, paths) == DistributedAll(State(), paths[i..])
      {
        assert paths[i..][1..] == paths[i + 1..];
        Distribute(paths[i]);
        i := i + 1;
      }
    }

    method Clean(path: string)
      modifies this
      ensures State() == Cleaned(host, old(State()), path)
      ensures old(Valid()) ==> Valid()
    {
      AddRule("clean", Str(Rm(host, [path])));
    }

    method Distclean(path: string)
      modifies this
      ensures State() == Distcleaned(host, old(State()), path)
      ensures old(Valid()) ==> Valid()
    {
      AddRule("distclean", Str(Rm(host, [path])));
    }

    /** `install(src, dst, opt)`; `executable` stands for `File.executable?(src)`. */
    method Install(src: string, dst: string, opts: InstallOptions, executable: bool)
      modifies this
      ensures State() == Installed(host, old(State()), src, dst, opts, executable)
      ensures old(Valid()) ==> Valid()
    {
      ghost var m0 := State();
      var mode := InstallMode(opts, executable);
      var mkdir := if opts.mkdir.Some? then opts.mkdir.value else true;
      if mkdir && Str(dst) !in mkdirList {
        AddRule("install", Str(MkdirRule(dst)));
        mkdirList := mkdirList + [Str(dst)];
      }
      ghost var m1 := State();
      assert m1 == WithDirRule(m0, dst, opts);
      AddRule("install", Str(InstallRule(mode, src, dst)));
      AddRule("uninstall", Str(UninstallRule(host, src, dst)));
    }

    method MakeDist(project: string, version: string)
      modifies this
      ensures State() == WithDist(host, old(State()), project, version)
      ensures old(Valid()) ==> Valid()
    {
      var distdir := project + "-" + version;
      var distfile := distdir + ".tar.gz";
      var rules := [Str(Rmdir(host, distdir)), Str("mkdir " + distdir), Str("$(MAKE) distdir distdir=" + distdir)];
      if !IsWindows(host) {
        rules := rules + [Str("rm -rf " + distdir + ".tar " + distdir + ".tar.gz")];
        rules := rules + [Str("tar cf " + distdir + ".tar " + distdir)];
        rules := rules + [Str("gzip " + distdir + ".tar")];
        rules := rules + [Str("rm -rf " + distdir)];
        Clean(distdir + ".tar.gz");
      }
      assert rules == DistRules(host, distdir);
      targets := targets[distfile := TargetState(distfile, [], rules, [], [])];
    }

    /** `merge!(src)` */
    method Merge(src: Makefile)
      requires Valid() && src.Valid()
      modifies this
      ensures State() == MergedMakefile(old(State()), old(src.State()))
      ensures Valid()
    {
      MakefileMergeProperties(State(), src.State(), "");
      var merged := MergeTargetMaps(targets, src.targets);
      vars := vars + src.vars;
      mkdirList := mkdirList + [List(src.mkdirList)];
      targets := merged;
    }

    /** makefile.rb's `toplevel_init`. */
    method ToplevelInit(hasMakeconf: bool, hasSubdirMakeconf: bool) returns (r: Result<()>)
      requires Valid()
      modifies this
      ensures var spec := ToplevelInitialized(old(State()), hasMakeconf, hasSubdirMakeconf);
              (r.Ok? <==> spec.Ok?) && (r.Ok? ==> State() == spec.value)
      ensures r.Err? ==> r.error == "Unable to locate makeconf.rb"
      ensures r.Ok? ==> Valid()
    {
      targets := targets["dist" := TargetState("dist", [Str("clean"), Str("$(DISTFILE)")], [], [], [])];
      assert FixedTargets[4] == "install";
      targets := targets["install" := WithRule(targets["install"], Str("test -e $(DESTDIR)"))];
      Distribute("config.yaml");
      Distribute("configure");
      if hasMakeconf {
        Distribute("makeconf.rb");
      } else if hasSubdirMakeconf {
        Distribute("makeconf/makeconf.rb");
      } else {
        return Err("Unable to locate makeconf.rb");
      }
      return Ok(());
    }

    /** `to_s` */
    method Text() returns (r: Result<string>)
      ensures r == MakefileText(host, JoinedDirs, State())
    {
      var vs := SortedNames(vars.Keys);
      var ts := SortedNames(targets.Keys);
      var body := TargetTexts(host, JoinedDirs, targets, ts);
      if body.Err? {
        return Err(body.error);
      }
      return Ok(VarLines(vars, vs) + "\n\n" + "default: all\n" + body.value);
    }
  }
}
