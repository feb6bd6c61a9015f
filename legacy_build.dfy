/**
 * The Target, Makefile and Library classes of the single-file makeconf.rb.
 *
 * A target is a `TargetState` value as in the later classes, but this
 * Target constructor has no argument checks (anything that is not an Array
 * becomes a one-element list) and `add_dependency` pushes without removing
 * repeats.  The Makefile crashes on `add_rule` or `add_dependency` for a
 * target it does not have, treats an Array given to `distribute` as one
 * copy source, and runs `make_dist` every time it is turned into text.
 *
 * A Library adds, to the Makefile it was given, the targets that compile
 * its objects, archive them into a static library, and link and install the
 * versioned shared library.
 */
module LegacyBuild {
  import opened Strings
  import opened RubyValues
  import opened Platform
  import opened Targets
  import opened Makefiles
  import opened LegacyToolchain

  // ---------------------------------------------------------------------
  // Targets
  // ---------------------------------------------------------------------

  /** The constructor's rule for `deps` and `rules`: an Array is kept, anything else is wrapped. */
  function Listed(v: RValue): seq<RValue>
  {
    if v.List? then v.items else [v]
  }

  /** `Target.new(objs, deps, rules)` of makeconf.rb. */
  function LegacyTarget(name: string, deps: RValue, rules: RValue): (t: TargetState)
    ensures t.name == name && Wellformed(t)
    ensures t.dirs == [] && t.copies == []
  {
    TargetState(name, Listed(deps), Listed(rules), [], [])
  }

  /**
   * Wherever the checked constructor of the later Target class accepts its
   * arguments, the unchecked one builds the same target; where it rejects
   * nil or a boolean, the unchecked one wraps the value.
   */
  lemma LegacyTargetAgreesWithNew(name: string, deps: RValue, rules: RValue)
    ensures New(Str(name), deps, rules).Ok? ==> New(Str(name), deps, rules).value == LegacyTarget(name, deps, rules)
    ensures New(Str(name), deps, rules).Err? ==>
              ((deps.Nil? || deps.Bool?) && LegacyTarget(name, deps, rules).deps == [deps])
              || ((rules.Nil? || rules.Bool?) && LegacyTarget(name, deps, rules).rules == [rules])
  {
    if New(Str(name), deps, rules).Ok? {
      assert Wrap(deps) == Listed(deps);
      assert Wrap(rules) == Listed(rules);
    }
  }

  /** `Target#add_dependency(d)`: pushed even when `d` is already there. */
  function WithPushed(t: TargetState, d: RValue): (r: TargetState)
    ensures r == t.(deps := t.deps + [d])
    ensures multiset(r.deps)[d] == multiset(t.deps)[d] + 1
    ensures Wellformed(t) ==> Wellformed(r)
  {
    t.(deps := t.deps + [d])
  }

  /**
   * Unlike the later Target, whose dependency list keeps one copy of each
   * value, this one lists a dependency once per call.
   */
  lemma PushedTwiceListedTwice(t: TargetState, d: RValue)
    requires NoDuplicates(t.deps) && d !in t.deps
    ensures multiset(WithPushed(WithPushed(t, d), d).deps)[d] == 2
    ensures multiset(WithDependency(WithDependency(t, d), d).deps)[d] == 1
  {
    AddDependencyAppends(t, d);
    var u := WithDependency(t, d);
    AddDependencyIdempotent(u, d);
    assert multiset(t.deps)[d] == 0;
  }

  // ---------------------------------------------------------------------
  // The Makefile's operations, as functions on its value
  // ---------------------------------------------------------------------

  /** `add_target(object, depends, rules)`: a fresh target replaces any target of that name. */
  function WithLegacyTarget(m: MakefileState, name: string, deps: RValue, rules: RValue): (r: MakefileState)
    ensures r.targets.Keys == m.targets.Keys + {name}
    ensures r.targets[name] == LegacyTarget(name, deps, rules)
    ensures forall k :: k in m.targets && k != name ==> r.targets[k] == m.targets[k]
    ensures r.vars == m.vars && r.mkdirList == m.mkdirList
    ensures Consistent(m) ==> Consistent(r)
  {
    m.(targets := m.targets[name := LegacyTarget(name, deps, rules)])
  }

  /** `add_dependency(target, d)` on a target the Makefile has. */
  function WithPushedAt(m: MakefileState, target: string, d: RValue): (r: MakefileState)
    requires target in m.targets
    ensures r.targets.Keys == m.targets.Keys
    ensures r.targets[target].deps == m.targets[target].deps + [d]
    ensures r.targets[target] == m.targets[target].(deps := r.targets[target].deps)
    ensures forall k :: k in m.targets && k != target ==> r.targets[k] == m.targets[k]
    ensures r.vars == m.vars && r.mkdirList == m.mkdirList
    ensures Consistent(m) ==> Consistent(r)
  {
    m.(targets := m.targets[target := WithPushed(m.targets[target], d)])
  }

  /**
   * `distribute(paths)` with an Array: `paths =~ /\//` is nil for an Array,
   * so the whole list is copied, as one source, into `$(distdir)` and no
   * sub-directory is created.
   */
  function DistributedList(m: MakefileState, paths: seq<string>): (r: MakefileState)
    requires Consistent(m)
    ensures Consistent(r)
    ensures r.vars == m.vars && r.mkdirList == m.mkdirList && r.targets.Keys == m.targets.Keys
    ensures "distdir" in m.targets
    ensures r.targets["distdir"] == WithCopy(m.targets["distdir"], Spaced(paths), "$(distdir)")
    ensures r.targets["distdir"].dirs == m.targets["distdir"].dirs
    ensures forall k :: k in m.targets && k != "distdir" ==> r.targets[k] == m.targets[k]
  {
    assert FixedTargets[6] == "distdir";
    var t := m.targets["distdir"];
    CopyAppends(t, Spaced(paths), "$(distdir)", "$(distdir)");
    m.(targets := m.targets["distdir" := WithCopy(t, Spaced(paths), "$(distdir)")])
  }

  /** `clean(path)` with a String or an Array: one `rm` rule for all of them under `clean`. */
  function CleanedList(h: Host, m: MakefileState, paths: seq<string>): MakefileState
  {
    WithRuleAt(m, "clean", Str(Rm(h, paths)))
  }

  /** A one-path clean is the clean of the later Makefile. */
  lemma CleanedOnePath(h: Host, m: MakefileState, path: string)
    ensures CleanedList(h, m, [path]) == Cleaned(h, m, path)
    ensures CleanedList(h, m, [path]).targets["clean"].rules == TargetOrEmpty(m, "clean").rules + [Str(Rm(h, [path]))]
  {
  }

  /** The leading entries of a hash whose values are Arrays. */
  function ListPrefix(h: Hash): (n: nat)
    ensures n <= |h|
    ensures forall i :: 0 <= i < n ==> h[i].1.List?
    ensures n < |h| ==> !h[n].1.List?
  {
    if h == [] || !h[0].1.List? then 0 else 1 + ListPrefix(h[1..])
  }

  /** Entries that are all Arrays lie inside the leading run of Arrays. */
  lemma ListPrefixBound(h: Hash, i: nat)
    requires i <= |h| && AllLists(h[..i])
    ensures i <= ListPrefix(h)
  {
    forall j | 0 <= j < i ensures h[j].1.List? {
      assert h[..i][j] == h[j];
    }
  }

  /** The leading run of Arrays ends at the first entry that is not one. */
  lemma ListPrefixEnds(h: Hash, i: nat)
    requires i < |h| && AllLists(h[..i]) && !h[i].1.List?
    ensures ListPrefix(h) == i
  {
    ListPrefixBound(h, i);
  }

  /** `v[i]` of an Array: nil past its end. */
  function Item(v: RValue, i: nat): RValue
    requires v.List?
  {
    if i < |v.items| then v.items[i] else Nil
  }

  predicate AllLists(h: Hash)
  {
    forall i :: 0 <= i < |h| ==> h[i].1.List?
  }

  /** The body of `merge(h)` for entries that are all Arrays: `add_target(k, v[0], v[1])` in order. */
  function MergedEntries(m: MakefileState, h: Hash): (r: MakefileState)
    requires AllLists(h)
    ensures r.vars == m.vars && r.mkdirList == m.mkdirList
    ensures m.targets.Keys <= r.targets.Keys
    ensures Consistent(m) ==> Consistent(r)
    decreases |h|
  {
    if h == [] then m
    else
      var e := h[|h| - 1];
      WithLegacyTarget(MergedEntries(m, h[..|h| - 1]), e.0, Item(e.1, 0), Item(e.1, 1))
  }

  /** One more entry of `merge`. */
  lemma MergeEntryStep(m: MakefileState, h: Hash, i: nat)
    requires i < |h| && AllLists(h[..i]) && h[i].1.List?
    ensures AllLists(h[..i + 1])
    ensures MergedEntries(m, h[..i + 1]) == WithLegacyTarget(MergedEntries(m, h[..i]), h[i].0, Item(h[i].1, 0), Item(h[i].1, 1))
  {
    assert h[..i + 1] == h[..i] + [h[i]];
    assert h[..i + 1][..i] == h[..i];
  }

  /** The value `h[k]` of a hash extended at the end. */
  lemma {:induction false} HashGetSnoc(h: Hash, e: (string, RValue), k: string)
    ensures HashGet(h + [e], k) ==
              if HashGet(h, k).Some? then HashGet(h, k) else if e.0 == k then Some(e.1) else None
  {
    if h == [] {
      assert [e][1..] == [];
    } else {
      assert (h + [e])[1..] == h[1..] + [e];
      HashGetSnoc(h[1..], e, k);
    }
  }

  /**
   * After `merge(h)` over Array entries with distinct keys, each key of `h`
   * names the target built from its entry's first two elements, and every
   * other target is the one the Makefile had.
   */
  lemma {:induction false} MergedEntriesGet(m: MakefileState, h: Hash, k: string)
    requires AllLists(h) && NoDuplicates(HashKeys(h))
    ensures var r := MergedEntries(m, h);
            match HashGet(h, k)
            case Some(v) => v.List? && k in r.targets && r.targets[k] == LegacyTarget(k, Item(v, 0), Item(v, 1))
            case None => (k in r.targets <==> k in m.targets) && (k in m.targets ==> r.targets[k] == m.targets[k])
    decreases |h|
  {
    if h != [] {
      var init, e := h[..|h| - 1], h[|h| - 1];
      assert h == init + [e];
      HashKeysAppend(init, e.0, e.1);
      NoDuplicatesPrefix(HashKeys(init), e.0);
      MergedEntriesGet(m, init, k);
      HashGetSnoc(init, e, k);
      HashGetFound(init, k);
      HashGetValue(h, k);
    }
  }

  /** A value found in a hash is one of its entries' values. */
  lemma {:induction false} HashGetValue(h: Hash, k: string)
    requires AllLists(h)
    ensures HashGet(h, k).Some? ==> HashGet(h, k).value.List?
  {
    if h != [] && h[0].0 != k {
      HashGetValue(h[1..], k);
    }
  }

  lemma {:induction false} HashPutLists(h: Hash, k: string, v: RValue)
    requires AllLists(h) && v.List?
    ensures AllLists(HashPut(h, k, v))
  {
    if h != [] && h[0].0 != k {
      HashPutLists(h[1..], k, v);
      assert HashPut(h, k, v) == [h[0]] + HashPut(h[1..], k, v);
    }
  }

  lemma {:induction false} ObjectEntriesLists(h: Host, c: Compiler, ds: seq<string>)
    ensures AllLists(ObjectEntries(h, c, ds))
    decreases |ds|
  {
    if ds != [] {
      ObjectEntriesLists(h, c, ds[..|ds| - 1]);
      HashPutLists(ObjectEntries(h, c, ds[..|ds| - 1]), ds[|ds| - 1], ObjectEntry(h, c, ds[|ds| - 1]));
    }
  }

  /** Every entry of `to_make` is an Array, its keys are distinct, and the output names the link entry. */
  lemma ToMakeEntries(h: Host, c: Compiler, output: string)
    ensures AllLists(ToMakeSpec(h, c, output))
    ensures NoDuplicates(HashKeys(ToMakeSpec(h, c, output)))
    ensures HashGet(ToMakeSpec(h, c, output), output) == Some(LinkEntry(c, output, Sort(Objs(h, c))))
  {
    var objs := Sort(Objs(h, c));
    var e := ObjectEntries(h, c, objs);
    ObjectEntriesLists(h, c, objs);
    ObjectEntriesKeys(h, c, objs);
    HashPutLists(e, output, LinkEntry(c, output, objs));
    HashPutKeys(e, output, LinkEntry(c, output, objs));
    HashPutGet(e, output, LinkEntry(c, output, objs), output);
  }

  /** The Makefile's value once `Makefile.new` has added `dist` and `check`. */
  function LegacyStart(): (m: MakefileState)
    ensures Consistent(m)
    ensures m.vars == map[] && m.mkdirList == []
  {
    var m0 := Initial();
    m0.(targets := m0.targets["dist" := TargetState("dist", [Str("clean"), Str("$(DISTFILE)")], [], [], [])])
  }

  /** The six direct targets, then `add_target` of `dist` and `check`, give `LegacyStart`. */
  lemma StartTargets()
    ensures (map k | k in DirectTargets :: Empty(k))
              ["dist" := LegacyTarget("dist", List([Str("clean"), Str("$(DISTFILE)")]), List([]))]
              ["check" := LegacyTarget("check", List([]), List([]))]
            == LegacyStart().targets
  {
    var a := (map k | k in DirectTargets :: Empty(k))
              ["dist" := LegacyTarget("dist", List([Str("clean"), Str("$(DISTFILE)")]), List([]))]
              ["check" := LegacyTarget("check", List([]), List([]))];
    var b := LegacyStart().targets;
    assert a.Keys == b.Keys;
    forall k | k in a ensures a[k] == b[k] {
    }
  }

  /** What remains of `Makefile.new` after `LegacyStart` is `toplevel_init` of the later Makefile. */
  lemma ToplevelSteps(hasMakeconf: bool, hasSubdirMakeconf: bool)
    ensures var m2 := WithRuleAt(LegacyStart(), "install", Str("test -e $(DESTDIR)"));
            var m3 := Distributed(Distributed(m2, "config.yaml"), "configure");
            ToplevelInitialized(Initial(), hasMakeconf, hasSubdirMakeconf)
              == if hasMakeconf then Ok(Distributed(m3, "makeconf.rb"))
                 else if hasSubdirMakeconf then Ok(Distributed(m3, "makeconf/makeconf.rb"))
                 else Err("Unable to locate makeconf.rb")
  {
    var m1 := LegacyStart();
    assert FixedTargets[4] == "install";
    assert WithRuleAt(m1, "install", Str("test -e $(DESTDIR)"))
        == m1.(targets := m1.targets["install" := WithRule(m1.targets["install"], Str("test -e $(DESTDIR)"))]);
  }

  // ---------------------------------------------------------------------
  // The Makefile object
  // ---------------------------------------------------------------------

  /** The targets `Makefile.new` creates directly, before `add_target`. */
  const DirectTargets: seq<string> := ["all", "clean", "distclean", "install", "uninstall", "distdir"]

  class Makefile {
    /** The platform the Makefile is generated for (the `Platform` globals). */
    const host: Host
    const project: string
    const version: string
    var vars: map<string, (string, string)>
    var targets: map<string, TargetState>
    var mkdirList: seq<RValue>

    function State(): MakefileState
      reads this
    {
      MakefileState(vars, targets, mkdirList)
    }

    ghost predicate Valid()
      reads this
    {
      Consistent(State())
    }

    /** The first part of `Makefile.new`: the six targets it creates directly. */
    constructor (host: Host, project: string, version: string)
      ensures this.host == host && this.project == project && this.version == version
      ensures vars == map[] && mkdirList == []
      ensures targets == map k | k in DirectTargets :: Empty(k)
    {
      this.host := host;
      this.project := project;
      this.version := version;
      vars := map[];
      mkdirList := [];
      var ts: map<string, TargetState> := map[];
      for i := 0 to |DirectTargets|
        invariant ts == map k | k in DirectTargets[..i] :: Empty(k)
      {
        assert DirectTargets[..i + 1] == DirectTargets[..i] + [DirectTargets[i]];
        ts := ts[DirectTargets[i] := Empty(DirectTargets[i])];
      }
      assert DirectTargets[..|DirectTargets|] == DirectTargets;
      targets := ts;
    }

    /** `Makefile.new` followed by the `dist` and `check` targets of `Makeconf.toplevel_init`. */
    static method Started(host: Host, project: string, version: string) returns (mf: Makefile)
      ensures fresh(mf) && mf.Valid() && mf.State() == LegacyStart()
      ensures mf.host == host && mf.project == project && mf.version == version
    {
      mf := new Makefile(host, project, version);
      mf.AddTarget("dist", List([Str("clean"), Str("$(DISTFILE)")]), List([]));
      mf.AddTarget("check", List([]), List([]));
      StartTargets();
    }

    /**
     * `Makefile.new(installer, project, version)`: the fixed targets, `dist`
     * and `check`, the install guard and the standard distributed files;
     * the two flags stand for `File.exists?` on the two places makeconf.rb
     * may be.  The result is the state the later Makefile reaches through
     * `toplevel_init`.
     */
    static method Create(host: Host, project: string, version: string, hasMakeconf: bool, hasSubdirMakeconf: bool)
      returns (r: Result<Makefile>)
      ensures var spec := ToplevelInitialized(Initial(), hasMakeconf, hasSubdirMakeconf);
              && (r.Ok? <==> spec.Ok?)
              && (r.Err? ==> r.error == spec.error)
              && (r.Ok? ==> fresh(r.value) && r.value.Valid() && r.value.State() == spec.value)
      ensures r.Ok? ==> r.value.host == host && r.value.project == project && r.value.version == version
    {
      var mf := Started(host, project, version);
      assert FixedTargets[4] == "install";
      ToplevelSteps(hasMakeconf, hasSubdirMakeconf);
      mf.AddRule("install", Str("test -e $(DESTDIR)"));
      mf.Distribute("config.yaml");
      mf.Distribute("configure");
      if hasMakeconf {
        mf.Distribute("makeconf.rb");
      } else if hasSubdirMakeconf {
        mf.Distribute("makeconf/makeconf.rb");
      } else {
        return Err("Unable to locate makeconf.rb");
      }
      return Ok(mf);
    }

    method DefineVariable(lval: Option<string>, op: Option<string>, rval: Option<string>) returns (r: Result<()>)
      modifies this
      ensures var spec := Defined(old(State()), lval, op, rval);
              && (r.Ok? <==> spec.Ok?)
              && (r.Ok? ==> State() == spec.value)
              && (r.Err? ==> r.error == spec.error && State() == old(State()))
      ensures old(Valid()) ==> Valid()
    {
      if lval.None? || op.None? {
        return Err("invalid arguments");
      }
      if rval.None? {
        return Err("variable `" + lval.value + "' is undefined");
      }
      vars := vars[lval.value := (op.value, rval.value)];
      return Ok(());
    }

    method AddTarget(name: string, deps: RValue, rules: RValue)
      modifies this
      ensures State() == WithLegacyTarget(old(State()), name, deps, rules)
      ensures old(Valid()) ==> Valid()
    {
      targets := targets[name := LegacyTarget(name, deps, rules)];
    }

    /**
     * `merge(h)`: each entry in turn; an entry whose value is not an Array
     * throws "invalid entry", and the targets added before it stay.
     */
    method Merge(h: Hash) returns (r: Result<()>)
      requires Valid()
      modifies this
      ensures var n := ListPrefix(h);
              && State() == MergedEntries(old(State()), h[..n])
              && (r.Ok? <==> n == |h|)
              && (r.Err? ==> r.error == "invalid entry")
      ensures Valid()
    {
      ghost var m0 := State();
      var i := 0;
      while i < |h|
        invariant 0 <= i <= ListPrefix(h)
        invariant AllLists(h[..i])
        invariant State() == MergedEntries(m0, h[..i])
        invariant Valid()
      {
        var e := h[i];
        if !e.1.List? {
          ListPrefixEnds(h, i);
          return Err("invalid entry");
        }
        MergeEntryStep(m0, h, i);
        ListPrefixBound(h, i + 1);
        AddTarget(e.0, Item(e.1, 0), Item(e.1, 1));
        i := i + 1;
      }
      assert h[..|h|] == h;
      return Ok(());
    }

    /** `add_rule(target, rule)`: the target must exist (nil has no `add_rule`). */
    method AddRule(target: string, rule: RValue)
      requires target in targets
      modifies this
      ensures State() == WithRuleAt(old(State()), target, rule)
      ensures old(Valid()) ==> Valid()
    {
      targets := targets[target := WithRule(targets[target], rule)];
    }

    /** `add_dependency(target, d)`: the target must exist. */
    method AddDependency(target: string, d: RValue)
      requires target in targets
      modifies this
      ensures State() == WithPushedAt(old(State()), target, d)
      ensures old(Valid()) ==> Valid()
    {
      targets := targets[target := WithPushed(targets[target], d)];
    }

    /** `distribute(path)` with a String. */
    method Distribute(path: string)
      requires Valid()
      modifies this
      ensures State() == Distributed(old(State()), path)
      ensures Valid()
    {
      assert FixedTargets[6] == "distdir";
      var t := targets["distdir"];
      if '/' in path {
        var dst := "$(distdir)/" + Dirname(path);
        t := WithDir(t, dst);
        t := WithCopy(t, path, dst);
      } else {
        t := WithCopy(t, path, "$(distdir)");
      }
      targets := targets["distdir" := t];
    }

    /** `distribute(paths)` with an Array. */
    method DistributeList(paths: seq<string>)
      requires Valid()
      modifies this
      ensures State() == DistributedList(old(State()), paths)
      ensures Valid()
    {
      assert FixedTargets[6] == "distdir";
      targets := targets["distdir" := WithCopy(targets["distdir"], Spaced(paths), "$(distdir)")];
    }

    /** `clean(path)`, for one path or an Array of them. */
    method Clean(paths: seq<string>)
      requires Valid()
      modifies this
      ensures State() == CleanedList(host, old(State()), paths)
      ensures Valid()
    {
      assert FixedTargets[2] == "clean";
      AddRule("clean", Str(Rm(host, paths)));
    }

    /** `install(src, dst, opt)`; `executable` stands for `File.executable?(src)`. */
    method Install(src: string, dst: string, opts: InstallOptions, executable: bool)
      requires Valid()
      modifies this
      ensures State() == Installed(host, old(State()), src, dst, opts, executable)
      ensures Valid()
    {
      ghost var m0 := State();
      assert FixedTargets[4] == "install" && FixedTargets[5] == "uninstall";
      var mode := InstallMode(opts, executable);
      var mkdir := if opts.mkdir.Some? then opts.mkdir.value else true;
      if mkdir && Str(dst) !in mkdirList {
        AddRule("install", Str(MkdirRule(dst)));
        mkdirList := mkdirList + [Str(dst)];
      }
      assert State() == WithDirRule(m0, dst, opts);
      AddRule("install", Str(InstallRule(mode, src, dst)));
      AddRule("uninstall", Str(UninstallRule(host, src, dst)));
    }

    /** `make_dist`: the tarball target, and its removal under `clean` except on Windows. */
    method MakeDist()
      requires Valid()
      modifies this
      ensures State() == WithDist(host, old(State()), project, version)
      ensures Valid()
    {
      var distdir := project + "-" + version;
      var distfile := distdir + ".tar.gz";
      var rules := [Str(Rmdir(host, distdir)), Str("mkdir " + distdir), Str("$(MAKE) distdir distdir=" + distdir)];
      if !IsWindows(host) {
        rules := rules + [Str("rm -rf " + distdir + ".tar " + distdir + ".tar.gz")];
        rules := rules + [Str("tar cf " + distdir + ".tar " + distdir)];
        rules := rules + [Str("gzip " + distdir + ".tar")];
        rules := rules + [Str("rm -rf " + distdir)];
        Clean([distdir + ".tar.gz"]);
      }
      assert rules == DistRules(host, distdir);
      targets := targets[distfile := TargetState(distfile, [], rules, [], [])];
    }

    /** `to_s`: runs `make_dist`, then writes the variables and targets sorted by name. */
    method Text() returns (r: Result<string>)
      requires Valid()
      modifies this
      ensures State() == WithDist(host, old(State()), project, version)
      ensures r == MakefileText(host, UnquotedDirs, State())
      ensures Valid()
    {
      MakeDist();
      var vs := SortedNames(vars.Keys);
      var ts := SortedNames(targets.Keys);
      var body := TargetTexts(host, UnquotedDirs, targets, ts);
      if body.Err? {
        return Err(body.error);
      }
      return Ok(VarLines(vars, vs) + "\n\n" + "default: all\n" + body.value);
    }
  }

  /**
   * `to_s` changes the Makefile it writes: on a Unix-like host, writing it
   * twice leaves the tarball's removal twice under `clean`.
   */
  lemma TextTwiceCleansTwice(h: Host, m: MakefileState, project: string, version: string)
    requires Consistent(m) && !IsWindows(h)
    requires project + "-" + version + ".tar.gz" != "clean"
    ensures var rm := Str(Rm(h, [project + "-" + version + ".tar.gz"]));
            TargetOrEmpty(WithDist(h, WithDist(h, m, project, version), project, version), "clean").rules
              == TargetOrEmpty(m, "clean").rules + [rm, rm]
  {
    var distfile := project + "-" + version + ".tar.gz";
    assert FixedTargets[2] == "clean";
    var m1 := WithDist(h, m, project, version);
    assert m1.targets["clean"].rules == m.targets["clean"].rules + [Str(Rm(h, [distfile]))];
  }
}
