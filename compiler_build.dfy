/**
 * `Compiler#build` of lib/makeconf/compiler.rb and
 * trunk/lib/makeconf/compiler.rb: one object target per source, then the
 * archive or the link step, collected in a fresh Makefile.
 *
 * The two files have the same `build`; they differ only in the command
 * lines `command` produces, which the `Compiler` value's generation
 * decides. What `build` reads from its Buildable is gathered in a
 * `BuildInput`, so that the Buildables of both files can be built.
 */
module CompilerBuilds {
  import opened Strings
  import opened RubyValues
  import opened Platform
  import opened Patterns
  import opened Linkers
  import opened Targets
  import opened Makefiles
  import opened Compilers
  import Buildables
  import TrunkBuildables

  /** What `library?` and `library_type` decide about the objects: `-fpic`, `-static`, or neither. */
  datatype ObjectKind = SharedObjects | StaticObjects | PlainObjects

  function KindOf(t: Option<string>): (k: ObjectKind)
    ensures k == SharedObjects <==> t == Some(Buildables.SharedLibraryType)
    ensures k == StaticObjects <==> t == Some(Buildables.StaticLibraryType)
  {
    match Buildables.LibraryTypeOf(t)
    case Ok(kind) => if kind == Buildables.SharedKind then SharedObjects else StaticObjects
    case Err(_) => PlainObjects
  }

  /** The attributes of the Buildable that `build` reads. */
  datatype BuildInput = BuildInput(
    sources: seq<string>,
    cflags: RValue,
    output: string,
    kind: ObjectKind,
    localdep: map<string, seq<string>>,
    ldflags: RValue,
    ldadd: RValue,
    rpath: RValue,
    distributable: bool)

  /** The link command needs an rpath that answers `length`; an archive never asks. */
  predicate Linkable(bi: BuildInput)
  {
    bi.kind == StaticObjects || bi.rpath.Str? || bi.rpath.List?
  }

  /** What a lib Buildable gives `build`: its fields, and the options the constructor stored. */
  function InputOf(b: Buildables.Buildable): BuildInput
    reads b
    requires b.output.Str?
  {
    BuildInput(b.sources, b.cflags, b.output.s, KindOf(b.outputType), b.localdep,
               Buildables.Setting(b.vars, "ldflags"), Buildables.Setting(b.vars, "ldadd"),
               Buildables.Setting(b.vars, "rpath"), b.Distributable())
  }

  /** An instance variable of a trunk Buildable; one never set reads as nil. */
  function Ivar(iv: map<string, RValue>, k: string): RValue
  {
    if k in iv then iv[k] else Nil
  }

  /** A list of Strings, such as the expanded sources. */
  predicate StrList(v: RValue)
  {
    v.List? && forall i :: 0 <= i < |v.items| ==> v.items[i].Str?
  }

  function Names(v: RValue): (r: seq<string>)
    requires StrList(v)
    ensures Strs(r) == v.items
  {
    seq(|v.items|, i requires 0 <= i < |v.items| => v.items[i].s)
  }

  /** What a trunk Buildable gives `build`: its instance variables. */
  function TrunkInputOf(b: TrunkBuildables.Buildable): BuildInput
    reads b
    requires StrList(Ivar(b.ivars, "sources")) && Ivar(b.ivars, "output").Str?
  {
    BuildInput(Names(Ivar(b.ivars, "sources")), Ivar(b.ivars, "cflags"), Ivar(b.ivars, "output").s,
               KindOf(TrunkBuildables.OutputTypeOf(b.ivars)), b.localdep,
               Ivar(b.ivars, "ldflags"), Ivar(b.ivars, "ldadd"), Ivar(b.ivars, "rpath"),
               Truthy(Ivar(b.ivars, "distributable")))
  }

  // ---------------------------------------------------------------------
  // One object per source
  // ---------------------------------------------------------------------

  function ObjectSuffix(k: ObjectKind): string
  {
    if k == StaticObjects then "-static" else ""
  }

  /** `src.sub(/.c$/, object_suffix + Platform.object_extension)` */
  function ObjectName(h: Host, k: ObjectKind, src: string): string
  {
    ObjectOf(h, src, ObjectSuffix(k))
  }

  /** `[b.cflags]`, with `-fpic` pushed for a shared library. */
  function ObjectCflags(bi: BuildInput): seq<RValue>
  {
    [bi.cflags] + (if bi.kind == SharedObjects then [Str("-fpic")] else [])
  }

  function CompileOptions(h: Host, bi: BuildInput, src: string): CommandOptions
  {
    CommandOptions(Some(ObjectName(h, bi.kind, src)), Some(ObjectCflags(bi)), None, None, None,
                   Some(Compile), Str(src), None)
  }

  /** The compile command of one source; with no rpath and a known stage it never throws. */
  function CompileRule(c: Compiler, bi: BuildInput, src: string): string
  {
    Command(c, CompileOptions(c.machine.host, bi, src)).value
  }

  /** `[src, b.localdep[src]].flatten`: a source never scanned leaves a nil behind. */
  function ObjectDepList(src: string, localdep: map<string, seq<string>>): seq<RValue>
  {
    [Str(src)] + (if src in localdep then Strs(localdep[src]) else [Nil])
  }

  /** The object target of one source, as `add_target` creates it. */
  function ObjectTarget(c: Compiler, bi: BuildInput, src: string): TargetState
  {
    var obj := ObjectName(c.machine.host, bi.kind, src);
    TargetState(obj, ObjectDepList(src, bi.localdep), [Str(CompileRule(c, bi, src))], [], [])
  }

  /** One turn of the per-source loop: the object's target, then its clean rule. */
  function ObjectStep(c: Compiler, bi: BuildInput, m: MakefileState, src: string): (r: MakefileState)
    requires Consistent(m)
    ensures Consistent(r)
    ensures var obj := ObjectName(c.machine.host, bi.kind, src);
            obj != "clean" ==> obj in r.targets && r.targets[obj] == ObjectTarget(c, bi, src)
    ensures forall k :: k in m.targets && k != ObjectName(c.machine.host, bi.kind, src) && k != "clean" ==>
              k in r.targets && r.targets[k] == m.targets[k]
  {
    var obj := ObjectName(c.machine.host, bi.kind, src);
    var added := WithTarget(m, obj, List(ObjectDepList(src, bi.localdep)), Str(CompileRule(c, bi, src)));
    Cleaned(c.machine.host, added.value, obj)
  }

  /** The Makefile after the per-source loop has handled `srcs`. */
  function ObjectsBuilt(c: Compiler, bi: BuildInput, m: MakefileState, srcs: seq<string>): (r: MakefileState)
    requires Consistent(m)
    ensures Consistent(r)
  {
    if srcs == [] then m
    else ObjectStep(c, bi, ObjectsBuilt(c, bi, m, srcs[..|srcs| - 1]), srcs[|srcs| - 1])
  }

  /** `objs` after the loop. */
  function ObjectNames(h: Host, k: ObjectKind, srcs: seq<string>): (r: seq<string>)
    ensures |r| == |srcs|
    ensures forall i :: 0 <= i < |srcs| ==> r[i] == ObjectName(h, k, srcs[i])
  {
    if srcs == [] then []
    else ObjectNames(h, k, srcs[..|srcs| - 1]) + [ObjectName(h, k, srcs[|srcs| - 1])]
  }

  // ---------------------------------------------------------------------
  // The terminal rule
  // ---------------------------------------------------------------------

  /** A non-empty `:rpath`, which makes `command` ask the linker for it. */
  predicate RpathSet(v: RValue)
  {
    (v.Str? && |v.s| > 0) || (v.List? && |v.items| > 0)
  }

  function LinkOptions(bi: BuildInput, objs: seq<string>): CommandOptions
  {
    CommandOptions(Some(bi.output), None, Some(bi.ldflags), Some(bi.ldadd), Some(bi.rpath),
                   Some(Link), List(Strs(objs)), None)
  }

  /**
   * The archiver for a static library, the link command otherwise; only
   * the link command can throw, and only for an rpath on an OS that has
   * no way to record one.
   */
  function TerminalRule(c: Compiler, bi: BuildInput, objs: seq<string>): (r: Result<string>)
    requires Linkable(bi)
    ensures r.Err? <==> bi.kind != StaticObjects && RpathSet(bi.rpath) && RpathError(c.machine.host).Some?
    ensures r.Err? ==> r.error == UnsupportedOs
    ensures bi.kind == StaticObjects ==> r == Ok(Archiver(c.machine.host, bi.output, objs))
  {
    if bi.kind == StaticObjects then Ok(Archiver(c.machine.host, bi.output, objs))
    else Command(c, LinkOptions(bi, objs))
  }

  /** `add_target(b.output, objs, cmd)`: the output target on all objects. */
  function OutputAdded(m: MakefileState, output: string, objs: seq<string>, rule: string): (r: MakefileState)
    requires Consistent(m)
    ensures Consistent(r)
    ensures output in r.targets && r.targets[output] == TargetState(output, Strs(objs), [Str(rule)], [], [])
    ensures forall k :: k in m.targets && k != output ==> k in r.targets && r.targets[k] == m.targets[k]
  {
    WithTarget(m, output, List(Strs(objs)), Str(rule)).value
  }

  /** `distribute(b.sources) if b.distributable`: only `distdir` changes. */
  function SourcesDistributed(m: MakefileState, bi: BuildInput): (r: MakefileState)
    requires Consistent(m)
    ensures Consistent(r)
    ensures r.targets.Keys == m.targets.Keys
    ensures forall k :: k in m.targets && k != "distdir" ==> r.targets[k] == m.targets[k]
  {
    if bi.distributable then DistributedAll(m, bi.sources) else m
  }

  /**
   * The steps after the loop, once the terminal rule is known: the output
   * target, `all` on the output, the output's clean rule, and the sources
   * distributed when the Buildable is distributable.
   */
  function Finished(h: Host, bi: BuildInput, m: MakefileState, objs: seq<string>, rule: string): (r: MakefileState)
    requires Consistent(m)
    ensures Consistent(r)
  {
    var m2 := OutputAdded(m, bi.output, objs, rule);
    SourcesDistributed(Cleaned(h, WithDependencyAt(m2, "all", Str(bi.output)), bi.output), bi)
  }

  /** The Makefile `build` returns, or the error its link command throws. */
  function Built(c: Compiler, bi: BuildInput): (r: Result<MakefileState>)
    requires Linkable(bi)
    ensures r.Err? <==> bi.kind != StaticObjects && RpathSet(bi.rpath) && RpathError(c.machine.host).Some?
    ensures r.Err? ==> r.error == UnsupportedOs
    ensures r.Ok? ==> Consistent(r.value)
  {
    var objs := ObjectNames(c.machine.host, bi.kind, bi.sources);
    match TerminalRule(c, bi, objs)
    case Err(e) => Err(e)
    case Ok(rule) => Ok(Finished(c.machine.host, bi, ObjectsBuilt(c, bi, Initial(), bi.sources), objs, rule))
  }

  /** One more source extends the Makefile by one step and `objs` by one name. */
  lemma ObjectsBuiltSnoc(c: Compiler, bi: BuildInput, m: MakefileState, srcs: seq<string>, i: nat)
    requires Consistent(m) && i < |srcs|
    ensures ObjectsBuilt(c, bi, m, srcs[..i + 1]) == ObjectStep(c, bi, ObjectsBuilt(c, bi, m, srcs[..i]), srcs[i])
    ensures ObjectNames(c.machine.host, bi.kind, srcs[..i + 1])
         == ObjectNames(c.machine.host, bi.kind, srcs[..i]) + [ObjectName(c.machine.host, bi.kind, srcs[i])]
  {
    var done := srcs[..i + 1];
    assert done[..i] == srcs[..i] && done[i] == srcs[i];
  }

  /** One turn of the per-source loop of `build`. */
  method CompileObject(c: Compiler, bi: BuildInput, makefile: Makefile, src: string)
    requires makefile.Valid() && makefile.host == c.machine.host
    modifies makefile
    ensures makefile.Valid()
    ensures makefile.State() == ObjectStep(c, bi, old(makefile.State()), src)
  {
    var h := c.machine.host;
    var obj := ObjectName(h, bi.kind, src);
    var cmd := Command(c, CompileOptions(h, bi, src));
    var _ := makefile.AddTarget(obj, List(ObjectDepList(src, bi.localdep)), Str(cmd.value));
    makefile.Clean(obj);
  }

  /** The per-source loop of `build`: returns `objs`. */
  method CompileObjects(c: Compiler, bi: BuildInput, makefile: Makefile) returns (objs: seq<string>)
    requires makefile.Valid() && makefile.host == c.machine.host
    modifies makefile
    ensures makefile.Valid()
    ensures makefile.State() == ObjectsBuilt(c, bi, old(makefile.State()), bi.sources)
    ensures objs == ObjectNames(c.machine.host, bi.kind, bi.sources)
  {
    var h := c.machine.host;
    ghost var start := makefile.State();
    objs := [];
    for i := 0 to |bi.sources|
      invariant makefile.Valid()
      invariant makefile.State() == ObjectsBuilt(c, bi, start, bi.sources[..i])
      invariant objs == ObjectNames(h, bi.kind, bi.sources[..i])
    {
      ObjectsBuiltSnoc(c, bi, start, bi.sources, i);
      CompileObject(c, bi, makefile, bi.sources[i]);
      objs := objs + [ObjectName(h, bi.kind, bi.sources[i])];
    }
    assert bi.sources[..|bi.sources|] == bi.sources;
  }

  /** The steps of `build` after the terminal rule is known. */
  method FinishBuild(bi: BuildInput, makefile: Makefile, objs: seq<string>, rule: string)
    requires makefile.Valid()
    modifies makefile
    ensures makefile.Valid()
    ensures makefile.State() == Finished(makefile.host, bi, old(makefile.State()), objs, rule)
  {
    var _ := makefile.AddTarget(bi.output, List(Strs(objs)), Str(rule));
    makefile.AddDependency("all", Str(bi.output));
    makefile.Clean(bi.output);
    if bi.distributable {
      makefile.DistributeAll(bi.sources);
    }
  }

  /** `build(b)`, on what it reads from the Buildable. */
  method BuildFrom(c: Compiler, bi: BuildInput) returns (r: Result<Makefile>)
    requires Linkable(bi)
    ensures r.Err? <==> Built(c, bi).Err?
    ensures r.Err? ==> r.error == Built(c, bi).error
    ensures r.Ok? ==> fresh(r.value) && r.value.host == c.machine.host && r.value.Valid()
    ensures r.Ok? ==> r.value.State() == Built(c, bi).value
  {
    var makefile := new Makefile(c.machine.host);
    var objs := CompileObjects(c, bi, makefile);
    var rule := TerminalRule(c, bi, objs);
    if rule.Err? {
      return Err(rule.error);
    }
    FinishBuild(bi, makefile, objs, rule.value);
    return Ok(makefile);
  }

  /** lib/makeconf/compiler.rb's `build(b)` on a lib Buildable. */
  method Build(c: Compiler, b: Buildables.Buildable) returns (r: Result<Makefile>)
    requires b.output.Str? && Linkable(InputOf(b))
    ensures r.Err? <==> Built(c, InputOf(b)).Err?
    ensures r.Err? ==> r.error == UnsupportedOs
    ensures r.Ok? ==> fresh(r.value) && r.value.Valid() && r.value.State() == Built(c, InputOf(b)).value
  {
    r := BuildFrom(c, InputOf(b));
  }

  /** trunk/lib/makeconf/compiler.rb's `build(b)` on a trunk Buildable. */
  method TrunkBuild(c: Compiler, b: TrunkBuildables.Buildable) returns (r: Result<Makefile>)
    requires StrList(Ivar(b.ivars, "sources")) && Ivar(b.ivars, "output").Str? && Linkable(TrunkInputOf(b))
    ensures r.Err? <==> Built(c, TrunkInputOf(b)).Err?
    ensures r.Err? ==> r.error == UnsupportedOs
    ensures r.Ok? ==> fresh(r.value) && r.value.Valid() && r.value.State() == Built(c, TrunkInputOf(b)).value
  {
    r := BuildFrom(c, TrunkInputOf(b));
  }

  // ---------------------------------------------------------------------
  // What the built Makefile holds
  // ---------------------------------------------------------------------

  /**
   * After the loop, the target of the `i`-th source is its object target,
   * unless a later source has the same object name.
   */
  lemma {:induction false} ObjectsBuiltTarget(c: Compiler, bi: BuildInput, m: MakefileState, srcs: seq<string>, i: nat)
    requires Consistent(m) && i < |srcs|
    requires ObjectName(c.machine.host, bi.kind, srcs[i]) != "clean"
    requires forall j :: i < j < |srcs| ==> ObjectName(c.machine.host, bi.kind, srcs[j]) != ObjectName(c.machine.host, bi.kind, srcs[i])
    ensures ObjectName(c.machine.host, bi.kind, srcs[i]) in ObjectsBuilt(c, bi, m, srcs).targets
    ensures ObjectsBuilt(c, bi, m, srcs).targets[ObjectName(c.machine.host, bi.kind, srcs[i])] == ObjectTarget(c, bi, srcs[i])
    decreases |srcs|
  {
    var h := c.machine.host;
    var init := srcs[..|srcs| - 1];
    var last := srcs[|srcs| - 1];
    var obj := ObjectName(h, bi.kind, srcs[i]);
    var prev := ObjectsBuilt(c, bi, m, init);
    assert ObjectsBuilt(c, bi, m, srcs) == ObjectStep(c, bi, prev, last);
    if i < |init| {
      assert init[i] == srcs[i];
      forall j | i < j < |init|
        ensures ObjectName(h, bi.kind, init[j]) != obj
      {
        assert init[j] == srcs[j];
      }
      ObjectsBuiltTarget(c, bi, m, init, i);
      assert ObjectName(h, bi.kind, last) != obj by {
        assert srcs[|srcs| - 1] == last;
      }
    } else {
      assert i == |srcs| - 1;
    }
  }

  /** The steps after the loop leave every other target alone. */
  lemma FinishedKeeps(h: Host, bi: BuildInput, m: MakefileState, objs: seq<string>, rule: string, k: string)
    requires Consistent(m) && k in m.targets
    requires k != bi.output && k != "all" && k != "clean" && k != "distdir"
    ensures k in Finished(h, bi, m, objs, rule).targets
    ensures Finished(h, bi, m, objs, rule).targets[k] == m.targets[k]
  {
    var m2 := OutputAdded(m, bi.output, objs, rule);
    var m2a := WithDependencyAt(m2, "all", Str(bi.output));
    var m3 := Cleaned(h, m2a, bi.output);
    assert m2a.targets[k] == m.targets[k];
    assert m3.targets[k] == m.targets[k];
  }

  /** The steps after the loop put the output target in place. */
  lemma FinishedOutput(h: Host, bi: BuildInput, m: MakefileState, objs: seq<string>, rule: string)
    requires Consistent(m)
    requires bi.output != "clean" && bi.output != "all" && bi.output != "distdir"
    ensures var r := Finished(h, bi, m, objs, rule);
            bi.output in r.targets && r.targets[bi.output] == TargetState(bi.output, Strs(objs), [Str(rule)], [], [])
  {
    var m2 := OutputAdded(m, bi.output, objs, rule);
    var m2a := WithDependencyAt(m2, "all", Str(bi.output));
    assert m2a.targets[bi.output] == m2.targets[bi.output];
  }

  /** The steps after the loop make `all` depend on the output. */
  lemma FinishedAll(h: Host, bi: BuildInput, m: MakefileState, objs: seq<string>, rule: string)
    requires Consistent(m)
    ensures var r := Finished(h, bi, m, objs, rule);
            "all" in r.targets && Str(bi.output) in r.targets["all"].deps
  {
    var m2a := WithDependencyAt(OutputAdded(m, bi.output, objs, rule), "all", Str(bi.output));
    var m3 := Cleaned(h, m2a, bi.output);
    assert "all" in m2a.targets && m3.targets["all"] == m2a.targets["all"];
    DistributedKeeps(m3, bi, "all");
  }

  /** Distributing the sources changes no target but `distdir`. */
  lemma DistributedKeeps(m: MakefileState, bi: BuildInput, k: string)
    requires Consistent(m) && k in m.targets && k != "distdir"
    ensures k in SourcesDistributed(m, bi).targets && SourcesDistributed(m, bi).targets[k] == m.targets[k]
  {
  }

  /** The steps after the loop make `clean` remove the output. */
  lemma FinishedClean(h: Host, bi: BuildInput, m: MakefileState, objs: seq<string>, rule: string)
    requires Consistent(m)
    ensures var r := Finished(h, bi, m, objs, rule);
            "clean" in r.targets && Str(Rm(h, [bi.output])) in r.targets["clean"].rules
  {
    var m2a := WithDependencyAt(OutputAdded(m, bi.output, objs, rule), "all", Str(bi.output));
    var m3 := Cleaned(h, m2a, bi.output);
    LastRuleIn(m3.targets["clean"].rules, Str(Rm(h, [bi.output])));
    DistributedKeeps(m3, bi, "clean");
  }

  /** A rule list ending in `x` holds `x`. */
  lemma LastRuleIn(rules: seq<RValue>, x: RValue)
    requires rules != [] && rules[|rules| - 1] == x
    ensures x in rules
  {
  }

  /**
   * In the built Makefile an object's target depends on its source and its
   * local headers and has the compile command as its only rule, provided
   * no later source, the output, nor a fixed target the build touches has
   * the same name.
   */
  lemma BuiltObjectTarget(c: Compiler, bi: BuildInput, i: nat)
    requires Linkable(bi) && Built(c, bi).Ok? && i < |bi.sources|
    requires var obj := ObjectName(c.machine.host, bi.kind, bi.sources[i]);
             obj != "clean" && obj != "all" && obj != "distdir" && obj != bi.output
    requires forall j :: i < j < |bi.sources| ==>
               ObjectName(c.machine.host, bi.kind, bi.sources[j]) != ObjectName(c.machine.host, bi.kind, bi.sources[i])
    ensures var obj := ObjectName(c.machine.host, bi.kind, bi.sources[i]);
            obj in Built(c, bi).value.targets && Built(c, bi).value.targets[obj] == ObjectTarget(c, bi, bi.sources[i])
  {
    var h := c.machine.host;
    var obj := ObjectName(h, bi.kind, bi.sources[i]);
    var objs := ObjectNames(h, bi.kind, bi.sources);
    var m1 := ObjectsBuilt(c, bi, Initial(), bi.sources);
    ObjectsBuiltTarget(c, bi, Initial(), bi.sources, i);
    var rule := TerminalRule(c, bi, objs).value;
    FinishedKeeps(h, bi, m1, objs, rule, obj);
    assert Built(c, bi).value == Finished(h, bi, m1, objs, rule);
  }

  /**
   * The output target depends on exactly the objects, in source order, and
   * has the terminal rule as its only rule; `all` depends on the output and
   * `clean` removes it.
   */
  lemma BuiltOutputTarget(c: Compiler, bi: BuildInput)
    requires Linkable(bi) && Built(c, bi).Ok?
    requires bi.output != "clean" && bi.output != "all" && bi.output != "distdir"
    ensures var r := Built(c, bi).value;
            var objs := ObjectNames(c.machine.host, bi.kind, bi.sources);
            && bi.output in r.targets
            && r.targets[bi.output] == TargetState(bi.output, Strs(objs), [Str(TerminalRule(c, bi, objs).value)], [], [])
            && "all" in r.targets && Str(bi.output) in r.targets["all"].deps
            && "clean" in r.targets && Str(Rm(c.machine.host, [bi.output])) in r.targets["clean"].rules
  {
    var h := c.machine.host;
    var objs := ObjectNames(h, bi.kind, bi.sources);
    var m1 := ObjectsBuilt(c, bi, Initial(), bi.sources);
    var rule := TerminalRule(c, bi, objs).value;
    FinishedOutput(h, bi, m1, objs, rule);
    FinishedAll(h, bi, m1, objs, rule);
    FinishedClean(h, bi, m1, objs, rule);
    assert Built(c, bi).value == Finished(h, bi, m1, objs, rule);
  }

  /** An object's compile rule: the compiler, `-c`, the Buildable's cflags, `-fpic` for a shared library, the output flags, the source. */
  lemma CompileRuleWords(c: Compiler, bi: BuildInput, src: string)
    ensures CompileRule(c, bi, src) ==
              Spaced([c.path, "-c"] + Texts([bi.cflags]) + (if bi.kind == SharedObjects then ["-fpic"] else [])
                     + CompileExtraWords(c, ObjectName(c.machine.host, bi.kind, src)) + [src])
  {
    var o := CompileOptions(c.machine.host, bi, src);
    CompileCommandWords(c, o);
    var fpic: seq<RValue> := if bi.kind == SharedObjects then [Str("-fpic")] else [];
    var words: seq<string> := if bi.kind == SharedObjects then ["-fpic"] else [];
    TextsAppend([bi.cflags], fpic);
    if bi.kind == SharedObjects {
      TextsOfStr("-fpic");
    }
    assert Texts(fpic) == words;
    TextsOfStr(src);
    var extra := CompileExtraWords(c, ObjectName(c.machine.host, bi.kind, src));
    assert CompileFlagWords(c, o, o.output.value) == Texts([bi.cflags]) + words + extra;
    Regroup4([c.path, "-c"], Texts([bi.cflags]), words, extra);
  }
}
