/**
 * The earliest `Compiler` class, compiler.rb: object names, the command
 * line of one compile, and `build`, which fills a fresh Makefile with one
 * target per object and a link rule written out in place.
 *
 * Unlike the later classes, its `command` has no stages: every command
 * compiles (`-c` is always pushed) and also carries the link flags, the
 * linker text and the libraries. Its `build` walks the object names, not
 * the sources, and recovers each source from its object name.
 */
module EarlyCompilers {
  import opened Strings
  import opened RubyValues
  import opened Platform
  import opened Patterns
  import opened Linkers
  import opened Targets
  import opened Makefiles
  import Buildables
  import Compilers
  import CompilerBuilds

  /**
   * A compiler object: `@path` as `search` left it, the text `@ld.to_s`
   * gives for its linker, and the machine it runs on.
   */
  datatype EarlyCompiler = EarlyCompiler(path: string, ldText: string, host: Host)

  /**
   * The option hash of `command`; `None` is a missing key. `cflags` is an
   * Array because `command` pushes onto it.
   */
  datatype EarlyOptions = EarlyOptions(
    output: Option<string>,
    cflags: Option<seq<RValue>>,
    ldflags: Option<RValue>,
    ldadd: Option<RValue>,
    sources: RValue)

  /** `/Fo` for a path ending in `cl.exe` (any case), `-o` otherwise. */
  function OutputFlag(path: string): (r: string)
    ensures r == "/Fo" <==> IsClExe(path)
    ensures r == "-o" <==> !IsClExe(path)
  {
    if IsClExe(path) then "/Fo" else "-o"
  }

  /** `h[:cflags]` after `command` pushed `-c` and the output flag. */
  function PushedCflags(c: EarlyCompiler, o: EarlyOptions, out: string): seq<RValue>
  {
    (if o.cflags.Some? then o.cflags.value else []) + Strs(["-c", OutputFlag(c.path), out])
  }

  /**
   * `command(h)`: ArgumentError without `:output`; otherwise the path, the
   * cflags with `-c` and the output flag pushed, the ldflags, the linker's
   * text, the inputs and the ldadd, flattened and joined by spaces.
   */
  function EarlyCommand(c: EarlyCompiler, o: EarlyOptions): (r: Result<string>)
    requires o.sources.Str? || o.sources.List?
    ensures r.Err? <==> o.output.None?
    ensures r.Err? ==> r.error == Compilers.ArgumentError
  {
    if o.output.None? then Err(Compilers.ArgumentError)
    else
      Ok(Spaced(Texts([Str(c.path), List(PushedCflags(c, o, o.output.value)), Compilers.Listed(o.ldflags),
                       Str(c.ldText), o.sources, Compilers.Listed(o.ldadd)])))
  }

  lemma TextsOfThree(x: RValue, y: RValue, z: RValue)
    ensures Texts([x, y, z]) == Texts([x]) + Texts([y]) + Texts([z])
  {
    assert [x, y, z] == [x, y] + [z];
    assert [x, y] == [x] + [y];
    TextsAppend([x, y], [z]);
    TextsAppend([x], [y]);
  }

  lemma TextsOfSix(p: string, cf: seq<RValue>, lf: RValue, t: string, src: RValue, la: RValue)
    ensures Texts([Str(p), List(cf), lf, Str(t), src, la])
         == [p] + Texts(cf) + Texts([lf]) + [t] + Texts([src]) + Texts([la])
  {
    assert [Str(p), List(cf), lf, Str(t), src, la] == [Str(p), List(cf), lf] + [Str(t), src, la];
    TextsAppend([Str(p), List(cf), lf], [Str(t), src, la]);
    TextsOfThree(Str(p), List(cf), lf);
    TextsOfThree(Str(t), src, la);
    TextsOfStr(p);
    TextsOfStr(t);
    TextsOfList(cf);
  }

  /**
   * The words of a command: the path, the caller's cflags, `-c`, the output
   * flag and the output as separate words, the ldflags, the linker text,
   * the inputs and the ldadd; a missing option contributes nothing.
   */
  lemma EarlyCommandWords(c: EarlyCompiler, o: EarlyOptions)
    requires o.sources.Str? || o.sources.List?
    requires o.output.Some?
    ensures EarlyCommand(c, o) ==
              Ok(Spaced([c.path] + Texts(if o.cflags.Some? then o.cflags.value else [])
                        + ["-c", OutputFlag(c.path), o.output.value]
                        + Texts([Compilers.Listed(o.ldflags)]) + [c.ldText] + Texts([o.sources])
                        + Texts([Compilers.Listed(o.ldadd)])))
  {
    var given: seq<RValue> := if o.cflags.Some? then o.cflags.value else [];
    var extra := ["-c", OutputFlag(c.path), o.output.value];
    var lf, la := Compilers.Listed(o.ldflags), Compilers.Listed(o.ldadd);
    TextsOfSix(c.path, PushedCflags(c, o, o.output.value), lf, c.ldText, o.sources, la);
    TextsAppend(given, Strs(extra));
    TextsOfStrs(extra);
    Compilers.Regroup3([c.path], Texts(given), extra);
  }

  // ---------------------------------------------------------------------
  // Objects and sources
  // ---------------------------------------------------------------------

  /** `object_files(sources)`, the value `Compilers.ObjectFiles` computes. */
  function ObjectList(h: Host, sources: seq<string>): (r: seq<string>)
    ensures |r| == |sources|
    ensures forall i :: 0 <= i < |r| ==> r[i] == Compilers.ObjectOf(h, Sort(sources)[i], "")
  {
    var sorted := Sort(sources);
    seq(|sorted|, i requires 0 <= i < |sorted| => Compilers.ObjectOf(h, sorted[i], ""))
  }

  /**
   * `d.sub(/#{Platform.object_extension}$/, '.c')`: the object extension
   * is a pattern here, so its dot matches any character.
   */
  function SourceOf(h: Host, obj: string): string
  {
    SubEol(obj, ObjectExtension(h), ".c")
  }

  /** A string without a newline matches itself as a pattern: a dot matches itself too. */
  lemma SelfMatch(s: string)
    requires '\n' !in s
    ensures MatchAt(s, 0, Atoms(s), false)
  {
    forall j | 0 <= j < |s|
      ensures AtomMatches(Atoms(s)[j], s[j], false)
    {
      assert s[j] in s;
    }
  }

  /**
   * The source `build` recovers from an object name: for a source whose
   * last two characters `object_files` replaced, the stem with `.c`. A
   * source ending in `.c` comes back unchanged.
   */
  lemma SourceOfObject(h: Host, src: string)
    requires Compilers.CSource(src)
    ensures SourceOf(h, Compilers.ObjectOf(h, src, "")) == src[..|src| - 2] + ".c"
    ensures src[|src| - 2] == '.' ==> SourceOf(h, Compilers.ObjectOf(h, src, "")) == src
  {
    var stem := src[..|src| - 2];
    var ext := ObjectExtension(h);
    Compilers.ObjectOfCSource(h, src, "");
    assert stem + "" + ext == stem + ext;
    assert '\n' !in stem by {
      forall k | 0 <= k < |stem| ensures stem[k] != '\n' {
        assert stem[k] == src[k];
      }
    }
    SelfMatch(ext);
    SubEolSuffix(stem, ext, ext, ".c");
    if src[|src| - 2] == '.' {
      assert src == stem + ".c";
    }
  }

  // ---------------------------------------------------------------------
  // What `build` reads from the Buildable
  // ---------------------------------------------------------------------

  /** The attributes of the Buildable that `build` reads. */
  datatype EarlyInput = EarlyInput(
    sources: seq<string>,
    cflags: RValue,
    output: string,
    shared: bool,
    ldflags: RValue,
    ldadd: RValue,
    distributable: bool)

  /**
   * What a Buildable gives `build`: `library? and library_type == :shared`
   * holds exactly when the output type is a shared library.
   */
  function InputOf(b: Buildables.EarlyBuildable): (r: EarlyInput)
    reads b
    requires b.output.Str?
    ensures r.shared <==> b.outputType == Some(Buildables.SharedLibraryType)
  {
    EarlyInput(b.sources, b.cflags, b.output.s, b.LibraryType() == Ok(Buildables.SharedKind),
               Buildables.Setting(b.vars, "ldflags"), Buildables.Setting(b.vars, "ldadd"),
               Truthy(Buildables.Setting(b.vars, "distributable")))
  }

  // ---------------------------------------------------------------------
  // One target per object
  // ---------------------------------------------------------------------

  /** `[b.cflags]`, with `-fpic` pushed for a shared library. */
  function ObjectCflags(bi: EarlyInput): seq<RValue>
  {
    [bi.cflags] + (if bi.shared then [Str("-fpic")] else [])
  }

  function ObjectOptions(h: Host, bi: EarlyInput, obj: string): EarlyOptions
  {
    EarlyOptions(Some(obj), Some(ObjectCflags(bi)), Some(bi.ldflags), Some(bi.ldadd), Str(SourceOf(h, obj)))
  }

  /** The command of one object; it always has an output, so it never throws. */
  function ObjectRule(c: EarlyCompiler, bi: EarlyInput, obj: string): string
  {
    EarlyCommand(c, ObjectOptions(c.host, bi, obj)).value
  }

  /** The target `add_target(d, src, cmd)` creates. */
  function ObjectTarget(c: EarlyCompiler, bi: EarlyInput, obj: string): TargetState
  {
    TargetState(obj, [Str(SourceOf(c.host, obj))], [Str(ObjectRule(c, bi, obj))], [], [])
  }

  /**
   * An object's command: the compiler, the Buildable's cflags, `-fpic` for
   * a shared library, `-c` and the output flag with the object, then the
   * link flags, the linker text, the source and the libraries.
   */
  lemma ObjectRuleWords(c: EarlyCompiler, bi: EarlyInput, obj: string)
    ensures ObjectRule(c, bi, obj) ==
              Spaced([c.path] + Texts([bi.cflags]) + (if bi.shared then ["-fpic"] else [])
                     + ["-c", OutputFlag(c.path), obj] + Texts([bi.ldflags]) + [c.ldText]
                     + [SourceOf(c.host, obj)] + Texts([bi.ldadd]))
  {
    var o := ObjectOptions(c.host, bi, obj);
    EarlyCommandWords(c, o);
    var fpic: seq<RValue> := if bi.shared then [Str("-fpic")] else [];
    var w: seq<string> := if bi.shared then ["-fpic"] else [];
    TextsAppend([bi.cflags], fpic);
    if bi.shared {
      TextsOfStr("-fpic");
    }
    assert Texts(ObjectCflags(bi)) == Texts([bi.cflags]) + w;
    TextsOfStr(SourceOf(c.host, obj));
    Compilers.Regroup3([c.path], Texts([bi.cflags]), w);
  }

  /** One turn of the loop: the object's target, then its clean rule. */
  function ObjectStep(c: EarlyCompiler, bi: EarlyInput, m: MakefileState, obj: string): (r: MakefileState)
    requires Consistent(m)
    ensures Consistent(r)
    ensures obj != "clean" ==> obj in r.targets && r.targets[obj] == ObjectTarget(c, bi, obj)
    ensures forall k :: k in m.targets && k != obj && k != "clean" ==> k in r.targets && r.targets[k] == m.targets[k]
  {
    var added := WithTarget(m, obj, Str(SourceOf(c.host, obj)), Str(ObjectRule(c, bi, obj)));
    Cleaned(c.host, added.value, obj)
  }

  /** The Makefile after the loop has handled `objs`. */
  function ObjectsBuilt(c: EarlyCompiler, bi: EarlyInput, m: MakefileState, objs: seq<string>): (r: MakefileState)
    requires Consistent(m)
    ensures Consistent(r)
  {
    if objs == [] then m
    else ObjectStep(c, bi, ObjectsBuilt(c, bi, m, objs[..|objs| - 1]), objs[|objs| - 1])
  }

  /** `object_files(b.sources).sort` */
  function BuildObjects(h: Host, sources: seq<string>): (r: seq<string>)
    ensures Sorted(r) && multiset(r) == multiset(ObjectList(h, sources))
  {
    Sort(ObjectList(h, sources))
  }

  // ---------------------------------------------------------------------
  // The link rule and the steps after the loop
  // ---------------------------------------------------------------------

  /** `-o <output>` as one word, then `-shared` and, except on Solaris, `-Wl,-export-dynamic` for a shared library. */
  function LinkFlagList(h: Host, bi: EarlyInput): seq<RValue>
  {
    [Str("-o " + bi.output)]
    + (if bi.shared then [Str("-shared")] + (if !IsSolaris(h) then [Str("-Wl,-export-dynamic")] else []) else [])
  }

  /** The link rule `build` writes out in place. */
  function LinkRule(c: EarlyCompiler, bi: EarlyInput, objs: seq<string>): string
  {
    Spaced(Texts([Str(c.path), List(LinkFlagList(c.host, bi)), Str("$(CFLAGS)"), bi.ldflags, Str("$(LDFLAGS)"),
                  List(Strs(objs)), bi.ldadd, Str("$(LDADD)")]))
  }

  function SharedWords(h: Host, shared: bool): seq<string>
  {
    if shared then ["-shared"] + (if !IsSolaris(h) then ["-Wl,-export-dynamic"] else []) else []
  }

  lemma LinkFlagTexts(h: Host, bi: EarlyInput)
    ensures Texts(LinkFlagList(h, bi)) == ["-o " + bi.output] + SharedWords(h, bi.shared)
  {
    var words := ["-o " + bi.output] + SharedWords(h, bi.shared);
    assert LinkFlagList(h, bi) == Strs(words);
    TextsOfStrs(words);
  }

  /**
   * The link rule's words: the compiler, `-o <output>` as one word, the
   * shared-library flags, `$(CFLAGS)`, the ldflags, `$(LDFLAGS)`, every
   * object, the ldadd and `$(LDADD)`.
   */
  lemma LinkRuleWords(c: EarlyCompiler, bi: EarlyInput, objs: seq<string>)
    ensures LinkRule(c, bi, objs) ==
              Spaced([c.path, "-o " + bi.output] + SharedWords(c.host, bi.shared) + ["$(CFLAGS)"]
                     + Texts([bi.ldflags]) + ["$(LDFLAGS)"] + objs + Texts([bi.ldadd]) + ["$(LDADD)"])
  {
    var lf := LinkFlagList(c.host, bi);
    var tail := [bi.ldflags, Str("$(LDFLAGS)"), List(Strs(objs)), bi.ldadd, Str("$(LDADD)")];
    assert [Str(c.path), List(lf), Str("$(CFLAGS)"), bi.ldflags, Str("$(LDFLAGS)"), List(Strs(objs)), bi.ldadd, Str("$(LDADD)")]
        == [Str(c.path), List(lf), Str("$(CFLAGS)")] + tail;
    TextsAppend([Str(c.path), List(lf), Str("$(CFLAGS)")], tail);
    TextsOfThree(Str(c.path), List(lf), Str("$(CFLAGS)"));
    TextsOfStr(c.path);
    TextsOfList(lf);
    TextsOfStr("$(CFLAGS)");
    LinkFlagTexts(c.host, bi);
    var sw := SharedWords(c.host, bi.shared);
    Compilers.Regroup3([c.path], ["-o " + bi.output], sw);
    assert [c.path] + ["-o " + bi.output] == [c.path, "-o " + bi.output];
    LinkTailTexts(bi, objs);
    Regroup6([c.path, "-o " + bi.output] + sw + ["$(CFLAGS)"], Texts([bi.ldflags]), ["$(LDFLAGS)"], objs,
             Texts([bi.ldadd]), ["$(LDADD)"]);
  }

  lemma Regroup6<T>(a: seq<T>, b: seq<T>, c: seq<T>, d: seq<T>, e: seq<T>, f: seq<T>)
    ensures a + (b + c + d + e + f) == a + b + c + d + e + f
  {
  }

  lemma LinkTailTexts(bi: EarlyInput, objs: seq<string>)
    ensures Texts([bi.ldflags, Str("$(LDFLAGS)"), List(Strs(objs)), bi.ldadd, Str("$(LDADD)")])
         == Texts([bi.ldflags]) + ["$(LDFLAGS)"] + objs + Texts([bi.ldadd]) + ["$(LDADD)"]
  {
    var first := [bi.ldflags, Str("$(LDFLAGS)"), List(Strs(objs))];
    var second := [bi.ldadd, Str("$(LDADD)")];
    assert [bi.ldflags, Str("$(LDFLAGS)"), List(Strs(objs)), bi.ldadd, Str("$(LDADD)")] == first + second;
    TextsAppend(first, second);
    TextsOfThree(bi.ldflags, Str("$(LDFLAGS)"), List(Strs(objs)));
    TextsOfStr("$(LDFLAGS)");
    TextsOfList(Strs(objs));
    TextsOfStrs(objs);
    assert second == [bi.ldadd] + [Str("$(LDADD)")];
    TextsAppend([bi.ldadd], [Str("$(LDADD)")]);
    TextsOfStr("$(LDADD)");
    Compilers.Regroup3(Texts(first), Texts([bi.ldadd]), ["$(LDADD)"]);
  }

  /**
   * The steps after the loop: the output target on all objects, `all` on
   * the output, the output's clean rule, and the sources copied into the
   * distribution as one space-joined list when the Buildable is
   * distributable.
   */
  function Finished(h: Host, bi: EarlyInput, m: MakefileState, objs: seq<string>, rule: string): (r: MakefileState)
    requires Consistent(m)
    ensures Consistent(r)
  {
    var m2 := CompilerBuilds.OutputAdded(m, bi.output, objs, rule);
    var m3 := Cleaned(h, WithDependencyAt(m2, "all", Str(bi.output)), bi.output);
    if bi.distributable then ListDistributed(m3, bi.sources) else m3
  }

  /** The Makefile `build` returns. */
  function Built(c: EarlyCompiler, bi: EarlyInput): (r: MakefileState)
    ensures Consistent(r)
  {
    var objs := BuildObjects(c.host, bi.sources);
    Finished(c.host, bi, ObjectsBuilt(c, bi, Initial(), objs), objs, LinkRule(c, bi, objs))
  }

  // ---------------------------------------------------------------------
  // `build`
  // ---------------------------------------------------------------------

  lemma ObjectsBuiltSnoc(c: EarlyCompiler, bi: EarlyInput, m: MakefileState, objs: seq<string>, i: nat)
    requires Consistent(m) && i < |objs|
    ensures ObjectsBuilt(c, bi, m, objs[..i + 1]) == ObjectStep(c, bi, ObjectsBuilt(c, bi, m, objs[..i]), objs[i])
  {
    var done := objs[..i + 1];
    assert done[..i] == objs[..i] && done[i] == objs[i];
  }

  /** One turn of the loop of `build`. */
  method CompileObject(c: EarlyCompiler, bi: EarlyInput, makefile: Makefile, obj: string)
    requires makefile.Valid() && makefile.host == c.host
    modifies makefile
    ensures makefile.Valid()
    ensures makefile.State() == ObjectStep(c, bi, old(makefile.State()), obj)
  {
    var src := SourceOf(c.host, obj);
    var cmd := EarlyCommand(c, ObjectOptions(c.host, bi, obj));
    var _ := makefile.AddTarget(obj, Str(src), Str(cmd.value));
    makefile.Clean(obj);
  }

  /** The loop of `build` over the sorted object names. */
  method CompileObjects(c: EarlyCompiler, bi: EarlyInput, makefile: Makefile, objs: seq<string>)
    requires makefile.Valid() && makefile.host == c.host
    modifies makefile
    ensures makefile.Valid()
    ensures makefile.State() == ObjectsBuilt(c, bi, old(makefile.State()), objs)
  {
    ghost var start := makefile.State();
    for i := 0 to |objs|
      invariant makefile.Valid()
      invariant makefile.State() == ObjectsBuilt(c, bi, start, objs[..i])
    {
      ObjectsBuiltSnoc(c, bi, start, objs, i);
      CompileObject(c, bi, makefile, objs[i]);
    }
    assert objs[..|objs|] == objs;
  }

  /** The steps of `build` after the loop. */
  method FinishBuild(bi: EarlyInput, makefile: Makefile, objs: seq<string>, rule: string)
    requires makefile.Valid()
    modifies makefile
    ensures makefile.Valid()
    ensures makefile.State() == Finished(makefile.host, bi, old(makefile.State()), objs, rule)
  {
    var _ := makefile.AddTarget(bi.output, List(Strs(objs)), Str(rule));
    makefile.AddDependency("all", Str(bi.output));
    makefile.Clean(bi.output);
    if bi.distributable {
      makefile.DistributeList(bi.sources);
    }
  }

  /** `build(b)`: never throws for a Buildable whose output is a String. */
  method Build(c: EarlyCompiler, b: Buildables.EarlyBuildable) returns (makefile: Makefile)
    requires b.output.Str?
    ensures fresh(makefile) && makefile.host == c.host && makefile.Valid()
    ensures makefile.State() == Built(c, InputOf(b))
  {
    var bi := InputOf(b);
    var files := Compilers.ObjectFiles(c.host, b.sources);
    assert files == ObjectList(c.host, b.sources);
    var objs := Sort(files);
    makefile := new Makefile(c.host);
    CompileObjects(c, bi, makefile, objs);
    var rule := LinkRule(c, bi, objs);
    FinishBuild(bi, makefile, objs, rule);
  }

  // ---------------------------------------------------------------------
  // What the built Makefile holds
  // ---------------------------------------------------------------------

  /** After the loop, an object's target is its own, unless a later object has the same name. */
  lemma {:induction false} ObjectsBuiltTarget(c: EarlyCompiler, bi: EarlyInput, m: MakefileState, objs: seq<string>, i: nat)
    requires Consistent(m) && i < |objs| && objs[i] != "clean"
    requires forall j :: i < j < |objs| ==> objs[j] != objs[i]
    ensures objs[i] in ObjectsBuilt(c, bi, m, objs).targets
    ensures ObjectsBuilt(c, bi, m, objs).targets[objs[i]] == ObjectTarget(c, bi, objs[i])
    decreases |objs|
  {
    var init := objs[..|objs| - 1];
    var last := objs[|objs| - 1];
    var prev := ObjectsBuilt(c, bi, m, init);
    assert ObjectsBuilt(c, bi, m, objs) == ObjectStep(c, bi, prev, last);
    if i < |init| {
      assert init[i] == objs[i];
      forall j | i < j < |init|
        ensures init[j] != init[i]
      {
        assert init[j] == objs[j];
      }
      ObjectsBuiltTarget(c, bi, m, init, i);
      assert last != objs[i];
    } else {
      assert i == |objs| - 1;
    }
  }

  lemma FinishedKeeps(h: Host, bi: EarlyInput, m: MakefileState, objs: seq<string>, rule: string, k: string)
    requires Consistent(m) && k in m.targets
    requires k != bi.output && k != "all" && k != "clean" && k != "distdir"
    ensures k in Finished(h, bi, m, objs, rule).targets
    ensures Finished(h, bi, m, objs, rule).targets[k] == m.targets[k]
  {
    var m2 := CompilerBuilds.OutputAdded(m, bi.output, objs, rule);
    var m2a := WithDependencyAt(m2, "all", Str(bi.output));
    var m3 := Cleaned(h, m2a, bi.output);
    assert m2a.targets[k] == m.targets[k];
    assert m3.targets[k] == m.targets[k];
  }

  /**
   * In the built Makefile the target of each object depends on the source
   * recovered from its name and has the object's command as its only rule,
   * provided the name is unique and is neither the output nor a fixed
   * target the build touches.
   */
  lemma BuiltObjectTarget(c: EarlyCompiler, bi: EarlyInput, i: nat)
    requires i < |BuildObjects(c.host, bi.sources)|
    requires var objs := BuildObjects(c.host, bi.sources);
             && objs[i] != "clean" && objs[i] != "all" && objs[i] != "distdir" && objs[i] != bi.output
             && forall j :: i < j < |objs| ==> objs[j] != objs[i]
    ensures var objs := BuildObjects(c.host, bi.sources);
            objs[i] in Built(c, bi).targets && Built(c, bi).targets[objs[i]] == ObjectTarget(c, bi, objs[i])
  {
    var h := c.host;
    var objs := BuildObjects(h, bi.sources);
    var m1 := ObjectsBuilt(c, bi, Initial(), objs);
    ObjectsBuiltTarget(c, bi, Initial(), objs, i);
    FinishedKeeps(h, bi, m1, objs, LinkRule(c, bi, objs), objs[i]);
  }

  lemma FinishedOutput(h: Host, bi: EarlyInput, m: MakefileState, objs: seq<string>, rule: string)
    requires Consistent(m)
    requires bi.output != "clean" && bi.output != "all" && bi.output != "distdir"
    ensures var r := Finished(h, bi, m, objs, rule);
            bi.output in r.targets && r.targets[bi.output] == TargetState(bi.output, Strs(objs), [Str(rule)], [], [])
  {
    var m2 := CompilerBuilds.OutputAdded(m, bi.output, objs, rule);
    var m2a := WithDependencyAt(m2, "all", Str(bi.output));
    assert m2a.targets[bi.output] == m2.targets[bi.output];
  }

  lemma FinishedAll(h: Host, bi: EarlyInput, m: MakefileState, objs: seq<string>, rule: string)
    requires Consistent(m)
    ensures var r := Finished(h, bi, m, objs, rule);
            "all" in r.targets && Str(bi.output) in r.targets["all"].deps
  {
    var m2a := WithDependencyAt(CompilerBuilds.OutputAdded(m, bi.output, objs, rule), "all", Str(bi.output));
    var m3 := Cleaned(h, m2a, bi.output);
    assert "all" in m2a.targets && m3.targets["all"] == m2a.targets["all"];
    DistributedKeeps(m3, bi, "all");
  }

  lemma FinishedClean(h: Host, bi: EarlyInput, m: MakefileState, objs: seq<string>, rule: string)
    requires Consistent(m)
    ensures var r := Finished(h, bi, m, objs, rule);
            "clean" in r.targets && Str(Rm(h, [bi.output])) in r.targets["clean"].rules
  {
    var m2a := WithDependencyAt(CompilerBuilds.OutputAdded(m, bi.output, objs, rule), "all", Str(bi.output));
    var m3 := Cleaned(h, m2a, bi.output);
    CompilerBuilds.LastRuleIn(m3.targets["clean"].rules, Str(Rm(h, [bi.output])));
    DistributedKeeps(m3, bi, "clean");
  }

  /** Distributing the sources, when the program is distributable, changes no target but `distdir`. */
  lemma DistributedKeeps(m: MakefileState, bi: EarlyInput, k: string)
    requires Consistent(m) && k in m.targets && k != "distdir"
    ensures var r := if bi.distributable then ListDistributed(m, bi.sources) else m;
            k in r.targets && r.targets[k] == m.targets[k]
  {
  }

  /**
   * The output target depends on every object, sorted, and has the link
   * rule as its only rule; `all` depends on the output and `clean`
   * removes it.
   */
  lemma BuiltOutputTarget(c: EarlyCompiler, bi: EarlyInput)
    requires bi.output != "clean" && bi.output != "all" && bi.output != "distdir"
    ensures var r := Built(c, bi);
            var objs := BuildObjects(c.host, bi.sources);
            && bi.output in r.targets
            && r.targets[bi.output] == TargetState(bi.output, Strs(objs), [Str(LinkRule(c, bi, objs))], [], [])
            && "all" in r.targets && Str(bi.output) in r.targets["all"].deps
            && "clean" in r.targets && Str(Rm(c.host, [bi.output])) in r.targets["clean"].rules
  {
    var h := c.host;
    var objs := BuildObjects(h, bi.sources);
    var m1 := ObjectsBuilt(c, bi, Initial(), objs);
    var rule := LinkRule(c, bi, objs);
    FinishedOutput(h, bi, m1, objs, rule);
    FinishedAll(h, bi, m1, objs, rule);
    FinishedClean(h, bi, m1, objs, rule);
  }

  /**
   * A distributable Buildable adds its sources, joined by spaces, as one
   * copy into `$(distdir)`; any other leaves `distdir` as the loop left it.
   */
  lemma BuiltDistribution(c: EarlyCompiler, bi: EarlyInput)
    requires bi.output != "distdir"
    ensures var r := Built(c, bi);
            var objs := BuildObjects(c.host, bi.sources);
            var m1 := ObjectsBuilt(c, bi, Initial(), objs);
            && "distdir" in r.targets && "distdir" in m1.targets
            && (bi.distributable ==>
                  Lookup(r.targets["distdir"].copies, "$(distdir)")
                  == Lookup(m1.targets["distdir"].copies, "$(distdir)") + [Spaced(bi.sources)])
            && (!bi.distributable ==> r.targets["distdir"] == m1.targets["distdir"])
  {
    var h := c.host;
    var objs := BuildObjects(h, bi.sources);
    var m1 := ObjectsBuilt(c, bi, Initial(), objs);
    var rule := LinkRule(c, bi, objs);
    var m2 := CompilerBuilds.OutputAdded(m1, bi.output, objs, rule);
    var m2a := WithDependencyAt(m2, "all", Str(bi.output));
    var m3 := Cleaned(h, m2a, bi.output);
    FixedTargetsPresent(m1);
    FixedTargetsPresent(m3);
    assert m3.targets["distdir"] == m1.targets["distdir"];
    if bi.distributable {
      ListDistributeEffect(m3, bi.sources);
    }
  }
}
