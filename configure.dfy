/*
 * The prototype configure.rb: a Platform object built for one target OS, a
 * C compiler command line, and a Makefile of plain targets whose text
 * always carries a `dist` target that packs `<project>-<version>`.
 *
 * The target OS, the compiler path that `search` settles on and the file
 * contents are parameters; probing, the YAML manifest and the file writes
 * are not part of this model.
 */
module Prototype {
  import opened Strings
  import opened Shell
  import opened RubyValues
  import Makefiles

  // ---------------------------------------------------------------------
  // Platform
  // ---------------------------------------------------------------------

  /** A Platform instance: the target OS it was made for. */
  datatype ProtoPlatform = ProtoPlatform(targetOs: string)

  /** `is_windows?`: the target OS matches `mswin|mingw`. */
  predicate IsWindows(p: ProtoPlatform)
  {
    Contains(p.targetOs, "mswin") || Contains(p.targetOs, "mingw")
  }

  /** What `rm` accepts: one path, or an Array of paths. */
  datatype PathArg = OnePath(path: string) | Paths(paths: seq<string>)

  /** An Array is joined with spaces first. */
  function PathText(a: PathArg): string
  {
    match a
    case OnePath(s) => s
    case Paths(ps) => Spaced(ps)
  }

  /** `rm(path)`: `del /F` on Windows, `rm -f` elsewhere. */
  function Rm(p: ProtoPlatform, a: PathArg): string
  {
    (if IsWindows(p) then "del /F " else "rm -f ") + PathText(a)
  }

  /** `cp(src, dst)`: `copy` on Windows, `cp` elsewhere. */
  function Cp(p: ProtoPlatform, src: string, dst: string): string
  {
    (if IsWindows(p) then "copy " else "cp ") + src + " " + dst
  }

  /** `dev_null`: the redirection that silences a command. */
  function DevNull(p: ProtoPlatform): string
  {
    if IsWindows(p) then " >NUL 2>NUL" else " >/dev/null 2>&1"
  }

  /** `executable_extension` */
  function ExecutableExtension(p: ProtoPlatform): string
  {
    if IsWindows(p) then ".exe" else ""
  }

  /**
   * The four spellings agree on the platform: each takes its Windows form
   * exactly when the target OS names `mswin` or `mingw`, and its Unix form
   * otherwise.
   */
  lemma SpellingsAgree(p: ProtoPlatform, a: PathArg, src: string, dst: string)
    ensures StartsWith(Rm(p, a), "del /F ") <==> IsWindows(p)
    ensures StartsWith(Rm(p, a), "rm -f ") <==> !IsWindows(p)
    ensures StartsWith(Cp(p, src, dst), "copy ") <==> IsWindows(p)
    ensures StartsWith(Cp(p, src, dst), "cp ") <==> !IsWindows(p)
    ensures EndsWith(Cp(p, src, dst), " " + dst)
    ensures DevNull(p) == " >NUL 2>NUL" <==> IsWindows(p)
    ensures ExecutableExtension(p) == ".exe" <==> IsWindows(p)
    ensures ExecutableExtension(p) == "" <==> !IsWindows(p)
  {
    var r, c := Rm(p, a), Cp(p, src, dst);
    if IsWindows(p) {
      assert r[..7] == "del /F ";
      assert r[0] != "rm -f "[0];
      assert c[..5] == "copy ";
      assert c[1] != "cp "[1];
    } else {
      assert r[..6] == "rm -f ";
      assert r[0] != "del /F "[0];
      assert c[..3] == "cp ";
      assert c[1] != "copy "[1];
    }
    assert c[|c| - |dst| - 1..] == " " + dst;
  }

  /**
   * The removal command hands the shell its verb, its force flag, then the
   * paths one by one; an Array of paths gives the same command as the
   * paths joined by spaces.
   */
  lemma RmArguments(p: ProtoPlatform, paths: seq<string>)
    requires AllPlain(paths) && paths != []
    ensures ShellWords(Rm(p, Paths(paths))) == (if IsWindows(p) then ["del", "/F"] else ["rm", "-f"]) + paths
    ensures Rm(p, Paths(paths)) == Rm(p, OnePath(Spaced(paths)))
  {
    var a, b := if IsWindows(p) then "del" else "rm", if IsWindows(p) then "/F" else "-f";
    SpacedPair(a, b);
    assert Rm(p, Paths(paths)) == Spaced([a, b]) + " " + Spaced(paths);
    SpacedPrefix([a, b], paths);
  }

  // ---------------------------------------------------------------------
  // Compiler#command
  // ---------------------------------------------------------------------

  /** A compiler after `search`: its path and the flags it was made with. */
  datatype ProtoCompiler = ProtoCompiler(path: string, cflags: string, ldadd: string)

  /** The cflags of one command: ` -c` when compiling only, then ` -o <output>`. */
  function CommandFlags(c: ProtoCompiler, output: string, compileOnly: int): string
  {
    c.cflags + (if compileOnly == 1 then " -c" else "") + " -o " + output
  }

  /**
   * `command(output, sources, log_to, compile_only)`: the path, the flags,
   * the (flattened) sources, the ldadd and the log redirection, joined by
   * spaces.
   */
  function Command(c: ProtoCompiler, output: string, sources: RValue, logTo: string, compileOnly: int): string
  {
    JoinValues([Str(c.path), Str(CommandFlags(c, output, compileOnly)), sources, Str(c.ldadd), Str(logTo)], " ")
  }

  /** Joining two or more values: the first, the separator, then the rest joined. */
  lemma JoinValuesStep(ys: seq<RValue>)
    requires |ys| >= 2
    ensures JoinValues(ys, " ") == Render(ys[0], " ") + " " + JoinValues(ys[1..], " ")
  {
  }

  /** Moving the parentheses of five space-separated pieces. */
  lemma SpacedRight(r0: string, r1: string, r2: string, r3: string, r4: string)
    ensures r0 + " " + (r1 + " " + (r2 + " " + (r3 + " " + r4))) == r0 + " " + r1 + " " + r2 + " " + r3 + " " + r4
  {
  }

  /** Five joined values, one after the other. */
  lemma JoinFive(xs: seq<RValue>)
    requires |xs| == 5
    ensures JoinValues(xs, " ")
         == Render(xs[0], " ") + " " + Render(xs[1], " ") + " " + Render(xs[2], " ") + " " + Render(xs[3], " ")
            + " " + Render(xs[4], " ")
  {
    assert xs[1..][1..] == xs[2..] && xs[2..][1..] == xs[3..] && xs[3..][1..] == xs[4..];
    JoinValuesStep(xs);
    JoinValuesStep(xs[1..]);
    JoinValuesStep(xs[2..]);
    JoinValuesStep(xs[3..]);
    assert JoinValues(xs[4..], " ") == Render(xs[4], " ");
    SpacedRight(Render(xs[0], " "), Render(xs[1], " "), Render(xs[2], " "), Render(xs[3], " "), Render(xs[4], " "));
  }

  /** Moving the parentheses of a concatenation of word lists. */
  lemma Regroup(p: seq<string>, cf: seq<string>, fl: seq<string>, o: seq<string>, out: seq<string>,
                s: seq<string>, l: seq<string>, g: seq<string>)
    ensures p + (cf + fl + o + out) + s + l + g == p + cf + fl + o + out + s + l + g
  {
  }

  /** Splitting the flags of one command on white space. */
  lemma CommandFlagsWords(c: ProtoCompiler, output: string, compileOnly: int)
    ensures Words(CommandFlags(c, output, compileOnly))
         == Words(c.cflags) + (if compileOnly == 1 then ["-c"] else []) + ["-o"] + Words(output)
  {
    var pre := c.cflags + (if compileOnly == 1 then " -c" else "");
    if compileOnly == 1 {
      assert pre == c.cflags + " " + "-c";
      WordsAppendWord(c.cflags, "-c");
    } else {
      assert pre == c.cflags;
    }
    assert pre + " -o" == pre + " " + "-o";
    WordsAppendWord(pre, "-o");
    assert CommandFlags(c, output, compileOnly) == pre + " -o" + " " + output;
    WordsSpaced(pre + " -o", output);
  }

  /** Splitting five space-separated pieces splits each piece on its own. */
  lemma WordsOfFive(a: string, b: string, c: string, d: string, e: string)
    ensures Words(a + " " + b + " " + c + " " + d + " " + e) == Words(a) + Words(b) + Words(c) + Words(d) + Words(e)
  {
    WordsSpaced(a, b);
    WordsSpaced(a + " " + b, c);
    WordsSpaced(a + " " + b + " " + c, d);
    WordsSpaced(a + " " + b + " " + c + " " + d, e);
  }

  /**
   * The words of the command, as a shell splitting on white space sees
   * them: the compiler, its cflags, `-c` exactly when `compile_only` is 1,
   * `-o` and the output, the sources, the ldadd, then the redirection.
   */
  lemma CommandWords(c: ProtoCompiler, output: string, sources: RValue, logTo: string, compileOnly: int)
    ensures Words(Command(c, output, sources, logTo, compileOnly))
         == Words(c.path) + Words(c.cflags) + (if compileOnly == 1 then ["-c"] else []) + ["-o"] + Words(output)
            + Words(Render(sources, " ")) + Words(c.ldadd) + Words(logTo)
  {
    var f := CommandFlags(c, output, compileOnly);
    var s := Render(sources, " ");
    var xs := [Str(c.path), Str(f), sources, Str(c.ldadd), Str(logTo)];
    JoinFive(xs);
    assert Render(xs[0], " ") == c.path && Render(xs[1], " ") == f && Render(xs[3], " ") == c.ldadd;
    assert Command(c, output, sources, logTo, compileOnly) == c.path + " " + f + " " + s + " " + c.ldadd + " " + logTo;
    WordsOfFive(c.path, f, s, c.ldadd, logTo);
    CommandFlagsWords(c, output, compileOnly);
    Regroup(Words(c.path), Words(c.cflags), if compileOnly == 1 then ["-c"] else [], ["-o"], Words(output),
            Words(s), Words(c.ldadd), Words(logTo));
  }

  /**
   * When no other part of the command spells `-c`, the command has a `-c`
   * word exactly when `compile_only` is 1, and every other value of
   * `compile_only` gives the command of 0.
   */
  lemma CompileOnlyFlag(c: ProtoCompiler, output: string, sources: RValue, logTo: string, compileOnly: int)
    requires "-c" !in Words(c.path) + Words(c.cflags) + Words(output) + Words(Render(sources, " ")) + Words(c.ldadd) + Words(logTo)
    ensures "-c" in Words(Command(c, output, sources, logTo, compileOnly)) <==> compileOnly == 1
    ensures compileOnly != 1 ==> Command(c, output, sources, logTo, compileOnly) == Command(c, output, sources, logTo, 0)
  {
    CommandWords(c, output, sources, logTo, compileOnly);
    var others := Words(c.path) + Words(c.cflags) + Words(output) + Words(Render(sources, " ")) + Words(c.ldadd) + Words(logTo);
    var ws := Words(Command(c, output, sources, logTo, compileOnly));
    var flag: seq<string> := if compileOnly == 1 then ["-c"] else [];
    assert ws == Words(c.path) + Words(c.cflags) + flag + ["-o"] + Words(output)
                 + Words(Render(sources, " ")) + Words(c.ldadd) + Words(logTo);
    assert "-c" != "-o" by { assert "-c"[1] != "-o"[1]; }
    assert "-c" in ws <==> "-c" in flag;
    assert compileOnly != 1 ==> CommandFlags(c, output, compileOnly) == CommandFlags(c, output, 0);
  }

  // ---------------------------------------------------------------------
  // Target
  // ---------------------------------------------------------------------

  /** A Target: its name, its dependencies (a pushed Array nests) and its rules. */
  datatype ProtoTarget = ProtoTarget(objs: string, deps: seq<RValue>, rules: seq<string>)

  /** `Target.new(x)`: no dependency and no rule. */
  function EmptyTarget(name: string): ProtoTarget
  {
    ProtoTarget(name, [], [])
  }

  /** One tab-indented line per rule, in order. */
  function RuleLines(rules: seq<string>): string
  {
    if rules == [] then ""
    else RuleLines(rules[..|rules| - 1]) + "\t" + rules[|rules| - 1] + "\n"
  }

  /**
   * `to_s`: a blank line, the name and a colon, a space and the joined
   * dependencies (an empty Array is still truthy, so the space is always
   * there), then the rules.
   */
  function TargetText(t: ProtoTarget): string
  {
    "\n" + t.objs + ":" + " " + JoinValues(t.deps, " ") + "\n" + RuleLines(t.rules)
  }

  /** `add_rule`: the rule goes last. */
  function WithRule(t: ProtoTarget, rule: string): (r: ProtoTarget)
  {
    t.(rules := t.rules + [rule])
  }

  /** `add_dependency`: a plain push, so a dependency can be listed twice. */
  function WithDependency(t: ProtoTarget, d: RValue): (r: ProtoTarget)
  {
    t.(deps := t.deps + [d])
  }

  /** Adding a rule appends exactly its line to the target's text. */
  lemma RuleAppendsLine(t: ProtoTarget, rule: string)
    ensures TargetText(WithRule(t, rule)) == TargetText(t) + "\t" + rule + "\n"
  {
    var rs := t.rules + [rule];
    assert rs[..|rs| - 1] == t.rules;
  }

  /** Every rule of a target has its own line in the target's text, in order. */
  lemma {:induction false} RuleLinesContain(rules: seq<string>, i: nat)
    requires i < |rules|
    ensures Contains(RuleLines(rules), "\t" + rules[i] + "\n")
    decreases |rules|
  {
    var init := rules[..|rules| - 1];
    var last := "\t" + rules[|rules| - 1] + "\n";
    assert RuleLines(rules) == RuleLines(init) + last;
    if i == |rules| - 1 {
      ContainsInfix(RuleLines(init), last, "");
      assert RuleLines(init) + last + "" == RuleLines(rules);
    } else {
      assert init[i] == rules[i];
      RuleLinesContain(init, i);
      ContainsPrefix(RuleLines(init), last, "\t" + rules[i] + "\n");
    }
  }

  /** The header line of a target: the name, a colon and a space even without dependencies. */
  lemma TargetTextStart(t: ProtoTarget)
    ensures StartsWith(TargetText(t), "\n" + t.objs + ": ")
    ensures t.deps == [] ==> StartsWith(TargetText(t), "\n" + t.objs + ": \n")
  {
    var h := "\n" + t.objs + ": ";
    assert TargetText(t) == h + JoinValues(t.deps, " ") + "\n" + RuleLines(t.rules);
    assert TargetText(t)[..|h|] == h;
    if t.deps == [] {
      assert TargetText(t) == h + "\n" + RuleLines(t.rules);
      assert TargetText(t)[..|h| + 1] == h + "\n";
    }
  }

  // ---------------------------------------------------------------------
  // Makefile text
  // ---------------------------------------------------------------------

  /** The targets every Makefile starts with. */
  const FixedNames: seq<string> := ["all", "clean", "distclean", "install", "uninstall", "distdir"]

  /** The directory `make dist` packs. */
  function DistDir(project: string, version: string): string
  {
    project + "-" + version
  }

  /** The `dist` target `make_dist` builds: remove, create, then fill the directory. */
  function DistTarget(project: string, version: string): (t: ProtoTarget)
  {
    var d := DistDir(project, version);
    ProtoTarget("dist", [], ["rm -rf " + d, "mkdir " + d, "$(MAKE) distdir distdir=" + d])
  }

  /** The targets' texts, in the order of `ks`. */
  function TargetTexts(targets: map<string, ProtoTarget>, ks: seq<string>): string
    requires forall i :: 0 <= i < |ks| ==> ks[i] in targets
  {
    if ks == [] then ""
    else TargetText(targets[ks[0]]) + TargetTexts(targets, ks[1..])
  }

  /** The text `to_s` returns once `make_dist` has run: variables, `default: all`, targets. */
  ghost function MakefileText(vars: map<string, (string, string)>, targets: map<string, ProtoTarget>): string
  {
    Makefiles.VarLines(vars, SortedElements(vars.Keys)) + "\n\n" + "default: all\n"
      + TargetTexts(targets, SortedElements(targets.Keys))
  }

  /** A target without dependencies and with three rules: its header line, then one line per rule. */
  lemma ThreeRuleText(name: string, r1: string, r2: string, r3: string)
    ensures TargetText(ProtoTarget(name, [], [r1, r2, r3]))
         == "\n" + name + ":" + " " + "\n" + "\t" + r1 + "\n" + "\t" + r2 + "\n" + "\t" + r3 + "\n"
  {
    var rs := [r1, r2, r3];
    assert rs[..2] == [r1, r2];
    assert [r1, r2][..1] == [r1];
    assert [r1][..0] == [];
    assert RuleLines([r1]) == "\t" + r1 + "\n" by {
      assert RuleLines([r1]) == "" + "\t" + r1 + "\n";
    }
    assert RuleLines(rs) == "\t" + r1 + "\n" + "\t" + r2 + "\n" + "\t" + r3 + "\n";
    assert JoinValues([], " ") == "";
  }

  /** The text of `dist` lists its three rules in order, under a `dist:` line without dependencies. */
  lemma DistTargetText(project: string, version: string)
    ensures var d := DistDir(project, version);
            TargetText(DistTarget(project, version))
            == "\n" + "dist" + ":" + " " + "\n" + "\t" + ("rm -rf " + d) + "\n" + "\t" + ("mkdir " + d) + "\n"
               + "\t" + ("$(MAKE) distdir distdir=" + d) + "\n"
  {
    var d := DistDir(project, version);
    ThreeRuleText("dist", "rm -rf " + d, "mkdir " + d, "$(MAKE) distdir distdir=" + d);
  }

  lemma {:induction false} TargetTextsContain(targets: map<string, ProtoTarget>, ks: seq<string>, i: nat)
    requires forall j :: 0 <= j < |ks| ==> ks[j] in targets
    requires i < |ks|
    ensures Contains(TargetTexts(targets, ks), TargetText(targets[ks[i]]))
    decreases |ks|
  {
    var first := TargetText(targets[ks[0]]);
    var rest := TargetTexts(targets, ks[1..]);
    if i == 0 {
      ContainsInfix("", first, rest);
      assert "" + first + rest == first + rest;
    } else {
      TargetTextsContain(targets, ks[1..], i - 1);
      ContainsSuffix(first, rest, TargetText(targets[ks[i]]));
    }
  }

  lemma {:induction false} VarLinesContain(vars: map<string, (string, string)>, ks: seq<string>, i: nat)
    requires forall j :: 0 <= j < |ks| ==> ks[j] in vars
    requires i < |ks|
    ensures Contains(Makefiles.VarLines(vars, ks), ks[i] + vars[ks[i]].0 + vars[ks[i]].1 + "\n")
    decreases |ks|
  {
    var first := ks[0] + vars[ks[0]].0 + vars[ks[0]].1 + "\n";
    var rest := Makefiles.VarLines(vars, ks[1..]);
    if i == 0 {
      ContainsInfix("", first, rest);
      assert "" + first + rest == first + rest;
    } else {
      VarLinesContain(vars, ks[1..], i - 1);
      ContainsSuffix(first, rest, ks[i] + vars[ks[i]].0 + vars[ks[i]].1 + "\n");
    }
  }

  /** Every target of the Makefile appears in its text. */
  lemma TextHasEveryTarget(vars: map<string, (string, string)>, targets: map<string, ProtoTarget>, k: string)
    requires k in targets
    ensures Contains(MakefileText(vars, targets), TargetText(targets[k]))
  {
    var ts := SortedElements(targets.Keys);
    var i :| 0 <= i < |ts| && ts[i] == k;
    TargetTextsContain(targets, ts, i);
    var pre := Makefiles.VarLines(vars, SortedElements(vars.Keys)) + "\n\n" + "default: all\n";
    ContainsSuffix(pre, TargetTexts(targets, ts), TargetText(targets[k]));
  }

  /** The variable lines hold the line of every variable. */
  lemma SortedVarLinesContain(vars: map<string, (string, string)>, k: string)
    requires k in vars
    ensures Contains(Makefiles.VarLines(vars, SortedElements(vars.Keys)), k + vars[k].0 + vars[k].1 + "\n")
  {
    var vs := SortedElements(vars.Keys);
    var i :| 0 <= i < |vs| && vs[i] == k;
    VarLinesContain(vars, vs, i);
  }

  /** What the variable lines hold, the whole text holds. */
  lemma HeadContains(v: string, t: string, line: string)
    requires Contains(v, line)
    ensures Contains(v + "\n\n" + "default: all\n" + t, line)
  {
    ContainsPrefix(v, "\n\n", line);
    ContainsPrefix(v + "\n\n", "default: all\n", line);
    ContainsPrefix(v + "\n\n" + "default: all\n", t, line);
  }

  /** Every variable has its line `name op value` in the text, before `default: all`. */
  lemma TextHasEveryVariable(vars: map<string, (string, string)>, targets: map<string, ProtoTarget>, k: string)
    requires k in vars
    ensures Contains(MakefileText(vars, targets), k + vars[k].0 + vars[k].1 + "\n")
  {
    SortedVarLinesContain(vars, k);
    HeadContains(Makefiles.VarLines(vars, SortedElements(vars.Keys)), TargetTexts(targets, SortedElements(targets.Keys)),
                 k + vars[k].0 + vars[k].1 + "\n");
  }

  /** A rule of any target of the Makefile has its own line in the text. */
  lemma TextHasRule(vars: map<string, (string, string)>, targets: map<string, ProtoTarget>, k: string, i: nat)
    requires k in targets && i < |targets[k].rules|
    ensures Contains(MakefileText(vars, targets), "\t" + targets[k].rules[i] + "\n")
  {
    var t := targets[k];
    TextHasEveryTarget(vars, targets, k);
    RuleLinesContain(t.rules, i);
    var pre := "\n" + t.objs + ":" + " " + JoinValues(t.deps, " ") + "\n";
    ContainsSuffix(pre, RuleLines(t.rules), "\t" + t.rules[i] + "\n");
    assert pre + RuleLines(t.rules) == TargetText(t);
    ContainsTransitive(MakefileText(vars, targets), TargetText(t), "\t" + t.rules[i] + "\n");
  }

  /**
   * The text holds the `dist` target: it removes and recreates
   * `<project>-<version>`, then fills it through `make distdir`.
   */
  lemma TextHasDist(vars: map<string, (string, string)>, targets: map<string, ProtoTarget>, project: string, version: string)
    ensures var d := DistDir(project, version);
            Contains(MakefileText(vars, targets["dist" := DistTarget(project, version)]),
                     "\n" + "dist" + ":" + " " + "\n" + "\t" + ("rm -rf " + d) + "\n" + "\t" + ("mkdir " + d) + "\n"
                     + "\t" + ("$(MAKE) distdir distdir=" + d) + "\n")
  {
    DistTargetText(project, version);
    TextHasEveryTarget(vars, targets["dist" := DistTarget(project, version)], "dist");
  }

  // ---------------------------------------------------------------------
  // The Makefile object
  // ---------------------------------------------------------------------

  class ProtoMakefile {
    const platform: ProtoPlatform
    const project: string
    const version: string
    var vars: map<string, (string, string)>
    var targets: map<string, ProtoTarget>

    /** The fixed targets are never removed. */
    ghost predicate Valid()
      reads this
    {
      && "all" in targets && "clean" in targets && "distclean" in targets
      && "install" in targets && "uninstall" in targets && "distdir" in targets
    }

    /** `Makefile.new(platform, project, version)`: the six fixed targets, empty, and no variable. */
    constructor (platform: ProtoPlatform, project: string, version: string)
      ensures this.platform == platform && this.project == project && this.version == version
      ensures vars == map[]
      ensures targets == map x | x in FixedNames :: EmptyTarget(x)
      ensures Valid()
    {
      this.platform := platform;
      this.project := project;
      this.version := version;
      vars := map[];
      var ts: map<string, ProtoTarget> := map[];
      var i := 0;
      while i < |FixedNames|
        invariant 0 <= i <= |FixedNames|
        invariant ts == map x | x in FixedNames[..i] :: EmptyTarget(x)
      {
        ts := ts[FixedNames[i] := EmptyTarget(FixedNames[i])];
        assert FixedNames[..i + 1] == FixedNames[..i] + [FixedNames[i]];
        i := i + 1;
      }
      assert FixedNames[..i] == FixedNames;
      targets := ts;
    }

    /** `define_variable(lval, op, rval)`: sets or replaces the variable. */
    method DefineVariable(lval: string, op: string, rval: string)
      modifies this
      ensures vars == old(vars)[lval := (op, rval)] && targets == old(targets)
    {
      vars := vars[lval := (op, rval)];
    }

    /** `add_target(object, depends, rules)`: a new Target replaces any of that name. */
    method AddTarget(name: string, depends: seq<RValue>, rules: seq<string>)
      requires Valid()
      modifies this
      ensures targets == old(targets)[name := ProtoTarget(name, depends, rules)] && vars == old(vars)
      ensures Valid()
    {
      targets := targets[name := ProtoTarget(name, depends, rules)];
    }

    /** `add_rule(target, rule)`; the target must exist, or Ruby calls a method on nil. */
    method AddRule(target: string, rule: string)
      requires target in targets && Valid()
      modifies this
      ensures targets == old(targets)[target := WithRule(old(targets)[target], rule)] && vars == old(vars)
      ensures Valid()
    {
      targets := targets[target := WithRule(targets[target], rule)];
    }

    /** `add_dependency(target, depends)`; the target must exist. */
    method AddDependency(target: string, d: RValue)
      requires target in targets && Valid()
      modifies this
      ensures targets == old(targets)[target := WithDependency(old(targets)[target], d)] && vars == old(vars)
      ensures Valid()
    {
      targets := targets[target := WithDependency(targets[target], d)];
    }

    /** `distribute(path)`: a copy of the path into `$(distdir)`, last among `distdir`'s rules. */
    method Distribute(path: string)
      requires Valid()
      modifies this
      ensures targets == old(targets)["distdir" := WithRule(old(targets)["distdir"], Cp(platform, path, "$(distdir)"))]
      ensures vars == old(vars) && Valid()
    {
      AddRule("distdir", Cp(platform, path, "$(distdir)"));
    }

    /** `clean(path)`: a removal of the path (or paths), last among `clean`'s rules. */
    method Clean(path: PathArg)
      requires Valid()
      modifies this
      ensures targets == old(targets)["clean" := WithRule(old(targets)["clean"], Rm(platform, path))]
      ensures vars == old(vars) && Valid()
    {
      AddRule("clean", Rm(platform, path));
    }

    /** `make_dist`: a fresh `dist` target replaces the previous one. */
    method MakeDist()
      requires Valid()
      modifies this
      ensures targets == old(targets)["dist" := DistTarget(project, version)] && vars == old(vars)
      ensures Valid()
    {
      var d := project + "-" + version;
      var tg := EmptyTarget("dist");
      tg := WithRule(tg, "rm -rf " + d);
      tg := WithRule(tg, "mkdir " + d);
      tg := WithRule(tg, "$(MAKE) distdir distdir=" + d);
      assert tg.rules == DistTarget(project, version).rules;
      targets := targets["dist" := tg];
    }

    /**
     * `to_s`: rebuilds `dist`, then renders the sorted variables,
     * `default: all` and the sorted targets.  Rebuilding replaces `dist`, so
     * a second call returns the same text.
     */
    method Text() returns (text: string)
      requires Valid()
      modifies this
      ensures targets == old(targets)["dist" := DistTarget(project, version)] && vars == old(vars)
      ensures text == MakefileText(vars, targets)
      ensures Valid()
    {
      MakeDist();
      text := Rendered();
    }

    /** The sorted variables, `default: all` and the sorted targets, as they are now. */
    method Rendered() returns (text: string)
      ensures text == MakefileText(vars, targets)
    {
      var vs := Makefiles.SortedNames(vars.Keys);
      var ts := Makefiles.SortedNames(targets.Keys);
      text := Makefiles.VarLines(vars, vs) + "\n\n" + "default: all\n" + TargetTexts(targets, ts);
    }
  }

  /** A distributed path is copied into `$(distdir)` by a line of the Makefile's text. */
  lemma DistributedCopied(p: ProtoPlatform, vars: map<string, (string, string)>, targets: map<string, ProtoTarget>,
                          path: string, project: string, version: string)
    requires "distdir" in targets
    ensures var after := targets["distdir" := WithRule(targets["distdir"], Cp(p, path, "$(distdir)"))];
            Contains(MakefileText(vars, after["dist" := DistTarget(project, version)]),
                     "\t" + Cp(p, path, "$(distdir)") + "\n")
  {
    var after := targets["distdir" := WithRule(targets["distdir"], Cp(p, path, "$(distdir)"))];
    var last := after["dist" := DistTarget(project, version)];
    var rs := last["distdir"].rules;
    assert rs[|rs| - 1] == Cp(p, path, "$(distdir)");
    TextHasRule(vars, last, "distdir", |rs| - 1);
  }
}
