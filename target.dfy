/**
 * Target: one section of a Makefile — a name, its dependencies, its
 * rules, the directories to create before the rules run and the files to
 * copy, batched per destination.
 *
 * `TargetState` is the value of a target; the functions below are the
 * specification of each in-place operation of `class Target`, and the
 * Makefile classes keep their targets as `TargetState` values.
 */
module Targets {
  import opened Strings
  import opened RubyValues
  import opened Platform

  /** One entry of the copy map: the sources copied into destination `dst`, in call order. */
  datatype CopyEntry = CopyEntry(dst: string, srcs: seq<string>)

  datatype TargetState = TargetState(
    name: string,
    deps: seq<RValue>,
    rules: seq<RValue>,
    dirs: seq<string>,
    copies: seq<CopyEntry>)

  /** The destinations of a copy map, in insertion order (the hash's key order). */
  function Dsts(copies: seq<CopyEntry>): (r: seq<string>)
    ensures |r| == |copies|
    ensures forall i :: 0 <= i < |copies| ==> r[i] == copies[i].dst
  {
    seq(|copies|, i requires 0 <= i < |copies| => copies[i].dst)
  }

  /** Directories are recorded once each and the copy map has one entry per destination. */
  ghost predicate Wellformed(t: TargetState)
  {
    NoDuplicates(t.dirs) && NoDuplicates(Dsts(t.copies))
  }

  // ---------------------------------------------------------------------
  // Construction
  // ---------------------------------------------------------------------

  /** A String argument becomes a one-element list; a list is kept. */
  function Wrap(v: RValue): seq<RValue>
    requires v.Str? || v.List?
  {
    if v.Str? then [v] else v.items
  }

  /** `Target.new(objs, deps, rules)`, with the argument checks of the constructor. */
  function New(objs: RValue, deps: RValue, rules: RValue): (r: Result<TargetState>)
    ensures r.Ok? <==> objs.Str? && (deps.Str? || deps.List?) && (rules.Str? || rules.List?)
    ensures r.Err? ==> r.error == (if !objs.Str? then "Bad objs" else if !(deps.Str? || deps.List?) then "Bad deps" else "Bad rules")
    ensures r.Ok? ==> r.value.name == objs.s && r.value.deps == Wrap(deps) && r.value.rules == Wrap(rules)
    ensures r.Ok? ==> r.value.dirs == [] && r.value.copies == [] && Wellformed(r.value)
  {
    if !objs.Str? then Err("Bad objs")
    else if !(deps.Str? || deps.List?) then Err("Bad deps")
    else if !(rules.Str? || rules.List?) then Err("Bad rules")
    else Ok(TargetState(objs.s, Wrap(deps), Wrap(rules), [], []))
  }

  /** `Target.new(name)`: no dependencies, rules, directories or copies. */
  function Empty(name: string): (t: TargetState)
    ensures Wellformed(t)
    ensures New(Str(name), List([]), List([])) == Ok(t)
  {
    TargetState(name, [], [], [], [])
  }

  // ---------------------------------------------------------------------
  // The operations, as functions on the target's value
  // ---------------------------------------------------------------------

  /** `add_dependency(d)`: `@deps.push(d).uniq!` */
  function WithDependency(t: TargetState, d: RValue): (r: TargetState)
    ensures r == t.(deps := r.deps)
    ensures NoDuplicates(r.deps)
    ensures forall x :: x in r.deps <==> x in t.deps || x == d
  {
    t.(deps := Uniq(t.deps + [d]))
  }

  /** `add_rule(r)`: append at the end. */
  function WithRule(t: TargetState, rule: RValue): TargetState
  {
    t.(rules := t.rules + [rule])
  }

  /** `prepend_rule(r)`: insert at the front. */
  function WithRuleFirst(t: TargetState, rule: RValue): TargetState
  {
    t.(rules := [rule] + t.rules)
  }

  /** `mkdir(path)`: record a directory unless it is already recorded. */
  function WithDir(t: TargetState, path: string): (r: TargetState)
    ensures Wellformed(t) ==> Wellformed(r)
    ensures path in r.dirs
    ensures r.dirs == if path in t.dirs then t.dirs else t.dirs + [path]
  {
    if path in t.dirs then t else t.(dirs := t.dirs + [path])
  }

  /** The sources recorded for `dst`, or the empty list. */
  function Lookup(copies: seq<CopyEntry>, dst: string): (r: seq<string>)
  {
    if copies == [] then []
    else if copies[|copies| - 1].dst == dst then copies[|copies| - 1].srcs
    else Lookup(copies[..|copies| - 1], dst)
  }

  /** `hash[dst] = srcs`: replace in place, or add at the end. */
  function Put(copies: seq<CopyEntry>, dst: string, srcs: seq<string>): (r: seq<CopyEntry>)
    ensures dst in Dsts(copies) ==> Dsts(r) == Dsts(copies)
    ensures dst !in Dsts(copies) ==> r == copies + [CopyEntry(dst, srcs)]
  {
    if copies == [] then [CopyEntry(dst, srcs)]
    else
      var last := copies[|copies| - 1];
      var init := copies[..|copies| - 1];
      assert Dsts(copies) == Dsts(init) + [last.dst];
      if last.dst == dst then init + [CopyEntry(dst, srcs)]
      else if dst !in Dsts(init) then copies + [CopyEntry(dst, srcs)]
      else
        var r := Put(init, dst, srcs) + [last];
        assert Dsts(r) == Dsts(Put(init, dst, srcs)) + [last.dst];
        r
  }

  lemma {:induction false} LookupPut(copies: seq<CopyEntry>, dst: string, srcs: seq<string>, other: string)
    requires NoDuplicates(Dsts(copies))
    ensures NoDuplicates(Dsts(Put(copies, dst, srcs)))
    ensures Lookup(Put(copies, dst, srcs), other) == if other == dst then srcs else Lookup(copies, other)
    decreases |copies|, 1
  {
    if copies != [] {
      var init, last := copies[..|copies| - 1], copies[|copies| - 1];
      assert copies == init + [last];
      DstsSnoc(init, last);
      if last.dst == dst || dst !in Dsts(init) {
        LookupPutHere(copies, dst, srcs, other);
      } else {
        LookupPutStep(init, last, dst, srcs, other);
      }
    }
  }

  /** `LookupPut` when the last entry is replaced or a new entry is added. */
  lemma LookupPutHere(copies: seq<CopyEntry>, dst: string, srcs: seq<string>, other: string)
    requires copies != [] && NoDuplicates(Dsts(copies))
    requires copies[|copies| - 1].dst == dst || dst !in Dsts(copies[..|copies| - 1])
    ensures NoDuplicates(Dsts(Put(copies, dst, srcs)))
    ensures Lookup(Put(copies, dst, srcs), other) == if other == dst then srcs else Lookup(copies, other)
  {
    var last := copies[|copies| - 1];
    var init := copies[..|copies| - 1];
    assert Dsts(copies) == Dsts(init) + [last.dst];
    if last.dst == dst {
      var r := init + [CopyEntry(dst, srcs)];
      assert r[..|r| - 1] == init;
      assert Dsts(r) == Dsts(copies);
    } else {
      var r := copies + [CopyEntry(dst, srcs)];
      assert r[..|r| - 1] == copies;
      assert Dsts(r) == Dsts(copies) + [dst];
    }
  }

  /** The inductive step of `LookupPut`: the entry is replaced before the last one. */
  lemma {:induction false} LookupPutStep(init: seq<CopyEntry>, last: CopyEntry, dst: string, srcs: seq<string>, other: string)
    requires NoDuplicates(Dsts(init) + [last.dst])
    requires last.dst != dst && dst in Dsts(init)
    ensures NoDuplicates(Dsts(Put(init + [last], dst, srcs)))
    ensures Lookup(Put(init + [last], dst, srcs), other) == if other == dst then srcs else Lookup(init + [last], other)
    decreases |init| + 1, 0
  {
    NoDuplicatesPrefix(Dsts(init), last.dst);
    LookupPut(init, dst, srcs, other);
    var p := Put(init, dst, srcs);
    PutBeforeLast(init, last, dst, srcs);
    assert Dsts(p) == Dsts(init);
    DstsSnoc(p, last);
    LookupSnoc(p, last, other);
    LookupSnoc(init, last, other);
  }

  lemma PutBeforeLast(init: seq<CopyEntry>, last: CopyEntry, dst: string, srcs: seq<string>)
    requires last.dst != dst && dst in Dsts(init)
    ensures Put(init + [last], dst, srcs) == Put(init, dst, srcs) + [last]
  {
    var copies := init + [last];
    assert copies[|copies| - 1] == last;
    assert copies[..|copies| - 1] == init;
    DstsSnoc(init, last);
  }

  lemma DstsSnoc(xs: seq<CopyEntry>, e: CopyEntry)
    ensures Dsts(xs + [e]) == Dsts(xs) + [e.dst]
  {
  }

  lemma LookupSnoc(xs: seq<CopyEntry>, e: CopyEntry, dst: string)
    ensures Lookup(xs + [e], dst) == if e.dst == dst then e.srcs else Lookup(xs, dst)
  {
    assert (xs + [e])[..|xs|] == xs;
  }

  /** `cp(src, dst)`: `@files_to_copy[dst] ||= []; @files_to_copy[dst].push(src)` */
  function WithCopy(t: TargetState, src: string, dst: string): TargetState
  {
    t.(copies := Put(t.copies, dst, Lookup(t.copies, dst) + [src]))
  }

  /** `cp` appends to its destination's list, creates the list on first use, and leaves other destinations alone. */
  lemma CopyAppends(t: TargetState, src: string, dst: string, other: string)
    requires Wellformed(t)
    ensures Wellformed(WithCopy(t, src, dst))
    ensures Lookup(WithCopy(t, src, dst).copies, dst) == Lookup(t.copies, dst) + [src]
    ensures other != dst ==> Lookup(WithCopy(t, src, dst).copies, other) == Lookup(t.copies, other)
    ensures Dsts(WithCopy(t, src, dst).copies) ==
              if dst in Dsts(t.copies) then Dsts(t.copies) else Dsts(t.copies) + [dst]
  {
    LookupPut(t.copies, dst, Lookup(t.copies, dst) + [src], dst);
    LookupPut(t.copies, dst, Lookup(t.copies, dst) + [src], other);
  }

  /** `files_to_copy.merge!(other)`: the other map's entries win, in its order. */
  function MergeCopies(a: seq<CopyEntry>, b: seq<CopyEntry>): seq<CopyEntry>
  {
    if b == [] then a
    else
      var last := b[|b| - 1];
      Put(MergeCopies(a, b[..|b| - 1]), last.dst, last.srcs)
  }

  /** `merge!`, once the names are known to agree. */
  function Merged(t: TargetState, src: TargetState): TargetState
  {
    t.(deps := Uniq(t.deps + [List(src.deps)]),
       rules := Flatten(t.rules + [List(src.rules)]),
       dirs := Uniq(t.dirs + src.dirs),
       copies := MergeCopies(t.copies, src.copies))
  }

  /** `merge!(src)`: ArgumentError unless both targets have the same name. */
  function Merge(t: TargetState, src: TargetState): (r: Result<TargetState>)
    ensures r.Ok? <==> t.name == src.name
  {
    if t.name != src.name then Err("Mismatched object") else Ok(Merged(t, src))
  }

  lemma {:induction false} MergeCopiesLookup(a: seq<CopyEntry>, b: seq<CopyEntry>, dst: string)
    requires NoDuplicates(Dsts(a)) && NoDuplicates(Dsts(b))
    ensures NoDuplicates(Dsts(MergeCopies(a, b)))
    ensures Lookup(MergeCopies(a, b), dst) == if dst in Dsts(b) then Lookup(b, dst) else Lookup(a, dst)
    decreases |b|
  {
    if b != [] {
      var last := b[|b| - 1];
      var init := b[..|b| - 1];
      assert Dsts(b) == Dsts(init) + [last.dst];
      MergeCopiesLookup(a, init, dst);
      LookupPut(MergeCopies(a, init), last.dst, last.srcs, dst);
    }
  }

  lemma {:induction false} FlattenStrs(xs: seq<string>, ys: seq<string>)
    ensures Flatten(Strs(xs) + [List(Strs(ys))]) == Strs(xs + ys)
    decreases |xs|
  {
    if xs == [] {
      assert Strs(xs) + [List(Strs(ys))] == [List(Strs(ys))];
      FlattenOfStrs(ys);
      assert Flatten([List(Strs(ys))]) == Flatten(Strs(ys)) + Flatten([]);
      assert xs + ys == ys;
    } else {
      var l := Strs(xs) + [List(Strs(ys))];
      assert l[0] == Str(xs[0]);
      assert l[1..] == Strs(xs[1..]) + [List(Strs(ys))];
      FlattenStrs(xs[1..], ys);
      assert Strs(xs + ys) == [Str(xs[0])] + Strs(xs[1..] + ys);
      assert xs + ys == [xs[0]] + (xs[1..] + ys);
    }
  }

  /**
   * What `merge!` promises: rules are the receiver's followed by the other's,
   * directories are the duplicate-free union, and a destination present in
   * the other target takes the other target's source list.
   */
  lemma MergeProperties(t: TargetState, src: TargetState, ruleTexts: seq<string>, srcRuleTexts: seq<string>, dst: string)
    requires Wellformed(t) && Wellformed(src) && t.name == src.name
    requires t.rules == Strs(ruleTexts) && src.rules == Strs(srcRuleTexts)
    ensures Merge(t, src).Ok?
    ensures Wellformed(Merge(t, src).value)
    ensures Merge(t, src).value.rules == Strs(ruleTexts + srcRuleTexts)
    ensures forall d :: d in Merge(t, src).value.dirs <==> d in t.dirs || d in src.dirs
    ensures |Merge(t, src).value.dirs| >= |t.dirs|
    ensures Merge(t, src).value.dirs[..|t.dirs|] == t.dirs
    ensures Lookup(Merge(t, src).value.copies, dst) ==
              if dst in Dsts(src.copies) then Lookup(src.copies, dst) else Lookup(t.copies, dst)
  {
    FlattenStrs(ruleTexts, srcRuleTexts);
    MergeCopiesLookup(t.copies, src.copies, dst);
    UniqKeepsDistinctPrefix(t.dirs, src.dirs);
  }

  /** `uniq` of a duplicate-free list followed by more elements keeps that list as its prefix. */
  lemma {:induction false} UniqKeepsDistinctPrefix<T(!new)>(a: seq<T>, b: seq<T>)
    requires NoDuplicates(a)
    ensures |Uniq(a + b)| >= |a| && Uniq(a + b)[..|a|] == a
    decreases |b|
  {
    if b == [] {
      assert a + b == a;
      UniqOfDistinct(a);
    } else {
      var init := b[..|b| - 1];
      UniqKeepsDistinctPrefix(a, init);
      assert a + b == (a + init) + [b[|b| - 1]];
      UniqAppend(a + init, b[|b| - 1]);
    }
  }

  /** Re-adding a dependency that is already listed leaves a duplicate-free list unchanged. */
  lemma AddDependencyIdempotent(t: TargetState, d: RValue)
    requires NoDuplicates(t.deps) && d in t.deps
    ensures WithDependency(t, d) == t
  {
    UniqAppend(t.deps, d);
    UniqOfDistinct(t.deps);
  }

  /** A new dependency goes to the end of a duplicate-free list. */
  lemma AddDependencyAppends(t: TargetState, d: RValue)
    requires NoDuplicates(t.deps) && d !in t.deps
    ensures WithDependency(t, d).deps == t.deps + [d]
  {
    UniqAppend(t.deps, d);
    UniqOfDistinct(t.deps);
  }

  // ---------------------------------------------------------------------
  // Serialisation
  // ---------------------------------------------------------------------

  /**
   * Which `Platform.mkdir` the target text uses: trunk's as written (the
   * joined list quoted once), trunk's with each directory quoted, or the
   * single-file makeconf.rb's unquoted one.
   */
  datatype MkdirStyle = JoinedDirs | QuotedDirs | UnquotedDirs

  function MkdirCommand(h: Host, style: MkdirStyle, dirs: seq<string>): (r: Result<string>)
    ensures r.Err? <==> Spaced(dirs) == "" || IsWindows(h)
  {
    match style
    case JoinedDirs => MkdirAsWritten(h, dirs)
    case QuotedDirs => Mkdir(h, dirs)
    case UnquotedDirs => MkdirUnquoted(h, dirs)
  }

  function CopyCommands(h: Host, copies: seq<CopyEntry>): (r: seq<string>)
    ensures |r| == |copies|
    ensures forall i :: 0 <= i < |copies| ==> r[i] == Cp(h, copies[i].srcs, copies[i].dst)
  {
    seq(|copies|, i requires 0 <= i < |copies| => Cp(h, copies[i].srcs, copies[i].dst))
  }

  /** The rules as text; a rule that is not a String makes `"\t" + r` raise TypeError. */
  function RuleTexts(rules: seq<RValue>): (r: Result<seq<string>>)
    ensures r.Ok? <==> forall i :: 0 <= i < |rules| ==> rules[i].Str?
    ensures r.Ok? ==> |r.value| == |rules| && forall i :: 0 <= i < |rules| ==> r.value[i] == rules[i].s
  {
    if rules == [] then Ok([])
    else if !rules[0].Str? then Err("TypeError")
    else
      match RuleTexts(rules[1..])
      case Err(e) => Err(e)
      case Ok(rest) => Ok([rules[0].s] + rest)
  }

  /**
   * The recipe commands: one mkdir command exactly when there are
   * directories, then one copy command per destination in insertion order,
   * then every rule in order.  It fails only if mkdir fails or a rule is not
   * a String.
   */
  function Commands(h: Host, style: MkdirStyle, t: TargetState): (r: Result<seq<string>>)
    ensures r.Ok? <==>
              (t.dirs == [] || MkdirCommand(h, style, t.dirs).Ok?) &&
              forall i :: 0 <= i < |t.rules| ==> t.rules[i].Str?
  {
    var mk := if t.dirs == [] then Ok([]) else
                match MkdirCommand(h, style, t.dirs)
                case Err(e) => Err(e)
                case Ok(c) => Ok([c]);
    if mk.Err? then Err(mk.error)
    else match RuleTexts(t.rules)
      case Err(e) => Err(e)
      case Ok(rs) => Ok(mk.value + CopyCommands(h, t.copies) + rs)
  }

  /** The recipe is the mkdir command, the copy commands and the rules, joined. */
  lemma CommandsParts(h: Host, style: MkdirStyle, t: TargetState)
    requires Commands(h, style, t).Ok?
    ensures Commands(h, style, t).value
            == (if t.dirs == [] then [] else [MkdirCommand(h, style, t.dirs).value]) + CopyCommands(h, t.copies) + RuleTexts(t.rules).value
  {
  }

  /** Where the elements of the middle and last parts of a concatenation sit. */
  lemma ConcatThreeAt<T>(a: seq<T>, b: seq<T>, c: seq<T>)
    ensures |a + b + c| == |a| + |b| + |c|
    ensures forall i :: 0 <= i < |b| ==> (a + b + c)[|a| + i] == b[i]
    ensures forall i :: 0 <= i < |c| ==> (a + b + c)[|a| + |b| + i] == c[i]
  {
  }

  /** Where each command sits in the recipe. */
  lemma CommandsLayout(h: Host, style: MkdirStyle, t: TargetState)
    requires Commands(h, style, t).Ok?
    ensures |Commands(h, style, t).value| == MkdirCount(t) + |t.copies| + |t.rules|
    ensures t.dirs != [] ==> Commands(h, style, t).value[0] == MkdirCommand(h, style, t.dirs).value
    ensures forall i :: 0 <= i < |t.copies| ==>
              Commands(h, style, t).value[MkdirCount(t) + i] == Cp(h, t.copies[i].srcs, t.copies[i].dst)
    ensures forall i :: 0 <= i < |t.rules| ==>
              Commands(h, style, t).value[MkdirCount(t) + |t.copies| + i] == t.rules[i].s
  {
    CommandsParts(h, style, t);
    CopiesAt(h, style, t);
    RulesAt(h, style, t);
  }

  /** The copy commands follow the mkdir command. */
  lemma CopiesAt(h: Host, style: MkdirStyle, t: TargetState)
    requires Commands(h, style, t).Ok?
    ensures forall i :: 0 <= i < |t.copies| ==>
              Commands(h, style, t).value[MkdirCount(t) + i] == Cp(h, t.copies[i].srcs, t.copies[i].dst)
  {
    var mk: seq<string> := if t.dirs == [] then [] else [MkdirCommand(h, style, t.dirs).value];
    CommandsParts(h, style, t);
    ConcatThreeAt(mk, CopyCommands(h, t.copies), RuleTexts(t.rules).value);
  }

  /** The rules close the recipe. */
  lemma RulesAt(h: Host, style: MkdirStyle, t: TargetState)
    requires Commands(h, style, t).Ok?
    ensures forall i :: 0 <= i < |t.rules| ==>
              Commands(h, style, t).value[MkdirCount(t) + |t.copies| + i] == t.rules[i].s
  {
    var mk: seq<string> := if t.dirs == [] then [] else [MkdirCommand(h, style, t.dirs).value];
    CommandsParts(h, style, t);
    ConcatThreeAt(mk, CopyCommands(h, t.copies), RuleTexts(t.rules).value);
  }

  /** The number of mkdir commands in a recipe: one exactly when there are directories. */
  function MkdirCount(t: TargetState): (n: nat)
    ensures n <= 1 && (n == 1 <==> t.dirs != [])
  {
    if t.dirs == [] then 0 else 1
  }

  /** Each command on its own tab-indented line. */
  function Recipe(cmds: seq<string>): string
  {
    if cmds == [] then "" else "\t" + cmds[0] + "\n" + Recipe(cmds[1..])
  }

  /** `to_s`: the header line `name: deps`, then the recipe. */
  function TargetText(h: Host, style: MkdirStyle, t: TargetState): (r: Result<string>)
    ensures r.Ok? <==>
              (t.dirs == [] || (Spaced(t.dirs) != "" && !IsWindows(h))) &&
              forall i :: 0 <= i < |t.rules| ==> t.rules[i].Str?
    ensures r.Ok? ==> StartsWith(r.value, "\n" + t.name + ":")
  {
    match Commands(h, style, t)
    case Err(e) => Err(e)
    case Ok(cmds) => Ok("\n" + t.name + ":" + " " + JoinValues(t.deps, " ") + "\n" + Recipe(cmds))
  }

  // ---------------------------------------------------------------------
  // Reading a recipe back
  // ---------------------------------------------------------------------

  predicate NoNewline(s: string)
  {
    forall i :: 0 <= i < |s| ==> s[i] != '\n'
  }

  /** Index of the first newline, or |s|. */
  function LineEnd(s: string): (k: nat)
    ensures k <= |s|
    ensures forall i :: 0 <= i < k ==> s[i] != '\n'
    ensures k < |s| ==> s[k] == '\n'
  {
    if s == [] || s[0] == '\n' then 0 else 1 + LineEnd(s[1..])
  }

  /** The newline-terminated lines of `s` (a final unterminated piece is kept). */
  function Lines(s: string): seq<string>
    decreases |s|
  {
    if s == [] then []
    else
      var k := LineEnd(s);
      if k == |s| then [s] else [s[..k]] + Lines(s[k + 1..])
  }

  function Tabbed(cmds: seq<string>): (r: seq<string>)
    ensures |r| == |cmds|
    ensures forall i :: 0 <= i < |cmds| ==> r[i] == "\t" + cmds[i]
  {
    seq(|cmds|, i requires 0 <= i < |cmds| => "\t" + cmds[i])
  }

  lemma {:induction false} LineEndOf(line: string, rest: string)
    requires NoNewline(line)
    ensures LineEnd(line + "\n" + rest) == |line|
    decreases |line|
  {
    if line != [] {
      assert (line + "\n" + rest)[1..] == line[1..] + "\n" + rest;
      LineEndOf(line[1..], rest);
    }
  }

  lemma {:induction false} LinesCons(line: string, rest: string)
    requires NoNewline(line)
    ensures Lines(line + "\n" + rest) == [line] + Lines(rest)
  {
    var s := line + "\n" + rest;
    LineEndOf(line, rest);
    assert s[..|line|] == line;
    assert s[|line| + 1..] == rest;
  }

  /** A recipe splits back into one tab-indented line per command. */
  lemma {:induction false} RecipeLines(cmds: seq<string>)
    requires forall i :: 0 <= i < |cmds| ==> NoNewline(cmds[i])
    ensures Lines(Recipe(cmds)) == Tabbed(cmds)
    decreases |cmds|
  {
    if cmds != [] {
      var line := "\t" + cmds[0];
      TabbedNoNewline(cmds[0]);
      LinesCons(line, Recipe(cmds[1..]));
      RecipeLines(cmds[1..]);
      TabbedCons(cmds);
    }
  }

  lemma TabbedNoNewline(c: string)
    requires NoNewline(c)
    ensures NoNewline("\t" + c)
  {
    var line := "\t" + c;
    forall i | 0 <= i < |line| ensures line[i] != '\n' {
      if i > 0 { assert line[i] == c[i - 1]; }
    }
  }

  lemma TabbedCons(cmds: seq<string>)
    requires cmds != []
    ensures Tabbed(cmds) == ["\t" + cmds[0]] + Tabbed(cmds[1..])
  {
  }

  lemma {:induction false} RecipeAppend(a: seq<string>, b: seq<string>)
    ensures Recipe(a + b) == Recipe(a) + Recipe(b)
    decreases |a|
  {
    if a == [] {
      assert a + b == b;
    } else {
      assert (a + b)[1..] == a[1..] + b;
      RecipeAppend(a[1..], b);
    }
  }

  /**
   * Read back line by line, a target's text is an empty line, the header
   * `name: deps` and then one tab-indented line per command.
   */
  lemma TargetTextLines(h: Host, style: MkdirStyle, t: TargetState)
    requires TargetText(h, style, t).Ok?
    requires NoNewline(t.name + ": " + JoinValues(t.deps, " "))
    requires forall i :: 0 <= i < |Commands(h, style, t).value| ==> NoNewline(Commands(h, style, t).value[i])
    ensures Lines(TargetText(h, style, t).value)
         == ["", t.name + ": " + JoinValues(t.deps, " ")] + Tabbed(Commands(h, style, t).value)
  {
    var header := t.name + ": " + JoinValues(t.deps, " ");
    var cmds := Commands(h, style, t).value;
    TargetTextIs(t.name, JoinValues(t.deps, " "), Recipe(cmds));
    HeaderRecipeLines(header, cmds);
  }

  lemma TargetTextIs(name: string, deps: string, recipe: string)
    ensures "\n" + name + ":" + " " + deps + "\n" + recipe == "\n" + (name + ": " + deps) + "\n" + recipe
  {
    assert ":" + " " == ": ";
  }

  lemma HeaderRecipeLines(header: string, cmds: seq<string>)
    requires NoNewline(header)
    requires forall i :: 0 <= i < |cmds| ==> NoNewline(cmds[i])
    ensures Lines("\n" + header + "\n" + Recipe(cmds)) == ["", header] + Tabbed(cmds)
  {
    var recipe := Recipe(cmds);
    var rest := header + "\n" + recipe;
    assert "\n" + header + "\n" + recipe == "\n" + rest;
    LinesNewline(rest);
    LinesCons(header, recipe);
    RecipeLines(cmds);
    ConsTwo("", header, Tabbed(cmds));
  }

  lemma ConsTwo(a: string, b: string, s: seq<string>)
    ensures [a] + ([b] + s) == [a, b] + s
  {
  }

  /** A leading newline reads back as an empty first line. */
  lemma LinesNewline(rest: string)
    ensures Lines("\n" + rest) == [""] + Lines(rest)
  {
    var s := "\n" + rest;
    assert LineEnd(s) == 0;
    assert s[1..] == rest;
  }

  /** Merging keeps a target well formed. */
  lemma MergedWellformed(t: TargetState, src: TargetState)
    requires Wellformed(t) && Wellformed(src)
    ensures Wellformed(Merged(t, src))
  {
    MergeCopiesLookup(t.copies, src.copies, "");
  }

  /** `files_to_copy.merge!(other)`, one entry of `other` at a time. */
  method MergeCopyMaps(a: seq<CopyEntry>, b: seq<CopyEntry>) returns (m: seq<CopyEntry>)
    requires NoDuplicates(Dsts(a)) && NoDuplicates(Dsts(b))
    ensures m == MergeCopies(a, b)
  {
    m := a;
    var i := 0;
    while i < |b|
      invariant 0 <= i <= |b|
      invariant m == MergeCopies(a, b[..i])
      invariant NoDuplicates(Dsts(m))
    {
      assert b[..i + 1][..i] == b[..i];
      LookupPut(m, b[i].dst, b[i].srcs, b[i].dst);
      m := Put(m, b[i].dst, b[i].srcs);
      i := i + 1;
    }
    assert b[..i] == b;
  }

  // ---------------------------------------------------------------------
  // The mutable object
  // ---------------------------------------------------------------------

  /** trunk/target.rb's Target: every operation updates the fields in place. */
  class Target {
    const name: string
    var deps: seq<RValue>
    var rules: seq<RValue>
    var dirs: seq<string>
    var copies: seq<CopyEntry>

    function State(): TargetState
      reads this
    {
      TargetState(name, deps, rules, dirs, copies)
    }

    ghost predicate Valid()
      reads this
    {
      Wellformed(State())
    }

    constructor (name: string, deps: seq<RValue>, rules: seq<RValue>)
      ensures State() == TargetState(name, deps, rules, [], [])
      ensures Valid()
    {
      this.name := name;
      this.deps := deps;
      this.rules := rules;
      this.dirs := [];
      this.copies := [];
    }

    /** `Target.new(objs, deps, rules)`: ArgumentError for a bad argument. */
    static method Create(objs: RValue, deps: RValue, rules: RValue) returns (r: Result<Target>)
      ensures r.Ok? <==> New(objs, deps, rules).Ok?
      ensures r.Err? ==> r.error == New(objs, deps, rules).error
      ensures r.Ok? ==> fresh(r.value) && r.value.Valid() && r.value.State() == New(objs, deps, rules).value
    {
      var d := if deps.Str? then List([deps]) else deps;
      var rl := if rules.Str? then List([rules]) else rules;
      if !objs.Str? {
        return Err("Bad objs");
      }
      if !d.List? {
        return Err("Bad deps");
      }
      if !rl.List? {
        return Err("Bad rules");
      }
      var t := new Target(objs.s, d.items, rl.items);
      return Ok(t);
    }

    method AddDependency(d: RValue)
      modifies this
      ensures State() == WithDependency(old(State()), d)
      ensures old(Valid()) ==> Valid()
    {
      deps := Uniq(deps + [d]);
    }

    method AddRule(rule: RValue)
      modifies this
      ensures State() == WithRule(old(State()), rule)
      ensures old(Valid()) ==> Valid()
    {
      rules := rules + [rule];
    }

    /** `prepend_rule(target, rule)`: the first argument is not used. */
    method PrependRule(target: RValue, rule: RValue)
      modifies this
      ensures State() == WithRuleFirst(old(State()), rule)
      ensures old(Valid()) ==> Valid()
    {
      rules := [rule] + rules;
    }

    method Mkdir(path: string)
      modifies this
      ensures State() == WithDir(old(State()), path)
      ensures old(Valid()) ==> Valid()
    {
      if path !in dirs {
        dirs := dirs + [path];
      }
    }

    method Cp(src: string, dst: string)
      requires Valid()
      modifies this
      ensures State() == WithCopy(old(State()), src, dst)
      ensures Valid()
    {
      CopyAppends(State(), src, dst, dst);
      copies := Put(copies, dst, Lookup(copies, dst) + [src]);
    }

    /** `merge!(src)`; returns false (the ArgumentError) when the names differ. */
    method Merge(src: Target) returns (ok: bool)
      requires Valid() && src.Valid() && src != this
      modifies this
      ensures ok <==> src.name == name
      ensures ok ==> State() == Merged(old(State()), src.State())
      ensures !ok ==> State() == old(State())
      ensures Valid()
    {
      if src.name != name {
        return false;
      }
      var merged := MergeCopyMaps(copies, src.copies);
      MergedWellformed(State(), src.State());
      deps := Uniq(deps + [List(src.deps)]);
      rules := Flatten(rules + [List(src.rules)]);
      dirs := Uniq(dirs + src.dirs);
      copies := merged;
      return true;
    }

    /**
     * `to_s`, with `Platform.mkdir` as written: it fails exactly when the
     * target has directories and `mkdir` refuses them, or holds a rule
     * that is not a String.
     */
    function Text(h: Host): (r: Result<string>)
      reads this
      ensures r.Ok? <==>
                (dirs == [] || (Spaced(dirs) != "" && !IsWindows(h))) &&
                forall i :: 0 <= i < |rules| ==> rules[i].Str?
      ensures r.Ok? ==> StartsWith(r.value, "\n" + name + ":")
    {
      TargetText(h, JoinedDirs, State())
    }
  }
}
