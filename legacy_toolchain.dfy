/**
 * The toolchain of the single-file makeconf.rb: the linker's `-Wl,` flags,
 * the object-file names, the compile command (with the flag filter for
 * Microsoft's cl.exe) and the Makefile entries of `to_make`.
 *
 * A Compiler and its Linker are values here: the Ruby code clones the
 * compiler (a Marshal deep copy) before every change it does not want to
 * keep, so no two owners ever share one.  The compiler path is a field,
 * standing for the result of the `search` probe.
 */
module LegacyToolchain {
  import opened Strings
  import opened RubyValues
  import opened Platform
  import opened Patterns

  // ---------------------------------------------------------------------
  // Linker
  // ---------------------------------------------------------------------

  /** A recorded flag: `['name', value]` or a bare `'name'`. */
  datatype LinkFlag = Pair(name: string, value: string) | Single(name: string)

  datatype Linker = Linker(flags: seq<LinkFlag>)

  /** `soname(s)`: records `['soname', s]`, except on Windows where it records nothing. */
  function Soname(h: Host, ld: Linker, s: string): (r: Linker)
    ensures IsWindows(h) ==> r == ld
    ensures !IsWindows(h) ==> r.flags == ld.flags + [Pair("soname", s)]
  {
    if IsWindows(h) then ld else Linker(ld.flags + [Pair("soname", s)])
  }

  /** `export_dynamic`: recorded on every platform. */
  function ExportDynamic(ld: Linker): (r: Linker)
    ensures r.flags == ld.flags + [Single("export-dynamic")]
  {
    Linker(ld.flags + [Single("export-dynamic")])
  }

  function FlagToken(f: LinkFlag): string
  {
    match f
    case Pair(n, v) => "-Wl,-" + n + "," + v
    case Single(n) => "-Wl,-" + n
  }

  function LinkerTokens(ld: Linker): (r: seq<string>)
    ensures |r| == |ld.flags|
    ensures forall i :: 0 <= i < |r| ==> r[i] == FlagToken(ld.flags[i])
  {
    seq(|ld.flags|, i requires 0 <= i < |ld.flags| => FlagToken(ld.flags[i]))
  }

  /** `to_s`: a space, then the flag tokens joined by spaces. */
  function LinkerText(ld: Linker): string
  {
    " " + Spaced(LinkerTokens(ld))
  }

  /** Reads a flag token back: the name runs to the first comma. */
  function ParseFlag(t: string): (r: Option<LinkFlag>)
    ensures r.Some? <==> StartsWith(t, "-Wl,-")
  {
    if !StartsWith(t, "-Wl,-") then None
    else
      var rest := t[5..];
      match IndexOf(rest, ',')
      case None => Some(Single(rest))
      case Some(i) => Some(Pair(rest[..i], rest[i + 1..]))
  }

  predicate SpaceFree(s: string)
  {
    forall i :: 0 <= i < |s| ==> !IsSpace(s[i])
  }

  /** A flag whose name holds no comma and whose parts hold no white space. */
  predicate PlainFlag(f: LinkFlag)
  {
    ',' !in f.name && SpaceFree(f.name) && (f.Pair? ==> SpaceFree(f.value))
  }

  /** Every flag token reads back as the flag it came from. */
  lemma FlagTokenRoundTrip(f: LinkFlag)
    requires ',' !in f.name
    ensures ParseFlag(FlagToken(f)) == Some(f)
  {
    var t := FlagToken(f);
    assert t[..5] == "-Wl,-";
    var rest := t[5..];
    match f
    case Pair(n, v) =>
      assert rest == n + "," + v;
      assert rest[|n|] == ',';
      var k := IndexOf(rest, ',');
      assert k.Some?;
      assert k.value == |n|;
      assert rest[..|n|] == n;
      assert rest[|n| + 1..] == v;
    case Single(n) =>
      assert rest == n;
  }

  /**
   * The linker text splits into exactly one word per recorded flag, so the
   * compiler sees the flags as separate arguments, in recording order.
   */
  lemma LinkerTextWords(ld: Linker)
    requires forall i :: 0 <= i < |ld.flags| ==> PlainFlag(ld.flags[i])
    ensures Words(LinkerText(ld)) == LinkerTokens(ld)
  {
    var ts := LinkerTokens(ld);
    forall i | 0 <= i < |ts| ensures IsWord(ts[i]) {
      var f := ld.flags[i];
      var t := ts[i];
      assert t[0] == '-';
      forall j | 0 <= j < |t| ensures !IsSpace(t[j]) {
        match f
        case Pair(n, v) =>
          assert t == "-Wl,-" + n + "," + v;
          if 5 <= j < 5 + |n| {
            assert t[j] == n[j - 5];
          } else if 6 + |n| <= j {
            assert t[j] == v[j - 6 - |n|];
          }
        case Single(n) =>
          assert t == "-Wl,-" + n;
          if 5 <= j {
            assert t[j] == n[j - 5];
          }
      }
    }
    WordsOfSpaced(ts);
    WordsConcat(" ", Spaced(ts));
    assert Words(" ") == Words(" "[1..]);
  }

  // ---------------------------------------------------------------------
  // Compiler
  // ---------------------------------------------------------------------

  datatype Compiler = Compiler(
    path: string,
    cflags: string,
    extraCflags: string,
    ldflags: string,
    ldadd: string,
    isLibrary: bool,
    isShared: bool,
    isMakefile: bool,
    sources: seq<string>,
    ld: Linker)

  /** `Compiler.new(language, extension, ldflags, cflags)` once `search` has settled on `path`. */
  function NewCompiler(path: string, ldflags: string, cflags: string): (c: Compiler)
    ensures c.extraCflags == "" && c.ldadd == "" && c.sources == [] && c.ld.flags == []
    ensures !c.isLibrary && !c.isShared && !c.isMakefile
  {
    Compiler(path, cflags, "", ldflags, "", false, false, false, [], Linker([]))
  }

  function AppendCflags(c: Compiler, s: string): Compiler
  {
    c.(extraCflags := c.extraCflags + " " + s)
  }

  function AppendLdflags(c: Compiler, s: string): Compiler
  {
    c.(ldflags := c.ldflags + " " + s)
  }

  function AppendLdadd(c: Compiler, s: string): Compiler
  {
    c.(ldadd := c.ldadd + " " + s)
  }

  /** What replaces a trailing `.c`: the object extension, with `-static` in front for a static library. */
  function ObjSuffix(h: Host, c: Compiler): string
  {
    if !c.isLibrary || c.isShared then ObjectExtension(h) else "-static" + ObjectExtension(h)
  }

  /** `objs`: each source with `/.c$/` replaced. */
  function Objs(h: Host, c: Compiler): (r: seq<string>)
    ensures |r| == |c.sources|
    ensures forall i :: 0 <= i < |r| ==> r[i] == SubEol(c.sources[i], ".c", ObjSuffix(h, c))
  {
    seq(|c.sources|, i requires 0 <= i < |c.sources| => SubEol(c.sources[i], ".c", ObjSuffix(h, c)))
  }

  /** The shared object and the static object of one C source never share a name. */
  lemma SharedStaticObjectsDiffer(h: Host, c: Compiler, stem: string)
    requires '\n' !in stem
    ensures var s := stem + ".c";
            SubEol(s, ".c", ObjSuffix(h, c.(isLibrary := true, isShared := true)))
            != SubEol(s, ".c", ObjSuffix(h, c.(isLibrary := true, isShared := false)))
  {
    assert stem + ".c" == stem + ['.', 'c'];
    ObjectOfSource(stem, '.', ObjSuffix(h, c.(isLibrary := true, isShared := true)));
    ObjectOfSource(stem, '.', ObjSuffix(h, c.(isLibrary := true, isShared := false)));
    assert |stem + ObjectExtension(h)| != |stem + ("-static" + ObjectExtension(h))|;
  }

  /**
   * `to_make` names the source of object `d` by replacing the object
   * extension with `.c`; for a shared-library or program object that is
   * the source the object came from.
   */
  lemma ObjectSourceRoundTrip(h: Host, c: Compiler, stem: string)
    requires '\n' !in stem
    requires !c.isLibrary || c.isShared
    ensures SubEol(SubEol(stem + ".c", ".c", ObjSuffix(h, c)), ObjectExtension(h), ".c") == stem + ".c"
  {
    assert stem + ".c" == stem + ['.', 'c'];
    ObjectOfSource(stem, '.', ObjSuffix(h, c));
    var ext := ObjectExtension(h);
    assert ext == "." + ext[1..];
    DotMatches(stem, '.', ext[1..]);
    assert [ '.' ] + ext[1..] == ext;
    assert '\n' !in stem + ext;
    SubEolSuffix(stem, ext, ext, ".c");
  }

  // ---------------------------------------------------------------------
  // The cl.exe flag filter
  // ---------------------------------------------------------------------

  /** The flags cl.exe does not understand, in the order the source removes them. */
  const ClPatterns: seq<FlagPattern> := [
    Exact("-Wall"), Exact("-Werror"), Exact("-W"), Prefixed("-Wno-"),
    Exact("-Wextra"), Exact("-fpic"), Prefixed("-std="), Exact("-pedantic")]

  predicate ClRemovable(w: string)
  {
    exists i :: 0 <= i < |ClPatterns| && WordMatches(ClPatterns[i], w)
  }

  /** One `gsub!` per pattern, in order. */
  function GsubEach(s: string, ps: seq<FlagPattern>): string
    decreases |ps|
  {
    if ps == [] then s else GsubEach(Gsub(s, ps[0]), ps[1..])
  }

  /** The filter as written: eight successive `gsub!(/ flag /, ' ')`. */
  function ClFilterAsWritten(s: string): string
  {
    GsubEach(s, ClPatterns)
  }

  /** The space-separated pieces that are not removable, in order. */
  function Kept(ws: seq<string>): (r: seq<string>)
    ensures forall i :: 0 <= i < |r| ==> !ClRemovable(r[i]) && r[i] in ws
    ensures (forall i :: 0 <= i < |ws| ==> !ClRemovable(ws[i])) ==> r == ws
  {
    if ws == [] then []
    else (if ClRemovable(ws[0]) then [] else [ws[0]]) + Kept(ws[1..])
  }

  /** No space-separated piece of `s` is a flag the filter removes. */
  predicate Clean(s: string)
  {
    forall i :: 0 <= i < |SplitOn(s, ' ')| ==> !ClRemovable(SplitOn(s, ' ')[i])
  }

  /** The filter as intended: every removable space-separated flag is dropped. */
  function ClFilter(s: string): string
  {
    Join(Kept(SplitOn(s, ' ')), " ")
  }

  lemma EmptyNotRemovable()
    ensures !ClRemovable("")
  {
    forall i | 0 <= i < |ClPatterns| ensures !WordMatches(ClPatterns[i], "") {
    }
  }

  /** No piece of the filtered text is a removable flag, and every other piece survives in order. */
  lemma ClFilterRemovesAll(s: string)
    ensures Kept(SplitOn(s, ' ')) != [] ==> SplitOn(ClFilter(s), ' ') == Kept(SplitOn(s, ' '))
    ensures Clean(ClFilter(s))
  {
    var ks := Kept(SplitOn(s, ' '));
    if ks == [] {
      assert ClFilter(s) == "";
      assert SplitOn("", ' ') == [""];
      EmptyNotRemovable();
    } else {
      forall i | 0 <= i < |ks| ensures ' ' !in ks[i] {
        assert ks[i] in SplitOn(s, ' ');
      }
      assert " " == [' '];
      SplitOnJoin(ks, ' ');
    }
  }

  /** Text without removable flags passes the filter unchanged. */
  lemma ClFilterKeepsClean(s: string)
    requires Clean(s)
    ensures ClFilter(s) == s
  {
    assert " " == [' '];
    JoinSplitOn(s, ' ');
  }

  /** A `-Wno-` flag matches no pattern but the fourth. */
  lemma WnoOnlyFourth(w: string, i: nat)
    requires StartsWith(w, "-Wno-") && i < |ClPatterns| && i != 3
    ensures !WordMatches(ClPatterns[i], w)
  {
    assert w[..5] == "-Wno-";
    assert w[1] == 'W' && w[2] == 'n' && w[3] == 'o' && w[4] == '-';
  }

  /** Gsub on `" w "` when the pattern does not match `w`. */
  lemma GsubOneWordUnmatched(w: string, p: FlagPattern)
    requires NoSpace(w) && !WordMatches(p, w)
    ensures Gsub(" " + w + " ", p) == " " + w + " "
  {
    GsubWordUnmatched(w, " ", p);
    GsubWordTail("", p);
    assert "" + " " == " ";
  }

  /**
   * As written, two adjacent `-Wno-` flags lose only the first: the match of
   * the first consumes the space the second needs in front of it.
   */
  lemma ClFilterAsWrittenKeepsSecond(w1: string, w2: string)
    requires NoSpace(w1) && NoSpace(w2) && '\n' !in w1 && '\n' !in w2
    requires StartsWith(w1, "-Wno-") && StartsWith(w2, "-Wno-")
    ensures ClRemovable(w2)
    ensures ClFilterAsWritten(" " + w1 + " " + w2 + " ") == " " + w2 + " "
  {
    assert WordMatches(ClPatterns[3], w2);
    var s := " " + w1 + " " + w2 + " ";
    var t := " " + w2 + " ";
    var ps := ClPatterns;
    forall i | 0 <= i < 3 ensures Gsub(s, ps[i]) == s {
      WnoOnlyFourth(w1, i);
      WnoOnlyFourth(w2, i);
      GsubTwoWordsUnmatched(w1, w2, ps[i]);
    }
    GsubSkipsSecond(w1, w2, ps[3]);
    forall i | 4 <= i < 8 ensures Gsub(t, ps[i]) == t {
      WnoOnlyFourth(w2, i);
      GsubOneWordUnmatched(w2, ps[i]);
    }
    calc {
      GsubEach(s, ps);
      GsubEach(Gsub(s, ps[0]), ps[1..]);
      { assert ps[1..][0] == ps[1]; }
      GsubEach(Gsub(s, ps[1]), ps[2..]);
      { assert ps[2..][0] == ps[2]; }
      GsubEach(Gsub(s, ps[2]), ps[3..]);
      { assert ps[3..][0] == ps[3]; }
      GsubEach(t, ps[4..]);
      { assert ps[4..][0] == ps[4]; assert ps[4..][1..] == ps[5..]; }
      GsubEach(t, ps[5..]);
      { assert ps[5..][0] == ps[5]; assert ps[5..][1..] == ps[6..]; }
      GsubEach(t, ps[6..]);
      { assert ps[6..][0] == ps[6]; assert ps[6..][1..] == ps[7..]; }
      GsubEach(t, ps[7..]);
      { assert ps[7..][0] == ps[7]; assert ps[7..][1..] == []; }
      t;
    }
  }

  lemma KeptCons(x: string, xs: seq<string>)
    ensures Kept([x] + xs) == (if ClRemovable(x) then [] else [x]) + Kept(xs)
  {
    assert ([x] + xs)[1..] == xs;
  }

  /** Two removable words between two kept pieces: only the kept pieces stay. */
  lemma KeptDropsMiddle(e: string, w1: string, w2: string)
    requires !ClRemovable(e) && ClRemovable(w1) && ClRemovable(w2)
    ensures Kept([e, w1, w2, e]) == [e, e]
  {
    KeptCons(e, []);
    KeptCons(w2, [e]);
    KeptCons(w1, [w2, e]);
    KeptCons(e, [w1, w2, e]);
    assert [e] + [] == [e];
    assert [w2] + [e] == [w2, e];
    assert [w1] + [w2, e] == [w1, w2, e];
    assert [e] + [w1, w2, e] == [e, w1, w2, e];
  }

  /** `" w1 w2 "` splits into an empty piece, the two words and another empty piece. */
  lemma SplitTwoWords(e: string, w1: string, w2: string)
    requires e == [] && NoSpace(w1) && NoSpace(w2)
    ensures SplitOn(" " + w1 + " " + w2 + " ", ' ') == [e, w1, w2, e]
  {
    var ts := [e, w1, w2, e];
    JoinCons(w2, [e], " ");
    JoinCons(w1, [w2, e], " ");
    JoinCons(e, [w1, w2, e], " ");
    assert [e] + [w1, w2, e] == ts;
    assert [w1] + [w2, e] == [w1, w2, e];
    assert [w2] + [e] == [w2, e];
    assert Join(ts, " ") == " " + w1 + " " + w2 + " ";
    assert " " == [' '];
    SplitOnJoin(ts, ' ');
  }

  /** The intended filter drops both flags of the same input. */
  lemma ClFilterDropsBoth(w1: string, w2: string)
    requires NoSpace(w1) && NoSpace(w2) && '\n' !in w1 && '\n' !in w2
    requires StartsWith(w1, "-Wno-") && StartsWith(w2, "-Wno-")
    ensures ClFilter(" " + w1 + " " + w2 + " ") == " "
  {
    var e: string := [];
    SplitTwoWords(e, w1, w2);
    EmptyNotRemovable();
    assert WordMatches(ClPatterns[3], w1) && WordMatches(ClPatterns[3], w2);
    KeptDropsMiddle(e, w1, w2);
    JoinCons(e, [e], " ");
    assert [e] + [e] == [e, e];
  }

  // ---------------------------------------------------------------------
  // The compile command
  // ---------------------------------------------------------------------

  /** The output flag: `/Fo<out>` for cl.exe, `-o <out>` otherwise. */
  function OutputFlag(path: string, output: string): string
  {
    if IsClExe(path) then " /Fo" + output else " -o " + output
  }

  /** The compiler flags before the cl.exe filter. */
  function BaseFlags(c: Compiler, output: string): string
  {
    c.cflags + c.extraCflags + " -c"
    + (if c.isLibrary && c.isShared then " -fpic -shared" else "")
    + LinkerText(c.ld)
    + (if c.isMakefile then "" else OutputFlag(c.path, output))
  }

  /** ` $(CFLAGS)` appended in Makefile mode. */
  function WithCflagsVariable(c: Compiler, f: string): string
  {
    if c.isMakefile then f + " $(CFLAGS)" else f
  }

  /** The flags after the filter as written, with ` $(CFLAGS)` in Makefile mode. */
  function Flags(c: Compiler, output: string): string
  {
    WithCflagsVariable(c, if IsClExe(c.path) then ClFilterAsWritten(BaseFlags(c, output) + " ") else BaseFlags(c, output))
  }

  /** The flags with the filter as intended, which drops every removable flag. */
  function IntendedFlags(c: Compiler, output: string): string
  {
    WithCflagsVariable(c, if IsClExe(c.path) then ClFilter(BaseFlags(c, output) + " ") else BaseFlags(c, output))
  }

  /** `command(output)`: `[path, cflags, inputs, ldadd].join(' ')`. */
  function Command(c: Compiler, output: string): string
  {
    var inputs := if c.isMakefile then Str("") else List(Strs(c.sources));
    JoinValues([Str(c.path), Str(Flags(c, output)), inputs, Str(c.ldadd)], " ")
  }

  lemma JoinFour(p: string, f: string, inputs: RValue, l: string)
    ensures JoinValues([Str(p), Str(f), inputs, Str(l)], " ") == p + " " + f + " " + Render(inputs, " ") + " " + l
  {
    JoinValuesCons(Str(p), [Str(f), inputs, Str(l)], " ");
    JoinValuesCons(Str(f), [inputs, Str(l)], " ");
    JoinValuesCons(inputs, [Str(l)], " ");
    assert [Str(p)] + [Str(f), inputs, Str(l)] == [Str(p), Str(f), inputs, Str(l)];
    assert [Str(f)] + [inputs, Str(l)] == [Str(f), inputs, Str(l)];
    assert [inputs] + [Str(l)] == [inputs, Str(l)];
  }

  /** The command line as four space-separated parts. */
  lemma CommandParts(c: Compiler, output: string)
    ensures Command(c, output) ==
              c.path + " " + Flags(c, output) + " " + (if c.isMakefile then "" else Spaced(c.sources)) + " " + c.ldadd
  {
    CommandPartsWith(c, Flags(c, output));
  }

  lemma CommandPartsWith(c: Compiler, f: string)
    ensures JoinValues([Str(c.path), Str(f), if c.isMakefile then Str("") else List(Strs(c.sources)), Str(c.ldadd)], " ") ==
              c.path + " " + f + " " + (if c.isMakefile then "" else Spaced(c.sources)) + " " + c.ldadd
  {
    var inputs := if c.isMakefile then Str("") else List(Strs(c.sources));
    if !c.isMakefile {
      JoinOfStrs(c.sources, " ");
    }
    JoinFour(c.path, f, inputs, c.ldadd);
  }

  /** The words of `x + " " + y + " " + z`. */
  lemma WordsOfThree(x: string, y: string, z: string)
    ensures Words(x + " " + y + " " + z) == Words(x) + Words(y) + Words(z)
  {
    WordsSpaced(x, y);
    WordsSpaced(x + " " + y, z);
  }

  lemma SharedWords(c: Compiler, x: string)
    ensures Words(x + (if c.isLibrary && c.isShared then " -fpic -shared" else ""))
            == Words(x) + (if c.isLibrary && c.isShared then ["-fpic", "-shared"] else [])
  {
    if c.isLibrary && c.isShared {
      assert x + " -fpic -shared" == x + " " + "-fpic" + " " + "-shared";
      WordsAppendWord(x, "-fpic");
      WordsAppendWord(x + " " + "-fpic", "-shared");
    } else {
      assert x + "" == x;
    }
  }

  lemma OutputWords(c: Compiler, x: string, output: string)
    requires !IsClExe(c.path) && IsWord(output)
    ensures Words(x + (if c.isMakefile then "" else OutputFlag(c.path, output)))
            == Words(x) + (if c.isMakefile then [] else ["-o", output])
  {
    if !c.isMakefile {
      assert x + OutputFlag(c.path, output) == x + " " + "-o" + " " + output;
      WordsAppendWord(x, "-o");
      WordsAppendWord(x + " " + "-o", output);
    } else {
      assert x + "" == x;
    }
  }

  /** The words of the flags before the filter, for a compiler other than cl.exe. */
  lemma BaseFlagsWords(c: Compiler, output: string)
    requires !IsClExe(c.path) && IsWord(output)
    requires forall i :: 0 <= i < |c.ld.flags| ==> PlainFlag(c.ld.flags[i])
    ensures Words(BaseFlags(c, output)) ==
              Words(c.cflags + c.extraCflags) + ["-c"]
              + (if c.isLibrary && c.isShared then ["-fpic", "-shared"] else [])
              + LinkerTokens(c.ld)
              + (if c.isMakefile then [] else ["-o", output])
  {
    var user := c.cflags + c.extraCflags;
    var shared := if c.isLibrary && c.isShared then " -fpic -shared" else "";
    var lt := LinkerText(c.ld);
    var out := if c.isMakefile then "" else OutputFlag(c.path, output);
    assert user + " -c" == user + " " + "-c";
    WordsAppendWord(user, "-c");
    SharedWords(c, user + " -c");
    LinkerTextWords(c.ld);
    assert lt[0] == ' ';
    WordsConcat(user + " -c" + shared, lt);
    OutputWords(c, user + " -c" + shared + lt, output);
    assert BaseFlags(c, output) == user + " -c" + shared + lt + out;
  }

  lemma WordsOfCommandLine(path: string, f: string, inputs: string, ldadd: string)
    requires IsWord(path)
    ensures Words(path + " " + f + " " + inputs + " " + ldadd) == [path] + Words(f) + Words(inputs) + Words(ldadd)
  {
    WordsOfWord(path);
    assert path + " " + f + " " + inputs + " " + ldadd == path + " " + f + " " + (inputs + " " + ldadd);
    WordsOfThree(path, f, inputs + " " + ldadd);
    WordsSpaced(inputs, ldadd);
  }

  /** The words of the flags after the filter, for a compiler other than cl.exe. */
  lemma FlagsWords(c: Compiler, output: string)
    requires !IsClExe(c.path)
    ensures Words(Flags(c, output)) == Words(BaseFlags(c, output)) + (if c.isMakefile then ["$(CFLAGS)"] else [])
  {
    var b := BaseFlags(c, output);
    if c.isMakefile {
      assert Flags(c, output) == b + " " + "$(CFLAGS)";
      WordsAppendWord(b, "$(CFLAGS)");
    } else {
      assert Words(Flags(c, output)) == Words(b) + [];
    }
  }

  /** The words of the inputs: none in Makefile mode, otherwise the sources. */
  lemma InputWords(c: Compiler)
    requires AllWords(c.sources)
    ensures Words(if c.isMakefile then "" else Spaced(c.sources)) == if c.isMakefile then [] else c.sources
  {
    if !c.isMakefile {
      WordsOfSpaced(c.sources);
    }
  }

  /** The command's words: the path, the flags' words, the inputs' words and the ldadd words. */
  lemma CommandLineWords(c: Compiler, output: string)
    requires IsWord(c.path)
    ensures Words(Command(c, output)) ==
              [c.path] + Words(Flags(c, output)) + Words(if c.isMakefile then "" else Spaced(c.sources)) + Words(c.ldadd)
  {
    CommandParts(c, output);
    WordsOfCommandLine(c.path, Flags(c, output), if c.isMakefile then "" else Spaced(c.sources), c.ldadd);
  }

  /** The words of the flags, for a compiler other than cl.exe. */
  lemma FlagsWordsFull(c: Compiler, output: string)
    requires !IsClExe(c.path) && IsWord(output)
    requires forall i :: 0 <= i < |c.ld.flags| ==> PlainFlag(c.ld.flags[i])
    ensures Words(Flags(c, output)) ==
              Words(c.cflags + c.extraCflags) + ["-c"]
              + (if c.isLibrary && c.isShared then ["-fpic", "-shared"] else [])
              + LinkerTokens(c.ld)
              + (if c.isMakefile then [] else ["-o", output])
              + (if c.isMakefile then ["$(CFLAGS)"] else [])
  {
    FlagsWords(c, output);
    BaseFlagsWords(c, output);
  }

  lemma Regroup(p: string, u: seq<string>, k: seq<string>, sh: seq<string>, lt: seq<string>,
                 x: seq<string>, y: seq<string>, z: seq<string>, l: seq<string>)
    ensures [p] + (u + k + sh + lt + x + y) + z + l == [p] + u + k + sh + lt + (x + y + z) + l
  {
  }

  /**
   * For a compiler other than cl.exe, the argument words of the command:
   * the path, the user's cflags, `-c`, `-fpic -shared` only for a shared
   * library, one word per linker flag, then in Makefile mode `$(CFLAGS)`
   * (no output flag and no inputs), otherwise `-o <output>` and the sources,
   * and last the ldadd words.
   */
  lemma CommandWords(c: Compiler, output: string)
    requires !IsClExe(c.path)
    requires IsWord(c.path) && IsWord(output) && AllWords(c.sources)
    requires forall i :: 0 <= i < |c.ld.flags| ==> PlainFlag(c.ld.flags[i])
    ensures Words(Command(c, output)) ==
              [c.path] + Words(c.cflags + c.extraCflags) + ["-c"]
              + (if c.isLibrary && c.isShared then ["-fpic", "-shared"] else [])
              + LinkerTokens(c.ld)
              + (if c.isMakefile then ["$(CFLAGS)"] else ["-o", output] + c.sources)
              + Words(c.ldadd)
  {
    CommandLineWords(c, output);
    FlagsWordsFull(c, output);
    InputWords(c);
    var u := Words(c.cflags + c.extraCflags);
    var sh: seq<string> := if c.isLibrary && c.isShared then ["-fpic", "-shared"] else [];
    var lt := LinkerTokens(c.ld);
    var l := Words(c.ldadd);
    var tail: seq<string> := if c.isMakefile then ["$(CFLAGS)"] else ["-o", output] + c.sources;
    if c.isMakefile {
      Regroup(c.path, u, ["-c"], sh, lt, [], ["$(CFLAGS)"], [], l);
      assert tail == [] + ["$(CFLAGS)"] + [];
    } else {
      Regroup(c.path, u, ["-c"], sh, lt, ["-o", output], [], c.sources, l);
      assert tail == ["-o", output] + [] + c.sources;
    }
  }

  lemma CflagsVariableKept()
    ensures !ClRemovable("$(CFLAGS)")
  {
    forall i | 0 <= i < |ClPatterns| ensures !WordMatches(ClPatterns[i], "$(CFLAGS)") {
      assert "$(CFLAGS)"[0] == '$';
    }
  }

  /** Appending a space and a kept piece keeps every piece kept. */
  lemma CleanAppend(f: string, w: string)
    requires Clean(f)
    requires ' ' !in w && !ClRemovable(w)
    ensures Clean(f + " " + w)
  {
    assert f + " " + w == f + [' '] + w;
    SplitOnAppendPiece(f, w, ' ');
  }

  /**
   * For cl.exe, with the filter as intended no space-separated piece of the
   * flags is a flag cl.exe does not understand, whatever the user's cflags
   * hold.
   */
  lemma ClCommandFlagsClean(c: Compiler, output: string)
    requires IsClExe(c.path)
    ensures Clean(IntendedFlags(c, output))
  {
    var f := ClFilter(BaseFlags(c, output) + " ");
    ClFilterRemovesAll(BaseFlags(c, output) + " ");
    CflagsVariableKept();
    CleanAppend(f, "$(CFLAGS)");
    FlagsAfterFilter(c, output);
  }

  /** The appended `$(CFLAGS)` as a separate piece. */
  lemma FlagsAfterFilter(c: Compiler, output: string)
    requires IsClExe(c.path)
    ensures IntendedFlags(c, output) == var f := ClFilter(BaseFlags(c, output) + " ");
                                        if c.isMakefile then f + " " + "$(CFLAGS)" else f
  {
    var f := ClFilter(BaseFlags(c, output) + " ");
    AppendCflagsVariable(f);
  }

  lemma AppendCflagsVariable(f: string)
    ensures f + " $(CFLAGS)" == f + " " + "$(CFLAGS)"
  {
  }

  // ---------------------------------------------------------------------
  // to_make: an insertion-ordered hash of Makefile entries
  // ---------------------------------------------------------------------

  /** The entry `to_make` gives object `d`: `[src, cmd + output flag + ' ' + src]`. */
  function ObjectEntry(h: Host, c: Compiler, d: string): RValue
  {
    var src := SubEol(d, ObjectExtension(h), ".c");
    var x := if IsWindows(h) then " /Fo" + d else " -o " + d;
    List([Str(src), Str(Command(c, d) + x + " " + src)])
  }

  /** The link command's parts, as `[...].flatten` yields them. */
  function LinkArgs(c: Compiler, output: string, objs: seq<string>): seq<string>
  {
    ["$(CC)", "-o " + output] + (if c.isLibrary && c.isShared then ["-shared"] else [])
    + [c.ldflags, "$(LDFLAGS)"] + objs + [c.ldadd, "$(LDADD)"]
  }

  /** The link rule as the source writes it: a nested list, flattened and joined. */
  function LinkRule(c: Compiler, output: string, objs: seq<string>): string
  {
    var cflags := ["-o " + output] + (if c.isLibrary && c.isShared then ["-shared"] else []);
    var parts := [Str("$(CC)"), List(Strs(cflags)), Str(c.ldflags), Str("$(LDFLAGS)"),
                  List(Strs(objs)), Str(c.ldadd), Str("$(LDADD)")];
    JoinValues(Flatten(parts), " ")
  }

  function LinkEntry(c: Compiler, output: string, objs: seq<string>): RValue
  {
    List([List(Strs(objs)), Str(LinkRule(c, output, objs))])
  }

  /** The object entries for `ds`, in order. */
  function ObjectEntries(h: Host, c: Compiler, ds: seq<string>): Hash
    decreases |ds|
  {
    if ds == [] then []
    else HashPut(ObjectEntries(h, c, ds[..|ds| - 1]), ds[|ds| - 1], ObjectEntry(h, c, ds[|ds| - 1]))
  }

  /** `to_make(output)`. */
  function ToMakeSpec(h: Host, c: Compiler, output: string): Hash
  {
    var objs := Sort(Objs(h, c));
    HashPut(ObjectEntries(h, c, objs), output, LinkEntry(c, output, objs))
  }

  lemma {:induction false} ObjectEntriesGet(h: Host, c: Compiler, ds: seq<string>, d: string)
    ensures HashGet(ObjectEntries(h, c, ds), d) == if d in ds then Some(ObjectEntry(h, c, d)) else None
    decreases |ds|
  {
    if ds == [] {
      assert ObjectEntries(h, c, ds) == [];
    } else {
      var init := ds[..|ds| - 1];
      var last := ds[|ds| - 1];
      assert ds == init + [last];
      ObjectEntriesGet(h, c, init, d);
      var e := ObjectEntries(h, c, init);
      assert ObjectEntries(h, c, ds) == HashPut(e, last, ObjectEntry(h, c, last));
      HashPutGet(e, last, ObjectEntry(h, c, last), d);
      assert d in ds <==> d in init || d == last;
    }
  }

  lemma {:induction false} ObjectEntriesKeys(h: Host, c: Compiler, ds: seq<string>)
    ensures forall k :: k in HashKeys(ObjectEntries(h, c, ds)) <==> k in ds
    ensures NoDuplicates(HashKeys(ObjectEntries(h, c, ds)))
    decreases |ds|
  {
    if ds == [] {
      assert ObjectEntries(h, c, ds) == [];
    } else {
      var init := ds[..|ds| - 1];
      var last := ds[|ds| - 1];
      assert ds == init + [last];
      ObjectEntriesKeys(h, c, init);
      var e := ObjectEntries(h, c, init);
      assert ObjectEntries(h, c, ds) == HashPut(e, last, ObjectEntry(h, c, last));
      HashPutKeys(e, last, ObjectEntry(h, c, last));
    }
  }

  /** Flattening the link command's nested list gives the link arguments. */
  lemma LinkRuleFlattens(c: Compiler, output: string, objs: seq<string>)
    ensures LinkRule(c, output, objs) == Spaced(LinkArgs(c, output, objs))
  {
    var cflags := ["-o " + output] + (if c.isLibrary && c.isShared then ["-shared"] else []);
    var parts := [Str("$(CC)"), List(Strs(cflags)), Str(c.ldflags), Str("$(LDFLAGS)"),
                  List(Strs(objs)), Str(c.ldadd), Str("$(LDADD)")];
    var all := ["$(CC)"] + cflags + [c.ldflags, "$(LDFLAGS)"] + objs + [c.ldadd, "$(LDADD)"];
    assert all == LinkArgs(c, output, objs);
    FlattenParts(parts, "$(CC)", cflags, c.ldflags, "$(LDFLAGS)", objs, c.ldadd, "$(LDADD)");
    assert Flatten(parts) == Strs(all);
    JoinOfStrs(all, " ");
  }

  lemma FlattenHead(cc: string, cflags: seq<string>)
    ensures Flatten([Str(cc), List(Strs(cflags))]) == Strs([cc] + cflags)
  {
    FlattenCons(Str(cc), [List(Strs(cflags))]);
    FlattenCons(List(Strs(cflags)), []);
    FlattenOfStrs(cflags);
    StrsAppend([cc], cflags);
  }

  lemma FlattenTail(mid: seq<string>, objs: seq<string>, tail: seq<string>)
    ensures Flatten(Strs(mid) + ([List(Strs(objs))] + Strs(tail))) == Strs(mid + objs + tail)
  {
    FlattenAppend(Strs(mid), [List(Strs(objs))] + Strs(tail));
    FlattenCons(List(Strs(objs)), Strs(tail));
    FlattenOfStrs(mid);
    FlattenOfStrs(objs);
    FlattenOfStrs(tail);
    StrsAppend(mid + objs, tail);
    StrsAppend(mid, objs);
  }

  lemma FlattenParts(parts: seq<RValue>, cc: string, cflags: seq<string>, ldflags: string, ldvar: string,
                     objs: seq<string>, ldadd: string, addvar: string)
    requires parts == [Str(cc), List(Strs(cflags)), Str(ldflags), Str(ldvar),
                       List(Strs(objs)), Str(ldadd), Str(addvar)]
    ensures Flatten(parts) == Strs([cc] + cflags + [ldflags, ldvar] + objs + [ldadd, addvar])
  {
    var head := [Str(cc), List(Strs(cflags))];
    var rest := Strs([ldflags, ldvar]) + ([List(Strs(objs))] + Strs([ldadd, addvar]));
    assert parts == head + rest;
    FlattenAppend(head, rest);
    FlattenHead(cc, cflags);
    FlattenTail([ldflags, ldvar], objs, [ldadd, addvar]);
    StrsAppend([cc] + cflags, [ldflags, ldvar] + objs + [ldadd, addvar]);
    assert [cc] + cflags + ([ldflags, ldvar] + objs + [ldadd, addvar])
        == [cc] + cflags + [ldflags, ldvar] + objs + [ldadd, addvar];
  }

  /**
   * `to_make(output)` has a key for every object and for the output, and
   * no other key, each once.
   */
  lemma ToMakeKeys(h: Host, c: Compiler, output: string)
    ensures forall k :: k in HashKeys(ToMakeSpec(h, c, output)) <==> k in Sort(Objs(h, c)) || k == output
    ensures NoDuplicates(HashKeys(ToMakeSpec(h, c, output)))
  {
    var objs := Sort(Objs(h, c));
    ObjectEntriesKeys(h, c, objs);
    HashPutKeys(ObjectEntries(h, c, objs), output, LinkEntry(c, output, objs));
  }

  /**
   * The entry for the output depends on every object in sorted order, and
   * its rule is the flattened link command.
   */
  lemma ToMakeLinkEntry(h: Host, c: Compiler, output: string)
    ensures HashGet(ToMakeSpec(h, c, output), output)
            == Some(List([List(Strs(Sort(Objs(h, c)))), Str(Spaced(LinkArgs(c, output, Sort(Objs(h, c)))))]))
  {
    var objs := Sort(Objs(h, c));
    HashPutGet(ObjectEntries(h, c, objs), output, LinkEntry(c, output, objs), output);
    LinkRuleFlattens(c, output, objs);
  }

  /**
   * Every object other than the output has its own entry, whose first
   * element (the dependency) is its `.c` source.
   */
  lemma ToMakeObjectEntry(h: Host, c: Compiler, output: string, d: string)
    requires d in Sort(Objs(h, c)) && d != output
    ensures HashGet(ToMakeSpec(h, c, output), d) == Some(ObjectEntry(h, c, d))
    ensures ObjectEntry(h, c, d).items[0] == Str(SubEol(d, ObjectExtension(h), ".c"))
  {
    var objs := Sort(Objs(h, c));
    ObjectEntriesGet(h, c, objs, d);
    HashPutGet(ObjectEntries(h, c, objs), output, LinkEntry(c, output, objs), d);
  }

  /** `-shared` is among the link arguments exactly for a shared library, given the user's parts are not `-shared`. */
  lemma LinkSharedFlag(c: Compiler, output: string, objs: seq<string>)
    requires c.ldflags != "-shared" && c.ldadd != "-shared" && "-shared" !in objs
    ensures "-shared" in LinkArgs(c, output, objs) <==> c.isLibrary && c.isShared
  {
    var a := LinkArgs(c, output, objs);
    if c.isLibrary && c.isShared {
      assert a[2] == "-shared";
    } else {
      assert a == ["$(CC)", "-o " + output, c.ldflags, "$(LDFLAGS)"] + objs + [c.ldadd, "$(LDADD)"];
      forall i | 0 <= i < |a| ensures a[i] != "-shared" {
        if i == 1 {
          assert a[i][1] == 'o';
        } else if 4 <= i < 4 + |objs| {
          assert a[i] == objs[i - 4];
        }
      }
    }
  }

  lemma ObjectEntriesStep(h: Host, c: Compiler, ds: seq<string>, i: nat)
    requires i < |ds|
    ensures ObjectEntries(h, c, ds[..i + 1]) == HashPut(ObjectEntries(h, c, ds[..i]), ds[i], ObjectEntry(h, c, ds[i]))
  {
    assert ds[..i + 1][..i] == ds[..i];
  }

  /** The target of one object: its source and the command that compiles it. */
  method ObjectEntryOf(h: Host, c: Compiler, d: string) returns (entry: RValue)
    ensures entry == ObjectEntry(h, c, d)
  {
    var src := SubEol(d, ObjectExtension(h), ".c");
    var x := if IsWindows(h) then " /Fo" + d else " -o " + d;
    var cmd := Command(c, d);
    entry := List([Str(src), Str(cmd + x + " " + src)]);
  }

  /** The link rule: `$(CC)`, the output and shared flags, the flags, the objects and the libraries. */
  method LinkRuleOf(c: Compiler, output: string, objs: seq<string>) returns (cmd: string)
    ensures cmd == LinkRule(c, output, objs)
  {
    var cflags := ["-o " + output] + (if c.isLibrary && c.isShared then ["-shared"] else []);
    cmd := JoinValues(Flatten([Str("$(CC)"), List(Strs(cflags)), Str(c.ldflags), Str("$(LDFLAGS)"),
                               List(Strs(objs)), Str(c.ldadd), Str("$(LDADD)")]), " ");
  }

  /** `to_make(output)`, filling the hash one object at a time. */
  method ToMake(h: Host, c: Compiler, output: string) returns (res: Hash)
    ensures res == ToMakeSpec(h, c, output)
  {
    var objs := Sort(Objs(h, c));
    res := [];
    var i := 0;
    while i < |objs|
      invariant i <= |objs|
      invariant res == ObjectEntries(h, c, objs[..i])
    {
      var entry := ObjectEntryOf(h, c, objs[i]);
      ObjectEntriesStep(h, c, objs, i);
      res := HashPut(res, objs[i], entry);
      i := i + 1;
    }
    assert objs[..|objs|] == objs;
    var cmd := LinkRuleOf(c, output, objs);
    res := HashPut(res, output, List([List(Strs(objs)), Str(cmd)]));
  }
}
