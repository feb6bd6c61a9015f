// The `Compiler` classes of lib/makeconf/compiler.rb and
// trunk/lib/makeconf/compiler.rb: object names and the command line of
// one compile, link or combined step.
//
// The two files share `object_files` and the shape of `command`; they
// differ in the flags `command` adds, so one `Compiler` value carries its
// generation and `Command` follows that file's branches.

module Compilers {
  import opened Strings
  import opened RubyValues
  import opened Platform
  import opened Patterns
  import opened Linkers

  /** Which file the compiler object comes from. */
  datatype Generation = Lib | Trunk

  /**
   * A compiler object: its generation, `@path` as `search` left it, the
   * machine it runs on, and the text `ld.to_s` gives for its linker (neither
   * Linker class defines `to_s`, so this is Ruby's default object text).
   */
  datatype Compiler = Compiler(gen: Generation, path: string, machine: Machine, ldText: string)

  /** `:stage`; `Unknown` is any other value, including the default `''`. */
  datatype Stage = Compile | Link | Combined | Unknown

  /**
   * The option hash of `command`: `None` is a missing key. `cflags` must be
   * an Array because `command` pushes onto it.
   */
  datatype CommandOptions = CommandOptions(
    output: Option<string>,
    cflags: Option<seq<RValue>>,
    ldflags: Option<RValue>,
    ldadd: Option<RValue>,
    rpath: Option<RValue>,
    stage: Option<Stage>,
    sources: RValue,
    cc: Option<string>)

  const ArgumentError := "ArgumentError"
  const InvalidStage := "invalid stage"
  /** The include directory the Microsoft branch hard-codes. */
  const MsvcInclude := "\"-IC:\\Program Files\\Microsoft Visual Studio 10.0\\VC\\include\""

  /**
   * What `command` needs to run at all: `:sources` answers `count` (a String
   * or an Array) and `:rpath`, when given, answers `length`.
   */
  predicate Callable(o: CommandOptions)
  {
    (o.sources.Str? || o.sources.List?)
    && (o.rpath.None? || o.rpath.value.Str? || o.rpath.value.List?)
  }

  /** `h[:rpath].length > 0`, with the default `''`. */
  predicate RpathGiven(o: CommandOptions)
  {
    o.rpath.Some? && ((o.rpath.value.Str? && |o.rpath.value.s| > 0) || (o.rpath.value.List? && |o.rpath.value.items| > 0))
  }

  /** An option list with its default `[]`. */
  function Listed(v: Option<RValue>): RValue
  {
    if v.Some? then v.value else List([])
  }

  function GivenCflags(o: CommandOptions): seq<RValue>
  {
    if o.cflags.Some? then o.cflags.value else []
  }

  /** The vendor test of the trunk file: `Microsoft` iff the path ends in `cl.exe`, case-insensitively. */
  function Vendor(path: string): (r: string)
    ensures r == "Microsoft" <==> IsClExe(path)
    ensures r == "Microsoft" || r == "Unknown"
  {
    if IsClExe(path) then "Microsoft" else "Unknown"
  }

  predicate Microsoft(c: Compiler)
  {
    c.gen == Trunk && Vendor(c.path) == "Microsoft"
  }

  /** The trunk compiler's own `default_flags`: `-m64` on 64-bit Solaris. */
  function CompilerDefaultWords(m: Machine): seq<string>
  {
    if IsSolaris(m.host) && m.wordSize == 64 then ["-m64"] else []
  }

  /** The flags `command` adds to the caller's cflags. */
  function CompileExtraWords(c: Compiler, out: string): (r: seq<string>)
  {
    match c.gen
    case Lib => [if IsClExe(c.path) then "/Fo" else "-o", out]
    case Trunk =>
      CompilerDefaultWords(c.machine)
      + (if Vendor(c.path) == "Microsoft" then [MsvcInclude, "/Fo" + out, "/MD"] else ["-o", out])
  }

  /** The output flag the link step puts after the caller's ldflags (trunk only). */
  function LinkOutWords(c: Compiler, out: string): seq<string>
  {
    if Vendor(c.path) == "Microsoft" then ["/OUT:\"" + out + "\""] else ["-o", out]
  }

  /** The `ldflags` array `command` builds. */
  function LinkFlags(c: Compiler, o: CommandOptions, out: string): seq<RValue>
  {
    match c.gen
    case Lib => [Str("-o"), Str(out), Listed(o.ldflags)]
    case Trunk => DefaultFlags(c.machine) + [Listed(o.ldflags)] + Strs(LinkOutWords(c, out))
  }

  /** The program of the link step: the compiler, or `LINK.EXE` (or `:cc`) in the trunk file. */
  function LinkDriver(c: Compiler, o: CommandOptions): (r: string)
  {
    match c.gen
    case Lib => c.path
    case Trunk =>
      if Vendor(c.path) == "Microsoft" then "LINK.EXE"
      else if o.cc.Some? then o.cc.value else c.path
  }

  /** The array `res` that `command` flattens and joins. */
  function Parts(c: Compiler, o: CommandOptions, out: string, s: Stage): seq<RValue>
    requires s != Unknown
  {
    var cflags := List(GivenCflags(o) + Strs(CompileExtraWords(c, out)));
    match s
    case Compile => [Str(c.path), Str("-c"), cflags, o.sources]
    case Link => [Str(LinkDriver(c, o)), List(LinkFlags(c, o, out)), Str(c.ldText), o.sources, Listed(o.ldadd)]
    case Combined => [Str(c.path), cflags, List(LinkFlags(c, o, out)), o.sources, Listed(o.ldadd)]
  }

  /**
   * `command(h)`: throws ArgumentError without `:output`, `Unsupported OS`
   * when a non-empty `:rpath` is given on an OS `rpath=` refuses, and
   * `invalid stage` for any stage but compile, link and combined. The
   * "One or more sources are required" guard never fires: `count` is an
   * Integer and every Integer is true in Ruby.
   */
  function Command(c: Compiler, o: CommandOptions): (r: Result<string>)
    requires Callable(o)
    ensures r.Err? <==>
              o.output.None? || (RpathGiven(o) && RpathError(c.machine.host).Some?)
              || o.stage.None? || o.stage == Some(Unknown)
    ensures r.Err? && o.output.None? ==> r.error == ArgumentError
    ensures r.Err? && o.output.Some? && RpathGiven(o) && RpathError(c.machine.host).Some? ==> r.error == UnsupportedOs
    ensures r.Err? && o.output.Some? && !(RpathGiven(o) && RpathError(c.machine.host).Some?) ==> r.error == InvalidStage
  {
    if o.output.None? then Err(ArgumentError)
    else if RpathGiven(o) && RpathError(c.machine.host).Some? then Err(RpathError(c.machine.host).value)
    else if o.stage.None? || o.stage == Some(Unknown) then Err(InvalidStage)
    else Ok(Spaced(Texts(Parts(c, o, o.output.value, o.stage.value))))
  }

  // ---------------------------------------------------------------------
  // The words of each stage
  // ---------------------------------------------------------------------

  /** The words the sources contribute: a String is one input, an Array its leaves. */
  function SourceWords(o: CommandOptions): seq<string>
  {
    Texts([o.sources])
  }

  /** The compile flags as words: the caller's, then what `command` adds. */
  function CompileFlagWords(c: Compiler, o: CommandOptions, out: string): seq<string>
  {
    Texts(GivenCflags(o)) + CompileExtraWords(c, out)
  }

  /** The link flags as words: `-o out` first in the lib file; defaults, ldflags, output in the trunk file. */
  function LinkFlagWords(c: Compiler, o: CommandOptions, out: string): seq<string>
  {
    match c.gen
    case Lib => ["-o", out] + Texts([Listed(o.ldflags)])
    case Trunk => Texts(DefaultFlags(c.machine)) + Texts([Listed(o.ldflags)]) + LinkOutWords(c, out)
  }

  /** A command that does not throw. */
  predicate Runs(c: Compiler, o: CommandOptions)
  {
    Callable(o) && o.output.Some? && !(RpathGiven(o) && RpathError(c.machine.host).Some?)
  }

  lemma TextsOfStrPrefix(a: string, rest: seq<RValue>)
    ensures Texts([Str(a)] + rest) == [a] + Texts(rest)
  {
    TextsAppend([Str(a)], rest);
    TextsOfStr(a);
  }

  lemma TextsOfListPrefix(items: seq<RValue>, rest: seq<RValue>)
    ensures Texts([List(items)] + rest) == Texts(items) + Texts(rest)
  {
    TextsAppend([List(items)], rest);
    TextsOfList(items);
  }

  lemma TextsOfValuePrefix(v: RValue, rest: seq<RValue>)
    ensures Texts([v] + rest) == Texts([v]) + Texts(rest)
  {
    TextsAppend([v], rest);
  }

  lemma CompileFlagTexts(c: Compiler, o: CommandOptions, out: string)
    ensures Texts(GivenCflags(o) + Strs(CompileExtraWords(c, out))) == CompileFlagWords(c, o, out)
  {
    TextsAppend(GivenCflags(o), Strs(CompileExtraWords(c, out)));
    TextsOfStrs(CompileExtraWords(c, out));
  }

  lemma LinkFlagTexts(c: Compiler, o: CommandOptions, out: string)
    ensures Texts(LinkFlags(c, o, out)) == LinkFlagWords(c, o, out)
  {
    match c.gen
    case Lib => LibLinkFlagTexts(c, o, out);
    case Trunk => TrunkLinkFlagTexts(c, o, out);
  }

  lemma LibLinkFlagTexts(c: Compiler, o: CommandOptions, out: string)
    requires c.gen == Lib
    ensures Texts(LinkFlags(c, o, out)) == LinkFlagWords(c, o, out)
  {
    var l := Listed(o.ldflags);
    assert LinkFlags(c, o, out) == [Str("-o")] + ([Str(out)] + [l]);
    TextsOfStrPrefix("-o", [Str(out)] + [l]);
    TextsOfStrPrefix(out, [l]);
  }

  lemma TrunkLinkFlagTexts(c: Compiler, o: CommandOptions, out: string)
    requires c.gen == Trunk
    ensures Texts(LinkFlags(c, o, out)) == LinkFlagWords(c, o, out)
  {
    var l := Listed(o.ldflags);
    var w := LinkOutWords(c, out);
    TextsAppend(DefaultFlags(c.machine) + [l], Strs(w));
    TextsAppend(DefaultFlags(c.machine), [l]);
    TextsOfStrs(w);
  }

  /** `:compile` gives the compiler, `-c`, the compile flags and the inputs. */
  lemma CompileCommandWords(c: Compiler, o: CommandOptions)
    requires Runs(c, o) && o.stage == Some(Compile)
    ensures Command(c, o) == Ok(Spaced([c.path, "-c"] + CompileFlagWords(c, o, o.output.value) + SourceWords(o)))
  {
    var out := o.output.value;
    var cf := GivenCflags(o) + Strs(CompileExtraWords(c, out));
    var parts := Parts(c, o, out, Compile);
    assert Command(c, o) == Ok(Spaced(Texts(parts)));
    assert parts == [Str(c.path)] + ([Str("-c")] + ([List(cf)] + [o.sources]));
    CompileTexts(c.path, cf, o.sources);
    CompileFlagTexts(c, o, out);
  }

  lemma CompileTexts(p: string, cf: seq<RValue>, src: RValue)
    ensures Texts([Str(p)] + ([Str("-c")] + ([List(cf)] + [src]))) == [p, "-c"] + Texts(cf) + Texts([src])
  {
    TextsOfStrPrefix(p, [Str("-c")] + ([List(cf)] + [src]));
    TextsOfStrPrefix("-c", [List(cf)] + [src]);
    TextsOfListPrefix(cf, [src]);
    var a, b := Texts(cf), Texts([src]);
    assert [p] + (["-c"] + (a + b)) == [p, "-c"] + a + b;
  }

  /** `:link` gives the link driver, the link flags, the linker text, the inputs and the libraries. */
  lemma LinkCommandWords(c: Compiler, o: CommandOptions)
    requires Runs(c, o) && o.stage == Some(Link)
    ensures Command(c, o) == Ok(Spaced([LinkDriver(c, o)] + LinkFlagWords(c, o, o.output.value) + [c.ldText]
                                       + SourceWords(o) + Texts([Listed(o.ldadd)])))
  {
    var out := o.output.value;
    var lf := LinkFlags(c, o, out);
    var la := Listed(o.ldadd);
    var parts := Parts(c, o, out, Link);
    assert Command(c, o) == Ok(Spaced(Texts(parts)));
    assert parts == [Str(LinkDriver(c, o))] + ([List(lf)] + ([Str(c.ldText)] + ([o.sources] + [la])));
    LinkTexts(LinkDriver(c, o), lf, c.ldText, o.sources, la);
    LinkFlagTexts(c, o, out);
  }

  lemma LinkTexts(d: string, lf: seq<RValue>, t: string, src: RValue, la: RValue)
    ensures Texts([Str(d)] + ([List(lf)] + ([Str(t)] + ([src] + [la]))))
            == [d] + Texts(lf) + [t] + Texts([src]) + Texts([la])
  {
    TextsOfStrPrefix(d, [List(lf)] + ([Str(t)] + ([src] + [la])));
    TextsOfListPrefix(lf, [Str(t)] + ([src] + [la]));
    TextsOfStrPrefix(t, [src] + [la]);
    TextsOfValuePrefix(src, [la]);
    var a, b, e := Texts(lf), Texts([src]), Texts([la]);
    assert [d] + (a + ([t] + (b + e))) == [d] + a + [t] + b + e;
  }

  /** `:combined` gives the compiler, the compile flags, the link flags, the inputs and the libraries. */
  lemma CombinedCommandWords(c: Compiler, o: CommandOptions)
    requires Runs(c, o) && o.stage == Some(Combined)
    ensures Command(c, o) == Ok(Spaced([c.path] + CompileFlagWords(c, o, o.output.value) + LinkFlagWords(c, o, o.output.value)
                                       + SourceWords(o) + Texts([Listed(o.ldadd)])))
  {
    var out := o.output.value;
    var cf := GivenCflags(o) + Strs(CompileExtraWords(c, out));
    var lf := LinkFlags(c, o, out);
    var la := Listed(o.ldadd);
    var parts := Parts(c, o, out, Combined);
    assert Command(c, o) == Ok(Spaced(Texts(parts)));
    assert parts == [Str(c.path)] + ([List(cf)] + ([List(lf)] + ([o.sources] + [la])));
    CombinedTexts(c.path, cf, lf, o.sources, la);
    CompileFlagTexts(c, o, out);
    LinkFlagTexts(c, o, out);
  }

  lemma CombinedTexts(p: string, cf: seq<RValue>, lf: seq<RValue>, src: RValue, la: RValue)
    ensures Texts([Str(p)] + ([List(cf)] + ([List(lf)] + ([src] + [la]))))
            == [p] + Texts(cf) + Texts(lf) + Texts([src]) + Texts([la])
  {
    var rest := [List(lf)] + ([src] + [la]);
    TextsOfStrPrefix(p, [List(cf)] + rest);
    TextsOfListPrefix(cf, rest);
    TailTexts(lf, src, la);
    Regroup3([p], Texts(cf), Texts(lf) + Texts([src]) + Texts([la]));
    Regroup4([p] + Texts(cf), Texts(lf), Texts([src]), Texts([la]));
  }

  lemma Regroup3<T>(a: seq<T>, b: seq<T>, c: seq<T>)
    ensures a + (b + c) == a + b + c
  {
  }

  lemma Regroup4<T>(a: seq<T>, b: seq<T>, c: seq<T>, d: seq<T>)
    ensures a + (b + c + d) == a + b + c + d
  {
  }

  lemma TailTexts(lf: seq<RValue>, src: RValue, la: RValue)
    ensures Texts([List(lf)] + ([src] + [la])) == Texts(lf) + Texts([src]) + Texts([la])
  {
    TextsOfListPrefix(lf, [src] + [la]);
    TextsOfValuePrefix(src, [la]);
  }

  /**
   * The lib file's output flag: `/Fo` exactly for a path ending in `cl.exe`,
   * otherwise `-o`, each followed by the output as a separate word.
   */
  lemma LibOutputFlag(c: Compiler, out: string)
    requires c.gen == Lib
    ensures CompileExtraWords(c, out) == ["/Fo", out] <==> IsClExe(c.path)
    ensures CompileExtraWords(c, out) == ["-o", out] <==> !IsClExe(c.path)
  {
  }

  /**
   * The trunk file's Microsoft branch: `/Fo<out>` and `/MD` at the end of the
   * compile flags, `/OUT:"<out>"` at the end of the link flags, and `LINK.EXE`
   * as the link driver; any other vendor gets `-o <out>` in both.
   */
  lemma TrunkVendorFlags(c: Compiler, o: CommandOptions, out: string)
    requires c.gen == Trunk
    ensures IsClExe(c.path) ==>
              CompileExtraWords(c, out) == CompilerDefaultWords(c.machine) + [MsvcInclude, "/Fo" + out, "/MD"]
              && LinkOutWords(c, out) == ["/OUT:\"" + out + "\""] && LinkDriver(c, o) == "LINK.EXE"
    ensures !IsClExe(c.path) ==>
              CompileExtraWords(c, out) == CompilerDefaultWords(c.machine) + ["-o", out]
              && LinkOutWords(c, out) == ["-o", out]
              && LinkDriver(c, o) == (if o.cc.Some? then o.cc.value else c.path)
  {
  }

  // ---------------------------------------------------------------------
  // object_files
  // ---------------------------------------------------------------------

  /** A C source name on one line: some stem, any character, then `c`. */
  predicate CSource(s: string)
  {
    |s| >= 2 && s[|s| - 1] == 'c' && '\n' !in s
  }

  /** The object of one source: `src.sub(/.c$/, suffix + object extension)`. */
  function ObjectOf(h: Host, src: string, suffix: string): string
  {
    SubEol(src, ".c", suffix + ObjectExtension(h))
  }

  /** For a C source the last two characters are replaced by the suffix and the extension. */
  lemma ObjectOfCSource(h: Host, src: string, suffix: string)
    requires CSource(src)
    ensures ObjectOf(h, src, suffix) == src[..|src| - 2] + suffix + ObjectExtension(h)
  {
    var stem := src[..|src| - 2];
    assert src == stem + [src[|src| - 2], 'c'];
    ObjectOfSource(stem, src[|src| - 2], suffix + ObjectExtension(h));
  }

  /**
   * `object_files(sources)`: the sources in sorted order, each with a
   * trailing `.c` replaced by the object extension.
   */
  method ObjectFiles(h: Host, sources: seq<string>) returns (res: seq<string>)
    ensures |res| == |sources|
    ensures forall i :: 0 <= i < |res| ==> res[i] == ObjectOf(h, Sort(sources)[i], "")
  {
    var sorted := Sort(sources);
    res := [];
    for i := 0 to |sorted|
      invariant |res| == i
      invariant forall j :: 0 <= j < i ==> res[j] == ObjectOf(h, sorted[j], "")
    {
      res := res + [ObjectOf(h, sorted[i], "")];
    }
  }

  /**
   * A shared and a static object of the same C source never share a name:
   * the static one carries `-static` before the extension.
   */
  lemma StaticObjectsApart(h: Host, src: string)
    requires CSource(src)
    ensures ObjectOf(h, src, "") != ObjectOf(h, src, "-static")
  {
    ObjectOfCSource(h, src, "");
    ObjectOfCSource(h, src, "-static");
    var stem := src[..|src| - 2];
    var e := ObjectExtension(h);
    assert |stem + "" + e| != |stem + "-static" + e|;
  }
}
