/**
 * The Linker of the lib/makeconf generation: an object that records the
 * `-Wl,` options, the libraries to add, the objects and the output name,
 * and renders them as the flags handed to the compiler driver, as a link
 * command or as a Makefile rule.
 *
 * The running system enters as a `Machine` value: the platform predicates,
 * `Platform.word_size` and `Platform.is_x86?`.  A recorded option is a Ruby
 * value, because `flags=` and `library` accept whatever Array the caller
 * passes; rendering one that is neither a String nor an Array of two
 * Strings raises a TypeError in Ruby and is an `Err` here.
 */
module Linkers {
  import opened Strings
  import opened RubyValues
  import opened Platform

  datatype Machine = Machine(host: Host, wordSize: nat, x86: bool)

  const OutputRequired := "Output pathname is required"
  const UnsupportedOs := "Unsupported OS"
  const InvalidFlagType := "Invalid flag type"
  /** What Ruby reports for `String + nil` or `String + Array`. */
  const TypeError := "no implicit conversion into String"

  /** The linker executable: `LINK.EXE` on Windows, `cc` elsewhere. */
  function LinkerPath(h: Host): (r: string)
    ensures r == "LINK.EXE" <==> IsWindows(h)
  {
    if IsWindows(h) then "LINK.EXE" else "cc"
  }

  /** `default_flags`: 64-bit Solaris gets `-m64`, and on x86 also the amd64 run path. */
  function DefaultFlags(m: Machine): (r: seq<RValue>)
    ensures r == [] <==> !(IsSolaris(m.host) && m.wordSize == 64)
    ensures r != [] ==> r[0] == Str("-m64") && (|r| == 2 <==> m.x86)
  {
    if IsSolaris(m.host) && m.wordSize == 64 then
      [Str("-m64")] + (if m.x86 then [Str("-R/usr/sfw/lib/amd64")] else [])
    else []
  }

  // ---------------------------------------------------------------------
  // Rendering of the recorded options
  // ---------------------------------------------------------------------

  /** A recorded option Ruby can render: a String, or an Array whose first two elements are Strings. */
  predicate Renderable(f: RValue)
  {
    f.Str? || (f.List? && |f.items| >= 2 && f.items[0].Str? && f.items[1].Str?)
  }

  /** One recorded option as a driver argument: `-Wl,-name,value` or `-Wl,-name`. */
  function FlagToken(f: RValue): (r: Result<string>)
    ensures r.Ok? <==> Renderable(f)
    ensures r.Err? ==> r.error == TypeError
    ensures r.Ok? ==> StartsWith(r.value, "-Wl,-")
  {
    match f
    case Str(s) => Ok("-Wl,-" + s)
    case List(items) =>
      if |items| >= 2 && items[0].Str? && items[1].Str? then
        Ok("-Wl,-" + items[0].s + "," + items[1].s)
      else Err(TypeError)
    case _ => Err(TypeError)
  }

  /** The tokens of all recorded options, in recording order; the first one Ruby cannot render raises. */
  function RecordedTokens(fs: seq<RValue>): (r: Result<seq<string>>)
    ensures r.Ok? <==> forall i :: 0 <= i < |fs| ==> Renderable(fs[i])
    ensures r.Err? ==> r.error == TypeError
    ensures r.Ok? ==> |r.value| == |fs|
    ensures r.Ok? ==> forall i :: 0 <= i < |fs| ==> r.value[i] == FlagToken(fs[i]).value
    decreases |fs|
  {
    if fs == [] then Ok([])
    else
      var init := fs[..|fs| - 1];
      assert forall i :: 0 <= i < |init| ==> init[i] == fs[i];
      match RecordedTokens(init)
      case Err(e) => Err(e)
      case Ok(ts) =>
        match FlagToken(fs[|fs| - 1])
        case Err(e) => Err(e)
        case Ok(t) => Ok(ts + [t])
  }

  /** Rendering a longer list renders the first part, then the second. */
  lemma {:induction false} RecordedTokensAppend(fs: seq<RValue>, gs: seq<RValue>)
    requires RecordedTokens(fs).Ok?
    ensures RecordedTokens(fs + gs).Ok? <==> RecordedTokens(gs).Ok?
    ensures RecordedTokens(fs + gs).Ok? ==>
      RecordedTokens(fs + gs).value == RecordedTokens(fs).value + RecordedTokens(gs).value
    decreases |gs|
  {
    if gs != [] {
      var init := gs[..|gs| - 1];
      RecordedTokensAppend(fs, init);
      assert (fs + gs)[..|fs + gs| - 1] == fs + init;
      assert (fs + gs)[|fs + gs| - 1] == gs[|gs| - 1];
    } else {
      assert fs + gs == fs;
    }
  }

  /** The output argument: `/OUT:"<out>` on Windows, `-o <out>` elsewhere. */
  function OutputTokens(h: Host, out: string): seq<string>
  {
    if IsWindows(h) then ["/OUT:\"" + out] else ["-o", out]
  }

  /** Shared-library output: `/DLL` on Windows, `-shared -fpic` elsewhere, nothing for other outputs. */
  function SharedTokens(h: Host, shared: bool): seq<string>
  {
    if !shared then [] else if IsWindows(h) then ["/DLL"] else ["-shared", "-fpic"]
  }

  /** The token list `flags` builds: output, shared-library options, `-L .`, then the recorded options. */
  function LinkTokens(h: Host, output: Option<string>, shared: bool, fs: seq<RValue>): (r: Result<seq<string>>)
  {
    if output.None? then Err(OutputRequired)
    else
      match RecordedTokens(fs)
      case Err(e) => Err(e)
      case Ok(ts) => Ok(OutputTokens(h, output.value) + SharedTokens(h, shared) + ["-L", "."] + ts)
  }

  /** `flags`: a space, then the tokens joined by spaces. */
  function FlagsText(h: Host, output: Option<string>, shared: bool, fs: seq<RValue>): (r: Result<string>)
  {
    match LinkTokens(h, output, shared, fs)
    case Err(e) => Err(e)
    case Ok(ts) => Ok(" " + Spaced(ts))
  }

  /** `flags` fails exactly without an output or with an option Ruby cannot render, and says which. */
  lemma FlagsFailure(h: Host, output: Option<string>, shared: bool, fs: seq<RValue>)
    ensures FlagsText(h, output, shared, fs).Err? <==>
      output.None? || exists i :: 0 <= i < |fs| && !Renderable(fs[i])
    ensures output.None? ==> FlagsText(h, output, shared, fs) == Err(OutputRequired)
    ensures output.Some? && FlagsText(h, output, shared, fs).Err? ==>
      FlagsText(h, output, shared, fs) == Err(TypeError)
  {
    if output.Some? && RecordedTokens(fs).Err? {
      var i :| 0 <= i < |fs| && !Renderable(fs[i]);
    }
  }

  /** A string with no white space in it (possibly empty). */
  predicate Spaceless(s: string)
  {
    forall i :: 0 <= i < |s| ==> !IsSpace(s[i])
  }

  /** An option whose rendered token is a single word. */
  predicate PlainFlag(f: RValue)
  {
    (f.Str? && Spaceless(f.s))
    || (f.List? && |f.items| >= 2 && f.items[0].Str? && f.items[1].Str?
        && Spaceless(f.items[0].s) && Spaceless(f.items[1].s))
  }

  lemma SpacelessConcat(a: string, b: string)
    requires Spaceless(a) && Spaceless(b)
    ensures Spaceless(a + b)
  {
    forall i | 0 <= i < |a + b| ensures !IsSpace((a + b)[i]) {
      if i >= |a| {
        assert (a + b)[i] == b[i - |a|];
      }
    }
  }

  lemma PlainFlagWord(f: RValue)
    requires PlainFlag(f)
    ensures IsWord(FlagToken(f).value)
  {
    assert Spaceless("-Wl,-");
    assert Spaceless(",");
    if f.Str? {
      SpacelessConcat("-Wl,-", f.s);
    } else {
      SpacelessConcat("-Wl,-", f.items[0].s);
      SpacelessConcat("-Wl,-" + f.items[0].s, ",");
      SpacelessConcat("-Wl,-" + f.items[0].s + ",", f.items[1].s);
    }
  }

  /** The fixed head of the flags is made of single words when the output name is one. */
  lemma HeadWords(h: Host, out: string, shared: bool)
    requires IsWord(out)
    ensures AllWords(OutputTokens(h, out) + SharedTokens(h, shared) + ["-L", "."])
  {
    assert IsWord("-L") && IsWord(".") && IsWord("-o");
    assert IsWord("/DLL") && IsWord("-shared") && IsWord("-fpic");
    assert Spaceless("/OUT:\"");
    SpacelessConcat("/OUT:\"", out);
    assert IsWord("/OUT:\"" + out);
  }

  lemma RecordedWords(fs: seq<RValue>)
    requires forall i :: 0 <= i < |fs| ==> PlainFlag(fs[i])
    ensures RecordedTokens(fs).Ok? && AllWords(RecordedTokens(fs).value)
  {
    forall i | 0 <= i < |fs| ensures IsWord(RecordedTokens(fs).value[i]) {
      PlainFlagWord(fs[i]);
    }
  }

  lemma AllWordsConcat(a: seq<string>, b: seq<string>)
    requires AllWords(a) && AllWords(b)
    ensures AllWords(a + b)
  {
    forall i | 0 <= i < |a + b| ensures IsWord((a + b)[i]) {
      if i >= |a| {
        assert (a + b)[i] == b[i - |a|];
      }
    }
  }

  /**
   * With a one-word output name and single-word options, the flags split
   * back into exactly the tokens: the output argument, the shared-library
   * options, `-L .`, then one word per recorded option in recording order.
   */
  lemma FlagsWords(h: Host, out: string, shared: bool, fs: seq<RValue>)
    requires IsWord(out) && forall i :: 0 <= i < |fs| ==> PlainFlag(fs[i])
    ensures FlagsText(h, Some(out), shared, fs).Ok?
    ensures Words(FlagsText(h, Some(out), shared, fs).value)
      == OutputTokens(h, out) + SharedTokens(h, shared) + ["-L", "."] + RecordedTokens(fs).value
  {
    RecordedWords(fs);
    HeadWords(h, out, shared);
    var hd := OutputTokens(h, out) + SharedTokens(h, shared) + ["-L", "."];
    var ts := hd + RecordedTokens(fs).value;
    AllWordsConcat(hd, RecordedTokens(fs).value);
    assert FlagsText(h, Some(out), shared, fs) == Ok(" " + Spaced(ts));
    WordsOfSpaced(ts);
    WordsConcat(" ", Spaced(ts));
    assert Words(" ") == Words(" "[1..]);
  }

  // ---------------------------------------------------------------------
  // What the recording operations add
  // ---------------------------------------------------------------------

  /** `soname(s)`: `['soname', s]`, except on Windows. */
  function SonameFlags(h: Host, s: string): seq<RValue>
  {
    if IsWindows(h) then [] else [List([Str("soname"), Str(s)])]
  }

  /** `export_dynamic`: `'export-dynamic'`, except on Windows. */
  function ExportDynamicFlags(h: Host): seq<RValue>
  {
    if IsWindows(h) then [] else [Str("export-dynamic")]
  }

  /** `rpath=`: `['R', dir]` on Solaris, `['-rpath', dir]` on Linux, each followed by `['-L', dir]`. */
  function RpathFlags(h: Host, dir: string): seq<RValue>
  {
    if IsSolaris(h) then [List([Str("R"), Str(dir)]), List([Str("-L"), Str(dir)])]
    else if IsLinux(h) then [List([Str("-rpath"), Str(dir)]), List([Str("-L"), Str(dir)])]
    else []
  }

  /** `rpath=` throws on an OS that is neither Solaris, Linux nor Windows. */
  function RpathError(h: Host): Option<string>
  {
    if IsSolaris(h) || IsLinux(h) || IsWindows(h) then None else Some(UnsupportedOs)
  }

  /** Recording one more renderable option appends its token. */
  lemma RecordedTokensSnoc(fs: seq<RValue>, g: RValue)
    requires RecordedTokens(fs).Ok? && Renderable(g)
    ensures RecordedTokens(fs + [g]) == Ok(RecordedTokens(fs).value + [FlagToken(g).value])
  {
    assert (fs + [g])[..|fs|] == fs;
  }

  /** Two recorded pairs `[name, dir]` and `['-L', dir]` render as two options after the earlier ones. */
  lemma PairsRendered(fs: seq<RValue>, name: string, dir: string)
    requires RecordedTokens(fs).Ok?
    ensures RecordedTokens(fs + [List([Str(name), Str(dir)]), List([Str("-L"), Str(dir)])])
      == Ok(RecordedTokens(fs).value + ["-Wl,-" + name + "," + dir, "-Wl,-" + "-L" + "," + dir])
  {
    var g1 := List([Str(name), Str(dir)]);
    var g2 := List([Str("-L"), Str(dir)]);
    RecordedTokensSnoc(fs, g1);
    RecordedTokensSnoc(fs + [g1], g2);
    assert fs + [g1] + [g2] == fs + [g1, g2];
    var ts := RecordedTokens(fs).value;
    var t1, t2 := FlagToken(g1).value, FlagToken(g2).value;
    assert t1 == "-Wl,-" + name + "," + dir && t2 == "-Wl,-" + "-L" + "," + dir;
    assert ts + [t1] + [t2] == ts + [t1, t2];
  }

  /** The run path reaches the link as the two options the platform's linker understands. */
  lemma RpathRendered(h: Host, fs: seq<RValue>, dir: string)
    requires RecordedTokens(fs).Ok?
    ensures RecordedTokens(fs + RpathFlags(h, dir)).Ok?
    ensures IsSolaris(h) ==>
      RecordedTokens(fs + RpathFlags(h, dir)).value == RecordedTokens(fs).value + ["-Wl,-R," + dir, "-Wl,--L," + dir]
    ensures !IsSolaris(h) && IsLinux(h) ==>
      RecordedTokens(fs + RpathFlags(h, dir)).value == RecordedTokens(fs).value + ["-Wl,--rpath," + dir, "-Wl,--L," + dir]
    ensures !IsSolaris(h) && !IsLinux(h) ==> RecordedTokens(fs + RpathFlags(h, dir)) == RecordedTokens(fs)
  {
    assert "-Wl,-" + "-L" + "," == "-Wl,--L,";
    if IsSolaris(h) {
      PairsRendered(fs, "R", dir);
      assert "-Wl,-" + "R" + "," == "-Wl,-R,";
    } else if IsLinux(h) {
      PairsRendered(fs, "-rpath", dir);
      assert "-Wl,-" + "-rpath" + "," == "-Wl,--rpath,";
    } else {
      assert fs + RpathFlags(h, dir) == fs;
    }
  }

  /** The soname reaches the link as `-Wl,-soname,<s>` after the options recorded before it. */
  lemma SonameRendered(h: Host, fs: seq<RValue>, s: string)
    requires RecordedTokens(fs).Ok? && !IsWindows(h)
    ensures RecordedTokens(fs + SonameFlags(h, s)) == Ok(RecordedTokens(fs).value + ["-Wl,-soname," + s])
  {
    var g := List([Str("soname"), Str(s)]);
    assert SonameFlags(h, s) == [g];
    PairToken("soname", s);
    SonameText(s);
    RecordedTokensSnoc(fs, g);
  }

  /** A recorded pair `[name, value]` renders as `-Wl,-name,value`. */
  lemma PairToken(name: string, value: string)
    ensures FlagToken(List([Str(name), Str(value)])) == Ok("-Wl,-" + name + "," + value)
  {
  }

  lemma SonameText(s: string)
    ensures "-Wl,-" + "soname" + "," + s == "-Wl,-soname," + s
  {
  }

  /** What an Array or a space-separated String argument stands for: its elements, or its words. */
  function ListOrWords(v: RValue): seq<RValue>
  {
    match v
    case List(items) => items
    case Str(s) => Strs(Words(s))
    case _ => []
  }

  /** One `-Wl,-<word>` option per word. */
  function WordOptions(ws: seq<string>): (r: seq<string>)
    ensures |r| == |ws| && forall i :: 0 <= i < |ws| ==> r[i] == "-Wl,-" + ws[i]
  {
    seq(|ws|, i requires 0 <= i < |ws| => "-Wl,-" + ws[i])
  }

  lemma WordsRendered(fs: seq<RValue>, ws: seq<string>)
    requires RecordedTokens(fs).Ok?
    ensures RecordedTokens(fs + Strs(ws)) == Ok(RecordedTokens(fs).value + WordOptions(ws))
  {
    RecordedTokensAppend(fs, Strs(ws));
    assert RecordedTokens(Strs(ws)).value == WordOptions(ws);
  }

  /** Every word of a String given to `flags=` becomes its own `-Wl,-<word>` option, after the defaults. */
  lemma StringFlagsRendered(m: Machine, s: string)
    ensures RecordedTokens(DefaultFlags(m) + ListOrWords(Str(s)))
      == Ok(RecordedTokens(DefaultFlags(m)).value + WordOptions(Words(s)))
  {
    WordsRendered(DefaultFlags(m), Words(s));
  }

  // ---------------------------------------------------------------------
  // Command and rule
  // ---------------------------------------------------------------------

  /** `flatten.join(' ')` of a concatenation. */
  lemma TextsAppend(xs: seq<RValue>, ys: seq<RValue>)
    ensures Texts(xs + ys) == Texts(xs) + Texts(ys)
  {
    FlattenAppend(xs, ys);
  }

  lemma TextsOfStr(a: string)
    ensures Texts([Str(a)]) == [a]
  {
    FlattenCons(Str(a), []);
    assert [Str(a)] + [] == [Str(a)];
  }

  lemma TextsOfList(items: seq<RValue>)
    ensures Texts([List(items)]) == Texts(items)
  {
    FlattenCons(List(items), []);
    assert [List(items)] + [] == [List(items)];
    assert Flatten([List(items)]) == Flatten(items);
  }

  /** `[a, b, list1, list2].flatten.join(' ')` as words. */
  lemma TextsOfCommand(a: string, b: string, objects: seq<RValue>, ldadd: seq<RValue>)
    ensures Texts([Str(a), Str(b), List(objects), List(ldadd)])
      == [a, b] + Texts(objects) + Texts(ldadd)
  {
    assert [Str(a), Str(b), List(objects), List(ldadd)] == [Str(a)] + [Str(b)] + [List(objects)] + [List(ldadd)];
    TextsAppend([Str(a)] + [Str(b)] + [List(objects)], [List(ldadd)]);
    TextsAppend([Str(a)] + [Str(b)], [List(objects)]);
    TextsAppend([Str(a)], [Str(b)]);
    TextsOfStr(a);
    TextsOfStr(b);
    TextsOfList(objects);
    TextsOfList(ldadd);
  }

  /** `['$(LD)', flags, '$(LDFLAGS)', objects, ldadd, '$(LDADD)'].flatten.join(' ')` as words. */
  lemma TextsOfRule(t: string, objects: seq<RValue>, ldadd: seq<RValue>)
    ensures Texts([Str("$(LD)"), Str(t), Str("$(LDFLAGS)"), List(objects), List(ldadd), Str("$(LDADD)")])
      == ["$(LD)", t, "$(LDFLAGS)"] + Texts(objects) + Texts(ldadd) + ["$(LDADD)"]
  {
    var a, c, d := Str("$(LD)"), Str("$(LDFLAGS)"), Str("$(LDADD)");
    assert [a, Str(t), c, List(objects), List(ldadd), d] == [a] + [Str(t)] + [c] + [List(objects)] + [List(ldadd)] + [d];
    TextsAppend([a] + [Str(t)] + [c] + [List(objects)] + [List(ldadd)], [d]);
    TextsAppend([a] + [Str(t)] + [c] + [List(objects)], [List(ldadd)]);
    TextsAppend([a] + [Str(t)] + [c], [List(objects)]);
    TextsAppend([a] + [Str(t)], [c]);
    TextsAppend([a], [Str(t)]);
    TextsOfStr("$(LD)");
    TextsOfStr(t);
    TextsOfStr("$(LDFLAGS)");
    TextsOfStr("$(LDADD)");
    TextsOfList(objects);
    TextsOfList(ldadd);
  }

  /** `command`: the linker, its flags, every object and every library, then dev_null when quiet. */
  function CommandText(h: Host, path: string, output: Option<string>, shared: bool, fs: seq<RValue>,
                       objects: seq<RValue>, ldadd: seq<RValue>, quiet: bool): Result<string>
  {
    match FlagsText(h, output, shared, fs)
    case Err(e) => Err(e)
    case Ok(t) => Ok(Spaced([path, t] + Texts(objects) + Texts(ldadd)) + (if quiet then DevNull(h) else ""))
  }

  /** `rule`: `$(LD)`, the flags, `$(LDFLAGS)`, the objects, the libraries and `$(LDADD)`. */
  function RuleText(h: Host, output: Option<string>, shared: bool, fs: seq<RValue>,
                    objects: seq<RValue>, ldadd: seq<RValue>): Result<string>
  {
    match FlagsText(h, output, shared, fs)
    case Err(e) => Err(e)
    case Ok(t) => Ok(Spaced(["$(LD)", t, "$(LDFLAGS)"] + Texts(objects) + Texts(ldadd) + ["$(LDADD)"]))
  }

  // ---------------------------------------------------------------------
  // The Linker object
  // ---------------------------------------------------------------------

  class Linker {
    const machine: Machine
    const path: string
    var flags: seq<RValue>
    var objects: seq<RValue>
    var output: Option<string>
    var sharedLibrary: bool
    var ldadd: seq<RValue>
    var quiet: bool

    constructor (m: Machine)
      ensures machine == m && path == LinkerPath(m.host)
      ensures flags == [] && objects == [] && output == None
      ensures !sharedLibrary && ldadd == [] && !quiet
    {
      machine := m;
      path := LinkerPath(m.host);
      flags := [];
      objects := [];
      output := None;
      sharedLibrary := false;
      ldadd := [];
      quiet := false;
    }

    method Soname(s: string)
      modifies this`flags
      ensures flags == old(flags) + SonameFlags(machine.host, s)
    {
      if !IsWindows(machine.host) {
        flags := flags + [List([Str("soname"), Str(s)])];
      }
    }

    method ExportDynamic()
      modifies this`flags
      ensures flags == old(flags) + ExportDynamicFlags(machine.host)
    {
      if !IsWindows(machine.host) {
        flags := flags + [Str("export-dynamic")];
      }
    }

    /** `rpath=`; on an unsupported OS it throws before recording anything. */
    method SetRpath(dir: string) returns (err: Option<string>)
      modifies this`flags
      ensures err == RpathError(machine.host)
      ensures flags == old(flags) + RpathFlags(machine.host, dir)
    {
      if IsSolaris(machine.host) {
        flags := flags + [List([Str("R"), Str(dir)])];
      } else if IsLinux(machine.host) {
        flags := flags + [List([Str("-rpath"), Str(dir)])];
      } else if IsWindows(machine.host) {
        return None;
      } else {
        return Some(UnsupportedOs);
      }
      flags := flags + [List([Str("-L"), Str(dir)])];
      err := None;
    }

    method Flags() returns (r: Result<string>)
      ensures r == FlagsText(machine.host, output, sharedLibrary, flags)
    {
      if output.None? {
        return Err(OutputRequired);
      }
      var h := machine.host;
      var tok := OutputTokens(h, output.value);
      if sharedLibrary {
        if IsWindows(h) {
          tok := tok + ["/DLL"];
        } else {
          tok := tok + ["-shared"];
          tok := tok + ["-fpic"];
        }
      }
      tok := tok + ["-L", "."];
      ghost var head := tok;
      assert head == OutputTokens(h, output.value) + SharedTokens(h, sharedLibrary) + ["-L", "."];
      var i := 0;
      while i < |flags|
        invariant 0 <= i <= |flags|
        invariant RecordedTokens(flags[..i]).Ok?
        invariant tok == head + RecordedTokens(flags[..i]).value
      {
        var t := FlagToken(flags[i]);
        if t.Err? {
          return Err(t.error);
        }
        assert flags[..i + 1][..i] == flags[..i];
        tok := tok + [t.value];
        i := i + 1;
      }
      assert flags[..i] == flags;
      return Ok(" " + Spaced(tok));
    }

    method Command() returns (r: Result<string>)
      ensures r == CommandText(machine.host, path, output, sharedLibrary, flags, objects, ldadd, quiet)
    {
      var f := Flags();
      if f.Err? {
        return Err(f.error);
      }
      TextsOfCommand(path, f.value, objects, ldadd);
      var cmd := Spaced(Texts([Str(path), Str(f.value), List(objects), List(ldadd)]));
      if quiet {
        cmd := cmd + DevNull(machine.host);
      } else {
        assert cmd + "" == cmd;
      }
      return Ok(cmd);
    }

    method Rule() returns (r: Result<string>)
      ensures r == RuleText(machine.host, output, sharedLibrary, flags, objects, ldadd)
    {
      var f := Flags();
      if f.Err? {
        return Err(f.error);
      }
      TextsOfRule(f.value, objects, ldadd);
      return Ok(Spaced(Texts([Str("$(LD)"), Str(f.value), Str("$(LDFLAGS)"), List(objects), List(ldadd), Str("$(LDADD)")])));
    }

    /** `flags=`: back to the default options, then the given ones; the reset happens even when it throws. */
    method SetFlags(tok: RValue) returns (err: Option<string>)
      modifies this`flags
      ensures err == (if tok.List? || tok.Str? then None else Some(InvalidFlagType))
      ensures flags == DefaultFlags(machine) + ListOrWords(tok)
    {
      flags := DefaultFlags(machine);
      if tok.List? {
        flags := flags + tok.items;
      } else if tok.Str? {
        flags := flags + Strs(Words(tok.s));
      } else {
        return Some(InvalidFlagType);
      }
      err := None;
    }

    /** `library`: appends an Array's elements or a String's words to the libraries to link. */
    method AddLibrary(lib: RValue) returns (err: Option<string>)
      modifies this`ldadd
      ensures err == (if lib.List? || lib.Str? then None else Some("Invalid value: " + ClassName(lib)))
      ensures ldadd == old(ldadd) + ListOrWords(lib)
    {
      if lib.List? {
        ldadd := ldadd + lib.items;
      } else if lib.Str? {
        ldadd := ldadd + Strs(Words(lib.s));
      } else {
        return Some("Invalid value: " + ClassName(lib));
      }
      err := None;
    }
  }

  // ---------------------------------------------------------------------
  // The Windows output option
  // ---------------------------------------------------------------------

  /** How often `c` occurs in `s`. */
  function Occurrences(s: string, c: char): nat
  {
    if s == [] then 0 else (if s[0] == c then 1 else 0) + Occurrences(s[1..], c)
  }

  lemma {:induction false} OccurrencesConcat(a: string, b: string, c: char)
    ensures Occurrences(a + b, c) == Occurrences(a, c) + Occurrences(b, c)
    decreases |a|
  {
    if a == [] {
      assert a + b == b;
    } else {
      OccurrencesConcat(a[1..], b, c);
      assert (a + b)[1..] == a[1..] + b;
    }
  }

  lemma {:induction false} OccurrencesAbsent(s: string, c: char)
    requires c !in s
    ensures Occurrences(s, c) == 0
    decreases |s|
  {
    if s != [] {
      OccurrencesAbsent(s[1..], c);
    }
  }

  /** As written, the Windows output option opens a double quote that nothing closes. */
  lemma OutTokenUnclosed(h: Host, out: string)
    requires IsWindows(h) && '"' !in out
    ensures Occurrences(OutputTokens(h, out)[0], '"') == 1
  {
    OccurrencesConcat("/OUT:\"", out, '"');
    OccurrencesAbsent(out, '"');
    assert "/OUT:\""[1..][1..][1..][1..][1..] == "\"";
  }

  /** The output option with its quote closed, `/OUT:"<out>"`. */
  function QuotedOutToken(out: string): string
  {
    "/OUT:\"" + out + "\""
  }

  /** The closed option holds exactly one pair of double quotes, around the output name. */
  lemma QuotedOutTokenBalanced(out: string)
    requires '"' !in out
    ensures Occurrences(QuotedOutToken(out), '"') == 2
    ensures QuotedOutToken(out)[6..|QuotedOutToken(out)| - 1] == out
  {
    OccurrencesConcat("/OUT:\"", out, '"');
    OccurrencesConcat("/OUT:\"" + out, "\"", '"');
    OccurrencesAbsent(out, '"');
    assert "/OUT:\""[1..][1..][1..][1..][1..] == "\"";
    assert "\""[1..] == [];
  }
}
