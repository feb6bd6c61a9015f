/**
 * The Linker of the trunk/lib/makeconf generation.  It records the same
 * options as the later generation and renders them the same way, but its
 * flags carry no shared-library options, it keeps no objects or libraries,
 * its `command` is a stub that throws, and `flags=` with a String pushes the
 * split words as ONE nested element.
 */
module TrunkLinkers {
  import opened Strings
  import opened RubyValues
  import opened Platform
  import opened Linkers

  /** The token list `flags` builds: the output argument, `-L .`, then the recorded options. */
  function TrunkLinkTokens(h: Host, output: Option<string>, fs: seq<RValue>): (r: Result<seq<string>>)
    ensures r == LinkTokens(h, output, false, fs)
  {
    if output.None? then Err(OutputRequired)
    else
      match RecordedTokens(fs)
      case Err(e) => Err(e)
      case Ok(ts) =>
        assert OutputTokens(h, output.value) + SharedTokens(h, false) == OutputTokens(h, output.value);
        Ok(OutputTokens(h, output.value) + ["-L", "."] + ts)
  }

  /** `flags`: a space, then the tokens joined by spaces. */
  function TrunkFlagsText(h: Host, output: Option<string>, fs: seq<RValue>): (r: Result<string>)
    ensures r == FlagsText(h, output, false, fs)
  {
    match TrunkLinkTokens(h, output, fs)
    case Err(e) => Err(e)
    case Ok(ts) => Ok(" " + Spaced(ts))
  }

  /** What `flags=` adds after the defaults: an Array's elements, or a String's words as one nested Array. */
  function AssignedFlags(tok: RValue): seq<RValue>
  {
    match tok
    case List(items) => items
    case Str(s) => [List(Strs(Words(s)))]
    case _ => []
  }

  class Linker {
    const machine: Machine
    const path: string
    var flags: seq<RValue>
    var output: Option<string>

    constructor (m: Machine)
      ensures machine == m && path == LinkerPath(m.host)
      ensures flags == [] && output == None
    {
      machine := m;
      path := LinkerPath(m.host);
      flags := [];
      output := None;
    }

    method Soname(s: string)
      modifies this`flags
      ensures flags == old(flags) + SonameFlags(machine.host, s)
    {
      if !IsWindows(machine.host) {
        flags := flags + [List([Str("soname"), Str(s)])];
      }
    }

    method ExportDynamic()
      modifies this`flags
      ensures flags == old(flags) + ExportDynamicFlags(machine.host)
    {
      if !IsWindows(machine.host) {
        flags := flags + [Str("export-dynamic")];
      }
    }

    /** `rpath=`; on an unsupported OS it throws before recording anything. */
    method SetRpath(dir: string) returns (err: Option<string>)
      modifies this`flags
      ensures err == RpathError(machine.host)
      ensures flags == old(flags) + RpathFlags(machine.host, dir)
    {
      if IsSolaris(machine.host) {
        flags := flags + [List([Str("R"), Str(dir)])];
      } else if IsLinux(machine.host) {
        flags := flags + [List([Str("-rpath"), Str(dir)])];
      } else if IsWindows(machine.host) {
        return None;
      } else {
        return Some(UnsupportedOs);
      }
      flags := flags + [List([Str("-L"), Str(dir)])];
      err := None;
    }

    method Flags() returns (r: Result<string>)
      ensures r == TrunkFlagsText(machine.host, output, flags)
    {
      if output.None? {
        return Err(OutputRequired);
      }
      var tok := OutputTokens(machine.host, output.value);
      tok := tok + ["-L", "."];
      ghost var head := tok;
      var i := 0;
      while i < |flags|
        invariant 0 <= i <= |flags|
        invariant RecordedTokens(flags[..i]).Ok?
        invariant tok == head + RecordedTokens(flags[..i]).value
      {
        var t := FlagToken(flags[i]);
        if t.Err? {
          return Err(t.error);
        }
        assert flags[..i + 1][..i] == flags[..i];
        tok := tok + [t.value];
        i := i + 1;
      }
      assert flags[..i] == flags;
      return Ok(" " + Spaced(tok));
    }

    /** `command` is an unfinished stub that throws. */
    method Command() returns (r: Result<string>)
      ensures r == Err("stub")
    {
      return Err("stub");
    }

    /** `flags=`: back to the default options, then the given ones; the reset happens even when it throws. */
    method SetFlags(tok: RValue) returns (err: Option<string>)
      modifies this`flags
      ensures err == (if tok.List? || tok.Str? then None else Some(InvalidFlagType))
      ensures flags == DefaultFlags(machine) + AssignedFlags(tok)
    {
      flags := DefaultFlags(machine);
      if tok.List? {
        flags := flags + tok.items;
      } else if tok.Str? {
        flags := flags + [List(Strs(Words(tok.s)))];
      } else {
        return Some(InvalidFlagType);
      }
      err := None;
    }
  }

  /**
   * A String of one word given to `flags=` makes the next `flags` call
   * raise: the nested one-element Array has no second element to append.
   */
  lemma OneWordFlagsFail(m: Machine, w: string, output: string)
    requires IsWord(w)
    ensures TrunkFlagsText(m.host, Some(output), DefaultFlags(m) + AssignedFlags(Str(w))) == Err(TypeError)
  {
    WordsOfWord(w);
    var fs := DefaultFlags(m) + AssignedFlags(Str(w));
    assert !Renderable(fs[|fs| - 1]);
  }

  /**
   * A String of three words given to `flags=` renders as a single option
   * built from the first two words; the third is dropped.
   */
  lemma ThreeWordFlagsLoseThird(m: Machine, a: string, b: string, c: string)
    requires IsWord(a) && IsWord(b) && IsWord(c)
    ensures RecordedTokens(DefaultFlags(m) + AssignedFlags(Str(a + " " + b + " " + c)))
      == Ok(RecordedTokens(DefaultFlags(m)).value + ["-Wl,-" + a + "," + b])
  {
    WordsAppendWord(a + " " + b, c);
    WordsAppendWord(a, b);
    WordsOfWord(a);
    assert Words(a + " " + b + " " + c) == [a, b, c];
    var g := List(Strs([a, b, c]));
    assert AssignedFlags(Str(a + " " + b + " " + c)) == [g];
    RecordedTokensAppend(DefaultFlags(m), [g]);
    assert RecordedTokens([g]).value[0] == "-Wl,-" + a + "," + b;
  }
}
