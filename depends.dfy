// The header dependencies of a Buildable: `Compiler#makedepends` of
// lib/makeconf/compiler.rb and of trunk/lib/makeconf/compiler.rb.
//
// For every source the compiler is run as a preprocessor; each line marker
// `# <n> "<path>.h"` of its output names a local header.  The source and
// those local headers that exist are then read, and every `#include <...>`
// line names a system header.  Both lists are kept sorted and without
// repetition.  The preprocessor run and the file system are parameters:
// `popen` maps a command to the lines it prints, `files` maps each readable
// path to its lines.

module CompilerDepends {
  import opened Strings
  import opened RubyValues
  import opened Platform
  import opened Headers
  import opened Linkers
  import opened Compilers
  import Buildables
  import TrunkBuildables
  import CompilerBuilds

  // ---------------------------------------------------------------------
  // The preprocessor command
  // ---------------------------------------------------------------------

  /** `command(:stage => :compile, :output => '-', :sources => src, :cflags => [cflags, '-E'])` */
  function PreprocessOptions(cflags: RValue, src: string): CommandOptions
  {
    CommandOptions(Some("-"), Some([cflags, Str("-E")]), None, None, None, Some(Compile), Str(src), None)
  }

  /** The preprocessor command of one source, its errors sent to the null device. */
  function PreprocessCommand(c: Compiler, cflags: RValue, src: string): string
  {
    Command(c, PreprocessOptions(cflags, src)).value + DevNullStderr(c.machine.host)
  }

  /**
   * The preprocessor command is the compile command of the source with `-E`
   * after the Buildable's flags, writing to `-`, and never throws.
   */
  lemma PreprocessWords(c: Compiler, cflags: RValue, src: string)
    ensures Command(c, PreprocessOptions(cflags, src)).Ok?
    ensures PreprocessCommand(c, cflags, src) ==
              Spaced([c.path, "-c"] + Texts([cflags]) + ["-E"] + CompileExtraWords(c, "-") + [src])
              + DevNullStderr(c.machine.host)
  {
    var o := PreprocessOptions(cflags, src);
    CompileCommandWords(c, o);
    TextsAppend([cflags], [Str("-E")]);
    TextsOfStr("-E");
    TextsOfStr(src);
    var extra := CompileExtraWords(c, "-");
    assert CompileFlagWords(c, o, "-") == Texts([cflags]) + ["-E"] + extra;
    Regroup4([c.path, "-c"], Texts([cflags]), ["-E"], extra);
  }

  // ---------------------------------------------------------------------
  // Local headers: the line markers of the preprocessor output
  // ---------------------------------------------------------------------

  /** `b.localdep[src]` after the scan of the preprocessor output. */
  function LocalHeaders(c: Compiler, cflags: RValue, popen: string -> seq<string>, src: string): seq<string>
  {
    SortedHeaders(popen(PreprocessCommand(c, cflags, src)), Marker)
  }

  /**
   * A local header is a relative `.h` path that some line marker of the
   * preprocessor output names.
   */
  lemma LocalHeaderFrom(c: Compiler, cflags: RValue, popen: string -> seq<string>, src: string, x: string)
    returns (i: nat)
    requires x in LocalHeaders(c, cflags, popen, src)
    ensures var out := popen(PreprocessCommand(c, cflags, src));
            i < |out| && MarkedHeader(out[i]) == Some(x)
    ensures |x| >= 3 && x[0] != '/' && x[0] != '<' && EndsWith(x, ".h")
  {
    var out := popen(PreprocessCommand(c, cflags, src));
    i := CapturedFrom(out, Marker, x);
  }

  /** Every header a line marker of the preprocessor output names is a local header. */
  lemma LocalHeaderOfLine(c: Compiler, cflags: RValue, popen: string -> seq<string>, src: string, i: nat)
    requires i < |popen(PreprocessCommand(c, cflags, src))|
    requires MarkedHeader(popen(PreprocessCommand(c, cflags, src))[i]).Some?
    ensures MarkedHeader(popen(PreprocessCommand(c, cflags, src))[i]).value in LocalHeaders(c, cflags, popen, src)
  {
    CapturesLine(popen(PreprocessCommand(c, cflags, src)), Marker, i);
  }

  /** The lists one after the other: what `res.concat` builds. */
  function Joined(parts: seq<seq<string>>): seq<string>
  {
    if parts == [] then [] else Joined(parts[..|parts| - 1]) + parts[|parts| - 1]
  }

  lemma JoinedSnoc(parts: seq<seq<string>>, p: seq<string>)
    ensures Joined(parts + [p]) == Joined(parts) + p
  {
    assert (parts + [p])[..|parts|] == parts;
  }

  /** A name in the joined lists is in one of them. */
  lemma {:induction false} JoinedFrom(parts: seq<seq<string>>, x: string) returns (i: nat)
    requires x in Joined(parts)
    ensures i < |parts| && x in parts[i]
    decreases |parts|
  {
    var init := parts[..|parts| - 1];
    if x in Joined(init) {
      i := JoinedFrom(init, x);
    } else {
      i := |parts| - 1;
    }
  }

  /** A name in one of the lists is in the joined lists. */
  lemma {:induction false} JoinedOf(parts: seq<seq<string>>, i: nat, x: string)
    requires i < |parts| && x in parts[i]
    ensures x in Joined(parts)
    decreases |parts|
  {
    var init := parts[..|parts| - 1];
    if i < |parts| - 1 {
      JoinedOf(init, i, x);
    }
  }

  /** The local headers of each source, in source order. */
  function LocalHeaderLists(c: Compiler, cflags: RValue, popen: string -> seq<string>, srcs: seq<string>)
    : (r: seq<seq<string>>)
    ensures |r| == |srcs|
  {
    if srcs == [] then []
    else LocalHeaderLists(c, cflags, popen, srcs[..|srcs| - 1]) + [LocalHeaders(c, cflags, popen, srcs[|srcs| - 1])]
  }

  lemma {:induction false} LocalHeaderListsAt(c: Compiler, cflags: RValue, popen: string -> seq<string>, srcs: seq<string>, i: nat)
    requires i < |srcs|
    ensures LocalHeaderLists(c, cflags, popen, srcs)[i] == LocalHeaders(c, cflags, popen, srcs[i])
    decreases |srcs|
  {
    var init := srcs[..|srcs| - 1];
    if i < |srcs| - 1 {
      LocalHeaderListsAt(c, cflags, popen, init, i);
    }
  }

  /** `res`: the local headers of every source in turn, repetitions across sources kept. */
  function AllLocalHeaders(c: Compiler, cflags: RValue, popen: string -> seq<string>, srcs: seq<string>): seq<string>
  {
    Joined(LocalHeaderLists(c, cflags, popen, srcs))
  }

  /** A name in the result is a local header of some source. */
  lemma AllLocalHeadersFrom(c: Compiler, cflags: RValue, popen: string -> seq<string>, srcs: seq<string>, x: string)
    returns (i: nat)
    requires x in AllLocalHeaders(c, cflags, popen, srcs)
    ensures i < |srcs| && x in LocalHeaders(c, cflags, popen, srcs[i])
  {
    i := JoinedFrom(LocalHeaderLists(c, cflags, popen, srcs), x);
    LocalHeaderListsAt(c, cflags, popen, srcs, i);
  }

  /** Every local header of every source is in the result. */
  lemma AllLocalHeadersOf(c: Compiler, cflags: RValue, popen: string -> seq<string>, srcs: seq<string>, i: nat, x: string)
    requires i < |srcs| && x in LocalHeaders(c, cflags, popen, srcs[i])
    ensures x in AllLocalHeaders(c, cflags, popen, srcs)
  {
    LocalHeaderListsAt(c, cflags, popen, srcs, i);
    JoinedOf(LocalHeaderLists(c, cflags, popen, srcs), i, x);
  }

  /** The result after one more source. */
  lemma AllLocalHeadersSnoc(c: Compiler, cflags: RValue, popen: string -> seq<string>, srcs: seq<string>, i: nat)
    requires i < |srcs|
    ensures AllLocalHeaders(c, cflags, popen, srcs[..i + 1])
         == AllLocalHeaders(c, cflags, popen, srcs[..i]) + LocalHeaders(c, cflags, popen, srcs[i])
  {
    var done := srcs[..i + 1];
    assert done[..i] == srcs[..i] && done[i] == srcs[i];
    JoinedSnoc(LocalHeaderLists(c, cflags, popen, srcs[..i]), LocalHeaders(c, cflags, popen, srcs[i]));
    assert LocalHeaderLists(c, cflags, popen, done)
        == LocalHeaderLists(c, cflags, popen, srcs[..i]) + [LocalHeaders(c, cflags, popen, srcs[i])];
  }

  /** `b.localdep` entries written by the loop over `srcs`. */
  function LocalMap(c: Compiler, cflags: RValue, popen: string -> seq<string>, srcs: seq<string>): map<string, seq<string>>
  {
    if srcs == [] then map[]
    else
      var last := srcs[|srcs| - 1];
      LocalMap(c, cflags, popen, srcs[..|srcs| - 1])[last := LocalHeaders(c, cflags, popen, last)]
  }

  // ---------------------------------------------------------------------
  // System headers: the include lines of the source and its local headers
  // ---------------------------------------------------------------------

  /** The lines of those `names` that exist, in order; a missing file adds nothing. */
  function ExistingLines<T>(files: map<string, seq<T>>, names: seq<string>): seq<T>
  {
    if names == [] then []
    else
      var last := names[|names| - 1];
      ExistingLines(files, names[..|names| - 1]) + (if last in files then files[last] else [])
  }

  /** A line of the existing files comes from one of them. */
  lemma {:induction false} ExistingLineFrom<T>(files: map<string, seq<T>>, names: seq<string>, k: nat)
    returns (j: nat, l: nat)
    requires k < |ExistingLines(files, names)|
    ensures j < |names| && names[j] in files && l < |files[names[j]]|
    ensures ExistingLines(files, names)[k] == files[names[j]][l]
    decreases |names|
  {
    var init := names[..|names| - 1];
    var last := names[|names| - 1];
    var front := ExistingLines(files, init);
    if k < |front| {
      j, l := ExistingLineFrom(files, init, k);
      assert init[j] == names[j];
    } else {
      j, l := |names| - 1, k - |front|;
    }
  }

  /** Every line of every existing file is among the existing lines. */
  lemma {:induction false} ExistingLineOf<T>(files: map<string, seq<T>>, names: seq<string>, j: nat, l: nat)
    returns (k: nat)
    requires j < |names| && names[j] in files && l < |files[names[j]]|
    ensures k < |ExistingLines(files, names)| && ExistingLines(files, names)[k] == files[names[j]][l]
    decreases |names|
  {
    var init := names[..|names| - 1];
    if j < |names| - 1 {
      assert init[j] == names[j];
      k := ExistingLineOf(files, init, j, l);
    } else {
      k := |ExistingLines(files, init)| + l;
    }
  }

  /** `b.sysdep[src]`: the include names of the source and of its existing local headers. */
  function SystemHeaders(files: map<string, seq<string>>, src: string, locals: seq<string>): seq<string>
    requires src in files
  {
    SortedHeaders(files[src] + ExistingLines(files, locals), Include(false))
  }

  /** The file of a system header: the source itself or one of its existing local headers. */
  predicate IncludedBy(files: map<string, seq<string>>, src: string, locals: seq<string>, f: string, x: string)
  {
    (f == src || f in locals) && f in files
    && exists l :: 0 <= l < |files[f]| && Capture(Include(false), files[f][l]) == Some(x)
  }

  /** A name captured from two buffers read one after the other comes from a line of one of them. */
  lemma CapturedFromEither(front: seq<string>, rest: seq<string>, p: LinePattern, x: string)
    returns (inFront: bool, k: nat)
    requires x in Captures(front + rest, p)
    ensures inFront ==> k < |front| && Capture(p, front[k]) == Some(x)
    ensures !inFront ==> k < |rest| && Capture(p, rest[k]) == Some(x)
  {
    var buf := front + rest;
    var i := CapturedFrom(buf, p, x);
    inFront := i < |front|;
    if inFront {
      k := i;
      assert buf[i] == front[k];
    } else {
      k := i - |front|;
      assert buf[i] == rest[k];
    }
  }

  /** A system header is included by the source or by one of its existing local headers. */
  lemma SystemHeaderFrom(files: map<string, seq<string>>, src: string, locals: seq<string>, x: string)
    returns (f: string, l: nat)
    requires src in files && x in SystemHeaders(files, src, locals)
    ensures (f == src || f in locals) && f in files
    ensures l < |files[f]| && Capture(Include(false), files[f][l]) == Some(x)
  {
    var rest := ExistingLines(files, locals);
    var inFront, k := CapturedFromEither(files[src], rest, Include(false), x);
    if inFront {
      f, l := src, k;
    } else {
      var j;
      j, l := ExistingLineFrom(files, locals, k);
      f := locals[j];
    }
  }

  /** Every include line of the source or of an existing local header names a system header. */
  lemma SystemHeaderOf(files: map<string, seq<string>>, src: string, locals: seq<string>, f: string, l: nat)
    requires src in files && (f == src || f in locals) && f in files
    requires l < |files[f]| && Capture(Include(false), files[f][l]).Some?
    ensures Capture(Include(false), files[f][l]).value in SystemHeaders(files, src, locals)
  {
    var front := files[src];
    var buf := front + ExistingLines(files, locals);
    var k: nat;
    if f == src {
      k := l;
    } else {
      var j :| 0 <= j < |locals| && locals[j] == f;
      var k0 := ExistingLineOf(files, locals, j, l);
      k := |front| + k0;
    }
    assert buf[k] == files[f][l];
    CapturesLine(buf, Include(false), k);
  }

  /** Both directions together: a name is a system header exactly when an include line names it. */
  lemma SystemHeadersExactly(files: map<string, seq<string>>, src: string, locals: seq<string>, x: string)
    requires src in files
    ensures x in SystemHeaders(files, src, locals) <==>
              (IncludedBy(files, src, locals, src, x) || exists f :: f in locals && IncludedBy(files, src, locals, f, x))
  {
    if x in SystemHeaders(files, src, locals) {
      var f, l := SystemHeaderFrom(files, src, locals, x);
      assert IncludedBy(files, src, locals, f, x);
    }
    if IncludedBy(files, src, locals, src, x) {
      var l :| 0 <= l < |files[src]| && Capture(Include(false), files[src][l]) == Some(x);
      SystemHeaderOf(files, src, locals, src, l);
    }
    if exists f :: f in locals && IncludedBy(files, src, locals, f, x) {
      var f :| f in locals && IncludedBy(files, src, locals, f, x);
      var l :| 0 <= l < |files[f]| && Capture(Include(false), files[f][l]) == Some(x);
      SystemHeaderOf(files, src, locals, f, l);
    }
  }

  /** Every source can be read: `File.read(src)` raises otherwise. */
  predicate Readable<T>(files: map<string, seq<T>>, srcs: seq<string>)
  {
    forall s :: s in srcs ==> s in files
  }

  /** `b.sysdep` entries written by the loop over `srcs`. */
  function SystemMap(c: Compiler, cflags: RValue, popen: string -> seq<string>,
                     files: map<string, seq<string>>, srcs: seq<string>): map<string, seq<string>>
    requires Readable(files, srcs)
  {
    if srcs == [] then map[]
    else
      var last := srcs[|srcs| - 1];
      var init := srcs[..|srcs| - 1];
      assert forall s :: s in init ==> s in srcs;
      SystemMap(c, cflags, popen, files, init)[last := SystemHeaders(files, last, LocalHeaders(c, cflags, popen, last))]
  }

  // ---------------------------------------------------------------------
  // lib/makeconf/compiler.rb
  // ---------------------------------------------------------------------

  /** The lines of `lines + ExistingLines(files, names)`, built one name at a time. */
  method ReadExisting(files: map<string, seq<string>>, lines: seq<string>, names: seq<string>)
    returns (buf: seq<string>)
    ensures buf == lines + ExistingLines(files, names)
  {
    buf := lines;
    for j := 0 to |names|
      invariant buf == lines + ExistingLines(files, names[..j])
    {
      assert names[..j + 1][..j] == names[..j];
      if names[j] in files {
        buf := buf + files[names[j]];
      }
    }
    assert names[..|names|] == names;
  }

  /** Updating a key of the right operand of a union updates the union. */
  lemma UnionUpdate(a: map<string, seq<string>>, m: map<string, seq<string>>, k: string, v: seq<string>)
    ensures a + m[k := v] == (a + m)[k := v]
  {
  }

  /** The loop's result and maps after one more source. */
  lemma LoopStep(c: Compiler, cflags: RValue, popen: string -> seq<string>, files: map<string, seq<string>>,
                 srcs: seq<string>, i: nat, local0: map<string, seq<string>>, system0: map<string, seq<string>>)
    requires i < |srcs| && Readable(files, srcs)
    ensures Readable(files, srcs[..i]) && Readable(files, srcs[..i + 1]) && srcs[i] in files
    ensures AllLocalHeaders(c, cflags, popen, srcs[..i + 1])
         == AllLocalHeaders(c, cflags, popen, srcs[..i]) + LocalHeaders(c, cflags, popen, srcs[i])
    ensures local0 + LocalMap(c, cflags, popen, srcs[..i + 1])
         == (local0 + LocalMap(c, cflags, popen, srcs[..i]))[srcs[i] := LocalHeaders(c, cflags, popen, srcs[i])]
    ensures system0 + SystemMap(c, cflags, popen, files, srcs[..i + 1])
         == (system0 + SystemMap(c, cflags, popen, files, srcs[..i]))
              [srcs[i] := SystemHeaders(files, srcs[i], LocalHeaders(c, cflags, popen, srcs[i]))]
  {
    var done := srcs[..i + 1];
    assert done[..i] == srcs[..i] && done[i] == srcs[i];
    var src := srcs[i];
    AllLocalHeadersSnoc(c, cflags, popen, srcs, i);
    UnionUpdate(local0, LocalMap(c, cflags, popen, srcs[..i]), src, LocalHeaders(c, cflags, popen, src));
    UnionUpdate(system0, SystemMap(c, cflags, popen, files, srcs[..i]), src,
                SystemHeaders(files, src, LocalHeaders(c, cflags, popen, src)));
  }

  /** One source: the scan of the preprocessor output, then the scan of the files read. */
  method ScanSource(c: Compiler, cflags: RValue, popen: string -> seq<string>,
                    files: map<string, seq<string>>, src: string) returns (locals: seq<string>, system: seq<string>)
    requires src in files
    ensures locals == LocalHeaders(c, cflags, popen, src)
    ensures system == SystemHeaders(files, src, locals)
  {
    var found := Scan(popen(PreprocessCommand(c, cflags, src)), Marker);
    locals := SortUniq(found);
    var buf := ReadExisting(files, files[src], locals);
    var included := Scan(buf, Include(false));
    system := SortUniq(included);
  }

  /**
   * `makedepends(b)`: fills `b.localdep` and `b.sysdep` for every source and
   * returns the local headers of all sources in turn.  Every source must be
   * readable: `File.read` raises otherwise.
   */
  method MakeDepends(c: Compiler, b: Buildables.Buildable, popen: string -> seq<string>,
                     files: map<string, seq<string>>) returns (res: seq<string>)
    requires Readable(files, b.sources)
    modifies b`localdep, b`sysdep
    ensures res == AllLocalHeaders(c, b.cflags, popen, b.sources)
    ensures b.localdep == old(b.localdep) + LocalMap(c, b.cflags, popen, b.sources)
    ensures b.sysdep == old(b.sysdep) + SystemMap(c, b.cflags, popen, files, b.sources)
  {
    res := DependsOf(c, b, b.sources, b.cflags, popen, files);
  }

  /** The loop of `makedepends(b)` over the sources `srcs` and with the flags `cflags` of `b`. */
  method DependsOf(c: Compiler, b: Buildables.Buildable, srcs: seq<string>, cflags: RValue,
                   popen: string -> seq<string>, files: map<string, seq<string>>) returns (res: seq<string>)
    requires Readable(files, srcs)
    modifies b`localdep, b`sysdep
    ensures res == AllLocalHeaders(c, cflags, popen, srcs)
    ensures b.localdep == old(b.localdep) + LocalMap(c, cflags, popen, srcs)
    ensures b.sysdep == old(b.sysdep) + SystemMap(c, cflags, popen, files, srcs)
  {
    ghost var local0, system0 := b.localdep, b.sysdep;
    res := [];
    for i := 0 to |srcs|
      invariant res == AllLocalHeaders(c, cflags, popen, srcs[..i])
      invariant b.localdep == local0 + LocalMap(c, cflags, popen, srcs[..i])
      invariant b.sysdep == system0 + SystemMap(c, cflags, popen, files, srcs[..i])
    {
      res := DependsStep(c, b, srcs, cflags, popen, files, i, local0, system0, res);
    }
    assert srcs[..|srcs|] == srcs;
  }

  /** One turn of the loop: the headers of `srcs[i]` are recorded in `b` and added to the result. */
  method DependsStep(c: Compiler, b: Buildables.Buildable, srcs: seq<string>, cflags: RValue,
                     popen: string -> seq<string>, files: map<string, seq<string>>, i: nat,
                     ghost local0: map<string, seq<string>>, ghost system0: map<string, seq<string>>, res0: seq<string>)
    returns (res: seq<string>)
    requires i < |srcs| && Readable(files, srcs) && Readable(files, srcs[..i])
    requires res0 == AllLocalHeaders(c, cflags, popen, srcs[..i])
    requires b.localdep == local0 + LocalMap(c, cflags, popen, srcs[..i])
    requires b.sysdep == system0 + SystemMap(c, cflags, popen, files, srcs[..i])
    modifies b`localdep, b`sysdep
    ensures Readable(files, srcs[..i + 1])
    ensures res == AllLocalHeaders(c, cflags, popen, srcs[..i + 1])
    ensures b.localdep == local0 + LocalMap(c, cflags, popen, srcs[..i + 1])
    ensures b.sysdep == system0 + SystemMap(c, cflags, popen, files, srcs[..i + 1])
  {
    var src := srcs[i];
    LoopStep(c, cflags, popen, files, srcs, i, local0, system0);
    var locals, system := ScanSource(c, cflags, popen, files, src);
    b.localdep := b.localdep[src := locals];
    res := res0 + locals;
    b.sysdep := b.sysdep[src := system];
  }

  // ---------------------------------------------------------------------
  // trunk/lib/makeconf/compiler.rb
  // ---------------------------------------------------------------------

  /** The scan of the lines read for one source skips each undecodable line with a warning. */
  function TrunkSystemHeaders(files: map<string, seq<SourceLine>>, src: string, locals: seq<string>): seq<string>
    requires src in files
  {
    SortedHeaders(Decoded(files[src] + ExistingLines(files, locals)), Include(false))
  }

  /** The warnings printed for one source: one per undecodable line read. */
  function Warnings(files: map<string, seq<SourceLine>>, src: string, locals: seq<string>): nat
    requires src in files
  {
    UndecodableCount(files[src] + ExistingLines(files, locals))
  }

  function TrunkSystemMap(c: Compiler, cflags: RValue, popen: string -> seq<string>,
                          files: map<string, seq<SourceLine>>, srcs: seq<string>): map<string, seq<string>>
    requires Readable(files, srcs)
  {
    if srcs == [] then map[]
    else
      var last := srcs[|srcs| - 1];
      var init := srcs[..|srcs| - 1];
      assert forall s :: s in init ==> s in srcs;
      TrunkSystemMap(c, cflags, popen, files, init)[last := TrunkSystemHeaders(files, last, LocalHeaders(c, cflags, popen, last))]
  }

  function TotalWarnings(c: Compiler, cflags: RValue, popen: string -> seq<string>,
                         files: map<string, seq<SourceLine>>, srcs: seq<string>): nat
    requires Readable(files, srcs)
  {
    if srcs == [] then 0
    else
      var last := srcs[|srcs| - 1];
      var init := srcs[..|srcs| - 1];
      assert forall s :: s in init ==> s in srcs;
      TotalWarnings(c, cflags, popen, files, init) + Warnings(files, last, LocalHeaders(c, cflags, popen, last))
  }

  /** The lines of `lines + ExistingLines(files, names)` for the trunk reader. */
  method ReadExistingLines(files: map<string, seq<SourceLine>>, lines: seq<SourceLine>, names: seq<string>)
    returns (buf: seq<SourceLine>)
    ensures buf == lines + ExistingLines(files, names)
  {
    buf := lines;
    for j := 0 to |names|
      invariant buf == lines + ExistingLines(files, names[..j])
    {
      assert names[..j + 1][..j] == names[..j];
      if names[j] in files {
        buf := buf + files[names[j]];
      }
    }
    assert names[..|names|] == names;
  }

  method TrunkScanSource(c: Compiler, cflags: RValue, popen: string -> seq<string>,
                         files: map<string, seq<SourceLine>>, src: string)
    returns (locals: seq<string>, system: seq<string>, warnings: nat)
    requires src in files
    ensures locals == LocalHeaders(c, cflags, popen, src)
    ensures system == TrunkSystemHeaders(files, src, locals)
    ensures warnings == Warnings(files, src, locals)
  {
    var found := Scan(popen(PreprocessCommand(c, cflags, src)), Marker);
    locals := SortUniq(found);
    var buf := ReadExistingLines(files, files[src], locals);
    var included;
    included, warnings := ScanWarning(buf, Include(false));
    system := SortUniq(included);
  }

  lemma TrunkLoopStep(c: Compiler, cflags: RValue, popen: string -> seq<string>, files: map<string, seq<SourceLine>>,
                      srcs: seq<string>, i: nat, local0: map<string, seq<string>>, system0: map<string, seq<string>>)
    requires i < |srcs| && Readable(files, srcs)
    ensures Readable(files, srcs[..i]) && Readable(files, srcs[..i + 1]) && srcs[i] in files
    ensures AllLocalHeaders(c, cflags, popen, srcs[..i + 1])
         == AllLocalHeaders(c, cflags, popen, srcs[..i]) + LocalHeaders(c, cflags, popen, srcs[i])
    ensures TotalWarnings(c, cflags, popen, files, srcs[..i + 1])
         == TotalWarnings(c, cflags, popen, files, srcs[..i]) + Warnings(files, srcs[i], LocalHeaders(c, cflags, popen, srcs[i]))
    ensures local0 + LocalMap(c, cflags, popen, srcs[..i + 1])
         == (local0 + LocalMap(c, cflags, popen, srcs[..i]))[srcs[i] := LocalHeaders(c, cflags, popen, srcs[i])]
    ensures system0 + TrunkSystemMap(c, cflags, popen, files, srcs[..i + 1])
         == (system0 + TrunkSystemMap(c, cflags, popen, files, srcs[..i]))
              [srcs[i] := TrunkSystemHeaders(files, srcs[i], LocalHeaders(c, cflags, popen, srcs[i]))]
  {
    var done := srcs[..i + 1];
    assert done[..i] == srcs[..i] && done[i] == srcs[i];
    var src := srcs[i];
    AllLocalHeadersSnoc(c, cflags, popen, srcs, i);
    UnionUpdate(local0, LocalMap(c, cflags, popen, srcs[..i]), src, LocalHeaders(c, cflags, popen, src));
    UnionUpdate(system0, TrunkSystemMap(c, cflags, popen, files, srcs[..i]), src,
                TrunkSystemHeaders(files, src, LocalHeaders(c, cflags, popen, src)));
  }

  /**
   * trunk `makedepends(b)`: as in lib, but the lines of the files are read
   * with their encoding checked, and an undecodable line is skipped with a
   * warning instead of raising.  Returns the local headers and the number
   * of warnings.
   */
  method TrunkMakeDepends(c: Compiler, b: TrunkBuildables.Buildable, popen: string -> seq<string>,
                          files: map<string, seq<SourceLine>>) returns (res: seq<string>, warnings: nat)
    requires CompilerBuilds.StrList(CompilerBuilds.Ivar(b.ivars, "sources"))
    requires Readable(files, CompilerBuilds.Names(CompilerBuilds.Ivar(b.ivars, "sources")))
    modifies b`localdep, b`sysdep
    ensures var srcs, cflags := CompilerBuilds.Names(CompilerBuilds.Ivar(b.ivars, "sources")), CompilerBuilds.Ivar(b.ivars, "cflags");
            && res == AllLocalHeaders(c, cflags, popen, srcs)
            && warnings == TotalWarnings(c, cflags, popen, files, srcs)
            && b.localdep == old(b.localdep) + LocalMap(c, cflags, popen, srcs)
            && b.sysdep == old(b.sysdep) + TrunkSystemMap(c, cflags, popen, files, srcs)
  {
    var srcs := CompilerBuilds.Names(CompilerBuilds.Ivar(b.ivars, "sources"));
    var cflags := CompilerBuilds.Ivar(b.ivars, "cflags");
    res, warnings := TrunkDependsOf(c, b, srcs, cflags, popen, files);
  }

  /** The loop of trunk `makedepends(b)` over the sources `srcs` and with the flags `cflags` of `b`. */
  method TrunkDependsOf(c: Compiler, b: TrunkBuildables.Buildable, srcs: seq<string>, cflags: RValue,
                        popen: string -> seq<string>, files: map<string, seq<SourceLine>>)
    returns (res: seq<string>, warnings: nat)
    requires Readable(files, srcs)
    modifies b`localdep, b`sysdep
    ensures res == AllLocalHeaders(c, cflags, popen, srcs)
    ensures warnings == TotalWarnings(c, cflags, popen, files, srcs)
    ensures b.localdep == old(b.localdep) + LocalMap(c, cflags, popen, srcs)
    ensures b.sysdep == old(b.sysdep) + TrunkSystemMap(c, cflags, popen, files, srcs)
  {
    ghost var local0, system0 := b.localdep, b.sysdep;
    res, warnings := [], 0;
    for i := 0 to |srcs|
      invariant res == AllLocalHeaders(c, cflags, popen, srcs[..i])
      invariant warnings == TotalWarnings(c, cflags, popen, files, srcs[..i])
      invariant b.localdep == local0 + LocalMap(c, cflags, popen, srcs[..i])
      invariant b.sysdep == system0 + TrunkSystemMap(c, cflags, popen, files, srcs[..i])
    {
      res, warnings := TrunkDependsStep(c, b, srcs, cflags, popen, files, i, local0, system0, res, warnings);
    }
    assert srcs[..|srcs|] == srcs;
  }

  /** One turn of the trunk loop: the headers of `srcs[i]` are recorded in `b` and added to the result. */
  method TrunkDependsStep(c: Compiler, b: TrunkBuildables.Buildable, srcs: seq<string>, cflags: RValue,
                          popen: string -> seq<string>, files: map<string, seq<SourceLine>>, i: nat,
                          ghost local0: map<string, seq<string>>, ghost system0: map<string, seq<string>>,
                          res0: seq<string>, warnings0: nat)
    returns (res: seq<string>, warnings: nat)
    requires i < |srcs| && Readable(files, srcs) && Readable(files, srcs[..i])
    requires res0 == AllLocalHeaders(c, cflags, popen, srcs[..i])
    requires warnings0 == TotalWarnings(c, cflags, popen, files, srcs[..i])
    requires b.localdep == local0 + LocalMap(c, cflags, popen, srcs[..i])
    requires b.sysdep == system0 + TrunkSystemMap(c, cflags, popen, files, srcs[..i])
    modifies b`localdep, b`sysdep
    ensures Readable(files, srcs[..i + 1])
    ensures res == AllLocalHeaders(c, cflags, popen, srcs[..i + 1])
    ensures warnings == TotalWarnings(c, cflags, popen, files, srcs[..i + 1])
    ensures b.localdep == local0 + LocalMap(c, cflags, popen, srcs[..i + 1])
    ensures b.sysdep == system0 + TrunkSystemMap(c, cflags, popen, files, srcs[..i + 1])
  {
    var src := srcs[i];
    TrunkLoopStep(c, cflags, popen, files, srcs, i, local0, system0);
    var locals, system, w := TrunkScanSource(c, cflags, popen, files, src);
    b.localdep := b.localdep[src := locals];
    res := res0 + locals;
    b.sysdep := b.sysdep[src := system];
    warnings := warnings0 + w;
  }

  // ---------------------------------------------------------------------
  // The two versions agree on decodable text
  // ---------------------------------------------------------------------

  /** The decodable lines of every file: what the lib version reads. */
  function DecodedFiles(files: map<string, seq<SourceLine>>): (r: map<string, seq<string>>)
    ensures r.Keys == files.Keys
  {
    map s | s in files :: Decoded(files[s])
  }

  /** Decoding a buffer read in two parts decodes each part. */
  lemma {:induction false} DecodedAppend(a: seq<SourceLine>, b: seq<SourceLine>)
    ensures Decoded(a + b) == Decoded(a) + Decoded(b)
    decreases |b|
  {
    if b != [] {
      var init := b[..|b| - 1];
      assert (a + b)[..|a + b| - 1] == a + init;
      assert (a + b)[|a + b| - 1] == b[|b| - 1];
      DecodedAppend(a, init);
    } else {
      assert a + b == a;
    }
  }

  /** The existing lines, decoded, are the existing lines of the decoded files. */
  lemma {:induction false} ExistingLinesDecoded(files: map<string, seq<SourceLine>>, names: seq<string>)
    ensures Decoded(ExistingLines(files, names)) == ExistingLines(DecodedFiles(files), names)
    decreases |names|
  {
    if names != [] {
      var init := names[..|names| - 1];
      var last := names[|names| - 1];
      ExistingLinesDecoded(files, init);
      DecodedAppend(ExistingLines(files, init), if last in files then files[last] else []);
    }
  }

  /**
   * The trunk scan finds exactly the system headers the lib scan finds in
   * the decodable lines: skipping a bad line loses only what that line held.
   */
  lemma TrunkSystemHeadersDecoded(files: map<string, seq<SourceLine>>, src: string, locals: seq<string>)
    requires src in files
    ensures TrunkSystemHeaders(files, src, locals) == SystemHeaders(DecodedFiles(files), src, locals)
  {
    DecodedAppend(files[src], ExistingLines(files, locals));
    ExistingLinesDecoded(files, locals);
  }

  /** The trunk `b.sysdep` entries are those the lib version writes for the decoded files. */
  lemma {:induction false} TrunkSystemMapDecoded(c: Compiler, cflags: RValue, popen: string -> seq<string>,
                                                 files: map<string, seq<SourceLine>>, srcs: seq<string>)
    requires Readable(files, srcs)
    ensures Readable(DecodedFiles(files), srcs)
    ensures TrunkSystemMap(c, cflags, popen, files, srcs) == SystemMap(c, cflags, popen, DecodedFiles(files), srcs)
    decreases |srcs|
  {
    if srcs != [] {
      var init := srcs[..|srcs| - 1];
      var last := srcs[|srcs| - 1];
      assert Readable(files, init);
      TrunkSystemMapDecoded(c, cflags, popen, files, init);
      TrunkSystemHeadersDecoded(files, last, LocalHeaders(c, cflags, popen, last));
    }
  }
}
