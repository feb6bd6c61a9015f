/**
 * Platform: the spelling of the shell commands and file-name extensions for
 * the target operating system.  The Ruby class reads the target OS from
 * RbConfig and the MSYSTEM environment variable; here both are the `Host`
 * parameter.
 */
module Platform {
  import opened Strings
  import opened Shell

  /** The target operating system name and whether an MSYS shell (MSYSTEM) is present. */
  datatype Host = Host(targetOs: string, msystem: bool)

  /** `target_os =~ /mswin|mingw/` */
  predicate IsWindows(h: Host)
  {
    Contains(h.targetOs, "mswin") || Contains(h.targetOs, "mingw")
  }

  /** `target_os =~ /^solaris/` */
  predicate IsSolaris(h: Host)
  {
    StartsWith(h.targetOs, "solaris")
  }

  /** `target_os =~ /^linux/` */
  predicate IsLinux(h: Host)
  {
    StartsWith(h.targetOs, "linux")
  }

  /** Windows without MSYS: commands must use cmd.exe and Microsoft tool spellings. */
  predicate NativeWindows(h: Host)
  {
    IsWindows(h) && !h.msystem
  }

  /** A path that can be placed between single quotes. */
  predicate QuoteFree(p: string)
  {
    forall i :: 0 <= i < |p| ==> p[i] != '\''
  }

  // ---------------------------------------------------------------------
  // Commands
  // ---------------------------------------------------------------------

  /** `Platform.archiver(archive, members)`: the command that builds a static library. */
  function Archiver(h: Host, archive: string, members: seq<string>): (r: string)
    ensures NativeWindows(h) ==> StartsWith(r, "lib.exe ") && EndsWith(r, " /OUT:" + archive)
    ensures !NativeWindows(h) ==> StartsWith(r, "ar rs " + archive)
  {
    if NativeWindows(h) then "lib.exe " + Spaced(members) + " /OUT:" + archive
    else "ar rs " + archive + " " + Spaced(members)
  }

  /** The archiver is handed exactly the archive and its members. */
  lemma ArchiverArguments(h: Host, archive: string, members: seq<string>)
    requires Plain(archive) && AllPlain(members) && members != []
    ensures ShellWords(Archiver(h, archive, members)) ==
              if NativeWindows(h) then ["lib.exe"] + members + ["/OUT:" + archive]
              else ["ar", "rs", archive] + members
  {
    if NativeWindows(h) {
      LibExeArguments(archive, members);
    } else {
      ArArguments(archive, members);
    }
  }

  lemma LibExeArguments(archive: string, members: seq<string>)
    requires Plain(archive) && AllPlain(members) && members != []
    ensures ShellWords("lib.exe " + Spaced(members) + " /OUT:" + archive) == ["lib.exe"] + members + ["/OUT:" + archive]
  {
    var out := "/OUT:" + archive;
    assert Plain(out);
    JoinAppend(members, out, " ");
    assert Spaced(["lib.exe"]) == "lib.exe";
    assert "lib.exe " + Spaced(members) + " /OUT:" + archive == "lib.exe" + " " + Spaced(members + [out]);
    assert AllPlain(members + [out]);
    SpacedPrefix(["lib.exe"], members + [out]);
  }

  lemma ArArguments(archive: string, members: seq<string>)
    requires Plain(archive) && AllPlain(members) && members != []
    ensures ShellWords("ar rs " + archive + " " + Spaced(members)) == ["ar", "rs", archive] + members
  {
    SpacedCons(archive, members);
    SpacedPair("ar", "rs");
    assert "ar rs " + archive + " " + Spaced(members) == Spaced(["ar", "rs"]) + " " + Spaced([archive] + members);
    assert AllPlain([archive] + members);
    SpacedPrefix(["ar", "rs"], [archive] + members);
  }

  /** The words every mkdir command starts with. */
  const MkdirWords: seq<string> := ["umask", "22", ";", "mkdir", "-p"]

  lemma MkdirWordsText()
    ensures Spaced(MkdirWords) == "umask 22 ; mkdir -p"
    ensures AllPlain(MkdirWords)
  {
    MkdirWordsJoined();
    MkdirWordsPlain();
  }

  lemma MkdirWordsPlain()
    ensures AllPlain(MkdirWords)
  {
    forall i | 0 <= i < |MkdirWords| ensures Plain(MkdirWords[i]) {
    }
  }

  lemma MkdirWordsJoined()
    ensures Spaced(MkdirWords) == "umask 22 ; mkdir -p"
  {
    var a, b, c, d, e := "umask", "22", ";", "mkdir", "-p";
    assert MkdirWords == [a, b] + [c, d, e];
    SpacedPair(a, b);
    SpacedTriple(c, d, e);
    JoinConcat([a, b], [c, d, e], " ");
  }

  /**
   * `Platform.mkdir(paths)` as trunk/platform.rb writes it: an Array is
   * flattened and joined with spaces, and the whole text is put between one
   * pair of single quotes.
   */
  function MkdirAsWritten(h: Host, paths: seq<string>): (r: Result<string>)
    ensures r.Err? <==> Spaced(paths) == "" || IsWindows(h)
  {
    var p := Spaced(paths);
    if p == "" then Err("invalid path")
    else if IsWindows(h) then Err("FIXME")
    else Ok("umask 22 ; mkdir -p '" + p + "'")
  }

  lemma {:induction false} SpacedNonEmpty(paths: seq<string>)
    requires paths != [] && |paths[0]| > 0
    ensures Spaced(paths) != ""
  {
    JoinContains(paths, " ", 0);
    if Spaced(paths) == "" {
      ContainsLength(Spaced(paths), paths[0]);
    }
  }

  lemma QuoteFreeJoin(paths: seq<string>)
    requires forall i :: 0 <= i < |paths| ==> QuoteFree(paths[i])
    ensures QuoteFree(Spaced(paths))
  {
    forall i | 0 <= i < |paths| ensures '\'' !in paths[i] {
      assert QuoteFree(paths[i]);
    }
    JoinAvoids(paths, " ", '\'');
  }

  /**
   * With two or more directories, the quoted list reaches mkdir as ONE
   * argument: a single directory whose name contains the spaces.
   */
  lemma MkdirAsWrittenMergesDirectories(h: Host, paths: seq<string>)
    requires |paths| >= 2 && AllPlain(paths) && !IsWindows(h)
    ensures MkdirAsWritten(h, paths).Ok?
    ensures ShellWords(MkdirAsWritten(h, paths).value) == MkdirWords + [Spaced(paths)]
    ensures |ShellWords(MkdirAsWritten(h, paths).value)| < |MkdirWords + paths|
  {
    var p := Spaced(paths);
    assert Plain(paths[0]);
    SpacedNonEmpty(paths);
    QuoteFreeJoin(paths);
    var q := Quote(p);
    MkdirWordsText();
    JoinAppend(MkdirWords, q, " ");
    assert MkdirAsWritten(h, paths).value == Spaced(MkdirWords + [q]);
    assert AllTokens(MkdirWords + [q]);
    ShellWordsOfSpaced(MkdirWords + [q]);
    ArgsAppend(MkdirWords, [q]);
    ArgsOfPlain(MkdirWords);
  }

  /**
   * `Platform.mkdir(paths)` as evidently intended: each directory is quoted
   * on its own.  The error cases are those of the code as written.
   */
  function Mkdir(h: Host, paths: seq<string>): (r: Result<string>)
    ensures r.Err? <==> Spaced(paths) == "" || IsWindows(h)
  {
    if Spaced(paths) == "" then Err("invalid path")
    else if IsWindows(h) then Err("FIXME")
    else Ok("umask 22 ; mkdir -p " + Spaced(QuoteAll(paths)))
  }

  function QuoteAll(paths: seq<string>): (r: seq<string>)
    ensures |r| == |paths|
    ensures forall i :: 0 <= i < |paths| ==> r[i] == "'" + paths[i] + "'"
  {
    seq(|paths|, i requires 0 <= i < |paths| => "'" + paths[i] + "'")
  }

  /** mkdir receives every directory as its own argument, even one holding blanks. */
  lemma MkdirArguments(h: Host, paths: seq<string>)
    requires Mkdir(h, paths).Ok?
    requires forall i :: 0 <= i < |paths| ==> QuoteFree(paths[i])
    ensures ShellWords(Mkdir(h, paths).value) == MkdirWords + paths
  {
    var qs := QuoteAll(paths);
    assert paths != [];
    forall i | 0 <= i < |qs| ensures Quoted(qs[i]) && ArgOf(qs[i]) == paths[i] {
      assert qs[i] == Quote(paths[i]);
    }
    MkdirWordsText();
    JoinConcat(MkdirWords, qs, " ");
    assert Mkdir(h, paths).value == Spaced(MkdirWords + qs);
    assert AllTokens(MkdirWords + qs);
    ShellWordsOfSpaced(MkdirWords + qs);
    ArgsAppend(MkdirWords, qs);
    ArgsOfPlain(MkdirWords);
    ArgsOfQuoted(qs, paths);
  }

  lemma {:induction false} ArgsOfQuoted(qs: seq<string>, paths: seq<string>)
    requires |qs| == |paths|
    requires forall i :: 0 <= i < |qs| ==> Quoted(qs[i]) && ArgOf(qs[i]) == paths[i]
    ensures Args(qs) == paths
    decreases |qs|
  {
    if qs != [] {
      ArgsOfQuoted(qs[1..], paths[1..]);
      assert paths == [paths[0]] + paths[1..];
    }
  }

  lemma {:induction false} ContainsLength(s: string, sub: string)
    requires Contains(s, sub)
    ensures |sub| <= |s|
    decreases |s|
  {
    if !StartsWith(s, sub) {
      ContainsLength(s[1..], sub);
    }
  }

  /** `Platform.rm(paths)`: remove regular files. */
  function Rm(h: Host, paths: seq<string>): (r: string)
    ensures NativeWindows(h) ==> StartsWith(r, "del /F ")
    ensures !NativeWindows(h) ==> StartsWith(r, "rm -f ")
  {
    (if NativeWindows(h) then "del /F " else "rm -f ") + Spaced(paths)
  }

  lemma RmArguments(h: Host, paths: seq<string>)
    requires AllPlain(paths) && paths != []
    ensures ShellWords(Rm(h, paths)) ==
              (if NativeWindows(h) then ["del", "/F"] else ["rm", "-f"]) + paths
  {
    var a, b := if NativeWindows(h) then "del" else "rm", if NativeWindows(h) then "/F" else "-f";
    SpacedPair(a, b);
    assert Rm(h, paths) == Spaced([a, b]) + " " + Spaced(paths);
    SpacedPrefix([a, b], paths);
  }

  /** `Platform.rmdir(path)`: remove a directory tree (no MSYS check). */
  function Rmdir(h: Host, path: string): (r: string)
    ensures IsWindows(h) ==> StartsWith(r, "rmdir /S /Q ")
    ensures !IsWindows(h) ==> StartsWith(r, "rm -rf ")
  {
    (if IsWindows(h) then "rmdir /S /Q " else "rm -rf ") + path
  }

  lemma RmdirArguments(h: Host, path: string)
    requires Plain(path)
    ensures ShellWords(Rmdir(h, path)) ==
              (if IsWindows(h) then ["rmdir", "/S", "/Q"] else ["rm", "-rf"]) + [path]
  {
    var fixed := if IsWindows(h) then ["rmdir", "/S", "/Q"] else ["rm", "-rf"];
    if IsWindows(h) {
      SpacedTriple("rmdir", "/S", "/Q");
    } else {
      SpacedPair("rm", "-rf");
    }
    assert Rmdir(h, path) == Spaced(fixed) + " " + path;
    WordsThenPath(fixed, path);
  }

  /** Fixed words followed by one plain path split back into those words and the path. */
  lemma WordsThenPath(fixed: seq<string>, path: string)
    requires AllPlain(fixed) && fixed != [] && Plain(path)
    ensures ShellWords(Spaced(fixed) + " " + path) == fixed + [path]
  {
    assert Spaced([path]) == path;
    assert AllPlain([path]);
    SpacedPrefix(fixed, [path]);
  }

  /** `Platform.cp(srcs, dst)`: copy files into place. */
  function Cp(h: Host, srcs: seq<string>, dst: string): (r: string)
    ensures NativeWindows(h) ==> StartsWith(r, "copy ")
    ensures !NativeWindows(h) ==> StartsWith(r, "cp ")
    ensures EndsWith(r, " " + dst)
  {
    (if NativeWindows(h) then "copy " else "cp ") + Spaced(srcs) + " " + dst
  }

  lemma CpArguments(h: Host, srcs: seq<string>, dst: string)
    requires AllPlain(srcs) && srcs != [] && Plain(dst)
    ensures ShellWords(Cp(h, srcs, dst)) ==
              [if NativeWindows(h) then "copy" else "cp"] + srcs + [dst]
  {
    var cmd := if NativeWindows(h) then "copy" else "cp";
    CpSpaced(h, srcs, dst);
    assert AllPlain(srcs + [dst]);
    SpacedPrefix([cmd], srcs + [dst]);
  }

  /** The copy command is the command word, then the sources and the destination, space-joined. */
  lemma CpSpaced(h: Host, srcs: seq<string>, dst: string)
    requires srcs != []
    ensures Cp(h, srcs, dst) == Spaced([if NativeWindows(h) then "copy" else "cp"]) + " " + Spaced(srcs + [dst])
  {
    JoinAppend(srcs, dst, " ");
  }

  /** `Platform.dev_null`: the redirection that discards all output. */
  function DevNull(h: Host): (r: string)
    ensures StartsWith(r, " >")
  {
    if NativeWindows(h) then " >NUL 2>NUL" else " >/dev/null 2>&1"
  }

  /** `Platform.dev_null_stderr`: the redirection that discards error output. */
  function DevNullStderr(h: Host): (r: string)
    ensures StartsWith(r, " 2>")
  {
    if NativeWindows(h) then " 2>NUL" else " 2>/dev/null"
  }

  // ---------------------------------------------------------------------
  // File-name extensions
  // ---------------------------------------------------------------------

  function ExecutableExtension(h: Host): string
  {
    if IsWindows(h) then ".exe" else ""
  }

  function ObjectExtension(h: Host): string
  {
    if IsWindows(h) then ".obj" else ".o"
  }

  function StaticLibraryExtension(h: Host): string
  {
    if IsWindows(h) then ".lib" else ".a"
  }

  function SharedLibraryExtension(h: Host): string
  {
    if IsWindows(h) then ".dll" else ".so"
  }

  /**
   * On every target an executable, an object file, a static library and a
   * shared library built from the same stem get four different names.
   */
  lemma ExtensionsDistinct(h: Host, stem: string)
    ensures |{stem + ExecutableExtension(h), stem + ObjectExtension(h),
              stem + StaticLibraryExtension(h), stem + SharedLibraryExtension(h)}| == 4
  {
    var e, o, a, s := stem + ExecutableExtension(h), stem + ObjectExtension(h),
                      stem + StaticLibraryExtension(h), stem + SharedLibraryExtension(h);
    assert e[|stem|..] == ExecutableExtension(h);
    assert o[|stem|..] == ObjectExtension(h);
    assert a[|stem|..] == StaticLibraryExtension(h);
    assert s[|stem|..] == SharedLibraryExtension(h);
    assert e != o && e != a && e != s && o != a && o != s && a != s;
  }

  // ---------------------------------------------------------------------
  // The variants of the single-file makeconf.rb
  // ---------------------------------------------------------------------

  /** makeconf.rb's `Platform.mkdir`: the joined list is not quoted. */
  function MkdirUnquoted(h: Host, paths: seq<string>): (r: Result<string>)
    ensures r.Err? <==> Spaced(paths) == "" || IsWindows(h)
    ensures r.Ok? ==> StartsWith(r.value, "umask 22 ; mkdir -p ")
  {
    var p := Spaced(paths);
    if p == "" then Err("invalid path")
    else if IsWindows(h) then Err("FIXME")
    else Ok("umask 22 ; mkdir -p " + p)
  }

  /** Without quotes every directory is its own argument. */
  lemma MkdirUnquotedArguments(h: Host, paths: seq<string>)
    requires AllPlain(paths) && paths != [] && !IsWindows(h)
    ensures MkdirUnquoted(h, paths).Ok?
    ensures ShellWords(MkdirUnquoted(h, paths).value) == MkdirWords + paths
  {
    assert Plain(paths[0]);
    SpacedNonEmpty(paths);
    MkdirWordsText();
    assert MkdirUnquoted(h, paths).value == Spaced(MkdirWords) + " " + Spaced(paths);
    SpacedPrefix(MkdirWords, paths);
  }

  /** makeconf.rb's `Platform.shared_library_extension(abi_major, abi_minor)`. */
  function VersionedSharedExtension(h: Host, major: string, minor: string): (r: string)
    ensures IsWindows(h) ==> r == ".dll"
    ensures !IsWindows(h) ==> StartsWith(r, ".so.") && EndsWith(r, "." + minor)
  {
    if IsWindows(h) then ".dll" else ".so." + major + "." + minor
  }
}
