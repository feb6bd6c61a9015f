/**
 * The Installer of trunk/installer.rb: a list of install records, each the
 * defaults overridden by the caller's keys, and `to_make`, which turns the
 * installation directories into Makefile variables and every record into
 * one install rule and one uninstall rule.
 *
 * Record keys, which are Ruby Symbols, are written as Strings here.
 * `configure` (the search for an `install` program) is I/O: the `path` it
 * finds is a field the caller sets.
 */
module Installers {
  import opened Strings
  import opened RubyValues
  import opened Platform
  import opened Targets
  import opened Makefiles

  // ---------------------------------------------------------------------
  // Hashes
  // ---------------------------------------------------------------------

  /** `h[k]`: nil when the key is missing. */
  function Get(h: Hash, k: string): RValue
  {
    match HashGet(h, k)
    case Some(v) => v
    case None => Nil
  }

  /** Looking up a key in `h + [x]` finds it in `h` first. */
  lemma {:induction false} HashGetAppend(h: Hash, x: (string, RValue), k: string)
    ensures HashGet(h + [x], k) == if HashGet(h, k).Some? then HashGet(h, k) else if x.0 == k then Some(x.1) else None
  {
    if h != [] {
      assert (h + [x])[1..] == h[1..] + [x];
      HashGetAppend(h[1..], x, k);
    }
  }

  // ---------------------------------------------------------------------
  // install
  // ---------------------------------------------------------------------

  /** The record `install` starts from. */
  const Defaults: Hash := [
    ("sources", Nil), ("dest", Nil), ("directory?", Bool(false)),
    ("group", Nil), ("user", Nil), ("mode", Str("0755"))]

  const DestRequired := ":dest is require"
  /** What `not buf[:sources].nil` would raise, were it ever evaluated. */
  const NoMethodNil := "undefined method `nil'"

  /**
   * `install(src)`: a missing or nil `:dest` raises ArgumentError; the
   * directory-and-sources guard reads `buf[:directory]` of the defaults.
   */
  function Registered(items: seq<Hash>, src: Hash): Result<seq<Hash>>
  {
    if Get(src, "dest").Nil? then Err(DestRequired)
    else if Get(Defaults, "directory") == Bool(true) then Err(NoMethodNil)
    else Ok(items + [HashMerge(Defaults, src)])
  }

  /**
   * The guard against giving both a directory and sources can never fire:
   * it reads the `:directory` key of the defaults, which only hold
   * `:directory?`.  So the only error is a missing `:dest`, and otherwise
   * the merged record is appended in call order.
   */
  lemma RegisteredOnlyChecksDest(items: seq<Hash>, src: Hash)
    ensures Registered(items, src).Err? <==> Get(src, "dest").Nil?
    ensures Registered(items, src).Err? ==> Registered(items, src).error == DestRequired
    ensures Registered(items, src).Ok? ==> Registered(items, src).value == items + [HashMerge(Defaults, src)]
  {
    var d := Defaults;
    assert d[0].0 != "directory" && d[1].0 != "directory" && d[2].0 != "directory";
    assert d[3].0 != "directory" && d[4].0 != "directory" && d[5].0 != "directory";
    assert HashGet(d[5..], "directory") == None by {
      assert d[5..][1..] == [];
    }
    assert HashGet(d[4..], "directory") == None by {
      assert d[4..][1..] == d[5..];
    }
    assert HashGet(d[3..], "directory") == None by {
      assert d[3..][1..] == d[4..];
    }
    assert HashGet(d[2..], "directory") == None by {
      assert d[2..][1..] == d[3..];
    }
    assert HashGet(d[1..], "directory") == None by {
      assert d[1..][1..] == d[2..];
    }
    assert HashGet(d, "directory") == None;
  }

  /** The defaults' mode, `0755`, and their lack of the keys `install_command` reads. */
  lemma DefaultsRead()
    ensures HashGet(Defaults, "mode") == Some(Str("0755"))
    ensures HashGet(Defaults, "directory") == None
    ensures HashGet(Defaults, "owner") == None
    ensures HashGet(Defaults, "group") == Some(Nil)
  {
    var d := Defaults;
    assert d[5..][1..] == [];
    assert d[4..][1..] == d[5..];
    assert d[3..][1..] == d[4..];
    assert d[2..][1..] == d[3..];
    assert d[1..][1..] == d[2..];
    assert d[0].0 != "mode" && d[1].0 != "mode" && d[2].0 != "mode" && d[3].0 != "mode" && d[4].0 != "mode";
    assert d[0].0 != "owner" && d[1].0 != "owner" && d[2].0 != "owner" && d[3].0 != "owner" && d[4].0 != "owner" && d[5].0 != "owner";
    assert d[0].0 != "group" && d[1].0 != "group" && d[2].0 != "group";
    assert d[0].0 != "directory" && d[1].0 != "directory" && d[2].0 != "directory";
    assert d[3].0 != "directory" && d[4].0 != "directory" && d[5].0 != "directory";
  }

  // ---------------------------------------------------------------------
  // install_command and uninstall_command
  // ---------------------------------------------------------------------

  /** What the two commands need of a record: a String `:dest`, and sources that `map` can walk if set. */
  predicate ItemUsable(item: Hash)
  {
    Get(item, "dest").Str?
    && (Truthy(Get(item, "sources")) ==> Get(item, "sources").List? && forall i :: 0 <= i < |Get(item, "sources").items| ==> Get(item, "sources").items[i].Str?)
  }

  /** One flag with its value, when the value is truthy. */
  function FlagOption(flag: string, v: RValue): seq<RValue>
  {
    if Truthy(v) then [Str(flag), v] else []
  }

  /** The words of `install_command` on a Unix host, before `join(' ')`. */
  function InstallTokens(item: Hash): seq<RValue>
    requires ItemUsable(item)
  {
    [Str("$(INSTALL)")]
    + (if Truthy(Get(item, "directory")) then [Str("-d")] else [])
    + FlagOption("-m", Get(item, "mode"))
    + FlagOption("-o", Get(item, "owner"))
    + FlagOption("-g", Get(item, "group"))
    + (if Truthy(Get(item, "sources")) then [Get(item, "sources")] else [])
    + [Str("$(DESTDIR)" + Get(item, "dest").s)]
  }

  function InstallText(item: Hash): string
    requires ItemUsable(item)
  {
    JoinValues(InstallTokens(item), " ")
  }

  /** `install_command(h)`: throws on Windows. */
  function InstallCommand(h: Host, item: Hash): (r: Result<string>)
    requires ItemUsable(item)
    ensures r.Err? <==> IsWindows(h)
  {
    if IsWindows(h) then Err("FIXME") else Ok(InstallText(item))
  }

  /** `$(DESTDIR)<dest>/<x>` for each source `x`. */
  function DestPaths(dest: string, names: seq<string>): (r: seq<string>)
    ensures |r| == |names|
    ensures forall i :: 0 <= i < |names| ==> r[i] == "$(DESTDIR)" + dest + "/" + names[i]
  {
    seq(|names|, i requires 0 <= i < |names| => "$(DESTDIR)" + dest + "/" + names[i])
  }

  function SourceNames(v: RValue): (r: seq<string>)
    requires v.List? && forall i :: 0 <= i < |v.items| ==> v.items[i].Str?
    ensures Strs(r) == v.items
  {
    seq(|v.items|, i requires 0 <= i < |v.items| => v.items[i].s)
  }

  /** The words of `uninstall_command` on a Unix host, before `join(' ')`. */
  function UninstallTokens(item: Hash): seq<RValue>
    requires ItemUsable(item)
  {
    var dest := Get(item, "dest").s;
    if !Truthy(Get(item, "sources")) then [Str("rmdir"), Str("$(DESTDIR)" + dest)]
    else [Str("rm"), Str("-f"), List(Strs(DestPaths(dest, SourceNames(Get(item, "sources")))))]
  }

  function UninstallText(item: Hash): string
    requires ItemUsable(item)
  {
    JoinValues(UninstallTokens(item), " ")
  }

  /** `uninstall_command(h)`: throws on Windows. */
  function UninstallCommand(h: Host, item: Hash): (r: Result<string>)
    requires ItemUsable(item)
    ensures r.Err? <==> IsWindows(h)
  {
    if IsWindows(h) then Err("FIXME") else Ok(UninstallText(item))
  }

  /**
   * Without sources the directory itself is removed; with sources, each
   * installed file `$(DESTDIR)<dest>/<x>` is removed by one `rm -f`.
   */
  lemma UninstallWords(item: Hash)
    requires ItemUsable(item)
    ensures !Truthy(Get(item, "sources")) ==> UninstallText(item) == "rmdir $(DESTDIR)" + Get(item, "dest").s
    ensures Truthy(Get(item, "sources")) ==>
              UninstallText(item) == "rm -f " + Spaced(DestPaths(Get(item, "dest").s, SourceNames(Get(item, "sources"))))
  {
    var dest := Get(item, "dest").s;
    if !Truthy(Get(item, "sources")) {
      RmdirText("$(DESTDIR)" + dest);
    } else {
      RmText(DestPaths(dest, SourceNames(Get(item, "sources"))));
    }
  }

  lemma RmdirText(path: string)
    ensures JoinValues([Str("rmdir"), Str(path)], " ") == "rmdir " + path
  {
    JoinValuesCons(Str("rmdir"), [Str(path)], " ");
    assert [Str("rmdir")] + [Str(path)] == [Str("rmdir"), Str(path)];
  }

  lemma RmText(paths: seq<string>)
    ensures JoinValues([Str("rm"), Str("-f"), List(Strs(paths))], " ") == "rm -f " + Spaced(paths)
  {
    var l := List(Strs(paths));
    assert JoinValues([Str("-f"), l], " ") == "-f" + " " + Spaced(paths) by {
      JoinValuesCons(Str("-f"), [l], " ");
      JoinOfStrs(paths, " ");
      assert [Str("-f")] + [l] == [Str("-f"), l];
    }
    JoinValuesCons(Str("rm"), [Str("-f"), l], " ");
    assert [Str("rm")] + [Str("-f"), l] == [Str("rm"), Str("-f"), l];
    assert "rm" + " " + ("-f" + " " + Spaced(paths)) == "rm" + " " + "-f" + " " + Spaced(paths);
  }

  /** The fields of a record registered with only `:dest` and sources. */
  lemma DefaultRecordFields(src: Hash, dest: string, names: seq<string>)
    requires NoDuplicates(HashKeys(src))
    requires HashGet(src, "dest") == Some(Str(dest))
    requires HashGet(src, "sources") == Some(List(Strs(names)))
    requires "directory" !in HashKeys(src) && "mode" !in HashKeys(src)
    requires "owner" !in HashKeys(src) && "group" !in HashKeys(src)
    ensures var item := HashMerge(Defaults, src);
            && Get(item, "dest") == Str(dest) && Get(item, "sources") == List(Strs(names))
            && Get(item, "directory") == Nil && Get(item, "mode") == Str("0755")
            && Get(item, "owner") == Nil && Get(item, "group") == Nil
  {
    HashGetFound(src, "dest");
    HashGetFound(src, "sources");
    HashMergeGet(Defaults, src, "dest");
    HashMergeGet(Defaults, src, "sources");
    HashMergeGet(Defaults, src, "directory");
    HashMergeGet(Defaults, src, "mode");
    HashMergeGet(Defaults, src, "owner");
    HashMergeGet(Defaults, src, "group");
    DefaultsRead();
  }

  lemma DefaultInstallText(dest: string, names: seq<string>)
    ensures JoinValues([Str("$(INSTALL)"), Str("-m"), Str("0755"), List(Strs(names)), Str("$(DESTDIR)" + dest)], " ")
         == "$(INSTALL) -m 0755 " + Spaced(names) + " $(DESTDIR)" + dest
  {
    var a, m, mode, l, d := Str("$(INSTALL)"), Str("-m"), Str("0755"), List(Strs(names)), Str("$(DESTDIR)" + dest);
    var sn := Spaced(names);
    var s4 := JoinValues([l, d], " ");
    assert s4 == sn + " " + d.s by {
      JoinValuesCons(l, [d], " ");
      JoinOfStrs(names, " ");
      assert [l] + [d] == [l, d];
    }
    var s3 := JoinValues([mode, l, d], " ");
    assert s3 == "0755" + " " + s4 by {
      JoinValuesCons(mode, [l, d], " ");
      assert [mode] + [l, d] == [mode, l, d];
    }
    var s2 := JoinValues([m, mode, l, d], " ");
    assert s2 == "-m" + " " + s3 by {
      JoinValuesCons(m, [mode, l, d], " ");
      assert [m] + [mode, l, d] == [m, mode, l, d];
    }
    assert JoinValues([a, m, mode, l, d], " ") == "$(INSTALL)" + " " + s2 by {
      JoinValuesCons(a, [m, mode, l, d], " ");
      assert [a] + [m, mode, l, d] == [a, m, mode, l, d];
    }
    StringRegroup("$(INSTALL)", "-m", "0755", sn, d.s);
    assert "$(INSTALL)" + " " + "-m" + " " + "0755" + " " == "$(INSTALL) -m 0755 ";
    assert " " + ("$(DESTDIR)" + dest) == " $(DESTDIR)" + dest;
  }

  lemma StringRegroup(a: string, b: string, c: string, x: string, y: string)
    ensures a + " " + (b + " " + (c + " " + (x + " " + y))) == (a + " " + b + " " + c + " ") + x + (" " + y)
  {
  }

  /**
   * A record registered with only `:dest` and a list of sources installs
   * those sources with the default mode `0755`, and uninstalls each of
   * them from the destination.
   */
  lemma DefaultRecordCommands(src: Hash, dest: string, names: seq<string>)
    requires NoDuplicates(HashKeys(src))
    requires HashGet(src, "dest") == Some(Str(dest))
    requires HashGet(src, "sources") == Some(List(Strs(names)))
    requires "directory" !in HashKeys(src) && "mode" !in HashKeys(src)
    requires "owner" !in HashKeys(src) && "group" !in HashKeys(src)
    ensures ItemUsable(HashMerge(Defaults, src))
    ensures InstallText(HashMerge(Defaults, src)) == "$(INSTALL) -m 0755 " + Spaced(names) + " $(DESTDIR)" + dest
    ensures UninstallText(HashMerge(Defaults, src)) == "rm -f " + Spaced(DestPaths(dest, names))
  {
    var item := HashMerge(Defaults, src);
    DefaultRecordFields(src, dest, names);
    assert SourceNames(Get(item, "sources")) == names;
    UninstallWords(item);
    assert InstallTokens(item) == [Str("$(INSTALL)"), Str("-m"), Str("0755"), List(Strs(names)), Str("$(DESTDIR)" + dest)];
    DefaultInstallText(dest, names);
  }

  /** `{:sources => ..., :dest => ..., :mode => ...}`: the record manual pages and headers register. */
  function ModeRecord(sources: RValue, dest: string, mode: string): Hash
  {
    [("sources", sources), ("dest", Str(dest)), ("mode", Str(mode))]
  }

  lemma ModeRecordKeys(sources: RValue, dest: string, mode: string)
    ensures HashKeys(ModeRecord(sources, dest, mode)) == ["sources", "dest", "mode"]
    ensures HashGet(ModeRecord(sources, dest, mode), "sources") == Some(sources)
    ensures HashGet(ModeRecord(sources, dest, mode), "dest") == Some(Str(dest))
    ensures HashGet(ModeRecord(sources, dest, mode), "mode") == Some(Str(mode))
  {
    var src := ModeRecord(sources, dest, mode);
    var tail := src[1..];
    assert tail[1..] == [("mode", Str(mode))];
    assert HashKeys(tail[1..]) == ["mode"] + HashKeys([]);
    assert HashKeys(tail) == ["dest"] + HashKeys(tail[1..]);
    assert HashKeys(src) == ["sources"] + HashKeys(tail);
    assert HashGet(tail, "mode") == HashGet(tail[1..], "mode");
  }

  /**
   * Such a record is always accepted and appended; the registered item has
   * the given sources, destination and mode, and no directory flag, owner
   * or group.
   */
  lemma ModeRecordRegistered(items: seq<Hash>, sources: RValue, dest: string, mode: string)
    ensures Registered(items, ModeRecord(sources, dest, mode)) == Ok(items + [HashMerge(Defaults, ModeRecord(sources, dest, mode))])
    ensures var item := HashMerge(Defaults, ModeRecord(sources, dest, mode));
            && Get(item, "sources") == sources && Get(item, "dest") == Str(dest) && Get(item, "mode") == Str(mode)
            && Get(item, "directory") == Nil && Get(item, "owner") == Nil && Get(item, "group") == Nil
  {
    var src := ModeRecord(sources, dest, mode);
    ModeRecordKeys(sources, dest, mode);
    RegisteredOnlyChecksDest(items, src);
    HashMergeGet(Defaults, src, "sources");
    HashMergeGet(Defaults, src, "dest");
    HashMergeGet(Defaults, src, "mode");
    HashMergeGet(Defaults, src, "directory");
    HashMergeGet(Defaults, src, "owner");
    HashMergeGet(Defaults, src, "group");
    DefaultsRead();
  }

  // ---------------------------------------------------------------------
  // to_make
  // ---------------------------------------------------------------------

  /** The installation directories, in the order `to_make` walks them. */
  const DefaultDirs: seq<(string, string)> := [
    ("prefix", "/usr/local"), ("exec-prefix", "$(PREFIX)"),
    ("bindir", "$(EPREFIX)/bin"), ("datarootdir", "$(PREFIX)/share"),
    ("datadir", "$(DATAROOTDIR)"), ("docdir", "$(DATAROOTDIR)/doc/$(PACKAGE)"),
    ("includedir", "$(PREFIX)/include"), ("infodir", "$(DATAROOTDIR)/info"),
    ("libdir", "$(EPREFIX)/lib"), ("libexecdir", "$(EPREFIX)/libexec"),
    ("localedir", "$(DATAROOTDIR)/locale"), ("localstatedir", "$(PREFIX)/var"),
    ("mandir", "$(DATAROOTDIR)/man"), ("oldincludedir", "/usr/include"),
    ("sbindir", "$(EPREFIX)/sbin"), ("sysconfdir", "$(PREFIX)/etc"),
    ("sharedstatedir", "$(PREFIX)/com")]

  /** The variable a directory becomes: `exec-prefix` is `EPREFIX`, any other key is upcased. */
  function DirVarName(k: string): (r: string)
    ensures k == "exec-prefix" ==> r == "EPREFIX"
    ensures k != "exec-prefix" ==> |r| == |k| && forall i :: 0 <= i < |k| ==> r[i] == UpChar(k[i])
  {
    if k == "exec-prefix" then "EPREFIX" else Upcase(k)
  }

  function DirNames(dir: seq<(string, string)>): (r: seq<string>)
    ensures |r| == |dir|
    ensures forall i :: 0 <= i < |dir| ==> r[i] == DirVarName(dir[i].0)
  {
    seq(|dir|, i requires 0 <= i < |dir| => DirVarName(dir[i].0))
  }

  /** The variables every installer Makefile starts from. */
  function BaseVars(projectId: string): Hash
  {
    [("PACKAGE", Str(projectId)),
     ("PKGINCLUDEDIR", Str("$(INCLUDEDIR)/$(PACKAGE)")),
     ("PKGDATADIR", Str("$(DATADIR)/$(PACKAGE)")),
     ("PKGLIBDIR", Str("$(LIBDIR)/$(PACKAGE)"))]
  }

  /** `tmp['INSTALL'] = @path unless @path.nil?` */
  function WithInstall(h: Hash, path: Option<string>): Hash
  {
    if path.Some? then HashPut(h, "INSTALL", Str(path.value)) else h
  }

  /** `@dir.each { |k, v| tmp[name(k)] = v }` */
  function PutDirs(h: Hash, dir: seq<(string, string)>): Hash
    decreases |dir|
  {
    if dir == [] then h
    else HashPut(PutDirs(h, dir[..|dir| - 1]), DirVarName(dir[|dir| - 1].0), Str(dir[|dir| - 1].1))
  }

  /** The `tmp` hash of `to_make`: distinct names, String values. */
  function VarsHash(projectId: string, path: Option<string>, dir: seq<(string, string)>): (r: Hash)
    ensures NoDuplicates(HashKeys(r)) && AllStr(r)
  {
    var b := BaseVars(projectId);
    BaseVarsShape(projectId);
    if path.Some? then
      HashPutKeys(b, "INSTALL", Str(path.value));
      HashPutAllStr(b, "INSTALL", Str(path.value));
      PutDirsShape(WithInstall(b, path), dir);
      PutDirs(WithInstall(b, path), dir)
    else
      PutDirsShape(WithInstall(b, path), dir);
      PutDirs(WithInstall(b, path), dir)
  }

  predicate AllStr(h: Hash)
  {
    forall i :: 0 <= i < |h| ==> h[i].1.Str?
  }

  lemma {:induction false} HashPutAllStr(h: Hash, k: string, v: RValue)
    requires AllStr(h) && v.Str?
    ensures AllStr(HashPut(h, k, v))
  {
    if h != [] && h[0].0 != k {
      HashPutAllStr(h[1..], k, v);
    }
  }

  /** A value put last for a name is what the name holds; other names keep their values. */
  lemma {:induction false} PutDirsGet(h: Hash, dir: seq<(string, string)>, n: string)
    ensures n !in DirNames(dir) ==> HashGet(PutDirs(h, dir), n) == HashGet(h, n)
    ensures NoDuplicates(DirNames(dir)) ==>
              forall i :: 0 <= i < |dir| && DirVarName(dir[i].0) == n ==> HashGet(PutDirs(h, dir), n) == Some(Str(dir[i].1))
    decreases |dir|
  {
    if dir != [] {
      var init := dir[..|dir| - 1];
      assert DirNames(dir) == DirNames(init) + [DirVarName(dir[|dir| - 1].0)];
      PutDirsGet(h, init, n);
      HashPutGet(PutDirs(h, init), DirVarName(dir[|dir| - 1].0), Str(dir[|dir| - 1].1), n);
      if NoDuplicates(DirNames(dir)) {
        NoDuplicatesPrefix(DirNames(init), DirVarName(dir[|dir| - 1].0));
      }
    }
  }

  lemma {:induction false} PutDirsShape(h: Hash, dir: seq<(string, string)>)
    requires NoDuplicates(HashKeys(h)) && AllStr(h)
    ensures NoDuplicates(HashKeys(PutDirs(h, dir))) && AllStr(PutDirs(h, dir))
    decreases |dir|
  {
    if dir != [] {
      var init := dir[..|dir| - 1];
      PutDirsShape(h, init);
      HashPutKeys(PutDirs(h, init), DirVarName(dir[|dir| - 1].0), Str(dir[|dir| - 1].1));
      HashPutAllStr(PutDirs(h, init), DirVarName(dir[|dir| - 1].0), Str(dir[|dir| - 1].1));
    }
  }

  /** The four fixed variables are distinct names with String values, and `INSTALL` is not among them. */
  lemma BaseVarsShape(projectId: string)
    ensures NoDuplicates(HashKeys(BaseVars(projectId))) && AllStr(BaseVars(projectId))
    ensures HashGet(BaseVars(projectId), "INSTALL") == None
    ensures HashGet(BaseVars(projectId), "PACKAGE") == Some(Str(projectId))
  {
    var b := BaseVars(projectId);
    var b1, b2, b3 := b[1..], b[2..], b[3..];
    assert b1[1..] == b2 && b2[1..] == b3 && b3[1..] == [];
    assert HashKeys(b3) == ["PKGLIBDIR"];
    assert HashKeys(b2) == ["PKGDATADIR", "PKGLIBDIR"];
    assert HashKeys(b1) == ["PKGINCLUDEDIR", "PKGDATADIR", "PKGLIBDIR"];
    assert HashKeys(b) == ["PACKAGE", "PKGINCLUDEDIR", "PKGDATADIR", "PKGLIBDIR"];
    assert HashGet(b3, "INSTALL") == None;
    assert HashGet(b2, "INSTALL") == None;
    assert HashGet(b1, "INSTALL") == None;
  }

  /** What the `tmp` hash holds for each directory, for `INSTALL` and for `PACKAGE`. */
  lemma VarsHashGet(projectId: string, path: Option<string>, dir: seq<(string, string)>)
    requires NoDuplicates(DirNames(dir))
    ensures var tmp := VarsHash(projectId, path, dir);
            && (forall i :: 0 <= i < |dir| ==> HashGet(tmp, DirVarName(dir[i].0)) == Some(Str(dir[i].1)))
            && ("INSTALL" !in DirNames(dir) ==> HashGet(tmp, "INSTALL") == if path.Some? then Some(Str(path.value)) else None)
            && ("PACKAGE" !in DirNames(dir) ==> HashGet(tmp, "PACKAGE") == Some(Str(projectId)))
  {
    var b := BaseVars(projectId);
    var w := WithInstall(b, path);
    BaseVarsShape(projectId);
    forall i | 0 <= i < |dir|
      ensures HashGet(PutDirs(w, dir), DirVarName(dir[i].0)) == Some(Str(dir[i].1))
    {
      PutDirsGet(w, dir, DirVarName(dir[i].0));
    }
    PutDirsGet(w, dir, "INSTALL");
    PutDirsGet(w, dir, "PACKAGE");
    if path.Some? {
      HashPutGet(b, "INSTALL", Str(path.value), "INSTALL");
      HashPutGet(b, "INSTALL", Str(path.value), "PACKAGE");
    }
  }

  /** The String a name holds in `h`. */
  function StrValue(h: Hash, k: string): string
  {
    match HashGet(h, k)
    case Some(Str(s)) => s
    case _ => ""
  }

  /** `tmp.each { |k, v| m.define_variable(k, '=', v) }` */
  function DefinedAll(m: MakefileState, defs: Hash): (r: MakefileState)
    requires AllStr(defs)
    ensures r.targets == m.targets && r.mkdirList == m.mkdirList
    decreases |defs|
  {
    if defs == [] then m
    else
      var last := defs[|defs| - 1];
      Defined(DefinedAll(m, defs[..|defs| - 1]), Some(last.0), Some("="), Some(last.1.s)).value
  }

  /** Each name of the hash is defined with `=` and its value; other variables are untouched. */
  lemma {:induction false} DefinedAllVars(m: MakefileState, defs: Hash)
    requires AllStr(defs) && NoDuplicates(HashKeys(defs))
    ensures DefinedAll(m, defs).vars.Keys == m.vars.Keys + set k | k in HashKeys(defs)
    ensures forall k :: k in HashKeys(defs) ==> DefinedAll(m, defs).vars[k] == ("=", StrValue(defs, k))
    ensures forall k :: k in m.vars && k !in HashKeys(defs) ==> DefinedAll(m, defs).vars[k] == m.vars[k]
    decreases |defs|
  {
    if defs != [] {
      var init := defs[..|defs| - 1];
      var last := defs[|defs| - 1];
      assert defs == init + [last];
      HashKeysAppend(init, last.0, last.1);
      NoDuplicatesPrefix(HashKeys(init), last.0);
      DefinedAllVars(m, init);
      forall k | k in HashKeys(defs)
        ensures StrValue(defs, k) == if k == last.0 then last.1.s else StrValue(init, k)
      {
        HashGetAppend(init, last, k);
        HashGetFound(init, k);
      }
    }
  }

  /** The install and uninstall commands of the records, in registration order. */
  function InstallTexts(items: seq<Hash>): (r: seq<RValue>)
    requires forall i :: 0 <= i < |items| ==> ItemUsable(items[i])
    ensures |r| == |items|
    ensures forall i :: 0 <= i < |items| ==> r[i] == Str(InstallText(items[i]))
    decreases |items|
  {
    if items == [] then [] else InstallTexts(items[..|items| - 1]) + [Str(InstallText(items[|items| - 1]))]
  }

  function UninstallTexts(items: seq<Hash>): (r: seq<RValue>)
    requires forall i :: 0 <= i < |items| ==> ItemUsable(items[i])
    ensures |r| == |items|
    ensures forall i :: 0 <= i < |items| ==> r[i] == Str(UninstallText(items[i]))
    decreases |items|
  {
    if items == [] then [] else UninstallTexts(items[..|items| - 1]) + [Str(UninstallText(items[|items| - 1]))]
  }

  /** The rules of `@items.each`, on a Unix host. */
  function RulesAdded(m: MakefileState, items: seq<Hash>): MakefileState
    requires forall i :: 0 <= i < |items| ==> ItemUsable(items[i])
    decreases |items|
  {
    if items == [] then m
    else
      var last := items[|items| - 1];
      WithRuleAt(WithRuleAt(RulesAdded(m, items[..|items| - 1]), "install", Str(InstallText(last))), "uninstall", Str(UninstallText(last)))
  }

  /** `to_make`: throws on Windows as soon as there is a record to translate. */
  function InstallerMakefile(h: Host, projectId: string, path: Option<string>, dir: seq<(string, string)>, items: seq<Hash>): Result<MakefileState>
    requires forall i :: 0 <= i < |items| ==> ItemUsable(items[i])
  {
    if IsWindows(h) && items != [] then Err("FIXME")
    else
      var tmp := VarsHash(projectId, path, dir);
        Ok(RulesAdded(DefinedAll(Initial(), tmp), items))
  }

  lemma AppendOne(a: seq<RValue>, b: seq<RValue>, x: RValue)
    ensures a + b + [x] == a + (b + [x])
  {
  }

  /** Each record adds exactly one install rule and one uninstall rule, in registration order. */
  lemma {:induction false} RulesAddedRules(m: MakefileState, items: seq<Hash>)
    requires forall i :: 0 <= i < |items| ==> ItemUsable(items[i])
    ensures TargetOrEmpty(RulesAdded(m, items), "install").rules == TargetOrEmpty(m, "install").rules + InstallTexts(items)
    ensures TargetOrEmpty(RulesAdded(m, items), "uninstall").rules == TargetOrEmpty(m, "uninstall").rules + UninstallTexts(items)
    ensures RulesAdded(m, items).vars == m.vars
    decreases |items|
  {
    if items != [] {
      var init := items[..|items| - 1];
      var last := items[|items| - 1];
      var p := RulesAdded(m, init);
      RulesAddedRules(m, init);
      var p1 := WithRuleAt(p, "install", Str(InstallText(last)));
      assert TargetOrEmpty(p1, "uninstall") == TargetOrEmpty(p, "uninstall");
      AppendOne(TargetOrEmpty(m, "install").rules, InstallTexts(init), Str(InstallText(last)));
      AppendOne(TargetOrEmpty(m, "uninstall").rules, UninstallTexts(init), Str(UninstallText(last)));
    }
  }

  /**
   * `to_make` fails only on Windows with records to translate.  Otherwise
   * the Makefile's `install` and `uninstall` targets hold one command per
   * record, in registration order, and nothing else.
   */
  lemma InstallerRules(h: Host, projectId: string, path: Option<string>, dir: seq<(string, string)>, items: seq<Hash>)
    requires forall i :: 0 <= i < |items| ==> ItemUsable(items[i])
    ensures InstallerMakefile(h, projectId, path, dir, items).Err? <==> IsWindows(h) && items != []
    ensures InstallerMakefile(h, projectId, path, dir, items).Ok? ==>
              var m := InstallerMakefile(h, projectId, path, dir, items).value;
              && TargetOrEmpty(m, "install").rules == InstallTexts(items)
              && TargetOrEmpty(m, "uninstall").rules == UninstallTexts(items)
  {
    if !(IsWindows(h) && items != []) {
      var tmp := VarsHash(projectId, path, dir);
        var d := DefinedAll(Initial(), tmp);
      assert "install" in FixedTargets && "uninstall" in FixedTargets;
      RulesAddedRules(d, items);
    }
  }

  /** The variables defined from the `tmp` hash on a fresh Makefile. */
  lemma VarsDefined(projectId: string, path: Option<string>, dir: seq<(string, string)>)
    requires NoDuplicates(DirNames(dir))
    ensures var vars := DefinedAll(Initial(), VarsHash(projectId, path, dir)).vars;
            && (forall i :: 0 <= i < |dir| ==> DirVarName(dir[i].0) in vars && vars[DirVarName(dir[i].0)] == ("=", dir[i].1))
            && ("INSTALL" !in DirNames(dir) ==> ("INSTALL" in vars <==> path.Some?))
            && ("INSTALL" !in DirNames(dir) && path.Some? ==> "INSTALL" in vars && vars["INSTALL"] == ("=", path.value))
            && ("PACKAGE" !in DirNames(dir) ==> "PACKAGE" in vars && vars["PACKAGE"] == ("=", projectId))
  {
    var tmp := VarsHash(projectId, path, dir);
    VarsHashGet(projectId, path, dir);
    forall i | 0 <= i < |dir|
      ensures var vars := DefinedAll(Initial(), tmp).vars;
              DirVarName(dir[i].0) in vars && vars[DirVarName(dir[i].0)] == ("=", dir[i].1)
    {
      DefinedFrom(tmp, DirVarName(dir[i].0), dir[i].1);
    }
    if "INSTALL" !in DirNames(dir) {
      if path.Some? {
        DefinedFrom(tmp, "INSTALL", path.value);
      } else {
        DefinedAbsent(tmp, "INSTALL");
      }
    }
    if "PACKAGE" !in DirNames(dir) {
      DefinedFrom(tmp, "PACKAGE", projectId);
    }
  }

  /** A name the hash maps to a string is defined on a fresh Makefile with that value. */
  lemma DefinedFrom(tmp: Hash, k: string, v: string)
    requires AllStr(tmp) && NoDuplicates(HashKeys(tmp)) && HashGet(tmp, k) == Some(Str(v))
    ensures var vars := DefinedAll(Initial(), tmp).vars;
            k in vars && vars[k] == ("=", v)
  {
    DefinedAllVars(Initial(), tmp);
    HashGetFound(tmp, k);
  }

  /** A name the hash lacks is not defined on a fresh Makefile. */
  lemma DefinedAbsent(tmp: Hash, k: string)
    requires AllStr(tmp) && NoDuplicates(HashKeys(tmp)) && HashGet(tmp, k).None?
    ensures k !in DefinedAll(Initial(), tmp).vars
  {
    DefinedAllVars(Initial(), tmp);
    HashGetFound(tmp, k);
  }

  /**
   * The variables of `to_make`: each directory under its variable name
   * (when no two directories share a name), `INSTALL` exactly when an
   * installer was found (unless a directory is named so), and `PACKAGE`
   * the project's id (unless a directory is named so).
   */
  lemma InstallerVars(h: Host, projectId: string, path: Option<string>, dir: seq<(string, string)>, items: seq<Hash>)
    requires forall i :: 0 <= i < |items| ==> ItemUsable(items[i])
    requires InstallerMakefile(h, projectId, path, dir, items).Ok?
    requires NoDuplicates(DirNames(dir))
    ensures var m := InstallerMakefile(h, projectId, path, dir, items).value;
            && (forall i :: 0 <= i < |dir| ==> DirVarName(dir[i].0) in m.vars && m.vars[DirVarName(dir[i].0)] == ("=", dir[i].1))
            && ("INSTALL" !in DirNames(dir) ==> ("INSTALL" in m.vars <==> path.Some?))
            && ("INSTALL" !in DirNames(dir) && path.Some? ==> "INSTALL" in m.vars && m.vars["INSTALL"] == ("=", path.value))
            && ("PACKAGE" !in DirNames(dir) ==> "PACKAGE" in m.vars && m.vars["PACKAGE"] == ("=", projectId))
  {
    var d := DefinedAll(Initial(), VarsHash(projectId, path, dir));
    RulesAddedRules(d, items);
    VarsDefined(projectId, path, dir);
  }

  // ---------------------------------------------------------------------
  // The Installer
  // ---------------------------------------------------------------------

  lemma PutDirsPrefix(h: Hash, dir: seq<(string, string)>, i: nat)
    requires i < |dir|
    ensures PutDirs(h, dir[..i + 1]) == HashPut(PutDirs(h, dir[..i]), DirVarName(dir[i].0), Str(dir[i].1))
  {
    assert dir[..i + 1][..i] == dir[..i];
  }

  lemma DefinedAllPrefix(m: MakefileState, defs: Hash, i: nat)
    requires i < |defs| && AllStr(defs)
    ensures AllStr(defs[..i]) && AllStr(defs[..i + 1])
    ensures DefinedAll(m, defs[..i + 1]) == Defined(DefinedAll(m, defs[..i]), Some(defs[i].0), Some("="), Some(defs[i].1.s)).value
  {
    assert defs[..i + 1][..i] == defs[..i];
  }

  lemma RulesAddedPrefix(m: MakefileState, items: seq<Hash>, i: nat)
    requires i < |items| && forall j :: 0 <= j < |items| ==> ItemUsable(items[j])
    ensures RulesAdded(m, items[..i + 1])
         == WithRuleAt(WithRuleAt(RulesAdded(m, items[..i]), "install", Str(InstallText(items[i]))), "uninstall", Str(UninstallText(items[i])))
  {
    assert items[..i + 1][..i] == items[..i];
  }

  /** The `tmp` hash of `to_make`: the package variables, INSTALL when known, and each directory. */
  method CollectVars(projectId: string, path: Option<string>, dir: seq<(string, string)>) returns (tmp: Hash)
    ensures tmp == VarsHash(projectId, path, dir)
  {
    tmp := BaseVars(projectId);
    if path.Some? {
      tmp := HashPut(tmp, "INSTALL", Str(path.value));
    }
    for i := 0 to |dir|
      invariant tmp == PutDirs(WithInstall(BaseVars(projectId), path), dir[..i])
    {
      PutDirsPrefix(WithInstall(BaseVars(projectId), path), dir, i);
      tmp := HashPut(tmp, DirVarName(dir[i].0), Str(dir[i].1));
    }
    assert dir[..|dir|] == dir;
  }

  /** `tmp.each { |k, v| m.define_variable(k, '=', v) }` on a fresh Makefile. */
  method DefineEach(m: Makefile, tmp: Hash)
    requires AllStr(tmp) && m.State() == Initial()
    modifies m
    ensures m.State() == DefinedAll(Initial(), tmp)
  {
    assert tmp[..0] == [];
    for i := 0 to |tmp|
      invariant m.State() == DefinedAll(Initial(), tmp[..i])
    {
      DefineNext(m, tmp, i);
    }
    assert tmp[..|tmp|] == tmp;
  }

  /** One `define_variable` of `to_make`. */
  method DefineNext(m: Makefile, defs: Hash, i: nat)
    requires i < |defs| && AllStr(defs)
    requires m.State() == DefinedAll(Initial(), defs[..i])
    modifies m
    ensures m.State() == DefinedAll(Initial(), defs[..i + 1])
  {
    DefinedAllPrefix(Initial(), defs, i);
    var _ := m.DefineVariable(Some(defs[i].0), Some("="), Some(defs[i].1.s));
  }

  /** The two rules of one record. */
  method AddRulesNext(h: Host, m: Makefile, ghost start: MakefileState, items: seq<Hash>, i: nat) returns (r: Result<()>)
    requires i < |items| && forall j :: 0 <= j < |items| ==> ItemUsable(items[j])
    requires m.State() == RulesAdded(start, items[..i])
    modifies m
    ensures r.Err? <==> IsWindows(h)
    ensures r.Err? ==> r.error == "FIXME"
    ensures r.Ok? ==> m.State() == RulesAdded(start, items[..i + 1])
  {
    var ic := InstallCommand(h, items[i]);
    var uc := UninstallCommand(h, items[i]);
    if ic.Err? {
      return Err(ic.error);
    }
    m.AddRule("install", Str(ic.value));
    m.AddRule("uninstall", Str(uc.value));
    RulesAddedPrefix(start, items, i);
    return Ok(());
  }

  /** The Installer of trunk/installer.rb. */
  class Installer {
    /** The registered records, in call order. */
    var items: seq<Hash>
    /** The installation directories and their values. */
    var dir: seq<(string, string)>
    /** The `install` program `configure` found, if any. */
    var path: Option<string>

    constructor ()
      ensures items == [] && dir == DefaultDirs && path == None
    {
      items := [];
      dir := DefaultDirs;
      path := None;
    }

    /** `install(src)`: registers a record. */
    method Install(src: Hash) returns (r: Result<()>)
      modifies this
      ensures var spec := Registered(old(items), src);
              && (r.Ok? <==> spec.Ok?)
              && (r.Ok? ==> items == spec.value)
              && (r.Err? ==> r.error == spec.error && items == old(items))
      ensures dir == old(dir) && path == old(path)
    {
      var buf := Defaults;
      if Get(src, "dest").Nil? {
        return Err(DestRequired);
      }
      if Get(buf, "directory") == Bool(true) {
        return Err(NoMethodNil);
      }
      items := items + [HashMerge(buf, src)];
      return Ok(());
    }

    /** `to_make`: a fresh Makefile with the directory variables and the rules of every record. */
    method ToMake(h: Host, projectId: string) returns (r: Result<Makefile>)
      requires forall i :: 0 <= i < |items| ==> ItemUsable(items[i])
      ensures r.Ok? <==> InstallerMakefile(h, projectId, path, dir, items).Ok?
      ensures r.Err? ==> r.error == "FIXME"
      ensures r.Ok? ==> fresh(r.value) && r.value.host == h
                        && r.value.State() == InstallerMakefile(h, projectId, path, dir, items).value
    {
      var tmp := CollectVars(projectId, path, dir);
      var m := new Makefile(h);
      DefineEach(m, tmp);
      ghost var start := m.State();
      for i := 0 to |items|
        invariant m.State() == RulesAdded(start, items[..i])
        invariant i > 0 ==> !IsWindows(h)
      {
        var step := AddRulesNext(h, m, start, items, i);
        if step.Err? {
          return Err(step.error);
        }
      }
      assert items[..|items|] == items;
      return Ok(m);
    }
  }
}
