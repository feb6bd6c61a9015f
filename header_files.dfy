/*
 * The Header classes of tags/REL_0_2_0/trunk/lib/makeconf/header.rb and
 * trunk/lib/makeconf/header.rb: public C headers, which are distributed
 * with the sources and installed under `$(INCLUDEDIR)`, and for which
 * nothing is compiled or linked.
 *
 * The Buildable constructors and the project that owns the installer are
 * not part of this model: the constructors take the sources the Buildable
 * set, and `Build` takes the project's installer.
 */
module HeaderFiles {
  import opened Strings
  import opened RubyValues
  import opened Platform
  import opened Targets
  import opened Makefiles
  import Installers

  const IncludeDir := "$(INCLUDEDIR)"
  /** `'/' + @namespace` on a namespace that is not a String. */
  const NamespaceNotString := "TypeError: no implicit conversion into String"

  /** Where the headers of a namespace are installed: nil means `$(INCLUDEDIR)` itself. */
  function NamespacedDest(ns: RValue): (r: Result<string>)
  {
    if ns.Nil? then Ok(IncludeDir)
    else if ns.Str? then Ok(IncludeDir + "/" + ns.s)
    else Err(NamespaceNotString)
  }

  /**
   * Without a namespace the headers go to `$(INCLUDEDIR)`; a String
   * namespace names a subdirectory of it, different namespaces different
   * subdirectories, none of them `$(INCLUDEDIR)` itself; any other value
   * raises.
   */
  lemma NamespacedDestSpec(ns: RValue, other: RValue)
    ensures NamespacedDest(ns).Err? <==> !ns.Nil? && !ns.Str?
    ensures NamespacedDest(ns).Err? ==> NamespacedDest(ns).error == NamespaceNotString
    ensures NamespacedDest(ns) == Ok(IncludeDir) <==> ns.Nil?
    ensures ns.Str? ==> StartsWith(NamespacedDest(ns).value, IncludeDir + "/")
                        && NamespacedDest(ns).value[|IncludeDir| + 1..] == ns.s
    ensures ns.Str? && other.Str? && NamespacedDest(ns) == NamespacedDest(other) ==> ns == other
  {
    if ns.Str? {
      var d := NamespacedDest(ns).value;
      assert d[..|IncludeDir| + 1] == IncludeDir + "/";
      assert |d| > |IncludeDir|;
      if other.Str? && NamespacedDest(ns) == NamespacedDest(other) {
        assert NamespacedDest(other).value[|IncludeDir| + 1..] == other.s;
      }
    }
  }

  /** The record a header class registers. */
  function HeaderRecord(sources: seq<string>, dest: string): Hash
  {
    Installers.ModeRecord(List(Strs(sources)), dest, "644")
  }

  /** What `build` returns for the given sources. */
  function Built(sources: seq<string>): (r: MakefileState)
  {
    DistributedAll(Initial(), sources)
  }

  /**
   * The Makefile `build` returns has the fixed targets only, all empty but
   * `distdir`, and no variable: nothing is compiled or linked.  Headers at
   * the top level are copied into `$(distdir)` in order, and no directory is
   * created; without headers (a trunk Header whose sources were never
   * assigned) the Makefile is the bare one.
   */
  lemma BuiltOnlyDistributes(sources: seq<string>)
    ensures var m := Built(sources);
            && m.vars == map[] && m.mkdirList == []
            && (forall k :: k in m.targets <==> k in FixedTargets)
            && (forall k :: k in m.targets && k != "distdir" ==> m.targets[k] == Empty(k))
    ensures (forall i :: 0 <= i < |sources| ==> '/' !in sources[i]) ==>
              && "distdir" in Built(sources).targets
              && Built(sources).targets["distdir"].dirs == []
              && Lookup(Built(sources).targets["distdir"].copies, "$(distdir)") == sources
    ensures sources == [] ==> Built(sources) == Initial()
  {
    var m0 := Initial();
    FixedTargetsPresent(m0);
    if forall i :: 0 <= i < |sources| ==> '/' !in sources[i] {
      DistributeAllTopLevel(m0, sources);
      assert m0.targets["distdir"] == Empty("distdir");
      assert Lookup(Empty("distdir").copies, "$(distdir)") == [];
    }
  }

  /** The headers of the 0.2.0 release, which may sit in a namespace. */
  class NamespacedHeader {
    /** `options[:namespace]`, nil when absent. */
    const namespace: RValue
    /** The options the Buildable constructor receives: the given ones without `:namespace`. */
    const passed: Hash
    /** The headers, as the Buildable constructor expanded them. */
    var sources: seq<string>

    constructor (options: Hash, expanded: seq<string>)
      ensures namespace == (if HashGet(options, "namespace").Some? then HashGet(options, "namespace").value else Nil)
      ensures passed == HashDelete(options, "namespace")
      ensures sources == expanded
    {
      var ns := HashGet(options, "namespace");
      namespace := if ns.Some? then ns.value else Nil;
      passed := HashDelete(options, "namespace");
      sources := expanded;
    }

    /**
     * `build`: a new Makefile that distributes the headers, and one record
     * for the installer; a namespace that is not a String raises after the
     * Makefile was made, and nothing is registered.
     */
    method Build(h: Host, installer: Installers.Installer) returns (r: Result<Makefile>)
      modifies installer
      ensures r.Ok? <==> NamespacedDest(namespace).Ok?
      ensures r.Err? ==> r.error == NamespaceNotString && installer.items == old(installer.items)
      ensures r.Ok? ==> fresh(r.value) && r.value.host == h && r.value.Valid()
                        && r.value.State() == Built(sources)
                        && installer.items == old(installer.items)
                             + [HashMerge(Installers.Defaults, HeaderRecord(sources, NamespacedDest(namespace).value))]
      ensures installer.dir == old(installer.dir) && installer.path == old(installer.path)
    {
      var mk := new Makefile(h);
      mk.DistributeAll(sources);
      var dest := IncludeDir;
      if !namespace.Nil? {
        if !namespace.Str? {
          return Err(NamespaceNotString);
        }
        dest := dest + "/" + namespace.s;
      }
      Installers.ModeRecordRegistered(installer.items, List(Strs(sources)), dest, "644");
      var added := installer.Install(HeaderRecord(sources, dest));
      return Ok(mk);
    }

    /** Headers depend on no other header. */
    method Makedepends() returns (deps: seq<string>)
      ensures deps == []
    {
      deps := [];
    }
  }

  /**
   * The trunk Header.  Its constructor passes the whole options Hash to a
   * Buildable constructor that takes an id, so the options become the id,
   * and the sources stay empty until they are assigned.
   */
  class Header {
    const id: Hash
    var sources: seq<string>

    constructor (options: Hash)
      ensures id == options && sources == []
    {
      id := options;
      sources := [];
    }

    /** `build`: a new Makefile that distributes the headers, and one record to `$(INCLUDEDIR)`. */
    method Build(h: Host, installer: Installers.Installer) returns (mk: Makefile)
      modifies installer
      ensures fresh(mk) && mk.host == h && mk.Valid()
      ensures mk.State() == Built(sources)
      ensures installer.items == old(installer.items) + [HashMerge(Installers.Defaults, HeaderRecord(sources, IncludeDir))]
      ensures installer.dir == old(installer.dir) && installer.path == old(installer.path)
    {
      mk := new Makefile(h);
      mk.DistributeAll(sources);
      Installers.ModeRecordRegistered(installer.items, List(Strs(sources)), IncludeDir, "644");
      var added := installer.Install(HeaderRecord(sources, IncludeDir));
    }
  }
}
