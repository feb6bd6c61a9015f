/*
 * The Manual of lib/makeconf/manual.rb: a manual page that is distributed
 * with the sources and installed under `$(MANDIR)/man<section>`, where the
 * section is what follows the last `.` of the file name.
 *
 * The Buildable constructor that `super(options)` runs is the validation of
 * `Buildables.Validated` with no extra options; the installer is the one
 * the caller passes.
 */
module Manuals {
  import opened Strings
  import opened RubyValues
  import opened Platform
  import opened Targets
  import opened Makefiles
  import opened Buildables
  import Installers

  // ---------------------------------------------------------------------
  // The section: `source.sub(/^.*\./, '')`
  // ---------------------------------------------------------------------

  /** The end of the line that holds `p`: the next line break, or the end of the text. */
  function LineEnd(s: string, p: nat): (e: nat)
    requires p <= |s|
    ensures p <= e <= |s|
    ensures e == |s| || s[e] == '\n'
    decreases |s| - p
  {
    if p == |s| || s[p] == '\n' then p else LineEnd(s, p + 1)
  }

  /** The last `.` in `s[p..e]`, if any. */
  function LastDot(s: string, p: nat, e: nat): (q: Option<nat>)
    requires p <= e <= |s|
    ensures q.Some? ==> p <= q.value < e && s[q.value] == '.'
                        && forall i :: q.value < i < e ==> s[i] != '.'
    ensures q.None? ==> forall i :: p <= i < e ==> s[i] != '.'
    decreases e - p
  {
    if e == p then None
    else if s[e - 1] == '.' then Some(e - 1)
    else LastDot(s, p, e - 1)
  }

  /**
   * `sub` from line start `p` on: `^` matches at the start of every line and
   * `.*` stops at a line break, so the first line holding a `.` loses
   * everything up to and including its last `.`; the rest is kept.
   */
  function SubFrom(s: string, p: nat): string
    requires p <= |s|
    decreases |s| - p
  {
    var e := LineEnd(s, p);
    match LastDot(s, p, e)
    case Some(q) => s[..p] + s[q + 1..]
    case None => if e == |s| then s else SubFrom(s, e + 1)
  }

  /** The manual section of a source file name. */
  function Section(source: string): string
  {
    SubFrom(source, 0)
  }

  /** A text without a `.` is left as it is. */
  lemma {:induction false} SubFromWithoutDot(s: string, p: nat)
    requires p <= |s| && forall i :: 0 <= i < |s| ==> s[i] != '.'
    ensures SubFrom(s, p) == s
    decreases |s| - p
  {
    var e := LineEnd(s, p);
    if e < |s| {
      SubFromWithoutDot(s, e + 1);
    }
  }

  /** Without a line break, the line runs to the end of the text. */
  lemma {:induction false} NoBreakLineEnd(s: string, p: nat)
    requires p <= |s| && '\n' !in s
    ensures LineEnd(s, p) == |s|
    decreases |s| - p
  {
    if p < |s| {
      NoBreakLineEnd(s, p + 1);
    }
  }

  /** A name without a `.` is its own section. */
  lemma SectionWithoutDot(source: string)
    requires '.' !in source
    ensures Section(source) == source
  {
    SubFromWithoutDot(source, 0);
  }

  /**
   * For a one-line name holding a `.`, the section is the text after the
   * last `.`: it holds no `.`, and the name is whatever came before, a `.`,
   * then the section.
   */
  lemma SectionAfterLastDot(source: string)
    requires '\n' !in source && '.' in source
    ensures var r := Section(source);
            && |r| < |source|
            && '.' !in r
            && source[|source| - |r| - 1] == '.'
            && source[|source| - |r|..] == r
  {
    NoBreakLineEnd(source, 0);
    var q := LastDot(source, 0, |source|);
    assert q.Some?;
    var r := Section(source);
    assert r == source[q.value + 1..];
    assert forall i :: 0 <= i < |r| ==> r[i] == source[q.value + 1 + i];
  }

  /** `foo.3` is installed in section 3, `tar.gz.1` in section 1. */
  lemma SectionExamples()
    ensures Section("foo.3") == "3"
    ensures Section("tar.gz.1") == "1"
  {
    SectionAfterLastDot("foo.3");
    SectionAfterLastDot("tar.gz.1");
  }

  /** Where `install` puts a page of the given section. */
  function ManDest(section: string): string
  {
    "$(MANDIR)/man" + section
  }

  /** What `compile` returns: a new Makefile whose `distdir` copies the source. */
  function Compiled(source: string): (r: MakefileState)
  {
    Distributed(Initial(), source)
  }

  /**
   * The compiled Makefile has the fixed targets only, all empty except
   * `distdir`, which copies the source to `$(distdir)` (or to the directory
   * of the source below it, which it first creates); no variable is set.
   */
  lemma CompiledOnlyDistributes(source: string)
    ensures var m := Compiled(source);
            && m.vars == map[] && m.mkdirList == []
            && (forall k :: k in m.targets <==> k in FixedTargets)
            && (forall k :: k in m.targets && k != "distdir" ==> m.targets[k] == Empty(k))
            && "distdir" in m.targets
            && Lookup(m.targets["distdir"].copies, DistDestination(source)) == [source]
            && m.targets["distdir"].dirs == (if '/' in source then [DistDestination(source)] else [])
            && m.targets["distdir"].rules == [] && m.targets["distdir"].deps == []
  {
    var m0 := Initial();
    FixedTargetsPresent(m0);
    DistributeEffect(m0, source, "");
    assert m0.targets["distdir"] == Empty("distdir");
    assert Lookup(Empty("distdir").copies, DistDestination(source)) == [];
  }

  class Manual {
    const source: string
    /** Always `man`: only troff manual pages are handled. */
    const format: string
    const section: string
    /** The options the Buildable constructor set. */
    var vars: Hash

    constructor (source: string, vars: Hash)
      ensures this.source == source && format == "man" && section == Section(source)
      ensures this.vars == vars
    {
      this.source := source;
      format := "man";
      section := SubFrom(source, 0);
      this.vars := vars;
    }

    /** `install(installer)`: one record with the source, `$(MANDIR)/man<section>` and mode `644`. */
    method Install(installer: Installers.Installer)
      modifies installer
      ensures installer.items == old(installer.items) + [HashMerge(Installers.Defaults, Installers.ModeRecord(Str(source), ManDest(section), "644"))]
      ensures installer.dir == old(installer.dir) && installer.path == old(installer.path)
    {
      var rec := Installers.ModeRecord(Str(source), "$(MANDIR)/man" + section, "644");
      Installers.ModeRecordRegistered(installer.items, Str(source), ManDest(section), "644");
      var r := installer.Install(rec);
    }

    /** `compile(cc)`: a new Makefile that only distributes the source. */
    method Compile(h: Host) returns (mk: Makefile)
      ensures fresh(mk) && mk.host == h
      ensures mk.State() == Compiled(source) && mk.Valid()
    {
      mk := new Makefile(h);
      mk.Distribute(source);
    }

    /** `link(ld)` does nothing; `makedepends` names no headers. */
    method Makedepends() returns (deps: seq<string>)
      ensures deps == []
    {
      deps := [];
    }
  }

  /** `Manual.new(source, options)`: the section, then the Buildable constructor, which may raise. */
  method NewManual(source: string, options: Hash) returns (r: Result<Manual>)
    ensures r.Err? <==> Validated(options, []).Err?
    ensures r.Err? ==> r.error == Validated(options, []).error
    ensures r.Ok? ==> fresh(r.value) && r.value.source == source && r.value.section == Section(source)
                      && r.value.vars == Validated(options, []).value
  {
    var v := Validate(options, []);
    if v.Err? {
      return Err(v.error);
    }
    var m := new Manual(source, v.value);
    return Ok(m);
  }

  /**
   * The Buildable defaults hold a nil `:id`, so a manual made without an
   * `:id` option raises "Missing argument: `id'".
   */
  lemma ManualNeedsId(options: Hash)
    requires HashGet(options, "id").None? || HashGet(options, "id") == Some(Nil)
    ensures Validated(options, []) == Err(MissingArgument("id"))
  {
    MissingId(options, []);
  }
}
